/** What alert rules watch and what is observed of it. */
module Alerts {

  /** Other stands for the items that the periodic rounds do not check. */
  datatype Item = Status | Cpu | Memory | Disk | ReadIops | WriteIops | Bandwidth | Expiry | Other

  /** Items whose observations are queried from the time series. */
  predicate InTimeSeries(item: Item) {
    !item.Expiry? && !item.Other?
  }

  predicate IsMetric(item: Item) {
    InTimeSeries(item) && !item.Status?
  }

  datatype Observation = Absent | Present(value: real)
}
