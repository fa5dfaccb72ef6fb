/** What several modules share. */
module Prelude {

  datatype Option<T> = None | Some(value: T)

  type byte = x: int | 0 <= x < 256
  type Bytes = seq<byte>

  const TWO_TO_64 := 0x1_0000_0000_0000_0000

  function Min(a: int, b: int): int {
    if a < b then a else b
  }

  predicate Increasing(a: seq<int>) {
    forall i, j :: 0 <= i < j < |a| ==> a[i] < a[j]
  }

  predicate Distinct<T(==)>(a: seq<T>) {
    forall i, j :: 0 <= i < j < |a| ==> a[i] != a[j]
  }

  function Elements<T>(a: seq<T>): set<T> {
    set x | x in a
  }

  /** A set that is not empty has a member to pick. */
  lemma Inhabited(a: set<int>)
    ensures a == {} || exists x :: x in a
  {
    if forall x :: x !in a {
      assert a == {};
    }
  }
}
