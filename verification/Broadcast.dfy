/** Newest-wins broadcast into one-slot channels, after broadcast of both snapshot sources.

    A channel operation is one step. The broadcaster holds the source's lock from Begin to
    End, so nobody subscribes, unsubscribes or broadcasts meanwhile; receivers take no lock
    and may empty a channel between any two steps. Results are numbered in the order in
    which they are broadcast. */
module Broadcast {
  import opened Prelude

  datatype Slot = Empty | Full(result: nat)

  // ------------------------------------------------------------------ with nobody receiving

  class Source {
    var slots: map<nat, Slot>

    constructor ()
      ensures slots == map[]
    {
      slots := map[];
    }

    /** While nobody receives, every subscriber's slot ends up holding this result. */
    method Broadcast(result: nat)
      modifies this
      ensures slots.Keys == old(slots.Keys)
      ensures forall sub :: sub in slots ==> slots[sub] == Full(result)
    {
      var todo := slots.Keys;
      while todo != {}
        invariant slots.Keys == old(slots.Keys) && todo <= slots.Keys
        invariant forall sub :: sub in slots && sub !in todo ==> slots[sub] == Full(result)
        decreases |todo|
      {
        Inhabited(todo);
        var sub :| sub in todo;
        if slots[sub] != Empty {
          slots := slots[sub := Empty];
        }
        slots := slots[sub := Full(result)];
        todo := todo - {sub};
      }
    }
  }

  // ------------------------------------------------------------------ with receivers

  datatype Cursor = Between | Draining(sub: nat) | Resending(sub: nat)

  datatype Pc = Free | Sending(todo: set<nat>, cursor: Cursor)

  /** A subscriber's channel, what it has received so far, and how many results had been
      broadcast when it joined. */
  datatype Channel = Channel(slot: Slot, received: seq<nat>, since: nat)

  datatype State = State(channels: map<nat, Channel>, subscribers: set<nat>, sent: nat, pc: Pc)

  datatype Step =
    | Subscribe(sub: nat)
    | Unsubscribe(sub: nat)
    | Begin
    | TrySend(sub: nat)
    | Drain(sub: nat)
    | Resend(sub: nat)
    | End
    | Receive(sub: nat)

  function Init(): State {
    State(map[], {}, 0, Free)
  }

  predicate Enabled(s: State, step: Step) {
    match step
    case Subscribe(sub) => s.pc.Free? && sub !in s.channels
    case Unsubscribe(_) => s.pc.Free?
    case Begin => s.pc.Free?
    case TrySend(sub) => s.pc.Sending? && s.pc.cursor.Between? && sub in s.pc.todo && sub in s.channels
    case Drain(sub) => s.pc.Sending? && s.pc.cursor == Draining(sub) && sub in s.channels
    case Resend(sub) => s.pc.Sending? && s.pc.cursor == Resending(sub) && sub in s.channels && s.sent > 0
    case End => s.pc.Sending? && s.pc.cursor.Between? && s.pc.todo == {}
    case Receive(sub) => sub in s.channels && s.channels[sub].slot.Full?
  }

  /** A send that does not block: it only succeeds on an empty slot. */
  function Offered(c: Channel, result: nat): Channel {
    if c.slot.Empty? then c.(slot := Full(result)) else c
  }

  function Apply(s: State, step: Step): State
    requires Enabled(s, step)
  {
    match step
    case Subscribe(sub) =>
      s.(channels := s.channels[sub := Channel(Empty, [], s.sent)], subscribers := s.subscribers + {sub})
    case Unsubscribe(sub) => s.(subscribers := s.subscribers - {sub})
    case Begin => s.(sent := s.sent + 1, pc := Sending(s.subscribers, Between))
    case TrySend(sub) =>
      var c := s.channels[sub];
      s.(channels := s.channels[sub := Offered(c, Newest(s))],
         pc := Sending(s.pc.todo - {sub}, if c.slot.Empty? then Between else Draining(sub)))
    case Drain(sub) =>
      s.(channels := s.channels[sub := s.channels[sub].(slot := Empty)], pc := s.pc.(cursor := Resending(sub)))
    case Resend(sub) =>
      s.(channels := s.channels[sub := Offered(s.channels[sub], Newest(s))], pc := s.pc.(cursor := Between))
    case End => s.(pc := Free)
    case Receive(sub) =>
      var c := s.channels[sub];
      s.(channels := s.channels[sub := c.(slot := Empty, received := c.received + [c.slot.result])])
  }

  /** The number of the result being, or last, broadcast. */
  function Newest(s: State): nat {
    if s.sent == 0 then 0 else s.sent - 1
  }

  predicate CanRun(s: State, steps: seq<Step>)
    decreases |steps|
  {
    |steps| == 0 || (Enabled(s, steps[0]) && CanRun(Apply(s, steps[0]), steps[1..]))
  }

  function Run(s: State, steps: seq<Step>): State
    requires CanRun(s, steps)
    decreases |steps|
  {
    if |steps| == 0 then s else Run(Apply(s, steps[0]), steps[1..])
  }

  // ------------------------------------------------------------------ what a subscriber gets

  /** What the subscriber has received and what waits for it. */
  function Seen(c: Channel): seq<nat> {
    c.received + if c.slot.Full? then [c.slot.result] else []
  }

  /** In order, and nothing from before the subscription or from the future. */
  predicate Ordered(c: Channel, below: nat) {
    && Increasing(Seen(c))
    && forall i :: 0 <= i < |Seen(c)| ==> c.since <= Seen(c)[i] < below
  }

  /** The last of the first `count` results is in the slot or was the last one received. */
  predicate UpToDate(c: Channel, count: nat) {
    count > c.since ==> |Seen(c)| > 0 && Seen(c)[|Seen(c)| - 1] == count - 1
  }

  /** Whether the broadcast under way, if any, has still to reach this subscriber. */
  predicate Pending(s: State, sub: nat) {
    s.pc.Sending? && (sub in s.pc.todo || s.pc.cursor == Draining(sub) || s.pc.cursor == Resending(sub))
  }

  predicate OneFits(s: State, sub: nat)
    requires sub in s.channels
  {
    var c := s.channels[sub];
    && c.since <= s.sent
    && Ordered(c, if Pending(s, sub) then Newest(s) else s.sent)
    && (Pending(s, sub) ==> c.since < s.sent)
    && (sub in s.subscribers ==>
          if !Pending(s, sub) then UpToDate(c, s.sent)
          else if s.pc.cursor == Resending(sub) then c.slot.Empty?
          else UpToDate(c, s.sent - 1))
  }

  predicate Inv(s: State) {
    && s.subscribers <= s.channels.Keys
    && (forall sub :: sub in s.channels ==> OneFits(s, sub))
    && (s.pc.Sending? ==>
          && s.sent > 0
          && s.pc.todo <= s.subscribers
          && (!s.pc.cursor.Between? ==> s.pc.cursor.sub in s.subscribers && s.pc.cursor.sub !in s.pc.todo))
  }

  lemma SeenAfterSend(c: Channel, result: nat)
    requires c.slot.Empty? && Ordered(c, result) && c.since <= result
    ensures Ordered(Offered(c, result), result + 1) && UpToDate(Offered(c, result), result + 1)
  {
    assert Seen(Offered(c, result)) == Seen(c) + [result];
  }

  lemma SeenAfterReceive(c: Channel)
    requires c.slot.Full?
    ensures Seen(c.(slot := Empty, received := c.received + [c.slot.result])) == Seen(c)
  {
  }

  lemma SeenAfterDrain(c: Channel, below: nat)
    requires Ordered(c, below)
    ensures Ordered(c.(slot := Empty), below)
  {
    var d := c.(slot := Empty);
    assert Seen(d) == Seen(c)[..|c.received|];
  }

  lemma InvKept(s: State, step: Step)
    requires Enabled(s, step) && Inv(s)
    ensures Inv(Apply(s, step))
  {
    var s' := Apply(s, step);
    forall sub | sub in s'.channels ensures OneFits(s', sub) {
      if sub in s.channels {
        assert OneFits(s, sub);
        ChannelKept(s, step, sub);
      }
    }
  }

  /** The step touches this subscriber's channel. */
  predicate Touches(step: Step, sub: nat) {
    step == TrySend(sub) || step == Drain(sub) || step == Resend(sub) || step == Receive(sub)
  }

  lemma OrderedWidens(c: Channel, below: nat, above: nat)
    requires Ordered(c, below) && below <= above
    ensures Ordered(c, above)
  {
  }

  lemma BystanderKept(s: State, step: Step, sub: nat)
    requires Enabled(s, step) && Inv(s) && sub in s.channels && OneFits(s, sub) && !Touches(step, sub)
    ensures OneFits(Apply(s, step), sub)
  {
    var s' := Apply(s, step);
    assert s'.channels[sub] == s.channels[sub];
    if step.Begin? {
      OrderedWidens(s.channels[sub], s.sent, s'.sent);
    }
  }

  lemma TrySendKept(s: State, sub: nat)
    requires Enabled(s, TrySend(sub)) && Inv(s) && OneFits(s, sub)
    ensures OneFits(Apply(s, TrySend(sub)), sub)
  {
    var s', c := Apply(s, TrySend(sub)), s.channels[sub];
    if c.slot.Empty? {
      SeenAfterSend(c, Newest(s));
      assert s'.channels[sub] == Offered(c, Newest(s));
    } else {
      assert s'.channels[sub] == c;
    }
  }

  lemma DrainKept(s: State, sub: nat)
    requires Enabled(s, Drain(sub)) && Inv(s) && OneFits(s, sub)
    ensures OneFits(Apply(s, Drain(sub)), sub)
  {
    SeenAfterDrain(s.channels[sub], Newest(s));
  }

  lemma ResendKept(s: State, sub: nat)
    requires Enabled(s, Resend(sub)) && Inv(s) && OneFits(s, sub)
    ensures OneFits(Apply(s, Resend(sub)), sub)
  {
    SeenAfterSend(s.channels[sub], Newest(s));
  }

  lemma ReceiveKept(s: State, sub: nat)
    requires Enabled(s, Receive(sub)) && OneFits(s, sub)
    ensures OneFits(Apply(s, Receive(sub)), sub)
  {
    var c, d := s.channels[sub], Apply(s, Receive(sub)).channels[sub];
    SeenAfterReceive(c);
    assert Seen(d) == Seen(c);
  }

  lemma ChannelKept(s: State, step: Step, sub: nat)
    requires Enabled(s, step) && Inv(s) && sub in s.channels
    ensures OneFits(Apply(s, step), sub)
  {
    assert OneFits(s, sub);
    if !Touches(step, sub) {
      BystanderKept(s, step, sub);
    } else {
      match step
      case TrySend(_) => TrySendKept(s, sub);
      case Drain(_) => DrainKept(s, sub);
      case Resend(_) => ResendKept(s, sub);
      case Receive(_) => ReceiveKept(s, sub);
    }
  }

  lemma {:induction false} InvKeptByRun(s: State, steps: seq<Step>)
    requires CanRun(s, steps) && Inv(s)
    ensures Inv(Run(s, steps))
    decreases |steps|
  {
    if |steps| > 0 {
      InvKept(s, steps[0]);
      InvKeptByRun(Apply(s, steps[0]), steps[1..]);
    }
  }

  /** However receives interleave with the broadcaster, a subscriber receives results in the
      order of their broadcasts, none twice and none from before it joined. */
  lemma ReceivedInOrder(steps: seq<Step>, sub: nat)
    requires CanRun(Init(), steps)
    requires sub in Run(Init(), steps).channels
    ensures var s := Run(Init(), steps); var c := s.channels[sub];
      && Increasing(c.received)
      && forall i :: 0 <= i < |c.received| ==> c.since <= c.received[i] < s.sent
  {
    InvKeptByRun(Init(), steps);
    var s := Run(Init(), steps);
    var c := s.channels[sub];
    assert OneFits(s, sub);
    assert forall i :: 0 <= i < |c.received| ==> c.received[i] == Seen(c)[i];
  }

  /** Whenever no broadcast is under way, the newest result broadcast since a subscriber
      joined waits in its slot or is the last one it received. */
  lemma NewestIsNeverLost(steps: seq<Step>, sub: nat)
    requires CanRun(Init(), steps)
    requires var s := Run(Init(), steps); sub in s.subscribers && s.pc.Free?
    ensures var s := Run(Init(), steps);
      && sub in s.channels
      && (s.sent > s.channels[sub].since ==>
            var c := s.channels[sub];
            if c.slot.Full? then c.slot.result == s.sent - 1
            else |c.received| > 0 && c.received[|c.received| - 1] == s.sent - 1)
  {
    InvKeptByRun(Init(), steps);
    assert OneFits(Run(Init(), steps), sub);
  }

  /** The second send always finds room: only the broadcaster fills a slot. */
  lemma SecondSendSucceeds(steps: seq<Step>, sub: nat)
    requires CanRun(Init(), steps) && Enabled(Run(Init(), steps), Resend(sub))
    ensures var s := Run(Init(), steps); Apply(s, Resend(sub)).channels[sub].slot == Full(s.sent - 1)
  {
    InvKeptByRun(Init(), steps);
    assert OneFits(Run(Init(), steps), sub);
  }

  /** A broadcaster that has begun can always take a further step, whatever receivers do. */
  lemma BroadcasterNeverBlocks(steps: seq<Step>)
    requires CanRun(Init(), steps) && Run(Init(), steps).pc.Sending?
    ensures exists step: Step :: !step.Receive? && Enabled(Run(Init(), steps), step)
  {
    InvKeptByRun(Init(), steps);
    var s := Run(Init(), steps);
    match s.pc.cursor
    case Draining(sub) => assert Enabled(s, Drain(sub));
    case Resending(sub) => assert Enabled(s, Resend(sub));
    case Between =>
      if s.pc.todo == {} {
        assert Enabled(s, End);
      } else {
        Inhabited(s.pc.todo);
        var sub :| sub in s.pc.todo;
        assert Enabled(s, TrySend(sub));
      }
  }

  /** Subscribing joins with an empty slot, for results from now on; unsubscribing leaves; and a
      broadcast is for exactly those that have joined. */
  lemma JoiningAndLeaving(s: State, sub: nat)
    requires s.pc.Free?
    ensures sub !in s.channels ==>
      var s' := Apply(s, Subscribe(sub));
      s'.subscribers == s.subscribers + {sub} && s'.channels == s.channels[sub := Channel(Empty, [], s.sent)]
    ensures Apply(s, Unsubscribe(sub)).subscribers == s.subscribers - {sub}
    ensures Apply(s, Begin).pc == Sending(s.subscribers, Between) && Apply(s, Begin).sent == s.sent + 1
  {
  }

  /** A receiver takes what is in its slot, whatever the broadcaster is doing. */
  lemma ReceiversTakeTheSlot(s: State, sub: nat)
    requires sub in s.channels && s.channels[sub].slot.Full?
    ensures Enabled(s, Receive(sub))
    ensures var c, c' := s.channels[sub], Apply(s, Receive(sub)).channels[sub];
      c'.slot.Empty? && c'.received == c.received + [c.slot.result] && Apply(s, Receive(sub)).pc == s.pc
  {
  }
}
