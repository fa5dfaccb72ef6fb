/** The reconnecting WebSocket client of pkg/ws/ws.go: its critical sections on the
    client's fields, and every interleaving of Connect, readers, senders, reconnects and
    Close. Connections, contexts and reconnect calls are numbered as they are made. */
module ReconnectingClient {
  import opened Prelude

  datatype Error = ClientClosed | ContextDone | ReconnectExhausted | DialFailed | CloseFrame

  /** The fields the mutex guards. */
  datatype Fields = Fields(
    conn: Option<nat>, call: Option<nat>, terminalErr: Option<Error>, closed: bool, ctx: Option<nat>, connecting: bool)

  // ------------------------------------------------------------------ critical sections

  predicate MayConnect(f: Fields) {
    !f.closed && !f.connecting && f.ctx.None?
  }

  function Connected(f: Fields, ctx: nat): Fields {
    if MayConnect(f) then f.(ctx := Some(ctx), connecting := true) else f
  }

  /** Connect's last section: a failed first dial lets Connect be called again. */
  function ConnectEnded(f: Fields, ctx: nat, failed: bool): Fields {
    if f.ctx != Some(ctx) then f
    else if failed && !f.closed then f.(connecting := false, ctx := None)
    else f.(connecting := false)
  }

  predicate MayInstall(f: Fields, ctx: nat, ctxDone: bool) {
    !f.closed && f.ctx == Some(ctx) && !ctxDone
  }

  function Installed(f: Fields, ctx: nat, ctxDone: bool, conn: nat): Fields {
    if MayInstall(f, ctx, ctxDone) then f.(conn := Some(conn)) else f
  }

  datatype Decision = Return(err: Option<Error>) | Wait(ctx: nat, call: nat) | Lead(ctx: nat)

  /** What reconnect decides under the lock. */
  function ReconnectDecision(f: Fields, failedConn: nat): Decision {
    if f.closed then Return(Some(ClientClosed))
    else if f.ctx.None? then Return(Some(CloseFrame))
    else if f.call.Some? then Wait(f.ctx.value, f.call.value)
    else if f.conn != Some(failedConn) then Return(None)
    else if f.terminalErr.Some? then Return(f.terminalErr)
    else Lead(f.ctx.value)
  }

  function ReconnectBegun(f: Fields, failedConn: nat, call: nat): Fields {
    if ReconnectDecision(f, failedConn).Lead? then f.(call := Some(call), conn := None) else f
  }

  function FinalError(f: Fields, err: Option<Error>): Option<Error> {
    if f.closed then Some(ClientClosed) else err
  }

  function ReconnectEnded(f: Fields, call: nat, err: Option<Error>): Fields {
    if f.call == Some(call) then f.(call := None, terminalErr := FinalError(f, err)) else f
  }

  function Closed(f: Fields): Fields {
    if f.closed then f else f.(closed := true, connecting := false, conn := None)
  }

  /** ReadMessage on a close frame that must not be reconnected. */
  function Refused(f: Fields, conn: nat): Fields {
    if f.conn == Some(conn) then f.(conn := None, terminalErr := Some(CloseFrame)) else f
  }

  class Client {
    var conn: Option<nat>
    var call: Option<nat>
    var terminalErr: Option<Error>
    var closed: bool
    var ctx: Option<nat>
    var connecting: bool

    ghost function State(): Fields
      reads this
    {
      Fields(conn, call, terminalErr, closed, ctx, connecting)
    }

    constructor ()
      ensures State() == Fields(None, None, None, false, None, false)
    {
      conn, call, terminalErr, closed, ctx, connecting := None, None, None, false, None, false;
    }

    method BeginConnect(newCtx: nat) returns (ok: bool)
      modifies this
      ensures ok == MayConnect(old(State())) && State() == Connected(old(State()), newCtx)
      ensures ok <==> !old(closed) && !old(connecting) && old(ctx) == None
      ensures State() == if ok then old(State()).(ctx := Some(newCtx), connecting := true) else old(State())
    {
      if closed {
        return false;
      }
      if connecting || ctx != None {
        return false;
      }
      ctx, connecting := Some(newCtx), true;
      ok := true;
    }

    method EndConnect(clientCtx: nat, failed: bool) returns (wasClosed: bool)
      modifies this
      ensures wasClosed == old(closed) && State() == ConnectEnded(old(State()), clientCtx, failed)
      ensures old(ctx) != Some(clientCtx) ==> State() == old(State())
      ensures old(ctx) == Some(clientCtx) ==>
        State() == old(State()).(connecting := false, ctx := if failed && !old(closed) then None else old(ctx))
    {
      if ctx == Some(clientCtx) {
        connecting := false;
        if failed && !closed {
          ctx := None;
        }
      }
      wasClosed := closed;
    }

    /** dial's last section; the caller closes its own connection or the displaced one. */
    method InstallDialled(dialCtx: nat, ctxDone: bool, dialled: nat) returns (installed: bool, displaced: Option<nat>)
      modifies this
      ensures installed == MayInstall(old(State()), dialCtx, ctxDone)
      ensures State() == Installed(old(State()), dialCtx, ctxDone, dialled)
      ensures displaced == if installed then old(conn) else None
      ensures installed <==> !old(closed) && old(ctx) == Some(dialCtx) && !ctxDone
      ensures State() == if installed then old(State()).(conn := Some(dialled)) else old(State())
    {
      if closed || ctx != Some(dialCtx) || ctxDone {
        return false, None;
      }
      displaced := conn;
      conn := Some(dialled);
      installed := true;
    }

    method BeginReconnect(failedConn: nat, newCall: nat) returns (d: Decision)
      modifies this
      ensures d == ReconnectDecision(old(State()), failedConn)
      ensures State() == ReconnectBegun(old(State()), failedConn, newCall)
      // closed, never connected, already reconnecting, already replaced, refused, or the leader
      ensures old(closed) ==> d == Return(Some(ClientClosed))
      ensures !old(closed) && old(ctx) == None ==> d == Return(Some(CloseFrame))
      ensures !old(closed) && old(ctx) != None && old(call) != None ==> d == Wait(old(ctx).value, old(call).value)
      ensures !old(closed) && old(ctx) != None && old(call) == None && old(conn) != Some(failedConn) ==> d == Return(None)
      ensures !old(closed) && old(ctx) != None && old(call) == None && old(conn) == Some(failedConn) ==>
                d == if old(terminalErr) != None then Return(old(terminalErr)) else Lead(old(ctx).value)
      ensures State() == if d.Lead? then old(State()).(call := Some(newCall), conn := None) else old(State())
    {
      if closed {
        return Return(Some(ClientClosed));
      }
      if ctx == None {
        return Return(Some(CloseFrame));
      }
      if call != None {
        return Wait(ctx.value, call.value);
      }
      if conn != Some(failedConn) {
        return Return(None);
      }
      if terminalErr != None {
        return Return(terminalErr);
      }
      d := Lead(ctx.value);
      call := Some(newCall);
      conn := None;
    }

    method EndReconnect(ownCall: nat, err: Option<Error>) returns (r: Option<Error>)
      modifies this
      ensures r == FinalError(old(State()), err) && State() == ReconnectEnded(old(State()), ownCall, err)
      ensures r == if old(closed) then Some(ClientClosed) else err
      ensures State() == if old(call) == Some(ownCall) then old(State()).(call := None, terminalErr := r) else old(State())
    {
      r := if closed then Some(ClientClosed) else err;
      if call == Some(ownCall) {
        call := None;
        terminalErr := r;
      }
    }

    method BeginClose() returns (toCancel: Option<nat>, toClose: Option<nat>)
      modifies this
      ensures State() == Closed(old(State()))
      ensures State() == if old(closed) then old(State()) else old(State()).(closed := true, connecting := false, conn := None)
      ensures old(closed) ==> toCancel == None && toClose == None
      ensures !old(closed) ==> toCancel == old(ctx) && toClose == old(conn)
    {
      if closed {
        return None, None;
      }
      closed, connecting := true, false;
      toCancel, toClose := ctx, conn;
      conn := None;
    }

    method Refuse(refused: nat)
      modifies this
      ensures State() == Refused(old(State()), refused)
      ensures State() == if old(conn) == Some(refused) then old(State()).(conn := None, terminalErr := Some(CloseFrame)) else old(State())
    {
      if conn == Some(refused) {
        conn := None;
        terminalErr := Some(CloseFrame);
      }
    }
  }

  // ------------------------------------------------------------------ threads

  /** A dial is made by Connect or by the reconnect leading a call. */
  datatype Purpose = Connecting | Reconnecting(k: nat)

  datatype Pc =
    | Idle
    | Dialling(ctx: nat, why: Purpose)
    | Dialled(ctx: nat, why: Purpose, held: nat)
    | Discarding(ctx: nat, why: Purpose, held: nat, err: Option<Error>)
    | Displacing(ctx: nat, why: Purpose, displaced: Option<nat>)
    | DialDone(ctx: nat, why: Purpose, err: Option<Error>)
    | Cancelling(toCancel: Option<nat>, toClose: Option<nat>)
    | Closing(toClose: Option<nat>)
    | Dropping(ctx: nat, k: nat, failedConn: nat)
    | Retrying(ctx: nat, k: nat)
    | Finishing(k: nat, err: Option<Error>)
    | Waiting(ctx: nat, k: nat)

  /** The result of a reconnect call, once it has one. */
  datatype Call = Pending | Done(err: Option<Error>)

  /** Fields, the world outside, the threads, and the record: which thread dialled each
      connection, which leads the call and which is connecting, connections ever current, and
      every answer a leader or waiter of a call returned. */
  datatype State = State(
    f: Fields, makers: seq<nat>, shut: set<nat>, contexts: nat, cancelled: set<nat>, calls: seq<Call>, threads: map<nat, Pc>,
    leader: Option<nat>, connector: Option<nat>, installed: set<nat>, answers: set<(nat, Option<Error>)>)

  datatype Step =
    | Connect(t: nat)
    | DialFails(t: nat, err: Error)
    | DialSucceeds(t: nat)
    | DeadlineFails(t: nat)
    | Install(t: nat)
    | CloseHeld(t: nat)
    | DialReturns(t: nat)
    | Cancel(t: nat)
    | Reconnect(t: nat, failedConn: nat)
    | GiveUp(t: nat, err: Error)
    | Retry(t: nat)
    | EndReconnect(t: nat)
    | WaitForConnection(t: nat)
    | WaiterSeesResult(t: nat)
    | WaiterSeesCancel(t: nat)
    | Close(t: nat)
    | TerminalClose(t: nat, conn: nat)
    | SenderCloses(conn: nat)
    | ParentCancels(ctx: nat)

  function Init(): State {
    State(Fields(None, None, None, false, None, false), [], {}, 0, {}, [], map[], None, None, {}, {})
  }

  function PcOf(s: State, t: nat): Pc {
    if t in s.threads then s.threads[t] else Idle
  }

  predicate Enabled(s: State, step: Step) {
    match step
    case Connect(t) => PcOf(s, t).Idle?
    case DialFails(t, _) => PcOf(s, t).Dialling?
    case DialSucceeds(t) => PcOf(s, t).Dialling?
    case DeadlineFails(t) => PcOf(s, t).Dialled?
    case Install(t) => PcOf(s, t).Dialled?
    case CloseHeld(t) =>
      PcOf(s, t).Discarding? || PcOf(s, t).Displacing? || PcOf(s, t).Closing? || PcOf(s, t).Dropping?
    case DialReturns(t) => PcOf(s, t).DialDone?
    case Cancel(t) => PcOf(s, t).Cancelling?
    case Reconnect(t, _) => PcOf(s, t).Idle?
    case GiveUp(t, _) => PcOf(s, t).Retrying?
    case Retry(t) => PcOf(s, t).Retrying?
    case EndReconnect(t) => PcOf(s, t).Finishing? && PcOf(s, t).k < |s.calls|
    case WaitForConnection(t) =>
      PcOf(s, t).Idle? && !s.f.closed && s.f.conn.None? && s.f.terminalErr.None? && s.f.call.Some? && s.f.ctx.Some?
    case WaiterSeesResult(t) => PcOf(s, t).Waiting? && PcOf(s, t).k < |s.calls| && s.calls[PcOf(s, t).k].Done?
    case WaiterSeesCancel(t) => PcOf(s, t).Waiting? && PcOf(s, t).ctx in s.cancelled
    case Close(t) => PcOf(s, t).Idle?
    case TerminalClose(t, conn) => PcOf(s, t).Idle? && conn in s.installed
    case SenderCloses(conn) => conn in s.installed
    case ParentCancels(_) => true
  }

  function With(s: State, t: nat, pc: Pc): State {
    s.(threads := s.threads[t := pc])
  }

  /** The connection a thread has to close before it goes on. */
  function ToClose(pc: Pc): Option<nat> {
    match pc
    case Discarding(_, _, held, _) => Some(held)
    case Displacing(_, _, displaced) => displaced
    case Cancelling(_, toClose) => toClose
    case Closing(toClose) => toClose
    case Dropping(_, _, failedConn) => Some(failedConn)
    case _ => None
  }

  function AfterClosing(pc: Pc): Pc {
    match pc
    case Discarding(ctx, why, _, err) => DialDone(ctx, why, err)
    case Displacing(ctx, why, _) => DialDone(ctx, why, None)
    case Dropping(ctx, k, _) => Retrying(ctx, k)
    case _ => Idle
  }

  function InstallStep(s: State, t: nat): State
    requires PcOf(s, t).Dialled?
  {
    var pc := PcOf(s, t);
    var done := pc.ctx in s.cancelled;
    if MayInstall(s.f, pc.ctx, done) then
      With(s.(f := Installed(s.f, pc.ctx, done, pc.held), installed := s.installed + {pc.held}), t,
           Displacing(pc.ctx, pc.why, s.f.conn))
    else
      With(s, t, Discarding(pc.ctx, pc.why, pc.held,
                            if s.f.closed then Some(ClientClosed) else if done then Some(ContextDone) else None))
  }

  function DialReturnsStep(s: State, t: nat): State
    requires PcOf(s, t).DialDone?
  {
    var pc := PcOf(s, t);
    match pc.why
    case Connecting =>
      With(s.(f := ConnectEnded(s.f, pc.ctx, pc.err.Some?)), t, if pc.err.Some? then Cancelling(Some(pc.ctx), None) else Idle)
    case Reconnecting(k) => With(s, t, if pc.err.None? then Finishing(k, None) else Retrying(pc.ctx, k))
  }

  function ReconnectStep(s: State, t: nat, failedConn: nat): State {
    var s' := s.(f := ReconnectBegun(s.f, failedConn, |s.calls|));
    match ReconnectDecision(s.f, failedConn)
    case Return(_) => s'
    case Wait(ctx, k) => With(s', t, Waiting(ctx, k))
    case Lead(ctx) => With(s'.(calls := s.calls + [Pending], leader := Some(t)), t, Dropping(ctx, |s.calls|, failedConn))
  }

  function EndReconnectStep(s: State, t: nat): State
    requires PcOf(s, t).Finishing? && PcOf(s, t).k < |s.calls|
  {
    var k, r := PcOf(s, t).k, FinalError(s.f, PcOf(s, t).err);
    With(s.(f := ReconnectEnded(s.f, k, PcOf(s, t).err), calls := s.calls[k := Done(r)], leader := None,
            answers := s.answers + {(k, r)}), t, Idle)
  }

  function Apply(s: State, step: Step): State
    requires Enabled(s, step)
  {
    match step
    case Connect(t) =>
      if MayConnect(s.f)
      then With(s.(f := Connected(s.f, s.contexts), contexts := s.contexts + 1, connector := Some(t)), t, Dialling(s.contexts, Connecting))
      else s
    case DialFails(t, err) => With(s, t, DialDone(PcOf(s, t).ctx, PcOf(s, t).why, Some(err)))
    case DialSucceeds(t) =>
      With(s.(makers := s.makers + [t]), t, Dialled(PcOf(s, t).ctx, PcOf(s, t).why, |s.makers|))
    case DeadlineFails(t) =>
      With(s, t, Discarding(PcOf(s, t).ctx, PcOf(s, t).why, PcOf(s, t).held, Some(DialFailed)))
    case Install(t) => InstallStep(s, t)
    case CloseHeld(t) =>
      var c := ToClose(PcOf(s, t));
      With(s.(shut := if c.Some? then s.shut + {c.value} else s.shut), t, AfterClosing(PcOf(s, t)))
    case DialReturns(t) => DialReturnsStep(s, t)
    case Cancel(t) =>
      var c := PcOf(s, t).toCancel;
      With(s.(cancelled := if c.Some? then s.cancelled + {c.value} else s.cancelled), t, Closing(PcOf(s, t).toClose))
    case Reconnect(t, failedConn) => ReconnectStep(s, t, failedConn)
    case GiveUp(t, err) => With(s, t, Finishing(PcOf(s, t).k, Some(err)))
    case Retry(t) => With(s, t, Dialling(PcOf(s, t).ctx, Reconnecting(PcOf(s, t).k)))
    case EndReconnect(t) => EndReconnectStep(s, t)
    case WaitForConnection(t) => With(s, t, Waiting(s.f.ctx.value, s.f.call.value))
    case WaiterSeesResult(t) =>
      With(s.(answers := s.answers + {(PcOf(s, t).k, s.calls[PcOf(s, t).k].err)}), t, Idle)
    case WaiterSeesCancel(t) => With(s, t, Idle)
    case Close(t) => if s.f.closed then s else With(s.(f := Closed(s.f)), t, Cancelling(s.f.ctx, s.f.conn))
    case TerminalClose(t, conn) => With(s.(f := Refused(s.f, conn)), t, Closing(Some(conn)))
    case SenderCloses(conn) => s.(shut := s.shut + {conn})
    case ParentCancels(ctx) => s.(cancelled := s.cancelled + {ctx})
  }

  predicate CanRun(s: State, steps: seq<Step>)
    decreases |steps|
  {
    |steps| == 0 || (Enabled(s, steps[0]) && CanRun(Apply(s, steps[0]), steps[1..]))
  }

  function Run(s: State, steps: seq<Step>): State
    requires CanRun(s, steps)
    decreases |steps|
  {
    if |steps| == 0 then s else Run(Apply(s, steps[0]), steps[1..])
  }

  // ------------------------------------------------------------------ the invariant

  /** The call a thread is leading. */
  function Leads(pc: Pc): Option<nat> {
    match pc
    case Dialling(_, Reconnecting(k)) => Some(k)
    case Dialled(_, Reconnecting(k), _) => Some(k)
    case Discarding(_, Reconnecting(k), _, _) => Some(k)
    case Displacing(_, Reconnecting(k), _) => Some(k)
    case DialDone(_, Reconnecting(k), _) => Some(k)
    case Dropping(_, k, _) => Some(k)
    case Retrying(_, k) => Some(k)
    case Finishing(k, _) => Some(k)
    case _ => None
  }

  /** A thread in the middle of Connect. */
  predicate InConnect(pc: Pc) {
    (pc.Dialling? || pc.Dialled? || pc.Discarding? || pc.Displacing? || pc.DialDone?) && pc.why.Connecting?
  }

  /** A thread answers for a connection: it must install it or close it. */
  predicate Holds(pc: Pc, conn: nat) {
    (pc.Dialled? && pc.held == conn) || ToClose(pc) == Some(conn)
  }

  predicate SomeoneHolds(s: State, conn: nat) {
    exists t :: t in s.threads && Holds(s.threads[t], conn)
  }

  predicate OwnedIn(s: State, conn: nat) {
    s.f.conn == Some(conn) || conn in s.shut || SomeoneHolds(s, conn)
  }

  /** Every connection ever dialled is current, closed, or some thread's to install or close. */
  predicate Owned(s: State) {
    forall conn: nat :: conn < |s.makers| ==> OwnedIn(s, conn)
  }

  /** A connection about to be installed was dialled by the thread that holds it and has
      never been current. */
  predicate NewlyDialled(s: State, t: nat, pc: Pc) {
    pc.Dialled? ==> pc.held < |s.makers| && s.makers[pc.held] == t && pc.held !in s.installed
  }

  predicate InstalledOnce(s: State) {
    && (forall conn :: conn in s.installed ==> conn < |s.makers|)
    && (s.f.conn.Some? ==> s.f.conn.value in s.installed)
    && (forall t :: t in s.threads ==> NewlyDialled(s, t, s.threads[t]))
  }

  /** The one leader leads the call in the client's field, which has no result yet; no other
      thread leads, and without a call nobody does. */
  predicate SingleFlight(s: State) {
    && (s.leader.Some? <==> s.f.call.Some?)
    && (forall t :: t in s.threads ==> (Leads(s.threads[t]).Some? <==> s.leader == Some(t)))
    && (s.leader.Some? ==> s.leader.value in s.threads && Leads(s.threads[s.leader.value]) == s.f.call)
    && (s.f.call.Some? ==> s.f.call.value < |s.calls| && s.calls[s.f.call.value].Pending?)
  }

  predicate AnswersAgree(s: State) {
    forall a :: a in s.answers ==> a.0 < |s.calls| && s.calls[a.0] == Done(a.1)
  }

  predicate CloseHolds(s: State) {
    && (s.f.closed ==> s.f.conn.None?)
    && (forall t :: t in s.threads && InConnect(s.threads[t]) && !s.f.closed ==> s.f.connecting && s.connector == Some(t))
  }

  predicate Inv(s: State) {
    Owned(s) && InstalledOnce(s) && SingleFlight(s) && AnswersAgree(s) && CloseHolds(s)
  }

  /** The thread that takes the step, if one does. */
  function Actor(step: Step): Option<nat> {
    if step.SenderCloses? || step.ParentCancels? then None else Some(step.t)
  }

  /** Every thread other than the one that takes the step stays where it was. */
  lemma BystanderStays(s: State, step: Step, u: nat)
    requires Enabled(s, step) && Actor(step) != Some(u)
    ensures PcOf(Apply(s, step), u) == PcOf(s, u) && (u in Apply(s, step).threads <==> u in s.threads)
  {
  }

  /** Whoever takes the current connection away, or makes one, holds it. */
  lemma TakerHolds(s: State, step: Step, conn: nat)
    requires Enabled(s, step) && conn < |Apply(s, step).makers|
    requires s.f.conn == Some(conn) || conn == |s.makers|
    ensures var s' := Apply(s, step);
      s'.f.conn == Some(conn) || (Actor(step).Some? && step.t in s'.threads && Holds(s'.threads[step.t], conn))
  {
  }

  /** A holder's own step installs the connection, closes it, or leaves it held. */
  lemma HolderKeeps(s: State, step: Step, conn: nat)
    requires Enabled(s, step) && Actor(step).Some? && Holds(PcOf(s, step.t), conn)
    ensures OwnedIn(Apply(s, step), conn)
  {
    var s' := Apply(s, step);
    if s'.f.conn != Some(conn) && conn !in s'.shut {
      assert step.t in s'.threads && Holds(s'.threads[step.t], conn);
    }
  }

  lemma ShutStays(s: State, step: Step)
    requires Enabled(s, step)
    ensures s.shut <= Apply(s, step).shut && |Apply(s, step).makers| <= |s.makers| + 1
  {
  }

  lemma OwnedAt(s: State, step: Step, conn: nat)
    requires Enabled(s, step) && Owned(s) && conn < |Apply(s, step).makers|
    ensures OwnedIn(Apply(s, step), conn)
  {
    ShutStays(s, step);
    if s.f.conn == Some(conn) || conn == |s.makers| {
      TakerHolds(s, step, conn);
    } else if conn !in s.shut {
      assert OwnedIn(s, conn);
      var u :| u in s.threads && Holds(s.threads[u], conn);
      if Actor(step) == Some(u) {
        HolderKeeps(s, step, conn);
      } else {
        BystanderStays(s, step, u);
        assert u in Apply(s, step).threads && Holds(Apply(s, step).threads[u], conn);
      }
    }
  }

  lemma OwnedKept(s: State, step: Step)
    requires Enabled(s, step) && Owned(s)
    ensures Owned(Apply(s, step))
  {
    forall conn: nat | conn < |Apply(s, step).makers|
      ensures OwnedIn(Apply(s, step), conn)
    {
      OwnedAt(s, step, conn);
    }
  }

  /** Only a successful dial makes a connection and only an install makes one current. */
  lemma MakersStay(s: State, step: Step)
    requires Enabled(s, step)
    ensures var s' := Apply(s, step);
      && s'.makers == (if step.DialSucceeds? then s.makers + [step.t] else s.makers)
      && (!step.Install? ==> s'.installed == s.installed && (s'.f.conn == s.f.conn || s'.f.conn.None?))
  {
  }

  lemma InstallKeepsOnce(s: State, t: nat)
    requires Enabled(s, Install(t)) && InstalledOnce(s)
    ensures InstalledOnce(Apply(s, Install(t)))
  {
    assert NewlyDialled(s, t, s.threads[t]);
    var s' := Apply(s, Install(t));
    forall u | u in s'.threads
      ensures NewlyDialled(s', u, s'.threads[u])
    {
      if u != t {
        assert NewlyDialled(s, u, s.threads[u]);
      }
    }
  }

  lemma ActorNewlyDialled(s: State, step: Step)
    requires Enabled(s, step) && InstalledOnce(s) && !step.Install? && Actor(step).Some?
    ensures var s' := Apply(s, step); NewlyDialled(s', step.t, PcOf(s', step.t))
  {
    if step.t in s.threads {
      assert NewlyDialled(s, step.t, s.threads[step.t]);
    }
  }

  lemma InstalledOnceKept(s: State, step: Step)
    requires Enabled(s, step) && InstalledOnce(s)
    ensures InstalledOnce(Apply(s, step))
  {
    if step.Install? {
      InstallKeepsOnce(s, step.t);
    } else {
      var s' := Apply(s, step);
      MakersStay(s, step);
      forall u | u in s'.threads
        ensures NewlyDialled(s', u, s'.threads[u])
      {
        if Actor(step) == Some(u) {
          ActorNewlyDialled(s, step);
        } else {
          BystanderStays(s, step, u);
          assert NewlyDialled(s, u, s.threads[u]);
        }
      }
    }
  }

  /** Only two steps touch the call; every other one leaves each thread leading what it led. */
  lemma CallStays(s: State, step: Step)
    requires Enabled(s, step) && !step.Reconnect? && !step.EndReconnect?
    ensures var s' := Apply(s, step); s'.f.call == s.f.call && s'.leader == s.leader && s'.calls == s.calls
  {
  }

  lemma ActorLeads(s: State, step: Step)
    requires Enabled(s, step) && !step.Reconnect? && !step.EndReconnect? && Actor(step).Some?
    ensures Leads(PcOf(Apply(s, step), step.t)) == Leads(PcOf(s, step.t))
  {
  }

  lemma LeadKept(s: State, step: Step, t: nat)
    requires Enabled(s, step) && !step.Reconnect? && !step.EndReconnect?
    ensures var s' := Apply(s, step); Leads(PcOf(s', t)) == Leads(PcOf(s, t))
    ensures t in s.threads ==> t in Apply(s, step).threads
  {
    if Actor(step) == Some(t) {
      ActorLeads(s, step);
    } else {
      BystanderStays(s, step, t);
    }
  }

  lemma SingleFlightKept(s: State, step: Step)
    requires Enabled(s, step) && SingleFlight(s)
    ensures SingleFlight(Apply(s, step))
  {
    if !step.Reconnect? && !step.EndReconnect? {
      CallStays(s, step);
      var s' := Apply(s, step);
      forall t | t in s'.threads
        ensures Leads(s'.threads[t]).Some? <==> s'.leader == Some(t)
      {
        LeadKept(s, step, t);
      }
      if s.leader.Some? {
        LeadKept(s, step, s.leader.value);
      }
    }
  }

  lemma AnswersKept(s: State, step: Step)
    requires Enabled(s, step) && SingleFlight(s) && AnswersAgree(s)
    ensures AnswersAgree(Apply(s, step))
  {
  }

  lemma CloseKept(s: State, step: Step)
    requires Enabled(s, step) && CloseHolds(s)
    ensures CloseHolds(Apply(s, step))
  {
    var s' := Apply(s, step);
    forall t | t in s'.threads && InConnect(s'.threads[t]) && !s'.f.closed
      ensures s'.f.connecting && s'.connector == Some(t)
    {
      ConnectorKept(s, step, t);
    }
  }

  lemma ConnectorKept(s: State, step: Step, t: nat)
    requires Enabled(s, step) && CloseHolds(s) && InConnect(PcOf(Apply(s, step), t)) && !Apply(s, step).f.closed
    ensures Apply(s, step).f.connecting && Apply(s, step).connector == Some(t)
  {
    if Actor(step) != Some(t) {
      BystanderStays(s, step, t);
      assert InConnect(s.threads[t]);
    }
  }

  lemma InvKept(s: State, step: Step)
    requires Enabled(s, step) && Inv(s)
    ensures Inv(Apply(s, step))
  {
    OwnedKept(s, step);
    InstalledOnceKept(s, step);
    SingleFlightKept(s, step);
    AnswersKept(s, step);
    CloseKept(s, step);
  }

  lemma {:induction false} InvKeptByRun(s: State, steps: seq<Step>)
    requires CanRun(s, steps) && Inv(s)
    ensures Inv(Run(s, steps))
    decreases |steps|
  {
    if |steps| > 0 {
      InvKept(s, steps[0]);
      InvKeptByRun(Apply(s, steps[0]), steps[1..]);
    }
  }

  // ------------------------------------------------------------------ main results

  /** No leak: in every reachable state every connection ever dialled is current, closed, or
      held by a thread that must install or close it before it goes on. */
  lemma NoConnectionLeaks(steps: seq<Step>, conn: nat)
    requires CanRun(Init(), steps) && conn < |Run(Init(), steps).makers|
    ensures var s := Run(Init(), steps);
      s.f.conn == Some(conn) || conn in s.shut || exists t :: t in s.threads && Holds(s.threads[t], conn)
  {
    InvKeptByRun(Init(), steps);
    assert OwnedIn(Run(Init(), steps), conn);
  }

  /** At most one reconnect runs at a time, and it is the one waiters are pointed to. */
  lemma OneReconnectAtATime(steps: seq<Step>, t: nat, u: nat)
    requires CanRun(Init(), steps)
    ensures var s := Run(Init(), steps);
      && (Leads(PcOf(s, t)).Some? && Leads(PcOf(s, u)).Some? ==> t == u)
      && (Leads(PcOf(s, t)).Some? ==> s.f.call == Leads(PcOf(s, t)))
      && (s.f.call.Some? ==> s.leader.Some? && Leads(PcOf(s, s.leader.value)) == s.f.call)
  {
    InvKeptByRun(Init(), steps);
  }

  /** The leader of a call and all its waiters return one and the same result. */
  lemma WaitersSeeTheResult(steps: seq<Step>, k: nat, a: Option<Error>, b: Option<Error>)
    requires CanRun(Init(), steps)
    requires (k, a) in Run(Init(), steps).answers && (k, b) in Run(Init(), steps).answers
    ensures a == b
  {
    InvKeptByRun(Init(), steps);
  }

  lemma RetiredStays(s: State, step: Step, conn: nat)
    requires Enabled(s, step) && InstalledOnce(s) && conn in s.installed && s.f.conn != Some(conn)
    ensures conn in Apply(s, step).installed && Apply(s, step).f.conn != Some(conn)
  {
    if step.Install? {
      assert NewlyDialled(s, step.t, PcOf(s, step.t));
    }
  }

  lemma {:induction false} RetiredForGood(s: State, steps: seq<Step>, conn: nat)
    requires CanRun(s, steps) && InstalledOnce(s) && conn in s.installed && s.f.conn != Some(conn)
    ensures Run(s, steps).f.conn != Some(conn)
    decreases |steps|
  {
    if |steps| > 0 {
      RetiredStays(s, steps[0], conn);
      InstalledOnceKept(s, steps[0]);
      RetiredForGood(Apply(s, steps[0]), steps[1..], conn);
    }
  }

  /** A connection that was current and no longer is never becomes current again. */
  lemma ReplacedNeverReturns(steps: seq<Step>, next: seq<Step>, later: seq<Step>, conn: nat)
    requires CanRun(Init(), steps) && CanRun(Run(Init(), steps), next)
    requires CanRun(Run(Run(Init(), steps), next), later)
    requires Run(Init(), steps).f.conn == Some(conn) && Run(Run(Init(), steps), next).f.conn != Some(conn)
    ensures Run(Run(Run(Init(), steps), next), later).f.conn != Some(conn)
  {
    var s := Run(Init(), steps);
    InvKeptByRun(Init(), steps);
    InvKeptByRun(s, next);
    InstalledGrows(s, next);
    RetiredForGood(Run(s, next), later, conn);
  }

  lemma {:induction false} InstalledGrows(s: State, steps: seq<Step>)
    requires CanRun(s, steps)
    ensures s.installed <= Run(s, steps).installed
    ensures s.f.closed ==> Run(s, steps).f.closed
    decreases |steps|
  {
    if |steps| > 0 {
      InstalledGrows(Apply(s, steps[0]), steps[1..]);
    }
  }

  /** After Close no connection is ever current. */
  lemma NothingCurrentAfterClose(steps: seq<Step>, later: seq<Step>)
    requires CanRun(Init(), steps) && CanRun(Run(Init(), steps), later) && Run(Init(), steps).f.closed
    ensures Run(Run(Init(), steps), later).f.conn.None?
  {
    InvKeptByRun(Init(), steps);
    InvKeptByRun(Run(Init(), steps), later);
    InstalledGrows(Run(Init(), steps), later);
  }

  // ------------------------------------------------------------------ a client can be stranded

  /** Open, past Connect, without a connection, a reconnect in progress or a terminal error:
      connection() has nothing to wait for and no error of its own to report. */
  predicate Stranded(f: Fields) {
    !f.closed && !f.connecting && f.ctx.Some? && f.conn.None? && f.call.None? && f.terminalErr.None?
  }

  lemma {:induction false} OneMore(s: State, steps: seq<Step>, step: Step)
    requires CanRun(s, steps) && Enabled(Run(s, steps), step)
    ensures CanRun(s, steps + [step]) && Run(s, steps + [step]) == Apply(Run(s, steps), step)
    decreases |steps|
  {
    var all := steps + [step];
    if |steps| == 0 {
      assert all[1..] == [];
    } else {
      assert all[1..] == steps[1..] + [step];
      OneMore(Apply(s, steps[0]), steps[1..], step);
    }
  }

  ghost predicate Reachable(s: State) {
    exists steps :: CanRun(Init(), steps) && Run(Init(), steps) == s
  }

  lemma Then(s: State, step: Step)
    requires Reachable(s) && Enabled(s, step)
    ensures Reachable(Apply(s, step))
  {
    var steps :| CanRun(Init(), steps) && Run(Init(), steps) == s;
    OneMore(Init(), steps, step);
  }

  /** A dial that succeeds and installs its connection, up to its return. */
  lemma Dials(s: State, t: nat) returns (later: State)
    requires Reachable(s) && PcOf(s, t).Dialling? && MayInstall(s.f, PcOf(s, t).ctx, PcOf(s, t).ctx in s.cancelled)
    ensures Reachable(later) && later.f == s.f.(conn := Some(|s.makers|))
    ensures |later.makers| == |s.makers| + 1 && |s.makers| in later.installed
    ensures later.calls == s.calls && later.cancelled == s.cancelled
    ensures later.threads == s.threads[t := DialDone(PcOf(s, t).ctx, PcOf(s, t).why, None)]
  {
    Then(s, DialSucceeds(t));
    var a := Apply(s, DialSucceeds(t));
    Then(a, Install(t));
    var b := Apply(a, Install(t));
    Then(b, CloseHeld(t));
    later := Apply(b, CloseHeld(t));
  }

  lemma Connects() returns (s: State)
    ensures Reachable(s) && s.f == Fields(Some(0), None, None, false, Some(0), false)
    ensures s.calls == [] && |s.makers| == 1 && s.cancelled == {} && s.threads == map[0 := Idle]
  {
    assert CanRun(Init(), []);
    Then(Init(), Connect(0));
    s := Dials(Apply(Init(), Connect(0)), 0);
    Then(s, DialReturns(0));
    s := Apply(s, DialReturns(0));
  }

  /** Thread 1 leads the reconnect for connection 0 and must close it. */
  lemma LosesConnection() returns (s: State)
    ensures Reachable(s) && s.f == Fields(None, Some(0), None, false, Some(0), false)
    ensures |s.calls| == 1 && |s.makers| == 1 && s.cancelled == {}
    ensures s.threads == map[0 := Idle, 1 := Dropping(0, 0, 0)]
  {
    s := Connects();
    Then(s, Reconnect(1, 0));
    s := Apply(s, Reconnect(1, 0));
  }

  /** It has closed it and is about to dial. */
  lemma DropsConnection() returns (s: State)
    ensures Reachable(s) && s.f == Fields(None, Some(0), None, false, Some(0), false)
    ensures |s.calls| == 1 && |s.makers| == 1 && s.cancelled == {}
    ensures s.threads == map[0 := Idle, 1 := Dialling(0, Reconnecting(0))]
  {
    s := LosesConnection();
    Then(s, CloseHeld(1));
    s := Apply(s, CloseHeld(1));
    Then(s, Retry(1));
    s := Apply(s, Retry(1));
  }

  /** Thread 1 has replaced connection 0; its last section is still to come. */
  lemma Reconnects() returns (s: State)
    ensures Reachable(s) && s.f == Fields(Some(1), Some(0), None, false, Some(0), false) && 1 in s.installed
    ensures |s.calls| == 1 && s.threads == map[0 := Idle, 1 := Finishing(0, None)]
  {
    s := DropsConnection();
    s := Dials(s, 1);
    Then(s, DialReturns(1));
    s := Apply(s, DialReturns(1));
  }

  /** It happens: a terminal close frame read from the replacement connection, before the
      reconnect that made it runs its last section, has its error overwritten by that section. */
  lemma StrandingHappens()
    ensures exists s :: Reachable(s) && Stranded(s.f)
  {
    var s := Reconnects();
    Then(s, TerminalClose(2, 1));
    s := Apply(s, TerminalClose(2, 1));
    Then(s, EndReconnect(1));
    assert Stranded(Apply(s, EndReconnect(1)).f);
  }

  lemma {:induction false} StrandedForGood(s: State, steps: seq<Step>)
    requires CanRun(s, steps) && Inv(s) && Stranded(s.f)
    ensures Stranded(Run(s, steps).f) || Run(s, steps).f.closed
    ensures Run(s, steps).f.conn.None?
    decreases |steps|
  {
    if |steps| > 0 {
      var s' := Apply(s, steps[0]);
      InvKept(s, steps[0]);
      if s'.f.closed {
        InstalledGrows(s', steps[1..]);
        InvKeptByRun(s', steps[1..]);
      } else {
        StrandedForGood(s', steps[1..]);
      }
    }
  }

  /** And it lasts: a stranded client never has a current connection again; only Close ends it. */
  lemma StrandingLasts(steps: seq<Step>, later: seq<Step>)
    requires CanRun(Init(), steps) && CanRun(Run(Init(), steps), later) && Stranded(Run(Init(), steps).f)
    ensures var f := Run(Run(Init(), steps), later).f; f.conn.None? && (Stranded(f) || f.closed)
  {
    InvKeptByRun(Init(), steps);
    StrandedForGood(Run(Init(), steps), later);
  }

  /** A step strands the client when a reconnect reports success although the connection it
      installed has already been taken away, or when the first Connect returns just after
      such a reconnect. */
  predicate Strands(s: State, step: Step) {
    var f := s.f;
    && !f.closed && f.conn.None?
    && (if step.EndReconnect? then !f.connecting && f.ctx.Some? && PcOf(s, step.t).Finishing? && PcOf(s, step.t).err.None?
        else
          && step.DialReturns? && f.connecting && f.call.None? && f.terminalErr.None?
          && InConnect(PcOf(s, step.t)) && PcOf(s, step.t).DialDone?
          && PcOf(s, step.t).err.None? && f.ctx == Some(PcOf(s, step.t).ctx))
  }

  lemma StrandsExactly(s: State, step: Step)
    requires Enabled(s, step) && SingleFlight(s) && CloseHolds(s) && !Stranded(s.f)
    ensures Stranded(Apply(s, step).f) <==> Strands(s, step)
  {
  }

  predicate EverStranded(s: State, steps: seq<Step>)
    requires CanRun(s, steps)
    decreases |steps|
  {
    Stranded(s.f) || (|steps| > 0 && EverStranded(Apply(s, steps[0]), steps[1..]))
  }

  predicate EverStrands(s: State, steps: seq<Step>)
    requires CanRun(s, steps)
    decreases |steps|
  {
    |steps| > 0 && (Strands(s, steps[0]) || EverStrands(Apply(s, steps[0]), steps[1..]))
  }

  lemma {:induction false} StrandedIffStrands(s: State, steps: seq<Step>)
    requires CanRun(s, steps) && Inv(s) && !Stranded(s.f)
    ensures EverStranded(s, steps) <==> EverStrands(s, steps)
    decreases |steps|
  {
    if |steps| > 0 {
      var s' := Apply(s, steps[0]);
      StrandsExactly(s, steps[0]);
      if !Stranded(s'.f) {
        InvKept(s, steps[0]);
        StrandedIffStrands(s', steps[1..]);
      }
    }
  }

  /** So a run never strands the client, and whoever finds no connection always finds a
      reconnect to wait for or an error to return, exactly if it never takes such a step. */
  lemma NeverStrandedExactly(steps: seq<Step>)
    requires CanRun(Init(), steps)
    ensures EverStranded(Init(), steps) <==> EverStrands(Init(), steps)
  {
    StrandedIffStrands(Init(), steps);
  }

  // ------------------------------------------------------------------ only a terminal close strands

  /** There is a connection, a reconnect on its way to one, or an error to report. */
  predicate HasWay(f: Fields) {
    f.conn.Some? || f.call.Some? || f.terminalErr.Some?
  }

  /** Where a thread's dial stands, as long as the client is open and nobody was refused: it
      works under the client's context; before the first install there is nothing yet; after
      it the connection is there, was lost to a reconnect, or an error is recorded; and a
      reconnect that is about to report success has its connection. */
  predicate DialFits(f: Fields, pc: Pc) {
    match pc
    case Dialling(ctx, why) => f.ctx == Some(ctx) && (why.Connecting? ==> !HasWay(f))
    case Dialled(ctx, why, _) => f.ctx == Some(ctx) && (why.Connecting? ==> !HasWay(f))
    case Discarding(ctx, why, _, err) => f.ctx == Some(ctx) && err.Some? && (why.Connecting? ==> !HasWay(f))
    case Displacing(ctx, why, _) => f.ctx == Some(ctx) && (if why.Connecting? then HasWay(f) else f.conn.Some?)
    case DialDone(ctx, why, err) =>
      f.ctx == Some(ctx)
      && (if why.Connecting? then (err.None? <==> HasWay(f)) else err.None? ==> f.conn.Some?)
    case Dropping(ctx, _, _) => f.ctx == Some(ctx)
    case Retrying(ctx, _) => f.ctx == Some(ctx)
    case Finishing(_, err) => err.None? ==> f.conn.Some?
    case _ => true
  }

  predicate DialsFit(s: State) {
    !s.f.closed ==>
      && (forall t :: t in s.threads ==> DialFits(s.f, s.threads[t]))
      && (s.f.ctx.Some? && !s.f.connecting ==> HasWay(s.f))
      && (s.f.ctx.None? ==> !HasWay(s.f))
      && (s.f.connecting ==> s.f.ctx.Some?)
  }

  lemma ActorDialFits(s: State, step: Step)
    requires Enabled(s, step) && DialsFit(s) && SingleFlight(s) && !step.TerminalClose?
    requires Actor(step).Some? && !Apply(s, step).f.closed
    ensures DialFits(Apply(s, step).f, PcOf(Apply(s, step), step.t))
  {
    if step.t in s.threads {
      assert DialFits(s.f, s.threads[step.t]);
    }
  }

  /** A thread that is connecting excludes others connecting; one that leads excludes others
      leading; so no other thread's dial is disturbed. */
  lemma OtherDialFits(s: State, step: Step, u: nat)
    requires Enabled(s, step) && DialsFit(s) && SingleFlight(s) && CloseHolds(s) && !step.TerminalClose?
    requires u in s.threads && Actor(step) != Some(u) && !Apply(s, step).f.closed
    ensures DialFits(Apply(s, step).f, s.threads[u])
  {
    assert DialFits(s.f, s.threads[u]);
    if Actor(step).Some? && step.t in s.threads {
      assert DialFits(s.f, s.threads[step.t]);
    }
  }

  lemma FieldsFit(s: State, step: Step)
    requires Enabled(s, step) && DialsFit(s) && SingleFlight(s) && CloseHolds(s) && !step.TerminalClose?
    requires !Apply(s, step).f.closed
    ensures var f := Apply(s, step).f;
      && (f.ctx.Some? && !f.connecting ==> HasWay(f)) && (f.ctx.None? ==> !HasWay(f)) && (f.connecting ==> f.ctx.Some?)
  {
    if Actor(step).Some? && step.t in s.threads {
      assert DialFits(s.f, s.threads[step.t]);
    }
  }

  lemma DialsFitKept(s: State, step: Step)
    requires Enabled(s, step) && DialsFit(s) && SingleFlight(s) && CloseHolds(s) && !step.TerminalClose?
    ensures DialsFit(Apply(s, step))
  {
    var s' := Apply(s, step);
    if !s'.f.closed {
      FieldsFit(s, step);
      forall u | u in s'.threads
        ensures DialFits(s'.f, s'.threads[u])
      {
        if Actor(step) == Some(u) {
          ActorDialFits(s, step);
        } else {
          BystanderStays(s, step, u);
          OtherDialFits(s, step, u);
        }
      }
    }
  }

  lemma {:induction false} UnrefusedFrom(s: State, steps: seq<Step>)
    requires CanRun(s, steps) && Inv(s) && DialsFit(s)
    requires forall i :: 0 <= i < |steps| ==> !steps[i].TerminalClose?
    ensures !EverStranded(s, steps)
    decreases |steps|
  {
    if |steps| > 0 {
      assert !steps[0].TerminalClose?;
      InvKept(s, steps[0]);
      DialsFitKept(s, steps[0]);
      UnrefusedFrom(Apply(s, steps[0]), steps[1..]);
    }
  }

  /** In terms of what the server does: a client that is never sent a terminal close frame is
      never stranded, whatever fails and whoever reconnects or closes. */
  lemma NeverStrandedUnlessRefused(steps: seq<Step>)
    requires CanRun(Init(), steps) && forall i :: 0 <= i < |steps| ==> !steps[i].TerminalClose?
    ensures !EverStranded(Init(), steps)
  {
    UnrefusedFrom(Init(), steps);
  }

  // ------------------------------------------------------------------ contexts are cancelled

  /** The thread is about to cancel the context. */
  predicate Cancels(pc: Pc, ctx: nat) {
    pc.Cancelling? && pc.toCancel == Some(ctx)
  }

  /** Every context ever made is the open client's, or cancelled, or some thread's to cancel. */
  predicate ContextFits(s: State, ctx: nat) {
    || ctx in s.cancelled
    || (s.f.ctx == Some(ctx) && !s.f.closed)
    || exists t :: t in s.threads && Cancels(s.threads[t], ctx)
  }

  predicate ConnectsUnderIt(s: State) {
    forall t :: t in s.threads && InConnect(s.threads[t]) && !s.f.closed ==> s.f.ctx == Some(s.threads[t].ctx)
  }

  ghost predicate ContextsFit(s: State) {
    (forall ctx: nat :: ctx < s.contexts ==> ContextFits(s, ctx)) && ConnectsUnderIt(s)
  }

  /** Whoever takes the client's context away cancels it. */
  lemma OwnContextKept(s: State, step: Step, ctx: nat)
    requires Enabled(s, step) && ConnectsUnderIt(s)
    requires (s.f.ctx == Some(ctx) && !s.f.closed) || (ctx == s.contexts && ctx < Apply(s, step).contexts)
    ensures ContextFits(Apply(s, step), ctx)
  {
    var s' := Apply(s, step);
    if ctx !in s'.cancelled && !(s'.f.ctx == Some(ctx) && !s'.f.closed) {
      assert step.t in s'.threads && Cancels(s'.threads[step.t], ctx);
    }
  }

  lemma CancellerKept(s: State, step: Step, ctx: nat)
    requires Enabled(s, step) && Actor(step).Some? && Cancels(PcOf(s, step.t), ctx)
    ensures ctx in Apply(s, step).cancelled
  {
  }

  lemma ContextsMade(s: State, step: Step)
    requires Enabled(s, step)
    ensures s.cancelled <= Apply(s, step).cancelled && s.contexts <= Apply(s, step).contexts <= s.contexts + 1
  {
  }

  lemma ContextKept(s: State, step: Step, ctx: nat)
    requires Enabled(s, step) && ContextsFit(s) && ctx < Apply(s, step).contexts
    ensures ContextFits(Apply(s, step), ctx)
  {
    ContextsMade(s, step);
    if ctx == s.contexts || (s.f.ctx == Some(ctx) && !s.f.closed) {
      OwnContextKept(s, step, ctx);
    } else if ctx !in s.cancelled {
      assert ContextFits(s, ctx);
      var t :| t in s.threads && Cancels(s.threads[t], ctx);
      if Actor(step) == Some(t) {
        CancellerKept(s, step, ctx);
      } else {
        BystanderStays(s, step, t);
        assert t in Apply(s, step).threads && Cancels(Apply(s, step).threads[t], ctx);
      }
    }
  }

  lemma ConnectContextKept(s: State, step: Step, t: nat)
    requires Enabled(s, step) && ConnectsUnderIt(s) && CloseHolds(s)
    requires InConnect(PcOf(Apply(s, step), t)) && !Apply(s, step).f.closed
    ensures Apply(s, step).f.ctx == Some(PcOf(Apply(s, step), t).ctx)
  {
    if Actor(step) != Some(t) {
      BystanderStays(s, step, t);
    }
  }

  lemma ContextsKept(s: State, step: Step)
    requires Enabled(s, step) && ContextsFit(s) && CloseHolds(s)
    ensures ContextsFit(Apply(s, step))
  {
    var s' := Apply(s, step);
    forall ctx: nat | ctx < s'.contexts
      ensures ContextFits(s', ctx)
    {
      ContextKept(s, step, ctx);
    }
    forall t | t in s'.threads && InConnect(s'.threads[t]) && !s'.f.closed
      ensures s'.f.ctx == Some(s'.threads[t].ctx)
    {
      ConnectContextKept(s, step, t);
    }
  }

  lemma {:induction false} ContextsByRun(s: State, steps: seq<Step>)
    requires CanRun(s, steps) && Inv(s) && ContextsFit(s)
    ensures ContextsFit(Run(s, steps))
    decreases |steps|
  {
    if |steps| > 0 {
      InvKept(s, steps[0]);
      ContextsKept(s, steps[0]);
      ContextsByRun(Apply(s, steps[0]), steps[1..]);
    }
  }

  /** No context leaks: in every reachable state every context that Connect made is the open
      client's current one, cancelled, or about to be cancelled by some thread. */
  lemma NoContextLeaks(steps: seq<Step>, ctx: nat)
    requires CanRun(Init(), steps) && ctx < Run(Init(), steps).contexts
    ensures ContextFits(Run(Init(), steps), ctx)
  {
    ContextsByRun(Init(), steps);
  }

  // ------------------------------------------------------------------ reconnects go on

  /** n dials in a row that fail, with the waits between them. */
  function FailedDials(t: nat, err: Error, n: nat): seq<Step> {
    if n == 0 then [] else [Retry(t), DialFails(t, err), DialReturns(t)] + FailedDials(t, err, n - 1)
  }

  lemma {:induction false} DialsMayFail(s: State, t: nat, err: Error, n: nat)
    requires PcOf(s, t).Retrying? && t in s.threads
    ensures CanRun(s, FailedDials(t, err, n)) && Run(s, FailedDials(t, err, n)) == s
  {
    if n > 0 {
      var steps, rest := FailedDials(t, err, n), FailedDials(t, err, n - 1);
      var a := Apply(s, Retry(t));
      var b := Apply(a, DialFails(t, err));
      var c := Apply(b, DialReturns(t));
      assert c.threads == s.threads;
      assert c == s;
      assert steps[1..] == [DialFails(t, err), DialReturns(t)] + rest;
      assert steps[1..][1..] == [DialReturns(t)] + rest;
      assert steps[1..][1..][1..] == rest;
      DialsMayFail(s, t, err, n - 1);
      Unrolled(s, steps);
      Unrolled(a, steps[1..]);
      Unrolled(b, steps[1..][1..]);
    }
  }

  /** However many dials of a reconnect fail, the next one can still succeed, install its
      connection and end the reconnect with no error, for its leader and its waiters. */
  lemma ReconnectSucceedsAfterFailures(s: State, t: nat, err: Error, n: nat)
    requires t in s.threads && PcOf(s, t).Retrying? && !s.f.closed && PcOf(s, t).k < |s.calls|
    requires s.f.ctx == Some(PcOf(s, t).ctx) && PcOf(s, t).ctx !in s.cancelled && s.f.call == Some(PcOf(s, t).k)
    ensures CanRun(s, FailedDials(t, err, n))
    ensures var u := Run(s, FailedDials(t, err, n));
      var steps := [Retry(t), DialSucceeds(t), Install(t), CloseHeld(t), DialReturns(t), EndReconnect(t)];
      && CanRun(u, steps)
      && Run(u, steps).f == s.f.(conn := Some(|s.makers|), call := None, terminalErr := None)
      && Run(u, steps).calls == s.calls[PcOf(s, t).k := Done(None)]
      && PcOf(Run(u, steps), t).Idle?
  {
    DialsMayFail(s, t, err, n);
    var a := Apply(s, Retry(t));
    var b := Apply(a, DialSucceeds(t));
    var c := Apply(b, Install(t));
    var d := Apply(c, CloseHeld(t));
    var e := Apply(d, DialReturns(t));
    Unrolled(s, [Retry(t), DialSucceeds(t), Install(t), CloseHeld(t), DialReturns(t), EndReconnect(t)]);
    Unrolled(a, [DialSucceeds(t), Install(t), CloseHeld(t), DialReturns(t), EndReconnect(t)]);
    Unrolled(b, [Install(t), CloseHeld(t), DialReturns(t), EndReconnect(t)]);
    Unrolled(c, [CloseHeld(t), DialReturns(t), EndReconnect(t)]);
    Unrolled(d, [DialReturns(t), EndReconnect(t)]);
    Unrolled(e, [EndReconnect(t)]);
  }

  lemma Unrolled(s: State, steps: seq<Step>)
    requires |steps| > 0
    ensures CanRun(s, steps) <==> Enabled(s, steps[0]) && CanRun(Apply(s, steps[0]), steps[1..])
    ensures CanRun(s, steps) ==> Run(s, steps) == Run(Apply(s, steps[0]), steps[1..])
  {
  }

  /** Waiters return, with the result or when their context ends; and a caller that finds a
      reconnect in progress waits for it. */
  lemma WaitersWaitAndReturn(s: State, t: nat, failedConn: nat)
    ensures PcOf(s, t).Waiting? && PcOf(s, t).ctx in s.cancelled ==>
              Enabled(s, WaiterSeesCancel(t)) && PcOf(Apply(s, WaiterSeesCancel(t)), t).Idle?
    ensures PcOf(s, t).Waiting? && PcOf(s, t).k < |s.calls| && s.calls[PcOf(s, t).k].Done? ==>
              Enabled(s, WaiterSeesResult(t)) && PcOf(Apply(s, WaiterSeesResult(t)), t).Idle?
    ensures PcOf(s, t).Idle? && !s.f.closed && s.f.ctx.Some? && s.f.call.Some? ==>
              PcOf(Apply(s, Reconnect(t, failedConn)), t) == Waiting(s.f.ctx.value, s.f.call.value)
  {
  }

  /** A dialled connection that cannot be installed is closed, and its dial fails, with the
      client's own error if it was closed and the context's if that ended. */
  lemma RefusedDials(s: State, t: nat)
    requires Enabled(s, Install(t)) && PcOf(s, t).Dialled?
    ensures s.f.closed || PcOf(s, t).ctx in s.cancelled ==>
      var pc := PcOf(s, t);
      && Apply(s, Install(t)).f == s.f
      && PcOf(Apply(s, Install(t)), t)
         == Discarding(pc.ctx, pc.why, pc.held, Some(if s.f.closed then ClientClosed else ContextDone))
      && pc.held in Apply(Apply(s, Install(t)), CloseHeld(t)).shut
  {
  }
}
