/** When stored query handles are sure to be current on a connection shared by tasks
    (pycubrid/aio/connection.py): a rule about how calls are started, which a caller can keep. */
module AsyncDiscipline {
  import opened Basics
  import opened AsyncConnection
  import opened AsyncHandles

  /** Operations that may end in opening a session of their own. */
  predicate Connects(op: Op) { op == ConnectCall || op == PingDrop || op == PingCall(true) }

  predicate IsConnector(pc: Pc) { !pc.Idle? && Connects(pc.op) }

  predicate IsConnect(pc: Pc) { !pc.Idle? && pc.op == ConnectCall }

  /** The rule: a task calls connect, or ping with reconnect, only while no other task does; it
      pings a connection that is down only while nobody holds the lock, so not in the middle of a
      reconnect; and it calls connect only on a connection that is down, with no handle stored. */
  ghost predicate Careful(s: State, e: Event) {
    (e.StartPing? && e.reconnect) || (e.Start? && e.op == ConnectCall) ==>
      && (forall t: nat :: !IsConnector(At(s, t)))
      && (!s.connected ==> s.lock.None?)
      && (e.Start? ==> !s.connected && s.handles == map[])
  }

  ghost predicate CarefulRun(s: State, es: seq<Event>)
    decreases |es|
  {
    es != [] && Step(s, es[0]).Some? ==> Careful(s, es[0]) && CarefulRun(Step(s, es[0]).value, es[1..])
  }

  /** What the rule keeps: one task at a time is about to connect, and once it is past its drop,
      the connection is down without handles and nobody else gets far enough to change that. */
  ghost predicate Orderly(s: State) {
    && (forall t: nat, u: nat :: IsConnector(At(s, t)) && IsConnector(At(s, u)) ==> t == u)
    && (forall t: nat :: IsConnect(At(s, t)) ==> Down(s) && (s.lock == Some(t) || Unheld(s)))
    && (forall t: nat :: !At(s, t).Idle? && At(s, t).op == PingDrop ==> InDrop(At(s, t)))
  }

  predicate Down(s: State) { !s.connected && s.handles == map[] }

  predicate Unheld(s: State) { s.lock.None? || Holder(s).Entering? }

  predicate InDrop(pc: Pc) { pc.Waiting? || pc.Entering? || (pc.Dropping? && pc.after == End) }

  // ---- Steps that do not connect -----------------------------------------------------------

  /** Only task t moves, and it takes up connecting only if it was at it. */
  ghost predicate Calm(s: State, r: State, t: nat, op: Op) {
    && r.pc == s.pc[t := At(r, t)] && (r.lock == None || r.lock == s.lock)
    && (IsConnect(At(r, t)) ==> op == ConnectCall) && (IsConnector(At(r, t)) ==> Connects(op))
    && (!At(r, t).Idle? && At(r, t).op == PingDrop ==> At(r, t).Waiting?)
  }

  ghost predicate Lesser(s: State, r: State) {
    Fewer(r.handles, s.handles) && (r.connected ==> s.connected)
  }

  lemma {:induction false} FinishCalm(s: State, t: nat, op: Op, failed: bool)
    requires op != PingDrop
    ensures Calm(s, Finish(s, t, op, failed), t, op) && Lesser(s, Finish(s, t, op, failed))
    ensures Finish(s, t, op, failed).lock.None?
  {
  }

  lemma {:induction false} DroppedCalm(s: State, t: nat, op: Op, after: After)
    requires op != PingDrop
    ensures Calm(s, Dropped(s, t, op, after), t, op) && Lesser(s, Dropped(s, t, op, after))
    ensures after != Reconnect ==> Dropped(s, t, op, after).lock.None?
  {
    hide Finish;
    var r := s.(stream := None, connected := false, dropped := s.dropped + if s.connected then 1 else 0);
    FinishCalm(r, t, op, true);
    FinishCalm(r, t, op, false);
  }

  lemma {:induction false} DropCalm(s: State, t: nat, op: Op, after: After)
    requires op != PingDrop
    ensures Calm(s, Drop(s, t, op, after), t, op) && Lesser(s, Drop(s, t, op, after))
    ensures s.stream.None? && after != Reconnect ==> Drop(s, t, op, after).lock.None?
  {
    hide Dropped;
    DroppedCalm(s, t, op, after);
  }

  lemma {:induction false} RaiseCalm(s: State, t: nat, op: Op)
    requires op != PingDrop
    ensures Calm(s, Raise(s, t, op), t, op) && Lesser(s, Raise(s, t, op))
    ensures s.stream.None? ==> Raise(s, t, op).lock.None?
  {
    hide Drop, Finish;
    DropCalm(s, t, op, End);
    FinishCalm(s, t, op, true);
  }

  /** A request that enters a connection that is down leaves at once. */
  lemma {:induction false} EnteredCalm(s: State, t: nat, op: Op)
    requires op != PingDrop
    ensures Calm(s, Entered(s, t, op), t, op) && Lesser(s, Entered(s, t, op))
    ensures !s.connected && s.stream.None? && op != ConnectCall ==> Entered(s, t, op).lock.None?
  {
    hide Drop, Raise, Finish;
    DropCalm(s, t, op, End);
    DropCalm(s, t, op, Reconnect);
    RaiseCalm(s, t, op);
    FinishCalm(s, t, op, false);
  }

  lemma {:induction false} ShakenCalm(s: State, t: nat, op: Op, hs: nat, reply: ShakeReply)
    requires op != PingDrop && hs < |s.wires|
    ensures Calm(s, Shaken(s, t, op, hs, reply), t, op) && Lesser(s, Shaken(s, t, op, hs, reply))
  {
    hide Drop;
    DropCalm(s.(wires := s.wires[hs := s.wires[hs].(open := false)]), t, op, Fail);
  }

  lemma {:induction false} AuthenticatedCalm(s: State, t: nat, op: Op, active: bool)
    requires op != PingDrop
    ensures Calm(s, Authenticated(s, t, op, active), t, op)
    ensures op == ConnectCall ==> At(Authenticated(s, t, op, active), t) == Idle
  {
  }

  lemma {:induction false} ParsedCalm(s: State, t: nat, op: Op, active: bool, outcome: Outcome)
    requires op != PingDrop
    ensures Calm(s, Parsed(s, t, op, active, outcome), t, op)
  {
    hide Drop, Finish, Keep;
    var r := s.(casActive := active);
    DropCalm(r, t, op, End);
    DropCalm(r, t, op, Fail);
    FinishCalm(if op.Call? then r.(handles := Keep(s.handles, op.effect, s.sessions)) else r, t, op, false);
    FinishCalm(r, t, op, outcome.Refused? && (outcome.operational || op.Call?));
  }

  lemma {:induction false} WrittenCalm(s: State, t: nat, op: Op)
    requires op != PingDrop
    ensures Calm(s, Written(s, t, op), t, op)
  {
    hide Raise;
    RaiseCalm(s, t, op);
  }

  lemma {:induction false} InsideCalm(s: State, t: nat, e: Event)
    requires StepInside(s, t, At(s, t), e).Some? && !At(s, t).Idle? && At(s, t).op != PingDrop
    ensures Calm(s, StepInside(s, t, At(s, t), e).value, t, At(s, t).op)
  {
    hide Drop, Dropped, Raise, Finish, Entered, Shaken, Authenticated, Written, Parsed, Lesser;
    var pc := At(s, t);
    var op := pc.op;
    match e {
      case Write(_, _) => WrittenCalm(s, t, op); RaiseCalm(s, t, op);
      case Enter(_) => EnteredCalm(s, t, op);
      case EndDrop(_) => DroppedCalm(s, t, op, pc.after);
      case Shake(_, reply) => ShakenCalm(s, t, op, pc.hs, reply);
      case Authenticate(_, _, active) => AuthenticatedCalm(s, t, op, active); DropCalm(s, t, op, Fail);
      case ReadBody(_, active, outcome) =>
        ParsedCalm(Take(s, pc.wire).(log := s.log + [Parse(pc.req, pc.head, s.wires[pc.wire].inbox[0])]), t, op, active, outcome);
      case _ => DropCalm(s, t, op, Fail); RaiseCalm(s, t, op);
    }
  }

  /** A connecting task that is not done leaves the connection down. */
  lemma {:induction false} ConnectingDown(s: State, t: nat, e: Event)
    requires IsConnect(At(s, t)) && Place(s, At(s, t)) && Down(s)
    requires StepInside(s, t, At(s, t), e).Some? && IsConnect(At(StepInside(s, t, At(s, t), e).value, t))
    ensures Down(StepInside(s, t, At(s, t), e).value)
  {
    hide Drop, Dropped, Raise, Finish, Entered, Shaken, Authenticated, Parsed;
    var pc := At(s, t);
    DropCalm(s, t, pc.op, Fail);
    match e {
      case Enter(_) => EnteredCalm(s, t, pc.op);
      case EndDrop(_) => DroppedCalm(s, t, pc.op, pc.after);
      case Shake(_, reply) => ShakenCalm(s, t, pc.op, pc.hs, reply);
      case Authenticate(_, _, active) => AuthenticatedCalm(s, t, pc.op, active);
      case _ =>
    }
  }

  // ---- Every step under the rule -------------------------------------------------------------

  /** The clean-up of a ping ends with the connection down, without handles, and the lock free. */
  ghost predicate CleanedUp(s: State, r: State, t: nat) {
    && r.pc == s.pc[t := At(r, t)]
    && ((At(r, t) == Dropping(PingDrop, End) && r.lock == s.lock)
        || (At(r, t) == Waiting(ConnectCall) && Down(r) && r.lock.None?))
  }

  lemma {:induction false} PingDropped(s: State, t: nat)
    ensures CleanedUp(s, Dropped(s, t, PingDrop, End), t) && CleanedUp(s, Drop(s, t, PingDrop, End), t)
  {
  }

  lemma {:induction false} PingDropStep(s: State, t: nat, e: Event)
    requires !At(s, t).Idle? && At(s, t).op == PingDrop && InDrop(At(s, t)) && StepInside(s, t, At(s, t), e).Some?
    ensures CleanedUp(s, StepInside(s, t, At(s, t), e).value, t)
  {
    hide CleanedUp, Dropped, Drop;
    PingDropped(s, t);
  }

  lemma {:induction false} Moved(s: State, r: State, t: nat)
    requires r.pc == s.pc[t := At(r, t)]
    ensures forall x: nat :: x != t ==> At(r, x) == At(s, x)
  {
  }

  lemma {:induction false} PingDropOrderly(s: State, t: nat, e: Event)
    requires Orderly(s) && s.lock == Some(t) && !At(s, t).Idle? && At(s, t).op == PingDrop
    requires StepInside(s, t, At(s, t), e).Some?
    ensures Orderly(StepInside(s, t, At(s, t), e).value)
  {
    hide StepInside, Down;
    var r := StepInside(s, t, At(s, t), e).value;
    PingDropStep(s, t, e);
    Moved(s, r, t);
    assert IsConnector(At(s, t));
    forall u: nat | IsConnector(At(r, u)) ensures u == t {
      assert u != t ==> IsConnector(At(s, u));
    }
  }

  /** While someone else is about to connect, the holder only enters and leaves. */
  lemma {:induction false} PassesThrough(s: State, t: nat, u: nat, e: Event)
    requires Orderly(s) && Inv(s) && s.lock == Some(t) && u != t && IsConnect(At(s, u))
    requires StepInside(s, t, At(s, t), e).Some?
    ensures var r := StepInside(s, t, At(s, t), e).value; Down(r) && r.lock.None?
  {
    hide QueueOk, LogOk, NotLogged, StreamsOk, Entered, Dropped, Drop, Finish, Raise;
    assert At(s, t).Entering? && Down(s);
    var op := At(s, t).op;
    assert IsConnector(At(s, u)) && IsConnector(At(s, t)) ==> t == u;
    EnteredCalm(s, t, op);
  }

  lemma {:induction false} InsideOrderly(s: State, t: nat, e: Event)
    requires Orderly(s) && Inv(s) && s.lock == Some(t) && Inside(At(s, t)) && At(s, t).op != PingDrop
    requires StepInside(s, t, At(s, t), e).Some?
    ensures Orderly(StepInside(s, t, At(s, t), e).value)
  {
    var pc, r := At(s, t), StepInside(s, t, At(s, t), e).value;
    assert Place(s, pc);
    hide Inv, StepInside, Down, Place;
    InsideCalm(s, t, e);
    Moved(s, r, t);
    forall u: nat, v: nat | IsConnector(At(r, u)) && IsConnector(At(r, v)) ensures u == v {
      assert IsConnector(At(s, u)) && IsConnector(At(s, v));
    }
    forall u: nat | IsConnect(At(r, u)) ensures Down(r) && (r.lock == Some(u) || Unheld(r)) {
      assert IsConnect(At(s, u));
      if u == t { ConnectingDown(s, t, e); } else { PassesThrough(s, t, u, e); }
    }
  }

  lemma {:induction false} QueueOrderly(s: State, t: nat, op: Op)
    requires Orderly(s) && At(s, t) == Idle && op != PingDrop
    requires Connects(op) ==> forall u: nat :: !IsConnector(At(s, u))
    requires op == ConnectCall ==> Down(s) && s.lock.None?
    ensures Orderly(Queue(s, t, op))
  {
    var r := Queue(s, t, op);
    forall x: nat ensures At(r, x) == if x == t then Waiting(op) else At(s, x) {}
    hide Queue, Down;
    forall u: nat, v: nat | IsConnector(At(r, u)) && IsConnector(At(r, v)) ensures u == v {
      if u != t { assert IsConnector(At(s, u)); }
      if v != t { assert IsConnector(At(s, v)); }
    }
    forall u: nat | IsConnect(At(r, u)) ensures Down(r) && (r.lock == Some(u) || Unheld(r)) {
      if u != t { assert IsConnect(At(s, u)); }
    }
  }

  lemma {:induction false} AcquireOrderly(s: State, t: nat)
    requires Orderly(s) && Step(s, Acquire(t)).Some?
    ensures Orderly(Step(s, Acquire(t)).value)
  {
    var r := Step(s, Acquire(t)).value;
    Moved(s, r, t);
    hide Step, Down;
    forall u: nat, v: nat | IsConnector(At(r, u)) && IsConnector(At(r, v)) ensures u == v {
      assert IsConnector(At(s, u)) && IsConnector(At(s, v));
    }
    forall u: nat | IsConnect(At(r, u)) ensures Down(r) && (r.lock == Some(u) || Unheld(r)) {
      assert IsConnect(At(s, u));
    }
  }

  /** Nobody moves, and no handle is added. */
  lemma {:induction false} SameOrderly(s: State, r: State)
    requires Orderly(s) && r.pc == s.pc && r.lock == s.lock && r.connected == s.connected && Fewer(r.handles, s.handles)
    ensures Orderly(r)
  {
    forall x: nat ensures At(r, x) == At(s, x) {}
    hide At;
    forall u: nat | IsConnect(At(r, u)) ensures Down(r) && (r.lock == Some(u) || Unheld(r)) {
      assert IsConnect(At(s, u));
    }
    forall u: nat, v: nat | IsConnector(At(r, u)) && IsConnector(At(r, v)) ensures u == v {
      assert IsConnector(At(s, u)) && IsConnector(At(s, v));
    }
    forall u: nat | !At(r, u).Idle? && At(r, u).op == PingDrop ensures InDrop(At(r, u)) {
      assert !At(s, u).Idle? && At(s, u).op == PingDrop;
    }
  }

  lemma {:induction false} StepOrderly(s: State, e: Event)
    requires Inv(s) && Orderly(s) && Step(s, e).Some? && Careful(s, e)
    ensures Orderly(Step(s, e).value)
  {
    OutsideOrInside(s, e);
    hide Inv, Orderly, StepInside, Queue;
    match e {
      case Start(t, op) => QueueOrderly(s, t, op);
      case StartPing(t, reconnect) =>
        if s.connected { QueueOrderly(s, t, PingCall(reconnect)); }
        else if reconnect { SameOrderly(s, s.(handles := map[])); QueueOrderly(s.(handles := map[]), t, ConnectCall); }
      case CloseCursor(t, c) =>
        if s.connected && c in s.handles { QueueOrderly(s, t, Call(true, Release(c))); }
        else { SameOrderly(s, s.(handles := s.handles - {c})); }
      case Acquire(t) => AcquireOrderly(s, t);
      case Answer(_) => SameOrderly(s, Step(s, e).value);
      case HangUp(_) => SameOrderly(s, Step(s, e).value);
      case _ => InsideStepOrderly(s, e.t, e);
    }
  }

  lemma {:induction false} InsideStepOrderly(s: State, t: nat, e: Event)
    requires Inv(s) && Orderly(s) && s.lock == Some(t) && StepInside(s, t, At(s, t), e).Some?
    ensures Orderly(StepInside(s, t, At(s, t), e).value)
  {
    HolderInside(s.waiters, s.pc, t);
    hide Inv, Orderly, StepInside;
    if At(s, t).op == PingDrop { PingDropOrderly(s, t, e); } else { InsideOrderly(s, t, e); }
  }

  lemma {:induction false} NeverLate(s: State, e: Event)
    requires Inv(s) && Orderly(s) && HandlesOk(s) && HandlesCurrent(s) && Step(s, e).Some?
    ensures !LateConnect(s, e)
  {
    StepHandles(s, e);
    hide Inv, HandlesOk, HandlesCurrent;
    assert LateConnect(s, e) ==> IsConnect(At(s, e.t));
  }

  /** Over every run in which calls are started by the rule, stored handles are always those of
      the current session. */
  lemma {:induction false} CarefulStaysCurrent(s: State, es: seq<Event>)
    requires Inv(s) && Orderly(s) && HandlesOk(s) && HandlesCurrent(s) && CarefulRun(s, es)
    ensures AlwaysCurrent(s, es)
    decreases |es|
  {
    hide Inv, Orderly, HandlesOk, HandlesCurrent, LateConnect, Careful, Step;
    if es != [] && Step(s, es[0]).Some? {
      NeverLate(s, es[0]);
      StepHandles(s, es[0]);
      StepKeeps(s, es[0]);
      StepOrderly(s, es[0]);
      CarefulStaysCurrent(Step(s, es[0]).value, es[1..]);
    }
  }

  lemma {:induction false} CarefulRunsKeepHandles(es: seq<Event>)
    requires CarefulRun(Init(false), es)
    ensures AlwaysCurrent(Init(false), es)
  {
    CarefulStaysCurrent(Init(false), es);
  }
}
