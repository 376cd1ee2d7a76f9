/** Stored query handles on a connection shared by tasks (pycubrid/aio/connection.py,
    pycubrid/aio/cursor.py): the exact condition under which every stored handle belongs to the
    current session. */
module AsyncHandles {
  import opened Basics
  import opened AsyncConnection

  /** While connected, every stored handle was issued by the current session. */
  ghost predicate HandlesCurrent(s: State) {
    s.connected ==> forall t <- s.handles :: s.handles[t] == s.sessions
  }

  /** Handles are never ahead of the sessions, and an automatic reconnect starts without any. */
  ghost predicate HandlesOk(s: State) {
    && (forall t <- s.handles :: s.handles[t] <= s.sessions)
    && (InHandshake(Holder(s)) && Holder(s).op != ConnectCall ==> s.handles == map[])
  }

  /** A session opens while handles of an older one are stored. */
  predicate LateConnect(s: State, e: Event) {
    e.Authenticate? && e.ok && s.handles != map[]
  }

  /** Every handle of h is one of g. */
  ghost predicate Fewer(h: map<nat, nat>, g: map<nat, nat>) {
    forall c <- h :: c in g && h[c] == g[c]
  }

  /** No session opens, no handle is added, and a handshake starts without handles. */
  ghost predicate Tamer(s: State, r: State) {
    && Fewer(r.handles, s.handles) && (r.connected ==> s.connected) && r.sessions == s.sessions
    && (InHandshake(Holder(r)) ==> r.handles == map[])
  }

  lemma {:induction false} FinishTamer(s: State, t: nat, op: Op, failed: bool)
    ensures Tamer(s, Finish(s, t, op, failed))
  {
  }

  lemma {:induction false} DroppedTamer(s: State, t: nat, op: Op, after: After)
    requires s.lock == Some(t)
    ensures Tamer(s, Dropped(s, t, op, after))
  {
    hide Finish;
    var r := s.(stream := None, connected := false, dropped := s.dropped + if s.connected then 1 else 0);
    FinishTamer(r, t, op, true);
    FinishTamer(if op == PingDrop then r.(handles := map[]) else r, t, op, false);
  }

  lemma {:induction false} DropTamer(s: State, t: nat, op: Op, after: After)
    requires s.lock == Some(t)
    ensures Tamer(s, Drop(s, t, op, after))
  {
    hide Dropped;
    DroppedTamer(s, t, op, after);
  }

  lemma {:induction false} RaiseTamer(s: State, t: nat, op: Op)
    requires s.lock == Some(t)
    ensures Tamer(s, Raise(s, t, op))
  {
    hide Drop, Finish;
    DropTamer(s, t, op, End);
    FinishTamer(s, t, op, true);
  }

  lemma {:induction false} TamerKeeps(s: State, r: State)
    requires HandlesOk(s) && HandlesCurrent(s) && Tamer(s, r)
    ensures HandlesOk(r) && HandlesCurrent(r)
  {
  }

  lemma {:induction false} EnteredKeeps(s: State, t: nat, op: Op)
    requires HandlesOk(s) && HandlesCurrent(s) && s.lock == Some(t)
    ensures var r := Entered(s, t, op); HandlesOk(r) && HandlesCurrent(r)
  {
    hide Drop, Raise, Finish, HandlesOk;
    RaiseTamer(s, t, op);
    DropTamer(s, t, op, End);
    DropTamer(s, t, op, Reconnect);
    FinishTamer(s, t, op, false);
    var r := Entered(s, t, op);
    if Tamer(s, r) { TamerKeeps(s, r); } else { PutHandles(s, r); }
  }

  lemma {:induction false} PutHandles(s: State, r: State)
    requires HandlesOk(s) && HandlesCurrent(s)
    requires r.handles == s.handles && r.sessions == s.sessions && r.connected == s.connected
    requires InHandshake(Holder(r)) && Holder(r).op != ConnectCall ==> InHandshake(Holder(s)) && Holder(s).op != ConnectCall
    ensures HandlesOk(r) && HandlesCurrent(r)
  {
  }

  lemma {:induction false} ShakenKeeps(s: State, t: nat, op: Op, hs: nat, reply: ShakeReply)
    requires HandlesOk(s) && HandlesCurrent(s) && s.lock == Some(t) && At(s, t) == Shaking(op, hs) && hs < |s.wires|
    ensures var r := Shaken(s, t, op, hs, reply); HandlesOk(r) && HandlesCurrent(r)
  {
    hide Drop, HandlesOk;
    var closed := s.(wires := s.wires[hs := s.wires[hs].(open := false)]);
    DropTamer(closed, t, op, Fail);
    var r := Shaken(s, t, op, hs, reply);
    if reply == Rejected { TamerKeeps(s, r); } else { PutHandles(s, r); }
  }

  /** Opening a session leaves the handles current exactly if none was stored. */
  lemma {:induction false} AuthenticatedHandles(s: State, t: nat, op: Op, active: bool)
    requires HandlesOk(s) && s.lock == Some(t) && At(s, t) == Authenticating(op)
    ensures var r := Authenticated(s, t, op, active);
            HandlesOk(r) && (HandlesCurrent(r) <==> s.handles == map[]) && (s.handles != map[] ==> op == ConnectCall)
  {
    var r := Authenticated(s, t, op, active);
    assert r.handles == s.handles && r.connected && r.sessions == s.sessions + 1 && !InHandshake(Holder(r));
    if s.handles != map[] {
      var x :| x in s.handles;
      assert s.handles[x] < r.sessions;
    }
  }

  lemma {:induction false} ParsedKeeps(s: State, t: nat, op: Op, active: bool, outcome: Outcome)
    requires HandlesOk(s) && HandlesCurrent(s) && s.lock == Some(t) && s.connected
    ensures var r := Parsed(s, t, op, active, outcome); HandlesOk(r) && HandlesCurrent(r)
  {
    hide Drop, HandlesOk;
    var q := s.(casActive := active);
    DropTamer(q, t, op, End);
    DropTamer(q, t, op, Fail);
    FinishTamer(q, t, op, outcome.Refused? && (outcome.operational || op.Call?));
    var r := Parsed(s, t, op, active, outcome);
    if Tamer(s, r) { TamerKeeps(s, r); } else { StoredKeeps(s, r, op.effect.cursor); }
  }

  lemma {:induction false} StoredKeeps(s: State, r: State, c: nat)
    requires HandlesOk(s) && HandlesCurrent(s) && s.connected && r.connected && r.sessions == s.sessions
    requires r.handles == s.handles[c := s.sessions]
    requires Holder(r) == Idle
    ensures HandlesOk(r) && HandlesCurrent(r)
  {
  }

  lemma {:induction false} WrittenKeeps(s: State, t: nat, op: Op)
    requires HandlesOk(s) && HandlesCurrent(s) && s.lock == Some(t)
    ensures var r := Written(s, t, op); HandlesOk(r) && HandlesCurrent(r)
  {
    hide Raise, HandlesOk, HandlesCurrent;
    RaiseTamer(s, t, op);
    var r := Written(s, t, op);
    if r == Raise(s, t, op) { TamerKeeps(s, r); } else { PutHandles(s, r); }
  }

  lemma {:induction false} InsideHandles(s: State, t: nat, e: Event)
    requires Inv(s) && HandlesOk(s) && HandlesCurrent(s) && s.lock == Some(t)
    requires StepInside(s, t, At(s, t), e).Some?
    ensures var r := StepInside(s, t, At(s, t), e).value;
            HandlesOk(r) && (HandlesCurrent(r) <==> !LateConnect(s, e))
            && (LateConnect(s, e) ==> At(s, t).op == ConnectCall)
  {
    hide Inv, Drop, Dropped, Raise, Finish, Entered, Shaken, Authenticated, Written, Parsed, HandlesOk, HandlesCurrent;
    var pc := At(s, t);
    var op := pc.op;
    var r := StepInside(s, t, pc, e).value;
    RaiseTamer(s, t, op);
    DropTamer(s, t, op, Fail);
    match e {
      case Enter(_) => EnteredKeeps(s, t, op);
      case EndDrop(_) => DroppedTamer(s, t, op, pc.after); TamerKeeps(s, r);
      case Open(_, ok) => if ok { PutHandles(s, r); } else { TamerKeeps(s, r); }
      case Shake(_, reply) => ShakenKeeps(s, t, op, pc.hs, reply);
      case Authenticate(_, ok, active) => if ok { AuthenticatedHandles(s, t, op, active); } else { TamerKeeps(s, r); }
      case Write(_, ok) => if ok { WrittenKeeps(s, t, op); } else { TamerKeeps(s, r); }
      case ReadBody(_, active, outcome) =>
        var q := Take(s, pc.wire).(log := s.log + [Parse(pc.req, pc.head, s.wires[pc.wire].inbox[0])]);
        PutHandles(s, q);
        Connected(s, t);
        ParsedKeeps(q, t, op, active, outcome);
      case ReadHead(_) => PutHandles(s, r);
      case _ => TamerKeeps(s, r);
    }
  }

  lemma {:induction false} Connected(s: State, t: nat)
    requires Inv(s) && s.lock == Some(t) && At(s, t).AwaitBody?
    ensures s.connected
  {
  }

  /** One step loses the handles' session exactly if a queued connect opens a session while
      handles are stored; the automatic reconnect never does. */
  lemma {:induction false} StepHandles(s: State, e: Event)
    requires Inv(s) && HandlesOk(s) && HandlesCurrent(s) && Step(s, e).Some?
    ensures HandlesOk(Step(s, e).value)
    ensures HandlesCurrent(Step(s, e).value) <==> !LateConnect(s, e)
    ensures LateConnect(s, e) ==> At(s, e.t).op == ConnectCall
  {
    OutsideOrInside(s, e);
    hide Inv, StepInside, HandlesOk, HandlesCurrent, Delivered;
    var r := Step(s, e).value;
    if Outer(e) {
      OutsideHandles(s, e);
    } else {
      InsideHandles(s, e.t, e);
    }
  }

  lemma {:induction false} OutsideHandles(s: State, e: Event)
    requires HandlesOk(s) && HandlesCurrent(s) && Step(s, e).Some?
    requires Outer(e)
    ensures var r := Step(s, e).value; HandlesOk(r) && HandlesCurrent(r)
  {
    hide StepInside, Delivered, HandlesOk, HandlesCurrent;
    var r := Step(s, e).value;
    assert InHandshake(Holder(r)) ==> Holder(r) == Holder(s);
    HandlesKept(s, r);
  }

  lemma {:induction false} HandlesKept(s: State, r: State)
    requires HandlesOk(s) && HandlesCurrent(s) && s.connected == r.connected && s.sessions == r.sessions
    requires Fewer(r.handles, s.handles)
    requires InHandshake(Holder(r)) ==> Holder(r) == Holder(s)
    ensures HandlesOk(r) && HandlesCurrent(r)
  {
  }

  /** At every point of the run the stored handles are those of the session. */
  ghost predicate AlwaysCurrent(s: State, es: seq<Event>)
    decreases |es|
  {
    HandlesCurrent(s) && (es != [] && Step(s, es[0]).Some? ==> AlwaysCurrent(Step(s, es[0]).value, es[1..]))
  }

  /** No session of the run opens while handles are stored. */
  predicate NoLateConnect(s: State, es: seq<Event>)
    decreases |es|
  {
    es != [] && Step(s, es[0]).Some? ==> !LateConnect(s, es[0]) && NoLateConnect(Step(s, es[0]).value, es[1..])
  }

  /** Over every run: the stored handles always belong to the current session if and only if no
      session is ever opened while handles are stored. */
  lemma {:induction false} HandlesStayCurrent(s: State, es: seq<Event>)
    requires Inv(s) && HandlesOk(s) && HandlesCurrent(s)
    ensures AlwaysCurrent(s, es) <==> NoLateConnect(s, es)
    decreases |es|
  {
    hide Inv, HandlesOk, HandlesCurrent, LateConnect, Step;
    if es != [] && Step(s, es[0]).Some? {
      var r := Step(s, es[0]).value;
      StepHandles(s, es[0]);
      StepKeeps(s, es[0]);
      if LateConnect(s, es[0]) {
        assert !AlwaysCurrent(r, es[1..]);
      } else {
        HandlesStayCurrent(r, es[1..]);
      }
    }
  }
}
