/** What holds over every interleaving of any number of tasks on one connection
    (pycubrid/aio/connection.py). */
module AsyncRuns {
  import opened Basics
  import opened AsyncConnection

  lemma {:induction false} InitInv()
    ensures Inv(Init(false)) && !Init(false).connected && !Init(false).casActive
  {
  }

  lemma {:induction false} RunKeeps(s: State, es: seq<Event>)
    requires Inv(s) && Run(s, es).Some?
    ensures Inv(Run(s, es).value)
    decreases |es|
  {
    hide Inv, Step;
    if es != [] {
      StepKeeps(s, es[0]);
      RunKeeps(Step(s, es[0]).value, es[1..]);
    }
  }

  /** Over every interleaving: whatever was parsed was the reply to the parser's own request, no
      request was answered to two parses, at most one task waits for a reply, and the broker has
      at most that one request to answer on a stream that is open at both ends. */
  lemma {:induction false} EveryReplyIsOwn(es: seq<Event>, s: State)
    requires Run(Init(false), es) == Some(s)
    ensures forall p <- s.log :: p.head == Head(p.req) && p.body == Body(p.req)
    ensures forall i, j :: 0 <= i < j < |s.log| ==> s.log[i].req != s.log[j].req
    ensures forall t: nat, u: nat, r, q :: Awaits(At(s, t), r) && Awaits(At(s, u), q) ==> t == u && r == q
    ensures forall w :: 0 <= w < |s.wires| && s.wires[w].open && !s.wires[w].eof ==>
              s.wires[w].pending == [] || exists t: nat :: s.lock == Some(t) && Awaits(At(s, t), s.wires[w].pending[0])
                                                           && |s.wires[w].pending| == 1
  {
    hide Run, Step;
    InitInv();
    RunKeeps(Init(false), es);
    forall t: nat, r | Awaits(At(s, t), r) ensures s.lock == Some(t) {
      assert Inside(Where(s.pc, t));
    }
    forall w | 0 <= w < |s.wires| && s.wires[w].open && !s.wires[w].eof && s.wires[w].pending != []
      ensures exists t: nat :: s.lock == Some(t) && Awaits(At(s, t), s.wires[w].pending[0]) && |s.wires[w].pending| == 1
    {
      var t := s.lock.value;
      assert Awaits(At(s, t), s.wires[w].pending[0]);
    }
  }

  /** Nobody waits for the reply to an old request. */
  ghost predicate Abandoned(s: State, req: nat) {
    req < s.requests && !Awaits(Holder(s), req)
  }

  /** Streams are never forgotten nor opened again. */
  ghost predicate WiresGrow(s: State, r: State) {
    |s.wires| <= |r.wires| && forall w :: 0 <= w < |s.wires| && r.wires[w].open ==> s.wires[w].open
  }

  /** What a step can do to the holder and the log: a new wait is for a new request, and a new
      parse is of the request the holder waited for. */
  ghost predicate Onward(s: State, r: State) {
    && s.requests <= r.requests && s.sessions <= r.sessions && s.dropped <= r.dropped && WiresGrow(s, r)
    && (forall q: nat :: Awaits(Holder(r), q) ==> Awaits(Holder(s), q) || q >= s.requests)
    && (r.log == s.log || (r.log != [] && r.log[..|r.log| - 1] == s.log && Awaits(Holder(s), r.log[|r.log| - 1].req)))
  }

  /** A holder that gives up the lock or starts something other than waiting for a reply. */
  ghost predicate NoWait(s: State, r: State) {
    && !Holder(r).AwaitHead? && !Holder(r).AwaitBody?
    && r.log == s.log && r.requests == s.requests
    && s.sessions <= r.sessions && s.dropped <= r.dropped && WiresGrow(s, r)
  }

  lemma {:induction false} FinishNoWait(s: State, t: nat, op: Op, failed: bool)
    ensures NoWait(s, Finish(s, t, op, failed))
  {
  }

  lemma {:induction false} DroppedNoWait(s: State, t: nat, op: Op, after: After)
    requires s.lock == Some(t)
    ensures NoWait(s, Dropped(s, t, op, after))
  {
    hide Finish;
    var r := s.(stream := None, connected := false, dropped := s.dropped + if s.connected then 1 else 0);
    FinishNoWait(r, t, op, true);
    FinishNoWait(if op == PingDrop then r.(handles := map[]) else r, t, op, false);
  }

  lemma {:induction false} DropNoWait(s: State, t: nat, op: Op, after: After)
    requires s.lock == Some(t)
    ensures NoWait(s, Drop(s, t, op, after))
  {
    hide Dropped;
    DroppedNoWait(s, t, op, after);
  }

  lemma {:induction false} RaiseNoWait(s: State, t: nat, op: Op)
    requires s.lock == Some(t)
    ensures NoWait(s, Raise(s, t, op))
  {
    hide Drop, Finish;
    DropNoWait(s, t, op, End);
    FinishNoWait(s, t, op, true);
  }

  lemma {:induction false} EnteredNoWait(s: State, t: nat, op: Op)
    requires s.lock == Some(t)
    ensures NoWait(s, Entered(s, t, op))
  {
    hide Drop, Raise, Finish;
    RaiseNoWait(s, t, op);
    DropNoWait(s, t, op, End);
    DropNoWait(s, t, op, Reconnect);
    FinishNoWait(s, t, op, false);
  }

  lemma {:induction false} ShakenNoWait(s: State, t: nat, op: Op, hs: nat, reply: ShakeReply)
    requires s.lock == Some(t) && hs < |s.wires|
    ensures NoWait(s, Shaken(s, t, op, hs, reply))
  {
    hide Drop;
    DropNoWait(s.(wires := s.wires[hs := s.wires[hs].(open := false)]), t, op, Fail);
  }

  lemma {:induction false} AuthenticatedNoWait(s: State, t: nat, op: Op, active: bool)
    requires s.lock == Some(t)
    ensures NoWait(s, Authenticated(s, t, op, active))
  {
    hide Finish;
    FinishNoWait(s.(connected := true, casActive := active, sessions := s.sessions + 1), t, op, false);
  }

  lemma {:induction false} InsideOnward(s: State, t: nat, e: Event)
    requires s.lock == Some(t) && StepInside(s, t, At(s, t), e).Some? && !e.ReadBody?
    ensures Onward(s, StepInside(s, t, At(s, t), e).value)
  {
    hide Drop, Dropped, Raise, Finish, Entered, Shaken, Authenticated;
    var pc := At(s, t);
    var op := pc.op;
    RaiseNoWait(s, t, op);
    match e {
      case Enter(_) => EnteredNoWait(s, t, op);
      case EndDrop(_) => DroppedNoWait(s, t, op, pc.after);
      case Open(_, _) => DropNoWait(s, t, op, Fail);
      case Shake(_, reply) => ShakenNoWait(s, t, op, pc.hs, reply);
      case Authenticate(_, _, active) =>
        DropNoWait(s, t, op, Fail);
        AuthenticatedNoWait(s, t, op, active);
      case Break(_) => DropNoWait(s, t, op, Fail);
      case _ =>
    }
  }

  lemma {:induction false} ParsedNoWait(s: State, t: nat, op: Op, active: bool, outcome: Outcome)
    requires s.lock == Some(t)
    ensures NoWait(s, Parsed(s, t, op, active, outcome))
  {
    hide Drop, Finish, Keep;
    var r := s.(casActive := active);
    DropNoWait(r, t, op, End);
    DropNoWait(r, t, op, Fail);
    FinishNoWait(if op.Call? then r.(handles := Keep(s.handles, op.effect, s.sessions)) else r, t, op, false);
    if outcome.Refused? { FinishNoWait(r, t, op, outcome.operational || op.Call?); }
  }

  lemma {:induction false} StepOnward(s: State, e: Event)
    requires Inv(s) && Step(s, e).Some?
    ensures Onward(s, Step(s, e).value)
  {
    OutsideOrInside(s, e);
    hide Inv, StepInside, QueueOk;
    match e {
      case Start(_, _) =>
      case StartPing(_, _) =>
      case CloseCursor(_, _) =>
      case Acquire(_) =>
      case Answer(_) =>
      case HangUp(_) =>
      case ReadBody(t, active, outcome) => BodyOnward(s, t, active, outcome);
      case _ => InsideOnward(s, e.t, e);
    }
  }

  lemma {:induction false} BodyOnward(s: State, t: nat, active: bool, outcome: Outcome)
    requires s.lock == Some(t) && Step(s, ReadBody(t, active, outcome)).Some?
    ensures Onward(s, Step(s, ReadBody(t, active, outcome)).value)
  {
    hide Parsed;
    var pc := At(s, t);
    var parse := Parse(pc.req, pc.head, s.wires[pc.wire].inbox[0]);
    ParsedNoWait(Take(s, pc.wire).(log := s.log + [parse]), t, pc.op, active, outcome);
  }

  lemma {:induction false} StepAbandoned(s: State, e: Event, req: nat)
    requires Inv(s) && Abandoned(s, req) && Step(s, e).Some?
    ensures var r := Step(s, e).value;
            Abandoned(r, req) && s.log <= r.log && |r.log| <= |s.log| + 1 && forall p <- r.log[|s.log|..] :: p.req != req
  {
    hide Inv, Step, Awaits;
    StepOnward(s, e);
  }

  /** A read timeout abandons the request, and closes the stream its reply would come on. */
  lemma {:induction false} TimeoutAbandons(s: State, t: nat, req: nat)
    requires Inv(s) && Awaits(At(s, t), req) && Step(s, Break(t)).Some?
    ensures var r := Step(s, Break(t)).value;
            Abandoned(r, req) && At(s, t).wire < |r.wires| && !r.wires[At(s, t).wire].open
  {
    HolderIs(s, t);
    hide QueueOk, LogOk, NotLogged, StreamsOk;
  }

  /** A reply that comes too late is read by nobody: once no task waits for it, no later parse of
      the run is of it, neither of its head nor of its body. */
  lemma {:induction false} LateReplyUnread(s: State, es: seq<Event>, req: nat)
    requires Inv(s) && Abandoned(s, req) && Run(s, es).Some?
    ensures var r := Run(s, es).value;
            && s.log <= r.log
            && forall p <- r.log[|s.log|..] :: p.req != req && p.head != Head(req) && p.body != Body(req)
    decreases |es|
  {
    hide Inv, Step, Abandoned;
    if es != [] {
      var m, r := Step(s, es[0]).value, Run(s, es).value;
      StepAbandoned(s, es[0], req);
      StepKeeps(s, es[0]);
      LateReplyUnread(m, es[1..], req);
      RunKeeps(s, es);
      OwnParses(r);
      assert r.log[|s.log|..] == m.log[|s.log|..] + r.log[|m.log|..];
    }
  }

  lemma OwnParses(s: State)
    requires Inv(s)
    ensures forall p <- s.log :: p.head == Head(p.req) && p.body == Body(p.req)
  {
  }

  predicate OfHandshake(e: Event) { e.Open? || e.Shake? || e.Authenticate? }

  /** Sessions are opened one at a time: sessions opened and connections dropped balance, and as
      long as none is dropped in a run, a connected connection does not even start a handshake. */
  lemma {:induction false} NoSecondHandshake(s: State, es: seq<Event>)
    requires Inv(s) && Run(s, es).Some?
    ensures var r := Run(s, es).value;
            r.sessions - s.sessions == r.dropped - s.dropped
              + (if r.connected then 1 else 0) - (if s.connected then 1 else 0)
    ensures s.connected && Run(s, es).value.dropped == s.dropped ==>
              Run(s, es).value.sessions == s.sessions && Run(s, es).value.connected
              && forall e <- es :: !OfHandshake(e)
  {
    hide Run, Step, QueueOk;
    RunKeeps(s, es);
    SessionsGrow(s, es);
    if s.connected && Run(s, es).value.dropped == s.dropped { NoHandshakeStarts(s, es); }
  }

  lemma {:induction false} NoHandshakeStarts(s: State, es: seq<Event>)
    requires Inv(s) && s.connected && Run(s, es).Some? && Run(s, es).value.dropped == s.dropped
    ensures forall e <- es :: !OfHandshake(e)
    decreases |es|
  {
    hide Inv, Step;
    if es != [] {
      var m := Step(s, es[0]).value;
      StepKeeps(s, es[0]);
      StepOnward(s, es[0]);
      SessionsGrow(m, es[1..]);
      StaysConnected(s, m);
      NoHandshakeStarts(m, es[1..]);
      ConnectedOpensNothing(s, es[0]);
      assert es == [es[0]] + es[1..];
    }
  }

  lemma StaysConnected(s: State, r: State)
    requires Inv(s) && Inv(r) && s.connected && s.sessions <= r.sessions && s.dropped == r.dropped
    ensures r.connected
  {
  }

  lemma {:induction false} ConnectedOpensNothing(s: State, e: Event)
    requires Inv(s) && s.connected && Step(s, e).Some?
    ensures !OfHandshake(e)
  {
    OutsideOrInside(s, e);
    hide QueueOk, LogOk, NotLogged, StreamsOk, Drop, Finish, Raise;
  }

  lemma {:induction false} SessionsGrow(s: State, es: seq<Event>)
    requires Inv(s) && Run(s, es).Some?
    ensures s.sessions <= Run(s, es).value.sessions && s.dropped <= Run(s, es).value.dropped
    decreases |es|
  {
    hide Inv, Step;
    if es != [] {
      StepOnward(s, es[0]);
      StepKeeps(s, es[0]);
      SessionsGrow(Step(s, es[0]).value, es[1..]);
    }
  }

  /** Streams are conserved: whenever nobody holds the lock, the connection counts as connected
      exactly if it holds a stream, and that one is the only open stream. */
  lemma {:induction false} StreamsConserved(es: seq<Event>, s: State)
    requires Run(Init(false), es) == Some(s) && s.lock.None?
    ensures s.connected == s.stream.Some?
    ensures forall w :: 0 <= w < |s.wires| ==> (s.wires[w].open <==> s.stream == Some(w))
  {
    hide Run, Step, QueueOk;
    InitInv();
    RunKeeps(Init(false), es);
  }

  predicate ClosedIfDone(r: State, t: nat) {
    Inside(At(r, t)) || (At(r, t) == Idle && r.lock.None? && !r.connected && r.stream.None?)
  }

  lemma {:induction false} CloseDrops(s: State, t: nat, after: After)
    ensures ClosedIfDone(Dropped(s, t, CloseCall, after), t) && ClosedIfDone(Drop(s, t, CloseCall, after), t)
  {
    assert At(Dropped(s, t, CloseCall, after), t)
           == if after != Reconnect then Idle else if s.overridden then Nested(CloseCall) else Opening(CloseCall);
  }

  lemma {:induction false} CloseParsed(s: State, t: nat, active: bool, outcome: Outcome)
    ensures ClosedIfDone(Parsed(s, t, CloseCall, active, outcome), t)
  {
    hide Drop, Finish;
    CloseDrops(s.(casActive := active), t, End);
    CloseDrops(s.(casActive := active), t, Fail);
  }

  lemma {:induction false} CloseShaken(s: State, t: nat, hs: nat, reply: ShakeReply)
    requires hs < |s.wires|
    ensures ClosedIfDone(Shaken(s, t, CloseCall, hs, reply), t)
  {
    hide Drop;
    CloseDrops(s.(wires := s.wires[hs := s.wires[hs].(open := false)]), t, Fail);
  }

  lemma {:induction false} CloseMoves(s: State, t: nat)
    ensures ClosedIfDone(Entered(s, t, CloseCall), t) && ClosedIfDone(Written(s, t, CloseCall), t)
    ensures ClosedIfDone(Raise(s, t, CloseCall), t)
  {
    hide Drop, Finish;
    CloseDrops(s, t, End);
  }

  lemma {:induction false} CloseAuthenticated(s: State, t: nat, active: bool)
    ensures ClosedIfDone(Authenticated(s, t, CloseCall, active), t)
  {
  }

  lemma {:induction false} CloseStep(s: State, t: nat, e: Event)
    requires Inside(At(s, t)) && At(s, t).op == CloseCall && StepInside(s, t, At(s, t), e).Some?
    ensures ClosedIfDone(StepInside(s, t, At(s, t), e).value, t)
  {
    hide Drop, Dropped, Finish, Shaken, Parsed, Authenticated, Entered, Written, Raise;
    var pc := At(s, t);
    CloseDrops(s, t, Fail);
    CloseMoves(s, t);
    match e {
      case Authenticate(_, _, active) => CloseAuthenticated(s, t, active);
      case EndDrop(_) => CloseDrops(s, t, pc.after);
      case Shake(_, reply) => CloseShaken(s, t, pc.hs, reply);
      case ReadBody(_, active, outcome) =>
        CloseParsed(Take(s, pc.wire).(log := s.log + [Parse(pc.req, pc.head, s.wires[pc.wire].inbox[0])]), t, active, outcome);
      case _ =>
    }
  }

  lemma {:induction false} OutsideStays(s: State, e: Event, t: nat)
    requires Inv(s) && Step(s, e).Some? && Inside(At(s, t))
    requires Outer(e)
    ensures Inside(At(Step(s, e).value, t))
  {
    hide Inv, StepInside;
  }

  lemma {:induction false} NoStreamOpen(s: State)
    requires Inv(s) && s.lock.None? && s.stream.None?
    ensures forall w :: 0 <= w < |s.wires| ==> !s.wires[w].open
  {
    hide QueueOk, LogOk;
  }

  /** close ends disconnected and without any open stream, whichever step gives the lock back. */
  lemma {:induction false} CloseEndsClosed(s: State, e: Event, r: State, t: nat)
    requires Inv(s) && s.lock == Some(t) && At(s, t).op == CloseCall
    requires Step(s, e) == Some(r) && r.lock != Some(t)
    ensures At(r, t) == Idle && !r.connected && r.stream.None?
    ensures forall w :: 0 <= w < |r.wires| ==> !r.wires[w].open
  {
    StepKeeps(s, e);
    OutsideOrInside(s, e);
    HolderInside(s.waiters, s.pc, t);
    InsideHolds(r, t);
    hide Inv, StepInside;
    if Outer(e) {
      OutsideStays(s, e, t);
    } else {
      CloseStep(s, t, e);
      NoStreamOpen(r);
    }
  }

  lemma {:induction false} InsideHolds(s: State, t: nat)
    requires Inv(s)
    ensures Inside(At(s, t)) ==> s.lock == Some(t)
  {
    if Inside(At(s, t)) { HolderIs(s, t); }
  }

  lemma {:induction false} HolderIs(s: State, t: nat)
    requires Inv(s) && Inside(At(s, t))
    ensures s.lock == Some(t)
  {
    assert Inside(Where(s.pc, t));
  }

  /** The held stream has ended on the broker's side and everything that arrived was read. */
  predicate Deaf(s: State, w: nat) {
    s.connected && s.stream == Some(w) && w < |s.wires| && s.wires[w].open && s.wires[w].eof && s.wires[w].inbox == []
  }

  /** A connection lost while a task receives is not noticed as such: the request fails, and the
      lock is given back with the connection as it was, unless close was at work. */
  lemma {:induction false} LostKeepsStream(s: State, t: nat)
    requires Inv(s) && s.lock == Some(t) && Step(s, Lost(t)).Some?
    ensures var r := Step(s, Lost(t)).value;
            if At(s, t).op == CloseCall then At(r, t) == Dropping(CloseCall, End)
            else r.lock.None? && r.stream.Some? && Deaf(r, r.stream.value) && r.stream == s.stream
  {
    hide QueueOk, LogOk, NotLogged, StreamsOk;
  }

  /** From then on, over every run that does not close the stream, every request fails without a
      parse, no session is opened, and the connection goes on counting as connected. */
  lemma {:induction false} LostStaysUnnoticed(s: State, es: seq<Event>, w: nat)
    requires Inv(s) && Deaf(s, w) && Run(s, es).Some?
    requires w < |Run(s, es).value.wires| ==> Run(s, es).value.wires[w].open
    ensures var r := Run(s, es).value; Deaf(r, w) && r.log == s.log && r.sessions == s.sessions
    decreases |es|
  {
    hide Inv, Step, Deaf;
    if es != [] {
      var m := Step(s, es[0]).value;
      StepKeeps(s, es[0]);
      ClosedStaysClosed(m, es[1..], w);
      DeafStep(s, es[0], w);
      LostStaysUnnoticed(m, es[1..], w);
    }
  }

  lemma {:induction false} ClosedStaysClosed(s: State, es: seq<Event>, w: nat)
    requires Inv(s) && Run(s, es).Some?
    ensures |s.wires| <= |Run(s, es).value.wires|
    ensures w < |s.wires| && Run(s, es).value.wires[w].open ==> s.wires[w].open
    decreases |es|
  {
    hide Inv, Step;
    if es != [] {
      StepOnward(s, es[0]);
      StepKeeps(s, es[0]);
      ClosedStaysClosed(Step(s, es[0]).value, es[1..], w);
    }
  }

  /** The connection is as deaf as before, or the stream was closed. */
  ghost predicate StillDeaf(s: State, r: State, w: nat) {
    (Deaf(r, w) && r.log == s.log && r.sessions == s.sessions) || (w < |r.wires| && !r.wires[w].open)
  }

  lemma {:induction false} DropDeaf(s: State, t: nat, op: Op, after: After, w: nat)
    requires Deaf(s, w)
    ensures StillDeaf(s, Drop(s, t, op, after), w)
  {
    hide Dropped;
  }

  lemma {:induction false} RaiseDeaf(s: State, t: nat, op: Op, w: nat)
    requires Deaf(s, w)
    ensures StillDeaf(s, Raise(s, t, op), w) && StillDeaf(s, Finish(s, t, op, false), w)
  {
    hide Drop, Left;
    DropDeaf(s, t, op, End, w);
  }

  lemma {:induction false} EnteredDeaf(s: State, t: nat, op: Op, w: nat)
    requires Deaf(s, w)
    ensures StillDeaf(s, Entered(s, t, op), w) && StillDeaf(s, Written(s, t, op), w)
  {
    hide Drop, Raise, Finish;
    RaiseDeaf(s, t, op, w);
    DropDeaf(s, t, op, End, w);
    DropDeaf(s, t, op, Reconnect, w);
  }

  lemma {:induction false} InsideDeaf(s: State, t: nat, e: Event, w: nat)
    requires Deaf(s, w) && s.lock == Some(t) && Place(s, At(s, t)) && !OfHandshake(e)
    requires StepInside(s, t, At(s, t), e).Some?
    ensures StillDeaf(s, StepInside(s, t, At(s, t), e).value, w)
  {
    hide Drop, Dropped, Raise, Finish, Entered, Written, Shaken, Authenticated, Parsed, StillDeaf;
    var op := At(s, t).op;
    match e {
      case Enter(_) => EnteredDeaf(s, t, op, w);
      case Write(_, _) => EnteredDeaf(s, t, op, w); RaiseDeaf(s, t, op, w);
      case Lost(_) => RaiseDeaf(s, t, op, w);
      case _ => DropDeaf(s, t, op, Fail, w);
    }
  }

  lemma {:induction false} DeafStep(s: State, e: Event, w: nat)
    requires Inv(s) && Deaf(s, w) && Step(s, e).Some?
    ensures StillDeaf(s, Step(s, e).value, w)
  {
    OutsideOrInside(s, e);
    if Outer(e) {
      hide Inv, StepInside;
    } else {
      ConnectedOpensNothing(s, e);
      assert Place(s, At(s, e.t));
      hide Inv, StepInside, StillDeaf, Place, Deaf;
      InsideDeaf(s, e.t, e, w);
    }
  }

  /** A task that holds the lock does not wait for it, and no run gets stuck, even without a read
      timeout: the holder has a step of its own to take, or it awaits a reply of which the broker
      can deliver the next part on the held stream; and a free lock goes to the first in the queue. */
  lemma {:induction false} NeverStuck(es: seq<Event>, s: State)
    requires Run(Init(false), es) == Some(s)
    ensures s.lock.Some? ==> s.lock.value !in s.waiters
    ensures s.lock.Some? ==>
              exists e :: Step(s, e).Some? && !e.Break?
                          && if e.Answer? then s.stream == Some(e.w) else !Outer(e) && e.t == s.lock.value
    ensures s.lock.None? && s.waiters != [] ==> Step(s, Acquire(s.waiters[0])).Some?
  {
    hide Run;
    InitInv();
    RunKeeps(Init(false), es);
    if s.lock.Some? {
      HolderInside(s.waiters, s.pc, s.lock.value);
      HolderSteps(s, s.lock.value);
    } else if s.waiters != [] {
      assert s.waiters[0] in s.waiters;
    }
  }

  /** A step that moves the holder on, be it its own or the broker's. */
  function NextStep(s: State, t: nat): Event {
    match At(s, t)
    case Dropping(_, _) => EndDrop(t)
    case Opening(_) => Open(t, true)
    case Shaking(_, _) => Shake(t, Same)
    case Redirecting(_) => Open(t, true)
    case Authenticating(_) => Authenticate(t, true, true)
    case Ready(_) => Write(t, true)
    case AwaitHead(_, _, w) =>
      if w >= |s.wires| || s.wires[w].inbox != [] then ReadHead(t) else if s.wires[w].eof then Lost(t) else Answer(w)
    case AwaitBody(_, _, w, _) =>
      if w >= |s.wires| || s.wires[w].inbox != [] then ReadBody(t, true, Good)
      else if s.wires[w].eof then Lost(t) else Answer(w)
    case _ => Enter(t)
  }

  lemma {:induction false} HolderSteps(s: State, t: nat)
    requires Inv(s) && s.lock == Some(t) && Inside(At(s, t))
    ensures var e := NextStep(s, t);
            Step(s, e).Some? && !e.Break? && if e.Answer? then s.stream == Some(e.w) else !Outer(e) && e.t == t
  {
    hide QueueOk, LogOk, NotLogged, StreamsOk, Drop, Dropped, Raise, Finish, Parsed, Entered, Written, Authenticated;
  }

  // ---- A connect that is overridden ------------------------------------------------------------

  ghost predicate Blocked(lock: Option<nat>, waiters: seq<nat>, pc: map<nat, Pc>, t: nat) {
    lock == Some(t) && Where(pc, t).Nested? && t in waiters && forall x: nat :: Inside(Where(pc, x)) ==> x == t
  }

  /** The holder asks for the lock it holds. */
  ghost predicate SelfWait(s: State, t: nat) { Blocked(s.lock, s.waiters, s.pc, t) }

  lemma {:induction false} SelfWaitForever(s: State, es: seq<Event>, t: nat)
    requires SelfWait(s, t) && Run(s, es).Some?
    ensures SelfWait(Run(s, es).value, t)
    decreases |es|
  {
    hide Step, SelfWait;
    if es != [] {
      SelfWaitStep(s, es[0], t);
      SelfWaitForever(Step(s, es[0]).value, es[1..], t);
    }
  }

  lemma {:induction false} SelfWaitStep(s: State, e: Event, t: nat)
    requires SelfWait(s, t) && Step(s, e).Some?
    ensures SelfWait(Step(s, e).value, t)
  {
    match e {
      case Start(u, op) => SelfWaitQueue(s.waiters, s.pc, t, u, op);
      case StartPing(u, reconnect) =>
        if At(s, u) == Idle {
          SelfWaitQueue(s.waiters, s.pc, t, u, PingCall(reconnect));
          SelfWaitQueue(s.waiters, s.pc, t, u, ConnectCall);
        }
      case CloseCursor(u, c) =>
        if At(s, u) == Idle { SelfWaitQueue(s.waiters, s.pc, t, u, Call(true, Release(c))); }
      case Answer(_) =>
      case HangUp(_) =>
      case Acquire(_) =>
      case _ =>
    }
  }

  lemma {:induction false} SelfWaitQueue(waiters: seq<nat>, pc: map<nat, Pc>, t: nat, u: nat, op: Op)
    requires Blocked(Some(t), waiters, pc, t) && Where(pc, u) == Idle
    ensures Blocked(Some(t), waiters + [u], pc[u := Waiting(op)], t)
  {
    var pc' := pc[u := Waiting(op)];
    forall x: nat ensures Where(pc', x) == if x == u then Waiting(op) else Where(pc, x) {}
    forall x: nat | Inside(Where(pc', x)) ensures x == t {
      assert Inside(Where(pc, x));
    }
    assert t in waiters && t in waiters + [u];
  }
}
