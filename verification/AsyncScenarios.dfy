/** Two things that can go wrong on one connection shared by tasks (pycubrid/aio/connection.py):
    a run in which the automatic reconnect waits for its own lock, possible exactly when connect
    is overridden, and the exact condition under which stored query handles outlive their
    session. */
module AsyncScenarios {
  import opened Basics
  import opened AsyncConnection
  import opened AsyncRuns
  import opened AsyncHandles

  // ---- Steps of a given task ------------------------------------------------------------------

  lemma {:induction false} RunCons(s: State, e: Event, es: seq<Event>)
    requires Step(s, e).Some?
    ensures Run(s, [e] + es) == Run(Step(s, e).value, es)
  {
    assert ([e] + es)[1..] == es;
  }

  lemma {:induction false} RunAppend(s: State, es: seq<Event>, fs: seq<Event>)
    requires Run(s, es).Some?
    ensures Run(s, es + fs) == Run(Run(s, es).value, fs)
    decreases |es|
  {
    hide Step;
    if es == [] {
      assert es + fs == fs;
    } else {
      assert (es + fs)[1..] == es[1..] + fs;
      RunAppend(Step(s, es[0]).value, es[1..], fs);
    }
  }

  lemma {:induction false} ThreeSteps(s: State, e1: Event, s1: State, e2: Event, s2: State, e3: Event, s3: State)
    requires Step(s, e1) == Some(s1) && Step(s1, e2) == Some(s2) && Step(s2, e3) == Some(s3)
    ensures Run(s, [e1, e2, e3]) == Some(s3)
  {
    hide Step;
    RunCons(s, e1, [e2, e3]);
    RunCons(s1, e2, [e3]);
    RunCons(s2, e3, []);
    assert [e1] + [e2, e3] == [e1, e2, e3] && [e2] + [e3] == [e2, e3] && [e3] + [] == [e3];
  }

  lemma {:induction false} Over(pc: map<nat, Pc>, t: nat, p: Pc, q: Pc)
    ensures pc[t := p][t := q] == pc[t := q]
  {
  }

  lemma {:induction false} Acquires(s: State, t: nat, op: Op)
    requires s.lock.None? && s.waiters != [] && s.waiters[0] == t && At(s, t) == Waiting(op)
    ensures Step(s, Acquire(t)) == Some(Put(s.(lock := Some(t), waiters := s.waiters[1..]), t, Entering(op)))
  {
  }

  lemma {:induction false} Enters(s: State, t: nat, op: Op)
    requires At(s, t) == Entering(op)
    ensures Step(s, Enter(t)) == Some(Entered(s, t, op))
  {
  }

  lemma {:induction false} Opens(s: State, t: nat, op: Op)
    requires At(s, t) == Opening(op)
    ensures Step(s, Open(t, true)) == Some(Put(s.(wires := s.wires + [NEW_WIRE]), t, Shaking(op, |s.wires|)))
  {
  }

  lemma {:induction false} Shakes(s: State, t: nat, op: Op, hs: nat)
    requires At(s, t) == Shaking(op, hs) && hs < |s.wires|
    ensures Step(s, Shake(t, Same)) == Some(Put(s.(stream := Some(hs)), t, Authenticating(op)))
  {
  }

  lemma {:induction false} Authenticates(s: State, t: nat, op: Op, active: bool)
    requires At(s, t) == Authenticating(op)
    ensures Step(s, Authenticate(t, true, active)) == Some(Authenticated(s, t, op, active))
  {
  }

  function Handshake(t: nat, active: bool): seq<Event> {
    [Open(t, true), Shake(t, Same), Authenticate(t, true, active)]
  }

  /** A handshake that works opens a session on a new stream. */
  lemma {:induction false} HandshakeRun(s: State, t: nat, op: Op, active: bool)
    requires At(s, t) == Opening(op)
    ensures Run(s, Handshake(t, active))
            == Some(Authenticated(s.(wires := s.wires + [NEW_WIRE], stream := Some(|s.wires|)), t, op, active))
  {
    hide Step, Run;
    var p, q := Shaking(op, |s.wires|), Authenticating(op);
    var s1 := Put(s.(wires := s.wires + [NEW_WIRE]), t, p);
    var s2 := Put(s1.(stream := Some(|s.wires|)), t, q);
    Opens(s, t, op);
    Shakes(s1, t, op, |s.wires|);
    Authenticates(s2, t, op, active);
    var r := Authenticated(s.(wires := s.wires + [NEW_WIRE], stream := Some(|s.wires|)), t, op, active);
    ThreeSteps(s, Open(t, true), s1, Shake(t, Same), s2, Authenticate(t, true, active), Authenticated(s2, t, op, active));
    var last := if op == ConnectCall then Idle else Ready(op);
    Over(s.pc, t, p, q);
    Over(s.pc, t, q, last);
  }

  // ---- The first connect, and a reconnect inside a request ---------------------------------------

  /** Connected by task 0; the broker already said it would release its process. */
  function Connected0(overridden: bool): State {
    State(overridden, None, [], map[0 := Idle], true, false, Some(0), [NEW_WIRE], 0, 1, 0, map[], [])
  }

  function FirstConnect(): seq<Event> {
    [Start(0, ConnectCall), Acquire(0), Enter(0)] + Handshake(0, false)
  }

  lemma {:induction false} FirstConnectRun(overridden: bool)
    ensures Run(Init(overridden), FirstConnect()) == Some(Connected0(overridden))
  {
    hide Step, Run;
    var s := Init(overridden);
    var s1 := Queue(s, 0, ConnectCall);
    var s2 := Put(s.(lock := Some(0)), 0, Entering(ConnectCall));
    var s3 := Put(s.(lock := Some(0)), 0, Opening(ConnectCall));
    assert s1.waiters == [0] && s1.waiters[1..] == [];
    Starts(s, 0, ConnectCall);
    Acquires(s1, 0, ConnectCall);
    Over(s.pc, 0, Waiting(ConnectCall), Entering(ConnectCall));
    Enters(s2, 0, ConnectCall);
    Over(s.pc, 0, Entering(ConnectCall), Opening(ConnectCall));
    ThreeSteps(s, Start(0, ConnectCall), s1, Acquire(0), s2, Enter(0), s3);
    HandshakeRun(s3, 0, ConnectCall, false);
    Over(s.pc, 0, Opening(ConnectCall), Idle);
    RunAppend(s, [Start(0, ConnectCall), Acquire(0), Enter(0)], Handshake(0, false));
    assert s3.wires + [NEW_WIRE] == [NEW_WIRE] && s3.pc[0 := Idle] == map[0 := Idle];
  }

  lemma {:induction false} Starts(s: State, t: nat, op: Op)
    requires At(s, t) == Idle && MayStart(s, op)
    ensures Step(s, Start(t, op)) == Some(Queue(s, t, op))
  {
  }

  lemma {:induction false} OneStep(s: State, e: Event, s1: State)
    requires Step(s, e) == Some(s1)
    ensures Run(s, [e]) == Some(s1)
  {
    hide Step;
    RunCons(s, e, []);
    assert [e] + [] == [e];
  }

  lemma {:induction false} FourSteps(s: State, e1: Event, s1: State, e2: Event, s2: State, e3: Event, s3: State,
                                     e4: Event, s4: State)
    requires Step(s, e1) == Some(s1) && Step(s1, e2) == Some(s2) && Step(s2, e3) == Some(s3) && Step(s3, e4) == Some(s4)
    ensures Run(s, [e1, e2, e3, e4]) == Some(s4)
  {
    hide Step;
    RunCons(s, e1, [e2, e3, e4]);
    ThreeSteps(s1, e2, s2, e3, s3, e4, s4);
    assert [e1] + [e2, e3, e4] == [e1, e2, e3, e4];
  }

  lemma {:induction false} EndsDrop(s: State, t: nat, op: Op, after: After)
    requires At(s, t) == Dropping(op, after)
    ensures Step(s, EndDrop(t)) == Some(Dropped(s, t, op, after))
  {
  }

  /** A request found the process released: its task is closing the stream to reconnect. */
  function Releasing(s: State, t: nat, op: Op, w: nat): State
    requires w < |s.wires|
  {
    Put(s.(lock := Some(t), wires := s.wires[w := s.wires[w].(open := false)]), t, Dropping(op, Reconnect))
  }

  lemma {:induction false} ReleaseRun(s: State, t: nat, op: Op, w: nat)
    requires s.lock.None? && s.waiters == [] && At(s, t) == Idle && MayStart(s, op) && op.Call? && op.reconnect
    requires s.connected && !s.casActive && s.stream == Some(w) && w < |s.wires|
    ensures Run(s, [Start(t, op), Acquire(t), Enter(t)]) == Some(Releasing(s, t, op, w))
  {
    hide Step, Run;
    var q := s.(lock := Some(t));
    var s1, s2 := Queue(s, t, op), Put(q, t, Entering(op));
    assert s1.waiters == [t] && s1.waiters[1..] == [];
    Starts(s, t, op);
    Acquires(s1, t, op);
    Over(s.pc, t, Waiting(op), Entering(op));
    Enters(s2, t, op);
    Over(s.pc, t, Entering(op), Dropping(op, Reconnect));
    ThreeSteps(s, Start(t, op), s1, Acquire(t), s2, Enter(t), Releasing(s, t, op, w));
  }

  // ---- Waiting for one's own lock ----------------------------------------------------------------

  function SelfWaitRun(): seq<Event> {
    FirstConnect() + [Start(0, Call(true, Nothing)), Acquire(0), Enter(0)] + [EndDrop(0)]
  }

  /** The automatic reconnect waits for its own lock in some run exactly if connect is overridden,
      and then it waits for ever. */
  lemma {:induction false} SelfWaitIffOverridden(overridden: bool)
    ensures overridden <==> exists es, t: nat :: Run(Init(overridden), es).Some? && SelfWait(Run(Init(overridden), es).value, t)
    ensures overridden ==>
              Run(Init(true), SelfWaitRun()).Some? && SelfWait(Run(Init(true), SelfWaitRun()).value, 0)
  {
    hide Run, Step;
    if overridden {
      var op := Call(true, Nothing);
      FirstConnectRun(true);
      var es, s := FirstConnect(), Releasing(Connected0(true), 0, op, 0);
      ReleaseRun(Connected0(true), 0, op, 0);
      RunAppend(Init(true), es, [Start(0, op), Acquire(0), Enter(0)]);
      EndsDrop(s, 0, op, Reconnect);
      OneStep(s, EndDrop(0), Dropped(s, 0, op, Reconnect));
      RunAppend(Init(true), es + [Start(0, op), Acquire(0), Enter(0)], [EndDrop(0)]);
      assert SelfWait(Dropped(s, 0, op, Reconnect), 0);
    } else {
      forall es, t: nat | Run(Init(false), es).Some? ensures !SelfWait(Run(Init(false), es).value, t) {
        NeverStuck(es, Run(Init(false), es).value);
      }
    }
  }

  // ---- Handles that outlive their session --------------------------------------------------------

  function Exchange(t: nat, w: nat, active: bool): seq<Event> {
    [Write(t, true), Answer(w), Answer(w), ReadHead(t)] + [ReadBody(t, active, Good)]
  }

  lemma {:induction false} Writes(s: State, t: nat, op: Op, w: nat)
    requires At(s, t) == Ready(op) && s.stream == Some(w) && w < |s.wires|
    ensures Step(s, Write(t, true))
            == Some(Put(s.(wires := s.wires[w := s.wires[w].(pending := s.wires[w].pending + [s.requests])],
                           requests := s.requests + 1),
                        t, AwaitHead(op, s.requests, w)))
  {
  }

  lemma {:induction false} Answers(s: State, w: nat, x: Wire)
    requires w < |s.wires| && s.wires[w] == x && !x.eof && x.pending != []
    ensures Step(s, Answer(w)) == Some(s.(wires := s.wires[w := Delivered(x)]))
  {
  }

  lemma {:induction false} ReadsHead(s: State, t: nat, op: Op, req: nat, w: nat)
    requires At(s, t) == AwaitHead(op, req, w) && w < |s.wires| && s.wires[w].inbox != []
    ensures Step(s, ReadHead(t)) == Some(Put(Take(s, w), t, AwaitBody(op, req, w, s.wires[w].inbox[0])))
  {
  }

  lemma {:induction false} ReadsBody(s: State, t: nat, op: Op, req: nat, w: nat, head: Part, active: bool)
    requires At(s, t) == AwaitBody(op, req, w, head) && w < |s.wires| && s.wires[w].inbox != []
    ensures Step(s, ReadBody(t, active, Good))
            == Some(Parsed(Take(s, w).(log := s.log + [Parse(req, head, s.wires[w].inbox[0])]), t, op, active, Good))
  {
  }

  /** A request whose reply arrives gets its own reply and leaves the stream as it was. */
  function Served(s: State, t: nat, op: Op, active: bool): State
    requires op.Call?
  {
    s.(lock := None, pc := s.pc[t := Idle], casActive := active, requests := s.requests + 1,
       log := s.log + [Parse(s.requests, Head(s.requests), Body(s.requests))],
       handles := Keep(s.handles, op.effect, s.sessions))
  }

  lemma {:induction false} ExchangeRun(s: State, t: nat, op: Op, w: nat, active: bool)
    requires At(s, t) == Ready(op) && op.Call? && s.stream == Some(w) && w < |s.wires| && s.wires[w] == NEW_WIRE
    ensures Run(s, Exchange(t, w, active)) == Some(Served(s, t, op, active))
  {
    hide Step, Run, Keep;
    var req := s.requests;
    var x1, x2 := NEW_WIRE.(pending := [req]), NEW_WIRE.(pending := [req], half := true, inbox := [Head(req)]);
    var x3, x4 := NEW_WIRE.(inbox := [Head(req), Body(req)]), NEW_WIRE.(inbox := [Body(req)]);
    var p := AwaitHead(op, req, w);
    var base := s.(requests := req + 1, pc := s.pc[t := p]);
    var s1, s2, s3 := base.(wires := s.wires[w := x1]), base.(wires := s.wires[w := x2]), base.(wires := s.wires[w := x3]);
    var s4 := base.(wires := s.wires[w := x4], pc := s.pc[t := AwaitBody(op, req, w, Head(req))]);
    assert [] + [req] == [req] && Delivered(x1) == x2 && Delivered(x2) == x3;
    WireOver(s.wires, w, x1, x2);
    WireOver(s.wires, w, x2, x3);
    WireOver(s.wires, w, x3, x4);
    Writes(s, t, op, w);
    Answers(s1, w, x1);
    Answers(s2, w, x2);
    ReadsHead(s3, t, op, req, w);
    Over(s.pc, t, p, AwaitBody(op, req, w, Head(req)));
    FourSteps(s, Write(t, true), s1, Answer(w), s2, Answer(w), s3, ReadHead(t), s4);
    ServedBody(s, s4, t, op, w, active);
    RunCons(s4, ReadBody(t, active, Good), []);
    assert [ReadBody(t, active, Good)] + [] == [ReadBody(t, active, Good)];
    RunAppend(s, [Write(t, true), Answer(w), Answer(w), ReadHead(t)], [ReadBody(t, active, Good)]);
    RunNil(Served(s, t, op, active));
  }

  lemma RunNil(s: State)
    ensures Run(s, []) == Some(s)
  {
  }

  lemma {:induction false} WireOver(wires: seq<Wire>, w: nat, x: Wire, y: Wire)
    requires w < |wires|
    ensures wires[w := x][w := y] == wires[w := y] && wires[w := wires[w]] == wires
  {
  }

  lemma {:induction false} ServedBody(s: State, s4: State, t: nat, op: Op, w: nat, active: bool)
    requires op.Call? && w < |s.wires| && s.wires[w] == NEW_WIRE
    requires var req := s.requests;
             s4 == s.(requests := req + 1, wires := s.wires[w := NEW_WIRE.(inbox := [Body(req)])],
                      pc := s.pc[t := AwaitBody(op, req, w, Head(req))])
    ensures Step(s4, ReadBody(t, active, Good)) == Some(Served(s, t, op, active))
  {
    hide Step, Keep;
    var req := s.requests;
    ReadsBody(s4, t, op, req, w, Head(req), active);
    Over(s.pc, t, AwaitBody(op, req, w, Head(req)), Idle);
    WireOver(s.wires, w, NEW_WIRE.(inbox := [Body(req)]), NEW_WIRE);
    assert [Body(req)][1..] == [];
    assert Take(s4, w).wires == s.wires;
  }

  function TimedOut(s: State, t: nat, op: Op, w: nat): State
    requires w < |s.wires| && s.waiters != []
  {
    Dropped(s.(lock := Some(t), waiters := s.waiters[1..], wires := s.wires[w := s.wires[w].(open := false)]), t, op, Fail)
  }

  lemma {:induction false} Breaks(s: State, t: nat, op: Op)
    requires At(s, t) == Ready(op)
    ensures Step(s, Break(t)) == Some(Drop(s, t, op, Fail))
  {
  }

  lemma {:induction false} TimeoutRun(s: State, t: nat, op: Op, w: nat)
    requires s.lock.None? && s.waiters != [] && s.waiters[0] == t && At(s, t) == Waiting(op) && op.Call?
    requires s.connected && s.casActive && s.stream == Some(w) && w < |s.wires|
    ensures Run(s, [Acquire(t), Enter(t), Break(t), EndDrop(t)]) == Some(TimedOut(s, t, op, w))
  {
    hide Step, Run;
    var q := s.(lock := Some(t), waiters := s.waiters[1..]);
    var r := q.(wires := s.wires[w := s.wires[w].(open := false)]);
    var s1, s2, s3 := Put(q, t, Entering(op)), Put(q, t, Ready(op)), Put(r, t, Dropping(op, Fail));
    Acquires(s, t, op);
    Enters(s1, t, op);
    Over(s.pc, t, Entering(op), Ready(op));
    Breaks(s2, t, op);
    Over(s.pc, t, Ready(op), Dropping(op, Fail));
    EndsDrop(s3, t, op, Fail);
    Over(s.pc, t, Dropping(op, Fail), Idle);
    FourSteps(s, Acquire(t), s1, Enter(t), s2, Break(t), s3, EndDrop(t), TimedOut(s, t, op, w));
  }

  lemma {:induction false} TwoSteps(s: State, e1: Event, s1: State, e2: Event, s2: State)
    requires Step(s, e1) == Some(s1) && Step(s1, e2) == Some(s2)
    ensures Run(s, [e1, e2]) == Some(s2)
  {
    hide Step;
    RunCons(s, e1, [e2]);
    RunCons(s1, e2, []);
    assert [e1] + [e2] == [e1, e2] && [e2] + [] == [e2];
  }

  lemma {:induction false} ConnectRun(s: State, t: nat, active: bool)
    requires s.lock.None? && s.waiters != [] && s.waiters[0] == t && At(s, t) == Waiting(ConnectCall) && !s.connected
    ensures Run(s, [Acquire(t), Enter(t)] + Handshake(t, active))
            == Some(s.(waiters := s.waiters[1..], pc := s.pc[t := Idle], wires := s.wires + [NEW_WIRE],
                       stream := Some(|s.wires|), connected := true, casActive := active, sessions := s.sessions + 1))
  {
    hide Step, Run;
    var q := s.(lock := Some(t), waiters := s.waiters[1..]);
    var s1, s2 := Put(q, t, Entering(ConnectCall)), Put(q, t, Opening(ConnectCall));
    Acquires(s, t, ConnectCall);
    Enters(s1, t, ConnectCall);
    Over(s.pc, t, Entering(ConnectCall), Opening(ConnectCall));
    TwoSteps(s, Acquire(t), s1, Enter(t), s2);
    HandshakeRun(s2, t, ConnectCall, active);
    Over(s.pc, t, Opening(ConnectCall), Idle);
    RunAppend(s, [Acquire(t), Enter(t)], Handshake(t, active));
  }

  lemma {:induction false} Pings(s: State, t: nat)
    requires At(s, t) == Idle && !s.connected
    ensures Step(s, StartPing(t, true)) == Some(Queue(s.(handles := map[]), t, ConnectCall))
  {
  }

  /** Task 1 executes a statement, finds the process released and closes the stream. While the
      connection still counts as connected, task 3 queues a request; then task 1 starts to
      reconnect, and task 2 pings, finds the connection down and queues a connect. */
  function Interrupted(): seq<Event> {
    [Start(1, Call(true, Store(1))), Acquire(1), Enter(1)] + [Start(3, Call(true, Nothing)), EndDrop(1), StartPing(2, true)]
  }

  /** Task 1 gets its handle, the request of task 3 times out, and task 2 connects. */
  function StaleRun(): seq<Event> {
    FirstConnect() + Interrupted() + Handshake(1, true) + Exchange(1, 1, true)
    + [Acquire(3), Enter(3), Break(3), EndDrop(3)] + ([Acquire(2), Enter(2)] + Handshake(2, true))
  }

  function Late(): State {
    State(false, Some(1), [3, 2],
          map[0 := Idle, 1 := Opening(Call(true, Store(1))), 3 := Waiting(Call(true, Nothing)), 2 := Waiting(ConnectCall)],
          false, false, None, [NEW_WIRE.(open := false)], 0, 1, 1, map[], [])
  }

  lemma {:induction false} InterruptedRun()
    ensures Run(Init(false), FirstConnect() + Interrupted()) == Some(Late())
  {
    hide Step, Run;
    var a, b := Call(true, Store(1)), Call(true, Nothing);
    var s := Connected0(false);
    FirstConnectRun(false);
    ReleaseRun(s, 1, a, 0);
    var s1 := Releasing(s, 1, a, 0);
    var s2 := Queue(s1, 3, b);
    Starts(s1, 3, b);
    EndsDrop(s2, 1, a, Reconnect);
    var s3 := Dropped(s2, 1, a, Reconnect);
    Pings(s3, 2);
    var s4 := Queue(s3.(handles := map[]), 2, ConnectCall);
    ThreeSteps(s1, Start(3, b), s2, EndDrop(1), s3, StartPing(2, true), s4);
    RunAppend(s, [Start(1, a), Acquire(1), Enter(1)], [Start(3, b), EndDrop(1), StartPing(2, true)]);
    RunAppend(Init(false), FirstConnect(), Interrupted());
    assert s1.wires == [NEW_WIRE.(open := false)] && s4.waiters == [3, 2];
    assert s4.pc == Late().pc;
  }

  /** The condition can fail: after this run nobody holds the lock, the connection is in its third
      session, and the cursor of task 1 still stores a handle of the second. */
  lemma {:induction false} HandleOutlivesSession()
    ensures Run(Init(false), StaleRun()).Some?
    ensures var s := Run(Init(false), StaleRun()).value;
            s.lock.None? && s.connected && s.sessions == 3 && s.handles == map[1 := 2] && !HandlesCurrent(s)
  {
    hide Step, Run;
    var a, b := Call(true, Store(1)), Call(true, Nothing);
    var i, s := Init(false), Late();
    InterruptedRun();
    var es := FirstConnect() + Interrupted();
    HandshakeRun(s, 1, a, true);
    var s1 := Authenticated(s.(wires := s.wires + [NEW_WIRE], stream := Some(1)), 1, a, true);
    RunAppend(i, es, Handshake(1, true));
    ExchangeRun(s1, 1, a, 1, true);
    var s2 := Served(s1, 1, a, true);
    RunAppend(i, es + Handshake(1, true), Exchange(1, 1, true));
    TimeoutRun(s2, 3, b, 1);
    var s3 := TimedOut(s2, 3, b, 1);
    RunAppend(i, es + Handshake(1, true) + Exchange(1, 1, true), [Acquire(3), Enter(3), Break(3), EndDrop(3)]);
    ConnectRun(s3, 2, true);
    RunAppend(i, es + Handshake(1, true) + Exchange(1, 1, true) + [Acquire(3), Enter(3), Break(3), EndDrop(3)],
              [Acquire(2), Enter(2)] + Handshake(2, true));
    assert s3.handles == map[1 := 2] && 1 in s3.handles;
  }
}
