/** Many tasks on one stream (pycubrid/aio/connection.py). Every await is a point where another
    task may run, so the code is cut there: one event is what a task does up to its next await,
    or what the broker does. What no single method shows: over every interleaving, a task parses
    the reply to its own request, a late reply is read by nobody, sessions are opened only after
    the previous one was dropped, and nobody waits for a lock he holds. */
module AsyncConnection {
  import opened Basics

  /** A reply arrives in two parts, as the receiving code reads it: length, then body. */
  datatype Part = Head(req: nat) | Body(req: nat)

  /** A stream: requests the broker still has to answer, whether the first of them is answered
      half, and the parts that arrived and are unread. Closing our end discards what is unread;
      the broker may go on answering. */
  datatype Wire = Wire(open: bool, eof: bool, pending: seq<nat>, half: bool, inbox: seq<Part>)

  /** What a request does to the stored query handles when it succeeds. Release, which closes a
      cursor, clears its handle whatever comes of the request. */
  datatype Effect = Nothing | Store(cursor: nat) | Clear(cursor: nat) | Forget | Release(cursor: nat)

  /** What a task wants the lock for: a request, the request of ping, the end of close, connect,
      and the clean-up of a failed ping. */
  datatype Op =
    | Call(reconnect: bool, effect: Effect) | PingCall(reconnect: bool) | CloseCall | ConnectCall | PingDrop

  /** What follows once the streams are closed. */
  datatype After = Fail | Reconnect | End

  /** Where a task stands: Waiting is the queue for the lock, all others but Idle hold it. Nested
      is a task that asks for the lock while holding it. */
  datatype Pc =
    | Idle | Waiting(op: Op) | Entering(op: Op) | Dropping(op: Op, after: After)
    | Opening(op: Op) | Shaking(op: Op, hs: nat) | Redirecting(op: Op) | Authenticating(op: Op)
    | Ready(op: Op) | AwaitHead(op: Op, req: nat, wire: nat) | AwaitBody(op: Op, req: nat, wire: nat, head: Part)
    | Nested(op: Op)

  /** A parse: the request of the parsing task and the two parts it read. */
  datatype Parse = Parse(req: nat, head: Part, body: Part)

  datatype State = State(
    overridden: bool, lock: Option<nat>, waiters: seq<nat>, pc: map<nat, Pc>,
    connected: bool, casActive: bool, stream: Option<nat>, wires: seq<Wire>,
    requests: nat, sessions: nat, dropped: nat, handles: map<nat, nat>, log: seq<Parse>)

  datatype ShakeReply = Same | Redirect | Rejected

  datatype Outcome = Good | Refused(operational: bool) | Malformed

  datatype Event =
    | Start(t: nat, op: Op) | StartPing(t: nat, reconnect: bool) | CloseCursor(t: nat, cursor: nat)
    | Acquire(t: nat) | Enter(t: nat)
    | EndDrop(t: nat) | Open(t: nat, ok: bool) | Shake(t: nat, reply: ShakeReply)
    | Authenticate(t: nat, ok: bool, active: bool) | Write(t: nat, ok: bool) | Break(t: nat)
    | ReadHead(t: nat) | ReadBody(t: nat, active: bool, outcome: Outcome) | Lost(t: nat)
    | Answer(w: nat) | HangUp(w: nat)

  /** A new connection object; overridden says whether a subclass replaces connect by one that
      calls the original. */
  function Init(overridden: bool): State {
    State(overridden, None, [], map[], false, false, None, [], 0, 0, 0, map[], [])
  }

  function Where(pc: map<nat, Pc>, t: nat): Pc { if t in pc then pc[t] else Idle }

  function At(s: State, t: nat): Pc { Where(s.pc, t) }

  function Put(s: State, t: nat, pc: Pc): State { s.(pc := s.pc[t := pc]) }

  function Queue(s: State, t: nat, op: Op): State {
    Put(s, t, Waiting(op)).(waiters := s.waiters + [t])
  }

  /** The handles after a request that may have failed. */
  function Left(handles: map<nat, nat>, op: Op, failed: bool): map<nat, nat> {
    if failed && op.Call? && op.effect.Release? then handles - {op.effect.cursor} else handles
  }

  /** Leaving the lock. A failed ping that may reconnect goes on to clean up, and from there to
      connect. */
  function Finish(s: State, t: nat, op: Op, failed: bool): State {
    var r := s.(lock := None, handles := Left(s.handles, op, failed));
    if op == PingCall(true) && failed then Queue(r, t, PingDrop)
    else if op == PingDrop then Queue(r, t, ConnectCall)
    else Put(r, t, Idle)
  }

  /** Past the await of _close_streams. */
  function Dropped(s: State, t: nat, op: Op, after: After): State {
    var r := s.(stream := None, connected := false, dropped := s.dropped + if s.connected then 1 else 0);
    match after
    case Fail => Finish(r, t, op, true)
    case End => Finish(if op == PingDrop then r.(handles := map[]) else r, t, op, false)
    case Reconnect =>
      var r := r.(handles := map[]);
      if s.overridden then Put(r, t, Nested(op)).(waiters := r.waiters + [t]) else Put(r, t, Opening(op))
  }

  /** _close_streams: closing takes effect at once, then the task waits for it to be over. */
  function Drop(s: State, t: nat, op: Op, after: After): State {
    if s.stream.Some? && s.stream.value < |s.wires| then
      var w := s.stream.value;
      Put(s.(wires := s.wires[w := s.wires[w].(open := false)]), t, Dropping(op, after))
    else Dropped(s, t, op, after)
  }

  /** An exception leaves the locked region; the finally clause of close drops the streams. */
  function Raise(s: State, t: nat, op: Op): State {
    if op == CloseCall then Drop(s, t, op, End) else Finish(s, t, op, true)
  }

  function Entered(s: State, t: nat, op: Op): State {
    match op
    case ConnectCall => if s.connected then Finish(s, t, op, false) else Put(s, t, Opening(op))
    case PingDrop => Drop(s, t, op, End)
    case CloseCall =>
      if !s.connected then Drop(s, t, op, End)
      else if s.stream.None? then Raise(s, t, op)
      else Put(s, t, Ready(op))
    case _ =>
      if !s.connected then Raise(s, t, op)
      else if op.reconnect && !s.casActive && s.stream.Some? then Drop(s, t, op, Reconnect)
      else if s.stream.None? then Raise(s, t, op)
      else Put(s, t, Ready(op))
  }

  const NEW_WIRE := Wire(true, false, [], false, [])

  function Shaken(s: State, t: nat, op: Op, hs: nat, reply: ShakeReply): State
    requires hs < |s.wires|
  {
    var closed := s.(wires := s.wires[hs := s.wires[hs].(open := false)]);
    match reply
    case Same => Put(s.(stream := Some(hs)), t, Authenticating(op))
    case Redirect => Put(closed, t, Redirecting(op))
    case Rejected => Drop(closed, t, op, Fail)
  }

  function Authenticated(s: State, t: nat, op: Op, active: bool): State {
    var r := s.(connected := true, casActive := active, sessions := s.sessions + 1);
    if op == ConnectCall then Finish(r, t, op, false) else Put(r, t, Ready(op))
  }

  function Written(s: State, t: nat, op: Op): State {
    if s.stream.None? || s.stream.value >= |s.wires| then Raise(s, t, op)
    else
      var w := s.stream.value;
      Put(s.(wires := s.wires[w := s.wires[w].(pending := s.wires[w].pending + [s.requests])],
             requests := s.requests + 1),
          t, AwaitHead(op, s.requests, w))
  }

  /** The handles after a request that succeeded. */
  function Keep(handles: map<nat, nat>, effect: Effect, session: nat): map<nat, nat> {
    match effect
    case Nothing => handles
    case Store(c) => handles[c := session]
    case Clear(c) => handles - {c}
    case Release(c) => handles - {c}
    case Forget => map[]
  }

  function Take(s: State, w: nat): State
    requires w < |s.wires| && s.wires[w].inbox != []
  {
    s.(wires := s.wires[w := s.wires[w].(inbox := s.wires[w].inbox[1..])])
  }

  /** Parsing the reply that was read: first the status byte is kept, then the packet parses. */
  function Parsed(s: State, t: nat, op: Op, active: bool, outcome: Outcome): State {
    var r := s.(casActive := active);
    match outcome
    case Good =>
      if op == CloseCall then Drop(r, t, op, End)
      else Finish(if op.Call? then r.(handles := Keep(s.handles, op.effect, s.sessions)) else r, t, op, false)
    case Refused(operational) =>
      if op == CloseCall then Drop(r, t, op, End) else Finish(r, t, op, operational || op.Call?)
    case Malformed => Drop(r, t, op, Fail)
  }

  /** The broker delivers the next part of the reply to the oldest unanswered request. */
  function Delivered(x: Wire): Wire
    requires x.pending != []
  {
    if x.half then x.(half := false, pending := x.pending[1..], inbox := x.inbox + [Body(x.pending[0])])
    else x.(half := true, inbox := x.inbox + [Head(x.pending[0])])
  }

  /** What tasks do without the lock, and what the broker does. */
  predicate Outer(e: Event) {
    e.Start? || e.StartPing? || e.CloseCursor? || e.Acquire? || e.Answer? || e.HangUp?
  }

  /** Requests a task may start. To execute a statement the connection has to be connected, which
      is looked at just before queueing. */
  predicate MayStart(s: State, op: Op) {
    op == CloseCall || op == ConnectCall || (op.Call? && !op.effect.Release? && (op.effect.Store? ==> s.connected))
  }

  /** One step of a run; None when the event cannot happen. */
  function Step(s: State, e: Event): Option<State> {
    match e
    case Start(t, op) =>
      if At(s, t) == Idle && MayStart(s, op) then Some(Queue(s, t, op)) else None
    case StartPing(t, reconnect) =>
      if At(s, t) != Idle then None
      else if s.connected then Some(Queue(s, t, PingCall(reconnect)))
      else if !reconnect then Some(s)
      else Some(Queue(s.(handles := map[]), t, ConnectCall))
    case CloseCursor(t, c) =>
      if At(s, t) != Idle then None
      else if s.connected && c in s.handles then Some(Queue(s, t, Call(true, Release(c))))
      else Some(s.(handles := s.handles - {c}))
    case Answer(w) =>
      if w < |s.wires| && !s.wires[w].eof && s.wires[w].pending != [] then
        Some(s.(wires := s.wires[w := Delivered(s.wires[w])]))
      else None
    case HangUp(w) =>
      if w < |s.wires| then Some(s.(wires := s.wires[w := s.wires[w].(eof := true)])) else None
    case Acquire(t) =>
      if s.lock == None && s.waiters != [] && s.waiters[0] == t && At(s, t).Waiting? then
        Some(Put(s.(lock := Some(t), waiters := s.waiters[1..]), t, Entering(At(s, t).op)))
      else None
    case _ => StepInside(s, e.t, At(s, e.t), e)
  }

  /** The steps of a task that holds the lock. */
  function StepInside(s: State, t: nat, pc: Pc, e: Event): Option<State> {
    match (pc, e)
    case (Entering(op), Enter(_)) => Some(Entered(s, t, op))
    case (Dropping(op, after), EndDrop(_)) => Some(Dropped(s, t, op, after))
    case (Opening(op), Open(_, ok)) =>
      if ok then Some(Put(s.(wires := s.wires + [NEW_WIRE]), t, Shaking(op, |s.wires|))) else Some(Drop(s, t, op, Fail))
    case (Shaking(op, hs), Shake(_, reply)) =>
      if hs < |s.wires| then Some(Shaken(s, t, op, hs, reply)) else None
    case (Redirecting(op), Open(_, ok)) =>
      if ok then Some(Put(s.(wires := s.wires + [NEW_WIRE], stream := Some(|s.wires|)), t, Authenticating(op)))
      else Some(Drop(s, t, op, Fail))
    case (Authenticating(op), Authenticate(_, ok, active)) =>
      Some(if ok then Authenticated(s, t, op, active) else Drop(s, t, op, Fail))
    case (Ready(op), Write(_, ok)) => Some(if ok then Written(s, t, op) else Raise(s, t, op))
    case (Ready(op), Break(_)) => Some(Drop(s, t, op, Fail))
    case (AwaitHead(op, _, _), Break(_)) => Some(Drop(s, t, op, Fail))
    case (AwaitBody(op, _, _, _), Break(_)) => Some(Drop(s, t, op, Fail))
    case (AwaitHead(op, req, w), ReadHead(_)) =>
      if w < |s.wires| && s.wires[w].inbox != [] then Some(Put(Take(s, w), t, AwaitBody(op, req, w, s.wires[w].inbox[0])))
      else None
    case (AwaitBody(op, req, w, head), ReadBody(_, active, outcome)) =>
      if w < |s.wires| && s.wires[w].inbox != [] then
        Some(Parsed(Take(s, w).(log := s.log + [Parse(req, head, s.wires[w].inbox[0])]), t, op, active, outcome))
      else None
    case (AwaitHead(op, _, w), Lost(_)) =>
      if w < |s.wires| && s.wires[w].eof && s.wires[w].inbox == [] then Some(Raise(s, t, op)) else None
    case (AwaitBody(op, _, w, _), Lost(_)) =>
      if w < |s.wires| && s.wires[w].eof && s.wires[w].inbox == [] then Some(Raise(s, t, op)) else None
    case _ => None
  }

  function Run(s: State, es: seq<Event>): Option<State>
    decreases |es|
  {
    if es == [] then Some(s)
    else match Step(s, es[0]) case None => None case Some(s') => Run(s', es[1..])
  }

  // ---- What every reachable state keeps ------------------------------------------------------

  predicate Inside(pc: Pc) { !pc.Idle? && !pc.Waiting? }

  predicate InHandshake(pc: Pc) { pc.Opening? || pc.Shaking? || pc.Redirecting? || pc.Authenticating? }

  /** Exactly the waiting tasks queue, each once, and exactly the holder is inside. */
  ghost predicate QueueOk(lock: Option<nat>, waiters: seq<nat>, pc: map<nat, Pc>) {
    && (forall t: nat :: Inside(Where(pc, t)) <==> lock == Some(t))
    && (forall t: nat :: t in waiters <==> Where(pc, t).Waiting?)
    && (forall i, j :: 0 <= i < j < |waiters| ==> waiters[i] != waiters[j])
  }

  /** Nothing asked and nothing unread; once the broker hung up, requests may be left over. */
  predicate Quiet(x: Wire) { x.open && x.inbox == [] && (x.eof || (x.pending == [] && !x.half)) }

  /** Request req is the only one, and nothing of its reply was read. */
  predicate Unread(x: Wire, req: nat) {
    x.open &&
    ((x.inbox == [] && (x.eof || (x.pending == [req] && !x.half)))
     || (x.inbox == [Head(req)] && (x.eof || (x.pending == [req] && x.half)))
     || (x.inbox == [Head(req), Body(req)] && (x.eof || (x.pending == [] && !x.half))))
  }

  /** The head of the reply to req was read, the body was not. */
  predicate HalfRead(x: Wire, req: nat) {
    x.open &&
    ((x.inbox == [] && (x.eof || (x.pending == [req] && x.half)))
     || (x.inbox == [Body(req)] && (x.eof || (x.pending == [] && !x.half))))
  }

  predicate Resting(s: State) {
    s.connected == s.stream.Some?
    && (s.stream.Some? ==> s.stream.value < |s.wires| && Quiet(s.wires[s.stream.value]))
  }

  /** What the position of the lock's holder says about the connection. */
  predicate Place(s: State, pc: Pc) {
    match pc
    case Entering(op) => Resting(s)
    case Dropping(op, after) => s.stream.Some? && s.stream.value < |s.wires| && !s.wires[s.stream.value].open
    case Opening(op) => !s.connected && s.stream.None?
    case Shaking(op, hs) => !s.connected && s.stream.None? && hs < |s.wires| && Quiet(s.wires[hs])
    case Redirecting(op) => !s.connected && s.stream.None?
    case Authenticating(op) =>
      !s.connected && s.stream.Some? && s.stream.value < |s.wires| && Quiet(s.wires[s.stream.value])
    case Ready(op) => s.connected && Resting(s)
    case AwaitHead(op, req, w) =>
      s.connected && s.stream == Some(w) && w < |s.wires| && Unread(s.wires[w], req) && req + 1 == s.requests
    case AwaitBody(op, req, w, head) =>
      && s.connected && s.stream == Some(w) && w < |s.wires| && HalfRead(s.wires[w], req)
      && head == Head(req) && req + 1 == s.requests
    case _ => false
  }

  predicate Awaits(pc: Pc, req: nat) {
    (pc.AwaitHead? && pc.req == req) || (pc.AwaitBody? && pc.req == req)
  }

  /** Every parse was of the parser's own reply, each request was parsed at most once, and the
      one being awaited was not. */
  ghost predicate LogOk(s: State) {
    && (forall p <- s.log :: p.head == Head(p.req) && p.body == Body(p.req) && p.req < s.requests)
    && (forall i, j :: 0 <= i < j < |s.log| ==> s.log[i].req < s.log[j].req)
  }

  ghost predicate NotLogged(s: State, pc: Pc) {
    forall p <- s.log :: !Awaits(pc, p.req)
  }

  predicate CountOk(s: State) { s.sessions == s.dropped + if s.connected then 1 else 0 }

  /** The only open stream is the held one, or the one of a handshake under way. */
  ghost predicate StreamsOk(s: State, pc: Pc) {
    forall w :: 0 <= w < |s.wires| && s.wires[w].open ==> s.stream == Some(w) || (pc.Shaking? && pc.hs == w)
  }

  function Holder(s: State): Pc { if s.lock.Some? then At(s, s.lock.value) else Idle }

  ghost predicate Inv(s: State) {
    && !s.overridden && QueueOk(s.lock, s.waiters, s.pc) && CountOk(s) && LogOk(s)
    && NotLogged(s, Holder(s)) && StreamsOk(s, Holder(s))
    && (if s.lock.None? then Resting(s) else Place(s, Holder(s)))
  }

  /** What the steps that end a locked region rely on. */
  ghost predicate Core(s: State, t: nat) {
    && !s.overridden && QueueOk(s.lock, s.waiters, s.pc) && s.lock == Some(t) && CountOk(s) && LogOk(s) && StreamsOk(s, Idle)
    && (s.stream.Some? ==> s.stream.value < |s.wires|)
  }

  lemma {:induction false} PutKeepsQueue(lock: Option<nat>, waiters: seq<nat>, pc: map<nat, Pc>, t: nat, p: Pc)
    requires QueueOk(lock, waiters, pc) && lock == Some(t) && Inside(p)
    ensures QueueOk(lock, waiters, pc[t := p]) && Where(pc[t := p], t) == p
  {
    forall x: nat ensures Where(pc[t := p], x) == if x == t then p else Where(pc, x) {}
  }

  /** A task queues up, from outside or just after it left the lock. */
  lemma {:induction false} QueueUp(lock: Option<nat>, waiters: seq<nat>, pc: map<nat, Pc>, t: nat, op: Op)
    requires QueueOk(lock, waiters, pc) && !Where(pc, t).Waiting?
    ensures QueueOk(if lock == Some(t) then None else lock, waiters + [t], pc[t := Waiting(op)])
  {
    var pc' := pc[t := Waiting(op)];
    forall x: nat ensures Where(pc', x) == if x == t then Waiting(op) else Where(pc, x) {}
    assert t !in waiters;
    forall x: nat ensures x in waiters + [t] <==> x in waiters || x == t {}
  }

  lemma {:induction false} HolderInside(waiters: seq<nat>, pc: map<nat, Pc>, t: nat)
    requires QueueOk(Some(t), waiters, pc)
    ensures Inside(Where(pc, t))
  {
    assert Inside(Where(pc, t)) <==> Some(t) == Some(t);
  }

  lemma {:induction false} LeaveLock(waiters: seq<nat>, pc: map<nat, Pc>, t: nat)
    requires QueueOk(Some(t), waiters, pc)
    ensures QueueOk(None, waiters, pc[t := Idle])
  {
    forall x: nat ensures Where(pc[t := Idle], x) == if x == t then Idle else Where(pc, x) {}
  }

  lemma {:induction false} TakeLock(waiters: seq<nat>, pc: map<nat, Pc>, p: Pc)
    requires QueueOk(None, waiters, pc) && waiters != [] && Inside(p)
    ensures QueueOk(Some(waiters[0]), waiters[1..], pc[waiters[0] := p])
    ensures Where(pc[waiters[0] := p], waiters[0]) == p
  {
    var t := waiters[0];
    forall x: nat ensures Where(pc[t := p], x) == if x == t then p else Where(pc, x) {}
    forall x: nat ensures x in waiters[1..] <==> x in waiters && x != t {}
  }

  // ---- Every step keeps it -----------------------------------------------------------------

  lemma {:induction false} FinishKeeps(s: State, t: nat, op: Op, failed: bool)
    requires Core(s, t) && Resting(s)
    ensures Inv(Finish(s, t, op, failed))
  {
    hide QueueOk;
    HolderInside(s.waiters, s.pc, t);
    QueueUp(s.lock, s.waiters, s.pc, t, PingDrop);
    QueueUp(s.lock, s.waiters, s.pc, t, ConnectCall);
    LeaveLock(s.waiters, s.pc, t);
  }

  lemma {:induction false} DroppedKeeps(s: State, t: nat, op: Op, after: After)
    requires Core(s, t) && forall w :: 0 <= w < |s.wires| ==> !s.wires[w].open
    ensures Inv(Dropped(s, t, op, after))
  {
    hide QueueOk, LogOk, Inv, Finish;
    var r := s.(stream := None, connected := false, dropped := s.dropped + if s.connected then 1 else 0);
    DroppedCore(s, r, t);
    match after {
      case Fail => FinishKeeps(r, t, op, true);
      case End =>
        DroppedCore(s, r.(handles := map[]), t);
        FinishKeeps(if op == PingDrop then r.(handles := map[]) else r, t, op, false);
      case Reconnect =>
        DroppedCore(s, r.(handles := map[]), t);
        MoveKeeps(r.(handles := map[]), Dropped(s, t, op, after), t, Opening(op));
    }
  }

  lemma {:induction false} DroppedCore(s: State, r: State, t: nat)
    requires Core(s, t) && forall w :: 0 <= w < |s.wires| ==> !s.wires[w].open
    requires r == s.(stream := None, connected := false, dropped := s.dropped + if s.connected then 1 else 0,
                     handles := r.handles)
    ensures Core(r, t) && Resting(r)
  {
    hide QueueOk;
  }

  /** Apart from a handshake under way, the holder can use everything at rest. */
  lemma {:induction false} CoreFrom(s: State, t: nat)
    requires Inv(s) && s.lock == Some(t) && !At(s, t).Shaking?
    ensures Core(s, t) && Place(s, At(s, t)) && NotLogged(s, At(s, t))
  {
    hide QueueOk, LogOk;
  }

  lemma {:induction false} DropKeeps(s: State, t: nat, op: Op, after: After)
    requires Core(s, t)
    ensures Inv(Drop(s, t, op, after))
  {
    hide QueueOk;
    if s.stream.Some? {
      PutKeepsQueue(s.lock, s.waiters, s.pc, t, Dropping(op, after));
    } else {
      DroppedKeeps(s, t, op, after);
    }
  }

  lemma {:induction false} RaiseKeeps(s: State, t: nat, op: Op)
    requires Core(s, t) && Resting(s)
    ensures Inv(Raise(s, t, op))
  {
    hide QueueOk, Drop, Finish;
    if op == CloseCall { DropKeeps(s, t, op, End); } else { FinishKeeps(s, t, op, true); }
  }

  lemma {:induction false} MoveKeeps(s: State, r: State, t: nat, pc: Pc)
    requires Core(s, t) && Inside(pc) && Place(r, pc)
    requires r == Put(s.(wires := r.wires, stream := r.stream, requests := r.requests), t, pc)
    requires r.requests >= s.requests && NotLogged(s, pc) && StreamsOk(r, pc)
    ensures Inv(r)
  {
    hide QueueOk;
    PutKeepsQueue(s.lock, s.waiters, s.pc, t, pc);
  }

  lemma {:induction false} EnterKeeps(s: State, t: nat)
    requires Inv(s) && s.lock == Some(t) && Step(s, Enter(t)).Some?
    ensures Inv(Step(s, Enter(t)).value)
  {
    hide Inv, Core, Drop, Finish, Raise;
    var op := At(s, t).op;
    CoreFrom(s, t);
    if s.connected { MoveKeepsReady(s, t, op); } else { FinishOrOpen(s, t, op); }
    DropKeeps(s, t, op, End);
    DropKeeps(s, t, op, Reconnect);
    RaiseKeeps(s, t, op);
    FinishKeeps(s, t, op, false);
  }

  lemma {:induction false} MoveKeepsReady(s: State, t: nat, op: Op)
    requires Core(s, t) && s.connected && Resting(s)
    ensures Inv(Put(s, t, Ready(op)))
  {
    hide QueueOk;
    MoveKeeps(s, Put(s, t, Ready(op)), t, Ready(op));
  }

  lemma {:induction false} FinishOrOpen(s: State, t: nat, op: Op)
    requires Core(s, t) && !s.connected && Resting(s)
    ensures Inv(Put(s, t, Opening(op)))
  {
    hide QueueOk;
    MoveKeeps(s, Put(s, t, Opening(op)), t, Opening(op));
  }

  lemma {:induction false} OpenKeeps(s: State, t: nat, ok: bool)
    requires Inv(s) && s.lock == Some(t) && Step(s, Open(t, ok)).Some?
    ensures Inv(Step(s, Open(t, ok)).value)
  {
    hide Inv, QueueOk, LogOk, Drop;
    var pc, r := At(s, t), Step(s, Open(t, ok)).value;
    CoreFrom(s, t);
    if !ok { DropKeeps(s, t, pc.op, Fail); }
    else if pc.Opening? { MoveKeeps(s, r, t, Shaking(pc.op, |s.wires|)); }
    else { MoveKeeps(s, r, t, Authenticating(pc.op)); }
  }

  lemma {:induction false} ShakeKeeps(s: State, t: nat, reply: ShakeReply)
    requires Inv(s) && s.lock == Some(t) && Step(s, Shake(t, reply)).Some?
    ensures Inv(Step(s, Shake(t, reply)).value)
  {
    hide QueueOk, Drop;
    var pc, r := At(s, t), Step(s, Shake(t, reply)).value;
    var closed := s.(wires := s.wires[pc.hs := s.wires[pc.hs].(open := false)]);
    match reply {
      case Same => PutKeepsQueue(s.lock, s.waiters, s.pc, t, Authenticating(pc.op));
      case Redirect => MoveKeeps(closed, r, t, Redirecting(pc.op));
      case Rejected => DropKeeps(closed, t, pc.op, Fail);
    }
  }

  lemma {:induction false} AuthenticateKeeps(s: State, t: nat, ok: bool, active: bool)
    requires Inv(s) && s.lock == Some(t) && Step(s, Authenticate(t, ok, active)).Some?
    ensures Inv(Step(s, Authenticate(t, ok, active)).value)
  {
    hide Inv, QueueOk, Drop, Finish;
    var op := At(s, t).op;
    CoreFrom(s, t);
    var s' := s.(connected := true, casActive := active, sessions := s.sessions + 1);
    if !ok { DropKeeps(s, t, op, Fail); }
    else if op == ConnectCall { FinishKeeps(s', t, op, false); }
    else { MoveKeeps(s', Step(s, Authenticate(t, ok, active)).value, t, Ready(op)); }
  }

  lemma {:induction false} WriteKeeps(s: State, t: nat, op: Op)
    requires Inv(s) && s.lock == Some(t) && At(s, t) == Ready(op)
    ensures Inv(Written(s, t, op))
  {
    CoreFrom(s, t);
    hide Inv, Core, QueueOk, Raise;
    var w, pc := s.stream.value, AwaitHead(op, s.requests, s.stream.value);
    assert Unread(s.wires[w].(pending := s.wires[w].pending + [s.requests]), s.requests);
    WriteCore(s, t);
    MoveKeeps(s, Written(s, t, op), t, pc);
  }

  lemma {:induction false} WriteCore(s: State, t: nat)
    requires Core(s, t)
    ensures StreamsOk(s, Idle) && forall p <- s.log :: p.req < s.requests
  {
    hide QueueOk;
  }

  lemma {:induction false} SendKeeps(s: State, t: nat, e: Event)
    requires Inv(s) && s.lock == Some(t) && Step(s, e).Some?
    requires (e.Write? || e.Break? || e.Lost?) && e.t == t
    ensures Inv(Step(s, e).value)
  {
    CoreFrom(s, t);
    hide Inv, Core, Drop, Finish, Raise, Written;
    var op := At(s, t).op;
    if e.Break? { DropKeeps(s, t, op, Fail); }
    else if e.Lost? || !e.ok { RaiseKeeps(s, t, op); }
    else { WriteKeeps(s, t, op); }
  }

  lemma {:induction false} HeadKeeps(s: State, t: nat)
    requires Inv(s) && s.lock == Some(t) && Step(s, ReadHead(t)).Some?
    ensures Inv(Step(s, ReadHead(t)).value)
  {
    hide QueueOk;
    var pc := At(s, t);
    var x := s.wires[pc.wire];
    MoveKeeps(s, Step(s, ReadHead(t)).value, t, AwaitBody(pc.op, pc.req, pc.wire, x.inbox[0]));
  }

  /** A body that was read leaves the stream quiet and the log sound. */
  lemma {:induction false} BodyRead(s: State, t: nat, active: bool)
    requires Inv(s) && s.lock == Some(t) && At(s, t).AwaitBody? && At(s, t).wire < |s.wires|
    requires s.wires[At(s, t).wire].inbox != []
    ensures var pc := At(s, t);
            var parse := Parse(pc.req, pc.head, s.wires[pc.wire].inbox[0]);
            var r := Take(s, pc.wire).(log := s.log + [parse], casActive := active);
            Core(r, t) && Resting(r)
  {
    hide QueueOk;
    var pc := At(s, t);
    var parse := Parse(pc.req, pc.head, s.wires[pc.wire].inbox[0]);
    assert parse == Parse(pc.req, Head(pc.req), Body(pc.req));
    forall p <- s.log ensures p.req < pc.req {
      assert !Awaits(pc, p.req);
    }
  }

  lemma {:induction false} BodyKeeps(s: State, t: nat, active: bool, outcome: Outcome)
    requires Inv(s) && s.lock == Some(t) && Step(s, ReadBody(t, active, outcome)).Some?
    ensures Inv(Step(s, ReadBody(t, active, outcome)).value)
  {
    hide Inv, QueueOk, Drop, Finish, Keep;
    var pc := At(s, t);
    BodyRead(s, t, active);
    var r := Take(s, pc.wire).(log := s.log + [Parse(pc.req, pc.head, s.wires[pc.wire].inbox[0])], casActive := active);
    DropKeeps(r, t, pc.op, Fail);
    DropKeeps(r, t, pc.op, End);
    match outcome {
      case Good =>
        FinishKeeps(if pc.op.Call? then r.(handles := Keep(s.handles, pc.op.effect, s.sessions)) else r, t, pc.op, false);
      case Refused(operational) => FinishKeeps(r, t, pc.op, operational || pc.op.Call?);
      case Malformed =>
    }
  }

  /** What the broker does keeps every position of the holder. */
  lemma {:induction false} BrokerPlace(s: State, r: State, pc: Pc, w: nat)
    requires w < |s.wires| == |r.wires| && r == s.(wires := s.wires[w := r.wires[w]])
    requires r.wires[w].open == s.wires[w].open
    requires Quiet(s.wires[w]) ==> Quiet(r.wires[w])
    requires forall q: nat :: Unread(s.wires[w], q) ==> Unread(r.wires[w], q)
    requires forall q: nat :: HalfRead(s.wires[w], q) ==> HalfRead(r.wires[w], q)
    ensures Place(s, pc) ==> Place(r, pc)
    ensures Resting(s) ==> Resting(r)
    ensures StreamsOk(s, pc) ==> StreamsOk(r, pc)
  {
    hide Quiet, Unread, HalfRead;
    forall v | 0 <= v < |r.wires| ensures r.wires[v].open == s.wires[v].open && (v != w ==> r.wires[v] == s.wires[v]) {
      if v != w { assert r.wires[v] == s.wires[w := r.wires[w]][v]; }
    }
  }

  lemma {:induction false} BrokerWire(x: Wire)
    ensures var y := x.(eof := true);
            y.open == x.open && (Quiet(x) ==> Quiet(y)) && (forall q: nat :: Unread(x, q) ==> Unread(y, q))
            && (forall q: nat :: HalfRead(x, q) ==> HalfRead(y, q))
    ensures !x.eof && x.pending != [] ==>
              var y := Delivered(x);
              y.open == x.open && (Quiet(x) ==> Quiet(y)) && (forall q: nat :: Unread(x, q) ==> Unread(y, q))
              && (forall q: nat :: HalfRead(x, q) ==> HalfRead(y, q))
  {
  }

  lemma {:induction false} BrokerKeeps(s: State, e: Event)
    requires Inv(s) && Step(s, e).Some? && (e.Answer? || e.HangUp?)
    ensures Inv(Step(s, e).value)
  {
    hide QueueOk, Place, Resting, StreamsOk, Delivered, Quiet, Unread, HalfRead;
    BrokerWire(s.wires[e.w]);
    BrokerPlace(s, Step(s, e).value, Holder(s), e.w);
  }

  lemma {:induction false} QueueKeeps(s: State, handles: map<nat, nat>, t: nat, op: Op)
    requires Inv(s) && At(s, t) == Idle
    ensures Inv(Queue(s.(handles := handles), t, op))
  {
    QueueUp(s.lock, s.waiters, s.pc, t, op);
    hide QueueOk;
    var r := Queue(s.(handles := handles), t, op);
    if s.lock.Some? {
      HolderInside(s.waiters, s.pc, s.lock.value);
      assert Holder(r) == Holder(s);
    }
  }

  lemma {:induction false} HandlesOnly(s: State, handles: map<nat, nat>)
    requires Inv(s)
    ensures Inv(s.(handles := handles))
  {
    hide QueueOk;
  }

  lemma {:induction false} AcquireKeeps(s: State, t: nat)
    requires Inv(s) && Step(s, Acquire(t)).Some?
    ensures Inv(Step(s, Acquire(t)).value)
  {
    hide QueueOk;
    TakeLock(s.waiters, s.pc, Entering(At(s, t).op));
  }

  lemma {:induction false} OutsideKeeps(s: State, e: Event)
    requires Inv(s) && Step(s, e).Some? && (e.Start? || e.StartPing? || e.CloseCursor? || e.Acquire?)
    ensures Inv(Step(s, e).value)
  {
    hide Inv, Queue;
    match e {
      case Start(t, op) => QueueKeeps(s, s.handles, t, op);
      case StartPing(t, reconnect) =>
        if At(s, t) == Idle {
          QueueKeeps(s, s.handles, t, PingCall(reconnect));
          QueueKeeps(s, map[], t, ConnectCall);
        }
      case CloseCursor(t, c) =>
        HandlesOnly(s, s.handles - {c});
        if At(s, t) == Idle { QueueKeeps(s, s.handles, t, Call(true, Release(c))); }
      case Acquire(t) => AcquireKeeps(s, t);
    }
  }

  /** Every step keeps the invariant. */
  lemma {:induction false} StepKeeps(s: State, e: Event)
    requires Inv(s) && Step(s, e).Some?
    ensures Inv(Step(s, e).value)
  {
    hide Inv, Step;
    OutsideOrInside(s, e);
    match e {
      case Start(_, _) => OutsideKeeps(s, e);
      case StartPing(_, _) => OutsideKeeps(s, e);
      case CloseCursor(_, _) => OutsideKeeps(s, e);
      case Acquire(_) => OutsideKeeps(s, e);
      case Answer(_) => BrokerKeeps(s, e);
      case HangUp(_) => BrokerKeeps(s, e);
      case Enter(t) => EnterKeeps(s, t);
      case EndDrop(t) => EndDropKeeps(s, t);
      case Open(t, ok) => OpenKeeps(s, t, ok);
      case Shake(t, reply) => ShakeKeeps(s, t, reply);
      case Authenticate(t, ok, active) => AuthenticateKeeps(s, t, ok, active);
      case Write(t, _) => SendKeeps(s, t, e);
      case Break(t) => SendKeeps(s, t, e);
      case Lost(t) => SendKeeps(s, t, e);
      case ReadHead(t) => HeadKeeps(s, t);
      case ReadBody(t, active, outcome) => BodyKeeps(s, t, active, outcome);
    }
  }

  lemma {:induction false} EndDropKeeps(s: State, t: nat)
    requires Inv(s) && s.lock == Some(t) && Step(s, EndDrop(t)).Some?
    ensures Inv(Step(s, EndDrop(t)).value)
  {
    hide QueueOk, Dropped;
    DroppedKeeps(s, t, At(s, t).op, At(s, t).after);
  }

  /** Only the holder of the lock takes the steps inside it. */
  lemma {:induction false} OutsideOrInside(s: State, e: Event)
    requires Inv(s) && Step(s, e).Some?
    ensures Outer(e) || s.lock == Some(e.t)
  {
    hide Place, CountOk, LogOk, NotLogged, StreamsOk, Resting;
    if !Outer(e) {
      assert Inside(Where(s.pc, e.t));
    }
  }
}
