/** What one call of a task does on the shared connection (pycubrid/aio/connection.py), whatever
    other tasks and the broker do in between. The region a task runs under the lock, cut at its
    awaits, is read as one word of the task's own steps and compared with the sequential
    procedure; a ping that fails goes on to clean up and to connect. */
module AsyncRegions {
  import opened Basics
  import opened AsyncConnection
  import opened AsyncRuns

  // ---- Whose step it is ---------------------------------------------------------------------

  predicate OwnStep(e: Event, t: nat) { !e.Answer? && !e.HangUp? && e.t == t }

  /** A task's own steps of a run, in order. */
  function Own(es: seq<Event>, t: nat): seq<Event> {
    if es == [] then [] else (if OwnStep(es[0], t) then [es[0]] else []) + Own(es[1..], t)
  }

  /** Only t was moved, and nothing was counted. */
  ghost predicate Moves(s: State, r: State, t: nat) {
    && (forall u: nat :: u != t ==> At(r, u) == At(s, u))
    && r.sessions == s.sessions && r.requests == s.requests && r.casActive == s.casActive
  }

  lemma {:induction false} FinishMoves(s: State, t: nat, op: Op, failed: bool)
    ensures Moves(s, Finish(s, t, op, failed), t)
  {
  }

  lemma {:induction false} DroppedMoves(s: State, t: nat, op: Op, after: After)
    ensures Moves(s, Dropped(s, t, op, after), t)
  {
    hide Finish;
    var r := s.(stream := None, connected := false, dropped := s.dropped + if s.connected then 1 else 0);
    FinishMoves(r, t, op, true);
    FinishMoves(if op == PingDrop then r.(handles := map[]) else r, t, op, false);
  }

  lemma {:induction false} DropMoves(s: State, t: nat, op: Op, after: After)
    ensures Moves(s, Drop(s, t, op, after), t)
  {
    hide Dropped;
    DroppedMoves(s, t, op, after);
  }

  lemma {:induction false} RaiseMoves(s: State, t: nat, op: Op)
    ensures Moves(s, Raise(s, t, op), t)
  {
    hide Drop, Finish;
    DropMoves(s, t, op, End);
    FinishMoves(s, t, op, true);
  }

  lemma {:induction false} ParsedMoves(s: State, t: nat, op: Op, active: bool, outcome: Outcome)
    ensures Moves(s.(casActive := active), Parsed(s, t, op, active, outcome), t)
  {
    hide Drop, Dropped, Finish, Keep;
    var r := s.(casActive := active);
    DropMoves(r, t, op, End);
    DropMoves(r, t, op, Fail);
    FinishMoves(if op.Call? then r.(handles := Keep(s.handles, op.effect, s.sessions)) else r, t, op, false);
    FinishMoves(r, t, op, outcome.Refused? && (outcome.operational || op.Call?));
  }

  lemma {:induction false} EnteredMoves(s: State, t: nat, op: Op)
    ensures Moves(s, Entered(s, t, op), t)
  {
    hide Drop, Raise, Finish;
    RaiseMoves(s, t, op);
    FinishMoves(s, t, op, false);
    DropMoves(s, t, op, End);
    DropMoves(s, t, op, Reconnect);
  }

  lemma {:induction false} ShakenMoves(s: State, t: nat, op: Op, hs: nat, reply: ShakeReply)
    requires hs < |s.wires|
    ensures Moves(s, Shaken(s, t, op, hs, reply), t)
  {
    hide Drop;
    DropMoves(s.(wires := s.wires[hs := s.wires[hs].(open := false)]), t, op, Fail);
  }

  lemma {:induction false} AuthenticatedMoves(s: State, t: nat, op: Op, active: bool)
    ensures var q := s.(connected := true, casActive := active, sessions := s.sessions + 1);
            Moves(q, Authenticated(s, t, op, active), t)
  {
    hide Finish;
    FinishMoves(s.(connected := true, casActive := active, sessions := s.sessions + 1), t, op, false);
  }

  lemma {:induction false} WrittenMoves(s: State, t: nat, op: Op)
    requires s.stream.Some? && s.stream.value < |s.wires|
    ensures Moves(s.(requests := s.requests + 1), Written(s, t, op), t)
  {
  }

  /** What a task's own step counts up, and what the status byte becomes. */
  ghost predicate Counted(s: State, r: State, e: Event) {
    && r.sessions == s.sessions + (if e.Authenticate? && e.ok then 1 else 0)
    && r.requests == s.requests + (if e.Write? && e.ok then 1 else 0)
    && r.casActive == (if (e.Authenticate? && e.ok) || e.ReadBody? then e.active else s.casActive)
  }

  lemma {:induction false} InsideMoves(s: State, t: nat, e: Event)
    requires StepInside(s, t, At(s, t), e).Some?
    requires At(s, t).Ready? ==> s.stream.Some? && s.stream.value < |s.wires|
    ensures var r := StepInside(s, t, At(s, t), e).value;
            Counted(s, r, e) && forall u: nat :: u != t ==> At(r, u) == At(s, u)
  {
    hide Drop, Dropped, Raise, Finish, Parsed, Entered, Shaken, Authenticated, Written;
    var pc := At(s, t);
    var op := pc.op;
    RaiseMoves(s, t, op);
    DropMoves(s, t, op, Fail);
    match e {
      case Enter(_) => EnteredMoves(s, t, op);
      case EndDrop(_) => DroppedMoves(s, t, op, pc.after);
      case Shake(_, reply) => ShakenMoves(s, t, op, pc.hs, reply);
      case Authenticate(_, _, active) => AuthenticatedMoves(s, t, op, active);
      case Write(_, _) => WrittenMoves(s, t, op);
      case ReadBody(_, active, outcome) =>
        ParsedMoves(Take(s, pc.wire).(log := s.log + [Parse(pc.req, pc.head, s.wires[pc.wire].inbox[0])]), t, op, active, outcome);
      case _ =>
    }
  }

  /** A task is moved by its own steps only. A session is counted for every database opened and a
      request for every one written, and the status byte is that of the last reply. */
  lemma {:induction false} OthersStay(s: State, e: Event)
    requires Inv(s) && Step(s, e).Some?
    ensures var r := Step(s, e).value;
            && (forall u: nat :: !OwnStep(e, u) ==> At(r, u) == At(s, u))
            && r.sessions == s.sessions + (if e.Authenticate? && e.ok then 1 else 0)
            && r.requests == s.requests + (if e.Write? && e.ok then 1 else 0)
            && r.casActive == (if (e.Authenticate? && e.ok) || e.ReadBody? then e.active else s.casActive)
  {
    OutsideOrInside(s, e);
    if Outer(e) {
      hide StepInside, Inv;
    } else {
      assert Place(s, At(s, e.t));
      hide Inv, StepInside;
      InsideMoves(s, e.t, e);
    }
  }

  // ---- The sequential procedure --------------------------------------------------------------

  /** How the region under the lock ends: not even connected; the reply parsed; failed with the
      stream left alone; cut off with the stream closed; connected; not connected after trying;
      or closed down as intended. */
  datatype Ending = Down | Served(outcome: Outcome) | Failed | Cut | Linked | Unlinked | Swept

  /** What a word of steps begins with, and what is left of it. */
  datatype Reading = Reading(ending: Ending, rest: seq<Event>)

  /** Closing the streams takes one more step. */
  function Closing(ending: Ending, w: seq<Event>): Option<Reading> {
    if w != [] && w[0].EndDrop? then Some(Reading(ending, w[1..])) else None
  }

  /** One request and its reply: written or not, cut off by a timeout or an error of the system,
      lost with the broker, or read to its end. */
  function Exchange(w: seq<Event>): Option<Reading> {
    if w == [] then None
    else
      match w[0]
      case Write(_, ok) => if ok then Reply(w[1..]) else Some(Reading(Failed, w[1..]))
      case Break(_) => Closing(Cut, w[1..])
      case _ => None
  }

  function Reply(w: seq<Event>): Option<Reading> {
    if w == [] then None
    else
      match w[0]
      case ReadHead(_) => ReplyBody(w[1..])
      case Break(_) => Closing(Cut, w[1..])
      case Lost(_) => Some(Reading(Failed, w[1..]))
      case _ => None
  }

  function ReplyBody(w: seq<Event>): Option<Reading> {
    if w == [] then None
    else
      match w[0]
      case ReadBody(_, _, outcome) =>
        if outcome.Malformed? then Closing(Cut, w[1..]) else Some(Reading(Served(outcome), w[1..]))
      case Break(_) => Closing(Cut, w[1..])
      case Lost(_) => Some(Reading(Failed, w[1..]))
      case _ => None
  }

  /** Connecting: a stream, the handshake on it, another stream if the broker names a port, and
      the database opened. */
  function Connecting(w: seq<Event>): Option<Reading> {
    if w == [] || !w[0].Open? then None
    else if w[0].ok then Greeting(w[1..]) else Some(Reading(Unlinked, w[1..]))
  }

  function Greeting(w: seq<Event>): Option<Reading> {
    if w == [] || !w[0].Shake? then None
    else
      match w[0].reply
      case Same => LoggingIn(w[1..])
      case Redirect => Redialling(w[1..])
      case Rejected => Some(Reading(Unlinked, w[1..]))
  }

  function Redialling(w: seq<Event>): Option<Reading> {
    if w == [] || !w[0].Open? then None
    else if w[0].ok then LoggingIn(w[1..]) else Some(Reading(Unlinked, w[1..]))
  }

  function LoggingIn(w: seq<Event>): Option<Reading> {
    if w == [] || !w[0].Authenticate? then None
    else if w[0].ok then Some(Reading(Linked, w[1..])) else Closing(Unlinked, w[1..])
  }

  /** A connect of its own ends there; one made for a request goes on with it. */
  function Onwards(op: Op, x: Option<Reading>): Option<Reading> {
    if op == ConnectCall || x.None? || !x.value.ending.Linked? then x else Exchange(x.value.rest)
  }

  /** The finally clause of close, which finds nothing to close if the stream is gone. */
  function Finally(op: Op, x: Option<Reading>): Option<Reading> {
    if op != CloseCall || x.None? then x
    else if x.value.ending.Cut? then Some(Reading(Swept, x.value.rest)) else Closing(Swept, x.value.rest)
  }

  /** The whole region of a call, from the lock on: connected and active are what it finds. */
  function Region(op: Op, connected: bool, active: bool, w: seq<Event>): Option<Reading> {
    if w == [] || !w[0].Enter? then None
    else
      var v := w[1..];
      match op
      case ConnectCall => if connected then Some(Reading(Linked, v)) else Connecting(v)
      case PingDrop => if connected then Closing(Swept, v) else Some(Reading(Swept, v))
      case CloseCall => if connected then Finally(op, Exchange(v)) else Some(Reading(Swept, v))
      case _ =>
        if !connected then Some(Reading(Down, v))
        else if op.reconnect && !active then
          if v != [] && v[0].EndDrop? then Onwards(op, Connecting(v[1..])) else None
        else Exchange(v)
  }

  /** What the task does next: a reconnecting ping is done if the check was answered, even with
      an error of the server, and otherwise goes on to clean up, and from there to connect. */
  function Follow(op: Op, ending: Ending): Pc {
    match op
    case PingDrop => Waiting(ConnectCall)
    case PingCall(reconnect) =>
      if !reconnect || ending == Served(Good) || ending == Served(Refused(false)) then Idle else Waiting(PingDrop)
    case _ => Idle
  }

  /** What is left behind: the lock free, the connection up exactly if its stream was left alone
      or it was just connected, and the task where it belongs. */
  predicate Behind(r: State, t: nat, op: Op, ending: Ending) {
    && r.lock.None? && r.connected == r.stream.Some?
    && r.connected == (ending.Served? || ending.Failed? || ending.Linked?)
    && At(r, t) == Follow(op, ending)
  }

  // ---- A region is the sequential procedure -----------------------------------------------------

  /** The steps still to come at a position inside the region. */
  function Rest(pc: Pc, connected: bool, active: bool, w: seq<Event>): Option<Reading> {
    match pc
    case Entering(op) => Region(op, connected, active, w)
    case Dropping(op, Fail) => Closing(if op == CloseCall then Swept else Cut, w)
    case Dropping(op, End) => Closing(Swept, w)
    case Dropping(op, Reconnect) => if w != [] && w[0].EndDrop? then Onwards(op, Connecting(w[1..])) else None
    case Opening(op) => Onwards(op, Connecting(w))
    case Shaking(op, _) => Onwards(op, Greeting(w))
    case Redirecting(op) => Onwards(op, Redialling(w))
    case Authenticating(op) => Onwards(op, LoggingIn(w))
    case Ready(op) => Finally(op, Exchange(w))
    case AwaitHead(op, _, _) => Finally(op, Reply(w))
    case AwaitBody(op, _, _, _) => Finally(op, ReplyBody(w))
    case _ => None
  }

  /** The positions an operation can be at. */
  predicate Fitting(pc: Pc) {
    match pc
    case Entering(_) => true
    case Dropping(op, Fail) => op != PingDrop
    case Dropping(op, End) => op == CloseCall || op == PingDrop
    case Dropping(op, Reconnect) => op.Call? || op.PingCall?
    case Opening(op) => op != CloseCall && op != PingDrop
    case Shaking(op, _) => op != CloseCall && op != PingDrop
    case Redirecting(op) => op != CloseCall && op != PingDrop
    case Authenticating(op) => op != CloseCall && op != PingDrop
    case Ready(op) => op != ConnectCall && op != PingDrop
    case AwaitHead(op, _, _) => op != ConnectCall && op != PingDrop
    case AwaitBody(op, _, _, _) => op != ConnectCall && op != PingDrop
    case _ => false
  }

  /** Cut off or not connected, the connection is down and the call failed. */
  predicate Kin(x: Ending, y: Ending) { x == y || (x.Cut? && y.Unlinked?) || (x.Unlinked? && y.Cut?) }

  /** One own step with w still to come: the reading of the longer word follows. */
  predicate ReadsOn(s: State, r: State, t: nat, e: Event, w: seq<Event>)
    requires Inside(At(s, t))
  {
    var x := Rest(At(s, t), s.connected, s.casActive, [e] + w);
    if r.lock == Some(t) then
      var y := Rest(At(r, t), r.connected, r.casActive, w);
      && Fitting(At(r, t)) && At(r, t).op == At(s, t).op
      && (y.Some? ==> x.Some? && x.value.rest == y.value.rest && Kin(x.value.ending, y.value.ending))
    else
      && x.Some? && x.value.rest == w && Behind(r, t, At(s, t).op, x.value.ending)
  }

  lemma {:induction false} Finished(s: State, t: nat, op: Op, ending: Ending)
    requires s.connected == s.stream.Some? == (ending.Served? || ending.Failed? || ending.Linked?)
    ensures !(op.PingCall? && ending.Served? && ending.outcome != Refused(true)) && !(op == PingCall(true) && ending.Linked?)
            ==> Behind(Finish(s, t, op, true), t, op, ending)
    ensures op.PingCall? ==> (ending == Served(Good) || ending == Served(Refused(false))) ==> Behind(Finish(s, t, op, false), t, op, ending)
    ensures !op.PingCall? ==> Behind(Finish(s, t, op, false), t, op, ending)
  {
  }

  /** Dropping the streams: at once if there are none, else in one more step. */
  lemma {:induction false} DropReads(s: State, t: nat, op: Op, after: After, w: seq<Event>)
    requires s.lock == Some(t) && (s.stream.Some? ==> s.stream.value < |s.wires|) && !s.overridden
    requires Fitting(Dropping(op, after))
    ensures var r := Drop(s, t, op, after);
            if s.stream.Some? then r.lock == Some(t) && At(r, t) == Dropping(op, after)
            else if after == Reconnect then r.lock == Some(t) && At(r, t) == Opening(op) && !r.connected
            else Behind(r, t, op, if op == CloseCall || op == PingDrop then Swept else Cut)
  {
  }

  /** What the holder's position says about the stream, as far as it matters here. */
  predicate Ground(s: State, t: nat) {
    && s.lock == Some(t) && !s.overridden && (s.stream.Some? ==> s.stream.value < |s.wires|)
    && match At(s, t)
       case Entering(_) => s.connected == s.stream.Some?
       case Dropping(_, _) => true
       case Opening(_) => !s.connected && s.stream.None?
       case Shaking(_, hs) => !s.connected && s.stream.None? && hs < |s.wires|
       case Redirecting(_) => !s.connected && s.stream.None?
       case Authenticating(_) => !s.connected && s.stream.Some?
       case _ => s.connected && s.stream.Some?
  }

  lemma {:induction false} Grounded(s: State, t: nat)
    requires Inv(s) && s.lock == Some(t)
    ensures Inside(At(s, t)) && Ground(s, t)
  {
    HolderInside(s.waiters, s.pc, t);
    hide QueueOk, LogOk, NotLogged, StreamsOk;
  }

  lemma First(e: Event, w: seq<Event>)
    ensures ([e] + w)[0] == e && ([e] + w)[1..] == w && [e] + w != []
  {
  }

  lemma {:induction false} EnterCallReads(s: State, t: nat, w: seq<Event>)
    requires Ground(s, t) && At(s, t).Entering? && (At(s, t).op.Call? || At(s, t).op.PingCall?)
    ensures ReadsOn(s, Entered(s, t, At(s, t).op), t, Enter(t), w)
  {
    hide Drop, Finish, Exchange, Connecting, Onwards;
    var op := At(s, t).op;
    First(Enter(t), w);
    if !s.connected { Finished(s, t, op, Down); } else { DropReads(s, t, op, Reconnect, w); }
  }

  lemma {:induction false} EnterReads(s: State, t: nat, w: seq<Event>)
    requires Ground(s, t) && At(s, t).Entering?
    ensures ReadsOn(s, Entered(s, t, At(s, t).op), t, Enter(t), w)
  {
    var op := At(s, t).op;
    if op.Call? || op.PingCall? {
      hide *;
      EnterCallReads(s, t, w);
    } else {
      hide Drop, Finish, Exchange, Connecting;
      First(Enter(t), w);
      if op == ConnectCall {
        if s.connected { Finished(s, t, op, Linked); }
      } else {
        DropReads(s, t, op, End, w);
      }
    }
  }

  lemma {:induction false} EndDropReads(s: State, t: nat, w: seq<Event>)
    requires Ground(s, t) && At(s, t).Dropping? && Fitting(At(s, t))
    ensures ReadsOn(s, Dropped(s, t, At(s, t).op, At(s, t).after), t, EndDrop(t), w)
  {
    hide Finish, Exchange, Connecting, Onwards, Region, Finally, Reply, ReplyBody, Greeting, Redialling,
         LoggingIn;
    var op, after := At(s, t).op, At(s, t).after;
    First(EndDrop(t), w);
    var r := s.(stream := None, connected := false, dropped := s.dropped + if s.connected then 1 else 0);
    var ending := if op == CloseCall || op == PingDrop then Swept else Cut;
    Finished(r, t, op, ending);
    Finished(r.(handles := map[]), t, op, ending);
  }

  lemma {:induction false} OpenReads(s: State, t: nat, ok: bool, w: seq<Event>)
    requires Ground(s, t) && (At(s, t).Opening? || At(s, t).Redirecting?) && Fitting(At(s, t))
    ensures ReadsOn(s, StepInside(s, t, At(s, t), Open(t, ok)).value, t, Open(t, ok), w)
  {
    hide Finish, Drop, Exchange, LoggingIn, Greeting, Region, Finally;
    First(Open(t, ok), w);
    DropReads(s, t, At(s, t).op, Fail, w);
  }

  lemma {:induction false} ShakeReads(s: State, t: nat, reply: ShakeReply, w: seq<Event>)
    requires Ground(s, t) && At(s, t).Shaking? && Fitting(At(s, t))
    ensures At(s, t).hs < |s.wires|
    ensures ReadsOn(s, Shaken(s, t, At(s, t).op, At(s, t).hs, reply), t, Shake(t, reply), w)
  {
    hide Finish, Drop, Exchange, LoggingIn, Redialling, Connecting, Region, Finally;
    var pc := At(s, t);
    First(Shake(t, reply), w);
    DropReads(s.(wires := s.wires[pc.hs := s.wires[pc.hs].(open := false)]), t, pc.op, Fail, w);
  }

  lemma {:induction false} AuthenticateReads(s: State, t: nat, ok: bool, active: bool, w: seq<Event>)
    requires Ground(s, t) && At(s, t).Authenticating? && Fitting(At(s, t))
    ensures ReadsOn(s, StepInside(s, t, At(s, t), Authenticate(t, ok, active)).value, t, Authenticate(t, ok, active), w)
  {
    hide Finish, Drop, Exchange, Greeting, Redialling, Connecting, Region;
    var op := At(s, t).op;
    First(Authenticate(t, ok, active), w);
    DropReads(s, t, op, Fail, w);
    Finished(s.(connected := true, casActive := active, sessions := s.sessions + 1), t, op, Linked);
  }

  lemma {:induction false} HandshakeReads(s: State, t: nat, e: Event, w: seq<Event>)
    requires Ground(s, t) && InHandshake(At(s, t)) && Fitting(At(s, t))
    requires StepInside(s, t, At(s, t), e).Some? && e.t == t
    ensures ReadsOn(s, StepInside(s, t, At(s, t), e).value, t, e, w)
  {
    hide ReadsOn, Drop, Shaken, Authenticated;
    match e {
      case Open(_, ok) => OpenReads(s, t, ok, w);
      case Shake(_, reply) => ShakeReads(s, t, reply, w);
      case Authenticate(_, ok, active) => AuthenticateReads(s, t, ok, active, w);
    }
  }

  lemma {:induction false} RaiseReads(s: State, t: nat, op: Op, w: seq<Event>)
    requires s.lock == Some(t) && s.connected && s.stream.Some? && s.stream.value < |s.wires| && !s.overridden
    requires op != ConnectCall && op != PingDrop
    ensures var r := Raise(s, t, op);
            if op == CloseCall then r.lock == Some(t) && At(r, t) == Dropping(op, End) else Behind(r, t, op, Failed)
  {
    hide Finish, Drop;
    if op == CloseCall { DropReads(s, t, op, End, w); } else { Finished(s, t, op, Failed); }
  }

  /** The steps of a request that keep its stream: writing, and reading the length. */
  lemma {:induction false} TalkReads(s: State, t: nat, e: Event, w: seq<Event>)
    requires Ground(s, t) && (At(s, t).Ready? || At(s, t).AwaitHead?) && Fitting(At(s, t))
    requires StepInside(s, t, At(s, t), e).Some? && e.t == t && (e.Write? || e.ReadHead?)
    ensures ReadsOn(s, StepInside(s, t, At(s, t), e).value, t, e, w)
  {
    hide Finish, Drop, Dropped, Raise, Region, Onwards, Connecting, Greeting, Redialling, LoggingIn, ReplyBody,
         Entered, Shaken, Authenticated, Parsed;
    First(e, w);
    RaiseReads(s, t, At(s, t).op, w);
  }

  lemma {:induction false} ExchangeReads(s: State, t: nat, e: Event, w: seq<Event>)
    requires Ground(s, t) && (At(s, t).Ready? || At(s, t).AwaitHead? || At(s, t).AwaitBody?) && Fitting(At(s, t))
    requires StepInside(s, t, At(s, t), e).Some? && e.t == t && !e.ReadBody?
    ensures ReadsOn(s, StepInside(s, t, At(s, t), e).value, t, e, w)
  {
    if e.Write? || e.ReadHead? {
      hide ReadsOn, Raise, Written;
      TalkReads(s, t, e, w);
    } else {
      hide Finish, Drop, Dropped, Raise, Region, Onwards, Connecting, Greeting, Redialling, LoggingIn,
           Entered, Shaken, Authenticated, Parsed, Written;
      var op := At(s, t).op;
      First(e, w);
      if e.Lost? { RaiseReads(s, t, op, w); } else { DropReads(s, t, op, Fail, w); }
    }
  }

  lemma {:induction false} BodyReads(s: State, t: nat, active: bool, outcome: Outcome, w: seq<Event>)
    requires Ground(s, t) && At(s, t).AwaitBody? && Fitting(At(s, t))
    requires StepInside(s, t, At(s, t), ReadBody(t, active, outcome)).Some?
    ensures ReadsOn(s, StepInside(s, t, At(s, t), ReadBody(t, active, outcome)).value, t, ReadBody(t, active, outcome), w)
  {
    hide Finish, Drop, Dropped, Keep, Region, Onwards, Connecting, Greeting, Redialling, LoggingIn, Exchange,
         Reply, Entered, Shaken, Authenticated, Written, Raise;
    var pc := At(s, t);
    var op := pc.op;
    First(ReadBody(t, active, outcome), w);
    var r := Take(s, pc.wire).(log := s.log + [Parse(pc.req, pc.head, s.wires[pc.wire].inbox[0])], casActive := active);
    DropReads(r, t, op, Fail, w);
    if op == CloseCall { DropReads(r, t, op, End, w); }
    Finished(if op.Call? then r.(handles := Keep(s.handles, op.effect, s.sessions)) else r, t, op, Served(outcome));
    Finished(r, t, op, Served(outcome));
  }

  /** Every own step of the holder is the next one of the procedure. */
  lemma {:induction false} StepReads(s: State, t: nat, e: Event, w: seq<Event>)
    requires Inv(s) && s.lock == Some(t) && Inside(At(s, t)) && Fitting(At(s, t))
    requires OwnStep(e, t) && Step(s, e).Some?
    ensures ReadsOn(s, Step(s, e).value, t, e, w)
  {
    Grounded(s, t);
    hide Inv, Ground, ReadsOn, Fitting, Entered, Dropped, Parsed, Written, Raise, Drop, Shaken, Authenticated;
    match At(s, t) {
      case Entering(_) => EnterReads(s, t, w);
      case Dropping(_, _) => EndDropReads(s, t, w);
      case Opening(_) => HandshakeReads(s, t, e, w);
      case Shaking(_, _) => HandshakeReads(s, t, e, w);
      case Redirecting(_) => HandshakeReads(s, t, e, w);
      case Authenticating(_) => HandshakeReads(s, t, e, w);
      case Ready(_) => ExchangeReads(s, t, e, w);
      case AwaitHead(_, _, _) => ExchangeReads(s, t, e, w);
      case AwaitBody(_, _, _, _) =>
        match e {
          case ReadBody(_, active, outcome) => BodyReads(s, t, active, outcome, w);
          case _ => ExchangeReads(s, t, e, w);
        }
    }
  }

  /** The task holds the lock in every state of the run but the last, where it gave it back. */
  ghost predicate HoldsThrough(s: State, es: seq<Event>, t: nat)
    decreases |es|
  {
    if es == [] then s.lock != Some(t)
    else s.lock == Some(t) && Step(s, es[0]).Some? && HoldsThrough(Step(s, es[0]).value, es[1..], t)
  }

  /** Steps of others leave the holder where it is, and the connection as it is. */
  lemma {:induction false} StandsStill(s: State, e: Event, t: nat)
    requires Inv(s) && s.lock == Some(t) && Step(s, e).Some? && !OwnStep(e, t)
    ensures var r := Step(s, e).value;
            At(r, t) == At(s, t) && r.lock == s.lock && r.connected == s.connected && r.casActive == s.casActive
  {
    OutsideOrInside(s, e);
    OthersStay(s, e);
    hide Inv, StepInside;
  }

  lemma KinBehind(r: State, t: nat, op: Op)
    ensures forall x, y :: Kin(x, y) && Behind(r, t, op, y) ==> Behind(r, t, op, x)
  {
  }

  lemma {:induction false} RestOfRegion(s: State, es: seq<Event>, t: nat)
    requires Inv(s) && s.lock == Some(t) && Fitting(At(s, t)) && HoldsThrough(s, es, t)
    ensures Run(s, es).Some?
    ensures Inside(At(s, t))
    ensures var x := Rest(At(s, t), s.connected, s.casActive, Own(es, t));
            x.Some? && x.value.rest == [] && Behind(Run(s, es).value, t, At(s, t).op, x.value.ending)
    decreases |es|
  {
    hide Inv, Step, Rest, Fitting, Behind, Ground;
    var e, more := es[0], es[1..];
    var r := Step(s, e).value;
    StepKeeps(s, e);
    Grounded(s, t);
    if r.lock == Some(t) {
      if OwnStep(e, t) {
        StepReads(s, t, e, Own(more, t));
        RestOfRegion(r, more, t);
        KinBehind(Run(r, more).value, t, At(s, t).op);
      } else {
        StandsStill(s, e, t);
        assert Own(es, t) == Own(more, t);
        RestOfRegion(r, more, t);
      }
    } else {
      if !OwnStep(e, t) { StandsStill(s, e, t); }
      StepReads(s, t, e, []);
      assert more == [];
    }
  }

  /** The region of any call is the sequential procedure: from the moment a task has the lock to
      the moment it gives it back, with any steps of other tasks and of the broker in between, its
      own steps are exactly a word of the procedure, and what is left behind is what the procedure
      ends with. */
  lemma {:induction false} RegionIsSequential(s: State, es: seq<Event>, t: nat)
    requires Inv(s) && s.lock == Some(t) && At(s, t).Entering? && HoldsThrough(s, es, t)
    ensures Run(s, es).Some?
    ensures var x := Region(At(s, t).op, s.connected, s.casActive, Own(es, t));
            x.Some? && x.value.rest == [] && Behind(Run(s, es).value, t, At(s, t).op, x.value.ending)
  {
    hide Inv, Region, Behind;
    RestOfRegion(s, es, t);
  }

  // ---- The handles ---------------------------------------------------------------------------

  ghost predicate Removed(h: map<nat, nat>, g: map<nat, nat>, c: nat) {
    c !in g && forall d: nat :: d != c ==> (d in h <==> d in g) && (d in h ==> h[d] == g[d])
  }

  ghost predicate Added(h: map<nat, nat>, g: map<nat, nat>, c: nat, session: nat) {
    c in g && g[c] == session && forall d: nat :: d != c ==> (d in h <==> d in g) && (d in h ==> h[d] == g[d])
  }

  /** The handles after the last step of a region: an answered execute stores its cursor's one, an
      answered batch clears it, an answered commit clears all; closing a cursor clears its handle
      whatever happened, and so does the clean-up of a ping with all of them. Nothing else
      touches them. */
  ghost predicate HandlesAfter(op: Op, answered: bool, session: nat, h: map<nat, nat>, g: map<nat, nat>) {
    match op
    case PingDrop => g == map[]
    case Call(_, Release(c)) => Removed(h, g, c)
    case Call(_, Store(c)) => if answered then Added(h, g, c, session) else g == h
    case Call(_, Clear(c)) => if answered then Removed(h, g, c) else g == h
    case Call(_, Forget) => g == if answered then map[] else h
    case _ => g == h
  }

  lemma {:induction false} FinishHandles(s: State, t: nat, op: Op, failed: bool)
    requires op.Call? && op.effect.Release? ==> failed
    ensures op != PingDrop ==> HandlesAfter(op, false, s.sessions, s.handles, Finish(s, t, op, failed).handles)
    ensures !(op.Call? && op.effect.Release?) ==> Finish(s, t, op, failed).handles == s.handles
    ensures Finish(s, t, op, failed).lock != Some(t)
  {
  }

  /** Dropping the streams for whatever reason. */
  lemma {:induction false} DropHandles(s: State, t: nat, op: Op, after: After)
    requires s.lock == Some(t) && Fitting(Dropping(op, after)) && !s.overridden
    ensures forall r :: r == Dropped(s, t, op, after) || r == Drop(s, t, op, after) ==>
              if r.lock == Some(t)
              then r.handles == (if At(r, t).Opening? then map[] else s.handles) && (At(r, t).Opening? ==> after == Reconnect)
              else HandlesAfter(op, false, s.sessions, s.handles, r.handles)
  {
    hide Finish;
    var r := s.(stream := None, connected := false, dropped := s.dropped + if s.connected then 1 else 0);
    if after == Fail { FinishHandles(r, t, op, true); }
    if after == End { FinishHandles(if op == PingDrop then r.(handles := map[]) else r, t, op, false); }
  }

  lemma {:induction false} RaiseHandles(s: State, t: nat, op: Op)
    requires s.lock == Some(t) && !s.overridden && op != PingDrop
    ensures var r := Raise(s, t, op);
            if r.lock == Some(t) then r.handles == s.handles && !At(r, t).Opening?
            else HandlesAfter(op, false, s.sessions, s.handles, r.handles)
  {
    hide Finish, Dropped;
    FinishHandles(s, t, op, true);
    if op == CloseCall { DropHandles(s, t, op, End); }
  }

  lemma {:induction false} AnsweredHandles(s: State, t: nat, op: Op)
    requires op != PingDrop
    ensures var r := Finish(if op.Call? then s.(handles := Keep(s.handles, op.effect, s.sessions)) else s, t, op, false);
            r.lock != Some(t) && HandlesAfter(op, true, s.sessions, s.handles, r.handles)
  {
  }

  lemma {:induction false} BodyHandles(s: State, t: nat, op: Op, active: bool, outcome: Outcome)
    requires s.lock == Some(t) && !s.overridden && op != PingDrop && op != ConnectCall
    ensures var r := Parsed(s, t, op, active, outcome);
            if r.lock == Some(t) then r.handles == s.handles && !At(r, t).Opening?
            else HandlesAfter(op, outcome.Good?, s.sessions, s.handles, r.handles)
  {
    hide Finish, Dropped, Keep;
    var q := s.(casActive := active);
    match outcome {
      case Good => if op == CloseCall { DropHandles(q, t, op, End); } else { AnsweredHandles(q, t, op); }
      case Refused(operational) =>
        if op == CloseCall { DropHandles(q, t, op, End); } else { FinishHandles(q, t, op, operational || op.Call?); }
      case Malformed => DropHandles(q, t, op, Fail);
    }
  }

  /** Over every own step of a task under the lock: handles are cleared where a reconnect starts,
      and otherwise change with the last step only, as the request and its answer ask for. */
  lemma {:induction false} StepKeepsHandles(s: State, t: nat, e: Event)
    requires Inv(s) && s.lock == Some(t) && Fitting(At(s, t)) && OwnStep(e, t) && Step(s, e).Some?
    ensures Inside(At(s, t))
    ensures var r := Step(s, e).value; var op := At(s, t).op;
            if r.lock == Some(t)
            then r.handles == if At(r, t).Opening? && op != ConnectCall then map[] else s.handles
            else HandlesAfter(op, e.ReadBody? && e.outcome.Good?, s.sessions, s.handles, r.handles)
  {
    Grounded(s, t);
    hide Inv;
    InsideHandles(s, t, e);
  }

  lemma {:induction false} LinkedHandles(s: State, t: nat, op: Op, active: bool)
    requires s.lock == Some(t)
    ensures var r := Authenticated(s, t, op, active);
            if r.lock == Some(t) then r.handles == s.handles && !At(r, t).Opening?
            else HandlesAfter(op, false, s.sessions, s.handles, r.handles)
  {
  }

  lemma {:induction false} InsideHandles(s: State, t: nat, e: Event)
    requires Ground(s, t) && Inside(At(s, t)) && Fitting(At(s, t)) && StepInside(s, t, At(s, t), e).Some? && e.t == t
    ensures var r := StepInside(s, t, At(s, t), e).value; var op := At(s, t).op;
            if r.lock == Some(t)
            then r.handles == if At(r, t).Opening? && op != ConnectCall then map[] else s.handles
            else HandlesAfter(op, e.ReadBody? && e.outcome.Good?, s.sessions, s.handles, r.handles)
  {
    hide Finish, Drop, Dropped, Raise, Parsed, Entered, HandlesAfter;
    var pc := At(s, t);
    var op := pc.op;
    match e {
      case Enter(_) => EnterHandles(s, t, op);
      case EndDrop(_) => DropHandles(s, t, op, pc.after);
      case Open(_, _) => DropHandles(s, t, op, Fail);
      case Shake(_, _) => DropHandles(s.(wires := s.wires[pc.hs := s.wires[pc.hs].(open := false)]), t, op, Fail);
      case Authenticate(_, _, active) =>
        DropHandles(s, t, op, Fail);
        LinkedHandles(s, t, op, active);
      case Write(_, _) => RaiseHandles(s, t, op);
      case Break(_) => DropHandles(s, t, op, Fail);
      case Lost(_) => RaiseHandles(s, t, op);
      case ReadBody(_, active, outcome) =>
        BodyHandles(Take(s, pc.wire).(log := s.log + [Parse(pc.req, pc.head, s.wires[pc.wire].inbox[0])]), t, op, active, outcome);
      case _ =>
    }
  }

  lemma {:induction false} EnterHandles(s: State, t: nat, op: Op)
    requires s.lock == Some(t) && !s.overridden
    ensures var r := Entered(s, t, op);
            if r.lock == Some(t)
            then r.handles == if At(r, t).Opening? && op != ConnectCall then map[] else s.handles
            else HandlesAfter(op, false, s.sessions, s.handles, r.handles)
  {
    hide Finish, Drop, Raise, HandlesAfter;
    match op {
      case ConnectCall => FinishHandles(s, t, op, false);
      case PingDrop => DropHandles(s, t, op, End);
      case CloseCall => DropHandles(s, t, op, End); RaiseHandles(s, t, op);
      case _ => DropHandles(s, t, op, Reconnect); RaiseHandles(s, t, op);
    }
  }

  // ---- A failed ping ----------------------------------------------------------------------------

  /** The check of a reconnecting ping fails: the connection is down already, connecting for it
      fails, or the request is not written, times out, is lost with the broker, refused by an
      error the driver counts as operational, or answered by something that does not parse. */
  predicate CheckFails(s: State, e: Event, t: nat) {
    && OwnStep(e, t) && Inside(At(s, t)) && At(s, t).op == PingCall(true)
    && match e
       case Enter(_) => !s.connected
       case Open(_, ok) => !ok
       case Shake(_, reply) => reply == Rejected
       case Authenticate(_, ok, _) => !ok
       case Write(_, ok) => !ok
       case Break(_) => true
       case Lost(_) => true
       case ReadBody(_, _, outcome) => outcome == Refused(true) || outcome == Malformed
       case _ => false
  }

  /** Nothing is left of the connection: no stream held or open, and no handle stored. */
  predicate SweptClean(s: State) {
    && s.lock.None? && !s.connected && s.stream.None? && s.handles == map[]
    && forall w :: 0 <= w < |s.wires| ==> !s.wires[w].open
  }

  /** The task starts a handshake, or has the lock and finds the connection connected. */
  predicate Connects(s: State, e: Event, t: nat) {
    (e.Open? && e.t == t) || (e == Enter(t) && At(s, t) == Entering(ConnectCall) && s.connected)
  }

  predicate ConnectsIn(s: State, es: seq<Event>, t: nat)
    decreases |es|
  {
    es != [] && Step(s, es[0]).Some? && (Connects(s, es[0], t) || ConnectsIn(Step(s, es[0]).value, es[1..], t))
  }

  /** Somewhere in the run a step of the task leaves nothing of the connection, and later in the
      run the task connects. */
  predicate SweepsThenConnects(s: State, es: seq<Event>, t: nat)
    decreases |es|
  {
    && es != [] && Step(s, es[0]).Some?
    && var r := Step(s, es[0]).value;
       (OwnStep(es[0], t) && SweptClean(r) && ConnectsIn(r, es[1..], t)) || SweepsThenConnects(r, es[1..], t)
  }

  lemma {:induction false} FailedCheck(s: State, e: Event, t: nat)
    requires Inv(s) && s.lock == Some(t) && CheckFails(s, e, t) && Step(s, e).Some?
    ensures At(Step(s, e).value, t) == Waiting(PingDrop) || At(Step(s, e).value, t) == Dropping(PingCall(true), Fail)
  {
    Grounded(s, t);
    hide Inv;
    FailedInside(s, e, t);
  }

  lemma {:induction false} FailedInside(s: State, e: Event, t: nat)
    requires Ground(s, t) && CheckFails(s, e, t) && StepInside(s, t, At(s, t), e).Some?
    ensures var r := StepInside(s, t, At(s, t), e).value;
            At(r, t) == Waiting(PingDrop) || At(r, t) == Dropping(PingCall(true), Fail)
  {
  }

  /** The way of a failed ping to its clean-up. */
  predicate Sweeping(pc: Pc) {
    || pc == Dropping(PingCall(true), Fail) || pc == Waiting(PingDrop) || pc == Entering(PingDrop)
    || pc == Dropping(PingDrop, End)
  }

  lemma {:induction false} SweepStep(s: State, e: Event, t: nat)
    requires Inv(s) && Sweeping(At(s, t)) && OwnStep(e, t) && Step(s, e).Some?
    ensures var r := Step(s, e).value; Sweeping(At(r, t)) || (At(r, t) == Waiting(ConnectCall) && SweptClean(r))
  {
    StepKeeps(s, e);
    OutsideOrInside(s, e);
    hide QueueOk, LogOk, NotLogged;
  }

  lemma {:induction false} ConnectStep(s: State, e: Event, t: nat)
    requires Inv(s) && OwnStep(e, t) && Step(s, e).Some? && !Connects(s, e, t)
    requires At(s, t) == Waiting(ConnectCall) || At(s, t) == Entering(ConnectCall) || At(s, t) == Opening(ConnectCall)
    ensures At(Step(s, e).value, t) == Entering(ConnectCall) || At(Step(s, e).value, t) == Opening(ConnectCall)
  {
    OutsideOrInside(s, e);
    hide Inv;
  }

  lemma {:induction false} ConnectingRuns(s: State, es: seq<Event>, t: nat)
    requires Inv(s) && Run(s, es).Some? && At(Run(s, es).value, t) == Idle
    requires At(s, t) == Waiting(ConnectCall) || At(s, t) == Entering(ConnectCall) || At(s, t) == Opening(ConnectCall)
    ensures ConnectsIn(s, es, t)
    decreases |es|
  {
    hide Inv, Step;
    var r := Step(s, es[0]).value;
    StepKeeps(s, es[0]);
    if !Connects(s, es[0], t) {
      OthersStay(s, es[0]);
      if OwnStep(es[0], t) { ConnectStep(s, es[0], t); }
      ConnectingRuns(r, es[1..], t);
    }
  }

  lemma {:induction false} SweepingRuns(s: State, es: seq<Event>, t: nat)
    requires Inv(s) && Sweeping(At(s, t)) && Run(s, es).Some? && At(Run(s, es).value, t) == Idle
    ensures SweepsThenConnects(s, es, t)
    decreases |es|
  {
    hide Inv, Step, SweptClean;
    var r := Step(s, es[0]).value;
    StepKeeps(s, es[0]);
    OthersStay(s, es[0]);
    if OwnStep(es[0], t) { SweepStep(s, es[0], t); }
    if Sweeping(At(r, t)) { SweepingRuns(r, es[1..], t); } else { ConnectingRuns(r, es[1..], t); }
  }

  /** A ping that may reconnect and whose check fails is not over before it did so: in every run
      that goes on from there and in which its task is idle again, the task has closed the old
      stream and cleared the handles, and after that has itself started a handshake, or found that
      another task had connected. */
  lemma {:induction false} PingReconnects(s: State, e: Event, es: seq<Event>, t: nat)
    requires Inv(s) && s.lock == Some(t) && CheckFails(s, e, t) && Step(s, e).Some?
    requires Run(Step(s, e).value, es).Some? && At(Run(Step(s, e).value, es).value, t) == Idle
    ensures SweepsThenConnects(Step(s, e).value, es, t)
  {
    hide Inv, Step, Run, CheckFails;
    FailedCheck(s, e, t);
    StepKeeps(s, e);
    SweepingRuns(Step(s, e).value, es, t);
  }

  predicate Arrived(s: State, pc: Pc) {
    (pc.AwaitHead? || pc.AwaitBody?) && pc.wire < |s.wires| && s.wires[pc.wire].inbox != []
  }

  predicate HungUp(s: State, pc: Pc) {
    (pc.AwaitHead? || pc.AwaitBody?) && pc.wire < |s.wires| && s.wires[pc.wire].eof && s.wires[pc.wire].inbox == []
  }

  /** Which steps are possible: a task's own where its code stands, a timeout or an error of the
      system at any point of a request, reading only what arrived, and losing the broker only when
      it hung up and all is read; the broker may answer while it is there, and hang up any time. */
  lemma {:induction false} PossibleSteps(s: State, e: Event)
    requires Inv(s)
    ensures Step(s, e).Some? <==>
            match e
            case Start(t, op) => At(s, t) == Idle && MayStart(s, op)
            case StartPing(t, _) => At(s, t) == Idle
            case CloseCursor(t, _) => At(s, t) == Idle
            case Acquire(t) => s.lock.None? && s.waiters != [] && s.waiters[0] == t
            case Enter(t) => At(s, t).Entering?
            case EndDrop(t) => At(s, t).Dropping?
            case Open(t, _) => At(s, t).Opening? || At(s, t).Redirecting?
            case Shake(t, _) => At(s, t).Shaking?
            case Authenticate(t, _, _) => At(s, t).Authenticating?
            case Write(t, _) => At(s, t).Ready?
            case Break(t) => At(s, t).Ready? || At(s, t).AwaitHead? || At(s, t).AwaitBody?
            case ReadHead(t) => At(s, t).AwaitHead? && Arrived(s, At(s, t))
            case ReadBody(t, _, _) => At(s, t).AwaitBody? && Arrived(s, At(s, t))
            case Lost(t) => HungUp(s, At(s, t))
            case Answer(w) => w < |s.wires| && !s.wires[w].eof && s.wires[w].pending != []
            case HangUp(w) => w < |s.wires|
  {
    if s.waiters != [] { assert s.waiters[0] in s.waiters; }
    if !Outer(e) && Inside(At(s, e.t)) { assert s.lock == Some(e.t) && Place(s, At(s, e.t)); }
    hide Inv, QueueOk, Place, Drop, Dropped, Finish, Raise, Parsed, Entered, Written, Authenticated, Queue, Delivered;
  }

  /** What happens without the lock: which request a call queues, last in line, and what becomes
      of the handles at once; that the lock goes to the first in line; and that the broker sends
      the length and then the body of the reply to the oldest request, or hangs up. */
  lemma {:induction false} OutsideSteps(s: State, e: Event)
    requires Step(s, e).Some? && Outer(e)
    ensures var r := Step(s, e).value;
            match e
            case Start(t, op) => At(r, t) == Waiting(op) && r.handles == s.handles && r.waiters == s.waiters + [t]
            case StartPing(t, reconnect) =>
              if s.connected then At(r, t) == Waiting(PingCall(reconnect)) && r.handles == s.handles && r.waiters == s.waiters + [t]
              else if reconnect then At(r, t) == Waiting(ConnectCall) && r.handles == map[] && r.waiters == s.waiters + [t]
              else r == s
            case CloseCursor(t, c) =>
              if s.connected && c in s.handles
              then At(r, t) == Waiting(Call(true, Release(c))) && r.handles == s.handles && r.waiters == s.waiters + [t]
              else At(r, t) == Idle && Removed(s.handles, r.handles, c)
            case Acquire(t) =>
              s.lock.None? && s.waiters == [t] + r.waiters && r.lock == Some(t) && At(r, t) == Entering(At(s, t).op)
              && r.handles == s.handles
            case Answer(w) =>
              w < |s.wires| == |r.wires| && s.wires[w].pending != []
              && var q := s.wires[w].pending[0];
                 r.wires[w].inbox == s.wires[w].inbox + [if s.wires[w].half then Body(q) else Head(q)]
                 && r.wires[w].pending == (if s.wires[w].half then s.wires[w].pending[1..] else s.wires[w].pending)
            case HangUp(w) => w < |s.wires| == |r.wires| && r.wires[w].eof && r.wires[w].inbox == s.wires[w].inbox
  {
    hide StepInside;
    if e.Acquire? { assert s.waiters == [s.waiters[0]] + s.waiters[1..]; }
  }
}
