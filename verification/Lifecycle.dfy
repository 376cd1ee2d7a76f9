/** Connections and cursors over sessions that come and go (pycubrid/connection.py,
    pycubrid/_connection_common.py, pycubrid/cursor.py). Any socket call may fail. What a
    reader cannot see in one method: over every run, a socket is held exactly while the
    connection counts as connected and no other socket is open, every stored query handle of a
    connected connection belongs to the current session, and every buffered row belongs to the
    statement its cursor executed, although handle numbers start over in every session. */
module Lifecycle {
  import opened Basics
  import opened Fetching

  datatype Exc = InterfaceError | OperationalError | DatabaseError | StructError | ValueError | IndexError

  datatype Result<+T> = Ret(value: T) | Exn(error: Exc)

  datatype Request =
    | CloseQuery(handle: int) | Execute | Fetch(handle: int, start: int, fetchSize: nat)
    | EndTransaction | SetParameter(on: bool) | Batch | CheckCas | LastInsertId | CloseDatabase

  datatype Answer =
    | Done
    | Executed(handle: int, statementType: int, hasColumns: bool, total: int, inline: seq<Tuple>, affected: Option<int>)
    | Fetched(rows: seq<Tuple>)
    | Counted(total: int)
    | Checked(code: int)

  /** One request on the wire: not sent because packing it raised, failed by the operating
      system, cut off, answered by something that parse rejects, or answered. The last two
      carry the status byte of the reply's CAS info. */
  datatype Link = NotSent | OsFailure | EndOfStream | Rejected(e: Exc, active: bool) | Answered(a: Answer, active: bool)

  const INSERT: int := 20
  const SELECT: int := 21

  // ---- Connecting, step by step -------------------------------------------------------------

  /** What the outside makes of one step of connecting: dialling a socket, the broker's answer
      to the greeting, giving the first socket up, the TLS handshake, opening the database. */
  datatype Step =
    | Dialed(ok: bool) | Greeted(port: Option<int>) | Released(raised: bool) | Wrapped(ok: bool)
    | Opened(r: Result<()>)

  /** What connecting has to do next, or how it ended. */
  datatype Phase = Dial | Greet | GiveUp | DialAgain | Secure | OpenUp | Ended(r: Result<()>)

  const UNREACHED := Ended(Exn(OperationalError))

  /** The order of the steps: a refused greeting and every failure end the attempt, a port means
      dialling again there, and with TLS the socket is wrapped before the database is opened. */
  function After(useSsl: bool, phase: Phase, step: Step): Option<Phase> {
    match (phase, step)
    case (Dial, Dialed(ok)) => Some(if ok then Greet else UNREACHED)
    case (Greet, Greeted(port)) =>
      Some(if port.None? || port.value < 0 then UNREACHED
           else if port.value > 0 then GiveUp else if useSsl then Secure else OpenUp)
    case (GiveUp, Released(raised)) => Some(if raised then UNREACHED else DialAgain)
    case (DialAgain, Dialed(ok)) => Some(if !ok then UNREACHED else if useSsl then Secure else OpenUp)
    case (Secure, Wrapped(ok)) => Some(if ok then OpenUp else UNREACHED)
    case (OpenUp, Opened(r)) => Some(Ended(r))
    case _ => None
  }

  /** Where an attempt to connect is after these steps. */
  function Progress(useSsl: bool, steps: seq<Step>): Option<Phase> {
    if steps == [] then Some(Dial)
    else
      match Progress(useSsl, steps[..|steps| - 1])
      case None => None
      case Some(phase) => After(useSsl, phase, steps[|steps| - 1])
  }

  /** Since the log was as given, an attempt to connect got as far as phase. */
  ghost predicate Reached(useSsl: bool, log: seq<Step>, steps: seq<Step>, phase: Phase) {
    log <= steps && Progress(useSsl, steps[|log|..]) == Some(phase)
  }

  lemma ReachedNow(useSsl: bool, log: seq<Step>)
    ensures Reached(useSsl, log, log, Dial)
  {
  }

  lemma ReachedNext(useSsl: bool, log: seq<Step>, steps: seq<Step>, phase: Phase, step: Step, next: Phase)
    requires Reached(useSsl, log, steps, phase) && After(useSsl, phase, step) == Some(next)
    ensures Reached(useSsl, log, steps + [step], next)
  {
    var done := steps[|log|..];
    assert (steps + [step])[|log|..] == done + [step] && (done + [step])[..|done|] == done;
  }

  /** The process's sockets and the broker behind them. Ghost logs keep what happened: the steps
      of connecting, how each attempt to connect ended, the sockets that speak TLS, and every
      request with its fate; and for every request asked for, whether a reconnect was allowed. */
  class World {
    var open: set<nat>
    var used: nat
    var sessions: nat
    var issued: map<int, seq<Tuple>>
    var nextHandle: nat
    ghost var trace: seq<(Request, Link)>
    ghost var steps: seq<Step>
    ghost var attempts: seq<Result<()>>
    ghost var secure: set<nat>
    ghost var leaves: seq<bool>

    constructor ()
      ensures Valid() && open == {} && sessions == 0 && trace == [] && steps == [] && attempts == [] && secure == {}
      ensures leaves == []
    {
      open, used, sessions, issued, nextHandle := {}, 0, 0, map[], 0;
      trace, steps, attempts, secure, leaves := [], [], [], {}, [];
    }

    ghost predicate Valid()
      reads this
    {
      (forall s <- open :: s < used) && (forall s <- secure :: s < used) && (forall h <- issued :: h < nextHandle)
    }

    method CreateSocket() returns (s: Option<nat>)
      requires Valid()
      modifies this`open, this`used, this`steps
      ensures Valid() && steps == old(steps) + [Dialed(s.Some?)]
      ensures s.None? ==> open == old(open)
      ensures s.Some? ==> s.value !in old(open) && s.value !in secure && open == old(open) + {s.value}
    {
      if * {
        steps := steps + [Dialed(false)];
        return None;
      }
      s := Some(used);
      open, used := open + {used}, used + 1;
      steps := steps + [Dialed(true)];
    }

    /** The handshake is sent, and its reply received and parsed, if all goes well. */
    method GreetBroker() returns (port: Option<int>)
      requires Valid()
      modifies this`steps
      ensures Valid() && steps == old(steps) + [Greeted(port)]
    {
      port := *;
      steps := steps + [Greeted(port)];
    }

    /** The first socket is closed because the broker named another port. */
    method Release(s: nat) returns (raised: bool)
      requires Valid()
      modifies this`open, this`steps
      ensures Valid() && open == old(open) - {s} && steps == old(steps) + [Released(raised)]
    {
      raised := CloseSocket(s);
      steps := steps + [Released(raised)];
    }

    /** Closing releases the socket even when it reports an error, and may be repeated. */
    method CloseSocket(s: nat) returns (raised: bool)
      requires Valid()
      modifies this`open
      ensures Valid() && open == old(open) - {s}
    {
      open := open - {s};
      raised := *;
    }

    /** Wrapping hands the connection over to a new socket object, or fails and leaves it. */
    method WrapSsl(s: nat) returns (t: Option<nat>)
      requires Valid() && s in open
      modifies this`open, this`used, this`secure, this`steps
      ensures Valid() && steps == old(steps) + [Wrapped(t.Some?)]
      ensures t.None? ==> open == old(open) && secure == old(secure)
      ensures t.Some? ==> t.value !in old(open) && open == old(open) - {s} + {t.value} && secure == old(secure) + {t.value}
    {
      if * {
        steps := steps + [Wrapped(false)];
        return None;
      }
      t := Some(used);
      open, used, secure := open - {s} + {used}, used + 1, secure + {used};
      steps := steps + [Wrapped(true)];
    }

    /** The open-database exchange; its reply may be a server error. A new session knows no
        handle, and numbers its handles from the start again. */
    method OpenSession() returns (r: Result<()>)
      requires Valid()
      modifies this`sessions, this`issued, this`nextHandle, this`steps
      ensures Valid() && steps == old(steps) + [Opened(r)]
      ensures r.Exn? ==> sessions == old(sessions) && issued == old(issued)
      ensures r.Ret? ==> sessions == old(sessions) + 1 && issued == map[]
    {
      r := Ret(());
      if * { r := Exn(OperationalError); }
      else if * { r := Exn(DatabaseError); }
      else { sessions, issued, nextHandle := sessions + 1, map[], 0; }
      steps := steps + [Opened(r)];
    }

    /** The broker behaves well: it keeps the results it issued handles for, does not reuse a
        handle number within a session, and answers a fetch only for a handle of the session,
        with rows from the position asked for. */
    method Exchange(request: Request) returns (l: Link)
      requires Valid()
      modifies this`issued, this`nextHandle, this`trace
      ensures Valid() && trace == old(trace) + [(request, l)]
      ensures !request.Execute? ==> issued == old(issued)
      ensures forall h <- old(issued) :: h in issued && issued[h] == old(issued)[h]
      ensures l.Answered? ==> Fitting(request, l.a, issued)
    {
      var e: Exc, active: bool := *, *;
      l := OsFailure;
      if * { l := NotSent; }
      else if * { l := EndOfStream; }
      else if * { l := Rejected(e, active); }
      else if * {
        match request {
          case Execute =>
            var result: seq<Tuple> := *;
            var skip: nat :| true;
            var handle: nat := nextHandle + skip;
            issued, nextHandle := issued[handle := result], handle + 1;
            var inline :| 0 <= inline <= |result|;
            var statementType: int, hasColumns: bool, total: int, affected: Option<int> := *, *, *, *;
            l := Answered(Executed(handle, statementType, hasColumns, total, result[..inline], affected), active);
          case Fetch(h, start, fetchSize) =>
            var from := start - 1;
            if h !in issued { l := Rejected(e, active); }
            else if !(0 <= from < |issued[h]|) { l := Answered(Fetched([]), active); }
            else {
              var n :| 0 <= n <= fetchSize && from + n <= |issued[h]|;
              l := Answered(Fetched(issued[h][from..from + n]), active);
            }
          case Batch =>
            var total: int := *;
            l := Answered(Counted(total), active);
          case CheckCas =>
            var code: int := *;
            l := Answered(Checked(code), active);
          case _ => l := Answered(Done, active);
        }
      }
      trace := trace + [(request, l)];
    }
  }

  /** The answers a request can get, given the results behind the handles. */
  ghost predicate Fitting(request: Request, a: Answer, issued: map<int, seq<Tuple>>) {
    match request
    case Execute =>
      a.Executed? && a.handle in issued && |a.inline| <= |issued[a.handle]| && a.inline == issued[a.handle][..|a.inline|]
    case Fetch(h, start, _) =>
      && a.Fetched? && h in issued
      && (a.rows != [] ==> 1 <= start && start - 1 + |a.rows| <= |issued[h]|
                           && a.rows == issued[h][start - 1..start - 1 + |a.rows|])
    case Batch => a.Counted?
    case CheckCas => a.Checked?
    case _ => a.Done?
  }

  /** What a request returns or raises, by what happened to it on the way. */
  function Outcome(l: Link): Result<Answer> {
    match l
    case NotSent => Exn(StructError)
    case OsFailure => Exn(OperationalError)
    case EndOfStream => Exn(OperationalError)
    case Rejected(e, _) => Exn(e)
    case Answered(a, _) => Ret(a)
  }

  function Unit(r: Result<Answer>): Result<()> {
    match r
    case Ret(_) => Ret(())
    case Exn(e) => Exn(e)
  }

  /** From the first to the second log, the operating system failed no exchange and no attempt to
      connect failed. */
  ghost predicate NoLoss(t0: seq<(Request, Link)>, t1: seq<(Request, Link)>, a0: seq<Result<()>>, a1: seq<Result<()>>) {
    && t0 <= t1 && a0 <= a1
    && (forall i :: |t0| <= i < |t1| ==> !t1[i].1.OsFailure?)
    && (forall i :: |a0| <= i < |a1| ==> a1[i].Ret?)
  }

  lemma LossMeanwhile(t0: seq<(Request, Link)>, t1: seq<(Request, Link)>, t2: seq<(Request, Link)>,
                      a0: seq<Result<()>>, a1: seq<Result<()>>, a2: seq<Result<()>>)
    requires t0 <= t1 <= t2 && a0 <= a1 <= a2 && NoLoss(t0, t2, a0, a2)
    ensures NoLoss(t0, t1, a0, a1) && NoLoss(t1, t2, a1, a2)
  {
    forall i | |t0| <= i < |t1| ensures !t1[i].1.OsFailure? { assert t1[i] == t2[i]; }
    forall i | |a0| <= i < |a1| ensures a1[i].Ret? { assert a1[i] == a2[i]; }
  }

  class Connection {
    const world: World
    const useSsl: bool
    var socket: Option<nat>
    var connected: bool
    var casActive: bool
    var autocommit: bool
    var cursors: set<Cursor>
    ghost var made: set<Cursor>

    constructor (world: World, useSsl: bool)
      requires world.Valid() && world.open == {}
      ensures this.world == world && this.useSsl == useSsl && Valid() && !connected && !casActive && !autocommit
      ensures made == {} && cursors == {}
    {
      this.world, this.useSsl := world, useSsl;
      socket, connected, casActive, autocommit := None, false, false, false;
      cursors, made := {}, {};
    }

    /** No tracked cursor stores a query handle. */
    ghost predicate NoHandles()
      reads this, cursors
    {
      forall c <- cursors :: c.queryHandle.None?
    }

    /** Connected exactly while a socket is held, no other socket is open, and the held one
        speaks TLS exactly if that was asked for. */
    ghost predicate SocketsOk()
      reads this`socket, this`connected, world
    {
      && world.Valid()
      && (connected <==> socket.Some?)
      && world.open == (if socket.Some? then {socket.value} else {})
      && (socket.Some? ==> (socket.value in world.secure <==> useSsl))
    }

    /** The open cursors are tracked, and every buffer is a prefix of its cursor's result. */
    ghost predicate CursorsOk()
      reads this`cursors, this`made, made`closed, made`rows, made`rowIndex, made`result
    {
      cursors <= made
      && (forall c <- made :: c.connection == this && c.BufferOk() && (c in cursors <==> !c.closed))
    }

    /** While connected, every stored handle of a tracked cursor is one of this session. */
    ghost predicate HandlesOk()
      reads this`connected, this`cursors, world`sessions, world`issued
      reads cursors`queryHandle, cursors`handleSession, cursors`result
    {
      connected ==> forall c <- cursors :: c.HandleCurrent(world.sessions, world.issued)
    }

    /** What every step of every run keeps. */
    ghost predicate Valid()
      reads this, world, made, cursors
    {
      SocketsOk() && CursorsOk() && HandlesOk()
    }

    /** A change to one cursor that leaves it in order leaves everything in order. */
    twostate lemma OneCursorChanged(c: Cursor)
      requires old(Valid()) && c in made && unchanged(this) && unchanged(world)
      requires forall d <- made :: d != c ==> unchanged(d)
      requires c.closed == old(c.closed) && c.BufferOk()
      requires c.HandleCurrent(world.sessions, world.issued)
      ensures Valid()
    {
      forall d <- made ensures d.connection == this && d.BufferOk() && (d in cursors <==> !d.closed) {
        assert old(d.BufferOk()) && (old(d in cursors) <==> !old(d.closed));
      }
      forall d <- cursors ensures connected ==> d.HandleCurrent(world.sessions, world.issued) {
        if d != c { assert old(connected ==> d.HandleCurrent(world.sessions, world.issued)); }
      }
    }

    method InvalidateQueryHandles()
      modifies cursors`queryHandle
      ensures NoHandles()
    {
      var todo := cursors;
      while todo != {}
        invariant todo <= cursors && forall c <- cursors - todo :: c.queryHandle.None?
        decreases |todo|
      {
        var c :| c in todo;
        c.queryHandle := None;
        todo := todo - {c};
      }
    }

    method EnsureConnected() returns (r: Result<()>)
      ensures r == if connected then Ret(()) else Exn(InterfaceError)
    {
      r := if connected then Ret(()) else Exn(InterfaceError);
    }

    method SafeCloseSocket()
      requires world.Valid()
      modifies this`socket, world`open
      ensures world.Valid() && socket.None?
      ensures world.open == if old(socket).Some? then old(world.open) - {old(socket).value} else old(world.open)
    {
      if socket.Some? {
        var _ := world.CloseSocket(socket.value);
        socket := None;
      }
    }

    method DropConnection()
      requires Valid()
      modifies this`socket, this`connected, world`open, cursors`queryHandle
      ensures Valid() && !connected && NoHandles()
    {
      SafeCloseSocket();
      connected := false;
      InvalidateQueryHandles();
    }

    /** The second half of connect: the held socket goes over to TLS if that was asked for, and
        the database is opened on it. */
    method UpgradeAndOpen(ghost log: seq<Step>) returns (r: Result<()>)
      requires world.Valid() && socket.Some? && world.open == {socket.value} && socket.value !in world.secure && !connected
      requires Reached(useSsl, log, world.steps, if useSsl then Secure else OpenUp)
      modifies this`socket, this`connected, this`casActive, world
      ensures world.Valid() && world.trace == old(world.trace) && world.attempts == old(world.attempts)
      ensures world.leaves == old(world.leaves)
      ensures r.Ret? <==> connected
      ensures Reached(useSsl, log, world.steps, Ended(r))
      ensures socket.Some? && world.open <= {socket.value}
      ensures connected ==> world.open == {socket.value} && (socket.value in world.secure <==> useSsl)
      ensures connected ==> world.sessions == old(world.sessions) + 1 && world.issued == map[]
      ensures !connected ==> world.sessions == old(world.sessions) && world.issued == old(world.issued)
    {
      hide Reached;
      if useSsl {
        ghost var s4 := world.steps;
        var wrapped := world.WrapSsl(socket.value);
        ReachedNext(useSsl, log, s4, Secure, Wrapped(wrapped.Some?), if wrapped.Some? then OpenUp else UNREACHED);
        if wrapped.None? {
          var _ := world.CloseSocket(socket.value);
          return Exn(OperationalError);
        }
        socket := wrapped;
      }
      ghost var s5 := world.steps;
      r := world.OpenSession();
      ReachedNext(useSsl, log, s5, OpenUp, Opened(r), Ended(r));
      if r.Exn? { return; }
      casActive := *;
      connected := true;
    }

    /** The body of connect up to its finally clause: the steps of connecting in their order, up
        to the one that ends it. Returns the handshake socket it still owns there. */
    method TryConnect() returns (r: Result<()>, handshake: Option<nat>)
      requires world.Valid() && world.open == {} && socket.None? && !connected
      modifies this`socket, this`connected, this`casActive, world
      ensures world.Valid() && world.trace == old(world.trace) && world.attempts == old(world.attempts)
      ensures world.leaves == old(world.leaves)
      ensures r.Ret? <==> connected
      ensures Reached(useSsl, old(world.steps), world.steps, Ended(r))
      ensures connected ==> handshake.None? && socket.Some? && world.open == {socket.value}
                            && (socket.value in world.secure <==> useSsl)
      ensures connected ==> world.sessions == old(world.sessions) + 1 && world.issued == map[]
      ensures !connected ==> world.sessions == old(world.sessions) && world.issued == old(world.issued)
      ensures world.open <= (if handshake.Some? then {handshake.value} else {}) + (if socket.Some? then {socket.value} else {})
    {
      hide Reached;
      ghost var log, s0 := world.steps, world.steps;
      ReachedNow(useSsl, log);
      handshake := world.CreateSocket();
      ReachedNext(useSsl, log, s0, Dial, Dialed(handshake.Some?), if handshake.Some? then Greet else UNREACHED);
      if handshake.None? { return Exn(OperationalError), None; }
      ghost var s1 := world.steps;
      var port := world.GreetBroker();
      if port.None? || port.value < 0 {
        ReachedNext(useSsl, log, s1, Greet, Greeted(port), UNREACHED);
        return Exn(OperationalError), handshake;
      }
      if port.value > 0 {
        ghost var s2 := world.steps;
        ReachedNext(useSsl, log, s1, Greet, Greeted(port), GiveUp);
        var raised := world.Release(handshake.value);
        ReachedNext(useSsl, log, s2, GiveUp, Released(raised), if raised then UNREACHED else DialAgain);
        if raised { return Exn(OperationalError), handshake; }
        ghost var s3 := world.steps;
        handshake := None;
        socket := world.CreateSocket();
        ReachedNext(useSsl, log, s3, DialAgain, Dialed(socket.Some?),
                    if socket.None? then UNREACHED else if useSsl then Secure else OpenUp);
        if socket.None? { return Exn(OperationalError), handshake; }
      } else {
        ReachedNext(useSsl, log, s1, Greet, Greeted(port), if useSsl then Secure else OpenUp);
        socket := handshake;
        handshake := None;
      }
      r := UpgradeAndOpen(log);
    }

    /** An attempt to connect was made and ended this way. */
    twostate predicate Attempted(new r: Result<()>)
      reads world
    {
      && world.attempts == old(world.attempts) + [r]
      && Reached(useSsl, old(world.steps), world.steps, Ended(r))
      && world.sessions == old(world.sessions) + if r.Ret? then 1 else 0
    }

    /** Connecting conserves sockets: whatever step fails, every socket opened is closed again
        and none is held; on success the one held is the only one open. */
    method Connect() returns (r: Result<()>)
      requires Valid() && (connected || NoHandles())
      modifies this`socket, this`connected, this`casActive, world
      ensures Valid() && (r.Ret? <==> connected) && world.trace == old(world.trace) && world.leaves == old(world.leaves)
      ensures if old(connected) then r.Ret? && unchanged(this) && unchanged(world) else Attempted(r)
      ensures !old(connected) && connected ==> world.sessions == old(world.sessions) + 1 && world.issued == map[]
      ensures !connected ==> world.sessions == old(world.sessions) && world.issued == old(world.issued) && world.open == {}
    {
      if connected { return Ret(()); }
      var handshake: Option<nat>;
      r, handshake := TryConnect();
      world.attempts := world.attempts + [r];
      // finally
      if handshake.Some? { var _ := world.CloseSocket(handshake.value); }
      if !connected { SafeCloseSocket(); }
    }

    method CheckReconnect(allowReconnect: bool) returns (r: Result<()>)
      requires Valid()
      modifies this`socket, this`connected, this`casActive, world, cursors`queryHandle
      ensures Valid() && (r.Ret? <==> connected) && world.trace == old(world.trace) && world.leaves == old(world.leaves)
      ensures !old(connected) ==> r == Exn(InterfaceError)
      ensures !allowReconnect || !old(connected) || old(casActive) ==>
                unchanged(world) && unchanged(cursors) && unchanged(this)
      ensures allowReconnect && old(connected) && !old(casActive) ==> Attempted(r) && NoHandles()
      ensures world.sessions >= old(world.sessions)
      ensures world.sessions == old(world.sessions) ==> world.issued == old(world.issued)
      ensures world.sessions != old(world.sessions) ==> world.issued == map[]
      ensures world.sessions == old(world.sessions) && r.Ret? ==> forall c <- cursors :: c.queryHandle == old(c.queryHandle)
      ensures forall c <- cursors :: c.queryHandle == old(c.queryHandle) || c.queryHandle.None?
    {
      r := EnsureConnected();
      if r.Exn? || !allowReconnect { return; }
      if !casActive && socket.Some? {
        DropConnection();
        r := Connect();
      }
    }

    /** One more request was sent, this one, and the connection broke only if the operating system
        failed it. */
    twostate predicate Exchanged(request: Request)
      reads this`connected, world
    {
      var k := |old(world.trace)|;
      && |world.trace| == k + 1 && old(world.trace) <= world.trace && world.trace[k].0 == request
      && connected == !world.trace[k].1.OsFailure?
    }

    /** What asking for something comes to. A connection that is down is left alone. If the server
        let go and a reconnect is allowed, one attempt to connect is made, and the request is
        sent exactly if it succeeded. In every other case the request is sent. */
    twostate predicate Asked(request: Request, allowReconnect: bool)
      reads this`connected, world
    {
      var w, n := world, |old(world.attempts)|;
      if !old(connected) then unchanged(w`trace) && unchanged(w`attempts) && unchanged(w`steps) && unchanged(w`sessions)
      else
        && w.leaves == old(w.leaves) + [allowReconnect]
        && if allowReconnect && !old(casActive) then
             && |w.attempts| == n + 1 && Attempted(w.attempts[n])
             && if w.attempts[n].Ret? then Exchanged(request) else w.trace == old(w.trace) && !connected
           else
             && w.attempts == old(w.attempts) && w.steps == old(w.steps) && w.sessions == old(w.sessions)
             && Exchanged(request)
    }

    /** Meanwhile every request was asked for with leave to reconnect. */
    twostate predicate AlwaysLeave()
      reads world
    {
      old(world.leaves) <= world.leaves && forall i :: |old(world.leaves)| <= i < |world.leaves| ==> world.leaves[i]
    }

    /** The answer or exception that such a call ends with. */
    twostate function Reply(): Result<Answer>
      reads world
    {
      var w := world;
      if !old(connected) then Exn(InterfaceError)
      else if |w.trace| > |old(w.trace)| then Outcome(w.trace[|w.trace| - 1].1)
      else if w.attempts != [] && w.attempts[|w.attempts| - 1].Exn? then Exn(w.attempts[|w.attempts| - 1].error)
      else Exn(InterfaceError)
    }

    /** The last thing that happened meanwhile, an exchange or an attempt to connect, failed with
        this exception. */
    twostate predicate FailedBy(e: Exc)
      reads world
    {
      var w := world;
      || (|w.trace| > |old(w.trace)| && Outcome(w.trace[|w.trace| - 1].1) == Exn(e))
      || (|w.attempts| > |old(w.attempts)| && w.attempts[|w.attempts| - 1] == Exn(e))
    }

    /** What makes a call fail: the connection was down, or the last thing that happened failed. */
    twostate predicate Blamed(e: Exc)
      reads world
    {
      if !old(connected) then e == InterfaceError else FailedBy(e)
    }

    /** Sends one request over the held socket and takes its reply. */
    method Transmit(request: Request) returns (r: Result<Answer>)
      requires Valid() && connected
      modifies this`socket, this`connected, this`casActive, world
      ensures Valid() && world.sessions == old(world.sessions)
      ensures world.attempts == old(world.attempts) && world.steps == old(world.steps) && world.leaves == old(world.leaves)
      ensures !request.Execute? ==> world.issued == old(world.issued)
      ensures r.Ret? ==> Fitting(request, r.value, world.issued)
      ensures |world.trace| == |old(world.trace)| + 1
      ensures var l := world.trace[|old(world.trace)|].1;
              world.trace == old(world.trace) + [(request, l)] && r == Outcome(l)
              && connected == !l.OsFailure?
              && casActive == if l.Rejected? || l.Answered? then l.active else old(casActive)
    {
      hide CursorsOk, Cursor.HandleCurrent, Fitting;
      ghost var before := world.issued;
      var l := world.Exchange(request);
      forall c <- cursors ensures c.HandleCurrent(world.sessions, world.issued) {
        c.StaysCurrent(world.sessions, before, world.issued);
      }
      match l {
        case NotSent => return Exn(StructError);
        case OsFailure =>
          SafeCloseSocket();
          connected := false;
          return Exn(OperationalError);
        case EndOfStream => return Exn(OperationalError);
        case Rejected(e, active) =>
          casActive := active;
          return Exn(e);
        case Answered(a, active) =>
          casActive := active;
          return Ret(a);
      }
    }

    /** Sends one request and takes its reply, reconnecting first if the server let go. Whether
        it is sent, and how the call ends, is what Asked and Reply say. A fetch that gets an
        answer got it from the session it started in. */
    method SendAndReceive(request: Request, allowReconnect: bool) returns (r: Result<Answer>)
      requires Valid()
      modifies this`socket, this`connected, this`casActive, world, cursors`queryHandle
      ensures Valid() && Asked(request, allowReconnect) && r == Reply()
      ensures !old(connected) ==> r == Exn(InterfaceError) && !connected
      ensures old(connected) && r.Exn? ==> FailedBy(r.error)
      ensures old(world.attempts) <= world.attempts && world.leaves == old(world.leaves) + [allowReconnect]
      ensures world.attempts == old(world.attempts) ==> forall c <- cursors :: c.queryHandle == old(c.queryHandle)
      ensures r.Ret? ==> connected && Fitting(request, r.value, world.issued)
      ensures world.sessions >= old(world.sessions)
      ensures !allowReconnect ==> world.sessions == old(world.sessions)
      ensures world.sessions == old(world.sessions) && r.Ret? ==> forall c <- cursors :: c.queryHandle == old(c.queryHandle)
      ensures forall c <- cursors :: c.queryHandle == old(c.queryHandle) || c.queryHandle.None?
      ensures r.Ret? && request.Fetch? ==> world.sessions == old(world.sessions) && world.issued == old(world.issued)
      ensures r.Ret? ==> world.trace == old(world.trace) + [(request, Answered(r.value, casActive))]
      ensures old(world.trace) <= world.trace && |world.trace| <= |old(world.trace)| + 1
      ensures |world.trace| > |old(world.trace)| ==>
                world.trace[|old(world.trace)|].0 == request && r == Outcome(world.trace[|old(world.trace)|].1)
    {
      hide CursorsOk, HandlesOk;
      world.leaves := world.leaves + [allowReconnect];
      var checked := CheckReconnect(allowReconnect);
      if checked.Exn? { return Exn(checked.error); }
      if socket.None? { return Exn(InterfaceError); }
      r := Transmit(request);
    }

    method EndTran() returns (r: Result<()>)
      requires Valid()
      modifies this`socket, this`connected, this`casActive, world, cursors`queryHandle
      ensures Valid() && Asked(EndTransaction, true) && r == Unit(Reply())
      ensures r.Ret? ==> connected && NoHandles()
                         && world.trace == old(world.trace) + [(EndTransaction, Answered(Done, casActive))]
      ensures r.Exn? ==> forall c <- cursors :: c.queryHandle == old(c.queryHandle) || c.queryHandle.None?
    {
      r := EnsureConnected();
      if r.Exn? { return; }
      var a := SendAndReceive(EndTransaction, true);
      if a.Exn? { return Exn(a.error); }
      InvalidateQueryHandles();
    }

    /** Setting autocommit sends the parameter and a commit, and, unlike commit itself, leaves
        the stored handles alone. */
    method SetAutocommit(value: bool) returns (r: Result<()>)
      requires Valid()
      modifies this`socket, this`connected, this`casActive, this`autocommit, world, cursors`queryHandle
      ensures Valid()
      ensures r.Ret? ==> connected && autocommit == value && |world.trace| == |old(world.trace)| + 2
                         && world.trace[|old(world.trace)|].0 == SetParameter(value)
                         && world.trace[|old(world.trace)|].1.Answered?
                         && world.trace[|old(world.trace)| + 1].0 == EndTransaction
                         && world.trace[|old(world.trace)| + 1].1.Answered?
      ensures !old(connected) ==> r == Exn(InterfaceError) && unchanged(world)
      ensures old(connected) && r.Exn? ==> FailedBy(r.error)
      ensures AlwaysLeave()
      ensures r.Exn? ==> autocommit == old(autocommit)
      ensures r.Ret? && world.sessions == old(world.sessions) ==> forall c <- cursors :: c.queryHandle == old(c.queryHandle)
    {
      hide SocketsOk, CursorsOk, HandlesOk, Asked, Reply;
      r := EnsureConnected();
      if r.Exn? { return; }
      var a := SendAndReceive(SetParameter(value), true);
      if a.Exn? { return Exn(a.error); }
      a := SendAndReceive(EndTransaction, true);
      if a.Exn? { return Exn(a.error); }
      autocommit := value;
    }

    /** What ping answers to an attempt to connect. */
    static function ConnectAnswer(c: Result<()>): Result<bool> {
      match c
      case Ret(_) => Ret(true)
      case Exn(OperationalError) => Ret(false)
      case Exn(InterfaceError) => Ret(false)
      case Exn(e) => Exn(e)
    }

    /** How a ping whose check ended in l answers, given the attempts to connect made after it:
        an answer counts as it is; a failure of the network is answered by one attempt to connect,
        or by false if reconnecting is not wanted; any other failure is passed on. */
    static ghost predicate PingAnswers(reconnect: bool, checked: Result<Answer>, attempts: seq<Result<()>>, r: Result<bool>) {
      match checked
      case Ret(a) => attempts == [] && a.Checked? && r == Ret(a.code >= 0)
      case Exn(e) =>
        if e == DatabaseError || e == ValueError || e == IndexError then attempts == [] && r == Exn(e)
        else if !reconnect then attempts == [] && r == Ret(false)
        else |attempts| == 1 && r == ConnectAnswer(attempts[0])
    }

    /** A whole ping: a connection that is down is connected, if wanted; otherwise the check is
        sent, after one attempt to connect if the server let go and reconnecting is wanted. */
    static ghost predicate PingFollows(reconnect: bool, connected: bool, active: bool,
                                       exchanges: seq<(Request, Link)>, attempts: seq<Result<()>>, r: Result<bool>)
    {
      if !connected then
        && exchanges == []
        && if reconnect then |attempts| == 1 && r == ConnectAnswer(attempts[0]) else attempts == [] && r == Ret(false)
      else if reconnect && !active then
        && attempts != []
        && match attempts[0]
           case Exn(e) => exchanges == [] && PingAnswers(true, Exn(e), attempts[1..], r)
           case Ret(_) => |exchanges| == 1 && exchanges[0].0 == CheckCas && PingAnswers(true, Outcome(exchanges[0].1), attempts[1..], r)
      else |exchanges| == 1 && exchanges[0].0 == CheckCas && PingAnswers(reconnect, Outcome(exchanges[0].1), attempts, r)
    }

    /** A true answer means connected, and without reconnect no session is ever opened. Whether
        the check is sent, how often connecting is tried, and the answer are as PingFollows says. */
    method Ping(reconnect: bool) returns (r: Result<bool>)
      requires Valid()
      modifies this`socket, this`connected, this`casActive, world, cursors`queryHandle
      ensures Valid()
      ensures old(world.trace) <= world.trace && old(world.attempts) <= world.attempts
      ensures PingFollows(reconnect, old(connected), old(casActive), world.trace[|old(world.trace)|..],
                          world.attempts[|old(world.attempts)|..], r)
      ensures r == Ret(true) ==> connected
      ensures !reconnect ==> world.sessions == old(world.sessions)
      ensures !reconnect && !old(connected) ==> unchanged(world)
      ensures reconnect && !old(connected) ==>
                (r == Ret(true) <==> connected) && (connected ==> world.sessions == old(world.sessions) + 1)
      ensures old(connected) && reconnect && r == Ret(false) && !connected ==> NoHandles()
    {
      hide SocketsOk, CursorsOk, HandlesOk, Reached;
      if !connected {
        if !reconnect { return Ret(false); }
        InvalidateQueryHandles();
        var c := Connect();
        r := PingAnswer(c);
        return;
      }
      ghost var t, n := world.trace, world.attempts;
      var a := SendAndReceive(CheckCas, reconnect);
      ghost var t1, n1 := world.trace, world.attempts;
      match a {
        case Ret(answer) => return Ret(answer.code >= 0);
        case Exn(e) =>
          if e != InterfaceError && e != OperationalError && e != StructError { return Exn(e); }
          if !reconnect { return Ret(false); }
          DropConnection();
          var c := Connect();
          assert world.attempts[|n|..] == n1[|n|..] + [c];
          r := PingAnswer(c);
      }
    }

    static method PingAnswer(c: Result<()>) returns (r: Result<bool>)
      ensures r == ConnectAnswer(c)
    {
      match c {
        case Ret(_) => return Ret(true);
        case Exn(e) =>
          if e == OperationalError || e == InterfaceError { return Ret(false); }
          return Exn(e);
      }
    }

    method NewCursor() returns (r: Result<Cursor>)
      requires Valid()
      modifies this`cursors, this`made
      ensures Valid()
      ensures r.Exn? ==> r.error == InterfaceError && !connected && cursors == old(cursors) && made == old(made)
      ensures r.Ret? ==> connected && fresh(r.value) && cursors == old(cursors) + {r.value} && made == old(made) + {r.value}
    {
      if !connected { return Exn(InterfaceError); }
      var c := new Cursor(this);
      cursors, made := cursors + {c}, made + {c};
      return Ret(c);
    }

    /** Meanwhile the operating system failed no exchange and no attempt to connect failed. */
    twostate predicate NothingLost()
      reads world
    {
      NoLoss(old(world.trace), world.trace, old(world.attempts), world.attempts)
    }

    /** Meanwhile this request was sent. */
    twostate predicate WasSent(request: Request)
      reads world
    {
      exists i :: |old(world.trace)| <= i < |world.trace| && world.trace[i].0 == request
    }

    /** Closes one cursor and drops it, whatever its close reports. Unless something was lost, the
        connection is still there, and without a reconnect the cursor's handle was released and
        the others kept. */
    method CloseTracked(c: Cursor)
      requires Valid() && c in cursors
      modifies this`socket, this`connected, this`casActive, this`cursors, world, cursors`queryHandle, c
      ensures Valid() && cursors == old(cursors) - {c}
      ensures c.closed && c.queryHandle.None?
      ensures old(world.trace) <= world.trace && old(world.attempts) <= world.attempts && AlwaysLeave()
      ensures old(connected) && NothingLost() ==> connected
      ensures old(connected) && NothingLost() && world.attempts == old(world.attempts) ==>
                && (old(c.queryHandle).Some? ==> WasSent(CloseQuery(old(c.queryHandle).value)))
                && forall d <- cursors :: d.queryHandle == old(d.queryHandle)
    {
      hide SocketsOk, HandlesOk;
      assert !c.closed by { assert CursorsOk(); }
      hide CursorsOk;
      var _ := c.Close();
      // finally
      assert cursors - {c} == cursors;
      cursors := cursors - {c};
    }

    method CloseCursors()
      requires Valid()
      modifies this`socket, this`connected, this`casActive, this`cursors, world, cursors
      ensures Valid() && cursors == {}
      ensures forall c <- old(cursors) :: c.closed && c.queryHandle.None?
      ensures old(world.trace) <= world.trace && old(world.attempts) <= world.attempts && AlwaysLeave()
      ensures old(connected) && NothingLost() ==> connected
      ensures old(connected) && NothingLost() && world.attempts == old(world.attempts) ==>
                forall c <- old(cursors) :: old(c.queryHandle).Some? ==> WasSent(CloseQuery(old(c.queryHandle).value))
    {
      hide SocketsOk, CursorsOk, HandlesOk;
      var todo := cursors;
      while todo != {}
        invariant Valid() && todo == cursors <= old(cursors)
        invariant forall c <- old(cursors) - todo :: c.closed && c.queryHandle.None?
        invariant old(world.trace) <= world.trace && old(world.attempts) <= world.attempts && AlwaysLeave()
        invariant old(connected) && NothingLost() ==> connected
        invariant old(connected) && NothingLost() && world.attempts == old(world.attempts) ==>
                    && (forall c <- todo :: c.queryHandle == old(c.queryHandle))
                    && forall c <- old(cursors) - todo ::
                         old(c.queryHandle).Some? ==> WasSent(CloseQuery(old(c.queryHandle).value))
        decreases |todo|
      {
        var c :| c in todo;
        label Before:
        CloseTracked(c);
        if NothingLost() {
          LossMeanwhile(old(world.trace), old@Before(world.trace), world.trace,
                        old(world.attempts), old@Before(world.attempts), world.attempts);
        }
        todo := todo - {c};
      }
    }

    /** Whatever fails on the way, closing a connected connection ends disconnected, with no
        socket open and no cursor tracked; closing a disconnected one changes nothing, so that
        its cursors stay tracked. Unless something was lost, closing the database is the last
        request sent, and without a reconnect every stored handle was released before. */
    method Close()
      requires Valid()
      modifies this`socket, this`connected, this`casActive, this`cursors, world, cursors
      ensures Valid()
      ensures !connected && socket.None? && world.open == {}
      ensures cursors == if old(connected) then {} else old(cursors)
      ensures !old(connected) ==> unchanged(this) && unchanged(world) && unchanged(cursors)
      ensures AlwaysLeave()
      ensures old(connected) ==> forall c <- old(cursors) :: c.closed && c.queryHandle.None?
      ensures old(connected) && NothingLost() ==>
                WasSent(CloseDatabase) && world.trace[|world.trace| - 1].0 == CloseDatabase
      ensures old(connected) && NothingLost() && world.attempts == old(world.attempts) ==>
                forall c <- old(cursors) :: old(c.queryHandle).Some? ==> WasSent(CloseQuery(old(c.queryHandle).value))
    {
      hide CursorsOk, Attempted, Reply;
      if !connected { return; }
      CloseCursors();
      label Before:
      var _ := SendAndReceive(CloseDatabase, true);
      if NothingLost() {
        LossMeanwhile(old(world.trace), old@Before(world.trace), world.trace,
                      old(world.attempts), old@Before(world.attempts), world.attempts);
      }
      SafeCloseSocket();
      connected := false;
    }
  }

  class Cursor {
    const connection: Connection
    var closed: bool
    var hasDescription: bool
    var queryHandle: Option<int>
    var rows: seq<Tuple>
    var rowIndex: nat
    var totalTupleCount: int
    var statementType: int
    var rowCount: int
    var fetchSize: nat
    ghost var handleSession: nat
    ghost var result: seq<Tuple>

    constructor (connection: Connection)
      ensures this.connection == connection && !closed && !hasDescription && queryHandle.None?
      ensures rows == [] && rowIndex == 0 && totalTupleCount == 0 && statementType == 0
      ensures rowCount == -1 && fetchSize == 100 && BufferOk()
    {
      this.connection := connection;
      closed, hasDescription, queryHandle := false, false, None;
      rows, rowIndex, totalTupleCount, statementType, rowCount, fetchSize := [], 0, 0, 0, -1, 100;
      handleSession, result := 0, [];
    }

    /** The buffered rows are the first ones of the result of the statement last executed. */
    ghost predicate BufferOk()
      reads this`rows, this`rowIndex, this`result
    {
      |rows| <= |result| && rows == result[..|rows|] && rowIndex <= |rows|
    }

    /** A stored handle was issued by session number session, for this cursor's result. */
    ghost predicate HandleCurrent(session: nat, issued: map<int, seq<Tuple>>)
      reads this`queryHandle, this`handleSession, this`result
    {
      queryHandle.Some? ==>
        handleSession == session && queryHandle.value in issued && issued[queryHandle.value] == result
    }

    lemma StaysCurrent(session: nat, before: map<int, seq<Tuple>>, after: map<int, seq<Tuple>>)
      requires HandleCurrent(session, before)
      requires forall h <- before :: h in after && after[h] == before[h]
      ensures HandleCurrent(session, after)
    {
      if queryHandle.Some? {
        var h: int := queryHandle.value;
        assert h in before;
      }
    }

    method TryCloseQuery(handle: int) returns (r: Result<()>)
      requires connection.Valid()
      modifies connection`socket, connection`connected, connection`casActive, connection.world,
               connection.cursors`queryHandle
      ensures connection.Valid()
      ensures forall c <- connection.cursors :: c.queryHandle == old(c.queryHandle) || c.queryHandle.None?
      ensures connection.Asked(CloseQuery(handle), true) && connection.AlwaysLeave() && r == Unit(connection.Reply())
      ensures connection.world.attempts == old(connection.world.attempts) ==>
                forall c <- connection.cursors :: c.queryHandle == old(c.queryHandle)
    {
      hide Connection.SocketsOk, Connection.CursorsOk, Connection.HandlesOk;
      r := connection.EnsureConnected();
      if r.Exn? { return; }
      var a := connection.SendAndReceive(CloseQuery(handle), true);
      if a.Exn? { return Exn(a.error); }
    }

    method Close() returns (r: Result<()>)
      requires connection.Valid() && this in connection.made
      modifies connection`socket, connection`connected, connection`casActive, connection`cursors, connection.world,
               connection.cursors`queryHandle, this
      ensures connection.Valid() && closed && connection.AlwaysLeave()
      ensures old(closed) ==> r.Ret? && connection.cursors == old(connection.cursors) && queryHandle == old(queryHandle)
      ensures !old(closed) ==> queryHandle.None? && connection.cursors == old(connection.cursors) - {this}
      ensures connection.world.attempts == old(connection.world.attempts) ==>
                forall c <- old(connection.cursors) :: c == this || c.queryHandle == old(c.queryHandle)
      ensures if old(closed) || old(queryHandle).None?
              then r == Ret(()) && unchanged(connection.world) && connection.connected == old(connection.connected)
              else
                && connection.Asked(CloseQuery(old(queryHandle).value), true)
                && r == match connection.Reply()
                        case Ret(_) => Ret(())
                        case Exn(e) => if e == InterfaceError || e == OperationalError then Ret(()) else Exn(e)
      ensures forall c <- old(connection.cursors) :: c.queryHandle == old(c.queryHandle) || c.queryHandle.None?
    {
      hide Connection.SocketsOk, Connection.Asked, Connection.Reply;
      if closed { return Ret(()); }
      r := Ret(());
      if queryHandle.Some? {
        r := TryCloseQuery(queryHandle.value);
        if r == Exn(InterfaceError) || r == Exn(OperationalError) { r := Ret(()); }
      }
      // finally
      queryHandle := None;
      closed := true;
      connection.cursors := connection.cursors - {this};
    }

    /** Releases the handle of the previous statement. */
    method CloseQueryHandle() returns (r: Result<()>)
      requires connection.Valid() && this in connection.made && !closed
      modifies connection`socket, connection`connected, connection`casActive, connection.world,
               connection.cursors`queryHandle
      ensures connection.Valid()
      ensures r.Ret? ==> queryHandle.None?
      ensures r.Ret? && old(connection.connected) ==> connection.connected
      ensures r.Exn? && old(connection.connected) ==> connection.FailedBy(r.error)
      ensures old(connection.world.trace) <= connection.world.trace
      ensures old(connection.world.attempts) <= connection.world.attempts && connection.AlwaysLeave()
      ensures r.Ret? ==>
                var k, w := |old(connection.world.trace)|, connection.world;
                if old(queryHandle).None? then w.trace == old(w.trace) && w.attempts == old(w.attempts)
                else |w.trace| == k + 1 && w.trace[..k] == old(w.trace) && w.trace[k].0 == CloseQuery(old(queryHandle).value)
    {
      if queryHandle.Some? {
        var a := connection.SendAndReceive(CloseQuery(queryHandle.value), true);
        if a.Exn? { return Exn(a.error); }
        queryHandle := None;
      }
      return Ret(());
    }

    /** Takes over the handle and the inline rows of an executed statement. */
    method StoreResult(e: Answer)
      requires connection.Valid() && connection.connected && this in connection.made && !closed
      requires Fitting(Request.Execute, e, connection.world.issued)
      modifies this
      ensures connection.Valid() && !closed
      ensures queryHandle == Some(e.handle) && result == connection.world.issued[e.handle]
      ensures rows == e.inline && rowIndex == 0 && statementType == e.statementType
      ensures hasDescription == e.hasColumns && totalTupleCount == e.total
      ensures rowCount == if e.statementType == 21 || e.affected.None? then -1 else e.affected.value
    {
      queryHandle := Some(e.handle);
      handleSession, result := connection.world.sessions, connection.world.issued[e.handle];
      statementType, hasDescription, totalTupleCount := e.statementType, e.hasColumns, e.total;
      rows, rowIndex := e.inline, 0;
      rowCount := if statementType == SELECT || e.affected.None? then -1 else e.affected.value;
      connection.OneCursorChanged(this);
    }

    /** What asking for the last insert id may end with without failing the execute. */
    static predicate Forgiven(r: Result<Answer>) {
      r.Ret? || r.error == InterfaceError || r.error == OperationalError || r.error == ValueError
    }

    /** Asks for the last insert id; network failures and unreadable answers are forgiven. */
    method AskLastInsertId() returns (r: Result<()>)
      requires connection.Valid() && connection.connected
      modifies connection`socket, connection`connected, connection`casActive, connection.world,
               connection.cursors`queryHandle
      ensures connection.Valid()
      ensures forall c <- connection.cursors :: c.queryHandle == old(c.queryHandle) || c.queryHandle.None?
      ensures var k, w := |old(connection.world.trace)|, connection.world;
              && old(w.trace) <= w.trace && |w.trace| <= k + 1 && (|w.trace| > k ==> w.trace[k].0 == LastInsertId)
              && old(w.attempts) <= w.attempts && connection.AlwaysLeave()
              && match r
                 case Exn(e) => connection.FailedBy(e) && !Forgiven(Exn(e))
                 case Ret(_) =>
                   || (|w.trace| > k && Forgiven(Outcome(w.trace[k].1)))
                   || exists e :: |w.attempts| > |old(w.attempts)| && w.attempts[|w.attempts| - 1] == Exn(e) && Forgiven(Exn(e))
    {
      hide Connection.SocketsOk, Connection.CursorsOk, Connection.HandlesOk, Reached;
      var id := connection.SendAndReceive(LastInsertId, true);
      if id.Exn? && id.error != InterfaceError && id.error != OperationalError && id.error != ValueError {
        return Exn(id.error);
      }
      return Ret(());
    }

    /** The requests of an execute: the old handle is closed first, then the statement is sent,
        and the cursor shows its reply; an insert may be followed by the last insert id. */
    ghost predicate ExecutedAs(before: seq<(Request, Link)>, oldHandle: Option<int>)
      reads this, connection.world
    {
      var trace, k := connection.world.trace, |before| + if oldHandle.Some? then 1 else 0;
      && before <= trace && k < |trace| <= k + (if statementType == 20 then 2 else 1)
      && (oldHandle.Some? ==> trace[k - 1].0 == CloseQuery(oldHandle.value))
      && trace[k].0 == Request.Execute && trace[k].1.Answered? && trace[k].1.a.Executed?
      && var e := trace[k].1.a;
      && rows == e.inline && statementType == e.statementType && hasDescription == e.hasColumns && totalTupleCount == e.total
      && rowCount == (if e.statementType == 21 || e.affected.None? then -1 else e.affected.value)
      && (queryHandle.Some? ==> queryHandle.value == e.handle)
      && (k + 1 < |trace| ==> trace[k + 1].0 == LastInsertId)
    }

    /** The last request asked for the last insert id, and its failure, if it failed, is forgiven;
        or the reconnect for it failed. */
    twostate predicate IdAsked()
      reads connection.world
    {
      var t, n := connection.world.trace, connection.world.attempts;
      || (t != [] && t[|t| - 1].0 == LastInsertId && Forgiven(Outcome(t[|t| - 1].1)))
      || exists e :: |n| > |old(connection.world.attempts)| && n[|n| - 1] == Exn(e) && Forgiven(Exn(e))
    }

    /** Sends the statement and takes its reply over. */
    method RunStatement() returns (r: Result<()>)
      requires connection.Valid() && connection.connected && this in connection.made && !closed && queryHandle.None?
      modifies connection`socket, connection`connected, connection`casActive, connection.world,
               connection.cursors`queryHandle, this
      ensures connection.Valid() && !closed
      ensures old(connection.world.trace) <= connection.world.trace
      ensures old(connection.world.attempts) <= connection.world.attempts && connection.AlwaysLeave()
      ensures r.Exn? ==> connection.FailedBy(r.error)
      ensures r.Ret? ==> rowIndex == 0 && ExecutedAs(old(connection.world.trace), None)
      ensures r.Ret? ==> if statementType == 20 then IdAsked() else connection.connected && queryHandle.Some?
      ensures r.Exn? ==>
                (rows == old(rows) && rowIndex == old(rowIndex) && rowCount == old(rowCount))
                || (statementType == 20 && rowIndex == 0 && ExecutedAs(old(connection.world.trace), None))
    {
      hide Connection.SocketsOk, Connection.CursorsOk, Connection.HandlesOk, Connection.Asked, Connection.Reply;
      var executed := connection.SendAndReceive(Request.Execute, true);
      if executed.Exn? { return Exn(executed.error); }
      StoreResult(executed.value);
      r := Ret(());
      if statementType == INSERT {
        r := AskLastInsertId();
      }
    }

    /** After success the buffer holds the first rows of the executed statement's result; its
        handle is stored, unless asking for the last insert id lost the session. A failure
        before the reply leaves buffer and position as they were. Only a failed exchange or
        attempt to connect, or parameters that cannot be bound, make it fail. After an insert
        (type 20) the last insert id is asked for. */
    method Execute(bindable: bool) returns (r: Result<()>)
      requires connection.Valid() && this in connection.made
      modifies connection`socket, connection`connected, connection`casActive, connection.world,
               connection.cursors`queryHandle, this
      ensures connection.Valid() && closed == old(closed) && connection.AlwaysLeave()
      ensures old(closed) || !old(connection.connected) ==> r == Exn(InterfaceError) && unchanged(this)
      ensures !old(closed) && old(connection.connected) && r.Exn? ==>
                connection.FailedBy(r.error) || (!bindable && r == Exn(DatabaseError))
      ensures r.Ret? ==> bindable && rowIndex == 0 && ExecutedAs(old(connection.world.trace), old(queryHandle))
      ensures r.Ret? ==> if statementType == 20 then IdAsked() else connection.connected && queryHandle.Some?
      ensures r.Exn? ==>
                (rows == old(rows) && rowIndex == old(rowIndex) && rowCount == old(rowCount))
                || (statementType == 20 && rowIndex == 0 && ExecutedAs(old(connection.world.trace), old(queryHandle)))
    {
      hide Connection.SocketsOk, Connection.CursorsOk, Connection.HandlesOk, Connection.Asked, Connection.Reply;
      if closed { return Exn(InterfaceError); }
      r := connection.EnsureConnected();
      if r.Exn? { return; }
      r := CloseQueryHandle();
      if r.Exn? { return; }
      // Binding the parameters may raise.
      if !bindable { return Exn(DatabaseError); }
      r := RunStatement();
    }

    method ExecuteManyBatch() returns (r: Result<()>)
      requires connection.Valid() && this in connection.made
      modifies connection`socket, connection`connected, connection`casActive, connection.world,
               connection.cursors`queryHandle, this
      ensures connection.Valid() && closed == old(closed)
      ensures if closed then r == Exn(InterfaceError) && unchanged(connection.world)
              else connection.Asked(Batch, true) && r == Unit(connection.Reply())
      ensures r.Ret? ==> queryHandle.None? && rows == [] && rowIndex == 0 && !hasDescription
      ensures r.Ret? ==>
                connection.world.trace
                == old(connection.world.trace) + [(Batch, Answered(Counted(rowCount), connection.casActive))]
      ensures r.Exn? ==> rows == old(rows) && rowIndex == old(rowIndex) && rowCount == old(rowCount)
    {
      hide Connection.SocketsOk, Connection.CursorsOk, Connection.HandlesOk, Reached;
      if closed { return Exn(InterfaceError); }
      r := connection.EnsureConnected();
      if r.Exn? { return; }
      var a := connection.SendAndReceive(Batch, true);
      if a.Exn? { return Exn(a.error); }
      label Replied:
      hasDescription, rows, rowIndex, queryHandle := false, [], 0, None;
      rowCount := a.value.total;
      connection.OneCursorChanged@Replied(this);
    }

    /** No more rows came: none can be asked for, or the last request asked for the ones from here
        on and the answer was empty. */
    twostate predicate NoneCame()
      reads this, connection.world
    {
      var t := connection.world.trace;
      || queryHandle.None? || rowIndex >= totalTupleCount
      || (|t| > |old(connection.world.trace)| && t[|t| - 1].0.Fetch? && t[|t| - 1].0.start == rowIndex + 1
          && t[|t| - 1].1.Answered? && t[|t| - 1].1.a == Fetched([]))
    }

    /** The fetch request is built before a reconnect can happen, so it may carry a handle of
        the previous session; then the new session does not know it and no row arrives. */
    method FetchMoreRows() returns (r: Result<bool>)
      requires connection.Valid() && this in connection.made && !closed && rowIndex == |rows|
      modifies connection`socket, connection`connected, connection`casActive, connection.world,
               connection.cursors`queryHandle, this`rows
      ensures connection.Valid() && BufferOk()
      ensures old(rows) <= rows && (rows == old(rows) || r == Ret(true))
      ensures old(connection.world.trace) <= connection.world.trace
      ensures old(connection.world.attempts) <= connection.world.attempts
      ensures if r.Exn? then connection.Blamed(r.error) else connection.connected == old(connection.connected)
      ensures r == Ret(false) ==> NoneCame()
      ensures r == Ret(true) ==> |rows| > |old(rows)| && connection.world.sessions == old(connection.world.sessions)
      ensures var w, more := connection.world, old(queryHandle).Some? && rowIndex < totalTupleCount;
              && (!more ==> r == Ret(false) && unchanged(w))
              && (more ==> connection.Asked(Request.Fetch(old(queryHandle).value, rowIndex + 1, fetchSize), true))
              && (more && connection.Reply().Exn? ==> r == Exn(connection.Reply().error))
              && (more && connection.Reply().Ret? ==> r.Ret?)
              && (more && r.Ret? ==>
                    w.trace == old(w.trace) + [(Request.Fetch(old(queryHandle).value, rowIndex + 1, fetchSize),
                                                Answered(Fetched(rows[|old(rows)|..]), connection.casActive))])
    {
      hide Connection.SocketsOk;
      if queryHandle.None? || rowIndex >= totalTupleCount { return Ret(false); }
      var a := connection.SendAndReceive(Request.Fetch(queryHandle.value, rowIndex + 1, fetchSize), true);
      if a.Exn? { return Exn(a.error); }
      if a.value.rows == [] { return Ret(false); }
      rows := rows + a.value.rows;
      return Ret(true);
    }

    /** A row handed over is the next one of this cursor's own result. */
    method FetchOne() returns (r: Result<Option<Tuple>>)
      requires connection.Valid() && this in connection.made
      modifies connection`socket, connection`connected, connection`casActive, connection.world,
               connection.cursors`queryHandle, this`rows, this`rowIndex
      ensures connection.Valid()
      ensures r.Ret? && r.value.Some? ==>
        rowIndex == old(rowIndex) + 1 && rowIndex <= |result| && r.value.value == result[old(rowIndex)]
      ensures !(r.Ret? && r.value.Some?) ==> rowIndex == old(rowIndex)
      ensures closed || !hasDescription ==> r == Exn(InterfaceError) && unchanged(connection.world)
      ensures !closed && hasDescription && r.Exn? ==> connection.Blamed(r.error)
      ensures r == Ret(None) ==> NoneCame()
      ensures !closed && hasDescription && old(rowIndex < |rows|) ==> r.Ret? && r.value.Some? && unchanged(connection.world)
      ensures !closed && hasDescription && old(rowIndex == |rows| && (queryHandle.None? || rowIndex >= totalTupleCount)) ==>
                r == Ret(None) && unchanged(connection.world)
    {
      if closed || !hasDescription { return Exn(InterfaceError); }
      if rowIndex >= |rows| {
        var more := FetchMoreRows();
        if more.Exn? { return Exn(more.error); }
        if !more.value { return Ret(None); }
      }
      r := Ret(Some(rows[rowIndex]));
      rowIndex := rowIndex + 1;
    }

    lemma InOrder()
      requires connection.Valid() && this in connection.made
      ensures BufferOk()
    {
    }

    /** The rows of the buffer continue what was taken of the result. */
    lemma NextRows(from: nat, index: nat, end: nat)
      requires BufferOk() && from <= index <= end <= |rows|
      ensures result[from..index] + rows[index..end] == result[from..end]
    {
      assert rows[index..end] == result[index..end];
    }

    method MoveTo(index: nat)
      requires connection.Valid() && this in connection.made && index <= |rows|
      modifies this`rowIndex
      ensures connection.Valid() && BufferOk() && rowIndex == index
    {
      hide Connection.SocketsOk;
      rowIndex := index;
    }

    /** Rows handed over are the next ones of this cursor's own result, across reconnects, as
        many as asked for unless no more came. What is buffered is handed over without a request. */
    method FetchMany(size: int) returns (r: Result<seq<Tuple>>)
      requires connection.Valid() && this in connection.made
      modifies connection`socket, connection`connected, connection`casActive, connection.world,
               connection.cursors`queryHandle, this`rows, this`rowIndex
      ensures connection.Valid() && old(rowIndex) <= rowIndex && old(rows) <= rows
      ensures closed || !hasDescription ==> r == Exn(InterfaceError) && unchanged(this) && unchanged(connection.world)
      ensures r.Ret? ==> rowIndex <= |result| && r.value == result[old(rowIndex)..rowIndex]
      ensures r.Ret? ==> |r.value| <= (if size < 0 then 0 else size) && (|r.value| < size ==> rowIndex == |rows| && NoneCame())
      ensures r.Exn? && !closed && hasDescription ==> rowIndex == |rows| && connection.Blamed(r.error)
      ensures !closed && hasDescription && size <= old(|rows| - rowIndex) ==> r.Ret? && unchanged(connection.world)
    {
      hide Connection.SocketsOk, Connection.CursorsOk, Connection.HandlesOk;
      if closed || !hasDescription { return Exn(InterfaceError); }
      InOrder();
      var taken: seq<Tuple> := [];
      var remaining := size;
      while remaining > 0
        invariant connection.Valid() && BufferOk() && old(rowIndex) <= rowIndex && old(rows) <= rows
        invariant taken == result[old(rowIndex)..rowIndex] && (remaining < 0 ==> taken == [])
        invariant remaining + |taken| == size
        invariant size <= old(|rows| - rowIndex) ==> rows == old(rows) && unchanged(connection.world)
        invariant connection.connected == old(connection.connected) && old(connection.world.trace) <= connection.world.trace
        invariant old(connection.world.attempts) <= connection.world.attempts
      {
        if rowIndex == |rows| {
          var more := FetchMoreRows();
          if more.Exn? { return Exn(more.error); }
          if !more.value { break; }
        }
        var available := |rows| - rowIndex;
        var take := if available <= remaining then available else remaining;
        var end := rowIndex + take;
        NextRows(old(rowIndex), rowIndex, end);
        taken := taken + rows[rowIndex..end];
        MoveTo(end);
        remaining := remaining - take;
      }
      return Ret(taken);
    }

    /** Rows handed over are all the next ones of this cursor's own result up to the end of the
        buffer, across reconnects. */
    method FetchAll() returns (r: Result<seq<Tuple>>)
      requires connection.Valid() && this in connection.made
      modifies connection`socket, connection`connected, connection`casActive, connection.world,
               connection.cursors`queryHandle, this`rows, this`rowIndex
      ensures connection.Valid() && old(rowIndex) <= rowIndex && old(rows) <= rows
      ensures closed || !hasDescription ==> r == Exn(InterfaceError) && unchanged(this) && unchanged(connection.world)
      ensures r.Ret? ==> rowIndex <= |result| && r.value == result[old(rowIndex)..rowIndex]
      ensures !closed && hasDescription ==> rowIndex == |rows|
      ensures !closed && hasDescription && r.Exn? ==> connection.Blamed(r.error)
      ensures r.Ret? ==> NoneCame()
    {
      hide Connection.SocketsOk, Connection.CursorsOk, Connection.HandlesOk;
      if closed || !hasDescription { return Exn(InterfaceError); }
      InOrder();
      var taken: seq<Tuple> := [];
      while true
        invariant connection.Valid() && BufferOk() && old(rowIndex) <= rowIndex && old(rows) <= rows
        invariant taken == result[old(rowIndex)..rowIndex]
        invariant connection.connected == old(connection.connected) && old(connection.world.trace) <= connection.world.trace
        invariant old(connection.world.attempts) <= connection.world.attempts
        decreases totalTupleCount - |rows|
      {
        if |rows| - rowIndex > 0 {
          NextRows(old(rowIndex), rowIndex, |rows|);
          assert rows[rowIndex..] == rows[rowIndex..|rows|];
          taken := taken + rows[rowIndex..];
          MoveTo(|rows|);
        }
        var more := FetchMoreRows();
        if more.Exn? { return Exn(more.error); }
        if !more.value { return Ret(taken); }
      }
    }
  }

  /** A connection that broke is left as it is by close: its cursors stay tracked. Here a request
      goes out, the operating system fails it, and close has nothing to do. */
  method BrokenStaysTracked(connection: Connection)
    requires connection.Valid() && connection.connected && connection.cursors != {}
    modifies connection`socket, connection`connected, connection`casActive, connection`cursors,
             connection.world, connection.cursors
    ensures |connection.world.trace| > |old(connection.world.trace)|
    ensures connection.world.trace[|old(connection.world.trace)|].1.OsFailure? ==>
              !connection.connected && connection.cursors == old(connection.cursors) != {}
              && forall c <- connection.cursors :: !c.closed
  {
    var _ := connection.Transmit(CheckCas);
    if !connection.connected {
      assert connection.CursorsOk();
      connection.Close();
    }
  }

  /** Over every run of these operations on a new connection, with a failure possible at every
      socket call, every buffer, handle and socket stays as Valid says. Reconnecting happens
      through ping and before requests only. */
  method AnyRun(steps: nat, useSsl: bool) returns (connection: Connection)
    ensures fresh(connection) && connection.Valid()
  {
    var world := new World();
    connection := new Connection(world, useSsl);
    var _ := connection.Connect();
    var handed: seq<Cursor> := [];
    for i := 0 to steps
      invariant connection.Valid() && fresh(connection) && fresh(connection.world) && fresh(connection.made)
      invariant forall c <- handed :: c in connection.made
    {
      if * {
        var _ := connection.EndTran();
      } else if * {
        var value: bool := *;
        var _ := connection.SetAutocommit(value);
      } else if * {
        var reconnect: bool := *;
        var _ := connection.Ping(reconnect);
      } else if * {
        connection.Close();
      } else if * {
        var made := connection.NewCursor();
        if made.Ret? { handed := handed + [made.value]; }
      } else if handed != [] {
        var k :| 0 <= k < |handed|;
        AnyCursorStep(connection, handed[k]);
      }
    }
  }

  /** Any operation of a cursor the connection once made, be it closed or not. */
  method AnyCursorStep(connection: Connection, c: Cursor)
    requires connection.Valid() && c in connection.made
    modifies connection`socket, connection`connected, connection`casActive, connection`cursors,
             connection.world, connection.made
    ensures connection.Valid()
  {
    hide Connection.SocketsOk, Connection.HandlesOk;
    if * {
      var bindable: bool := *;
      var _ := c.Execute(bindable);
    } else if * {
      var _ := c.ExecuteManyBatch();
    } else if * {
      var _ := c.FetchOne();
    } else if * {
      var size: int := *;
      var _ := c.FetchMany(size);
    } else if * {
      var _ := c.FetchAll();
    } else {
      var _ := c.Close();
    }
  }
}
