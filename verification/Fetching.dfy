/** The result buffer of a cursor (pycubrid/cursor.py): fetchone, fetchmany and fetchall over
    rows that arrive in batches. What the server does is a script of answers, so every claim
    holds for every batching and every point of failure. */
module Fetching {
  import opened Values

  type Tuple = seq<Value>

  /** The server's answer to one fetch request: some number of rows, or a failure of the
      request, which may also cost the cursor its query handle. */
  datatype Answer = Chunk(n: nat) | Failure(handleLost: bool)

  /** What a cursor holds: the rows received so far, how many of them are consumed, the
      announced total, and whether it has a query handle. */
  datatype Buffer = Buffer(rows: seq<Tuple>, index: nat, total: int, live: bool)

  /** The server sends up to n rows, at most fetchSize, from the position that was asked for;
      with n zero it sends none although there may be more. */
  function ServerRows(result: seq<Tuple>, start: nat, fetchSize: nat, n: nat): (rs: seq<Tuple>)
    requires start <= |result|
    ensures start + |rs| <= |result| && rs == result[start..start + |rs|]
    ensures |rs| <= fetchSize && (start < |result| && fetchSize > 0 && n > 0 ==> rs != [])
  {
    var capped := if n <= fetchSize then n else fetchSize;
    var k := if capped <= |result| - start then capped else |result| - start;
    result[start..start + k]
  }

  /** The buffer holds a prefix of the result, and knows its size. */
  predicate Faithful(result: seq<Tuple>, b: Buffer) {
    && |b.rows| <= |result| && b.rows == result[..|b.rows|]
    && b.index <= |b.rows| && b.total == |result|
  }

  /** No answer of the script is empty: each brings rows as long as there are any, or fails. */
  predicate Generous(script: seq<Answer>) {
    forall i :: 0 <= i < |script| ==> script[i] != Chunk(0)
  }

  // ---- What the calls do ---------------------------------------------------------------

  datatype More = Added | NoMore | Raised

  /** _fetch_more_rows, which its callers call at the end of the buffer only. A request past the
      end of the script fails. */
  function FetchMore(result: seq<Tuple>, fetchSize: nat, b: Buffer, script: seq<Answer>): (r: (More, Buffer, seq<Answer>))
    requires b.index == |b.rows| && (b.index < b.total ==> b.index <= |result|)
    ensures |r.2| <= |script| && (r.0.Added? ==> |r.2| < |script|) && (Generous(script) ==> Generous(r.2))
    ensures r.1.index == b.index && (r.0.Added? ==> |r.1.rows| > |b.rows|)
    ensures Faithful(result, b) ==> Faithful(result, r.1)
  {
    if !b.live || b.index >= b.total then (NoMore, b, script)
    else if script == [] then (Raised, b, script)
    else
      match script[0]
      case Failure(lost) => (Raised, b.(live := !lost), script[1..])
      case Chunk(n) =>
        var rs := ServerRows(result, b.index, fetchSize, n);
        if rs == [] then (NoMore, b, script[1..]) else (Added, b.(rows := b.rows + rs), script[1..])
  }

  /** What a call hands to its caller; fetchone's None is no row. */
  datatype Handed = Rows(rows: seq<Tuple>) | Failed

  function FetchOne(result: seq<Tuple>, fetchSize: nat, b: Buffer, script: seq<Answer>): (Handed, Buffer, seq<Answer>)
    requires Faithful(result, b)
  {
    var (m, b', rest) := if b.index >= |b.rows| then FetchMore(result, fetchSize, b, script) else (Added, b, script);
    match m
    case Raised => (Failed, b', rest)
    case NoMore => (Rows([]), b', rest)
    case Added => (Rows([b'.rows[b'.index]]), b'.(index := b'.index + 1), rest)
  }

  /** The fetchmany loop, with the rows it has taken so far. */
  function FetchMany(result: seq<Tuple>, fetchSize: nat, b: Buffer, script: seq<Answer>, taken: seq<Tuple>, remaining: int)
      : (Handed, Buffer, seq<Answer>)
    requires Faithful(result, b)
    decreases remaining, 1
  {
    if remaining <= 0 then (Rows(taken), b, script)
    else if |b.rows| - b.index <= 0 then
      var (m, b', rest) := FetchMore(result, fetchSize, b, script);
      match m
      case Raised => (Failed, b', rest)
      case NoMore => (Rows(taken), b', rest)
      case Added => FetchTake(result, fetchSize, b', rest, taken, remaining)
    else FetchTake(result, fetchSize, b, script, taken, remaining)
  }

  /** The rest of one round of that loop: take what is there. */
  function FetchTake(result: seq<Tuple>, fetchSize: nat, b: Buffer, script: seq<Answer>, taken: seq<Tuple>, remaining: int)
      : (Handed, Buffer, seq<Answer>)
    requires Faithful(result, b) && b.index < |b.rows| && remaining > 0
    decreases remaining, 0
  {
    var available := |b.rows| - b.index;
    var take := if available <= remaining then available else remaining;
    FetchMany(result, fetchSize, b.(index := b.index + take), script,
              taken + b.rows[b.index..b.index + take], remaining - take)
  }

  /** The fetchall loop. */
  function FetchAll(result: seq<Tuple>, fetchSize: nat, b: Buffer, script: seq<Answer>, taken: seq<Tuple>)
      : (Handed, Buffer, seq<Answer>)
    requires Faithful(result, b)
    decreases |script|
  {
    var all := b.(index := |b.rows|);
    var taken' := taken + b.rows[b.index..];
    var (m, b', rest) := FetchMore(result, fetchSize, all, script);
    match m
    case Raised => (Failed, b', rest)
    case NoMore => (Rows(taken'), b', rest)
    case Added => FetchAll(result, fetchSize, b', rest, taken')
  }

  datatype Call = One | Many(size: int) | All

  function Do(result: seq<Tuple>, fetchSize: nat, b: Buffer, script: seq<Answer>, c: Call): (Handed, Buffer, seq<Answer>)
    requires Faithful(result, b)
  {
    match c
    case One => FetchOne(result, fetchSize, b, script)
    case Many(size) => FetchMany(result, fetchSize, b, script, [], size)
    case All => FetchAll(result, fetchSize, b, script, [])
  }

  // ---- Faithfulness of each call -----------------------------------------------------------

  /** More rows only ever extend the prefix, and never touch what is consumed. */
  lemma FetchMoreFaithful(result: seq<Tuple>, fetchSize: nat, b: Buffer, script: seq<Answer>)
    requires Faithful(result, b) && b.index == |b.rows|
    ensures var (m, b', _) := FetchMore(result, fetchSize, b, script);
            && Faithful(result, b') && b'.index == b.index
            && (m.Added? ==> b'.index < |b'.rows| && b'.live)
            && (m.NoMore? ==> b' == b && (fetchSize > 0 && Generous(script) && b.live ==> b.index == |result|))
            && (m.Raised? ==> b'.rows == b.rows)
  {
  }

  /** The rows taken by a call that returns are exactly the next ones of the result. */
  ghost predicate Advances(result: seq<Tuple>, from: nat, before: seq<Tuple>, h: Handed, b: Buffer) {
    && Faithful(result, b) && from <= b.index
    && (h.Rows? ==> h.rows == before + result[from..b.index])
  }

  lemma {:induction false} FetchManyFaithful(result: seq<Tuple>, fetchSize: nat, b: Buffer,
                                        script: seq<Answer>, taken: seq<Tuple>, remaining: int)
    requires Faithful(result, b)
    ensures var (h, b', _) := FetchMany(result, fetchSize, b, script, taken, remaining);
            && Advances(result, b.index, taken, h, b')
            && (h.Rows? ==> |h.rows| <= |taken| + if remaining < 0 then 0 else remaining)
            && (h.Rows? && fetchSize > 0 && Generous(script) && b'.live && |h.rows| < |taken| + remaining ==> b'.index == |result|)
    decreases remaining, 1
  {
    if remaining <= 0 {
      assert taken + result[b.index..b.index] == taken;
    } else if |b.rows| - b.index <= 0 {
      FetchMoreFaithful(result, fetchSize, b, script);
      var (m, b', rest) := FetchMore(result, fetchSize, b, script);
      assert taken + result[b.index..b.index] == taken;
      if m.Added? { FetchTakeFaithful(result, fetchSize, b', rest, taken, remaining); }
    } else {
      FetchTakeFaithful(result, fetchSize, b, script, taken, remaining);
    }
  }

  lemma {:induction false} FetchTakeFaithful(result: seq<Tuple>, fetchSize: nat, b: Buffer,
                                        script: seq<Answer>, taken: seq<Tuple>, remaining: int)
    requires Faithful(result, b) && b.index < |b.rows| && remaining > 0
    ensures var (h, b', _) := FetchTake(result, fetchSize, b, script, taken, remaining);
            && Advances(result, b.index, taken, h, b')
            && (h.Rows? ==> |h.rows| <= |taken| + remaining)
            && (h.Rows? && fetchSize > 0 && Generous(script) && b'.live && |h.rows| < |taken| + remaining ==> b'.index == |result|)
    decreases remaining, 0
  {
    hide FetchMany;
    var available := |b.rows| - b.index;
    var take := if available <= remaining then available else remaining;
    var next := b.(index := b.index + take);
    var taken' := taken + b.rows[b.index..b.index + take];
    FetchManyFaithful(result, fetchSize, next, script, taken', remaining - take);
    var (h, b', _) := FetchMany(result, fetchSize, next, script, taken', remaining - take);
    if h.Rows? { JoinSlices(result, b.rows, taken, b.index, next.index, b'.index); }
  }

  lemma JoinSlices(result: seq<Tuple>, rows: seq<Tuple>, taken: seq<Tuple>, i: nat, j: nat, k: nat)
    requires i <= j <= k <= |result| && j <= |rows| <= |result| && rows == result[..|rows|]
    ensures taken + rows[i..j] + result[j..k] == taken + result[i..k]
  {
    assert rows[i..j] == result[i..j];
    assert result[i..j] + result[j..k] == result[i..k];
  }

  lemma {:induction false} FetchAllFaithful(result: seq<Tuple>, fetchSize: nat, b: Buffer, script: seq<Answer>,
                                        taken: seq<Tuple>)
    requires Faithful(result, b)
    ensures var (h, b', _) := FetchAll(result, fetchSize, b, script, taken);
            && Advances(result, b.index, taken, h, b') && b'.index == |b'.rows|
            && (h.Rows? && fetchSize > 0 && Generous(script) && b'.live ==> b'.index == |result|)
    decreases |script|
  {
    var all := b.(index := |b.rows|);
    var taken' := taken + b.rows[b.index..];
    FetchMoreFaithful(result, fetchSize, all, script);
    var (m, b1, rest) := FetchMore(result, fetchSize, all, script);
    assert b.rows[b.index..] == b.rows[b.index..|b.rows|];
    if m.Added? {
      FetchAllFaithful(result, fetchSize, b1, rest, taken');
      var (h, b', _) := FetchAll(result, fetchSize, b1, rest, taken');
      if h.Rows? { JoinSlices(result, b.rows, taken, b.index, all.index, b'.index); }
    } else {
      JoinSlices(result, b.rows, taken, b.index, all.index, all.index);
      assert taken' + result[all.index..all.index] == taken';
    }
  }

  /** Any call that returns hands over exactly the next rows of the result. If the server sends
      no empty answer and the handle stays live, fetchall hands over all the rest and a short
      fetchmany means the end. */
  lemma CallFaithful(result: seq<Tuple>, fetchSize: nat, b: Buffer, script: seq<Answer>, c: Call)
    requires Faithful(result, b)
    ensures var (h, b', _) := Do(result, fetchSize, b, script, c);
            && Faithful(result, b') && b.index <= b'.index
            && (h.Rows? ==> h.rows == result[b.index..b'.index])
            && (h.Rows? && fetchSize > 0 && Generous(script) && b'.live ==>
                  match c
                  case One => h.rows != [] || b'.index == |result|
                  case Many(size) => |h.rows| == size || size < 0 || b'.index == |result|
                  case All => b'.index == |result|)
  {
    match c {
      case One =>
        if b.index >= |b.rows| { FetchMoreFaithful(result, fetchSize, b, script); }
        assert result[b.index..b.index] == [];
      case Many(size) =>
        FetchManyFaithful(result, fetchSize, b, script, [], size);
        var (h, b', _) := Do(result, fetchSize, b, script, c);
        assert [] + result[b.index..b'.index] == result[b.index..b'.index];
      case All =>
        FetchAllFaithful(result, fetchSize, b, script, []);
        var (h, b', _) := Do(result, fetchSize, b, script, c);
        assert [] + result[b.index..b'.index] == result[b.index..b'.index];
    }
  }

  // ---- Runs --------------------------------------------------------------------------------

  /** A run of calls; it stops at the first failure. The result is all rows handed over, and
      whether every call returned. */
  function Run(result: seq<Tuple>, fetchSize: nat, b: Buffer, script: seq<Answer>, calls: seq<Call>): (seq<Tuple>, Buffer, bool)
    requires Faithful(result, b)
    decreases |calls|
  {
    if calls == [] then ([], b, true)
    else
      CallFaithful(result, fetchSize, b, script, calls[0]);
      var (h, b', rest) := Do(result, fetchSize, b, script, calls[0]);
      match h
      case Failed => ([], b', false)
      case Rows(rs) =>
        var (more, b'', ok) := Run(result, fetchSize, b', rest, calls[1..]);
        (rs + more, b'', ok)
  }

  lemma {:induction false} RunFrom(result: seq<Tuple>, fetchSize: nat, b: Buffer, script: seq<Answer>, calls: seq<Call>)
    requires Faithful(result, b)
    ensures var (rs, b', ok) := Run(result, fetchSize, b, script, calls);
            && Faithful(result, b') && b.index + |rs| <= b'.index && rs == result[b.index..b.index + |rs|]
            && (ok ==> b'.index == b.index + |rs|)
    decreases |calls|
  {
    hide Do;
    if calls != [] {
      CallFaithful(result, fetchSize, b, script, calls[0]);
      var (h, b1, rest) := Do(result, fetchSize, b, script, calls[0]);
      if h.Rows? {
        RunFrom(result, fetchSize, b1, rest, calls[1..]);
        var (more, _, _) := Run(result, fetchSize, b1, rest, calls[1..]);
        assert result[b.index..b1.index] + result[b1.index..b1.index + |more|] == result[b.index..b1.index + |more|];
      }
    }
  }

  /** The rows of a fresh result: an inline batch that came with the execute reply. */
  function Fresh(result: seq<Tuple>, inline: nat): Buffer
    requires inline <= |result|
  {
    Buffer(result[..inline], 0, |result|, true)
  }

  /** Fetching is faithful: whatever the inline batch, the fetch size, the mix of calls and the
      server's batching, empty answers included, the rows handed over are a prefix of the result, none skipped and none
      repeated, up to the first call that fails. */
  lemma FetchingIsFaithful(result: seq<Tuple>, inline: nat, fetchSize: nat, script: seq<Answer>, calls: seq<Call>)
    requires inline <= |result|
    ensures var (rs, b, ok) := Run(result, fetchSize, Fresh(result, inline), script, calls);
            && |rs| <= |result| && rs == result[..|rs|]
            && (ok ==> b.index == |rs|)
  {
    RunFrom(result, fetchSize, Fresh(result, inline), script, calls);
  }

  /** The server answers every request, with rows as long as there are any. */
  predicate AllChunks(script: seq<Answer>) {
    forall i :: 0 <= i < |script| ==> script[i].Chunk? && script[i].n > 0
  }

  /** With a live handle and a server that answers, fetchall ends and returns all the rest. */
  lemma {:induction false} FetchAllCompletes(result: seq<Tuple>, fetchSize: nat, b: Buffer,
                                        script: seq<Answer>, taken: seq<Tuple>)
    requires Faithful(result, b) && b.live && fetchSize > 0
    requires AllChunks(script) && |script| >= |result| - |b.rows|
    ensures var (h, b', _) := FetchAll(result, fetchSize, b, script, taken);
            h == Rows(taken + result[b.index..]) && b'.index == |result| && b'.live
    decreases |script|
  {
    var all := b.(index := |b.rows|);
    var taken' := taken + b.rows[b.index..];
    FetchMoreFaithful(result, fetchSize, all, script);
    var (m, b1, rest) := FetchMore(result, fetchSize, all, script);
    assert b.rows[b.index..] == b.rows[b.index..|b.rows|] && result[b.index..] == result[b.index..|result|];
    if m.Added? {
      FetchAllCompletes(result, fetchSize, b1, rest, taken');
      JoinSlices(result, b.rows, taken, b.index, all.index, |result|);
      assert result[all.index..] == result[all.index..|result|];
    } else {
      JoinSlices(result, b.rows, taken, b.index, |result|, |result|);
      assert taken' + result[|result|..|result|] == taken';
    }
  }

  /** Enough answers are left for the rows that are missing. */
  predicate Supplied(result: seq<Tuple>, b: Buffer, script: seq<Answer>) {
    AllChunks(script) && |script| >= |result| - |b.rows|
  }

  lemma {:induction false} FetchMoreAnswered(result: seq<Tuple>, fetchSize: nat, b: Buffer, script: seq<Answer>)
    requires Faithful(result, b) && b.index == |b.rows| && fetchSize > 0 && Supplied(result, b, script)
    ensures var (m, b', rest) := FetchMore(result, fetchSize, b, script); !m.Raised? && Supplied(result, b', rest)
  {
  }

  lemma {:induction false} FetchManyAnswered(result: seq<Tuple>, fetchSize: nat, b: Buffer, script: seq<Answer>,
                                             taken: seq<Tuple>, remaining: int)
    requires Faithful(result, b) && fetchSize > 0 && Supplied(result, b, script)
    ensures var (h, b', rest) := FetchMany(result, fetchSize, b, script, taken, remaining);
            h.Rows? && Supplied(result, b', rest)
    decreases remaining
  {
    hide FetchMore, AllChunks;
    if remaining > 0 {
      var empty := |b.rows| - b.index <= 0;
      if empty { FetchMoreAnswered(result, fetchSize, b, script); }
      var (m, b1, rest) := if empty then FetchMore(result, fetchSize, b, script) else (Added, b, script);
      if m.Added? {
        var available := |b1.rows| - b1.index;
        var take := if available <= remaining then available else remaining;
        FetchManyAnswered(result, fetchSize, b1.(index := b1.index + take), rest,
                          taken + b1.rows[b1.index..b1.index + take], remaining - take);
      }
    }
  }

  lemma {:induction false} FetchAllAnswered(result: seq<Tuple>, fetchSize: nat, b: Buffer, script: seq<Answer>,
                                            taken: seq<Tuple>)
    requires Faithful(result, b) && fetchSize > 0 && Supplied(result, b, script)
    ensures var (h, b', rest) := FetchAll(result, fetchSize, b, script, taken); h.Rows? && Supplied(result, b', rest)
    decreases |script|
  {
    hide FetchMore;
    var all := b.(index := |b.rows|);
    FetchMoreAnswered(result, fetchSize, all, script);
    var (m, b1, rest) := FetchMore(result, fetchSize, all, script);
    if m.Added? { FetchAllAnswered(result, fetchSize, b1, rest, taken + b.rows[b.index..]); }
  }

  /** With a server that answers every request, every call of every run returns. */
  lemma {:induction false} AnsweredRunsReturn(result: seq<Tuple>, fetchSize: nat, b: Buffer, script: seq<Answer>, calls: seq<Call>)
    requires Faithful(result, b) && fetchSize > 0 && Supplied(result, b, script)
    ensures Run(result, fetchSize, b, script, calls).2
    decreases |calls|
  {
    if calls != [] {
      CallFaithful(result, fetchSize, b, script, calls[0]);
      match calls[0] {
        case One => if b.index >= |b.rows| { FetchMoreAnswered(result, fetchSize, b, script); }
        case Many(size) => FetchManyAnswered(result, fetchSize, b, script, [], size);
        case All => FetchAllAnswered(result, fetchSize, b, script, []);
      }
      var (h, b1, rest) := Do(result, fetchSize, b, script, calls[0]);
      assert h.Rows? && Supplied(result, b1, rest);
      hide Do, Supplied;
      AnsweredRunsReturn(result, fetchSize, b1, rest, calls[1..]);
    }
  }

  // ---- What a failing call costs ----------------------------------------------------------------

  /** A fetchmany or fetchall that fails drops the rows it had already taken: the position has
      moved over rows nobody received, unless nothing was buffered and the very first request
      failed. fetchone never moves when it fails. */
  lemma FailureAfterTaking(result: seq<Tuple>, fetchSize: nat, b: Buffer, script: seq<Answer>, c: Call)
    requires Faithful(result, b)
    requires Do(result, fetchSize, b, script, c).0.Failed?
    ensures Do(result, fetchSize, b, script, c).1.index == b.index <==>
            c.One? || (b.index == |b.rows| && (script == [] || script[0].Failure?))
  {
    match c {
      case One =>
      case Many(size) => FetchManyFailure(result, fetchSize, b, script, [], size);
      case All => FetchAllFailure(result, fetchSize, b, script, []);
    }
  }

  lemma {:induction false} FetchAllGrows(result: seq<Tuple>, fetchSize: nat, b: Buffer, script: seq<Answer>,
                                        taken: seq<Tuple>)
    requires Faithful(result, b)
    ensures FetchAll(result, fetchSize, b, script, taken).1.index >= |b.rows|
    decreases |script|
  {
    var all := b.(index := |b.rows|);
    var (m, b', rest) := FetchMore(result, fetchSize, all, script);
    if m.Added? { FetchAllGrows(result, fetchSize, b', rest, taken + b.rows[b.index..]); }
  }

  lemma {:induction false} FetchAllFailure(result: seq<Tuple>, fetchSize: nat, b: Buffer, script: seq<Answer>,
                                        taken: seq<Tuple>)
    requires Faithful(result, b) && FetchAll(result, fetchSize, b, script, taken).0.Failed?
    ensures FetchAll(result, fetchSize, b, script, taken).1.index == b.index <==>
            b.index == |b.rows| && (script == [] || script[0].Failure?)
  {
    FetchAllGrows(result, fetchSize, b, script, taken);
    var all := b.(index := |b.rows|);
    var (m, b', rest) := FetchMore(result, fetchSize, all, script);
    if m.Added? { FetchAllGrows(result, fetchSize, b', rest, taken + b.rows[b.index..]); }
  }

  lemma {:induction false} FetchManyFailure(result: seq<Tuple>, fetchSize: nat, b: Buffer, script: seq<Answer>,
                                        taken: seq<Tuple>, remaining: int)
    requires Faithful(result, b) && FetchMany(result, fetchSize, b, script, taken, remaining).0.Failed?
    ensures FetchMany(result, fetchSize, b, script, taken, remaining).1.index == b.index <==>
            b.index == |b.rows| && (script == [] || script[0].Failure?)
  {
    var empty := |b.rows| - b.index <= 0;
    var (m, b', rest) := if empty then FetchMore(result, fetchSize, b, script) else (Added, b, script);
    if m.Added? {
      var available := |b'.rows| - b'.index;
      var take := if available <= remaining then available else remaining;
      FetchManyFaithful(result, fetchSize, b'.(index := b'.index + take), rest,
                        taken + b'.rows[b'.index..b'.index + take], remaining - take);
    }
  }

  /** A call that sends a request has first used up everything that was buffered. */
  lemma RequestsAtEnd(result: seq<Tuple>, fetchSize: nat, b: Buffer, script: seq<Answer>, c: Call)
    requires Faithful(result, b)
    ensures var (_, b', rest) := Do(result, fetchSize, b, script, c); rest != script ==> b'.index >= |b.rows|
  {
    match c {
      case One =>
      case Many(size) => FetchManyAtEnd(result, fetchSize, b, script, [], size);
      case All => FetchAllGrows(result, fetchSize, b, script, []);
    }
  }

  lemma {:induction false} FetchManyAtEnd(result: seq<Tuple>, fetchSize: nat, b: Buffer, script: seq<Answer>,
                                        taken: seq<Tuple>, remaining: int)
    requires Faithful(result, b)
    ensures var (_, b', rest) := FetchMany(result, fetchSize, b, script, taken, remaining);
            rest != script ==> b'.index >= |b.rows|
  {
    if remaining > 0 {
      if b.index < |b.rows| {
        var available := |b.rows| - b.index;
        var take := if available <= remaining then available else remaining;
        var next := b.(index := b.index + take);
        FetchManyFaithful(result, fetchSize, next, script, taken + b.rows[b.index..b.index + take], remaining - take);
      } else {
        FetchManyFaithful(result, fetchSize, b, script, taken, remaining);
      }
    }
  }

  /** So faithfulness stops at a failure: here one row is buffered, fetchall fails, and the next
      fetchone returns the second row. */
  lemma RowsLostByFailure(x: Tuple, y: Tuple)
    ensures var b := Fresh([x, y], 1);
            var (h, b', rest) := Do([x, y], 1, b, [Failure(false), Chunk(1)], Call.All);
            h.Failed? && Faithful([x, y], b') && Do([x, y], 1, b', rest, Call.One).0 == Rows([y])
  {
    var result := [x, y];
    var b := Fresh(result, 1);
    assert result[..1] == [x] && result[1..2] == [y];
    CallFaithful(result, 1, b, [Failure(false), Chunk(1)], Call.All);
    assert [Failure(false), Chunk(1)][1..] == [Chunk(1)];
    assert [x] + [y] == result;
  }
}
