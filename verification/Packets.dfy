/** The prepare-and-execute, fetch and batch replies as a whole (pycubrid/protocol.py): what
    the parsers read for every protocol version, and parser/encoder inversion. */
module Packets {
  import opened Basics
  import opened Wire
  import opened Values
  import opened Rows
  import opened Replies

  // ---- Prepare and execute -----------------------------------------------------------

  /** What PrepareAndExecutePacket.parse leaves in the packet. */
  datatype Execution = Execution(
    handle: int, statementType: byte, bindCount: int, columns: seq<Column>,
    totalTuples: int, infos: seq<ResultInfo>, tupleCount: int, rows: seq<seq<Value>>)

  datatype Prepared = Prepared(statementType: byte, bindCount: int, columns: seq<Column>)

  datatype Totals = Totals(totalTuples: int, infos: seq<ResultInfo>)

  datatype Fetched = Fetched(tupleCount: int, rows: seq<seq<Value>>)

  function Types(cs: seq<Column>): (r: seq<byte>)
    ensures |r| == |cs| && forall i :: 0 <= i < |cs| ==> r[i] == cs[i].columnType
  {
    seq(|cs|, i requires 0 <= i < |cs| => cs[i].columnType)
  }

  function GetPrepared(b: Bytes, o: nat): Read<Prepared> {
    var (_, o1) :- GetInt(b, o);
    var (statementType, o2) :- GetByte(b, o1);
    var (bindCount, o3) :- GetInt(b, o2);
    var (_, o4) :- GetByte(b, o3);
    var (count, o5) :- GetInt(b, o4);
    var (columns, o6) :- GetColumns(b, o5, count);
    Got(Prepared(statementType, bindCount, columns), o6)
  }

  function GetTotals(b: Bytes, o: nat): Read<Totals> {
    var (total, o1) :- GetInt(b, o);
    var (_, o2) :- GetByte(b, o1);
    var (count, o3) :- GetInt(b, o2);
    var (infos, o4) :- GetInfos(b, o3, count);
    Got(Totals(total, infos), o4)
  }

  /** The fields that later protocol versions added. */
  function GetVersioned(version: int, b: Bytes, o: nat): Read<()> {
    var (_, o1) :- if version > 1 then GetByte(b, o) else Got(0, o);
    var (_, o2) :- if version > 4 then GetInt(b, o1) else Got(0, o1);
    Got((), o2)
  }

  /** The rows that may come with a SELECT's reply. */
  function GetInline(isCall: bool, types: seq<byte>, decode: bool, b: Bytes, o: nat): Read<Fetched> {
    if |b| - o < 8 then Got(Fetched(0, []), o)
    else
      var (_, o1) :- GetInt(b, o);
      var (count, o2) :- GetInt(b, o1);
      var (rows, o3) :- GetRowData(isCall, types, decode, b, o2, count);
      Got(Fetched(count, rows), o3)
  }

  function GetExecution(version: int, decode: bool, data: Bytes): Read<Reply<Execution>> {
    var (code, o1) :- GetInt(data, CAS_INFO_SIZE);
    if code < 0 then GetError(data, o1)
    else
      var (p, o2) :- GetPrepared(data, o1);
      var (t, o3) :- GetTotals(data, o2);
      var (_, o4) :- GetVersioned(version, data, o3);
      var (f, o5) :- if p.statementType == SELECT
                     then GetInline(IsCallType(p.statementType), Types(p.columns), decode, data, o4)
                     else Got(Fetched(0, []), o4);
      Got(Parsed(Execution(code, p.statementType, p.bindCount, p.columns,
                           t.totalTuples, t.infos, f.tupleCount, f.rows)), o5)
  }

  /** A successful reply as the broker composes it; only one with statement type 21, a SELECT,
      carries rows. */
  datatype ExecuteReply = ExecuteReply(
    cas: Bytes, handle: int, cacheLifetime: int, statementType: byte, bindCount: int, updatable: byte,
    columns: seq<WireColumn>, totalTuples: int, reusable: byte, infos: seq<ResultInfo>,
    includesColumns: byte, shard: int, rows: Option<(int, seq<Row>)>)

  predicate FitsExecute(r: ExecuteReply) {
    && |r.cas| == 4 && IsInt(r.handle) && r.handle >= 0
    && IsInt(r.cacheLifetime) && IsInt(r.bindCount)
    && |r.columns| < 0x8000_0000 && FitsColumns(r.columns)
    && IsInt(r.totalTuples) && |r.infos| < 0x8000_0000 && FitsInfos(r.infos)
    && IsInt(r.shard)
    && (r.rows.Some? ==>
          && r.statementType == 21 && IsInt(r.rows.value.0) && |r.rows.value.1| < 0x8000_0000
          && FitsRows(false, Types(Columns(r.columns)), r.rows.value.1))
  }

  function EncodePrepared(r: ExecuteReply): Bytes
    requires FitsExecute(r)
  {
    Int(r.cacheLifetime) + ([r.statementType] + (Int(r.bindCount) + ([r.updatable] +
      (Int(|r.columns|) + EncodeColumns(r.columns)))))
  }

  function EncodeTotals(r: ExecuteReply): Bytes
    requires FitsExecute(r)
  {
    Int(r.totalTuples) + ([r.reusable] + (Int(|r.infos|) + EncodeInfos(r.infos)))
  }

  function EncodeVersioned(version: int, includesColumns: byte, shard: int): Bytes
    requires IsInt(shard)
  {
    (if version > 1 then [includesColumns] else []) + (if version > 4 then Int(shard) else [])
  }

  function EncodeInline(types: seq<byte>, rows: Option<(int, seq<Row>)>): Bytes
    requires rows.Some? ==> IsInt(rows.value.0) && |rows.value.1| < 0x8000_0000 && FitsRows(false, types, rows.value.1)
  {
    if rows.None? then []
    else Int(rows.value.0) + (Int(|rows.value.1|) + EncodeRows(false, types, rows.value.1))
  }

  function EncodeExecute(version: int, r: ExecuteReply): Bytes
    requires FitsExecute(r)
  {
    r.cas + (Int(r.handle) + (EncodePrepared(r) + (EncodeTotals(r) +
      (EncodeVersioned(version, r.includesColumns, r.shard) + EncodeInline(Types(Columns(r.columns)), r.rows)))))
  }

  function ShownInline(decode: bool, types: seq<byte>, rows: Option<(int, seq<Row>)>): Fetched
    requires rows.Some? ==> FitsRows(false, types, rows.value.1)
  {
    if rows.None? then Fetched(0, []) else Fetched(|rows.value.1|, ShownRows(decode, false, types, rows.value.1))
  }

  function ShownExecution(decode: bool, r: ExecuteReply): Execution
    requires FitsExecute(r)
  {
    var columns := Columns(r.columns);
    var f := ShownInline(decode, Types(columns), r.rows);
    Execution(r.handle, r.statementType, r.bindCount, columns, r.totalTuples, r.infos, f.tupleCount, f.rows)
  }

  lemma {:induction false} GetPreparedAt(b: Bytes, o: nat, r: ExecuteReply)
    requires FitsExecute(r) && At(b, o, EncodePrepared(r))
    ensures GetPrepared(b, o) == Got(Prepared(r.statementType, r.bindCount, Columns(r.columns)), o + |EncodePrepared(r)|)
  {
    hide At, GetInt, GetByte, GetColumns, FitsColumns, FitsInfos, FitsRows, EncodeColumns, Columns;
    var e := EncodeColumns(r.columns);
    AtSplit(b, o, Int(r.cacheLifetime), [r.statementType] + (Int(r.bindCount) + ([r.updatable] + (Int(|r.columns|) + e))));
    AtSplit(b, o + 4, [r.statementType], Int(r.bindCount) + ([r.updatable] + (Int(|r.columns|) + e)));
    AtSplit(b, o + 5, Int(r.bindCount), [r.updatable] + (Int(|r.columns|) + e));
    AtSplit(b, o + 9, [r.updatable], Int(|r.columns|) + e);
    AtSplit(b, o + 10, Int(|r.columns|), e);
    GetIntAt(b, o, r.cacheLifetime);
    GetByteAt(b, o + 4, r.statementType);
    GetIntAt(b, o + 5, r.bindCount);
    GetByteAt(b, o + 9, r.updatable);
    GetIntAt(b, o + 10, |r.columns|);
    GetColumnsAt(b, o + 14, r.columns);
  }

  lemma {:induction false} GetTotalsAt(b: Bytes, o: nat, r: ExecuteReply)
    requires FitsExecute(r) && At(b, o, EncodeTotals(r))
    ensures GetTotals(b, o) == Got(Totals(r.totalTuples, r.infos), o + |EncodeTotals(r)|)
  {
    hide At, GetInt, GetByte, GetInfos, FitsColumns, FitsInfos, FitsRows, EncodeInfos;
    var e := EncodeInfos(r.infos);
    AtSplit(b, o, Int(r.totalTuples), [r.reusable] + (Int(|r.infos|) + e));
    AtSplit(b, o + 4, [r.reusable], Int(|r.infos|) + e);
    AtSplit(b, o + 5, Int(|r.infos|), e);
    GetIntAt(b, o, r.totalTuples);
    GetByteAt(b, o + 4, r.reusable);
    GetIntAt(b, o + 5, |r.infos|);
    GetInfosAt(b, o + 9, r.infos);
  }

  lemma {:induction false} GetVersionedAt(version: int, b: Bytes, o: nat, includesColumns: byte, shard: int)
    requires IsInt(shard) && At(b, o, EncodeVersioned(version, includesColumns, shard))
    ensures GetVersioned(version, b, o) == Got((), o + |EncodeVersioned(version, includesColumns, shard)|)
  {
    hide At, GetInt, GetByte;
    var x := if version > 1 then [includesColumns] else [];
    var y := if version > 4 then Int(shard) else [];
    AtSplit(b, o, x, y);
    if version > 1 { GetByteAt(b, o, includesColumns); }
    if version > 4 { GetIntAt(b, o + |x|, shard); }
  }

  lemma {:induction false} GetInlineAt(decode: bool, types: seq<byte>, b: Bytes, o: nat, rows: Option<(int, seq<Row>)>)
    requires rows.Some? ==> IsInt(rows.value.0) && |rows.value.1| < 0x8000_0000 && FitsRows(false, types, rows.value.1)
    requires o + |EncodeInline(types, rows)| == |b| && At(b, o, EncodeInline(types, rows))
    ensures GetInline(false, types, decode, b, o) == Got(ShownInline(decode, types, rows), |b|)
  {
    hide At, GetInt, GetRowData, FitsRows, EncodeRows, ShownRows;
    if rows.Some? {
      var (code, rs) := rows.value;
      var e := EncodeRows(false, types, rs);
      AtSplit(b, o, Int(code), Int(|rs|) + e);
      AtSplit(b, o + 4, Int(|rs|), e);
      GetIntAt(b, o, code);
      GetIntAt(b, o + 4, |rs|);
      GetRowDataAt(decode, false, types, rs, b, o + 8);
    }
  }

  /** The same reading on longer data: bytes after the reply are looked at for a SELECT only. */
  lemma {:induction false} ExecutionThenMore(version: int, decode: bool, r: ExecuteReply, more: Bytes)
    requires FitsExecute(r) && (more == [] || r.statementType != 21)
    ensures var data := EncodeExecute(version, r);
            GetExecution(version, decode, data + more) == Got(Parsed(ShownExecution(decode, r)), |data|)
  {
    hide At, GetInt, GetPrepared, GetTotals, GetVersioned, GetInline, FitsColumns, FitsInfos, FitsRows,
         EncodePrepared, EncodeTotals, EncodeVersioned, EncodeInline, ShownInline, Columns, Types;
    var reply := EncodeExecute(version, r);
    var data := reply + more;
    var types := Types(Columns(r.columns));
    var e1, e2 := EncodePrepared(r), EncodeTotals(r);
    var e3, e4 := EncodeVersioned(version, r.includesColumns, r.shard), EncodeInline(types, r.rows);
    AtWhole(data);
    AtSplit(data, 0, reply, more);
    AtSplit(data, 0, r.cas, Int(r.handle) + (e1 + (e2 + (e3 + e4))));
    AtSplit(data, 4, Int(r.handle), e1 + (e2 + (e3 + e4)));
    AtSplit(data, 8, e1, e2 + (e3 + e4));
    AtSplit(data, 8 + |e1|, e2, e3 + e4);
    AtSplit(data, 8 + |e1| + |e2|, e3, e4);
    GetIntAt(data, 4, r.handle);
    GetPreparedAt(data, 8, r);
    GetTotalsAt(data, 8 + |e1|, r);
    GetVersionedAt(version, data, 8 + |e1| + |e2|, r.includesColumns, r.shard);
    NoInline(decode, types, r.rows);
    if more == [] { GetInlineAt(decode, types, data, 8 + |e1| + |e2| + |e3|, r.rows); }
  }

  /** Parsing the reference encoding of a prepare-and-execute reply gives back the result, and
      ends exactly at the last byte, for every protocol version. */
  lemma {:induction false} ExecutionRoundTrip(version: int, decode: bool, r: ExecuteReply)
    requires FitsExecute(r)
    ensures var data := EncodeExecute(version, r);
            GetExecution(version, decode, data) == Got(Parsed(ShownExecution(decode, r)), |data|)
  {
    hide GetExecution, ShownExecution, FitsExecute;
    ExecutionThenMore(version, decode, r, []);
    assert EncodeExecute(version, r) + [] == EncodeExecute(version, r);
  }

  /** A reply with statement type 21 shows exactly the rows sent with it. A reply with any other
      type shows none, and whatever bytes follow it are left unread. */
  lemma {:induction false} RowsOfSelectOnly(version: int, decode: bool, r: ExecuteReply, more: Bytes)
    requires FitsExecute(r)
    ensures r.statementType == 21 && r.rows.Some? ==>
              var types, rows := Types(Columns(r.columns)), r.rows.value.1;
              var g := GetExecution(version, decode, EncodeExecute(version, r));
              && g.Got? && g.value.Parsed?
              && g.value.result.tupleCount == |rows|
              && g.value.result.rows == ShownRows(decode, false, types, rows)
    ensures r.statementType != 21 ==>
              var data := EncodeExecute(version, r);
              var g := GetExecution(version, decode, data + more);
              && g.Got? && g.value.Parsed? && g.off == |data|
              && g.value.result.tupleCount == 0 && g.value.result.rows == []
              && g.value.result.handle == r.handle && g.value.result.infos == r.infos
  {
    hide GetExecution, EncodeExecute, FitsRows, ShownRows, Types, Columns;
    ExecutionRoundTrip(version, decode, r);
    if r.statementType != 21 { ExecutionThenMore(version, decode, r, more); }
  }

  lemma NoInline(decode: bool, types: seq<byte>, rows: Option<(int, seq<Row>)>)
    ensures rows.None? ==> EncodeInline(types, rows) == [] && ShownInline(decode, types, rows) == Fetched(0, [])
  {
  }

  /** An error reply is read as the server's code and message, to its last byte, by all three
      parsers. */
  lemma ErrorRoundTrip(version: int, decode: bool, types: seq<byte>, statementType: byte,
                       cas: Bytes, response: int, code: int, message: Bytes)
    requires |cas| == 4 && IsInt(response) && response < 0 && IsInt(code)
    ensures var data := EncodeError(cas, response, code, message);
            && GetExecution(version, decode, data) == Got(ServerError(code, message), |data|)
            && GetFetch(types, statementType, decode, data) == Got(ServerError(code, message), |data|)
            && GetBatch(version, data) == Got(ServerError(code, message), |data|)
  {
    GetErrorAt<Execution>(cas, response, code, message);
    GetErrorAt<Fetched>(cas, response, code, message);
    GetErrorAt<Batch>(cas, response, code, message);
  }

  // ---- Fetch -----------------------------------------------------------------------------

  /** FetchPacket.parse; without columns the rows are left unread. */
  function GetFetch(types: seq<byte>, statementType: byte, decode: bool, data: Bytes): Read<Reply<Fetched>> {
    var (code, o1) :- GetInt(data, CAS_INFO_SIZE);
    if code < 0 then GetError(data, o1)
    else
      var (count, o2) :- GetInt(data, o1);
      if count > 0 && types != [] then
        var (rows, o3) :- GetRowData(IsCallType(statementType), types, decode, data, o2, count);
        Got(Parsed(Fetched(count, rows)), o3)
      else Got(Parsed(Fetched(count, [])), o2)
  }

  function EncodeFetch(isCall: bool, types: seq<byte>, cas: Bytes, code: int, rows: seq<Row>): Bytes
    requires IsInt(code) && |rows| < 0x8000_0000 && FitsRows(isCall, types, rows)
  {
    cas + (Int(code) + (Int(|rows|) + EncodeRows(isCall, types, rows)))
  }

  /** The same for fetch replies, of calls and of queries. */
  lemma {:induction false} FetchRoundTrip(types: seq<byte>, statementType: byte, decode: bool, cas: Bytes,
                                        code: int, rows: seq<Row>)
    requires |cas| == 4 && IsInt(code) && code >= 0 && |rows| < 0x8000_0000
    requires FitsRows(SendsTypes(statementType), types, rows) && types != []
    ensures var isCall := SendsTypes(statementType);
            var data := EncodeFetch(isCall, types, cas, code, rows);
            GetFetch(types, statementType, decode, data) ==
            Got(Parsed(Fetched(|rows|, ShownRows(decode, isCall, types, rows))), |data|)
  {
    hide At, GetInt, GetRowData, FitsRows;
    var isCall := SendsTypes(statementType);
    var data := EncodeFetch(isCall, types, cas, code, rows);
    var e := EncodeRows(isCall, types, rows);
    AtWhole(data);
    AtSplit(data, 0, cas, Int(code) + (Int(|rows|) + e));
    AtSplit(data, 4, Int(code), Int(|rows|) + e);
    AtSplit(data, 8, Int(|rows|), e);
    GetIntAt(data, 4, code);
    GetIntAt(data, 8, |rows|);
    GetRowDataAt(decode, isCall, types, rows, data, 12);
  }

  // ---- Batch -------------------------------------------------------------------------------

  /** What BatchExecutePacket.parse leaves in the packet: successes as statement type and
      count, errors as code and message. */
  datatype Batch = Batch(results: seq<(byte, int)>, errors: seq<(int, Bytes)>)

  function GetBatchItem(version: int, b: Bytes, o: nat): Read<Batch> {
    var (statementType, o1) :- GetByte(b, o);
    var (result, o2) :- GetInt(b, o1);
    if result < 0 then
      var (code, o3) :- if version > 2 then GetInt(b, o2) else Got(result, o2);
      var (message, o4) :- GetSizedText(b, o3);
      Got(Batch([], [(code, message)]), o4)
    else
      var (_, o3) :- GetInt(b, o2);
      var (_, o4) :- GetShort(b, o3);
      var (_, o5) :- GetShort(b, o4);
      Got(Batch([(statementType, result)], []), o5)
  }

  function Merge(x: Batch, y: Batch): Batch {
    Batch(x.results + y.results, x.errors + y.errors)
  }

  function GetBatchItems(version: int, b: Bytes, o: nat, count: int): Read<Batch>
    decreases count
  {
    if count <= 0 then Got(Batch([], []), o)
    else
      var (x, o1) :- GetBatchItem(version, b, o);
      var (rest, o2) :- GetBatchItems(version, b, o1, count - 1);
      Got(Merge(x, rest), o2)
  }

  function GetBatch(version: int, data: Bytes): Read<Reply<Batch>> {
    var (code, o1) :- GetInt(data, CAS_INFO_SIZE);
    if code < 0 then GetError(data, o1)
    else
      var (count, o2) :- GetInt(data, o1);
      var (items, o3) :- GetBatchItems(version, data, o2, count);
      var (_, o4) :- if version > 4 then GetInt(data, o3) else Got(0, o3);
      Got(Parsed(items), o4)
  }

  /** One statement of a batch: done, with a row count and three unused numbers, or failed,
      with a negative result, an error code and a message. */
  datatype Outcome =
    | Done(statementType: byte, count: int, unused: (int, int, int))
    | Bad(statementType: byte, result: int, code: int, message: Bytes)

  /** Before version 3 the negative result is the error code. */
  predicate FitsOutcome(version: int, x: Outcome) {
    match x
    case Done(_, count, u) => count >= 0 && IsInt(count) && IsInt(u.0) && IsShort(u.1) && IsShort(u.2)
    case Bad(_, result, code, message) =>
      result < 0 && IsInt(result) && IsInt(code) && |message| < 0x7FFF_FFFF && (version > 2 || code == result)
  }

  function EncodeOutcome(version: int, x: Outcome): Bytes
    requires FitsOutcome(version, x)
  {
    match x
    case Done(t, count, u) => [t] + (Int(count) + (Int(u.0) + (Short(u.1) + Short(u.2))))
    case Bad(t, result, code, message) =>
      [t] + (Int(result) + ((if version > 2 then Int(code) else []) + EncodeSizedText(message)))
  }

  function EncodeOutcomes(version: int, xs: seq<Outcome>): Bytes
    requires forall i :: 0 <= i < |xs| ==> FitsOutcome(version, xs[i])
  {
    if xs == [] then [] else EncodeOutcome(version, xs[0]) + EncodeOutcomes(version, xs[1..])
  }

  function EncodeBatch(version: int, cas: Bytes, code: int, xs: seq<Outcome>, shard: int): Bytes
    requires IsInt(code) && |xs| < 0x8000_0000 && IsInt(shard)
    requires forall i :: 0 <= i < |xs| ==> FitsOutcome(version, xs[i])
  {
    cas + (Int(code) + (Int(|xs|) + (EncodeOutcomes(version, xs) + if version > 4 then Int(shard) else [])))
  }

  /** The successes of a batch, in order. */
  function Successes(xs: seq<Outcome>): seq<(byte, int)> {
    if xs == [] then []
    else (if xs[0].Done? then [(xs[0].statementType, xs[0].count)] else []) + Successes(xs[1..])
  }

  /** The failures of a batch, in order. */
  function Failures(xs: seq<Outcome>): seq<(int, Bytes)> {
    if xs == [] then []
    else (if xs[0].Bad? then [(xs[0].code, xs[0].message)] else []) + Failures(xs[1..])
  }

  function ShownItem(x: Outcome): Batch {
    match x
    case Done(t, count, _) => Batch([(t, count)], [])
    case Bad(_, _, code, message) => Batch([], [(code, message)])
  }

  lemma {:induction false} GetBatchItemAt(version: int, b: Bytes, o: nat, x: Outcome)
    requires FitsOutcome(version, x) && At(b, o, EncodeOutcome(version, x))
    ensures GetBatchItem(version, b, o) == Got(ShownItem(x), o + |EncodeOutcome(version, x)|)
  {
    hide At, GetInt, GetByte, GetShort, GetSizedText, EncodeSizedText;
    match x {
      case Done(t, count, u) =>
        AtSplit(b, o, [t], Int(count) + (Int(u.0) + (Short(u.1) + Short(u.2))));
        AtSplit(b, o + 1, Int(count), Int(u.0) + (Short(u.1) + Short(u.2)));
        AtSplit(b, o + 5, Int(u.0), Short(u.1) + Short(u.2));
        AtSplit(b, o + 9, Short(u.1), Short(u.2));
        GetByteAt(b, o, t);
        GetIntAt(b, o + 1, count);
        GetIntAt(b, o + 5, u.0);
        GetShortAt(b, o + 9, u.1);
        GetShortAt(b, o + 11, u.2);
      case Bad(t, result, code, message) =>
        var c := if version > 2 then Int(code) else [];
        var m := EncodeSizedText(message);
        AtSplit(b, o, [t], Int(result) + (c + m));
        AtSplit(b, o + 1, Int(result), c + m);
        AtSplit(b, o + 5, c, m);
        GetByteAt(b, o, t);
        GetIntAt(b, o + 1, result);
        if version > 2 { GetIntAt(b, o + 5, code); }
        GetSizedTextAt(b, o + 5 + |c|, message);
    }
  }

  lemma {:induction false} OutcomesUnfold(version: int, xs: seq<Outcome>, b: Bytes, o: nat)
    requires forall i :: 0 <= i < |xs| ==> FitsOutcome(version, xs[i])
    ensures if xs == [] then EncodeOutcomes(version, xs) == [] && GetBatchItems(version, b, o, 0) == Got(Batch([], []), o)
                             && Successes(xs) == [] && Failures(xs) == []
            else FitsOutcome(version, xs[0])
                 && (forall i :: 0 <= i < |xs[1..]| ==> FitsOutcome(version, xs[1..][i]))
                 && EncodeOutcomes(version, xs) == EncodeOutcome(version, xs[0]) + EncodeOutcomes(version, xs[1..])
                 && Batch(Successes(xs), Failures(xs)) ==
                    Merge(ShownItem(xs[0]), Batch(Successes(xs[1..]), Failures(xs[1..])))
  {
    hide FitsOutcome, EncodeOutcome;
  }

  lemma {:induction false} GetBatchItemsStep(version: int, b: Bytes, o: nat, count: nat, x: Batch, rest: Batch,
                                        mid: nat, end: nat)
    requires count > 0 && GetBatchItem(version, b, o) == Got(x, mid)
    requires GetBatchItems(version, b, mid, count - 1) == Got(rest, end)
    ensures GetBatchItems(version, b, o, count) == Got(Merge(x, rest), end)
  {
    hide GetBatchItem;
  }

  lemma {:induction false} GetBatchItemsAt(version: int, b: Bytes, o: nat, xs: seq<Outcome>)
    requires forall i :: 0 <= i < |xs| ==> FitsOutcome(version, xs[i])
    requires At(b, o, EncodeOutcomes(version, xs))
    ensures GetBatchItems(version, b, o, |xs|) ==
            Got(Batch(Successes(xs), Failures(xs)), o + |EncodeOutcomes(version, xs)|)
    decreases |xs|
  {
    hide *;
    OutcomesUnfold(version, xs, b, o);
    if xs != [] {
      var e, rest := EncodeOutcome(version, xs[0]), EncodeOutcomes(version, xs[1..]);
      AtSplit(b, o, e, rest);
      GetBatchItemAt(version, b, o, xs[0]);
      GetBatchItemsAt(version, b, o + |e|, xs[1..]);
      GetBatchItemsStep(version, b, o, |xs|, ShownItem(xs[0]), Batch(Successes(xs[1..]), Failures(xs[1..])),
                        o + |e|, o + |e| + |rest|);
    }
  }

  /** A batch reply is partitioned faithfully: the successes and the errors come back each in
      order, and every byte is consumed, for every protocol version. */
  lemma {:induction false} BatchRoundTrip(version: int, cas: Bytes, code: int, xs: seq<Outcome>, shard: int)
    requires |cas| == 4 && IsInt(code) && code >= 0 && |xs| < 0x8000_0000 && IsInt(shard)
    requires forall i :: 0 <= i < |xs| ==> FitsOutcome(version, xs[i])
    ensures var data := EncodeBatch(version, cas, code, xs, shard);
            GetBatch(version, data) == Got(Parsed(Batch(Successes(xs), Failures(xs))), |data|)
  {
    hide At, GetInt, GetBatchItems, FitsOutcome, EncodeOutcomes;
    var data := EncodeBatch(version, cas, code, xs, shard);
    var e, tail := EncodeOutcomes(version, xs), if version > 4 then Int(shard) else [];
    AtWhole(data);
    AtSplit(data, 0, cas, Int(code) + (Int(|xs|) + (e + tail)));
    AtSplit(data, 4, Int(code), Int(|xs|) + (e + tail));
    AtSplit(data, 8, Int(|xs|), e + tail);
    AtSplit(data, 12, e, tail);
    GetIntAt(data, 4, code);
    GetIntAt(data, 8, |xs|);
    GetBatchItemsAt(version, data, 12, xs);
    if version > 4 { GetIntAt(data, 12 + |e|, shard); }
  }

  /** Every executed statement is counted once, as a success or as an error. */
  lemma {:induction false} BatchCounts(xs: seq<Outcome>)
    ensures |Successes(xs)| + |Failures(xs)| == |xs|
    decreases |xs|
  {
    if xs != [] { BatchCounts(xs[1..]); }
  }

  /** The row count a cursor keeps after a batch: the sum over the packet's results. */
  function RowCount(results: seq<(byte, int)>): int {
    if results == [] then 0 else results[0].1 + RowCount(results[1..])
  }

  /** The rows the statements of a batch touched; a failed one touched none. */
  function RowsTouched(xs: seq<Outcome>): nat
    requires forall i :: 0 <= i < |xs| ==> xs[i].Done? ==> xs[i].count >= 0
  {
    if xs == [] then 0 else (if xs[0].Done? then xs[0].count else 0) + RowsTouched(xs[1..])
  }

  lemma {:induction false} RowCountOfSuccesses(xs: seq<Outcome>)
    requires forall i :: 0 <= i < |xs| ==> xs[i].Done? ==> xs[i].count >= 0
    ensures RowCount(Successes(xs)) == RowsTouched(xs)
    decreases |xs|
  {
    if xs != [] {
      RowCountOfSuccesses(xs[1..]);
      assert xs[0].Done? ==> Successes(xs)[1..] == Successes(xs[1..]);
      assert xs[0].Bad? ==> Successes(xs) == Successes(xs[1..]);
    }
  }

  /** The row count after a batch is what its statements touched, over the wire. */
  lemma BatchRowCount(version: int, cas: Bytes, code: int, xs: seq<Outcome>, shard: int)
    requires |cas| == 4 && IsInt(code) && code >= 0 && |xs| < 0x8000_0000 && IsInt(shard)
    requires forall i :: 0 <= i < |xs| ==> FitsOutcome(version, xs[i])
    ensures forall i :: 0 <= i < |xs| ==> xs[i].Done? ==> xs[i].count >= 0
    ensures var r := GetBatch(version, EncodeBatch(version, cas, code, xs, shard));
            r.Got? && r.value.Parsed? && RowCount(r.value.result.results) == RowsTouched(xs)
  {
    forall i | 0 <= i < |xs| ensures xs[i].Done? ==> xs[i].count >= 0 {
      assert FitsOutcome(version, xs[i]);
    }
    BatchRoundTrip(version, cas, code, xs, shard);
    RowCountOfSuccesses(xs);
  }
}
