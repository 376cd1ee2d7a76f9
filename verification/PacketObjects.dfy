/** The packet writer and the request/response packet objects (pycubrid/packet.py,
    pycubrid/protocol.py). */
module PacketObjects {
  import opened Basics
  import opened Wire
  import opened Values
  import opened Rows
  import opened Replies
  import opened Packets
  import opened Parsing

  // ---- Frames and arguments --------------------------------------------------------------

  /** A framed message: payload length, CAS info, payload. */
  function Frame(cas: Bytes, payload: Bytes): Bytes
    requires |payload| < 0x8000_0000
  {
    Int(|payload|) + (cas + payload)
  }

  /** A length-prefixed request argument. */
  function EncodeArg(a: Bytes): Bytes
    requires |a| < 0x8000_0000
  {
    Int(|a|) + a
  }

  function EncodeArgs(args: seq<Bytes>): Bytes
    requires forall i :: 0 <= i < |args| ==> |args[i]| < 0x8000_0000
  {
    if args == [] then [] else EncodeArgs(args[..|args| - 1]) + EncodeArg(args[|args| - 1])
  }

  /** How a broker takes a request's arguments apart. */
  function SplitArgs(b: Bytes): Option<seq<Bytes>>
    decreases |b|
  {
    if b == [] then Some([])
    else
      var size := GetInt(b, 0);
      if size.Failed? || size.value < 0 || 4 + size.value > |b| then None
      else
        match SplitArgs(b[4 + size.value..])
        case None => None
        case Some(rest) => Some([b[4..4 + size.value]] + rest)
  }

  lemma {:induction false} EncodeArgsAppend(args: seq<Bytes>, a: Bytes)
    requires |a| < 0x8000_0000 && forall i :: 0 <= i < |args| ==> |args[i]| < 0x8000_0000
    ensures EncodeArgs(args + [a]) == EncodeArgs(args) + EncodeArg(a)
  {
    assert (args + [a])[..|args|] == args;
  }

  lemma {:induction false} EncodeArgsCons(args: seq<Bytes>)
    requires args != [] && forall i :: 0 <= i < |args| ==> |args[i]| < 0x8000_0000
    ensures EncodeArgs(args) == EncodeArg(args[0]) + EncodeArgs(args[1..])
    decreases |args|
  {
    var n := |args| - 1;
    var init, last := args[..n], args[n];
    assert args == init + [last];
    if n == 0 {
      assert args[1..] == [] && init == [];
    } else {
      hide EncodeArgs, EncodeArg;
      EncodeArgsCons(init);
      EncodeArgsAppend(init[1..], last);
      EncodeArgsAppend(init, last);
      assert args[1..] == init[1..] + [last] && args[0] == init[0];
      assert EncodeArg(args[0]) + (EncodeArgs(init[1..]) + EncodeArg(last)) ==
             EncodeArg(args[0]) + EncodeArgs(init[1..]) + EncodeArg(last);
    }
  }

  /** A broker that splits by the length prefixes gets back the arguments that were written. */
  lemma {:induction false} SplitEncoded(args: seq<Bytes>)
    requires forall i :: 0 <= i < |args| ==> |args[i]| < 0x8000_0000
    ensures SplitArgs(EncodeArgs(args)) == Some(args)
    decreases |args|
  {
    if args != [] {
      EncodeArgsCons(args);
      SplitEncoded(args[1..]);
      var a, rest := args[0], EncodeArgs(args[1..]);
      var b := EncodeArg(a) + rest;
      AtWhole(b);
      AtSplit(b, 0, EncodeArg(a), rest);
      AtSplit(b, 0, Int(|a|), a);
      GetIntAt(b, 0, |a|);
      assert b[4 + |a|..] == rest && b[4..4 + |a|] == a;
      assert [a] + args[1..] == args;
    }
  }

  // ---- The writer -------------------------------------------------------------------------

  /** A growing buffer whose first eight bytes are kept for the header. The writing methods
      answer false where struct.pack raises. */
  class PacketWriter {
    const headerSize: nat
    var buffer: Bytes

    constructor (reserveHeader: bool)
      ensures headerSize == if reserveHeader then 8 else 0
      ensures |buffer| == headerSize
    {
      headerSize := if reserveHeader then 8 else 0;
      buffer := seq(if reserveHeader then 8 else 0, _ => 0);
    }

    method WriteByte(value: int)
      modifies this
      ensures buffer == old(buffer) + [value % 256]
    {
      buffer := buffer + [value % 256];
    }

    method WriteInt(value: int) returns (ok: bool)
      modifies this
      ensures ok == IsInt(value)
      ensures buffer == if ok then old(buffer) + Int(value) else old(buffer)
    {
      ok := IsInt(value);
      if ok { buffer := buffer + Int(value); }
    }

    method WriteBytes(value: Bytes)
      modifies this
      ensures buffer == old(buffer) + value
    {
      buffer := buffer + value;
    }

    method AddByte(value: int) returns (ok: bool)
      modifies this
      ensures ok && buffer == old(buffer) + EncodeArg([value % 256])
    {
      ok := WriteInt(1);
      WriteByte(value);
    }

    method AddInt(value: int) returns (ok: bool)
      modifies this
      ensures ok == IsInt(value)
      ensures ok ==> buffer == old(buffer) + EncodeArg(Int(value))
    {
      ok := WriteInt(4);
      ok := WriteInt(value);
    }

    method AddNull() returns (ok: bool)
      modifies this
      ensures ok && buffer == old(buffer) + EncodeArg([])
    {
      ok := WriteInt(0);
      assert Int(0) + [] == Int(0);
    }

    method AddCacheTime() returns (ok: bool)
      modifies this
      ensures ok && buffer == old(buffer) + EncodeArg(Int(0) + Int(0))
    {
      ok := WriteInt(8);
      ok := WriteInt(0);
      ok := WriteInt(0);
    }

    /** The string comes as its encoded bytes. */
    method WriteNullTerminatedString(encoded: Bytes) returns (ok: bool)
      modifies this
      ensures ok == (|encoded| < 0x7FFF_FFFF)
      ensures ok ==> buffer == old(buffer) + EncodeArg(Terminated(encoded))
    {
      ok := WriteInt(|encoded| + 1);
      if ok {
        WriteBytes(encoded);
        WriteByte(0);
        assert old(buffer) + Int(|encoded| + 1) + encoded + [0] == old(buffer) + EncodeArg(Terminated(encoded));
      }
    }

    /** The header is patched into the bytes kept for it. */
    method Finalize(cas: Bytes) returns (r: Try<Bytes>)
      requires headerSize == 8 && |buffer| >= 8
      modifies this
      ensures r == if |old(buffer)| - 8 < 0x8000_0000 then Ok(Frame(cas, old(buffer)[8..])) else Raised
    {
      var payloadLength := |buffer| - 8;
      if !IsInt(payloadLength) { return Raised; }
      buffer := Int(payloadLength) + buffer[4..];
      buffer := buffer[..4] + cas + buffer[8..];
      assert buffer == Frame(cas, old(buffer)[8..]);
      return Ok(buffer);
    }
  }

  /** The payload of a request: function code and arguments. */
  function Request(code: byte, args: seq<Bytes>): Bytes
    requires forall i :: 0 <= i < |args| ==> |args[i]| < 0x8000_0000
  {
    [code] + EncodeArgs(args)
  }

  /** A writer's buffer holds, after its header, this request. */
  ghost predicate Carries(buffer: Bytes, code: byte, args: seq<Bytes>) {
    && |buffer| >= 8
    && (forall i :: 0 <= i < |args| ==> |args[i]| < 0x8000_0000)
    && buffer[8..] == Request(code, args)
  }

  lemma CarriesStart(buffer: Bytes, code: byte)
    requires |buffer| == 8
    ensures Carries(buffer + [code], code, [])
  {
    assert (buffer + [code])[8..] == [code] + [];
  }

  lemma {:induction false} CarriesMore(before: Bytes, after: Bytes, code: byte, args: seq<Bytes>, a: Bytes)
    requires Carries(before, code, args) && |a| < 0x8000_0000
    requires after == before + EncodeArg(a)
    ensures Carries(after, code, args + [a])
  {
    EncodeArgsAppend(args, a);
    assert after[8..] == before[8..] + EncodeArg(a);
    assert [code] + EncodeArgs(args) + EncodeArg(a) == [code] + EncodeArgs(args + [a]);
  }

  // ---- Requests ---------------------------------------------------------------------------

  const FETCH_CODE: byte := 8
  const BATCH_CODE: byte := 20
  const EXECUTE_CODE: byte := 41

  /** Statement text, prepare option, auto-commit, QUERY_ALL, sizes, a null, cache time and
      timeout. */
  function ExecuteArgs(sql: Bytes, autoCommit: bool): seq<Bytes> {
    [Int(3), Terminated(sql), [0], [if autoCommit then 1 else 0], [2], Int(0), Int(0), [], Int(0) + Int(0), Int(0)]
  }

  function FetchArgs(handle: int, start: int, fetchSize: int): seq<Bytes>
    requires IsInt(handle) && IsInt(start) && IsInt(fetchSize)
  {
    [Int(handle), Int(start), Int(fetchSize), [0], Int(0)]
  }

  function BatchArgs(version: int, autoCommit: bool, sqls: seq<Bytes>): seq<Bytes> {
    [[if autoCommit then 1 else 0]] + (if version > 3 then [Int(0)] else []) + TerminatedAll(sqls)
  }

  function TerminatedAll(sqls: seq<Bytes>): (r: seq<Bytes>)
    ensures |r| == |sqls| && forall i :: 0 <= i < |sqls| ==> r[i] == Terminated(sqls[i])
  {
    seq(|sqls|, i requires 0 <= i < |sqls| => Terminated(sqls[i]))
  }

  // ---- Packet objects --------------------------------------------------------------------------

  /** How a packet's parse ends. */
  datatype Ending = Completed | Malformed | ServerRaised(code: int, message: Bytes)

  method ParseError(reader: PacketReader, length: int) returns (r: Ending)
    requires length == |reader.buffer| - 8
    modifies reader`offset
    ensures r == match GetError<()>(reader.buffer, old(reader.offset))
                 case Failed(_) => Malformed
                 case Got(ServerError(c, m), _) => ServerRaised(c, m)
                 case Got(Parsed(_), _) => Completed
  {
    hide GetInt, GetText;
    var code := reader.ParseInt();
    if code.Raised? { return Malformed; }
    var message := reader.ParseNullTerminatedString(length - 4);
    if message.Raised? { return Malformed; }
    return ServerRaised(code.value, message.value);
  }

  /** The prepare and execute options that follow the statement text. */
  function OptionArgs(autoCommit: bool): seq<Bytes> {
    [[0], [if autoCommit then 1 else 0], [2], Int(0), Int(0), [], Int(0) + Int(0), Int(0)]
  }

  method WriteOptions(w: PacketWriter, ghost given: seq<Bytes>, autoCommit: bool)
    requires Carries(w.buffer, EXECUTE_CODE, given)
    modifies w
    ensures Carries(w.buffer, EXECUTE_CODE, given + OptionArgs(autoCommit))
  {
    hide Carries, Request, EncodeArgs, EncodeArg, Int;
    ghost var b, args := w.buffer, given;
    var ok := w.AddByte(0);
    CarriesMore(b, w.buffer, EXECUTE_CODE, args, [0]);
    b, args := w.buffer, args + [[0]];
    ok := w.AddByte(if autoCommit then 1 else 0);
    CarriesMore(b, w.buffer, EXECUTE_CODE, args, [if autoCommit then 1 else 0]);
    b, args := w.buffer, args + [[if autoCommit then 1 else 0]];
    ok := w.AddByte(2);
    CarriesMore(b, w.buffer, EXECUTE_CODE, args, [2]);
    b, args := w.buffer, args + [[2]];
    ok := w.AddInt(0);
    CarriesMore(b, w.buffer, EXECUTE_CODE, args, Int(0));
    b, args := w.buffer, args + [Int(0)];
    ok := w.AddInt(0);
    CarriesMore(b, w.buffer, EXECUTE_CODE, args, Int(0));
    b, args := w.buffer, args + [Int(0)];
    ok := w.AddNull();
    CarriesMore(b, w.buffer, EXECUTE_CODE, args, []);
    b, args := w.buffer, args + [[]];
    ok := w.AddCacheTime();
    CarriesMore(b, w.buffer, EXECUTE_CODE, args, Int(0) + Int(0));
    b, args := w.buffer, args + [Int(0) + Int(0)];
    ok := w.AddInt(0);
    CarriesMore(b, w.buffer, EXECUTE_CODE, args, Int(0));
    assert args + [Int(0)] == given + OptionArgs(autoCommit);
  }

  class PrepareAndExecutePacket {
    const sql: Bytes
    const autoCommit: bool
    const version: int
    const decode: bool
    var queryHandle: int
    var statementType: byte
    var bindCount: int
    var columns: seq<Column>
    var totalTupleCount: int
    var resultInfos: seq<ResultInfo>
    var tupleCount: int
    var rows: seq<seq<Value>>

    constructor (sql: Bytes, autoCommit: bool, version: int, decode: bool)
      ensures this.sql == sql && this.autoCommit == autoCommit && this.version == version && this.decode == decode
      ensures View() == Execution(0, 0, 0, [], 0, [], 0, [])
    {
      this.sql, this.autoCommit, this.version, this.decode := sql, autoCommit, version, decode;
      queryHandle, statementType, bindCount, totalTupleCount, tupleCount := 0, 0, 0, 0, 0;
      columns, resultInfos, rows := [], [], [];
    }

    /** The request, or a failure when it is too long for its length fields. */
    method Write(cas: Bytes) returns (r: Try<Bytes>)
      ensures r == if |sql| < 0x8000_0000 - 69 then Ok(Frame(cas, ExecuteRequest(sql, autoCommit))) else Raised
    {
      hide Carries, Request, EncodeArgs, EncodeArg, Int;
      var w := new PacketWriter(true);
      ghost var b := w.buffer;
      CarriesStart(b, EXECUTE_CODE);
      w.WriteByte(EXECUTE_CODE);
      b := w.buffer;
      ghost var args: seq<Bytes> := [];
      var ok := w.AddInt(3);
      CarriesMore(b, w.buffer, EXECUTE_CODE, args, Int(3));
      b, args := w.buffer, args + [Int(3)];
      ok := w.WriteNullTerminatedString(sql);
      if !ok { return Raised; }
      CarriesMore(b, w.buffer, EXECUTE_CODE, args, Terminated(sql));
      b, args := w.buffer, args + [Terminated(sql)];
      WriteOptions(w, args, autoCommit);
      assert args + OptionArgs(autoCommit) == ExecuteArgs(sql, autoCommit);
      ExecuteLength(w.buffer, sql, autoCommit);
      if |sql| < 0x8000_0000 - 69 { assert w.buffer[8..] == ExecuteRequest(sql, autoCommit); }
      r := w.Finalize(cas);
    }

    /** What parse stored. */
    ghost function View(): Execution
      reads this
    {
      Execution(queryHandle, statementType, bindCount, columns, totalTupleCount, resultInfos, tupleCount, rows)
    }

    /** Parsing a reply into a fresh packet stores exactly what the reply says. */
    method Parse(data: Bytes) returns (r: Ending)
      modifies this
      ensures match GetExecution(version, decode, data)
              case Failed(_) => r == Malformed
              case Got(ServerError(c, m), _) => r == ServerRaised(c, m)
              case Got(Parsed(e), _) => r == Completed && (old(rows == [] && tupleCount == 0) ==> View() == e)
    {
      hide GetInt, GetByte, GetColumns, GetInfos, GetRowData, GetError, Types, IsCallType;
      var reader := new PacketReader(data, decode);
      reader.SkipBytes(CAS_INFO_SIZE);
      var code := reader.ParseInt();
      if code.Raised? { return Malformed; }
      if code.value < 0 {
        ErrorAnyType<(), Execution>(data, reader.offset);
        r := ParseError(reader, |data| - 8);
        return;
      }
      queryHandle := code.value;
      r := ParsePrepared(reader);
      if r != Completed { return; }
      r := ParseTotals(reader);
      if r != Completed { return; }
      r := SkipVersioned(reader);
      if r != Completed { return; }
      if statementType == SELECT && |data| - reader.offset >= 8 {
        r := ParseInline(reader);
      }
    }

    method ParsePrepared(reader: PacketReader) returns (r: Ending)
      modifies this`statementType, this`bindCount, this`columns, reader`offset
      ensures reader.offset == GetPrepared(reader.buffer, old(reader.offset)).off
      ensures match GetPrepared(reader.buffer, old(reader.offset))
              case Failed(_) => r == Malformed
              case Got(p, _) => r == Completed && Prepared(statementType, bindCount, columns) == p
    {
      hide GetInt, GetByte, GetColumns;
      var lifetime := reader.ParseInt();
      if lifetime.Raised? { return Malformed; }
      var kind := reader.ParseByte();
      if kind.Raised? { return Malformed; }
      statementType := kind.value;
      var binds := reader.ParseInt();
      if binds.Raised? { return Malformed; }
      bindCount := binds.value;
      var updatable := reader.ParseByte();
      if updatable.Raised? { return Malformed; }
      var count := reader.ParseInt();
      if count.Raised? { return Malformed; }
      var parsed := ParseColumnMetadata(reader, count.value);
      if parsed.Raised? { return Malformed; }
      columns := parsed.value;
      return Completed;
    }

    method ParseTotals(reader: PacketReader) returns (r: Ending)
      modifies this`totalTupleCount, this`resultInfos, reader`offset
      ensures reader.offset == GetTotals(reader.buffer, old(reader.offset)).off
      ensures match GetTotals(reader.buffer, old(reader.offset))
              case Failed(_) => r == Malformed
              case Got(t, _) => r == Completed && Totals(totalTupleCount, resultInfos) == t
    {
      hide GetInt, GetByte, GetInfos;
      var total := reader.ParseInt();
      if total.Raised? { return Malformed; }
      totalTupleCount := total.value;
      var reusable := reader.ParseByte();
      if reusable.Raised? { return Malformed; }
      var count := reader.ParseInt();
      if count.Raised? { return Malformed; }
      var parsed := ParseResultInfos(reader, count.value);
      if parsed.Raised? { return Malformed; }
      resultInfos := parsed.value;
      return Completed;
    }

    method SkipVersioned(reader: PacketReader) returns (r: Ending)
      modifies reader`offset
      ensures reader.offset == GetVersioned(version, reader.buffer, old(reader.offset)).off
      ensures r == if GetVersioned(version, reader.buffer, old(reader.offset)).Got? then Completed else Malformed
    {
      hide GetInt, GetByte;
      if version > 1 {
        var includes := reader.ParseByte();
        if includes.Raised? { return Malformed; }
      }
      if version > 4 {
        var shard := reader.ParseInt();
        if shard.Raised? { return Malformed; }
      }
      return Completed;
    }

    method ParseInline(reader: PacketReader) returns (r: Ending)
      requires reader.decode == decode && |reader.buffer| - reader.offset >= 8
      modifies this`tupleCount, this`rows, reader`offset
      ensures match GetInline(IsCallType(statementType), Types(columns), decode, reader.buffer, old(reader.offset))
              case Failed(_) => r == Malformed
              case Got(f, _) => r == Completed && (old(rows) == [] ==> Fetched(tupleCount, rows) == f)
    {
      hide GetInt, GetRowData, Types, IsCallType;
      var fetchCode := reader.ParseInt();
      if fetchCode.Raised? { return Malformed; }
      var count := reader.ParseInt();
      if count.Raised? { return Malformed; }
      tupleCount := count.value;
      NoRows(IsCallType(statementType), Types(columns), decode, reader.buffer, reader.offset, tupleCount);
      if tupleCount > 0 {
        var parsed := ParseRowData(reader, tupleCount, columns, statementType);
        if parsed.Raised? { return Malformed; }
        rows := parsed.value;
      }
      return Completed;
    }
  }

  lemma NoRows(isCall: bool, types: seq<byte>, decode: bool, b: Bytes, o: nat, count: int)
    ensures count <= 0 ==> GetRowData(isCall, types, decode, b, o, count) == Got([], o)
  {
  }

  lemma ErrorAnyType<T, U>(data: Bytes, o: nat)
    ensures match GetError<T>(data, o)
            case Failed(o1) => GetError<U>(data, o) == Failed(o1)
            case Got(ServerError(c, m), o1) => GetError<U>(data, o) == Got(ServerError(c, m), o1)
            case Got(Parsed(_), _) => false
  {
  }

  function ExecuteRequest(sql: Bytes, autoCommit: bool): (b: Bytes)
    requires |sql| < 0x7FFF_FFFF
    ensures |b| == |sql| + 69
  {
    ExecuteArgsLength(sql, autoCommit);
    Request(EXECUTE_CODE, ExecuteArgs(sql, autoCommit))
  }

  lemma {:induction false} ExecuteArgsLength(sql: Bytes, autoCommit: bool)
    requires |sql| < 0x7FFF_FFFF
    ensures |EncodeArgs(ExecuteArgs(sql, autoCommit))| == |sql| + 68
  {
    var a := ExecuteArgs(sql, autoCommit);
    ArgsLength(a);
    assert a == a[..9] + [a[9]] && a[..9] == a[..8] + [a[8]] && a[..8] == a[..7] + [a[7]] && a[..7] == a[..6] + [a[6]];
    assert a[..6] == a[..5] + [a[5]] && a[..5] == a[..4] + [a[4]] && a[..4] == a[..3] + [a[3]];
    assert a[..3] == a[..2] + [a[2]] && a[..2] == a[..1] + [a[1]] && a[..1] == [] + [a[0]];
    TotalLengthAppend(a[..9], a[9]);
    TotalLengthAppend(a[..8], a[8]);
    TotalLengthAppend(a[..7], a[7]);
    TotalLengthAppend(a[..6], a[6]);
    TotalLengthAppend(a[..5], a[5]);
    TotalLengthAppend(a[..4], a[4]);
    TotalLengthAppend(a[..3], a[3]);
    TotalLengthAppend(a[..2], a[2]);
    TotalLengthAppend(a[..1], a[1]);
    TotalLengthAppend([], a[0]);
  }

  lemma {:induction false} ExecuteLength(buffer: Bytes, sql: Bytes, autoCommit: bool)
    requires |sql| < 0x7FFF_FFFF && Carries(buffer, EXECUTE_CODE, ExecuteArgs(sql, autoCommit))
    ensures |buffer| == |sql| + 77 && buffer[8..] == ExecuteRequest(sql, autoCommit)
  {
    assert |ExecuteRequest(sql, autoCommit)| == |sql| + 69;
  }

  function TotalLength(args: seq<Bytes>): nat {
    if args == [] then 0 else TotalLength(args[..|args| - 1]) + 4 + |args[|args| - 1]|
  }

  lemma {:induction false} TotalLengthAppend(args: seq<Bytes>, a: Bytes)
    ensures TotalLength(args + [a]) == TotalLength(args) + 4 + |a|
  {
    assert (args + [a])[..|args|] == args;
  }

  lemma {:induction false} ArgsLength(args: seq<Bytes>)
    requires forall i :: 0 <= i < |args| ==> |args[i]| < 0x8000_0000
    ensures |EncodeArgs(args)| == TotalLength(args)
    decreases |args|
  {
    if args != [] { ArgsLength(args[..|args| - 1]); }
  }

  class FetchPacket {
    const queryHandle: int
    const currentTupleCount: int
    const fetchSize: int
    const columns: seq<Column>
    const statementType: byte
    const decode: bool
    var tupleCount: int
    var rows: seq<seq<Value>>

    constructor (queryHandle: int, currentTupleCount: int, fetchSize: int, columns: seq<Column>,
                 statementType: byte, decode: bool)
      ensures this.queryHandle == queryHandle && this.currentTupleCount == currentTupleCount && this.fetchSize == fetchSize
      ensures this.columns == columns && this.statementType == statementType && this.decode == decode
      ensures rows == [] && tupleCount == 0
    {
      this.queryHandle, this.currentTupleCount, this.fetchSize := queryHandle, currentTupleCount, fetchSize;
      this.columns, this.statementType, this.decode := columns, statementType, decode;
      tupleCount, rows := 0, [];
    }

    /** The request asks for rows from the one after currentTupleCount, counting from one. */
    method Write(cas: Bytes) returns (r: Try<Bytes>)
      ensures r == if IsInt(queryHandle) && IsInt(currentTupleCount + 1) && IsInt(fetchSize)
                   then Ok(Frame(cas, FetchRequest(queryHandle, currentTupleCount + 1, fetchSize))) else Raised
    {
      hide Carries, Request, EncodeArgs, EncodeArg, Int;
      var w := new PacketWriter(true);
      ghost var b := w.buffer;
      CarriesStart(b, FETCH_CODE);
      w.WriteByte(FETCH_CODE);
      b := w.buffer;
      ghost var args: seq<Bytes> := [];
      var ok := w.AddInt(queryHandle);
      if !ok { return Raised; }
      CarriesMore(b, w.buffer, FETCH_CODE, args, Int(queryHandle));
      b, args := w.buffer, args + [Int(queryHandle)];
      ok := w.AddInt(currentTupleCount + 1);
      if !ok { return Raised; }
      CarriesMore(b, w.buffer, FETCH_CODE, args, Int(currentTupleCount + 1));
      b, args := w.buffer, args + [Int(currentTupleCount + 1)];
      ok := w.AddInt(fetchSize);
      if !ok { return Raised; }
      CarriesMore(b, w.buffer, FETCH_CODE, args, Int(fetchSize));
      b, args := w.buffer, args + [Int(fetchSize)];
      ok := w.AddByte(0);
      CarriesMore(b, w.buffer, FETCH_CODE, args, [0]);
      b, args := w.buffer, args + [[0]];
      ok := w.AddInt(0);
      CarriesMore(b, w.buffer, FETCH_CODE, args, Int(0));
      assert args + [Int(0)] == FetchArgs(queryHandle, currentTupleCount + 1, fetchSize);
      FetchLength(queryHandle, currentTupleCount + 1, fetchSize, w.buffer);
      r := w.Finalize(cas);
    }

    method Parse(data: Bytes) returns (r: Ending)
      modifies this
      ensures match GetFetch(Types(columns), statementType, decode, data)
              case Failed(_) => r == Malformed
              case Got(ServerError(c, m), _) => r == ServerRaised(c, m)
              case Got(Parsed(f), _) => r == Completed && (old(rows) == [] ==> Fetched(tupleCount, rows) == f)
    {
      hide GetInt, GetRowData, GetError, IsCallType;
      var reader := new PacketReader(data, decode);
      reader.SkipBytes(CAS_INFO_SIZE);
      var code := reader.ParseInt();
      if code.Raised? { return Malformed; }
      if code.value < 0 {
        ErrorAnyType<(), Fetched>(data, reader.offset);
        r := ParseError(reader, |data| - 8);
        return;
      }
      var count := reader.ParseInt();
      if count.Raised? { return Malformed; }
      tupleCount := count.value;
      if tupleCount > 0 && |columns| > 0 {
        var parsed := ParseRowData(reader, tupleCount, columns, statementType);
        if parsed.Raised? { return Malformed; }
        rows := parsed.value;
      }
      return Completed;
    }
  }

  function FetchRequest(handle: int, start: int, fetchSize: int): (b: Bytes)
    requires IsInt(handle) && IsInt(start) && IsInt(fetchSize)
    ensures |b| == 38
  {
    FetchArgsLength(handle, start, fetchSize);
    Request(FETCH_CODE, FetchArgs(handle, start, fetchSize))
  }

  lemma {:induction false} FetchArgsLength(handle: int, start: int, fetchSize: int)
    requires IsInt(handle) && IsInt(start) && IsInt(fetchSize)
    ensures |EncodeArgs(FetchArgs(handle, start, fetchSize))| == 37
  {
    var a := FetchArgs(handle, start, fetchSize);
    ArgsLength(a);
    assert a == a[..4] + [a[4]] && a[..4] == a[..3] + [a[3]] && a[..3] == a[..2] + [a[2]];
    assert a[..2] == a[..1] + [a[1]] && a[..1] == [] + [a[0]];
    TotalLengthAppend(a[..4], a[4]);
    TotalLengthAppend(a[..3], a[3]);
    TotalLengthAppend(a[..2], a[2]);
    TotalLengthAppend(a[..1], a[1]);
    TotalLengthAppend([], a[0]);
  }

  lemma FetchLength(handle: int, start: int, fetchSize: int, buffer: Bytes)
    requires IsInt(handle) && IsInt(start) && IsInt(fetchSize)
    requires Carries(buffer, FETCH_CODE, FetchArgs(handle, start, fetchSize))
    ensures |buffer| == 46 && buffer[8..] == FetchRequest(handle, start, fetchSize)
  {
    assert |FetchRequest(handle, start, fetchSize)| == 38;
  }

  /** The batch fits its length fields. */
  predicate BatchFits(version: int, autoCommit: bool, sqls: seq<Bytes>) {
    && (forall i :: 0 <= i < |sqls| ==> |sqls[i]| < 0x7FFF_FFFF)
    && |Request(BATCH_CODE, BatchArgs(version, autoCommit, sqls))| < 0x8000_0000
  }

  class BatchExecutePacket {
    const sqls: seq<Bytes>
    const autoCommit: bool
    const version: int
    var results: seq<(byte, int)>
    var errors: seq<(int, Bytes)>

    constructor (sqls: seq<Bytes>, autoCommit: bool, version: int)
      ensures this.sqls == sqls && this.autoCommit == autoCommit && this.version == version
      ensures results == [] && errors == []
    {
      this.sqls, this.autoCommit, this.version := sqls, autoCommit, version;
      results, errors := [], [];
    }

    method Write(cas: Bytes) returns (r: Try<Bytes>)
      ensures r == if BatchFits(version, autoCommit, sqls)
                   then Ok(Frame(cas, Request(BATCH_CODE, BatchArgs(version, autoCommit, sqls)))) else Raised
    {
      hide Carries, EncodeArgs, EncodeArg, Int;
      var w := new PacketWriter(true);
      ghost var b := w.buffer;
      CarriesStart(b, BATCH_CODE);
      w.WriteByte(BATCH_CODE);
      b := w.buffer;
      ghost var args: seq<Bytes> := [];
      var ok := w.AddByte(if autoCommit then 1 else 0);
      CarriesMore(b, w.buffer, BATCH_CODE, args, [if autoCommit then 1 else 0]);
      b, args := w.buffer, args + [[if autoCommit then 1 else 0]];
      if version > 3 {
        ok := w.AddInt(0);
        CarriesMore(b, w.buffer, BATCH_CODE, args, Int(0));
        b, args := w.buffer, args + [Int(0)];
      }
      assert TerminatedAll(sqls[..0]) == [];
      assert args == BatchArgs(version, autoCommit, sqls[..0]);
      for k := 0 to |sqls|
        invariant fresh(w) && w.headerSize == 8
        invariant Carries(w.buffer, BATCH_CODE, BatchArgs(version, autoCommit, sqls[..k]))
        invariant forall i :: 0 <= i < k ==> |sqls[i]| < 0x7FFF_FFFF
      {
        b, args := w.buffer, BatchArgs(version, autoCommit, sqls[..k]);
        ok := w.WriteNullTerminatedString(sqls[k]);
        if !ok { return Raised; }
        CarriesMore(b, w.buffer, BATCH_CODE, args, Terminated(sqls[k]));
        assert sqls[..k + 1] == sqls[..k] + [sqls[k]];
        assert TerminatedAll(sqls[..k + 1]) == TerminatedAll(sqls[..k]) + [Terminated(sqls[k])];
        assert args + [Terminated(sqls[k])] == BatchArgs(version, autoCommit, sqls[..k + 1]);
      }
      assert sqls[..|sqls|] == sqls;
      CarriesLength(w.buffer, BATCH_CODE, BatchArgs(version, autoCommit, sqls));
      r := w.Finalize(cas);
    }

    /** The partitioning loop: successes and errors are appended to their own lists. */
    method Parse(data: Bytes) returns (r: Ending)
      modifies this
      ensures match GetBatch(version, data)
              case Failed(_) => r == Malformed
              case Got(ServerError(c, m), _) => r == ServerRaised(c, m)
              case Got(Parsed(x), _) => r == Completed && Batch(results, errors) == x
    {
      hide GetInt, GetBatchItems, GetError;
      var reader := new PacketReader(data, false);
      reader.SkipBytes(CAS_INFO_SIZE);
      var code := reader.ParseInt();
      if code.Raised? { return Malformed; }
      if code.value < 0 {
        ErrorAnyType<(), Batch>(data, reader.offset);
        r := ParseError(reader, |data| - 8);
        return;
      }
      var count := reader.ParseInt();
      if count.Raised? { return Malformed; }
      results := [];
      errors := [];
      r := ParseItems(reader, count.value);
      if r != Completed { return; }
      if version > 4 {
        var shard := reader.ParseInt();
        if shard.Raised? { return Malformed; }
      }
    }

    method ParseItems(reader: PacketReader, count: int) returns (r: Ending)
      requires results == [] && errors == []
      modifies this`results, this`errors, reader`offset
      ensures reader.offset == GetBatchItems(version, reader.buffer, old(reader.offset), count).off
      ensures match GetBatchItems(version, reader.buffer, old(reader.offset), count)
              case Failed(_) => r == Malformed
              case Got(x, _) => r == Completed && Batch(results, errors) == x
    {
      hide GetBatchItem, GetBatchItems;
      ghost var goal := GetBatchItems(version, reader.buffer, reader.offset, count);
      AheadNothing(goal);
      var i := 0;
      while i < count
        invariant 0 <= i && (i <= count || count < 0)
        invariant goal == Ahead(Batch(results, errors), GetBatchItems(version, reader.buffer, reader.offset, count - i))
      {
        ItemsStep(version, reader.buffer, reader.offset, count - i);
        ghost var had := Batch(results, errors);
        ghost var item := GetBatchItem(version, reader.buffer, reader.offset);
        r := ParseItem(reader);
        if r != Completed { return; }
        AheadOne(had, item.value, GetBatchItems(version, reader.buffer, reader.offset, count - i - 1));
        i := i + 1;
      }
      ItemsStep(version, reader.buffer, reader.offset, count - i);
      AheadDone(Batch(results, errors), reader.offset);
      return Completed;
    }

    method ParseItem(reader: PacketReader) returns (r: Ending)
      modifies this`results, this`errors, reader`offset
      ensures reader.offset == GetBatchItem(version, reader.buffer, old(reader.offset)).off
      ensures match GetBatchItem(version, reader.buffer, old(reader.offset))
              case Failed(_) => r == Malformed
              case Got(x, _) => r == Completed && Batch(results, errors) == Merge(old(Batch(results, errors)), x)
    {
      hide GetInt, GetByte, GetShort, GetText;
      var statementType := reader.ParseByte();
      if statementType.Raised? { return Malformed; }
      var result := reader.ParseInt();
      if result.Raised? { return Malformed; }
      if result.value < 0 {
        var code := result;
        if version > 2 {
          code := reader.ParseInt();
          if code.Raised? { return Malformed; }
        }
        var message := reader.ParseSizedText();
        if message.Raised? { return Malformed; }
        errors := errors + [(code.value, message.value)];
        assert results == results + [];
      } else {
        results := results + [(statementType.value, result.value)];
        assert errors == errors + [];
        var unused := reader.ParseInt();
        if unused.Raised? { return Malformed; }
        var first := reader.ParseShort();
        if first.Raised? { return Malformed; }
        var second := reader.ParseShort();
        if second.Raised? { return Malformed; }
      }
      return Completed;
    }
  }

  lemma {:induction false} CarriesLength(buffer: Bytes, code: byte, args: seq<Bytes>)
    requires Carries(buffer, code, args)
    ensures |buffer| == 8 + |Request(code, args)| && buffer[8..] == Request(code, args)
  {
    assert |buffer[8..]| == |buffer| - 8;
  }

  ghost function Ahead(x: Batch, r: Read<Batch>): Read<Batch> {
    match r
    case Got(rest, o) => Got(Merge(x, rest), o)
    case Failed(o) => Failed(o)
  }

  lemma AheadNothing(r: Read<Batch>)
    ensures Ahead(Batch([], []), r) == r
  {
    if r.Got? { assert [] + r.value.results == r.value.results && [] + r.value.errors == r.value.errors; }
  }

  lemma AheadOne(x: Batch, y: Batch, r: Read<Batch>)
    ensures Ahead(x, Ahead(y, r)) == Ahead(Merge(x, y), r)
  {
    if r.Got? {
      assert x.results + (y.results + r.value.results) == x.results + y.results + r.value.results;
      assert x.errors + (y.errors + r.value.errors) == x.errors + y.errors + r.value.errors;
    }
  }

  lemma AheadDone(x: Batch, o: nat)
    ensures Ahead(x, Got(Batch([], []), o)) == Got(x, o)
  {
    assert x.results + [] == x.results && x.errors + [] == x.errors;
  }

  lemma {:induction false} ItemsStep(version: int, b: Bytes, o: nat, count: int)
    ensures var c := GetBatchItem(version, b, o);
            if count <= 0 then GetBatchItems(version, b, o, count) == Got(Batch([], []), o)
            else if c.Failed? then GetBatchItems(version, b, o, count) == Failed(c.off)
            else GetBatchItems(version, b, o, count) == Ahead(c.value, GetBatchItems(version, b, c.off, count - 1))
  {
    hide GetBatchItem;
  }

  // ---- What a broker reads --------------------------------------------------------------------

  lemma SmallInt(v: byte)
    ensures Int(v) == [0, 0, 0, v]
  {
    assert U16(0) == [0, 0] && U16(v) == [0, v];
  }

  /** The first byte of a request is its function code, and the rest splits into its arguments. */
  lemma {:induction false} RequestSplits(code: byte, args: seq<Bytes>)
    requires forall i :: 0 <= i < |args| ==> |args[i]| < 0x8000_0000
    ensures var q := Request(code, args); q[0] == code && SplitArgs(q[1..]) == Some(args)
  {
    SplitEncoded(args);
    assert Request(code, args)[1..] == EncodeArgs(args);
  }

  /** Function 41, with the statement text, prepare option 0, the auto-commit flag, execute
      option 2, no sizes, no bound values, no cache time and no timeout. */
  lemma {:induction false} ExecuteRequestRead(sql: Bytes, autoCommit: bool)
    requires |sql| < 0x7FFF_FFFF
    ensures var q := ExecuteRequest(sql, autoCommit);
            && q[0] == 41
            && SplitArgs(q[1..]) ==
               Some([[0, 0, 0, 3], sql + [0], [0], [if autoCommit then 1 else 0], [2], [0, 0, 0, 0], [0, 0, 0, 0],
                     [], [0, 0, 0, 0, 0, 0, 0, 0], [0, 0, 0, 0]])
  {
    hide EncodeArgs, SplitArgs;
    RequestSplits(41, ExecuteArgs(sql, autoCommit));
    SmallInt(0);
    SmallInt(3);
    assert Int(0) + Int(0) == [0, 0, 0, 0, 0, 0, 0, 0];
  }

  /** Function 8, with the handle, the first row wanted, the number of rows, a case flag and a
      result set index of zero. */
  lemma {:induction false} FetchRequestRead(handle: int, start: int, fetchSize: int)
    requires IsInt(handle) && IsInt(start) && IsInt(fetchSize)
    ensures var q := FetchRequest(handle, start, fetchSize); var args := SplitArgs(q[1..]);
            && q[0] == 8 && args.Some? && |args.value| == 5
            && |args.value[0]| == |args.value[1]| == |args.value[2]| == 4
            && ToInt(args.value[0]) == handle && ToInt(args.value[1]) == start && ToInt(args.value[2]) == fetchSize
            && args.value[3] == [0] && args.value[4] == [0, 0, 0, 0]
  {
    hide EncodeArgs, SplitArgs;
    RequestSplits(8, FetchArgs(handle, start, fetchSize));
    PackUnpack(handle);
    PackUnpack(start);
    PackUnpack(fetchSize);
    SmallInt(0);
  }

  /** Function 20, with the auto-commit flag, a zero timeout from version 4 on, and the
      statements in order. */
  lemma {:induction false} BatchRequestRead(version: int, autoCommit: bool, sqls: seq<Bytes>)
    requires BatchFits(version, autoCommit, sqls)
    ensures var q := Request(BATCH_CODE, BatchArgs(version, autoCommit, sqls)); var args := SplitArgs(q[1..]);
            var first := if version >= 4 then 2 else 1;
            && q[0] == 20 && args.Some? && |args.value| == first + |sqls|
            && args.value[0] == [if autoCommit then 1 else 0]
            && (version >= 4 ==> args.value[1] == [0, 0, 0, 0])
            && forall i :: 0 <= i < |sqls| ==> args.value[first + i] == sqls[i] + [0]
  {
    hide EncodeArgs, SplitArgs;
    RequestSplits(20, BatchArgs(version, autoCommit, sqls));
    SmallInt(0);
  }
}
