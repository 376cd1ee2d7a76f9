/** Replies of the broker (pycubrid/protocol.py): what the versioned parsers read, and a
    reference encoder of what the broker sends. */
module Replies {
  import opened Basics
  import opened Wire
  import opened Values
  import opened Rows

  const CAS_INFO_SIZE: nat := 4
  const SELECT: byte := 21

  type Bytes = seq<byte>

  // ---- Column metadata -------------------------------------------------------------

  datatype Flags = Flags(
    autoIncrement: bool, uniqueKey: bool, primaryKey: bool, reverseIndex: bool,
    reverseUnique: bool, foreignKey: bool, shared: bool)

  datatype Names = Names(name: Bytes, realName: Bytes, tableName: Bytes)

  datatype Column = Column(
    columnType: byte, scale: int, precision: int, names: Names,
    nullable: bool, default: Bytes, flags: Flags)

  /** A one-byte type, or a two-byte one whose first byte has its top bit set. */
  function GetTypeHeader(b: Bytes, o: nat): Read<byte> {
    var (legacy, o1) :- GetByte(b, o);
    if legacy >= 0x80 then GetByte(b, o1) else Got(legacy, o1)
  }

  function GetSizedText(b: Bytes, o: nat): Read<Bytes> {
    var (size, o1) :- GetInt(b, o);
    GetText(b, o1, size)
  }

  function GetNames(b: Bytes, o: nat): Read<Names> {
    var (name, o1) :- GetSizedText(b, o);
    var (realName, o2) :- GetSizedText(b, o1);
    var (tableName, o3) :- GetSizedText(b, o2);
    Got(Names(name, realName, tableName), o3)
  }

  function GetFlag(b: Bytes, o: nat): Read<bool> {
    var (v, o1) :- GetByte(b, o);
    Got(v == 1, o1)
  }

  function GetFlags(b: Bytes, o: nat): Read<Flags> {
    var (f0, o0) :- GetFlag(b, o);
    var (f1, o1) :- GetFlag(b, o0);
    var (f2, o2) :- GetFlag(b, o1);
    var (f3, o3) :- GetFlag(b, o2);
    var (f4, o4) :- GetFlag(b, o3);
    var (f5, o5) :- GetFlag(b, o4);
    var (f6, o6) :- GetFlag(b, o5);
    Got(Flags(f0, f1, f2, f3, f4, f5, f6), o6)
  }

  function GetColumn(b: Bytes, o: nat): Read<Column> {
    var (columnType, o1) :- GetTypeHeader(b, o);
    var (scale, o2) :- GetShort(b, o1);
    var (precision, o3) :- GetInt(b, o2);
    var (names, o4) :- GetNames(b, o3);
    var (nullable, o5) :- GetFlag(b, o4);
    var (default, o6) :- GetSizedText(b, o5);
    var (flags, o7) :- GetFlags(b, o6);
    Got(Column(columnType, scale, precision, names, nullable, default, flags), o7)
  }

  function GetColumns(b: Bytes, o: nat, count: int): Read<seq<Column>>
    decreases count
  {
    if count <= 0 then Got([], o)
    else
      var (c, o1) :- GetColumn(b, o);
      var (cs, o2) :- GetColumns(b, o1, count - 1);
      Got([c] + cs, o2)
  }

  /** A column as sent: a two-byte header gives the legacy byte that precedes the type. */
  datatype WireColumn = WireColumn(legacy: Option<byte>, column: Column)

  function EncodeSizedText(text: Bytes): Bytes
    requires |text| < 0x7FFF_FFFF
  {
    Int(|text| + 1) + Terminated(text)
  }

  /** An empty default is sent as a zero size. */
  function EncodeDefault(text: Bytes): Bytes
    requires |text| < 0x7FFF_FFFF
  {
    if text == [] then Int(0) else EncodeSizedText(text)
  }

  function EncodeTypeHeader(c: WireColumn): Bytes {
    if c.legacy.Some? then [c.legacy.value] + [c.column.columnType] else [c.column.columnType]
  }

  function EncodeNames(n: Names): Bytes
    requires |n.name| < 0x7FFF_FFFF && |n.realName| < 0x7FFF_FFFF && |n.tableName| < 0x7FFF_FFFF
  {
    EncodeSizedText(n.name) + (EncodeSizedText(n.realName) + EncodeSizedText(n.tableName))
  }

  function Flag(f: bool): byte { if f then 1 else 0 }

  function EncodeFlags(f: Flags): (e: Bytes)
    ensures |e| == 7
  {
    [Flag(f.autoIncrement), Flag(f.uniqueKey), Flag(f.primaryKey), Flag(f.reverseIndex),
     Flag(f.reverseUnique), Flag(f.foreignKey), Flag(f.shared)]
  }

  predicate FitsColumn(c: WireColumn) {
    && (if c.legacy.Some? then c.legacy.value >= 0x80 else c.column.columnType < 0x80)
    && IsShort(c.column.scale) && IsInt(c.column.precision)
    && |c.column.names.name| < 0x7FFF_FFFF && |c.column.names.realName| < 0x7FFF_FFFF
    && |c.column.names.tableName| < 0x7FFF_FFFF && |c.column.default| < 0x7FFF_FFFF
  }

  function EncodeColumn(c: WireColumn): Bytes
    requires FitsColumn(c)
  {
    var k := c.column;
    EncodeTypeHeader(c) + (Short(k.scale) + (Int(k.precision) + (EncodeNames(k.names) +
      ([Flag(k.nullable)] + (EncodeDefault(k.default) + EncodeFlags(k.flags))))))
  }

  predicate FitsColumns(cs: seq<WireColumn>) {
    forall i :: 0 <= i < |cs| ==> FitsColumn(cs[i])
  }

  function EncodeColumns(cs: seq<WireColumn>): Bytes
    requires FitsColumns(cs)
  {
    if cs == [] then [] else EncodeColumn(cs[0]) + EncodeColumns(cs[1..])
  }

  function Columns(cs: seq<WireColumn>): (r: seq<Column>)
    ensures |r| == |cs|
  {
    if cs == [] then [] else [cs[0].column] + Columns(cs[1..])
  }

  lemma GetSizedTextAt(b: Bytes, o: nat, text: Bytes)
    requires |text| < 0x7FFF_FFFF
    ensures At(b, o, EncodeSizedText(text)) ==> GetSizedText(b, o) == Got(text, o + |EncodeSizedText(text)|)
    ensures At(b, o, EncodeDefault(text)) ==> GetSizedText(b, o) == Got(text, o + |EncodeDefault(text)|)
  {
    if At(b, o, EncodeSizedText(text)) {
      AtSplit(b, o, Int(|text| + 1), Terminated(text));
      GetIntAt(b, o, |text| + 1);
      GetTextAt(b, o + 4, text);
    }
    if text == [] && At(b, o, EncodeDefault(text)) { GetIntAt(b, o, 0); }
  }

  lemma GetNamesAt(b: Bytes, o: nat, n: Names)
    requires |n.name| < 0x7FFF_FFFF && |n.realName| < 0x7FFF_FFFF && |n.tableName| < 0x7FFF_FFFF
    requires At(b, o, EncodeNames(n))
    ensures GetNames(b, o) == Got(n, o + |EncodeNames(n)|)
  {
    hide At, GetSizedText, EncodeSizedText;
    var x, y, z := EncodeSizedText(n.name), EncodeSizedText(n.realName), EncodeSizedText(n.tableName);
    AtSplit(b, o, x, y + z);
    AtSplit(b, o + |x|, y, z);
    GetSizedTextAt(b, o, n.name);
    GetSizedTextAt(b, o + |x|, n.realName);
    GetSizedTextAt(b, o + |x| + |y|, n.tableName);
  }

  lemma GetTypeHeaderAt(b: Bytes, o: nat, c: WireColumn)
    requires FitsColumn(c) && At(b, o, EncodeTypeHeader(c))
    ensures GetTypeHeader(b, o) == Got(c.column.columnType, o + |EncodeTypeHeader(c)|)
  {
    if c.legacy.Some? {
      AtSplit(b, o, [c.legacy.value], [c.column.columnType]);
      GetByteAt(b, o, c.legacy.value);
      GetByteAt(b, o + 1, c.column.columnType);
    } else {
      GetByteAt(b, o, c.column.columnType);
    }
  }

  lemma GetFlagAt(b: Bytes, o: nat, f: bool)
    requires o < |b| && b[o] == Flag(f)
    ensures GetFlag(b, o) == Got(f, o + 1)
  {
  }

  lemma GetFlagsAt(b: Bytes, o: nat, f: Flags)
    requires At(b, o, EncodeFlags(f))
    ensures GetFlags(b, o) == Got(f, o + 7)
  {
    hide GetFlag;
    var e := EncodeFlags(f);
    assert b[o] == e[0] && b[o + 1] == e[1] && b[o + 2] == e[2] && b[o + 3] == e[3];
    assert b[o + 4] == e[4] && b[o + 5] == e[5] && b[o + 6] == e[6];
    GetFlagAt(b, o, f.autoIncrement);
    GetFlagAt(b, o + 1, f.uniqueKey);
    GetFlagAt(b, o + 2, f.primaryKey);
    GetFlagAt(b, o + 3, f.reverseIndex);
    GetFlagAt(b, o + 4, f.reverseUnique);
    GetFlagAt(b, o + 5, f.foreignKey);
    GetFlagAt(b, o + 6, f.shared);
  }

  lemma GetColumnAt(b: Bytes, o: nat, c: WireColumn)
    requires FitsColumn(c) && At(b, o, EncodeColumn(c))
    ensures GetColumn(b, o) == Got(c.column, o + |EncodeColumn(c)|)
  {
    hide At, GetTypeHeader, GetShort, GetInt, GetNames, GetFlag, GetSizedText, GetFlags,
         EncodeTypeHeader, EncodeNames, EncodeDefault, EncodeFlags;
    var k := c.column;
    var e0, e1, e2, e3 := EncodeTypeHeader(c), Short(k.scale), Int(k.precision), EncodeNames(k.names);
    var e4, e5, e6 := [Flag(k.nullable)], EncodeDefault(k.default), EncodeFlags(k.flags);
    var o1 := o + |e0|;
    AtSplit(b, o, e0, e1 + (e2 + (e3 + (e4 + (e5 + e6)))));
    AtSplit(b, o1, e1, e2 + (e3 + (e4 + (e5 + e6))));
    AtSplit(b, o1 + 2, e2, e3 + (e4 + (e5 + e6)));
    var o4 := o1 + 6 + |e3|;
    AtSplit(b, o1 + 6, e3, e4 + (e5 + e6));
    AtSplit(b, o4, e4, e5 + e6);
    AtSplit(b, o4 + 1, e5, e6);
    GetTypeHeaderAt(b, o, c);
    GetShortAt(b, o1, k.scale);
    GetIntAt(b, o1 + 2, k.precision);
    GetNamesAt(b, o1 + 6, k.names);
    GetNullableAt(b, o4, k.nullable);
    GetSizedTextAt(b, o4 + 1, k.default);
    GetFlagsAt(b, o4 + 1 + |e5|, k.flags);
    assert |EncodeColumn(c)| == |e0| + 6 + |e3| + 1 + |e5| + |e6|;
  }

  lemma GetNullableAt(b: Bytes, o: nat, f: bool)
    requires At(b, o, [Flag(f)])
    ensures GetFlag(b, o) == Got(f, o + 1)
  {
    GetByteAt(b, o, Flag(f));
  }

  lemma {:induction false} GetColumnsAt(b: Bytes, o: nat, cs: seq<WireColumn>)
    requires FitsColumns(cs) && At(b, o, EncodeColumns(cs))
    ensures GetColumns(b, o, |cs|) == Got(Columns(cs), o + |EncodeColumns(cs)|)
    decreases |cs|
  {
    hide *;
    ColumnsUnfold(cs);
    if cs == [] {
      GetColumnsNil(b, o);
    } else {
      var e, rest := EncodeColumn(cs[0]), EncodeColumns(cs[1..]);
      AtSplit(b, o, e, rest);
      GetColumnAt(b, o, cs[0]);
      GetColumnsAt(b, o + |e|, cs[1..]);
      GetColumnsCons(b, o, cs, o + |e|, o + |e| + |rest|);
    }
  }

  lemma {:induction false} ColumnsUnfold(cs: seq<WireColumn>)
    requires FitsColumns(cs)
    ensures if cs == [] then EncodeColumns(cs) == [] && Columns(cs) == []
            else FitsColumn(cs[0]) && FitsColumns(cs[1..])
                 && EncodeColumns(cs) == EncodeColumn(cs[0]) + EncodeColumns(cs[1..])
  {
  }

  lemma {:induction false} GetColumnsNil(b: Bytes, o: nat)
    ensures GetColumns(b, o, 0) == Got([], o)
  {
  }

  lemma {:induction false} GetColumnsCons(b: Bytes, o: nat, cs: seq<WireColumn>, mid: nat, end: nat)
    requires cs != [] && GetColumn(b, o) == Got(cs[0].column, mid)
    requires GetColumns(b, mid, |cs| - 1) == Got(Columns(cs[1..]), end)
    ensures GetColumns(b, o, |cs|) == Got(Columns(cs), end)
  {
    hide GetColumn;
  }

  // ---- Result infos --------------------------------------------------------------------

  datatype ResultInfo = ResultInfo(statementType: byte, count: int, oid: Bytes, cacheSec: int, cacheUsec: int)

  function GetInfo(b: Bytes, o: nat): Read<ResultInfo> {
    var (statementType, o1) :- GetByte(b, o);
    var (count, o2) :- GetInt(b, o1);
    var oid := Slice(b, o2, OID_SIZE);
    var (sec, o3) :- GetInt(b, o2 + OID_SIZE);
    var (usec, o4) :- GetInt(b, o3);
    Got(ResultInfo(statementType, count, oid, sec, usec), o4)
  }

  function GetInfos(b: Bytes, o: nat, count: int): Read<seq<ResultInfo>>
    decreases count
  {
    if count <= 0 then Got([], o)
    else
      var (i, o1) :- GetInfo(b, o);
      var (rest, o2) :- GetInfos(b, o1, count - 1);
      Got([i] + rest, o2)
  }

  predicate FitsInfo(i: ResultInfo) {
    IsInt(i.count) && |i.oid| == 8 && IsInt(i.cacheSec) && IsInt(i.cacheUsec)
  }

  function EncodeInfo(i: ResultInfo): (e: Bytes)
    requires FitsInfo(i)
    ensures |e| == 21
  {
    [i.statementType] + (Int(i.count) + (i.oid + (Int(i.cacheSec) + Int(i.cacheUsec))))
  }

  predicate FitsInfos(infos: seq<ResultInfo>) {
    forall k :: 0 <= k < |infos| ==> FitsInfo(infos[k])
  }

  function EncodeInfos(infos: seq<ResultInfo>): Bytes
    requires FitsInfos(infos)
  {
    if infos == [] then [] else EncodeInfo(infos[0]) + EncodeInfos(infos[1..])
  }

  lemma GetInfoAt(b: Bytes, o: nat, i: ResultInfo)
    requires FitsInfo(i) && At(b, o, EncodeInfo(i))
    ensures GetInfo(b, o) == Got(i, o + 21)
  {
    hide At, GetByte, GetInt, Slice;
    AtSplit(b, o, [i.statementType], Int(i.count) + (i.oid + (Int(i.cacheSec) + Int(i.cacheUsec))));
    AtSplit(b, o + 1, Int(i.count), i.oid + (Int(i.cacheSec) + Int(i.cacheUsec)));
    AtSplit(b, o + 5, i.oid, Int(i.cacheSec) + Int(i.cacheUsec));
    AtSplit(b, o + 13, Int(i.cacheSec), Int(i.cacheUsec));
    GetByteAt(b, o, i.statementType);
    GetIntAt(b, o + 1, i.count);
    GetBytesAt(b, o + 5, i.oid);
    GetIntAt(b, o + 13, i.cacheSec);
    GetIntAt(b, o + 17, i.cacheUsec);
  }

  lemma {:induction false} GetInfosAt(b: Bytes, o: nat, infos: seq<ResultInfo>)
    requires FitsInfos(infos) && At(b, o, EncodeInfos(infos))
    ensures GetInfos(b, o, |infos|) == Got(infos, o + |EncodeInfos(infos)|)
    decreases |infos|
  {
    hide *;
    InfosUnfold(b, o, infos);
    if infos != [] {
      var e, rest := EncodeInfo(infos[0]), EncodeInfos(infos[1..]);
      AtSplit(b, o, e, rest);
      GetInfoAt(b, o, infos[0]);
      GetInfosAt(b, o + 21, infos[1..]);
      GetInfosCons(b, o, infos, o + 21, o + 21 + |rest|);
    }
  }

  lemma {:induction false} InfosUnfold(b: Bytes, o: nat, infos: seq<ResultInfo>)
    requires FitsInfos(infos)
    ensures if infos == [] then EncodeInfos(infos) == [] && GetInfos(b, o, 0) == Got([], o)
            else FitsInfo(infos[0]) && FitsInfos(infos[1..])
                 && EncodeInfos(infos) == EncodeInfo(infos[0]) + EncodeInfos(infos[1..])
  {
  }

  lemma {:induction false} GetInfosCons(b: Bytes, o: nat, infos: seq<ResultInfo>, mid: nat, end: nat)
    requires infos != [] && GetInfo(b, o) == Got(infos[0], mid)
    requires GetInfos(b, mid, |infos| - 1) == Got(infos[1..], end)
    ensures GetInfos(b, o, |infos|) == Got(infos, end)
  {
    hide GetInfo;
    assert [infos[0]] + infos[1..] == infos;
  }

  // ---- Error replies ---------------------------------------------------------------------

  /** What a reply says: a parsed result, or the server's error code and message. */
  datatype Reply<+T> = Parsed(result: T) | ServerError(code: int, message: Bytes)

  /** _raise_error, which is called with the offset just past the response code. */
  function GetError<T>(data: Bytes, o: nat): Read<Reply<T>> {
    var (code, o1) :- GetInt(data, o);
    var (message, o2) :- GetText(data, o1, |data| - 8 - 4);
    Got(ServerError(code, message), o2)
  }

  function EncodeError(cas: Bytes, response: int, code: int, message: Bytes): Bytes
    requires IsInt(response) && IsInt(code)
  {
    cas + (Int(response) + (Int(code) + Terminated(message)))
  }

  lemma GetErrorAt<T>(cas: Bytes, response: int, code: int, message: Bytes)
    requires |cas| == 4 && IsInt(response) && IsInt(code)
    ensures var data := EncodeError(cas, response, code, message);
            && GetInt(data, 4) == Got(response, 8)
            && GetError<T>(data, 8) == Got(ServerError(code, message), |data|)
  {
    hide At, GetInt, GetText;
    var data := EncodeError(cas, response, code, message);
    AtWhole(data);
    AtSplit(data, 0, cas, Int(response) + (Int(code) + Terminated(message)));
    AtSplit(data, 4, Int(response), Int(code) + Terminated(message));
    AtSplit(data, 8, Int(code), Terminated(message));
    GetIntAt(data, 4, response);
    GetIntAt(data, 8, code);
    GetTextAt(data, 12, message);
  }
}
