/** The reader object and the parsing loops (pycubrid/packet.py, pycubrid/protocol.py), step by
    step, each proved against the function that says what it reads. */
module Parsing {
  import opened Basics
  import opened Wire
  import opened Values
  import opened Rows
  import opened Replies
  import opened Packets

  /** The result of a call that may raise. */
  datatype Try<+T> = Ok(value: T) | Raised

  /** A call returned, or raised, as the read r says, leaving the reader at r's offset. */
  ghost predicate Follows<T(!new)>(t: Try<T>, offset: nat, r: Read<T>) {
    offset == r.off && t == match r case Got(v, _) => Ok(v) case Failed(_) => Raised
  }

  /** Values already read, put in front of a read of the rest. */
  ghost function Before<T>(vs: seq<T>, r: Read<seq<T>>): Read<seq<T>> {
    match r
    case Got(rest, o) => Got(vs + rest, o)
    case Failed(o) => Failed(o)
  }

  lemma BeforeNothing<T>(r: Read<seq<T>>)
    ensures Before([], r) == r
  {
    if r.Got? { assert [] + r.value == r.value; }
  }

  lemma BeforeOne<T>(vs: seq<T>, v: T, r: Read<seq<T>>)
    ensures Before(vs, Before([v], r)) == Before(vs + [v], r)
  {
    if r.Got? { assert vs + ([v] + r.value) == vs + [v] + r.value; }
  }

  lemma BeforeDone<T>(vs: seq<T>, o: nat)
    ensures Before(vs, Got([], o)) == Got(vs, o)
  {
    assert vs + [] == vs;
  }

  class PacketReader {
    const buffer: seq<byte>
    const decode: bool
    var offset: nat

    constructor (data: seq<byte>, decode: bool)
      ensures buffer == data && this.decode == decode && offset == 0
    {
      buffer, this.decode, offset := data, decode, 0;
    }

    method ParseByte() returns (r: Try<byte>)
      modifies this`offset
      ensures Follows(r, offset, GetByte(buffer, old(offset)))
    {
      if offset >= |buffer| { return Raised; }
      r := Ok(buffer[offset]);
      offset := offset + 1;
    }

    method ParseShort() returns (r: Try<int>)
      modifies this`offset
      ensures Follows(r, offset, GetShort(buffer, old(offset)))
    {
      if offset + 2 > |buffer| { return Raised; }
      r := Ok(ToShort(buffer[offset..offset + 2]));
      offset := offset + 2;
    }

    method ParseInt() returns (r: Try<int>)
      modifies this`offset
      ensures Follows(r, offset, GetInt(buffer, old(offset)))
    {
      if offset + 4 > |buffer| { return Raised; }
      r := Ok(ToInt(buffer[offset..offset + 4]));
      offset := offset + 4;
    }

    method ParseBytes(count: nat) returns (r: seq<byte>)
      modifies this`offset
      ensures Follows(Ok(r), offset, GetBytes(buffer, old(offset), count))
    {
      r := Slice(buffer, offset, count);
      offset := offset + count;
    }

    method SkipBytes(count: nat)
      modifies this`offset
      ensures offset == old(offset) + count
    {
      offset := offset + count;
    }

    /** The offset moves first, as in the source, so a failed look at the last byte leaves it
        past the end. */
    method ParseNullTerminatedString(length: int) returns (r: Try<seq<byte>>)
      modifies this`offset
      ensures Follows(r, offset, GetText(buffer, old(offset), length))
    {
      if length <= 0 { return Ok([]); }
      var start := offset;
      var end := start + length;
      offset := end;
      if end > |buffer| { return Raised; }
      if buffer[end - 1] == 0 {
        return Ok(buffer[start..end - 1]);
      }
      return Ok(buffer[start..end]);
    }

    method ParseSizedText() returns (r: Try<seq<byte>>)
      modifies this`offset
      ensures Follows(r, offset, GetSizedText(buffer, old(offset)))
    {
      var size := ParseInt();
      if size.Raised? { return Raised; }
      r := ParseNullTerminatedString(size.value);
    }

    method ParseFlag() returns (r: Try<bool>)
      modifies this`offset
      ensures Follows(r, offset, GetFlag(buffer, old(offset)))
    {
      var v := ParseByte();
      if v.Raised? { return Raised; }
      return Ok(v.value == 1);
    }

    method ParseLong() returns (r: Try<int>)
      modifies this`offset
      ensures Follows(r, offset, GetLong(buffer, old(offset)))
    {
      if offset + 8 > |buffer| { return Raised; }
      r := Ok(ToLong(buffer[offset..offset + 8]));
      offset := offset + 8;
    }

    /** The four or eight bytes of a float or double. */
    method ParseReal(size: nat) returns (r: Try<seq<byte>>)
      modifies this`offset
      ensures Follows(r, offset, GetFixed(buffer, old(offset), size))
    {
      if offset + size > |buffer| { return Raised; }
      r := Ok(buffer[offset..offset + size]);
      offset := offset + size;
    }

    /** Unpacks k shorts from the offset, field by field, and leaves the offset alone. */
    method UnpackShorts(k: nat) returns (r: Try<seq<int>>)
      ensures match r
              case Ok(fields) => GetShorts(buffer, offset, k) == Got(fields, offset + 2 * k)
              case Raised => GetShorts(buffer, offset, k) == Failed(offset)
    {
      if offset + 2 * k > |buffer| { return Raised; }
      var fields: seq<int> := [];
      for i := 0 to k
        invariant fields == Shorts(buffer[offset..offset + 2 * i])
      {
        ShortsAppend(buffer, offset, i);
        fields := fields + [ToShort(buffer[offset + 2 * i..offset + 2 * i + 2])];
      }
      return Ok(fields);
    }

    method ParseDate() returns (r: Try<Scalar>)
      modifies this`offset
      ensures Follows(r, offset, GetScalar(ReadDate, buffer, old(offset), 0))
    {
      hide Shorts;
      var fields := UnpackShorts(3);
      if fields.Raised? { return Raised; }
      offset := offset + 6;
      return Ok(Date(fields.value));
    }

    method ParseTime() returns (r: Try<Scalar>)
      modifies this`offset
      ensures Follows(r, offset, GetScalar(ReadTime, buffer, old(offset), 0))
    {
      hide Shorts;
      var fields := UnpackShorts(3);
      if fields.Raised? { return Raised; }
      offset := offset + 6;
      return Ok(Time(fields.value));
    }

    method ParseDateTime() returns (r: Try<Scalar>)
      modifies this`offset
      ensures Follows(r, offset, GetScalar(ReadDateTime, buffer, old(offset), 0))
    {
      hide Shorts;
      var fields := UnpackShorts(7);
      if fields.Raised? { return Raised; }
      offset := offset + 14;
      return Ok(DateTime(fields.value));
    }

    method ParseTimestamp() returns (r: Try<Scalar>)
      modifies this`offset
      ensures Follows(r, offset, GetScalar(ReadTimestamp, buffer, old(offset), 0))
    {
      hide Shorts;
      var fields := UnpackShorts(6);
      if fields.Raised? { return Raised; }
      offset := offset + 12;
      return Ok(Timestamp(fields.value));
    }

    /** Seven shorts, then the zone in what is left of the size. */
    method ParseTimestampTz(size: nat) returns (r: Try<Scalar>)
      modifies this`offset
      ensures Follows(r, offset, GetZoned(buffer, old(offset), size))
    {
      hide Shorts;
      var fields := UnpackShorts(7);
      if fields.Raised? { return Raised; }
      offset := offset + 14;
      var zoneLength := size - 14;
      var zone: seq<byte> := [];
      if zoneLength > 0 {
        var text := ParseNullTerminatedString(zoneLength);
        if text.Raised? { return Raised; }
        zone := text.value;
      }
      return Ok(Zoned(fields.value, zone));
    }

    method ParseObject() returns (r: Try<Scalar>)
      modifies this`offset
      ensures Follows(r, offset, GetOid(buffer, old(offset)))
    {
      hide GetInt, GetShort;
      var page := ParseInt();
      if page.Raised? { return Raised; }
      var slot := ParseShort();
      if slot.Raised? { return Raised; }
      var volume := ParseShort();
      if volume.Raised? { return Raised; }
      return Ok(Oid(page.value, slot.value, volume.value));
    }

    /** Takes the packed handle, and reads it with a reader of its own. */
    method ReadLobHandle(size: nat, kind: byte) returns (r: Try<Scalar>)
      modifies this`offset
      ensures Follows(r, offset, GetLob(kind, buffer, old(offset), size))
    {
      hide GetInt, GetLong, GetText;
      var packed := ParseBytes(size);
      var lobReader := new PacketReader(packed, false);
      var skipped := lobReader.ParseInt();
      if skipped.Raised? { return Raised; }
      var length := lobReader.ParseLong();
      if length.Raised? { return Raised; }
      var locatorSize := lobReader.ParseInt();
      if locatorSize.Raised? { return Raised; }
      var locator := lobReader.ParseNullTerminatedString(locatorSize.value);
      if locator.Raised? { return Raised; }
      return Ok(Lob(kind, length.value, locator.value, packed));
    }

    /** The methods that read a text of the given size. */
    method ParseText(m: Method, size: nat) returns (r: Try<Scalar>)
      requires m == ReadText || m == ReadJson || m == ReadNumeric
      modifies this`offset
      ensures Follows(r, offset, GetScalar(m, buffer, old(offset), size))
    {
      hide GetText;
      var text := ParseNullTerminatedString(size);
      if text.Raised? { return Raised; }
      return Ok(if m == ReadText then Text(text.value) else if m == ReadJson then Json(text.value) else Numeric(text.value));
    }

    /** The methods that read one number of a fixed width, whatever the size says. */
    method ParseNumber(m: Method, ghost size: nat) returns (r: Try<Scalar>)
      requires m == ReadShort || m == ReadInt || m == ReadLong || m == ReadFloat || m == ReadDouble
      modifies this`offset
      ensures Follows(r, offset, GetScalar(m, buffer, old(offset), size))
    {
      hide GetShort, GetInt, GetLong, GetFixed;
      if m == ReadFloat || m == ReadDouble {
        var raw := ParseReal(if m == ReadFloat then 4 else 8);
        if raw.Raised? { return Raised; }
        return Ok(if m == ReadFloat then Float4(raw.value) else Float8(raw.value));
      }
      var v: Try<int>;
      if m == ReadShort { v := ParseShort(); } else if m == ReadInt { v := ParseInt(); } else { v := ParseLong(); }
      if v.Raised? { return Raised; }
      return Ok(if m == ReadShort then Int16(v.value) else if m == ReadInt then Int32(v.value) else Int64(v.value));
    }

    /** A call of the method a dispatch table names, other than the collection one. */
    method ParseScalar(m: Method, size: nat) returns (r: Try<Scalar>)
      requires m != ReadCollection
      modifies this`offset
      ensures Follows(r, offset, GetScalar(m, buffer, old(offset), size))
    {
      hide GetShorts, GetZoned, GetOid, GetLob, GetText, GetShort, GetInt, GetLong, GetFixed;
      match m {
        case ReadText => r := ParseText(m, size);
        case ReadJson => r := ParseText(m, size);
        case ReadNumeric => r := ParseText(m, size);
        case ReadShort => r := ParseNumber(m, size);
        case ReadInt => r := ParseNumber(m, size);
        case ReadLong => r := ParseNumber(m, size);
        case ReadFloat => r := ParseNumber(m, size);
        case ReadDouble => r := ParseNumber(m, size);
        case ReadDate => r := ParseDate();
        case ReadTime => r := ParseTime();
        case ReadDateTime => r := ParseDateTime();
        case ReadTimestamp => r := ParseTimestamp();
        case ReadZoned => r := ParseTimestampTz(size);
        case ReadObject => r := ParseObject();
        case ReadBytes =>
          var raw := ParseBytes(size);
          r := Ok(Raw(raw));
        case ReadLob(kind) => r := ReadLobHandle(size, kind);
      }
    }

    /** The collection parser: it reads the header, and for the two opaque exits moves back to
        the start and takes the whole payload. */
    method ParseCollection(size: nat) returns (r: Try<Value>)
      modifies this`offset
      ensures Follows(r, offset, GetCollection(decode, buffer, old(offset), size))
    {
      if !decode {
        var raw := ParseBytes(size);
        return Ok(One(Raw(raw)));
      }
      var startOffset := offset;
      var elementType := ParseByte();
      if elementType.Raised? { return Raised; }
      var elementCount := ParseInt();
      if elementCount.Raised? { return Raised; }
      if SET_TYPE <= elementType.value <= SEQUENCE_TYPE {
        offset := startOffset;
        var raw := ParseBytes(size);
        return Ok(One(Raw(raw)));
      }
      var m := ElementMethod(elementType.value);
      if m.None? {
        offset := startOffset;
        var raw := ParseBytes(size);
        return Ok(One(Raw(raw)));
      }
      var values := ParseElements(m.value, elementCount.value);
      if values.Raised? { return Raised; }
      return Ok(List(values.value));
    }

    /** The element loop of the collection parser. */
    method ParseElements(m: Method, count: int) returns (r: Try<seq<Scalar>>)
      requires m != ReadCollection
      modifies this`offset
      ensures Follows(r, offset, GetElements(m, buffer, old(offset), count))
    {
      hide GetScalar, GetInt, GetElements;
      var values: seq<Scalar> := [];
      ghost var goal := GetElements(m, buffer, offset, count);
      BeforeNothing(goal);
      var i := 0;
      while i < count
        invariant 0 <= i && (i <= count || count < 0)
        invariant goal == Before(values, GetElements(m, buffer, offset, count - i))
      {
        ghost var o := offset;
        ghost var rest := GetElements(m, buffer, o, count - i);
        var size := ParseInt();
        ElementsStep(m, buffer, o, count - i);
        if size.Raised? { return Raised; }
        if size.value <= 0 {
          BeforeOne(values, Absent, GetElements(m, buffer, offset, count - i - 1));
          values := values + [Absent];
        } else {
          var v := ParseScalar(m, size.value);
          if v.Raised? { return Raised; }
          BeforeOne(values, v.value, GetElements(m, buffer, offset, count - i - 1));
          values := values + [v.value];
        }
        i := i + 1;
      }
      ElementsEnd(m, buffer, offset, count - i);
      BeforeDone(values, offset);
      return Ok(values);
    }

    method ParseValue(m: Method, size: nat) returns (r: Try<Value>)
      modifies this`offset
      ensures Follows(r, offset, GetValue(m, decode, buffer, old(offset), size))
    {
      hide GetScalar, GetCollection;
      if m == ReadCollection {
        r := ParseCollection(size);
      } else {
        var s := ParseScalar(m, size);
        if s.Raised? { return Raised; }
        return Ok(One(s.value));
      }
    }
  }

  lemma {:induction false} ShortsSplit(a: seq<byte>, c: seq<byte>)
    requires |a| % 2 == 0 && |c| == 2
    ensures Shorts(a + c) == Shorts(a) + [ToShort(c)]
    decreases |a|
  {
    if a == [] {
      assert a + c == c && c[..2] == c && c[2..] == [];
    } else {
      assert (a + c)[..2] == a[..2] && (a + c)[2..] == a[2..] + c;
      ShortsSplit(a[2..], c);
    }
  }

  lemma {:induction false} ShortsAppend(b: seq<byte>, o: nat, i: nat)
    requires o + 2 * i + 2 <= |b|
    ensures Shorts(b[o..o + 2 * (i + 1)]) == Shorts(b[o..o + 2 * i]) + [ToShort(b[o + 2 * i..o + 2 * i + 2])]
  {
    hide ToShort, Shorts;
    var a, c := b[o..o + 2 * i], b[o + 2 * i..o + 2 * i + 2];
    assert b[o..o + 2 * (i + 1)] == a + c;
    ShortsSplit(a, c);
  }

  lemma {:induction false} ElementsStep(m: Method, b: seq<byte>, o: nat, count: int)
    requires m != ReadCollection && count > 0
    ensures var size := GetInt(b, o);
            if size.Failed? then GetElements(m, b, o, count) == Failed(size.off)
            else if size.value <= 0 then
              GetElements(m, b, o, count) == Before([Absent], GetElements(m, b, size.off, count - 1))
            else
              var v := GetScalar(m, b, size.off, size.value);
              if v.Failed? then GetElements(m, b, o, count) == Failed(v.off)
              else GetElements(m, b, o, count) == Before([v.value], GetElements(m, b, v.off, count - 1))
  {
    hide GetInt, GetScalar;
  }

  lemma {:induction false} ElementsEnd(m: Method, b: seq<byte>, o: nat, count: int)
    requires m != ReadCollection && count <= 0
    ensures GetElements(m, b, o, count) == Got([], o)
  {
  }

  // ---- Column metadata and result infos ----------------------------------------------------

  method ParseNames(reader: PacketReader) returns (r: Try<Names>)
    modifies reader`offset
    ensures Follows(r, reader.offset, GetNames(reader.buffer, old(reader.offset)))
  {
    hide GetSizedText;
    var name := reader.ParseSizedText();
    if name.Raised? { return Raised; }
    var realName := reader.ParseSizedText();
    if realName.Raised? { return Raised; }
    var tableName := reader.ParseSizedText();
    if tableName.Raised? { return Raised; }
    return Ok(Names(name.value, realName.value, tableName.value));
  }

  method ParseFlags(reader: PacketReader) returns (r: Try<Flags>)
    modifies reader`offset
    ensures Follows(r, reader.offset, GetFlags(reader.buffer, old(reader.offset)))
  {
    hide GetFlag;
    var autoIncrement := reader.ParseFlag();
    if autoIncrement.Raised? { return Raised; }
    var uniqueKey := reader.ParseFlag();
    if uniqueKey.Raised? { return Raised; }
    var primaryKey := reader.ParseFlag();
    if primaryKey.Raised? { return Raised; }
    var reverseIndex := reader.ParseFlag();
    if reverseIndex.Raised? { return Raised; }
    var reverseUnique := reader.ParseFlag();
    if reverseUnique.Raised? { return Raised; }
    var foreignKey := reader.ParseFlag();
    if foreignKey.Raised? { return Raised; }
    var shared := reader.ParseFlag();
    if shared.Raised? { return Raised; }
    return Ok(Flags(autoIncrement.value, uniqueKey.value, primaryKey.value, reverseIndex.value,
                    reverseUnique.value, foreignKey.value, shared.value));
  }

  method ParseColumn(reader: PacketReader) returns (r: Try<Column>)
    modifies reader`offset
    ensures Follows(r, reader.offset, GetColumn(reader.buffer, old(reader.offset)))
  {
    hide GetShort, GetInt, GetNames, GetFlag, GetSizedText, GetFlags;
    var legacyType := reader.ParseByte();
    if legacyType.Raised? { return Raised; }
    var columnType := legacyType;
    if legacyType.value >= 0x80 {
      columnType := reader.ParseByte();
      if columnType.Raised? { return Raised; }
    }
    var scale := reader.ParseShort();
    if scale.Raised? { return Raised; }
    var precision := reader.ParseInt();
    if precision.Raised? { return Raised; }
    var names := ParseNames(reader);
    if names.Raised? { return Raised; }
    var nullable := reader.ParseFlag();
    if nullable.Raised? { return Raised; }
    var default := reader.ParseSizedText();
    if default.Raised? { return Raised; }
    var flags := ParseFlags(reader);
    if flags.Raised? { return Raised; }
    return Ok(Column(columnType.value, scale.value, precision.value, names.value,
                     nullable.value, default.value, flags.value));
  }

  lemma {:induction false} ColumnsStep(b: seq<byte>, o: nat, count: int)
    ensures var c := GetColumn(b, o);
            if count <= 0 then GetColumns(b, o, count) == Got([], o)
            else if c.Failed? then GetColumns(b, o, count) == Failed(c.off)
            else GetColumns(b, o, count) == Before([c.value], GetColumns(b, c.off, count - 1))
  {
    hide GetColumn;
  }

  method ParseColumnMetadata(reader: PacketReader, count: int) returns (r: Try<seq<Column>>)
    modifies reader`offset
    ensures Follows(r, reader.offset, GetColumns(reader.buffer, old(reader.offset), count))
  {
    hide GetColumn, GetColumns;
    var columns: seq<Column> := [];
    ghost var goal := GetColumns(reader.buffer, reader.offset, count);
    BeforeNothing(goal);
    var i := 0;
    while i < count
      invariant 0 <= i && (i <= count || count < 0)
      invariant goal == Before(columns, GetColumns(reader.buffer, reader.offset, count - i))
    {
      ColumnsStep(reader.buffer, reader.offset, count - i);
      var c := ParseColumn(reader);
      if c.Raised? { return Raised; }
      BeforeOne(columns, c.value, GetColumns(reader.buffer, reader.offset, count - i - 1));
      columns := columns + [c.value];
      i := i + 1;
    }
    ColumnsStep(reader.buffer, reader.offset, count - i);
    BeforeDone(columns, reader.offset);
    return Ok(columns);
  }

  method ParseInfo(reader: PacketReader) returns (r: Try<ResultInfo>)
    modifies reader`offset
    ensures Follows(r, reader.offset, GetInfo(reader.buffer, old(reader.offset)))
  {
    hide GetByte, GetInt, Slice;
    var statementType := reader.ParseByte();
    if statementType.Raised? { return Raised; }
    var count := reader.ParseInt();
    if count.Raised? { return Raised; }
    var oid := reader.ParseBytes(OID_SIZE);
    var sec := reader.ParseInt();
    if sec.Raised? { return Raised; }
    var usec := reader.ParseInt();
    if usec.Raised? { return Raised; }
    return Ok(ResultInfo(statementType.value, count.value, oid, sec.value, usec.value));
  }

  lemma {:induction false} InfosStep(b: seq<byte>, o: nat, count: int)
    ensures var c := GetInfo(b, o);
            if count <= 0 then GetInfos(b, o, count) == Got([], o)
            else if c.Failed? then GetInfos(b, o, count) == Failed(c.off)
            else GetInfos(b, o, count) == Before([c.value], GetInfos(b, c.off, count - 1))
  {
    hide GetInfo;
  }

  method ParseResultInfos(reader: PacketReader, count: int) returns (r: Try<seq<ResultInfo>>)
    modifies reader`offset
    ensures Follows(r, reader.offset, GetInfos(reader.buffer, old(reader.offset), count))
  {
    hide GetInfo, GetInfos;
    var infos: seq<ResultInfo> := [];
    ghost var goal := GetInfos(reader.buffer, reader.offset, count);
    BeforeNothing(goal);
    var i := 0;
    while i < count
      invariant 0 <= i && (i <= count || count < 0)
      invariant goal == Before(infos, GetInfos(reader.buffer, reader.offset, count - i))
    {
      InfosStep(reader.buffer, reader.offset, count - i);
      var x := ParseInfo(reader);
      if x.Raised? { return Raised; }
      BeforeOne(infos, x.value, GetInfos(reader.buffer, reader.offset, count - i - 1));
      infos := infos + [x.value];
      i := i + 1;
    }
    InfosStep(reader.buffer, reader.offset, count - i);
    BeforeDone(infos, reader.offset);
    return Ok(infos);
  }

  // ---- Rows -------------------------------------------------------------------------------------

  lemma {:induction false} CellsStep(path: Path, isCall: bool, types: seq<byte>, decode: bool, b: seq<byte>, o: nat, i: nat)
    requires i < |types|
    ensures var c := GetCell(path, isCall, types[i], decode, b, o);
            if c.Failed? then GetCells(path, isCall, types[i..], decode, b, o) == Failed(c.off)
            else GetCells(path, isCall, types[i..], decode, b, o) ==
                 Before([c.value], GetCells(path, isCall, types[i + 1..], decode, b, c.off))
  {
    hide GetCell;
    assert types[i..][1..] == types[i + 1..];
  }

  /** One cell of the fast path: its reader was resolved before the rows were read. */
  method ParseFastCell(reader: PacketReader, isCall: bool, t: byte, columnReader: Method) returns (r: Try<Value>)
    requires columnReader == Resolve(t)
    modifies reader`offset
    ensures Follows(r, reader.offset, GetCell(Fast, isCall, t, reader.decode, reader.buffer, old(reader.offset)))
  {
    hide GetInt, GetValue, Convert, Resolve;
    var size := reader.ParseInt();
    if size.Raised? { return Raised; }
    if size.value <= 0 { return Ok(One(Absent)); }
    var v := reader.ParseValue(columnReader, size.value);
    if v.Raised? { return Raised; }
    return Ok(Convert(t, v.value));
  }

  /** One cell of the slow path: a call's cell, or a NULL-typed column's, brings its type. */
  method ParseSlowCell(reader: PacketReader, isCall: bool, t: byte) returns (r: Try<Value>)
    modifies reader`offset
    ensures Follows(r, reader.offset, GetCell(Slow, isCall, t, reader.decode, reader.buffer, old(reader.offset)))
  {
    hide GetInt, GetByte, GetDispatched;
    var first := reader.ParseInt();
    if first.Raised? { return Raised; }
    var size := first.value;
    if size <= 0 { return Ok(One(Absent)); }
    var actual := t;
    if isCall || t == NULL_TYPE {
      var typeByte := reader.ParseByte();
      if typeByte.Raised? { return Raised; }
      actual := typeByte.value;
      size := size - 1;
      if size <= 0 { return Ok(One(Absent)); }
    }
    r := ParseDispatched(reader, actual, size);
  }

  method ParseDispatched(reader: PacketReader, t: byte, size: nat) returns (r: Try<Value>)
    modifies reader`offset
    ensures Follows(r, reader.offset, GetDispatched(t, reader.decode, reader.buffer, old(reader.offset), size))
  {
    hide GetValue, Convert, TypeMethod, Slice;
    var m := TypeMethod(t);
    if m.Some? {
      var v := reader.ParseValue(m.value, size);
      if v.Raised? { return Raised; }
      return Ok(Convert(t, v.value));
    } else {
      var raw := reader.ParseBytes(size);
      return Ok(One(Raw(raw)));
    }
  }

  /** The cell loop of either path, over a row that starts out all null. */
  method ParseCells(reader: PacketReader, path: Path, isCall: bool, types: seq<byte>, columnReaders: seq<Method>)
    returns (r: Try<seq<Value>>)
    requires path == Fast || path == Slow
    requires path == Fast ==> |columnReaders| == |types| && forall i :: 0 <= i < |types| ==> columnReaders[i] == Resolve(types[i])
    modifies reader`offset
    ensures Follows(r, reader.offset, GetCells(path, isCall, types, reader.decode, reader.buffer, old(reader.offset)))
  {
    hide GetCell, GetCells, Resolve;
    var row := seq(|types|, _ => One(Absent));
    ghost var goal := GetCells(path, isCall, types, reader.decode, reader.buffer, reader.offset);
    BeforeNothing(goal);
    assert row[..0] == [] && types[0..] == types;
    for i := 0 to |types|
      invariant |row| == |types|
      invariant goal == Before(row[..i], GetCells(path, isCall, types[i..], reader.decode, reader.buffer, reader.offset))
    {
      CellsStep(path, isCall, types, reader.decode, reader.buffer, reader.offset, i);
      var v: Try<Value>;
      if path == Fast {
        v := ParseFastCell(reader, isCall, types[i], columnReaders[i]);
      } else {
        v := ParseSlowCell(reader, isCall, types[i]);
      }
      if v.Raised? { return Raised; }
      BeforeOne(row[..i], v.value, GetCells(path, isCall, types[i + 1..], reader.decode, reader.buffer, reader.offset));
      row := row[i := v.value];
      assert row[..i + 1] == row[..i] + [v.value];
    }
    CellsEnd(path, isCall, reader.decode, reader.buffer, reader.offset);
    assert types[|types|..] == [] && row[..|types|] == row;
    BeforeDone(row, reader.offset);
    return Ok(row);
  }

  lemma {:induction false} CellsEnd(path: Path, isCall: bool, decode: bool, b: seq<byte>, o: nat)
    ensures GetCells(path, isCall, [], decode, b, o) == Got([], o)
  {
  }

  lemma {:induction false} RowsStep(path: Path, isCall: bool, types: seq<byte>, decode: bool, b: seq<byte>, o: nat, count: int)
    ensures var c := GetRow(path, isCall, types, decode, b, o);
            if count <= 0 then GetRows(path, isCall, types, decode, b, o, count) == Got([], o)
            else if c.Failed? then GetRows(path, isCall, types, decode, b, o, count) == Failed(c.off)
            else GetRows(path, isCall, types, decode, b, o, count) ==
                 Before([c.value], GetRows(path, isCall, types, decode, b, c.off, count - 1))
  {
    hide GetRow;
  }

  method ParseRow(reader: PacketReader, path: Path, isCall: bool, types: seq<byte>, columnReaders: seq<Method>)
    returns (r: Try<seq<Value>>)
    requires path == Fast || path == Slow
    requires path == Fast ==> |columnReaders| == |types| && forall i :: 0 <= i < |types| ==> columnReaders[i] == Resolve(types[i])
    modifies reader`offset
    ensures Follows(r, reader.offset, GetRow(path, isCall, types, reader.decode, reader.buffer, old(reader.offset)))
  {
    hide GetInt, GetCells, Resolve;
    var index := reader.ParseInt();
    if index.Raised? { return Raised; }
    reader.SkipBytes(OID_SIZE);
    r := ParseCells(reader, path, isCall, types, columnReaders);
  }

  method ParseRowData(reader: PacketReader, tupleCount: int, columns: seq<Column>, statementType: byte)
    returns (r: Try<seq<seq<Value>>>)
    modifies reader`offset
    ensures Follows(r, reader.offset,
      GetRowData(IsCallType(statementType), Types(columns), reader.decode, reader.buffer, old(reader.offset), tupleCount))
  {
    hide GetRow, GetRows, Resolve, IsCallType, Types;
    var isCall := IsCallType(statementType);
    var types := Types(columns);
    var path, columnReaders := Slow, [];
    if !(isCall || NULL_TYPE in types) {
      path := Fast;
      columnReaders := seq(|types|, i requires 0 <= i < |types| => Resolve(types[i]));
    }
    var rows: seq<seq<Value>> := [];
    ghost var goal := GetRows(path, isCall, types, reader.decode, reader.buffer, reader.offset, tupleCount);
    BeforeNothing(goal);
    var i := 0;
    while i < tupleCount
      invariant 0 <= i && (i <= tupleCount || tupleCount < 0)
      invariant goal == Before(rows, GetRows(path, isCall, types, reader.decode, reader.buffer, reader.offset, tupleCount - i))
    {
      RowsStep(path, isCall, types, reader.decode, reader.buffer, reader.offset, tupleCount - i);
      var row := ParseRow(reader, path, isCall, types, columnReaders);
      if row.Raised? { return Raised; }
      BeforeOne(rows, row.value, GetRows(path, isCall, types, reader.decode, reader.buffer, reader.offset, tupleCount - i - 1));
      rows := rows + [row.value];
      i := i + 1;
    }
    RowsStep(path, isCall, types, reader.decode, reader.buffer, reader.offset, tupleCount - i);
    BeforeDone(rows, reader.offset);
    return Ok(rows);
  }
}
