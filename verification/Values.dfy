/** Column values on the wire (pycubrid/packet.py, pycubrid/protocol.py): the type dispatch
    tables, what each reading method does at an offset, and a reference encoder. Characters,
    calendar dates, decimals and floats stay the bytes or numbers they arrive as. */
module Values {
  import opened Basics
  import opened Wire

  // ---- Types and reading methods -----------------------------------------------------

  const NULL_TYPE: byte := 0
  const SET_TYPE: byte := 16
  const SEQUENCE_TYPE: byte := 18
  const BLOB_TYPE: byte := 23
  const CLOB_TYPE: byte := 24

  datatype Method =
    | ReadText | ReadShort | ReadInt | ReadLong | ReadFloat | ReadDouble | ReadNumeric
    | ReadDate | ReadTime | ReadDateTime | ReadTimestamp | ReadZoned
    | ReadObject | ReadBytes | ReadLob(kind: byte) | ReadJson | ReadCollection

  /** _COLLECTION_ELEMENT_METHOD_NAMES. */
  function ElementMethod(t: byte): Option<Method> {
    if 1 <= t <= 4 || t == 25 then Some(ReadText)
    else if t == 5 || t == 6 then Some(ReadBytes)
    else if t == 7 then Some(ReadNumeric)
    else if t == 8 then Some(ReadInt)
    else if t == 9 then Some(ReadShort)
    else if t == 10 || t == 12 then Some(ReadDouble)
    else if t == 11 then Some(ReadFloat)
    else if t == 13 then Some(ReadDate)
    else if t == 14 then Some(ReadTime)
    else if t == 15 then Some(ReadTimestamp)
    else if t == 19 then Some(ReadObject)
    else if t == 21 then Some(ReadLong)
    else if t == 22 then Some(ReadDateTime)
    else if t == BLOB_TYPE || t == CLOB_TYPE then Some(ReadLob(t))
    else None
  }

  /** _TYPE_METHOD_NAMES: the element table plus JSON, zoned times and collections. */
  function TypeMethod(t: byte): Option<Method> {
    if SET_TYPE <= t <= SEQUENCE_TYPE then Some(ReadCollection)
    else if 29 <= t <= 32 then Some(ReadZoned)
    else if t == 34 then Some(ReadJson)
    else ElementMethod(t)
  }

  /** _resolve_reader: unknown types are read as raw bytes. */
  function Resolve(t: byte): Method {
    if TypeMethod(t).Some? then TypeMethod(t).value else ReadBytes
  }

  datatype Scalar =
    | Absent
    | Text(text: seq<byte>)
    | Json(text: seq<byte>)
    | Numeric(text: seq<byte>)
    | Int16(i: int)
    | Int32(i: int)
    | Int64(i: int)
    | Float4(raw: seq<byte>)
    | Float8(raw: seq<byte>)
    | Date(fields: seq<int>)
    | Time(fields: seq<int>)
    | DateTime(fields: seq<int>)
    | Timestamp(fields: seq<int>)
    | Zoned(fields: seq<int>, zone: seq<byte>)
    | Oid(page: int, slot: int, volume: int)
    | Raw(raw: seq<byte>)
    | Lob(kind: byte, length: int, locator: seq<byte>, packed: seq<byte>)

  /** A cell as the caller sees it. Frozen is Python's frozenset, which keeps one of each
      value; Tuple is the fallback for elements that cannot be hashed. */
  datatype Value =
    | One(s: Scalar)
    | List(elems: seq<Scalar>)
    | Frozen(members: set<Scalar>)
    | Tuple(elems: seq<Scalar>)

  // ---- Reading ---------------------------------------------------------------------------

  function Shorts(raw: seq<byte>): (fields: seq<int>)
    requires |raw| % 2 == 0
    ensures |fields| == |raw| / 2
  {
    if raw == [] then [] else [ToShort(raw[..2])] + Shorts(raw[2..])
  }

  /** k shorts unpacked together. */
  function GetShorts(b: seq<byte>, o: nat, k: nat): Read<seq<int>> {
    if o + 2 * k <= |b| then Got(Shorts(b[o..o + 2 * k]), o + 2 * k) else Failed(o)
  }

  function GetZoned(b: seq<byte>, o: nat, size: int): Read<Scalar> {
    var (fields, o1) :- GetShorts(b, o, 7);
    var (zone, o2) :- GetText(b, o1, size - 14);
    Got(Zoned(fields, zone), o2)
  }

  function GetOid(b: seq<byte>, o: nat): Read<Scalar> {
    var (page, o1) :- GetInt(b, o);
    var (slot, o2) :- GetShort(b, o1);
    var (volume, o3) :- GetShort(b, o2);
    Got(Oid(page, slot, volume), o3)
  }

  /** The inside of a packed LOB handle, read from its own start. */
  function GetLobHandle(packed: seq<byte>): Read<(int, seq<byte>)> {
    var (_, o1) :- GetInt(packed, 0);
    var (length, o2) :- GetLong(packed, o1);
    var (size, o3) :- GetInt(packed, o2);
    var (locator, o4) :- GetText(packed, o3, size);
    Got((length, locator), o4)
  }

  function GetLob(kind: byte, b: seq<byte>, o: nat, size: nat): Read<Scalar> {
    var packed := Slice(b, o, size);
    match GetLobHandle(packed)
    case Failed(_) => Failed(o + size)
    case Got(v, _) => Got(Lob(kind, v.0, v.1, packed), o + size)
  }

  /** What calling a reading method (other than the collection one) with a size does. */
  function GetScalar(m: Method, b: seq<byte>, o: nat, size: nat): Read<Scalar>
    requires m != ReadCollection
  {
    match m
    case ReadText => var (t, o1) :- GetText(b, o, size); Got(Text(t), o1)
    case ReadJson => var (t, o1) :- GetText(b, o, size); Got(Json(t), o1)
    case ReadNumeric => var (t, o1) :- GetText(b, o, size); Got(Numeric(t), o1)
    case ReadShort => var (v, o1) :- GetShort(b, o); Got(Int16(v), o1)
    case ReadInt => var (v, o1) :- GetInt(b, o); Got(Int32(v), o1)
    case ReadLong => var (v, o1) :- GetLong(b, o); Got(Int64(v), o1)
    case ReadFloat => var (raw, o1) :- GetFixed(b, o, 4); Got(Float4(raw), o1)
    case ReadDouble => var (raw, o1) :- GetFixed(b, o, 8); Got(Float8(raw), o1)
    case ReadDate => var (f, o1) :- GetShorts(b, o, 3); Got(Date(f), o1)
    case ReadTime => var (f, o1) :- GetShorts(b, o, 3); Got(Time(f), o1)
    case ReadDateTime => var (f, o1) :- GetShorts(b, o, 7); Got(DateTime(f), o1)
    case ReadTimestamp => var (f, o1) :- GetShorts(b, o, 6); Got(Timestamp(f), o1)
    case ReadZoned => GetZoned(b, o, size)
    case ReadObject => GetOid(b, o)
    case ReadBytes => Got(Raw(Slice(b, o, size)), o + size)
    case ReadLob(kind) => GetLob(kind, b, o, size)
  }

  /** The element loop of the collection parser. */
  function GetElements(m: Method, b: seq<byte>, o: nat, count: int): Read<seq<Scalar>>
    requires m != ReadCollection
    decreases count
  {
    if count <= 0 then Got([], o)
    else
      var (size, o1) :- GetInt(b, o);
      var (v, o2) :- if size <= 0 then Got(Absent, o1) else GetScalar(m, b, o1, size);
      var (vs, o3) :- GetElements(m, b, o2, count - 1);
      Got([v] + vs, o3)
  }

  /** _parse_collection and its four exits: not decoding, nested, unknown element, decoded. */
  function GetCollection(decode: bool, b: seq<byte>, o: nat, size: nat): Read<Value> {
    if !decode then Got(One(Raw(Slice(b, o, size))), o + size)
    else
      var (t, o1) :- GetByte(b, o);
      var (count, o2) :- GetInt(b, o1);
      if SET_TYPE <= t <= SEQUENCE_TYPE || ElementMethod(t).None? then
        Got(One(Raw(Slice(b, o, size))), o + size)
      else
        var (vs, o3) :- GetElements(ElementMethod(t).value, b, o2, count);
        Got(List(vs), o3)
  }

  function GetValue(m: Method, decode: bool, b: seq<byte>, o: nat, size: nat): Read<Value> {
    if m == ReadCollection then GetCollection(decode, b, o, size)
    else
      var (s, o1) :- GetScalar(m, b, o, size);
      Got(One(s), o1)
  }

  /** _convert_collection_value: LOB handles are dictionaries and cannot be hashed. */
  function Convert(t: byte, v: Value): Value {
    if v.List? && t == SET_TYPE then
      if exists s <- v.elems :: s.Lob? then Tuple(v.elems) else Frozen(set s <- v.elems)
    else v
  }

  /** A cell of type code t, as both row paths treat it: looked up, read, converted. */
  function GetTyped(t: byte, decode: bool, b: seq<byte>, o: nat, size: nat): Read<Value> {
    var (v, o1) :- GetValue(Resolve(t), decode, b, o, size);
    Got(Convert(t, v), o1)
  }

  // ---- The reference encoder ---------------------------------------------------------------

  function PackShorts(fields: seq<int>): (raw: seq<byte>)
    requires forall i :: 0 <= i < |fields| ==> IsShort(fields[i])
    ensures |raw| == 2 * |fields|
  {
    if fields == [] then [] else Short(fields[0]) + PackShorts(fields[1..])
  }

  predicate AreShorts(fields: seq<int>, k: nat) {
    |fields| == k && forall i :: 0 <= i < k ==> IsShort(fields[i])
  }

  /** What a server can send: numbers in their width, texts and bytes short enough for their
      size field. No bytes at all are sent as a null. */
  predicate Proper(s: Scalar) {
    match s
    case Absent => false
    case Text(text) => |text| < 0x7FFF_FFFF
    case Json(text) => |text| < 0x7FFF_FFFF
    case Numeric(text) => |text| < 0x7FFF_FFFF
    case Int16(i) => IsShort(i)
    case Int32(i) => IsInt(i)
    case Int64(i) => IsLong(i)
    case Float4(raw) => |raw| == 4
    case Float8(raw) => |raw| == 8
    case Date(fields) => AreShorts(fields, 3)
    case Time(fields) => AreShorts(fields, 3)
    case DateTime(fields) => AreShorts(fields, 7)
    case Timestamp(fields) => AreShorts(fields, 6)
    case Zoned(fields, zone) => AreShorts(fields, 7) && |zone| < 0x7FFF_FF00
    case Oid(page, slot, volume) => IsInt(page) && IsShort(slot) && IsShort(volume)
    case Raw(raw) => 0 < |raw| < 0x8000_0000
    case Lob(_, length, locator, packed) =>
      && IsLong(length) && |locator| < 0x7FFF_FF00 && |packed| == |locator| + 17
      && packed[4..] == Long(length) + Int(|locator| + 1) + Terminated(locator)
  }

  /** The bytes of a scalar, which depend on nothing but the scalar. */
  function Encode(s: Scalar): (raw: seq<byte>)
    requires Proper(s)
    ensures 0 < |raw| < 0x8000_0000
  {
    match s
    case Text(text) => Terminated(text)
    case Json(text) => Terminated(text)
    case Numeric(text) => Terminated(text)
    case Int16(i) => Short(i)
    case Int32(i) => Int(i)
    case Int64(i) => Long(i)
    case Float4(raw) => raw
    case Float8(raw) => raw
    case Date(fields) => PackShorts(fields)
    case Time(fields) => PackShorts(fields)
    case DateTime(fields) => PackShorts(fields)
    case Timestamp(fields) => PackShorts(fields)
    case Zoned(fields, zone) => PackShorts(fields) + if zone == [] then [] else Terminated(zone)
    case Oid(page, slot, volume) => Int(page) + (Short(slot) + Short(volume))
    case Raw(raw) => raw
    case Lob(_, _, _, packed) => packed
  }

  /** The type codes of the protocol, as numbers: which scalars a server sends under a code.
      A code that no other kind of scalar has bears raw bytes. */
  predicate Bears(code: byte, s: Scalar) {
    match s
    case Absent => false
    case Text(_) => code in {1, 2, 3, 4, 25}
    case Raw(_) => code in {0, 5, 6, 20, 26, 27, 28, 33} || code > 34
    case Numeric(_) => code == 7
    case Int32(_) => code == 8
    case Int16(_) => code == 9
    case Float8(_) => code == 10 || code == 12
    case Float4(_) => code == 11
    case Date(_) => code == 13
    case Time(_) => code == 14
    case Timestamp(_) => code == 15
    case Oid(_, _, _) => code == 19
    case Int64(_) => code == 21
    case DateTime(_) => code == 22
    case Lob(kind, _, _, _) => kind == code && (code == 23 || code == 24)
    case Zoned(_, _) => code in {29, 30, 31, 32}
    case Json(_) => code == 34
  }

  predicate Sends(code: byte, s: Scalar) { Proper(s) && Bears(code, s) }

  /** SET, MULTISET and SEQUENCE. */
  predicate IsCollectionCode(code: byte) { code == 16 || code == 17 || code == 18 }

  /** The codes whose elements are sent one by one: neither collections nor zoned times, JSON
      or anything newer. */
  predicate IsElementCode(code: byte) { 1 <= code <= 15 || code == 19 || 21 <= code <= 25 }

  /** The kind of scalar that a reading method gives. */
  predicate Fits(m: Method, s: Scalar) {
    Proper(s) &&
    match m
    case ReadText => s.Text?
    case ReadJson => s.Json?
    case ReadNumeric => s.Numeric?
    case ReadShort => s.Int16?
    case ReadInt => s.Int32?
    case ReadLong => s.Int64?
    case ReadFloat => s.Float4?
    case ReadDouble => s.Float8?
    case ReadDate => s.Date?
    case ReadTime => s.Time?
    case ReadDateTime => s.DateTime?
    case ReadTimestamp => s.Timestamp?
    case ReadZoned => s.Zoned?
    case ReadObject => s.Oid?
    case ReadBytes => s.Raw?
    case ReadLob(kind) => s.Lob? && s.kind == kind
    case ReadCollection => false
  }

  /** The dispatch tables name, for every code, the method that reads what is sent under it. */
  lemma TablesFit(code: byte, s: Scalar)
    ensures IsCollectionCode(code) <==> Resolve(code) == ReadCollection
    ensures IsElementCode(code) <==> ElementMethod(code).Some?
    ensures IsElementCode(code) ==> ElementMethod(code).value != ReadCollection
    ensures Sends(code, s) ==> Fits(Resolve(code), s)
    ensures Sends(code, s) && IsElementCode(code) ==> Fits(ElementMethod(code).value, s)
  {
    hide Proper;
  }

  lemma {:induction false} ShortsOfPack(fields: seq<int>)
    requires forall i :: 0 <= i < |fields| ==> IsShort(fields[i])
    ensures Shorts(PackShorts(fields)) == fields
    decreases |fields|
  {
    if fields != [] {
      ShortsOfPack(fields[1..]);
      PackUnpack(fields[0]);
      var raw := PackShorts(fields);
      assert raw[..2] == Short(fields[0]) && raw[2..] == PackShorts(fields[1..]);
    }
  }

  lemma {:induction false} GetShortsAt(b: seq<byte>, o: nat, fields: seq<int>)
    requires forall i :: 0 <= i < |fields| ==> IsShort(fields[i])
    requires At(b, o, PackShorts(fields))
    ensures GetShorts(b, o, |fields|) == Got(fields, o + 2 * |fields|)
  {
    ShortsOfPack(fields);
  }

  lemma GetZonedAt(b: seq<byte>, o: nat, s: Scalar)
    requires Fits(ReadZoned, s) && At(b, o, Encode(s))
    ensures var n := |Encode(s)|; GetZoned(b, o, n) == Got(s, o + n)
  {
    AtSplit(b, o, PackShorts(s.fields), if s.zone == [] then [] else Terminated(s.zone));
    GetShortsAt(b, o, s.fields);
    if s.zone != [] { GetTextAt(b, o + 14, s.zone); }
  }

  lemma GetOidAt(b: seq<byte>, o: nat, s: Scalar)
    requires Fits(ReadObject, s) && At(b, o, Encode(s))
    ensures GetOid(b, o) == Got(s, o + 8)
  {
    AtSplit(b, o, Int(s.page), Short(s.slot) + Short(s.volume));
    AtSplit(b, o + 4, Short(s.slot), Short(s.volume));
    GetIntAt(b, o, s.page);
    GetShortAt(b, o + 4, s.slot);
    GetShortAt(b, o + 6, s.volume);
  }

  lemma GetLobAt(kind: byte, b: seq<byte>, o: nat, s: Scalar)
    requires Fits(ReadLob(kind), s) && At(b, o, s.packed)
    ensures GetLob(kind, b, o, |s.packed|) == Got(s, o + |s.packed|)
  {
    var p := s.packed;
    var size := |s.locator| + 1;
    GetBytesAt(b, o, p);
    assert At(p, 4, Long(s.length) + Int(size) + Terminated(s.locator)) by { assert p[4..|p|] == p[4..]; }
    AtSplit(p, 4, Long(s.length) + Int(size), Terminated(s.locator));
    AtSplit(p, 4, Long(s.length), Int(size));
    GetLongAt(p, 4, s.length);
    GetIntAt(p, 12, size);
    GetTextAt(p, 16, s.locator);
  }

  /** Reading a scalar where its encoding stands gives it back and consumes exactly its size. */
  lemma GetScalarAt(m: Method, b: seq<byte>, o: nat, s: Scalar)
    requires Fits(m, s) && At(b, o, Encode(s))
    ensures var n := |Encode(s)|; GetScalar(m, b, o, n) == Got(s, o + n)
  {
    hide At, GetZoned, GetOid, GetLob, GetText, GetShorts, GetFixed, GetInt, GetShort, GetLong, PackShorts;
    match m {
      case ReadText => GetTextAt(b, o, s.text);
      case ReadJson => GetTextAt(b, o, s.text);
      case ReadNumeric => GetTextAt(b, o, s.text);
      case ReadShort => GetShortAt(b, o, s.i);
      case ReadInt => GetIntAt(b, o, s.i);
      case ReadLong => GetLongAt(b, o, s.i);
      case ReadFloat => GetBytesAt(b, o, s.raw);
      case ReadDouble => GetBytesAt(b, o, s.raw);
      case ReadDate => GetShortsAt(b, o, s.fields);
      case ReadTime => GetShortsAt(b, o, s.fields);
      case ReadDateTime => GetShortsAt(b, o, s.fields);
      case ReadTimestamp => GetShortsAt(b, o, s.fields);
      case ReadZoned => GetZonedAt(b, o, s);
      case ReadObject => GetOidAt(b, o, s);
      case ReadBytes => GetBytesAt(b, o, s.raw);
      case ReadLob(kind) => GetLobAt(kind, b, o, s);
    }
  }

  // ---- Collections and payloads ---------------------------------------------------------------

  /** A cell's content on the wire. Opaque is a collection whose elements are collections or
      of a type the element table does not have. */
  datatype Payload =
    | Single(s: Scalar)
    | Elements(elementType: byte, elems: seq<Scalar>)
    | Opaque(elementType: byte, count: int, body: seq<byte>)

  /** An element is null or a scalar of the element type. */
  predicate SendsElement(code: byte, s: Scalar) { s.Absent? || Sends(code, s) }

  predicate SendsElements(code: byte, elems: seq<Scalar>) {
    forall i :: 0 <= i < |elems| ==> SendsElement(code, elems[i])
  }

  function EncodeElement(code: byte, s: Scalar): seq<byte>
    requires SendsElement(code, s)
  {
    if s.Absent? then Int(0) else Int(|Encode(s)|) + Encode(s)
  }

  function EncodeElements(code: byte, elems: seq<Scalar>): seq<byte>
    requires SendsElements(code, elems)
  {
    if elems == [] then [] else EncodeElement(code, elems[0]) + EncodeElements(code, elems[1..])
  }

  /** The payloads that a server sends in a column of type code t. */
  predicate FitsPayload(t: byte, p: Payload) {
    match p
    case Single(s) => Sends(t, s)
    case Elements(e, elems) =>
      && IsCollectionCode(t) && IsElementCode(e) && |elems| < 0x8000_0000
      && SendsElements(e, elems) && |EncodeElements(e, elems)| < 0x7FFF_FF00
    case Opaque(e, count, body) =>
      IsCollectionCode(t) && !IsElementCode(e) && IsInt(count) && |body| < 0x7FFF_FF00
  }

  function EncodePayload(t: byte, p: Payload): (raw: seq<byte>)
    requires FitsPayload(t, p)
    ensures 0 < |raw| < 0x7FFF_FFFF || p.Single?
    ensures 0 < |raw| < 0x8000_0000
  {
    match p
    case Single(s) => Encode(s)
    case Elements(e, elems) => [e] + (Int(|elems|) + EncodeElements(e, elems))
    case Opaque(e, count, body) => [e] + (Int(count) + body)
  }

  /** What the caller is shown for a payload: without collection decoding its bytes; with it a
      list, or for type code 16 the set of the elements, unless one is a LOB handle. */
  function Shown(decode: bool, t: byte, p: Payload): Value
    requires FitsPayload(t, p)
  {
    match p
    case Single(s) => One(s)
    case Elements(_, elems) =>
      if !decode then One(Raw(EncodePayload(t, p)))
      else if t != 16 then List(elems)
      else if exists i :: 0 <= i < |elems| && elems[i].Lob? then Tuple(elems)
      else Frozen(set i | 0 <= i < |elems| :: elems[i])
    case Opaque(_, _, _) => One(Raw(EncodePayload(t, p)))
  }

  lemma ConvertShown(t: byte, p: Payload)
    requires FitsPayload(t, p) && p.Elements?
    ensures Convert(t, List(p.elems)) == Shown(true, t, p)
  {
    hide FitsPayload;
  }

  lemma {:induction false} GetElementAt(code: byte, m: Method, b: seq<byte>, o: nat, s: Scalar)
    requires SendsElement(code, s) && ElementMethod(code) == Some(m) && At(b, o, EncodeElement(code, s))
    ensures m != ReadCollection
    ensures var n := |EncodeElement(code, s)|;
            GetInt(b, o).Got? && GetInt(b, o).off == o + 4 &&
            (if GetInt(b, o).value <= 0 then s == Absent && n == 4
             else GetScalar(m, b, o + 4, GetInt(b, o).value) == Got(s, o + n))
  {
    hide GetScalar, Encode, Fits, Bears, At, GetInt, ElementMethod, Resolve;
    TablesFit(code, s);
    if s.Absent? {
      GetIntAt(b, o, 0);
    } else {
      var raw := Encode(s);
      AtSplit(b, o, Int(|raw|), raw);
      GetIntAt(b, o, |raw|);
      GetScalarAt(m, b, o + 4, s);
    }
  }

  lemma {:induction false} GetElementsStep(m: Method, b: seq<byte>, o: nat, elems: seq<Scalar>, n: nat, end: nat)
    requires m != ReadCollection && elems != []
    requires GetInt(b, o).Got? && GetInt(b, o).off == o + 4
    requires if GetInt(b, o).value <= 0 then elems[0] == Absent && n == 4
             else GetScalar(m, b, o + 4, GetInt(b, o).value) == Got(elems[0], o + n)
    requires GetElements(m, b, o + n, |elems| - 1) == Got(elems[1..], end)
    ensures GetElements(m, b, o, |elems|) == Got(elems, end)
  {
    hide GetInt, GetScalar;
    assert [elems[0]] + elems[1..] == elems;
  }

  lemma {:induction false} GetElementsNil(code: byte, m: Method, b: seq<byte>, o: nat)
    requires m != ReadCollection
    ensures GetElements(m, b, o, 0) == Got([], o) && EncodeElements(code, []) == []
  {
  }

  lemma {:induction false} EncodeElementsCons(code: byte, elems: seq<Scalar>)
    requires elems != [] && SendsElements(code, elems)
    ensures SendsElement(code, elems[0]) && SendsElements(code, elems[1..])
    ensures EncodeElements(code, elems) == EncodeElement(code, elems[0]) + EncodeElements(code, elems[1..])
  {
    hide SendsElement;
  }

  /** The element loop, with the method that the table names for the code. */
  lemma {:induction false} ElementLoopAt(code: byte, m: Method, b: seq<byte>, o: nat, elems: seq<Scalar>)
    requires ElementMethod(code) == Some(m) && m != ReadCollection
    requires SendsElements(code, elems) && At(b, o, EncodeElements(code, elems))
    ensures GetElements(m, b, o, |elems|) == Got(elems, o + |EncodeElements(code, elems)|)
    decreases |elems|
  {
    hide *;
    if elems == [] {
      GetElementsNil(code, m, b, o);
    } else {
      EncodeElementsCons(code, elems);
      var e, rest := EncodeElement(code, elems[0]), EncodeElements(code, elems[1..]);
      AtSplit(b, o, e, rest);
      GetElementAt(code, m, b, o, elems[0]);
      ElementLoopAt(code, m, b, o + |e|, elems[1..]);
      GetElementsStep(m, b, o, elems, |e|, o + |e| + |rest|);
    }
  }

  /** A decoded collection gives back its elements, absent ones included, whatever their type
      code is, and ends where its last element ends. */
  lemma {:induction false} GetElementsAt(code: byte, b: seq<byte>, o: nat, size: nat, elems: seq<Scalar>)
    requires IsElementCode(code) && |elems| < 0x8000_0000 && SendsElements(code, elems)
    requires At(b, o, [code] + (Int(|elems|) + EncodeElements(code, elems)))
    ensures GetCollection(true, b, o, size) == Got(List(elems), o + 5 + |EncodeElements(code, elems)|)
  {
    hide GetElements, EncodeElements, SendsElements, ElementMethod, Resolve, At, GetByte, GetInt;
    TablesFit(code, Absent);
    var rest := EncodeElements(code, elems);
    AtSplit(b, o, [code], Int(|elems|) + rest);
    AtSplit(b, o + 1, Int(|elems|), rest);
    GetByteAt(b, o, code);
    GetIntAt(b, o + 1, |elems|);
    ElementLoopAt(code, ElementMethod(code).value, b, o + 5, elems);
  }

  lemma {:induction false} OpaqueAt(t: byte, b: seq<byte>, o: nat, p: Payload)
    requires FitsPayload(t, p) && p.Opaque? && At(b, o, EncodePayload(t, p))
    ensures var raw := EncodePayload(t, p);
            GetCollection(true, b, o, |raw|) == Got(One(Raw(raw)), o + |raw|)
  {
    hide GetElements, ElementMethod, Resolve, At, GetByte, GetInt;
    TablesFit(p.elementType, Absent);
    GetBytesAt(b, o, EncodePayload(t, p));
    AtSplit(b, o, [p.elementType], Int(p.count) + p.body);
    AtSplit(b, o + 1, Int(p.count), p.body);
    GetByteAt(b, o, p.elementType);
    GetIntAt(b, o + 1, p.count);
  }

  lemma GetCollectionAt(decode: bool, t: byte, b: seq<byte>, o: nat, p: Payload)
    requires FitsPayload(t, p) && !p.Single? && At(b, o, EncodePayload(t, p))
    ensures var n := |EncodePayload(t, p)|; var r := GetCollection(decode, b, o, n);
            r.Got? && r.off == o + n && Convert(t, r.value) == Shown(decode, t, p)
  {
    hide SendsElements, EncodeElements, At, IsElementCode;
    if !decode {
      GetBytesAt(b, o, EncodePayload(t, p));
    } else if p.Elements? {
      GetElementsAt(p.elementType, b, o, |EncodePayload(t, p)|, p.elems);
      ConvertShown(t, p);
    } else {
      OpaqueAt(t, b, o, p);
    }
  }

  /** Every payload that a server sends under a type code is read back, and exactly its size is
      consumed on each of the four exits. */
  lemma GetValueAt(decode: bool, t: byte, b: seq<byte>, o: nat, p: Payload)
    requires FitsPayload(t, p) && At(b, o, EncodePayload(t, p))
    ensures var n := |EncodePayload(t, p)|; GetTyped(t, decode, b, o, n) == Got(Shown(decode, t, p), o + n)
  {
    hide Resolve, GetScalar, GetCollection, At, Bears;
    if p.Single? {
      TablesFit(t, p.s);
      GetScalarAt(Resolve(t), b, o, p.s);
    } else {
      TablesFit(t, Absent);
      GetCollectionAt(decode, t, b, o, p);
    }
  }
}
