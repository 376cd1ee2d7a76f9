/** Big-endian fields and positioned reading (pycubrid/packet.py). A read gives a value and the
    new offset, or the offset the reader was left at when Python raised. */
module Wire {
  import opened Basics

  // ---- Big-endian encodings -------------------------------------------------------

  function U16(v: nat): (s: seq<byte>)
    requires v < 0x1_0000
    ensures |s| == 2
  {
    [v / 0x100, v % 0x100]
  }

  function U32(v: nat): (s: seq<byte>)
    requires v < 0x1_0000_0000
    ensures |s| == 4
  {
    U16(v / 0x1_0000) + U16(v % 0x1_0000)
  }

  function U64(v: nat): (s: seq<byte>)
    requires v < 0x1_0000_0000_0000_0000
    ensures |s| == 8
  {
    U32(v / 0x1_0000_0000) + U32(v % 0x1_0000_0000)
  }

  function FromU16(s: seq<byte>): (v: nat)
    requires |s| == 2
    ensures v < 0x1_0000
  {
    s[0] as int * 0x100 + s[1] as int
  }

  function FromU32(s: seq<byte>): (v: nat)
    requires |s| == 4
    ensures v < 0x1_0000_0000
  {
    FromU16(s[..2]) * 0x1_0000 + FromU16(s[2..])
  }

  function FromU64(s: seq<byte>): (v: nat)
    requires |s| == 8
    ensures v < 0x1_0000_0000_0000_0000
  {
    FromU32(s[..4]) * 0x1_0000_0000 + FromU32(s[4..])
  }

  predicate IsShort(v: int) { -0x8000 <= v < 0x8000 }
  predicate IsInt(v: int) { -0x8000_0000 <= v < 0x8000_0000 }
  predicate IsLong(v: int) { -0x8000_0000_0000_0000 <= v < 0x8000_0000_0000_0000 }

  function Short(v: int): (s: seq<byte>)
    requires IsShort(v)
    ensures |s| == 2
  {
    U16(if v < 0 then v + 0x1_0000 else v)
  }

  function Int(v: int): (s: seq<byte>)
    requires IsInt(v)
    ensures |s| == 4
  {
    U32(if v < 0 then v + 0x1_0000_0000 else v)
  }

  function Long(v: int): (s: seq<byte>)
    requires IsLong(v)
    ensures |s| == 8
  {
    U64(if v < 0 then v + 0x1_0000_0000_0000_0000 else v)
  }

  function ToShort(s: seq<byte>): (v: int)
    requires |s| == 2
    ensures IsShort(v)
  {
    var u := FromU16(s);
    if u < 0x8000 then u else u - 0x1_0000
  }

  function ToInt(s: seq<byte>): (v: int)
    requires |s| == 4
    ensures IsInt(v)
  {
    var u := FromU32(s);
    if u < 0x8000_0000 then u else u - 0x1_0000_0000
  }

  function ToLong(s: seq<byte>): (v: int)
    requires |s| == 8
    ensures IsLong(v)
  {
    var u := FromU64(s);
    if u < 0x8000_0000_0000_0000 then u else u - 0x1_0000_0000_0000_0000
  }

  lemma FromU32Of(v: nat)
    requires v < 0x1_0000_0000
    ensures FromU32(U32(v)) == v
  {
    var hi, lo := U16(v / 0x1_0000), U16(v % 0x1_0000);
    assert U32(v)[..2] == hi && U32(v)[2..] == lo;
  }

  lemma FromU64Of(v: nat)
    requires v < 0x1_0000_0000_0000_0000
    ensures FromU64(U64(v)) == v
  {
    var hi, lo := v / 0x1_0000_0000, v % 0x1_0000_0000;
    FromU32Of(hi);
    FromU32Of(lo);
    assert U64(v)[..4] == U32(hi) && U64(v)[4..] == U32(lo);
  }

  /** Packing a number in range and unpacking it is the identity. */
  lemma PackUnpack(v: int)
    ensures IsShort(v) ==> ToShort(Short(v)) == v
    ensures IsInt(v) ==> ToInt(Int(v)) == v
    ensures IsLong(v) ==> ToLong(Long(v)) == v
  {
    if IsInt(v) { FromU32Of(if v < 0 then v + 0x1_0000_0000 else v); }
    if IsLong(v) { FromU64Of(if v < 0 then v + 0x1_0000_0000_0000_0000 else v); }
  }

  lemma U16Of(s: seq<byte>)
    requires |s| == 2
    ensures U16(FromU16(s)) == s
  {
  }

  lemma U32Of(s: seq<byte>)
    requires |s| == 4
    ensures U32(FromU32(s)) == s
  {
    hide U16, FromU16;
    U16Of(s[..2]);
    U16Of(s[2..]);
    var hi, lo := FromU16(s[..2]), FromU16(s[2..]);
    assert (hi * 0x1_0000 + lo) / 0x1_0000 == hi && (hi * 0x1_0000 + lo) % 0x1_0000 == lo;
    assert s[..2] + s[2..] == s;
  }

  lemma U64Of(s: seq<byte>)
    requires |s| == 8
    ensures U64(FromU64(s)) == s
  {
    hide U32, FromU32;
    U32Of(s[..4]);
    U32Of(s[4..]);
    var hi, lo := FromU32(s[..4]), FromU32(s[4..]);
    assert (hi * 0x1_0000_0000 + lo) / 0x1_0000_0000 == hi && (hi * 0x1_0000_0000 + lo) % 0x1_0000_0000 == lo;
    assert s[..4] + s[4..] == s;
  }

  /** Unpacking two, four or eight bytes and packing the result gives the bytes back: no two
      byte strings are read as the same number. */
  lemma UnpackPack(s: seq<byte>)
    ensures |s| == 2 ==> Short(ToShort(s)) == s
    ensures |s| == 4 ==> Int(ToInt(s)) == s
    ensures |s| == 8 ==> Long(ToLong(s)) == s
  {
    hide U32, U64, FromU32, FromU64;
    if |s| == 2 { U16Of(s); }
    if |s| == 4 { U32Of(s); }
    if |s| == 8 { U64Of(s); }
  }

  // ---- Positioned reads --------------------------------------------------------------

  datatype Read<+T> = Got(value: T, off: nat) | Failed(off: nat) {
    predicate IsFailure() { Failed? }
    function PropagateFailure<U>(): Read<U> requires Failed? { Failed(off) }
    function Extract(): (T, nat) requires Got? { (value, off) }
  }

  /** A Python slice, which is cut short at the end of the buffer. */
  function Slice(b: seq<byte>, o: nat, n: nat): (s: seq<byte>)
  {
    if o >= |b| then [] else if o + n <= |b| then b[o..o + n] else b[o..]
  }

  function GetByte(b: seq<byte>, o: nat): Read<byte> {
    if o < |b| then Got(b[o], o + 1) else Failed(o)
  }

  function GetShort(b: seq<byte>, o: nat): Read<int> {
    if o + 2 <= |b| then Got(ToShort(b[o..o + 2]), o + 2) else Failed(o)
  }

  function GetInt(b: seq<byte>, o: nat): Read<int> {
    if o + 4 <= |b| then Got(ToInt(b[o..o + 4]), o + 4) else Failed(o)
  }

  function GetLong(b: seq<byte>, o: nat): Read<int> {
    if o + 8 <= |b| then Got(ToLong(b[o..o + 8]), o + 8) else Failed(o)
  }

  /** An n-byte field unpacked as a whole: nothing is consumed when it is not all there. */
  function GetFixed(b: seq<byte>, o: nat, n: nat): Read<seq<byte>> {
    if o + n <= |b| then Got(b[o..o + n], o + n) else Failed(o)
  }

  /** Raw bytes never fail: past the end the data is short but the offset still advances. */
  function GetBytes(b: seq<byte>, o: nat, n: nat): Read<seq<byte>> {
    Got(Slice(b, o, n), o + n)
  }

  /** A string field: the offset moves before its last byte is looked at. One trailing zero
      byte is dropped. */
  function GetText(b: seq<byte>, o: nat, n: int): Read<seq<byte>> {
    if n <= 0 then Got([], o)
    else if o + n > |b| then Failed(o + n)
    else Got(if b[o + n - 1] == 0 then b[o..o + n - 1] else b[o..o + n], o + n)
  }

  // ---- Reading what was written -------------------------------------------------------

  /** The buffer holds chunk at offset o. */
  predicate At(b: seq<byte>, o: nat, chunk: seq<byte>) {
    o + |chunk| <= |b| && b[o..o + |chunk|] == chunk
  }

  lemma AtSplit(b: seq<byte>, o: nat, x: seq<byte>, y: seq<byte>)
    requires At(b, o, x + y)
    ensures At(b, o, x) && At(b, o + |x|, y)
  {
    assert b[o..o + |x|] == (x + y)[..|x|];
    assert b[o + |x|..o + |x| + |y|] == (x + y)[|x|..];
  }

  lemma AtWhole(b: seq<byte>)
    ensures At(b, 0, b)
  {
    assert b[0..|b|] == b;
  }

  lemma GetByteAt(b: seq<byte>, o: nat, v: byte)
    requires At(b, o, [v])
    ensures GetByte(b, o) == Got(v, o + 1)
  {
    assert b[o..o + 1][0] == v;
  }

  lemma GetShortAt(b: seq<byte>, o: nat, v: int)
    requires IsShort(v) && At(b, o, Short(v))
    ensures GetShort(b, o) == Got(v, o + 2)
  {
    PackUnpack(v);
  }

  lemma GetIntAt(b: seq<byte>, o: nat, v: int)
    requires IsInt(v) && At(b, o, Int(v))
    ensures GetInt(b, o) == Got(v, o + 4)
  {
    PackUnpack(v);
  }

  lemma GetLongAt(b: seq<byte>, o: nat, v: int)
    requires IsLong(v) && At(b, o, Long(v))
    ensures GetLong(b, o) == Got(v, o + 8)
  {
    PackUnpack(v);
  }

  lemma GetBytesAt(b: seq<byte>, o: nat, chunk: seq<byte>)
    requires At(b, o, chunk)
    ensures GetBytes(b, o, |chunk|) == Got(chunk, o + |chunk|)
    ensures GetFixed(b, o, |chunk|) == Got(chunk, o + |chunk|)
  {
  }

  /** The string field that carries text: its bytes and a closing zero. */
  function Terminated(text: seq<byte>): (s: seq<byte>)
    ensures |s| == |text| + 1
  {
    text + [0]
  }

  lemma GetTextAt(b: seq<byte>, o: nat, text: seq<byte>)
    requires At(b, o, Terminated(text))
    ensures GetText(b, o, |text| + 1) == Got(text, o + |text| + 1)
  {
    AtSplit(b, o, text, [0]);
    assert b[o + |text|..o + |text| + 1][0] == 0;
  }
}
