/** What a rendered parameter stands for (pycubrid/_cursor_common.py): a reader of SQL literals
    that knows nothing of the renderer, and the proof that it reads every rendering as the
    parameter. */
module LiteralMeaning {
  import opened Basics
  import opened SqlLexer
  import opened SqlBinding
  import opened BoundStatement
  import opened TimeZone

  // ---- The reader --------------------------------------------------------------------------

  datatype Meaning =
    | SqlNull
    | SqlNumber(text: string)
    | SqlString(s: string)
    | SqlBytes(bytes: seq<byte>)
    | SqlDate(year: nat, month: nat, day: nat)
    | SqlTime(hour: nat, minute: nat, second: nat)
    | SqlDateTime(year: nat, month: nat, day: nat, hour: nat, minute: nat, second: nat, millis: nat, zone: Option<string>)
    | Unreadable

  predicate AllDigits(s: string) { forall i :: 0 <= i < |s| ==> IsDigit(s[i]) }

  /** The number that decimal digits write. */
  function DigitsValue(s: string): nat
    requires AllDigits(s)
  {
    if s == "" then 0 else 10 * DigitsValue(s[..|s| - 1]) + HexValue(s[|s| - 1])
  }

  function DigitRun(s: string): (n: nat)
    ensures n <= |s| && AllDigits(s[..n]) && (n < |s| ==> !IsDigit(s[n]))
  {
    if s == "" || !IsDigit(s[0]) then 0 else 1 + DigitRun(s[1..])
  }

  /** Numbers of at least the given widths with the given separators between them, and what is
      left. */
  function ReadFields(s: string, widths: seq<nat>, seps: string): Option<(seq<nat>, string)>
    requires |widths| == |seps| + 1
    decreases |seps|
  {
    var n := DigitRun(s);
    if n == 0 || n < widths[0] then None
    else if seps == "" then Some(([DigitsValue(s[..n])], s[n..]))
    else if n == |s| || s[n] != seps[0] then None
    else
      match ReadFields(s[n + 1..], widths[1..], seps[1..])
      case None => None
      case Some((vs, rest)) => Some(([DigitsValue(s[..n])] + vs, rest))
  }

  function ReadDateTime(body: string, zoned: bool): Meaning {
    match ReadFields(body, [4, 2, 2, 2, 2, 2, 3], "-- ::.")
    case None => Unreadable
    case Some((f, rest)) =>
      if |f| != 7 || (if zoned then rest == "" || rest[0] != ' ' else rest != "") then Unreadable
      else SqlDateTime(f[0], f[1], f[2], f[3], f[4], f[5], f[6], if zoned then Some(rest[1..]) else None)
  }

  /** A quoted literal by the keyword before its quote. */
  function ReadQuoted(tag: string, body: string): Meaning {
    if tag == "" then SqlString(body)
    else if tag == "X" then
      if |body| % 2 == 0 && forall c <- body :: IsHexDigit(c) then SqlBytes(Unhex(body)) else Unreadable
    else if tag == "DATE" then
      match ReadFields(body, [4, 2, 2], "--")
      case Some((f, "")) => if |f| == 3 then SqlDate(f[0], f[1], f[2]) else Unreadable
      case _ => Unreadable
    else if tag == "TIME" then
      match ReadFields(body, [2, 2, 2], "::")
      case Some((f, "")) => if |f| == 3 then SqlTime(f[0], f[1], f[2]) else Unreadable
      case _ => Unreadable
    else if tag == "DATETIME" then ReadDateTime(body, false)
    else if tag == "DATETIMETZ" then ReadDateTime(body, true)
    else Unreadable
  }

  function ReadLiteral(pairs: bool, text: string): Meaning {
    var w := WordRun(text);
    if w < |text| && text[w] == QUOTE then ReadQuoted(text[..w], Unescape(pairs, text[w + 1..]))
    else if text == "NULL" then SqlNull
    else SqlNumber(text)
  }

  /** The integer that an optional minus sign and digits write. */
  function NumberValue(text: string): Option<int> {
    if text != "" && text[0] == '-' then
      if |text| > 1 && AllDigits(text[1..]) then Some(0 - DigitsValue(text[1..])) else None
    else if text != "" && AllDigits(text) then Some(DigitsValue(text)) else None
  }

  /** What the zone's text says of the zone. */
  predicate ZoneDenotes(z: Zone, text: Option<string>) {
    match z
    case Naive => text == None
    case Named(key) => text == Some(key)
    case Offset(micros) =>
      text.Some? && (-DAY < micros < DAY ==> ReadZone(text.value) == UtcOffset(WholeMinutes(micros)))
  }

  /** m is what the Python value p means in SQL: booleans are 1 and 0, microseconds are cut to
      milliseconds, and an offset is known to the minute. */
  predicate Denotes(p: Param, m: Meaning) {
    match p
    case Null => m == SqlNull
    case Boolean(b) => m.SqlNumber? && NumberValue(m.text) == Some(if b then 1 else 0)
    case Integer(i) => m.SqlNumber? && NumberValue(m.text) == Some(i)
    case Number(text) => m == SqlNumber(text)
    case Str(s) => m == SqlString(s)
    case Bytes(bytes) => m == SqlBytes(bytes)
    case Date(y, mo, d) => m == SqlDate(y, mo, d)
    case Time(h, mi, s) => m == SqlTime(h, mi, s)
    case DateTime(y, mo, d, h, mi, s, us, z) =>
      && m.SqlDateTime? && m == SqlDateTime(y, mo, d, h, mi, s, us / 1000, m.zone)
      && ZoneDenotes(z, m.zone)
    case _ => false
  }

  // ---- Numbers -----------------------------------------------------------------------------

  lemma {:induction false} DigitsAppend(s: string, c: char)
    requires AllDigits(s) && IsDigit(c)
    ensures AllDigits(s + [c]) && DigitsValue(s + [c]) == 10 * DigitsValue(s) + HexValue(c)
  {
    assert (s + [c])[..|s|] == s;
  }

  lemma {:induction false} DecimalValue(n: nat)
    ensures AllDigits(Decimal(n)) && DigitsValue(Decimal(n)) == n
    decreases n
  {
    if n < 10 {
      assert Decimal(n) == "" + [Digit(n)];
      DigitsAppend("", Digit(n));
    } else {
      DecimalValue(n / 10);
      DigitsAppend(Decimal(n / 10), Digit(n % 10));
    }
  }

  lemma {:induction false} LeadingZeros(z: string, s: string)
    requires AllDigits(s) && forall i :: 0 <= i < |z| ==> z[i] == '0'
    ensures AllDigits(z + s) && DigitsValue(z + s) == DigitsValue(s)
    decreases |s|, |z|
  {
    if s != "" {
      LeadingZeros(z, s[..|s| - 1]);
      assert (z + s)[..|z + s| - 1] == z + s[..|s| - 1];
    } else if z != "" {
      LeadingZeros(z[..|z| - 1], "");
      assert z + "" == z && z[..|z| - 1] + "" == z[..|z| - 1];
    }
  }

  lemma {:induction false} PaddedValue(n: nat, w: nat)
    ensures AllDigits(Padded(n, w)) && DigitsValue(Padded(n, w)) == n
  {
    DecimalValue(n);
    var z := Zeros(w - |Decimal(n)|);
    forall i | 0 <= i < |z| ensures z[i] == '0' { assert z[i] in z; }
    LeadingZeros(z, Decimal(n));
  }

  lemma {:induction false} DigitRunAppend(s: string, rest: string)
    requires AllDigits(s) && (rest == "" || !IsDigit(rest[0]))
    ensures DigitRun(s + rest) == |s|
    decreases |s|
  {
    if s == "" {
      assert s + rest == rest;
    } else {
      AppendTail(s, rest, 1);
      DigitRunAppend(s[1..], rest);
    }
  }

  lemma {:induction false} LastField(v: nat, w: nat, rest: string)
    requires rest == "" || !IsDigit(rest[0])
    ensures ReadFields(Padded(v, w) + rest, [w], "") == Some(([v], rest))
  {
    var p := Padded(v, w);
    PaddedValue(v, w);
    DigitRunAppend(p, rest);
    assert (p + rest)[..|p|] == p && (p + rest)[|p|..] == rest;
  }

  lemma {:induction false} NextField(v: nat, w: nat, sep: char, more: string, ws: seq<nat>, seps: string,
                                     vs: seq<nat>, rest: string)
    requires |ws| == |seps| + 1 && !IsDigit(sep) && ReadFields(more, ws, seps) == Some((vs, rest))
    ensures ReadFields(Padded(v, w) + [sep] + more, [w] + ws, [sep] + seps) == Some(([v] + vs, rest))
  {
    var p := Padded(v, w);
    var s := p + [sep] + more;
    PaddedValue(v, w);
    assert s == p + ([sep] + more);
    DigitRunAppend(p, [sep] + more);
    assert s[..|p|] == p && s[|p| + 1..] == more && ([sep] + seps)[1..] == seps && ([w] + ws)[1..] == ws;
  }

  lemma {:induction false} ThreeFields(a: nat, aw: nat, b: nat, bw: nat, c: nat, cw: nat, sep: char)
    requires !IsDigit(sep)
    ensures ReadFields(Padded(a, aw) + [sep] + Padded(b, bw) + [sep] + Padded(c, cw), [aw, bw, cw], [sep, sep])
            == Some(([a, b, c], ""))
  {
    hide ReadFields, Padded;
    LastField(c, cw, "");
    var last := Padded(c, cw);
    assert last + "" == last;
    NextField(b, bw, sep, last, [cw], "", [c], "");
    NextField(a, aw, sep, Padded(b, bw) + [sep] + last, [bw] + [cw], [sep] + "", [b] + [c], "");
    assert Padded(a, aw) + [sep] + (Padded(b, bw) + [sep] + last) == Padded(a, aw) + [sep] + Padded(b, bw) + [sep] + last;
    assert [sep] + ([sep] + "") == [sep, sep] && [a] + ([b] + [c]) == [a, b, c];
    assert [aw] + ([bw] + [cw]) == [aw, bw, cw];
  }

  lemma {:induction false} IntegerValue(i: int)
    ensures NumberValue(if i < 0 then "-" + Decimal(-i) else Decimal(i)) == Some(i)
  {
    var n: nat := if i < 0 then -i else i;
    DecimalValue(n);
    assert ("-" + Decimal(n))[1..] == Decimal(n) && IsDigit(Decimal(n)[0]);
  }

  // ---- Dates and times ---------------------------------------------------------------------

  lemma {:induction false} DateFields(y: nat, m: nat, d: nat)
    ensures ReadFields(DateText(y, m, d), [4, 2, 2], "--") == Some(([y, m, d], ""))
  {
    ThreeFields(y, 4, m, 2, d, 2, '-');
  }

  lemma {:induction false} TimeFields(h: nat, m: nat, s: nat)
    ensures ReadFields(TimeText(h, m, s), [2, 2, 2], "::") == Some(([h, m, s], ""))
  {
    ThreeFields(h, 2, m, 2, s, 2, ':');
  }

  /** Hours, minutes, seconds and milliseconds, before whatever is not a digit. */
  lemma {:induction false} ClockFields(h: nat, m: nat, s: nat, ms: nat, rest: string)
    requires rest == "" || !IsDigit(rest[0])
    ensures ReadFields(TimeText(h, m, s) + "." + Padded(ms, 3) + rest, [2, 2, 2, 3], "::.") == Some(([h, m, s, ms], rest))
  {
    hide ReadFields, Padded;
    var last := Padded(ms, 3) + rest;
    LastField(ms, 3, rest);
    NextField(s, 2, '.', last, [3], "", [ms], rest);
    NextField(m, 2, ':', Padded(s, 2) + "." + last, [2] + [3], "." + "", [s] + [ms], rest);
    NextField(h, 2, ':', Padded(m, 2) + ":" + (Padded(s, 2) + "." + last), [2] + ([2] + [3]), ":" + ("." + ""),
              [m] + ([s] + [ms]), rest);
    assert [2] + ([2] + ([2] + [3])) == [2, 2, 2, 3];
    assert Padded(h, 2) + ":" + (Padded(m, 2) + ":" + (Padded(s, 2) + "." + last))
           == TimeText(h, m, s) + "." + Padded(ms, 3) + rest;
    assert ":" + (":" + ("." + "")) == "::." && [h] + ([m] + ([s] + [ms])) == [h, m, s, ms];
  }

  lemma {:induction false} DateTimeFields(y: nat, mo: nat, d: nat, h: nat, mi: nat, s: nat, ms: nat, rest: string)
    requires rest == "" || !IsDigit(rest[0])
    ensures ReadFields(DateText(y, mo, d) + " " + TimeText(h, mi, s) + "." + Padded(ms, 3) + rest,
                       [4, 2, 2, 2, 2, 2, 3], "-- ::.")
            == Some(([y, mo, d, h, mi, s, ms], rest))
  {
    hide ReadFields, Padded, TimeText;
    var clock, four := TimeText(h, mi, s) + "." + Padded(ms, 3) + rest, [h, mi, s, ms];
    ClockFields(h, mi, s, ms, rest);
    var ws := [2, 2, 2, 3];
    NextField(d, 2, ' ', clock, ws, "::.", four, rest);
    NextField(mo, 2, '-', Padded(d, 2) + " " + clock, [2] + ws, " " + "::.", [d] + four, rest);
    NextField(y, 4, '-', Padded(mo, 2) + "-" + (Padded(d, 2) + " " + clock), [2] + ([2] + ws), "-" + (" " + "::."),
              [mo] + ([d] + four), rest);
    assert [4] + ([2] + ([2] + ws)) == [4, 2, 2, 2, 2, 2, 3];
    assert Padded(y, 4) + "-" + (Padded(mo, 2) + "-" + (Padded(d, 2) + " " + clock))
           == DateText(y, mo, d) + " " + TimeText(h, mi, s) + "." + Padded(ms, 3) + rest;
    assert "-" + ("-" + (" " + "::.")) == "-- ::." && [y] + ([mo] + ([d] + four)) == [y, mo, d, h, mi, s, ms];
  }

  lemma {:induction false} KeywordsDiffer(body: string)
    ensures ReadQuoted("DATETIME", body) == ReadDateTime(body, false)
    ensures ReadQuoted("DATETIMETZ", body) == ReadDateTime(body, true)
  {
    hide ReadFields, ReadDateTime, Unhex;
    var zoned := "DATETIMETZ";
    assert |"DATETIME"| == 8 && |zoned| == 10 && |"DATE"| == |"TIME"| == 4 && |"X"| == 1;
  }

  lemma {:induction false} FieldsRead(body: string, f: seq<nat>, rest: string)
    requires ReadFields(body, [4, 2, 2, 2, 2, 2, 3], "-- ::.") == Some((f, rest)) && |f| == 7
    ensures rest == "" ==> ReadDateTime(body, false) == SqlDateTime(f[0], f[1], f[2], f[3], f[4], f[5], f[6], None)
    ensures rest != "" && rest[0] == ' ' ==>
              ReadDateTime(body, true) == SqlDateTime(f[0], f[1], f[2], f[3], f[4], f[5], f[6], Some(rest[1..]))
  {
    hide ReadFields;
  }

  lemma {:induction false} ZoneTextDenotes(z: Zone)
    ensures var text := ZoneText(z);
            if z.Naive? then text == "" && ZoneDenotes(z, None)
            else text != "" && text[0] == ' ' && ZoneDenotes(z, Some(text[1..]))
  {
    hide ReadZone, RenderOffset, WholeMinutes;
    match z {
      case Naive =>
      case Named(key) => assert (" " + key)[1..] == key;
      case Offset(micros) =>
        assert (" " + RenderOffset(micros))[1..] == RenderOffset(micros);
        if -DAY < micros < DAY { OffsetRoundTrip(micros); }
    }
  }

  lemma {:induction false} ReadsDateTime(p: Param)
    requires p.DateTime?
    ensures Denotes(p, ReadQuoted(Tagged(p).0, Tagged(p).1))
  {
    hide ReadQuoted, ReadDateTime, ReadFields, DateText, TimeText, Padded, ZoneText, ZoneDenotes;
    var z, body, ms := ZoneText(p.zone), Tagged(p).1, p.micros / 1000;
    var f := [p.year, p.month, p.day, p.hour, p.minute, p.second, ms];
    ZoneTextDenotes(p.zone);
    DateTimeFields(p.year, p.month, p.day, p.hour, p.minute, p.second, ms, z);
    FieldsRead(body, f, z);
    KeywordsDiffer(body);
  }

  lemma {:induction false} ReadsBytes(bytes: seq<byte>)
    ensures ReadQuoted("X", Hex(bytes)) == SqlBytes(bytes)
  {
    UnhexHex(bytes);
    hide Hex, Unhex;
  }

  lemma {:induction false} ReadsDate(y: nat, m: nat, d: nat)
    ensures ReadQuoted("DATE", DateText(y, m, d)) == SqlDate(y, m, d)
  {
    DateFields(y, m, d);
    hide ReadFields, DateText;
  }

  lemma {:induction false} ReadsTime(h: nat, m: nat, s: nat)
    ensures ReadQuoted("TIME", TimeText(h, m, s)) == SqlTime(h, m, s)
  {
    TimeFields(h, m, s);
    hide ReadFields, TimeText;
    assert "TIME"[0] != "DATE"[0];
  }

  // ---- Every rendering is read as its parameter --------------------------------------------------

  lemma {:induction false} ReadTagged(tag: string, body: string, pairs: bool)
    requires IsWord(tag) && Unescape(pairs, body + "'") == body
    ensures ReadLiteral(pairs, tag + "'" + body + "'") == ReadQuoted(tag, body)
  {
    TagParts(tag, body);
    hide WordRun, Unescape, ReadQuoted, IsWord;
    var lit := tag + "'" + body + "'";
    assert lit[..|tag|] == lit[..|tag| + 1][..|tag|] == tag;
  }

  lemma {:induction false} TaggedDenotes(p: Param, noBackslash: bool, pairs: bool)
    requires Genuine(p) && (p.Bytes? || p.DateTime? || p.Date? || p.Time?)
    ensures Denotes(p, ReadLiteral(pairs, FormatParameter(p, noBackslash).value))
  {
    var (tag, body) := Tagged(p);
    TaggedClean(p);
    QuotedDenotes(p);
    hide Tagged, Unescape, ReadLiteral, ReadQuoted, Denotes, Unquoted, IsWord;
    CleanUnescapes(pairs, body);
    ReadTagged(tag, body, pairs);
  }

  lemma {:induction false} CleanUnescapes(pairs: bool, body: string)
    requires Unquoted(body)
    ensures Unescape(pairs, body + "'") == body
  {
    SpanClean(pairs, body);
  }

  lemma {:induction false} QuotedDenotes(p: Param)
    requires Genuine(p) && (p.Bytes? || p.DateTime? || p.Date? || p.Time?)
    ensures Denotes(p, ReadQuoted(Tagged(p).0, Tagged(p).1))
  {
    hide ReadQuoted, Hex, DateText, TimeText, ZoneText;
    match p {
      case Bytes(bytes) => ReadsBytes(bytes);
      case Date(y, m, d) => ReadsDate(y, m, d);
      case Time(h, m, s) => ReadsTime(h, m, s);
      case DateTime(_, _, _, _, _, _, _, _) =>
        hide Denotes, Tagged;
        ReadsDateTime(p);
    }
  }

  lemma {:induction false} NumberRead(pairs: bool, text: string)
    requires NumericText(text) && text != "NULL"
    ensures ReadLiteral(pairs, text) == SqlNumber(text)
  {
    hide ReadQuoted, Unescape;
  }

  lemma {:induction false} NullRead(pairs: bool)
    ensures ReadLiteral(pairs, "NULL") == SqlNull
  {
    ConstantsNumeric();
    hide ReadQuoted, Unescape;
    var w := WordRun("NULL");
    assert w < 4 ==> "NULL"[w] != QUOTE;
  }

  lemma {:induction false} IntegerRead(pairs: bool, i: int)
    ensures var text := if i < 0 then "-" + Decimal(-i) else Decimal(i);
            ReadLiteral(pairs, text) == SqlNumber(text) && NumberValue(text) == Some(i)
  {
    IntegerNumeric(i);
    IntegerValue(i);
    var text := if i < 0 then "-" + Decimal(-i) else Decimal(i);
    var digits := Decimal(if i < 0 then -i else i);
    assert digits[0] in digits && (i < 0 ==> text[0] == '-') && text != "NULL";
    NumberRead(pairs, text);
  }

  lemma {:induction false} NumberDenotes(p: Param, noBackslash: bool, pairs: bool)
    requires Genuine(p) && (p.Null? || p.Boolean? || p.Integer? || p.Number?)
    ensures Denotes(p, ReadLiteral(pairs, FormatParameter(p, noBackslash).value))
  {
    OneAndZero();
    hide ReadLiteral, NumberValue, NumericText, Decimal;
    match p {
      case Null => NullRead(pairs);
      case Boolean(b) => IntegerRead(pairs, if b then 1 else 0);
      case Integer(i) => IntegerRead(pairs, i);
      case Number(text) => NumberRead(pairs, text);
    }
  }

  lemma OneAndZero()
    ensures Decimal(1) == "1" && Decimal(0) == "0"
  {
  }

  /** Every rendering stands for its parameter: a reader that takes backslash pairs exactly if
      escaping wrote them reads back the value, for every genuine parameter that renders. */
  lemma {:induction false} RenderingDenotes(p: Param, noBackslash: bool, pairs: bool)
    requires Genuine(p) && FormatParameter(p, noBackslash).Ok? && (p.Str? ==> pairs == !noBackslash)
    ensures Denotes(p, ReadLiteral(pairs, FormatParameter(p, noBackslash).value))
  {
    hide Genuine, FormatParameter, Denotes, ReadLiteral;
    if p.Str? {
      StringDenotes(p.s, noBackslash);
    } else {
      Renders(p, noBackslash);
      if p.Null? || p.Boolean? || p.Integer? || p.Number? { NumberDenotes(p, noBackslash, pairs); }
      else { TaggedDenotes(p, noBackslash, pairs); }
    }
  }

  lemma Renders(p: Param, noBackslash: bool)
    requires FormatParameter(p, noBackslash).Ok?
    ensures !p.NonFinite? && !p.Foreign? && (p.Str? ==> '\0' !in p.s)
  {
  }

  lemma {:induction false} StringDenotes(s: string, noBackslash: bool)
    requires FormatParameter(Str(s), noBackslash).Ok?
    ensures Denotes(Str(s), ReadLiteral(!noBackslash, FormatParameter(Str(s), noBackslash).value))
  {
    hide BackslashEach, Replace;
    StringDecodes(s, noBackslash, !noBackslash);
    hide IsLiteral, Sound, Unescape;
    var r := FormatParameter(Str(s), noBackslash).value;
    assert WordRun(r) == 0 && r[..0] == "";
  }

  /** The k-th literal that binding splices in stands for the k-th parameter. */
  lemma {:induction false} BoundTextsDenote(ps: seq<Param>, noBackslash: bool, k: nat)
    requires RenderAll(ps, noBackslash).Ok? && k < |ps| && Genuine(ps[k])
    ensures Denotes(ps[k], ReadLiteral(!noBackslash, RenderAll(ps, noBackslash).value[k]))
  {
    hide Genuine, FormatParameter, Denotes, ReadLiteral, RenderAll;
    RenderAllAt(ps, noBackslash);
    RenderingDenotes(ps[k], noBackslash, !noBackslash);
  }
}
