/** Reading a time zone sent by the server (pycubrid/packet.py) against writing one into a
    literal (pycubrid/_cursor_common.py). */
module TimeZone {
  import opened Basics
  import opened SqlBinding
  import SqlKeyword

  const SECOND: int := 1_000_000
  const MINUTE: int := 60 * SECOND
  const DAY: int := 24 * 60 * MINUTE

  /** A region is looked up in the time zone database, which is not part of this model. */
  datatype ZoneReading = NoZone | UtcOffset(micros: int) | Region(name: string) | BadOffset

  predicate TwoDigits(s: string, i: nat) {
    i + 2 <= |s| && IsDigit(s[i]) && IsDigit(s[i + 1])
  }

  function Two(s: string, i: nat): nat
    requires TwoDigits(s, i)
  {
    10 * HexValue(s[i]) + HexValue(s[i + 1])
  }

  predicate ColonPair(s: string, i: nat) {
    i + 3 <= |s| && s[i] == ':' && TwoDigits(s, i + 1)
  }

  /** The three offset forms: sign and hours, with minutes, with seconds. */
  predicate OffsetForm(s: string) {
    && s != "" && (s[0] == '+' || s[0] == '-') && TwoDigits(s, 1)
    && (|s| == 3 || (|s| == 6 && ColonPair(s, 3)) || (|s| == 9 && ColonPair(s, 3) && ColonPair(s, 6)))
  }

  function OffsetValue(s: string): int
    requires OffsetForm(s)
  {
    var minutes := if |s| > 3 then Two(s, 4) else 0;
    var seconds := if |s| > 6 then Two(s, 7) else 0;
    var total := (Two(s, 1) * 3600 + minutes * 60 + seconds) * SECOND;
    if s[0] == '+' then total else -total
  }

  /** Python's timezone constructor takes offsets strictly within one day. */
  function ReadOffset(s: string): ZoneReading
    requires OffsetForm(s)
  {
    var m := OffsetValue(s);
    if -DAY < m < DAY then UtcOffset(m) else BadOffset
  }

  function Strip(s: string): string
    decreases |s|
  {
    if s == "" then ""
    else if SqlKeyword.IsSpace(s[0]) then Strip(s[1..])
    else if SqlKeyword.IsSpace(s[|s| - 1]) then Strip(s[..|s| - 1])
    else s
  }

  function ReadZone(text: string): ZoneReading {
    var stripped := Strip(text);
    if stripped == "" then NoZone
    else
      var token := if ' ' in stripped then stripped[..SqlKeyword.WordSpan(stripped)] else stripped;
      if OffsetForm(token) then ReadOffset(token) else Region(token)
  }

  /** The whole minutes of an offset, toward zero. */
  function WholeMinutes(micros: int): int {
    if micros >= 0 then micros / MINUTE * MINUTE else -(-micros / MINUTE * MINUTE)
  }

  lemma RenderedOffset(micros: int)
    requires -DAY < micros < DAY
    ensures var s := RenderOffset(micros); var magnitude := Abs(micros) / SECOND;
            && |s| == 6 && OffsetForm(s)
            && s[0] == (if micros >= 0 || magnitude == 0 then '+' else '-')
            && Two(s, 1) == magnitude / 3600 && Two(s, 4) == magnitude % 3600 / 60
  {
    var magnitude := Abs(micros) / SECOND;
    var h, m := magnitude / 3600, magnitude % 3600 / 60;
    Padded2(h);
    Padded2(m);
    var sign := if micros >= 0 || magnitude == 0 then "+" else "-";
    var s := RenderOffset(micros);
    assert s == sign + [Digit(h / 10), Digit(h % 10)] + ":" + [Digit(m / 10), Digit(m % 10)];
    assert s[1] == Digit(h / 10) && s[2] == Digit(h % 10) && s[4] == Digit(m / 10) && s[5] == Digit(m % 10);
  }

  lemma SecondsToMinutes(m: nat)
    ensures m / 60_000_000 == m / 1_000_000 / 60
  {
  }

  lemma HoursAndMinutes(seconds: nat)
    ensures seconds / 3600 * 60 + seconds % 3600 / 60 == seconds / 60
  {
    var h, r := seconds / 3600, seconds % 3600;
    assert seconds == 60 * (60 * h) + r;
  }

  /** Whole minutes of the offset from the hours and minutes written. */
  lemma MinuteArithmetic(micros: int)
    ensures var magnitude := Abs(micros) / SECOND;
            && (magnitude / 3600 * 3600 + magnitude % 3600 / 60 * 60) * SECOND == Abs(WholeMinutes(micros))
            && (micros < 0 && magnitude == 0 ==> WholeMinutes(micros) == 0)
  {
    var magnitude := Abs(micros) / SECOND;
    SecondsToMinutes(Abs(micros));
    HoursAndMinutes(magnitude);
    var q := Abs(micros) / MINUTE;
    var h, m := magnitude / 3600, magnitude % 3600 / 60;
    assert q == h * 60 + m;
    assert WholeMinutes(micros) == (if micros >= 0 then q * MINUTE else -(q * MINUTE));
  }

  lemma StripOffset(s: string)
    requires OffsetForm(s)
    ensures Strip(s) == s && s != ""
    ensures |s| == 6 ==> ' ' !in s
  {
    if |s| == 6 {
      assert s[0] != ' ' && s[1] != ' ' && s[2] != ' ' && s[3] != ' ' && s[4] != ' ' && s[5] != ' ';
    }
  }

  /** Writing an offset and reading it back keeps the whole minutes and drops the rest. */
  lemma OffsetRoundTrip(micros: int)
    requires -DAY < micros < DAY
    ensures ReadZone(RenderOffset(micros)) == UtcOffset(WholeMinutes(micros))
  {
    hide RenderOffset, OffsetForm, Two, Strip, WholeMinutes, Abs;
    var s := RenderOffset(micros);
    RenderedOffset(micros);
    StripOffset(s);
    MinuteArithmetic(micros);
    WholeMinutesError(micros);
    AbsSign(WholeMinutes(micros));
    assert ReadZone(s) == ReadOffset(s);
  }

  lemma AbsSign(i: int)
    ensures Abs(i) == if i < 0 then -i else i
  {
  }

  /** The identity on whole-minute offsets; otherwise less than a minute off, toward zero. */
  lemma WholeMinutesError(micros: int)
    ensures micros % MINUTE == 0 ==> WholeMinutes(micros) == micros
    ensures micros >= 0 ==> micros - MINUTE < WholeMinutes(micros) <= micros
    ensures micros <= 0 ==> micros <= WholeMinutes(micros) < micros + MINUTE
    ensures WholeMinutes(micros) % MINUTE == 0
  {
    var q := Abs(micros) / MINUTE;
    assert Abs(micros) == q * MINUTE + Abs(micros) % MINUTE;
    assert micros >= 0 ==> WholeMinutes(micros) == q * MINUTE;
    assert micros < 0 ==> WholeMinutes(micros) == -q * MINUTE;
  }

  // ---- Every form of a zone -------------------------------------------------------------

  /** Text without white space. */
  predicate Solid(s: string) {
    s != "" && forall i :: 0 <= i < |s| ==> !SqlKeyword.IsSpace(s[i])
  }

  lemma {:induction false} StripKeeps(s: string, n: nat)
    requires 0 < n <= |s| && !SqlKeyword.IsSpace(s[0]) && !SqlKeyword.IsSpace(s[n - 1])
    ensures n <= |Strip(s)| <= |s| && Strip(s) == s[..|Strip(s)|]
    decreases |s|
  {
    hide SqlKeyword.IsSpace;
    if SqlKeyword.IsSpace(s[|s| - 1]) { StripKeeps(s[..|s| - 1], n); }
  }

  lemma {:induction false} WordSpanAt(s: string, n: nat)
    requires n <= |s| && (forall i :: 0 <= i < n ==> !SqlKeyword.IsSpace(s[i]))
    requires n == |s| || SqlKeyword.IsSpace(s[n])
    ensures SqlKeyword.WordSpan(s) == n
    decreases n
  {
    hide SqlKeyword.IsSpace;
    if n > 0 { WordSpanAt(s[1..], n - 1); }
  }

  /** What a zone without white space means. */
  function ReadToken(token: string): ZoneReading {
    if OffsetForm(token) then ReadOffset(token) else Region(token)
  }

  lemma {:induction false} SolidAlone(token: string)
    requires Solid(token)
    ensures ReadZone(token) == ReadToken(token)
  {
    hide OffsetForm, ReadOffset;
    StripKeeps(token, |token|);
    assert Strip(token) == token;
  }

  /** White space in front is dropped, and so is whatever follows the first token after a
      space: an abbreviation, or more white space. */
  lemma {:induction false} OnlyFirstToken(token: string, more: string)
    requires Solid(token)
    ensures ReadZone(token + " " + more) == ReadZone(" " + token) == ReadZone(token)
  {
    hide OffsetForm, ReadOffset;
    SolidAlone(token);
    assert (" " + token)[1..] == token && Strip(" " + token) == Strip(token);
    var s := token + " " + more;
    forall i | 0 <= i < |token| ensures s[i] == token[i] {}
    StripKeeps(s, |token|);
    var stripped := Strip(s);
    if |stripped| == |token| {
      assert stripped == token;
    } else {
      assert stripped[|token|] == s[|token|] == ' ';
      WordSpanAt(stripped, |token|);
      assert stripped[..|token|] == token;
    }
  }

  /** A region, alone or followed by an abbreviation as in "Asia/Seoul KST", is that region. */
  lemma {:induction false} RegionRead(name: string, abbreviation: string)
    requires Solid(name) && name[0] != '+' && name[0] != '-'
    ensures ReadZone(name) == ReadZone(name + " " + abbreviation) == Region(name)
  {
    OnlyFirstToken(name, abbreviation);
    SolidAlone(name);
  }

  function TwoText(n: nat): (s: string)
    requires n < 100
    ensures |s| == 2 && TwoDigits(s, 0) && Two(s, 0) == n
  {
    [Digit(n / 10), Digit(n % 10)]
  }

  lemma FormRead(s: string)
    requires OffsetForm(s)
    ensures ReadZone(s) == ReadOffset(s)
  {
    hide ReadZone, ReadOffset;
    forall i | 0 <= i < |s| ensures !SqlKeyword.IsSpace(s[i]) {
      assert IsDigit(s[i]) || s[i] == '+' || s[i] == '-' || s[i] == ':';
    }
    SolidAlone(s);
  }

  function Signed(negative: bool, micros: int): int { if negative then -micros else micros }

  /** Hours alone, of either sign, are refused from a whole day on. */
  lemma {:induction false} HoursRead(negative: bool, h: nat)
    requires h < 100
    ensures ReadZone((if negative then "-" else "+") + TwoText(h)) ==
            if h < 24 then UtcOffset(Signed(negative, h * 3_600_000_000)) else BadOffset
  {
    hide ReadZone, TwoText;
    var d := TwoText(h);
    var s := (if negative then "-" else "+") + d;
    assert s[1] == d[0] && s[2] == d[1];
    FormRead(s);
  }

  /** Hours and minutes. */
  lemma {:induction false} MinutesRead(negative: bool, h: nat, m: nat)
    requires h < 100 && m < 100
    ensures ReadZone((if negative then "-" else "+") + TwoText(h) + ":" + TwoText(m)) ==
            if h * 60 + m < 1440 then UtcOffset(Signed(negative, h * 3_600_000_000 + m * 60_000_000)) else BadOffset
  {
    hide ReadZone, TwoText;
    var d, e := TwoText(h), TwoText(m);
    var s := (if negative then "-" else "+") + d + ":" + e;
    assert s[1] == d[0] && s[2] == d[1] && s[3] == ':' && s[4] == e[0] && s[5] == e[1];
    FormRead(s);
  }

  /** Hours, minutes and seconds. */
  lemma {:induction false} SecondsRead(negative: bool, h: nat, m: nat, s: nat)
    requires h < 100 && m < 100 && s < 100
    ensures ReadZone((if negative then "-" else "+") + TwoText(h) + ":" + TwoText(m) + ":" + TwoText(s)) ==
            if h * 3600 + m * 60 + s < 86400
            then UtcOffset(Signed(negative, h * 3_600_000_000 + m * 60_000_000 + s * 1_000_000)) else BadOffset
  {
    hide ReadZone, TwoText;
    var d, e, f := TwoText(h), TwoText(m), TwoText(s);
    var t := (if negative then "-" else "+") + d + ":" + e + ":" + f;
    assert t[1] == d[0] && t[2] == d[1] && t[3] == ':' && t[4] == e[0] && t[5] == e[1];
    assert t[6] == ':' && t[7] == f[0] && t[8] == f[1];
    FormRead(t);
  }
}
