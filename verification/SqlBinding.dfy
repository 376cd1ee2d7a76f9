/** Parameter rendering and binding (pycubrid/_cursor_common.py). A bound statement is read
    back as the template's tokens with every placeholder replaced by its literal, exactly when
    no literal touches something it would merge with. */
module SqlBinding {
  import opened Basics
  import opened SqlLexer

  datatype BindError = NullByte | NotFinite | Unsupported | WrongCount

  datatype Result<+T> = Ok(value: T) | Err(error: BindError)

  const SUB: char := '\U{00001A}'

  // ---- escape_string -----------------------------------------------------------

  /** Python's str.replace for a one-character pattern. */
  function Replace(s: string, c: char, put: string): string {
    if s == "" then "" else (if s[0] == c then put else [s[0]]) + Replace(s[1..], c, put)
  }

  /** The loop over the characters that get a backslash, each guarded by a membership test. */
  function BackslashEach(s: string, cs: string): string
    decreases |cs|
  {
    if cs == "" then s
    else BackslashEach(if cs[0] in s then Replace(s, cs[0], [BACKSLASH, cs[0]]) else s, cs[1..])
  }

  function EscapeString(value: string, noBackslash: bool): Result<string> {
    if '\0' in value then Err(NullByte)
    else if noBackslash then Ok("'" + Replace(value, QUOTE, "''") + "'")
    else
      var escaped := Replace(Replace(value, BACKSLASH, "\\\\"), QUOTE, "''");
      Ok("'" + BackslashEach(escaped, ['\r', '\n', SUB]) + "'")
  }

  /** What one character of the value becomes. */
  function Expand(c: char, noBackslash: bool): string {
    if c == QUOTE then "''"
    else if !noBackslash && (c == BACKSLASH || c == '\r' || c == '\n' || c == SUB) then [BACKSLASH, c]
    else [c]
  }

  function ExpandAll(value: string, noBackslash: bool): string {
    if value == "" then "" else Expand(value[0], noBackslash) + ExpandAll(value[1..], noBackslash)
  }

  lemma {:induction false} ReplaceCons(s: string, c: char, put: string)
    requires s != ""
    ensures Replace(s, c, put) == (if s[0] == c then put else [s[0]]) + Replace(s[1..], c, put)
  {
  }

  lemma Assoc<T>(a: seq<T>, b: seq<T>, c: seq<T>)
    ensures a + (b + c) == a + b + c
  {
  }

  lemma {:induction false} ReplaceAppend(a: string, b: string, c: char, put: string)
    ensures Replace(a + b, c, put) == Replace(a, c, put) + Replace(b, c, put)
    decreases |a|
  {
    if a == "" {
      assert a + b == b;
    } else {
      hide Replace;
      AppendTail(a, b, 1);
      ReplaceCons(a, c, put);
      ReplaceCons(a + b, c, put);
      ReplaceAppend(a[1..], b, c, put);
      Assoc(if a[0] == c then put else [a[0]], Replace(a[1..], c, put), Replace(b, c, put));
    }
  }

  lemma {:induction false} ReplaceAbsent(s: string, c: char, put: string)
    requires c !in s
    ensures Replace(s, c, put) == s
  {
    if s != "" { ReplaceAbsent(s[1..], c, put); }
  }

  lemma ReplaceOne(d: char, c: char, put: string)
    ensures Replace([d], c, put) == if d == c then put else [d]
  {
    assert [d][1..] == "";
  }

  lemma ReplaceTwo(d: char, e: char, c: char, put: string)
    ensures Replace([d, e], c, put) == (if d == c then put else [d]) + (if e == c then put else [e])
  {
    assert [d, e][1..] == [e];
    ReplaceOne(e, c, put);
  }

  /** All passes of the backslash mode, without the membership guards. */
  function Passes(s: string): string {
    var a := Replace(Replace(s, BACKSLASH, "\\\\"), QUOTE, "''");
    var b := Replace(Replace(a, '\r', [BACKSLASH, '\r']), '\n', [BACKSLASH, '\n']);
    Replace(b, SUB, [BACKSLASH, SUB])
  }

  /** The membership guards of the loop change nothing. */
  lemma BackslashEachIsReplace(s: string, c: char, cs: string)
    ensures BackslashEach(s, [c] + cs) == BackslashEach(Replace(s, c, [BACKSLASH, c]), cs)
  {
    assert ([c] + cs)[1..] == cs;
    if c !in s { ReplaceAbsent(s, c, [BACKSLASH, c]); }
  }

  lemma PassesAppend(a: string, b: string)
    ensures Passes(a + b) == Passes(a) + Passes(b)
  {
    ReplaceAppend(a, b, BACKSLASH, "\\\\");
    var a1, b1 := Replace(a, BACKSLASH, "\\\\"), Replace(b, BACKSLASH, "\\\\");
    ReplaceAppend(a1, b1, QUOTE, "''");
    var a2, b2 := Replace(a1, QUOTE, "''"), Replace(b1, QUOTE, "''");
    ReplaceAppend(a2, b2, '\r', [BACKSLASH, '\r']);
    var a3, b3 := Replace(a2, '\r', [BACKSLASH, '\r']), Replace(b2, '\r', [BACKSLASH, '\r']);
    ReplaceAppend(a3, b3, '\n', [BACKSLASH, '\n']);
    var a4, b4 := Replace(a3, '\n', [BACKSLASH, '\n']), Replace(b3, '\n', [BACKSLASH, '\n']);
    ReplaceAppend(a4, b4, SUB, [BACKSLASH, SUB]);
  }

  /** Later passes leave the output of earlier ones alone. */
  lemma PassesOne(c: char)
    ensures Passes([c]) == Expand(c, false)
  {
    ReplaceOne(c, BACKSLASH, "\\\\");
    ReplaceOne(c, QUOTE, "''");
    ReplaceOne(c, '\r', [BACKSLASH, '\r']);
    ReplaceOne(c, '\n', [BACKSLASH, '\n']);
    ReplaceOne(c, SUB, [BACKSLASH, SUB]);
    var e := Expand(c, false);
    if |e| == 2 {
      assert e == [e[0], e[1]];
      ReplaceTwo(e[0], e[1], QUOTE, "''");
      ReplaceTwo(e[0], e[1], '\r', [BACKSLASH, '\r']);
      ReplaceTwo(e[0], e[1], '\n', [BACKSLASH, '\n']);
      ReplaceTwo(e[0], e[1], SUB, [BACKSLASH, SUB]);
    }
  }

  lemma {:induction false} PassesExpand(value: string)
    ensures Passes(value) == ExpandAll(value, false)
  {
    if value != "" {
      PassesExpand(value[1..]);
      PassesOne(value[0]);
      PassesAppend([value[0]], value[1..]);
      assert [value[0]] + value[1..] == value;
    }
  }

  lemma {:induction false} ReplaceExpand(value: string)
    ensures Replace(value, QUOTE, "''") == ExpandAll(value, true)
  {
    if value != "" { ReplaceExpand(value[1..]); }
  }

  /** The successive whole-string passes are one per-character expansion. */
  lemma EscapeIsExpand(value: string, noBackslash: bool)
    ensures EscapeString(value, noBackslash) ==
            if '\0' in value then Err(NullByte) else Ok("'" + ExpandAll(value, noBackslash) + "'")
  {
    if noBackslash {
      ReplaceExpand(value);
    } else {
      var escaped := Replace(Replace(value, BACKSLASH, "\\\\"), QUOTE, "''");
      assert ['\r', '\n', SUB] == ['\r'] + ['\n', SUB] && ['\n', SUB] == ['\n'] + [SUB] && [SUB] == [SUB] + "";
      BackslashEachIsReplace(escaped, '\r', ['\n', SUB]);
      var b := Replace(escaped, '\r', [BACKSLASH, '\r']);
      BackslashEachIsReplace(b, '\n', [SUB]);
      BackslashEachIsReplace(Replace(b, '\n', [BACKSLASH, '\n']), SUB, "");
      PassesExpand(value);
    }
  }

  // ---- Reading a literal back ------------------------------------------------------

  /** The value of a quoted region (which starts just after its opening quote). */
  function Unescape(pairs: bool, s: string): string {
    if s == "" then ""
    else if pairs && s[0] == BACKSLASH then if |s| == 1 then "" else [s[1]] + Unescape(pairs, s[2..])
    else if s[0] == QUOTE then if |s| > 1 && s[1] == QUOTE then [QUOTE] + Unescape(pairs, s[2..]) else ""
    else [s[0]] + Unescape(pairs, s[1..])
  }

  /** A reader of the quoted region s stops after n characters, at its closing quote, having
      read value (if it is a reader that knows the escaping in use). */
  ghost predicate Reads(pairs: bool, s: string, n: nat, value: string, exact: bool) {
    Span(QUOTE, pairs, s) == n && Closed(QUOTE, pairs, s) && (exact ==> Unescape(pairs, s) == value)
  }

  /** A reader stops exactly at the closing quote that escaping put there, and, if it knows
      backslash pairs whenever escaping used them, recovers the value. */
  lemma {:induction false} ReadEscaped(value: string, noBackslash: bool, pairs: bool, rest: string)
    requires pairs ==> !noBackslash
    requires rest == "" || rest[0] != QUOTE
    ensures var body := ExpandAll(value, noBackslash);
            Reads(pairs, body + ("'" + rest), |body| + 1, value, pairs == !noBackslash)
  {
    if value == "" {
      ReadClosing(pairs, rest);
      assert "" + ("'" + rest) == "'" + rest;
    } else {
      hide Reads, Expand, ExpandAll;
      var e, body := Expand(value[0], noBackslash), ExpandAll(value[1..], noBackslash);
      ReadEscaped(value[1..], noBackslash, pairs, rest);
      ReadExpanded(value[0], noBackslash, pairs, body + ("'" + rest), |body| + 1, value[1..]);
      ExpandAllCons(value, noBackslash);
      Associate(e, body, "'" + rest);
      assert [value[0]] + value[1..] == value;
    }
  }

  lemma Associate(a: string, b: string, c: string)
    ensures (a + b) + c == a + (b + c)
  {
  }

  lemma ExpandAllCons(value: string, noBackslash: bool)
    requires value != ""
    ensures ExpandAll(value, noBackslash) == Expand(value[0], noBackslash) + ExpandAll(value[1..], noBackslash)
  {
  }

  lemma ReadClosing(pairs: bool, rest: string)
    requires rest == "" || rest[0] != QUOTE
    ensures Reads(pairs, "'" + rest, 1, "", true)
  {
  }

  /** A reader takes the expansion of one character in one or two steps. */
  lemma ReadExpanded(c: char, noBackslash: bool, pairs: bool, s': string, n: nat, value: string)
    requires pairs ==> !noBackslash
    requires Reads(pairs, s', n, value, pairs == !noBackslash)
    ensures var e := Expand(c, noBackslash); Reads(pairs, e + s', |e| + n, [c] + value, pairs == !noBackslash)
  {
    var e := Expand(c, noBackslash);
    var s := e + s';
    assert s[|e|..] == s';
    if |e| == 2 && e[0] == BACKSLASH && !pairs {
      // This reader takes the backslash and the character one at a time.
      assert s[1..] == [c] + s' && s[1..][1..] == s';
    }
  }

  // ---- format_parameter ---------------------------------------------------------------

  /** A zone with a non-empty key is Named; any other with an offset is Offset. */
  datatype Zone = Naive | Named(key: string) | Offset(micros: int)

  /** A Python parameter value. Number carries the text Python's str gives a Decimal or a
      finite float; NonFinite is a float nan or infinity; Foreign is any other type. */
  datatype Param =
    | Null
    | Boolean(b: bool)
    | Str(s: string)
    | Bytes(bytes: seq<byte>)
    | DateTime(year: nat, month: nat, day: nat, hour: nat, minute: nat, second: nat, micros: nat, zone: Zone)
    | Date(year: nat, month: nat, day: nat)
    | Time(hour: nat, minute: nat, second: nat)
    | Integer(i: int)
    | Number(text: string)
    | NonFinite
    | Foreign

  function Abs(i: int): nat { if i < 0 then -i else i }

  /** The "%s%02d:%02d" rendering of a UTC offset given in microseconds. */
  function RenderOffset(micros: int): string {
    // int() of the float total_seconds() drops the fraction toward zero.
    var magnitude := Abs(micros) / 1_000_000;
    var sign := if micros >= 0 || magnitude == 0 then "+" else "-";
    sign + Padded(magnitude / 3600, 2) + ":" + Padded(magnitude % 3600 / 60, 2)
  }

  function ZoneText(z: Zone): string {
    match z
    case Naive => ""
    case Named(key) => " " + key
    case Offset(m) => " " + RenderOffset(m)
  }

  function DateText(y: nat, m: nat, d: nat): string {
    Padded(y, 4) + "-" + Padded(m, 2) + "-" + Padded(d, 2)
  }

  function TimeText(h: nat, m: nat, s: nat): string {
    Padded(h, 2) + ":" + Padded(m, 2) + ":" + Padded(s, 2)
  }

  /** Keyword and body of the values rendered as a keyword and a quoted body. */
  function Tagged(p: Param): (string, string)
    requires p.Bytes? || p.DateTime? || p.Date? || p.Time?
  {
    match p
    case Bytes(bs) => ("X", Hex(bs))
    case DateTime(y, mo, d, h, mi, s, us, z) =>
      (if z.Naive? then "DATETIME" else "DATETIMETZ",
       DateText(y, mo, d) + " " + TimeText(h, mi, s) + "." + Padded(us / 1000, 3) + ZoneText(z))
    case Date(y, m, d) => ("DATE", DateText(y, m, d))
    case Time(h, m, s) => ("TIME", TimeText(h, m, s))
  }

  function FormatParameter(p: Param, noBackslash: bool): Result<string> {
    match p
    case Null => Ok("NULL")
    case Boolean(b) => Ok(if b then "1" else "0")
    case Str(s) => EscapeString(s, noBackslash)
    case Integer(i) => Ok(if i < 0 then "-" + Decimal(-i) else Decimal(i))
    case Number(text) => Ok(text)
    case NonFinite => Err(NotFinite)
    case Foreign => Err(Unsupported)
    case _ => Ok(Tagged(p).0 + "'" + Tagged(p).1 + "'")
  }

  // ---- bind_parameters -------------------------------------------------------------------

  /** The renderings of all parameters, or the first failure. */
  function RenderAll(ps: seq<Param>, noBackslash: bool): (r: Result<seq<string>>)
    ensures r.Ok? ==> |r.value| == |ps|
  {
    if ps == [] then Ok([])
    else
      match FormatParameter(ps[0], noBackslash)
      case Err(e) => Err(e)
      case Ok(text) =>
        match RenderAll(ps[1..], noBackslash)
        case Err(e) => Err(e)
        case Ok(texts) => Ok([text] + texts)
  }

  /** parts[0] texts[0] parts[1] texts[1] ... parts[n]. */
  function Interleave(parts: seq<string>, texts: seq<string>): string
    requires |parts| == |texts| + 1
  {
    if texts == [] then parts[0] else parts[0] + texts[0] + Interleave(parts[1..], texts[1..])
  }

  function Bind(operation: string, ps: seq<Param>, noBackslash: bool): Result<string> {
    var parts := Cut(operation, Neutral);
    if |parts| - 1 != |ps| then Err(WrongCount)
    else
      match RenderAll(ps, noBackslash)
      case Err(e) => Err(e)
      case Ok(texts) => Ok(Interleave(parts, texts))
  }

  function Concat(ss: seq<string>): string {
    if ss == [] then "" else Concat(ss[..|ss| - 1]) + ss[|ss| - 1]
  }

  lemma ConcatTwo(ss: seq<string>, a: string, b: string)
    ensures Concat(ss + [a, b]) == Concat(ss) + a + b
  {
    assert (ss + [a, b])[..|ss| + 1] == ss + [a];
    assert (ss + [a])[..|ss|] == ss;
  }

  lemma {:induction false} InterleaveAppend(parts: seq<string>, texts: seq<string>, text: string, part: string)
    requires |parts| == |texts| + 1
    ensures Interleave(parts + [part], texts + [text]) == Interleave(parts, texts) + text + part
    decreases |texts|
  {
    if texts == [] {
      assert (parts + [part])[1..] == [part] && ([text] + [])[1..] == [];
      assert texts + [text] == [text];
    } else {
      InterleaveAppend(parts[1..], texts[1..], text, part);
      assert (parts + [part])[1..] == parts[1..] + [part];
      assert (texts + [text])[1..] == texts[1..] + [text];
    }
  }

  function Prepend(texts: seq<string>, r: Result<seq<string>>): Result<seq<string>> {
    if r.Err? then r else Ok(texts + r.value)
  }

  lemma {:induction false} PrependRender(texts: seq<string>, ps: seq<Param>, noBackslash: bool)
    ensures texts == [] ==> Prepend(texts, RenderAll(ps, noBackslash)) == RenderAll(ps, noBackslash)
    ensures ps != [] && FormatParameter(ps[0], noBackslash).Ok? ==>
            Prepend(texts, RenderAll(ps, noBackslash)) ==
            Prepend(texts + [FormatParameter(ps[0], noBackslash).value], RenderAll(ps[1..], noBackslash))
  {
    hide FormatParameter;
    var r := RenderAll(ps, noBackslash);
    if texts == [] && r.Ok? { assert [] + r.value == r.value; }
    if r.Ok? && ps != [] {
      Assoc(texts, [FormatParameter(ps[0], noBackslash).value], RenderAll(ps[1..], noBackslash).value);
    }
  }

  method BindParameters(operation: string, ps: seq<Param>, noBackslash: bool) returns (r: Result<string>)
    ensures r == Bind(operation, ps, noBackslash)
  {
    hide FormatParameter, Cut;
    var parts := SplitOnPlaceholders(operation);
    if |parts| - 1 != |ps| { return Err(WrongCount); }
    var result := [parts[0]];
    ghost var texts: seq<string> := [];
    assert ps[0..] == ps && parts[..1] == [parts[0]] && Concat([parts[0]]) == Concat([]) + parts[0];
    PrependRender(texts, ps, noBackslash);
    for index := 0 to |ps|
      invariant |texts| == index
      invariant RenderAll(ps, noBackslash) == Prepend(texts, RenderAll(ps[index..], noBackslash))
      invariant Concat(result) == Interleave(parts[..index + 1], texts)
    {
      var text := FormatParameter(ps[index], noBackslash);
      assert ps[index..][1..] == ps[index + 1..];
      PrependRender(texts, ps[index..], noBackslash);
      if text.Err? { return Err(text.error); }
      ConcatTwo(result, text.value, parts[index + 1]);
      InterleaveAppend(parts[..index + 1], texts, text.value, parts[index + 1]);
      assert parts[..index + 1] + [parts[index + 1]] == parts[..index + 2];
      result := result + [text.value, parts[index + 1]];
      texts := texts + [text.value];
    }
    assert parts[..|ps| + 1] == parts && texts + [] == texts;
    return Ok(Concat(result));
  }
}
