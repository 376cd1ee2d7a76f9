/** What a bound statement means: read again, it is the template's token sequence with each
    placeholder replaced by its literal, exactly when the reader and the driver cut the template
    alike and no literal is placed against a character it would merge with. The reader may take
    backslash pairs inside literals (a server in backslash mode) or not (the driver's own scanner,
    or a server without them). */
module BoundStatement {
  import opened Basics
  import opened SqlLexer
  import opened SqlBinding

  // ---- Rendered literals are sound -------------------------------------------------

  /** Word characters and signs, without two minus signs in a row. */
  predicate NumericChars(t: string) {
    && (forall i :: 0 <= i < |t| ==> IsWordChar(t[i]) || t[i] == '+' || t[i] == '-')
    && (forall i :: 1 <= i < |t| ==> !(t[i - 1] == '-' && t[i] == '-'))
  }

  /** The shape of Python's str of a Decimal or a finite float: it ends in a digit or a letter. */
  predicate NumericText(t: string) {
    NumericChars(t) && t != "" && IsWordChar(t[|t| - 1])
  }

  /** Parameters as Python hands them over: numbers with numeric text, and time zones whose
      key is not empty and has no quote and no backslash. */
  predicate Genuine(p: Param) {
    && (p.Number? ==> NumericText(p.text) && p.text != "NULL")
    && (p.DateTime? && p.zone.Named? ==> p.zone.key != "" && QUOTE !in p.zone.key && BACKSLASH !in p.zone.key)
  }

  /** How a token's text ends, as far as merging with the next character goes. */
  datatype Edge = Clear | EndsQuote | EndsWord | EndsDash | EndsSlash

  function EdgeOf(t: Token): Edge {
    if t.Literal? then EndsQuote
    else if t.Word? then EndsWord
    else if t == Plain('-') then EndsDash
    else if t == Plain('/') then EndsSlash
    else Clear
  }

  predicate Merges(e: Edge, c: char) {
    (e == EndsQuote && c == QUOTE) || (e == EndsWord && (IsWordChar(c) || c == QUOTE))
    || (e == EndsDash && c == '-') || (e == EndsSlash && c == '*')
  }

  /** t is complete: only a merging character can change how it is read. */
  predicate Complete(pairs: bool, t: Token) {
    match t
    case Literal(text) => ClosedLiteral(pairs, text)
    case Word(_) => true
    case Plain(_) => true
    case _ => false
  }

  function Last<T>(s: seq<T>): T
    requires s != []
  {
    s[|s| - 1]
  }

  function EdgeOfText(r: string): Edge
    requires r != ""
  {
    if Last(r) == QUOTE then EndsQuote else EndsWord
  }

  /** A literal's text, on its own, is complete and holds no placeholder. */
  ghost predicate Sound(pairs: bool, r: string) {
    && r != "" && r[0] != DQUOTE
    && Complete(pairs, Last(Lex(pairs, r)))
    && EdgeOf(Last(Lex(pairs, r))) == EdgeOfText(r)
    && Placeholder !in Lex(pairs, r)
  }

  /** A number is words and signs, and ends in a word. */
  lemma {:induction false} LexNumeric(pairs: bool, t: string)
    requires NumericChars(t)
    ensures Placeholder !in Lex(pairs, t)
    ensures t != "" && IsWordChar(Last(t)) ==> Last(Lex(pairs, t)).Word?
    decreases |t|
  {
    if t != "" {
      NumericFirst(pairs, t);
      hide *;
      var n := |Text(First(pairs, t))|;
      LexNumeric(pairs, t[n..]);
      LexCons(pairs, t);
      LastOf(pairs, t, n);
    }
  }

  /** The first token of a number, and what is left. */
  lemma {:induction false} NumericFirst(pairs: bool, t: string)
    requires NumericChars(t) && t != ""
    ensures var f := First(pairs, t);
            && f != Placeholder && 0 < |Text(f)| <= |t| && NumericChars(t[|Text(f)|..])
            && (|Text(f)| == |t| && IsWordChar(Last(t)) ==> f.Word?)
  {
    var w := WordRun(t);
    assert w < |t| ==> t[w] != QUOTE;
    if w > 0 { assert KindOf(t) == KWord; } else { assert KindOf(t) == KPlain; }
  }

  lemma {:induction false} LastOf(pairs: bool, t: string, n: nat)
    requires 0 < n <= |t|
    ensures n < |t| ==> Last(t) == Last(t[n..]) && Lex(pairs, t[n..]) != []
    ensures n == |t| ==> Lex(pairs, t[n..]) == []
    ensures forall f: Token, ts: seq<Token> :: Last([f] + ts) == if ts == [] then f else Last(ts)
  {
  }

  lemma {:induction false} SoundNumeric(pairs: bool, t: string)
    requires NumericText(t)
    ensures Sound(pairs, t)
  {
    LexNumeric(pairs, t);
    assert IsWordChar(Last(t)) && t[0] != DQUOTE;
    hide Lex, NumericText;
    assert Last(t) != QUOTE;
  }

  /** Only word characters, as a keyword written before a literal. */
  predicate IsWord(t: string) {
    forall i :: 0 <= i < |t| ==> IsWordChar(t[i])
  }

  lemma {:induction false} WordRunWhole(t: string)
    requires IsWord(t)
    ensures WordRun(t) == |t|
    decreases |t|
  {
    if t != "" { WordRunWhole(t[1..]); }
  }

  ghost predicate IsLiteral(pairs: bool, lit: string) {
    lit != "" && Lex(pairs, lit) == [Literal(lit)] && ClosedLiteral(pairs, lit)
  }

  lemma {:induction false} TagParts(tag: string, body: string)
    requires IsWord(tag)
    ensures var lit := tag + "'" + body + "'";
            WordRun(lit) == |tag| && lit[|tag|] == QUOTE == Last(lit) && lit[|tag| + 1..] == body + "'"
            && lit[..|tag| + 1] == tag + "'" && lit[0] != DQUOTE && |lit| == |tag| + |body| + 2
  {
    var lit, rest := tag + "'" + body + "'", "'" + body + "'";
    assert lit == tag + rest;
    WordRunWhole(tag);
    WordRunAppend(tag, rest);
    assert tag != "" ==> lit[0] == tag[0];
  }

  lemma {:induction false} LiteralKind(pairs: bool, lit: string)
    requires ClosedLiteral(pairs, lit) && lit[WordRun(lit)] == QUOTE
    requires Span(QUOTE, pairs, lit[WordRun(lit) + 1..]) == |lit| - WordRun(lit) - 1
    ensures IsLiteral(pairs, lit)
  {
    FirstIsLiteral(pairs, lit);
    LexNothing(pairs);
    hide Lex, First, ClosedLiteral, Span, WordRun;
    LexCons(pairs, lit);
    assert lit[|lit|..] == "";
  }

  lemma {:induction false} FirstIsLiteral(pairs: bool, lit: string)
    requires WordRun(lit) < |lit| && lit[WordRun(lit)] == QUOTE
    requires Span(QUOTE, pairs, lit[WordRun(lit) + 1..]) == |lit| - WordRun(lit) - 1
    ensures First(pairs, lit) == Literal(lit)
  {
    hide Span, WordRun;
    assert lit[..|lit|] == lit;
  }

  lemma LexNothing(pairs: bool)
    ensures Lex(pairs, "") == []
  {
  }

  lemma {:induction false} LiteralSound(pairs: bool, lit: string)
    requires IsLiteral(pairs, lit) && Last(lit) == QUOTE && lit[0] != DQUOTE
    ensures Sound(pairs, lit)
  {
    hide Lex, ClosedLiteral;
  }

  /** One quoted region, alone or after a keyword, is one complete literal. */
  lemma {:induction false} LexLiteral(pairs: bool, tag: string, body: string)
    requires IsWord(tag) && Span(QUOTE, pairs, body + "'") == |body| + 1 && Closed(QUOTE, pairs, body + "'")
    ensures var lit := tag + "'" + body + "'"; IsLiteral(pairs, lit) && Sound(pairs, lit)
  {
    hide WordRun, Span, Closed, IsLiteral, Sound, Lex, IsWord;
    var lit := tag + "'" + body + "'";
    TagParts(tag, body);
    LiteralKind(pairs, lit);
    LiteralSound(pairs, lit);
  }

  lemma {:induction false} SpanClean(pairs: bool, body: string)
    requires QUOTE !in body && BACKSLASH !in body
    ensures Span(QUOTE, pairs, body + "'") == |body| + 1 && Closed(QUOTE, pairs, body + "'")
    ensures Unescape(pairs, body + "'") == body
    decreases |body|
  {
    if body == "" {
      assert body + "'" == "'";
    } else {
      SpanClean(pairs, body[1..]);
      assert (body + "'")[1..] == body[1..] + "'";
    }
  }

  predicate Unquoted(t: string) { QUOTE !in t && BACKSLASH !in t }

  lemma UnquotedTexts(y: nat, m: nat, d: nat)
    ensures Unquoted(DateText(y, m, d)) && Unquoted(TimeText(y, m, d))
  {
  }

  lemma UnquotedZone(z: Zone)
    requires z.Named? ==> Unquoted(z.key)
    ensures Unquoted(ZoneText(z))
  {
    if z.Offset? {
      var magnitude := Abs(z.micros) / 1_000_000;
      assert Unquoted(Padded(magnitude / 3600, 2)) && Unquoted(Padded(magnitude % 3600 / 60, 2));
    }
  }

  lemma UnquotedBytes(bytes: seq<byte>)
    ensures Unquoted(Hex(bytes))
  {
    assert forall c <- Hex(bytes) :: IsHexDigit(c);
  }

  lemma {:induction false} TaggedClean(p: Param)
    requires p.Bytes? || p.DateTime? || p.Date? || p.Time?
    requires Genuine(p)
    ensures IsWord(Tagged(p).0) && Unquoted(Tagged(p).1)
  {
    match p {
      case Bytes(bs) => UnquotedBytes(bs);
      case DateTime(y, mo, d, h, mi, s, us, z) =>
        UnquotedTexts(y, mo, d);
        UnquotedTexts(h, mi, s);
        UnquotedZone(z);
        var fraction := Padded(us / 1000, 3);
        assert Unquoted(fraction);
        assert Unquoted(DateText(y, mo, d) + " ");
        assert Unquoted(DateText(y, mo, d) + " " + TimeText(h, mi, s));
        assert Unquoted(DateText(y, mo, d) + " " + TimeText(h, mi, s) + "." + fraction);
      case Date(y, m, d) => UnquotedTexts(y, m, d);
      case Time(h, m, s) => UnquotedTexts(h, m, s);
    }
  }

  lemma IntegerNumeric(i: int)
    ensures NumericText(if i < 0 then "-" + Decimal(-i) else Decimal(i))
  {
    var digits := Decimal(if i < 0 then -i else i);
    assert forall k :: 0 <= k < |digits| ==> digits[k] in digits && IsDigit(digits[k]);
  }

  lemma ConstantsNumeric()
    ensures NumericText("NULL") && NumericText("1") && NumericText("0")
  {
  }

  /** The renderings that are not quoted. */
  lemma {:induction false} SoundUnquoted(p: Param, noBackslash: bool, pairs: bool)
    requires Genuine(p) && (p.Null? || p.Boolean? || p.Integer? || p.Number?)
    ensures Sound(pairs, FormatParameter(p, noBackslash).value)
  {
    ConstantsNumeric();
    hide Sound, Decimal, NumericText;
    if p.Integer? { IntegerNumeric(p.i); }
    SoundNumeric(pairs, FormatParameter(p, noBackslash).value);
  }

  /** Every rendering is sound for every reader that matches its escaping. */
  lemma {:induction false} RenderSound(p: Param, noBackslash: bool, pairs: bool)
    requires Genuine(p) && FormatParameter(p, noBackslash).Ok? && (pairs ==> !noBackslash)
    ensures Sound(pairs, FormatParameter(p, noBackslash).value)
  {
    hide Sound, IsLiteral, Lex, Span, Closed, Unescape, Decimal, NumericText, Replace, BackslashEach, Tagged, IsWord;
    if p.Str? {
      StringDecodes(p.s, noBackslash, pairs);
    } else if p.Null? || p.Boolean? || p.Integer? || p.Number? {
      SoundUnquoted(p, noBackslash, pairs);
    } else {
      TaggedSound(p, noBackslash, pairs);
    }
  }

  lemma {:induction false} TaggedSound(p: Param, noBackslash: bool, pairs: bool)
    requires p.Bytes? || p.DateTime? || p.Date? || p.Time?
    requires Genuine(p)
    ensures var lit := FormatParameter(p, noBackslash).value; Sound(pairs, lit) && IsLiteral(pairs, lit)
  {
    hide Sound, IsLiteral, Span, Closed, Unescape, Tagged, Lex, IsWord;
    var (tag, body) := Tagged(p);
    TaggedClean(p);
    SpanClean(pairs, body);
    LexLiteral(pairs, tag, body);
  }

  /** A string parameter is one literal, and a reader that knows the escaping in use decodes
      it to exactly the bound string. */
  lemma {:induction false} StringDecodes(s: string, noBackslash: bool, pairs: bool)
    requires '\0' !in s && (pairs ==> !noBackslash)
    ensures var r := FormatParameter(Str(s), noBackslash);
            && r.Ok? && IsLiteral(pairs, r.value) && Sound(pairs, r.value) && r.value[0] == QUOTE
            && (pairs == !noBackslash ==> Unescape(pairs, r.value[1..]) == s)
  {
    hide Sound, IsLiteral, Lex, Replace, BackslashEach;
    EscapeIsExpand(s, noBackslash);
    ReadEscaped(s, noBackslash, pairs, "");
    var body := ExpandAll(s, noBackslash);
    assert body + ("'" + "") == body + "'";
    LexLiteral(pairs, "", body);
    assert "" + "'" + body + "'" == "'" + body + "'" && ("'" + body + "'")[1..] == body + "'";
  }

  /** The bytes a hexadecimal literal's quoted region stands for. */
  function HexLiteralValue(pairs: bool, region: string): Option<seq<byte>> {
    var body := Unescape(pairs, region);
    if |body| % 2 == 0 && forall c <- body :: IsHexDigit(c) then Some(Unhex(body)) else None
  }

  /** A bytes parameter is one literal, keyword X, whose body is the bytes in hexadecimal. */
  lemma {:induction false} BytesDecode(bytes: seq<byte>, noBackslash: bool, pairs: bool)
    ensures var r := FormatParameter(Bytes(bytes), noBackslash);
            r.Ok? && |r.value| >= 3 && Lex(pairs, r.value) == [Literal(r.value)] && r.value[..2] == "X'"
            && HexLiteralValue(pairs, r.value[2..]) == Some(bytes)
  {
    hide Sound, Lex, Span, Closed, ClosedLiteral, Unescape, Hex, Unhex;
    var body := Hex(bytes);
    UnquotedBytes(bytes);
    SpanClean(pairs, body);
    LexLiteral(pairs, "X", body);
    TagParts("X", body);
    UnhexHex(bytes);
  }

  // ---- Substituting literals for placeholders ------------------------------------------

  function Holes(ts: seq<Token>): nat {
    if ts == [] then 0 else (if ts[0].Placeholder? then 1 else 0) + Holes(ts[1..])
  }

  /** The template's tokens with the k-th placeholder replaced by the tokens of texts[k]. */
  function Substitute(pairs: bool, ts: seq<Token>, texts: seq<string>): seq<Token>
    requires Holes(ts) == |texts|
  {
    if ts == [] then []
    else if ts[0].Placeholder? then Lex(pairs, texts[0]) + Substitute(pairs, ts[1..], texts[1..])
    else [ts[0]] + Substitute(pairs, ts[1..], texts)
  }

  /** No literal is placed against a character that it, or the token before it, would merge
      with: a quoted literal against a quote, a negative number after a minus sign. What is
      checked is the text before (edge) and the next character, at both sides of each hole. */
  predicate Apart(ts: seq<Token>, texts: seq<string>, edge: Edge, afterHole: bool)
    requires Holes(ts) == |texts| && forall i :: 0 <= i < |texts| ==> texts[i] != ""
  {
    if ts == [] then true
    else if ts[0].Placeholder? then
      !Merges(edge, texts[0][0]) && Apart(ts[1..], texts[1..], EdgeOfText(texts[0]), true)
    else
      && (afterHole ==> Text(ts[0]) != "" && !Merges(edge, Text(ts[0])[0]))
      && Apart(ts[1..], texts, EdgeOf(ts[0]), false)
  }

  lemma {:induction false} PartsCount(ts: seq<Token>)
    ensures |Parts(ts)| == Holes(ts) + 1
  {
    if ts != [] { PartsCount(ts[1..]); }
  }

  lemma {:induction false} FlattenAppend(a: seq<Token>, b: seq<Token>)
    ensures Flatten(a + b) == Flatten(a) + Flatten(b)
    decreases |a|
  {
    hide Text;
    if a == [] {
      assert a + b == b;
    } else {
      FlattenAppend(a[1..], b);
      AppendTail(a, b, 1);
      Assoc(Text(a[0]), Flatten(a[1..]), Flatten(b));
    }
  }

  lemma InterleaveGlue(prefix: string, parts: seq<string>, texts: seq<string>)
    requires |parts| == |texts| + 1
    ensures Interleave(Glue(prefix, parts), texts) == prefix + Interleave(parts, texts)
  {
    assert Glue(prefix, parts)[1..] == parts[1..];
  }

  /** Splicing the literals between the parts writes out the substituted tokens. */
  lemma {:induction false} InterleaveIsFlatten(pairs: bool, ts: seq<Token>, texts: seq<string>)
    requires Holes(ts) == |texts|
    ensures |Parts(ts)| == |texts| + 1
    ensures Interleave(Parts(ts), texts) == Flatten(Substitute(pairs, ts, texts))
    decreases |ts|
  {
    PartsCount(ts);
    if ts != [] {
      PartsCount(ts[1..]);
      if ts[0].Placeholder? {
        InterleaveIsFlatten(pairs, ts[1..], texts[1..]);
        FlattenLex(pairs, texts[0]);
        FlattenAppend(Lex(pairs, texts[0]), Substitute(pairs, ts[1..], texts[1..]));
        assert Parts(ts)[1..] == Parts(ts[1..]);
        assert "" + texts[0] == texts[0];
      } else {
        InterleaveIsFlatten(pairs, ts[1..], texts);
        InterleaveGlue(Text(ts[0]), Parts(ts[1..]), texts);
        assert Substitute(pairs, ts, texts)[1..] == Substitute(pairs, ts[1..], texts);
      }
    }
  }

  /** Separation looks only at the first character of what follows. */
  lemma SeparatesByHead(pairs: bool, t: Token, a: string, b: string)
    requires (a == "") == (b == "") && (a != "" ==> a[0] == b[0])
    ensures Separates(pairs, t, a) == Separates(pairs, t, b)
  {
  }

  lemma CompleteSeparates(pairs: bool, t: Token, rest: string)
    requires Complete(pairs, t)
    ensures Separates(pairs, t, rest) <==> (rest == "" || !Merges(EdgeOf(t), rest[0]))
  {
  }

  /** Tidiness of a joined sequence is tidiness of both, and a clean joint. */
  lemma {:induction false} TidyAppend(pairs: bool, a: seq<Token>, b: seq<Token>)
    requires a != [] && Tidy(pairs, a)
    ensures Tidy(pairs, a + b) <==> Separates(pairs, Last(a), Flatten(b)) && Tidy(pairs, b)
    decreases |a|
  {
    hide Flatten, Separates, Whole;
    AppendTail(a, b, 1);
    if |a| == 1 {
      assert a[1..] + b == b;
      TidyOne(pairs, a);
    } else {
      TidyAppend(pairs, a[1..], b);
      FlattenAppend(a[1..], b);
      FlattenHead(pairs, a[1..]);
      SeparatesByHead(pairs, a[0], Flatten(a[1..]), Flatten(a[1..] + b));
    }
  }

  lemma TidyOne(pairs: bool, a: seq<Token>)
    requires |a| == 1
    ensures Tidy(pairs, a) <==> Whole(pairs, a[0])
  {
    assert Flatten(a[1..]) == "";
  }

  lemma FlattenHead(pairs: bool, ts: seq<Token>)
    requires ts != [] && Tidy(pairs, ts)
    ensures Flatten(ts) != "" && Flatten(ts)[0] == Text(ts[0])[0]
  {
  }

  /** The heart of the binding theorem. prev is the token before ts: a template token that was
      separated from ts, or the last token of a literal. */
  lemma {:induction false} SubstituteTidy(pairs: bool, ts: seq<Token>, texts: seq<string>, prev: Token, afterHole: bool)
    requires Holes(ts) == |texts| && Tidy(pairs, ts)
    requires forall i :: 0 <= i < |texts| ==> texts[i] != "" && Sound(pairs, texts[i])
    requires if afterHole then Complete(pairs, prev) else Separates(pairs, prev, Flatten(ts))
    ensures var e := Substitute(pairs, ts, texts);
            Separates(pairs, prev, Flatten(e)) && Tidy(pairs, e) <==> Apart(ts, texts, EdgeOf(prev), afterHole)
    decreases |ts|
  {
    if ts != [] {
      FlattenHead(pairs, ts);
      if ts[0].Placeholder? {
        SubstituteHole(pairs, ts, texts, prev, afterHole);
      } else {
        var e' := Substitute(pairs, ts[1..], texts);
        var e := [ts[0]] + e';
        assert e[1..] == e';
        SubstituteTidy(pairs, ts[1..], texts, ts[0], false);
        assert Flatten(e)[0] == Text(ts[0])[0];
        if afterHole {
          CompleteSeparates(pairs, prev, Flatten(e));
        } else {
          SeparatesByHead(pairs, prev, Flatten(ts), Flatten(e));
        }
      }
    }
  }

  lemma {:induction false} SubstituteHole(pairs: bool, ts: seq<Token>, texts: seq<string>, prev: Token, afterHole: bool)
    requires Holes(ts) == |texts| && Tidy(pairs, ts) && ts != [] && ts[0].Placeholder?
    requires forall i :: 0 <= i < |texts| ==> texts[i] != "" && Sound(pairs, texts[i])
    requires if afterHole then Complete(pairs, prev) else Separates(pairs, prev, Flatten(ts))
    ensures var e := Substitute(pairs, ts, texts);
            Separates(pairs, prev, Flatten(e)) && Tidy(pairs, e) <==> Apart(ts, texts, EdgeOf(prev), afterHole)
    decreases |ts|, 0
  {
    FlattenHead(pairs, ts);
    hide Separates, Merges, Flatten;
    var lit := Lex(pairs, texts[0]);
    var e' := Substitute(pairs, ts[1..], texts[1..]);
    LexTidy(pairs, texts[0]);
    FlattenLex(pairs, texts[0]);
    FlattenAppend(lit, e');
    SubstituteTidy(pairs, ts[1..], texts[1..], Last(lit), true);
    TidyAppend(pairs, lit, e');
    assert Flatten(lit + e')[0] == texts[0][0];
    HoleSeparates(pairs, prev, afterHole, Flatten(ts), Flatten(lit + e'));
  }

  /** A token that `?` may follow is changed only by a merging character. */
  lemma HoleSeparates(pairs: bool, prev: Token, afterHole: bool, before: string, after: string)
    requires before != "" && before[0] == '?' && after != ""
    requires after[0] != DQUOTE
    requires if afterHole then Complete(pairs, prev) else Separates(pairs, prev, before)
    ensures Separates(pairs, prev, after) <==> !Merges(EdgeOf(prev), after[0])
  {
  }

  // ---- The binding theorem ----------------------------------------------------------------

  lemma {:induction false} RenderAllAt(ps: seq<Param>, noBackslash: bool)
    requires RenderAll(ps, noBackslash).Ok?
    ensures forall i :: 0 <= i < |ps| ==>
            FormatParameter(ps[i], noBackslash) == Ok(RenderAll(ps, noBackslash).value[i])
    decreases |ps|
  {
    if ps != [] {
      RenderAllAt(ps[1..], noBackslash);
      var texts, more := RenderAll(ps, noBackslash).value, RenderAll(ps[1..], noBackslash).value;
      assert texts[1..] == more;
      forall i | 0 <= i < |ps| ensures FormatParameter(ps[i], noBackslash) == Ok(texts[i]) {
        if i > 0 { assert ps[i] == ps[1..][i - 1] && texts[i] == more[i - 1]; }
      }
    }
  }

  predicate Renderable(p: Param) {
    !p.NonFinite? && !p.Foreign? && (p.Str? ==> '\0' !in p.s)
  }

  lemma {:induction false} RenderAllOk(ps: seq<Param>, noBackslash: bool)
    ensures RenderAll(ps, noBackslash).Ok? <==> forall i :: 0 <= i < |ps| ==> Renderable(ps[i])
    decreases |ps|
  {
    if ps != [] {
      var more := ps[1..];
      RenderAllOk(more, noBackslash);
      assert FormatParameter(ps[0], noBackslash).Ok? <==> Renderable(ps[0]);
      if forall i :: 0 <= i < |more| ==> Renderable(more[i]) {
        forall i | 1 <= i < |ps| ensures Renderable(ps[i]) { assert ps[i] == more[i - 1]; }
      } else {
        var i :| 0 <= i < |more| && !Renderable(more[i]);
        assert !Renderable(ps[i + 1]);
      }
    }
  }

  /** Binding succeeds exactly when there is one renderable parameter for each placeholder. */
  lemma BindSucceeds(operation: string, ps: seq<Param>, noBackslash: bool)
    ensures Bind(operation, ps, noBackslash).Ok? <==>
            |ps| == Holes(Lex(false, operation)) && forall i :: 0 <= i < |ps| ==> Renderable(ps[i])
  {
    CutIsParts(operation);
    PartsCount(Lex(false, operation));
    RenderAllOk(ps, noBackslash);
  }

  lemma {:induction false} NoPlaceholderLeft(pairs: bool, ts: seq<Token>, texts: seq<string>)
    requires Holes(ts) == |texts|
    requires forall i :: 0 <= i < |texts| ==> texts[i] != "" && Sound(pairs, texts[i])
    ensures Placeholder !in Substitute(pairs, ts, texts)
    decreases |ts|
  {
    if ts != [] {
      if ts[0].Placeholder? {
        NoPlaceholderLeft(pairs, ts[1..], texts[1..]);
      } else {
        NoPlaceholderLeft(pairs, ts[1..], texts);
      }
    }
  }

  // ---- Where the reader and the driver cut ------------------------------------------------

  lemma {:induction false} JoinParts(ts: seq<Token>)
    ensures Join(Parts(ts)) == Flatten(ts)
    decreases |ts|
  {
    if ts != [] {
      JoinParts(ts[1..]);
      if ts[0].Placeholder? {
        assert Parts(ts)[1..] == Parts(ts[1..]);
      } else {
        JoinGlue(Text(ts[0]), Parts(ts[1..]));
      }
    }
  }

  lemma {:induction false} JoinStart(p: seq<string>)
    requires |p| > 1
    ensures var k := |p[0]|; |Join(p)| > k && Join(p)[..k] == p[0] && Join(p)[k] == '?' && Join(p)[k + 1..] == Join(p[1..])
  {
  }

  lemma {:induction false} InterleaveStart(p: seq<string>, texts: seq<string>)
    requires |p| == |texts| + 1 && texts != []
    ensures var k, n, bound := |p[0]|, |p[0]| + |texts[0]|, Interleave(p, texts);
            && |bound| >= n && bound[..k] == p[0] && bound[k..n] == texts[0]
            && bound[n..] == Interleave(p[1..], texts[1..])
  {
  }

  /** Two ways to cut one text that give one bound text have first parts of one length: at the
      first difference one has the cut's question mark and the other the start of a literal. */
  lemma {:induction false} NotShorter(p: seq<string>, q: seq<string>, texts: seq<string>)
    requires |p| == |q| == |texts| + 1 && texts != [] && texts[0] != "" && texts[0][0] != '?'
    requires Join(p) == Join(q) && Interleave(p, texts) == Interleave(q, texts)
    ensures |q[0]| <= |p[0]|
  {
    hide Join, Interleave;
    var k, n, text, bound := |p[0]|, |p[0]| + |texts[0]|, Join(p), Interleave(p, texts);
    JoinStart(p);
    JoinStart(q);
    InterleaveStart(p, texts);
    InterleaveStart(q, texts);
    assert bound[k] == bound[k..n][0] == texts[0][0];
    assert forall i :: 0 <= i < |q[0]| ==> text[i] == text[..|q[0]|][i] == bound[..|q[0]|][i] == bound[i];
  }

  lemma {:induction false} SameCuts(p: seq<string>, q: seq<string>, texts: seq<string>)
    requires |p| == |q| == |texts| + 1
    requires forall i :: 0 <= i < |texts| ==> texts[i] != "" && texts[i][0] != '?'
    requires Join(p) == Join(q) && Interleave(p, texts) == Interleave(q, texts)
    ensures p == q
    decreases |p|
  {
    if texts != [] {
      NotShorter(p, q, texts);
      NotShorter(q, p, texts);
      hide Join, Interleave;
      JoinStart(p);
      JoinStart(q);
      InterleaveStart(p, texts);
      InterleaveStart(q, texts);
      SameCuts(p[1..], q[1..], texts[1..]);
      assert p == [p[0]] + p[1..] && q == [q[0]] + q[1..];
    }
  }

  /** The reader finds placeholders exactly where the driver cuts. */
  predicate ReadAlike(pairs: bool, operation: string) {
    Parts(Lex(pairs, operation)) == Cut(operation, Neutral)
  }

  lemma {:induction false} SoundStart(pairs: bool, r: string)
    requires Sound(pairs, r)
    ensures r[0] != '?'
  {
    FirstHole(pairs, r);
    LexCons(pairs, r);
    hide First, Lex;
    assert Lex(pairs, r)[0] == First(pairs, r);
  }

  /** A bound text that is the substituted template was cut where the reader finds placeholders. */
  lemma {:induction false} SubstitutedIsReadAlike(operation: string, texts: seq<string>, pairs: bool)
    requires Holes(Lex(pairs, operation)) == |texts| && |Cut(operation, Neutral)| == |texts| + 1
    requires forall i :: 0 <= i < |texts| ==> texts[i] != "" && Sound(pairs, texts[i])
    requires Lex(pairs, Interleave(Cut(operation, Neutral), texts)) == Substitute(pairs, Lex(pairs, operation), texts)
    ensures ReadAlike(pairs, operation)
  {
    hide Lex, Sound, Substitute, Parts, Cut, Interleave, Flatten, Join;
    var ts, bound := Lex(pairs, operation), Interleave(Cut(operation, Neutral), texts);
    InterleaveIsFlatten(pairs, ts, texts);
    FlattenLex(pairs, bound);
    JoinParts(ts);
    FlattenLex(pairs, operation);
    JoinCut(operation, Neutral);
    forall i | 0 <= i < |texts| ensures texts[i][0] != '?' { SoundStart(pairs, texts[i]); }
    SameCuts(Parts(ts), Cut(operation, Neutral), texts);
  }

  /** The binding theorem, for every template and every reader: the bound statement reads as the
      template's tokens with the k-th placeholder replaced by the k-th literal, none of which is a
      placeholder, if and only if the reader finds placeholders exactly where the driver cuts and
      the literals stand apart from their neighbours. A reader without backslash pairs always
      finds them there. */
  lemma {:induction false} BindPreservesTokens(operation: string, ps: seq<Param>, noBackslash: bool, pairs: bool)
    requires pairs ==> !noBackslash
    requires forall i :: 0 <= i < |ps| ==> Genuine(ps[i])
    requires Bind(operation, ps, noBackslash).Ok?
    ensures var texts := RenderAll(ps, noBackslash).value;
            forall i :: 0 <= i < |texts| ==> texts[i] != "" && Sound(pairs, texts[i])
    ensures var ts, texts := Lex(pairs, operation), RenderAll(ps, noBackslash).value;
            && (!pairs ==> ReadAlike(pairs, operation))
            && (ReadAlike(pairs, operation) ==> Holes(ts) == |texts|)
    ensures var ts, texts := Lex(pairs, operation), RenderAll(ps, noBackslash).value;
            Holes(ts) == |texts| && Lex(pairs, Bind(operation, ps, noBackslash).value) == Substitute(pairs, ts, texts)
            <==> ReadAlike(pairs, operation) && Apart(ts, texts, Clear, false)
    ensures var ts, texts := Lex(pairs, operation), RenderAll(ps, noBackslash).value;
            Holes(ts) == |texts| ==> Placeholder !in Substitute(pairs, ts, texts)
  {
    hide Lex, Sound, Tidy, Substitute, Parts, Apart, Interleave, Flatten, RenderAll, FormatParameter, Genuine, Cut;
    var ts := Lex(pairs, operation);
    var texts := RenderAll(ps, noBackslash).value;
    CutIsParts(operation);
    PartsCount(ts);
    RenderedSound(ps, noBackslash, pairs);
    if Holes(ts) == |texts| {
      var e := Substitute(pairs, ts, texts);
      InterleaveIsFlatten(pairs, ts, texts);
      LexTidy(pairs, operation);
      SubstituteTidy(pairs, ts, texts, Placeholder, false);
      LexFlatten(pairs, e);
      NoPlaceholderLeft(pairs, ts, texts);
      if Lex(pairs, Bind(operation, ps, noBackslash).value) == e {
        SubstitutedIsReadAlike(operation, texts, pairs);
      }
    }
  }

  lemma RenderedSound(ps: seq<Param>, noBackslash: bool, pairs: bool)
    requires pairs ==> !noBackslash
    requires forall i :: 0 <= i < |ps| ==> Genuine(ps[i])
    requires RenderAll(ps, noBackslash).Ok?
    ensures var texts := RenderAll(ps, noBackslash).value;
            forall i :: 0 <= i < |texts| ==> texts[i] != "" && Sound(pairs, texts[i])
  {
    hide FormatParameter, Lex;
    RenderAllAt(ps, noBackslash);
    var texts := RenderAll(ps, noBackslash).value;
    forall i | 0 <= i < |texts| ensures texts[i] != "" && Sound(pairs, texts[i]) {
      RenderSound(ps[i], noBackslash, pairs);
    }
  }

  // ---- The conditions are needed ------------------------------------------------------------

  lemma {:induction false} LiteralThen(pairs: bool, s: string, n: nat)
    requires s != "" && s[0] == QUOTE && n == 1 + Span(QUOTE, pairs, s[1..])
    ensures Lex(pairs, s) == [Literal(s[..n])] + Lex(pairs, s[n..])
  {
    FirstQuoted(pairs, s, n);
    hide Lex, First, Span;
    LexCons(pairs, s);
  }

  lemma {:induction false} FirstQuoted(pairs: bool, s: string, n: nat)
    requires s != "" && s[0] == QUOTE && n == 1 + Span(QUOTE, pairs, s[1..])
    ensures First(pairs, s) == Literal(s[..n])
  {
    hide Span;
  }

  lemma {:induction false} WordThen(pairs: bool, s: string, n: nat)
    requires n == WordRun(s) > 0 && (n < |s| ==> s[n] != QUOTE)
    ensures Lex(pairs, s) == [Word(s[..n])] + Lex(pairs, s[n..])
  {
    hide Span, WordRun;
    LexCons(pairs, s);
  }

  lemma {:induction false} HoleThen(pairs: bool, s: string)
    requires s != "" && s[0] == '?'
    ensures Lex(pairs, s) == [Placeholder] + Lex(pairs, s[1..])
  {
    FirstHole(pairs, s);
    hide First, Lex;
    LexCons(pairs, s);
  }

  lemma {:induction false} RenderTwo(p: Param, q: Param, noBackslash: bool, a: string, b: string)
    requires FormatParameter(p, noBackslash) == Ok(a) && FormatParameter(q, noBackslash) == Ok(b)
    ensures RenderAll([p], noBackslash) == Ok([a]) && RenderAll([p, q], noBackslash) == Ok([a, b])
  {
    hide FormatParameter;
    assert [p, q][1..] == [q] && [q][1..] == [] && [p][1..] == [];
    assert RenderAll([], noBackslash) == Ok([]) && [a] + [] == [a] && [b] + [] == [b] && [a] + [b] == [a, b];
    assert RenderAll([q], noBackslash) == Ok([b]) && RenderAll([p], noBackslash) == Ok([a]);
    assert [p, q][0] == p;
  }

  lemma {:induction false} InterleaveOne(a: string, text: string, b: string)
    ensures Interleave([a, b], [text]) == a + text + b
  {
    assert [a, b][1..] == [b] && [text][1..] == [];
  }

  /** A string bound right after a string literal merges with it. */
  lemma {:induction false} TouchingLiteralsMerge()
    ensures Lex(false, "''?") == [Literal("''"), Placeholder]
    ensures Bind("''?", [Str("")], false) == Ok("''''")
    ensures Lex(false, "''''") == [Literal("''''")]
  {
    hide Lex, RenderAll, Interleave, FormatParameter;
    assert "''?"[1..] == "'?" && "''?"[2..] == "?" && "''?"[..2] == "''" && "?"[1..] == "";
    assert "''''"[1..] == "'''" && "'''"[2..] == "'" && "''''"[..4] == "''''" && "''''"[4..] == "";
    LiteralThen(false, "''?", 2);
    HoleThen(false, "?");
    LexNothing(false);
    LiteralThen(false, "''''", 4);
    EmptyStringText();
    RenderTwo(Str(""), Str(""), false, "''", "''");
    CutOneHole();
    InterleaveOne("''", "''", "");
    assert "''" + "''" + "" == "''''";
  }

  lemma EmptyStringText()
    ensures FormatParameter(Str(""), false) == Ok("''")
  {
    EscapeIsExpand("", false);
    assert "'" + "" + "'" == "''";
  }

  lemma GlueTwo(a: string, b: string, c: string)
    ensures Glue(a, [b, c]) == [a + b, c]
  {
  }

  lemma CutOneHole()
    ensures Cut("''?", Neutral) == ["''", ""]
  {
    assert "''?"[1..] == "'?" && "'?"[1..] == "?" && "?"[1..] == "";
    CutAdvance("''?", Neutral);
    CutAdvance("'?", Quoted);
    assert "''?"[..1] == "'" && "'?"[..1] == "'" && "'" + "" == "'" && "'" + "'" == "''";
    assert Cut("?", Neutral) == ["", ""];
    GlueTwo("'", "", "");
    GlueTwo("'", "'", "");
  }

  /** A number bound right after a number merges with it. */
  lemma {:induction false} TouchingNumbersMerge()
    ensures Bind("??", [Integer(1), Integer(2)], false) == Ok("12")
    ensures Lex(false, "??") == [Placeholder, Placeholder] && Lex(false, "12") == [Word("12")]
  {
    hide Lex, RenderAll, FormatParameter;
    assert "??"[1..] == "?" && "?"[1..] == "" && "12"[1..] == "2" && "2"[1..] == "" && "12"[..2] == "12" && "12"[2..] == "";
    HoleThen(false, "??");
    HoleThen(false, "?");
    LexNothing(false);
    WordThen(false, "12", 2);
    OneAndTwo();
    RenderTwo(Integer(1), Integer(2), false, "1", "2");
    assert Cut("??", Neutral) == [""] + ([""] + [""]);
    assert ["", "", ""][1..] == ["", ""] && ["1", "2"][1..] == ["2"];
    InterleaveOne("", "2", "");
    assert "" + "1" + ("" + "2" + "") == "12";
  }

  lemma OneAndTwo()
    ensures FormatParameter(Integer(1), false) == Ok("1") && FormatParameter(Integer(2), false) == Ok("2")
  {
    assert Decimal(1) == "1" && Decimal(2) == "2";
  }

  /** A string bound right after the letter X turns into the bytes it spells in hexadecimal. */
  lemma {:induction false} StringBecomesBytes()
    ensures Lex(false, "X?") == [Word("X"), Placeholder]
    ensures Bind("X?", [Str("ab")], false) == Ok("X'ab'") == Bind("?", [Bytes([0xAB])], false)
    ensures Lex(false, "X'ab'") == [Literal("X'ab'")]
  {
    hide Lex, RenderAll, FormatParameter, Interleave;
    assert "X?"[..1] == "X" && "X?"[1..] == "?" && "?"[1..] == "";
    WordThen(false, "X?", 1);
    HoleThen(false, "?");
    LexNothing(false);
    AbTexts();
    RenderTwo(Str("ab"), Str("ab"), false, "'ab'", "'ab'");
    RenderTwo(Bytes([0xAB]), Bytes([0xAB]), false, "X'ab'", "X'ab'");
    CutsAroundX();
    InterleaveOne("X", "'ab'", "");
    InterleaveOne("", "X'ab'", "");
    assert "X" + "'ab'" + "" == "X'ab'" == "" + "X'ab'" + "";
    BytesDecode([0xAB], false, false);
  }

  lemma {:induction false} CutsAroundX()
    ensures Cut("X?", Neutral) == ["X", ""] && Cut("?", Neutral) == ["", ""]
  {
    assert "X?"[..1] == "X" && "X?"[1..] == "?" && "?"[1..] == "";
    assert Cut("?", Neutral) == [""] + [""];
    CutAdvance("X?", Neutral);
    GlueTwo("X", "", "");
    assert "X" + "" == "X";
  }

  lemma {:induction false} AbTexts()
    ensures FormatParameter(Str("ab"), false) == Ok("'ab'") && FormatParameter(Bytes([0xAB]), false) == Ok("X'ab'")
  {
    EscapeIsExpand("ab", false);
    assert "ab"[1..] == "b" && "b"[1..] == "" && "a" + ("b" + "") == "ab" && "'" + "ab" + "'" == "'ab'";
    assert Hex([0xAB]) == "ab" by { assert [0xAB as byte][1..] == []; }
    assert "X" + "'" + "ab" + "'" == "X'ab'";
  }

  /** The two readers need not agree on a template: a backslash before a quote inside a literal
      hides the placeholder after it from the driver's scanner only. */
  lemma {:induction false} ReadersDisagree()
    ensures Lex(true, "'\\''?") == [Literal("'\\''"), Placeholder]
    ensures Lex(false, "'\\''?") == [Literal("'\\''?")]
  {
    hide Lex;
    var s := "'\\''?";
    assert s[1..] == "\\''?" && "\\''?"[2..] == "'?" && "\\''?"[1..] == "''?" && "''?"[2..] == "?";
    assert "?"[1..] == "" && Span(QUOTE, false, "?") == 1;
    LiteralThen(true, s, 4);
    HoleThen(true, "?");
    LexNothing(true);
    LiteralThen(false, s, 5);
    LexNothing(false);
    assert s[..4] == "'\\''" && s[4..] == "?" && s[..5] == s && s[5..] == "";
  }
}
