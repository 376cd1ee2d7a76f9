/** Placeholder splitting (pycubrid/_cursor_common.py): the five-mode character lexer that
    fixes what a placeholder is, the hand-written index scanner proved against it, and a token
    lexer with a theorem saying exactly which token sequences survive being written out and
    read again. */
module SqlLexer {

  const QUOTE: char := '\''
  const DQUOTE: char := '"'
  const BACKSLASH: char := '\\'

  // ---- The five-mode lexer --------------------------------------------------

  datatype Mode = Neutral | Quoted | Identifier | Line | Block

  /** Puts a prefix back on the first part. */
  function Glue(prefix: string, parts: seq<string>): (r: seq<string>)
    requires parts != []
    ensures |r| == |parts|
  {
    [prefix + parts[0]] + parts[1..]
  }

  /** How many characters the lexer reads at once in mode m, and the mode it is in afterwards.
      A doubled quote inside a quoted region and a comment delimiter are read as one unit. */
  function Advance(s: string, m: Mode): (r: (nat, Mode))
    requires s != ""
    ensures 1 <= r.0 <= |s| && r.0 <= 2
  {
    var two := |s| > 1;
    match m
    case Neutral =>
      if s[0] == QUOTE then (1, Quoted)
      else if s[0] == DQUOTE then (1, Identifier)
      else if s[0] == '-' && two && s[1] == '-' then (2, Line)
      else if s[0] == '/' && two && s[1] == '*' then (2, Block)
      else (1, Neutral)
    case Quoted =>
      if s[0] != QUOTE then (1, Quoted)
      else if two && s[1] == QUOTE then (2, Quoted)
      else (1, Neutral)
    case Identifier =>
      if s[0] != DQUOTE then (1, Identifier)
      else if two && s[1] == DQUOTE then (2, Identifier)
      else (1, Neutral)
    case Line =>
      if s[0] == '\n' then (1, Neutral) else (1, Line)
    case Block =>
      if s[0] == '*' && two && s[1] == '/' then (2, Neutral) else (1, Block)
  }

  /** The parts of s between the `?` characters visited in neutral mode, starting in mode m. */
  function Cut(s: string, m: Mode): (parts: seq<string>)
    ensures parts != []
    decreases |s|
  {
    if s == "" then [""]
    else if m == Neutral && s[0] == '?' then [""] + Cut(s[1..], Neutral)
    else
      var (n, m') := Advance(s, m);
      Glue(s[..n], Cut(s[n..], m'))
  }

  lemma CutAdvance(s: string, m: Mode)
    requires s != "" && !(m == Neutral && s[0] == '?')
    ensures var (n, m') := Advance(s, m); Cut(s, m) == Glue(s[..n], Cut(s[n..], m'))
  {
  }

  lemma GlueEmpty(parts: seq<string>)
    requires parts != []
    ensures Glue("", parts) == parts
  {
    assert "" + parts[0] == parts[0];
  }

  lemma GlueGlue(a: string, b: string, parts: seq<string>)
    requires parts != []
    ensures Glue(a, Glue(b, parts)) == Glue(a + b, parts)
  {
    assert a + (b + parts[0]) == a + b + parts[0];
  }

  function Join(parts: seq<string>): string
    requires parts != []
  {
    if |parts| == 1 then parts[0] else parts[0] + "?" + Join(parts[1..])
  }

  lemma Slices<T>(s: seq<T>, k: nat, n: nat)
    requires k <= n <= |s|
    ensures s[..n][k..] == s[k..][..n - k] && s[k..][n - k..] == s[n..] && s[..n] + s[n..] == s
  {
  }

  /** Two successive prefixes of s are one longer prefix. */
  lemma GlueSplit(s: string, k: nat, n: nat, parts: seq<string>)
    requires k <= n <= |s| && parts != []
    ensures Glue(s[..k], Glue(s[k..][..n - k], parts)) == Glue(s[..n], parts)
  {
    GlueGlue(s[..k], s[k..][..n - k], parts);
    assert s[..k] + s[k..][..n - k] == s[..n];
  }

  lemma JoinGlue(prefix: string, parts: seq<string>)
    requires parts != []
    ensures Join(Glue(prefix, parts)) == prefix + Join(parts)
  {
    assert Glue(prefix, parts)[1..] == parts[1..];
  }

  /** The parts joined with `?` give back the text. */
  lemma {:induction false} JoinCut(s: string, m: Mode)
    ensures Join(Cut(s, m)) == s
    decreases |s|
  {
    if s != "" {
      if m == Neutral && s[0] == '?' {
        JoinCut(s[1..], Neutral);
        assert Cut(s, m)[1..] == Cut(s[1..], Neutral);
      } else {
        hide Cut, Glue, Join, Advance;
        var (n, m') := Advance(s, m);
        JoinCut(s[n..], m');
        CutAdvance(s, m);
        JoinGlue(s[..n], Cut(s[n..], m'));
        Slices(s, 0, n);
      }
    }
  }

  // ---- The index scanner ----------------------------------------------------

  /** The scanner's progress: what was cut before start, the part in progress, and the rest. */
  ghost predicate Cutting(sql: string, parts: seq<string>, start: nat, i: nat, m: Mode) {
    start <= i <= |sql| && Cut(sql, Neutral) == parts + Glue(sql[start..i], Cut(sql[i..], m))
  }

  lemma CuttingStep(sql: string, parts: seq<string>, start: nat, i: nat, m: Mode)
    requires Cutting(sql, parts, start, i, m) && i < |sql|
    requires !(m == Neutral && sql[i] == '?')
    ensures var (n, m') := Advance(sql[i..], m); Cutting(sql, parts, start, i + n, m')
  {
    hide Cut, Glue, Advance;
    var rest := sql[i..];
    var (n, m') := Advance(rest, m);
    CutAdvance(rest, m);
    assert rest[n..] == sql[i + n..];
    assert sql[start..i + n] == sql[start..i] + rest[..n];
    GlueGlue(sql[start..i], rest[..n], Cut(sql[i + n..], m'));
  }

  /** A line comment ends before its newline, which both modes read alike. */
  lemma CuttingLineEnd(sql: string, parts: seq<string>, start: nat, i: nat)
    requires Cutting(sql, parts, start, i, Line) && (i == |sql| || sql[i] == '\n')
    ensures Cutting(sql, parts, start, i, Neutral)
  {
    if i < |sql| {
      CutAdvance(sql[i..], Line);
      CutAdvance(sql[i..], Neutral);
    } else {
      CuttingEnd(sql, parts, start, Line, Neutral);
    }
  }

  /** At the end of the text every mode has the empty rest. */
  lemma CuttingEnd(sql: string, parts: seq<string>, start: nat, m: Mode, m': Mode)
    requires Cutting(sql, parts, start, |sql|, m)
    ensures Cutting(sql, parts, start, |sql|, m')
  {
    assert sql[|sql|..] == "";
  }

  lemma CuttingHit(sql: string, parts: seq<string>, start: nat, i: nat)
    requires Cutting(sql, parts, start, i, Neutral) && i < |sql| && sql[i] == '?'
    ensures Cutting(sql, parts + [sql[start..i]], i + 1, i + 1, Neutral)
  {
    var tail := Cut(sql[i + 1..], Neutral);
    assert sql[i..][1..] == sql[i + 1..] && sql[i + 1..i + 1] == "";
    assert sql[start..i] + "" == sql[start..i];
    assert Glue(sql[start..i], [""] + tail) == [sql[start..i]] + tail;
    GlueEmpty(tail);
    assert parts + ([sql[start..i]] + tail) == parts + [sql[start..i]] + tail;
  }

  /** What one neutral-mode step of the scanner reads, case by case. */
  lemma CuttingNeutral(sql: string, parts: seq<string>, start: nat, i: nat)
    requires Cutting(sql, parts, start, i, Neutral) && i < |sql|
    ensures sql[i] == QUOTE ==> Cutting(sql, parts, start, i + 1, Quoted)
    ensures sql[i] == DQUOTE ==> Cutting(sql, parts, start, i + 1, Identifier)
    ensures sql[i] == '-' && i + 1 < |sql| && sql[i + 1] == '-' ==> Cutting(sql, parts, start, i + 2, Line)
    ensures sql[i] == '/' && i + 1 < |sql| && sql[i + 1] == '*' ==> Cutting(sql, parts, start, i + 2, Block)
    ensures sql[i] == '?' ==> Cutting(sql, parts + [sql[start..i]], i + 1, i + 1, Neutral)
    ensures sql[i] != QUOTE && sql[i] != DQUOTE && sql[i] != '?'
            && !(i + 1 < |sql| && ((sql[i] == '-' && sql[i + 1] == '-') || (sql[i] == '/' && sql[i + 1] == '*')))
            ==> Cutting(sql, parts, start, i + 1, Neutral)
  {
    if sql[i] == '?' {
      CuttingHit(sql, parts, start, i);
    } else {
      CuttingStep(sql, parts, start, i, Neutral);
    }
  }

  lemma CuttingStart(sql: string)
    ensures Cutting(sql, [], 0, 0, Neutral)
  {
    assert sql[0..] == sql && sql[0..0] == "";
    GlueEmpty(Cut(sql, Neutral));
    assert [] + Cut(sql, Neutral) == Cut(sql, Neutral);
  }

  lemma CuttingDone(sql: string, parts: seq<string>, start: nat)
    requires Cutting(sql, parts, start, |sql|, Neutral)
    ensures Cut(sql, Neutral) == parts + [sql[start..]]
  {
    assert sql[|sql|..] == "" && sql[start..|sql|] == sql[start..];
    assert sql[start..] + "" == sql[start..];
    assert Glue(sql[start..], [""]) == [sql[start..]];
  }

  method SplitOnPlaceholders(sql: string) returns (parts: seq<string>)
    ensures parts == Cut(sql, Neutral)
  {
    hide Cutting;
    parts := [];
    var start := 0;
    var i := 0;
    var n := |sql|;
    CuttingStart(sql);
    while i < n
      invariant start <= i <= n && Cutting(sql, parts, start, i, Neutral)
    {
      var c := sql[i];
      CuttingNeutral(sql, parts, start, i);
      if c == QUOTE {
        i := SkipQuoted(sql, parts, start, i + 1, QUOTE);
      } else if c == DQUOTE {
        i := SkipQuoted(sql, parts, start, i + 1, DQUOTE);
      } else if c == '-' && i + 1 < n && sql[i + 1] == '-' {
        i := SkipLine(sql, parts, start, i + 2);
      } else if c == '/' && i + 1 < n && sql[i + 1] == '*' {
        i := SkipBlock(sql, parts, start, i + 2);
      } else if c == '?' {
        parts := parts + [sql[start..i]];
        i := i + 1;
        start := i;
      } else {
        i := i + 1;
      }
    }
    CuttingDone(sql, parts, start);
    parts := parts + [sql[start..]];
  }

  /** What one step inside quotes reads, case by case. */
  lemma CuttingQuoted(sql: string, parts: seq<string>, start: nat, i: nat, q: char)
    requires q == QUOTE || q == DQUOTE
    requires i < |sql| && Cutting(sql, parts, start, i, if q == QUOTE then Quoted else Identifier)
    ensures var inside := if q == QUOTE then Quoted else Identifier;
            if sql[i] != q then Cutting(sql, parts, start, i + 1, inside)
            else if i + 1 < |sql| && sql[i + 1] == q then Cutting(sql, parts, start, i + 2, inside)
            else Cutting(sql, parts, start, i + 1, Neutral)
  {
    CuttingStep(sql, parts, start, i, if q == QUOTE then Quoted else Identifier);
  }

  /** The inner loop for quoted strings and quoted identifiers: the index just past the
      closing quote, or the end of the text. */
  method SkipQuoted(sql: string, ghost parts: seq<string>, ghost start: nat, from: nat, q: char)
    returns (i: nat)
    requires q == QUOTE || q == DQUOTE
    requires from <= |sql| && Cutting(sql, parts, start, from, if q == QUOTE then Quoted else Identifier)
    ensures from <= i <= |sql| && Cutting(sql, parts, start, i, Neutral)
  {
    hide Cutting;
    i := from;
    var n := |sql|;
    ghost var inside := if q == QUOTE then Quoted else Identifier;
    ghost var m := inside;
    while i < n
      invariant from <= i <= n && m == inside && Cutting(sql, parts, start, i, m)
    {
      CuttingQuoted(sql, parts, start, i, q);
      if sql[i] == q {
        i := i + 1;
        if i < n && sql[i] == q {
          i := i + 1;
        } else {
          m := Neutral;
          break;
        }
      } else {
        i := i + 1;
      }
    }
    if m == inside { CuttingEnd(sql, parts, start, inside, Neutral); }
  }

  /** The inner loop for line comments: the index of the newline, or the end of the text. */
  method SkipLine(sql: string, ghost parts: seq<string>, ghost start: nat, from: nat) returns (i: nat)
    requires Cutting(sql, parts, start, from, Line)
    ensures from <= i <= |sql| && Cutting(sql, parts, start, i, Neutral)
  {
    hide Cut, Glue;
    i := from;
    while i < |sql| && sql[i] != '\n'
      invariant from <= i <= |sql| && Cutting(sql, parts, start, i, Line)
    {
      CuttingStep(sql, parts, start, i, Line);
      i := i + 1;
    }
    CuttingLineEnd(sql, parts, start, i);
  }

  /** The inner loop for block comments: the index just past the closing delimiter. */
  method SkipBlock(sql: string, ghost parts: seq<string>, ghost start: nat, from: nat) returns (i: nat)
    requires Cutting(sql, parts, start, from, Block)
    ensures from <= i <= |sql| && Cutting(sql, parts, start, i, Neutral)
  {
    i := from;
    ghost var m := Block;
    while i < |sql|
      invariant from <= i <= |sql| && m == Block && Cutting(sql, parts, start, i, m)
    {
      CuttingStep(sql, parts, start, i, m);
      if sql[i] == '*' && i + 1 < |sql| && sql[i + 1] == '/' {
        i := i + 2;
        m := Neutral;
        break;
      }
      i := i + 1;
    }
    if m == Block { CuttingEnd(sql, parts, start, Block, Neutral); }
  }

  // ---- Tokens ---------------------------------------------------------------

  /** A literal includes the keyword written directly before its quote, as in X'00' or DATE'...'.
      A word is a run of letters, digits, underscores and dots, so numbers are words too; the rest
      outside quotes and comments is one Plain token a character. */
  datatype Token =
    | Literal(text: string)
    | Word(text: string)
    | QuotedName(text: string)
    | LineComment(text: string)
    | BlockComment(text: string)
    | Placeholder
    | Plain(c: char)

  function Text(t: Token): (s: string)
  {
    match t
    case Placeholder => "?"
    case Plain(c) => [c]
    case _ => t.text
  }

  function Flatten(ts: seq<Token>): string {
    if ts == [] then "" else Text(ts[0]) + Flatten(ts[1..])
  }

  /** Length of the quoted region s, which starts just after its opening quote q: up to and
      including the closing quote, or all of s. With pairs, a backslash takes the next
      character with it. */
  function Span(q: char, pairs: bool, s: string): (n: nat)
    ensures n <= |s|
    ensures s != "" ==> n > 0
  {
    if s == "" then 0
    else if pairs && s[0] == BACKSLASH then if |s| == 1 then 1 else 2 + Span(q, pairs, s[2..])
    else if s[0] == q then if |s| > 1 && s[1] == q then 2 + Span(q, pairs, s[2..]) else 1
    else 1 + Span(q, pairs, s[1..])
  }

  /** Whether that region has a closing quote. */
  predicate Closed(q: char, pairs: bool, s: string) {
    if s == "" then false
    else if pairs && s[0] == BACKSLASH then |s| > 1 && Closed(q, pairs, s[2..])
    else if s[0] == q then if |s| > 1 && s[1] == q then Closed(q, pairs, s[2..]) else true
    else Closed(q, pairs, s[1..])
  }

  function LineSpan(s: string): (n: nat)
    ensures n <= |s|
  {
    if s == "" || s[0] == '\n' then 0 else 1 + LineSpan(s[1..])
  }

  function BlockSpan(s: string): (n: nat)
    ensures n <= |s|
  {
    if s == "" then 0
    else if |s| > 1 && s[0] == '*' && s[1] == '/' then 2
    else 1 + BlockSpan(s[1..])
  }

  predicate BlockClosed(s: string) {
    s != "" && ((|s| > 1 && s[0] == '*' && s[1] == '/') || BlockClosed(s[1..]))
  }

  /** Characters beyond ASCII can be part of a name. */
  predicate IsWordChar(c: char) {
    'a' <= c <= 'z' || 'A' <= c <= 'Z' || '0' <= c <= '9' || c == '_' || c == '.' || c as int >= 128
  }

  /** Length of the word s starts with. */
  function WordRun(s: string): (n: nat)
    ensures n <= |s| && (n < |s| ==> !IsWordChar(s[n]))
    ensures forall i :: 0 <= i < n ==> IsWordChar(s[i])
  {
    if s == "" || !IsWordChar(s[0]) then 0 else 1 + WordRun(s[1..])
  }

  datatype Kind = KLiteral | KWord | KName | KLine | KBlock | KHole | KPlain

  function KindOf(s: string): Kind
    requires s != ""
  {
    var w := WordRun(s);
    if w < |s| && s[w] == QUOTE then KLiteral
    else if w > 0 then KWord
    else if s[0] == DQUOTE then KName
    else if |s| > 1 && s[0] == '-' && s[1] == '-' then KLine
    else if |s| > 1 && s[0] == '/' && s[1] == '*' then KBlock
    else if s[0] == '?' then KHole
    else KPlain
  }

  /** Length of the token s starts with. The flag pairs says whether the reader takes backslash
      pairs inside string literals; the driver's own scanner is the reader with pairs off. */
  function Length(pairs: bool, s: string): (n: nat)
    requires s != ""
    ensures 0 < n <= |s|
  {
    match KindOf(s)
    case KLiteral => WordRun(s) + 1 + Span(QUOTE, pairs, s[WordRun(s) + 1..])
    case KWord => WordRun(s)
    case KName => 1 + Span(DQUOTE, false, s[1..])
    case KLine => 2 + LineSpan(s[2..])
    case KBlock => 2 + BlockSpan(s[2..])
    case _ => 1
  }

  function Make(k: Kind, text: string): Token
    requires text != ""
  {
    match k
    case KLiteral => Literal(text)
    case KWord => Word(text)
    case KName => QuotedName(text)
    case KLine => LineComment(text)
    case KBlock => BlockComment(text)
    case KHole => Placeholder
    case KPlain => Plain(text[0])
  }

  /** The token a text starts with. */
  function First(pairs: bool, s: string): (t: Token)
    requires s != ""
    ensures |Text(t)| == Length(pairs, s) && Text(t) == s[..Length(pairs, s)]
  {
    Make(KindOf(s), s[..Length(pairs, s)])
  }

  function Lex(pairs: bool, s: string): (ts: seq<Token>)
    ensures (ts == []) == (s == "")
    decreases |s|
  {
    if s == "" then [] else
      var t := First(pairs, s);
      [t] + Lex(pairs, s[|Text(t)|..])
  }

  // ---- The token lexer and the mode lexer agree --------------------------------

  /** The parts of a token sequence between its placeholders. */
  function Parts(ts: seq<Token>): (parts: seq<string>)
    ensures parts != []
  {
    if ts == [] then [""]
    else if ts[0].Placeholder? then [""] + Parts(ts[1..])
    else Glue(Text(ts[0]), Parts(ts[1..]))
  }

  lemma {:induction false} CutNothing(s: string, m: Mode)
    requires s == ""
    ensures Cut(s, m) == Cut(s, Neutral) == Glue(s[..0], Cut(s[0..], Neutral))
  {
    GlueEmpty(Cut(s, Neutral));
  }

  lemma {:induction false} CutQuoted(q: char, s: string)
    requires q == QUOTE || q == DQUOTE
    ensures var n := Span(q, false, s);
            Cut(s, if q == QUOTE then Quoted else Identifier) == Glue(s[..n], Cut(s[n..], Neutral))
    decreases |s|
  {
    hide Cut, Glue;
    var m := if q == QUOTE then Quoted else Identifier;
    if s == "" {
      CutNothing(s, m);
    } else {
      var (k, m') := Advance(s, m);
      CutAdvance(s, m);
      if m' == m {
        var n := Span(q, false, s);
        CutQuoted(q, s[k..]);
        Slices(s, k, n);
        GlueSplit(s, k, n, Cut(s[n..], Neutral));
      }
    }
  }

  lemma {:induction false} CutLine(s: string)
    ensures var n := LineSpan(s); Cut(s, Line) == Glue(s[..n], Cut(s[n..], Neutral))
    decreases |s|
  {
    if s == "" {
      GlueEmpty(Cut(s, Neutral));
    } else if s[0] == '\n' {
      CutAdvance(s, Line);
      CutAdvance(s, Neutral);
      GlueEmpty(Cut(s, Neutral));
      assert s[0..] == s;
    } else {
      var n := LineSpan(s);
      CutAdvance(s, Line);
      CutLine(s[1..]);
      assert s[1..][n - 1..] == s[n..];
      GlueSplit(s, 1, n, Cut(s[n..], Neutral));
    }
  }

  lemma {:induction false} CutBlock(s: string)
    ensures var n := BlockSpan(s); Cut(s, Block) == Glue(s[..n], Cut(s[n..], Neutral))
    decreases |s|
  {
    if s == "" {
      GlueEmpty(Cut(s, Neutral));
    } else {
      CutAdvance(s, Block);
      if Advance(s, Block).1 == Block {
        var n := BlockSpan(s);
        CutBlock(s[1..]);
        assert s[1..][n - 1..] == s[n..];
        GlueSplit(s, 1, n, Cut(s[n..], Neutral));
      }
    }
  }

  /** From the state k characters into s, the rest of the token is one stretch in mode m. */
  lemma CutRest(s: string, k: nat, m: Mode, n: nat)
    requires k <= n <= |s| && s != "" && s[0] != '?' && Advance(s, Neutral) == (k, m)
    requires Cut(s[k..], m) == Glue(s[k..][..n - k], Cut(s[k..][n - k..], Neutral))
    ensures Cut(s, Neutral) == Glue(s[..n], Cut(s[n..], Neutral))
  {
    CutAdvance(s, Neutral);
    assert s[k..][n - k..] == s[n..];
    GlueSplit(s, k, n, Cut(s[n..], Neutral));
  }

  lemma CutFirstQuoted(q: char, s: string)
    requires s != "" && s[0] == q && (q == QUOTE || q == DQUOTE)
    ensures var n := 1 + Span(q, false, s[1..]); Cut(s, Neutral) == Glue(s[..n], Cut(s[n..], Neutral))
  {
    CutQuoted(q, s[1..]);
    CutRest(s, 1, if q == QUOTE then Quoted else Identifier, 1 + Span(q, false, s[1..]));
  }

  lemma CutFirstLine(s: string)
    requires |s| > 1 && s[0] == '-' && s[1] == '-'
    ensures var n := 2 + LineSpan(s[2..]); Cut(s, Neutral) == Glue(s[..n], Cut(s[n..], Neutral))
  {
    CutLine(s[2..]);
    CutRest(s, 2, Line, 2 + LineSpan(s[2..]));
  }

  lemma CutFirstBlock(s: string)
    requires |s| > 1 && s[0] == '/' && s[1] == '*'
    ensures var n := 2 + BlockSpan(s[2..]); Cut(s, Neutral) == Glue(s[..n], Cut(s[n..], Neutral))
  {
    CutBlock(s[2..]);
    CutRest(s, 2, Block, 2 + BlockSpan(s[2..]));
  }

  lemma CutNone(s: string)
    ensures Glue(s[..0], Cut(s[0..], Neutral)) == Cut(s, Neutral)
  {
    GlueEmpty(Cut(s, Neutral));
    assert s[..0] == "" && s[0..] == s;
  }

  lemma CutWordChar(s: string)
    requires s != "" && IsWordChar(s[0])
    ensures Cut(s, Neutral) == Glue(s[..1], Cut(s[1..], Neutral))
  {
    CutAdvance(s, Neutral);
  }

  lemma {:induction false} CutWord(s: string)
    ensures var n := WordRun(s); Cut(s, Neutral) == Glue(s[..n], Cut(s[n..], Neutral))
    decreases |s|
  {
    hide Cut, Glue;
    var n := WordRun(s);
    if n == 0 {
      CutNone(s);
    } else {
      CutWordChar(s);
      CutWord(s[1..]);
      Slices(s, 1, n);
      GlueSplit(s, 1, n, Cut(s[n..], Neutral));
    }
  }

  lemma {:induction false} CutFirstLiteral(s: string)
    requires s != "" && KindOf(s) == KLiteral
    ensures var n := Length(false, s); Cut(s, Neutral) == Glue(s[..n], Cut(s[n..], Neutral))
  {
    hide Cut, Glue, Span;
    var w, n := WordRun(s), Length(false, s);
    CutWord(s);
    CutFirstQuoted(QUOTE, s[w..]);
    assert s[w..][1..] == s[w + 1..];
    Slices(s, w, n);
    GlueSplit(s, w, n, Cut(s[n..], Neutral));
  }

  /** One token is one stretch of neutral-to-neutral reading. */
  lemma CutFirst(s: string)
    requires s != "" && s[0] != '?'
    ensures var n := Length(false, s); Cut(s, Neutral) == Glue(s[..n], Cut(s[n..], Neutral))
  {
    match KindOf(s) {
      case KLiteral => CutFirstLiteral(s);
      case KWord => CutWord(s);
      case KName => CutFirstQuoted(DQUOTE, s);
      case KLine => CutFirstLine(s);
      case KBlock => CutFirstBlock(s);
      case _ => CutAdvance(s, Neutral);
    }
  }

  lemma {:induction false} LexCons(pairs: bool, s: string)
    requires s != ""
    ensures var t := First(pairs, s); Lex(pairs, s) == [t] + Lex(pairs, s[|Text(t)|..])
  {
  }

  lemma {:induction false} FirstHole(pairs: bool, s: string)
    requires s != ""
    ensures First(pairs, s).Placeholder? <==> s[0] == '?'
    ensures s[0] == '?' ==> First(pairs, s) == Placeholder && s[|Text(First(pairs, s))|..] == s[1..]
  {
  }

  lemma {:induction false} PartsCons(t: Token, ts: seq<Token>)
    ensures Parts([t] + ts) == if t.Placeholder? then [""] + Parts(ts) else Glue(Text(t), Parts(ts))
  {
    assert ([t] + ts)[1..] == ts;
  }

  lemma CutHole(s: string)
    requires s != "" && s[0] == '?'
    ensures Cut(s, Neutral) == [""] + Cut(s[1..], Neutral)
  {
  }

  /** The mode lexer cuts at exactly the placeholder tokens. */
  lemma {:induction false} CutIsParts(s: string)
    ensures Cut(s, Neutral) == Parts(Lex(false, s))
    decreases |s|
  {
    if s == "" {
    } else {
      hide *;
      var t := First(false, s);
      CutIsParts(s[|Text(t)|..]);
      LexCons(false, s);
      PartsCons(t, Lex(false, s[|Text(t)|..]));
      FirstHole(false, s);
      if s[0] == '?' { CutHole(s); } else { CutFirst(s); }
    }
  }

  // ---- Which token sequences are read back as written --------------------------

  /** A literal's text that has its closing quote. */
  predicate ClosedLiteral(pairs: bool, text: string) {
    WordRun(text) < |text| && Closed(QUOTE, pairs, text[WordRun(text) + 1..])
  }

  /** Token t, written before the text rest, is still read as t. */
  predicate Separates(pairs: bool, t: Token, rest: string) {
    rest == "" ||
    match t
    case Literal(text) => ClosedLiteral(pairs, text) && rest[0] != QUOTE
    case Word(_) => !IsWordChar(rest[0]) && rest[0] != QUOTE
    case QuotedName(text) => text != "" && Closed(DQUOTE, false, text[1..]) && rest[0] != DQUOTE
    case LineComment(_) => rest[0] == '\n'
    case BlockComment(text) => |text| >= 2 && BlockClosed(text[2..])
    case Placeholder => true
    case Plain(c) => !(c == '-' && rest[0] == '-') && !(c == '/' && rest[0] == '*')
  }

  /** t is a whole token: reading its own text gives t. */
  predicate Whole(pairs: bool, t: Token) {
    Text(t) != "" && First(pairs, Text(t)) == t
  }

  predicate Tidy(pairs: bool, ts: seq<Token>) {
    ts == [] ||
    (Whole(pairs, ts[0]) && Separates(pairs, ts[0], Flatten(ts[1..])) && Tidy(pairs, ts[1..]))
  }

  lemma AppendTail<T>(a: seq<T>, rest: seq<T>, k: nat)
    requires k <= |a|
    ensures (a + rest)[k..] == a[k..] + rest
  {
  }

  lemma {:induction false} SpanAppend(q: char, pairs: bool, a: string, rest: string)
    requires Span(q, pairs, a) == |a| && rest != ""
    requires q != BACKSLASH
    ensures Span(q, pairs, a + rest) >= |a|
    ensures Span(q, pairs, a + rest) == |a| <==> Closed(q, pairs, a) && rest[0] != q
    decreases |a|
  {
    if a == "" {
      assert a + rest == rest;
    } else if a[0] == q || (pairs && a[0] == BACKSLASH) {
      if |a| > 1 {
        SpanAppend(q, pairs, a[2..], rest);
        AppendTail(a, rest, 2);
      }
    } else {
      SpanAppend(q, pairs, a[1..], rest);
      AppendTail(a, rest, 1);
    }
  }

  lemma {:induction false} LineSpanAppend(a: string, rest: string)
    requires LineSpan(a) == |a| && rest != ""
    ensures LineSpan(a + rest) >= |a|
    ensures LineSpan(a + rest) == |a| <==> rest[0] == '\n'
    decreases |a|
  {
    if a == "" { assert a + rest == rest; }
    else { LineSpanAppend(a[1..], rest); assert (a + rest)[1..] == a[1..] + rest; }
  }

  lemma {:induction false} BlockSpanAppend(a: string, rest: string)
    requires BlockSpan(a) == |a| && rest != ""
    ensures BlockSpan(a + rest) >= |a|
    ensures BlockSpan(a + rest) == |a| <==> BlockClosed(a)
    decreases |a|
  {
    if a == "" { assert a + rest == rest; }
    else if |a| > 1 && a[0] == '*' && a[1] == '/' {}
    else { BlockSpanAppend(a[1..], rest); assert (a + rest)[1..] == a[1..] + rest; }
  }

  /** A whole token stays the first token exactly when its kind and length are kept. */
  lemma FirstByLength(pairs: bool, a: string, rest: string)
    requires a != "" && Length(pairs, a) == |a|
    ensures First(pairs, a + rest) == First(pairs, a) <==>
            KindOf(a + rest) == KindOf(a) && Length(pairs, a + rest) == |a|
  {
    var s := a + rest;
    assert a[..|a|] == a;
    if KindOf(s) == KindOf(a) && Length(pairs, s) == |a| {
      assert s[..|a|] == a;
    }
  }

  lemma {:induction false} WordRunAppend(a: string, rest: string)
    ensures WordRun(a + rest) == if WordRun(a) < |a| then WordRun(a) else |a| + WordRun(rest)
    decreases |a|
  {
    if a == "" {
      assert a + rest == rest;
    } else if IsWordChar(a[0]) {
      AppendTail(a, rest, 1);
      WordRunAppend(a[1..], rest);
    }
  }

  lemma {:induction false} LengthAppendLiteral(pairs: bool, a: string, rest: string)
    requires a != "" && rest != "" && Length(pairs, a) == |a| && KindOf(a) == KLiteral
    ensures KindOf(a + rest) == KLiteral
    ensures Length(pairs, a + rest) == |a| <==> ClosedLiteral(pairs, a) && rest[0] != QUOTE
  {
    hide Span, Closed;
    var w := WordRun(a);
    WordRunAppend(a, rest);
    AppendTail(a, rest, w + 1);
    SpanAppend(QUOTE, pairs, a[w + 1..], rest);
  }

  lemma {:induction false} LengthAppendWord(pairs: bool, a: string, rest: string)
    requires a != "" && rest != "" && Length(pairs, a) == |a| && KindOf(a) == KWord
    ensures KindOf(a + rest) == KWord && Length(pairs, a + rest) == |a| <==> !IsWordChar(rest[0]) && rest[0] != QUOTE
  {
    hide Span;
    WordRunAppend(a, rest);
    assert (a + rest)[|a|] == rest[0];
  }

  lemma {:induction false} LengthAppendName(pairs: bool, a: string, rest: string)
    requires a != "" && rest != "" && Length(pairs, a) == |a| && KindOf(a) == KName
    ensures KindOf(a + rest) == KName
    ensures Length(pairs, a + rest) == |a| <==> Closed(DQUOTE, false, a[1..]) && rest[0] != DQUOTE
  {
    hide Span, Closed;
    WordRunAppend(a, rest);
    AppendTail(a, rest, 1);
    SpanAppend(DQUOTE, false, a[1..], rest);
  }

  lemma LengthAppendComment(pairs: bool, a: string, rest: string)
    requires a != "" && rest != "" && Length(pairs, a) == |a|
    requires KindOf(a) == KLine || KindOf(a) == KBlock
    ensures KindOf(a + rest) == KindOf(a)
    ensures Length(pairs, a + rest) == |a| <==>
            if KindOf(a) == KLine then rest[0] == '\n' else BlockClosed(a[2..])
  {
    WordRunAppend(a, rest);
    AppendTail(a, rest, 2);
    if KindOf(a) == KLine { LineSpanAppend(a[2..], rest); } else { BlockSpanAppend(a[2..], rest); }
  }

  /** A whole token stays the first token exactly when what follows separates from it. */
  lemma FirstAppend(pairs: bool, t: Token, rest: string)
    requires Whole(pairs, t)
    ensures First(pairs, Text(t) + rest) == t <==> Separates(pairs, t, rest)
  {
    var a := Text(t);
    FirstByLength(pairs, a, rest);
    if rest == "" {
      assert a + rest == a;
    } else if t.Literal? {
      LengthAppendLiteral(pairs, a, rest);
    } else if t.Word? {
      LengthAppendWord(pairs, a, rest);
    } else if t.QuotedName? {
      LengthAppendName(pairs, a, rest);
    } else if t.LineComment? || t.BlockComment? {
      LengthAppendComment(pairs, a, rest);
    } else {
      WordRunAppend(a, rest);
    }
  }

  lemma {:induction false} SpanPrefix(q: char, pairs: bool, s: string)
    ensures var n := Span(q, pairs, s); Span(q, pairs, s[..n]) == n
    decreases |s|
  {
    var n := Span(q, pairs, s);
    if s != "" {
      if (pairs && s[0] == BACKSLASH) || (s[0] == q && |s| > 1 && s[1] == q) {
        if |s| > 1 {
          SpanPrefix(q, pairs, s[2..]);
          Slices(s, 2, n);
        }
      } else if s[0] != q {
        SpanPrefix(q, pairs, s[1..]);
        Slices(s, 1, n);
      }
    }
  }

  lemma {:induction false} LineSpanPrefix(s: string)
    ensures var n := LineSpan(s); LineSpan(s[..n]) == n
    decreases |s|
  {
    var n := LineSpan(s);
    if n > 0 { LineSpanPrefix(s[1..]); Slices(s, 1, n); }
  }

  lemma {:induction false} BlockSpanPrefix(s: string)
    ensures var n := BlockSpan(s); BlockSpan(s[..n]) == n
    decreases |s|
  {
    var n := BlockSpan(s);
    if s != "" && !(|s| > 1 && s[0] == '*' && s[1] == '/') {
      BlockSpanPrefix(s[1..]);
      Slices(s, 1, n);
    }
  }

  lemma {:induction false} WordRunPrefix(s: string, n: nat)
    requires WordRun(s) <= n <= |s|
    ensures WordRun(s[..n]) == WordRun(s)
    decreases |s|
  {
    if n > 0 && WordRun(s) > 0 {
      Slices(s, 1, n);
      WordRunPrefix(s[1..], n - 1);
    }
  }

  lemma {:induction false} LengthPrefix(pairs: bool, s: string)
    requires s != ""
    ensures var a := s[..Length(pairs, s)]; KindOf(a) == KindOf(s) && Length(pairs, a) == |a|
  {
    hide Span, LineSpan, BlockSpan;
    WordRunPrefix(s, Length(pairs, s));
    match KindOf(s) {
      case KLiteral =>
        var w, n := WordRun(s), Length(pairs, s);
        SpanPrefix(QUOTE, pairs, s[w + 1..]);
        Slices(s, w + 1, n);
      case KWord =>
      case KName => QuotedWhole(DQUOTE, false, s);
      case KLine =>
        LineSpanPrefix(s[2..]);
        Slices(s, 2, 2 + LineSpan(s[2..]));
      case KBlock =>
        BlockSpanPrefix(s[2..]);
        Slices(s, 2, 2 + BlockSpan(s[2..]));
      case _ =>
    }
  }

  /** The first token of a text is whole. */
  lemma FirstWhole(pairs: bool, s: string)
    requires s != ""
    ensures Whole(pairs, First(pairs, s))
  {
    LengthPrefix(pairs, s);
    var a := s[..Length(pairs, s)];
    assert a[..|a|] == a;
  }

  lemma {:induction false} QuotedWhole(q: char, pairs: bool, s: string)
    requires s != ""
    ensures var n := 1 + Span(q, pairs, s[1..]); 1 + Span(q, pairs, s[..n][1..]) == n
  {
    hide Span;
    var n := 1 + Span(q, pairs, s[1..]);
    SpanPrefix(q, pairs, s[1..]);
    Slices(s, 1, n);
  }

  lemma {:induction false} FlattenCons(t: Token, ts: seq<Token>)
    ensures Flatten([t] + ts) == Text(t) + Flatten(ts)
  {
    assert ([t] + ts)[1..] == ts;
  }

  lemma {:induction false} FlattenLex(pairs: bool, s: string)
    ensures Flatten(Lex(pairs, s)) == s
    decreases |s|
  {
    if s != "" {
      hide *;
      var t := First(pairs, s);
      FlattenLex(pairs, s[|Text(t)|..]);
      LexCons(pairs, s);
      FlattenCons(t, Lex(pairs, s[|Text(t)|..]));
      Slices(s, 0, |Text(t)|);
    }
  }

  /** Main theorem of the lexer: a token sequence, written out and read again, comes back
      unchanged exactly when it is tidy. */
  lemma {:induction false} LexFlatten(pairs: bool, ts: seq<Token>)
    ensures Lex(pairs, Flatten(ts)) == ts <==> Tidy(pairs, ts)
    decreases |ts|
  {
    if ts != [] {
      var t, rest := ts[0], Flatten(ts[1..]);
      LexFlatten(pairs, ts[1..]);
      var s := Flatten(ts);
      assert s == Text(t) + rest;
      if Lex(pairs, s) == ts {
        assert s != "";
        FirstWhole(pairs, s);
        assert First(pairs, s) == t;
        FirstAppend(pairs, t, rest);
        assert s[|Text(t)|..] == rest;
        assert Lex(pairs, rest) == Lex(pairs, s)[1..];
      }
      if Tidy(pairs, ts) {
        FirstAppend(pairs, t, rest);
        assert s[|Text(t)|..] == rest;
        assert Lex(pairs, s) == [t] + Lex(pairs, rest);
      }
    }
  }

  lemma LexTidy(pairs: bool, s: string)
    ensures Tidy(pairs, Lex(pairs, s))
  {
    FlattenLex(pairs, s);
    LexFlatten(pairs, Lex(pairs, s));
  }
}
