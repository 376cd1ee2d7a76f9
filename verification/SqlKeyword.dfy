/** The comment stripper used before the first keyword (pycubrid/_cursor_common.py), and its
    agreement with the placeholder scanner about what a comment is. */
module SqlKeyword {
  import opened SqlLexer

  /** The characters Python's \s and str.split treat as white space. */
  predicate IsSpace(c: char) {
    var n := c as int;
    || 0x9 <= n <= 0xD || 0x1C <= n <= 0x20 || n == 0x85 || n == 0xA0 || n == 0x1680
    || 0x2000 <= n <= 0x200A || n == 0x2028 || n == 0x2029 || n == 0x202F || n == 0x205F || n == 0x3000
  }

  function SpaceSpan(s: string): (n: nat)
    ensures n <= |s|
    ensures n < |s| ==> !IsSpace(s[n])
  {
    if s == "" || !IsSpace(s[0]) then 0 else 1 + SpaceSpan(s[1..])
  }

  /** Length of one closed block comment, or one line comment with its newline, at the start
      of s; 0 if s starts with neither. */
  function CommentSpan(s: string): (n: nat)
    ensures n <= |s|
  {
    if |s| < 2 then 0
    else if s[0] == '/' && s[1] == '*' then if BlockClosed(s[2..]) then 2 + BlockSpan(s[2..]) else 0
    else if s[0] == '-' && s[1] == '-' then
      var n := 2 + LineSpan(s[2..]);
      if n < |s| then n + 1 else n
    else 0
  }

  /** What the regular expression's repeated group matches: white space and a comment, again
      and again. */
  function CommentsSpan(s: string): (n: nat)
    ensures n <= |s|
    decreases |s|
  {
    var w := SpaceSpan(s);
    var c := CommentSpan(s[w..]);
    if c == 0 then 0 else w + c + CommentsSpan(s[w + c..])
  }

  /** The whole prefix removed before the keyword is read. */
  function LeadingSpan(s: string): (n: nat)
    ensures n <= |s|
  {
    var n := CommentsSpan(s);
    n + SpaceSpan(s[n..])
  }

  function Upper(c: char): char {
    if 'a' <= c <= 'z' then (c as int - 32) as char else c
  }

  function WordSpan(s: string): (n: nat)
    ensures n <= |s|
  {
    if s == "" || IsSpace(s[0]) then 0 else 1 + WordSpan(s[1..])
  }

  function ExtractFirstKeyword(sql: string): string {
    var stripped := sql[LeadingSpan(sql)..];
    seq(WordSpan(stripped), i requires 0 <= i < WordSpan(stripped) => Upper(stripped[i]))
  }

  /** A prefix of n characters is read by the scanner from neutral mode to neutral mode. */
  predicate CutsAt(s: string, n: nat)
    requires n <= |s|
  {
    Cut(s, Neutral) == Glue(s[..n], Cut(s[n..], Neutral))
  }

  lemma CutsAtZero(s: string)
    ensures CutsAt(s, 0)
  {
    GlueEmpty(Cut(s, Neutral));
    assert s[..0] == "" && s[0..] == s;
  }

  lemma CutsAtSum(s: string, a: nat, b: nat)
    requires a + b <= |s| && CutsAt(s, a) && CutsAt(s[a..], b)
    ensures CutsAt(s, a + b)
  {
    assert s[a..][b..] == s[a + b..];
    GlueSplit(s, a, a + b, Cut(s[a + b..], Neutral));
  }

  lemma {:induction false} CutsAtSpace(s: string)
    ensures CutsAt(s, SpaceSpan(s))
    decreases |s|
  {
    if s == "" || !IsSpace(s[0]) {
      CutsAtZero(s);
    } else {
      CutAdvance(s, Neutral);
      CutsAtSpace(s[1..]);
      CutsAtSum(s, 1, SpaceSpan(s[1..]));
    }
  }

  lemma CutsAtLine(s: string)
    requires |s| > 1 && s[0] == '-' && s[1] == '-'
    ensures CutsAt(s, CommentSpan(s))
  {
    hide Cut, Glue, LineSpan, BlockSpan, BlockClosed, IsSpace;
    CutFirstLine(s);
    var m := 2 + LineSpan(s[2..]);
    if m < |s| {
      LineSpanStops(s[2..]);
      CutAdvance(s[m..], Neutral);
      CutsAtSum(s, m, 1);
    }
  }

  lemma CutsAtComment(s: string)
    ensures CutsAt(s, CommentSpan(s))
  {
    if CommentSpan(s) == 0 {
      CutsAtZero(s);
    } else if s[0] == '/' {
      CutFirstBlock(s);
    } else {
      CutsAtLine(s);
    }
  }

  lemma {:induction false} LineSpanStops(s: string)
    requires LineSpan(s) < |s|
    ensures s[LineSpan(s)] == '\n'
    decreases |s|
  {
    if s[0] != '\n' { LineSpanStops(s[1..]); }
  }

  lemma {:induction false} CutsAtComments(s: string)
    ensures CutsAt(s, CommentsSpan(s))
    decreases |s|
  {
    hide CutsAt, SpaceSpan, CommentSpan, CommentsSpan;
    var w := SpaceSpan(s);
    var c := CommentSpan(s[w..]);
    CommentsSpanStep(s);
    if c == 0 {
      CutsAtZero(s);
    } else {
      CutsAtSpace(s);
      CutsAtComment(s[w..]);
      CutsAtSum(s, w, c);
      CutsAtComments(s[w + c..]);
      CutsAtSum(s, w + c, CommentsSpan(s[w + c..]));
    }
  }

  /** The two comment lexers agree: the prefix stripped before the first keyword holds no
      placeholder, and splitting the whole text is splitting the remainder with the prefix
      put back on the first part. */
  lemma StrippedPrefixHasNoPlaceholder(sql: string)
    ensures var n := LeadingSpan(sql); Cut(sql, Neutral) == Glue(sql[..n], Cut(sql[n..], Neutral))
  {
    hide Cut, Glue, SpaceSpan, CommentsSpan;
    var n := CommentsSpan(sql);
    CutsAtComments(sql);
    CutsAtSpace(sql[n..]);
    CutsAtSum(sql, n, SpaceSpan(sql[n..]));
  }

  predicate NoCommentNext(s: string) {
    CommentSpan(s[SpaceSpan(s)..]) == 0
  }

  lemma {:induction false} CommentsSpanStep(s: string)
    ensures var w := SpaceSpan(s); var c := CommentSpan(s[w..]);
            if c == 0 then CommentsSpan(s) == 0 && NoCommentNext(s)
            else CommentsSpan(s) == w + c + CommentsSpan(s[w + c..])
  {
  }

  lemma SliceTwice(s: string, a: nat, b: nat)
    requires a + b <= |s|
    ensures s[a..][b..] == s[a + b..] && s[0..] == s
  {
  }

  lemma {:induction false} CommentsSpanDone(s: string)
    ensures NoCommentNext(s[CommentsSpan(s)..])
    decreases |s|
  {
    hide NoCommentNext, CommentSpan, SpaceSpan, CommentsSpan;
    var w := SpaceSpan(s);
    var c := CommentSpan(s[w..]);
    CommentsSpanStep(s);
    if c == 0 {
      SliceTwice(s, 0, 0);
    } else {
      CommentsSpanDone(s[w + c..]);
      SliceTwice(s, w + c, CommentsSpan(s[w + c..]));
    }
  }

  /** Stripping removes everything there is to strip: the remainder starts with the keyword
      (or with an unterminated block comment), and stripping it again removes nothing. */
  lemma StrippingIsComplete(sql: string)
    ensures var rest := sql[LeadingSpan(sql)..];
            && LeadingSpan(rest) == 0
            && ExtractFirstKeyword(rest) == ExtractFirstKeyword(sql)
  {
    CommentsSpanDone(sql);
    var n := CommentsSpan(sql);
    var rest := sql[LeadingSpan(sql)..];
    assert sql[n..][SpaceSpan(sql[n..])..] == rest;
    assert SpaceSpan(rest) == 0 && rest[0..] == rest;
  }

  // ---- What the first keyword is ------------------------------------------------------

  /** The white space characters, listed. */
  const WHITE: string := "\t\n\U{B}\U{C}\r\U{1C}\U{1D}\U{1E}\U{1F} \U{85}\U{A0}\U{1680}" +
    "\U{2000}\U{2001}\U{2002}\U{2003}\U{2004}\U{2005}\U{2006}\U{2007}\U{2008}\U{2009}\U{200A}" +
    "\U{2028}\U{2029}\U{202F}\U{205F}\U{3000}"

  lemma SpaceIsWhite(c: char)
    ensures IsSpace(c) <==> c in WHITE
  {
    var n := c as int;
    if 0x2000 <= n <= 0x200A { assert c == WHITE[13 + (n - 0x2000)]; }
    if 0x9 <= n <= 0xD { assert c == WHITE[n - 0x9]; }
    if 0x1C <= n <= 0x20 { assert c == WHITE[5 + (n - 0x1C)]; }
    if n == 0x85 { assert c == WHITE[10]; }
    if n == 0xA0 { assert c == WHITE[11]; }
    if n == 0x1680 { assert c == WHITE[12]; }
    if n == 0x2028 { assert c == WHITE[24]; }
    if n == 0x2029 { assert c == WHITE[25]; }
    if n == 0x202F { assert c == WHITE[26]; }
    if n == 0x205F { assert c == WHITE[27]; }
    if n == 0x3000 { assert c == WHITE[28]; }
  }

  /** The first k characters of s are a line comment: two dashes up to and including the first
      newline, or up to the end of a text without one. */
  predicate IsLineComment(s: string, k: nat) {
    && 2 <= k <= |s| && s[0] == '-' && s[1] == '-'
    && (forall i :: 2 <= i < k - 1 ==> s[i] != '\n')
    && (k == |s| || (k > 2 && s[k - 1] == '\n'))
  }

  /** The first k characters of s are a block comment, closed for the first time at k. */
  predicate IsBlockComment(s: string, k: nat) {
    && 4 <= k <= |s| && s[0] == '/' && s[1] == '*' && s[k - 2] == '*' && s[k - 1] == '/'
    && forall i :: 2 <= i < k - 2 ==> !(s[i] == '*' && s[i + 1] == '/')
  }

  predicate IsComment(s: string, k: nat) { IsLineComment(s, k) || IsBlockComment(s, k) }

  /** The first n characters of s are white space and whole comments. */
  ghost predicate Blank(s: string, n: nat)
    requires n <= |s|
    decreases n
  {
    || n == 0
    || (s[0] in WHITE && Blank(s[1..], n - 1))
    || exists k | 0 < k <= n :: IsComment(s, k) && Blank(s[k..], n - k)
  }

  lemma {:induction false} LineSpanFirst(s: string)
    ensures forall i :: 0 <= i < LineSpan(s) ==> s[i] != '\n'
    decreases |s|
  {
    if s != "" && s[0] != '\n' {
      LineSpanFirst(s[1..]);
      forall i | 0 <= i < LineSpan(s) ensures s[i] != '\n' {
        if i > 0 { assert s[i] == s[1..][i - 1]; }
      }
    }
  }

  lemma {:induction false} BlockSpanFirst(s: string)
    ensures var n := BlockSpan(s);
            if BlockClosed(s) then
              2 <= n && s[n - 2] == '*' && s[n - 1] == '/'
              && forall i :: 0 <= i < n - 2 ==> !(s[i] == '*' && s[i + 1] == '/')
            else forall i :: 0 <= i < |s| - 1 ==> !(s[i] == '*' && s[i + 1] == '/')
    decreases |s|
  {
    if s != "" && !(|s| > 1 && s[0] == '*' && s[1] == '/') {
      BlockSpanFirst(s[1..]);
      forall i | 0 < i < |s| - 1 ensures s[i] == s[1..][i - 1] && s[i + 1] == s[1..][i] {}
    }
  }

  lemma BlockSpanIs(s: string, k: nat)
    requires |s| >= 2 && s[0] == '/' && s[1] == '*'
    ensures IsBlockComment(s, k) <==> BlockClosed(s[2..]) && k == 2 + BlockSpan(s[2..])
  {
    BlockSpanFirst(s[2..]);
    forall i | 0 <= i < |s| - 2 ensures s[i + 2] == s[2..][i] {}
    var n := BlockSpan(s[2..]);
    if BlockClosed(s[2..]) {
      forall i | 2 <= i < n ensures !(s[i] == '*' && s[i + 1] == '/') {
        assert s[i] == s[2..][i - 2] && s[i + 1] == s[2..][i - 1];
      }
      assert IsBlockComment(s, 2 + n);
    } else if 4 <= k <= |s| {
      assert s[k - 2] == s[2..][k - 4] && s[k - 1] == s[2..][k - 3];
    }
  }

  lemma LineSpanIs(s: string, k: nat)
    requires |s| >= 2 && s[0] == '-' && s[1] == '-'
    ensures IsLineComment(s, k) <==> k == CommentSpan(s)
  {
    var n := 2 + LineSpan(s[2..]);
    LineSpanFirst(s[2..]);
    forall i | 2 <= i < n ensures s[i] != '\n' { assert s[i] == s[2..][i - 2]; }
    if n < |s| {
      LineSpanStops(s[2..]);
      assert s[n] == '\n';
    }
  }

  /** The comment a text starts with is the only one it starts with. */
  lemma CommentSpanIs(s: string, k: nat)
    requires 0 < k
    ensures IsComment(s, k) <==> k == CommentSpan(s)
  {
    hide BlockSpan, LineSpan, BlockClosed;
    if |s| >= 2 && s[0] == '-' && s[1] == '-' { LineSpanIs(s, k); }
    if |s| >= 2 && s[0] == '/' && s[1] == '*' { BlockSpanIs(s, k); }
  }

  lemma {:induction false} SpacesBlank(s: string, m: nat)
    requires SpaceSpan(s) + m <= |s| && Blank(s[SpaceSpan(s)..], m)
    ensures Blank(s, SpaceSpan(s) + m)
    decreases |s|
  {
    hide IsComment, IsSpace, WHITE;
    if s == "" || !IsSpace(s[0]) {
      assert s[0..] == s;
    } else {
      SpaceIsWhite(s[0]);
      assert s[1..][SpaceSpan(s[1..])..] == s[SpaceSpan(s)..];
      SpacesBlank(s[1..], m);
    }
  }

  lemma CommentBlank(s: string, c: nat, n: nat)
    requires 0 < c && c + n <= |s| && IsComment(s, c) && Blank(s[c..], n)
    ensures Blank(s, c + n)
  {
    hide IsComment, WHITE;
    assert c + n - c == n;
  }

  lemma {:induction false} CommentsBlank(s: string, m: nat)
    requires CommentsSpan(s) + m <= |s| && Blank(s[CommentsSpan(s)..], m)
    ensures Blank(s, CommentsSpan(s) + m)
    decreases |s|
  {
    hide Blank, IsComment, SpaceSpan, CommentSpan, CommentsSpan, WHITE;
    var w := SpaceSpan(s);
    var c := CommentSpan(s[w..]);
    CommentsSpanStep(s);
    if c == 0 {
      assert s[0..] == s;
    } else {
      var rest := s[w + c..];
      SliceTwice(s, w, c);
      SliceTwice(s, w + c, CommentsSpan(rest));
      CommentsBlank(rest, m);
      CommentSpanIs(s[w..], c);
      var n := CommentsSpan(rest) + m;
      CommentBlank(s[w..], c, n);
      SpacesBlank(s, c + n);
    }
  }

  lemma {:induction false} WordSpanFirst(s: string)
    ensures var w := WordSpan(s);
            (forall i :: 0 <= i < w ==> s[i] !in WHITE) && (w == |s| || s[w] in WHITE)
    decreases |s|
  {
    hide IsSpace, WHITE;
    if s != "" {
      SpaceIsWhite(s[0]);
      if !IsSpace(s[0]) {
        WordSpanFirst(s[1..]);
        forall i | 0 <= i < WordSpan(s) ensures s[i] !in WHITE {
          if i > 0 { assert s[i] == s[1..][i - 1]; }
        }
      }
    }
  }

  lemma {:induction false} LeadingSpanParts(s: string)
    ensures var m := CommentsSpan(s); var w := SpaceSpan(s[m..]);
            && LeadingSpan(s) == m + w && s[m..][w..] == s[m + w..] && Blank(s[m + w..], 0)
            && CommentSpan(s[m + w..]) == 0
            && (m + w < |s| ==> !IsSpace(s[m + w]))
  {
    hide IsSpace, SpaceSpan, CommentsSpan, CommentSpan, WHITE;
    CommentsSpanDone(s);
  }

  /** White space and whole comments are skipped, as many as there are. */
  lemma SkippedPrefix(sql: string)
    ensures var n := LeadingSpan(sql);
            && Blank(sql, n)
            && (n < |sql| ==> sql[n] !in WHITE)
            && forall c | 0 < c :: !IsComment(sql[n..], c)
  {
    hide *;
    var m := CommentsSpan(sql);
    var w := SpaceSpan(sql[m..]);
    LeadingSpanParts(sql);
    SpacesBlank(sql[m..], 0);
    CommentsBlank(sql, w);
    var rest := sql[m + w..];
    forall c | 0 < c ensures !IsComment(rest, c) { CommentSpanIs(rest, c); }
    if m + w < |sql| { SpaceIsWhite(sql[m + w]); }
  }

  /** The first keyword is what stands after the skipped prefix up to the next white space, with
      its ASCII letters in upper case; it is missing only at the end of the text. */
  lemma FirstKeyword(sql: string)
    ensures var n := LeadingSpan(sql); var k := ExtractFirstKeyword(sql);
            && n + |k| <= |sql| && (n + |k| == |sql| || sql[n + |k|] in WHITE)
            && (k == "" <==> n == |sql|)
            && forall i :: 0 <= i < |k| ==>
                 && sql[n + i] !in WHITE
                 && k[i] == if 'a' <= sql[n + i] <= 'z' then ('A' as int + (sql[n + i] as int - 'a' as int)) as char
                            else sql[n + i]
  {
    hide Blank, IsSpace, LeadingSpan, WordSpan, WHITE;
    var n := LeadingSpan(sql);
    var rest := sql[n..];
    SkippedPrefix(sql);
    WordSpanFirst(rest);
    var w := WordSpan(rest);
    forall i | 0 <= i < w ensures sql[n + i] == rest[i] {}
    if n + w < |sql| { assert sql[n + w] == rest[w]; }
  }
}
