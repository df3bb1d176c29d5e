/** Whitespace, tokens, stripping and lines, as Python's str methods and \S+ see them. */
module Text {

  /** str.isspace and \s. */
  predicate IsSpace(c: char) {
    var n := c as int;
    (9 <= n <= 13) || (28 <= n <= 32) || n == 0x85 || n == 0xa0 || n == 0x1680 || (0x2000 <= n <= 0x200a)
    || n == 0x2028 || n == 0x2029 || n == 0x202f || n == 0x205f || n == 0x3000
  }

  /** The boundaries of str.splitlines. */
  predicate IsBreak(c: char) {
    var n := c as int;
    (10 <= n <= 13) || (28 <= n <= 30) || n == 0x85 || n == 0x2028 || n == 0x2029
  }

  lemma BreaksAreSpaces(c: char)
    requires IsBreak(c)
    ensures IsSpace(c)
  {
  }

  predicate Blank(s: string) {
    forall i :: 0 <= i < |s| ==> IsSpace(s[i])
  }

  // ----- tokens -----

  function Word(w: string): seq<string> {
    if w == "" then [] else [w]
  }

  /** The tokens of s when the characters of w are already read of the first one. */
  function TokensFrom(s: string, w: string): seq<string> {
    if s == "" then Word(w)
    else if IsSpace(s[0]) then Word(w) + TokensFrom(s[1..], "")
    else TokensFrom(s[1..], w + [s[0]])
  }

  /** re.findall of \S+. */
  function Tokens(s: string): seq<string> {
    TokensFrom(s, "")
  }

  lemma {:induction false} TokensSpaceBetween(a: string, b: string, w: string)
    requires b == "" || IsSpace(b[0])
    ensures TokensFrom(a + b, w) == TokensFrom(a, w) + Tokens(b)
  {
    if a == "" {
      assert a + b == b;
    } else {
      assert (a + b)[1..] == a[1..] + b;
      if IsSpace(a[0]) {
        TokensSpaceBetween(a[1..], b, "");
      } else {
        TokensSpaceBetween(a[1..], b, w + [a[0]]);
      }
    }
  }

  lemma {:induction false} TokensAfterSpace(a: string, b: string, w: string)
    requires a != "" && IsSpace(a[|a| - 1])
    ensures TokensFrom(a + b, w) == TokensFrom(a, w) + Tokens(b)
  {
    assert (a + b)[1..] == a[1..] + b;
    if |a| == 1 {
      assert a[1..] + b == b;
    } else if IsSpace(a[0]) {
      TokensAfterSpace(a[1..], b, "");
    } else {
      TokensAfterSpace(a[1..], b, w + [a[0]]);
    }
  }

  /** Tokens of a concatenation, when a space or an end separates the two parts. */
  lemma TokensConcat(a: string, b: string)
    requires a == "" || IsSpace(a[|a| - 1]) || b == "" || IsSpace(b[0])
    ensures Tokens(a + b) == Tokens(a) + Tokens(b)
  {
    if a == "" {
      assert a + b == b;
    } else if IsSpace(a[|a| - 1]) {
      TokensAfterSpace(a, b, "");
    } else {
      TokensSpaceBetween(a, b, "");
    }
  }

  lemma {:induction false} BlankHasNoTokens(s: string)
    requires Blank(s)
    ensures Tokens(s) == []
  {
    if s != "" {
      BlankHasNoTokens(s[1..]);
    }
  }

  lemma {:induction false} TokensOfWord(s: string, w: string)
    requires w != "" || !Blank(s)
    ensures TokensFrom(s, w) != []
  {
    if s != "" && !IsSpace(s[0]) {
      TokensOfWord(s[1..], w + [s[0]]);
    } else if s != "" && w == "" {
      assert !Blank(s[1..]);
      TokensOfWord(s[1..], "");
    }
  }

  /** A text has a token exactly when it is not blank. */
  lemma TokensNonblank(s: string)
    ensures Tokens(s) == [] <==> Blank(s)
  {
    if Blank(s) {
      BlankHasNoTokens(s);
    } else {
      TokensOfWord(s, "");
    }
  }

  // ----- stripping -----

  function LStrip(s: string): string {
    if s != "" && IsSpace(s[0]) then LStrip(s[1..]) else s
  }

  function RStrip(s: string): string {
    if s != "" && IsSpace(s[|s| - 1]) then RStrip(s[..|s| - 1]) else s
  }

  function LStripNewlines(s: string): string {
    if s != "" && s[0] == '\n' then LStripNewlines(s[1..]) else s
  }

  function RStripNewlines(s: string): string {
    if s != "" && s[|s| - 1] == '\n' then RStripNewlines(s[..|s| - 1]) else s
  }

  /** str.strip with a newline argument. */
  function StripNewlines(s: string): string {
    RStripNewlines(LStripNewlines(s))
  }

  lemma TokensDropLast(s: string)
    requires s != "" && IsSpace(s[|s| - 1])
    ensures Tokens(s[..|s| - 1]) == Tokens(s)
  {
    var h, last := s[..|s| - 1], s[|s| - 1..];
    assert s == h + last;
    TokensConcat(h, last);
    BlankHasNoTokens(last);
  }

  lemma {:induction false} RStripTokens(s: string)
    ensures Tokens(RStrip(s)) == Tokens(s)
    ensures RStrip(s) <= s
    ensures RStrip(s) == "" || !IsSpace(RStrip(s)[|RStrip(s)| - 1])
  {
    if s != "" && IsSpace(s[|s| - 1]) {
      TokensDropLast(s);
      RStripTokens(s[..|s| - 1]);
    }
  }

  lemma {:induction false} RStripNewlinesTokens(s: string)
    ensures Tokens(RStripNewlines(s)) == Tokens(s)
    ensures RStripNewlines(s) <= s
  {
    if s != "" && s[|s| - 1] == '\n' {
      TokensDropLast(s);
      RStripNewlinesTokens(s[..|s| - 1]);
    }
  }

  lemma {:induction false} LStripNewlinesTokens(s: string)
    ensures Tokens(LStripNewlines(s)) == Tokens(s)
  {
    if s != "" && s[0] == '\n' {
      LStripNewlinesTokens(s[1..]);
    }
  }

  lemma StripNewlinesTokens(s: string)
    ensures Tokens(StripNewlines(s)) == Tokens(s)
  {
    LStripNewlinesTokens(s);
    RStripNewlinesTokens(LStripNewlines(s));
  }

  lemma {:induction false} RStripAppend(a: string, b: string)
    requires !Blank(b)
    ensures RStrip(a + b) == a + RStrip(b)
  {
    var n := |b| - 1;
    if IsSpace(b[n]) {
      assert (a + b)[..|a + b| - 1] == a + b[..n];
      assert !Blank(b[..n]);
      RStripAppend(a, b[..n]);
    }
  }

  lemma {:induction false} RStripIs(s: string) returns (n: nat)
    ensures n <= |s| && RStrip(s) == s[..n] && Blank(s[n..]) && (n > 0 ==> !IsSpace(s[n - 1]))
  {
    n := |s|;
    if s != "" && IsSpace(s[n - 1]) {
      var h := s[..|s| - 1];
      n := RStripIs(h);
      assert s[n..] == h[n..] + [s[|s| - 1]];
      assert h[..n] == s[..n];
    }
  }

  predicate AllNewlines(s: string) {
    forall i :: 0 <= i < |s| ==> s[i] == '\n'
  }

  lemma {:induction false} LStripNewlinesIs(s: string) returns (a: nat)
    ensures a <= |s| && LStripNewlines(s) == s[a..] && AllNewlines(s[..a]) && (a < |s| ==> s[a] != '\n')
  {
    a := 0;
    if s != "" && s[0] == '\n' {
      var b := LStripNewlinesIs(s[1..]);
      a := b + 1;
      assert s[..a] == [s[0]] + s[1..][..b];
      assert s[1..][b..] == s[a..];
    }
  }

  lemma {:induction false} RStripNewlinesIs(s: string) returns (b: nat)
    ensures b <= |s| && RStripNewlines(s) == s[..b] && AllNewlines(s[b..]) && (b > 0 ==> s[b - 1] != '\n')
  {
    b := |s|;
    if s != "" && s[b - 1] == '\n' {
      var h := s[..|s| - 1];
      b := RStripNewlinesIs(h);
      assert s[b..] == h[b..] + [s[|s| - 1]];
      assert h[..b] == s[..b];
    }
  }

  /** Stripping takes newlines and nothing else, and leaves none at either end. */
  lemma StripNewlinesIs(s: string) returns (a: nat, b: nat)
    ensures a <= b <= |s| && StripNewlines(s) == s[a..b] && AllNewlines(s[..a]) && AllNewlines(s[b..])
    ensures a < b ==> s[a] != '\n' && s[b - 1] != '\n'
  {
    a := LStripNewlinesIs(s);
    var n := RStripNewlinesIs(s[a..]);
    b := a + n;
    assert s[a..][..n] == s[a..b] && s[a..][n..] == s[b..];
  }

  // ----- lists of strings -----

  function Concat(parts: seq<string>): string {
    if parts == [] then "" else Concat(parts[..|parts| - 1]) + parts[|parts| - 1]
  }

  /** The tokens of the parts in order. */
  function FlatTokens(parts: seq<string>): seq<string> {
    if parts == [] then [] else FlatTokens(parts[..|parts| - 1]) + Tokens(parts[|parts| - 1])
  }

  lemma FlatTokensSnoc(parts: seq<string>, s: string)
    ensures FlatTokens(parts + [s]) == FlatTokens(parts) + Tokens(s)
  {
    assert (parts + [s])[..|parts|] == parts;
  }

  lemma {:induction false} FlatTokensConcat(a: seq<string>, b: seq<string>)
    ensures FlatTokens(a + b) == FlatTokens(a) + FlatTokens(b)
  {
    if b == [] {
      assert a + b == a;
    } else {
      var n := |b| - 1;
      FlatTokensConcat(a, b[..n]);
      assert (a + b)[..|a + b| - 1] == a + b[..n];
    }
  }

  predicate Terminated(s: string) {
    s != "" && IsSpace(s[|s| - 1])
  }

  /** All parts but possibly the last end in a space. */
  predicate LineList(lines: seq<string>) {
    forall i :: 0 <= i < |lines| - 1 ==> Terminated(lines[i])
  }

  lemma {:induction false} ConcatTerminated(lines: seq<string>)
    requires lines != [] && forall i :: 0 <= i < |lines| ==> Terminated(lines[i])
    ensures Terminated(Concat(lines))
  {
    var n := |lines| - 1;
    var c := Concat(lines[..n]) + lines[n];
    assert c[|c| - 1] == lines[n][|lines[n]| - 1];
  }

  lemma {:induction false} ConcatTokens(lines: seq<string>)
    requires LineList(lines)
    ensures Tokens(Concat(lines)) == FlatTokens(lines)
  {
    if lines != [] {
      var n := |lines| - 1;
      ConcatTokens(lines[..n]);
      if n > 0 {
        ConcatTerminated(lines[..n]);
      }
      TokensConcat(Concat(lines[..n]), lines[n]);
    }
  }

  // ----- splitlines -----

  /** A line break ends the line, and it is one character but for a carriage return before a newline. */
  predicate OneLine(s: string) {
    forall i :: 0 <= i < |s| - 1 && IsBreak(s[i]) ==> i == |s| - 2 && s[i] == '\r' && s[i + 1] == '\n'
  }

  /** One past the end of the first line, its break included. */
  function LineEnd(s: string): (n: nat)
    requires s != ""
    ensures 1 <= n <= |s|
    ensures n < |s| ==> IsBreak(s[n - 1])
    ensures OneLine(s[..n])
    ensures n < |s| ==> !(s[n - 1] == '\r' && s[n] == '\n')
  {
    if s[0] == '\r' && |s| > 1 && s[1] == '\n' then 2
    else if IsBreak(s[0]) || |s| == 1 then 1
    else 1 + LineEnd(s[1..])
  }

  /** str.splitlines(keepends=True). */
  function SplitLines(s: string): seq<string> {
    if s == "" then [] else [s[..LineEnd(s)]] + SplitLines(s[LineEnd(s)..])
  }

  lemma ConcatSnoc(parts: seq<string>, s: string)
    ensures Concat(parts + [s]) == Concat(parts) + s
  {
    assert (parts + [s])[..|parts|] == parts;
  }

  lemma {:induction false} ConcatCons(s: string, parts: seq<string>)
    ensures Concat([s] + parts) == s + Concat(parts)
  {
    if parts == [] {
      ConcatSnoc([], s);
      assert [s] + parts == [] + [s];
    } else {
      var h, t := parts[..|parts| - 1], parts[|parts| - 1];
      ConcatCons(s, h);
      ConcatSnoc([s] + h, t);
      assert [s] + parts == [s] + h + [t];
      assert s + Concat(h) + t == s + (Concat(h) + t);
    }
  }

  /** No line is empty or holds two, and every line but the last ends in a line break. */
  ghost predicate WholeLine(lines: seq<string>, i: nat)
    requires i < |lines|
  {
    var line := lines[i];
    line != "" && OneLine(line) && (i < |lines| - 1 ==> IsBreak(line[|line| - 1]))
  }

  lemma {:induction false} SplitLinesWhole(s: string, i: nat)
    requires i < |SplitLines(s)|
    ensures WholeLine(SplitLines(s), i)
  {
    if i > 0 {
      SplitLinesWhole(s[LineEnd(s)..], i - 1);
    }
  }

  /** Lines join back to the text, and every line but the last ends in a line break. */
  lemma {:induction false} SplitLinesJoin(s: string)
    ensures Concat(SplitLines(s)) == s
    ensures LineList(SplitLines(s))
    ensures s != "" ==> SplitLines(s) != []
  {
    if s != "" {
      var n := LineEnd(s);
      SplitLinesJoin(s[n..]);
      ConcatCons(s[..n], SplitLines(s[n..]));
      assert s == s[..n] + s[n..];
      if n < |s| {
        BreaksAreSpaces(s[n - 1]);
      }
    }
  }
}
