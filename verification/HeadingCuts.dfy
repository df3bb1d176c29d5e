/** What counts as a fence or a heading, and that a section starts at every heading (e5_chunk_canary.py). */
module HeadingCuts {
  import opened Text
  import opened Fences
  import opened Sections

  // ----- the line patterns -----

  lemma {:induction false} LStripIs(line: string, n: nat)
    requires n <= |line| && Blank(line[..n]) && (n == |line| || !IsSpace(line[n]))
    ensures LStrip(line) == line[n..]
  {
    if n > 0 {
      assert line[..n][0] == line[0];
      assert line[1..][..n - 1] == line[..n][1..];
      LStripIs(line[1..], n - 1);
      assert line[1..][n - 1..] == line[n..];
    }
  }

  lemma {:induction false} LStripSplits(line: string) returns (n: nat)
    ensures n <= |line| && Blank(line[..n]) && LStrip(line) == line[n..]
  {
    n := 0;
    if line != "" && IsSpace(line[0]) {
      var m := LStripSplits(line[1..]);
      n := m + 1;
      assert forall i :: 0 <= i < n ==> line[..n][i] == if i == 0 then line[0] else line[1..][..m][i - 1];
      assert line[1..][m..] == line[n..];
    }
  }

  /** Three backticks after n leading spaces. */
  ghost predicate TicksAfter(line: string, n: nat) {
    n + 3 <= |line| && Blank(line[..n]) && line[n] == '`' && line[n + 1] == '`' && line[n + 2] == '`'
  }

  /** A fence is a line whose first visible characters are three backticks. */
  lemma FencePattern(line: string)
    ensures IsFence(line) <==> exists n: nat :: TicksAfter(line, n)
  {
    if IsFence(line) {
      var n := LStripSplits(line);
      assert LStrip(line)[..3] == "```";
      assert line[n] == LStrip(line)[0] && line[n + 1] == LStrip(line)[1] && line[n + 2] == LStrip(line)[2];
      assert TicksAfter(line, n);
    }
    if n: nat :| TicksAfter(line, n) {
      LStripIs(line, n);
      assert line[n..][..3] == "```";
    }
  }

  /** h hashes, at least one space from there up to t, and at least one more character. */
  ghost predicate HashesThenText(s: string, h: nat, t: nat) {
    && 1 <= h <= 6 && h < t < |s|
    && (forall i :: 0 <= i < h ==> s[i] == '#')
    && forall i :: h <= i < t ==> IsSpace(s[i])
  }

  lemma {:induction false} HashesIs(s: string, h: nat)
    requires h <= |s| && (forall i :: 0 <= i < h ==> s[i] == '#') && (h == |s| || s[h] != '#')
    ensures Hashes(s) == h
  {
    if h > 0 {
      assert forall i :: 0 <= i < h - 1 ==> s[1..][i] == s[i + 1];
      HashesIs(s[1..], h - 1);
    }
  }

  /** The heading pattern of the source. */
  lemma HeadingPattern(s: string)
    ensures IsHeading(s) <==> exists h: nat, t: nat :: HashesThenText(s, h, t)
  {
    if IsHeading(s) {
      assert HashesThenText(s, Hashes(s), Hashes(s) + 1);
    }
    if h: nat, t: nat :| HashesThenText(s, h, t) {
      HashesIs(s, h);
    }
  }

  // ----- where sections start -----

  /** Line m is a heading, and the next one, if any, is line e. */
  ghost predicate Headed(lines: seq<string>, m: nat, e: nat) {
    && m < e <= |lines| && HeadingAt(lines, m)
    && NoHeading(lines, m + 1, e) && (e < |lines| ==> HeadingAt(lines, e))
  }

  function HeadedSection(lines: seq<string>, m: nat, e: nat): Section
    requires m < e <= |lines|
  {
    Section(RStripNewlines(lines[m]), lines[m + 1..e])
  }

  lemma {:induction false} AllTokensConcat(a: seq<Section>, b: seq<Section>)
    ensures AllTokens(a + b) == AllTokens(a) + AllTokens(b)
  {
    if b == [] {
      assert a + b == a;
    } else {
      var n := |b| - 1;
      AllTokensConcat(a, b[..n]);
      assert (a + b)[..|a + b| - 1] == a + b[..n];
    }
  }

  lemma OneSectionTokens(s: Section)
    ensures AllTokens([s]) == SectionTokens(s)
  {
    AllTokensSnoc([], s);
    assert [] + [s] == [s];
  }

  lemma HeadedSectionTokens(lines: seq<string>, k: nat, n: nat)
    requires k < n <= |lines|
    ensures FlatTokens(lines[..k]) + SectionTokens(HeadedSection(lines, k, n)) == FlatTokens(lines[..n])
  {
    HeadedTokens(lines, k, n);
  }

  lemma HeadedFromSplits(lines: seq<string>, k: nat, n: nat)
    requires k < |lines| && n == NextHeading(lines, k + 1)
    ensures HeadedFrom(lines, k) == [HeadedSection(lines, k, n)] + HeadedFrom(lines, n)
  {
  }

  lemma AfterPreamble(pre: seq<Section>, rest: seq<Section>, i: nat)
    requires i < |rest|
    ensures (pre + rest)[|pre| + i] == rest[i]
    ensures AllTokens((pre + rest)[..|pre| + i]) == AllTokens(pre) + AllTokens(rest[..i])
  {
    assert (pre + rest)[..|pre| + i] == pre + rest[..i];
    AllTokensConcat(pre, rest[..i]);
  }

  lemma NextOnTheWay(lines: seq<string>, k: nat, m: nat)
    requires k < m < |lines| && HeadingAt(lines, m)
    ensures var n := NextHeading(lines, k + 1); k < n <= m && HeadingAt(lines, n)
  {
  }

  lemma OneSectionLater(lines: seq<string>, k: nat, n: nat, m: nat, rest: seq<Section>, i: nat)
    requires k < n <= m <= |lines| && i < |rest|
    requires FlatTokens(lines[..n]) + AllTokens(rest[..i]) == FlatTokens(lines[..m])
    ensures var all := [HeadedSection(lines, k, n)] + rest;
      all[i + 1] == rest[i] && FlatTokens(lines[..k]) + AllTokens(all[..i + 1]) == FlatTokens(lines[..m])
  {
    var s := HeadedSection(lines, k, n);
    AfterPreamble([s], rest, i);
    OneSectionTokens(s);
    HeadedSectionTokens(lines, k, n);
    Regroup3(FlatTokens(lines[..k]), SectionTokens(s), AllTokens(rest[..i]));
  }

  lemma Regroup3<T>(a: seq<T>, b: seq<T>, c: seq<T>)
    ensures a + (b + c) == a + b + c
  {
  }

  /** Among the sections from the heading in line k on, the one of line m comes after the tokens between the two. */
  lemma {:induction false} SectionFrom(lines: seq<string>, k: nat, m: nat, e: nat) returns (j: nat)
    requires k <= m < |lines| && HeadingAt(lines, k) && Headed(lines, m, e)
    ensures j < |HeadedFrom(lines, k)| && HeadedFrom(lines, k)[j] == HeadedSection(lines, m, e)
    ensures FlatTokens(lines[..k]) + AllTokens(HeadedFrom(lines, k)[..j]) == FlatTokens(lines[..m])
    decreases m - k
  {
    var n := NextHeading(lines, k + 1);
    HeadedFromSplits(lines, k, n);
    if k == m {
      NextHeadingIs(lines, k + 1, e);
      j := 0;
      assert HeadedFrom(lines, k)[..0] == [];
    } else {
      NextOnTheWay(lines, k, m);
      var i := SectionFrom(lines, n, m, e);
      j := i + 1;
      OneSectionLater(lines, k, n, m, HeadedFrom(lines, n), i);
    }
  }

  lemma PreambleTokens(lines: seq<string>, n: nat)
    requires n <= |lines|
    ensures AllTokens(Preamble(lines, n)) == FlatTokens(lines[..n])
  {
    if AnyNonblank(lines[..n]) {
      OneSectionTokens(Section("", lines[..n]));
    } else {
      BlankLinesHaveNoTokens(lines[..n]);
    }
  }

  /** A text with a heading is its preamble and the sections from its first heading on. */
  lemma ListSplits(lines: seq<string>, m: nat) returns (n: nat)
    requires m < |lines| && HeadingAt(lines, m)
    ensures n <= m && HeadingAt(lines, n)
    ensures SectionList(lines) == Preamble(lines, n) + HeadedFrom(lines, n)
  {
    n := NextHeading(lines, 0);
    HeadedFromSplits(lines, n, NextHeading(lines, n + 1));
  }

  /** Every heading outside fences starts a section, and what comes before it are the sections before. */
  lemma SectionStarts(lines: seq<string>, m: nat, e: nat) returns (j: nat)
    requires Headed(lines, m, e)
    ensures j < |SectionList(lines)| && SectionList(lines)[j] == HeadedSection(lines, m, e)
    ensures AllTokens(SectionList(lines)[..j]) == FlatTokens(lines[..m])
  {
    var n := ListSplits(lines, m);
    var pre, rest := Preamble(lines, n), HeadedFrom(lines, n);
    var i := SectionFrom(lines, n, m, e);
    j := |pre| + i;
    AfterPreamble(pre, rest, i);
    PreambleTokens(lines, n);
  }
}
