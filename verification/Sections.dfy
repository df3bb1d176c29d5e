/** Markdown sections: cut at headings outside fences (src/karc/bench/e5_chunk_canary.py). */
module Sections {
  import opened Text
  import opened Fences

  function Hashes(s: string): (n: nat)
    ensures n <= |s|
    ensures forall i :: 0 <= i < n ==> s[i] == '#'
  {
    if s != "" && s[0] == '#' then 1 + Hashes(s[1..]) else 0
  }

  /** One to six hashes, a space, and at least one more character: the heading pattern on a line without its newline. */
  predicate IsHeading(s: string) {
    var n := Hashes(s);
    1 <= n <= 6 && |s| >= n + 2 && IsSpace(s[n])
  }

  lemma HeadingIsNoFence(line: string)
    requires IsHeading(RStripNewlines(line))
    ensures !IsFence(line) && !Blank(line) && !Blank(RStripNewlines(line))
  {
    RStripNewlinesTokens(line);
    assert line[0] == '#' && RStripNewlines(line)[0] == '#';
    assert !IsSpace(line[0]);
    assert LStrip(line) == line;
  }

  datatype Section = Section(heading: string, body: seq<string>)

  /** What a section hands on: whole lines, and a heading with visible text if it has one. */
  ghost predicate SectionOk(s: Section) {
    LineList(s.body) && (s.heading == "" || !Blank(s.heading))
  }

  // ----- the sections -----

  predicate AnyNonblank(lines: seq<string>) {
    exists i :: 0 <= i < |lines| && !Blank(lines[i])
  }

  /** A heading counts only where no fence is open. */
  predicate HeadingAt(lines: seq<string>, i: nat)
    requires i < |lines|
  {
    !Open(lines, i) && IsHeading(RStripNewlines(lines[i]))
  }

  ghost predicate NoHeading(lines: seq<string>, a: nat, b: nat)
    requires b <= |lines|
  {
    forall m :: a <= m < b ==> !HeadingAt(lines, m)
  }

  /** The first heading from line k on, or the end of the text. */
  function NextHeading(lines: seq<string>, k: nat): (n: nat)
    requires k <= |lines|
    ensures k <= n <= |lines|
    ensures NoHeading(lines, k, n)
    ensures n < |lines| ==> HeadingAt(lines, n)
    decreases |lines| - k
  {
    if k == |lines| || HeadingAt(lines, k) then k else NextHeading(lines, k + 1)
  }

  /** The sections from the heading in line k on: each heading with the lines up to the next one. */
  function HeadedFrom(lines: seq<string>, k: nat): seq<Section>
    requires k <= |lines|
    decreases |lines| - k
  {
    if k == |lines| then []
    else
      var n := NextHeading(lines, k + 1);
      [Section(RStripNewlines(lines[k]), lines[k + 1..n])] + HeadedFrom(lines, n)
  }

  /** What precedes the first heading is a section without heading, unless it is blank. */
  function Preamble(lines: seq<string>, n: nat): seq<Section>
    requires n <= |lines|
  {
    if AnyNonblank(lines[..n]) then [Section("", lines[..n])] else []
  }

  function FoundSections(lines: seq<string>): seq<Section> {
    var n := NextHeading(lines, 0);
    Preamble(lines, n) + HeadedFrom(lines, n)
  }

  /** The sections of a text; a text with neither heading nor visible line is one section. */
  function SectionList(lines: seq<string>): seq<Section> {
    if FoundSections(lines) == [] then [Section("", lines)] else FoundSections(lines)
  }

  lemma NextHeadingIs(lines: seq<string>, k: nat, n: nat)
    requires k <= n <= |lines| && NoHeading(lines, k, n) && (n < |lines| ==> HeadingAt(lines, n))
    ensures NextHeading(lines, k) == n
  {
  }

  /** Where the loop stands before line i: what is flushed are the sections before the current one. */
  ghost predicate Cut(lines: seq<string>, start: nat, i: nat, sections: seq<Section>, s: Section) {
    && start <= i <= |lines|
    && (if s.heading == "" then start == 0 && sections == [] && s.body == lines[..i] && NoHeading(lines, 0, i)
        else && start < i && s == Section(RStripNewlines(lines[start]), lines[start + 1..i])
             && NoHeading(lines, start + 1, i)
             && FoundSections(lines) == sections + HeadedFrom(lines, start))
  }

  /** What the sections hold once the current one is flushed. */
  function WithSection(sections: seq<Section>, s: Section): seq<Section> {
    if s.heading != "" || AnyNonblank(s.body) then sections + [s] else sections
  }

  lemma FirstHeading(lines: seq<string>, i: nat)
    requires i <= |lines| && NoHeading(lines, 0, i) && (i < |lines| ==> HeadingAt(lines, i))
    ensures FoundSections(lines) == Preamble(lines, i) + HeadedFrom(lines, i)
  {
    NextHeadingIs(lines, 0, i);
  }

  lemma HeadedSection(lines: seq<string>, k: nat, i: nat)
    requires k < i <= |lines| && NoHeading(lines, k + 1, i) && (i < |lines| ==> HeadingAt(lines, i))
    ensures HeadedFrom(lines, k) == [Section(RStripNewlines(lines[k]), lines[k + 1..i])] + HeadedFrom(lines, i)
  {
    NextHeadingIs(lines, k + 1, i);
  }

  lemma CutFlushed(lines: seq<string>, start: nat, i: nat, sections: seq<Section>, s: Section)
    requires Cut(lines, start, i, sections, s) && (i < |lines| ==> HeadingAt(lines, i))
    ensures FoundSections(lines) == WithSection(sections, s) + HeadedFrom(lines, i)
  {
    if s.heading == "" {
      FirstHeading(lines, i);
    } else {
      HeadedSection(lines, start, i);
      Regroup(sections, s, HeadedFrom(lines, i));
    }
  }

  lemma CutGrows(lines: seq<string>, start: nat, i: nat, sections: seq<Section>, s: Section)
    requires i < |lines| && Cut(lines, start, i, sections, s) && !HeadingAt(lines, i)
    ensures Cut(lines, start, i + 1, sections, s.(body := s.body + [lines[i]]))
  {
    if s.heading == "" {
      assert lines[..i + 1] == lines[..i] + [lines[i]];
    } else {
      SliceSnoc(lines, start + 1, i);
    }
  }

  // ----- what the sections keep -----

  function SectionTokens(s: Section): seq<string> {
    Tokens(s.heading) + FlatTokens(s.body)
  }

  function AllTokens(sections: seq<Section>): seq<string> {
    if sections == [] then []
    else AllTokens(sections[..|sections| - 1]) + SectionTokens(sections[|sections| - 1])
  }

  lemma AllTokensSnoc(sections: seq<Section>, s: Section)
    ensures AllTokens(sections + [s]) == AllTokens(sections) + SectionTokens(s)
  {
    assert (sections + [s])[..|sections|] == sections;
  }

  /** The text of a fenced block of the section's body. */
  ghost predicate HasBlock(s: Section, text: string) {
    exists a: nat, b: nat :: FenceBlock(s.body, a, b) && BlockText(s.body, a, b) == text
  }

  ghost predicate SomeHasBlock(sections: seq<Section>, text: string) {
    exists k :: 0 <= k < |sections| && HasBlock(sections[k], text)
  }

  /** Every block that ends before line i is a block of one section. */
  ghost predicate BlocksIn(lines: seq<string>, i: nat, sections: seq<Section>) {
    forall a: nat, b: nat :: b < i && FenceBlock(lines, a, b) ==> SomeHasBlock(sections, BlockText(lines, a, b))
  }

  /** The section that starts at line start and has read up to line i. */
  ghost predicate OpenSection(lines: seq<string>, start: nat, i: nat, s: Section) {
    && start <= i <= |lines| && !Open(lines, start)
    && (if s.heading == "" then start == 0 && s.body == lines[..i]
        else start < i && IsHeading(RStripNewlines(lines[start])) && s.heading == RStripNewlines(lines[start])
             && !Blank(s.heading)
             && s.body == lines[start + 1..i])
  }

  /** body holds the lines of a text from line off on. */
  ghost predicate PartOf(body: seq<string>, lines: seq<string>, off: nat) {
    off + |body| <= |lines| && forall m :: 0 <= m < |body| ==> body[m] == lines[off + m]
  }

  lemma SliceIsPart(lines: seq<string>, off: nat, e: nat)
    requires off <= e <= |lines|
    ensures PartOf(lines[off..e], lines, off)
  {
  }

  lemma FencesTransfer(body: seq<string>, lines: seq<string>, off: nat, a: nat, b: nat)
    requires PartOf(body, lines, off) && b < off + |body| && off <= a
    requires forall m :: a < m < b ==> !IsFence(lines[m])
    ensures forall m :: a - off < m < b - off ==> !IsFence(body[m])
  {
    forall m | a - off < m < b - off
      ensures !IsFence(body[m])
    {
      assert body[m] == lines[off + m];
    }
  }

  lemma BlockTransfer(body: seq<string>, lines: seq<string>, off: nat, a: nat, b: nat)
    requires PartOf(body, lines, off) && off <= a <= b < off + |body|
    requires !Open(body, a - off) && FenceBlock(lines, a, b)
    requires (a < b && IsFence(lines[b])) || off + |body| == |lines|
    ensures FenceBlock(body, a - off, b - off)
  {
    assert body[a - off] == lines[a] && body[b - off] == lines[b];
    FencesTransfer(body, lines, off, a, b);
  }

  lemma TextTransfer(body: seq<string>, lines: seq<string>, off: nat, a: nat, b: nat)
    requires PartOf(body, lines, off) && off <= a <= b < off + |body|
    ensures BlockText(body, a - off, b - off) == BlockText(lines, a, b)
  {
    assert body[a - off..b - off + 1] == lines[a..b + 1];
  }

  /** A block between two lines where no fence is open lies in the body of the section there, as a block of it. */
  lemma BlockInBody(lines: seq<string>, off: nat, e: nat, a: nat, b: nat)
    requires off <= a <= b < e <= |lines| && !Open(lines, off) && FenceBlock(lines, a, b)
    requires (a < b && IsFence(lines[b])) || e == |lines|
    ensures FenceBlock(lines[off..e], a - off, b - off)
    ensures BlockText(lines[off..e], a - off, b - off) == BlockText(lines, a, b)
  {
    var body := lines[off..e];
    SliceIsPart(lines, off, e);
    OpenInBody(lines, off, e, a);
    BlockTransfer(body, lines, off, a, b);
    TextTransfer(body, lines, off, a, b);
  }

  lemma OpenInBody(lines: seq<string>, off: nat, e: nat, a: nat)
    requires off <= a < e <= |lines| && !Open(lines, off)
    ensures Open(lines[off..e], a - off) == Open(lines, a)
  {
    OpenRestarts(lines, off, a - off);
    assert lines[off..e] <= lines[off..];
    OpenPrefix(lines[off..e], lines[off..], a - off);
  }

  lemma BlockDoesNotCross(lines: seq<string>, a: nat, b: nat, start: nat)
    requires FenceBlock(lines, a, b) && start <= b && !Open(lines, start)
    ensures start <= a
  {
    if a < start {
      OpenAfter(lines, a, start);
    }
  }

  /** Ending a section at a line where no fence is open, or at the end, keeps every block so far. */
  lemma SectionKeepsBlocks(lines: seq<string>, start: nat, i: nat, sections: seq<Section>, s: Section)
    requires OpenSection(lines, start, i, s) && BlocksIn(lines, start, sections)
    requires i == |lines| || !Open(lines, i)
    ensures BlocksIn(lines, i, sections + [s])
  {
    var more := sections + [s];
    forall a: nat, b: nat | b < i && FenceBlock(lines, a, b)
      ensures SomeHasBlock(more, BlockText(lines, a, b))
    {
      if b < start {
        var k :| 0 <= k < |sections| && HasBlock(sections[k], BlockText(lines, a, b));
        assert HasBlock(more[k], BlockText(lines, a, b));
      } else {
        BlockInSection(lines, start, i, s, a, b);
        assert HasBlock(more[|sections|], BlockText(lines, a, b));
      }
    }
  }

  lemma BlockInSection(lines: seq<string>, start: nat, i: nat, s: Section, a: nat, b: nat)
    requires OpenSection(lines, start, i, s) && start <= b < i && FenceBlock(lines, a, b)
    requires i == |lines| || !Open(lines, i)
    ensures HasBlock(s, BlockText(lines, a, b))
  {
    BlockDoesNotCross(lines, a, b, start);
    if !(a < b && IsFence(lines[b])) {
      assert b == |lines| - 1;
    }
    var off := if s.heading == "" then 0 else start + 1;
    if s.heading != "" {
      HeadingIsNoFence(lines[start]);
      assert a != start;
      assert !Open(lines, start + 1);
    }
    assert s.body == lines[off..i];
    BlockInBody(lines, off, i, a, b);
  }

  /** A leading part without heading that is all blank has no block. */
  lemma BlankKeepsBlocks(lines: seq<string>, i: nat, sections: seq<Section>)
    requires i <= |lines| && forall m :: 0 <= m < i ==> Blank(lines[m])
    ensures BlocksIn(lines, i, sections)
    ensures FlatTokens(lines[..i]) == []
  {
    forall m | 0 <= m < i
      ensures !IsFence(lines[m])
    {
      if IsFence(lines[m]) {
        FenceNotBlank(lines[m]);
      }
    }
    BlankLinesHaveNoTokens(lines[..i]);
  }

  lemma {:induction false} BlankLinesHaveNoTokens(lines: seq<string>)
    requires forall m :: 0 <= m < |lines| ==> Blank(lines[m])
    ensures FlatTokens(lines) == []
  {
    if lines != [] {
      BlankLinesHaveNoTokens(lines[..|lines| - 1]);
      BlankHasNoTokens(lines[|lines| - 1]);
    }
  }

  /** A heading line and the lines after it. */
  lemma HeadedTokens(lines: seq<string>, start: nat, i: nat)
    requires start < i <= |lines|
    ensures FlatTokens(lines[..start]) + (Tokens(RStripNewlines(lines[start])) + FlatTokens(lines[start + 1..i])) ==
            FlatTokens(lines[..i])
  {
    PrefixTokens(lines, start);
    RStripNewlinesTokens(lines[start]);
    FlatTokensConcat(lines[..start + 1], lines[start + 1..i]);
    assert lines[..i] == lines[..start + 1] + lines[start + 1..i];
  }

  lemma OpenSectionTokens(lines: seq<string>, start: nat, i: nat, s: Section)
    requires OpenSection(lines, start, i, s)
    ensures FlatTokens(lines[..start]) + SectionTokens(s) == FlatTokens(lines[..i])
  {
    if s.heading == "" {
      assert lines[..0] == [];
    } else {
      HeadedTokens(lines, start, i);
    }
  }

  // ----- the section loop -----

  ghost predicate AllOk(sections: seq<Section>) {
    forall k :: 0 <= k < |sections| ==> SectionOk(sections[k])
  }

  lemma AllOkSnoc(sections: seq<Section>, s: Section)
    requires AllOk(sections) && SectionOk(s)
    ensures AllOk(sections + [s])
  {
  }

  /** The sections hold the tokens of the first i lines, and every block that ends there. */
  ghost predicate Covers(lines: seq<string>, i: nat, sections: seq<Section>)
    requires i <= |lines|
  {
    && AllTokens(sections) == FlatTokens(lines[..i])
    && BlocksIn(lines, i, sections)
    && AllOk(sections)
  }

  ghost predicate Sectioned(lines: seq<string>, start: nat, i: nat, sections: seq<Section>, s: Section, fenced: bool) {
    OpenSection(lines, start, i, s) && fenced == Open(lines, i) && Covers(lines, start, sections)
  }

  lemma OpenSectionOk(lines: seq<string>, start: nat, i: nat, s: Section)
    requires LineList(lines) && OpenSection(lines, start, i, s)
    ensures SectionOk(s)
  {
  }

  lemma SectionFlushed(lines: seq<string>, start: nat, i: nat, sections: seq<Section>, s: Section)
    requires LineList(lines) && OpenSection(lines, start, i, s) && Covers(lines, start, sections)
    requires i == |lines| || !Open(lines, i)
    ensures Covers(lines, i, sections + [s])
  {
    AllTokensSnoc(sections, s);
    OpenSectionTokens(lines, start, i, s);
    SectionKeepsBlocks(lines, start, i, sections, s);
    OpenSectionOk(lines, start, i, s);
    AllOkSnoc(sections, s);
  }

  lemma BlankStart(lines: seq<string>, i: nat, sections: seq<Section>)
    requires i <= |lines| && !AnyNonblank(lines[..i]) && Covers(lines, 0, sections)
    ensures Covers(lines, i, sections)
  {
    forall m | 0 <= m < i
      ensures Blank(lines[m])
    {
      assert lines[..i][m] == lines[m];
    }
    BlankKeepsBlocks(lines, i, sections);
    assert lines[..0] == [];
  }

  lemma FlushedCovers(lines: seq<string>, start: nat, i: nat, sections: seq<Section>, s: Section, fenced: bool)
    requires LineList(lines) && Sectioned(lines, start, i, sections, s, fenced)
    requires i == |lines| || !Open(lines, i)
    ensures Covers(lines, i, WithSection(sections, s))
  {
    if s.heading != "" || AnyNonblank(s.body) {
      SectionFlushed(lines, start, i, sections, s);
    } else {
      BlankStart(lines, i, sections);
    }
  }

  method FlushSection(ghost lines: seq<string>, ghost start: nat, ghost i: nat, sections: seq<Section>, s: Section,
                      ghost fenced: bool)
    returns (more: seq<Section>)
    requires LineList(lines) && Sectioned(lines, start, i, sections, s, fenced) && Cut(lines, start, i, sections, s)
    requires i < |lines| ==> HeadingAt(lines, i)
    ensures Covers(lines, i, more) && FoundSections(lines) == more + HeadedFrom(lines, i)
  {
    CutFlushed(lines, start, i, sections, s);
    FlushedCovers(lines, start, i, sections, s, fenced);
    more := sections;
    if s.heading != "" || AnyNonblank(s.body) {
      more := sections + [s];
    }
  }

  lemma BodyLine(lines: seq<string>, start: nat, i: nat, sections: seq<Section>, s: Section, fenced: bool)
    requires Sectioned(lines, start, i, sections, s, fenced) && i < |lines|
    ensures Sectioned(lines, start, i + 1, sections, s.(body := s.body + [lines[i]]), fenced != IsFence(lines[i]))
  {
    assert lines[..i + 1] == lines[..i] + [lines[i]];
    if s.heading != "" {
      assert lines[start + 1..i + 1] == lines[start + 1..i] + [lines[i]];
    }
  }

  lemma HeadingLine(lines: seq<string>, i: nat, sections: seq<Section>)
    requires i < |lines| && !Open(lines, i) && IsHeading(RStripNewlines(lines[i]))
    requires Covers(lines, i, sections)
    ensures Sectioned(lines, i, i + 1, sections, Section(RStripNewlines(lines[i]), []), false)
  {
    HeadingIsNoFence(lines[i]);
    assert lines[i + 1..i + 1] == [];
  }

  lemma HeadingStarts(lines: seq<string>, i: nat, sections: seq<Section>)
    requires i < |lines| && HeadingAt(lines, i) && FoundSections(lines) == sections + HeadedFrom(lines, i)
    ensures Cut(lines, i, i + 1, sections, Section(RStripNewlines(lines[i]), []))
  {
    HeadingIsNoFence(lines[i]);
    assert lines[i + 1..i + 1] == [];
  }

  method SectionLine(lines: seq<string>, i: nat, ghost start: nat, sections: seq<Section>, s: Section, before: bool)
    returns (ghost start': nat, sections': seq<Section>, s': Section, fenced: bool)
    requires LineList(lines) && i < |lines| && Sectioned(lines, start, i, sections, s, before)
    requires Cut(lines, start, i, sections, s)
    ensures Sectioned(lines, start', i + 1, sections', s', fenced)
    ensures Cut(lines, start', i + 1, sections', s')
  {
    var line := lines[i];
    fenced := if IsFence(line) then !before else before;
    if !fenced && IsHeading(RStripNewlines(line)) {
      HeadingIsNoFence(line);
      sections' := FlushSection(lines, start, i, sections, s, before);
      s' := Section(RStripNewlines(line), []);
      HeadingLine(lines, i, sections');
      HeadingStarts(lines, i, sections');
      start' := i;
    } else {
      NoHeadingHere(lines, i, fenced);
      BodyLine(lines, start, i, sections, s, before);
      CutGrows(lines, start, i, sections, s);
      start', sections', s' := start, sections, s.(body := s.body + [line]);
    }
  }

  lemma NoHeadingHere(lines: seq<string>, i: nat, fenced: bool)
    requires i < |lines| && fenced == Open(lines, i + 1) && (fenced || !IsHeading(RStripNewlines(lines[i])))
    ensures !HeadingAt(lines, i)
  {
    if HeadingAt(lines, i) {
      HeadingIsNoFence(lines[i]);
    }
  }

  /** The first half of _markdown_units: sections keep all tokens, and no fenced block is cut by a section boundary. */
  method MarkdownSections(lines: seq<string>) returns (sections: seq<Section>)
    requires LineList(lines)
    ensures sections == SectionList(lines)
    ensures Covers(lines, |lines|, sections)
  {
    sections := [];
    var s, fenced := Section("", []), false;
    ghost var start: nat := 0;
    NoSections(lines);
    for i := 0 to |lines|
      invariant Sectioned(lines, start, i, sections, s, fenced)
      invariant Cut(lines, start, i, sections, s)
    {
      start, sections, s, fenced := SectionLine(lines, i, start, sections, s, fenced);
    }
    sections := FlushSection(lines, start, |lines|, sections, s, fenced);
    assert HeadedFrom(lines, |lines|) == [];
    if sections == [] {
      sections := [Section("", lines)];
      WholeText(lines);
    }
  }

  lemma NoSections(lines: seq<string>)
    ensures Sectioned(lines, 0, 0, [], Section("", []), false) && Cut(lines, 0, 0, [], Section("", []))
  {
    assert lines[..0] == [];
  }

  lemma WholeText(lines: seq<string>)
    requires LineList(lines)
    ensures Covers(lines, |lines|, [Section("", lines)])
  {
    var s := Section("", lines);
    AllTokensSnoc([], s);
    assert [] + [s] == [s];
    assert lines[..|lines|] == lines;
    forall a: nat, b: nat | b < |lines| && FenceBlock(lines, a, b)
      ensures SomeHasBlock([s], BlockText(lines, a, b))
    {
      assert HasBlock([s][0], BlockText(lines, a, b));
    }
  }
}
