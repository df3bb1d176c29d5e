/**
 * semantic_split: sections, their paragraphs and fenced blocks, packed greedily
 * (src/karc/bench/e5_chunk_canary.py).
 */
module Splitter {
  import opened Text
  import opened Fences
  import opened Packing
  import opened Sections
  import opened HeadingCuts

  datatype Kind = Markdown | Prose

  /** The unit records of semantic_split, without the hash, the heading path and the seed. */
  datatype Unit = Unit(index: nat, text: string, bytes: nat, estimated: nat)

  datatype Split = Units(units: seq<Unit>) | ValueError | LostContent

  // ----- one section -----

  /** The parts of a section: its heading and its atoms. */
  function PartsOf(s: Section): seq<string> {
    Parts(s.heading, Atoms(s.body))
  }

  /** The units of one section, or of a whole prose text with an empty heading: its parts, packed greedily. */
  method SectionUnits(s: Section, softMax: int) returns (texts: seq<string>)
    ensures GreedyChunks(PartsOf(s), texts, softMax)
  {
    var atoms := ParagraphAtoms(s.body);
    NoEmptyAtom(s.body);
    texts := PackAtoms(s.heading, atoms, softMax);
  }

  lemma NoEmptyAtom(lines: seq<string>)
    ensures forall k :: 0 <= k < |Atoms(lines)| ==> Atoms(lines)[k] != ""
  {
    AtomsNonblank(lines);
    assert Blank("");
  }

  /** Some chunk contains the fenced block, but for spaces at the block's end. */
  ghost predicate KeepsBlock(texts: seq<string>, block: string) {
    exists k :: 0 <= k < |texts| && Contains(texts[k], RStrip(block))
  }

  lemma KeepsMore(texts: seq<string>, more: seq<string>, block: string)
    requires KeepsBlock(texts, block)
    ensures KeepsBlock(texts + more, block) && KeepsBlock(more + texts, block)
  {
    var k :| 0 <= k < |texts| && Contains(texts[k], RStrip(block));
    assert (texts + more)[k] == texts[k] && (more + texts)[|more| + k] == texts[k];
  }

  lemma PartsTokens(prefix: string, atoms: seq<string>)
    ensures FlatTokens(Parts(prefix, atoms)) == Tokens(prefix) + FlatTokens(atoms)
  {
    StripNewlinesTokens(prefix);
    var head: seq<string> := if StripNewlines(prefix) == "" then [] else [StripNewlines(prefix)];
    FlatTokensSnoc([], StripNewlines(prefix));
    assert [] + [StripNewlines(prefix)] == [StripNewlines(prefix)];
    FlatTokensConcat(head, atoms);
  }

  lemma PartsNonblank(prefix: string, atoms: seq<string>)
    requires (prefix == "" || !Blank(prefix)) && AllNonblank(atoms)
    ensures AllNonblank(Parts(prefix, atoms))
  {
    if prefix != "" {
      StripNewlinesTokens(prefix);
      TokensNonblank(prefix);
      TokensNonblank(StripNewlines(prefix));
    }
  }

  lemma ChunkNonblank(parts: seq<string>, bounds: seq<nat>, chunks: seq<string>, softMax: int, k: nat)
    requires Packed(parts, bounds, chunks, softMax) && k < |chunks| && AllNonblank(parts)
    ensures !Blank(chunks[k])
  {
    assert PackedAt(parts, bounds, chunks, softMax, k);
    var group := parts[bounds[k]..bounds[k + 1]];
    var n := |group| - 1;
    ChunkTokens(group);
    TokensNonblank(group[n]);
    assert FlatTokens(group) == FlatTokens(group[..n]) + Tokens(group[n]);
    TokensNonblank(chunks[k]);
  }

  lemma PartKept(parts: seq<string>, bounds: seq<nat>, texts: seq<string>, softMax: int, block: string)
    requires Packed(parts, bounds, texts, softMax) && bounds[|texts|] == |parts|
    requires block in parts && !Blank(block)
    ensures KeepsBlock(texts, block)
  {
    var i :| 0 <= i < |parts| && parts[i] == block;
    var k := PackedHasPart(parts, bounds, texts, softMax, i);
  }

  lemma BlockIsPart(s: Section, a: nat, b: nat)
    requires FenceBlock(s.body, a, b)
    ensures BlockText(s.body, a, b) in PartsOf(s) && !Blank(BlockText(s.body, a, b))
  {
    assert Indivisible(s.body, a, b);
    AtomsExact(s.body, BlockText(s.body, a, b));
    BlockNonempty(s.body, a, b);
  }

  ghost predicate KeepsBlocks(lines: seq<string>, texts: seq<string>) {
    forall a: nat, b: nat :: FenceBlock(lines, a, b) ==> KeepsBlock(texts, BlockText(lines, a, b))
  }

  lemma SectionTokensKept(s: Section, texts: seq<string>, softMax: int)
    requires SectionOk(s) && GreedyChunks(PartsOf(s), texts, softMax)
    ensures FlatTokens(texts) == SectionTokens(s)
  {
    var parts := PartsOf(s);
    var bounds: seq<nat> :| Packed(parts, bounds, texts, softMax) && bounds[|texts|] == |parts|;
    PackedTokens(parts, bounds, texts, softMax);
    PartsTokens(s.heading, Atoms(s.body));
    AtomsTokens(s.body);
    assert parts[..|parts|] == parts;
  }

  lemma SectionNonblank(s: Section, texts: seq<string>, softMax: int)
    requires SectionOk(s) && GreedyChunks(PartsOf(s), texts, softMax)
    ensures AllNonblank(texts)
  {
    var parts := PartsOf(s);
    var bounds: seq<nat> :| Packed(parts, bounds, texts, softMax) && bounds[|texts|] == |parts|;
    AtomsNonblank(s.body);
    PartsNonblank(s.heading, Atoms(s.body));
    forall k | 0 <= k < |texts|
      ensures !Blank(texts[k])
    {
      ChunkNonblank(parts, bounds, texts, softMax, k);
    }
  }

  lemma SectionBlocksKept(s: Section, texts: seq<string>, softMax: int)
    requires GreedyChunks(PartsOf(s), texts, softMax)
    ensures KeepsBlocks(s.body, texts)
  {
    var parts := PartsOf(s);
    var bounds: seq<nat> :| Packed(parts, bounds, texts, softMax) && bounds[|texts|] == |parts|;
    forall a: nat, b: nat | FenceBlock(s.body, a, b)
      ensures KeepsBlock(texts, BlockText(s.body, a, b))
    {
      BlockIsPart(s, a, b);
      PartKept(parts, bounds, texts, softMax, BlockText(s.body, a, b));
    }
  }

  /** The text of a unit that holds nothing but one heading, one paragraph or one fenced block of the section. */
  ghost predicate OnePiece(s: Section, text: string) {
    || (StripNewlines(s.heading) != "" && text == ChunkOf([StripNewlines(s.heading)]))
    || exists i, j :: Indivisible(s.body, i, j) && text == ChunkOf([BlockText(s.body, i, j)])
  }

  /** Without its final newline the text exceeds the soft maximum. */
  predicate Oversize(text: string, softMax: int) {
    text != "" && EstimateTokens(text[..|text| - 1]) > softMax
  }

  lemma OversizeIsOnePiece(s: Section, texts: seq<string>, softMax: int, k: nat)
    requires GreedyChunks(PartsOf(s), texts, softMax) && k < |texts| && Oversize(texts[k], softMax)
    ensures OnePiece(s, texts[k])
  {
    var i := OversizeIsOnePart(PartsOf(s), texts, softMax, k);
    var part := PartsOf(s)[i];
    if part in Atoms(s.body) {
      AtomsExact(s.body, part);
    }
  }

  // ----- all sections -----

  /** The texts are those of the sections one after the other, each packed on its own. */
  ghost predicate UnitsOf(sections: seq<Section>, texts: seq<string>, softMax: int) {
    if sections == [] then texts == []
    else
      var n := |sections| - 1;
      exists m :: 0 <= m <= |texts| && UnitsOf(sections[..n], texts[..m], softMax)
                  && GreedyChunks(PartsOf(sections[n]), texts[m..], softMax)
  }

  lemma UnitsGrow(sections: seq<Section>, s: Section, texts: seq<string>, more: seq<string>, softMax: int)
    requires UnitsOf(sections, texts, softMax) && GreedyChunks(PartsOf(s), more, softMax)
    ensures UnitsOf(sections + [s], texts + more, softMax)
  {
    var m, all := |texts|, texts + more;
    assert (sections + [s])[..|sections|] == sections;
    assert all[..m] == texts && all[m..] == more;
  }

  lemma UnitsSplit(sections: seq<Section>, texts: seq<string>, softMax: int) returns (m: nat)
    requires sections != [] && UnitsOf(sections, texts, softMax)
    ensures m <= |texts| && texts == texts[..m] + texts[m..]
    ensures UnitsOf(sections[..|sections| - 1], texts[..m], softMax)
    ensures GreedyChunks(PartsOf(sections[|sections| - 1]), texts[m..], softMax)
  {
    var n := |sections| - 1;
    m :| 0 <= m <= |texts| && UnitsOf(sections[..n], texts[..m], softMax)
         && GreedyChunks(PartsOf(sections[n]), texts[m..], softMax);
  }

  /** The sections determine the units. */
  lemma {:induction false} UnitsUnique(sections: seq<Section>, texts: seq<string>, texts': seq<string>, softMax: int)
    requires UnitsOf(sections, texts, softMax) && UnitsOf(sections, texts', softMax)
    ensures texts == texts'
  {
    if sections != [] {
      var n := |sections| - 1;
      var m := UnitsSplit(sections, texts, softMax);
      var m' := UnitsSplit(sections, texts', softMax);
      UnitsUnique(sections[..n], texts[..m], texts'[..m'], softMax);
      GreedyUnique(PartsOf(sections[n]), texts[m..], texts'[m'..], softMax);
    }
  }

  lemma {:induction false} UnitsTokens(sections: seq<Section>, texts: seq<string>, softMax: int)
    requires UnitsOf(sections, texts, softMax) && AllOk(sections)
    ensures FlatTokens(texts) == AllTokens(sections)
  {
    if sections != [] {
      var n := |sections| - 1;
      var m := UnitsSplit(sections, texts, softMax);
      UnitsTokens(sections[..n], texts[..m], softMax);
      SectionTokensKept(sections[n], texts[m..], softMax);
      FlatTokensConcat(texts[..m], texts[m..]);
    }
  }

  lemma {:induction false} UnitsNonblank(sections: seq<Section>, texts: seq<string>, softMax: int)
    requires UnitsOf(sections, texts, softMax) && AllOk(sections)
    ensures AllNonblank(texts)
  {
    if sections != [] {
      var n := |sections| - 1;
      var m := UnitsSplit(sections, texts, softMax);
      UnitsNonblank(sections[..n], texts[..m], softMax);
      SectionNonblank(sections[n], texts[m..], softMax);
      AppendNonblank(texts[..m], texts[m..]);
    }
  }

  lemma AppendNonblank(texts: seq<string>, more: seq<string>)
    requires AllNonblank(texts) && AllNonblank(more)
    ensures AllNonblank(texts + more)
  {
  }

  lemma {:induction false} UnitsBlocks(sections: seq<Section>, texts: seq<string>, softMax: int, k: nat, block: string)
    requires UnitsOf(sections, texts, softMax) && k < |sections| && HasBlock(sections[k], block)
    ensures KeepsBlock(texts, block)
  {
    var n := |sections| - 1;
    var m := UnitsSplit(sections, texts, softMax);
    if k < n {
      UnitsBlocks(sections[..n], texts[..m], softMax, k, block);
      KeepsMore(texts[..m], texts[m..], block);
    } else {
      SectionBlocksKept(sections[n], texts[m..], softMax);
      KeepsMore(texts[m..], texts[..m], block);
    }
  }

  ghost predicate SomePiece(sections: seq<Section>, text: string) {
    exists l :: 0 <= l < |sections| && OnePiece(sections[l], text)
  }

  /** A unit above the soft maximum is one heading, one paragraph or one fenced block of some section. */
  lemma {:induction false} UnitsOversize(sections: seq<Section>, texts: seq<string>, softMax: int, k: nat)
    requires UnitsOf(sections, texts, softMax) && k < |texts| && Oversize(texts[k], softMax)
    ensures SomePiece(sections, texts[k])
  {
    var n := |sections| - 1;
    var m := UnitsSplit(sections, texts, softMax);
    if k < m {
      UnitsOversize(sections[..n], texts[..m], softMax, k);
      var l :| 0 <= l < n && OnePiece(sections[..n][l], texts[k]);
      assert OnePiece(sections[l], texts[k]);
    } else {
      OversizeIsOnePiece(sections[n], texts[m..], softMax, k - m);
      assert OnePiece(sections[n], texts[k]);
    }
  }

  /** What the units of any sections guarantee about the text that the sections come from. */
  ghost predicate Faithful(lines: seq<string>, sections: seq<Section>, texts: seq<string>, softMax: int) {
    && FlatTokens(texts) == FlatTokens(lines)
    && AllNonblank(texts)
    && KeepsBlocks(lines, texts)
    && forall k :: 0 <= k < |texts| && Oversize(texts[k], softMax) ==> SomePiece(sections, texts[k])
  }

  lemma UnitsFaithful(lines: seq<string>, sections: seq<Section>, texts: seq<string>, softMax: int)
    requires Covers(lines, |lines|, sections) && UnitsOf(sections, texts, softMax)
    ensures Faithful(lines, sections, texts, softMax)
  {
    UnitsTokens(sections, texts, softMax);
    UnitsNonblank(sections, texts, softMax);
    assert lines[..|lines|] == lines;
    forall a: nat, b: nat | FenceBlock(lines, a, b)
      ensures KeepsBlock(texts, BlockText(lines, a, b))
    {
      assert SomeHasBlock(sections, BlockText(lines, a, b));
      var k :| 0 <= k < |sections| && HasBlock(sections[k], BlockText(lines, a, b));
      UnitsBlocks(sections, texts, softMax, k, BlockText(lines, a, b));
    }
    forall k | 0 <= k < |texts| && Oversize(texts[k], softMax)
      ensures SomePiece(sections, texts[k])
    {
      UnitsOversize(sections, texts, softMax, k);
    }
  }

  // ----- where units start -----

  lemma {:induction false} JoinStarts(parts: seq<string>)
    requires parts != []
    ensures parts[0] <= Join(parts)
  {
    if |parts| > 1 {
      JoinStarts(parts[..|parts| - 1]);
    }
  }

  lemma RStripStarts(a: string, b: string)
    ensures RStrip(a) <= RStrip(a + b)
  {
    RStripTokens(a);
    if Blank(b) {
      RStripBlank(a, b);
    } else {
      RStripAppend(a, b);
    }
  }

  lemma {:induction false} RStripLine(line: string)
    ensures RStrip(RStripNewlines(line)) == RStrip(line)
  {
    if line != "" && line[|line| - 1] == '\n' {
      RStripLine(line[..|line| - 1]);
    }
  }

  lemma {:induction false} RStripNewlinesTwice(line: string)
    ensures RStripNewlines(RStripNewlines(line)) == RStripNewlines(line)
  {
    if line != "" && line[|line| - 1] == '\n' {
      RStripNewlinesTwice(line[..|line| - 1]);
    }
  }

  /** A heading is a part of its section as it stands. */
  lemma HeadingPart(line: string, body: seq<string>)
    requires IsHeading(RStripNewlines(line))
    ensures PartsOf(Section(RStripNewlines(line), body)) == [RStripNewlines(line)] + Atoms(body)
  {
    RStripNewlinesTwice(line);
  }

  /** The first chunk starts with the first part. */
  lemma FirstChunk(parts: seq<string>, chunks: seq<string>, softMax: int)
    requires GreedyChunks(parts, chunks, softMax) && parts != []
    ensures chunks != [] && RStrip(parts[0]) <= chunks[0]
  {
    var bounds: seq<nat> :| Packed(parts, bounds, chunks, softMax) && bounds[|chunks|] == |parts|;
    assert PackedAt(parts, bounds, chunks, softMax, 0);
    var group := parts[bounds[0]..bounds[1]];
    JoinStarts(group);
    var joined := Join(group);
    RStripStarts(parts[0], joined[|parts[0]|..]);
    assert parts[0] + joined[|parts[0]|..] == joined;
  }

  /** The units of section j are the texts from some k up to some e, after the tokens of the sections before. */
  lemma {:induction false} UnitsAt(sections: seq<Section>, texts: seq<string>, softMax: int, j: nat)
    returns (k: nat, e: nat)
    requires UnitsOf(sections, texts, softMax) && AllOk(sections) && j < |sections|
    ensures k <= e <= |texts| && FlatTokens(texts[..k]) == AllTokens(sections[..j])
    ensures GreedyChunks(PartsOf(sections[j]), texts[k..e], softMax)
  {
    var n := |sections| - 1;
    var m := UnitsSplit(sections, texts, softMax);
    if j == n {
      k, e := m, |texts|;
      assert texts[k..e] == texts[m..];
      UnitsTokens(sections[..n], texts[..m], softMax);
    } else {
      k, e := UnitsAt(sections[..n], texts[..m], softMax, j);
      assert texts[..m][..k] == texts[..k] && texts[..m][k..e] == texts[k..e];
      assert sections[..n][..j] == sections[..j];
    }
  }

  /**
   * Unit k is the first after the lines before heading m, and starts with that heading; the units from there up to e
   * are the greedy packing of the heading and of the paragraphs and blocks of the lines up to the next heading.
   */
  ghost predicate HeadedUnits(lines: seq<string>, texts: seq<string>, softMax: int, m: nat, next: nat, k: nat, e: nat)
    requires m < next <= |lines|
  {
    && k < e <= |texts| && FlatTokens(texts[..k]) == FlatTokens(lines[..m])
    && RStrip(lines[m]) <= texts[k]
    && GreedyChunks([RStripNewlines(lines[m])] + Atoms(lines[m + 1..next]), texts[k..e], softMax)
  }

  /** The first k units are the greedy packing of the paragraphs and blocks of the first n lines. */
  ghost predicate LeadingUnits(lines: seq<string>, texts: seq<string>, softMax: int, n: nat, k: nat)
    requires n <= |lines|
  {
    && k <= |texts| && FlatTokens(texts[..k]) == FlatTokens(lines[..n])
    && GreedyChunks(Atoms(lines[..n]), texts[..k], softMax)
  }

  /** Every heading outside fences is the start of a unit, and no unit reaches across one. */
  ghost predicate CutAtHeadings(lines: seq<string>, texts: seq<string>, softMax: int) {
    && (forall m: nat, next: nat :: Headed(lines, m, next) ==>
          exists k: nat, e: nat :: HeadedUnits(lines, texts, softMax, m, next, k, e))
    && (forall n: nat :: n <= |lines| && NoHeading(lines, 0, n) && (n < |lines| ==> HeadingAt(lines, n)) ==>
          exists k: nat :: LeadingUnits(lines, texts, softMax, n, k))
  }

  lemma HeadingStartsUnit(lines: seq<string>, texts: seq<string>, softMax: int, m: nat, next: nat)
    returns (k: nat, e: nat)
    requires UnitsOf(SectionList(lines), texts, softMax) && AllOk(SectionList(lines)) && Headed(lines, m, next)
    ensures HeadedUnits(lines, texts, softMax, m, next, k, e)
  {
    var j := SectionStarts(lines, m, next);
    k, e := UnitsAt(SectionList(lines), texts, softMax, j);
    HeadingPart(lines[m], lines[m + 1..next]);
    FirstChunk(PartsOf(SectionList(lines)[j]), texts[k..e], softMax);
    RStripLine(lines[m]);
  }

  lemma BlankAtoms(lines: seq<string>)
    requires LineList(lines) && !AnyNonblank(lines)
    ensures Atoms(lines) == []
  {
    BlankLinesHaveNoTokens(lines);
    AtomsTokens(lines);
    AtomsNonblank(lines);
    BlankTexts(Atoms(lines));
  }

  lemma NothingPacked(softMax: int)
    ensures GreedyChunks([], [], softMax)
  {
    assert Packed([], [0], [], softMax);
  }

  lemma FirstSectionLeads(lines: seq<string>, sections: seq<Section>, texts: seq<string>, softMax: int, n: nat)
    returns (k: nat)
    requires UnitsOf(sections, texts, softMax) && AllOk(sections) && n <= |lines|
    requires sections != [] && sections[0] == Section("", lines[..n])
    ensures LeadingUnits(lines, texts, softMax, n, k)
  {
    var b;
    b, k := UnitsAt(sections, texts, softMax, 0);
    UnitsNonblank(sections, texts, softMax);
    BlankTexts(texts[..b]);
    assert b == 0 && texts[0..k] == texts[..k];
    SectionTokensKept(sections[0], texts[..k], softMax);
    assert PartsOf(sections[0]) == Atoms(lines[..n]);
  }

  lemma LeadingLines(lines: seq<string>, texts: seq<string>, softMax: int, n: nat) returns (k: nat)
    requires LineList(lines) && UnitsOf(SectionList(lines), texts, softMax) && AllOk(SectionList(lines))
    requires n <= |lines| && NoHeading(lines, 0, n) && (n < |lines| ==> HeadingAt(lines, n))
    ensures LeadingUnits(lines, texts, softMax, n, k)
  {
    NextHeadingIs(lines, 0, n);
    if AnyNonblank(lines[..n]) || n == |lines| {
      assert lines[..|lines|] == lines;
      k := FirstSectionLeads(lines, SectionList(lines), texts, softMax, n);
    } else {
      BlankAtoms(lines[..n]);
      BlankLinesHaveNoTokens(lines[..n]);
      NothingPacked(softMax);
      k := 0;
    }
  }

  lemma MarkdownCuts(lines: seq<string>, texts: seq<string>, softMax: int)
    requires LineList(lines) && UnitsOf(SectionList(lines), texts, softMax) && AllOk(SectionList(lines))
    ensures CutAtHeadings(lines, texts, softMax)
  {
    forall m: nat, next: nat | Headed(lines, m, next)
      ensures exists k: nat, e: nat :: HeadedUnits(lines, texts, softMax, m, next, k, e)
    {
      var k, e := HeadingStartsUnit(lines, texts, softMax, m, next);
    }
    forall n: nat | n <= |lines| && NoHeading(lines, 0, n) && (n < |lines| ==> HeadingAt(lines, n))
      ensures exists k: nat :: LeadingUnits(lines, texts, softMax, n, k)
    {
      var k := LeadingLines(lines, texts, softMax, n);
    }
  }

  lemma UnitsNext(sections: seq<Section>, n: nat, texts: seq<string>, more: seq<string>, softMax: int)
    requires n < |sections| && UnitsOf(sections[..n], texts, softMax)
    requires GreedyChunks(PartsOf(sections[n]), more, softMax)
    ensures UnitsOf(sections[..n + 1], texts + more, softMax)
  {
    UnitsGrow(sections[..n], sections[n], texts, more, softMax);
    assert sections[..n + 1] == sections[..n] + [sections[n]];
  }

  lemma AllUnits(lines: seq<string>, sections: seq<Section>, texts: seq<string>, softMax: int)
    requires Covers(lines, |lines|, sections) && UnitsOf(sections[..|sections|], texts, softMax)
    ensures UnitsOf(sections, texts, softMax) && Faithful(lines, sections, texts, softMax)
  {
    assert sections[..|sections|] == sections;
    UnitsFaithful(lines, sections, texts, softMax);
  }

  /** _markdown_units: cut into sections, then pack each section on its own. */
  method MarkdownUnits(lines: seq<string>, softMax: int) returns (texts: seq<string>)
    requires LineList(lines)
    ensures UnitsOf(SectionList(lines), texts, softMax)
    ensures Faithful(lines, SectionList(lines), texts, softMax) && CutAtHeadings(lines, texts, softMax)
  {
    var sections := MarkdownSections(lines);
    texts := [];
    for n := 0 to |sections|
      invariant UnitsOf(sections[..n], texts, softMax)
    {
      var more := SectionUnits(sections[n], softMax);
      UnitsNext(sections, n, texts, more, softMax);
      texts := texts + more;
    }
    AllUnits(lines, sections, texts, softMax);
    MarkdownCuts(lines, texts, softMax);
  }

  /** The unit texts joined by newlines, on which the loss check runs. */
  function Lined(texts: seq<string>): string {
    if texts == [] then ""
    else if |texts| == 1 then texts[0]
    else Lined(texts[..|texts| - 1]) + "\n" + texts[|texts| - 1]
  }

  lemma {:induction false} LinedTokens(texts: seq<string>)
    ensures Tokens(Lined(texts)) == FlatTokens(texts)
  {
    if |texts| == 1 {
      assert texts[..0] == [];
    } else if |texts| > 1 {
      var n := |texts| - 1;
      LinedTokens(texts[..n]);
      TokensConcat(Lined(texts[..n]) + "\n", texts[n]);
      TokensConcat(Lined(texts[..n]), "\n");
      BlankHasNoTokens("\n");
    }
  }

  function Texts(units: seq<Unit>): (r: seq<string>)
    ensures |r| == |units| && forall k :: 0 <= k < |r| ==> r[k] == units[k].text
  {
    seq(|units|, k requires 0 <= k < |units| => units[k].text)
  }

  function Numbered(texts: seq<string>): (r: seq<Unit>)
    ensures |r| == |texts|
    ensures forall k :: 0 <= k < |r| ==> r[k] == Unit(k, texts[k], Utf8Length(texts[k]), EstimateTokens(texts[k]))
  {
    seq(|texts|, k requires 0 <= k < |texts| => Unit(k, texts[k], Utf8Length(texts[k]), EstimateTokens(texts[k])))
  }

  /** Prose is one section without heading, whatever its lines look like. */
  function SectionsOf(kind: Kind, lines: seq<string>): seq<Section> {
    if kind.Markdown? then SectionList(lines) else [Section("", lines)]
  }

  method ProseUnits(lines: seq<string>, softMax: int) returns (texts: seq<string>)
    requires LineList(lines)
    ensures UnitsOf([Section("", lines)], texts, softMax)
    ensures Faithful(lines, [Section("", lines)], texts, softMax)
    ensures GreedyChunks(Atoms(lines), texts, softMax)
  {
    texts := SectionUnits(Section("", lines), softMax);
    assert PartsOf(Section("", lines)) == Atoms(lines);
    UnitsGrow([], Section("", lines), [], texts, softMax);
    assert [] + [Section("", lines)] == [Section("", lines)] && [] + texts == texts;
    WholeText(lines);
    UnitsFaithful(lines, [Section("", lines)], texts, softMax);
  }

  /** Units without blank texts carry a token unless there are none. */
  lemma BlankTexts(texts: seq<string>)
    requires AllNonblank(texts)
    ensures FlatTokens(texts) == [] <==> texts == []
  {
    if texts != [] {
      TokensNonblank(texts[|texts| - 1]);
    }
  }

  /**
   * semantic_split on Markdown and prose. The loss check fails exactly on blank texts. Otherwise the units are the
   * sections' headings, paragraphs and fenced blocks, packed greedily section by section: they hold the tokens of the
   * text in order, no fenced block is cut, and a unit above the soft maximum is a single heading, paragraph or block.
   * Markdown is cut at every heading outside fences, prose nowhere but between its paragraphs and blocks.
   */
  method SemanticSplit(kind: Kind, text: string, softMax: int) returns (r: Split)
    ensures r == ValueError <==> softMax <= 0
    ensures r == LostContent <==> softMax > 0 && Blank(text)
    ensures r.Units? ==>
      && UnitsOf(SectionsOf(kind, SplitLines(text)), Texts(r.units), softMax)
      && Faithful(SplitLines(text), SectionsOf(kind, SplitLines(text)), Texts(r.units), softMax)
      && FlatTokens(Texts(r.units)) == Tokens(text)
      && forall k :: 0 <= k < |r.units| ==>
           && r.units[k].index == k && r.units[k].bytes == Utf8Length(r.units[k].text)
           && r.units[k].estimated == EstimateTokens(r.units[k].text)
    ensures r.Units? && kind.Markdown? ==> CutAtHeadings(SplitLines(text), Texts(r.units), softMax)
    ensures r.Units? && kind.Prose? ==> GreedyChunks(Atoms(SplitLines(text)), Texts(r.units), softMax)
  {
    if softMax <= 0 {
      return ValueError;
    }
    var lines := SplitLines(text);
    SplitLinesJoin(text);
    ConcatTokens(lines);
    var texts;
    if kind.Markdown? {
      texts := MarkdownUnits(lines, softMax);
    } else {
      texts := ProseUnits(lines, softMax);
    }
    var units := Numbered(texts);
    assert Texts(units) == texts;
    LinedTokens(texts);
    TokensNonblank(text);
    BlankTexts(texts);
    if units == [] || Tokens(Lined(texts)) != Tokens(text) {
      return LostContent;
    }
    r := Units(units);
  }
}
