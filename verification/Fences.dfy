/** Fenced blocks of a line list, and the paragraph atoms that keep them whole (src/karc/bench/e5_chunk_canary.py). */
module Fences {
  import opened Text

  predicate IsFence(line: string) {
    "```" <= LStrip(line)
  }

  /** Whether a fence is open before line i. */
  predicate Open(lines: seq<string>, i: nat)
    requires i <= |lines|
  {
    i > 0 && Open(lines, i - 1) != IsFence(lines[i - 1])
  }

  /** No line from a up to b, b excluded, is a fence. */
  ghost predicate NoFence(lines: seq<string>, a: nat, b: nat)
    requires b <= |lines|
  {
    forall m :: a <= m < b ==> !IsFence(lines[m])
  }

  /** Lines i..j are one fenced block: from an opening fence to its closing one, or to the end of the text. */
  ghost predicate FenceBlock(lines: seq<string>, i: nat, j: nat) {
    && i <= j < |lines| && IsFence(lines[i]) && !Open(lines, i)
    && NoFence(lines, i + 1, j)
    && ((i < j && IsFence(lines[j])) || (j == |lines| - 1 && (i < j ==> !IsFence(lines[j]))))
  }

  /** The text of a run of lines, without the newlines around it. */
  function RunText(run: seq<string>): string {
    StripNewlines(Concat(run))
  }

  function BlockText(lines: seq<string>, i: nat, j: nat): string
    requires i <= j < |lines|
  {
    RunText(lines[i..j + 1])
  }

  lemma {:induction false} OpenAfter(lines: seq<string>, i: nat, m: nat)
    requires i < m <= |lines| && IsFence(lines[i]) && !Open(lines, i)
    requires NoFence(lines, i + 1, m)
    ensures Open(lines, m)
  {
    if m > i + 1 {
      OpenAfter(lines, i, m - 1);
    }
  }

  lemma {:induction false} OpenPrefix(lines: seq<string>, more: seq<string>, i: nat)
    requires i <= |lines| && lines <= more
    ensures Open(lines, i) == Open(more, i)
  {
    if i > 0 {
      OpenPrefix(lines, more, i - 1);
    }
  }

  /** The fence state restarted at a line where no fence is open agrees with the running one. */
  lemma {:induction false} OpenRestarts(lines: seq<string>, a: nat, i: nat)
    requires a + i <= |lines| && !Open(lines, a)
    ensures Open(lines[a..], i) == Open(lines, a + i)
  {
    if i > 0 {
      OpenRestarts(lines, a, i - 1);
    }
  }

  /** LStrip leaves more than blanks behind only on lines that are not blank. */
  lemma {:induction false} FenceNotBlank(line: string)
    requires IsFence(line)
    ensures !Blank(line)
  {
    if IsSpace(line[0]) {
      assert LStrip(line) == LStrip(line[1..]);
      FenceNotBlank(line[1..]);
      var i :| 0 <= i < |line[1..]| && !IsSpace(line[1..][i]);
      assert !IsSpace(line[i + 1]);
    } else {
      assert LStrip(line) == line;
    }
  }

  lemma {:induction false} OpenUnchanged(lines: seq<string>, i: nat, j: nat)
    requires i <= j <= |lines| && NoFence(lines, i, j)
    ensures Open(lines, j) == Open(lines, i)
  {
    if i < j {
      OpenUnchanged(lines, i, j - 1);
    }
  }

  // ----- atoms -----

  predicate IsText(line: string) {
    !IsFence(line) && !Blank(line)
  }

  ghost predicate AllText(lines: seq<string>, a: nat, b: nat)
    requires b <= |lines|
  {
    forall m :: a <= m < b ==> IsText(lines[m])
  }

  /** One past the first fence from line k on, or the end of the text. */
  function AfterFence(lines: seq<string>, k: nat): (n: nat)
    requires k <= |lines|
    ensures k <= n <= |lines|
    ensures n > 0 ==> NoFence(lines, k, n - 1)
    ensures (k < n && IsFence(lines[n - 1])) || (n == |lines| && (k < n ==> !IsFence(lines[n - 1])))
    decreases |lines| - k
  {
    if k == |lines| then k else if IsFence(lines[k]) then k + 1 else AfterFence(lines, k + 1)
  }

  /** The first line from k on that is blank or a fence, or the end of the text. */
  function TextEnd(lines: seq<string>, k: nat): (n: nat)
    requires k <= |lines|
    ensures k <= n <= |lines|
    ensures AllText(lines, k, n)
    ensures n == |lines| || !IsText(lines[n])
    decreases |lines| - k
  {
    if k == |lines| || !IsText(lines[k]) then k else TextEnd(lines, k + 1)
  }

  /** Where the atom that starts at line k ends: a block after its closing fence, a paragraph before the next break. */
  function AtomEnd(lines: seq<string>, k: nat): (n: nat)
    requires k < |lines|
    ensures k < n <= |lines|
  {
    if IsFence(lines[k]) then AfterFence(lines, k + 1)
    else if Blank(lines[k]) then k + 1
    else TextEnd(lines, k + 1)
  }

  predicate IsBreakLine(line: string) {
    !IsFence(line) && Blank(line)
  }

  lemma BlockEndIs(lines: seq<string>, k: nat, n: nat)
    requires k < n <= |lines| && NoFence(lines, k + 1, n - 1)
    requires (k + 1 < n && IsFence(lines[n - 1])) || (n == |lines| && (k + 1 < n ==> !IsFence(lines[n - 1])))
    ensures AfterFence(lines, k + 1) == n
  {
  }

  lemma TextEndIs(lines: seq<string>, k: nat, n: nat)
    requires k <= n <= |lines| && AllText(lines, k, n) && (n == |lines| || !IsText(lines[n]))
    ensures TextEnd(lines, k) == n
  {
  }

  /** The paragraphs and fenced blocks from line k on, where no fence is open. */
  function AtomsFrom(lines: seq<string>, k: nat): seq<string>
    requires k <= |lines|
    decreases |lines| - k
  {
    if k == |lines| then []
    else if IsBreakLine(lines[k]) then AtomsFrom(lines, k + 1)
    else [BlockText(lines, k, AtomEnd(lines, k) - 1)] + AtomsFrom(lines, AtomEnd(lines, k))
  }

  lemma ParagraphFirst(lines: seq<string>, k: nat, n: nat)
    requires k < n <= |lines| && AllText(lines, k, n) && (n == |lines| || !IsText(lines[n]))
    ensures AtomsFrom(lines, k) == [RunText(lines[k..n])] + AtomsFrom(lines, n)
  {
    TextEndIs(lines, k + 1, n);
  }

  lemma BlockFirst(lines: seq<string>, k: nat, n: nat)
    requires k < n <= |lines| && IsFence(lines[k]) && NoFence(lines, k + 1, n - 1)
    requires (k + 1 < n && IsFence(lines[n - 1])) || (n == |lines| && (k + 1 < n ==> !IsFence(lines[n - 1])))
    ensures AtomsFrom(lines, k) == [RunText(lines[k..n])] + AtomsFrom(lines, n)
  {
    BlockEndIs(lines, k, n);
  }

  function Atoms(lines: seq<string>): seq<string> {
    AtomsFrom(lines, 0)
  }

  /** Lines i..j are one paragraph: a longest run of lines outside fences that are neither blank nor fences. */
  ghost predicate Paragraph(lines: seq<string>, i: nat, j: nat) {
    && i <= j < |lines| && !Open(lines, i)
    && AllText(lines, i, j + 1)
    && (i > 0 ==> !IsText(lines[i - 1])) && (j + 1 < |lines| ==> !IsText(lines[j + 1]))
  }

  /** Lines i..j are what the splitter never cuts. */
  ghost predicate Indivisible(lines: seq<string>, i: nat, j: nat) {
    FenceBlock(lines, i, j) || Paragraph(lines, i, j)
  }

  /** A place where the atoms of the rest can be read: no fence is open, and no paragraph is cut. */
  ghost predicate Between(lines: seq<string>, k: nat) {
    && k <= |lines| && (k < |lines| ==> !Open(lines, k))
    && (0 < k < |lines| && IsText(lines[k]) ==> !IsText(lines[k - 1]))
  }

  lemma AfterBlock(lines: seq<string>, k: nat)
    requires Between(lines, k) && k < |lines| && IsFence(lines[k])
    ensures FenceBlock(lines, k, AfterFence(lines, k + 1) - 1)
    ensures Between(lines, AfterFence(lines, k + 1))
  {
    var n := AfterFence(lines, k + 1);
    if k + 1 < n {
      OpenAfter(lines, k, n - 1);
    }
  }

  lemma AfterParagraph(lines: seq<string>, k: nat)
    requires Between(lines, k) && k < |lines| && IsText(lines[k])
    ensures Paragraph(lines, k, TextEnd(lines, k + 1) - 1)
    ensures Between(lines, TextEnd(lines, k + 1))
  {
    assert AllText(lines, k + 1, TextEnd(lines, k + 1));
    OpenUnchanged(lines, k, TextEnd(lines, k + 1));
  }

  /** From one place between atoms to the next. */
  lemma AtomHere(lines: seq<string>, k: nat)
    requires Between(lines, k) && k < |lines|
    ensures Between(lines, AtomEnd(lines, k))
    ensures !IsBreakLine(lines[k]) ==> Indivisible(lines, k, AtomEnd(lines, k) - 1)
  {
    if IsFence(lines[k]) {
      AfterBlock(lines, k);
    } else if !Blank(lines[k]) {
      AfterParagraph(lines, k);
    }
  }

  /** Every atom is a paragraph or a fenced block. */
  lemma {:induction false} AtomIsIndivisible(lines: seq<string>, k: nat, t: string) returns (i: nat, j: nat)
    requires Between(lines, k) && t in AtomsFrom(lines, k)
    ensures Indivisible(lines, i, j) && t == BlockText(lines, i, j)
    decreases |lines| - k
  {
    AtomHere(lines, k);
    if !IsBreakLine(lines[k]) && t == BlockText(lines, k, AtomEnd(lines, k) - 1) {
      i, j := k, AtomEnd(lines, k) - 1;
    } else {
      i, j := AtomIsIndivisible(lines, AtomEnd(lines, k), t);
    }
  }

  /** Nothing indivisible starts inside a fenced block. */
  lemma InsideBlock(lines: seq<string>, k: nat, i: nat, j: nat)
    requires Between(lines, k) && k < i < |lines| && IsFence(lines[k]) && Indivisible(lines, i, j)
    ensures AfterFence(lines, k + 1) <= i
  {
    if i < AfterFence(lines, k + 1) {
      OpenAfter(lines, k, i);
    }
  }

  /** Nor inside a paragraph. */
  lemma InsideParagraph(lines: seq<string>, k: nat, i: nat, j: nat)
    requires Between(lines, k) && k < i < |lines| && IsText(lines[k]) && Indivisible(lines, i, j)
    ensures TextEnd(lines, k + 1) <= i
  {
  }

  /** What is indivisible and starts at a place between atoms ends where the atom there does. */
  lemma SameEnd(lines: seq<string>, k: nat, j: nat)
    requires Between(lines, k) && Indivisible(lines, k, j)
    ensures !IsBreakLine(lines[k]) && AtomEnd(lines, k) == j + 1
  {
    if IsFence(lines[k]) {
      BlockEndIs(lines, k, j + 1);
    } else {
      TextEndIs(lines, k + 1, j + 1);
    }
  }

  lemma {:induction false} IndivisibleIsAtom(lines: seq<string>, k: nat, i: nat, j: nat)
    requires Between(lines, k) && k <= i && Indivisible(lines, i, j)
    ensures BlockText(lines, i, j) in AtomsFrom(lines, k)
    decreases |lines| - k
  {
    AtomHere(lines, k);
    if i == k {
      SameEnd(lines, k, j);
    } else {
      if IsFence(lines[k]) {
        InsideBlock(lines, k, i, j);
      } else if IsText(lines[k]) {
        InsideParagraph(lines, k, i, j);
      }
      IndivisibleIsAtom(lines, AtomEnd(lines, k), i, j);
    }
  }

  /** The atoms are exactly the paragraphs and the fenced blocks. */
  lemma AtomsExact(lines: seq<string>, t: string)
    ensures t in Atoms(lines) <==> exists i, j :: Indivisible(lines, i, j) && t == BlockText(lines, i, j)
  {
    if t in Atoms(lines) {
      var i, j := AtomIsIndivisible(lines, 0, t);
    } else if i, j :| Indivisible(lines, i, j) && t == BlockText(lines, i, j) {
      IndivisibleIsAtom(lines, 0, i, j);
    }
  }

  // ----- nothing is lost -----

  lemma SliceSnoc(lines: seq<string>, a: nat, i: nat)
    requires a <= i < |lines|
    ensures lines[a..i + 1] == lines[a..i] + [lines[i]]
  {
  }

  lemma PrefixTokens(lines: seq<string>, i: nat)
    requires i < |lines|
    ensures FlatTokens(lines[..i + 1]) == FlatTokens(lines[..i]) + Tokens(lines[i])
  {
    assert lines[..i + 1] == lines[..i] + [lines[i]];
    FlatTokensSnoc(lines[..i], lines[i]);
  }

  lemma SingleTokens(line: string)
    ensures FlatTokens([line]) == Tokens(line)
  {
    FlatTokensSnoc([], line);
    assert [] + [line] == [line];
  }

  /** Tokens of a run of lines joined and stripped. */
  lemma RunTokens(lines: seq<string>, a: nat, b: nat)
    requires a <= b <= |lines| && LineList(lines)
    ensures Tokens(RunText(lines[a..b])) == FlatTokens(lines[a..b])
  {
    assert LineList(lines[a..b]);
    ConcatTokens(lines[a..b]);
    StripNewlinesTokens(Concat(lines[a..b]));
  }

  /** A first atom takes the tokens of its lines. */
  lemma RunAndRest(lines: seq<string>, k: nat, n: nat, rest: seq<string>)
    requires k < n <= |lines| && LineList(lines) && FlatTokens(rest) == FlatTokens(lines[n..])
    ensures FlatTokens([BlockText(lines, k, n - 1)] + rest) == FlatTokens(lines[k..])
  {
    RunTokens(lines, k, n);
    SingleTokens(RunText(lines[k..n]));
    FlatTokensConcat([RunText(lines[k..n])], rest);
    FlatTokensConcat(lines[k..n], lines[n..]);
    assert lines[k..] == lines[k..n] + lines[n..];
  }

  lemma {:induction false} AtomsFromTokens(lines: seq<string>, k: nat)
    requires k <= |lines| && LineList(lines)
    ensures FlatTokens(AtomsFrom(lines, k)) == FlatTokens(lines[k..])
    decreases |lines| - k
  {
    if k < |lines| {
      var n := AtomEnd(lines, k);
      AtomsFromTokens(lines, n);
      if IsBreakLine(lines[k]) {
        BlankHasNoTokens(lines[k]);
        SingleTokens(lines[k]);
        FlatTokensConcat([lines[k]], lines[k + 1..]);
        assert lines[k..] == [lines[k]] + lines[k + 1..];
      } else {
        RunAndRest(lines, k, n, AtomsFrom(lines, n));
      }
    }
  }

  /** The atoms hold the tokens of the lines in order. */
  lemma AtomsTokens(lines: seq<string>)
    requires LineList(lines)
    ensures FlatTokens(Atoms(lines)) == FlatTokens(lines)
  {
    AtomsFromTokens(lines, 0);
    assert lines[0..] == lines;
  }

  ghost predicate AllNonblank(parts: seq<string>) {
    forall k :: 0 <= k < |parts| ==> !Blank(parts[k])
  }

  lemma {:induction false} HeadNotBlank(parts: seq<string>)
    requires parts != [] && !Blank(parts[0])
    ensures !Blank(Concat(parts))
  {
    var n := |parts| - 1;
    if n == 0 {
      assert Concat(parts[..0]) == "";
      assert Concat(parts) == parts[0];
    } else {
      HeadNotBlank(parts[..n]);
      var h := Concat(parts[..n]);
      var i :| 0 <= i < |h| && !IsSpace(h[i]);
      assert Concat(parts)[i] == h[i];
    }
  }

  lemma RunNotBlank(run: seq<string>)
    requires run != [] && !Blank(run[0])
    ensures !Blank(RunText(run))
  {
    HeadNotBlank(run);
    StripNewlinesTokens(Concat(run));
    TokensNonblank(Concat(run));
    TokensNonblank(RunText(run));
  }

  lemma BlockNonempty(lines: seq<string>, i: nat, j: nat)
    requires i <= j < |lines| && IsFence(lines[i])
    ensures !Blank(BlockText(lines, i, j))
  {
    FenceNotBlank(lines[i]);
    RunNotBlank(lines[i..j + 1]);
  }

  lemma AtomsNonblank(lines: seq<string>)
    ensures AllNonblank(Atoms(lines))
  {
    forall k | 0 <= k < |Atoms(lines)|
      ensures !Blank(Atoms(lines)[k])
    {
      var i, j := AtomIsIndivisible(lines, 0, Atoms(lines)[k]);
      if IsFence(lines[i]) {
        BlockNonempty(lines, i, j);
      } else {
        RunNotBlank(lines[i..j + 1]);
      }
    }
  }

  // ----- the accumulation loop -----

  /**
   * Where the loop of _paragraph_atoms stands before line i: current holds the lines from start on, an open block or
   * the beginning of a paragraph, and what is flushed are the atoms before them.
   */
  ghost predicate Before(lines: seq<string>, i: nat, start: nat, all: seq<string>, current: seq<string>, fenced: bool) {
    && start <= i <= |lines|
    && current == lines[start..i]
    && (fenced ==> start < i && IsFence(lines[start]) && NoFence(lines, start + 1, i))
    && (!fenced ==> AllText(lines, start, i))
    && Atoms(lines) == all + AtomsFrom(lines, start)
  }

  /** The atoms that are complete once current is flushed. */
  function Flushed(all: seq<string>, current: seq<string>): seq<string> {
    if current == [] then all else all + [RunText(current)]
  }

  lemma Regroup<T>(all: seq<T>, t: T, rest: seq<T>)
    ensures all + ([t] + rest) == all + [t] + rest
  {
  }

  /** A paragraph ends before a fence, a blank line or the end of the text. */
  lemma ParagraphFlushed(lines: seq<string>, i: nat, start: nat, all: seq<string>, current: seq<string>)
    requires Before(lines, i, start, all, current, false)
    requires i < |lines| ==> !IsText(lines[i])
    ensures Atoms(lines) == Flushed(all, current) + AtomsFrom(lines, i)
  {
    if start < i {
      ParagraphFirst(lines, start, i);
      Regroup(all, RunText(current), AtomsFrom(lines, i));
    }
  }

  lemma OneLine(lines: seq<string>, i: nat)
    requires i < |lines|
    ensures lines[i..i + 1] == [lines[i]]
  {
  }

  lemma BlockOpens(lines: seq<string>, i: nat, all: seq<string>)
    requires i < |lines| && IsFence(lines[i]) && Atoms(lines) == all + AtomsFrom(lines, i)
    ensures Before(lines, i + 1, i, all, [lines[i]], true)
  {
    OneLine(lines, i);
    assert NoFence(lines, i + 1, i + 1);
  }

  lemma OpeningFence(lines: seq<string>, i: nat, start: nat, all: seq<string>, current: seq<string>)
    requires i < |lines| && Before(lines, i, start, all, current, false) && IsFence(lines[i])
    ensures Before(lines, i + 1, i, Flushed(all, current), [lines[i]], true)
  {
    ParagraphFlushed(lines, i, start, all, current);
    BlockOpens(lines, i, Flushed(all, current));
  }

  /** A block ends after its closing fence. */
  lemma ClosingFence(lines: seq<string>, i: nat, start: nat, all: seq<string>, current: seq<string>)
    requires i < |lines| && Before(lines, i, start, all, current, true) && IsFence(lines[i])
    ensures Before(lines, i + 1, i + 1, all + [RunText(current + [lines[i]])], [], false)
  {
    SliceSnoc(lines, start, i);
    BlockFirst(lines, start, i + 1);
    Regroup(all, RunText(current + [lines[i]]), AtomsFrom(lines, i + 1));
  }

  lemma BlankLine(lines: seq<string>, i: nat, start: nat, all: seq<string>, current: seq<string>)
    requires i < |lines| && Before(lines, i, start, all, current, false) && IsBreakLine(lines[i])
    ensures Before(lines, i + 1, i + 1, Flushed(all, current), [], false)
  {
    ParagraphFlushed(lines, i, start, all, current);
    assert AtomsFrom(lines, i) == AtomsFrom(lines, i + 1);
  }

  lemma TextLine(lines: seq<string>, i: nat, start: nat, all: seq<string>, current: seq<string>, fenced: bool)
    requires i < |lines| && Before(lines, i, start, all, current, fenced) && !IsFence(lines[i])
    requires fenced || !Blank(lines[i])
    ensures Before(lines, i + 1, start, all, current + [lines[i]], fenced)
  {
    SliceSnoc(lines, start, i);
  }

  /** At the end of the text an open block ends as well. */
  lemma TextEnds(lines: seq<string>, start: nat, all: seq<string>, current: seq<string>, fenced: bool)
    requires Before(lines, |lines|, start, all, current, fenced)
    ensures Atoms(lines) == Flushed(all, current)
  {
    if fenced {
      BlockFirst(lines, start, |lines|);
      Regroup(all, RunText(current), AtomsFrom(lines, |lines|));
    } else {
      ParagraphFlushed(lines, |lines|, start, all, current);
    }
  }

  /** The atoms without empty strings. */
  method Nonempty(atoms: seq<string>) returns (r: seq<string>)
    ensures forall a :: a in r <==> a in atoms && a != ""
    ensures "" !in atoms ==> r == atoms
  {
    r := [];
    for k := 0 to |atoms|
      invariant forall a :: a in r <==> a in atoms[..k] && a != ""
      invariant "" !in atoms ==> r == atoms[..k]
    {
      assert atoms[..k + 1] == atoms[..k] + [atoms[k]];
      if atoms[k] != "" {
        r := r + [atoms[k]];
      }
    }
    assert atoms[..|atoms|] == atoms;
  }

  /** The branch for a fence line: it ends a paragraph, then opens a block or closes the open one. */
  method FenceLine(ghost lines: seq<string>, ghost i: nat, ghost start: nat, line: string, before: seq<string>,
                   run: seq<string>, open: bool)
    returns (all: seq<string>, current: seq<string>, fenced: bool, ghost start': nat)
    requires i < |lines| && line == lines[i] && IsFence(line) && Before(lines, i, start, before, run, open)
    ensures Before(lines, i + 1, start', all, current, fenced)
  {
    all, current, fenced := before, run, open;
    if current != [] && !fenced {
      all := all + [StripNewlines(Concat(current))];
      current := [];
    }
    current := current + [line];
    fenced := !fenced;
    if !fenced {
      ClosingFence(lines, i, start, before, run);
      all := all + [StripNewlines(Concat(current))];
      current := [];
      start' := i + 1;
    } else {
      OpeningFence(lines, i, start, before, run);
      assert all == Flushed(before, run) && current == [line];
      start' := i;
    }
  }

  /** _paragraph_atoms: one loop over the lines finds exactly the paragraphs and the fenced blocks. */
  method ParagraphAtoms(lines: seq<string>) returns (atoms: seq<string>)
    ensures atoms == Atoms(lines)
  {
    var all: seq<string>, current: seq<string>, fenced := [], [], false;
    ghost var start: nat := 0;
    for i := 0 to |lines|
      invariant Before(lines, i, start, all, current, fenced)
    {
      var line := lines[i];
      if IsFence(line) {
        all, current, fenced, start := FenceLine(lines, i, start, line, all, current, fenced);
      } else if !fenced && Blank(line) {
        BlankLine(lines, i, start, all, current);
        start := i + 1;
        if current != [] {
          all := all + [StripNewlines(Concat(current))];
          current := [];
        }
      } else {
        TextLine(lines, i, start, all, current, fenced);
        current := current + [line];
      }
    }
    TextEnds(lines, start, all, current, fenced);
    if current != [] {
      all := all + [StripNewlines(Concat(current))];
    }
    AtomsNonblank(lines);
    atoms := Nonempty(all);
    assert "" in all ==> Blank("");
  }
}
