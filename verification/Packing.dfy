/** Packing parts into chunks of a soft maximum size (src/karc/bench/e5_chunk_canary.py). */
module Packing {
  import opened Text

  function Utf8Length(s: string): nat {
    if s == "" then 0
    else
      var n := s[|s| - 1] as int;
      Utf8Length(s[..|s| - 1]) + if n < 0x80 then 1 else if n < 0x800 then 2 else if n < 0x10000 then 3 else 4
  }

  function AtLeast(s: string, n: int): set<nat> {
    set i: nat | i < |s| && s[i] as int >= n
  }

  lemma AtLeastSnoc(s: string, n: int)
    requires s != ""
    ensures |AtLeast(s, n)| == |AtLeast(s[..|s| - 1], n)| + if s[|s| - 1] as int >= n then 1 else 0
  {
    var m := |s| - 1;
    assert AtLeast(s, n) == AtLeast(s[..m], n) + if s[m] as int >= n then {m} else {};
  }

  /** One byte for every character, and one more for each of the three limits that it reaches. */
  lemma {:induction false} Utf8Bytes(s: string)
    ensures Utf8Length(s) == |s| + |AtLeast(s, 0x80)| + |AtLeast(s, 0x800)| + |AtLeast(s, 0x10000)|
  {
    if s != "" {
      Utf8Bytes(s[..|s| - 1]);
      AtLeastSnoc(s, 0x80);
      AtLeastSnoc(s, 0x800);
      AtLeastSnoc(s, 0x10000);
    }
  }

  /** A quarter of the UTF-8 bytes, rounded up, and at least 1. */
  function EstimateTokens(s: string): (n: nat)
    ensures n >= 1 && Utf8Length(s) <= 4 * n && (n > 1 ==> 4 * n < Utf8Length(s) + 4)
  {
    var n := (Utf8Length(s) + 3) / 4;
    if n < 1 then 1 else n
  }

  lemma {:induction false} RStripShrinks(s: string)
    ensures EstimateTokens(RStrip(s)) <= EstimateTokens(s)
    ensures Utf8Length(RStrip(s)) <= Utf8Length(s)
  {
    if s != "" && IsSpace(s[|s| - 1]) {
      RStripShrinks(s[..|s| - 1]);
    }
  }

  const GAP: string := "\n\n"

  function Join(parts: seq<string>): string {
    if parts == [] then ""
    else if |parts| == 1 then parts[0]
    else Join(parts[..|parts| - 1]) + GAP + parts[|parts| - 1]
  }

  predicate OccursAt(s: string, t: string, i: nat) {
    i + |t| <= |s| && s[i..i + |t|] == t
  }

  ghost predicate Contains(s: string, t: string) {
    exists i: nat :: OccursAt(s, t, i)
  }

  function ChunkOf(parts: seq<string>): string {
    RStrip(Join(parts)) + "\n"
  }

  lemma JoinSnoc(parts: seq<string>, s: string)
    ensures Join(parts + [s]) == if parts == [] then s else Join(parts) + GAP + s
  {
    assert (parts + [s])[..|parts|] == parts;
  }

  lemma {:induction false} JoinTokens(parts: seq<string>)
    ensures Tokens(Join(parts)) == FlatTokens(parts)
  {
    if |parts| == 1 {
      assert parts[..0] == [];
    } else if |parts| > 1 {
      var n := |parts| - 1;
      JoinTokens(parts[..n]);
      TokensConcat(Join(parts[..n]) + GAP, parts[n]);
      TokensConcat(Join(parts[..n]), GAP);
      BlankHasNoTokens(GAP);
    }
  }

  lemma ChunkTokens(parts: seq<string>)
    ensures Tokens(ChunkOf(parts)) == FlatTokens(parts)
  {
    var j := Join(parts);
    RStripTokens(j);
    TokensConcat(RStrip(j), "\n");
    BlankHasNoTokens("\n");
    JoinTokens(parts);
  }

  /** Parts are set apart by an empty line, and a chunk ends with its last visible character and one newline. */
  lemma ChunkText(parts: seq<string>)
    requires parts != [] && !Blank(parts[|parts| - 1])
    ensures var n := |parts| - 1;
      ChunkOf(parts) == (if n == 0 then "" else Join(parts[..n]) + "\n\n") + RStrip(parts[n]) + "\n"
  {
    var n := |parts| - 1;
    if n > 0 {
      RStripAppend(Join(parts[..n]) + GAP, parts[n]);
    }
  }

  lemma JoinNonempty(parts: seq<string>)
    requires parts != [] && forall k :: 0 <= k < |parts| ==> parts[k] != ""
    ensures Join(parts) != ""
  {
  }

  lemma ContainsSuffix(a: string, t: string)
    ensures Contains(a + t, t)
  {
    assert (a + t)[|a|..] == t;
    assert OccursAt(a + t, t, |a|);
  }

  lemma ContainsIn(s: string, t: string, a: string, b: string)
    requires Contains(s, t)
    ensures Contains(a + s + b, t)
  {
    var i: nat :| OccursAt(s, t, i);
    var whole := a + s + b;
    assert whole[|a|..|a| + |s|] == s;
    assert whole[|a| + i..|a| + i + |t|] == s[i..i + |t|];
    assert OccursAt(whole, t, |a| + i);
  }

  /** A part that is not blank is in the chunk whole, but for trailing spaces at the chunk's end. */
  lemma {:induction false} ChunkHasPart(parts: seq<string>, k: nat)
    requires k < |parts| && !Blank(parts[k])
    ensures Contains(RStrip(Join(parts)), RStrip(parts[k]))
  {
    if k == |parts| - 1 {
      LastPart(parts);
    } else {
      ChunkHasPart(parts[..|parts| - 1], k);
      EarlierPart(parts, RStrip(parts[k]));
    }
  }

  lemma LastPart(parts: seq<string>)
    requires parts != [] && !Blank(parts[|parts| - 1])
    ensures Contains(RStrip(Join(parts)), RStrip(parts[|parts| - 1]))
  {
    var n := |parts| - 1;
    var h := if n == 0 then "" else Join(parts[..n]) + GAP;
    assert Join(parts) == h + parts[n];
    SuffixKept(h, parts[n]);
  }

  lemma SuffixKept(h: string, last: string)
    requires !Blank(last)
    ensures Contains(RStrip(h + last), RStrip(last))
  {
    RStripAppend(h, last);
    ContainsSuffix(h, RStrip(last));
  }

  lemma EarlierPart(parts: seq<string>, t: string)
    requires |parts| > 1 && Contains(RStrip(Join(parts[..|parts| - 1])), t)
    ensures Contains(RStrip(Join(parts)), t)
  {
    var n := |parts| - 1;
    var h, last := Join(parts[..n]), GAP + parts[n];
    RStripContains(h, last, t);
    JoinLast(parts);
  }

  lemma JoinLast(parts: seq<string>)
    requires |parts| > 1
    ensures Join(parts) == Join(parts[..|parts| - 1]) + (GAP + parts[|parts| - 1])
  {
  }

  /** Appending text never removes what the stripped prefix contains. */
  lemma RStripContains(a: string, b: string, t: string)
    requires Contains(RStrip(a), t)
    ensures Contains(RStrip(a + b), t)
  {
    if Blank(b) {
      RStripBlank(a, b);
    } else {
      RStripAppend(a, b);
      ContainsInPrefix(RStrip(a), t, a, RStrip(b)) by {
        RStripTokens(a);
      }
    }
  }

  lemma ContainsInPrefix(s: string, t: string, a: string, b: string)
    requires s <= a && Contains(s, t)
    ensures Contains(a + b, t)
  {
    ContainsIn(s, t, "", a[|s|..] + b);
    assert "" + s + (a[|s|..] + b) == a + b;
  }

  lemma {:induction false} RStripBlank(a: string, b: string)
    requires Blank(b)
    ensures RStrip(a + b) == RStrip(a)
  {
    if b == "" {
      assert a + b == a;
    } else {
      var n := |b| - 1;
      RStripBlank(a, b[..n]);
      assert (a + b)[..|a + b| - 1] == a + b[..n];
    }
  }

  // ----- the packing loop -----

  /** The parts of a section: its heading, if any, and its atoms. */
  function Parts(prefix: string, atoms: seq<string>): seq<string> {
    (if StripNewlines(prefix) == "" then [] else [StripNewlines(prefix)]) + atoms
  }

  /** A group of two or more parts fits, and it could not have taken the next part as well. */
  ghost predicate GreedyGroup(parts: seq<string>, a: nat, b: nat, softMax: int)
    requires a < b <= |parts|
  {
    && (b - a >= 2 ==> EstimateTokens(Join(parts[a..b])) <= softMax)
    && (b < |parts| ==> EstimateTokens(Join(parts[a..b + 1])) > softMax)
  }

  /** Chunk k is group k of the parts. */
  ghost predicate PackedAt(parts: seq<string>, bounds: seq<nat>, chunks: seq<string>, softMax: int, k: nat)
    requires k < |chunks| && |bounds| == |chunks| + 1
  {
    && bounds[k] < bounds[k + 1] <= |parts|
    && chunks[k] == ChunkOf(parts[bounds[k]..bounds[k + 1]])
    && GreedyGroup(parts, bounds[k], bounds[k + 1], softMax)
  }

  /** The chunks are the groups of the parts up to the last bound. */
  ghost predicate Packed(parts: seq<string>, bounds: seq<nat>, chunks: seq<string>, softMax: int) {
    && |bounds| == |chunks| + 1
    && bounds[0] == 0 && bounds[|chunks|] <= |parts|
    && forall k :: 0 <= k < |chunks| ==> PackedAt(parts, bounds, chunks, softMax, k)
  }

  lemma PackMore(parts: seq<string>, bounds: seq<nat>, chunks: seq<string>, softMax: int, b: nat)
    requires Packed(parts, bounds, chunks, softMax) && bounds[|chunks|] < b <= |parts|
    requires GreedyGroup(parts, bounds[|chunks|], b, softMax)
    ensures Packed(parts, bounds + [b], chunks + [ChunkOf(parts[bounds[|chunks|]..b])], softMax)
  {
    var more := chunks + [ChunkOf(parts[bounds[|chunks|]..b])];
    forall k | 0 <= k < |more|
      ensures PackedAt(parts, bounds + [b], more, softMax, k)
    {
      if k < |chunks| {
        assert PackedAt(parts, bounds, chunks, softMax, k);
      }
    }
  }

  /** Chunks keep every token of the parts they cover, in order. */
  lemma {:induction false} PackedTokens(parts: seq<string>, bounds: seq<nat>, chunks: seq<string>, softMax: int)
    requires Packed(parts, bounds, chunks, softMax)
    ensures FlatTokens(chunks) == FlatTokens(parts[..bounds[|chunks|]])
  {
    if chunks != [] {
      var n := |chunks| - 1;
      assert PackedAt(parts, bounds, chunks, softMax, n);
      var bs, cs := bounds[..n + 1], chunks[..n];
      forall k | 0 <= k < n
        ensures PackedAt(parts, bs, cs, softMax, k)
      {
        assert PackedAt(parts, bounds, chunks, softMax, k);
      }
      PackedTokens(parts, bs, cs, softMax);
      ChunkTokens(parts[bounds[n]..bounds[n + 1]]);
      FlatTokensConcat(parts[..bounds[n]], parts[bounds[n]..bounds[n + 1]]);
      assert parts[..bounds[n + 1]] == parts[..bounds[n]] + parts[bounds[n]..bounds[n + 1]];
    }
  }

  /** Every part that is not blank sits in one chunk. */
  lemma {:induction false} PackedHasPart(parts: seq<string>, bounds: seq<nat>, chunks: seq<string>, softMax: int,
                                         i: nat)
    returns (k: nat)
    requires Packed(parts, bounds, chunks, softMax) && i < bounds[|chunks|] && !Blank(parts[i])
    ensures k < |chunks| && Contains(chunks[k], RStrip(parts[i]))
  {
    k := 0;
    while bounds[k + 1] <= i
      invariant k < |chunks| && bounds[k] <= i
      decreases |chunks| - k
    {
      k := k + 1;
    }
    assert PackedAt(parts, bounds, chunks, softMax, k);
    var group := parts[bounds[k]..bounds[k + 1]];
    ChunkHasPart(group, i - bounds[k]);
    ContainsIn(RStrip(Join(group)), RStrip(parts[i]), "", "\n");
    assert "" + RStrip(Join(group)) + "\n" == chunks[k];
  }

  /** Before part b: the chunks cover the parts up to the last bound, and current joins the open group. */
  ghost predicate Packing(parts: seq<string>, bounds: seq<nat>, chunks: seq<string>, softMax: int, b: nat,
                          current: string) {
    && (forall k :: 0 <= k < |parts| ==> parts[k] != "")
    && b <= |parts|
    && Packed(parts, bounds, chunks, softMax)
    && bounds[|chunks|] <= b && (b > 0 ==> bounds[|chunks|] < b)
    && current == Join(parts[bounds[|chunks|]..b])
    && (b - bounds[|chunks|] >= 2 ==> EstimateTokens(current) <= softMax)
  }

  lemma OpenGroup(parts: seq<string>, a: nat, b: nat)
    requires a <= b <= |parts| && forall k :: 0 <= k < |parts| ==> parts[k] != ""
    ensures Join(parts[a..b]) == "" <==> a == b
  {
    if a < b {
      JoinNonempty(parts[a..b]);
    }
  }

  /** The candidate joins the open group with the next part. */
  lemma CandidateJoins(parts: seq<string>, a: nat, b: nat)
    requires a <= b < |parts| && forall k :: 0 <= k < |parts| ==> parts[k] != ""
    ensures var current := Join(parts[a..b]);
      Join(parts[a..b + 1]) == if current == "" then parts[b] else current + GAP + parts[b]
  {
    assert parts[a..b + 1] == parts[a..b] + [parts[b]];
    OpenGroup(parts, a, b);
    JoinSnoc(parts[a..b], parts[b]);
  }

  lemma PackingExtends(parts: seq<string>, bounds: seq<nat>, chunks: seq<string>, softMax: int, b: nat, current: string)
    requires Packing(parts, bounds, chunks, softMax, b, current) && b < |parts|
    requires current == "" || EstimateTokens(Join(parts[bounds[|chunks|]..b + 1])) <= softMax
    ensures Packing(parts, bounds, chunks, softMax, b + 1, Join(parts[bounds[|chunks|]..b + 1]))
  {
    OpenGroup(parts, bounds[|chunks|], b);
  }

  lemma PackingCuts(parts: seq<string>, bounds: seq<nat>, chunks: seq<string>, softMax: int, b: nat, current: string)
    requires Packing(parts, bounds, chunks, softMax, b, current) && current != ""
    requires b < |parts| ==> EstimateTokens(Join(parts[bounds[|chunks|]..b + 1])) > softMax
    ensures Packed(parts, bounds + [b], chunks + [RStrip(current) + "\n"], softMax)
    ensures b < |parts| ==> Packing(parts, bounds + [b], chunks + [RStrip(current) + "\n"], softMax, b + 1, parts[b])
  {
    OpenGroup(parts, bounds[|chunks|], b);
    PackMore(parts, bounds, chunks, softMax, b);
    if b < |parts| {
      assert parts[b..b + 1] == [parts[b]];
    }
  }

  lemma PackingStarts(prefix: string, atoms: seq<string>, softMax: int)
    requires forall k :: 0 <= k < |atoms| ==> atoms[k] != ""
    ensures var parts, skip := Parts(prefix, atoms), |Parts(prefix, atoms)| - |atoms|;
      && skip >= 0
      && Packing(parts, [0], [], softMax, skip, StripNewlines(prefix))
      && parts[skip..] == atoms
  {
    var parts := Parts(prefix, atoms);
    if StripNewlines(prefix) != "" {
      assert parts[0..1] == [StripNewlines(prefix)];
    }
  }

  /** One pass of the loop: the next part joins the open group or starts a new one. */
  method PackOne(ghost parts: seq<string>, ghost bounds: seq<nat>, chunks: seq<string>, softMax: int, ghost b: nat,
                 current: string, atom: string)
    returns (chunks': seq<string>, ghost bounds': seq<nat>, current': string)
    requires Packing(parts, bounds, chunks, softMax, b, current) && b < |parts| && parts[b] == atom
    ensures Packing(parts, bounds', chunks', softMax, b + 1, current')
  {
    chunks', bounds' := chunks, bounds;
    CandidateJoins(parts, bounds[|chunks|], b);
    var candidate := if current == "" then atom else current + GAP + atom;
    if current != "" && EstimateTokens(candidate) > softMax {
      PackingCuts(parts, bounds, chunks, softMax, b, current);
      chunks' := chunks + [RStrip(current) + "\n"];
      bounds' := bounds + [b];
      current' := atom;
    } else {
      PackingExtends(parts, bounds, chunks, softMax, b, current);
      current' := candidate;
    }
  }

  method PackLast(ghost parts: seq<string>, ghost bounds: seq<nat>, chunks: seq<string>, softMax: int, current: string)
    returns (chunks': seq<string>, ghost bounds': seq<nat>)
    requires Packing(parts, bounds, chunks, softMax, |parts|, current)
    ensures Packed(parts, bounds', chunks', softMax) && bounds'[|chunks'|] == |parts|
  {
    chunks', bounds' := chunks, bounds;
    OpenGroup(parts, bounds[|chunks|], |parts|);
    if current != "" {
      PackingCuts(parts, bounds, chunks, softMax, |parts|, current);
      chunks' := chunks + [RStrip(current) + "\n"];
      bounds' := bounds + [|parts|];
    }
  }

  /** The chunks are the greedy groups of all parts. */
  ghost predicate GreedyChunks(parts: seq<string>, chunks: seq<string>, softMax: int) {
    exists bounds: seq<nat> :: Packed(parts, bounds, chunks, softMax) && bounds[|chunks|] == |parts|
  }

  // ----- the packing is determined -----

  lemma {:induction false} Utf8Concat(a: string, b: string)
    ensures Utf8Length(a + b) == Utf8Length(a) + Utf8Length(b)
  {
    if b == "" {
      assert a + b == a;
    } else {
      var n := |b| - 1;
      Utf8Concat(a, b[..n]);
      assert (a + b)[..|a + b| - 1] == a + b[..n];
    }
  }

  /** Taking one more part never lowers the estimate. */
  lemma JoinGrows(parts: seq<string>, a: nat, b: nat)
    requires a < b < |parts|
    ensures EstimateTokens(Join(parts[a..b])) <= EstimateTokens(Join(parts[a..b + 1]))
  {
    assert parts[a..b + 1] == parts[a..b] + [parts[b]];
    JoinSnoc(parts[a..b], parts[b]);
    Utf8Concat(Join(parts[a..b]), GAP);
    Utf8Concat(Join(parts[a..b]) + GAP, parts[b]);
  }

  lemma {:induction false} LongerIsLarger(parts: seq<string>, a: nat, b: nat, c: nat)
    requires a < b <= c <= |parts|
    ensures EstimateTokens(Join(parts[a..b])) <= EstimateTokens(Join(parts[a..c]))
    decreases c - b
  {
    if b < c {
      LongerIsLarger(parts, a, b, c - 1);
      JoinGrows(parts, a, c - 1);
    }
  }

  /** Two greedy groups that start together end together. */
  lemma SameGroup(parts: seq<string>, a: nat, b: nat, c: nat, softMax: int)
    requires a < b <= |parts| && a < c <= |parts|
    requires GreedyGroup(parts, a, b, softMax) && GreedyGroup(parts, a, c, softMax)
    ensures b == c
  {
    if b < c {
      LongerIsLarger(parts, a, b + 1, c);
    } else if c < b {
      LongerIsLarger(parts, a, c + 1, b);
    }
  }

  lemma {:induction false} SameBounds(parts: seq<string>, bounds: seq<nat>, chunks: seq<string>, bounds': seq<nat>,
                                      chunks': seq<string>, softMax: int, k: nat)
    requires Packed(parts, bounds, chunks, softMax) && Packed(parts, bounds', chunks', softMax)
    requires k <= |chunks| && k <= |chunks'|
    ensures bounds[k] == bounds'[k]
  {
    if k > 0 {
      SameBounds(parts, bounds, chunks, bounds', chunks', softMax, k - 1);
      assert PackedAt(parts, bounds, chunks, softMax, k - 1) && PackedAt(parts, bounds', chunks', softMax, k - 1);
      SameGroup(parts, bounds[k - 1], bounds[k], bounds'[k], softMax);
    }
  }

  lemma NotMore(parts: seq<string>, bounds: seq<nat>, chunks: seq<string>, bounds': seq<nat>, chunks': seq<string>,
                softMax: int)
    requires Packed(parts, bounds, chunks, softMax) && Packed(parts, bounds', chunks', softMax)
    requires bounds[|chunks|] == |parts|
    ensures |chunks'| <= |chunks|
  {
    assert |chunks| < |chunks'| ==> PackedAt(parts, bounds', chunks', softMax, |chunks|);
    if |chunks| < |chunks'| {
      SameBounds(parts, bounds, chunks, bounds', chunks', softMax, |chunks|);
    }
  }

  /** There is exactly one greedy grouping, so the specification leaves no choice. */
  lemma GreedyUnique(parts: seq<string>, chunks: seq<string>, chunks': seq<string>, softMax: int)
    requires GreedyChunks(parts, chunks, softMax) && GreedyChunks(parts, chunks', softMax)
    ensures chunks == chunks'
  {
    var bounds: seq<nat> :| Packed(parts, bounds, chunks, softMax) && bounds[|chunks|] == |parts|;
    var bounds': seq<nat> :| Packed(parts, bounds', chunks', softMax) && bounds'[|chunks'|] == |parts|;
    NotMore(parts, bounds, chunks, bounds', chunks', softMax);
    NotMore(parts, bounds', chunks', bounds, chunks, softMax);
    forall k | 0 <= k < |chunks|
      ensures chunks[k] == chunks'[k]
    {
      SameBounds(parts, bounds, chunks, bounds', chunks', softMax, k);
      SameBounds(parts, bounds, chunks, bounds', chunks', softMax, k + 1);
      assert PackedAt(parts, bounds, chunks, softMax, k) && PackedAt(parts, bounds', chunks', softMax, k);
    }
  }

  /** A chunk that exceeds the soft maximum even without its final newline is a single part. */
  lemma OversizeIsOnePart(parts: seq<string>, chunks: seq<string>, softMax: int, k: nat) returns (i: nat)
    requires GreedyChunks(parts, chunks, softMax) && k < |chunks| && chunks[k] != ""
    requires EstimateTokens(chunks[k][..|chunks[k]| - 1]) > softMax
    ensures i < |parts| && chunks[k] == ChunkOf([parts[i]])
  {
    var bounds: seq<nat> :| Packed(parts, bounds, chunks, softMax) && bounds[|chunks|] == |parts|;
    assert PackedAt(parts, bounds, chunks, softMax, k);
    i := bounds[k];
    var group := parts[bounds[k]..bounds[k + 1]];
    assert chunks[k][..|chunks[k]| - 1] == RStrip(Join(group));
    RStripShrinks(Join(group));
    assert group == [parts[i]];
  }

  /** _pack_atoms. */
  method PackAtoms(prefix: string, atoms: seq<string>, softMax: int) returns (chunks: seq<string>)
    requires forall k :: 0 <= k < |atoms| ==> atoms[k] != ""
    ensures GreedyChunks(Parts(prefix, atoms), chunks, softMax)
  {
    ghost var parts := Parts(prefix, atoms);
    ghost var skip: int := |parts| - |atoms|;
    ghost var bounds: seq<nat> := [0];
    chunks := [];
    var current := StripNewlines(prefix);
    PackingStarts(prefix, atoms, softMax);
    for i := 0 to |atoms|
      invariant Packing(parts, bounds, chunks, softMax, skip + i, current)
    {
      assert parts[skip + i] == parts[skip..][i];
      chunks, bounds, current := PackOne(parts, bounds, chunks, softMax, skip + i, current, atoms[i]);
    }
    assert skip + |atoms| == |parts|;
    chunks, bounds := PackLast(parts, bounds, chunks, softMax, current);
  }
}
