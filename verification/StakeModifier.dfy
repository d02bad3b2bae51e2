/**
 The stake modifier (src/kernel.cpp): 64 bits drawn from 64 past blocks, one block a round, each the
 least by selection hash among the candidates not drawn before.

 A chain is the list of a block's ancestors, genesis first; a block is its height in it.
 */
module StakeModifier {

  const MODIFIER_INTERVAL := 6 * 60 * 60
  const MODIFIER_INTERVAL_RATIO := 3

  datatype BlockIndex = BlockIndex(hash: nat, nTime: nat, fProofOfStake: bool, hashProofOfStake: nat,
                                   fEntropyBit: bool, nStakeModifier: nat, fGenerated: bool)

  /** The hash of a block's proof hash and the previous modifier. */
  type SelectionHash = (nat, nat) -> nat

  type Chain = seq<BlockIndex>

  predicate DistinctHashes(c: Chain) { forall i, j :: 0 <= i < j < |c| ==> c[i].hash != c[j].hash }

  // ----- the selection intervals ----------------------------------------------------------------------

  function Section(nSection: nat): (s: nat)
    requires nSection < 64
  {
    MODIFIER_INTERVAL * 63 / (63 + (63 - nSection) * (MODIFIER_INTERVAL_RATIO - 1))
  }

  /** The length of the first `k` sections. */
  function Sections(k: nat): nat
    requires k <= 64
  {
    if k == 0 then 0 else Sections(k - 1) + Section(k - 1)
  }

  lemma SectionsNext(k: nat)
    requires k < 64
    ensures Sections(0) == 0 && Sections(k + 1) == Sections(k) + Section(k)
  {
    hide Section;
  }

  method GetStakeModifierSelectionInterval() returns (nSelectionInterval: nat)
    ensures nSelectionInterval == Sections(64)
  {
    nSelectionInterval := 0;
    for nSection := 0 to 64
      invariant nSelectionInterval == Sections(nSection)
    {
      nSelectionInterval := nSelectionInterval + Section(nSection);
    }
  }

  /** The start of the interval a time falls into. */
  function Aligned(t: nat): int { t / MODIFIER_INTERVAL * MODIFIER_INTERVAL }

  /** Where round `r` stops looking: the last round reaches the start of the tip's interval. */
  function Stop(tipTime: nat, r: nat): int
    requires r < 64
  {
    Aligned(tipTime) - Sections(64) + Sections(r + 1)
  }

  // ----- one selection --------------------------------------------------------------------------------

  /** The order of the candidate list: by time, then by hash. */
  predicate Before(c: Chain, p: nat, q: nat)
    requires p < |c| && q < |c|
  {
    c[p].nTime < c[q].nTime || (c[p].nTime == c[q].nTime && c[p].hash < c[q].hash)
  }

  function Selection(H: SelectionHash, b: BlockIndex, nModifierPrev: nat): nat {
    if b.fProofOfStake then H(b.hashProofOfStake, nModifierPrev) / 0x1_0000_0000 else H(b.hash, nModifierPrev)
  }

  /** `p` is at least as good a choice as `q`. */
  predicate Beats(H: SelectionHash, c: Chain, nModifierPrev: nat, p: nat, q: nat)
    requires p < |c| && q < |c|
  {
    var sp, sq := Selection(H, c[p], nModifierPrev), Selection(H, c[q], nModifierPrev);
    sp < sq || (sp == sq && (p == q || Before(c, p, q)))
  }

  /** What a round chooses from the blocks still `left`: the least selection hash of those up to the
      stop time, or the earliest block if all are later. */
  ghost predicate IsPick(H: SelectionHash, c: Chain, left: set<nat>, stop: int, nModifierPrev: nat, p: nat)
    requires forall q :: q in left ==> q < |c|
  {
    && p in left
    && if exists q :: q in left && c[q].nTime <= stop then
         c[p].nTime <= stop && forall q :: q in left && c[q].nTime <= stop ==> Beats(H, c, nModifierPrev, p, q)
       else
         forall q :: q in left && q != p ==> Before(c, p, q)
  }

  lemma PickUnique(H: SelectionHash, c: Chain, left: set<nat>, stop: int, nModifierPrev: nat, p: nat, p': nat)
    requires forall q :: q in left ==> q < |c|
    requires IsPick(H, c, left, stop, nModifierPrev, p) && IsPick(H, c, left, stop, nModifierPrev, p')
    ensures p == p'
  {
  }

  const TWO_TO_THE_32 := 0x1_0000_0000
  const TWO_TO_THE_224 := 0x1_0000_0000_0000_0000_0000_0000_0000_0000_0000_0000_0000_0000_0000_0000

  /** What the chosen block is preferred for: among proof-of-work blocks the least hash, among
      proof-of-stake blocks a proof hash not larger by 2^32 or more, and against a proof-of-work block a
      proof-of-stake block counts 2^32 times less; between equals the earlier, then the smaller hash. */
  lemma PickPrefers(H: SelectionHash, c: Chain, left: set<nat>, stop: int, prev: nat, p: nat, q: nat)
    requires forall x :: x in left ==> x < |c|
    requires IsPick(H, c, left, stop, prev, p) && q in left && c[q].nTime <= stop
    ensures c[p].nTime <= stop
    ensures !c[p].fProofOfStake && !c[q].fProofOfStake ==> H(c[p].hash, prev) <= H(c[q].hash, prev)
    ensures !c[p].fProofOfStake && !c[q].fProofOfStake && p != q && H(c[p].hash, prev) == H(c[q].hash, prev) ==>
      c[p].nTime < c[q].nTime || (c[p].nTime == c[q].nTime && c[p].hash < c[q].hash)
    ensures c[p].fProofOfStake && c[q].fProofOfStake ==>
      H(c[p].hashProofOfStake, prev) < H(c[q].hashProofOfStake, prev) + TWO_TO_THE_32
    ensures !c[p].fProofOfStake && c[q].fProofOfStake ==> H(c[p].hash, prev) * TWO_TO_THE_32 <= H(c[q].hashProofOfStake, prev)
    ensures c[p].fProofOfStake && !c[q].fProofOfStake ==>
      H(c[p].hashProofOfStake, prev) < (H(c[q].hash, prev) + 1) * TWO_TO_THE_32
  {
  }

  /** With 256-bit hashes a proof-of-stake block up to the stop time wins over all proof-of-work blocks
      whose hash has one of its top 32 bits set. */
  lemma StakeFavoured(H: SelectionHash, c: Chain, left: set<nat>, stop: int, prev: nat, p: nat, q: nat)
    requires forall x :: x in left ==> x < |c|
    requires forall x, y :: H(x, y) < TWO_TO_THE_224 * TWO_TO_THE_32
    requires IsPick(H, c, left, stop, prev, p)
    requires q in left && c[q].nTime <= stop && c[q].fProofOfStake
    requires forall x :: x in left && c[x].nTime <= stop && !c[x].fProofOfStake ==> H(c[x].hash, prev) >= TWO_TO_THE_224
    ensures c[p].fProofOfStake
  {
    PickPrefers(H, c, left, stop, prev, p, q);
  }

  predicate Sorted(c: Chain, s: seq<nat>) {
    && (forall i :: 0 <= i < |s| ==> s[i] < |c|)
    && (forall i, j :: 0 <= i < j < |s| ==> Before(c, s[i], s[j]))
  }

  function Unselected(s: seq<nat>, taken: set<nat>): set<nat> { set p | p in s && p !in taken }

  method SelectBlockFromCandidates(H: SelectionHash, c: Chain, vSortedByTimestamp: seq<nat>, mapSelectedBlocks: set<nat>,
                                   nSelectionIntervalStop: int, nStakeModifierPrev: nat)
    returns (fSelected: bool, pindexSelected: nat)
    requires Sorted(c, vSortedByTimestamp)
    ensures fSelected <==> exists p :: p in vSortedByTimestamp && p !in mapSelectedBlocks
    ensures fSelected ==>
      IsPick(H, c, Unselected(vSortedByTimestamp, mapSelectedBlocks), nSelectionIntervalStop, nStakeModifierPrev, pindexSelected)
  {
    fSelected, pindexSelected := false, 0;
    var hashBest := 0;
    var i := 0;
    var s := vSortedByTimestamp;
    ghost var taken, first := mapSelectedBlocks, 0;
    while i < |s|
      invariant 0 <= i <= |s|
      invariant !fSelected ==> forall j :: 0 <= j < i ==> s[j] in taken
      invariant fSelected ==>
        && 0 <= first < i && s[first] !in taken && (forall j :: 0 <= j < first ==> s[j] in taken)
        && (forall j :: first < j < i && s[j] !in taken ==> c[s[j]].nTime <= nSelectionIntervalStop)
        && pindexSelected in s[..i] && pindexSelected !in taken && hashBest == Selection(H, c[pindexSelected], nStakeModifierPrev)
        && (forall j :: 0 <= j < i && s[j] !in taken ==> Beats(H, c, nStakeModifierPrev, pindexSelected, s[j]))
    {
      var pindex := s[i];
      if fSelected && c[pindex].nTime > nSelectionIntervalStop { break; }
      if pindex !in mapSelectedBlocks {
        var hashSelection := Selection(H, c[pindex], nStakeModifierPrev);
        if fSelected && hashSelection < hashBest {
          hashBest, pindexSelected := hashSelection, pindex;
        } else if !fSelected {
          first := i;
          fSelected, hashBest, pindexSelected := true, hashSelection, pindex;
        }
      }
      assert s[..i + 1] == s[..i] + [s[i]];
      i := i + 1;
    }
    if fSelected {
      assert s[first] in s;
      Chosen(H, c, s, taken, nSelectionIntervalStop, nStakeModifierPrev, first, i, pindexSelected);
    }
  }

  /** Stopping early changes nothing: what the loop has not looked at is past the stop time. */
  lemma Chosen(H: SelectionHash, c: Chain, s: seq<nat>, taken: set<nat>, stop: int, prev: nat, first: nat, i: nat, p: nat)
    requires Sorted(c, s) && first < i <= |s| && s[first] !in taken && forall j :: 0 <= j < first ==> s[j] in taken
    requires forall j :: first < j < i && s[j] !in taken ==> c[s[j]].nTime <= stop
    requires p in s[..i] && p !in taken
    requires forall j :: 0 <= j < i && s[j] !in taken ==> Beats(H, c, prev, p, s[j])
    requires i < |s| ==> c[s[i]].nTime > stop
    ensures IsPick(H, c, Unselected(s, taken), stop, prev, p)
  {
    hide Beats, Selection;
    var left := Unselected(s, taken);
    var at :| 0 <= at < i && s[at] == p;
    assert s[at] in s;
    forall j | i < j < |s| ensures c[s[j]].nTime > stop { assert Before(c, s[i], s[j]); }
    if c[s[first]].nTime <= stop {
      assert s[first] in left;
      forall q | q in left && c[q].nTime <= stop ensures Beats(H, c, prev, p, q) {
        var j :| 0 <= j < |s| && s[j] == q;
      }
    } else {
      forall q | q in left ensures c[q].nTime > stop && (q == s[first] || Before(c, s[first], q)) {
        var j :| 0 <= j < |s| && s[j] == q;
        if j > first { assert Before(c, s[first], s[j]); }
      }
      assert p == s[first];
    }
  }

  // ----- the next modifier ------------------------------------------------------------------------------

  /** The last block at or below the tip that generated a modifier; genesis if none did. */
  function LastGenerator(c: Chain): (g: nat)
    requires c != []
    ensures g < |c|
    decreases |c|
  {
    if |c| == 1 || c[|c|-1].fGenerated then |c| - 1 else LastGenerator(c[..|c|-1])
  }

  method GetLastStakeModifier(c: Chain) returns (ok: bool, nStakeModifier: nat, nModifierTime: nat)
    ensures ok <==> c != [] && c[LastGenerator(c)].fGenerated
    ensures ok ==> nStakeModifier == c[LastGenerator(c)].nStakeModifier && nModifierTime == c[LastGenerator(c)].nTime
  {
    if c == [] { return false, 0, 0; }
    var n := |c| - 1;
    assert c[..n + 1] == c;
    while n > 0 && !c[n].fGenerated
      invariant 0 <= n < |c| && LastGenerator(c) == LastGenerator(c[..n + 1])
    {
      assert c[..n + 1][..n] == c[..n];
      n := n - 1;
    }
    if !c[n].fGenerated { return false, 0, 0; }
    return true, c[n].nStakeModifier, c[n].nTime;
  }

  /** The candidates: the blocks from the tip back to the first one that is too old. */
  function Candidates(c: Chain): (s: set<nat>)
    requires c != []
    ensures forall p :: p in s ==> p < |c|
  {
    set p: nat | p < |c| && Recent(c, p)
  }

  predicate Recent(c: Chain, p: nat)
    requires p < |c|
  {
    forall k :: p <= k < |c| ==> c[k].nTime >= Aligned(c[|c|-1].nTime) - Sections(64)
  }

  /** The draws: round `r` picks from the candidates the earlier rounds left. */
  ghost predicate Draws(H: SelectionHash, c: Chain, nModifierPrev: nat, picks: seq<nat>)
    requires c != [] && |picks| <= 64
  {
    forall r :: 0 <= r < |picks| ==>
      IsPick(H, c, Candidates(c) - Drawn(picks[..r]), Stop(c[|c|-1].nTime, r), nModifierPrev, picks[r])
  }

  function Drawn(picks: seq<nat>): set<nat> { set p | p in picks }

  function Min(a: int, b: int): int { if a < b then a else b }

  function Pow2(k: nat): (p: nat)
    ensures p >= 1
  {
    if k == 0 then 1 else 2 * Pow2(k - 1)
  }

  /** The number whose bit `r` is `bits[r]`. */
  function Value(bits: seq<bool>): nat {
    if bits == [] then 0 else (if bits[0] then 1 else 0) + 2 * Value(bits[1..])
  }

  lemma {:induction false} ValueSnoc(bits: seq<bool>, b: bool)
    ensures Value(bits + [b]) == Value(bits) + (if b then Pow2(|bits|) else 0)
    ensures Value(bits) < Pow2(|bits|)
  {
    if bits == [] {
      assert bits + [b] == [b];
      assert Value([b]) == (if b then 1 else 0) + 2 * Value([]);
    } else {
      assert (bits + [b])[1..] == bits[1..] + [b];
      ValueSnoc(bits[1..], b);
    }
  }

  /** Bit `r` of a number. */
  predicate Bit(v: nat, r: nat) { if r == 0 then v % 2 == 1 else Bit(v / 2, r - 1) }

  lemma {:induction false} BitOfValue(bits: seq<bool>, r: nat)
    requires r < |bits|
    ensures Bit(Value(bits), r) == bits[r]
  {
    if r > 0 {
      assert Value(bits) / 2 == Value(bits[1..]);
      BitOfValue(bits[1..], r - 1);
    }
  }

  function Entropy(c: Chain, picks: seq<nat>): seq<bool>
    requires forall r :: 0 <= r < |picks| ==> picks[r] < |c|
  {
    seq(|picks|, r requires 0 <= r < |picks| => c[picks[r]].fEntropyBit)
  }

  /** The modifier a block gets on top of `c`, and whether it generates it. */
  ghost predicate NextModifier(H: SelectionHash, c: Chain, nStakeModifier: nat, fGenerated: bool) {
    if c == [] then nStakeModifier == 0 && fGenerated
    else
      var g := LastGenerator(c);
      if c[g].nTime / MODIFIER_INTERVAL >= c[|c|-1].nTime / MODIFIER_INTERVAL then
        nStakeModifier == c[g].nStakeModifier && !fGenerated
      else
        fGenerated && exists picks :: FullDraw(H, c, picks) && nStakeModifier == Value(Entropy(c, picks))
  }

  /** As many rounds as there are candidates, but no more than 64. */
  ghost predicate FullDraw(H: SelectionHash, c: Chain, picks: seq<nat>)
    requires c != []
  {
    && |picks| == Min(64, |Candidates(c)|)
    && Draws(H, c, c[LastGenerator(c)].nStakeModifier, picks)
    && forall r :: 0 <= r < |picks| ==> picks[r] < |c|
  }

  // ----- sorting the candidates -------------------------------------------------------------------------

  /** Insert a block into a sorted list. */
  method InsertSorted(c: Chain, s: seq<nat>, p: nat) returns (t: seq<nat>)
    requires DistinctHashes(c) && Sorted(c, s) && p < |c| && p !in s
    ensures Sorted(c, t) && |t| == |s| + 1 && forall q :: q in t <==> q in s || q == p
  {
    var at := 0;
    while at < |s| && Before(c, s[at], p)
      invariant 0 <= at <= |s| && forall i :: 0 <= i < at ==> Before(c, s[i], p)
    {
      at := at + 1;
    }
    t := s[..at] + [p] + s[at..];
    forall i | at <= i < |s| ensures Before(c, p, s[i]) {
      assert c[s[at]].hash != c[p].hash;
      if i > at { assert Before(c, s[at], s[i]); }
    }
    Inserted(c, s, p, at);
  }

  lemma Inserted(c: Chain, s: seq<nat>, p: nat, at: nat)
    requires Sorted(c, s) && p < |c| && at <= |s|
    requires forall i :: 0 <= i < at ==> Before(c, s[i], p)
    requires forall i :: at <= i < |s| ==> Before(c, p, s[i])
    ensures Sorted(c, s[..at] + [p] + s[at..]) && forall q :: q in s[..at] + [p] + s[at..] <==> q in s || q == p
  {
    hide Before;
    var t := s[..at] + [p] + s[at..];
    forall i | 0 <= i < |s| ensures t[if i < at then i else i + 1] == s[i] {}
    forall i, j | 0 <= i < j < |t| ensures Before(c, t[i], t[j]) {
      if i != at && j != at { assert Before(c, s[if i < at then i else i - 1], s[if j < at then j else j - 1]); }
    }
  }

  /** The blocks back to the first that is too old, in order of time and hash. */
  method SortedCandidates(c: Chain) returns (s: seq<nat>)
    requires c != [] && DistinctHashes(c)
    ensures Sorted(c, s) && forall p :: p in s <==> p in Candidates(c)
    ensures |s| == |Candidates(c)|
  {
    hide Section, Sections, Aligned;
    var nSelectionInterval := GetStakeModifierSelectionInterval();
    var nSelectionIntervalStart := Aligned(c[|c|-1].nTime) - nSelectionInterval;
    s := [];
    var pindex := |c| - 1;
    while pindex >= 0 && c[pindex].nTime >= nSelectionIntervalStart
      invariant -1 <= pindex < |c| && Sorted(c, s)
      invariant forall k :: pindex < k < |c| ==> c[k].nTime >= nSelectionIntervalStart
      invariant forall p :: p in s <==> pindex < p < |c|
      decreases pindex
    {
      s := InsertSorted(c, s, pindex);
      pindex := pindex - 1;
    }
    forall p ensures p in s <==> p in Candidates(c) {
      if pindex >= 0 && 0 <= p <= pindex { assert !Recent(c, p); }
    }
    SortedSize(c, s, Candidates(c));
  }

  lemma SortedSize(c: Chain, s: seq<nat>, ids: set<nat>)
    requires Sorted(c, s) && forall p :: p in s <==> p in ids
    ensures |s| == |ids|
    decreases |s|
  {
    if s != [] {
      var last, front := s[|s|-1], s[..|s|-1];
      forall p ensures p in front <==> p in ids - {last} {
        if p in front {
          var i :| 0 <= i < |front| && front[i] == p;
          assert Before(c, s[i], s[|s|-1]);
        }
      }
      SortedSize(c, front, ids - {last});
    } else {
      assert ids == {};
    }
  }

  // ----- the computation ----------------------------------------------------------------------------------

  /** The modifier for the block after `c`. It never fails when genesis generated its modifier, and
      draws min(64, n) different blocks. */
  method ComputeNextStakeModifier(H: SelectionHash, c: Chain)
    returns (ok: bool, nStakeModifier: nat, fGeneratedStakeModifier: bool)
    requires DistinctHashes(c)
    ensures ok <==> c == [] || c[LastGenerator(c)].fGenerated
    ensures ok ==> NextModifier(H, c, nStakeModifier, fGeneratedStakeModifier)
  {
    if c == [] { return true, 0, true; }
    var nModifierTime;
    ok, nStakeModifier, nModifierTime := GetLastStakeModifier(c);
    if !ok { return false, 0, false; }
    if nModifierTime / MODIFIER_INTERVAL >= c[|c|-1].nTime / MODIFIER_INTERVAL {
      return true, nStakeModifier, false;
    }
    var vSortedByTimestamp := SortedCandidates(c);
    var nStakeModifierNew;
    nStakeModifierNew := DrawAll(H, c, vSortedByTimestamp, nStakeModifier);
    return true, nStakeModifierNew, true;
  }

  lemma LeftOver(s: seq<nat>, ids: set<nat>, picks: seq<nat>)
    requires (forall p :: p in s <==> p in ids) && |picks| < |ids|
    ensures exists p :: p in s && p !in Drawn(picks)
    ensures Unselected(s, Drawn(picks)) == ids - Drawn(picks)
  {
    DrawnSize(picks);
    if forall p :: p in s ==> p in Drawn(picks) {
      assert ids <= Drawn(picks);
      SubsetSize(ids, Drawn(picks));
    }
  }

  lemma SubsetSize(a: set<nat>, b: set<nat>)
    requires a <= b
    ensures |a| <= |b|
  {
    assert b == a + (b - a);
  }

  lemma {:induction false} DrawnSize(picks: seq<nat>)
    ensures |Drawn(picks)| <= |picks|
    decreases |picks|
  {
    if picks == [] {
      assert Drawn(picks) == {};
    } else {
      var front := picks[..|picks|-1];
      DrawnSize(front);
      assert Drawn(picks) == Drawn(front) + {picks[|picks|-1]};
    }
  }

  /** The rounds. In each one the bit of the drawn block is put at the round's place, which is still 0,
      so that or-ing it in is adding it. */
  method DrawAll(H: SelectionHash, c: Chain, vSortedByTimestamp: seq<nat>, nStakeModifier: nat) returns (nStakeModifierNew: nat)
    requires c != [] && nStakeModifier == c[LastGenerator(c)].nStakeModifier
    requires Sorted(c, vSortedByTimestamp) && (forall p :: p in vSortedByTimestamp <==> p in Candidates(c))
    requires |vSortedByTimestamp| == |Candidates(c)|
    ensures exists picks :: FullDraw(H, c, picks) && nStakeModifierNew == Value(Entropy(c, picks))
  {
    hide IsPick, Candidates, LastGenerator, Draws, Entropy, Drawn, Sorted, Section, Sections, Aligned, Value, Pow2;
    nStakeModifierNew := 0;
    SectionsNext(0);
    var nSelectionInterval := GetStakeModifierSelectionInterval();
    var nSelectionIntervalStop := Aligned(c[|c|-1].nTime) - nSelectionInterval;
    var mapSelectedBlocks: set<nat> := {};
    ghost var picks: seq<nat> := [];
    NoDraws(H, c, nStakeModifier);
    for nRound := 0 to Min(64, |vSortedByTimestamp|)
      invariant |picks| == nRound && mapSelectedBlocks == Drawn(picks)
      invariant nSelectionIntervalStop == Aligned(c[|c|-1].nTime) - Sections(64) + Sections(nRound)
      invariant forall r :: 0 <= r < |picks| ==> picks[r] < |c|
      invariant Draws(H, c, nStakeModifier, picks)
      invariant nStakeModifierNew == Value(Entropy(c, picks))
    {
      nSelectionIntervalStop := nSelectionIntervalStop + Section(nRound);
      SectionsNext(nRound);
      var fSelected, pindex := SelectBlockFromCandidates(H, c, vSortedByTimestamp, mapSelectedBlocks, nSelectionIntervalStop, nStakeModifier);
      LeftOver(vSortedByTimestamp, Candidates(c), picks);
      DrawsNext(H, c, nStakeModifier, picks, pindex);
      EntropyNext(c, picks, pindex);
      nStakeModifierNew := nStakeModifierNew + if c[pindex].fEntropyBit then Pow2(nRound) else 0;
      mapSelectedBlocks := mapSelectedBlocks + {pindex};
      picks := picks + [pindex];
    }
    assert FullDraw(H, c, picks);
  }

  lemma NoDraws(H: SelectionHash, c: Chain, prev: nat)
    requires c != []
    ensures Draws(H, c, prev, []) && Drawn([]) == {} && Value(Entropy(c, [])) == 0
  {
  }

  /** One more draw. */
  lemma DrawsNext(H: SelectionHash, c: Chain, prev: nat, picks: seq<nat>, p: nat)
    requires c != [] && |picks| < 64 && Draws(H, c, prev, picks)
    requires IsPick(H, c, Candidates(c) - Drawn(picks), Stop(c[|c|-1].nTime, |picks|), prev, p)
    ensures p < |c| && Draws(H, c, prev, picks + [p])
  {
    PickLeft(H, c, Candidates(c) - Drawn(picks), Stop(c[|c|-1].nTime, |picks|), prev, p);
    hide IsPick, Candidates, Stop, Drawn;
    var picks' := picks + [p];
    forall r | 0 <= r < |picks'|
      ensures IsPick(H, c, Candidates(c) - Drawn(picks'[..r]), Stop(c[|c|-1].nTime, r), prev, picks'[r])
    {
      assert picks'[..r] == picks[..r];
      if r == |picks| { assert picks[..r] == picks; }
    }
  }

  lemma EntropyNext(c: Chain, picks: seq<nat>, p: nat)
    requires p < |c| && forall r :: 0 <= r < |picks| ==> picks[r] < |c|
    ensures Drawn(picks + [p]) == Drawn(picks) + {p}
    ensures Value(Entropy(c, picks + [p])) == Value(Entropy(c, picks)) + (if c[p].fEntropyBit then Pow2(|picks|) else 0)
  {
    hide Value, Pow2;
    ValueSnoc(Entropy(c, picks), c[p].fEntropyBit);
    assert Entropy(c, picks + [p]) == Entropy(c, picks) + [c[p].fEntropyBit];
  }

  lemma PickLeft(H: SelectionHash, c: Chain, left: set<nat>, stop: int, prev: nat, p: nat)
    requires (forall q :: q in left ==> q < |c|) && IsPick(H, c, left, stop, prev, p)
    ensures p in left
  {
  }

  // ----- what holds of the result ---------------------------------------------------------------------------

  /** No block is drawn twice, and all drawn blocks are candidates. */
  lemma DrawsDistinct(H: SelectionHash, c: Chain, prev: nat, picks: seq<nat>)
    requires c != [] && |picks| <= 64 && Draws(H, c, prev, picks)
    ensures forall r :: 0 <= r < |picks| ==> picks[r] in Candidates(c)
    ensures forall r, t :: 0 <= r < t < |picks| ==> picks[r] != picks[t]
  {
    hide Candidates;
    forall t | 0 <= t < |picks| ensures picks[t] in Candidates(c) - Drawn(picks[..t]) {
      PickLeft(H, c, Candidates(c) - Drawn(picks[..t]), Stop(c[|c|-1].nTime, t), prev, picks[t]);
    }
    forall r, t | 0 <= r < t < |picks| ensures picks[r] != picks[t] {
      assert picks[..t][r] == picks[r];
    }
  }

  /** The draw is determined by the chain. */
  lemma {:induction false} DrawsUnique(H: SelectionHash, c: Chain, prev: nat, a: seq<nat>, b: seq<nat>, n: nat)
    requires c != [] && n <= |a| == |b| <= 64 && Draws(H, c, prev, a) && Draws(H, c, prev, b)
    ensures a[..n] == b[..n]
    decreases n
  {
    hide IsPick, Candidates, Stop, Drawn, Draws;
    if n > 0 {
      DrawsUnique(H, c, prev, a, b, n - 1);
      DrawAt(H, c, prev, a, n - 1);
      DrawAt(H, c, prev, b, n - 1);
      PickUnique(H, c, Candidates(c) - Drawn(a[..n - 1]), Stop(c[|c|-1].nTime, n - 1), prev, a[n - 1], b[n - 1]);
      assert a[..n] == a[..n - 1] + [a[n - 1]] && b[..n] == b[..n - 1] + [b[n - 1]];
    }
  }

  lemma DrawAt(H: SelectionHash, c: Chain, prev: nat, picks: seq<nat>, r: nat)
    requires c != [] && r < |picks| <= 64 && Draws(H, c, prev, picks)
    ensures IsPick(H, c, Candidates(c) - Drawn(picks[..r]), Stop(c[|c|-1].nTime, r), prev, picks[r])
  {
  }

  /** All nodes compute the same modifier for the block after a chain. */
  lemma NextModifierUnique(H: SelectionHash, c: Chain, m: nat, g: bool, m': nat, g': bool)
    requires NextModifier(H, c, m, g) && NextModifier(H, c, m', g')
    ensures m == m' && g == g'
  {
    hide Draws, Candidates;
    if c != [] && c[LastGenerator(c)].nTime / MODIFIER_INTERVAL < c[|c|-1].nTime / MODIFIER_INTERVAL {
      var a :| FullDraw(H, c, a) && m == Value(Entropy(c, a));
      var b :| FullDraw(H, c, b) && m' == Value(Entropy(c, b));
      DrawsUnique(H, c, c[LastGenerator(c)].nStakeModifier, a, b, |a|);
      assert a == a[..|a|] && b == b[..|b|];
    }
  }

  /** A generated modifier: min(64, n) different candidates, bit `r` the entropy bit of the block drawn
      in round `r`. */
  lemma GeneratedBits(H: SelectionHash, c: Chain, m: nat) returns (picks: seq<nat>)
    requires c != [] && NextModifier(H, c, m, true)
    ensures FullDraw(H, c, picks) && |picks| == Min(64, |Candidates(c)|)
    ensures forall r, t :: 0 <= r < t < |picks| ==> picks[r] != picks[t]
    ensures forall r :: 0 <= r < |picks| ==> Bit(m, r) == c[picks[r]].fEntropyBit
    ensures m < Pow2(|picks|)
  {
    hide Draws, Candidates, IsPick;
    picks :| FullDraw(H, c, picks) && m == Value(Entropy(c, picks));
    DrawsDistinct(H, c, c[LastGenerator(c)].nStakeModifier, picks);
    forall r | 0 <= r < |picks| ensures Bit(m, r) == c[picks[r]].fEntropyBit {
      BitOfValue(Entropy(c, picks), r);
    }
    ValueSnoc(Entropy(c, picks), false);
  }

  // ----- whole chains -----------------------------------------------------------------------------------------

  /** Every block was indexed with the modifier computed for it. */
  ghost predicate WellMade(H: SelectionHash, c: Chain) {
    forall h :: 0 <= h < |c| ==> NextModifier(H, c[..h], c[h].nStakeModifier, c[h].fGenerated)
  }

  /** AddToBlockIndex, as far as the modifier goes: it never fails on a well-made chain. */
  method IndexBlock(H: SelectionHash, c: Chain, b: BlockIndex) returns (ok: bool, c': Chain)
    requires WellMade(H, c) && DistinctHashes(c)
    ensures ok && WellMade(H, c') && |c'| == |c| + 1 && c'[..|c|] == c
    ensures c'[|c|] == b.(nStakeModifier := c'[|c|].nStakeModifier, fGenerated := c'[|c|].fGenerated)
  {
    hide NextModifier;
    var nStakeModifier, fGenerated;
    if c != [] {
      GeneratorGenerated(H, c, |c| - 1);
      assert c[..|c|] == c;
    }
    ok, nStakeModifier, fGenerated := ComputeNextStakeModifier(H, c);
    c' := c + [b.(nStakeModifier := nStakeModifier, fGenerated := fGenerated)];
    forall h | 0 <= h < |c'| ensures NextModifier(H, c'[..h], c'[h].nStakeModifier, c'[h].fGenerated) {
      assert c'[..h] == c[..h];
      if h == |c| { assert c[..h] == c; }
    }
  }

  lemma {:induction false} GeneratorGenerated(H: SelectionHash, c: Chain, h: nat)
    requires WellMade(H, c) && h < |c|
    ensures c[..h + 1][LastGenerator(c[..h + 1])].fGenerated
    decreases h
  {
    var t := c[..h + 1];
    assert t[..h] == c[..h];
    if h == 0 {
      MadeAt(H, c, 0);
      assert c[..0] == [];
    } else {
      GeneratorGenerated(H, c, h - 1);
      assert c[..h - 1 + 1] == c[..h];
    }
  }

  /** Every block carries the modifier of the nearest block, itself or before it, that generated one. */
  lemma NearestGenerator(H: SelectionHash, c: Chain, h: nat)
    requires WellMade(H, c) && h < |c|
    ensures var g := LastGenerator(c[..h + 1]);
      g <= h && c[h].nStakeModifier == c[g].nStakeModifier && c[g].fGenerated && forall k :: g < k <= h ==> !c[k].fGenerated
  {
    hide FullDraw, Entropy, WellMade;
    GeneratorGenerated(H, c, h);
    MadeAt(H, c, h);
    var t := c[..h + 1];
    assert t[..h] == c[..h] && t[h] == c[h];
    LastIsLast(t);
    var g := LastGenerator(t);
    assert t[g] == c[g];
    forall k | g < k <= h ensures !c[k].fGenerated { assert t[k] == c[k]; }
  }

  lemma {:induction false} LastIsLast(c: Chain)
    requires c != []
    ensures forall k :: LastGenerator(c) < k < |c| ==> !c[k].fGenerated
    decreases |c|
  {
    if |c| > 1 { LastIsLast(c[..|c|-1]); }
  }

  /** Equal but for the modifier. */
  predicate SameBlock(a: BlockIndex, b: BlockIndex) {
    a == b.(nStakeModifier := a.nStakeModifier, fGenerated := a.fGenerated)
  }

  lemma SameAll(a: BlockIndex, b: BlockIndex)
    requires SameBlock(a, b) && a.nStakeModifier == b.nStakeModifier && a.fGenerated == b.fGenerated
    ensures a == b
  {
  }

  /** Two nodes that index the same blocks hold the same modifiers. */
  lemma {:induction false} SameBlocksSameModifiers(H: SelectionHash, a: Chain, b: Chain, n: nat)
    requires WellMade(H, a) && WellMade(H, b) && n <= |a| == |b|
    requires forall h :: 0 <= h < |a| ==> SameBlock(a[h], b[h])
    ensures a[..n] == b[..n]
    decreases n
  {
    hide NextModifier, WellMade, SameBlock;
    if n > 0 {
      SameBlocksSameModifiers(H, a, b, n - 1);
      MadeAt(H, a, n - 1);
      MadeAt(H, b, n - 1);
      var x, y := a[n - 1], b[n - 1];
      NextModifierUnique(H, a[..n - 1], x.nStakeModifier, x.fGenerated, y.nStakeModifier, y.fGenerated);
      SameAll(x, y);
      assert a[..n] == a[..n - 1] + [x] && b[..n] == b[..n - 1] + [y];
    }
  }

  lemma MadeAt(H: SelectionHash, c: Chain, h: nat)
    requires WellMade(H, c) && h < |c|
    ensures NextModifier(H, c[..h], c[h].nStakeModifier, c[h].fGenerated)
  {
  }

  // ----- the intervals of the rounds ---------------------------------------------------------------------------

  /** Rounds look further and further, the last one to the start of the tip's interval; the last
      section is three times the first. */
  lemma StopsAdvance(tipTime: nat, r: nat, t: nat)
    requires r < t < 64
    ensures Stop(tipTime, r) < Stop(tipTime, t) <= Stop(tipTime, 63) == Aligned(tipTime)
    ensures Section(63) == MODIFIER_INTERVAL_RATIO * Section(0) == MODIFIER_INTERVAL
    ensures Stop(tipTime, 63) % 21600 == 0 && Stop(tipTime, 63) <= tipTime < Stop(tipTime, 63) + 21600
  {
    AlignedTo(tipTime);
    SectionEnds();
    hide Section, Aligned;
    SectionsGrow(r + 1, t + 1);
    SectionsGrow(t + 1, 64);
  }

  lemma AlignedTo(t: nat)
    ensures Aligned(t) % MODIFIER_INTERVAL == 0 && Aligned(t) <= t < Aligned(t) + MODIFIER_INTERVAL
  {
  }

  lemma SectionEnds()
    ensures Section(63) == MODIFIER_INTERVAL_RATIO * Section(0) == MODIFIER_INTERVAL
  {
  }

  lemma SectionPositive(k: nat)
    requires k < 64
    ensures Section(k) >= 1
  {
    QuotientPositive(MODIFIER_INTERVAL * 63, 63 + (63 - k) * (MODIFIER_INTERVAL_RATIO - 1));
  }

  lemma QuotientPositive(a: nat, d: nat)
    requires 0 < d <= a
    ensures a / d >= 1
  {
    assert a == d * (a / d) + a % d;
  }

  lemma {:induction false} SectionsGrow(j: nat, k: nat)
    requires j <= k <= 64
    ensures Sections(j) <= Sections(k) && (j < k ==> Sections(j) < Sections(k))
    decreases k - j
  {
    hide Section;
    if j < k {
      SectionsGrow(j, k - 1);
      SectionPositive(k - 1);
    }
  }

  // ----- the modifier a kernel uses -----------------------------------------------------------------------------

  /** The block whose modifier a coin from block `from` uses: the first generating block after it at
      least a selection interval later. */
  predicate KernelBlock(c: Chain, from: nat, h: nat)
    requires from < |c|
  {
    && from < h < |c| && c[h].fGenerated && c[h].nTime >= c[from].nTime + Sections(64)
    && forall k :: from < k < h && c[k].fGenerated ==> c[k].nTime < c[from].nTime + Sections(64)
  }

  method GetKernelStakeModifier(c: Chain, from: nat)
    returns (ok: bool, nStakeModifier: nat, nStakeModifierHeight: nat, nStakeModifierTime: nat)
    requires from < |c|
    ensures ok <==> exists h :: KernelBlock(c, from, h)
    ensures ok ==>
      && KernelBlock(c, from, nStakeModifierHeight)
      && nStakeModifier == c[nStakeModifierHeight].nStakeModifier && nStakeModifierTime == c[nStakeModifierHeight].nTime
  {
    hide Section, Sections;
    nStakeModifierHeight, nStakeModifierTime := from, c[from].nTime;
    var nSelectionInterval := GetStakeModifierSelectionInterval();
    SectionsGrow(0, 64);
    var pindex := from;
    while nStakeModifierTime < c[from].nTime + nSelectionInterval
      invariant from <= nStakeModifierHeight <= pindex < |c| && nStakeModifierTime == c[nStakeModifierHeight].nTime
      invariant nStakeModifierHeight == from || c[nStakeModifierHeight].fGenerated
      invariant forall k :: from < k <= pindex && c[k].fGenerated && c[k].nTime >= c[from].nTime + nSelectionInterval ==>
        k == pindex == nStakeModifierHeight
      invariant nStakeModifierTime >= c[from].nTime + nSelectionInterval ==> nStakeModifierHeight == pindex > from
      decreases |c| - pindex
    {
      if pindex == |c| - 1 { return false, 0, nStakeModifierHeight, nStakeModifierTime; }
      pindex := pindex + 1;
      if c[pindex].fGenerated {
        nStakeModifierHeight, nStakeModifierTime := pindex, c[pindex].nTime;
      }
    }
    nStakeModifier := c[pindex].nStakeModifier;
    assert KernelBlock(c, from, nStakeModifierHeight);
    ok := true;
  }
}
