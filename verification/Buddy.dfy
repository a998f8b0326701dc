/** The buddy allocator of buddy.c: blocks of 2^k pages, k up to 18, over a set of regions.

Addresses are counted in pages.  `states` holds the state byte of every page of every region and
`lists` the free lists, newest block first.  The invariant speaks of a hole [a, b): pages that
belong to no block while a block is being split, merged or first handed over. */
module Buddy {
  import opened Common
  import opened Arithmetic

  const MAX_ORDER: nat := 18
  const MAX_REGIONS: nat := 64

  // ----- Aligned runs -----

  function Pow(k: nat): (r: nat)
    ensures r > 0
  {
    if k == 0 then 1 else 2 * Pow(k - 1)
  }

  /** `p` is a multiple of 2^k, see AlignedIsMultiple. */
  predicate Aligned(p: nat, k: nat) {
    k == 0 || (p % 2 == 0 && Aligned(p / 2, k - 1))
  }

  lemma {:induction false} AlignedIsMultiple(p: nat, k: nat)
    ensures Aligned(p, k) <==> p % Pow(k) == 0
    decreases k
  {
    if k > 0 {
      AlignedIsMultiple(p / 2, k - 1);
      var w := Pow(k - 1);
      HalfMod(p, w);
    }
  }

  lemma HalfMod(p: nat, w: nat)
    requires w > 0
    ensures p % (2 * w) == 0 <==> p % 2 == 0 && p / 2 % w == 0
  {
    var q, r := p / 2 / w, p / 2 % w;
    assert p / 2 == q * w + r;
    var e := 2 * r + p % 2;
    assert p == q * (2 * w) + e && 0 <= e < 2 * w;
    DivIs(p, 2 * w, q);
  }

  /** An aligned run that starts inside a larger aligned block lies inside it. */
  lemma {:induction false} Nested(p: nat, j: nat, a: nat, k: nat)
    requires k <= j && Aligned(p, j) && Aligned(a, k) && p <= a < p + Pow(j)
    ensures a + Pow(k) <= p + Pow(j)
    decreases k
  {
    if k > 0 { Nested(p / 2, j - 1, a / 2, k - 1); }
  }

  /** A block starts no later than the aligned run it overlaps, when it is the larger one. */
  lemma {:induction false} NestedBelow(p: nat, j: nat, a: nat, k: nat)
    requires k <= j && Aligned(p, j) && Aligned(a, k) && a < p + Pow(j) && p < a + Pow(k)
    ensures p <= a
    decreases k
  {
    if k > 0 { NestedBelow(p / 2, j - 1, a / 2, k - 1); }
  }

  lemma {:induction false} AlignedLess(p: nat, j: nat, k: nat)
    requires Aligned(p, j) && k <= j
    ensures Aligned(p, k)
    decreases k
  {
    if k > 0 { AlignedLess(p / 2, j - 1, k - 1); }
  }

  lemma {:induction false} RightHalf(p: nat, k: nat)
    requires Aligned(p, k + 1)
    ensures Aligned(p, k) && Aligned(p + Pow(k), k) && !Aligned(p + Pow(k), k + 1) && Pow(k + 1) == 2 * Pow(k)
    decreases k
  {
    if k > 0 { RightHalf(p / 2, k - 1); }
  }

  lemma {:induction false} LeftHalf(p: nat, k: nat)
    requires Aligned(p, k) && !Aligned(p, k + 1)
    ensures p >= Pow(k) && Aligned(p - Pow(k), k + 1)
    decreases k
  {
    if k > 0 { LeftHalf(p / 2, k - 1); }
  }

  /** Bit k of a page number. */
  predicate BitClear(p: nat, k: nat) {
    if k == 0 then p % 2 == 0 else BitClear(p / 2, k - 1)
  }

  lemma {:induction false} BitIsAlignment(p: nat, k: nat)
    requires Aligned(p, k)
    ensures BitClear(p, k) <==> Aligned(p, k + 1)
    decreases k
  {
    if k > 0 { BitIsAlignment(p / 2, k - 1); }
  }

  lemma {:induction false} BitSetLarge(p: nat, k: nat)
    requires !BitClear(p, k)
    ensures p >= Pow(k)
    decreases k
  {
    if k > 0 { BitSetLarge(p / 2, k - 1); }
  }

  /** `p` with bit k flipped: the block that merges with the block of order k at `p`. */
  function Other(p: nat, k: nat): nat {
    if BitClear(p, k) then p + Pow(k) else BitSetLarge(p, k); p - Pow(k)
  }

  lemma OtherOther(p: nat, k: nat)
    requires Aligned(p, k)
    ensures Aligned(Other(p, k), k) && Other(Other(p, k), k) == p
    ensures var l := if Other(p, k) < p then Other(p, k) else p;
      Aligned(l, k + 1) && (p == l || p == l + Pow(k)) && (Other(p, k) == l || Other(p, k) == l + Pow(k)) && Other(p, k) != p
  {
    BitIsAlignment(p, k);
    if Aligned(p, k + 1) {
      RightHalf(p, k);
      BitIsAlignment(p + Pow(k), k);
    } else {
      LeftHalf(p, k);
      RightHalf(p - Pow(k), k);
      BitIsAlignment(p - Pow(k), k);
    }
  }

  // ----- The state -----

  /** BUDDY_STATE_UNUSED, or a free or allocated block of an order starting here. */
  datatype Status = Unused | Block(free: bool, order: nat)

  datatype Region = Region(start: nat, end: nat, lo: nat)

  datatype State = State(regions: seq<Region>, states: map<nat, Status>, lists: seq<seq<nat>>, counts: seq<nat>, freePages: nat)

  predicate Head(s: State, p: nat) {
    p in s.states && s.states[p].Block?
  }

  predicate Is(s: State, p: nat, free: bool, k: nat) {
    p in s.states && s.states[p] == Block(free, k)
  }

  /** Page `x` belongs to the block at `p`. */
  predicate In(s: State, p: nat, x: nat) {
    Head(s, p) && p <= x < p + Pow(s.states[p].order)
  }

  ghost predicate FreePage(s: State, x: nat) {
    exists p :: In(s, p, x) && s.states[p].free
  }

  /** buddy_find_region: the first region from `i` on that contains page `x`, or |regions|. */
  function FindRegion(regions: seq<Region>, x: nat, i: nat): (r: nat)
    requires i <= |regions|
    ensures i <= r <= |regions|
    ensures r < |regions| ==> regions[r].start <= x < regions[r].end
    decreases |regions| - i
  {
    if i == |regions| || regions[i].start <= x < regions[i].end then i else FindRegion(regions, x, i + 1)
  }

  /** buddy_block_fits. */
  predicate Fits(r: Region, p: nat, k: nat) {
    k <= MAX_ORDER && r.lo <= p && Aligned(p, k) && p + Pow(k) <= r.end
  }

  predicate FitsRegion(s: State, p: nat, k: nat) {
    var i := FindRegion(s.regions, p, 0);
    i < |s.regions| && Fits(s.regions[i], p, k)
  }

  /** buddy_contains, for a page. */
  predicate Allocatable(s: State, x: nat) {
    var i := FindRegion(s.regions, x, 0);
    i < |s.regions| && s.regions[i].lo <= x
  }

  ghost predicate Covered(s: State, x: nat) {
    exists p: nat :: In(s, p, x)
  }

  /** Both pages lie in the same region. */
  predicate Together(s: State, x: nat, y: nat) {
    FindRegion(s.regions, x, 0) == FindRegion(s.regions, y, 0)
  }

  ghost predicate Regions(s: State) {
    && (forall i | 0 <= i < |s.regions| :: s.regions[i].start <= s.regions[i].lo <= s.regions[i].end && s.regions[i].start < s.regions[i].end)
    && (forall i, j | 0 <= i < j < |s.regions| :: s.regions[i].end <= s.regions[j].start || s.regions[j].end <= s.regions[i].start)
    && (forall i, x | 0 <= i < |s.regions| && s.regions[i].start <= x < s.regions[i].end :: x in s.states)
  }

  lemma {:induction false} RegionFound(regions: seq<Region>, x: nat, i: nat, j: nat)
    requires i <= j < |regions| && regions[j].start <= x < regions[j].end
    requires forall i, j | 0 <= i < j < |regions| :: regions[i].end <= regions[j].start || regions[j].end <= regions[i].start
    ensures FindRegion(regions, x, i) == j
    decreases j - i
  {
    if i < j { RegionFound(regions, x, i + 1, j); }
  }

  /** It is the first one, and there is none exactly when no region contains the page. */
  lemma {:induction false} RegionFirst(regions: seq<Region>, x: nat, i: nat)
    requires i <= |regions|
    ensures forall j | i <= j < FindRegion(regions, x, i) :: !(regions[j].start <= x < regions[j].end)
    ensures FindRegion(regions, x, i) == |regions| <==> forall j | i <= j < |regions| :: !(regions[j].start <= x < regions[j].end)
    decreases |regions| - i
  {
    if i < |regions| && !(regions[i].start <= x < regions[i].end) { RegionFirst(regions, x, i + 1); }
  }

  ghost predicate Placed(s: State) {
    forall p | Head(s, p) :: FitsRegion(s, p, s.states[p].order)
  }

  ghost predicate Disjoint(s: State) {
    forall p: nat, q: nat | Head(s, p) && Head(s, q) && p < q :: p + Pow(s.states[p].order) <= q
  }

  ghost predicate Outside(s: State, a: nat, b: nat) {
    forall p: nat | Head(s, p) :: p + Pow(s.states[p].order) <= a || b <= p
  }

  ghost predicate Cover(s: State, a: nat, b: nat) {
    forall x: nat | Allocatable(s, x) && !(a <= x < b) :: Covered(s, x)
  }

  /** Aligned blocks, pairwise disjoint, cover every allocatable page outside the hole [a, b). */
  ghost predicate Partition(s: State, a: nat, b: nat) {
    Placed(s) && Disjoint(s) && Outside(s, a, b) && Cover(s, a, b)
  }

  /** The free list of each order holds exactly the free blocks of that order, once each. */
  ghost predicate Lists(s: State) {
    && |s.lists| == |s.counts| == MAX_ORDER + 1
    && (forall k | 0 <= k <= MAX_ORDER :: NoDup(s.lists[k]) && s.counts[k] == |s.lists[k]|)
    && (forall k, p | 0 <= k <= MAX_ORDER :: p in s.lists[k] <==> Is(s, p, true, k))
  }

  /** Two free halves of a larger block that lies in one region. */
  predicate Mates(s: State, p: nat, k: nat) {
    k < MAX_ORDER && Aligned(p, k) && Is(s, p, true, k) && Is(s, Other(p, k), true, k) && Together(s, p, Other(p, k))
  }

  /** Nothing is left to merge. */
  ghost predicate Merged(s: State) {
    forall p, k :: !Mates(s, p, k)
  }

  /** The number of pages on the free lists below order `k`. */
  function Pages(lists: seq<seq<nat>>, k: nat): nat
    requires k <= |lists|
  {
    if k == 0 then 0 else Pages(lists, k - 1) + |lists[k - 1]| * Pow(k - 1)
  }

  ghost predicate Whole(s: State, a: nat, b: nat) {
    Regions(s) && Partition(s, a, b) && Lists(s) && Merged(s)
  }

  ghost predicate Valid(s: State) {
    Whole(s, 0, 0) && s.freePages == Pages(s.lists, |s.lists|)
  }

  // ----- Completeness -----

  /** The aligned run of order `k` at `a` lies in one region and is free. */
  ghost predicate FreeRun(s: State, a: nat, k: nat) {
    FitsRegion(s, a, k) && forall x | a <= x < a + Pow(k) :: FreePage(s, x)
  }

  /** The free block at `p` contains the aligned run of order `k` at `a`. */
  predicate Holds(s: State, p: nat, a: nat, k: nat) {
    Head(s, p) && s.states[p].free && s.states[p].order >= k && p <= a && a + Pow(k) <= p + Pow(s.states[p].order)
  }

  lemma SameBlock(s: State, p: nat, q: nat, x: nat)
    requires Disjoint(s) && In(s, p, x) && In(s, q, x)
    ensures p == q
  {}

  /** When both halves lie in free blocks, so does the whole. */
  lemma JoinHalves(s: State, a: nat, k: nat, p: nat, q: nat)
    requires Placed(s) && Disjoint(s) && Merged(s) && k < MAX_ORDER && Aligned(a, k + 1) && Together(s, a, a + Pow(k))
    requires Holds(s, p, a, k) && Holds(s, q, a + Pow(k), k)
    ensures Holds(s, p, a, k + 1)
  {
    var j, i := s.states[p].order, s.states[q].order;
    RightHalf(a, k);
    BitIsAlignment(a, k);
    if j > k {
      Nested(p, j, a, k + 1);
    } else {
      assert p == a;
      if i > k {
        NestedBelow(q, i, a, k + 1);
        SameBlock(s, p, q, a);
      } else {
        assert q == a + Pow(k);
        assert Mates(s, a, k);
      }
    }
  }

  /** Free blocks are as large as they can be: a free aligned run lies inside one free block. */
  lemma {:induction false} RunInBlock(s: State, a: nat, k: nat) returns (p: nat)
    requires Whole(s, 0, 0) && FreeRun(s, a, k)
    ensures Holds(s, p, a, k)
    decreases k
  {
    hide Whole, FreeRun, Holds, Pow;
    if k == 0 {
      p := PageInBlock(s, a);
    } else {
      HalvesTogether(s, a, k);
      p := RunInBlock(s, a, k - 1);
      var q := RunInBlock(s, a + Pow(k - 1), k - 1);
      JoinWhole(s, a, k - 1, p, q);
    }
  }

  lemma PageInBlock(s: State, a: nat) returns (p: nat)
    requires Whole(s, 0, 0) && FreeRun(s, a, 0)
    ensures Holds(s, p, a, 0)
  {
    assert FreePage(s, a);
    p :| In(s, p, a) && s.states[p].free;
  }

  lemma JoinWhole(s: State, a: nat, k: nat, p: nat, q: nat)
    requires Whole(s, 0, 0) && FreeRun(s, a, k + 1) && Together(s, a, a + Pow(k)) && Holds(s, p, a, k) && Holds(s, q, a + Pow(k), k)
    ensures Holds(s, p, a, k + 1)
  {
    hide Regions, Disjoint, Merged, Lists, FreePage, Holds, Together;
    JoinHalves(s, a, k, p, q);
  }

  lemma HalvesTogether(s: State, a: nat, k: nat)
    requires Whole(s, 0, 0) && k > 0 && FreeRun(s, a, k)
    ensures FreeRun(s, a, k - 1) && FreeRun(s, a + Pow(k - 1), k - 1) && Together(s, a, a + Pow(k - 1))
  {
    hide Whole, FreePage, FreeRun, FitsRegion, Together, Regions, Pow;
    RunBounds(s, a, k);
    HalvesFit(s, a, k - 1);
    HalfRuns(s, a, k - 1);
  }

  lemma HalvesFit(s: State, a: nat, k: nat)
    requires Regions(s) && FitsRegion(s, a, k + 1)
    ensures FitsRegion(s, a, k) && FitsRegion(s, a + Pow(k), k) && Together(s, a, a + Pow(k)) && Pow(k + 1) == 2 * Pow(k)
  {
    hide Fits, Regions, Aligned, Pow;
    var i := FindRegion(s.regions, a, 0);
    HalfFits(s.regions[i], a, k);
    FitsFound(s, a, k, i);
    FitsFound(s, a + Pow(k), k, i);
  }

  lemma HalfFits(r: Region, a: nat, k: nat)
    requires Fits(r, a, k + 1)
    ensures Fits(r, a, k) && Fits(r, a + Pow(k), k) && Pow(k + 1) == 2 * Pow(k)
  {
    hide Aligned;
    RightHalf(a, k);
  }

  lemma FitsMeans(s: State, p: nat, k: nat)
    requires FitsRegion(s, p, k)
    ensures k <= MAX_ORDER && Aligned(p, k)
  {
    hide Aligned;
  }

  lemma RunBounds(s: State, a: nat, k: nat)
    requires Whole(s, 0, 0) && FreeRun(s, a, k)
    ensures FitsRegion(s, a, k) && Regions(s)
  {
    hide FitsRegion, Regions, FreePage;
  }

  lemma HalfRuns(s: State, a: nat, k: nat)
    requires FreeRun(s, a, k + 1) && FitsRegion(s, a, k) && FitsRegion(s, a + Pow(k), k) && Pow(k + 1) == 2 * Pow(k)
    ensures FreeRun(s, a, k) && FreeRun(s, a + Pow(k), k)
  {
    hide FitsRegion, FreePage;
  }

  /** A block of sufficient order is free exactly when some aligned run of that order is. */
  lemma Complete(s: State, k: nat)
    requires Whole(s, 0, 0)
    ensures (exists p: nat, j: nat :: j >= k && Is(s, p, true, j)) <==> exists a: nat :: FreeRun(s, a, k)
  {
    if a: nat :| FreeRun(s, a, k) {
      var p := RunInBlock(s, a, k);
      assert Is(s, p, true, s.states[p].order);
    }
    if p: nat, j: nat :| j >= k && Is(s, p, true, j) {
      assert FitsRegion(s, p, j);
      AlignedLess(p, j, k);
      PowMonotone(k, j);
      forall x | p <= x < p + Pow(k) ensures FreePage(s, x) { assert In(s, p, x); }
      assert FreeRun(s, p, k);
    }
  }

  lemma {:induction false} PowMonotone(k: nat, j: nat)
    requires k <= j
    ensures Pow(k) <= Pow(j)
    decreases j
  {
    if k < j { PowMonotone(k, j - 1); }
  }

  /** The set of free pages determines the free blocks. */
  lemma Canonical(s: State, t: State, p: nat, k: nat)
    requires Whole(s, 0, 0) && Whole(t, 0, 0) && s.regions == t.regions
    requires forall x :: FreePage(s, x) <==> FreePage(t, x)
    ensures Is(s, p, true, k) <==> Is(t, p, true, k)
  {
    if Is(s, p, true, k) { BlockStays(s, t, p, k); }
    if Is(t, p, true, k) { BlockStays(t, s, p, k); }
  }

  lemma BlockStays(s: State, t: State, p: nat, k: nat)
    requires Whole(s, 0, 0) && Whole(t, 0, 0) && s.regions == t.regions && Is(s, p, true, k)
    requires forall x :: FreePage(s, x) <==> FreePage(t, x)
    ensures Is(t, p, true, k)
  {
    BlockIsRun(s, p, k);
    var q := RunInBlock(t, p, k);
    var j := t.states[q].order;
    BlockIsRun(t, q, j);
    var r := RunInBlock(s, q, j);
    SameBlock(s, r, p, p);
    PowStrict(k, j);
  }

  lemma BlockIsRun(s: State, p: nat, k: nat)
    requires Whole(s, 0, 0) && Is(s, p, true, k)
    ensures FreeRun(s, p, k)
  {
    forall x | p <= x < p + Pow(k) ensures FreePage(s, x) { assert In(s, p, x); }
  }

  lemma {:induction false} PowStrict(k: nat, j: nat)
    ensures Pow(k) == Pow(j) <==> k == j
    decreases j
  {
    if k > 0 && j > 0 { PowStrict(k - 1, j - 1); }
  }

  // ----- One block leaves or joins -----

  function Mark(s: State, p: nat, st: Status): State {
    s.(states := s.states[p := st])
  }

  /** buddy_list_add. */
  function Push(s: State, p: nat, k: nat): State
    requires k < |s.lists| == |s.counts|
  {
    Mark(s.(lists := s.lists[k := [p] + s.lists[k]], counts := s.counts[k := s.counts[k] + 1]), p, Block(true, k))
  }

  /** buddy_list_remove, and the state byte cleared. */
  function Pull(s: State, p: nat, k: nat): State
    requires k < |s.lists| == |s.counts|
  {
    Mark(s.(lists := s.lists[k := Without(s.lists[k], p)],
            counts := s.counts[k := if s.counts[k] > 0 then s.counts[k] - 1 else 0]), p, Unused)
  }

  /** The hole [a', b') is the hole [a, b) and the block of order `k` at `p` beside it. */
  predicate Joins(a: nat, b: nat, p: nat, k: nat, a': nat, b': nat) {
    || (a == b && a' == p && b' == p + Pow(k))
    || (a < b && p + Pow(k) == a && a' == p && b' == b)
    || (a < b && b == p && a' == a && b' == p + Pow(k))
  }

  /** A block dissolves into the hole beside it. */
  lemma TakePartition(s: State, s': State, a: nat, b: nat, p: nat, k: nat, a': nat, b': nat)
    requires Partition(s, a, b) && Head(s, p) && s.states[p].order == k && Joins(a, b, p, k, a', b')
    requires s'.states == s.states[p := Unused] && s'.regions == s.regions
    ensures Partition(s', a', b')
  {
    forall q: nat | Head(s', q) ensures Head(s, q) && s'.states[q] == s.states[q] && q != p {}
    assert Outside(s', a', b') by {
      forall q: nat | Head(s', q) ensures q + Pow(s'.states[q].order) <= a' || b' <= q {
        assert Head(s, q);
      }
    }
    forall x: nat | Allocatable(s', x) && !(a' <= x < b') ensures Covered(s', x) {
      assert Allocatable(s, x);
      assert Covered(s, x);
      var q: nat :| In(s, q, x);
      assert In(s', q, x);
    }
  }

  /** A block is cut from one end of the hole. */
  lemma PutPartition(s: State, s': State, a: nat, b: nat, p: nat, k: nat, free: bool, a': nat, b': nat)
    requires Partition(s, a, b) && FitsRegion(s, p, k)
    requires (p == a && p + Pow(k) <= b && a' == p + Pow(k) && b' == b) || (p + Pow(k) == b && a <= p && a' == a && b' == p)
    requires s'.states == s.states[p := Block(free, k)] && s'.regions == s.regions
    ensures Partition(s', a', b') && !Head(s, p)
  {
    hide Cover, FitsRegion, Pow;
    forall q: nat | Head(s', q) && q != p ensures Head(s, q) && s'.states[q] == s.states[q] && !In(s, q, p) {}
    PutCover(s, s', a, b, p, k, free, a', b');
    assert Placed(s') by { forall q | Head(s', q) ensures FitsRegion(s', q, s'.states[q].order) { PlacedAt(s, s', q, p, k); } }
  }

  lemma PlacedAt(s: State, s': State, q: nat, p: nat, k: nat)
    requires s'.regions == s.regions && (q == p ==> FitsRegion(s, p, k)) && Head(s', q) && (q == p ==> s'.states[q].order == k)
    requires q != p ==> Head(s, q) && s'.states[q] == s.states[q] && FitsRegion(s, q, s.states[q].order)
    ensures FitsRegion(s', q, s'.states[q].order)
  {}

  lemma PutCover(s: State, s': State, a: nat, b: nat, p: nat, k: nat, free: bool, a': nat, b': nat)
    requires Cover(s, a, b) && !Head(s, p)
    requires (p == a && p + Pow(k) <= b && a' == p + Pow(k) && b' == b) || (p + Pow(k) == b && a <= p && a' == a && b' == p)
    requires s'.states == s.states[p := Block(free, k)] && s'.regions == s.regions
    ensures Cover(s', a', b')
  {
    forall x: nat | Allocatable(s', x) && !(a' <= x < b') ensures Covered(s', x) {
      assert Allocatable(s, x);
      if p <= x < p + Pow(k) {
        assert In(s', p, x);
      } else {
        assert Covered(s, x);
        var q: nat :| In(s, q, x);
        assert In(s', q, x);
      }
    }
  }

  lemma RegionsStay(s: State, s': State, p: nat, st: Status)
    requires Regions(s) && s'.states == s.states[p := st] && s'.regions == s.regions
    ensures Regions(s')
  {}

  /** Adding a block keeps lists, counts and state bytes in agreement, and taking it off again undoes it. */
  lemma PushLists(s: State, p: nat, k: nat)
    requires Lists(s) && k <= MAX_ORDER && !Head(s, p)
    ensures Lists(Push(s, p, k)) && Is(Push(s, p, k), p, true, k)
    ensures var u := Pull(Push(s, p, k), p, k); u.lists == s.lists && u.counts == s.counts
  {
    PushPull(s.lists[k], p);
    var s' := Push(s, p, k);
    assert !Is(s, p, true, k) && p !in s.lists[k];
    forall j, x | 0 <= j <= MAX_ORDER ensures x in s'.lists[j] <==> Is(s', x, true, j) {
      assert x in s.lists[j] <==> Is(s, x, true, j);
    }
  }

  lemma PushPull(q: seq<nat>, p: nat)
    requires p !in q
    ensures Without([p] + q, p) == q
  {
    assert ([p] + q)[1..] == q;
  }

  /** Taking a free block off its list keeps them in agreement; it was on that list and is on none now. */
  lemma PullLists(s: State, p: nat, k: nat)
    requires Lists(s) && Is(s, p, true, k) && k <= MAX_ORDER
    ensures Lists(Pull(s, p, k)) && p in s.lists[k]
    ensures Pull(s, p, k).counts[k] == s.counts[k] - 1 && forall j | 0 <= j <= MAX_ORDER :: p !in Pull(s, p, k).lists[j]
  {
    var s' := Pull(s, p, k);
    assert p in s.lists[k];
    WithoutIs(s.lists[k], p);
    forall j, x | 0 <= j <= MAX_ORDER ensures x in s'.lists[j] <==> Is(s', x, true, j) {
      assert x in s.lists[j] <==> Is(s, x, true, j);
    }
  }

  lemma MarkLists(s: State, p: nat, st: Status)
    requires Lists(s) && (st.Block? ==> !st.free) && (Head(s, p) ==> !s.states[p].free)
    ensures Lists(Mark(s, p, st))
  {
    var s' := Mark(s, p, st);
    forall j, x | 0 <= j <= MAX_ORDER ensures x in s'.lists[j] <==> Is(s', x, true, j) {
      assert x in s.lists[j] <==> Is(s, x, true, j);
    }
  }

  lemma {:induction false} PagesUpdate(lists: seq<seq<nat>>, k: nat, q: seq<nat>, n: nat)
    requires k < |lists| && n <= |lists|
    ensures k >= n ==> Pages(lists[k := q], n) == Pages(lists, n)
    ensures k < n ==> Pages(lists[k := q], n) + |lists[k]| * Pow(k) == Pages(lists, n) + |q| * Pow(k)
    decreases n
  {
    if n > 0 {
      PagesUpdate(lists, k, q, n - 1);
    }
  }

  lemma MergedLess(s: State, s': State)
    requires Merged(s) && s'.regions == s.regions && forall p, k | Is(s', p, true, k) :: Is(s, p, true, k)
    ensures Merged(s')
  {
    forall p, k ensures !Mates(s', p, k) {
      assert !Mates(s, p, k);
    }
  }

  lemma MergedMore(s: State, s': State, p: nat, k: nat)
    requires Merged(s) && s'.regions == s.regions && s'.states == s.states[p := Block(true, k)] && Aligned(p, k)
    requires k < MAX_ORDER ==> !(Is(s, Other(p, k), true, k) && Together(s, p, Other(p, k)))
    ensures Merged(s')
  {
    forall q, j ensures !Mates(s', q, j) {
      assert !Mates(s, q, j);
      if Aligned(q, j) { OtherOther(q, j); }
    }
  }

  /** What taking or putting a block of pages [p, p + 2^k) does to the set of free pages. */
  lemma FreePagesTaken(s: State, s': State, p: nat, k: nat)
    requires Disjoint(s) && Is(s, p, true, k) && s'.states == s.states[p := Unused]
    ensures forall x: nat :: FreePage(s', x) <==> FreePage(s, x) && !(p <= x < p + Pow(k))
  {
    forall x: nat ensures FreePage(s', x) <==> FreePage(s, x) && !(p <= x < p + Pow(k)) {
      if FreePage(s, x) && !(p <= x < p + Pow(k)) {
        var q: nat :| In(s, q, x) && s.states[q].free;
        assert In(s', q, x);
      }
      if FreePage(s', x) {
        var q: nat :| In(s', q, x) && s'.states[q].free;
        assert In(s, q, x);
        if p <= x < p + Pow(k) { SameBlock(s, q, p, x); }
      }
    }
  }

  lemma FreePagesPut(s: State, s': State, p: nat, k: nat)
    requires !Head(s, p) && s'.states == s.states[p := Block(true, k)]
    ensures forall x: nat :: FreePage(s', x) <==> FreePage(s, x) || p <= x < p + Pow(k)
  {
    forall x: nat ensures FreePage(s', x) <==> FreePage(s, x) || p <= x < p + Pow(k) {
      if p <= x < p + Pow(k) { assert In(s', p, x); }
      if FreePage(s, x) {
        var q: nat :| In(s, q, x) && s.states[q].free;
        assert In(s', q, x);
      }
      if FreePage(s', x) {
        var q: nat :| In(s', q, x) && s'.states[q].free;
        assert q != p ==> In(s, q, x);
      }
    }
  }

  lemma FreePagesSame(s: State, s': State, p: nat, st: Status)
    requires s'.states == s.states[p := st] && (Head(s, p) ==> !s.states[p].free) && (st.Block? ==> !st.free)
    ensures forall x: nat :: FreePage(s', x) <==> FreePage(s, x)
  {
    forall x: nat ensures FreePage(s', x) <==> FreePage(s, x) {
      if FreePage(s, x) {
        var q: nat :| In(s, q, x) && s.states[q].free;
        assert In(s', q, x);
      }
      if FreePage(s', x) {
        var q: nat :| In(s', q, x) && s'.states[q].free;
        assert In(s, q, x);
      }
    }
  }

  // ----- The four moves -----

  lemma PullPages(s: State, p: nat, k: nat)
    requires Lists(s) && Is(s, p, true, k) && k <= MAX_ORDER
    ensures Pages(Pull(s, p, k).lists, |s.lists|) + Pow(k) == Pages(s.lists, |s.lists|)
  {
    assert p in s.lists[k];
    var q := Without(s.lists[k], p);
    WithoutIs(s.lists[k], p);
    PagesUpdate(s.lists, k, q, |s.lists|);
    OneMore(|q|, Pow(k));
  }

  lemma PushPages(s: State, p: nat, k: nat)
    requires k < |s.lists| == |s.counts|
    ensures Pages(Push(s, p, k).lists, |s.lists|) == Pages(s.lists, |s.lists|) + Pow(k)
  {
    PagesUpdate(s.lists, k, [p] + s.lists[k], |s.lists|);
    OneMore(|s.lists[k]|, Pow(k));
  }

  /** A free block leaves its list and becomes part of the hole. */
  lemma TakeFree(s: State, a: nat, b: nat, p: nat, k: nat, a': nat, b': nat)
    requires Whole(s, a, b) && Is(s, p, true, k) && Joins(a, b, p, k, a', b')
    ensures k <= MAX_ORDER && Whole(Pull(s, p, k), a', b')
    ensures forall x: nat :: FreePage(Pull(s, p, k), x) <==> FreePage(s, x) && !(p <= x < p + Pow(k))
    ensures Pages(Pull(s, p, k).lists, |s.lists|) + Pow(k) == Pages(s.lists, |s.lists|)
  {
    assert FitsRegion(s, p, k);
    hide Regions;
    hide Lists;
    hide Merged;
    hide Pages;
    hide Without;
    hide Joins;
    hide FreePage;
    assert Disjoint(s);
    assert |s.lists| == |s.counts| == MAX_ORDER + 1 by { ListsLength(s); }
    hide Partition;
    var s' := Pull(s, p, k);
    TakePartition(s, s', a, b, p, k, a', b');
    RegionsStay(s, s', p, Unused);
    PullLists(s, p, k);
    MergedLess(s, s');
    FreePagesTaken(s, s', p, k);
    PullPages(s, p, k);
  }

  lemma ListsLength(s: State)
    requires Lists(s)
    ensures |s.lists| == |s.counts| == MAX_ORDER + 1
  {}

  /** A free block is cut from the hole. */
  lemma PutFree(s: State, a: nat, b: nat, p: nat, k: nat, a': nat, b': nat)
    requires Whole(s, a, b) && FitsRegion(s, p, k)
    requires (p == a && p + Pow(k) <= b && a' == p + Pow(k) && b' == b) || (p + Pow(k) == b && a <= p && a' == a && b' == p)
    requires k < MAX_ORDER ==> !(Is(s, Other(p, k), true, k) && Together(s, p, Other(p, k)))
    ensures Whole(Push(s, p, k), a', b')
    ensures forall x: nat :: FreePage(Push(s, p, k), x) <==> FreePage(s, x) || p <= x < p + Pow(k)
    ensures Pages(Push(s, p, k).lists, |s.lists|) == Pages(s.lists, |s.lists|) + Pow(k)
  {
    hide Regions, Lists, Merged, Pages, Partition, FreePage, FitsRegion, Other, Together, Pow, Aligned;
    FitsMeans(s, p, k);
    ListsLength(s);
    var s' := Push(s, p, k);
    PutPartition(s, s', a, b, p, k, true, a', b');
    RegionsStay(s, s', p, Block(true, k));
    PushLists(s, p, k);
    MergedMore(s, s', p, k);
    FreePagesPut(s, s', p, k);
    PushPages(s, p, k);
  }

  /** An allocated block dissolves. */
  lemma TakeUsed(s: State, p: nat, k: nat)
    requires Whole(s, 0, 0) && Is(s, p, false, k)
    ensures Whole(Mark(s, p, Unused), p, p + Pow(k)) && forall x: nat :: FreePage(Mark(s, p, Unused), x) <==> FreePage(s, x)
  {
    var s' := Mark(s, p, Unused);
    TakePartition(s, s', 0, 0, p, k, p, p + Pow(k));
    RegionsStay(s, s', p, Unused);
    MarkLists(s, p, Unused);
    MergedLess(s, s');
    FreePagesSame(s, s', p, Unused);
  }

  /** The whole hole becomes one allocated block. */
  lemma PutUsed(s: State, p: nat, k: nat)
    requires Whole(s, p, p + Pow(k)) && FitsRegion(s, p, k)
    ensures Whole(Mark(s, p, Block(false, k)), 0, 0) && forall x: nat :: FreePage(Mark(s, p, Block(false, k)), x) <==> FreePage(s, x)
  {
    var s' := Mark(s, p, Block(false, k));
    PutPartition(s, s', p, p + Pow(k), p, k, false, p + Pow(k), p + Pow(k));
    NoHole(s', p + Pow(k));
    RegionsStay(s, s', p, Block(false, k));
    MarkLists(s, p, Block(false, k));
    MergedLess(s, s');
    FreePagesSame(s, s', p, Block(false, k));
  }

  lemma NoHole(s: State, a: nat)
    requires Partition(s, a, a)
    ensures Partition(s, 0, 0)
  {}

  // ----- Facts for the loops -----

  /** The block of order k at `p` and its right half lie in the same region. */
  lemma SplitFits(s: State, p: nat, k: nat)
    requires Regions(s) && FitsRegion(s, p, k + 1)
    ensures FitsRegion(s, p, k) && FitsRegion(s, p + Pow(k), k) && Other(p + Pow(k), k) == p && Pow(k + 1) == 2 * Pow(k)
  {
    RightHalf(p, k);
    BitIsAlignment(p + Pow(k), k);
    RegionFound(s.regions, p + Pow(k), 0, FindRegion(s.regions, p, 0));
    hide Regions;
    hide FindRegion;
  }

  /** The merged block lies in the region of its halves. */
  lemma MergeFits(s: State, p: nat, k: nat, i: nat)
    requires Regions(s) && i < |s.regions| && Fits(s.regions[i], p, k) && k < MAX_ORDER && Fits(s.regions[i], Other(p, k), k)
    ensures var l := if Other(p, k) < p then Other(p, k) else p;
      Fits(s.regions[i], l, k + 1) && Joins(p, p + Pow(k), Other(p, k), k, l, l + Pow(k + 1))
  {
    OtherOther(p, k);
    var l := if Other(p, k) < p then Other(p, k) else p;
    RightHalf(l, k);
  }

  lemma FitsFound(s: State, p: nat, k: nat, i: nat)
    requires Regions(s) && i < |s.regions| && Fits(s.regions[i], p, k)
    ensures FindRegion(s.regions, p, 0) == i && FitsRegion(s, p, k)
  {
    RegionFound(s.regions, p, 0, i);
  }

  lemma HoleUnheaded(s: State, a: nat, b: nat, p: nat)
    requires Partition(s, a, b) && a <= p < b
    ensures !Head(s, p)
  {}

  /** A free half in the same region would fit. */
  lemma MateFits(s: State, a: nat, b: nat, p: nat, k: nat, i: nat)
    requires Whole(s, a, b) && i < |s.regions| && Fits(s.regions[i], p, k)
    requires Is(s, Other(p, k), true, k) && Together(s, p, Other(p, k))
    ensures Fits(s.regions[i], Other(p, k), k)
  {
    assert FitsRegion(s, Other(p, k), k);
    FitsFound(s, p, k, i);
  }

  // ----- buddy_alloc -----

  predicate Sized(s: State) {
    |s.lists| == |s.counts| == MAX_ORDER + 1
  }

  /** The split loop: the right halves go back to the free lists. */
  function Split(s: State, page: nat, order: nat, current: nat): (s': State)
    requires Sized(s) && current <= MAX_ORDER
    ensures Sized(s')
    decreases current
  {
    if current <= order then s
    else Split(Push(s, page + Pow(current - 1), current - 1), page, order, current - 1)
  }

  /** The block found leaves its list, is split, and its first part becomes allocated. */
  function Carve(s: State, page: nat, order: nat, current: nat): State
    requires Sized(s) && current <= MAX_ORDER
  {
    Mark(Split(Pull(s, page, current), page, order, current), page, Block(false, order))
  }

  /** The same blocks are allocated, except perhaps at `p`. */
  ghost predicate SameUsed(s: State, t: State, p: nat) {
    forall q: nat, k: nat | q != p :: Is(s, q, false, k) <==> Is(t, q, false, k)
  }

  lemma SplitStep(s: State, page: nat, k: nat)
    requires Whole(s, page, page + Pow(k + 1)) && FitsRegion(s, page, k + 1) && Sized(s)
    ensures k <= MAX_ORDER && !Head(s, page + Pow(k)) && Pow(k + 1) == 2 * Pow(k)
    ensures var s', right := Push(s, page + Pow(k), k), page + Pow(k);
      && Whole(s', page, right) && FitsRegion(s', page, k)
      && (forall x: nat :: FreePage(s', x) <==> FreePage(s, x) || right <= x < right + Pow(k))
      && Pages(s'.lists, |s.lists|) == Pages(s.lists, |s.lists|) + Pow(k)
  {
    hide Regions;
    hide Partition;
    hide Lists;
    hide Merged;
    hide FreePage;
    hide Pages;
    SplitFits(s, page, k);
    HoleUnheaded(s, page, page + Pow(k + 1), page);
    HoleUnheaded(s, page, page + Pow(k + 1), page + Pow(k));
    hide FitsRegion;
    PutFree(s, page, page + Pow(k + 1), page + Pow(k), k, page, page + Pow(k));
    FitsSame(s, Push(s, page + Pow(k), k), page, k);
  }

  lemma {:induction false} SplitKeeps(s: State, page: nat, order: nat, current: nat)
    requires Sized(s) && order <= current <= MAX_ORDER && Whole(s, page, page + Pow(current)) && FitsRegion(s, page, current)
    ensures var s' := Split(s, page, order, current);
      && Whole(s', page, page + Pow(order)) && FitsRegion(s', page, order) && s'.regions == s.regions && s'.freePages == s.freePages
      && (forall x: nat :: FreePage(s', x) <==> FreePage(s, x) || page + Pow(order) <= x < page + Pow(current))
      && Pages(s'.lists, |s.lists|) + Pow(order) == Pages(s.lists, |s.lists|) + Pow(current)
      && SameUsed(s, s', page)
    decreases current
  {
    hide Whole, FreePage, Pages, FitsRegion, SameUsed, Push;
    if current > order {
      var k := current - 1;
      SplitStep(s, page, k);
      PushFrame(s, page, k);
      var s1 := Push(s, page + Pow(k), k);
      SplitKeeps(s1, page, order, k);
      PowMonotone(order, k);
      UsedTrans(s, s1, Split(s, page, order, current), page);
    } else {
      UsedSame(s, page);
    }
  }

  lemma PushFrame(s: State, page: nat, k: nat)
    requires Sized(s) && k <= MAX_ORDER && !Head(s, page + Pow(k))
    ensures var s' := Push(s, page + Pow(k), k); Sized(s') && s'.regions == s.regions && s'.freePages == s.freePages && SameUsed(s, s', page)
  {
  }

  lemma UsedSame(s: State, page: nat)
    ensures SameUsed(s, s, page)
  {
  }

  lemma UsedTrans(s: State, t: State, u: State, p: nat)
    requires SameUsed(s, t, p) && SameUsed(t, u, p)
    ensures SameUsed(s, u, p)
  {
    forall q: nat, k: nat | q != p ensures Is(s, q, false, k) <==> Is(u, q, false, k) {
      assert Is(s, q, false, k) <==> Is(t, q, false, k);
    }
  }

  /** Exactly the pages of the new allocated block are no longer free. */
  lemma CarveKeeps(s: State, page: nat, order: nat, current: nat)
    requires Whole(s, 0, 0) && Sized(s) && order <= current <= MAX_ORDER && Is(s, page, true, current)
    ensures var s' := Carve(s, page, order, current);
      && Whole(s', 0, 0) && s'.regions == s.regions && s'.freePages == s.freePages
      && (forall x: nat :: FreePage(s', x) <==> FreePage(s, x) && !(page <= x < page + Pow(order)))
      && Pages(s'.lists, |s.lists|) + Pow(order) == Pages(s.lists, |s.lists|)
      && Is(s', page, false, order) && SameUsed(s, s', page)
  {
    hide Regions;
    hide Partition;
    hide Lists;
    hide Merged;
    hide FreePage;
    hide Pages;
    BlockIsRun(s, page, current);
    RunFits(s, page, current);
    hide FreeRun;
    hide FitsRegion;
    TakeFree(s, 0, 0, page, current, page, page + Pow(current));
    var s1 := Pull(s, page, current);
    FitsSame(s, s1, page, current);
    SplitKeeps(s1, page, order, current);
    var s2 := Split(s1, page, order, current);
    hide Split;
    PutUsed(s2, page, order);
    CarveUsed(s, s1, s2, Carve(s, page, order, current), page);
    PowMonotone(order, current);
  }

  lemma CarveUsed(s: State, s1: State, s2: State, s3: State, p: nat)
    requires s1.states == s.states[p := Unused] && SameUsed(s1, s2, p) && p in s3.states && s3.states == s2.states[p := s3.states[p]]
    ensures SameUsed(s, s3, p)
  {
    forall q: nat, k: nat | q != p ensures Is(s, q, false, k) <==> Is(s3, q, false, k) {
      assert Is(s1, q, false, k) <==> Is(s2, q, false, k);
    }
  }

  lemma RunFits(s: State, a: nat, k: nat)
    requires FreeRun(s, a, k)
    ensures FitsRegion(s, a, k) && forall x: nat | a <= x < a + Pow(k) :: FreePage(s, x)
  {}

  lemma FitsSame(s: State, s': State, p: nat, k: nat)
    requires s'.regions == s.regions
    ensures FitsRegion(s', p, k) == FitsRegion(s, p, k)
  {}

  lemma NothingLeft(s: State, order: nat)
    requires Whole(s, 0, 0) && order <= MAX_ORDER && forall k | order <= k <= MAX_ORDER :: s.lists[k] == []
    ensures forall a: nat :: !FreeRun(s, a, order)
  {
    forall p: nat, j: nat | j >= order ensures !Is(s, p, true, j) {
      assert j <= MAX_ORDER ==> (p in s.lists[j] <==> Is(s, p, true, j));
      assert Head(s, p) ==> FitsRegion(s, p, s.states[p].order);
    }
    Complete(s, order);
  }

  /** What buddy_alloc finds at the head of the list. */
  lemma Found(s: State, order: nat, current: nat, page: nat)
    requires Whole(s, 0, 0) && order <= current <= MAX_ORDER && s.lists[current] != [] && page == s.lists[current][0]
    ensures Is(s, page, true, current) && FreeRun(s, page, order) && s.counts[current] > 0
    ensures Pow(order) <= Pow(current) <= Pages(s.lists, |s.lists|)
  {
    assert page in s.lists[current];
    BlockIsRun(s, page, current);
    PowMonotone(order, current);
    AlignedLess(page, current, order);
    PullPages(s, page, current);
  }

  // ----- buddy_free -----

  /** The merge loop and the insertion after it, in region `r`. */
  function Release(s: State, r: Region, p: nat, k: nat): (s': State)
    requires Sized(s) && k <= MAX_ORDER
    ensures Sized(s')
    decreases MAX_ORDER - k
  {
    var o := Other(p, k);
    if k < MAX_ORDER && Fits(r, o, k) && Is(s, o, true, k) then Release(Pull(s, o, k), r, if o < p then o else p, k + 1)
    else Push(s, p, k)
  }

  ghost predicate AllUsed(s: State, t: State) {
    forall q: nat, k: nat :: Is(s, q, false, k) <==> Is(t, q, false, k)
  }

  lemma FreeBlockFree(s: State, p: nat, k: nat)
    requires Is(s, p, true, k)
    ensures forall x: nat | p <= x < p + Pow(k) :: FreePage(s, x)
  {
    forall x: nat | p <= x < p + Pow(k) ensures FreePage(s, x) { assert In(s, p, x); }
  }

  /** One turn of the merge loop. */
  lemma MergeStep(s: State, i: nat, p: nat, k: nat)
    requires Sized(s) && k < MAX_ORDER && i < |s.regions| && Whole(s, p, p + Pow(k)) && Fits(s.regions[i], p, k)
    requires Fits(s.regions[i], Other(p, k), k) && Is(s, Other(p, k), true, k)
    ensures var s1, o := Pull(s, Other(p, k), k), Other(p, k);
      var l := if o < p then o else p;
      && Whole(s1, l, l + Pow(k + 1)) && Fits(s.regions[i], l, k + 1) && Pow(k + 1) == 2 * Pow(k)
      && (l == o || l == p) && (o == l || o == l + Pow(k)) && (p == l || p == l + Pow(k)) && o != p
      && (forall x: nat :: FreePage(s1, x) <==> FreePage(s, x) && !(o <= x < o + Pow(k)))
      && (forall x: nat | o <= x < o + Pow(k) :: FreePage(s, x))
      && Pages(s1.lists, |s.lists|) + Pow(k) == Pages(s.lists, |s.lists|)
      && AllUsed(s, s1)
  {
    hide Regions, Partition, Lists, Merged, FreePage, Pages, Joins, Aligned, Other, Pow;
    var o := Other(p, k);
    var l := if o < p then o else p;
    MergeFits(s, p, k, i);
    OtherOther(p, k);
    RightHalf(l, k);
    FreeBlockFree(s, o, k);
    TakeFree(s, p, p + Pow(k), o, k, l, l + Pow(k + 1));
  }

  lemma ReleaseEnd(s: State, i: nat, p: nat, k: nat)
    requires Sized(s) && k <= MAX_ORDER && i < |s.regions| && Whole(s, p, p + Pow(k)) && Fits(s.regions[i], p, k)
    requires k == MAX_ORDER || !Fits(s.regions[i], Other(p, k), k) || !Is(s, Other(p, k), true, k)
    ensures var s' := Push(s, p, k);
      && Whole(s', 0, 0)
      && (forall x: nat :: FreePage(s', x) <==> FreePage(s, x) || p <= x < p + Pow(k))
      && Pages(s'.lists, |s.lists|) == Pages(s.lists, |s.lists|) + Pow(k)
      && AllUsed(s, s')
  {
    hide Regions;
    hide Partition;
    hide Lists;
    hide Merged;
    hide FreePage;
    hide Pages;
    FitsFound(s, p, k, i);
    HoleUnheaded(s, p, p + Pow(k), p);
    if k < MAX_ORDER && Is(s, Other(p, k), true, k) && Together(s, p, Other(p, k)) {
      MateFits(s, p, p + Pow(k), p, k, i);
    }
    hide FitsRegion;
    hide Fits;
    hide Together;
    PutFree(s, p, p + Pow(k), p, k, p + Pow(k), p + Pow(k));
    NoHole(Push(s, p, k), p + Pow(k));
  }

  /** Exactly the freed pages join the free ones, whatever is merged. */
  lemma {:induction false} ReleaseKeeps(s: State, i: nat, p: nat, k: nat)
    requires Sized(s) && k <= MAX_ORDER && i < |s.regions| && Whole(s, p, p + Pow(k)) && Fits(s.regions[i], p, k)
    ensures var s' := Release(s, s.regions[i], p, k);
      && Whole(s', 0, 0) && s'.regions == s.regions && s'.freePages == s.freePages
      && (forall x: nat :: FreePage(s', x) <==> FreePage(s, x) || p <= x < p + Pow(k))
      && Pages(s'.lists, |s.lists|) == Pages(s.lists, |s.lists|) + Pow(k)
      && AllUsed(s, s')
    decreases MAX_ORDER - k
  {
    hide Whole;
    hide FreePage;
    hide Pages;
    hide AllUsed;
    var r, o := s.regions[i], Other(p, k);
    if k < MAX_ORDER && Fits(r, o, k) && Is(s, o, true, k) {
      var l := if o < p then o else p;
      MergeStep(s, i, p, k);
      hide Fits;
      ReleaseKeeps(Pull(s, o, k), i, l, k + 1);
      AllUsedTrans(s, Pull(s, o, k), Release(s, r, p, k));
    } else {
      ReleaseEnd(s, i, p, k);
    }
  }

  lemma AllUsedTrans(s: State, t: State, u: State)
    requires AllUsed(s, t) && AllUsed(t, u)
    ensures AllUsed(s, u)
  {
    forall q: nat, k: nat ensures Is(s, q, false, k) <==> Is(u, q, false, k) {
      assert Is(s, q, false, k) <==> Is(t, q, false, k);
    }
  }

  /** buddy_allocated is exact: the address and order of an allocated block, and nothing else. */
  lemma UsedFits(s: State, p: nat, k: nat)
    requires Whole(s, 0, 0) && Is(s, p, false, k)
    ensures k <= MAX_ORDER && FitsRegion(s, p, k)
  {}

  // ----- buddy_add_region -----

  predicate Apart(r: Region, t: Region) {
    r.end <= t.start || t.end <= r.start
  }

  lemma {:induction false} FindGrown(regions: seq<Region>, r: Region, x: nat, i: nat)
    requires i <= |regions|
    ensures var f := FindRegion(regions, x, i);
      FindRegion(regions + [r], x, i) == if f < |regions| then f else if r.start <= x < r.end then |regions| else |regions| + 1
    decreases |regions| - i
  {
    if i < |regions| {
      assert (regions + [r])[i] == regions[i];
      FindGrown(regions, r, x, i + 1);
    }
  }

  /** A region's pages before any block has been handed over. */
  ghost predicate Grown(s: State, s': State, r: Region) {
    && s'.regions == s.regions + [r] && s'.lists == s.lists && s'.counts == s.counts
    && Cleared(s'.states, s.states, r.start, r.end)
  }

  /** The state bytes of the pages [a, b) have been set to unused. */
  ghost predicate Cleared(now: map<nat, Status>, was: map<nat, Status>, a: nat, b: nat) {
    && (forall x: nat :: x in now <==> x in was || a <= x < b)
    && (forall x: nat | x in now && a <= x < b :: now[x] == Unused)
    && (forall x: nat | x in was && x in now && !(a <= x < b) :: now[x] == was[x])
  }

  /** The pages of a new region are one hole at first. */
  lemma RegionJoins(s: State, s': State, r: Region)
    requires Whole(s, 0, 0) && r.start <= r.lo <= r.end && r.start < r.end && Grown(s, s', r)
    requires forall i | 0 <= i < |s.regions| :: Apart(s.regions[i], r)
    ensures Whole(s', r.lo, r.end)
    ensures forall x: nat :: FreePage(s', x) <==> FreePage(s, x)
    ensures AllUsed(s, s') && Greedy(s', r)
  {
    hide Disjoint, Cover, Outside, Lists, Merged, Pow, Aligned;
    forall p: nat | Head(s, p) ensures !(r.start <= p < r.end) {
      assert FitsRegion(s, p, s.states[p].order);
      var i := FindRegion(s.regions, p, 0);
      assert Apart(s.regions[i], r);
    }
    assert forall p: nat :: Head(s', p) <==> Head(s, p);
    assert forall p: nat, f: bool, k: nat :: Is(s', p, f, k) <==> Is(s, p, f, k);
    GrownPartition(s, s', r);
    GrownBooks(s, s', r);
    GrownRegions(s, s', r);
  }

  lemma GrownRegions(s: State, s': State, r: Region)
    requires Regions(s) && Grown(s, s', r) && r.start <= r.lo <= r.end && r.start < r.end
    requires forall i | 0 <= i < |s.regions| :: Apart(s.regions[i], r)
    ensures Regions(s')
  {
    forall i, j | 0 <= i < j < |s'.regions| ensures s'.regions[i].end <= s'.regions[j].start || s'.regions[j].end <= s'.regions[i].start {
      assert i < |s.regions| ==> Apart(s.regions[i], r);
    }
    assert forall i | 0 <= i < |s.regions| :: s'.regions[i] == s.regions[i];
  }

  lemma GrownPartition(s: State, s': State, r: Region)
    requires Partition(s, 0, 0) && s'.regions == s.regions + [r]
    requires forall p: nat :: Head(s', p) <==> Head(s, p)
    requires forall p: nat | Head(s, p) && Head(s', p) :: s'.states[p] == s.states[p]
    requires forall p: nat | Head(s, p) :: FitsRegion(s, p, s.states[p].order) && !(r.start <= p < r.end)
    requires forall i | 0 <= i < |s.regions| :: Apart(s.regions[i], r)
    requires r.start <= r.lo <= r.end
    ensures Partition(s', r.lo, r.end)
  {
    forall p: nat | Head(s', p) ensures FitsRegion(s', p, s'.states[p].order) && (p + Pow(s'.states[p].order) <= r.lo || r.end <= p) {
      FindGrown(s.regions, r, p, 0);
      var i := FindRegion(s.regions, p, 0);
      assert Apart(s.regions[i], r);
    }
    forall x: nat | Allocatable(s', x) && !(r.lo <= x < r.end) ensures Covered(s', x) {
      FindGrown(s.regions, r, x, 0);
      assert Allocatable(s, x);
      var p: nat :| In(s, p, x);
      assert In(s', p, x);
    }
  }

  lemma GrownBooks(s: State, s': State, r: Region)
    requires Lists(s) && Merged(s) && Placed(s) && s'.regions == s.regions + [r] && s'.lists == s.lists && s'.counts == s.counts
    requires forall p: nat, f: bool, k: nat :: Is(s', p, f, k) <==> Is(s, p, f, k)
    ensures Lists(s') && Merged(s') && forall x: nat :: FreePage(s', x) <==> FreePage(s, x)
  {
    forall k, p | 0 <= k <= MAX_ORDER ensures p in s'.lists[k] <==> Is(s', p, true, k) {
      assert p in s.lists[k] <==> Is(s, p, true, k);
    }
    forall p, k ensures !Mates(s', p, k) {
      assert !Mates(s, p, k);
      if Aligned(p, k) && Is(s, p, true, k) && Is(s, Other(p, k), true, k) {
        assert FitsRegion(s, p, k) && FitsRegion(s, Other(p, k), k);
        FindGrown(s.regions, r, p, 0);
        FindGrown(s.regions, r, Other(p, k), 0);
      }
    }
    forall x: nat ensures FreePage(s', x) <==> FreePage(s, x) {
      if FreePage(s, x) {
        var p: nat :| In(s, p, x) && s.states[p].free;
        assert Is(s, p, true, s.states[p].order) && Is(s', p, true, s.states[p].order);
        assert In(s', p, x);
      }
      if FreePage(s', x) {
        var p: nat :| In(s', p, x) && s'.states[p].free;
        assert Is(s', p, true, s'.states[p].order) && Is(s, p, true, s'.states[p].order);
        assert In(s, p, x);
      }
    }
  }

  /** buddy_largest_order, from order `k` on. */
  function LargestFrom(page: nat, pages: nat, k: nat): nat
    requires k <= MAX_ORDER
    decreases MAX_ORDER - k
  {
    if k < MAX_ORDER && BitClear(page, k) && Pow(k + 1) <= pages then LargestFrom(page, pages, k + 1) else k
  }

  /** The largest order that alignment and the number of pages allow. */
  lemma {:induction false} LargestIs(page: nat, pages: nat, k: nat)
    requires k <= MAX_ORDER && Aligned(page, k) && Pow(k) <= pages
    ensures var m := LargestFrom(page, pages, k);
      k <= m <= MAX_ORDER && Aligned(page, m) && Pow(m) <= pages && (m == MAX_ORDER || !Aligned(page, m + 1) || pages < Pow(m + 1))
    decreases MAX_ORDER - k
  {
    BitIsAlignment(page, k);
    if k < MAX_ORDER && BitClear(page, k) && Pow(k + 1) <= pages { LargestIs(page, pages, k + 1); }
  }

  /** Every block handed over so far in region `r` was as large as alignment and the end allow. */
  ghost predicate Greedy(s: State, r: Region) {
    forall p: nat, k: nat | Is(s, p, true, k) && r.start <= p < r.end :: k >= MAX_ORDER || !Aligned(p, k + 1) || r.end < p + Pow(k + 1)
  }

  /** So the next block handed over has no free half to merge with. */
  lemma GreedyAlone(s: State, r: Region, a: nat, k: nat)
    requires Greedy(s, r) && Partition(s, a, r.end) && r.start <= r.lo <= a < r.end && Aligned(a, k) && a + Pow(k) <= r.end && k < MAX_ORDER
    requires Regions(s) && |s.regions| > 0 && r == s.regions[|s.regions| - 1]
    ensures !(Is(s, Other(a, k), true, k) && Together(s, a, Other(a, k)))
  {
    hide Aligned, Other, Pow, Disjoint, Cover, Placed;
    OtherOther(a, k);
    RegionFound(s.regions, a, 0, |s.regions| - 1);
    RightHalf(if Other(a, k) < a then Other(a, k) else a, k);
  }

  /** The hand-over loop of buddy_add_region. */
  function Seed(s: State, a: nat, end: nat): (s': State)
    requires Sized(s)
    ensures Sized(s')
    decreases if a < end then end - a else 0
  {
    if a >= end then s
    else
      LargestSmall(a, end - a, 0);
      var k := LargestFrom(a, end - a, 0);
      Seed(Push(s, a, k), a + Pow(k), end)
  }

  lemma {:induction false} LargestSmall(page: nat, pages: nat, k: nat)
    requires k <= MAX_ORDER
    ensures k <= LargestFrom(page, pages, k) <= MAX_ORDER
    decreases MAX_ORDER - k
  {
    if k < MAX_ORDER && BitClear(page, k) && Pow(k + 1) <= pages { LargestSmall(page, pages, k + 1); }
  }

  lemma PushGreedy(s: State, r: Region, a: nat, k: nat)
    requires Sized(s) && Greedy(s, r) && !Head(s, a) && k <= MAX_ORDER
    requires k == MAX_ORDER || !Aligned(a, k + 1) || r.end < a + Pow(k + 1)
    ensures Greedy(Push(s, a, k), r) && AllUsed(s, Push(s, a, k))
  {
    var s' := Push(s, a, k);
    forall p: nat, j: nat | Is(s', p, true, j) && r.start <= p < r.end ensures j >= MAX_ORDER || !Aligned(p, j + 1) || r.end < p + Pow(j + 1) {
      assert p != a ==> Is(s, p, true, j);
    }
  }

  lemma SeedStep(s: State, r: Region, a: nat)
    requires Sized(s) && |s.regions| > 0 && r == s.regions[|s.regions| - 1] && r.start <= r.lo <= a < r.end
    requires Whole(s, a, r.end) && Greedy(s, r)
    ensures var k := LargestFrom(a, r.end - a, 0);
      && k <= MAX_ORDER && a + Pow(k) <= r.end
    ensures var k := (LargestSmall(a, r.end - a, 0); LargestFrom(a, r.end - a, 0));
      var s' := Push(s, a, k);
      && Whole(s', a + Pow(k), r.end) && Greedy(s', r) && AllUsed(s, s')
      && (forall x: nat :: FreePage(s', x) <==> FreePage(s, x) || a <= x < a + Pow(k))
      && Pages(s'.lists, |s.lists|) == Pages(s.lists, |s.lists|) + Pow(k)
  {
    hide Regions, Partition, Lists, Merged, FreePage, Pages, LargestFrom, FitsRegion, Greedy, AllUsed;
    var k := LargestFrom(a, r.end - a, 0);
    LargestIs(a, r.end - a, 0);
    FitsFound(s, a, k, |s.regions| - 1);
    HoleUnheaded(s, a, r.end, a);
    if k < MAX_ORDER { GreedyAlone(s, r, a, k); }
    PutFree(s, a, r.end, a, k, a + Pow(k), r.end);
    PushGreedy(s, r, a, k);
  }

  lemma {:induction false} SeedKeeps(s: State, r: Region, a: nat)
    requires Sized(s) && |s.regions| > 0 && r == s.regions[|s.regions| - 1] && r.start <= r.lo <= a <= r.end
    requires Whole(s, a, r.end) && Greedy(s, r)
    ensures var s' := Seed(s, a, r.end);
      && Whole(s', 0, 0) && s'.regions == s.regions && s'.freePages == s.freePages && AllUsed(s, s')
      && (forall x: nat :: FreePage(s', x) <==> FreePage(s, x) || a <= x < r.end)
      && Pages(s'.lists, |s.lists|) == Pages(s.lists, |s.lists|) + (r.end - a)
    decreases r.end - a
  {
    hide Regions;
    hide Partition;
    hide Lists;
    hide Merged;
    hide FreePage;
    hide Pages;
    if a == r.end {
      NoHole(s, a);
    } else {
      SeedStep(s, r, a);
      hide Whole;
      hide Greedy;
      hide LargestFrom;
      hide AllUsed;
      var k := LargestFrom(a, r.end - a, 0);
      var s1 := Push(s, a, k);
      SeedKeeps(s1, r, a + Pow(k));
      AllUsedTrans(s, s1, Seed(s, a, r.end));
    }
  }
}
