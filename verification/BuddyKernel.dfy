/** The buddy allocator as it is changed in place, with its search, split, merge and hand-over loops.

Pointers and region bounds are byte addresses here, as in the source. */
module BuddyKernel {
  import opened Common
  import opened Buddy

  const PGSIZE: nat := 4096

  datatype Result = Fail | Got(page: nat)

  class Allocator {
    var regions: seq<Region>
    var states: map<nat, Status>
    var lists: seq<seq<nat>>
    var counts: seq<nat>
    var freePages: nat

    /** buddy_init. */
    constructor ()
      ensures Valid(Abs()) && regions == [] && freePages == 0
    {
      regions, states, freePages := [], map[], 0;
      lists, counts := seq(MAX_ORDER + 1, _ => []), seq(MAX_ORDER + 1, _ => 0);
      new;
      NoPages(lists, |lists|);
    }

    ghost function Abs(): State
      reads this
    {
      State(regions, states, lists, counts, freePages)
    }

    method RegionOf(x: nat) returns (i: nat)
      ensures i == FindRegion(regions, x, 0)
    {
      i := 0;
      while i < |regions|
        invariant i <= |regions| && FindRegion(regions, x, 0) == FindRegion(regions, x, i)
      {
        if regions[i].start <= x < regions[i].end {
          return;
        }
        i := i + 1;
      }
    }

    method ListAdd(p: nat, k: nat)
      requires k < |lists| == |counts|
      modifies this`lists, this`counts, this`states
      ensures Abs() == Push(old(Abs()), p, k)
    {
      lists := lists[k := [p] + lists[k]];
      counts := counts[k := counts[k] + 1];
      states := states[p := Block(true, k)];
    }

    /** buddy_list_remove followed by the state byte. */
    method ListRemove(p: nat, k: nat)
      requires k < |lists| == |counts|
      modifies this`lists, this`counts, this`states
      ensures Abs() == Pull(old(Abs()), p, k)
    {
      lists := lists[k := Without(lists[k], p)];
      counts := counts[k := if counts[k] > 0 then counts[k] - 1 else 0];
      states := states[p := Unused];
    }

    /** The search of buddy_alloc. */
    method FirstNonEmpty(order: nat) returns (current: nat)
      requires Lists(Abs()) && order <= MAX_ORDER
      ensures order <= current <= MAX_ORDER + 1
      ensures forall k | order <= k < current :: lists[k] == []
      ensures current <= MAX_ORDER ==> lists[current] != []
    {
      current := order;
      while current <= MAX_ORDER
        invariant order <= current <= MAX_ORDER + 1
        invariant forall k | order <= k < current :: lists[k] == []
      {
        if counts[current] != 0 {
          return;
        }
        current := current + 1;
      }
    }

    /** buddy_alloc: a request fails exactly when no region contains a free aligned run of that order;
        otherwise exactly such a run becomes one allocated block. */
    method Alloc(order: nat) returns (r: Result)
      requires Valid(Abs())
      modifies this
      ensures Valid(Abs()) && regions == old(regions)
      ensures r.Fail? <==> old(forall a: nat :: !FreeRun(Abs(), a, order))
      ensures r.Fail? ==> Abs() == old(Abs())
      ensures r.Got? ==> old(FreeRun(Abs(), r.page, order)) && Is(Abs(), r.page, false, order) && SameUsed(old(Abs()), Abs(), r.page)
      ensures r.Got? ==> forall x: nat :: FreePage(Abs(), x) <==> old(FreePage(Abs(), x)) && !(r.page <= x < r.page + Pow(order))
      ensures r.Got? ==> freePages + Pow(order) == old(freePages)
    {
      if order > MAX_ORDER {
        return Fail;
      }
      ghost var s := Abs();
      hide Valid;
      hide FreeRun;
      hide FreePage;
      hide SameUsed;
      ValidLists(s);
      var current := FirstNonEmpty(order);
      if current > MAX_ORDER {
        Exhausted(s, order);
        return Fail;
      }
      var page := lists[current][0];
      AllocKeeps(s, order, current, page);
      Take(page, order, current);
      freePages := freePages - Pow(order);
      r := Got(page);
    }

    method Take(page: nat, order: nat, current: nat)
      requires Sized(Abs()) && order <= current <= MAX_ORDER
      modifies this`lists, this`counts, this`states
      ensures Abs() == Carve(old(Abs()), page, order, current)
    {
      hide Split;
      ListRemove(page, current);
      SplitBlock(page, order, current);
      states := states[page := Block(false, order)];
    }

    /** The split loop of buddy_alloc. */
    method SplitBlock(page: nat, order: nat, current0: nat)
      requires Sized(Abs()) && current0 <= MAX_ORDER
      modifies this`lists, this`counts, this`states
      ensures Abs() == Split(old(Abs()), page, order, current0)
    {
      var current: nat := current0;
      while current > order
        invariant Sized(Abs()) && current <= current0 && regions == old(regions) && freePages == old(freePages)
        invariant Split(Abs(), page, order, current) == Split(old(Abs()), page, order, current0)
      {
        current := current - 1;
        var right := page + Pow(current);
        ListAdd(right, current);
      }
    }

    /** buddy_allocated: true of the address and order of an allocated block, and of nothing else. */
    method Allocated(pointer: nat, order: nat) returns (r: bool)
      requires Valid(Abs())
      ensures r <==> pointer % PGSIZE == 0 && Is(Abs(), pointer / PGSIZE, false, order)
    {
      if order > MAX_ORDER || pointer % PGSIZE != 0 {
        UsedSmall(Abs());
        return false;
      }
      var p := pointer / PGSIZE;
      var i := RegionOf(p);
      if i == |regions| || !Fits(regions[i], p, order) {
        UsedSmall(Abs());
        return false;
      }
      r := p in states && states[p] == Block(false, order);
    }

    /** buddy_free: a pointer that is not an allocated block of that order is rejected with no change;
        otherwise its pages become free and whatever can merge is merged. */
    method Free(pointer: nat, order: nat) returns (ok: bool)
      requires Valid(Abs())
      modifies this
      ensures Valid(Abs()) && regions == old(regions)
      ensures ok <==> pointer % PGSIZE == 0 && old(Is(Abs(), pointer / PGSIZE, false, order))
      ensures !ok ==> Abs() == old(Abs())
      ensures ok ==> !Head(Abs(), pointer / PGSIZE) || states[pointer / PGSIZE].free
      ensures ok ==> SameUsed(old(Abs()), Abs(), pointer / PGSIZE)
      ensures ok ==> forall x: nat :: FreePage(Abs(), x) <==> old(FreePage(Abs(), x)) || pointer / PGSIZE <= x < pointer / PGSIZE + Pow(order)
      ensures ok ==> freePages == old(freePages) + Pow(order)
    {
      hide Valid, FreePage, SameUsed, Release, Pow;
      ok := Allocated(pointer, order);
      if !ok {
        return;
      }
      ghost var s := Abs();
      var p := pointer / PGSIZE;
      FreeKeeps(s, p, order);
      var i := RegionOf(p);
      states := states[p := Unused];
      MergeBlock(regions[i], p, order);
      freePages := freePages + Pow(order);
    }

    /** The merge loop of buddy_free, and the insertion after it. */
    method MergeBlock(r: Region, p: nat, order: nat)
      requires Sized(Abs()) && order <= MAX_ORDER
      modifies this`lists, this`counts, this`states
      ensures Abs() == Release(old(Abs()), r, p, order)
    {
      var address, current := p, order;
      while current < MAX_ORDER
        invariant Sized(Abs()) && current <= MAX_ORDER && regions == old(regions) && freePages == old(freePages)
        invariant Release(Abs(), r, address, current) == Release(old(Abs()), r, p, order)
      {
        var buddy := Other(address, current);
        if !Fits(r, buddy, current) || buddy !in states || states[buddy] != Block(true, current) {
          break;
        }
        ListRemove(buddy, current);
        if buddy < address {
          address := buddy;
        }
        current := current + 1;
      }
      ListAdd(address, current);
    }

    /** buddy_largest_order. */
    static method LargestOrder(page: nat, pages: nat) returns (order: nat)
      ensures order == LargestFrom(page, pages, 0)
    {
      order := 0;
      while order < MAX_ORDER && BitClear(page, order) && Pow(order + 1) <= pages
        invariant order <= MAX_ORDER && LargestFrom(page, pages, order) == LargestFrom(page, pages, 0)
      {
        order := order + 1;
      }
    }

    /** The arguments buddy_add_region accepts. */
    ghost predicate Acceptable(start: nat, end: nat, lo: nat, stateCount: nat)
      reads this
    {
      && start < end && start % PGSIZE == 0 && end % PGSIZE == 0 && start <= lo <= end && lo % PGSIZE == 0
      && (end - start) / PGSIZE <= stateCount && |regions| < MAX_REGIONS
      && forall i | 0 <= i < |regions| :: Apart(regions[i], Region(start / PGSIZE, end / PGSIZE, lo / PGSIZE))
    }

    /** buddy_add_region: its allocatable pages become free; a bad or overlapping region changes nothing. */
    method AddRegion(start: nat, end: nat, lo: nat, stateCount: nat) returns (ok: bool)
      requires Valid(Abs())
      modifies this
      ensures Valid(Abs())
      ensures ok <==> old(Acceptable(start, end, lo, stateCount))
      ensures !ok ==> Abs() == old(Abs())
      ensures ok ==> regions == old(regions) + [Region(start / PGSIZE, end / PGSIZE, lo / PGSIZE)] && AllUsed(old(Abs()), Abs())
      ensures ok ==> forall x: nat :: FreePage(Abs(), x) <==> old(FreePage(Abs(), x)) || lo / PGSIZE <= x < end / PGSIZE
      ensures ok ==> freePages == old(freePages) + (end / PGSIZE - lo / PGSIZE)
    {
      hide Valid, FreePage, AllUsed, Seed, Apart, Paid, Cleared;
      if start >= end || start % PGSIZE != 0 || end % PGSIZE != 0 || lo < start || lo > end || lo % PGSIZE != 0
         || stateCount < (end - start) / PGSIZE || |regions| >= MAX_REGIONS {
        return false;
      }
      var r := Region(start / PGSIZE, end / PGSIZE, lo / PGSIZE);
      ok := NoOverlap(r);
      if !ok {
        return;
      }
      ghost var s := Abs();
      regions := regions + [r];
      ClearStates(r);
      ghost var s1 := Abs();
      AddKeeps(s, s1, r);
      SeedRegion(r);
      PaidCount(Seed(s1, r.lo, r.end), s.freePages + (r.end - r.lo));
    }

    method NoOverlap(r: Region) returns (ok: bool)
      ensures ok <==> forall i | 0 <= i < |regions| :: Apart(regions[i], r)
    {
      for i := 0 to |regions|
        invariant forall j | 0 <= j < i :: Apart(regions[j], r)
      {
        if r.start < regions[i].end && r.end > regions[i].start {
          return false;
        }
      }
      return true;
    }

    method ClearStates(r: Region)
      requires r.start <= r.end
      modifies this`states
      ensures Cleared(states, old(states), r.start, r.end)
    {
      for x := r.start to r.end
        invariant Cleared(states, old(states), r.start, x)
      {
        states := states[x := Unused];
      }
    }

    /** The hand-over loop of buddy_add_region. */
    method SeedRegion(r: Region)
      requires Sized(Abs()) && r.lo <= r.end
      modifies this`lists, this`counts, this`states, this`freePages
      ensures Abs() == Paid(Seed(old(Abs()), r.lo, r.end), old(freePages) + (r.end - r.lo))
    {
      hide Seed, LargestFrom, Push, Paid, Pow;
      var address := r.lo;
      PaidSame(Abs());
      while address < r.end
        invariant Sized(Abs()) && Sized(Paid(Abs(), old(freePages))) && r.lo <= address <= r.end
        invariant freePages == old(freePages) + (address - r.lo) && regions == old(regions)
        invariant Seed(Paid(Abs(), old(freePages)), address, r.end) == Seed(old(Abs()), r.lo, r.end)
      {
        ghost var s := Abs();
        OnePage();
        LargestIs(address, r.end - address, 0);
        SeedMore(s, old(freePages), address, r.end);
        var order := LargestOrder(address, r.end - address);
        ListAdd(address, order);
        PushSized(s, address, order);
        freePages := freePages + Pow(order);
        PaidAgain(Push(s, address, order), freePages, old(freePages));
        PowPositive(order);
        address := address + Pow(order);
      }
      SeedEnd(Abs(), old(freePages), r.end);
      PaidBack(Abs(), old(freePages));
    }
  }

  lemma {:induction false} NoPages(lists: seq<seq<nat>>, k: nat)
    requires k <= |lists| && forall i | 0 <= i < |lists| :: lists[i] == []
    ensures Pages(lists, k) == 0
    decreases k
  {
    if k > 0 { NoPages(lists, k - 1); }
  }

  /** The state with the page count put to `n`. */
  function Paid(s: State, n: nat): State { s.(freePages := n) }

  lemma PaidSame(s: State)
    ensures Paid(s, s.freePages) == s
  {}

  lemma PaidAgain(s: State, m: nat, n: nat)
    ensures Paid(s.(freePages := m), n) == Paid(s, n) && (Sized(s) ==> Sized(Paid(s, n)))
  {}

  lemma PushSized(s: State, p: nat, k: nat)
    requires Sized(s) && k <= MAX_ORDER
    ensures Sized(Push(s, p, k)) && Push(s, p, k).regions == s.regions && Push(s, p, k).freePages == s.freePages
  {}

  lemma PaidCount(s: State, n: nat)
    ensures Paid(s, n).freePages == n && Paid(s, n).regions == s.regions
  {}

  lemma PaidBack(s: State, n: nat)
    ensures Paid(Paid(s, n), s.freePages) == s
  {}

  lemma OnePage()
    ensures Pow(0) == 1
  {}

  lemma PowPositive(k: nat)
    ensures Pow(k) > 0
  {}

  lemma SeedMore(s: State, n: nat, a: nat, end: nat)
    requires Sized(s) && a < end && LargestFrom(a, end - a, 0) <= MAX_ORDER
    ensures Sized(Paid(s, n)) && Sized(Paid(Push(s, a, LargestFrom(a, end - a, 0)), n))
    ensures var k := LargestFrom(a, end - a, 0); Seed(Paid(s, n), a, end) == Seed(Paid(Push(s, a, k), n), a + Pow(k), end)
  {}

  lemma SeedEnd(s: State, n: nat, end: nat)
    requires Sized(s)
    ensures Sized(Paid(s, n)) && Seed(Paid(s, n), end, end) == Paid(s, n) && Paid(s, n) == s.(freePages := n)
  {}

  lemma UsedSmall(s: State)
    requires Whole(s, 0, 0)
    ensures forall p: nat, k: nat | Is(s, p, false, k) :: k <= MAX_ORDER && FitsRegion(s, p, k)
  {}

  lemma ValidLists(s: State)
    requires Valid(s)
    ensures Lists(s) && Sized(s)
  {}

  lemma Exhausted(s: State, order: nat)
    requires Valid(s) && order <= MAX_ORDER && Sized(s) && forall k | order <= k <= MAX_ORDER :: s.lists[k] == []
    ensures forall a: nat :: !FreeRun(s, a, order)
  {
    NothingLeft(s, order);
  }

  /** buddy_alloc on values. */
  lemma AllocKeeps(s: State, order: nat, current: nat, page: nat)
    requires Valid(s) && Sized(s) && order <= current <= MAX_ORDER && s.lists[current] != [] && page == s.lists[current][0]
    ensures FreeRun(s, page, order) && Pow(order) <= s.freePages
    ensures var s' := Carve(s, page, order, current).(freePages := s.freePages - Pow(order));
      && Valid(s') && s'.regions == s.regions && Is(s', page, false, order) && SameUsed(s, s', page)
      && forall x: nat :: FreePage(s', x) <==> FreePage(s, x) && !(page <= x < page + Pow(order))
  {
    Found(s, order, current, page);
    CarveKeeps(s, page, order, current);
    hide Whole;
    hide FreeRun;
    hide FreePage;
    hide Pages;
    hide Carve;
    var s1 := Carve(s, page, order, current);
    CountOnly(s1, s.freePages - Pow(order));
    CarveLists(s, page, order, current);
  }

  lemma CarveLists(s: State, page: nat, order: nat, current: nat)
    requires Sized(s) && current <= MAX_ORDER
    ensures Sized(Carve(s, page, order, current))
  {}

  /** buddy_free on values. */
  lemma FreeKeeps(s: State, p: nat, k: nat)
    requires Valid(s) && Is(s, p, false, k)
    ensures FindRegion(s.regions, p, 0) < |s.regions| && k <= MAX_ORDER && Sized(s)
    ensures var s' := Release(Mark(s, p, Unused), s.regions[FindRegion(s.regions, p, 0)], p, k).(freePages := s.freePages + Pow(k));
      && Valid(s') && s'.regions == s.regions && SameUsed(s, s', p) && (Head(s', p) ==> s'.states[p].free)
      && (forall x: nat :: FreePage(s', x) <==> FreePage(s, x) || p <= x < p + Pow(k))
  {
    hide Whole;
    hide FreePage;
    hide Pages;
    hide SameUsed;
    hide AllUsed;
    hide Pow;
    UsedFits(s, p, k);
    ValidLists(s);
    var i, s1 := FindRegion(s.regions, p, 0), Mark(s, p, Unused);
    assert Fits(s.regions[i], p, k);
    TakeUsed(s, p, k);
    ReleaseKeeps(s1, i, p, k);
    var s2 := Release(s1, s.regions[i], p, k);
    CountOnly(s2, s.freePages + Pow(k));
    ReleaseUsed(s, s1, s2, s2.(freePages := s.freePages + Pow(k)), p);
  }

  lemma ReleaseUsed(s: State, s1: State, s2: State, s3: State, p: nat)
    requires s1.states == s.states[p := Unused] && AllUsed(s1, s2) && s3.states == s2.states
    ensures SameUsed(s, s3, p) && (Head(s3, p) ==> s3.states[p].free)
  {
    forall q: nat, j: nat ensures q != p ==> (Is(s, q, false, j) <==> Is(s3, q, false, j)) {
      assert Is(s1, q, false, j) <==> Is(s2, q, false, j);
    }
    if Head(s3, p) {
      var j := s3.states[p].order;
      assert Is(s1, p, false, j) <==> Is(s2, p, false, j);
    }
  }

  /** buddy_add_region on values. */
  lemma AddKeeps(s: State, s1: State, r: Region)
    requires Valid(s) && Grown(s, s1, r) && s1.freePages == s.freePages && r.start <= r.lo <= r.end && r.start < r.end
    requires forall i | 0 <= i < |s.regions| :: Apart(s.regions[i], r)
    ensures Sized(s1)
    ensures var s' := Paid(Seed(s1, r.lo, r.end), s.freePages + (r.end - r.lo));
      && Valid(s') && s'.regions == s1.regions && AllUsed(s, s')
      && forall x: nat :: FreePage(s', x) <==> FreePage(s, x) || r.lo <= x < r.end
  {
    ListsLength(s);
    hide Regions;
    hide Partition;
    hide Lists;
    hide Merged;
    hide FreePage;
    hide Pages;
    hide AllUsed;
    hide Greedy;
    RegionJoins(s, s1, r);
    SeedKeeps(s1, r, r.lo);
    var s2 := Seed(s1, r.lo, r.end);
    hide Seed;
    AllUsedTrans(s, s1, s2);
    CountOnly(s2, s.freePages + (r.end - r.lo));
    CountUsed(s, s2, s.freePages + (r.end - r.lo));
  }

  /** Only the page count changes. */
  lemma CountOnly(s: State, n: nat)
    ensures forall a: nat, b: nat :: Whole(s, a, b) ==> Whole(s.(freePages := n), a, b)
    ensures forall x: nat :: FreePage(s.(freePages := n), x) <==> FreePage(s, x)
  {
    var s' := s.(freePages := n);
    forall x: nat ensures (FreePage(s', x) <==> FreePage(s, x)) && (Covered(s, x) ==> Covered(s', x)) {
      forall p: nat ensures In(s', p, x) <==> In(s, p, x) {}
    }
    forall a: nat, b: nat | Whole(s, a, b) ensures Whole(s', a, b) {
      CountPartition(s, n, a, b);
      forall p, k ensures !Mates(s', p, k) { assert !Mates(s, p, k); }
      forall k, p | 0 <= k <= MAX_ORDER ensures p in s'.lists[k] <==> Is(s', p, true, k) {
        assert p in s.lists[k] <==> Is(s, p, true, k);
      }
    }
  }

  lemma CountUsed(s: State, t: State, n: nat)
    requires AllUsed(s, t)
    ensures AllUsed(s, t.(freePages := n))
  {
    forall q: nat, k: nat ensures Is(s, q, false, k) <==> Is(t.(freePages := n), q, false, k) {
      assert Is(s, q, false, k) <==> Is(t, q, false, k);
    }
  }

  lemma CountPartition(s: State, n: nat, a: nat, b: nat)
    requires Partition(s, a, b)
    ensures Partition(s.(freePages := n), a, b)
  {
    var s' := s.(freePages := n);
    forall x: nat | Allocatable(s', x) && !(a <= x < b) ensures Covered(s', x) {
      assert Allocatable(s, x) && Covered(s, x);
      var p: nat :| In(s, p, x);
      assert In(s', p, x);
    }
    forall p: nat | Head(s', p) ensures Head(s, p) && FitsRegion(s', p, s'.states[p].order) {
      assert FitsRegion(s, p, s.states[p].order);
    }
  }
}
