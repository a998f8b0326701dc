/** The page allocator of palloc.c: the buddy allocator below, a reference count for every single page above.

Single pages are counted, larger blocks are not.  Pages are numbered as in the buddy allocator; pointers are
byte addresses. */
module Palloc {
  import opened Common
  import opened Buddy
  import opened BuddyKernel
  import Cow = CopyOnWrite

  const REF_MAX: nat := 0xFFFF_FFFF

  /** The pages of every region have a count. */
  ghost predicate HaveCounts(regions: seq<Region>, refs: map<nat, nat>) {
    forall i, x: nat | 0 <= i < |regions| && regions[i].start <= x < regions[i].end :: x in refs
  }

  /** A page has references exactly while it is allocated as a single page. */
  ghost predicate CountsOk(s: State, refs: map<nat, nat>) {
    && HaveCounts(s.regions, refs)
    && (forall p | p in refs :: refs[p] <= REF_MAX && (refs[p] > 0 <==> Is(s, p, false, 0)))
  }

  /** A single allocated page has a count. */
  lemma AllocatedHasCount(s: State, refs: map<nat, nat>, p: nat)
    requires Buddy.Valid(s) && HaveCounts(s.regions, refs) && Is(s, p, false, 0)
    ensures p in refs
  {
    UsedFits(s, p, 0);
  }

  /** A run that was free was nobody's page. */
  lemma FreeUnused(s: State, p: nat, order: nat, k: nat)
    requires Buddy.Valid(s) && FreeRun(s, p, order)
    ensures !Is(s, p, false, k)
  {
    assert FreePage(s, p);
    var q :| In(s, q, p) && s.states[q].free;
    if Is(s, p, false, k) {
      assert In(s, p, p);
      SameBlock(s, p, q, p);
    }
  }

  lemma RunCounted(s: State, refs: map<nat, nat>, p: nat, order: nat)
    requires Buddy.Valid(s) && HaveCounts(s.regions, refs) && FreeRun(s, p, order)
    ensures p in refs
  {}

  /** What a new block does to the counts. */
  lemma NewBlock(s: State, s': State, refs: map<nat, nat>, p: nat, order: nat)
    requires Buddy.Valid(s) && CountsOk(s, refs) && s'.regions == s.regions && FreeRun(s, p, order)
    requires Is(s', p, false, order) && SameUsed(s, s', p)
    ensures p in refs && refs[p] == 0 && CountsOk(s', if order == 0 then refs[p := 1] else refs)
  {
    hide Buddy.Valid, FreeRun;
    FreeUnused(s, p, order, 0);
    RunCounted(s, refs, p, order);
  }

  /** What a freed block does to the counts, once its own count is 0. */
  lemma BlockGone(s: State, s': State, refs: map<nat, nat>, p: nat, order: nat)
    requires CountsOk(s, refs) && s'.regions == s.regions && SameUsed(s, s', p) && Is(s, p, false, order) && (!Head(s', p) || s'.states[p].free)
    ensures CountsOk(s', if order == 0 && p in refs then refs[p := 0] else refs)
  {}

  lemma SamePages(s: State, refs: map<nat, nat>, p: nat, n: nat)
    requires CountsOk(s, refs) && p in refs && refs[p] > 0 && 0 < n <= REF_MAX
    ensures CountsOk(s, refs[p := n])
  {}

  /** The frames of the user memory model are pages of this allocator, with the same counts. */
  ghost predicate Counts(refs: map<nat, nat>, m: Cow.State) {
    forall f | f in m.frames :: m.frames[f].refs > 0 && f in refs && refs[f] == m.frames[f].refs
  }

  class Pages {
    const buddy: Allocator
    var refs: map<nat, nat>

    ghost predicate Valid()
      reads this, buddy
    {
      Buddy.Valid(buddy.Abs()) && CountsOk(buddy.Abs(), refs)
    }

    constructor ()
      ensures Valid() && fresh(buddy) && buddy.regions == [] && refs == map[]
    {
      buddy := new Allocator();
      refs := map[];
    }

    /** alloc_pages: what it hands out has no references yet, so its PANIC is not reached, and it is no frame in use. */
    method AllocPages(order: nat, ghost m: Cow.State) returns (r: Result, panic: bool)
      requires Valid() && Counts(refs, m)
      modifies this, buddy
      ensures !panic && Valid()
      ensures r.Fail? <==> old(forall a: nat :: !FreeRun(buddy.Abs(), a, order))
      ensures r.Fail? ==> buddy.Abs() == old(buddy.Abs()) && refs == old(refs)
      ensures r.Got? ==> Is(buddy.Abs(), r.page, false, order) && SameUsed(old(buddy.Abs()), buddy.Abs(), r.page)
      ensures r.Got? ==> refs == if order == 0 then old(refs)[r.page := 1] else old(refs)
      ensures r.Got? ==> r.page !in m.frames && forall data: Cow.Page | order == 0 :: Counts(refs, Cow.AllocFrame(m, r.page, data))
    {
      hide Buddy.Valid, FreeRun, FreePage, SameUsed, CountsOk;
      ghost var s := buddy.Abs();
      panic := false;
      r := buddy.Alloc(order);
      if r.Got? {
        NewBlock(s, buddy.Abs(), refs, r.page, order);
        if order == 0 {
          if r.page !in refs || refs[r.page] != 0 {
            panic := true;
            return;
          }
          refs := refs[r.page := 1];
        }
      }
    }

    /** free_pages: PANICs exactly when the pointer is no allocated block of that order, or a single page with other references. */
    method FreePages(pointer: nat, order: nat) returns (panic: bool)
      requires Valid()
      modifies this, buddy
      ensures panic <==> !(pointer % PGSIZE == 0 && old(Is(buddy.Abs(), pointer / PGSIZE, false, order))
                           && (order == 0 ==> pointer / PGSIZE in old(refs) && old(refs)[pointer / PGSIZE] == 1))
      ensures !panic ==> Valid() && SameUsed(old(buddy.Abs()), buddy.Abs(), pointer / PGSIZE) && !Is(buddy.Abs(), pointer / PGSIZE, false, order)
      ensures !panic ==> forall p | p in old(refs) && p != pointer / PGSIZE :: p in refs && refs[p] == old(refs)[p]
    {
      hide Buddy.Valid, FreeRun, FreePage, SameUsed, CountsOk;
      ghost var s := buddy.Abs();
      ghost var was := refs;
      var p := pointer / PGSIZE;
      if order == 0 {
        if pointer % PGSIZE != 0 || p !in refs || refs[p] != 1 { return true; }
        refs := refs[p := 0];
      }
      var ok := buddy.Free(pointer, order);
      if !ok { return true; }
      BlockGone(s, buddy.Abs(), was, p, order);
      panic := false;
    }

    /** pfree: PANICs exactly when the pointer is no single allocated page; the second PANIC, for a page that the
        buddy allocator will not take back, is not reached. */
    method PFree(pointer: nat, ghost m: Cow.State) returns (panic: bool)
      requires Valid() && Counts(refs, m)
      modifies this, buddy
      ensures panic <==> !(pointer % PGSIZE == 0 && old(Is(buddy.Abs(), pointer / PGSIZE, false, 0)))
      ensures !panic ==> Valid() && SameUsed(old(buddy.Abs()), buddy.Abs(), pointer / PGSIZE)
      ensures !panic ==> pointer / PGSIZE in old(refs) && old(refs)[pointer / PGSIZE] > 0
      ensures !panic ==> refs == old(refs)[pointer / PGSIZE := old(refs)[pointer / PGSIZE] - 1]
      ensures !panic ==> (Is(buddy.Abs(), pointer / PGSIZE, false, 0) <==> old(refs)[pointer / PGSIZE] > 1)
      ensures !panic && pointer / PGSIZE in m.frames ==> Counts(refs, Cow.PFree(m, pointer / PGSIZE))
    {
      hide Buddy.Valid, FreeRun, FreePage, SameUsed, CountsOk, HaveCounts;
      ghost var s := buddy.Abs();
      ghost var was := refs;
      var p := pointer / PGSIZE;
      CountFacts(s, refs, p);
      if pointer % PGSIZE != 0 || p !in refs || refs[p] == 0 { return true; }
      var there := buddy.Allocated(pointer, 0);
      if !there { return true; }
      refs := refs[p := refs[p] - 1];
      if refs[p] == 0 {
        var ok := buddy.Free(pointer, 0);
        if !ok { return true; }
        BlockGone(s, buddy.Abs(), was, p, 0);
      } else {
        SamePages(s, was, p, refs[p]);
        NothingMoved(s, p);
      }
      panic := false;
    }

    /** palloc_get: refused exactly for what is no single allocated page, or at the largest count. */
    method Get(pointer: nat, ghost m: Cow.State) returns (ok: bool)
      requires Valid() && Counts(refs, m)
      modifies this`refs
      ensures Valid()
      ensures ok <==> pointer % PGSIZE == 0 && Is(buddy.Abs(), pointer / PGSIZE, false, 0) && pointer / PGSIZE in old(refs) && old(refs)[pointer / PGSIZE] < REF_MAX
      ensures refs == if ok then old(refs)[pointer / PGSIZE := old(refs)[pointer / PGSIZE] + 1] else old(refs)
      ensures ok && pointer / PGSIZE in m.frames ==> Counts(refs, Cow.Get(m, pointer / PGSIZE))
    {
      hide Buddy.Valid, CountsOk, HaveCounts;
      var p := pointer / PGSIZE;
      CountFacts(buddy.Abs(), refs, p);
      ok := false;
      if pointer % PGSIZE == 0 && p in refs && refs[p] != 0 && refs[p] != REF_MAX {
        ok := buddy.Allocated(pointer, 0);
        if ok {
          SamePages(buddy.Abs(), refs, p, refs[p] + 1);
          refs := refs[p := refs[p] + 1];
        }
      }
    }

    /** The loop body of palloc_init: the pages of a new range get counts, and all but its first ones become free. */
    method AddRange(start: nat, end: nat, lo: nat) returns (ok: bool)
      requires Valid()
      modifies this, buddy
      ensures Valid() && ok == (start < end && old(buddy.Acceptable(start, end, lo, (end - start) / PGSIZE)))
      ensures ok ==> AllUsed(old(buddy.Abs()), buddy.Abs()) && buddy.freePages == old(buddy.freePages) + (end / PGSIZE - lo / PGSIZE)
      ensures !ok ==> buddy.Abs() == old(buddy.Abs()) && refs == old(refs)
    {
      if start >= end { return false; }
      hide Buddy.Valid, FreePage, AllUsed, CountsOk;
      ghost var s := buddy.Abs();
      ok := buddy.AddRegion(start, end, lo, (end - start) / PGSIZE);
      if ok {
        RangeCounts(s, buddy.Abs(), refs, start / PGSIZE, end / PGSIZE);
        refs := refs + map x: nat | start / PGSIZE <= x < end / PGSIZE && InRange(start / PGSIZE, end / PGSIZE, x) :: 0;
      }
    }
  }

  predicate InRange(a: nat, b: nat, x: nat) { a <= x < b }

  lemma RangeCounts(s: State, s': State, refs: map<nat, nat>, a: nat, b: nat)
    requires Buddy.Valid(s) && CountsOk(s, refs) && AllUsed(s, s') && |s'.regions| == |s.regions| + 1 && s'.regions[..|s.regions|] == s.regions
    requires s'.regions[|s.regions|].start == a && s'.regions[|s.regions|].end == b
    requires forall i | 0 <= i < |s.regions| :: s.regions[i].end <= a || b <= s.regions[i].start
    ensures CountsOk(s', refs + map x: nat | a <= x < b && InRange(a, b, x) :: 0)
  {
    forall x: nat | a <= x < b ensures !Is(s, x, false, 0) {
      if Is(s, x, false, 0) { UsedFits(s, x, 0); }
    }
  }

  lemma CountFacts(s: State, refs: map<nat, nat>, p: nat)
    requires Buddy.Valid(s) && CountsOk(s, refs)
    ensures (Is(s, p, false, 0) ==> p in refs) && (p in refs ==> refs[p] <= REF_MAX && (refs[p] > 0 <==> Is(s, p, false, 0)))
  {
    hide Buddy.Valid;
    if Is(s, p, false, 0) { AllocatedHasCount(s, refs, p); }
  }

  lemma NothingMoved(s: State, p: nat)
    ensures SameUsed(s, s, p)
  {}
}
