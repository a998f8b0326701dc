/** The area list of vma.c as it is changed in place, with the references it holds.

Memory allocation can fail: each operation takes what its allocations will answer. */
module VmaKernel {
  import opened Common
  import opened Vma

  const MAXVA: nat := 0x40_0000_0000

  /** A reference to a file, as an executable mapping or an ordinary one, or to a backing. */
  datatype Ref = FileRef(file: nat, exec: bool) | BackingRef(backing: nat)

  function RefsOf(a: Area): multiset<Ref> {
    (if a.file != 0 then multiset{FileRef(a.file, a.usage == Elf)} else multiset{})
    + (if a.backing != 0 then multiset{BackingRef(a.backing)} else multiset{})
  }

  function AllRefs(s: seq<Area>): multiset<Ref> {
    if s == [] then multiset{} else RefsOf(s[0]) + AllRefs(s[1..])
  }

  lemma {:induction false} RefsConcat(s: seq<Area>, t: seq<Area>)
    ensures AllRefs(s + t) == AllRefs(s) + AllRefs(t)
    decreases s
  {
    if s == [] {
      assert s + t == t;
    } else {
      assert (s + t)[1..] == s[1..] + t;
      RefsConcat(s[1..], t);
    }
  }

  /** The references after the areas [i, j) have been replaced by `mid`. */
  lemma RefsReplace(s: seq<Area>, i: nat, j: nat, mid: seq<Area>)
    requires i <= j <= |s|
    ensures AllRefs(s) == AllRefs(s[..i]) + AllRefs(s[i..j]) + AllRefs(s[j..])
    ensures AllRefs(s[..i] + mid + s[j..]) == AllRefs(s[..i]) + AllRefs(mid) + AllRefs(s[j..])
  {
    assert s == s[..i] + s[i..j] + s[j..];
    RefsConcat(s[..i] + s[i..j], s[j..]);
    RefsConcat(s[..i], s[i..j]);
    RefsConcat(s[..i] + mid, s[j..]);
    RefsConcat(s[..i], mid);
  }

  lemma OneRef(a: Area)
    ensures AllRefs([a]) == RefsOf(a)
  {
    var s := [a];
    assert s[1..] == [];
    assert AllRefs(s) == RefsOf(s[0]) + AllRefs(s[1..]);
  }

  lemma Cancel(x: multiset<Ref>, a: multiset<Ref>, b: multiset<Ref>, y: multiset<Ref>)
    ensures x + (a + b) + y - b == x + a + y
  {}

  lemma MergeRefs(a: Area, b: Area)
    ensures RefsOf(MergePair(a, b)) == RefsOf(a)
  {}

  lemma JoinRefs(s: seq<Area>, i: nat)
    requires i + 1 < |s| && CanMerge(s[i], s[i + 1])
    ensures AllRefs(JoinAt(s, i)) == AllRefs(s) - RefsOf(s[i + 1])
  {
    hide AllRefs;
    hide RefsOf;
    var a, b, m := s[i], s[i + 1], MergePair(s[i], s[i + 1]);
    RefsReplace(s, i, i + 2, [m]);
    assert s[i..i + 2] == [a] + [b];
    RefsConcat([a], [b]);
    OneRef(a);
    OneRef(b);
    OneRef(m);
    MergeRefs(a, b);
    Cancel(AllRefs(s[..i]), RefsOf(a), RefsOf(b), AllRefs(s[i + 2..]));
  }

  lemma JoinInPlace(s: seq<Area>, i: nat)
    requires i + 1 < |s| && CanMerge(s[i], s[i + 1])
    ensures var t := s[i := MergePair(s[i], s[i + 1])]; t[..i + 1] + t[i + 2..] == JoinAt(s, i)
  {
    var t := s[i := MergePair(s[i], s[i + 1])];
    assert t[..i + 1] == s[..i] + [MergePair(s[i], s[i + 1])];
  }

  lemma MergeAllStep(s: seq<Area>, i: nat)
    requires i + 1 < |s|
    ensures CanMerge(s[i], s[i + 1]) ==> var t := JoinAt(s, i); |t| == |s| - 1 && t[..i] + MergeAll(t[i..]) == s[..i] + MergeAll(s[i..])
    ensures !CanMerge(s[i], s[i + 1]) ==> s[..i + 1] + MergeAll(s[i + 1..]) == s[..i] + MergeAll(s[i..])
  {
    hide MergeAll, CanMerge, MergePair, JoinAt;
    FromPlace(s, i);
    MergeAllHead(s[i..]);
    if CanMerge(s[i], s[i + 1]) {
      JoinParts(s, i);
    } else {
      Reassociate(s[..i], s[i], MergeAll(s[i + 1..]));
    }
  }

  lemma FromPlace(s: seq<Area>, i: nat)
    requires i + 1 < |s|
    ensures var u := s[i..]; |u| >= 2 && u[0] == s[i] && u[1] == s[i + 1] && u[2..] == s[i + 2..] && u[1..] == s[i + 1..]
    ensures s[..i + 1] == s[..i] + [s[i]]
  {}

  lemma JoinParts(s: seq<Area>, i: nat)
    requires i + 1 < |s| && CanMerge(s[i], s[i + 1])
    ensures var t := JoinAt(s, i); |t| == |s| - 1 && t[..i] == s[..i] && t[i..] == [MergePair(s[i], s[i + 1])] + s[i + 2..]
  {
    hide CanMerge, MergePair;
  }

  lemma Reassociate(a: seq<Area>, x: Area, b: seq<Area>)
    ensures (a + [x]) + b == a + ([x] + b)
  {}

  lemma MergeAllHead(s: seq<Area>)
    requires |s| >= 2
    ensures MergeAll(s) == if CanMerge(s[0], s[1]) then MergeAll([MergePair(s[0], s[1])] + s[2..]) else [s[0]] + MergeAll(s[1..])
  {}

  lemma MergeAllEnd(s: seq<Area>, i: nat)
    requires i <= |s| <= i + 1
    ensures s[..i] + MergeAll(s[i..]) == s
  {
    assert s == s[..i] + s[i..];
  }

  function SplitRefs(split: Option<Area>): multiset<Ref> {
    if split.None? then multiset{} else RefsOf(split.value)
  }

  predicate NeedsSplit(s: seq<Area>, start: nat, end: nat) {
    exists i :: 0 <= i < |s| && s[i].start < start && end < s[i].end
  }

  class VmaSet {
    var areas: seq<Area>
    var refs: multiset<Ref>

    /** vma_set_init. */
    constructor ()
      ensures Valid() && areas == []
    {
      areas, refs := [], multiset{};
    }

    ghost predicate Valid()
      reads this
    {
      Vma.Valid(areas, MAXVA) && refs == AllRefs(areas)
    }

    /** vma_find. */
    method Find(x: nat) returns (i: nat)
      requires AllOk(areas, MAXVA) && Ordered(areas)
      ensures i <= |areas| && (i < |areas| ==> Contains(areas[i], x))
      ensures i == |areas| ==> forall j | 0 <= j < |areas| :: !Contains(areas[j], x)
    {
      i := 0;
      while i < |areas|
        invariant i <= |areas| && forall j | 0 <= j < i :: !Contains(areas[j], x)
      {
        if x < areas[i].start {
          forall j | i <= j < |areas| ensures !Contains(areas[j], x) {
            if i < j { assert areas[i].end <= areas[j].start; }
          }
          return |areas|;
        }
        if x < areas[i].end {
          return;
        }
        i := i + 1;
      }
    }

    /** vma_range_mapped. */
    method RangeMapped(start: nat, end: nat) returns (r: bool)
      requires Vma.Valid(areas, MAXVA)
      ensures r <==> start < end && Mapped(areas, start, end)
    {
      forall x: nat ensures AttrAt(areas, x).Some? <==> exists i :: 0 <= i < |areas| && Contains(areas[i], x) { AttrSome(areas, x); }
      if start >= end {
        return false;
      }
      var cursor := start;
      for i := 0 to |areas|
        invariant start <= cursor < end && forall x: nat | start <= x < cursor :: AttrAt(areas, x).Some?
        invariant forall j | 0 <= j < i :: areas[j].end <= cursor
      {
        if areas[i].end <= cursor {
          continue;
        }
        if areas[i].start > cursor {
          forall j | 0 <= j < |areas| ensures !Contains(areas[j], cursor) {
            if i < j { assert areas[i].end <= areas[j].start; }
          }
          ghost var hole: nat := cursor;
          assert start <= hole < end && !AttrAt(areas, hole).Some?;
          return false;
        }
        forall x: nat | cursor <= x < areas[i].end ensures AttrAt(areas, x).Some? { assert Contains(areas[i], x); }
        if areas[i].end >= end {
          return true;
        }
        cursor := areas[i].end;
      }
      assert AttrAt(areas, cursor).None?;
      return false;
    }

    /** vma_merge_pair of the areas at `i` and `i + 1`. */
    method MergeAt(i: nat)
      requires i + 1 < |areas| && CanMerge(areas[i], areas[i + 1]) && refs == AllRefs(areas)
      modifies this
      ensures areas == JoinAt(old(areas), i) && refs == AllRefs(areas)
    {
      var right := areas[i + 1];
      JoinRefs(areas, i);
      JoinInPlace(areas, i);
      areas := areas[i := MergePair(areas[i], right)];
      areas := areas[..i + 1] + areas[i + 2..];
      refs := refs - RefsOf(right);
    }

    /** vma_merge_all. */
    method MergeAllAreas()
      requires refs == AllRefs(areas)
      modifies this
      ensures areas == MergeAll(old(areas)) && refs == AllRefs(areas)
    {
      hide MergeAll;
      hide JoinAt;
      hide CanMerge;
      hide AllRefs;
      var i := 0;
      assert areas[..0] + MergeAll(areas[0..]) == MergeAll(areas) by { assert areas[0..] == areas; }
      while i + 1 < |areas|
        invariant i <= |areas| && refs == AllRefs(areas)
        invariant areas[..i] + MergeAll(areas[i..]) == MergeAll(old(areas))
        decreases |areas| - i
      {
        MergeAllStep(areas, i);
        if CanMerge(areas[i], areas[i + 1]) {
          MergeAt(i);
          continue;
        }
        i := i + 1;
      }
      MergeAllEnd(areas, i);
    }

    /** The area an insertion asks for can be made and does not overlap another. */
    ghost predicate Insertable(a: Area, alloc: bool)
      reads this
    {
      AreaOk(a, MAXVA) && FreeRange(areas, a.start, a.end) && alloc
    }

    /** vma_insert_file_length; the area is merged with its neighbours where that is possible. */
    method InsertArea(a: Area, alloc: bool) returns (ok: bool)
      requires Loose(areas, MAXVA) && refs == AllRefs(areas)
      modifies this
      ensures Loose(areas, MAXVA) && refs == AllRefs(areas) && (old(Vma.Valid(areas, MAXVA)) ==> Vma.Valid(areas, MAXVA))
      ensures ok <==> old(Insertable(a, alloc))
      ensures !ok ==> areas == old(areas)
      ensures ok ==> exists i: nat :: GoesAt(old(areas), i, a) && areas == Insert(old(areas), i, a)
      ensures ok ==> forall x: nat :: AttrAt(areas, x) == if Contains(a, x) then Some(AttrOf(a, x)) else AttrAt(old(areas), x)
    {
      if !AreaOk(a, MAXVA) {
        return false;
      }
      var i;
      ok, i := Place(a);
      if !ok || !alloc {
        return false;
      }
      ghost var s := areas;
      InsertLoose(s, i, a, MAXVA);
      if Vma.Valid(s, MAXVA) { InsertValid(s, i, a, MAXVA); }
      forall x: nat ensures AttrAt(Insert(s, i, a), x) == if Contains(a, x) then Some(AttrOf(a, x)) else AttrAt(s, x) {
        InsertMeaning(s, i, a, MAXVA, x);
      }
      LinkArea(i, a);
    }

    /** The search for the place of a new area. */
    method Place(a: Area) returns (ok: bool, i: nat)
      requires Loose(areas, MAXVA) && a.start < a.end
      ensures ok <==> FreeRange(areas, a.start, a.end)
      ensures ok ==> GoesAt(areas, i, a)
    {
      i := 0;
      while i < |areas|
        invariant i <= |areas| && forall j | 0 <= j < i :: areas[j].end <= a.start
      {
        if a.end <= areas[i].start {
          forall j | i <= j < |areas| ensures a.end <= areas[j].start {
            if i < j { assert areas[i].end <= areas[j].start; }
          }
          return true, i;
        }
        if a.start < areas[i].end {
          return false, i;
        }
        i := i + 1;
      }
      ok := true;
    }

    /** vma_allocate, the list insertion and the two merges. */
    method LinkArea(i: nat, a: Area)
      requires i <= |areas| && refs == AllRefs(areas)
      modifies this
      ensures areas == Insert(old(areas), i, a) && refs == AllRefs(areas)
    {
      hide CanMerge;
      hide AllRefs;
      InsertRefs(areas, i, a);
      refs := refs + RefsOf(a);
      areas := areas[..i] + [a] + areas[i..];
      var k := i;
      if i > 0 && CanMerge(areas[i - 1], areas[i]) {
        MergeAt(i - 1);
        k := i - 1;
      }
      if k + 1 < |areas| && CanMerge(areas[k], areas[k + 1]) {
        MergeAt(k);
      }
    }

    /** vma_unmap: exactly [start, end) loses its attributes. */
    method UnmapRange(start: nat, end: nat, alloc: bool) returns (ok: bool)
      requires Valid()
      modifies this
      ensures Valid()
      ensures ok <==> start < end && start % PGSIZE == 0 && end % PGSIZE == 0 && (NeedsSplit(old(areas), start, end) ==> alloc)
      ensures !ok ==> areas == old(areas)
      ensures ok ==> forall x: nat :: AttrAt(areas, x) == if start <= x < end then None else AttrAt(old(areas), x)
    {
      if start >= end || start % PGSIZE != 0 || end % PGSIZE != 0 {
        return false;
      }
      var i := Find(start);
      SplitFound(areas, start, end, i);
      var split := None;
      if i < |areas| && areas[i].start < start && areas[i].end > end {
        if !alloc {
          return false;
        }
        split := Some(Upper(areas[i], end));
      }
      UnmapValid(areas, start, end, MAXVA);
      forall x: nat ensures AttrAt(Unmap(areas, start, end), x) == if start <= x < end then None else AttrAt(areas, x) {
        UnmapMeaning(areas, start, end, x);
      }
      hide Vma.Valid;
      refs := refs + SplitRefs(split);
      Cut(start, end, i, split);
      ok := true;
    }

    /** The removal loop of vma_unmap. */
    method Cut(start: nat, end: nat, ghost at: nat, split0: Option<Area>)
      requires AllOk(areas, MAXVA) && Ordered(areas) && start < end && refs == AllRefs(areas) + SplitRefs(split0)
      requires split0.Some? ==> at < |areas| && areas[at].start <= end && split0.value == Upper(areas[at], end)
      requires forall j | 0 <= j < |areas| && areas[j].start < start && end < areas[j].end :: split0.Some? && j == at
      modifies this
      ensures areas == Unmap(old(areas), start, end) && refs == AllRefs(areas)
    {
      hide AllRefs;
      hide RefsOf;
      hide Unmap;
      hide UnmapOne;
      hide AllOk;
      hide Ordered;
      hide Upper;
      ghost var s, m := areas, 0;
      var k, split, stop := 0, split0, false;
      CutStart(s, start, end);
      while k < |areas| && !stop
        invariant m <= |s| && areas == Unmap(s[..m], start, end) + s[m..] && (!stop ==> k == |Unmap(s[..m], start, end)|)
        invariant refs == AllRefs(areas) + SplitRefs(split) && (!stop && m <= at ==> split == split0)
        invariant stop ==> forall j | m <= j < |s| :: s[j].start >= end
        decreases |s| - m, !stop
      {
        CutStep(s, m, start, end);
        AfterArea(s, m, end);
        k, split, stop := CutOne(k, start, end, split);
        m := m + 1;
      }
      CutEnd(s, m, start, end);
      if split.Some? {
        refs := refs - RefsOf(split.value);
      }
    }

    /** One turn of the loop; `stop` when the list holds nothing further in the range. */
    method CutOne(k0: nat, start: nat, end: nat, split0: Option<Area>) returns (k: nat, split: Option<Area>, stop: bool)
      requires k0 < |areas| && start < end && refs == AllRefs(areas) + SplitRefs(split0)
      requires areas[k0].start < start && end < areas[k0].end ==> split0 == Some(Upper(areas[k0], end))
      modifies this
      ensures areas == old(areas)[..k0] + UnmapOne(old(areas)[k0], start, end) + old(areas)[k0 + 1..]
      ensures refs == AllRefs(areas) + SplitRefs(split)
      ensures stop <==> old(areas)[k0].start >= end || (old(areas)[k0].end > start && end < old(areas)[k0].end)
      ensures !stop ==> k == k0 + |UnmapOne(old(areas)[k0], start, end)| && split == split0
    {
      hide AllRefs;
      hide RefsOf;
      k, split, stop := k0, split0, false;
      var a := areas[k];
      UpdateAt(areas, k, a);
      PieceRefs(a, start, end);
      if a.end <= start {
        stop := a.start >= end;
        k := k + 1;
      } else if a.start >= end {
        stop := true;
      } else if start <= a.start && end >= a.end {
        DropArea(k, SplitRefs(split));
      } else if start <= a.start {
        SetArea(k, Upper(a, end), SplitRefs(split));
        stop := true;
      } else if end >= a.end {
        SetArea(k, Lower(a, start), SplitRefs(split));
        k := k + 1;
      } else {
        SplitArea(k, Lower(a, start), split.value, multiset{});
        split := None;
        stop := true;
      }
    }

    /** The fields of an area change in place; `x` are references held besides. */
    method SetArea(k: nat, b: Area, ghost x: multiset<Ref>)
      requires k < |areas| && RefsOf(b) == RefsOf(areas[k]) && refs == AllRefs(areas) + x
      modifies this`areas
      ensures areas == old(areas)[..k] + [b] + old(areas)[k + 1..] && refs == AllRefs(areas) + x
    {
      RefsSame(areas, k, b);
      areas := areas[k := b];
    }

    method DropArea(k: nat, ghost x: multiset<Ref>)
      requires k < |areas| && refs == AllRefs(areas) + x
      modifies this
      ensures areas == old(areas)[..k] + [] + old(areas)[k + 1..] && refs == AllRefs(areas) + x
    {
      hide AllRefs;
      hide RefsOf;
      RefsGone(areas, k);
      UpdateAt(areas, k, areas[k]);
      refs := refs - RefsOf(areas[k]);
      areas := areas[..k] + areas[k + 1..];
    }

    /** The area at `k` is cut to `b`, and `c`, whose references are already held, follows it. */
    method SplitArea(k: nat, b: Area, c: Area, ghost x: multiset<Ref>)
      requires k < |areas| && RefsOf(b) == RefsOf(areas[k]) == RefsOf(c) && refs == AllRefs(areas) + RefsOf(c) + x
      modifies this`areas
      ensures areas == old(areas)[..k] + [b, c] + old(areas)[k + 1..] && refs == AllRefs(areas) + x
    {
      RefsTwice(areas, k, b, c);
      areas := areas[..k] + [b, c] + areas[k + 1..];
    }

    /** vma_protect: the protection of exactly [start, end) changes, if all of it is mapped. */
    method ProtectRange(start: nat, end: nat, protection: Prot, allocStart: bool, allocEnd: bool) returns (ok: bool)
      requires Valid()
      modifies this
      ensures Valid()
      ensures ok <==> start < end && start % PGSIZE == 0 && end % PGSIZE == 0 && Mapped(old(areas), start, end)
                      && (NoCross(old(areas), start) || allocStart) && (NoCross(old(areas), end) || allocEnd)
      ensures !ok ==> areas == old(areas)
      ensures ok ==>
        forall x: nat :: AttrAt(areas, x) == if start <= x < end then Protected(AttrAt(old(areas), x), protection) else AttrAt(old(areas), x)
    {
      hide AllRefs;
      hide RefsOf;
      hide AllOk;
      hide Ordered;
      hide FullyMerged;
      hide MergeAll;
      hide Recolor;
      hide NoCross;
      hide Mapped;
      hide AttrAt;
      if start >= end || start % PGSIZE != 0 || end % PGSIZE != 0 {
        return false;
      }
      ok := RangeMapped(start, end);
      if !ok {
        return;
      }
      var i := Find(start);
      var j := Find(end - 1);
      EndsFound(areas, start, end, i, j);
      if start > areas[i].start {
        if !allocStart {
          return false;
        }
        refs := refs + RefsOf(areas[i]);
      }
      if end < areas[j].end && !allocEnd {
        if start > areas[i].start {
          refs := refs - RefsOf(areas[i]);
        }
        return false;
      }
      ghost var s := areas;
      Isolate(start, end, i, j);
      ghost var t := areas;
      RecolorAreas(start, end, protection);
      MergeAllAreas();
      ProtectKeeps(s, t, start, end, protection);
    }

    /** The areas at the two ends of the range are cut there; the references of the first cut are held. */
    method Isolate(start: nat, end: nat, i: nat, j0: nat)
      requires Vma.Valid(areas, MAXVA) && start < end && start % PGSIZE == 0 && end % PGSIZE == 0
      requires i < |areas| && j0 < |areas| && Contains(areas[i], start) && Contains(areas[j0], end - 1)
      requires refs == AllRefs(areas) + if start > areas[i].start then RefsOf(areas[i]) else multiset{}
      modifies this
      ensures AllOk(areas, MAXVA) && Ordered(areas) && NoCross(areas, start) && NoCross(areas, end)
      ensures refs == AllRefs(areas) && forall x: nat :: AttrAt(areas, x) == AttrAt(old(areas), x)
    {
      hide AllRefs;
      hide RefsOf;
      hide AllOk;
      hide Ordered;
      hide NoCross;
      hide AttrAt;
      ghost var s := areas;
      var endSplit := None;
      if end < areas[j0].end {
        endSplit := Some(Upper(areas[j0], end));
        refs := refs + RefsOf(areas[j0]);
      }
      UpperRefs(areas[j0], end);
      CutFirst(start, i, SplitRefs(endSplit));
      CutLast(end, endSplit, s, i, j0, start);
    }

    method CutFirst(start: nat, i: nat, ghost x: multiset<Ref>)
      requires AllOk(areas, MAXVA) && Ordered(areas) && start % PGSIZE == 0 && i < |areas| && Contains(areas[i], start)
      requires refs == AllRefs(areas) + (if start > areas[i].start then RefsOf(areas[i]) else multiset{}) + x
      modifies this`areas
      ensures AllOk(areas, MAXVA) && Ordered(areas) && NoCross(areas, start) && StartSplit(old(areas), areas, i, start)
      ensures refs == AllRefs(areas) + x && forall y: nat :: AttrAt(areas, y) == AttrAt(old(areas), y)
    {
      hide AllRefs;
      hide RefsOf;
      hide AllOk;
      hide Ordered;
      hide NoCross;
      hide AttrAt;
      if start > areas[i].start {
        var a := areas[i];
        IsolateStart(areas, i, start);
        SplitArea(i, Lower(a, start), Upper(a, start), x);
      } else {
        StartClear(areas, i, start);
      }
    }

    method CutLast(end: nat, split: Option<Area>, ghost s: seq<Area>, ghost i: nat, ghost j0: nat, ghost start: nat)
      requires start < end && end % PGSIZE == 0 && AllOk(s, MAXVA) && Ordered(s) && i < |s| && j0 < |s| && Contains(s[i], start) && Contains(s[j0], end - 1)
      requires StartSplit(s, areas, i, start) && AllOk(areas, MAXVA) && Ordered(areas) && NoCross(areas, start)
      requires split == if end < s[j0].end then Some(Upper(s[j0], end)) else None
      requires refs == AllRefs(areas) + SplitRefs(split)
      modifies this`areas
      ensures AllOk(areas, MAXVA) && Ordered(areas) && NoCross(areas, start) && NoCross(areas, end)
      ensures refs == AllRefs(areas) && forall y: nat :: AttrAt(areas, y) == AttrAt(old(areas), y)
    {
      hide AllRefs;
      hide RefsOf;
      hide AllOk;
      hide Ordered;
      hide NoCross;
      hide AttrAt;
      hide StartSplit;
      if split.Some? {
        var j := Find(end - 1);
        IsolateEnd(s, areas, i, j0, j, start, end);
        SplitArea(j, Lower(areas[j], end), split.value, multiset{});
      } else {
        EndClear(s, areas, i, j0, start, end);
      }
    }

    /** The loop of vma_protect that sets the protection. */
    method RecolorAreas(start: nat, end: nat, protection: Prot)
      requires Ordered(areas) && AllOk(areas, MAXVA) && refs == AllRefs(areas)
      modifies this`areas
      ensures areas == Recolor(old(areas), start, end, protection) && refs == AllRefs(areas)
    {
      hide AllRefs;
      hide Recolor;
      ghost var s := areas;
      RecolorAt(s, start, end, protection);
      var k := 0;
      while k < |areas|
        invariant k <= |areas| == |s| && refs == AllRefs(areas)
        invariant forall j | 0 <= j < k :: areas[j] == RecolorOne(s[j], start, end, protection)
        invariant forall j | k <= j < |s| :: areas[j] == s[j]
      {
        if areas[k].end <= start {
          k := k + 1;
          continue;
        }
        if areas[k].start >= end {
          forall j | k <= j < |s| ensures areas[j] == RecolorOne(s[j], start, end, protection) {
            if k < j { assert s[k].end <= s[j].start; }
          }
          break;
        }
        RefsSame(areas, k, areas[k].(protection := protection));
        areas := areas[k := areas[k].(protection := protection)];
        k := k + 1;
      }
      assert areas == Recolor(s, start, end, protection);
    }

    /** vma_insert_elf_file.  A failure leaves everything as it was, except when the overlapping page has
        been taken over and the rest of the segment then cannot be inserted. */
    method InsertElf(e: Segment, allocSplit: bool, allocRest: bool) returns (ok: bool)
      requires Valid()
      modifies this
      ensures Loose(areas, MAXVA) && refs == AllRefs(areas) && (ok ==> Valid())
      ensures ok <==> old(Starts(areas, e, allocSplit) && RestFits(areas, e, allocRest))
      ensures old(!Starts(areas, e, allocSplit)) ==> areas == old(areas)
      ensures old(Starts(areas, e, allocSplit)) ==> forall x: nat :: AttrAt(areas, x) == ElfAttr(old(areas), e, ok, x)
      ensures !ok && old(Starts(areas, e, allocSplit)) ==>
        (Vma.Valid(areas, MAXVA) <==> AloneAt(old(areas), e))
    {
      hide Vma.Valid, AloneAt, Taken, Loose, AllRefs, RefsOf, AttrAt, FreeRange, MergeAll, Insert, GoesAt, PageSharable;
      LooseOf(areas);
      if !SegmentOk(e) {
        return false;
      }
      var i := Find(e.start);
      OverlapFound(areas, e.start, i);
      ghost var s := areas;
      var rest := e;
      if i < |areas| {
        var o := areas[i];
        if !PageSharable(o, e) {
          return false;
        }
        if o.start < e.start && !allocSplit {
          return false;
        }
        TakePage(i, e);
        AloneTaken(s, i, e);
        rest := Rest(e);
      } else {
        AloneElse(s, e);
      }
      NoRest(s, areas, e);
      SegmentFits(rest);
      ok := true;
      if rest.start < rest.end {
        ok := InsertArea(SegmentArea(rest), allocRest);
      }
      if ok {
        MergeAllMeans(areas);
        MergeAllAreas();
      }
    }

    /** The last page of the area at `i` becomes the page shared with the segment. */
    method TakePage(i: nat, e: Segment)
      requires Loose(areas, MAXVA) && refs == AllRefs(areas) && i < |areas| && Contains(areas[i], e.start) && SegmentOk(e) && PageSharable(areas[i], e)
      modifies this
      ensures Loose(areas, MAXVA) && refs == AllRefs(areas) && areas == Taken(old(areas), i, e)
      ensures forall x: nat :: AttrAt(areas, x) == PageAttr(old(areas), e, x)
      ensures forall lo: nat, hi: nat | e.start + PGSIZE <= lo :: FreeRange(areas, lo, hi) <==> FreeRange(old(areas), lo, hi)
    {
      hide AllRefs;
      hide RefsOf;
      hide AttrAt;
      hide AllOk;
      hide Ordered;
      hide SharedPage;
      ghost var s := areas;
      var k, o := i, areas[i];
      if o.start < e.start {
        refs := refs + RefsOf(o);
        IsolateStart(areas, i, e.start);
        SplitRange(areas, i, e);
        SplitArea(i, Lower(o, e.start), Upper(o, e.start), multiset{});
        k := i + 1;
      }
      SetPage(k, e);
      assert forall x: nat :: AttrAt(areas, x) == PageAttr(s, e, x);
    }

    method SetPage(k: nat, e: Segment)
      requires Loose(areas, MAXVA) && refs == AllRefs(areas) && k < |areas| && areas[k].start == e.start && areas[k].end == e.start + PGSIZE
      modifies this
      ensures Loose(areas, MAXVA) && refs == AllRefs(areas) && areas == old(areas)[k := SharedPage(old(areas)[k], e)]
      ensures forall x: nat :: AttrAt(areas, x) == PageAttr(old(areas), e, x)
      ensures forall lo: nat, hi: nat | e.start + PGSIZE <= lo :: FreeRange(areas, lo, hi) <==> FreeRange(old(areas), lo, hi)
    {
      hide AllRefs;
      hide RefsOf;
      var b := SharedPage(areas[k], e);
      RefsSet(areas, k, b);
      SetPageMeans(areas, k, e);
      refs := refs - RefsOf(areas[k]) + RefsOf(b);
      areas := areas[k := b];
    }

    /** vma_set_destroy. */
    method Destroy()
      requires refs == AllRefs(areas)
      modifies this
      ensures areas == [] && refs == multiset{}
    {
      while |areas| > 0
        invariant refs == AllRefs(areas)
        decreases |areas|
      {
        var a := areas[0];
        areas := areas[1..];
        FirstRefs(a, areas);
        refs := refs - RefsOf(a);
      }
    }

    /** vma_set_move: the areas and the references they hold change hands. */
    method MoveFrom(source: VmaSet)
      requires Valid() && source.Valid()
      modifies this, source
      ensures Valid() && source.Valid() && areas == old(source.areas) && (source != this ==> source.areas == [])
    {
      if this == source {
        return;
      }
      Destroy();
      areas, refs := source.areas, source.refs;
      source.areas, source.refs := [], multiset{};
    }

    /** vma_set_clone: the same areas, or none when one of the allocations fails; `budget` succeed. */
    method CloneFrom(source: VmaSet, budget: nat) returns (ok: bool)
      requires Valid() && source.Valid()
      modifies this
      ensures Valid() && (ok <==> this == source || |source.areas| <= budget)
      ensures source.areas == old(source.areas)
      ensures areas == if ok then old(source.areas) else []
    {
      if this == source {
        return true;
      }
      Destroy();
      ghost var s := source.areas;
      var n := 0;
      assert s[..0] == [];
      while n < |source.areas|
        invariant Valid() && source.areas == s && n <= |s| && n <= budget && areas == s[..n]
      {
        ok := InsertArea(source.areas[n], n < budget);
        NextArea(s, n);
        if !ok {
          Destroy();
          return false;
        }
        n := n + 1;
      }
      assert s[..n] == s;
      ok := true;
    }
  }

  const MAP_PRIVATE: nat := 2

  /** A loadable segment of a program file. */
  datatype Segment = Segment(start: nat, end: nat, protection: Prot, file: nat, offset: nat, fileLength: nat)

  predicate SegmentOk(e: Segment) {
    && e.file != 0 && e.start < e.end <= MAXVA && e.start % PGSIZE == 0 && e.end % PGSIZE == 0 && e.offset % PGSIZE == 0
    && e.end - e.start <= U64_MAX - e.offset && e.fileLength <= e.end - e.start
  }

  /** The first page of the segment is the last page of a private program area, and stays non-writable or non-executable. */
  predicate PageSharable(o: Area, e: Segment) {
    && e.start + PGSIZE <= e.end && o.end == e.start + PGSIZE && o.usage == Elf && o.flags == MAP_PRIVATE
    && !(Either(o.protection, e.protection).write && Either(o.protection, e.protection).exec)
  }

  function SegmentArea(e: Segment): Area {
    Area(e.start, e.end, e.offset, e.fileLength, e.protection, MAP_PRIVATE, true, Elf, e.file, 0)
  }

  /** The segment without its first page. */
  function Rest(e: Segment): Segment {
    Segment(e.start + PGSIZE, e.end, e.protection, e.file, e.offset + PGSIZE, if e.fileLength > PGSIZE then e.fileLength - PGSIZE else 0)
  }

  /** The shared page: both protections, and the file only if both mean the same part of it. */
  function SharedPage(o: Area, e: Segment): Area {
    var b := o.(protection := Either(o.protection, e.protection));
    if o.fileBacked && (o.file != e.file || o.offset != e.offset) then b.(file := 0, fileBacked := false, offset := 0, fileLength := 0)
    else if o.fileBacked && o.fileLength < e.fileLength then b.(fileLength := if e.fileLength < PGSIZE then e.fileLength else PGSIZE)
    else b
  }

  /** The areas once the last page of the area at `i` has been taken over. */
  function Taken(s: seq<Area>, i: nat, e: Segment): seq<Area>
    requires i < |s| && s[i].start <= e.start
  {
    if s[i].start < e.start then s[..i] + [Lower(s[i], e.start), SharedPage(Upper(s[i], e.start), e)] + s[i + 1..]
    else s[i := SharedPage(s[i], e)]
  }

  /** The page taken over cannot be merged with the area before it or the one after it. */
  predicate PageAlone(s: seq<Area>, i: nat, e: Segment)
    requires i < |s| && s[i].start <= e.start
  {
    var page := SharedPage(Upper(s[i], e.start), e);
    && (if s[i].start < e.start then !CanMerge(Lower(s[i], e.start), page) else i > 0 ==> !CanMerge(s[i - 1], page))
    && (i + 1 < |s| ==> !CanMerge(page, s[i + 1]))
  }

  /** The same for the area that holds the first page of the segment, if there is one. */
  ghost predicate AloneAt(s: seq<Area>, e: Segment) {
    forall i | 0 <= i < |s| && Contains(s[i], e.start) :: PageAlone(s, i, e)
  }

  lemma AloneTaken(s: seq<Area>, i: nat, e: Segment)
    requires Vma.Valid(s, MAXVA) && i < |s| && Contains(s[i], e.start) && Loose(Taken(s, i, e), MAXVA)
    ensures Vma.Valid(Taken(s, i, e), MAXVA) <==> AloneAt(s, e)
  {
    hide PageAlone, Taken, AllOk, FullyMerged;
    TakenMerged(s, i, e);
  }

  lemma AloneElse(s: seq<Area>, e: Segment)
    requires !Overlaps(s, e.start)
    ensures AloneAt(s, e)
  {}

  /** After a failure the list is still fully merged exactly when the page taken over stands alone. */
  lemma TakenMerged(s: seq<Area>, i: nat, e: Segment)
    requires Vma.Valid(s, MAXVA) && i < |s| && s[i].start <= e.start
    ensures FullyMerged(Taken(s, i, e)) <==> PageAlone(s, i, e)
  {
    hide SharedPage, CanMerge, AllOk, Ordered, Lower, Upper;
    var page := SharedPage(Upper(s[i], e.start), e);
    if s[i].start < e.start {
      forall z ensures CanMerge(z, Lower(s[i], e.start)) <==> CanMerge(z, s[i]) { LowerMerges(z, s[i], e.start); }
      MergedSplit(s, i, Lower(s[i], e.start), page);
    } else {
      UpperWhole(s[i]);
      MergedSwap(s, i, page);
    }
  }

  lemma LowerMerges(z: Area, a: Area, at: nat)
    requires a.start <= at
    ensures CanMerge(z, Lower(a, at)) <==> CanMerge(z, a)
  {}

  lemma MergedSplit(s: seq<Area>, i: nat, lower: Area, page: Area)
    requires FullyMerged(s) && i < |s| && forall z :: CanMerge(z, lower) <==> CanMerge(z, s[i])
    ensures FullyMerged(s[..i] + [lower, page] + s[i + 1..]) <==> !CanMerge(lower, page) && (i + 1 < |s| ==> !CanMerge(page, s[i + 1]))
  {
    hide CanMerge;
    var t := s[..i] + [lower, page] + s[i + 1..];
    assert forall k | 0 <= k < |t| :: t[k] == if k < i then s[k] else if k == i then lower else if k == i + 1 then page else s[k - 1];
    if !CanMerge(lower, page) && (i + 1 < |s| ==> !CanMerge(page, s[i + 1])) {
      forall k | 0 <= k < |t| - 1 ensures !CanMerge(t[k], t[k + 1]) {
        if k < i { assert !CanMerge(s[k], s[k + 1]); } else if k > i + 1 { assert !CanMerge(s[k - 1], s[k]); }
      }
    } else {
      assert CanMerge(t[i], t[i + 1]) || CanMerge(t[i + 1], t[i + 2]);
    }
  }

  lemma MergedSwap(s: seq<Area>, i: nat, page: Area)
    requires FullyMerged(s) && i < |s|
    ensures FullyMerged(s[i := page]) <==> (i > 0 ==> !CanMerge(s[i - 1], page)) && (i + 1 < |s| ==> !CanMerge(page, s[i + 1]))
  {
    hide CanMerge;
    var t := s[i := page];
    if (i > 0 ==> !CanMerge(s[i - 1], page)) && (i + 1 < |s| ==> !CanMerge(page, s[i + 1])) {
      forall k | 0 <= k < |t| - 1 ensures !CanMerge(t[k], t[k + 1]) { assert !CanMerge(s[k], s[k + 1]); }
    } else {
      assert (i > 0 && CanMerge(t[i - 1], t[i - 1 + 1])) || CanMerge(t[i], t[i + 1]);
    }
  }

  lemma UpperWhole(a: Area)
    ensures Upper(a, a.start) == a
  {}

  /** The same on the attributes of one address. */
  function SharedAttr(a: Attr, e: Segment, x: nat): Attr
    requires e.start <= x
  {
    var b := a.(protection := Either(a.protection, e.protection));
    if a.fileBacked && (a.file != e.file || a.position != e.offset + (x - e.start))
    then b.(file := 0, fileBacked := false, position := 0, inFile := false)
    else if a.fileBacked then b.(inFile := a.inFile || x - e.start < e.fileLength)
    else b
  }

  predicate Overlaps(s: seq<Area>, x: nat) {
    exists i :: 0 <= i < |s| && Contains(s[i], x)
  }

  /** The insertion gets past its checks and the one allocation for the shared page. */
  predicate Starts(s: seq<Area>, e: Segment, allocSplit: bool) {
    SegmentOk(e) && forall i | 0 <= i < |s| && Contains(s[i], e.start) :: PageSharable(s[i], e) && (s[i].start < e.start ==> allocSplit)
  }

  /** What is left of the segment after a shared first page. */
  function Remaining(s: seq<Area>, e: Segment): Segment {
    if Overlaps(s, e.start) then Rest(e) else e
  }

  predicate RestFits(s: seq<Area>, e: Segment, allocRest: bool) {
    var r := Remaining(s, e);
    r.start < r.end ==> FreeRange(s, r.start, r.end) && allocRest
  }

  /** What every address means afterwards. */
  function ElfAttr(s: seq<Area>, e: Segment, ok: bool, x: nat): Option<Attr> {
    var r := Remaining(s, e);
    if Overlaps(s, e.start) && e.start <= x < e.start + PGSIZE && AttrAt(s, x).Some? then Some(SharedAttr(AttrAt(s, x).value, e, x))
    else if ok && Contains(SegmentArea(r), x) then Some(AttrOf(SegmentArea(r), x))
    else AttrAt(s, x)
  }

  /** An address of the page that the segment shares with an earlier one. */
  predicate OnSharedPage(s: seq<Area>, e: Segment, x: nat) {
    Overlaps(s, e.start) && e.start <= x < e.start + 4096
  }

  /** What a program sees afterwards.  The shared page allows what either segment allows, never both writing and executing,
      and keeps its file only where both mean the same byte of it; the rest of the segment reads its file from its offset on
      and is zero behind the file; outside nothing changes. */
  lemma ElfMeaning(s: seq<Area>, e: Segment, allocSplit: bool, allocRest: bool, x: nat)
    requires Vma.Valid(s, MAXVA) && Starts(s, e, allocSplit)
    ensures var was, now, ok := AttrAt(s, x), ElfAttr(s, e, RestFits(s, e, allocRest), x), RestFits(s, e, allocRest);
      if !(e.start <= x < e.end) then now == was
      else if OnSharedPage(s, e, x) then
        && was.Some? && now.Some?
        && var a, b := was.value, now.value;
          && (b.protection.read <==> a.protection.read || e.protection.read)
          && (b.protection.write <==> a.protection.write || e.protection.write)
          && (b.protection.exec <==> a.protection.exec || e.protection.exec)
          && !(b.protection.write && b.protection.exec) && b.usage == a.usage == Elf && b.flags == a.flags == MAP_PRIVATE && b.backing == a.backing
          && (b.fileBacked <==> a.fileBacked && a.file == e.file && a.position == e.offset + (x - e.start))
          && (b.fileBacked ==> b.file == a.file && b.position == a.position && (b.inFile <==> a.inFile || x - e.start < e.fileLength))
      else if ok then
        now == Some(Attr(e.protection, MAP_PRIVATE, true, Elf, e.file, 0, e.offset + (x - e.start), x - e.start < e.fileLength))
      else now == was
  {
    hide RestFits, AttrAt, Vma.Valid, Overlaps;
    if OnSharedPage(s, e, x) { SharedPageWas(s, e, allocSplit, x); }
  }

  /** What the shared page meant before. */
  lemma SharedPageWas(s: seq<Area>, e: Segment, allocSplit: bool, x: nat)
    requires Vma.Valid(s, MAXVA) && Starts(s, e, allocSplit) && OnSharedPage(s, e, x)
    ensures x < e.end && AttrAt(s, x).Some?
    ensures var a := AttrAt(s, x).value;
      a.usage == Elf && a.flags == MAP_PRIVATE && !(Either(a.protection, e.protection).write && Either(a.protection, e.protection).exec)
  {
    var i :| 0 <= i < |s| && Contains(s[i], e.start);
    assert PageSharable(s[i], e) && AreaOk(s[i], MAXVA) && Contains(s[i], x);
    hide CanMerge;
    assert forall j | 0 <= j < |s| :: s[j].start <= s[j].end by { assert forall j | 0 <= j < |s| :: AreaOk(s[j], MAXVA); }
    AttrIs(s, i, x);
  }

  /** What an address means once the shared page has been taken over. */
  function PageAttr(s: seq<Area>, e: Segment, x: nat): Option<Attr> {
    if e.start <= x < e.start + PGSIZE && AttrAt(s, x).Some? then Some(SharedAttr(AttrAt(s, x).value, e, x)) else AttrAt(s, x)
  }

  lemma LooseOf(s: seq<Area>)
    requires Vma.Valid(s, MAXVA)
    ensures Loose(s, MAXVA) && AllOk(s, MAXVA) && Ordered(s)
  {}

  lemma OverlapFound(s: seq<Area>, x: nat, i: nat)
    requires Vma.Valid(s, MAXVA) && i <= |s| && (i < |s| ==> Contains(s[i], x)) && (i == |s| ==> forall j | 0 <= j < |s| :: !Contains(s[j], x))
    ensures Overlaps(s, x) <==> i < |s|
    ensures forall j | 0 <= j < |s| && Contains(s[j], x) :: j == i
  {}

  lemma SharedPageMeans(o: Area, e: Segment, x: nat)
    requires o.start == e.start && o.end == e.start + PGSIZE && Contains(o, x) && AreaOk(o, MAXVA)
    ensures var b := SharedPage(o, e); Contains(b, x) && AttrOf(b, x) == SharedAttr(AttrOf(o, x), e, x)
  {}

  lemma SetPageMeans(s: seq<Area>, k: nat, e: Segment)
    requires Loose(s, MAXVA) && k < |s| && s[k].start == e.start && s[k].end == e.start + PGSIZE
    ensures Loose(s[k := SharedPage(s[k], e)], MAXVA)
    ensures forall x: nat :: AttrAt(s[k := SharedPage(s[k], e)], x) == PageAttr(s, e, x)
    ensures forall lo: nat, hi: nat | e.start + PGSIZE <= lo :: FreeRange(s[k := SharedPage(s[k], e)], lo, hi) <==> FreeRange(s, lo, hi)
  {
    var b := SharedPage(s[k], e);
    var t := s[k := b];
    SharedPageOk(s[k], e);
    hide SharedPage, AreaOk, AttrAt, AttrOf;
    forall x: nat ensures AttrAt(t, x) == PageAttr(s, e, x) { SetPageAt(s, k, e, x); }
    SameExtents(s, t);
  }

  lemma SameExtents(s: seq<Area>, t: seq<Area>)
    requires |t| == |s| && forall j | 0 <= j < |s| :: t[j].start == s[j].start && t[j].end == s[j].end
    ensures forall lo: nat, hi: nat :: FreeRange(t, lo, hi) <==> FreeRange(s, lo, hi)
  {
    forall lo: nat, hi: nat ensures FreeRange(t, lo, hi) <==> FreeRange(s, lo, hi) {
      if FreeRange(s, lo, hi) { forall j | 0 <= j < |t| ensures t[j].end <= lo || hi <= t[j].start { assert s[j].end <= lo || hi <= s[j].start; } }
      if FreeRange(t, lo, hi) { forall j | 0 <= j < |s| ensures s[j].end <= lo || hi <= s[j].start { assert t[j].end <= lo || hi <= t[j].start; } }
    }
  }

  lemma SharedPageOk(o: Area, e: Segment)
    requires AreaOk(o, MAXVA) && o.start == e.start && o.end == e.start + PGSIZE
    ensures var b := SharedPage(o, e); b.start == o.start && b.end == o.end && AreaOk(b, MAXVA)
  {}

  lemma SetPageAt(s: seq<Area>, k: nat, e: Segment, x: nat)
    requires Loose(s, MAXVA) && k < |s| && s[k].start == e.start && s[k].end == e.start + PGSIZE
    ensures AttrAt(s[k := SharedPage(s[k], e)], x) == PageAttr(s, e, x)
  {
    assert AreaOk(s[k], MAXVA);
    SharedPageOk(s[k], e);
    var t := s[k := SharedPage(s[k], e)];
    hide SharedPage, AttrAt, AttrOf;
    AttrSome(s, x);
    AttrSome(t, x);
    if j :| 0 <= j < |s| && Contains(s[j], x) {
      AttrIs(s, j, x);
      AttrIs(t, j, x);
      if j == k { SharedPageMeans(s[k], e, x); }
    }
  }

  lemma SplitRange(s: seq<Area>, i: nat, e: Segment)
    requires i < |s| && s[i].start < e.start && s[i].end == e.start + PGSIZE
    ensures var t := SplitAt(s, i, e.start);
      && i + 1 < |t| && t[i + 1].start == e.start && t[i + 1].end == e.start + PGSIZE
      && forall lo: nat, hi: nat | e.start + PGSIZE <= lo :: FreeRange(t, lo, hi) <==> FreeRange(s, lo, hi)
  {
    var t := SplitAt(s, i, e.start);
    assert forall k | 0 <= k < |t| :: t[k] == if k < i then s[k] else if k == i then Lower(s[i], e.start) else if k == i + 1 then Upper(s[i], e.start) else s[k - 1];
    forall lo: nat, hi: nat | e.start + PGSIZE <= lo ensures FreeRange(t, lo, hi) <==> FreeRange(s, lo, hi) {
      if FreeRange(t, lo, hi) {
        forall k | 0 <= k < |s| ensures s[k].end <= lo || hi <= s[k].start { assert t[if k <= i then k else k + 1].end <= lo || hi <= t[if k <= i then k else k + 1].start; }
      }
    }
  }

  lemma SegmentFits(e: Segment)
    requires e.file != 0 && e.end <= MAXVA && e.start % PGSIZE == 0 && e.end % PGSIZE == 0 && e.offset % PGSIZE == 0
    requires e.start < e.end ==> e.end - e.start <= U64_MAX - e.offset && e.fileLength <= e.end - e.start
    ensures e.start < e.end ==> AreaOk(SegmentArea(e), MAXVA)
  {}

  lemma NoRest(s: seq<Area>, t: seq<Area>, e: Segment)
    requires SegmentOk(e)
    ensures Rest(e).start < Rest(e).end ==> Rest(e).end - Rest(e).start <= U64_MAX - Rest(e).offset && Rest(e).fileLength <= Rest(e).end - Rest(e).start
  {}

  lemma MergeAllMeans(s: seq<Area>)
    requires Loose(s, MAXVA)
    ensures Vma.Valid(MergeAll(s), MAXVA) && Loose(MergeAll(s), MAXVA) && forall x: nat :: AttrAt(MergeAll(s), x) == AttrAt(s, x)
  {
    MergeAllValid(s, MAXVA);
    forall x: nat ensures AttrAt(MergeAll(s), x) == AttrAt(s, x) { MergeAllMeaning(s, x); }
  }

  lemma RefsSet(s: seq<Area>, k: nat, b: Area)
    requires k < |s|
    ensures AllRefs(s[k := b]) == AllRefs(s) - RefsOf(s[k]) + RefsOf(b)
  {
    hide AllRefs;
    hide RefsOf;
    UpdateAt(s, k, b);
    RefsReplace(s, k, k + 1, [b]);
    OneRef(s[k]);
    OneRef(b);
    Swapped(AllRefs(s[..k]), RefsOf(s[k]), RefsOf(b), AllRefs(s[k + 1..]));
  }

  lemma Swapped(x: multiset<Ref>, a: multiset<Ref>, b: multiset<Ref>, y: multiset<Ref>)
    ensures x + a + y - a + b == x + b + y
  {}

  /** Taking over the page would change nothing: the segment asks for no more than the page already has. */
  predicate PageUnchanged(o: Area, e: Segment)
    requires o.start <= e.start
  {
    && Either(o.protection, e.protection) == o.protection
    && (o.fileBacked ==>
         var u := Upper(o, e.start);
         u.file == e.file && u.offset == e.offset && (e.fileLength <= u.fileLength || PGSIZE <= u.fileLength))
  }

  /** A failed insertion leaves every address as it was exactly when no page was shared, or sharing it changed nothing. */
  lemma ElfFailure(s: seq<Area>, e: Segment, allocSplit: bool)
    requires Vma.Valid(s, MAXVA) && Starts(s, e, allocSplit)
    ensures (forall x: nat :: ElfAttr(s, e, false, x) == AttrAt(s, x))
       <==> forall i | 0 <= i < |s| && Contains(s[i], e.start) :: PageUnchanged(s[i], e)
  {
    if i :| 0 <= i < |s| && Contains(s[i], e.start) {
      assert forall j | 0 <= j < |s| && Contains(s[j], e.start) :: j == i;
      var o := s[i];
      assert PageSharable(o, e) && AreaOk(o, MAXVA);
      if PageUnchanged(o, e) {
        forall x: nat ensures ElfAttr(s, e, false, x) == AttrAt(s, x) {
          if e.start <= x < e.start + PGSIZE { PageStays(s, i, e, x); }
        }
      } else {
        var x := PageDiffers(s, i, e);
        assert ElfAttr(s, e, false, x) != AttrAt(s, x);
      }
    }
  }

  lemma PageStays(s: seq<Area>, i: nat, e: Segment, x: nat)
    requires Vma.Valid(s, MAXVA) && i < |s| && Contains(s[i], e.start) && PageSharable(s[i], e) && PageUnchanged(s[i], e)
    requires e.start <= x < e.start + PGSIZE
    ensures AttrAt(s, x).Some? && SharedAttr(AttrAt(s, x).value, e, x) == AttrAt(s, x).value
  {
    AttrIs(s, i, x);
  }

  lemma PageDiffers(s: seq<Area>, i: nat, e: Segment) returns (x: nat)
    requires Vma.Valid(s, MAXVA) && i < |s| && Contains(s[i], e.start) && PageSharable(s[i], e) && !PageUnchanged(s[i], e)
    ensures e.start <= x < e.start + PGSIZE && AttrAt(s, x).Some? && SharedAttr(AttrAt(s, x).value, e, x) != AttrAt(s, x).value
  {
    var o := s[i];
    var u := Upper(o, e.start);
    x := e.start;
    if Either(o.protection, e.protection) == o.protection && o.fileBacked && u.file == e.file && u.offset == e.offset {
      x := e.start + u.fileLength;
    }
    AttrIs(s, i, x);
  }

  /** Such a failure exists: a read-only page turns executable although the call reports an error. */
  lemma ElfFailureExample()
    ensures exists s: seq<Area>, e: Segment, x: nat ::
      Vma.Valid(s, MAXVA) && Starts(s, e, true) && !RestFits(s, e, false) && ElfAttr(s, e, false, x) != AttrAt(s, x)
  {
    var o := Area(0, PGSIZE, 0, PGSIZE, Prot(true, false, false), MAP_PRIVATE, true, Elf, 1, 0);
    var e := Segment(0, 2 * PGSIZE, Prot(true, false, true), 1, 0, 2 * PGSIZE);
    var s := [o];
    assert Contains(s[0], e.start);
    assert Starts(s, e, true) && !RestFits(s, e, false);
    assert AttrAt(s, 0) == Some(AttrOf(o, 0));
    assert ElfAttr(s, e, false, 0) != AttrAt(s, 0);
  }

  lemma FirstRefs(a: Area, s: seq<Area>)
    ensures AllRefs([a] + s) == RefsOf(a) + AllRefs(s)
  {
    assert ([a] + s)[1..] == s;
  }

  lemma NotBefore(s: seq<Area>, n: nat, i: nat)
    requires Vma.Valid(s, MAXVA) && i < n < |s|
    ensures !GoesAt(s[..n], i, s[n])
  {
    assert s[..n][i] == s[i];
  }

  /** The next area of a merged list goes last and merges with nothing. */
  lemma NextArea(s: seq<Area>, n: nat)
    requires Vma.Valid(s, MAXVA) && n < |s|
    ensures AreaOk(s[n], MAXVA) && FreeRange(s[..n], s[n].start, s[n].end)
    ensures forall i: nat | GoesAt(s[..n], i, s[n]) :: Insert(s[..n], i, s[n]) == s[..n + 1]
  {
    forall i: nat | GoesAt(s[..n], i, s[n]) ensures Insert(s[..n], i, s[n]) == s[..n + 1] {
      if i < n { NotBefore(s, n, i); }
      assert s[..n][..n] + [s[n]] + s[..n][n..] == s[..n + 1];
      assert n > 0 ==> !CanMerge(s[n - 1], s[n]);
    }
  }

  ghost predicate Mapped(s: seq<Area>, start: nat, end: nat) {
    forall x: nat | start <= x < end :: AttrAt(s, x).Some?
  }

  /** The ends of a mapped range lie in areas, which cross them or not. */
  lemma EndsFound(s: seq<Area>, start: nat, end: nat, i: nat, j: nat)
    requires Ordered(s) && AllOk(s, MAXVA) && start < end && Mapped(s, start, end)
    requires i <= |s| && (i < |s| ==> Contains(s[i], start)) && (i == |s| ==> forall k | 0 <= k < |s| :: !Contains(s[k], start))
    requires j <= |s| && (j < |s| ==> Contains(s[j], end - 1)) && (j == |s| ==> forall k | 0 <= k < |s| :: !Contains(s[k], end - 1))
    ensures i < |s| && j < |s|
    ensures NoCross(s, start) <==> s[i].start == start
    ensures NoCross(s, end) <==> s[j].end == end
  {
    assert AttrAt(s, start).Some? && AttrAt(s, end - 1).Some?;
    AttrSome(s, start);
    AttrSome(s, end - 1);
    assert i < |s| && j < |s|;
    assert forall k | 0 <= k < i :: s[k].end <= s[i].start;
    assert forall k | i < k < |s| :: s[i].end <= s[k].start;
    assert forall k | 0 <= k < j :: s[k].end <= s[j].start;
    assert forall k | j < k < |s| :: s[j].end <= s[k].start;
  }

  lemma StartClear(s: seq<Area>, i: nat, start: nat)
    requires Ordered(s) && AllOk(s, MAXVA) && i < |s| && s[i].start == start
    ensures NoCross(s, start)
  {
    assert forall k | 0 <= k < i :: s[k].end <= s[i].start;
    assert forall k | i < k < |s| :: s[i].end <= s[k].start;
  }

  lemma UpperRefs(a: Area, at: nat)
    ensures a.start <= at ==> RefsOf(Upper(a, at)) == RefsOf(a)
  {}

  lemma IsolateStart(s: seq<Area>, i: nat, start: nat)
    requires AllOk(s, MAXVA) && Ordered(s) && i < |s| && s[i].start < start < s[i].end && start % PGSIZE == 0
    ensures AllOk(SplitAt(s, i, start), MAXVA) && Ordered(SplitAt(s, i, start)) && NoCross(SplitAt(s, i, start), start)
    ensures forall x: nat :: AttrAt(SplitAt(s, i, start), x) == AttrAt(s, x)
    ensures RefsOf(Lower(s[i], start)) == RefsOf(s[i]) == RefsOf(Upper(s[i], start))
  {
    SplitAtOk(s, i, start, MAXVA);
    SplitAtCross(s, i, start, start);
    forall x: nat ensures AttrAt(SplitAt(s, i, start), x) == AttrAt(s, x) { SplitAtMeaning(s, i, start, x); }
  }

  predicate StartSplit(s: seq<Area>, t: seq<Area>, i: nat, start: nat)
    requires i < |s|
  {
    t == if s[i].start < start then SplitAt(s, i, start) else s
  }

  /** After the first cut, the area at the end of the range and its upper part. */
  lemma IsolateEnd(s: seq<Area>, t: seq<Area>, i: nat, j0: nat, j: nat, start: nat, end: nat)
    requires start < end && AllOk(s, MAXVA) && Ordered(s) && i < |s| && j0 < |s| && Contains(s[i], start) && Contains(s[j0], end - 1) && end < s[j0].end
    requires end % PGSIZE == 0 && StartSplit(s, t, i, start) && AllOk(t, MAXVA) && Ordered(t) && NoCross(t, start)
    requires j <= |t| && (j < |t| ==> Contains(t[j], end - 1)) && (j == |t| ==> forall k | 0 <= k < |t| :: !Contains(t[k], end - 1))
    ensures j < |t| && t[j].start < end < t[j].end && Upper(t[j], end) == Upper(s[j0], end)
    ensures AllOk(SplitAt(t, j, end), MAXVA) && Ordered(SplitAt(t, j, end)) && NoCross(SplitAt(t, j, end), start) && NoCross(SplitAt(t, j, end), end)
    ensures forall x: nat :: AttrAt(SplitAt(t, j, end), x) == AttrAt(t, x)
    ensures RefsOf(Lower(t[j], end)) == RefsOf(t[j]) == RefsOf(Upper(s[j0], end)) == RefsOf(s[j0])
  {
    EndArea(s, t, i, j0, j, start, end);
    SplitAtOk(t, j, end, MAXVA);
    SplitAtCross(t, j, end, start);
    forall x: nat ensures AttrAt(SplitAt(t, j, end), x) == AttrAt(t, x) { SplitAtMeaning(t, j, end, x); }
  }

  lemma EndArea(s: seq<Area>, t: seq<Area>, i: nat, j0: nat, j: nat, start: nat, end: nat)
    requires start < end && AllOk(s, MAXVA) && Ordered(s) && i < |s| && j0 < |s| && Contains(s[i], start) && Contains(s[j0], end - 1)
    requires StartSplit(s, t, i, start) && Ordered(t) && AllOk(t, MAXVA)
    requires j <= |t| && (j < |t| ==> Contains(t[j], end - 1)) && (j == |t| ==> forall k | 0 <= k < |t| :: !Contains(t[k], end - 1))
    ensures j < |t| && t[j].end == s[j0].end && (t[j] == s[j0] || t[j] == Upper(s[j0], start)) && t[j].start < end
    ensures Upper(t[j], end) == Upper(s[j0], end)
  {
    assert i <= j0;
    var m := if s[i].start < start then j0 + 1 else j0;
    assert t[m] == if s[i].start < start && j0 == i then Upper(s[i], start) else s[j0];
    assert Contains(t[m], end - 1);
    assert j == m;
    if s[i].start < start && j0 == i { UpperUpper(s[i], start, end); }
  }

  lemma EndClear(s: seq<Area>, t: seq<Area>, i: nat, j0: nat, start: nat, end: nat)
    requires start < end && AllOk(s, MAXVA) && Ordered(s) && i < |s| && j0 < |s| && Contains(s[i], start) && Contains(s[j0], end - 1) && s[j0].end == end
    requires StartSplit(s, t, i, start) && Ordered(t) && AllOk(t, MAXVA)
    ensures NoCross(t, end)
  {
    assert NoCross(s, end) by {
      assert forall k | 0 <= k < j0 :: s[k].end <= s[j0].start;
      assert forall k | j0 < k < |s| :: s[j0].end <= s[k].start;
    }
    if s[i].start < start { SplitAtCross(s, i, start, end); }
  }

  lemma ProtectKeeps(s: seq<Area>, t: seq<Area>, start: nat, end: nat, p: Prot)
    requires AllOk(t, MAXVA) && Ordered(t) && NoCross(t, start) && NoCross(t, end) && start < end
    requires forall x: nat :: AttrAt(t, x) == AttrAt(s, x)
    ensures Vma.Valid(MergeAll(Recolor(t, start, end, p)), MAXVA)
    ensures forall x: nat :: AttrAt(MergeAll(Recolor(t, start, end, p)), x) == if start <= x < end then Protected(AttrAt(s, x), p) else AttrAt(s, x)
  {
    var r := Recolor(t, start, end, p);
    RecolorOk(t, start, end, p, MAXVA);
    MergeAllValid(r, MAXVA);
    forall x: nat ensures AttrAt(MergeAll(r), x) == if start <= x < end then Protected(AttrAt(s, x), p) else AttrAt(s, x) {
      MergeAllMeaning(r, x);
      RecolorMeaning(t, start, end, p, x);
    }
  }

  lemma PieceRefs(a: Area, start: nat, end: nat)
    ensures a.start <= start ==> RefsOf(Lower(a, start)) == RefsOf(a)
    ensures a.start <= end ==> RefsOf(Upper(a, end)) == RefsOf(a)
  {}

  lemma InsertRefs(s: seq<Area>, i: nat, a: Area)
    requires i <= |s|
    ensures AllRefs(s[..i] + [a] + s[i..]) == AllRefs(s) + RefsOf(a)
  {
    RefsReplace(s, i, i, [a]);
    OneRef(a);
    assert s[i..i] == [];
  }

  /** Only the area that contains `start` can need a split. */
  lemma SplitFound(s: seq<Area>, start: nat, end: nat, i: nat)
    requires Ordered(s) && start < end && i <= |s| && (i < |s| ==> Contains(s[i], start)) && AllOk(s, MAXVA)
    requires i == |s| ==> forall j | 0 <= j < |s| :: !Contains(s[j], start)
    ensures NeedsSplit(s, start, end) <==> i < |s| && s[i].start < start && end < s[i].end
    ensures forall j | 0 <= j < |s| && s[j].start < start && end < s[j].end :: j == i
  {
    forall j | 0 <= j < |s| && s[j].start < start && end < s[j].end ensures j == i {
      assert Contains(s[j], start);
    }
  }

  /** Where the removal loop stands after `m` areas. */
  lemma CutStep(s: seq<Area>, m: nat, start: nat, end: nat)
    requires m < |s|
    ensures var pre := Unmap(s[..m], start, end);
      var now := pre + s[m..];
      && now[|pre|] == s[m] && now[..|pre|] == pre && now[|pre| + 1..] == s[m + 1..]
      && Unmap(s[..m + 1], start, end) == pre + UnmapOne(s[m], start, end)
      && forall b: Area :: now[|pre| := b] == (pre + [b]) + s[m + 1..]
  {
    hide Unmap, UnmapOne;
    assert s[..m + 1] == s[..m] + [s[m]];
    UnmapConcat(s[..m], [s[m]], start, end);
    UnmapSingle(s[m], start, end);
    Spliced(Unmap(s[..m], start, end), s, m);
  }

  lemma UnmapSingle(a: Area, start: nat, end: nat)
    ensures Unmap([a], start, end) == UnmapOne(a, start, end)
  {
    assert [a][1..] == [];
  }

  lemma Spliced(pre: seq<Area>, s: seq<Area>, m: nat)
    requires m < |s|
    ensures var now := pre + s[m..];
      && now[|pre|] == s[m] && now[..|pre|] == pre && now[|pre| + 1..] == s[m + 1..]
      && forall b: Area :: now[|pre| := b] == (pre + [b]) + s[m + 1..]
  {
    var now := pre + s[m..];
    forall b: Area ensures now[|pre| := b] == (pre + [b]) + s[m + 1..] {}
  }

  lemma CutEnd(s: seq<Area>, m: nat, start: nat, end: nat)
    requires m <= |s| && forall j | m <= j < |s| :: s[j].start >= end
    ensures Unmap(s, start, end) == Unmap(s[..m], start, end) + s[m..]
  {
    assert s == s[..m] + s[m..];
    UnmapConcat(s[..m], s[m..], start, end);
    UnmapRest(s[m..], start, end);
  }

  lemma AfterArea(s: seq<Area>, m: nat, end: nat)
    requires AllOk(s, MAXVA) && Ordered(s) && m < |s|
    ensures s[m].start >= end || s[m].end > end ==> forall j | m < j < |s| :: s[j].start >= end
  {}

  lemma CutStart(s: seq<Area>, start: nat, end: nat)
    ensures s == Unmap(s[..0], start, end) + s[0..] && |Unmap(s[..0], start, end)| == 0
  {
    assert s[0..] == s && s[..0] == [];
  }

  lemma UpdateAt<T>(s: seq<T>, k: nat, b: T)
    requires k < |s|
    ensures s[k := b] == s[..k] + [b] + s[k + 1..] && s[k..k + 1] == [s[k]] && s[..k] + [] + s[k + 1..] == s[..k] + s[k + 1..]
  {}

  lemma RefsSame(s: seq<Area>, k: nat, b: Area)
    requires k < |s| && RefsOf(b) == RefsOf(s[k])
    ensures AllRefs(s[k := b]) == AllRefs(s) && s[k := b] == s[..k] + [b] + s[k + 1..]
  {
    hide AllRefs;
    hide RefsOf;
    UpdateAt(s, k, b);
    RefsReplace(s, k, k + 1, [b]);
    OneRef(s[k]);
    OneRef(b);
  }

  lemma RefsGone(s: seq<Area>, k: nat)
    requires k < |s|
    ensures AllRefs(s[..k] + s[k + 1..]) == AllRefs(s) - RefsOf(s[k]) && RefsOf(s[k]) <= AllRefs(s)
  {
    hide RefsOf;
    UpdateAt(s, k, s[k]);
    RefsReplace(s, k, k + 1, []);
    OneRef(s[k]);
    RefsBut(AllRefs(s[..k]), RefsOf(s[k]), AllRefs(s[k + 1..]));
  }

  lemma RefsBut(x: multiset<Ref>, a: multiset<Ref>, y: multiset<Ref>)
    ensures x + multiset{} + y == x + a + y - a && a <= x + a + y
  {}

  lemma RefsTwice(s: seq<Area>, k: nat, b: Area, c: Area)
    requires k < |s| && RefsOf(b) == RefsOf(s[k]) == RefsOf(c)
    ensures AllRefs(s[..k] + [b, c] + s[k + 1..]) == AllRefs(s) + RefsOf(c)
  {
    hide AllRefs;
    hide RefsOf;
    UpdateAt(s, k, b);
    RefsReplace(s, k, k + 1, [b, c]);
    assert [b, c] == [b] + [c];
    RefsConcat([b], [c]);
    OneRef(s[k]);
    OneRef(b);
    OneRef(c);
    Doubled(AllRefs(s[..k]), RefsOf(c), AllRefs(s[k + 1..]));
  }

  lemma Doubled(x: multiset<Ref>, a: multiset<Ref>, y: multiset<Ref>)
    ensures x + (a + a) + y == x + a + y + a
  {}
}
