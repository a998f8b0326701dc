/** The virtual memory areas of vma.c as values.

A list of areas stands for a map from addresses to attributes (`AttrAt`).  Splitting, trimming and
merging areas never changes that map; unmap, protect and insert change it exactly on their range. */
module Vma {
  import opened Common

  const PGSIZE: nat := 4096
  const U64_MAX: nat := 0xFFFF_FFFF_FFFF_FFFF

  /** The protection bits of an area. */
  datatype Prot = Prot(read: bool, write: bool, exec: bool)

  function Either(a: Prot, b: Prot): Prot {
    Prot(a.read || b.read, a.write || b.write, a.exec || b.exec)
  }

  datatype Usage = Elf | Heap | Stack | Mmap

  /** File 0 and backing 0 are the null pointers. */
  datatype Area = Area(start: nat, end: nat, offset: nat, fileLength: nat, protection: Prot, flags: nat,
                       fileBacked: bool, usage: Usage, file: nat, backing: nat)

  /** What an address means: `position` is the offset into the file or backing, and `inFile` says whether
      the byte comes from the file rather than being zero. */
  datatype Attr = Attr(protection: Prot, flags: nat, fileBacked: bool, usage: Usage, file: nat, backing: nat,
                       position: nat, inFile: bool)

  predicate Contains(a: Area, x: nat) {
    a.start <= x < a.end
  }

  predicate HasOffset(a: Area) {
    a.fileBacked || a.backing != 0
  }

  function AttrOf(a: Area, x: nat): Attr
    requires Contains(a, x)
  {
    Attr(a.protection, a.flags, a.fileBacked, a.usage, a.file, a.backing,
         if HasOffset(a) then a.offset + (x - a.start) else 0, a.fileBacked && x - a.start < a.fileLength)
  }

  function AttrAt(s: seq<Area>, x: nat): Option<Attr> {
    if s == [] then None else if Contains(s[0], x) then Some(AttrOf(s[0], x)) else AttrAt(s[1..], x)
  }

  /** What vma_insert_file_length demands of one area. */
  predicate AreaOk(a: Area, limit: nat) {
    && a.start < a.end <= limit && a.start % PGSIZE == 0 && a.end % PGSIZE == 0 && a.offset % PGSIZE == 0
    && a.fileLength <= a.end - a.start
    && (HasOffset(a) ==> a.end - a.start <= U64_MAX - a.offset)
    && (a.fileBacked <==> a.file != 0)
    && (a.backing != 0 ==> !a.fileBacked && a.file == 0)
    && (!a.fileBacked ==> a.fileLength == 0)
  }

  ghost predicate Ordered(s: seq<Area>) {
    forall i, j | 0 <= i < j < |s| :: s[i].end <= s[j].start
  }

  ghost predicate AllOk(s: seq<Area>, limit: nat) {
    forall i | 0 <= i < |s| :: AreaOk(s[i], limit)
  }

  /** Neighbours that could be one area are one area. */
  ghost predicate FullyMerged(s: seq<Area>) {
    forall i | 0 <= i < |s| - 1 :: !CanMerge(s[i], s[i + 1])
  }

  /** Aligned non-empty areas in ascending order, disjoint. */
  ghost predicate Loose(s: seq<Area>, limit: nat) {
    AllOk(s, limit) && Ordered(s)
  }

  /** Aligned non-empty areas in ascending order, disjoint and merged. */
  ghost predicate Valid(s: seq<Area>, limit: nat) {
    AllOk(s, limit) && Ordered(s) && FullyMerged(s)
  }

  lemma {:induction false} AttrConcat(s: seq<Area>, t: seq<Area>, x: nat)
    ensures AttrAt(s + t, x) == if AttrAt(s, x).Some? then AttrAt(s, x) else AttrAt(t, x)
    decreases s
  {
    if s == [] {
      assert s + t == t;
    } else {
      assert (s + t)[1..] == s[1..] + t;
      AttrConcat(s[1..], t, x);
    }
  }

  /** An address has an attribute exactly when some area contains it. */
  lemma {:induction false} AttrSome(s: seq<Area>, x: nat)
    ensures AttrAt(s, x).Some? <==> exists i :: 0 <= i < |s| && Contains(s[i], x)
    decreases s
  {
    if s != [] {
      AttrSome(s[1..], x);
      if i :| 0 <= i < |s[1..]| && Contains(s[1..][i], x) { assert Contains(s[i + 1], x); }
      if i :| 0 <= i < |s| && Contains(s[i], x) { assert i > 0 ==> Contains(s[1..][i - 1], x); }
    }
  }

  lemma {:induction false} AttrIs(s: seq<Area>, i: nat, x: nat)
    requires i < |s| && Ordered(s) && Contains(s[i], x) && forall j | 0 <= j < |s| :: s[j].start <= s[j].end
    ensures AttrAt(s, x) == Some(AttrOf(s[i], x))
    decreases s
  {
    if i > 0 {
      assert s[0].end <= s[i].start;
      AttrIs(s[1..], i - 1, x);
    }
  }

  // ----- Splitting and merging -----

  /** vma_allocate_split: the part of an area from `at` on. */
  function Upper(a: Area, at: nat): Area
    requires a.start <= at
  {
    var delta := at - a.start;
    a.(start := at,
       offset := if HasOffset(a) then a.offset + delta else a.offset,
       fileLength := if a.fileBacked then (if a.fileLength > delta then a.fileLength - delta else 0) else a.fileLength)
  }

  /** An area cut off at `at`. */
  function Lower(a: Area, at: nat): Area
    requires a.start <= at
  {
    a.(end := at, fileLength := if a.fileLength > at - a.start then at - a.start else a.fileLength)
  }

  predicate CanMerge(a: Area, b: Area) {
    && a.end == b.start && a.protection == b.protection && a.flags == b.flags && a.fileBacked == b.fileBacked
    && a.usage == b.usage && a.file == b.file && a.backing == b.backing
    && (a.fileBacked ==> a.start <= a.end && a.fileLength == a.end - a.start && a.offset + (a.end - a.start) <= U64_MAX
                         && a.offset + (a.end - a.start) == b.offset)
    && (a.backing != 0 ==> a.start <= a.end && a.offset + (a.end - a.start) <= U64_MAX && a.offset + (a.end - a.start) == b.offset)
  }

  function MergePair(a: Area, b: Area): Area {
    a.(end := b.end, fileLength := if a.fileBacked then a.fileLength + b.fileLength else a.fileLength)
  }

  /** Cutting and joining are inverse on the meaning of addresses. */
  lemma SplitMeaning(a: Area, at: nat, x: nat)
    requires a.start <= at <= a.end
    ensures Contains(a, x) <==> Contains(Lower(a, at), x) || Contains(Upper(a, at), x)
    ensures Contains(Lower(a, at), x) ==> AttrOf(Lower(a, at), x) == AttrOf(a, x)
    ensures Contains(Upper(a, at), x) ==> AttrOf(Upper(a, at), x) == AttrOf(a, x)
  {}

  lemma MergeMeaning(a: Area, b: Area, x: nat)
    requires CanMerge(a, b) && a.start <= a.end <= b.end
    ensures Contains(MergePair(a, b), x) <==> Contains(a, x) || Contains(b, x)
    ensures Contains(a, x) ==> AttrOf(MergePair(a, b), x) == AttrOf(a, x)
    ensures Contains(b, x) ==> AttrOf(MergePair(a, b), x) == AttrOf(b, x)
  {}

  lemma PartsOk(a: Area, at: nat, limit: nat)
    requires AreaOk(a, limit) && at % PGSIZE == 0 && a.start < at < a.end
    ensures AreaOk(Lower(a, at), limit) && AreaOk(Upper(a, at), limit)
  {}

  lemma MergedOk(a: Area, b: Area, limit: nat)
    requires AreaOk(a, limit) && AreaOk(b, limit) && CanMerge(a, b)
    ensures AreaOk(MergePair(a, b), limit)
  {}

  /** What can be merged with the left part can be merged with the whole, and likewise on the right. */
  lemma MergeEnds(z: Area, a: Area, b: Area, c: Area, limit: nat)
    requires CanMerge(a, b) && AreaOk(a, limit) && AreaOk(b, limit)
    ensures CanMerge(z, MergePair(a, b)) <==> CanMerge(z, a)
    ensures CanMerge(MergePair(a, b), c) <==> CanMerge(b, c)
  {}

  /** vma_merge_all. */
  function MergeAll(s: seq<Area>): seq<Area>
    decreases |s|
  {
    if |s| < 2 then s
    else if CanMerge(s[0], s[1]) then MergeAll([MergePair(s[0], s[1])] + s[2..])
    else [s[0]] + MergeAll(s[1..])
  }

  lemma {:induction false} MergeAllMeaning(s: seq<Area>, x: nat)
    requires forall i | 0 <= i < |s| :: s[i].start < s[i].end
    ensures AttrAt(MergeAll(s), x) == AttrAt(s, x)
    decreases |s|
  {
    if |s| >= 2 {
      if CanMerge(s[0], s[1]) {
        var t := [MergePair(s[0], s[1])] + s[2..];
        MergeAllMeaning(t, x);
        MergeMeaning(s[0], s[1], x);
        assert t[1..] == s[2..] && s[1..][1..] == s[2..];
      } else {
        MergeAllMeaning(s[1..], x);
      }
    }
  }

  /** Merging keeps the areas in order and leaves nothing to merge. */
  lemma {:induction false} MergeAllValid(s: seq<Area>, limit: nat)
    requires AllOk(s, limit) && Ordered(s)
    ensures Valid(MergeAll(s), limit)
    ensures s != [] ==> MergeAll(s) != [] && MergeAll(s)[0].start == s[0].start && forall z :: CanMerge(z, MergeAll(s)[0]) <==> CanMerge(z, s[0])
    decreases |s|
  {
    if |s| >= 2 {
      if CanMerge(s[0], s[1]) {
        var m := MergePair(s[0], s[1]);
        var t := [m] + s[2..];
        MergedOk(s[0], s[1], limit);
        assert Ordered(t);
        MergeAllValid(t, limit);
        forall z ensures CanMerge(z, m) <==> CanMerge(z, s[0]) { MergeEnds(z, s[0], s[1], s[0], limit); }
      } else {
        MergeAllValid(s[1..], limit);
        var r := MergeAll(s[1..]);
        ConsOrdered(s[0], r, s[1..]);
        assert FullyMerged([s[0]] + r) by {
          forall i | 0 <= i < |r| ensures !CanMerge(([s[0]] + r)[i], ([s[0]] + r)[i + 1]) {
            if i > 0 { assert !CanMerge(r[i - 1], r[i]); }
          }
        }
      }
    }
  }

  lemma ConsOrdered(a: Area, r: seq<Area>, t: seq<Area>)
    requires Ordered(r) && r != [] && t != [] && r[0].start == t[0].start && a.end <= t[0].start
    requires forall i | 0 <= i < |r| :: r[i].start < r[i].end
    ensures Ordered([a] + r)
  {
    forall j | 0 <= j < |r| ensures a.end <= r[j].start {
      if j > 0 { assert r[0].end <= r[j].start; }
    }
  }

  // ----- vma_unmap -----

  /** What is left of one area. */
  function UnmapOne(a: Area, lo: nat, hi: nat): seq<Area> {
    if a.end <= lo || a.start >= hi then [a]
    else (if a.start < lo then [Lower(a, lo)] else []) + (if hi < a.end then [Upper(a, hi)] else [])
  }

  function Unmap(s: seq<Area>, lo: nat, hi: nat): seq<Area> {
    if s == [] then [] else UnmapOne(s[0], lo, hi) + Unmap(s[1..], lo, hi)
  }

  /** unmap removes exactly [lo, hi). */
  lemma {:induction false} UnmapMeaning(s: seq<Area>, lo: nat, hi: nat, x: nat)
    requires lo < hi
    ensures AttrAt(Unmap(s, lo, hi), x) == if lo <= x < hi then None else AttrAt(s, x)
    decreases s
  {
    if s != [] {
      UnmapMeaning(s[1..], lo, hi, x);
      AttrConcat(UnmapOne(s[0], lo, hi), Unmap(s[1..], lo, hi), x);
      UnmapOneMeaning(s[0], lo, hi, x);
    }
  }

  lemma UnmapOneMeaning(a: Area, lo: nat, hi: nat, x: nat)
    requires lo < hi
    ensures AttrAt(UnmapOne(a, lo, hi), x) == if Contains(a, x) && !(lo <= x < hi) then Some(AttrOf(a, x)) else None
  {
    if a.end > lo && a.start < hi {
      if a.start < lo { SplitMeaning(a, lo, x); }
      if hi < a.end { SplitMeaning(a, hi, x); }
      AttrConcat(if a.start < lo then [Lower(a, lo)] else [], if hi < a.end then [Upper(a, hi)] else [], x);
    }
  }

  lemma {:induction false} UnmapValid(s: seq<Area>, lo: nat, hi: nat, limit: nat)
    requires Valid(s, limit) && lo < hi && lo % PGSIZE == 0 && hi % PGSIZE == 0
    ensures Valid(Unmap(s, lo, hi), limit)
    ensures forall i | 0 <= i < |Unmap(s, lo, hi)| :: s != [] && s[0].start <= Unmap(s, lo, hi)[i].start
    ensures s != [] && Unmap(s, lo, hi) != [] ==> forall z: Area | z.end <= s[0].start && CanMerge(z, Unmap(s, lo, hi)[0]) :: CanMerge(z, s[0])
    decreases s
  {
    if s != [] {
      hide CanMerge, AreaOk, UnmapOne;
      var t := s[1..];
      assert FullyMerged(t) by { forall i | 0 <= i < |t| - 1 ensures !CanMerge(t[i], t[i + 1]) { assert !CanMerge(s[i + 1], s[i + 2]); } }
      UnmapValid(t, lo, hi, limit);
      UnmapCons(s[0], t, Unmap(t, lo, hi), lo, hi, limit);
      assert s == [s[0]] + t;
    }
  }

  lemma UnmapOneOk(a: Area, lo: nat, hi: nat, limit: nat)
    requires AreaOk(a, limit) && lo < hi && lo % PGSIZE == 0 && hi % PGSIZE == 0
    ensures var w := UnmapOne(a, lo, hi); Valid(w, limit) && forall i | 0 <= i < |w| :: a.start <= w[i].start && w[i].end <= a.end
  {
    if a.start < lo < a.end { PartsOk(a, lo, limit); }
    if a.start < hi < a.end { PartsOk(a, hi, limit); }
  }

  lemma ConcatValid(w: seq<Area>, r: seq<Area>, m: nat, limit: nat)
    requires Valid(w, limit) && Valid(r, limit) && (forall i | 0 <= i < |w| :: w[i].end <= m) && forall i | 0 <= i < |r| :: m <= r[i].start
    requires w != [] && r != [] ==> !CanMerge(w[|w| - 1], r[0])
    ensures Valid(w + r, limit)
  {
    var u := w + r;
    assert forall i | 0 <= i < |u| :: u[i] == if i < |w| then w[i] else r[i - |w|];
    forall i | 0 <= i < |u| - 1 ensures !CanMerge(u[i], u[i + 1]) {
      if i >= |w| {
        assert !CanMerge(r[i - |w|], r[i + 1 - |w|]);
      } else if i < |w| - 1 {
        assert !CanMerge(w[i], w[i + 1]);
      }
    }
  }

  lemma UnmapCons(a: Area, t: seq<Area>, r: seq<Area>, lo: nat, hi: nat, limit: nat)
    requires Valid([a] + t, limit) && Valid(r, limit) && lo < hi && lo % PGSIZE == 0 && hi % PGSIZE == 0
    requires forall i | 0 <= i < |r| :: t != [] && t[0].start <= r[i].start
    requires t != [] && r != [] ==> forall z: Area | z.end <= t[0].start && CanMerge(z, r[0]) :: CanMerge(z, t[0])
    ensures Valid(UnmapOne(a, lo, hi) + r, limit)
    ensures forall i | 0 <= i < |UnmapOne(a, lo, hi) + r| :: a.start <= (UnmapOne(a, lo, hi) + r)[i].start
    ensures UnmapOne(a, lo, hi) + r != [] ==> forall z: Area | z.end <= a.start && CanMerge(z, (UnmapOne(a, lo, hi) + r)[0]) :: CanMerge(z, a)
  {
    var w := UnmapOne(a, lo, hi);
    assert ([a] + t)[0] == a && (t != [] ==> ([a] + t)[1] == t[0]);
    assert AreaOk(a, limit);
    assert t != [] ==> a.end <= t[0].start && !CanMerge(a, t[0]);
    UnmapOneOk(a, lo, hi, limit);
    if w != [] && r != [] { LastPiece(a, t, r[0], lo, hi, limit); }
    ConcatValid(w, r, a.end, limit);
    FirstPiece(a, lo, hi, limit);
  }

  /** What merges with the first piece of an area would merge with the area. */
  lemma FirstPiece(a: Area, lo: nat, hi: nat, limit: nat)
    requires AreaOk(a, limit) && lo < hi
    ensures var w := UnmapOne(a, lo, hi); w != [] ==> forall z: Area | z.end <= a.start && CanMerge(z, w[0]) :: CanMerge(z, a)
  {}

  /** The last piece of an area cannot be merged with what follows. */
  lemma LastPiece(a: Area, t: seq<Area>, r: Area, lo: nat, hi: nat, limit: nat)
    requires AreaOk(a, limit) && t != [] && a.end <= t[0].start && !CanMerge(a, t[0]) && UnmapOne(a, lo, hi) != [] && lo < hi
    requires t[0].start <= r.start && forall z: Area | z.end <= t[0].start && CanMerge(z, r) :: CanMerge(z, t[0])
    ensures var w := UnmapOne(a, lo, hi); !CanMerge(w[|w| - 1], r)
  {
    var w := UnmapOne(a, lo, hi);
    var last := w[|w| - 1];
    assert last.end <= t[0].start;
    assert CanMerge(last, r) ==> CanMerge(last, t[0]);
    assert last.end == a.end ==> (CanMerge(last, t[0]) <==> CanMerge(a, t[0]));
  }

  lemma {:induction false} UnmapConcat(s: seq<Area>, t: seq<Area>, lo: nat, hi: nat)
    ensures Unmap(s + t, lo, hi) == Unmap(s, lo, hi) + Unmap(t, lo, hi)
    decreases s
  {
    if s == [] {
      assert s + t == t;
    } else {
      assert (s + t)[1..] == s[1..] + t;
      UnmapConcat(s[1..], t, lo, hi);
    }
  }

  lemma {:induction false} UnmapRest(s: seq<Area>, lo: nat, hi: nat)
    requires forall i | 0 <= i < |s| :: s[i].start >= hi || s[i].end <= lo
    ensures Unmap(s, lo, hi) == s
    decreases s
  {
    if s != [] { UnmapRest(s[1..], lo, hi); }
  }

  // ----- vma_protect -----

  /** The area at `i` is cut in two at `at`. */
  function SplitAt(s: seq<Area>, i: nat, at: nat): seq<Area>
    requires i < |s| && s[i].start <= at
  {
    s[..i] + [Lower(s[i], at), Upper(s[i], at)] + s[i + 1..]
  }

  lemma SplitAtMeaning(s: seq<Area>, i: nat, at: nat, x: nat)
    requires i < |s| && s[i].start <= at <= s[i].end
    ensures AttrAt(SplitAt(s, i, at), x) == AttrAt(s, x)
  {
    var l, u := Lower(s[i], at), Upper(s[i], at);
    SplitMeaning(s[i], at, x);
    assert s == s[..i] + [s[i]] + s[i + 1..];
    AttrConcat(s[..i] + [s[i]], s[i + 1..], x);
    AttrConcat(s[..i], [s[i]], x);
    AttrConcat(s[..i] + [l, u], s[i + 1..], x);
    AttrConcat(s[..i], [l, u], x);
    assert [l, u] == [l] + [u];
    AttrConcat([l], [u], x);
  }

  lemma SplitAtOk(s: seq<Area>, i: nat, at: nat, limit: nat)
    requires i < |s| && AllOk(s, limit) && Ordered(s) && at % PGSIZE == 0 && s[i].start < at < s[i].end
    ensures AllOk(SplitAt(s, i, at), limit) && Ordered(SplitAt(s, i, at))
  {
    PartsOk(s[i], at, limit);
    TwoOk(s, i, Lower(s[i], at), Upper(s[i], at), limit);
  }

  lemma TwoOk(s: seq<Area>, i: nat, l: Area, u: Area, limit: nat)
    requires i < |s| && AllOk(s, limit) && Ordered(s) && AreaOk(l, limit) && AreaOk(u, limit)
    requires s[i].start <= l.start && l.end <= u.start && u.end <= s[i].end && l.end <= s[i].end && s[i].start <= u.start
    ensures var t := s[..i] + [l, u] + s[i + 1..]; AllOk(t, limit) && Ordered(t)
  {
    hide AreaOk;
    var t := s[..i] + [l, u] + s[i + 1..];
    assert forall k | 0 <= k < |t| :: t[k] == if k < i then s[k] else if k == i then l else if k == i + 1 then u else s[k - 1];
  }

  /** No area has addresses on both sides of `at`. */
  predicate NoCross(s: seq<Area>, at: nat) {
    forall k | 0 <= k < |s| :: s[k].end <= at || at <= s[k].start
  }

  lemma SplitAtCross(s: seq<Area>, i: nat, at: nat, other: nat)
    requires i < |s| && Ordered(s) && s[i].start < at < s[i].end && forall k | 0 <= k < |s| :: s[k].start <= s[k].end
    ensures NoCross(SplitAt(s, i, at), at)
    ensures NoCross(s, other) ==> NoCross(SplitAt(s, i, at), other)
  {
    var t := SplitAt(s, i, at);
    assert forall k | 0 <= k < |t| :: t[k] == if k < i then s[k] else if k == i then Lower(s[i], at) else if k == i + 1 then Upper(s[i], at) else s[k - 1];
  }

  function RecolorOne(a: Area, lo: nat, hi: nat, p: Prot): Area {
    if a.end <= lo || a.start >= hi then a else a.(protection := p)
  }

  /** The areas inside [lo, hi) get the new protection. */
  function Recolor(s: seq<Area>, lo: nat, hi: nat, p: Prot): seq<Area> {
    if s == [] then [] else [RecolorOne(s[0], lo, hi, p)] + Recolor(s[1..], lo, hi, p)
  }

  lemma {:induction false} RecolorAt(s: seq<Area>, lo: nat, hi: nat, p: Prot)
    ensures |Recolor(s, lo, hi, p)| == |s| && forall k | 0 <= k < |s| :: Recolor(s, lo, hi, p)[k] == RecolorOne(s[k], lo, hi, p)
    decreases s
  {
    if s != [] { RecolorAt(s[1..], lo, hi, p); }
  }

  function Protected(a: Option<Attr>, p: Prot): Option<Attr> {
    if a.None? then None else Some(a.value.(protection := p))
  }

  /** The protection changes on exactly [lo, hi), and nothing else does. */
  lemma {:induction false} RecolorMeaning(s: seq<Area>, lo: nat, hi: nat, p: Prot, x: nat)
    requires lo < hi && NoCross(s, lo) && NoCross(s, hi)
    ensures AttrAt(Recolor(s, lo, hi, p), x) == if lo <= x < hi then Protected(AttrAt(s, x), p) else AttrAt(s, x)
    decreases s
  {
    if s != [] {
      var b, r := RecolorOne(s[0], lo, hi, p), Recolor(s[1..], lo, hi, p);
      assert s[0].end <= lo || lo <= s[0].start;
      assert s[0].end <= hi || hi <= s[0].start;
      assert NoCross(s[1..], lo) && NoCross(s[1..], hi);
      RecolorMeaning(s[1..], lo, hi, p, x);
      assert ([b] + r)[1..] == r;
    }
  }

  lemma RecolorOk(s: seq<Area>, lo: nat, hi: nat, p: Prot, limit: nat)
    requires AllOk(s, limit) && Ordered(s)
    ensures AllOk(Recolor(s, lo, hi, p), limit) && Ordered(Recolor(s, lo, hi, p))
  {
    RecolorAt(s, lo, hi, p);
  }

  lemma UpperUpper(a: Area, lo: nat, hi: nat)
    requires a.start <= lo <= hi
    ensures Upper(Upper(a, lo), hi) == Upper(a, hi)
  {}

  // ----- vma_insert_file_length -----

  /** Merges the areas at `i` and `i + 1` when they can be. */
  function JoinAt(s: seq<Area>, i: nat): seq<Area>
    requires i + 1 < |s|
  {
    if CanMerge(s[i], s[i + 1]) then s[..i] + [MergePair(s[i], s[i + 1])] + s[i + 2..] else s
  }

  /** The new area at place `i`, merged with its neighbours where that is possible. */
  function Insert(s: seq<Area>, i: nat, a: Area): seq<Area>
    requires i <= |s|
  {
    var s1 := s[..i] + [a] + s[i..];
    var joined := i > 0 && CanMerge(s1[i - 1], s1[i]);
    var s2 := if joined then JoinAt(s1, i - 1) else s1;
    var k := if joined then i - 1 else i;
    if k + 1 < |s2| then JoinAt(s2, k) else s2
  }

  predicate FreeRange(s: seq<Area>, lo: nat, hi: nat) {
    forall i | 0 <= i < |s| :: s[i].end <= lo || hi <= s[i].start
  }

  lemma JoinMeaning(s: seq<Area>, i: nat, x: nat)
    requires i + 1 < |s| && forall j | 0 <= j < |s| :: s[j].start < s[j].end
    ensures AttrAt(JoinAt(s, i), x) == AttrAt(s, x)
  {
    if CanMerge(s[i], s[i + 1]) {
      var m := MergePair(s[i], s[i + 1]);
      MergeMeaning(s[i], s[i + 1], x);
      assert s == s[..i] + ([s[i], s[i + 1]] + s[i + 2..]);
      assert JoinAt(s, i) == s[..i] + ([m] + s[i + 2..]);
      AttrConcat(s[..i], [s[i], s[i + 1]] + s[i + 2..], x);
      AttrConcat(s[..i], [m] + s[i + 2..], x);
      AttrConcat([s[i], s[i + 1]], s[i + 2..], x);
      AttrConcat([m], s[i + 2..], x);
    }
  }

  /** All pairs but those at `i - 1` and `i` are known not to merge. */
  ghost predicate MergedBut(s: seq<Area>, i: nat, j: nat) {
    forall k | 0 <= k < |s| - 1 && k != i && k != j :: !CanMerge(s[k], s[k + 1])
  }

  lemma JoinOk(s: seq<Area>, i: nat, limit: nat)
    requires i + 1 < |s| && AllOk(s, limit) && Ordered(s) && CanMerge(s[i], s[i + 1])
    ensures AllOk(JoinAt(s, i), limit) && Ordered(JoinAt(s, i))
  {
    MergedOk(s[i], s[i + 1], limit);
    OneOk(s, i, MergePair(s[i], s[i + 1]), limit);
  }

  lemma OneOk(s: seq<Area>, i: nat, m: Area, limit: nat)
    requires i + 1 < |s| && AllOk(s, limit) && Ordered(s) && AreaOk(m, limit) && s[i].start <= m.start && m.end <= s[i + 1].end
    ensures var t := s[..i] + [m] + s[i + 2..]; AllOk(t, limit) && Ordered(t)
  {
    hide AreaOk;
    var t := s[..i] + [m] + s[i + 2..];
    assert forall k | 0 <= k < |t| :: t[k] == if k < i then s[k] else if k == i then m else s[k + 1];
  }

  /** Joining at `i` settles that pair; of the others only `j` stays open. */
  lemma JoinMerged(s: seq<Area>, i: nat, j: nat, limit: nat)
    requires i + 1 < |s| && AllOk(s, limit) && CanMerge(s[i], s[i + 1]) && (j == i || j == i + 1) && MergedBut(s, i, j)
    ensures var t := JoinAt(s, i); MergedBut(t, if j == i then |t| else i, |t|)
  {
    var t := JoinAt(s, i);
    assert forall k | 0 <= k < |t| :: t[k] == if k < i then s[k] else if k == i then MergePair(s[i], s[i + 1]) else s[k + 1];
    forall k | 0 <= k < |t| - 1 && (j == i || k != i) ensures !CanMerge(t[k], t[k + 1]) {
      if k + 1 == i {
        MergeEnds(s[k], s[i], s[i + 1], s[i], limit);
        assert !CanMerge(s[k], s[k + 1]);
      } else if k == i {
        MergeEnds(s[i], s[i], s[i + 1], s[k + 2], limit);
        assert !CanMerge(s[k + 1], s[k + 2]);
      } else if k < i {
        assert !CanMerge(s[k], s[k + 1]);
      } else {
        assert !CanMerge(s[k + 1], s[k + 2]);
      }
    }
  }

  predicate GoesAt(s: seq<Area>, i: nat, a: Area) {
    i <= |s| && (forall j | 0 <= j < i :: s[j].end <= a.start) && forall j | i <= j < |s| :: a.end <= s[j].start
  }

  lemma PlacedLoose(s: seq<Area>, i: nat, a: Area, limit: nat)
    requires Loose(s, limit) && AreaOk(a, limit) && GoesAt(s, i, a)
    ensures Loose(s[..i] + [a] + s[i..], limit)
  {
    var t := s[..i] + [a] + s[i..];
    assert forall k | 0 <= k < |t| :: t[k] == if k < i then s[k] else if k == i then a else s[k - 1];
  }

  lemma PlacedMerged(s: seq<Area>, i: nat, a: Area)
    requires FullyMerged(s) && i <= |s|
    ensures var t := s[..i] + [a] + s[i..]; MergedBut(t, if i > 0 then i - 1 else |t|, i)
  {
    var t := s[..i] + [a] + s[i..];
    assert forall k | 0 <= k < |t| :: t[k] == if k < i then s[k] else if k == i then a else s[k - 1];
    forall k | 0 <= k < |t| - 1 && k != i - 1 && k != i ensures !CanMerge(t[k], t[k + 1]) {
      if k < i { assert !CanMerge(s[k], s[k + 1]); } else { assert !CanMerge(s[k - 1], s[k]); }
    }
  }

  lemma InsertLoose(s: seq<Area>, i: nat, a: Area, limit: nat)
    requires Loose(s, limit) && AreaOk(a, limit) && GoesAt(s, i, a)
    ensures Loose(Insert(s, i, a), limit)
  {
    hide AllOk;
    hide Ordered;
    hide CanMerge;
    hide MergePair;
    var s1 := s[..i] + [a] + s[i..];
    PlacedLoose(s, i, a, limit);
    if i > 0 && CanMerge(s1[i - 1], s1[i]) {
      JoinOk(s1, i - 1, limit);
      var s2 := JoinAt(s1, i - 1);
      if i < |s2| && CanMerge(s2[i - 1], s2[i]) { JoinOk(s2, i - 1, limit); }
    } else if i + 1 < |s1| && CanMerge(s1[i], s1[i + 1]) {
      JoinOk(s1, i, limit);
    }
  }

  lemma InsertValid(s: seq<Area>, i: nat, a: Area, limit: nat)
    requires Valid(s, limit) && AreaOk(a, limit) && GoesAt(s, i, a)
    ensures Valid(Insert(s, i, a), limit)
  {
    var s1 := s[..i] + [a] + s[i..];
    PlacedLoose(s, i, a, limit);
    PlacedMerged(s, i, a);
    if i > 0 && CanMerge(s1[i - 1], s1[i]) {
      JoinOk(s1, i - 1, limit);
      JoinMerged(s1, i - 1, i, limit);
      JoinLast(JoinAt(s1, i - 1), i - 1, limit);
    } else {
      assert MergedBut(s1, i, |s1|);
      JoinLast(s1, i, limit);
    }
  }

  lemma JoinLast(s: seq<Area>, k: nat, limit: nat)
    requires AllOk(s, limit) && Ordered(s) && k < |s| && MergedBut(s, k, |s|)
    ensures Valid(if k + 1 < |s| then JoinAt(s, k) else s, limit)
  {
    if k + 1 < |s| && CanMerge(s[k], s[k + 1]) {
      JoinOk(s, k, limit);
      JoinMerged(s, k, k, limit);
      var t := JoinAt(s, k);
      forall j | 0 <= j < |t| - 1 ensures !CanMerge(t[j], t[j + 1]) {}
    }
  }

  /** insert gives exactly [a.start, a.end) the attributes of the new area. */
  lemma InsertMeaning(s: seq<Area>, i: nat, a: Area, limit: nat, x: nat)
    requires Loose(s, limit) && AreaOk(a, limit) && GoesAt(s, i, a)
    ensures AttrAt(Insert(s, i, a), x) == if Contains(a, x) then Some(AttrOf(a, x)) else AttrAt(s, x)
  {
    hide AttrAt, AttrOf, CanMerge, MergePair;
    var s1 := s[..i] + [a] + s[i..];
    PlacedLoose(s, i, a, limit);
    PlacedMeaning(s, i, a, x);
    if i > 0 && CanMerge(s1[i - 1], s1[i]) {
      JoinOk(s1, i - 1, limit);
      JoinMeaning(s1, i - 1, x);
      var s2 := JoinAt(s1, i - 1);
      if i < |s2| { JoinMeaning(s2, i - 1, x); }
    } else if i + 1 < |s1| {
      JoinMeaning(s1, i, x);
    }
  }

  lemma PlacedMeaning(s: seq<Area>, i: nat, a: Area, x: nat)
    requires GoesAt(s, i, a)
    ensures AttrAt(s[..i] + [a] + s[i..], x) == if Contains(a, x) then Some(AttrOf(a, x)) else AttrAt(s, x)
  {
    AttrConcat(s[..i] + [a], s[i..], x);
    AttrConcat(s[..i], [a], x);
    AttrConcat(s[..i], s[i..], x);
    assert s == s[..i] + s[i..];
    AttrSome(s[..i], x);
  }
}
