/** What "merged as far as possible" means for the addresses: the list has a boundary between two touching areas exactly where
the attributes do not continue from one address to the next. */
module VmaCanonical {
  import opened Common
  import opened Vma

  /** The next address means the same, one byte further in the file or backing; past the end of the file nothing continues. */
  predicate Continues(p: Attr, q: Attr) {
    && q == p.(position := if p.fileBacked || p.backing != 0 then p.position + 1 else 0, inFile := q.inFile)
    && (p.fileBacked ==> p.inFile)
  }

  /** vma_can_merge decides by the two addresses at the boundary. */
  lemma MergeExact(a: Area, b: Area, limit: nat)
    requires AreaOk(a, limit) && AreaOk(b, limit)
    ensures CanMerge(a, b) <==> a.end == b.start && Continues(AttrOf(a, a.end - 1), AttrOf(b, b.start))
  {}

  /** In a valid list no boundary between touching areas could be dropped. */
  lemma BoundariesNeeded(s: seq<Area>, limit: nat, i: nat)
    requires Valid(s, limit) && i + 1 < |s| && s[i].end == s[i + 1].start && s[i].end > 0
    ensures var x := s[i].end;
      && AttrAt(s, x - 1).Some? && AttrAt(s, x).Some? && !Continues(AttrAt(s, x - 1).value, AttrAt(s, x).value)
  {
    assert AreaOk(s[i], limit) && AreaOk(s[i + 1], limit);
    assert !CanMerge(s[i], s[i + 1]);
    MergeExact(s[i], s[i + 1], limit);
    assert forall j | 0 <= j < |s| :: s[j].start <= s[j].end by { assert forall j | 0 <= j < |s| :: AreaOk(s[j], limit); }
    AttrIs(s, i, s[i].end - 1);
    AttrIs(s, i + 1, s[i].end);
  }

  /** Every byte of a file area comes from the file. */
  predicate Whole(a: Area) { a.fileBacked ==> a.fileLength == a.end - a.start }

  ghost predicate AllWhole(s: seq<Area>) { forall i | 0 <= i < |s| :: Whole(s[i]) }

  /** The same area; the offset of an area that has no file and no backing means nothing. */
  predicate SameArea(a: Area, b: Area) {
    b == a.(offset := b.offset) && (HasOffset(a) ==> a.offset == b.offset)
  }

  ghost predicate SameAreas(s: seq<Area>, t: seq<Area>) {
    |s| == |t| && forall i | 0 <= i < |s| :: SameArea(s[i], t[i])
  }

  ghost predicate SameMeaning(s: seq<Area>, t: seq<Area>) {
    forall x: nat :: AttrAt(s, x) == AttrAt(t, x)
  }

  lemma InsideContinues(a: Area, x: nat, limit: nat)
    requires AreaOk(a, limit) && Whole(a) && a.start < x < a.end
    ensures Continues(AttrOf(a, x - 1), AttrOf(a, x))
  {}

  /** The first area, by what its addresses mean. */
  lemma HeadMeans(s: seq<Area>, limit: nat)
    requires Valid(s, limit) && s != []
    ensures AreaOk(s[0], limit)
    ensures forall x: nat | Contains(s[0], x) :: AttrAt(s, x) == Some(AttrOf(s[0], x))
    ensures forall x: nat | x < s[0].start :: AttrAt(s, x) == None
  {
    assert forall j | 0 <= j < |s| :: AreaOk(s[j], limit);
    forall x: nat | Contains(s[0], x) ensures AttrAt(s, x) == Some(AttrOf(s[0], x)) { AttrIs(s, 0, x); }
    forall x: nat | x < s[0].start ensures AttrAt(s, x) == None {
      AttrSome(s, x);
      forall i | 0 <= i < |s| ensures !Contains(s[i], x) { if i > 0 { assert s[0].end <= s[i].start; } }
    }
  }

  /** At the end of the first area the meaning does not go on. */
  lemma HeadEnds(s: seq<Area>, limit: nat)
    requires Valid(s, limit) && s != []
    ensures s[0].start < s[0].end
    ensures AttrAt(s, s[0].end - 1).Some?
    ensures AttrAt(s, s[0].end).Some? ==> !Continues(AttrAt(s, s[0].end - 1).value, AttrAt(s, s[0].end).value)
  {
    HeadMeans(s, limit);
    var x := s[0].end;
    AttrSome(s, x);
    assert forall j | 0 <= j < |s| :: AreaOk(s[j], limit);
    forall i | 2 <= i < |s| ensures !Contains(s[i], x) { assert s[0].end <= s[1].start < s[1].end <= s[i].start; }
    if AttrAt(s, x).Some? {
      var i :| 0 <= i < |s| && Contains(s[i], x);
      assert i == 1 && s[0].end <= s[1].start;
      BoundariesNeeded(s, limit, 0);
    }
  }

  lemma NotTheEnd(s: seq<Area>, t: seq<Area>, limit: nat, x: nat)
    requires Valid(s, limit) && Valid(t, limit) && s != [] && t != [] && Whole(t[0]) && SameMeaning(s, t) && t[0].start < x < t[0].end
    ensures x != s[0].end
  {
    HeadEnds(s, limit);
    HeadMeans(t, limit);
    InsideContinues(t[0], x, limit);
    assert AttrAt(s, x) == AttrAt(t, x) && AttrAt(s, x - 1) == AttrAt(t, x - 1);
  }

  lemma EndNotBeyond(s: seq<Area>, t: seq<Area>, limit: nat)
    requires Valid(s, limit) && Valid(t, limit) && s != [] && t != [] && Whole(t[0]) && SameMeaning(s, t) && s[0].start == t[0].start
    ensures t[0].end <= s[0].end
  {
    HeadEnds(s, limit);
    if s[0].end < t[0].end { NotTheEnd(s, t, limit, s[0].end); }
  }

  lemma NotEmpty(s: seq<Area>, t: seq<Area>, limit: nat)
    requires Valid(s, limit) && s != [] && SameMeaning(s, t)
    ensures t != []
  {
    HeadMeans(s, limit);
    assert AttrAt(t, s[0].start) == AttrAt(s, s[0].start);
  }

  lemma SameHead(s: seq<Area>, t: seq<Area>, limit: nat)
    requires Valid(s, limit) && Valid(t, limit) && s != [] && t != [] && Whole(s[0]) && Whole(t[0]) && SameMeaning(s, t)
    ensures SameArea(s[0], t[0])
  {
    HeadMeans(s, limit);
    HeadMeans(t, limit);
    var a, b := s[0].start, t[0].start;
    assert AttrAt(s, a) == AttrAt(t, a) && AttrAt(s, b) == AttrAt(t, b);
    EndNotBeyond(s, t, limit);
    EndNotBeyond(t, s, limit);
    assert AttrOf(s[0], a) == AttrOf(t[0], a);
  }

  lemma TailMeans(s: seq<Area>, limit: nat, x: nat)
    requires Valid(s, limit) && s != []
    ensures Valid(s[1..], limit) && AttrAt(s[1..], x) == if x < s[0].end then None else AttrAt(s, x)
  {
    var r := s[1..];
    assert forall j | 0 <= j < |s| :: AreaOk(s[j], limit);
    forall i | 0 <= i < |r| - 1 ensures !CanMerge(r[i], r[i + 1]) { assert !CanMerge(s[i + 1], s[i + 2]); }
    AttrSome(r, x);
    if x < s[0].end {
      forall i | 0 <= i < |r| ensures !Contains(r[i], x) { assert r[i] == s[i + 1] && s[0].end <= s[i + 1].start; }
    }
  }

  /** Two lists without partly filled file areas that give every address the same attributes are the same list. */
  lemma {:induction false} Canonical(s: seq<Area>, t: seq<Area>, limit: nat)
    requires Valid(s, limit) && Valid(t, limit) && AllWhole(s) && AllWhole(t) && SameMeaning(s, t)
    ensures SameAreas(s, t)
    decreases s
  {
    if t != [] { NotEmpty(t, s, limit); }
    if s != [] {
      NotEmpty(s, t, limit);
      SameHead(s, t, limit);
      forall x: nat ensures AttrAt(s[1..], x) == AttrAt(t[1..], x) {
        assert AttrAt(s, x) == AttrAt(t, x);
        TailMeans(s, limit, x);
        TailMeans(t, limit, x);
      }
      TailMeans(s, limit, 0);
      TailMeans(t, limit, 0);
      Canonical(s[1..], t[1..], limit);
      assert forall i | 0 < i < |s| :: s[i] == s[1..][i - 1];
    }
  }

  /** With a partly filled file area this fails: the zero pages behind the file may be cut off or not. */
  lemma NotCanonical()
    ensures var p := Prot(true, false, false);
      var a := Area(0, 12288, 0, 4096, p, 2, true, Elf, 1, 0);
      var b, c := Area(0, 8192, 0, 4096, p, 2, true, Elf, 1, 0), Area(8192, 12288, 8192, 0, p, 2, true, Elf, 1, 0);
      Valid([a], 1000000) && Valid([b, c], 1000000) && SameMeaning([a], [b, c]) && !SameAreas([a], [b, c])
  {
    var p := Prot(true, false, false);
    var a := Area(0, 12288, 0, 4096, p, 2, true, Elf, 1, 0);
    var b, c := Area(0, 8192, 0, 4096, p, 2, true, Elf, 1, 0), Area(8192, 12288, 8192, 0, p, 2, true, Elf, 1, 0);
    forall x: nat ensures AttrAt([a], x) == AttrAt([b, c], x) {
      assert [b, c][1..] == [c] && [c][1..] == [] && [a][1..] == [];
    }
  }
}
