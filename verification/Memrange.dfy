/** The range set of memrange.c: a fixed array of address ranges that stands for a set of addresses. */
module Memrange {
  import opened Common

  const MAX: nat := 64
  const WORD: nat := 0x1_0000_0000_0000_0000

  datatype Range = Range(start: nat, end: nat)

  predicate Covers(s: seq<Range>, i: nat, x: nat) {
    i < |s| && s[i].start <= x < s[i].end
  }

  /** The address belongs to the set. */
  ghost predicate Has(s: seq<Range>, x: nat) {
    exists i: nat :: Covers(s, i, x)
  }

  /** Non-empty ranges in order, with a gap between neighbours. */
  ghost predicate Sorted(s: seq<Range>) {
    && (forall i | 0 <= i < |s| :: s[i].start < s[i].end < WORD)
    && (forall i, j | 0 <= i < j < |s| :: s[i].end < s[j].start)
  }

  // ----- memrange_add -----

  /** The first range that ends at or after `a`. */
  function First(s: seq<Range>, a: nat, i: nat): nat
    decreases |s| - i
  {
    if i >= |s| || s[i].end >= a then i else First(s, a, i + 1)
  }

  datatype Merge = Merge(last: nat, start: nat, end: nat)

  /** The ranges from `i` on that touch [a, b) are swallowed. */
  function Swallow(s: seq<Range>, i: nat, a: nat, b: nat): Merge
    decreases |s| - i
  {
    if i >= |s| || s[i].start > b then Merge(i, a, b) else Swallow(s, i + 1, Least(a, s[i].start), Greatest(b, s[i].end))
  }

  function Added(s: seq<Range>, a: nat, b: nat): seq<Range> {
    var f := First(s, a, 0);
    var m := Swallow(s, f, a, b);
    if f <= |s| && m.last <= |s| then s[..f] + [Range(m.start, m.end)] + s[m.last..] else s
  }

  /** No place is needed when something is swallowed. */
  predicate AddFits(s: seq<Range>, a: nat, b: nat) {
    a < b && (Swallow(s, First(s, a, 0), a, b).last > First(s, a, 0) || |s| < MAX)
  }

  lemma {:induction false} FirstIs(s: seq<Range>, a: nat, i: nat)
    requires i <= |s|
    ensures var f := First(s, a, i); i <= f <= |s| && (f < |s| ==> s[f].end >= a) && forall j | i <= j < f :: s[j].end < a
    decreases |s| - i
  {
    if i < |s| && s[i].end < a { FirstIs(s, a, i + 1); }
  }

  /** Some range overlaps [a, b) or ends or begins where it does. */
  ghost predicate Touches(s: seq<Range>, a: nat, b: nat) {
    exists i :: 0 <= i < |s| && s[i].start <= b && a <= s[i].end
  }

  /** A range can be added exactly when it is not empty and there is room, or a range to join. */
  lemma AddFitsExact(s: seq<Range>, a: nat, b: nat)
    requires Sorted(s)
    ensures AddFits(s, a, b) <==> a < b && (|s| < MAX || Touches(s, a, b))
  {
    FirstIs(s, a, 0);
    var f := First(s, a, 0);
    SwallowLast(s, f, a, b);
    if i :| 0 <= i < |s| && s[i].start <= b && a <= s[i].end { assert f < i ==> s[f].end <= s[i].start && s[f].start <= s[f].end; }
  }

  lemma {:induction false} SwallowLast(s: seq<Range>, i: nat, a: nat, b: nat)
    requires i <= |s|
    ensures Swallow(s, i, a, b).last > i <==> i < |s| && s[i].start <= b
    ensures Swallow(s, i, a, b).last >= i
    decreases |s| - i
  {
    if i < |s| && s[i].start <= b { SwallowLast(s, i + 1, Least(a, s[i].start), Greatest(b, s[i].end)); }
  }

  ghost predicate Between(s: seq<Range>, i: nat, j: nat, x: nat) {
    exists k: nat :: i <= k < j && Covers(s, k, x)
  }

  lemma BetweenStep(s: seq<Range>, i: nat, j: nat, x: nat)
    requires i < j
    ensures Between(s, i, j, x) <==> Covers(s, i, x) || Between(s, i + 1, j, x)
  {
    if Between(s, i, j, x) { var k: nat :| i <= k < j && Covers(s, k, x); assert k == i || i + 1 <= k; }
    if Between(s, i + 1, j, x) { var k: nat :| i + 1 <= k < j && Covers(s, k, x); }
  }

  /** The swallowed ranges and [a, b) together are one range, apart from what comes before and after. */
  lemma SwallowIs(s: seq<Range>, i: nat, a: nat, b: nat, x: nat)
    requires Sorted(s) && i <= |s| && a < b < WORD && (i < |s| ==> s[i].end >= a) && (i > 0 ==> s[i - 1].end < a)
    ensures var m := Swallow(s, i, a, b);
      && i <= m.last <= |s| && m.start <= a && b <= m.end < WORD && m.start < m.end
      && (i > 0 ==> s[i - 1].end < m.start) && (m.last < |s| ==> m.end < s[m.last].start)
      && (m.start <= x < m.end <==> a <= x < b || Between(s, i, m.last, x))
  {
    if i < |s| && s[i].start <= b {
      SwallowRest(s, i + 1, Least(a, s[i].start), Greatest(b, s[i].end), x);
      BetweenStep(s, i, Swallow(s, i, a, b).last, x);
    }
  }

  /** The same once the start can no longer move. */
  lemma {:induction false} SwallowRest(s: seq<Range>, i: nat, a: nat, b: nat, x: nat)
    requires Sorted(s) && 0 < i <= |s| && a < b < WORD && s[i - 1].end <= b && a <= s[i - 1].start
    ensures var m := Swallow(s, i, a, b);
      && i <= m.last <= |s| && m.start == a && b <= m.end < WORD && (m.last < |s| ==> m.end < s[m.last].start)
      && (m.start <= x < m.end <==> a <= x < b || Between(s, i, m.last, x))
    decreases |s| - i
  {
    if i < |s| && s[i].start <= b {
      assert s[i - 1].end < s[i].start;
      SwallowRest(s, i + 1, a, Greatest(b, s[i].end), x);
      BetweenStep(s, i, Swallow(s, i, a, b).last, x);
    }
  }

  lemma BetweenHas(s: seq<Range>, i: nat, j: nat, x: nat)
    requires i <= j <= |s|
    ensures Between(s, i, j, x) <==> Has(s[i..j], x)
  {
    if Between(s, i, j, x) { var k: nat :| i <= k < j && Covers(s, k, x); assert Covers(s[i..j], k - i, x); }
    if Has(s[i..j], x) { var k: nat :| Covers(s[i..j], k, x); assert Covers(s, i + k, x); }
  }

  lemma HasConcat(s: seq<Range>, t: seq<Range>, x: nat)
    ensures Has(s + t, x) <==> Has(s, x) || Has(t, x)
  {
    if Has(s, x) { var i: nat :| Covers(s, i, x); assert Covers(s + t, i, x); }
    if Has(t, x) { var i: nat :| Covers(t, i, x); assert Covers(s + t, |s| + i, x); }
    if Has(s + t, x) {
      var i: nat :| Covers(s + t, i, x);
      if i < |s| { assert Covers(s, i, x); } else { assert Covers(t, i - |s|, x); }
    }
  }

  lemma HasOne(r: Range, x: nat)
    ensures Has([r], x) <==> r.start <= x < r.end
  {
    if r.start <= x < r.end { assert Covers([r], 0, x); }
  }

  lemma SortedConcat(s: seq<Range>, t: seq<Range>)
    requires Sorted(s) && Sorted(t) && (s != [] && t != [] ==> s[|s| - 1].end < t[0].start)
    ensures Sorted(s + t)
  {
    forall i, j | 0 <= i < j < |s + t| ensures (s + t)[i].end < (s + t)[j].start {
      if i < |s| <= j { assert s[i].end <= s[|s| - 1].end && t[0].start <= t[j - |s|].start; }
    }
  }

  lemma SortedPart(s: seq<Range>, i: nat, j: nat)
    requires Sorted(s) && i <= j <= |s|
    ensures Sorted(s[i..j])
  {
  }

  lemma HasSplit(s: seq<Range>, i: nat, j: nat, x: nat)
    requires i <= j <= |s|
    ensures Has(s, x) <==> Has(s[..i], x) || Has(s[i..j], x) || Has(s[j..], x)
  {
    HasConcat(s[..i] + s[i..j], s[j..], x);
    HasConcat(s[..i], s[i..j], x);
    assert s == s[..i] + s[i..j] + s[j..];
  }

  lemma SortedAround(l: seq<Range>, r: Range, t: seq<Range>)
    requires Sorted(l) && Sorted(t) && r.start < r.end < WORD
    requires (l != [] ==> l[|l| - 1].end < r.start) && (t != [] ==> r.end < t[0].start)
    ensures Sorted(l + [r] + t)
  {
    assert Sorted([r]);
    SortedConcat(l, [r]);
    SortedConcat(l + [r], t);
  }

  /** The ranges stay in order with gaps. */
  lemma AddSorted(s: seq<Range>, a: nat, b: nat)
    requires Sorted(s) && a < b < WORD
    ensures Sorted(Added(s, a, b))
  {
    hide Sorted, First, Swallow;
    FirstIs(s, a, 0);
    var f := First(s, a, 0);
    SwallowIs(s, f, a, b, 0);
    var m := Swallow(s, f, a, b);
    SortedPart(s, 0, f);
    SortedPart(s, m.last, |s|);
    assert s[m.last..|s|] == s[m.last..] && s[0..f] == s[..f];
    SortedAround(s[..f], Range(m.start, m.end), s[m.last..]);
  }

  /** add is union. */
  lemma AddMeaning(s: seq<Range>, a: nat, b: nat, x: nat)
    requires Sorted(s) && a < b < WORD
    ensures Has(Added(s, a, b), x) <==> Has(s, x) || a <= x < b
  {
    FirstIs(s, a, 0);
    var f := First(s, a, 0);
    SwallowIs(s, f, a, b, x);
    var m := Swallow(s, f, a, b);
    HasSplit(s, f, m.last, x);
    BetweenHas(s, f, m.last, x);
    HasConcat(s[..f] + [Range(m.start, m.end)], s[m.last..], x);
    HasConcat(s[..f], [Range(m.start, m.end)], x);
    HasOne(Range(m.start, m.end), x);
  }

  // ----- memrange_remove -----

  function RemoveOne(r: Range, a: nat, b: nat): seq<Range> {
    if b <= r.start || a >= r.end then [r]
    else (if r.start < a then [Range(r.start, a)] else []) + (if b < r.end then [Range(b, r.end)] else [])
  }

  function Removed(s: seq<Range>, a: nat, b: nat): seq<Range> {
    if s == [] then [] else RemoveOne(s[0], a, b) + Removed(s[1..], a, b)
  }

  /** Some range reaches beyond [a, b) on both sides and must be split. */
  predicate Splits(s: seq<Range>, a: nat, b: nat) {
    exists i :: 0 <= i < |s| && s[i].start < a && b < s[i].end
  }

  /** remove is difference. */
  lemma {:induction false} RemoveMeaning(s: seq<Range>, a: nat, b: nat, x: nat)
    requires a < b
    ensures Has(Removed(s, a, b), x) <==> Has(s, x) && !(a <= x < b)
    decreases s
  {
    if s != [] {
      var w := RemoveOne(s[0], a, b);
      RemoveMeaning(s[1..], a, b, x);
      HasConcat(w, Removed(s[1..], a, b), x);
      assert s == [s[0]] + s[1..];
      HasConcat([s[0]], s[1..], x);
      HasOne(s[0], x);
      RemoveOneMeaning(s[0], a, b, x);
    }
  }

  lemma RemoveOneMeaning(r: Range, a: nat, b: nat, x: nat)
    requires a < b
    ensures Has(RemoveOne(r, a, b), x) <==> r.start <= x < r.end && !(a <= x < b)
  {
    HasOne(r, x);
    HasOne(Range(r.start, a), x);
    HasOne(Range(b, r.end), x);
    HasConcat([Range(r.start, a)], [Range(b, r.end)], x);
    var l, u := if r.start < a then [Range(r.start, a)] else [], if b < r.end then [Range(b, r.end)] else [];
    assert [] + u == u && l + [] == l;
  }

  lemma {:induction false} RemoveSorted(s: seq<Range>, a: nat, b: nat)
    requires Sorted(s) && a < b
    ensures Sorted(Removed(s, a, b)) && (Removed(s, a, b) != [] ==> s != [] && s[0].start <= Removed(s, a, b)[0].start)
    decreases s
  {
    if s != [] {
      SortedPart(s, 1, |s|);
      assert s[1..|s|] == s[1..];
      RemoveSorted(s[1..], a, b);
      var w, r := RemoveOne(s[0], a, b), Removed(s[1..], a, b);
      RemoveOneSorted(s[0], a, b);
      if r != [] { assert s[0].end < s[1].start <= r[0].start; }
      SortedConcat(w, r);
    }
  }

  lemma RemoveOneSorted(r: Range, a: nat, b: nat)
    requires r.start < r.end < WORD && a < b
    ensures var w := RemoveOne(r, a, b); Sorted(w) && (w != [] ==> r.start <= w[0].start && w[|w| - 1].end <= r.end)
  {
  }

  // ----- memrange_contains and memrange_total -----

  /** One range holds all of [a, b), or some address in between is missing. */
  lemma ContainsExact(s: seq<Range>, a: nat, b: nat)
    requires Sorted(s) && a < b
    ensures (forall x: nat | a <= x < b :: Has(s, x)) <==> exists i: nat :: i < |s| && s[i].start <= a && b <= s[i].end
  {
    if i: nat :| i < |s| && s[i].start <= a && b <= s[i].end {
      forall x: nat | a <= x < b ensures Has(s, x) { assert Covers(s, i, x); }
    }
    if forall x: nat | a <= x < b :: Has(s, x) {
      assert Has(s, a);
      var i: nat :| Covers(s, i, a);
      if s[i].end < b {
        var e := s[i].end;
        assert Has(s, e);
        var j: nat :| Covers(s, j, e);
        assert i != j;
      }
    }
  }

  function Total(s: seq<Range>): int {
    if s == [] then 0 else Total(s[..|s| - 1]) + (s[|s| - 1].end - s[|s| - 1].start)
  }

  /** The sizes add up to less than 2^64, so the sum never wraps. */
  lemma {:induction false} TotalFits(s: seq<Range>)
    requires Sorted(s)
    ensures 0 <= Total(s) && (s != [] ==> Total(s) <= s[|s| - 1].end < WORD)
    decreases s
  {
    if s != [] {
      TotalFits(s[..|s| - 1]);
    }
  }

  lemma TotalNone(s: seq<Range>)
    ensures Total(s[..0]) == 0
  {
  }

  lemma TotalNext(s: seq<Range>, i: nat)
    requires Sorted(s) && i < |s|
    ensures s[i].start < s[i].end && 0 <= Total(s[..i]) && Total(s[..i + 1]) == Total(s[..i]) + (s[i].end - s[i].start) < WORD
  {
    hide Sorted;
    assert s[..i + 1][..i] == s[..i];
    PrefixSorted(s, i);
    PrefixSorted(s, i + 1);
    TotalFits(s[..i + 1]);
    TotalFits(s[..i]);
  }

  lemma PrefixSorted(s: seq<Range>, i: nat)
    requires Sorted(s) && i <= |s|
    ensures Sorted(s[..i]) && (i > 0 ==> s[i - 1].start < s[i - 1].end)
  {
  }

  ghost function Addresses(s: seq<Range>): set<nat> {
    set x: nat | x < WORD && Has(s, x)
  }

  predicate Within(a: nat, b: nat, x: nat) { a <= x < b }

  ghost function Interval(a: nat, b: nat): set<nat> {
    set x: nat | x < b && Within(a, b, x)
  }

  lemma {:induction false} IntervalSize(a: nat, b: nat)
    requires a <= b
    ensures |Interval(a, b)| == b - a
    decreases b
  {
    if a < b {
      IntervalSize(a, b - 1);
      assert Interval(a, b) == Interval(a, b - 1) + {b - 1};
    } else {
      assert Interval(a, b) == {};
    }
  }

  /** The total is the number of addresses in the set. */
  lemma {:induction false} TotalCounts(s: seq<Range>)
    requires Sorted(s)
    ensures Total(s) == |Addresses(s)|
    decreases s
  {
    if s == [] {
      assert Addresses(s) == {};
    } else {
      var n := |s| - 1;
      TotalCounts(s[..n]);
      IntervalSize(s[n].start, s[n].end);
      LastApart(s);
    }
  }

  lemma LastApart(s: seq<Range>)
    requires Sorted(s) && s != []
    ensures var n := |s| - 1;
      && Addresses(s) == Addresses(s[..n]) + Interval(s[n].start, s[n].end)
      && Addresses(s[..n]) !! Interval(s[n].start, s[n].end)
  {
    var n := |s| - 1;
    assert s == s[..n] + [s[n]];
    forall x: nat ensures Has(s, x) <==> Has(s[..n], x) || s[n].start <= x < s[n].end {
      HasConcat(s[..n], [s[n]], x);
      HasOne(s[n], x);
    }
  }

  // ----- what the removal loop has done after `k` ranges -----

  lemma {:induction false} RemovedNext(s: seq<Range>, k: nat, a: nat, b: nat)
    requires k < |s|
    ensures Removed(s[..k + 1], a, b) == Removed(s[..k], a, b) + RemoveOne(s[k], a, b)
    decreases k
  {
    if k > 0 {
      RemovedNext(s[1..], k - 1, a, b);
      assert s[1..][..k] == s[..k + 1][1..] && s[1..][..k - 1] == s[..k][1..];
    }
  }

  lemma {:induction false} RemovedRest(s: seq<Range>, k: nat, a: nat, b: nat)
    requires k <= |s| && forall j | k <= j < |s| :: b <= s[j].start || s[j].end <= a
    ensures Removed(s, a, b) == Removed(s[..k], a, b) + s[k..]
    decreases |s|
  {
    if s != [] && k > 0 {
      RemovedRest(s[1..], k - 1, a, b);
      assert s[1..][..k - 1] == s[..k][1..];
    } else if s != [] {
      RemovedRest(s[1..], 0, a, b);
      assert s[1..][..0] == [] && s[..0] == [];
    }
  }

  lemma RemovedNone(s: seq<Range>, a: nat, b: nat)
    requires forall j | 0 <= j < |s| :: b <= s[j].start || s[j].end <= a
    ensures Removed(s, a, b) == s
  {
    RemovedRest(s, 0, a, b);
  }

  /** The contents `t` after the first `k` ranges of `s` have been dealt with. */
  ghost predicate Partway(s: seq<Range>, k: nat, a: nat, b: nat, t: seq<Range>) {
    k <= |s| && t == Removed(s[..k], a, b) + s[k..]
  }

  /** The last range dealt with reaches `b`. */
  ghost predicate Reached(s: seq<Range>, k: nat, b: nat) {
    0 < k <= |s| && b <= s[k - 1].end
  }

  lemma ReachedBy(s: seq<Range>, k: nat, b: nat)
    requires k < |s|
    ensures b <= s[k].end ==> Reached(s, k + 1, b)
  {
  }

  lemma PartwayStart(s: seq<Range>, a: nat, b: nat)
    ensures Partway(s, 0, a, b, s) && Removed(s[..0], a, b) == [] && !Splits(s[..0], a, b)
  {
  }

  function CutOut(t: seq<Range>, i: nat, a: nat, b: nat): seq<Range>
    requires i < |t|
  {
    t[..i] + RemoveOne(t[i], a, b) + t[i + 1..]
  }

  /** The next range is the next of `s`; if it has to be split, nothing has changed so far. */
  lemma PartwayAt(s: seq<Range>, k: nat, a: nat, b: nat, t: seq<Range>)
    requires Sorted(s) && Partway(s, k, a, b, t) && |Removed(s[..k], a, b)| < |t|
    ensures var i := |Removed(s[..k], a, b)|;
      && k < |s| && t[i] == s[k] && s[k].start < s[k].end
      && Partway(s, k + 1, a, b, CutOut(t, i, a, b))
      && |Removed(s[..k + 1], a, b)| == i + |RemoveOne(s[k], a, b)|
      && (s[k].start < a && b < s[k].end ==> t == s && Splits(s, a, b))
  {
    RemovedNext(s, k, a, b);
    CutOutNext(Removed(s[..k], a, b), s, k, a, b);
    if s[k].start < a {
      RemovedNone(s[..k], a, b);
      assert s[..k] + s[k..] == s;
    }
  }

  lemma CutOutNext(p: seq<Range>, s: seq<Range>, k: nat, a: nat, b: nat)
    requires k < |s|
    ensures (p + s[k..])[|p|] == s[k] && CutOut(p + s[k..], |p|, a, b) == p + RemoveOne(s[k], a, b) + s[k + 1..]
  {
    hide RemoveOne;
    assert (p + s[k..])[..|p|] == p && (p + s[k..])[|p| + 1..] == s[k + 1..];
  }

  lemma SplitsNext(s: seq<Range>, k: nat, a: nat, b: nat)
    requires k < |s|
    ensures Splits(s[..k + 1], a, b) ==> Splits(s[..k], a, b) || (s[k].start < a && b < s[k].end)
  {
    var t := s[..k + 1];
    if Splits(t, a, b) {
      var i :| 0 <= i < |t| && t[i].start < a && b < t[i].end;
      if i < k { assert s[..k][i] == s[i]; }
    }
  }

  lemma PartwayDone(s: seq<Range>, k: nat, a: nat, b: nat, t: seq<Range>)
    requires Sorted(s) && Partway(s, k, a, b, t) && a < b
    requires k == |s| || |Removed(s[..k], a, b)| >= |t| || Reached(s, k, b)
    ensures t == Removed(s, a, b) && Sorted(t) && (Splits(s, a, b) ==> Splits(s[..k], a, b))
  {
    if Splits(s, a, b) {
      var i :| 0 <= i < |s| && s[i].start < a && b < s[i].end;
      assert s[..k][i] == s[i];
    }
    RemovedRest(s, k, a, b);
    RemoveSorted(s, a, b);
  }

  lemma SplitPlaces(s: seq<Range>, t: seq<Range>, i: nat, x: Range, y: Range)
    requires i < |s| && |t| == |s| + 1 && t[i] == x && t[i + 1] == y
    requires (forall k | 0 <= k < i :: t[k] == s[k]) && forall k | i + 1 < k < |t| :: t[k] == s[k - 1]
    ensures t == s[..i] + [x, y] + s[i + 1..]
  {
    var r := s[..i] + [x, y] + s[i + 1..];
    forall k | 0 <= k < |t| ensures t[k] == r[k] {
      if k > i + 1 { assert r[k] == s[i + 1..][k - i - 2]; }
    }
  }

  lemma OnePlace(s: seq<Range>, i: nat, x: Range)
    requires i < |s|
    ensures s[i := x] == s[..i] + [x] + s[i + 1..] && s == s[i := s[i]]
  {
  }

  /** The five ways in which a range and the removed interval can lie. */
  lemma CutCases(s: seq<Range>, i: nat, a: nat, b: nat)
    requires i < |s| && s[i].start < s[i].end && a < b
    ensures var r, t := s[i], CutOut(s, i, a, b);
      && (b <= r.start || a >= r.end ==> t == s && |RemoveOne(r, a, b)| == 1)
      && (a <= r.start && b >= r.end ==> t == s[..i] + s[i + 1..] && |RemoveOne(r, a, b)| == 0)
      && (a <= r.start < b < r.end ==> t == s[i := Range(b, r.end)])
      && (r.start < a < r.end <= b ==> t == s[i := Range(r.start, a)] && |RemoveOne(r, a, b)| == 1)
      && (r.start < a && b < r.end ==> t == s[..i] + [Range(r.start, a), Range(b, r.end)] + s[i + 1..])
  {
    OnePlace(s, i, s[i]);
    OnePlace(s, i, Range(b, s[i].end));
    OnePlace(s, i, Range(s[i].start, a));
  }

  /** What one turn of the removal loop does: no room, break, or go on at `next`. */
  datatype Turn = Full | Stop | Go(next: nat)

  /** struct memrange_set: the first `count` places of a fixed array. */
  class RangeSet {
    const ranges: array<Range>
    var count: nat

    ghost predicate Valid()
      reads this, ranges
    {
      ranges.Length == MAX && count <= MAX && Sorted(ranges[..count])
    }

    ghost function Contents(): seq<Range>
      requires count <= ranges.Length
      reads this, ranges
    {
      ranges[..count]
    }

    constructor ()
      ensures Valid() && Contents() == [] && fresh(ranges)
    {
      ranges := new Range[MAX];
      count := 0;
    }

    /** memrange_delete. */
    method Delete(index: nat)
      requires ranges.Length == MAX && index < count <= MAX
      modifies this, ranges
      ensures count == old(count) - 1 && Contents() == old(Contents()[..index] + Contents()[index + 1..])
    {
      ghost var s := Contents();
      var i := index;
      while i + 1 < count
        invariant index <= i < count && count == old(count)
        invariant forall k | index <= k < i :: ranges[k] == s[k + 1]
        invariant forall k | 0 <= k < count && !(index <= k < i) :: ranges[k] == s[k]
      {
        ranges[i] := ranges[i + 1];
        i := i + 1;
      }
      count := count - 1;
      assert Contents() == s[..index] + s[index + 1..];
    }

    /** The shift that makes room at `index`. */
    method Open(index: nat)
      requires ranges.Length == MAX && index <= count < MAX
      modifies this, ranges
      ensures count == old(count) + 1 && (forall k | 0 <= k < index :: ranges[k] == old(ranges[k]))
      ensures forall k | index < k < count :: ranges[k] == old(ranges[k - 1])
    {
      var i := count;
      while i > index
        invariant index <= i <= count == old(count)
        invariant forall k | i < k <= count :: ranges[k] == old(ranges[k - 1])
        invariant forall k | 0 <= k < count && k <= i :: ranges[k] == old(ranges[k])
      {
        ranges[i] := ranges[i - 1];
        i := i - 1;
      }
      count := count + 1;
    }

    method FindFirst(start: nat) returns (first: nat)
      requires Valid()
      ensures first == First(Contents(), start, 0)
    {
      first := 0;
      while first < count && ranges[first].end < start
        invariant first <= count && First(Contents(), start, 0) == First(Contents(), start, first)
      {
        first := first + 1;
      }
    }

    method SwallowFrom(first: nat, start: nat, end: nat) returns (m: Merge)
      requires Valid() && first <= count
      ensures m == Swallow(Contents(), first, start, end)
    {
      var last, a, b := first, start, end;
      while last < count && ranges[last].start <= b
        invariant first <= last <= count
        invariant Swallow(Contents(), first, start, end) == Swallow(Contents(), last, a, b)
      {
        if ranges[last].start < a { a := ranges[last].start; }
        var e := ranges[last].end;
        if e > b { b := e; }
        last := last + 1;
      }
      m := Merge(last, a, b);
    }

    /** Deletes the places after `first` up to `last`. */
    method DeleteBetween(first: nat, last: nat)
      requires ranges.Length == MAX && first < last <= count <= MAX
      modifies this, ranges
      ensures count == old(count) - (last - first - 1) && first < count
      ensures Contents() == old(Contents()[..first + 1] + Contents()[last..])
    {
      var n := last;
      while n > first + 1
        invariant first + 1 <= n <= last && count == old(count) - (last - n) && n <= count
        invariant Contents() == old(Contents()[..first + 1]) + old(Contents())[first + 1 + last - n..]
      {
        Delete(first + 1);
        n := n - 1;
      }
    }

    /** Puts one range in the place of those from `first` to `last`, if there is room. */
    method Replace(first: nat, last: nat, r: Range) returns (ok: bool)
      requires ranges.Length == MAX && first <= last <= count <= MAX
      modifies this, ranges
      ensures ok == (last > first || old(count) < MAX) && count <= MAX
      ensures Contents() == if ok then old(Contents())[..first] + [r] + old(Contents())[last..] else old(Contents())
    {
      ghost var s := Contents();
      if first == last {
        if count >= MAX { return false; }
        Open(first);
      } else {
        DeleteBetween(first, last);
      }
      ranges[first] := r;
      ok := true;
      assert Contents() == s[..first] + [r] + s[last..];
    }

    /** memrange_add. */
    method Add(start: nat, end: nat) returns (ok: bool)
      requires Valid() && start < WORD && end < WORD
      modifies this, ranges
      ensures Valid() && (ok <==> start < end && (old(count) < MAX || Touches(old(Contents()), start, end)))
      ensures Contents() == if ok then Added(old(Contents()), start, end) else old(Contents())
    {
      AddFitsExact(Contents(), start, end);
      hide Sorted, First, Swallow, Touches;
      if start >= end { return false; }
      var first := FindFirst(start);
      FirstIs(Contents(), start, 0);
      var m := SwallowFrom(first, start, end);
      SwallowIs(Contents(), first, start, end, 0);
      AddSorted(Contents(), start, end);
      ok := Replace(first, m.last, Range(m.start, m.end));
    }

    /** Cuts [start, end) out of the middle of the range at `i`. */
    method Split(i: nat, start: nat, end: nat)
      requires ranges.Length == MAX && i < count < MAX
      modifies this, ranges
      ensures count <= MAX
      ensures Contents() == old(Contents()[..i] + [Range(ranges[i].start, start), Range(end, ranges[i].end)] + Contents()[i + 1..])
    {
      ghost var s := Contents();
      var r := ranges[i];
      Open(i + 1);
      ranges[i + 1] := Range(end, r.end);
      ranges[i] := Range(r.start, start);
      SplitPlaces(s, Contents(), i, Range(r.start, start), Range(end, r.end));
    }

    /** One turn of the loop in memrange_remove, at place `i`. */
    method CutAt(i: nat, start: nat, end: nat) returns (turn: Turn)
      requires ranges.Length == MAX && i < count <= MAX && ranges[i].start < ranges[i].end && start < end
      modifies this, ranges
      ensures count <= MAX
      ensures var r := old(ranges[i]);
        && (turn == Full <==> r.start < start && end < r.end && old(count) == MAX)
        && (turn == Stop ==> end <= r.end) && (turn.Go? ==> turn.next == i + |RemoveOne(r, start, end)| && !(r.start < start && end < r.end))
        && Contents() == if turn == Full then old(Contents()) else CutOut(old(Contents()), i, start, end)
    {
      hide CutOut, RemoveOne;
      var r := ranges[i];
      ghost var s := Contents();
      CutCases(s, i, start, end);
      if end <= r.start { return Stop; }
      if start >= r.end { return Go(i + 1); }
      if start <= r.start && end >= r.end {
        Delete(i);
        return Go(i);
      }
      if start <= r.start {
        ranges[i] := Range(end, r.end);
        assert Contents() == s[i := ranges[i]];
        return Stop;
      }
      if end >= r.end {
        ranges[i] := Range(r.start, start);
        assert Contents() == s[i := ranges[i]];
        return Go(i + 1);
      }
      if count >= MAX { return Full; }
      Split(i, start, end);
      turn := Stop;
    }

    /** memrange_remove. */
    method Remove(start: nat, end: nat) returns (ok: bool)
      requires Valid() && start < WORD && end < WORD
      modifies this, ranges
      ensures Valid() && ok == (start < end && !(Splits(old(Contents()), start, end) && old(count) == MAX))
      ensures Contents() == if ok then Removed(old(Contents()), start, end) else old(Contents())
    {
      hide Sorted, Removed, RemoveOne, Partway, Splits, CutOut, Reached;
      if start >= end { return false; }
      ghost var s, k := Contents(), 0;
      PartwayStart(s, start, end);
      var i, going := 0, true;
      while going && i < count
        invariant k <= |s| && count <= MAX && Partway(s, k, start, end, Contents())
        invariant going ==> i == |Removed(s[..k], start, end)|
        invariant Splits(s[..k], start, end) ==> old(count) < MAX
        invariant !going ==> Reached(s, k, end)
        decreases |s| + 1 - k, going
      {
        PartwayAt(s, k, start, end, Contents());
        SplitsNext(s, k, start, end);
        assert ranges[i] == Contents()[i];
        var turn := CutAt(i, start, end);
        if turn == Full { return false; }
        ReachedBy(s, k, end);
        if turn == Stop {
          going := false;
        } else {
          i := turn.next;
        }
        k := k + 1;
      }
      PartwayDone(s, k, start, end, Contents());
      ok := true;
    }

    /** memrange_contains: one range is enough to look for. */
    method Contains(start: nat, end: nat) returns (r: bool)
      requires Valid()
      ensures r <==> start < end && forall x: nat | start <= x < end :: Has(Contents(), x)
    {
      if start >= end { return false; }
      ContainsExact(Contents(), start, end);
      var i := 0;
      while i < count
        invariant i <= count && forall j | 0 <= j < i :: !(Contents()[j].start <= start && end <= Contents()[j].end)
      {
        if start < ranges[i].start {
          assert forall j | i <= j < count :: Contents()[i].start <= Contents()[j].start;
          return false;
        }
        if start >= ranges[i].start && end <= ranges[i].end {
          assert Contents()[i] == ranges[i];
          return true;
        }
        i := i + 1;
      }
      r := false;
    }

    /** memrange_total: the overflow test never fires. */
    method Sum() returns (ok: bool, total: nat)
      requires Valid()
      ensures ok && total == |Addresses(Contents())|
    {
      hide Sorted, Total, Addresses;
      var i := 0;
      ok, total := false, 0;
      TotalNone(Contents());
      TotalCounts(Contents());
      while i < count
        invariant i <= count && total == Total(Contents()[..i]) < WORD
      {
        TotalNext(Contents(), i);
        var size := ranges[i].end - ranges[i].start;
        if (total + size) % WORD < total { return; }
        total := (total + size) % WORD;
        i := i + 1;
      }
      assert Contents()[..count] == Contents();
      ok := true;
    }
  }
}
