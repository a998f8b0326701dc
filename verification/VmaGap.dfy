/** The search for free address space in vma.c: aligned, top down, with a hint. */
module VmaGap {
  import opened Common
  import opened Arithmetic
  import opened Vma

  predicate Congruent(a: nat, alignment: nat, offset: nat)
    requires alignment > 0
  {
    a % alignment == offset % alignment
  }

  /** align_up_offset without its overflow check. */
  function AlignUp(value: nat, alignment: nat, offset: nat): nat
    requires alignment > 0
  {
    var residue := offset % alignment;
    if value <= residue then residue
    else residue + (value - residue + alignment - 1) / alignment * alignment
  }

  /** align_down_offset, for a value at or above the residue. */
  function AlignDown(value: nat, alignment: nat, offset: nat): nat
    requires alignment > 0 && value >= offset % alignment
  {
    offset % alignment + (value - offset % alignment) / alignment * alignment
  }

  lemma MultipleOf(q: nat, w: nat, r: nat)
    requires r < w
    ensures (r + q * w) % w == r && (r + q * w) / w == q
  {
    DivIs(r + q * w, w, q);
  }

  lemma Decompose(b: nat, w: nat, r: nat)
    requires w > 0 && b % w == r
    ensures b == b / w * w + r && r <= b
  {
    DivBounds(b, w);
  }

  lemma Ceiling(d: nat, w: nat)
    requires w > 0
    ensures var q := (d + w - 1) / w; d <= q * w <= d + w - 1
  {
    DivBounds(d + w - 1, w);
  }

  lemma UpLeast(q: nat, p: nat, w: nat, d: nat)
    requires q * w <= d + w - 1 && d <= p * w
    ensures q * w <= p * w
  {
    OneMore(p, w);
    MulLe(p + 1, q, w);
    MulLe(q, p, w);
  }

  /** The multiple of `w` reached from `d` is below `word` exactly when there is room for one step more. */
  lemma Overflow(m: nat, q: nat, w: nat, d: nat, word: nat)
    requires m * w == word && d <= q * w <= d + w - 1 && w > 0
    ensures d > word - w ==> q * w >= word
    ensures d <= word - w ==> q * w + w <= word
  {
    OneMore(q, w);
    OneMore(m, w);
    MulLe(q, m - 1, w);
    MulLe(m, q, w);
  }

  /** The least address at or above `value` in the right residue class. */
  lemma AlignUpLeast(value: nat, alignment: nat, offset: nat)
    requires alignment > 0
    ensures var a := AlignUp(value, alignment, offset);
      value <= a && Congruent(a, alignment, offset) && forall b: nat | value <= b && Congruent(b, alignment, offset) :: a <= b
  {
    var r, w := offset % alignment, alignment;
    var a := AlignUp(value, alignment, offset);
    if value > r {
      var q := (value - r + w - 1) / w;
      Ceiling(value - r, w);
      MultipleOf(q, w, r);
      forall b: nat | value <= b && Congruent(b, alignment, offset) ensures a <= b {
        Decompose(b, w, r);
        UpLeast(q, b / w, w, value - r);
      }
    } else {
      MultipleOf(0, w, r);
      forall b: nat | Congruent(b, alignment, offset) ensures r <= b {
        Decompose(b, w, r);
      }
    }
  }

  /** The greatest address at or below `value` in the right residue class. */
  lemma AlignDownGreatest(value: nat, alignment: nat, offset: nat)
    requires alignment > 0
    ensures value < offset % alignment ==> forall b: nat | b <= value :: !Congruent(b, alignment, offset)
    ensures value >= offset % alignment ==> var a := AlignDown(value, alignment, offset);
      a <= value && Congruent(a, alignment, offset) && forall b: nat | b <= value && Congruent(b, alignment, offset) :: b <= a
  {
    var r, w := offset % alignment, alignment;
    forall b: nat | Congruent(b, alignment, offset) ensures r <= b { Decompose(b, w, r); }
    if value >= r {
      DivBounds(value - r, w);
      MultipleOf((value - r) / w, w, r);
      forall b: nat | b <= value && Congruent(b, alignment, offset) ensures b <= AlignDown(value, alignment, offset) {
        DownGreatest(b, value, w, r);
      }
    }
  }

  lemma DownGreatest(b: nat, value: nat, w: nat, r: nat)
    requires w > 0 && b % w == r && b <= value && r <= value
    ensures b <= r + (value - r) / w * w
  {
    var p, q := b / w, (value - r) / w;
    Decompose(b, w, r);
    DivBounds(value - r, w);
    OneMore(q, w);
    MulLe(q + 1, p, w);
    MulLe(p, q, w);
  }

  /** Every power of two up to 2^64 divides 2^64. */
  lemma {:induction false} DividesWord(n: nat, word: nat) returns (m: nat)
    requires PowerOfTwo(n) && PowerOfTwo(word) && n <= word
    ensures m * n == word
    decreases n
  {
    hide PowerOfTwo;
    Halve(n);
    Halve(word);
    if n == 1 {
      m := word;
    } else {
      m := DividesWord(n / 2, word / 2);
      Regroup(n / 2, m);
    }
  }

  /** Where align_up_offset reports an overflow, the aligned address would not fit in 64 bits. */
  lemma AlignUpOverflow(value: nat, alignment: nat, offset: nat)
    requires PowerOfTwo(alignment) && alignment <= U64_MAX && value > offset % alignment
    ensures value - offset % alignment > U64_MAX - (alignment - 1) ==> AlignUp(value, alignment, offset) > U64_MAX
    ensures value - offset % alignment <= U64_MAX - (alignment - 1) ==> AlignUp(value, alignment, offset) <= U64_MAX
  {
    hide PowerOfTwo;
    Halve(alignment);
    var r, w := offset % alignment, alignment;
    WordIsPower();
    var m := DividesWord(w, U64_MAX + 1);
    RoomAbove(m, value - r, w, r, U64_MAX + 1);
  }

  lemma RoomAbove(m: nat, d: nat, w: nat, r: nat, word: nat)
    requires w > 0 && m * w == word && r < w
    ensures var q := (d + w - 1) / w; (d > word - w ==> r + q * w >= word) && (d <= word - w ==> r + q * w < word)
  {
    Ceiling(d, w);
    Overflow(m, (d + w - 1) / w, w, d, word);
  }

  lemma WordIsPower()
    ensures PowerOfTwo(U64_MAX + 1)
  {
    assert PowerOfTwo(0x1_0000);
    HalfPower(0x1_0000, 0x1_0000);
    HalfPower(0x1_0000_0000, 0x1_0000_0000);
  }

  lemma {:induction false} HalfPower(a: nat, b: nat)
    requires PowerOfTwo(a) && PowerOfTwo(b)
    ensures PowerOfTwo(a * b)
    decreases a
  {
    hide PowerOfTwo;
    Halve(a);
    if a > 1 {
      HalfPower(a / 2, b);
      Regroup(a / 2, b);
      Double(a / 2 * b);
    }
  }

  lemma Halve(n: nat)
    requires PowerOfTwo(n)
    ensures n > 0 && (n > 1 ==> n == 2 * (n / 2) && PowerOfTwo(n / 2))
  {}

  lemma Double(n: nat)
    requires PowerOfTwo(n)
    ensures PowerOfTwo(2 * n)
  {
    assert 2 * n / 2 == n;
  }

  lemma Regroup(h: nat, b: nat)
    ensures (2 * h) * b == 2 * (h * b)
  {}

  /** An address the search may return. */
  predicate Suits(s: seq<Area>, low: nat, high: nat, length: nat, alignment: nat, offset: nat, a: nat)
    requires alignment > 0
  {
    low <= a && a + length <= high && Congruent(a, alignment, offset) && FreeRange(s, a, a + length)
  }

  /** The arguments vma_find_gap_aligned accepts. */
  predicate GoodRequest(low: nat, high: nat, hint: nat, length: nat, alignment: nat, offset: nat) {
    && low < high && length > 0 && low % PGSIZE == 0 && high % PGSIZE == 0 && length % PGSIZE == 0
    && (hint == 0 || hint % PGSIZE == 0) && alignment >= PGSIZE && PowerOfTwo(alignment) && offset % PGSIZE == 0
    && length <= high - low
  }

  predicate HintSuits(s: seq<Area>, low: nat, high: nat, hint: nat, length: nat, alignment: nat, offset: nat)
    requires alignment > 0 && length <= high
  {
    low <= hint <= high - length && Suits(s, low, high, length, alignment, offset, AlignUp(hint, alignment, offset))
  }

  /** gap_aligned_address: the highest suitable address in a stretch [start, end) without areas. */
  method GapAligned(start: nat, end: nat, length: nat, alignment: nat, offset: nat) returns (r: Option<nat>)
    requires alignment > 0 && length > 0
    ensures r.Some? ==> start <= r.value && r.value + length <= end && Congruent(r.value, alignment, offset)
    ensures r.Some? ==> forall a: nat | a + length <= end && Congruent(a, alignment, offset) :: a <= r.value
    ensures r.None? ==> forall a: nat | start <= a && a + length <= end :: !Congruent(a, alignment, offset)
  {
    if start >= end || length > end - start {
      return None;
    }
    AlignDownGreatest(end - length, alignment, offset);
    if end - length < offset % alignment {
      return None;
    }
    var candidate := AlignDown(end - length, alignment, offset);
    if candidate < start {
      return None;
    }
    r := Some(candidate);
  }

  /** vma_find_gap_aligned: the aligned hint if it suits, otherwise the highest address that does. */
  method FindGapAligned(s: seq<Area>, low: nat, high: nat, hint: nat, length: nat, alignment: nat, offset: nat, limit: nat)
    returns (r: Option<nat>)
    requires Valid(s, limit) && high <= U64_MAX && hint <= U64_MAX && alignment <= U64_MAX
    ensures !GoodRequest(low, high, hint, length, alignment, offset) ==> r.None?
    ensures GoodRequest(low, high, hint, length, alignment, offset) ==>
      if HintSuits(s, low, high, hint, length, alignment, offset) then r == Some(AlignUp(hint, alignment, offset))
      else if r.Some? then
        Suits(s, low, high, length, alignment, offset, r.value)
        && forall a: nat | Suits(s, low, high, length, alignment, offset, a) :: a <= r.value
      else forall a: nat :: !Suits(s, low, high, length, alignment, offset, a)
  {
    if !GoodRequest(low, high, hint, length, alignment, offset) {
      return None;
    }
    AlignUpLeast(hint, alignment, offset);
    if low <= hint <= high - length {
      var residue := offset % alignment;
      if hint > residue { AlignUpOverflow(hint, alignment, offset); }
      if hint <= residue || hint - residue <= U64_MAX - (alignment - 1) {
        var candidate := AlignUp(hint, alignment, offset);
        if candidate <= high - length {
          var free := RangeFree(s, candidate, candidate + length, limit);
          if free {
            return Some(candidate);
          }
        }
      }
    }
    r := TopDown(s, low, high, length, alignment, offset, limit);
  }

  /** vma_range_free. */
  method RangeFree(s: seq<Area>, start: nat, end: nat, limit: nat) returns (r: bool)
    requires Valid(s, limit)
    ensures r <==> start < end && FreeRange(s, start, end)
  {
    if start >= end {
      return false;
    }
    for i := 0 to |s|
      invariant forall j | 0 <= j < i :: s[j].end <= start
    {
      if end <= s[i].start {
        forall j | i <= j < |s| ensures end <= s[j].start {
          if i < j { assert s[i].end <= s[j].start; }
        }
        return true;
      }
      if start < s[i].end {
        return false;
      }
    }
    return true;
  }

  /** The loop over the areas from the last to the first. */
  method TopDown(s: seq<Area>, low: nat, high: nat, length: nat, alignment: nat, offset: nat, limit: nat) returns (r: Option<nat>)
    requires Valid(s, limit) && low < high && length > 0 && alignment > 0
    ensures r.Some? ==> Suits(s, low, high, length, alignment, offset, r.value)
    ensures r.Some? ==> forall a: nat | Suits(s, low, high, length, alignment, offset, a) :: a <= r.value
    ensures r.None? ==> forall a: nat :: !Suits(s, low, high, length, alignment, offset, a)
  {
    var cursor, i := high, |s|;
    while i > 0
      invariant 0 <= i <= |s| && low < cursor <= high
      invariant forall j | i <= j < |s| :: cursor <= s[j].start
      invariant forall a: nat | Suits(s, low, high, length, alignment, offset, a) :: a + length <= cursor
    {
      var area := s[i - 1];
      LowerAreas(s, i - 1, limit);
      if area.start >= cursor {
        i := i - 1;
        continue;
      }
      if area.end <= low {
        break;
      }
      if area.end < cursor {
        r := GapAligned(area.end, cursor, length, alignment, offset);
        if r.Some? {
          return;
        }
      }
      forall a: nat | Suits(s, low, high, length, alignment, offset, a) ensures a + length <= area.start {
        assert area.end <= a || a + length <= area.start;
      }
      cursor := area.start;
      if cursor <= low {
        return None;
      }
      i := i - 1;
    }
    r := GapAligned(low, cursor, length, alignment, offset);
  }

  lemma LowerAreas(s: seq<Area>, i: nat, limit: nat)
    requires Valid(s, limit) && i < |s|
    ensures forall j | 0 <= j < i :: s[j].end <= s[i].start < s[i].end
    ensures s[i].start < s[i].end
  {}
}
