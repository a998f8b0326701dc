/** The tables of a virtqueue as ring.c changes them: the linked free list, the descriptor chains, the
labels and tokens, and the buffers mapped for the device. */
module VirtqueueKernel {
  import opened Common
  import opened Virtqueue

  const NO_HEAD: nat := 0xFFFF
  const PGSIZE: nat := 4096
  const MAX_BUFFERS: nat := 32

  datatype Direction = ToDevice | FromDevice | Neither

  /** `address` is what mapping the buffer for the device yields. */
  datatype Buffer = Buffer(address: nat, length: nat, direction: Direction)

  /** What the device reads: the flags are VRING_DESC_F_WRITE and VRING_DESC_F_NEXT. */
  datatype Descriptor = Descriptor(address: nat, length: nat, write: bool, hasNext: bool, next: nat)

  const CLEARED := Descriptor(0, 0, false, false, 0)

  datatype Tables = Tables(descriptors: seq<Descriptor>, freeNext: seq<nat>, freeHead: nat, freeCount: nat, tokens: seq<nat>,
                           heads: seq<nat>, mapped: set<nat>)

  /** The descriptors of `c` carry `mark`, the others what they carried. */
  ghost predicate Labelled(now: seq<nat>, was: seq<nat>, c: seq<nat>, mark: nat) {
    |now| == |was| && forall x: nat | x < |now| :: now[x] == if x in c then mark else was[x]
  }

  /** Only the descriptors of `c` have been written. */
  ghost predicate WrittenIn(now: seq<Descriptor>, was: seq<Descriptor>, c: seq<nat>) {
    |now| == |was| && forall x: nat | x < |now| && x !in c :: now[x] == was[x]
  }

  /** The descriptors of `c` are cleared, the others as they were. */
  ghost predicate ClearedIn(now: seq<Descriptor>, was: seq<Descriptor>, c: seq<nat>) {
    |now| == |was| && forall x: nat | x < |now| :: now[x] == if x in c then CLEARED else was[x]
  }

  lemma ClearMore(now: seq<Descriptor>, was: seq<Descriptor>, c: seq<nat>, k: nat)
    requires k < |c| && c[k] < |now| && ClearedIn(now, was, c[..k])
    ensures ClearedIn(now[c[k] := CLEARED], was, c[..k + 1]) && (c[k] !in c[..k] ==> now[c[k]] == was[c[k]])
  {
    assert c[..k + 1] == c[..k] + [c[k]];
  }

  lemma ClearedWritten(now: seq<Descriptor>, was: seq<Descriptor>, c: seq<nat>)
    requires ClearedIn(now, was, c)
    ensures WrittenIn(now, was, c)
  {}

  lemma LabelMore(now: seq<nat>, was: seq<nat>, c: seq<nat>, k: nat, mark: nat)
    requires k < |c| && c[k] < |now| && Labelled(now, was, c[..k], mark)
    ensures Labelled(now[c[k] := mark], was, c[..k + 1], mark)
  {
    assert c[..k + 1] == c[..k] + [c[k]];
  }

  lemma NothingYet(labels: seq<nat>, ds: seq<Descriptor>, c: seq<nat>, mark: nat)
    ensures Labelled(labels, labels, c[..0], mark) && ClearedIn(ds, ds, c[..0])
  {}

  /** The free list starts at `head` and runs through `q`; what follows the last entry is never read. */
  predicate FreeList(next: seq<nat>, head: nat, q: seq<nat>) {
    && (forall x | x in q :: x < |next|)
    && (q != [] ==> q[0] == head)
    && forall i | 0 <= i < |q| - 1 :: q[i] < |next| && next[q[i]] == q[i + 1]
  }

  /** The descriptors of a chain lead from each to the next. */
  predicate Linked(ds: seq<Descriptor>, c: seq<nat>) {
    forall i | 0 <= i < |c| :: c[i] < |ds| && ds[c[i]].hasNext == (i + 1 < |c|) && (i + 1 < |c| ==> ds[c[i]].next == c[i + 1])
  }

  ghost predicate Sizes(t: Tables, size: nat) {
    |t.descriptors| == |t.freeNext| == |t.tokens| == |t.heads| == size
  }

  lemma ReapShows(t: Tables, d: Driver, head: nat)
    requires DriverOk(d) && head in d.chains && Represents(t, Release(d, head))
    ensures DriverOk(Reap(d, head)) && Represents(t, Reap(d, head)) && Release(d, head).usedShadow == d.usedShadow
  {
    ReapKeeps(d, head);
  }

  /** Each chain is linked in the descriptor table, labelled with its head, and its token is at the head. */
  ghost predicate ChainsShown(t: Tables, d: Driver)
    requires Sizes(t, d.size)
  {
    && (forall h | h in d.chains && h < d.size :: t.tokens[h] == d.chains[h].token && Linked(t.descriptors, d.chains[h].descriptors))
    && (forall h, x | h in d.chains && x in d.chains[h].descriptors && x < d.size :: t.heads[x] == h)
  }

  ghost predicate MarksShown(t: Tables, d: Driver)
    requires Sizes(t, d.size)
  {
    forall x: nat | x < d.size :: (t.tokens[x] != 0 <==> x in d.chains) && (t.heads[x] == NO_HEAD <==> x in d.free)
  }

  ghost predicate Represents(t: Tables, d: Driver) {
    && Sizes(t, d.size)
    && FreeList(t.freeNext, t.freeHead, d.free) && t.freeCount == |d.free|
    && ChainsShown(t, d) && MarksShown(t, d)
    && (forall x: nat :: x in t.mapped <==> x < d.size && x !in d.free)
  }

  lemma FreeListTail(next: seq<nat>, head: nat, q: seq<nat>)
    requires FreeList(next, head, q) && q != []
    ensures head < |next| && FreeList(next, next[head], q[1..])
  {
    assert q[0] in q && forall x | x in q[1..] :: x in q;
    assert |q| > 1 ==> next[q[0]] == q[1];
    forall i | 0 <= i < |q[1..]| - 1 ensures q[1..][i] < |next| && next[q[1..][i]] == q[1..][i + 1] {
      assert next[q[i + 1]] == q[i + 2];
    }
  }

  lemma FreeListPush(next: seq<nat>, head: nat, q: seq<nat>, x: nat)
    requires FreeList(next, head, q) && x < |next| && x !in q
    ensures FreeList(next[x := head], x, [x] + q)
  {
    var r, n := [x] + q, next[x := head];
    forall i | 0 <= i < |r| - 1 ensures r[i] < |n| && n[r[i]] == r[i + 1] {
      if i > 0 {
        assert q[i - 1] in q;
        assert next[q[i - 1]] == q[i];
      }
    }
  }

  class Queue {
    const size: nat
    var descriptors: seq<Descriptor>
    var freeNext: seq<nat>
    var freeHead: nat
    var freeCount: nat
    var tokens: seq<nat>
    var heads: seq<nat>
    var mapped: set<nat>
    var avail: seq<nat>
    var availIndex: nat
    var usedShadow: nat
    ghost var free: seq<nat>
    ghost var chains: map<nat, Chain>

    /** virtqueue_create. */
    constructor (size: nat)
      requires GoodSize(size)
      ensures Valid() && View() == Driver(size, seq(size, i => i), map[], seq(size, _ => 0), 0, 0)
    {
      this.size := size;
      descriptors, tokens, mapped := seq(size, _ => CLEARED), seq(size, _ => 0), {};
      freeNext, heads := seq(size, i => i + 1), seq(size, _ => NO_HEAD);
      freeHead, freeCount := 0, size;
      avail, availIndex, usedShadow := seq(size, _ => 0), 0, 0;
      free, chains := seq(size, i => i), map[];
      new;
      hide DriverOk, Represents;
      NewDriver(View());
      NewTables(Abs(), View());
    }

    ghost function View(): Driver
      reads this
    {
      Driver(size, free, chains, avail, availIndex, usedShadow)
    }

    ghost function Abs(): Tables
      reads this
    {
      Tables(descriptors, freeNext, freeHead, freeCount, tokens, heads, mapped)
    }

    ghost predicate Valid()
      reads this
    {
      DriverOk(View()) && Represents(Abs(), View())
    }

    /** virtqueue_alloc_desc; `q` is what the free list holds. */
    method AllocDesc(ghost q: seq<nat>) returns (x: nat)
      requires FreeList(freeNext, freeHead, q) && freeCount == |q| > 0
      modifies this`freeHead, this`freeCount
      ensures x == q[0] && FreeList(freeNext, freeHead, q[1..]) && freeCount == |q| - 1
    {
      FreeListTail(freeNext, freeHead, q);
      x := freeHead;
      freeHead := freeNext[x];
      freeCount := freeCount - 1;
    }

    /** virtqueue_free_desc. */
    method FreeDesc(x: nat, ghost q: seq<nat>)
      requires FreeList(freeNext, freeHead, q) && freeCount == |q| && x < |freeNext| && x !in q
      modifies this`freeNext, this`freeHead, this`freeCount
      ensures FreeList(freeNext, freeHead, [x] + q) && freeCount == |q| + 1 && |freeNext| == old(|freeNext|)
    {
      FreeListPush(freeNext, freeHead, q, x);
      freeNext := freeNext[x := freeHead];
      freeHead := x;
      freeCount := freeCount + 1;
    }

    method AllocAll(count: nat, ghost q: seq<nat>) returns (taken: seq<nat>)
      requires FreeList(freeNext, freeHead, q) && freeCount == |q| >= count
      modifies this`freeHead, this`freeCount
      ensures taken == q[..count] && FreeList(freeNext, freeHead, q[count..]) && freeCount == |q| - count
    {
      taken := [];
      for i := 0 to count
        invariant taken == q[..i] && FreeList(freeNext, freeHead, q[i..]) && freeCount == |q| - i
      {
        var x := AllocDesc(q[i..]);
        taken := taken + [x];
        assert q[i..][1..] == q[i + 1..];
      }
    }

    /** Gives back descriptors, first to last, to a free list that holds `q`. */
    method FreeAll(xs: seq<nat>, ghost q: seq<nat>)
      requires FreeList(freeNext, freeHead, q) && freeCount == |q| && NoDup(xs) && forall x | x in xs :: x < |freeNext| && x !in q
      modifies this`freeNext, this`freeHead, this`freeCount
      ensures FreeList(freeNext, freeHead, Reverse(xs) + q) && freeCount == |xs| + |q| && |freeNext| == old(|freeNext|)
    {
      assert Reverse([]) + q == q;
      assert xs[..0] == [];
      for i := 0 to |xs|
        invariant FreeList(freeNext, freeHead, Reverse(xs[..i]) + q) && freeCount == i + |q| && |freeNext| == old(|freeNext|)
      {
        ReverseSnoc(xs, i, q);
        FreeDesc(xs[i], Reverse(xs[..i]) + q);
      }
      assert xs[..|xs|] == xs;
      ReverseIn(xs, 0);
    }

    /** dma_map_single and the descriptor of each buffer in turn; the mapping of buffer `mapLimit` fails. */
    method MapAll(buffers: seq<Buffer>, taken: seq<nat>, mapLimit: nat) returns (n: nat)
      requires |taken| == |buffers| && forall x | x in taken :: x < |descriptors|
      modifies this`descriptors, this`mapped
      ensures n == if mapLimit < |buffers| then mapLimit else |buffers|
      ensures mapped == old(mapped) + SetOf(taken[..n]) && descriptors == Filled(old(descriptors), buffers, taken, n)
    {
      n := 0;
      while n < |buffers|
        invariant n <= |buffers| && n <= mapLimit
        invariant mapped == old(mapped) + SetOf(taken[..n]) && descriptors == Filled(old(descriptors), buffers, taken, n)
      {
        if n == mapLimit {
          return;
        }
        FilledLength(old(descriptors), buffers, taken, n);
        assert taken[n] in taken;
        assert taken[..n + 1] == taken[..n] + [taken[n]];
        mapped := mapped + {taken[n]};
        descriptors := descriptors[taken[n] := Describe(buffers, taken, n)];
        n := n + 1;
      }
    }

    /** The chain's mark on each of its descriptors. */
    method LabelAll(taken: seq<nat>, head: nat)
      requires forall x | x in taken :: x < |heads|
      modifies this`heads
      ensures Labelled(heads, old(heads), taken, head)
    {
      NothingYet(heads, [], taken, head);
      for i := 0 to |taken|
        invariant |heads| == old(|heads|) && Labelled(heads, old(heads), taken[..i], head)
      {
        assert taken[i] in taken;
        LabelMore(heads, old(heads), taken, i, head);
        heads := heads[taken[i] := head];
      }
      assert taken[..|taken|] == taken;
    }

    /** virtqueue_add: a chain for the buffers, or nothing; a failed mapping gives back every descriptor. */
    method Add(buffers: seq<Buffer>, token: nat, mapLimit: nat) returns (status: int)
      requires Valid()
      modifies this
      ensures Valid() && status in {0, -1, -2}
      ensures status == 0 <==> Wellformed(buffers, token) && |buffers| <= old(|free|) && |buffers| <= mapLimit
      ensures status == -1 <==> Wellformed(buffers, token) && |buffers| > old(|free|)
      ensures status == 0 ==> View() == Virtqueue.Add(old(View()), |buffers|, token)
      ensures status == 0 ==> free == old(free)[|buffers|..] && chains == old(chains)[old(free)[0] := Chain(old(free)[..|buffers|], token)]
      ensures status == 0 ==> DescribesAll(descriptors, old(descriptors), buffers, old(free)[..|buffers|])
      ensures status != 0 ==> mapped == old(mapped) && (View() == old(View()) || (|buffers| <= old(|free|) && View() == AddFails(old(View()), |buffers|)))
      ensures status != 0 ==> |free| == old(|free|) && forall x :: x in free <==> x in old(free)
    {
      hide DriverOk;
      hide Represents;
      hide FreeList;
      hide Linked;
      hide Filled;
      hide SetOf;
      hide DescribesAll;
      CountIs(Abs(), View());
      var count := |buffers|;
      if count == 0 || count > MAX_BUFFERS || token == 0 {
        return -2;
      }
      if exists i :: 0 <= i < count && buffers[i].direction == Neither {
        return -2;
      }
      if freeCount < count {
        return -1;
      }
      var taken, n := Grab(buffers, mapLimit);
      GrabFacts(old(Abs()), old(View()), buffers, n, freeHead);
      if n < count {
        Unwind(taken, n, old(Abs()), old(View()));
        return -2;
      }
      assert taken[..n] == taken;
      Described(old(Abs()), old(View()), buffers);
      Publish(taken, token, old(Abs()), old(View()));
      status := 0;
    }

    /** The descriptors for the buffers leave the free list and are filled in, as far as the mappings go. */
    method Grab(buffers: seq<Buffer>, mapLimit: nat) returns (taken: seq<nat>, n: nat)
      requires Valid() && 0 < |buffers| <= freeCount
      modifies this`freeHead, this`freeCount, this`descriptors, this`mapped
      ensures taken == free[..|buffers|] && n == (if mapLimit < |buffers| then mapLimit else |buffers|)
      ensures Abs() == Grabbed(old(Abs()), free, buffers, n, freeHead)
      ensures FreeList(freeNext, freeHead, free[|buffers|..])
    {
      TakenFacts(Abs(), View(), |buffers|);
      taken := AllocAll(|buffers|, free);
      n := MapAll(buffers, taken, mapLimit);
    }

    /** The error path of virtqueue_add. */
    method Unwind(taken: seq<nat>, n: nat, ghost t: Tables, ghost d: Driver)
      requires DriverOk(d) && Represents(t, d) && View() == d && 0 < |taken| <= |d.free| && taken == d.free[..|taken|] && n <= |taken|
      requires Sizes(Abs(), d.size) && tokens == t.tokens && heads == t.heads && mapped == t.mapped + SetOf(taken[..n])
      requires FreeList(freeNext, freeHead, d.free[|taken|..]) && freeCount == |d.free| - |taken|
      requires WrittenIn(descriptors, t.descriptors, taken)
      modifies this
      ensures Valid() && View() == AddFails(d, |taken|) && mapped == t.mapped
      ensures |free| == |d.free| && forall x :: x in free <==> x in d.free
    {
      hide DriverOk, Represents, FreeList, Reverse, SetOf, NoDup, WrittenIn, Sizes;
      TakenFacts(t, d, |taken|);
      SizesAre(Abs(), d.size);
      mapped := mapped - SetOf(taken[..n]);
      FreeAll(taken, d.free[|taken|..]);
      SizesBack(Abs(), d.size);
      free := Reverse(taken) + d.free[|taken|..];
      ReverseIn(taken, 0);
      UnwindOk(t, Abs(), d, View(), |taken|, n);
    }

    /** Labels, token and available entry of the new chain. */
    method Publish(taken: seq<nat>, token: nat, ghost t: Tables, ghost d: Driver)
      requires DriverOk(d) && Represents(t, d) && View() == d && 0 < |taken| <= |d.free| && taken == d.free[..|taken|] && token != 0
      requires Sizes(Abs(), d.size) && tokens == t.tokens && heads == t.heads && mapped == t.mapped + SetOf(taken)
      requires FreeList(freeNext, freeHead, d.free[|taken|..]) && freeCount == |d.free| - |taken|
      requires Linked(descriptors, taken) && WrittenIn(descriptors, t.descriptors, taken)
      modifies this`heads, this`tokens, this`avail, this`availIndex, this`free, this`chains
      ensures Valid() && View() == Virtqueue.Add(d, |taken|, token)
    {
      hide DriverOk, Represents, FreeList, Linked, NoDup, SetOf, WrittenIn, Labelled, Sizes;
      TakenSmall(t, d, |taken|);
      SizesAre(Abs(), d.size);
      var head := taken[0];
      assert head in taken;
      LabelAll(taken, head);
      LabelledSize(heads, t.heads, taken, head);
      tokens := tokens[head := token];
      avail := avail[availIndex % size := head];
      availIndex := (availIndex + 1) % WORD;
      free, chains := d.free[|taken|..], d.chains[head := Chain(taken, token)];
      AddKeeps(d, |taken|, token);
      SizesBack(Abs(), d.size);
      AddOk(t, Abs(), d, |taken|, token);
    }

    /** The first loop of virtqueue_release_chain: the chain is intact. */
    method CheckChain(head: nat) returns (panic: bool)
      requires Valid() && head in chains
      ensures !panic
    {
      ghost var c := chains[head].descriptors;
      ChainFacts(Abs(), View(), head);
      var x, count := head, 0;
      while true
        invariant count < |c| <= size && x == c[count]
        decreases |c| - count
      {
        assert c[count] in c;
        if x >= size || count >= size || heads[x] != head {
          return true;
        }
        if !descriptors[x].hasNext {
          return false;
        }
        x := descriptors[x].next;
        count := count + 1;
      }
    }

    /** The second loop: unmap, clear and free each descriptor of the chain `c`. */
    method FreeChain(head: nat, ghost c: seq<nat>, ghost q: seq<nat>)
      requires Linked(descriptors, c) && c != [] && c[0] == head && NoDup(c) && |descriptors| == |heads| == |freeNext|
      requires FreeList(freeNext, freeHead, q) && freeCount == |q| && forall x | x in c :: x < |heads| && x !in q
      modifies this`descriptors, this`heads, this`mapped, this`freeNext, this`freeHead, this`freeCount
      ensures |descriptors| == |heads| == |freeNext| == old(|heads|)
      ensures Labelled(heads, old(heads), c, NO_HEAD) && ClearedIn(descriptors, old(descriptors), c)
      ensures mapped == old(mapped) - SetOf(c) && FreeList(freeNext, freeHead, Reverse(c) + q) && freeCount == |c| + |q|
    {
      hide FreeList, Reverse, SetOf, NoDup, Labelled, ClearedIn;
      var x := head;
      ghost var k := 0;
      StartChain(c, q);
      NothingYet(heads, descriptors, c, NO_HEAD);
      while true
        invariant k < |c| && x == c[k] && |descriptors| == |heads| == |freeNext| == old(|heads|)
        invariant Labelled(heads, old(heads), c[..k], NO_HEAD) && ClearedIn(descriptors, old(descriptors), c[..k])
        invariant mapped == old(mapped) - SetOf(c[..k]) && FreeList(freeNext, freeHead, Reverse(c[..k]) + q) && freeCount == k + |q|
        decreases |c| - k
      {
        ReverseSnoc(c, k, q);
        NextInChain(c, k);
        LabelMore(heads, old(heads), c, k, NO_HEAD);
        ClearMore(descriptors, old(descriptors), c, k);
        var last := descriptors[x];
        mapped := mapped - {x};
        descriptors := descriptors[x := CLEARED];
        heads := heads[x := NO_HEAD];
        FreeDesc(x, Reverse(c[..k]) + q);
        if !last.hasNext {
          break;
        }
        x := last.next;
        k := k + 1;
      }
    }

    /** The token of an outstanding chain is handed back and the chain released. */
    method TakeBack(head: nat) returns (token: nat, panic: bool)
      requires Valid() && head in chains
      modifies this
      ensures !panic && token == old(chains)[head].token && Valid() && View() == Release(old(View()), head)
      ensures ClearedIn(descriptors, old(descriptors), old(chains)[head].descriptors) && mapped == old(mapped) - SetOf(old(chains)[head].descriptors)
    {
      hide FreeList, Linked, DriverOk, Represents, SetOf, NoDup, Labelled, WrittenIn, ClearedIn, Reverse, Sizes;
      ghost var t, d := Abs(), View();
      ChainFacts(t, d, head);
      SizesAre(t, d.size);
      panic := CheckChain(head);
      token := tokens[head];
      tokens := tokens[head := 0];
      ghost var c := chains[head].descriptors;
      FreeChain(head, c, free);
      ClearedWritten(descriptors, old(descriptors), c);
      free, chains := Reverse(c) + free, chains - {head};
      SizesBack(Abs(), d.size);
      ReleaseKeeps(d, head);
      ReleaseOk(t, Abs(), d, head);
    }

    /** virtqueue_get_used, given what the device shows in the used ring. */
    method GetUsed(used: seq<nat>, usedIndex: nat) returns (token: nat, panic: bool)
      requires Valid() && |used| == size && usedIndex < WORD
      modifies this
      ensures !panic ==> Valid()
      ensures var pending := (usedIndex + WORD - old(usedShadow)) % WORD;
        && (pending == 0 ==> !panic && token == 0 && View() == old(View()))
        && (pending > 0 ==> size > 0 && var id := used[old(usedShadow) % size];
             && (panic <==> pending > size || id !in old(chains))
             && (!panic ==> token == old(chains)[id].token && View() == Reap(old(View()), id)))
    {
      hide DriverOk, Represents, Release;
      CountIs(Abs(), View());
      ghost var d := View();
      var pending := (usedIndex + WORD - usedShadow) % WORD;
      if pending > size {
        return 0, true;
      }
      if pending == 0 {
        return 0, false;
      }
      var id := used[usedShadow % size];
      TokenIffChain(Abs(), d, id);
      if id >= size || tokens[id] == 0 {
        return 0, true;
      }
      token, panic := TakeBack(id);
      ReapShows(Abs(), d, id);
      usedShadow := (usedShadow + 1) % WORD;
    }

    method FirstToken() returns (x: nat)
      requires Valid()
      ensures x == FirstChain(View(), 0)
    {
      CountIs(Abs(), View());
      x := 0;
      while x < size && tokens[x] == 0
        invariant x <= size && FirstChain(View(), x) == FirstChain(View(), 0)
      {
        TokenIffChain(Abs(), View(), x);
        x := x + 1;
      }
      TokenIffChain(Abs(), View(), x);
    }

    /** virtqueue_detach_unused: the outstanding chain with the lowest head, if there is one. */
    method DetachUnused() returns (token: nat, panic: bool)
      requires Valid()
      modifies this
      ensures !panic && Valid()
      ensures var h := FirstChain(old(View()), 0);
        if h >= size then token == 0 && View() == old(View()) && old(chains) == map[]
        else h in old(chains) && (forall g | g in old(chains) :: h <= g) && token == old(chains)[h].token && View() == Release(old(View()), h)
    {
      FirstChainIs(View(), 0);
      var x := FirstToken();
      token, panic := 0, false;
      if x < size {
        token, panic := TakeBack(x);
      }
    }
  }

  lemma ChainFacts(t: Tables, d: Driver, h: nat)
    requires DriverOk(d) && Represents(t, d) && h in d.chains
    ensures var c := d.chains[h].descriptors;
      && h < d.size && c != [] && c[0] == h && NoDup(c) && |c| <= d.size && Linked(t.descriptors, c)
      && (forall x | x in c :: x < d.size && x !in d.free && t.heads[x] == h) && Sizes(t, d.size)
      && FreeList(t.freeNext, t.freeHead, d.free) && t.freeCount == |d.free| && t.tokens[h] == d.chains[h].token
  {
    var c := d.chains[h].descriptors;
    HeadSmall(d, h);
    SizeOf(c);
    Below(SetOf(c), d.size);
  }

  lemma TokenIffChain(t: Tables, d: Driver, x: nat)
    requires DriverOk(d) && Represents(t, d)
    ensures x in d.chains <==> x < d.size && t.tokens[x] != 0
  {
    if x in d.chains { HeadSmall(d, x); }
  }

  lemma StartChain(c: seq<nat>, q: seq<nat>)
    ensures c[..0] == [] && Reverse(c[..0]) + q == q && SetOf(c[..0]) == {}
  {
    assert Reverse([]) == [];
  }

  lemma NextInChain(c: seq<nat>, k: nat)
    requires k < |c| && NoDup(c)
    ensures c[k] in c && c[k] !in c[..k] && c[..k + 1] == c[..k] + [c[k]] && SetOf(c[..k + 1]) == SetOf(c[..k]) + {c[k]}
    ensures k + 1 == |c| ==> c[..k + 1] == c
  {}

  lemma ReleaseOk(t: Tables, t': Tables, d: Driver, h: nat)
    requires DriverOk(d) && Represents(t, d) && h in d.chains && h < d.size && Sizes(t', d.size)
    requires var c := d.chains[h].descriptors;
      && t'.tokens == t.tokens[h := 0] && t'.mapped == t.mapped - SetOf(c)
      && FreeList(t'.freeNext, t'.freeHead, Reverse(c) + d.free) && t'.freeCount == |c| + |d.free|
      && Labelled(t'.heads, t.heads, c, NO_HEAD) && WrittenIn(t'.descriptors, t.descriptors, c)
    ensures Represents(t', Release(d, h))
  {
    hide FreeList, ChainsShown, MarksShown, Labelled, WrittenIn, DriverOk;
    var c, d' := d.chains[h].descriptors, Release(d, h);
    forall x ensures |Reverse(c)| == |c| && (x in Reverse(c) <==> x in c) { ReverseIn(c, x); }
    ReverseIn(c, 0);
    ReleaseChains(t, t', d, d', h);
    ReleaseMarks(t, t', d, d', h);
    ChainFacts(t, d, h);
  }

  lemma ReleaseChains(t: Tables, t': Tables, d: Driver, d': Driver, h: nat)
    requires DriverOk(d) && Sizes(t, d.size) && Sizes(t', d.size) && ChainsShown(t, d) && h in d.chains && h < d.size
    requires d'.size == d.size && d'.chains == d.chains - {h} && t'.tokens == t.tokens[h := 0]
    requires Labelled(t'.heads, t.heads, d.chains[h].descriptors, NO_HEAD) && WrittenIn(t'.descriptors, t.descriptors, d.chains[h].descriptors)
    ensures ChainsShown(t', d')
  {
    var c := d.chains[h].descriptors;
    forall g, x | g in d'.chains && x in d'.chains[g].descriptors ensures x !in c { assert ChainsApart(d.chains); }
    forall g | g in d'.chains && g < d.size ensures Linked(t'.descriptors, d'.chains[g].descriptors) {
      LinkedStill(t.descriptors, t'.descriptors, d.chains[g].descriptors, c);
    }
  }

  lemma LinkedStill(was: seq<Descriptor>, now: seq<Descriptor>, e: seq<nat>, c: seq<nat>)
    requires Linked(was, e) && WrittenIn(now, was, c) && forall x | x in e :: x !in c
    ensures Linked(now, e)
  {
    forall i | 0 <= i < |e| ensures e[i] < |now| && now[e[i]] == was[e[i]] { assert e[i] in e; }
  }

  lemma ReleaseMarks(t: Tables, t': Tables, d: Driver, d': Driver, h: nat)
    requires Sizes(t, d.size) && Sizes(t', d.size) && MarksShown(t, d) && h in d.chains && h < d.size && d'.size == d.size
    requires d'.chains == d.chains - {h} && (forall x :: x in d'.free <==> x in d.free || x in d.chains[h].descriptors)
    requires t'.tokens == t.tokens[h := 0] && Labelled(t'.heads, t.heads, d.chains[h].descriptors, NO_HEAD)
    ensures MarksShown(t', d')
  {}

  /** The descriptors after the first `n` buffers have been filled in. */
  function Filled(ds: seq<Descriptor>, buffers: seq<Buffer>, taken: seq<nat>, n: nat): seq<Descriptor>
    requires n <= |buffers| <= |taken|
  {
    if n == 0 then ds
    else
      var r := Filled(ds, buffers, taken, n - 1);
      if taken[n - 1] < |r| then r[taken[n - 1] := Describe(buffers, taken, n - 1)] else r
  }

  lemma {:induction false} FilledLength(ds: seq<Descriptor>, buffers: seq<Buffer>, taken: seq<nat>, n: nat)
    requires n <= |buffers| <= |taken|
    ensures |Filled(ds, buffers, taken, n)| == |ds|
    ensures forall x | 0 <= x < |ds| && x !in taken :: Filled(ds, buffers, taken, n)[x] == ds[x]
    decreases n
  {
    if n > 0 {
      FilledLength(ds, buffers, taken, n - 1);
      assert taken[n - 1] in taken;
    }
  }

  /** Each buffer is described by its own descriptor. */
  lemma {:induction false} FilledAt(ds: seq<Descriptor>, buffers: seq<Buffer>, taken: seq<nat>, n: nat, i: nat)
    requires i < n <= |buffers| <= |taken| && NoDup(taken) && forall x | x in taken :: x < |ds|
    ensures |Filled(ds, buffers, taken, n)| == |ds| && taken[i] < |ds| && Filled(ds, buffers, taken, n)[taken[i]] == Describe(buffers, taken, i)
    decreases n
  {
    FilledLength(ds, buffers, taken, n);
    FilledLength(ds, buffers, taken, n - 1);
    assert taken[i] in taken && taken[n - 1] in taken;
    if i < n - 1 { FilledAt(ds, buffers, taken, n - 1, i); }
  }

  lemma FilledLinked(ds: seq<Descriptor>, buffers: seq<Buffer>, taken: seq<nat>)
    requires |buffers| == |taken| && NoDup(taken) && forall x | x in taken :: x < |ds|
    ensures Linked(Filled(ds, buffers, taken, |buffers|), taken)
  {
    forall i | 0 <= i < |taken| ensures taken[i] < |ds| && |Filled(ds, buffers, taken, |buffers|)| == |ds|
      && Filled(ds, buffers, taken, |buffers|)[taken[i]] == Describe(buffers, taken, i) {
      FilledAt(ds, buffers, taken, |buffers|, i);
    }
    FilledLength(ds, buffers, taken, |buffers|);
  }

  function Grabbed(t: Tables, free: seq<nat>, buffers: seq<Buffer>, n: nat, head: nat): Tables
    requires n <= |buffers| <= |free| && |buffers| <= t.freeCount
  {
    t.(freeHead := head, freeCount := t.freeCount - |buffers|, mapped := t.mapped + SetOf(free[..|buffers|][..n]),
       descriptors := Filled(t.descriptors, buffers, free[..|buffers|], n))
  }

  /** The descriptor of buffer `i`, whose chain is `taken`. */
  function Describe(buffers: seq<Buffer>, taken: seq<nat>, i: nat): Descriptor
    requires i < |buffers| <= |taken|
  {
    Descriptor(buffers[i].address, buffers[i].length, buffers[i].direction == FromDevice, i + 1 < |buffers|, if i + 1 < |buffers| then taken[i + 1] else 0)
  }

  /** What virtqueue_add demands of its arguments. */
  predicate Wellformed(buffers: seq<Buffer>, token: nat) {
    1 <= |buffers| <= 32 && token != 0 && forall i | 0 <= i < |buffers| :: buffers[i].direction in {ToDevice, FromDevice}
  }

  /** The chain `c` tells the device the buffers in order: where they are, how long, whether it may write, and what follows. */
  ghost predicate DescribesAll(now: seq<Descriptor>, was: seq<Descriptor>, buffers: seq<Buffer>, c: seq<nat>) {
    && |c| == |buffers| && WrittenIn(now, was, c)
    && forall i | 0 <= i < |buffers| ::
         && c[i] < |now| && now[c[i]].address == buffers[i].address && now[c[i]].length == buffers[i].length
         && (now[c[i]].write <==> buffers[i].direction.FromDevice?)
         && (now[c[i]].hasNext <==> i < |buffers| - 1) && (i < |buffers| - 1 ==> now[c[i]].next == c[i + 1])
  }

  lemma Described(t: Tables, d: Driver, buffers: seq<Buffer>)
    requires DriverOk(d) && Represents(t, d) && 0 < |buffers| <= |d.free|
    ensures DescribesAll(Filled(t.descriptors, buffers, d.free[..|buffers|], |buffers|), t.descriptors, buffers, d.free[..|buffers|])
  {
    hide DriverOk, Represents, Filled, DescribesAll, NoDup, Sizes;
    TakenFacts(t, d, |buffers|);
    CountIs(t, d);
    SizesAre(t, d.size);
    FilledDescribes(t.descriptors, buffers, d.free[..|buffers|]);
  }

  lemma FilledDescribes(ds: seq<Descriptor>, buffers: seq<Buffer>, c: seq<nat>)
    requires |c| == |buffers| && NoDup(c) && forall x | x in c :: x < |ds|
    ensures DescribesAll(Filled(ds, buffers, c, |buffers|), ds, buffers, c)
  {
    hide Filled, NoDup;
    FilledLength(ds, buffers, c, |buffers|);
    forall i | 0 <= i < |buffers| ensures c[i] < |ds| && Filled(ds, buffers, c, |buffers|)[c[i]] == Describe(buffers, c, i) {
      FilledAt(ds, buffers, c, |buffers|, i);
    }
  }

  lemma SizesAre(t: Tables, size: nat)
    requires Sizes(t, size)
    ensures |t.descriptors| == |t.freeNext| == |t.tokens| == |t.heads| == size
  {}

  lemma SizesBack(t: Tables, size: nat)
    requires |t.descriptors| == |t.freeNext| == |t.tokens| == |t.heads| == size
    ensures Sizes(t, size)
  {}

  lemma LabelledSize(now: seq<nat>, was: seq<nat>, c: seq<nat>, mark: nat)
    requires Labelled(now, was, c, mark)
    ensures |now| == |was|
  {}

  lemma CountIs(t: Tables, d: Driver)
    requires DriverOk(d) && Represents(t, d)
    ensures t.freeCount == |d.free| && Sizes(t, d.size) && d.size > 0
  {}

  lemma GrabFacts(t: Tables, d: Driver, buffers: seq<Buffer>, n: nat, head: nat)
    requires DriverOk(d) && Represents(t, d) && 0 < |buffers| <= |d.free| && t.freeCount == |d.free| && n <= |buffers|
    ensures var t', taken := Grabbed(t, d.free, buffers, n, head), d.free[..|buffers|];
      && Sizes(t', d.size) && WrittenIn(t'.descriptors, t.descriptors, taken)
      && (n == |buffers| ==> Linked(t'.descriptors, taken))
  {
    var taken := d.free[..|buffers|];
    TakenFacts(t, d, |buffers|);
    FilledLength(t.descriptors, buffers, taken, n);
    if n == |buffers| { FilledLinked(t.descriptors, buffers, taken); }
  }

  lemma TakenSmall(t: Tables, d: Driver, count: nat)
    requires DriverOk(d) && Represents(t, d) && 0 < count <= |d.free|
    ensures |d.avail| == d.size > 0 && forall x | x in d.free[..count] :: x < d.size
  {
    TakenFacts(t, d, count);
  }

  lemma TakenFacts(t: Tables, d: Driver, count: nat)
    requires DriverOk(d) && Represents(t, d) && 0 < count <= |d.free|
    ensures var taken, rest := d.free[..count], d.free[count..];
      && |d.avail| == d.size > 0 && NoDup(taken) && (forall x | x in taken :: x < d.size && x !in rest && x in d.free && x !in t.mapped && x !in d.chains)
      && (forall x :: x in d.free <==> x in taken || x in rest)
  {
    var taken, rest := d.free[..count], d.free[count..];
    assert d.free == taken + rest;
    forall x | x in d.chains ensures x !in d.free {
      assert d.chains[x].descriptors[0] == x;
    }
  }

  /** After a failed mapping: the same descriptors are free, in another order. */
  lemma UnwindOk(t: Tables, t': Tables, d: Driver, d': Driver, count: nat, n: nat)
    requires DriverOk(d) && Represents(t, d) && 0 < count <= |d.free| && n <= count
    requires d' == AddFails(d, count)
    requires Sizes(t', d.size) && t'.tokens == t.tokens && t'.heads == t.heads && t'.freeCount == |d'.free|
    requires t'.mapped == t.mapped + SetOf(d.free[..count][..n]) - SetOf(d.free[..count][..n])
    requires FreeList(t'.freeNext, t'.freeHead, d'.free)
    requires WrittenIn(t'.descriptors, t.descriptors, d.free[..count])
    ensures DriverOk(d') && Represents(t', d') && t'.mapped == t.mapped
    ensures |d'.free| == |d.free| && forall x :: x in d'.free <==> x in d.free
  {
    var taken, rest := d.free[..count], d.free[count..];
    TakenFacts(t, d, count);
    AddFailsKeeps(d, count);
    assert forall x | x in taken[..n] :: x in taken;
    ChainsStay(t, t', d, taken);
  }

  /** Chains do not change when only free descriptors are written. */
  lemma ChainsStay(t: Tables, t': Tables, d: Driver, written: seq<nat>)
    requires DriverOk(d) && Represents(t, d) && Sizes(t', d.size) && forall x | x in written :: x in d.free
    requires WrittenIn(t'.descriptors, t.descriptors, written)
    ensures forall h | h in d.chains && h < d.size :: Linked(t'.descriptors, d.chains[h].descriptors)
  {
    forall h | h in d.chains && h < d.size ensures Linked(t'.descriptors, d.chains[h].descriptors) {
      var c := d.chains[h].descriptors;
      assert Linked(t.descriptors, c);
      forall i | 0 <= i < |c| ensures c[i] < |t'.descriptors| && t'.descriptors[c[i]] == t.descriptors[c[i]] {
        assert c[i] in c;
      }
    }
  }

  lemma AddOk(t: Tables, t': Tables, d: Driver, count: nat, token: nat)
    requires DriverOk(d) && Represents(t, d) && 0 < count <= |d.free| && token != 0
    requires Sizes(t', d.size) && t'.freeCount == |d.free| - count && FreeList(t'.freeNext, t'.freeHead, d.free[count..])
    requires var taken := d.free[..count];
      && taken[0] < d.size && t'.tokens == t.tokens[taken[0] := token] && t'.mapped == t.mapped + SetOf(taken)
      && Labelled(t'.heads, t.heads, taken, taken[0])
      && Linked(t'.descriptors, taken) && WrittenIn(t'.descriptors, t.descriptors, taken)
    ensures Represents(t', Virtqueue.Add(d, count, token))
  {
    hide FreeList, Linked, NoDup, GoodSize, DriverOk;
    var taken := d.free[..count];
    TakenFacts(t, d, count);
    ChainsStay(t, t', d, taken);
    InChainNotFree(d);
  }

  lemma InChainNotFree(d: Driver)
    requires DriverOk(d)
    ensures d.size <= NO_HEAD && forall h, x | h in d.chains && x in d.chains[h].descriptors :: x !in d.free
  {
  }

  lemma {:induction false} ReverseConcat(a: seq<nat>, x: nat)
    ensures Reverse(a + [x]) == [x] + Reverse(a)
    decreases a
  {
    if a != [] {
      assert (a + [x])[1..] == a[1..] + [x];
      ReverseConcat(a[1..], x);
    }
  }

  lemma ReverseSnoc(xs: seq<nat>, i: nat, q: seq<nat>)
    requires i < |xs| && NoDup(xs) && forall x | x in xs :: x !in q
    ensures Reverse(xs[..i + 1]) + q == [xs[i]] + (Reverse(xs[..i]) + q) && xs[i] !in Reverse(xs[..i]) + q && |Reverse(xs[..i])| == i
  {
    assert xs[..i + 1] == xs[..i] + [xs[i]];
    ReverseConcat(xs[..i], xs[i]);
    ReverseIn(xs[..i], xs[i]);
    assert xs[i] in xs;
  }

  lemma NewDriver(d: Driver)
    requires GoodSize(d.size) && d.chains == map[] && |d.free| == |d.avail| == d.size && d.availIndex == d.usedShadow == 0
    requires forall i | 0 <= i < d.size :: d.free[i] == i
    ensures DriverOk(d)
  {
    forall x: nat | x < d.size ensures x in d.free { assert d.free[x] == x; }
  }

  lemma NewTables(t: Tables, d: Driver)
    requires DriverOk(d) && d.chains == map[] && |d.free| == d.size && Sizes(t, d.size) && t.freeHead == 0 && t.freeCount == d.size && t.mapped == {}
    requires forall i | 0 <= i < d.size :: d.free[i] == i && t.freeNext[i] == i + 1 && t.tokens[i] == 0 && t.heads[i] == NO_HEAD
    ensures Represents(t, d)
  {
    forall x: nat | x < d.size ensures x in d.free { assert d.free[x] == x; }
  }

  /** The sizes of the descriptor table, the available ring and the used ring, as virtqueue_create tests them. */
  predicate Accepted(size: nat) {
    PowerOfTwo(size) && 16 * size <= PGSIZE && 6 + 2 * size <= PGSIZE && 6 + 8 * size <= PGSIZE
  }

  lemma {:induction false} SmallPower(n: nat)
    requires PowerOfTwo(n) && n <= 256
    ensures GoodSize(n)
    decreases n
  {
    if n > 1 { SmallPower(n / 2); }
  }

  /** The tests of virtqueue_create leave exactly the powers of two up to 256. */
  lemma AcceptedSizes(n: nat)
    ensures Accepted(n) <==> GoodSize(n)
  {
    if Accepted(n) { SmallPower(n); }
    assert PowerOfTwo(1) && PowerOfTwo(2) && PowerOfTwo(4) && PowerOfTwo(8);
    assert PowerOfTwo(16) && PowerOfTwo(32) && PowerOfTwo(64) && PowerOfTwo(128) && PowerOfTwo(256);
  }

  /** virtqueue_create: no queue for a size it does not accept or without memory. */
  method Create(size: nat, memory: bool) returns (queue: Queue?)
    ensures queue == null <==> !Accepted(size) || !memory
    ensures queue != null ==> fresh(queue) && queue.Valid() && queue.View() == Driver(size, seq(size, i => i), map[], seq(size, _ => 0), 0, 0)
  {
    AcceptedSizes(size);
    if !Accepted(size) || !memory { return null; }
    queue := new Queue(size);
  }
}
