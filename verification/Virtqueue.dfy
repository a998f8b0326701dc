/** The split virtqueue of drivers/virtio/ring.c against a device that steps on its own.

The device follows section 2.7 of VIRTIO 1.2: it takes available entries in order, holds the chains
it has taken as long as it likes, and reports them as used in any order.  Driver and device see each
other only through the two rings and their 16-bit indices; `added`, `taken`, `completed` and
`reaped` are the true counts behind them. */
module Virtqueue {
  import opened Common
  import opened Arithmetic

  const WORD: nat := 0x1_0000

  /** One request: its descriptors, head first, and the caller's token. */
  datatype Chain = Chain(descriptors: seq<nat>, token: nat)

  datatype Driver = Driver(size: nat, free: seq<nat>, chains: map<nat, Chain>, avail: seq<nat>, availIndex: nat, usedShadow: nat)

  /** Sizes virtqueue_create accepts: powers of two, up to 256 by the one-page limit on the tables. */
  predicate GoodSize(n: nat) {
    n in {1, 2, 4, 8, 16, 32, 64, 128, 256}
  }

  /** Every descriptor is on the free list or in exactly one chain, once. */
  ghost predicate Partition(d: Driver) {
    && NoDup(d.free) && (forall x | x in d.free :: x < d.size)
    && (forall h | h in d.chains :: ChainOk(d, h))
    && ChainsApart(d.chains)
    && (forall x: nat | x < d.size :: x in d.free || InChain(d, x))
  }

  ghost predicate ChainOk(d: Driver, h: nat)
    requires h in d.chains
  {
    var c := d.chains[h];
    && c.descriptors != [] && c.descriptors[0] == h && NoDup(c.descriptors) && c.token != 0
    && forall x | x in c.descriptors :: x < d.size && x !in d.free
  }

  ghost predicate ChainsApart(chains: map<nat, Chain>) {
    forall g, h, x | g in chains && h in chains && x in chains[g].descriptors && x in chains[h].descriptors :: g == h
  }

  ghost predicate InChain(d: Driver, x: nat) {
    exists h :: h in d.chains && x in d.chains[h].descriptors
  }

  ghost predicate DriverOk(d: Driver) {
    GoodSize(d.size) && Partition(d) && |d.avail| == d.size && d.availIndex < WORD && d.usedShadow < WORD
  }

  /** virtqueue_add of a chain of `count` descriptors. */
  function Add(d: Driver, count: nat, token: nat): Driver
    requires 0 < count <= |d.free| && |d.avail| == d.size > 0
  {
    var head := d.free[0];
    d.(free := d.free[count..],
       chains := d.chains[head := Chain(d.free[..count], token)],
       avail := d.avail[d.availIndex % d.size := head],
       availIndex := (d.availIndex + 1) % WORD)
  }

  function Reverse(q: seq<nat>): seq<nat> {
    if q == [] then [] else Reverse(q[1..]) + [q[0]]
  }

  /** virtqueue_add when a buffer cannot be mapped: the descriptors it took go back, the last one first. */
  function AddFails(d: Driver, count: nat): Driver
    requires count <= |d.free|
  {
    d.(free := Reverse(d.free[..count]) + d.free[count..])
  }

  /** virtqueue_release_chain. */
  function Release(d: Driver, head: nat): Driver
    requires head in d.chains
  {
    d.(free := Reverse(d.chains[head].descriptors) + d.free, chains := d.chains - {head})
  }

  /** virtqueue_get_used of the chain that starts at `head`. */
  function Reap(d: Driver, head: nat): Driver
    requires head in d.chains
  {
    Release(d, head).(usedShadow := (d.usedShadow + 1) % WORD)
  }

  lemma {:induction false} ReverseIn(q: seq<nat>, x: nat)
    ensures |Reverse(q)| == |q| && (x in Reverse(q) <==> x in q)
    decreases q
  {
    if q != [] { ReverseIn(q[1..], x); }
  }

  lemma {:induction false} ReverseNoDup(q: seq<nat>)
    requires NoDup(q)
    ensures NoDup(Reverse(q))
    decreases q
  {
    if q != [] {
      ReverseNoDup(q[1..]);
      assert q[0] !in q[1..];
      ReverseIn(q[1..], q[0]);
    }
  }

  lemma NoDupConcat(a: seq<nat>, b: seq<nat>)
    requires NoDup(a) && NoDup(b) && forall x | x in a :: x !in b
    ensures NoDup(a + b)
  {
    forall i, j | 0 <= i < j < |a + b| ensures (a + b)[i] != (a + b)[j] {
      assert i < |a| ==> (a + b)[i] in a;
      assert j >= |a| ==> (a + b)[j] in b;
    }
  }

  lemma AddKeeps(d: Driver, count: nat, token: nat)
    requires DriverOk(d) && 0 < count <= |d.free| && token != 0
    ensures DriverOk(Add(d, count, token)) && d.free[0] !in d.chains
  {
    hide ChainsApart, InChain;
    var d', head := Add(d, count, token), d.free[0];
    assert head in d.free;
    HeadNotChain(d, head);
    SplitFree(d.free, count);
    AddApart(d, Chain(d.free[..count], token));
    forall h | h in d'.chains ensures ChainOk(d', h) { if h != head { assert ChainOk(d, h); } }
    forall x: nat | x < d.size ensures x in d'.free || InChain(d', x) { AddCovers(d, d', count, token, x); }
  }

  lemma SplitFree(q: seq<nat>, count: nat)
    requires NoDup(q) && count <= |q|
    ensures NoDup(q[..count]) && NoDup(q[count..]) && forall x | x in q[..count] :: x in q && x !in q[count..]
    ensures forall x | x in q[count..] :: x in q
  {}

  lemma AddApart(d: Driver, c: Chain)
    requires ChainsApart(d.chains) && c.descriptors != [] && (forall x | x in c.descriptors :: x in d.free)
    requires forall h | h in d.chains :: ChainOk(d, h)
    ensures ChainsApart(d.chains[c.descriptors[0] := c])
  {
    forall h, x | h in d.chains && x in d.chains[h].descriptors ensures x !in c.descriptors { assert ChainOk(d, h); }
  }

  lemma HeadNotChain(d: Driver, head: nat)
    requires Partition(d) && head in d.free
    ensures head !in d.chains
  {
    forall h | h in d.chains ensures h != head { assert d.chains[h].descriptors[0] == h && h in d.chains[h].descriptors; }
  }

  lemma AddCovers(d: Driver, d': Driver, count: nat, token: nat, x: nat)
    requires 0 < count <= |d.free| && d.free[0] !in d.chains && (x in d.free || InChain(d, x))
    requires d'.free == d.free[count..] && d'.chains == d.chains[d.free[0] := Chain(d.free[..count], token)]
    ensures x in d'.free || InChain(d', x)
  {
    if x in d.free {
      var i :| 0 <= i < |d.free| && d.free[i] == x;
      if i < count { assert d.free[..count][i] == x && x in d'.chains[d.free[0]].descriptors; } else { assert d.free[count..][i - count] == x; }
    } else {
      var h :| h in d.chains && x in d.chains[h].descriptors;
      assert h in d'.chains && x in d'.chains[h].descriptors;
    }
  }

  lemma SameChains(d: Driver, d': Driver)
    requires DriverOk(d) && d' == d.(free := d'.free) && NoDup(d'.free) && forall x :: x in d'.free <==> x in d.free
    ensures DriverOk(d')
  {
    forall x: nat | x < d.size ensures x in d'.free || InChain(d', x) {
      if x !in d.free {
        var h :| h in d.chains && x in d.chains[h].descriptors;
        assert h in d'.chains && x in d'.chains[h].descriptors;
      }
    }
  }

  /** The same descriptors are free, in another order. */
  lemma AddFailsKeeps(d: Driver, count: nat)
    requires DriverOk(d) && count <= |d.free|
    ensures DriverOk(AddFails(d, count)) && |AddFails(d, count).free| == |d.free|
    ensures forall x :: x in AddFails(d, count).free <==> x in d.free
  {
    var taken, rest := d.free[..count], d.free[count..];
    assert d.free == taken + rest;
    forall x ensures |Reverse(taken)| == |taken| && (x in Reverse(taken) <==> x in taken) { ReverseIn(taken, x); }
    ReverseIn(taken, 0);
    ReverseNoDup(taken);
    NoDupConcat(Reverse(taken), rest);
    SameChains(d, AddFails(d, count));
  }

  lemma ReleaseKeeps(d: Driver, head: nat)
    requires DriverOk(d) && head in d.chains
    ensures DriverOk(Release(d, head)) && Release(d, head).chains == d.chains - {head}
    ensures forall x :: x in Release(d, head).free <==> x in d.free || x in d.chains[head].descriptors
  {
    var d', c := Release(d, head), d.chains[head].descriptors;
    forall x ensures |Reverse(c)| == |c| && (x in Reverse(c) <==> x in c) { ReverseIn(c, x); }
    ReverseNoDup(c);
    NoDupConcat(Reverse(c), d.free);
    forall x: nat | x < d.size ensures x in d'.free || InChain(d', x) {
      if x !in d.free && x !in c {
        var h :| h in d.chains && x in d.chains[h].descriptors;
        assert h in d'.chains && x in d'.chains[h].descriptors;
      }
    }
  }

  lemma ReapKeeps(d: Driver, head: nat)
    requires DriverOk(d) && head in d.chains
    ensures DriverOk(Reap(d, head))
  {
    ReleaseKeeps(d, head);
    var d', d1 := Reap(d, head), Release(d, head);
    forall x: nat | x < d.size ensures x in d'.free || InChain(d', x) {
      if x !in d1.free {
        assert InChain(d1, x);
        var h :| h in d1.chains && x in d1.chains[h].descriptors;
        assert h in d'.chains && x in d'.chains[h].descriptors;
      }
    }
  }

  // ----- Driver and device together -----

  /** `todo` are the chains made available and not yet taken, `held` those the device has taken, `done` those
      it has reported and the driver has not yet reaped.  `gave` lists the tokens virtqueue_add accepted;
      `serial` numbers the outstanding chains and `returned` the tokens handed back, by that list. */
  datatype World = World(d: Driver, used: seq<nat>, usedIndex: nat, added: nat, taken: nat, completed: nat, reaped: nat,
                         todo: seq<nat>, held: set<nat>, done: seq<nat>, reset: bool,
                         gave: seq<nat>, serial: map<nat, nat>, returned: map<nat, nat>)

  datatype Outcome = Ok(world: World) | Panic

  /** The ring shows the entries `q` from position `from` on, the position counted without bound. */
  ghost predicate Shows(ring: seq<nat>, from: nat, q: seq<nat>) {
    |ring| > 0 && |q| <= |ring| && forall i | 0 <= i < |q| :: q[i] == ring[(from + i) % |ring|]
  }

  ghost predicate RingsOk(w: World) {
    && |w.used| == w.d.size
    && w.added == w.taken + |w.todo| && w.completed == w.reaped + |w.done| && w.taken == w.completed + |w.held|
    && w.d.availIndex == w.added % WORD && w.usedIndex == w.completed % WORD && w.d.usedShadow == w.reaped % WORD
    && Shows(w.d.avail, w.taken, w.todo) && Shows(w.used, w.reaped, w.done)
  }

  /** Each outstanding chain is at exactly one of the three stages. */
  ghost predicate Stages(w: World) {
    && NoDup(w.todo) && NoDup(w.done)
    && (forall h | h in w.todo :: h !in w.held && h !in w.done) && (forall h | h in w.done :: h !in w.held)
    && (forall h :: h in w.d.chains <==> h in w.todo || h in w.held || h in w.done)
  }

  ghost predicate Pending(w: World, n: nat) {
    exists h :: h in w.d.chains && h in w.serial && w.serial[h] == n
  }

  /** Every token given is either in exactly one chain or returned, and returned as it was given. */
  ghost predicate TokensOk(w: World) {
    && Numbered(w) && SerialsDiffer(w)
    && (forall n | n in w.returned :: n < |w.gave| && w.returned[n] == w.gave[n])
    && (forall n: nat | n < |w.gave| :: n in w.returned || Pending(w, n))
  }

  ghost predicate Numbered(w: World) {
    forall h | h in w.d.chains ::
      h in w.serial && w.serial[h] < |w.gave| && w.gave[w.serial[h]] == w.d.chains[h].token && w.serial[h] !in w.returned
  }

  ghost predicate SerialsDiffer(w: World) {
    forall g, h | g in w.d.chains && h in w.d.chains && g in w.serial && h in w.serial && w.serial[g] == w.serial[h] :: g == h
  }

  ghost predicate Inv(w: World) {
    DriverOk(w.d) && TokensOk(w) && (!w.reset ==> RingsOk(w) && Stages(w))
  }

  predicate Initial(w: World) {
    && GoodSize(w.d.size) && |w.d.avail| == |w.used| == w.d.size
    && w.d.free == seq(w.d.size, i => i) && w.d.chains == map[] && w.d.availIndex == w.d.usedShadow == w.usedIndex == 0
    && w.added == w.taken == w.completed == w.reaped == 0 && w.todo == w.done == [] && w.held == {} && !w.reset
    && w.gave == [] && w.serial == map[] && w.returned == map[]
  }

  datatype Action = DoAdd(count: nat, token: nat) | DoAddFails(count: nat) | DoTake | DoComplete(head: nat) | DoReap | DoReset | DoDetach

  /** virtqueue_add when it succeeds. */
  function AddStep(w: World, count: nat, token: nat): World
    requires 0 < count <= |w.d.free| && |w.d.avail| == w.d.size > 0
  {
    var head := w.d.free[0];
    w.(d := Add(w.d, count, token), added := w.added + 1, todo := w.todo + [head],
       gave := w.gave + [token], serial := w.serial[head := |w.gave|])
  }

  /** The device reads the next available entry. */
  function TakeStep(w: World): World
    requires |w.d.avail| > 0 && |w.todo| > 0
  {
    var h := w.d.avail[w.taken % |w.d.avail|];
    w.(taken := w.taken + 1, todo := w.todo[1..], held := w.held + {h})
  }

  /** The device reports a chain it holds as used. */
  function CompleteStep(w: World, h: nat): World
    requires |w.used| > 0
  {
    w.(used := w.used[w.completed % |w.used| := h], completed := w.completed + 1, usedIndex := (w.usedIndex + 1) % WORD,
       done := w.done + [h], held := w.held - {h})
  }

  /** virtqueue_used_pending_locked, without its PANIC. */
  function UsedPending(w: World): nat {
    (w.usedIndex + WORD - w.d.usedShadow) % WORD
  }

  /** The chain at `h` is released and its token handed back. */
  function Return(w: World, d: Driver, h: nat): World
    requires h in w.d.chains && h in w.serial
  {
    w.(d := d, returned := w.returned[w.serial[h] := w.d.chains[h].token])
  }

  /** virtqueue_get_used. */
  function ReapStep(w: World): Outcome
    requires |w.used| == w.d.size > 0
  {
    if UsedPending(w) > w.d.size then Panic
    else if UsedPending(w) == 0 then Ok(w)
    else
      var id := w.used[w.d.usedShadow % w.d.size];
      if id >= w.d.size || id !in w.d.chains || id !in w.serial || w.done == [] then Panic
      else Ok(Return(w, Reap(w.d, id), id).(reaped := w.reaped + 1, done := w.done[1..]))
  }

  /** The lowest descriptor that carries a token, from `x` on. */
  function FirstChain(d: Driver, x: nat): nat
    decreases d.size - x
  {
    if x >= d.size || x in d.chains then x else FirstChain(d, x + 1)
  }

  /** virtqueue_detach_unused. */
  function DetachStep(w: World): Outcome {
    var h := FirstChain(w.d, 0);
    if h >= w.d.size then Ok(w) else if h !in w.d.chains || h !in w.serial then Panic else Ok(Return(w, Release(w.d, h), h))
  }

  /** The device acts until it is reset; unused buffers are detached after that. */
  predicate Enabled(w: World, a: Action) {
    match a
    case DoAdd(count, token) => !w.reset && 0 < count <= |w.d.free| && token != 0
    case DoAddFails(count) => 0 < count <= |w.d.free|
    case DoTake => !w.reset && (w.d.availIndex + WORD - w.taken % WORD) % WORD != 0
    case DoComplete(h) => !w.reset && h in w.held
    case DoReap => !w.reset
    case DoReset => true
    case DoDetach => w.reset
  }

  predicate Sound(w: World) {
    |w.d.avail| == w.d.size == |w.used| > 0
  }

  function Step(w: World, a: Action): Outcome
    requires Sound(w) && Enabled(w, a)
  {
    match a
    case DoAdd(count, token) => Ok(AddStep(w, count, token))
    case DoAddFails(count) => Ok(w.(d := AddFails(w.d, count)))
    case DoTake => if w.todo == [] then Panic else Ok(TakeStep(w))
    case DoComplete(h) => Ok(CompleteStep(w, h))
    case DoReap => ReapStep(w)
    case DoReset => Ok(w.(reset := true))
    case DoDetach => DetachStep(w)
  }

  // ----- Counting -----

  /** A 16-bit index and the count behind it name the same slot of the ring. */
  lemma SameSlot(n: nat, size: nat)
    requires GoodSize(size)
    ensures n % WORD % size == n % size
  {
    assert WORD == WORD / size * size by { SizeDivides(size); }
    ModOfMultiple(n, WORD / size, size);
  }

  lemma SizeDivides(size: nat)
    requires GoodSize(size)
    ensures WORD / size * size == WORD
  {
    if size == 1 {} else if size == 2 {} else if size == 4 {} else if size == 8 {} else if size == 16 {}
    else if size == 32 {} else if size == 64 {} else if size == 128 {}
  }

  lemma ModOfMultiple(n: nat, m: nat, size: nat)
    requires size > 0 && m > 0 && m * size > 0
    ensures n % (m * size) % size == n % size
  {
    var w := m * size;
    var q, r := n / w, n % w;
    var a, b := r / size, r % size;
    assert n == q * w + r && r == a * size + b;
    assert q * w == q * m * size;
    assert (q * m + a) * size == q * m * size + a * size && (q * m + a + 1) * size == q * m * size + a * size + size;
    DivIs(n, size, q * m + a);
  }

  lemma {:induction false} Below(s: set<nat>, n: nat)
    requires forall x | x in s :: x < n
    ensures |s| <= n
    decreases n
  {
    if n > 0 {
      if n - 1 in s {
        Below(s - {n - 1}, n - 1);
      } else {
        Below(s, n - 1);
      }
    } else {
      assert s == {};
    }
  }

  lemma Disjoint3(t: set<nat>, h: set<nat>, d: set<nat>, f: set<nat>, n: nat)
    requires t !! h && t !! d && h !! d && f !! t && f !! h && f !! d
    requires (forall x | x in t :: x < n) && (forall x | x in h :: x < n) && (forall x | x in d :: x < n) && (forall x | x in f :: x < n)
    ensures |t| + |h| + |d| + |f| <= n
  {
    var k := t + h;
    var l := k + d;
    Below(l + f, n);
  }

  /** There are never more chains outstanding than descriptors in use. */
  lemma FewOutstanding(w: World)
    requires DriverOk(w.d) && Stages(w)
    ensures |w.todo| + |w.held| + |w.done| + |w.d.free| <= w.d.size
  {
    SizeOf(w.todo);
    SizeOf(w.done);
    SizeOf(w.d.free);
    forall h | h in w.d.chains ensures h !in w.d.free && h < w.d.size {
      assert w.d.chains[h].descriptors[0] == h;
    }
    Disjoint3(SetOf(w.todo), w.held, SetOf(w.done), SetOf(w.d.free), w.d.size);
  }

  /** Two positions less than one turn apart are different slots. */
  lemma SlotsDiffer(a: nat, b: nat, n: nat)
    requires a < b < a + n
    ensures a % n != b % n
  {
    var p, q := a / n, b / n;
    assert a == p * n + a % n && b == q * n + b % n;
    assert a % n == b % n ==> (q - p) * n == b - a;
    MulLe(1, q - p, n);
    MulLe(q - p, 0, n);
  }

  lemma ShowsPush(ring: seq<nat>, from: nat, q: seq<nat>, x: nat)
    requires Shows(ring, from, q) && |q| < |ring|
    ensures Shows(ring[(from + |q|) % |ring| := x], from, q + [x])
  {
    var n := |ring|;
    var r := ring[(from + |q|) % n := x];
    forall i | 0 <= i < |q + [x]| ensures (q + [x])[i] == r[(from + i) % n] {
      if i < |q| { SlotsDiffer(from + i, from + |q|, n); }
    }
  }

  lemma ShowsPop(ring: seq<nat>, from: nat, q: seq<nat>)
    requires Shows(ring, from, q) && q != []
    ensures Shows(ring, from + 1, q[1..]) && q[0] == ring[from % |ring|]
  {
    assert q[0] == ring[(from + 0) % |ring|];
    forall i | 0 <= i < |q[1..]| ensures q[1..][i] == ring[(from + 1 + i) % |ring|] {
      assert q[i + 1] == ring[(from + (i + 1)) % |ring|];
    }
  }

  /** A difference of 16-bit indices is the difference of the counts, while that is small. */
  lemma Distance(a: nat, b: nat)
    requires b <= a < b + WORD
    ensures (a % WORD + WORD - b % WORD) % WORD == a - b
  {}

  lemma NextIndex(n: nat)
    ensures (n % WORD + 1) % WORD == (n + 1) % WORD
  {}

  // ----- The steps keep the invariant -----

  lemma AddStepKeeps(w: World, count: nat, token: nat)
    requires Inv(w) && Enabled(w, DoAdd(count, token))
    ensures Inv(AddStep(w, count, token))
  {
    AddKeeps(w.d, count, token);
    AddRings(w, count, token);
    AddStages(w, count, token);
    AddTokens(w, count, token);
  }

  lemma AddRings(w: World, count: nat, token: nat)
    requires DriverOk(w.d) && RingsOk(w) && Stages(w) && 0 < count <= |w.d.free|
    ensures RingsOk(AddStep(w, count, token))
  {
    FewOutstanding(w);
    SameSlot(w.added, w.d.size);
    NextIndex(w.added);
    ShowsPush(w.d.avail, w.taken, w.todo, w.d.free[0]);
  }

  lemma AddStages(w: World, count: nat, token: nat)
    requires Stages(w) && 0 < count <= |w.d.free| && |w.d.avail| == w.d.size > 0 && w.d.free[0] !in w.d.chains
    ensures Stages(AddStep(w, count, token))
  {
    var w', head := AddStep(w, count, token), w.d.free[0];
    assert head !in w.todo && head !in w.held && head !in w.done;
    assert forall h :: h in w'.todo <==> h in w.todo || h == head;
  }

  lemma AddPending(w: World, w': World, head: nat, n: nat)
    requires Pending(w, n) && head !in w.d.chains && w'.serial == w.serial[head := |w.gave|] && w.d.chains.Keys <= w'.d.chains.Keys
    ensures Pending(w', n)
  {
    var h :| h in w.d.chains && h in w.serial && w.serial[h] == n;
    assert h in w.d.chains.Keys && h in w'.d.chains && w'.serial[h] == n;
  }

  lemma AddAllPending(w: World, count: nat, token: nat)
    requires TokensOk(w) && 0 < count <= |w.d.free| && |w.d.avail| == w.d.size > 0 && w.d.free[0] !in w.d.chains
    ensures var w' := AddStep(w, count, token); forall n: nat | n < |w'.gave| :: n in w'.returned || Pending(w', n)
  {
    var w', head := AddStep(w, count, token), w.d.free[0];
    forall n: nat | n < |w'.gave| ensures n in w'.returned || Pending(w', n) {
      if n == |w.gave| {
        assert head in w'.d.chains && w'.serial[head] == n;
      } else if n !in w.returned {
        AddPending(w, w', head, n);
      }
    }
  }

  lemma AddTokens(w: World, count: nat, token: nat)
    requires TokensOk(w) && 0 < count <= |w.d.free| && |w.d.avail| == w.d.size > 0 && w.d.free[0] !in w.d.chains
    ensures TokensOk(AddStep(w, count, token))
  {
    hide Pending, Numbered, SerialsDiffer;
    AddAllPending(w, count, token);
    AddNumbered(w, AddStep(w, count, token), w.d.free[0], Chain(w.d.free[..count], token));
  }

  lemma AddNumbered(w: World, w': World, head: nat, c: Chain)
    requires Numbered(w) && SerialsDiffer(w) && head !in w.d.chains && |w.gave| !in w.returned
    requires w'.gave == w.gave + [c.token] && w'.serial == w.serial[head := |w.gave|] && w'.returned == w.returned && w'.d.chains == w.d.chains[head := c]
    ensures Numbered(w') && SerialsDiffer(w')
  {}

  lemma TakeRings(w: World)
    requires DriverOk(w.d) && RingsOk(w) && Stages(w) && Enabled(w, DoTake)
    ensures w.todo != [] && w.todo[0] == w.d.avail[w.taken % |w.d.avail|] && w.todo[0] !in w.held && RingsOk(TakeStep(w))
  {
    hide Partition;
    FewOutstanding(w);
    Distance(w.added, w.taken);
    ShowsPop(w.d.avail, w.taken, w.todo);
    assert w.todo[0] in w.todo;
    hide Shows;
    hide NoDup;
  }

  lemma TakeStages(w: World)
    requires Stages(w) && w.todo != [] && |w.d.avail| > 0 && w.todo[0] == w.d.avail[w.taken % |w.d.avail|]
    ensures Stages(TakeStep(w))
  {
    var h := w.todo[0];
    assert h in w.todo && h !in w.todo[1..];
    assert forall g :: g in w.todo <==> g == h || g in w.todo[1..];
  }

  lemma TakeStepKeeps(w: World)
    requires Inv(w) && Enabled(w, DoTake)
    ensures w.todo != [] && Inv(TakeStep(w))
  {
    hide RingsOk;
    hide Stages;
    hide TokensOk;
    RingsLength(w);
    TakeRings(w);
    TakeStages(w);
    SameTokens(w, TakeStep(w));
  }

  lemma RingsLength(w: World)
    requires DriverOk(w.d) && RingsOk(w)
    ensures |w.d.avail| == |w.used| == w.d.size > 0
  {}

  lemma SameTokens(w: World, w': World)
    requires TokensOk(w) && w'.d.chains == w.d.chains && w'.gave == w.gave && w'.serial == w.serial && w'.returned == w.returned
    ensures TokensOk(w')
  {
    forall n: nat | n < |w'.gave| ensures n in w'.returned || Pending(w', n) {
      if n !in w.returned {
        var h :| h in w.d.chains && h in w.serial && w.serial[h] == n;
        assert h in w'.d.chains && w'.serial[h] == n;
      }
    }
  }

  lemma CompleteRings(w: World, h: nat)
    requires DriverOk(w.d) && RingsOk(w) && Stages(w) && h in w.held
    ensures RingsOk(CompleteStep(w, h))
  {
    hide Partition;
    FewOutstanding(w);
    NextIndex(w.completed);
    assert |w.held| > 0 && |w.held - {h}| == |w.held| - 1;
    ShowsPush(w.used, w.reaped, w.done, h);
    hide Shows;
    hide NoDup;
  }

  lemma CompleteStages(w: World, h: nat)
    requires Stages(w) && h in w.held && |w.used| > 0
    ensures Stages(CompleteStep(w, h))
  {
    var w' := CompleteStep(w, h);
    assert forall g :: g in w'.done <==> g == h || g in w.done;
  }

  lemma CompleteStepKeeps(w: World, h: nat)
    requires Inv(w) && Enabled(w, DoComplete(h))
    ensures Inv(CompleteStep(w, h))
  {
    hide RingsOk;
    hide Stages;
    hide TokensOk;
    RingsLength(w);
    CompleteRings(w, h);
    CompleteStages(w, h);
    SameTokens(w, CompleteStep(w, h));
  }

  /** What the driver reads from the used ring. */
  lemma ReapReads(w: World)
    requires DriverOk(w.d) && RingsOk(w) && Stages(w)
    ensures UsedPending(w) == |w.done| <= w.d.size
    ensures w.done != [] ==> w.done[0] == w.used[w.d.usedShadow % w.d.size] && w.done[0] in w.d.chains && w.done[0] < w.d.size
  {
    FewOutstanding(w);
    Distance(w.completed, w.reaped);
    if w.done != [] {
      ShowsPop(w.used, w.reaped, w.done);
      SameSlot(w.reaped, w.d.size);
      assert w.done[0] in w.done;
      HeadSmall(w.d, w.done[0]);
    }
  }

  lemma HeadSmall(d: Driver, h: nat)
    requires Partition(d) && h in d.chains
    ensures h < d.size
  {
    assert d.chains[h].descriptors[0] == h && h in d.chains[h].descriptors;
  }

  lemma ReapRings(w: World)
    requires DriverOk(w.d) && RingsOk(w) && w.done != [] && w.done[0] in w.d.chains && w.done[0] in w.serial
    ensures var h := w.done[0]; RingsOk(Return(w, Reap(w.d, h), h).(reaped := w.reaped + 1, done := w.done[1..]))
  {
    hide Partition;
    ShowsPop(w.used, w.reaped, w.done);
    NextIndex(w.reaped);
    hide Shows;
  }

  /** virtqueue_get_used sees exactly the completed chains, and never panics. */
  lemma ReapStepKeeps(w: World)
    requires Inv(w) && Enabled(w, DoReap)
    ensures |w.used| == w.d.size > 0 && ReapStep(w).Ok? && Inv(ReapStep(w).world)
    ensures UsedPending(w) == |w.done| <= w.d.size
    ensures w.done == [] ==> ReapStep(w).world == w
    ensures w.done != [] ==>
      var h, r := w.done[0], ReapStep(w).world;
      && h in w.serial && w.serial[h] !in w.returned && h in w.d.chains && r.done == w.done[1..]
      && r.returned == w.returned[w.serial[h] := w.d.chains[h].token] && r.d.chains == w.d.chains - {h}
  {
    hide RingsOk;
    hide Stages;
    hide TokensOk;
    hide Partition;
    hide UsedPending;
    RingsLength(w);
    ReapReads(w);
    if w.done != [] {
      var h := w.done[0];
      ReturnTokens(w, Reap(w.d, h), h);
      ReapKeeps(w.d, h);
      ReapRings(w);
      ReapStages(w);
      var w1 := Return(w, Reap(w.d, h), h);
      SameTokens(w1, w1.(reaped := w.reaped + 1, done := w.done[1..]));
    }
  }

  lemma ReapStages(w: World)
    requires Stages(w) && w.done != [] && w.done[0] in w.d.chains && w.done[0] in w.serial
    ensures var h := w.done[0]; Stages(Return(w, Reap(w.d, h), h).(reaped := w.reaped + 1, done := w.done[1..]))
  {
    var h := w.done[0];
    assert h in w.done && h !in w.done[1..];
    assert forall g :: g in w.done <==> g == h || g in w.done[1..];
  }

  lemma ReturnTokens(w: World, d: Driver, h: nat)
    requires TokensOk(w) && h in w.d.chains && d.chains == w.d.chains - {h}
    ensures h in w.serial && TokensOk(Return(w, d, h)) && w.serial[h] !in w.returned
  {
    hide SerialsDiffer, Numbered;
    NumberedAt(w, h);
    var w' := Return(w, d, h);
    ReturnNumbered(w, w', h);
    forall n: nat | n < |w'.gave| ensures n in w'.returned || Pending(w', n) {
      if n !in w'.returned { ReturnPending(w, w', h, n); }
    }
  }

  lemma NumberedAt(w: World, h: nat)
    requires Numbered(w) && h in w.d.chains
    ensures h in w.serial && w.serial[h] < |w.gave| && w.gave[w.serial[h]] == w.d.chains[h].token && w.serial[h] !in w.returned
  {}

  lemma ReturnNumbered(w: World, w': World, h: nat)
    requires Numbered(w) && SerialsDiffer(w) && h in w.d.chains && h in w.serial && w'.d.chains == w.d.chains - {h}
    requires w'.gave == w.gave && w'.serial == w.serial && w'.returned.Keys == w.returned.Keys + {w.serial[h]}
    ensures Numbered(w') && SerialsDiffer(w')
  {
    forall g | g in w'.d.chains ensures w.serial[g] !in w'.returned { assert w.serial[g] !in w'.returned.Keys; }
  }

  lemma ReturnPending(w: World, w': World, h: nat, n: nat)
    requires Pending(w, n) && h in w.serial && n != w.serial[h] && w'.d.chains == w.d.chains - {h} && w'.serial == w.serial
    ensures Pending(w', n)
  {
    var g :| g in w.d.chains && g in w.serial && w.serial[g] == n;
    assert g in w'.d.chains && w'.serial[g] == n;
  }

  lemma {:induction false} FirstChainIs(d: Driver, x: nat)
    requires DriverOk(d) && (forall y | y in d.chains :: x <= y)
    ensures FirstChain(d, x) < d.size ==> FirstChain(d, x) in d.chains && forall y | y in d.chains :: FirstChain(d, x) <= y
    ensures FirstChain(d, x) >= d.size ==> d.chains == map[]
    decreases d.size - x
  {
    forall y | y in d.chains ensures y < d.size {
      assert d.chains[y].descriptors[0] == y && y in d.chains[y].descriptors;
    }
    if x < d.size && x !in d.chains { FirstChainIs(d, x + 1); }
  }

  lemma DetachStepKeeps(w: World)
    requires Inv(w) && Enabled(w, DoDetach)
    ensures DetachStep(w).Ok? && Inv(DetachStep(w).world)
    ensures w.d.chains != map[] ==> exists h :: h in w.d.chains && w.serial[h] !in w.returned && DetachStep(w).world == Return(w, Release(w.d, h), h)
  {
    FirstChainIs(w.d, 0);
    var h := FirstChain(w.d, 0);
    if h < w.d.size {
      ReleaseKeeps(w.d, h);
      ReturnTokens(w, Release(w.d, h), h);
    }
  }

  lemma AddFailsStep(w: World, count: nat)
    requires Inv(w) && Sound(w) && count <= |w.d.free|
    ensures Inv(w.(d := AddFails(w.d, count))) && Sound(w.(d := AddFails(w.d, count)))
  {
    hide DriverOk, Reverse;
    AddFailsKeeps(w.d, count);
    SameTokens(w, w.(d := AddFails(w.d, count)));
  }

  lemma ResetKeeps(w: World)
    requires Inv(w)
    ensures Inv(w.(reset := true))
  {
    hide DriverOk;
    SameTokens(w, w.(reset := true));
  }

  /** No step changes the length of a ring. */
  lemma SoundStays(w: World, a: Action)
    requires Sound(w) && Enabled(w, a)
    ensures Step(w, a).Ok? ==> Sound(Step(w, a).world)
  {
    hide Reverse, FirstChain, UsedPending;
  }

  lemma StepKeeps(w: World, a: Action)
    requires Inv(w) && Sound(w) && Enabled(w, a)
    ensures Step(w, a).Ok? && Inv(Step(w, a).world) && Sound(Step(w, a).world)
  {
    hide Inv, AddStep, TakeStep, CompleteStep, ReapStep, DetachStep, AddFails;
    SoundStays(w, a);
    match a
    case DoAdd(count, token) => AddStepKeeps(w, count, token);
    case DoAddFails(count) => AddFailsStep(w, count);
    case DoTake => TakeStepKeeps(w);
    case DoComplete(h) => CompleteStepKeeps(w, h);
    case DoReap => ReapStepKeeps(w);
    case DoReset => ResetKeeps(w);
    case DoDetach => DetachStepKeeps(w);
  }

  /** A run: a first state and the actions taken since. */
  datatype Trace = Start(world: World) | Then(before: Trace, action: Action)

  datatype Reached = At(world: World) | Panicked | Impossible

  ghost function Reach(r: Trace): Reached {
    match r
    case Start(w) => if Initial(w) then At(w) else Impossible
    case Then(before, a) =>
      var b := Reach(before);
      if !b.At? then b
      else if !Sound(b.world) then Panicked
      else if !Enabled(b.world, a) then Impossible
      else
        var o := Step(b.world, a);
        if o.Panic? then Panicked else At(o.world)
  }

  /** No run of driver and device reaches a PANIC, whatever the device does and however often the indices wrap. */
  lemma {:induction false} Safe(r: Trace)
    ensures !Reach(r).Panicked? && (Reach(r).At? ==> Inv(Reach(r).world) && Sound(Reach(r).world))
    decreases r
  {
    match r
    case Start(w) => if Initial(w) { InitialInv(w); }
    case Then(before, a) =>
      Safe(before);
      if Reach(before).At? && Enabled(Reach(before).world, a) { StepKeeps(Reach(before).world, a); }
  }

  lemma InitialInv(w: World)
    requires Initial(w)
    ensures Inv(w) && Sound(w)
  {
    assert forall x: nat | x < w.d.size :: x in w.d.free by {
      forall x: nat | x < w.d.size ensures x in w.d.free { assert w.d.free[x] == x; }
    }
  }
}
