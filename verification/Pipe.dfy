/** The pipe of fs/pipe.c: a byte queue between any number of readers and writers. */
module Pipe {
  import opened Common

  const CAPACITY: nat := 4096
  const PIPE_BUF: nat := 4096
  const PAGE: nat := 4096
  const COUNT_LIMIT: nat := 0x7fff_ffff

  type byte = x: int | 0 <= x < 256

  // ----- copying out to memory that may fault -----

  /** Where a read stores: kernel memory, or the pages of a process that can be written without a fault. */
  datatype Target = Kernel | User(process: bool, writable: set<nat>)

  predicate Takes(t: Target, a: nat) {
    t.Kernel? || (t.process && a / PAGE in t.writable)
  }

  /** How many of the `n` bytes from `a` on can be stored before the first fault. */
  function Reach(t: Target, a: nat, n: nat): nat
    decreases n
  {
    if n == 0 || !Takes(t, a) then 0 else 1 + Reach(t, a + 1, n - 1)
  }

  lemma {:induction false} ReachIs(t: Target, a: nat, n: nat)
    ensures var r := Reach(t, a, n); r <= n && (forall k | a <= k < a + r :: Takes(t, k)) && (r < n ==> !Takes(t, a + r))
    decreases n
  {
    if n > 0 && Takes(t, a) { ReachIs(t, a + 1, n - 1); }
  }

  /** A run that can be stored may be skipped. */
  lemma {:induction false} ReachSkip(t: Target, a: nat, n: nat, c: nat)
    requires c <= n && forall k | a <= k < a + c :: Takes(t, k)
    ensures Reach(t, a, n) == c + Reach(t, a + c, n - c)
    decreases c
  {
    if c > 0 {
      assert Takes(t, a);
      ReachSkip(t, a + 1, n - 1, c - 1);
    }
  }

  predicate Inside(a: nat, n: nat, x: nat) { a <= x < a + n }

  function Stored(m: map<nat, byte>, a: nat, b: seq<byte>): map<nat, byte> {
    m + map x: nat | x < a + |b| && Inside(a, |b|, x) :: b[x - a]
  }

  lemma StoredMore(m: map<nat, byte>, a: nat, b: seq<byte>, c: seq<byte>)
    ensures Stored(Stored(m, a, b), a + |b|, c) == Stored(m, a, b + c)
  {
  }

  datatype Iovec = Iovec(base: nat, length: nat)

  function Requested(v: seq<Iovec>): nat {
    if v == [] then 0 else v[0].length + Requested(v[1..])
  }

  datatype Out = Out(total: nat, fault: bool, memory: map<nat, byte>)

  /** Fills the vectors in turn, up to the first fault. */
  function Scatter(t: Target, v: seq<Iovec>, b: seq<byte>, m: map<nat, byte>): Out
    decreases |v|
  {
    if v == [] || b == [] then Out(0, false, m) else
      var length := Least(v[0].length, |b|);
      ReachIs(t, v[0].base, length);
      var n := Reach(t, v[0].base, length);
      var stored := Stored(m, v[0].base, b[..n]);
      if n < length then Out(n, true, stored) else
        var rest := Scatter(t, v[1..], b[length..], stored);
        Out(length + rest.total, rest.fault, rest.memory)
  }

  /** The address of the k-th byte. */
  function Address(v: seq<Iovec>, k: nat): nat
    requires k < Requested(v)
    decreases |v|
  {
    if k < v[0].length then v[0].base + k else Address(v[1..], k - v[0].length)
  }

  /** No address is named twice. */
  ghost predicate Apart(v: seq<Iovec>) {
    forall j, k | 0 <= j < k < Requested(v) :: Address(v, j) != Address(v, k)
  }

  /** Everything is stored unless the next address faults. */
  lemma {:induction false} ScatterExact(t: Target, v: seq<Iovec>, b: seq<byte>, m: map<nat, byte>)
    requires |b| <= Requested(v)
    ensures var o := Scatter(t, v, b, m);
      && o.total <= |b| && (forall k | 0 <= k < o.total :: Takes(t, Address(v, k)))
      && (o.fault <==> o.total < |b|) && (o.fault ==> !Takes(t, Address(v, o.total)))
    decreases |v|
  {
    if v != [] && b != [] {
      var length := Least(v[0].length, |b|);
      ReachIs(t, v[0].base, length);
      var n := Reach(t, v[0].base, length);
      if n == length {
        ScatterExact(t, v[1..], b[length..], Stored(m, v[0].base, b[..n]));
        var o := Scatter(t, v, b, m);
        forall k | 0 <= k < o.total ensures Takes(t, Address(v, k)) {
          if k >= v[0].length { assert Address(v, k) == Address(v[1..], k - v[0].length); }
        }
      }
    }
  }

  datatype Cell = Missing | Holds(value: byte)

  function Look(m: map<nat, byte>, x: nat): Cell { if x in m then Holds(m[x]) else Missing }

  lemma StoredLook(m: map<nat, byte>, a: nat, b: seq<byte>, x: nat)
    ensures Look(Stored(m, a, b), x) == if Inside(a, |b|, x) then Holds(b[x - a]) else Look(m, x)
  {
  }

  lemma ApartRest(v: seq<Iovec>)
    requires v != [] && Apart(v)
    ensures Apart(v[1..])
  {
    forall j, k | 0 <= j < k < Requested(v[1..]) ensures Address(v[1..], j) != Address(v[1..], k) {
      assert Address(v, j + v[0].length) != Address(v, k + v[0].length);
    }
  }

  lemma ApartFirst(v: seq<Iovec>, k: nat, j: nat)
    requires v != [] && Apart(v) && k < v[0].length && j < Requested(v[1..])
    ensures v[0].base + k != Address(v[1..], j)
  {
    assert Address(v, k) != Address(v, j + v[0].length);
  }

  /** An address that is not named up to the fault keeps its byte. */
  lemma {:induction false} ScatterElse(t: Target, v: seq<Iovec>, b: seq<byte>, m: map<nat, byte>, x: nat)
    requires |b| <= Requested(v) && Scatter(t, v, b, m).total <= |b|
    requires forall k | 0 <= k < Scatter(t, v, b, m).total :: Address(v, k) != x
    ensures Look(Scatter(t, v, b, m).memory, x) == Look(m, x)
    decreases |v|
  {
    if v != [] && b != [] {
      var length := Least(v[0].length, |b|);
      ReachIs(t, v[0].base, length);
      var n := Reach(t, v[0].base, length);
      var stored := Stored(m, v[0].base, b[..n]);
      StoredLook(m, v[0].base, b[..n], x);
      if Inside(v[0].base, n, x) { assert Address(v, x - v[0].base) == x; }
      if n == length {
        ScatterExact(t, v[1..], b[length..], stored);
        if length == v[0].length {
          var rest := Scatter(t, v[1..], b[length..], stored);
          forall k | 0 <= k < rest.total ensures Address(v[1..], k) != x { assert Address(v, k + length) == Address(v[1..], k); }
          ScatterElse(t, v[1..], b[length..], stored, x);
        }
      }
    }
  }

  /** The k-th byte is at the k-th address. */
  lemma {:induction false} ScatterAt(t: Target, v: seq<Iovec>, b: seq<byte>, m: map<nat, byte>, k: nat)
    requires |b| <= Requested(v) && Apart(v) && k < Scatter(t, v, b, m).total <= |b|
    ensures Look(Scatter(t, v, b, m).memory, Address(v, k)) == Holds(b[k])
    decreases |v|
  {
    hide Apart, Stored, Takes, Look;
    var length := Least(v[0].length, |b|);
    ReachIs(t, v[0].base, length);
    var n := Reach(t, v[0].base, length);
    var stored := Stored(m, v[0].base, b[..n]);
    var x := Address(v, k);
    StoredLook(m, v[0].base, b[..n], x);
    if n == length {
      ScatterExact(t, v[1..], b[length..], stored);
      ApartRest(v);
      if k < length {
        var rest := Scatter(t, v[1..], b[length..], stored);
        forall j | 0 <= j < rest.total ensures Address(v[1..], j) != x {
          ApartFirst(v, k, j);
        }
        ScatterElse(t, v[1..], b[length..], stored, x);
      } else {
        ScatterAt(t, v[1..], b[length..], stored, k - length);
      }
    }
  }
}
