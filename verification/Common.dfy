/** Small notions that several parts of the model share. */
module Common {

  datatype Option<+T> = None | Some(value: T)

  function Least(a: nat, b: nat): nat { if a < b then a else b }

  function Greatest(a: nat, b: nat): nat { if a < b then b else a }

  predicate PowerOfTwo(n: nat) {
    n == 1 || (n > 0 && n % 2 == 0 && PowerOfTwo(n / 2))
  }

  // ----- sequences without repetition -----

  predicate NoDup(q: seq<nat>) {
    forall i, j | 0 <= i < j < |q| :: q[i] != q[j]
  }

  /** The first occurrence of `x` is taken out. */
  function Without(q: seq<nat>, x: nat): seq<nat> {
    if q == [] then [] else if q[0] == x then q[1..] else [q[0]] + Without(q[1..], x)
  }

  lemma {:induction false} WithoutIs(q: seq<nat>, x: nat)
    requires NoDup(q)
    ensures NoDup(Without(q, x)) && forall y :: y in Without(q, x) <==> y in q && y != x
    ensures |Without(q, x)| == |q| - (if x in q then 1 else 0) && (x !in q ==> Without(q, x) == q)
    decreases q
  {
    if q != [] {
      assert q == [q[0]] + q[1..] && q[0] !in q[1..];
      WithoutIs(q[1..], x);
    }
  }

  /** The order of what stays is not changed. */
  lemma {:induction false} WithoutOrder(q: seq<nat>, x: nat, i: nat)
    requires i < |q| && q[i] == x && forall j | 0 <= j < i :: q[j] != x
    ensures Without(q, x) == q[..i] + q[i + 1..]
    decreases q
  {
    if i > 0 {
      WithoutOrder(q[1..], x, i - 1);
      assert [q[0]] + (q[1..][..i - 1] + q[1..][i..]) == q[..i] + q[i + 1..];
    } else {
      assert q[..0] + q[1..] == q[1..];
    }
  }

  function SetOf(q: seq<nat>): set<nat> {
    set x | x in q
  }

  lemma {:induction false} SizeOf(q: seq<nat>)
    requires NoDup(q)
    ensures |SetOf(q)| == |q|
    decreases q
  {
    if q != [] {
      SizeOf(q[1..]);
      assert q[0] !in q[1..];
      assert SetOf(q) == SetOf(q[1..]) + {q[0]};
    }
  }

  lemma SubsetSize(a: set<nat>, b: set<nat>)
    requires a <= b
    ensures |a| <= |b|
  {
    assert b == a + (b - a);
  }
}
