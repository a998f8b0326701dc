/** Which waiters a wake reaches, said by their place in the queue: the oldest whose bit set meets the mask, as many as were
asked for, and nobody else. */
module WakeOrder {
  import opened Common
  import opened WaitQueues

  /** How many of the first `i` threads meet the mask. */
  function Rank(s: Waits, q: seq<Tid>, mask: set<nat>, i: nat): nat {
    if i == 0 then 0 else Rank(s, q, mask, i - 1) + if i <= |q| && Matches(s, q[i - 1], mask) then 1 else 0
  }

  /** The thread at place `i` meets the mask, and fewer than `count` before it do. */
  ghost predicate Chosen(s: Waits, q: seq<Tid>, count: nat, mask: set<nat>, i: nat) {
    i < |q| && q[i] in s.threads && s.threads[q[i]].bits * mask != {} && Rank(s, q, mask, i) < count
  }

  ghost predicate IsChosen(s: Waits, q: seq<Tid>, count: nat, mask: set<nat>, t: Tid) {
    exists i: nat :: Chosen(s, q, count, mask, i) && q[i] == t
  }

  /** The threads that are not in the set, in order. */
  function Kept(q: seq<Tid>, gone: set<Tid>): seq<Tid> {
    if q == [] then [] else (if q[0] in gone then [] else [q[0]]) + Kept(q[1..], gone)
  }

  lemma {:induction false} RankNext(s: Waits, q: seq<Tid>, mask: set<nat>, i: nat)
    requires q != []
    ensures i > 0 ==> Rank(s, q, mask, i) == Rank(s, q[1..], mask, i - 1) + if Matches(s, q[0], mask) then 1 else 0
  {
    if i > 1 { RankNext(s, q, mask, i - 1); }
  }

  lemma {:induction false} MatchingRank(s: Waits, q: seq<Tid>, count: nat, mask: set<nat>, i: nat)
    requires NoDup(q) && i < |q|
    ensures q[i] in Matching(s, q, count, mask) <==> Chosen(s, q, count, mask, i)
    decreases q
  {
    RankNext(s, q, mask, i);
    if count > 0 {
      var rest := if Matches(s, q[0], mask) then count - 1 else count;
      MatchingIs(s, q[1..], rest, mask);
      assert q == [q[0]] + q[1..] && q[0] !in q[1..];
      if i > 0 {
        MatchingRank(s, q[1..], rest, mask, i - 1);
        assert q[1..][i - 1] == q[i] && q[i] != q[0];
      }
    }
  }

  lemma MatchingChosen(s: Waits, q: seq<Tid>, count: nat, mask: set<nat>, t: Tid)
    requires NoDup(q)
    ensures t in Matching(s, q, count, mask) <==> IsChosen(s, q, count, mask, t)
  {
    MatchingIs(s, q, count, mask);
    if t in q {
      var i: nat :| i < |q| && q[i] == t;
      MatchingRank(s, q, count, mask, i);
    }
    if j: nat :| Chosen(s, q, count, mask, j) && q[j] == t { MatchingRank(s, q, count, mask, j); }
  }

  lemma {:induction false} KeptWithout(q: seq<Tid>, x: Tid, gone: set<Tid>)
    requires NoDup(q)
    ensures Kept(Without(q, x), gone) == Kept(q, gone + {x})
    decreases q
  {
    if q != [] {
      assert q == [q[0]] + q[1..] && q[0] !in q[1..];
      KeptWithout(q[1..], x, gone);
      WithoutIs(q[1..], x);
      assert q[0] != x ==> Without(q, x)[1..] == Without(q[1..], x);
    }
  }

  lemma {:induction false} MinusKept(q: seq<Tid>, ts: seq<Tid>)
    requires NoDup(q)
    ensures Minus(q, ts) == Kept(q, SetOf(ts))
    decreases ts
  {
    if ts == [] {
      KeptAll(q);
    } else {
      WithoutIs(q, ts[0]);
      MinusKept(Without(q, ts[0]), ts[1..]);
      KeptWithout(q, ts[0], SetOf(ts[1..]));
      assert SetOf(ts) == SetOf(ts[1..]) + {ts[0]};
    }
  }

  lemma {:induction false} KeptAll(q: seq<Tid>)
    ensures Kept(q, SetOf([])) == q
    decreases q
  {
    if q != [] { KeptAll(q[1..]); }
  }

  /** Exactly the threads of `woken` have been woken, with result 0; the others stay as they are, in their order. */
  ghost predicate Wakes(s: Waits, s': Waits, woken: set<Tid>) {
    && s'.threads.Keys == s.threads.Keys
    && (forall t | t in s.threads ::
          if t in woken then !s'.threads[t].sleeping && s'.threads[t].waitingOn == NO_QUEUE && s'.threads[t].result == 0
                             && s'.threads[t].holds == s.threads[t].holds
          else s'.threads[t] == s.threads[t])
    && forall p :: Q(s', p) == Kept(Q(s, p), woken)
  }

  ghost function ChosenSet(s: Waits, q: seq<Tid>, count: nat, mask: set<nat>): set<Tid> {
    set t | t in q && IsChosen(s, q, count, mask, t)
  }

  /** wait_queue_wake_mask reaches exactly the first `count` waiters of the queue that meet the mask. */
  lemma WakeMaskExact(s: Waits, q: QueueId, count: nat, mask: set<nat>)
    requires Inv(s) && q != NO_QUEUE
    ensures WakeMask(s, q, count, mask).Some? && Wakes(s, WakeMask(s, q, count, mask).value, ChosenSet(s, Q(s, q), count, mask))
    ensures |Matching(s, Q(s, q), count, mask)| == |ChosenSet(s, Q(s, q), count, mask)|
  {
    hide Inv, IsChosen, Matching, WakeMask;
    var m, woken := Matching(s, Q(s, q), count, mask), ChosenSet(s, Q(s, q), count, mask);
    WakeMaskKeeps(s, q, count, mask);
    QueueNoDup(s, q);
    MatchingIs(s, Q(s, q), count, mask);
    forall t ensures t in m <==> t in woken { MatchingChosen(s, Q(s, q), count, mask, t); }
    assert SetOf(m) == woken;
    SizeOf(m);
    forall p ensures Minus(Q(s, p), m) == Kept(Q(s, p), woken) {
      QueueNoDup(s, p);
      MinusKept(Q(s, p), m);
    }
  }
}
