/** The wait queues as wait.c changes them, with its loops over the lists. */
module WaitKernel {
  import opened Common
  import opened WaitQueues
  import opened WakeOrder

  class WaitTable {
    var queues: map<QueueId, seq<Tid>>
    var timeouts: seq<Tid>
    var threads: map<Tid, Waiter>

    ghost function Abs(): Waits
      reads this
    {
      Waits(queues, timeouts, threads)
    }

    function Queue(q: QueueId): seq<Tid>
      reads this
    {
      if q in queues then queues[q] else []
    }

    /** The search of timeout_insert_locked. */
    method TimeoutPlace(deadline: nat, ghost t: Tid) returns (k: nat)
      requires forall x | x in timeouts :: x in threads
      ensures k <= |timeouts| && timeouts[..k] + [t] + timeouts[k..] == InsertTimeout(threads, timeouts, t, deadline)
    {
      hide InsertTimeout;
      k := 0;
      PlaceStart(timeouts);
      while k < |timeouts|
        invariant k <= |timeouts|
        invariant timeouts[..k] + InsertTimeout(threads, timeouts[k..], t, deadline) == InsertTimeout(threads, timeouts, t, deadline)
      {
        PlaceStep(threads, timeouts, t, deadline, k);
        if deadline < threads[timeouts[k]].deadline {
          return;
        }
        k := k + 1;
      }
      PlaceEnd(threads, timeouts, t, deadline);
    }

    /** The section of wait_queue_sleep_deadline that puts the thread to sleep. */
    method SleepOn(t: Tid, q: QueueId, deadline: nat, mode: Mode) returns (panic: bool)
      requires Inv(Abs()) && q != NO_QUEUE && t in threads
      modifies this
      ensures panic <==> old(threads[t].sleeping || threads[t].waitingOn != NO_QUEUE || threads[t].onTimeout)
      ensures Sleep(old(Abs()), t, q, deadline, mode) == if panic then None else Some(Abs())
      ensures !panic ==> Inv(Abs()) && Slept(old(Abs()), Abs(), t, q, deadline, mode)
    {
      hide Inv, Slept, InsertTimeout, Without;
      if threads[t].sleeping || threads[t].waitingOn != NO_QUEUE || threads[t].onTimeout {
        return true;
      }
      SleepKeeps(Abs(), t, q, deadline, mode);
      TimeoutsKnown(Abs());
      queues := queues[q := Queue(q) + [t]];
      if deadline != 0 {
        var k := TimeoutPlace(deadline, t);
        timeouts := timeouts[..k] + [t] + timeouts[k..];
      }
      threads := threads[t := threads[t].(sleeping := true, waitingOn := q, onTimeout := deadline != 0, deadline := deadline,
                                          result := 0, mode := mode)];
      panic := false;
    }

    /** wait_queue_wake_locked. */
    method WakeThread(q: QueueId, t: Tid, result: int) returns (panic: bool)
      modifies this
      ensures WakeLocked(old(Abs()), q, t, result) == if panic then None else Some(Abs())
      ensures panic ==> Abs() == old(Abs())
    {
      if t !in threads || q == NO_QUEUE || threads[t].waitingOn != q || !threads[t].sleeping {
        return true;
      }
      queues := queues[q := Without(Queue(q), t)];
      timeouts := Without(timeouts, t);
      threads := threads[t := threads[t].(sleeping := false, waitingOn := NO_QUEUE, onTimeout := false, result := result, mode := Uninterruptible)];
      panic := false;
    }

    /** wait_queue_expire: the loop over the head of the timeout list. */
    method ExpireAll(now: nat) returns (panic: bool)
      requires Inv(Abs())
      modifies this
      ensures !panic && Inv(Abs()) && Expire(old(Abs()), now) == Some(Abs())
    {
      panic := false;
      while |timeouts| > 0
        invariant !panic && Inv(Abs()) && Expire(Abs(), now) == Expire(old(Abs()), now)
        decreases |timeouts|
      {
        var t := timeouts[0];
        ghost var s := Abs();
        HeadWaits(s);
        if threads[t].deadline > now {
          return;
        }
        ExpireStep(s, now);
        panic := WakeThread(threads[t].waitingOn, t, TIMED_OUT);
      }
    }

    /** wait_queue_wake_mask: the loop over the queue. */
    method WakeMatching(q: QueueId, count: nat, mask: set<nat>) returns (woken: nat, panic: bool)
      requires Inv(Abs()) && q != NO_QUEUE
      modifies this
      ensures !panic && Inv(Abs()) && WakeMask(old(Abs()), q, count, mask) == Some(Abs())
      ensures Wakes(old(Abs()), Abs(), ChosenSet(old(Abs()), Q(old(Abs()), q), count, mask))
      ensures woken == |ChosenSet(old(Abs()), Q(old(Abs()), q), count, mask)|
    {
      hide Inv, Matching, WakeList, WakeLocked, Wakes, ChosenSet;
      woken, panic := 0, false;
      var i := 0;
      assert Queue(q)[0..] == Queue(q);
      while i < |Queue(q)| && woken < count
        invariant !panic && Inv(Abs()) && i <= |Q(Abs(), q)| && woken <= count
        invariant WakeList(Abs(), Matching(Abs(), Q(Abs(), q)[i..], count - woken, mask), 0) == WakeMask(old(Abs()), q, count, mask)
        invariant woken + |Matching(Abs(), Q(Abs(), q)[i..], count - woken, mask)| == |Matching(old(Abs()), Q(old(Abs()), q), count, mask)|
        decreases |Q(Abs(), q)| - i
      {
        var t := Queue(q)[i];
        MaskSkip(Abs(), q, i, count - woken, mask);
        if threads[t].bits * mask == {} {
          i := i + 1;
          continue;
        }
        MaskWake(Abs(), q, i, count - woken, mask);
        panic := WakeThread(q, t, 0);
        woken := woken + 1;
      }
      MatchingEnd(Abs(), Queue(q)[i..], count - woken, mask);
      WakeMaskExact(old(Abs()), q, count, mask);
    }

    /** wait_queue_requeue: the loop over the head of the source queue. */
    method RequeueWaiters(from: QueueId, to: QueueId, count: nat, holds: nat) returns (moved: nat, panic: bool)
      requires Inv(Abs()) && from != NO_QUEUE && to != NO_QUEUE && from != to
      modifies this
      ensures !panic && Inv(Abs()) && Requeue(old(Abs()), from, to, count, holds) == Some(Abs())
      ensures moved == Front(Q(old(Abs()), from), count)
    {
      moved, panic := 0, false;
      while moved < count && |Queue(from)| > 0
        invariant Inv(Abs()) && moved <= count && !panic
        invariant Requeue(Abs(), from, to, count - moved, holds) == Requeue(old(Abs()), from, to, count, holds)
        invariant moved + Front(Q(Abs(), from), count - moved) == Front(Q(old(Abs()), from), count)
        decreases count - moved
      {
        var t := Queue(from)[0];
        ghost var s := Abs();
        MoveKeeps(s, from, to, holds);
        if !threads[t].sleeping || threads[t].waitingOn != from {
          return moved, true;
        }
        queues := queues[from := Without(Queue(from), t)];
        queues := queues[to := Queue(to) + [t]];
        threads := threads[t := threads[t].(waitingOn := to, holds := holds)];
        assert Move(s, t, from, to, holds) == Some(Abs());
        moved := moved + 1;
      }
    }
  }

  lemma HeadWaits(s: Waits)
    requires Inv(s) && s.timeouts != []
    ensures s.timeouts[0] in s.threads && s.threads[s.timeouts[0]].waitingOn != NO_QUEUE
    ensures forall now: nat | s.threads[s.timeouts[0]].deadline > now :: Expire(s, now) == Some(s)
  {
    assert s.timeouts[0] in s.timeouts;
  }

  lemma {:induction false} DueSame(s: Waits, s': Waits, q: seq<Tid>, now: nat)
    requires forall t | t in q && t in s.threads :: t in s'.threads && s'.threads[t].deadline == s.threads[t].deadline
    requires forall t | t in q :: t in s.threads
    ensures Due(s', q, now) == Due(s, q, now)
    decreases q
  {
    if q != [] {
      assert q[0] in q && forall t | t in q[1..] :: t in q;
      DueSame(s, s', q[1..], now);
    }
  }

  lemma ExpireStep(s: Waits, now: nat)
    requires Inv(s) && s.timeouts != [] && s.timeouts[0] in s.threads && s.threads[s.timeouts[0]].deadline <= now
    ensures var t := s.timeouts[0];
      && s.threads[t].waitingOn != NO_QUEUE && WakeLocked(s, s.threads[t].waitingOn, t, TIMED_OUT) == Some(Wake(s, t, TIMED_OUT))
      && Inv(Wake(s, t, TIMED_OUT)) && Expire(Wake(s, t, TIMED_OUT), now) == Expire(s, now)
      && |Wake(s, t, TIMED_OUT).timeouts| < |s.timeouts|
  {
    var t := s.timeouts[0];
    HeadWaits(s);
    WakeKeeps(s, t, TIMED_OUT);
    var s' := Wake(s, t, TIMED_OUT);
    assert s'.timeouts == s.timeouts[1..];
    forall x | x in s.timeouts[1..] ensures x in s.threads && x in s'.threads { assert x in s.timeouts; }
    DueSame(s, s', s.timeouts[1..], now);
  }

  lemma {:induction false} MatchingSame(s: Waits, s': Waits, q: seq<Tid>, count: nat, mask: set<nat>)
    requires forall t | t in q :: t in s.threads && t in s'.threads && s'.threads[t].bits == s.threads[t].bits
    ensures Matching(s', q, count, mask) == Matching(s, q, count, mask)
    decreases q
  {
    if q != [] && count > 0 {
      assert q[0] in q && forall t | t in q[1..] :: t in q;
      MatchingSame(s, s', q[1..], if Matches(s, q[0], mask) then count - 1 else count, mask);
    }
  }

  lemma MatchingEnd(s: Waits, q: seq<Tid>, count: nat, mask: set<nat>)
    requires q == [] || count == 0
    ensures Matching(s, q, count, mask) == [] && WakeList(s, [], 0) == Some(s)
  {}

  lemma MaskSkip(s: Waits, q: QueueId, i: nat, count: nat, mask: set<nat>)
    requires Inv(s) && q != NO_QUEUE && i < |Q(s, q)| && count > 0
    ensures var t := Q(s, q)[i]; t in s.threads && s.threads[t].waitingOn == q && s.threads[t].sleeping
    ensures var t, l := Q(s, q)[i], Q(s, q);
      !Matches(s, t, mask) ==> Matching(s, l[i + 1..], count, mask) == Matching(s, l[i..], count, mask)
  {
    var t, l := Q(s, q)[i], Q(s, q);
    assert t in l && WaitsOn(s, t, q);
    assert l[i..][0] == t && l[i..][1..] == l[i + 1..];
  }

  /** Waking the thread at `i` leaves the rest of the queue where it was. */
  lemma WakeAt(s: Waits, q: QueueId, i: nat)
    requires Inv(s) && q != NO_QUEUE && i < |Q(s, q)|
    ensures var t, l := Q(s, q)[i], Q(s, q);
      && t in s.threads && WakeLocked(s, q, t, 0) == Some(Wake(s, t, 0)) && Inv(Wake(s, t, 0))
      && Q(Wake(s, t, 0), q) == l[..i] + l[i + 1..] && Q(Wake(s, t, 0), q)[i..] == l[i + 1..]
      && (forall x | x in l[i + 1..] :: x in s.threads && x in Wake(s, t, 0).threads && Wake(s, t, 0).threads[x].bits == s.threads[x].bits)
  {
    var t, l := Q(s, q)[i], Q(s, q);
    assert t in l && WaitsOn(s, t, q) && NoDup(l);
    WakeKeeps(s, t, 0);
    WithoutOrder(l, t, i);
    forall x | x in l[i + 1..] ensures x in s.threads && x in Wake(s, t, 0).threads && Wake(s, t, 0).threads[x].bits == s.threads[x].bits {
      assert x in l && WaitsOn(s, x, q);
    }
  }

  lemma MaskWake(s: Waits, q: QueueId, i: nat, count: nat, mask: set<nat>)
    requires Inv(s) && q != NO_QUEUE && i < |Q(s, q)| && count > 0 && Matches(s, Q(s, q)[i], mask)
    ensures var t, l := Q(s, q)[i], Q(s, q); var s' := Wake(s, t, 0);
      && WakeLocked(s, q, t, 0) == Some(s') && Inv(s') && Q(s', q) == l[..i] + l[i + 1..]
      && Matching(s, l[i..], count, mask) == [t] + Matching(s', Q(s', q)[i..], count - 1, mask)
      && WakeList(s', Matching(s', Q(s', q)[i..], count - 1, mask), 0) == WakeList(s, Matching(s, l[i..], count, mask), 0)
  {
    hide Inv;
    var t, l := Q(s, q)[i], Q(s, q);
    var s' := Wake(s, t, 0);
    WakeAt(s, q, i);
    MatchingSame(s, s', l[i + 1..], count - 1, mask);
    var m := Matching(s', l[i + 1..], count - 1, mask);
    hide Wake;
    assert l[i..][0] == t && l[i..][1..] == l[i + 1..];
    assert Matching(s, l[i..], count, mask) == [t] + m;
    WakeListCons(s, q, t, m);
  }

  lemma WakeListCons(s: Waits, q: QueueId, t: Tid, m: seq<Tid>)
    requires t in s.threads && WakeLocked(s, q, t, 0).Some?
    ensures WakeList(s, [t] + m, 0) == WakeList(WakeLocked(s, q, t, 0).value, m, 0)
  {
    assert ([t] + m)[1..] == m;
  }

  lemma PlaceStart(l: seq<Tid>)
    ensures l[0..] == l && forall r: seq<Tid> :: l[..0] + r == r
  {}

  lemma PlaceStep(threads: map<Tid, Waiter>, l: seq<Tid>, t: Tid, deadline: nat, k: nat)
    requires k < |l| && forall x | x in l :: x in threads
    ensures l[k] in threads
    ensures deadline < threads[l[k]].deadline ==> l[..k] + InsertTimeout(threads, l[k..], t, deadline) == l[..k] + [t] + l[k..]
    ensures deadline >= threads[l[k]].deadline ==>
      l[..k + 1] + InsertTimeout(threads, l[k + 1..], t, deadline) == l[..k] + InsertTimeout(threads, l[k..], t, deadline)
  {
    var rest := l[k..];
    assert rest[0] == l[k] && rest[1..] == l[k + 1..] && l[k] in l;
    if deadline >= threads[l[k]].deadline {
      assert l[..k + 1] == l[..k] + [l[k]];
    }
  }

  lemma PlaceEnd(threads: map<Tid, Waiter>, l: seq<Tid>, t: Tid, deadline: nat)
    ensures l[..|l|] + InsertTimeout(threads, l[|l|..], t, deadline) == l[..|l|] + [t] + l[|l|..]
  {
    assert l[|l|..] == [];
  }

  lemma TimeoutsKnown(s: Waits)
    requires Inv(s)
    ensures forall x | x in s.timeouts :: x in s.threads
  {}
}
