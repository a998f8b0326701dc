/** Wait queues and timed waits of wait.c.

Every operation below is one section under the locks of the timeout list, the queue and the thread.
`None` results are the PANIC calls. */
module WaitQueues {
  import opened Common

  type Tid = nat
  type QueueId = nat
  const NO_QUEUE: QueueId := 0

  const TIMED_OUT: int := -1
  const INTERRUPTED: int := -2
  const TERMINATED: int := -3

  datatype Mode = Uninterruptible | Interruptible | Killable

  /** The wait fields of a thread; `holds` is its wait_private and `bits` its wait_bitset. */
  datatype Waiter = Waiter(sleeping: bool, waitingOn: QueueId, onTimeout: bool, deadline: nat, result: int, mode: Mode,
                           bits: set<nat>, holds: nat)

  datatype Waits = Waits(queues: map<QueueId, seq<Tid>>, timeouts: seq<Tid>, threads: map<Tid, Waiter>)

  function Q(s: Waits, q: QueueId): seq<Tid> {
    if q in s.queues then s.queues[q] else []
  }

  predicate WaitsOn(s: Waits, t: Tid, q: QueueId) {
    t in s.threads && q != NO_QUEUE && s.threads[t].waitingOn == q
  }

  /** A queue holds exactly the threads that wait on it, once each, and they sleep. */
  ghost predicate QueuesOk(s: Waits) {
    && (forall q :: NoDup(Q(s, q)))
    && (forall q, t :: t in Q(s, q) <==> WaitsOn(s, t, q))
    && (forall t | t in s.threads && s.threads[t].waitingOn != NO_QUEUE :: s.threads[t].sleeping)
  }

  predicate NotLater(threads: map<Tid, Waiter>, a: Tid, b: Tid) {
    a in threads && b in threads && threads[a].deadline <= threads[b].deadline
  }

  /** A list in order of deadline. */
  ghost predicate InOrder(threads: map<Tid, Waiter>, q: seq<Tid>) {
    forall i, j | 0 <= i < j < |q| :: NotLater(threads, q[i], q[j])
  }

  /** The timeout list is sorted and holds exactly the threads marked so, all of which are on a wait queue. */
  ghost predicate TimeoutsOk(s: Waits) {
    && NoDup(s.timeouts)
    && InOrder(s.threads, s.timeouts)
    && (forall t :: t in s.timeouts <==> t in s.threads && s.threads[t].onTimeout)
    && (forall t | t in s.threads && s.threads[t].onTimeout :: s.threads[t].waitingOn != NO_QUEUE)
  }

  ghost predicate Inv(s: Waits) {
    QueuesOk(s) && TimeoutsOk(s)
  }

  // ----- Waking -----

  /** The thread leaves its queue and the timeout list and becomes runnable. */
  function Wake(s: Waits, t: Tid, result: int): Waits
    requires t in s.threads
  {
    var q := s.threads[t].waitingOn;
    Waits(s.queues[q := Without(Q(s, q), t)],
          Without(s.timeouts, t),
          s.threads[t := s.threads[t].(sleeping := false, waitingOn := NO_QUEUE, onTimeout := false, result := result, mode := Uninterruptible)])
  }

  /** wait_queue_wake_locked. */
  function WakeLocked(s: Waits, q: QueueId, t: Tid, result: int): Option<Waits> {
    if !WaitsOn(s, t, q) || !s.threads[t].sleeping then None else Some(Wake(s, t, result))
  }

  function WakeList(s: Waits, ts: seq<Tid>, result: int): Option<Waits>
    decreases ts
  {
    if ts == [] then Some(s)
    else if ts[0] !in s.threads then None
    else
      var r := WakeLocked(s, s.threads[ts[0]].waitingOn, ts[0], result);
      if r.None? then None else WakeList(r.value, ts[1..], result)
  }

  lemma WakeQueues(s: Waits, t: Tid, result: int)
    requires Inv(s) && t in s.threads && s.threads[t].waitingOn != NO_QUEUE
    ensures QueuesOk(Wake(s, t, result))
    ensures forall q :: Q(Wake(s, t, result), q) == Without(Q(s, q), t)
  {
    var s', q := Wake(s, t, result), s.threads[t].waitingOn;
    forall p ensures Q(s', p) == Without(Q(s, p), t) && NoDup(Q(s', p)) {
      WithoutIs(Q(s, p), t);
      if p != q { assert t !in Q(s, p); }
    }
    forall p, x ensures x in Q(s', p) <==> WaitsOn(s', x, p) {
      WithoutIs(Q(s, p), t);
      assert x in Q(s, p) <==> WaitsOn(s, x, p);
    }
  }

  lemma WakeTimeouts(s: Waits, t: Tid, result: int)
    requires TimeoutsOk(s) && t in s.threads
    ensures TimeoutsOk(Wake(s, t, result))
  {
    var s' := Wake(s, t, result);
    WithoutIs(s.timeouts, t);
    WithoutInOrder(s.threads, s.timeouts, t);
    SameOrder(s.threads, s'.threads, s'.timeouts);
  }

  lemma {:induction false} WithoutInOrder(threads: map<Tid, Waiter>, q: seq<Tid>, t: Tid)
    requires InOrder(threads, q) && NoDup(q)
    ensures InOrder(threads, Without(q, t))
    decreases q
  {
    if q != [] && q[0] != t {
      WithoutInOrder(threads, q[1..], t);
      WithoutIs(q[1..], t);
      var r := Without(q[1..], t);
      forall x | x in r ensures x in threads && q[0] in threads && threads[q[0]].deadline <= threads[x].deadline {
        var i :| 0 <= i < |q[1..]| && q[1..][i] == x;
        assert q[i + 1] == x;
      }
      ConsInOrder(threads, q[0], r);
    }
  }

  lemma ConsInOrder(threads: map<Tid, Waiter>, h: Tid, r: seq<Tid>)
    requires InOrder(threads, r) && forall x | x in r :: x in threads && h in threads && threads[h].deadline <= threads[x].deadline
    ensures InOrder(threads, [h] + r)
  {
    var q := [h] + r;
    forall i, j | 0 <= i < j < |q| ensures NotLater(threads, q[i], q[j]) {
      assert q[j] == r[j - 1] && r[j - 1] in r;
      if i > 0 { assert q[i] == r[i - 1]; }
    }
  }

  lemma SameOrder(m: map<Tid, Waiter>, k: map<Tid, Waiter>, q: seq<Tid>)
    requires InOrder(m, q) && forall x | x in q && x in m :: x in k && k[x].deadline == m[x].deadline
    ensures InOrder(k, q)
  {
    forall i, j | 0 <= i < j < |q| ensures NotLater(k, q[i], q[j]) {
      assert NotLater(m, q[i], q[j]) && q[i] in q && q[j] in q;
    }
  }

  /** A waiting thread can be woken, and nobody else is affected. */
  lemma WakeKeeps(s: Waits, t: Tid, result: int)
    requires Inv(s) && t in s.threads && s.threads[t].waitingOn != NO_QUEUE
    ensures WakeLocked(s, s.threads[t].waitingOn, t, result) == Some(Wake(s, t, result)) && Inv(Wake(s, t, result))
    ensures forall x | x in s.threads && x != t :: Wake(s, t, result).threads[x] == s.threads[x]
    ensures var w := Wake(s, t, result).threads[t]; !w.sleeping && !w.onTimeout && w.result == result
    ensures forall q :: Q(Wake(s, t, result), q) == Without(Q(s, q), t)
  {
    WakeQueues(s, t, result);
    WakeTimeouts(s, t, result);
  }

  function Minus(q: seq<Tid>, ts: seq<Tid>): seq<Tid>
    decreases ts
  {
    if ts == [] then q else Minus(Without(q, ts[0]), ts[1..])
  }

  /** What waking several threads leaves. */
  ghost predicate Woken(s: Waits, s': Waits, ts: seq<Tid>, result: int) {
    && s'.threads.Keys == s.threads.Keys
    && (forall t | t in ts && t in s.threads ::
          s'.threads[t] == s.threads[t].(sleeping := false, waitingOn := NO_QUEUE, onTimeout := false, result := result, mode := Uninterruptible))
    && (forall t | t in s.threads && t !in ts :: s'.threads[t] == s.threads[t])
    && (forall q :: Q(s', q) == Minus(Q(s, q), ts))
  }

  lemma {:induction false} WakeListKeeps(s: Waits, ts: seq<Tid>, result: int)
    requires Inv(s) && NoDup(ts) && forall t | t in ts :: t in s.threads && s.threads[t].waitingOn != NO_QUEUE
    ensures WakeList(s, ts, result).Some? && Inv(WakeList(s, ts, result).value) && Woken(s, WakeList(s, ts, result).value, ts, result)
    decreases ts
  {
    hide Inv, Woken, Q;
    if ts == [] {
      WokenNone(s, result);
    } else {
      var t := ts[0];
      assert t in ts && t !in ts[1..] && forall x | x in ts[1..] :: x in ts;
      WakeKeeps(s, t, result);
      var s1 := Wake(s, t, result);
      WakeListKeeps(s1, ts[1..], result);
      WokenMore(s, s1, WakeList(s1, ts[1..], result).value, ts, result);
    }
  }

  lemma WokenNone(s: Waits, result: int)
    ensures Woken(s, s, [], result)
  {}

  lemma WokenMore(s: Waits, s1: Waits, s': Waits, ts: seq<Tid>, result: int)
    requires ts != [] && ts[0] in s.threads && ts[0] !in ts[1..] && s1 == Wake(s, ts[0], result)
    requires (forall q :: Q(s1, q) == Without(Q(s, q), ts[0])) && Woken(s1, s', ts[1..], result)
    ensures Woken(s, s', ts, result)
  {
    assert s1.threads.Keys == s.threads.Keys;
    assert ts == [ts[0]] + ts[1..];
  }

  // ----- Going to sleep -----

  /** timeout_insert_locked: behind every thread with the same or an earlier deadline. */
  function InsertTimeout(threads: map<Tid, Waiter>, q: seq<Tid>, t: Tid, deadline: nat): seq<Tid> {
    if q == [] || (q[0] in threads && deadline < threads[q[0]].deadline) then [t] + q
    else [q[0]] + InsertTimeout(threads, q[1..], t, deadline)
  }

  /** wait_queue_sleep_deadline, once nothing keeps the thread from sleeping; a zero deadline means none. */
  function Sleep(s: Waits, t: Tid, q: QueueId, deadline: nat, mode: Mode): Option<Waits> {
    if t !in s.threads || s.threads[t].sleeping || s.threads[t].waitingOn != NO_QUEUE || s.threads[t].onTimeout then None
    else Some(Waits(s.queues[q := Q(s, q) + [t]],
                    if deadline != 0 then InsertTimeout(s.threads, s.timeouts, t, deadline) else s.timeouts,
                    s.threads[t := s.threads[t].(sleeping := true, waitingOn := q, onTimeout := deadline != 0, deadline := deadline,
                                                 result := 0, mode := mode)]))
  }

  lemma {:induction false} InsertInOrder(threads: map<Tid, Waiter>, q: seq<Tid>, t: Tid, w: Waiter)
    requires InOrder(threads, q) && NoDup(q) && t !in q && forall x | x in q :: x in threads
    ensures var r := InsertTimeout(threads, q, t, w.deadline);
      InOrder(threads[t := w], r) && NoDup(r) && forall x :: x in r <==> x in q || x == t
    decreases q
  {
    var m := threads[t := w];
    if q == [] {
    } else if w.deadline < threads[q[0]].deadline {
      forall x | x in q ensures x in threads && w.deadline <= threads[x].deadline {
        var i :| 0 <= i < |q| && q[i] == x;
        assert q[0] in q;
      }
      SameOrder(threads, m, q);
      ConsInOrder(m, t, q);
    } else {
      assert q == [q[0]] + q[1..] && q[0] in q && q[0] !in q[1..];
      InsertInOrder(threads, q[1..], t, w);
      var r := InsertTimeout(threads, q[1..], t, w.deadline);
      forall x | x in r ensures m[q[0]].deadline <= m[x].deadline {
        if x != t { var i :| 0 <= i < |q[1..]| && q[1..][i] == x; assert q[i + 1] == x; }
      }
      ConsInOrder(m, q[0], r);
    }
  }

  /** Taking the thread off the timeout list again gives the list as it was. */
  lemma {:induction false} InsertWithout(threads: map<Tid, Waiter>, q: seq<Tid>, t: Tid, deadline: nat)
    requires t !in q
    ensures Without(InsertTimeout(threads, q, t, deadline), t) == q && Without(q, t) == q && t in InsertTimeout(threads, q, t, deadline)
    decreases q
  {
    if q != [] {
      InsertWithout(threads, q[1..], t, deadline);
      assert q == [q[0]] + q[1..] && q[0] in q;
      assert ([t] + q)[1..] == q;
      var r := InsertTimeout(threads, q[1..], t, deadline);
      assert ([q[0]] + r)[1..] == r;
    }
  }

  lemma SleepTimeouts(s: Waits, t: Tid, q: QueueId, deadline: nat, mode: Mode)
    requires TimeoutsOk(s) && q != NO_QUEUE && Sleep(s, t, q, deadline, mode).Some?
    ensures TimeoutsOk(Sleep(s, t, q, deadline, mode).value)
  {
    var s' := Sleep(s, t, q, deadline, mode).value;
    assert t !in s.timeouts;
    if deadline != 0 {
      InsertInOrder(s.threads, s.timeouts, t, s'.threads[t]);
    } else {
      SameOrder(s.threads, s'.threads, s.timeouts);
    }
  }

  /** The thread is last on its queue, on the timeout list exactly with a deadline, and nobody else is affected. */
  ghost predicate Slept(s: Waits, s': Waits, t: Tid, q: QueueId, deadline: nat, mode: Mode)
    requires t in s.threads
  {
    && (forall p :: Q(s', p) == if p == q then Q(s, q) + [t] else Q(s, p))
    && (t in s'.timeouts <==> deadline != 0) && Without(s'.timeouts, t) == s.timeouts
    && s'.threads.Keys == s.threads.Keys && t in s'.threads && (forall x | x in s.threads && x != t :: s'.threads[x] == s.threads[x])
    && s'.threads[t].sleeping && s'.threads[t].waitingOn == q && (s'.threads[t].onTimeout <==> deadline != 0)
    && s'.threads[t].deadline == deadline && s'.threads[t].mode == mode && s'.threads[t].result == 0
    && s'.threads[t].bits == s.threads[t].bits && s'.threads[t].holds == s.threads[t].holds
  }

  lemma SleptIs(s: Waits, t: Tid, q: QueueId, deadline: nat, mode: Mode)
    requires Sleep(s, t, q, deadline, mode).Some? && t !in s.timeouts
    ensures t in s.threads && Slept(s, Sleep(s, t, q, deadline, mode).value, t, q, deadline, mode)
  {
    InsertWithout(s.threads, s.timeouts, t, deadline);
    hide InsertTimeout, Without;
  }

  lemma SleepKeeps(s: Waits, t: Tid, q: QueueId, deadline: nat, mode: Mode)
    requires Inv(s) && q != NO_QUEUE && Sleep(s, t, q, deadline, mode).Some?
    ensures Inv(Sleep(s, t, q, deadline, mode).value)
    ensures t in s.threads && Slept(s, Sleep(s, t, q, deadline, mode).value, t, q, deadline, mode)
  {
    assert t !in s.timeouts;
    SleptIs(s, t, q, deadline, mode);
    hide Slept, InsertTimeout, InOrder;
    SleepTimeouts(s, t, q, deadline, mode);
    var s' := Sleep(s, t, q, deadline, mode).value;
    assert t !in Q(s, q);
    forall p, x ensures x in Q(s', p) <==> WaitsOn(s', x, p) {
      assert x in Q(s, p) <==> WaitsOn(s, x, p);
    }
    forall p ensures NoDup(Q(s', p)) {
      assert NoDup(Q(s, p));
      if p == q { forall i, j | 0 <= i < j < |Q(s', p)| ensures Q(s', p)[i] != Q(s', p)[j] { assert Q(s, p)[i] in Q(s, p); } }
    }
  }

  /** A thread that is awake and on no queue can always go to sleep. */
  lemma SleepPossible(s: Waits, t: Tid, q: QueueId, deadline: nat, mode: Mode)
    requires Inv(s) && t in s.threads && !s.threads[t].sleeping
    ensures Sleep(s, t, q, deadline, mode).Some?
  {}

  // ----- Timed waits -----

  /** The threads at the head of the timeout list whose deadline has come. */
  function Due(s: Waits, q: seq<Tid>, now: nat): seq<Tid> {
    if q == [] || q[0] !in s.threads || s.threads[q[0]].deadline > now then [] else [q[0]] + Due(s, q[1..], now)
  }

  /** wait_queue_expire. */
  function Expire(s: Waits, now: nat): Option<Waits> {
    WakeList(s, Due(s, s.timeouts, now), TIMED_OUT)
  }

  lemma {:induction false} DuePrefix(s: Waits, q: seq<Tid>, now: nat)
    ensures var d := Due(s, q, now);
      && |d| <= |q| && d == q[..|d|] && (forall i | 0 <= i < |d| :: d[i] in s.threads && s.threads[d[i]].deadline <= now)
      && (|d| < |q| ==> q[|d|] !in s.threads || s.threads[q[|d|]].deadline > now)
    decreases q
  {
    if q != [] && q[0] in s.threads && s.threads[q[0]].deadline <= now { DuePrefix(s, q[1..], now); }
  }

  /** Due are exactly the threads on the list whose deadline is at or before `now`. */
  lemma DueExact(s: Waits, now: nat, t: Tid)
    requires Inv(s)
    ensures NoDup(Due(s, s.timeouts, now))
    ensures t in Due(s, s.timeouts, now) <==> t in s.threads && s.threads[t].onTimeout && s.threads[t].deadline <= now
  {
    var d := Due(s, s.timeouts, now);
    DuePrefix(s, s.timeouts, now);
    if t in d { var i :| 0 <= i < |d| && d[i] == t; assert s.timeouts[i] in s.timeouts; }
    if t in s.threads && s.threads[t].onTimeout && s.threads[t].deadline <= now {
      assert t in s.timeouts;
      var i :| 0 <= i < |s.timeouts| && s.timeouts[i] == t;
      assert i < |d|;
      assert d[i] == t;
    }
  }

  /** Each expiry pass wakes exactly the sleepers whose deadline has come, and reports the timeout to them. */
  lemma ExpireExact(s: Waits, now: nat)
    requires Inv(s)
    ensures Expire(s, now).Some? && Inv(Expire(s, now).value)
    ensures var s' := Expire(s, now).value; s'.threads.Keys == s.threads.Keys && forall t | t in s.threads ::
      if s.threads[t].onTimeout && s.threads[t].deadline <= now
      then !s'.threads[t].sleeping && s'.threads[t].result == TIMED_OUT
      else s'.threads[t] == s.threads[t]
  {
    var d := Due(s, s.timeouts, now);
    forall t ensures NoDup(d) && (t in d <==> t in s.threads && s.threads[t].onTimeout && s.threads[t].deadline <= now) { DueExact(s, now, t); }
    assert NoDup(d) by { DueExact(s, now, 0); }
    WakeListKeeps(s, d, TIMED_OUT);
  }

  // ----- Waking by number and mask -----

  predicate Matches(s: Waits, t: Tid, mask: set<nat>) {
    t in s.threads && s.threads[t].bits * mask != {}
  }

  /** The first `count` threads of the list whose bit set meets the mask. */
  function Matching(s: Waits, q: seq<Tid>, count: nat, mask: set<nat>): seq<Tid> {
    if q == [] || count == 0 then []
    else if Matches(s, q[0], mask) then [q[0]] + Matching(s, q[1..], count - 1, mask)
    else Matching(s, q[1..], count, mask)
  }

  /** wait_queue_wake_mask; wait_queue_wake_one and wait_queue_wake_all take the front or all of the queue. */
  function WakeMask(s: Waits, q: QueueId, count: nat, mask: set<nat>): Option<Waits> {
    WakeList(s, Matching(s, Q(s, q), count, mask), 0)
  }

  lemma {:induction false} MatchingIs(s: Waits, q: seq<Tid>, count: nat, mask: set<nat>)
    requires NoDup(q)
    ensures var m := Matching(s, q, count, mask);
      && NoDup(m) && |m| <= count && (forall t | t in m :: t in q && Matches(s, t, mask))
      && (|m| < count ==> forall t | t in q && Matches(s, t, mask) :: t in m)
    decreases q
  {
    if q != [] && count > 0 {
      assert q == [q[0]] + q[1..] && q[0] !in q[1..];
      MatchingIs(s, q[1..], if Matches(s, q[0], mask) then count - 1 else count, mask);
    }
  }

  /** When every thread matches, these are the oldest. */
  lemma {:induction false} MatchingAll(s: Waits, q: seq<Tid>, count: nat, mask: set<nat>)
    requires forall t | t in q :: Matches(s, t, mask)
    ensures Matching(s, q, count, mask) == if count <= |q| then q[..count] else q
    decreases q
  {
    if q != [] && count > 0 {
      assert q[0] in q && forall t | t in q[1..] :: t in q;
      MatchingAll(s, q[1..], count - 1, mask);
    }
  }

  lemma WakeMaskKeeps(s: Waits, q: QueueId, count: nat, mask: set<nat>)
    requires Inv(s) && q != NO_QUEUE
    ensures WakeMask(s, q, count, mask).Some? && Inv(WakeMask(s, q, count, mask).value)
    ensures Woken(s, WakeMask(s, q, count, mask).value, Matching(s, Q(s, q), count, mask), 0)
  {
    var m := Matching(s, Q(s, q), count, mask);
    MatchingIs(s, Q(s, q), count, mask);
    forall t | t in m ensures t in s.threads && s.threads[t].waitingOn != NO_QUEUE { assert t in Q(s, q) && WaitsOn(s, t, q); }
    WakeListKeeps(s, m, 0);
  }

  // ----- Requeueing -----

  function Move(s: Waits, t: Tid, from: QueueId, to: QueueId, holds: nat): Option<Waits> {
    if !WaitsOn(s, t, from) || !s.threads[t].sleeping then None
    else
      var queues := s.queues[from := Without(Q(s, from), t)];
      Some(s.(queues := queues[to := (if to in queues then queues[to] else []) + [t]],
              threads := s.threads[t := s.threads[t].(waitingOn := to, holds := holds)]))
  }

  /** wait_queue_requeue: the oldest `count` waiters move, in order, to the end of the other queue. */
  function Requeue(s: Waits, from: QueueId, to: QueueId, count: nat, holds: nat): Option<Waits>
    decreases count
  {
    if from == to || count == 0 || Q(s, from) == [] then Some(s)
    else
      var r := Move(s, Q(s, from)[0], from, to, holds);
      if r.None? then None else Requeue(r.value, from, to, count - 1, holds)
  }

  lemma MoveKeeps(s: Waits, from: QueueId, to: QueueId, holds: nat)
    requires Inv(s) && from != NO_QUEUE && to != NO_QUEUE && from != to && Q(s, from) != []
    ensures var t := Q(s, from)[0]; t in s.threads && Move(s, t, from, to, holds).Some?
    ensures var t, s' := Q(s, from)[0], Move(s, Q(s, from)[0], from, to, holds).value;
      && Inv(s') && Q(s', from) == Q(s, from)[1..] && Q(s', to) == Q(s, to) + [t] && (forall q | q != from && q != to :: Q(s', q) == Q(s, q))
      && s'.threads == s.threads[t := s.threads[t].(waitingOn := to, holds := holds)]
  {
    var t := Q(s, from)[0];
    assert t in Q(s, from) && WaitsOn(s, t, from);
    var s' := Move(s, t, from, to, holds).value;
    assert t !in Q(s, to);
    WithoutIs(Q(s, from), t);
    forall q, x ensures x in Q(s', q) <==> WaitsOn(s', x, q) { assert x in Q(s, q) <==> WaitsOn(s, x, q); }
    forall q ensures NoDup(Q(s', q)) {
      assert NoDup(Q(s, q));
      if q == to { forall i, j | 0 <= i < j < |Q(s', q)| ensures Q(s', q)[i] != Q(s', q)[j] { assert Q(s, q)[i] in Q(s, q); } }
    }
    SameOrder(s.threads, s'.threads, s'.timeouts);
  }

  ghost predicate MovedTo(s: Waits, s': Waits, ts: seq<Tid>, to: QueueId, holds: nat) {
    && s'.threads.Keys == s.threads.Keys
    && (forall t | t in s.threads && t !in ts :: s'.threads[t] == s.threads[t])
    && (forall t | t in s.threads && t in ts :: s'.threads[t] == s.threads[t].(waitingOn := to, holds := holds))
  }

  lemma MovedMore(s: Waits, s1: Waits, s': Waits, t: Tid, ts: seq<Tid>, to: QueueId, holds: nat)
    requires t in s.threads && s1.threads == s.threads[t := s.threads[t].(waitingOn := to, holds := holds)]
    requires MovedTo(s1, s', ts, to, holds) && t !in ts
    ensures MovedTo(s, s', [t] + ts, to, holds)
  {
    assert s1.threads.Keys == s.threads.Keys;
  }

  function Front(q: seq<Tid>, count: nat): nat {
    if count <= |q| then count else |q|
  }

  lemma FrontStep(l: seq<Tid>, count: nat)
    requires l != [] && count > 0 && NoDup(l)
    ensures var n := Front(l, count);
      && l[..n] == [l[0]] + l[1..][..Front(l[1..], count - 1)] && l[n..] == l[1..][Front(l[1..], count - 1)..]
      && l[0] !in l[1..][..Front(l[1..], count - 1)]
  {}

  lemma QueueNoDup(s: Waits, q: QueueId)
    requires Inv(s)
    ensures NoDup(Q(s, q))
  {
  }

  /** Nobody is lost or duplicated, and the order is kept. */
  lemma {:induction false} RequeueKeeps(s: Waits, from: QueueId, to: QueueId, count: nat, holds: nat)
    requires Inv(s) && from != NO_QUEUE && to != NO_QUEUE && from != to
    ensures Requeue(s, from, to, count, holds).Some?
    ensures var s', n := Requeue(s, from, to, count, holds).value, Front(Q(s, from), count);
      && Inv(s') && Q(s', from) == Q(s, from)[n..] && Q(s', to) == Q(s, to) + Q(s, from)[..n]
      && (forall q | q != from && q != to :: Q(s', q) == Q(s, q))
      && MovedTo(s, s', Q(s, from)[..n], to, holds)
    decreases count
  {
    hide Inv, Requeue, Move, MovedTo, Front;
    RequeueUnfold(s, from, to, count, holds);
    if count > 0 && Q(s, from) != [] {
      MoveKeeps(s, from, to, holds);
      var s1 := Move(s, Q(s, from)[0], from, to, holds).value;
      RequeueKeeps(s1, from, to, count - 1, holds);
      RequeueJoins(s, s1, Requeue(s1, from, to, count - 1, holds).value, from, to, count, holds);
    } else {
      FrontNone(s, from, to, count, holds);
    }
  }

  lemma RequeueUnfold(s: Waits, from: QueueId, to: QueueId, count: nat, holds: nat)
    ensures from == to || count == 0 || Q(s, from) == [] ==> Requeue(s, from, to, count, holds) == Some(s)
    ensures from != to && count > 0 && Q(s, from) != [] ==>
      var r := Move(s, Q(s, from)[0], from, to, holds);
      Requeue(s, from, to, count, holds) == if r.None? then None else Requeue(r.value, from, to, count - 1, holds)
  {
    hide Move, Q;
  }

  lemma FrontNone(s: Waits, from: QueueId, to: QueueId, count: nat, holds: nat)
    requires count == 0 || Q(s, from) == []
    ensures var n := Front(Q(s, from), count);
      Q(s, from) == Q(s, from)[n..] && Q(s, to) == Q(s, to) + Q(s, from)[..n] && MovedTo(s, s, Q(s, from)[..n], to, holds)
  {
    hide Q;
  }

  lemma RequeueJoins(s: Waits, s1: Waits, s': Waits, from: QueueId, to: QueueId, count: nat, holds: nat)
    requires Inv(s) && Q(s, from) != [] && count > 0 && from != to
    requires var t := Q(s, from)[0];
      && t in s.threads && Q(s1, from) == Q(s, from)[1..] && Q(s1, to) == Q(s, to) + [t]
      && s1.threads == s.threads[t := s.threads[t].(waitingOn := to, holds := holds)]
    requires var n := Front(Q(s1, from), count - 1);
      && Q(s', from) == Q(s1, from)[n..] && Q(s', to) == Q(s1, to) + Q(s1, from)[..n] && MovedTo(s1, s', Q(s1, from)[..n], to, holds)
    ensures var n := Front(Q(s, from), count);
      && Q(s', from) == Q(s, from)[n..] && Q(s', to) == Q(s, to) + Q(s, from)[..n] && MovedTo(s, s', Q(s, from)[..n], to, holds)
  {
    hide Inv, Q, MovedTo, NoDup;
    QueueNoDup(s, from);
    var t, l := Q(s, from)[0], Q(s, from);
    FrontStep(l, count);
    MovedMore(s, s1, s', t, l[1..][..Front(l[1..], count - 1)], to, holds);
    assert Q(s, to) + [t] + l[1..][..Front(l[1..], count - 1)] == Q(s, to) + ([t] + l[1..][..Front(l[1..], count - 1)]);
  }

  // ----- Waking one thread -----

  /** wait_queue_signal_thread. */
  function SignalThread(s: Waits, t: Tid, fatal: bool): Waits {
    if t !in s.threads || s.threads[t].waitingOn == NO_QUEUE || s.threads[t].mode == Uninterruptible
       || (s.threads[t].mode == Killable && !fatal) || !s.threads[t].sleeping then s
    else Wake(s, t, INTERRUPTED)
  }

  /** wait_queue_terminate_thread. */
  function TerminateThread(s: Waits, t: Tid): Waits {
    if t !in s.threads || s.threads[t].waitingOn == NO_QUEUE || !s.threads[t].sleeping then s else Wake(s, t, TERMINATED)
  }

  predicate Blocked(s: Waits, t: Tid) {
    t in s.threads && s.threads[t].waitingOn != NO_QUEUE && s.threads[t].sleeping
  }

  /** The step from `s` to `r` took a sleeping `t`, and nobody else, off its queue to run with `result`. */
  ghost predicate Ended(s: Waits, r: Waits, t: Tid, result: int) {
    && Blocked(s, t) && t in r.threads && !r.threads[t].sleeping && r.threads[t].waitingOn == NO_QUEUE && r.threads[t].result == result
    && (forall x | x in s.threads && x != t :: x in r.threads && r.threads[x] == s.threads[x])
    && (forall q :: Q(r, q) == Without(Q(s, q), t))
  }

  /** A signal ends exactly the waits that it may interrupt, and termination ends every wait. */
  lemma SignalKeeps(s: Waits, t: Tid, fatal: bool)
    requires Inv(s)
    ensures Inv(SignalThread(s, t, fatal)) && Inv(TerminateThread(s, t))
    ensures Blocked(s, t) && (s.threads[t].mode == Interruptible || (s.threads[t].mode == Killable && fatal))
      <==> Ended(s, SignalThread(s, t, fatal), t, INTERRUPTED)
    ensures Blocked(s, t) <==> Ended(s, TerminateThread(s, t), t, TERMINATED)
    ensures SignalThread(s, t, fatal) == s || Ended(s, SignalThread(s, t, fatal), t, INTERRUPTED)
    ensures TerminateThread(s, t) == s || Ended(s, TerminateThread(s, t), t, TERMINATED)
  {
    if t in s.threads && s.threads[t].waitingOn != NO_QUEUE {
      WakeKeeps(s, t, INTERRUPTED);
      WakeKeeps(s, t, TERMINATED);
    }
  }
}
