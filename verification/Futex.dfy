/** The futex table of futex.c over the wait queues: slots, keys and waiter counts.

Slot k uses wait queue k + 1, and a thread that uses slot k has k + 1 in its `holds` field. */
module Futex {
  import opened Common
  import opened WaitQueues

  const SLOT_COUNT: nat := 128

  datatype Key = Key(process: nat, address: nat, shared: bool)

  datatype Slot = Slot(key: Key, active: bool, waiters: nat)

  datatype World = World(slots: seq<Slot>, waits: Waits)

  predicate Bit(i: nat) { i < 32 }

  /** FUTEX_BITSET_MATCH_ANY. */
  function AllBits(): set<nat> {
    set i: nat | i < 32 && Bit(i)
  }

  /** futex_slot_find_locked from index `i` on; |slots| when there is none. */
  function Find(slots: seq<Slot>, key: Key, i: nat): nat
    requires i <= |slots|
    decreases |slots| - i
  {
    if i == |slots| || (slots[i].active && slots[i].key == key) then i else Find(slots, key, i + 1)
  }

  function Unused(slots: seq<Slot>, i: nat): nat
    requires i <= |slots|
    decreases |slots| - i
  {
    if i == |slots| || !slots[i].active then i else Unused(slots, i + 1)
  }

  /** futex_slot_get_locked: the slot for the key, an unused one if it has none; |slots| when all are used. */
  function GetIndex(slots: seq<Slot>, key: Key): nat {
    if Find(slots, key, 0) < |slots| then Find(slots, key, 0) else Unused(slots, 0)
  }

  function GetSlots(slots: seq<Slot>, key: Key): seq<Slot> {
    var k := GetIndex(slots, key);
    if Find(slots, key, 0) == |slots| && k < |slots| then slots[k := Slot(key, true, 0)] else slots
  }

  lemma {:induction false} FindIs(slots: seq<Slot>, key: Key, i: nat)
    requires i <= |slots|
    ensures var k := Find(slots, key, i);
      && i <= k <= |slots| && (k < |slots| ==> slots[k].active && slots[k].key == key)
      && forall j | i <= j < k :: !(slots[j].active && slots[j].key == key)
    decreases |slots| - i
  {
    if i < |slots| && !(slots[i].active && slots[i].key == key) { FindIs(slots, key, i + 1); }
  }

  lemma {:induction false} UnusedIs(slots: seq<Slot>, i: nat)
    requires i <= |slots|
    ensures var k := Unused(slots, i); i <= k <= |slots| && (k < |slots| ==> !slots[k].active) && forall j | i <= j < k :: slots[j].active
    decreases |slots| - i
  {
    if i < |slots| && slots[i].active { UnusedIs(slots, i + 1); }
  }

  /** The threads that use slot `k`. */
  function Holders(threads: map<Tid, Waiter>, k: nat): set<Tid> {
    set t | t in threads && threads[t].holds == k + 1
  }

  ghost predicate KeysOk(slots: seq<Slot>) {
    forall i, j | 0 <= i < j < |slots| && slots[i].active && slots[j].active :: slots[i].key != slots[j].key
  }

  /** A slot is active exactly when it has waiters, and they are the threads that hold it. */
  ghost predicate CountsOk(w: World) {
    forall k: nat | k < |w.slots| :: CountOk(w, k)
  }

  ghost predicate CountOk(w: World, k: nat)
    requires k < |w.slots|
  {
    (w.slots[k].active <==> w.slots[k].waiters > 0) && w.slots[k].waiters == |Holders(w.waits.threads, k)|
  }

  predicate SleepsIn(w: World, t: Tid, k: nat) {
    t in Q(w.waits, k + 1)
  }

  /** Whoever sleeps on a slot's queue uses that slot, with a bit set that a plain wake matches. */
  ghost predicate SleepersOk(w: World) {
    && (forall k: nat, t | k < |w.slots| && SleepsIn(w, t, k) && t in w.waits.threads :: w.waits.threads[t].holds == k + 1)
    && (forall t | t in w.waits.threads :: w.waits.threads[t].holds <= |w.slots|
          && (w.waits.threads[t].holds != 0 ==> w.waits.threads[t].bits * AllBits() != {}))
  }

  ghost predicate Inv(w: World) {
    |w.slots| == SLOT_COUNT && WaitQueues.Inv(w.waits) && KeysOk(w.slots) && CountsOk(w) && SleepersOk(w)
  }

  datatype Outcome = Ok(world: World) | Panic

  /** futex_wait once the value has been compared: the thread takes a slot, if there is one. */
  function Enter(w: World, t: Tid, key: Key, bits: set<nat>): World
    requires t in w.waits.threads
  {
    var k := GetIndex(w.slots, key);
    if k >= |w.slots| then w
    else
      var slots := GetSlots(w.slots, key);
      w.(slots := slots[k := slots[k].(waiters := slots[k].waiters + 1)],
         waits := w.waits.(threads := w.waits.threads[t := w.waits.threads[t].(holds := k + 1, bits := bits)]))
  }

  /** The end of futex_wait: the slot is given back. */
  function Put(w: World, t: Tid): Outcome
    requires t in w.waits.threads && 0 < w.waits.threads[t].holds <= |w.slots|
  {
    var k := w.waits.threads[t].holds - 1;
    var slot := w.slots[k];
    if !slot.active || slot.waiters == 0 || (slot.waiters == 1 && Q(w.waits, k + 1) != []) then Panic
    else Ok(w.(slots := w.slots[k := slot.(waiters := slot.waiters - 1, active := slot.waiters > 1)],
               waits := w.waits.(threads := w.waits.threads[t := w.waits.threads[t].(holds := 0, bits := AllBits())])))
  }

  /** futex_wake. */
  function WakeKey(w: World, key: Key, count: nat, mask: set<nat>): Outcome {
    var k := Find(w.slots, key, 0);
    if k == |w.slots| then Ok(w)
    else
      var r := WakeMask(w.waits, k + 1, count, mask);
      if r.None? then Panic else Ok(w.(waits := r.value))
  }

  function Settle(slots: seq<Slot>, source: nat, target: nat, moved: nat): seq<Slot>
    requires source < |slots| && target < |slots| && moved <= slots[source].waiters
  {
    var left := slots[source].waiters - moved;
    var s1 := slots[source := slots[source].(waiters := left, active := slots[source].active && left > 0)];
    var got := s1[target].waiters + moved;
    s1[target := s1[target].(waiters := got, active := s1[target].active && (moved > 0 || got > 0))]
  }

  /** futex_requeue of two different keys, after the comparison. */
  function RequeueKeys(w: World, from: Key, to: Key, wake: nat, requeue: nat): Outcome {
    var source := Find(w.slots, from, 0);
    if source == |w.slots| then Ok(w)
    else
      var r := WakeMask(w.waits, source + 1, wake, AllBits());
      if r.None? then Panic
      else
        var target := GetIndex(w.slots, to);
        if requeue == 0 || target >= |w.slots| then Ok(w.(waits := r.value))
        else
          var slots := GetSlots(w.slots, to);
          var moved := Front(Q(r.value, source + 1), requeue);
          var m := Requeue(r.value, source + 1, target + 1, requeue, target + 1);
          if m.None? || source >= |slots| || slots[source].waiters < moved then Panic
          else Ok(w.(slots := Settle(slots, source, target, moved), waits := m.value))
  }

  predicate Awake(w: World, t: Tid) {
    t in w.waits.threads && !w.waits.threads[t].sleeping
  }

  // ----- The steps keep the invariant -----

  /** Waking threads changes neither what they hold nor who else sleeps. */
  ghost predicate OnlyWakes(w: World, w': World) {
    && w'.slots == w.slots && WaitQueues.Inv(w'.waits)
    && w'.waits.threads.Keys == w.waits.threads.Keys
    && (forall t | t in w.waits.threads :: w'.waits.threads[t].holds == w.waits.threads[t].holds && w'.waits.threads[t].bits == w.waits.threads[t].bits)
    && (forall t, k: nat | SleepsIn(w', t, k) :: SleepsIn(w, t, k))
  }

  lemma SameHolders(m: map<Tid, Waiter>, m': map<Tid, Waiter>, k: nat)
    requires m'.Keys == m.Keys && forall t | t in m :: m'[t].holds == m[t].holds
    ensures Holders(m', k) == Holders(m, k)
  {}

  lemma OnlyWakesKeeps(w: World, w': World)
    requires Inv(w) && OnlyWakes(w, w')
    ensures Inv(w')
  {
    forall k: nat | k < |w'.slots| ensures CountOk(w', k) {
      assert CountOk(w, k);
      SameHolders(w.waits.threads, w'.waits.threads, k);
    }
    forall t | t in w'.waits.threads ensures t in w.waits.threads { assert t in w'.waits.threads.Keys; }
  }

  lemma WokenOnly(w: World, s': Waits, ts: seq<Tid>, result: int)
    requires Inv(w) && WaitQueues.Inv(s') && Woken(w.waits, s', ts, result)
    ensures OnlyWakes(w, w.(waits := s'))
  {
    var w' := w.(waits := s');
    forall t | t in w.waits.threads
      ensures s'.threads[t].holds == w.waits.threads[t].holds && s'.threads[t].bits == w.waits.threads[t].bits {
      assert t in ts || t !in ts;
    }
    forall t, k: nat | SleepsIn(w', t, k) ensures SleepsIn(w, t, k) {
      MinusIn(Q(w.waits, k + 1), ts, t);
    }
  }

  /** Threads that are awake stay as they are; a sleeper goes on holding a slot and is not terminated. */
  ghost predicate Calm(s: Waits, s': Waits) {
    && s'.threads.Keys == s.threads.Keys
    && forall t | t in s.threads ::
         if !s.threads[t].sleeping then s'.threads[t] == s.threads[t]
         else (s'.threads[t].holds == 0 <==> s.threads[t].holds == 0) && (s'.threads[t].sleeping || s'.threads[t].result != TERMINATED)
  }

  lemma WokenCalm(s: Waits, s': Waits, ts: seq<Tid>, result: int)
    requires Woken(s, s', ts, result) && result != TERMINATED && forall t | t in ts :: t in s.threads && s.threads[t].sleeping
    ensures Calm(s, s')
  {}

  lemma MovedCalm(s: Waits, s': Waits, ts: seq<Tid>, to: QueueId, holds: nat)
    requires MovedTo(s, s', ts, to, holds) && holds != 0
    requires forall t | t in ts :: t in s.threads && s.threads[t].sleeping && s.threads[t].holds != 0
    ensures Calm(s, s')
  {}

  lemma CalmTrans(s: Waits, s1: Waits, s2: Waits)
    requires Calm(s, s1) && Calm(s1, s2)
    ensures Calm(s, s2)
  {}

  lemma QueueSleeps(s: Waits, q: QueueId, t: Tid)
    requires WaitQueues.Inv(s) && t in Q(s, q)
    ensures t in s.threads && s.threads[t].sleeping
  {
    assert WaitsOn(s, t, q);
  }

  lemma MatchingSleeps(s: Waits, q: QueueId, count: nat, mask: set<nat>)
    requires WaitQueues.Inv(s)
    ensures forall t | t in Matching(s, Q(s, q), count, mask) :: t in s.threads && s.threads[t].sleeping
  {
    MatchingIs(s, Q(s, q), count, mask);
    forall t | t in Matching(s, Q(s, q), count, mask) ensures t in s.threads && s.threads[t].sleeping { QueueSleeps(s, q, t); }
  }

  lemma {:induction false} MinusIn(q: seq<Tid>, ts: seq<Tid>, t: Tid)
    requires NoDup(q) && t in Minus(q, ts)
    ensures t in q
    decreases ts
  {
    if ts != [] {
      WithoutIs(q, ts[0]);
      MinusIn(Without(q, ts[0]), ts[1..], t);
    }
  }

  lemma CalmSame(s: Waits)
    ensures Calm(s, s)
  {}

  lemma WakeKeyKeeps(w: World, key: Key, count: nat, mask: set<nat>)
    requires Inv(w)
    ensures WakeKey(w, key, count, mask).Ok? && Inv(WakeKey(w, key, count, mask).world)
    ensures Calm(w.waits, WakeKey(w, key, count, mask).world.waits)
  {
    hide Inv, WaitQueues.Inv, WakeMask, Matching, Woken, OnlyWakes, Calm;
    WaitsInv(w);
    CalmSame(w.waits);
    FindIs(w.slots, key, 0);
    var k := Find(w.slots, key, 0);
    if k < |w.slots| {
      WakeMaskKeeps(w.waits, k + 1, count, mask);
      var s' := WakeMask(w.waits, k + 1, count, mask).value;
      MatchingSleeps(w.waits, k + 1, count, mask);
      WokenCalm(w.waits, s', Matching(w.waits, Q(w.waits, k + 1), count, mask), 0);
      WokenOnly(w, s', Matching(w.waits, Q(w.waits, k + 1), count, mask), 0);
      OnlyWakesKeeps(w, w.(waits := s'));
    }
  }

  lemma ExpireKeeps(w: World, now: nat)
    requires Inv(w)
    ensures Expire(w.waits, now).Some? && Inv(w.(waits := Expire(w.waits, now).value)) && Calm(w.waits, Expire(w.waits, now).value)
  {
    var d := Due(w.waits, w.waits.timeouts, now);
    forall t ensures NoDup(d) && (t in d <==> t in w.waits.threads && w.waits.threads[t].onTimeout && w.waits.threads[t].deadline <= now) {
      DueExact(w.waits, now, t);
    }
    assert NoDup(d) by { DueExact(w.waits, now, 0); }
    WakeListKeeps(w.waits, d, TIMED_OUT);
    WokenCalm(w.waits, Expire(w.waits, now).value, d, TIMED_OUT);
    WokenOnly(w, Expire(w.waits, now).value, d, TIMED_OUT);
    OnlyWakesKeeps(w, w.(waits := Expire(w.waits, now).value));
  }

  lemma WakeOneKeeps(w: World, t: Tid, result: int)
    requires Inv(w) && t in w.waits.threads && w.waits.threads[t].waitingOn != NO_QUEUE
    ensures Inv(w.(waits := Wake(w.waits, t, result))) && (result != TERMINATED ==> Calm(w.waits, Wake(w.waits, t, result)))
  {
    WakeKeeps(w.waits, t, result);
    var w' := w.(waits := Wake(w.waits, t, result));
    forall x, k: nat | SleepsIn(w', x, k) ensures SleepsIn(w, x, k) { WithoutIs(Q(w.waits, k + 1), t); }
    OnlyWakesKeeps(w, w');
  }

  lemma SignalStepKeeps(w: World, t: Tid)
    requires Inv(w)
    ensures Inv(w.(waits := SignalThread(w.waits, t, false))) && Calm(w.waits, SignalThread(w.waits, t, false))
    ensures Inv(w.(waits := TerminateThread(w.waits, t)))
  {
    if t in w.waits.threads && w.waits.threads[t].waitingOn != NO_QUEUE {
      WakeOneKeeps(w, t, INTERRUPTED);
      WakeOneKeeps(w, t, TERMINATED);
    }
  }

  // ----- One thread takes or gives back a slot -----

  /** The thread `t`, awake, now holds slot `now` instead of `was`; 0 is none. */
  function Rehold(m: map<Tid, Waiter>, t: Tid, now: nat, bits: set<nat>): map<Tid, Waiter>
    requires t in m
  {
    m[t := m[t].(holds := now, bits := bits)]
  }

  lemma ReholdHolders(m: map<Tid, Waiter>, t: Tid, now: nat, bits: set<nat>, k: nat)
    requires t in m
    ensures now == k + 1 ==> Holders(Rehold(m, t, now, bits), k) == Holders(m, k) + {t}
    ensures now != k + 1 ==> Holders(Rehold(m, t, now, bits), k) == Holders(m, k) - {t}
  {}

  /** The queues do not depend on what threads hold. */
  lemma ReholdWaits(s: Waits, t: Tid, now: nat, bits: set<nat>)
    requires WaitQueues.Inv(s) && t in s.threads
    ensures WaitQueues.Inv(s.(threads := Rehold(s.threads, t, now, bits)))
    ensures forall q :: Q(s.(threads := Rehold(s.threads, t, now, bits)), q) == Q(s, q)
  {
    var s' := s.(threads := Rehold(s.threads, t, now, bits));
    forall q, x ensures x in Q(s', q) <==> WaitsOn(s', x, q) { assert x in Q(s, q) <==> WaitsOn(s, x, q); }
    forall q ensures NoDup(Q(s', q)) { assert NoDup(Q(s, q)); }
    SameOrder(s.threads, s'.threads, s'.timeouts);
  }

  lemma PutKeeps(w: World, t: Tid)
    requires Inv(w) && Awake(w, t) && w.waits.threads[t].holds != 0
    ensures w.waits.threads[t].holds <= |w.slots| && Put(w, t).Ok? && Inv(Put(w, t).world)
  {
    hide WaitQueues.Inv, CountsOk, KeysOk;
    var k := w.waits.threads[t].holds - 1;
    NobodyLeft(w, t, k);
    var w' := Put(w, t).world;
    ReholdWaits(w.waits, t, 0, AllBits());
    PutCounts(w, w', t, k);
    PutSleepers(w, w', t);
    PutKeys(w.slots, k);
  }

  lemma PutKeys(slots: seq<Slot>, k: nat)
    requires KeysOk(slots) && k < |slots|
    ensures forall n: nat, active: bool | active ==> slots[k].active :: KeysOk(slots[k := slots[k].(waiters := n, active := active)])
  {
  }

  lemma PutCounts(w: World, w': World, t: Tid, k: nat)
    requires CountsOk(w) && Awake(w, t) && k < |w.slots| && w.waits.threads[t].holds == k + 1 && w.slots[k].waiters > 0
    requires w'.slots == w.slots[k := w.slots[k].(waiters := w.slots[k].waiters - 1, active := w.slots[k].waiters > 1)]
    requires w'.waits.threads == Rehold(w.waits.threads, t, 0, AllBits())
    ensures CountsOk(w')
  {
    forall j: nat | j < |w'.slots| ensures CountOk(w', j) {
      assert CountOk(w, j);
      ReholdHolders(w.waits.threads, t, 0, AllBits(), j);
    }
  }

  lemma PutSleepers(w: World, w': World, t: Tid)
    requires Inv(w) && Awake(w, t) && |w'.slots| == |w.slots| && (forall q :: Q(w'.waits, q) == Q(w.waits, q))
    requires w'.waits.threads == Rehold(w.waits.threads, t, 0, AllBits())
    ensures SleepersOk(w')
  {
    forall x, j: nat | SleepsIn(w', x, j) && x in w'.waits.threads && j < |w.slots| ensures w'.waits.threads[x].holds == j + 1 {
      assert SleepsIn(w, x, j);
      SleeperSleeps(w, x, j);
    }
    assert AllBits() * AllBits() != {} by { assert Bit(0) && 0 in AllBits() && 0 in AllBits() * AllBits(); }
  }

  lemma SleeperSleeps(w: World, x: Tid, j: nat)
    requires Inv(w) && SleepsIn(w, x, j)
    ensures x in w.waits.threads && w.waits.threads[x].sleeping
  {
    assert x in Q(w.waits, j + 1) && WaitsOn(w.waits, x, j + 1);
  }

  /** When the last user of a slot gives it back, nobody sleeps on its queue. */
  lemma NobodyLeft(w: World, t: Tid, k: nat)
    requires Inv(w) && Awake(w, t) && k < |w.slots| && w.waits.threads[t].holds == k + 1
    ensures w.slots[k].active && w.slots[k].waiters > 0
    ensures w.slots[k].waiters == 1 ==> Q(w.waits, k + 1) == []
  {
    var h := Holders(w.waits.threads, k);
    assert CountOk(w, k) && t in h;
    if w.slots[k].waiters == 1 && Q(w.waits, k + 1) != [] {
      var x := Q(w.waits, k + 1)[0];
      assert x in Q(w.waits, k + 1) && SleepsIn(w, x, k);
      SleeperSleeps(w, x, k);
      assert x in h && x != t;
      assert |h| >= |{x, t}| by { assert {x, t} <= h; SubsetSize({x, t}, h); }
    }
  }

  /** A slot for the key exists or is set up, with no user yet, and the others stay. */
  lemma GetKeeps(w: World, key: Key)
    requires Inv(w)
    ensures var k, slots := GetIndex(w.slots, key), GetSlots(w.slots, key);
      && k <= |w.slots| == |slots| && KeysOk(slots) && (k < |slots| ==> slots[k].active && slots[k].key == key)
      && (forall j | 0 <= j < |slots| && j != k :: slots[j] == w.slots[j])
      && (k < |slots| ==> slots[k].waiters == w.slots[k].waiters && (slots[k] == w.slots[k] || slots[k].waiters == 0))
  {
    FindIs(w.slots, key, 0);
    UnusedIs(w.slots, 0);
    var k := GetIndex(w.slots, key);
    assert k < |w.slots| ==> CountOk(w, k);
  }

  /** Whether or not there is a slot for the key, the counts stay exact. */
  lemma EnterKeeps(w: World, t: Tid, key: Key, bits: set<nat>)
    requires Inv(w) && Awake(w, t) && w.waits.threads[t].holds == 0 && bits * AllBits() != {}
    ensures Inv(Enter(w, t, key, bits))
    ensures var w' := Enter(w, t, key, bits);
      w' == w || (w'.waits.threads[t].holds > 0 && w'.waits.threads == Rehold(w.waits.threads, t, w'.waits.threads[t].holds, bits))
  {
    GetKeeps(w, key);
    var k := GetIndex(w.slots, key);
    if k < |w.slots| {
      assert Enter(w, t, key, bits).waits.threads == Rehold(w.waits.threads, t, k + 1, bits);
      EnterCounts(w, Enter(w, t, key, bits), t, key, bits);
    }
  }

  lemma EnterCounts(w: World, w1: World, t: Tid, key: Key, bits: set<nat>)
    requires Inv(w) && Awake(w, t) && w.waits.threads[t].holds == 0 && bits * AllBits() != {} && GetIndex(w.slots, key) < |w.slots|
    requires var k, slots := GetIndex(w.slots, key), GetSlots(w.slots, key);
      && k < |slots| && w1 == w.(slots := slots[k := slots[k].(waiters := slots[k].waiters + 1)],
                waits := w.waits.(threads := Rehold(w.waits.threads, t, k + 1, bits)))
    ensures Inv(w1)
  {
    hide WaitQueues.Inv, CountsOk, SleepersOk, KeysOk, GetSlots, GetIndex;
    var k := GetIndex(w.slots, key);
    GetKeeps(w, key);
    ReholdWaits(w.waits, t, k + 1, bits);
    TakeCounts(w, w1, t, k, GetSlots(w.slots, key), bits);
    TakeSleepers(w, w1, t, k, bits);
    TakeKeys(GetSlots(w.slots, key), k);
  }

  lemma TakeKeys(slots: seq<Slot>, k: nat)
    requires KeysOk(slots) && k < |slots|
    ensures forall n: nat :: KeysOk(slots[k := slots[k].(waiters := n)])
  {}

  lemma TakeCounts(w: World, w1: World, t: Tid, k: nat, slots: seq<Slot>, bits: set<nat>)
    requires CountsOk(w) && t in w.waits.threads && w.waits.threads[t].holds == 0 && k < |slots| == |w.slots|
    requires (forall j | 0 <= j < |slots| && j != k :: slots[j] == w.slots[j]) && slots[k].active && slots[k].waiters == w.slots[k].waiters
    requires w1.slots == slots[k := slots[k].(waiters := slots[k].waiters + 1)] && w1.waits.threads == Rehold(w.waits.threads, t, k + 1, bits)
    ensures CountsOk(w1)
  {
    forall j: nat | j < |w1.slots| ensures CountOk(w1, j) {
      assert CountOk(w, j);
      ReholdHolders(w.waits.threads, t, k + 1, bits, j);
    }
  }

  lemma TakeSleepers(w: World, w1: World, t: Tid, k: nat, bits: set<nat>)
    requires Inv(w) && Awake(w, t) && |w1.slots| == |w.slots| > k && (forall q :: Q(w1.waits, q) == Q(w.waits, q)) && bits * AllBits() != {}
    requires w1.waits.threads == Rehold(w.waits.threads, t, k + 1, bits)
    ensures SleepersOk(w1)
  {
    hide WaitQueues.Inv, CountsOk, KeysOk;
    forall x, j: nat | SleepsIn(w1, x, j) && x in w1.waits.threads && j < |w.slots| ensures w1.waits.threads[x].holds == j + 1 {
      assert SleepsIn(w, x, j);
      SleeperSleeps(w, x, j);
    }
  }

  lemma SleepStep(w: World, t: Tid, k: nat, deadline: nat)
    requires Inv(w) && Awake(w, t) && k < |w.slots| && w.waits.threads[t].holds == k + 1
    ensures var r := Sleep(w.waits, t, k + 1, deadline, Interruptible); r.Some? && Inv(w.(waits := r.value))
  {
    SleepPossible(w.waits, t, k + 1, deadline, Interruptible);
    SleepKeeps(w.waits, t, k + 1, deadline, Interruptible);
    var w' := w.(waits := Sleep(w.waits, t, k + 1, deadline, Interruptible).value);
    forall j: nat | j < |w'.slots| ensures CountOk(w', j) {
      assert CountOk(w, j);
      SameHolders(w.waits.threads, w'.waits.threads, j);
    }
    forall x, j: nat | SleepsIn(w', x, j) && x in w'.waits.threads && j < |w.slots| ensures w'.waits.threads[x].holds == j + 1 {
      if x != t { assert SleepsIn(w, x, j); }
    }
  }

  // ----- Requeueing -----

  /** The threads `ts` leave slot `from` for slot `to`. */
  lemma MovedHolders(s: Waits, s': Waits, ts: seq<Tid>, from: nat, to: nat, k: nat)
    requires MovedTo(s, s', ts, to + 1, to + 1) && from != to && NoDup(ts) && forall t | t in ts :: t in s.threads && s.threads[t].holds == from + 1
    ensures |Holders(s'.threads, k)| == |Holders(s.threads, k)| + (if k == to then |ts| else 0) - (if k == from then |ts| else 0)
  {
    SizeOf(ts);
    MovedSets(s, s', ts, from, to, k);
    if k == from { Disjoint(Holders(s'.threads, k), SetOf(ts)); } else if k == to { Disjoint(Holders(s.threads, k), SetOf(ts)); }
  }

  lemma MovedSets(s: Waits, s': Waits, ts: seq<Tid>, from: nat, to: nat, k: nat)
    requires MovedTo(s, s', ts, to + 1, to + 1) && from != to && forall t | t in ts :: t in s.threads && s.threads[t].holds == from + 1
    ensures var h, h', d := Holders(s.threads, k), Holders(s'.threads, k), SetOf(ts);
      && (k == from ==> h == h' + d && h' !! d) && (k == to ==> h' == h + d && h !! d) && (k != from && k != to ==> h' == h)
  {
    var h, h', d := Holders(s.threads, k), Holders(s'.threads, k), SetOf(ts);
    forall t ensures t in h' <==> (if t in d then k == to else t in h) { assert t in s'.threads.Keys <==> t in s.threads.Keys; }
    forall t | t in d ensures t in h <==> k == from {}
  }

  lemma Disjoint(a: set<Tid>, b: set<Tid>)
    requires a !! b
    ensures |a + b| == |a| + |b|
  {}

  /** The waiters that a requeue moves. */
  lemma FrontSleepers(w: World, k: nat, count: nat)
    requires Inv(w) && k < |w.slots|
    ensures var ts := Q(w.waits, k + 1)[..Front(Q(w.waits, k + 1), count)];
      && NoDup(ts) && |ts| <= w.slots[k].waiters
      && forall t | t in ts :: t in w.waits.threads && w.waits.threads[t].holds == k + 1 && w.waits.threads[t].waitingOn == k + 1
  {
    var l := Q(w.waits, k + 1);
    var ts := l[..Front(l, count)];
    assert NoDup(l);
    forall t | t in ts ensures t in w.waits.threads && w.waits.threads[t].holds == k + 1 && w.waits.threads[t].waitingOn == k + 1 {
      assert t in l && WaitsOn(w.waits, t, k + 1) && SleepsIn(w, t, k);
    }
    SizeOf(ts);
    SubsetSize(SetOf(ts), Holders(w.waits.threads, k));
    assert CountOk(w, k);
  }

  lemma InQueue(s: Waits, x: Tid, q: QueueId)
    requires WaitQueues.Inv(s)
    ensures (x in Q(s, q) <==> WaitsOn(s, x, q)) && NoDup(Q(s, q))
  {}

  lemma MovedSleeper(w: World, s': Waits, ts: seq<Tid>, target: nat, x: Tid, j: nat)
    requires SleepersOk(w) && WaitQueues.Inv(w.waits) && WaitQueues.Inv(s') && MovedTo(w.waits, s', ts, target + 1, target + 1)
    requires x in Q(s', j + 1) && j < |w.slots|
    ensures x in s'.threads && s'.threads[x].holds == j + 1
  {
    hide WaitQueues.Inv;
    InQueue(s', x, j + 1);
    InQueue(w.waits, x, j + 1);
    assert x in s'.threads.Keys && x in w.waits.threads;
    if x !in ts { assert SleepsIn(w, x, j); }
  }

  lemma MovedBits(w: World, w': World, ts: seq<Tid>, target: nat)
    requires SleepersOk(w) && MovedTo(w.waits, w'.waits, ts, target + 1, target + 1) && |w'.slots| == |w.slots| > target
    requires forall t | t in ts && t in w.waits.threads :: w.waits.threads[t].holds != 0
    ensures forall t | t in w'.waits.threads ::
      w'.waits.threads[t].holds <= |w'.slots| && (w'.waits.threads[t].holds != 0 ==> w'.waits.threads[t].bits * AllBits() != {})
  {
    forall t | t in w'.waits.threads ensures t in w.waits.threads { assert t in w'.waits.threads.Keys; }
  }

  lemma MoveSleepers(w: World, w': World, source: nat, target: nat, count: nat)
    requires Inv(w) && source < |w.slots| && target < |w.slots| && source != target
    requires Requeue(w.waits, source + 1, target + 1, count, target + 1) == Some(w'.waits) && |w'.slots| == |w.slots|
    ensures SleepersOk(w') && WaitQueues.Inv(w'.waits)
  {
    hide WaitQueues.Inv;
    hide MovedTo;
    hide Requeue;
    hide CountsOk;
    hide KeysOk;
    RequeueKeeps(w.waits, source + 1, target + 1, count, target + 1);
    FrontSleepers(w, source, count);
    var l := Q(w.waits, source + 1);
    var ts := l[..Front(l, count)];
    MovedBits(w, w', ts, target);
    forall x, j: nat | SleepsIn(w', x, j) && x in w'.waits.threads && j < |w.slots| ensures w'.waits.threads[x].holds == j + 1 {
      MovedSleeper(w, w'.waits, ts, target, x, j);
    }
  }

  lemma SettleCounts(w: World, w': World, slots: seq<Slot>, ts: seq<Tid>, source: nat, target: nat)
    requires CountsOk(w) && KeysOk(slots) && |slots| == |w.slots| && source < |slots| && target < |slots| && source != target
    requires forall j | 0 <= j < |slots| && j != target :: slots[j] == w.slots[j]
    requires slots[source].active && slots[target].active && slots[target].waiters == w.slots[target].waiters
    requires |ts| <= slots[source].waiters && MovedTo(w.waits, w'.waits, ts, target + 1, target + 1) && NoDup(ts)
    requires forall t | t in ts :: t in w.waits.threads && w.waits.threads[t].holds == source + 1
    requires w'.slots == Settle(slots, source, target, |ts|)
    ensures KeysOk(w'.slots) && CountsOk(w')
  {
    forall j: nat | j < |w'.slots| ensures CountOk(w', j) {
      assert CountOk(w, j);
      MovedHolders(w.waits, w'.waits, ts, source, target, j);
    }
  }

  /** futex_requeue of what is left after the wake-ups. */
  lemma RequeueCounts(w: World, to: Key, source: nat, count: nat)
    requires Inv(w) && source < |w.slots| && w.slots[source].active && w.slots[source].key != to && GetIndex(w.slots, to) < |w.slots|
    ensures var target, slots := GetIndex(w.slots, to), GetSlots(w.slots, to);
      var moved, m := Front(Q(w.waits, source + 1), count), Requeue(w.waits, source + 1, target + 1, count, target + 1);
      && source != target && |slots| == |w.slots| && m.Some? && moved <= slots[source].waiters
      && Inv(w.(slots := Settle(slots, source, target, moved), waits := m.value))
  {
    hide WaitQueues.Inv;
    hide SleepersOk;
    hide CountsOk;
    hide KeysOk;
    hide MovedTo;
    hide GetSlots;
    hide Requeue;
    hide Settle;
    NotTarget(w, to, source);
    GetKeeps(w, to);
    var target, slots := GetIndex(w.slots, to), GetSlots(w.slots, to);
    var l := Q(w.waits, source + 1);
    var moved := Front(l, count);
    RequeueKeeps(w.waits, source + 1, target + 1, count, target + 1);
    FrontSleepers(w, source, count);
    var m := Requeue(w.waits, source + 1, target + 1, count, target + 1).value;
    var w' := w.(slots := Settle(slots, source, target, moved), waits := m);
    SettleLength(slots, source, target, moved);
    MoveSleepers(w, w', source, target, count);
    SettleCounts(w, w', slots, l[..moved], source, target);
  }

  lemma SettleLength(slots: seq<Slot>, source: nat, target: nat, moved: nat)
    requires source < |slots| && target < |slots| && moved <= slots[source].waiters
    ensures |Settle(slots, source, target, moved)| == |slots|
  {}

  lemma NotTarget(w: World, to: Key, source: nat)
    requires source < |w.slots| && w.slots[source].active && w.slots[source].key != to
    ensures source != GetIndex(w.slots, to)
  {
    FindIs(w.slots, to, 0);
    UnusedIs(w.slots, 0);
  }

  lemma RequeueCalm(w: World, source: nat, target: nat, count: nat)
    requires Inv(w) && source < |w.slots| && target < |w.slots| && source != target
    ensures var m := Requeue(w.waits, source + 1, target + 1, count, target + 1); m.Some? && Calm(w.waits, m.value)
  {
    hide Inv, WaitQueues.Inv, MovedTo, Requeue, Calm;
    WaitsInv(w);
    RequeueKeeps(w.waits, source + 1, target + 1, count, target + 1);
    FrontSleepers(w, source, count);
    var l := Q(w.waits, source + 1);
    var ts := l[..Front(l, count)];
    forall t | t in ts ensures t in w.waits.threads && w.waits.threads[t].sleeping && w.waits.threads[t].holds != 0 {
      assert t in l;
      QueueSleeps(w.waits, source + 1, t);
    }
    MovedCalm(w.waits, Requeue(w.waits, source + 1, target + 1, count, target + 1).value, ts, target + 1, target + 1);
  }

  lemma WaitsInv(w: World)
    requires Inv(w)
    ensures WaitQueues.Inv(w.waits)
  {
  }

  lemma RequeueKeysKeeps(w: World, from: Key, to: Key, wake: nat, requeue: nat)
    requires Inv(w) && from != to
    ensures RequeueKeys(w, from, to, wake, requeue).Ok? && Inv(RequeueKeys(w, from, to, wake, requeue).world)
    ensures Calm(w.waits, RequeueKeys(w, from, to, wake, requeue).world.waits)
  {
    hide Inv, WaitQueues.Inv, WakeMask, Requeue, Matching, Woken, GetSlots, Settle, OnlyWakes, Calm, Q, Front, Find, GetIndex;
    CalmSame(w.waits);
    FindIs(w.slots, from, 0);
    var source := Find(w.slots, from, 0);
    if source < |w.slots| {
      WaitsInv(w);
      WakeMaskKeeps(w.waits, source + 1, wake, AllBits());
      var s' := WakeMask(w.waits, source + 1, wake, AllBits()).value;
      WokenOnly(w, s', Matching(w.waits, Q(w.waits, source + 1), wake, AllBits()), 0);
      MatchingSleeps(w.waits, source + 1, wake, AllBits());
      WokenCalm(w.waits, s', Matching(w.waits, Q(w.waits, source + 1), wake, AllBits()), 0);
      var w1 := w.(waits := s');
      OnlyWakesKeeps(w, w1);
      if requeue > 0 && GetIndex(w.slots, to) < |w.slots| {
        RequeueCounts(w1, to, source, requeue);
        RequeueCalm(w1, source, GetIndex(w.slots, to), requeue);
        CalmTrans(w.waits, s', Requeue(s', source + 1, GetIndex(w.slots, to) + 1, requeue, GetIndex(w.slots, to) + 1).value);
      }
    }
  }

  /** The oldest waiters are woken, the next oldest move in order, and the rest stay in order. */
  lemma RequeueOrder(w: World, from: Key, to: Key, wake: nat, requeue: nat)
    requires Inv(w) && from != to && Find(w.slots, from, 0) < |w.slots| && requeue > 0 && GetIndex(w.slots, to) < |w.slots|
    ensures RequeueKeys(w, from, to, wake, requeue).Ok?
    ensures var source, target, w' := Find(w.slots, from, 0), GetIndex(w.slots, to), RequeueKeys(w, from, to, wake, requeue).world;
      var l := Q(w.waits, source + 1);
      var n := Front(l, wake);
      var m := Front(l[n..], requeue);
      && Q(w'.waits, source + 1) == l[n..][m..] && Q(w'.waits, target + 1) == Q(w.waits, target + 1) + l[n..][..m]
      && (forall p | p != source + 1 && p != target + 1 :: Q(w'.waits, p) == Q(w.waits, p))
      && forall t | t in l[..n] && t in w.waits.threads :: t in w'.waits.threads && !w'.waits.threads[t].sleeping && w'.waits.threads[t].result == 0
  {
    hide Inv, RequeueKeys, WakeMask, Requeue, Find, GetIndex, Q, Front, Calm;
    RequeueKeysKeeps(w, from, to, wake, requeue);
    FindIs(w.slots, from, 0);
    NotTarget(w, to, Find(w.slots, from, 0));
    RequeueWaits(w, from, to, wake, requeue);
    WakeThenMove(w, Find(w.slots, from, 0), GetIndex(w.slots, to), wake, requeue);
  }

  lemma RequeueWaits(w: World, from: Key, to: Key, wake: nat, requeue: nat)
    requires RequeueKeys(w, from, to, wake, requeue).Ok? && Find(w.slots, from, 0) < |w.slots| && requeue > 0 && GetIndex(w.slots, to) < |w.slots|
    ensures var source, target := Find(w.slots, from, 0), GetIndex(w.slots, to);
      var r := WakeMask(w.waits, source + 1, wake, AllBits());
      && r.Some? && Requeue(r.value, source + 1, target + 1, requeue, target + 1) == Some(RequeueKeys(w, from, to, wake, requeue).world.waits)
  {
    hide WakeMask, Requeue, GetSlots, Settle, Find, GetIndex, Q, Front;
  }

  lemma WakeThenMove(w: World, source: nat, target: nat, wake: nat, requeue: nat)
    requires Inv(w) && source < |w.slots| && target < |w.slots| && source != target
    ensures var r := WakeMask(w.waits, source + 1, wake, AllBits());
      && r.Some? && var z := Requeue(r.value, source + 1, target + 1, requeue, target + 1);
      && z.Some? && var s' := z.value;
      var l := Q(w.waits, source + 1);
      var n := Front(l, wake);
      var m := Front(l[n..], requeue);
      && Q(s', source + 1) == l[n..][m..] && Q(s', target + 1) == Q(w.waits, target + 1) + l[n..][..m]
      && (forall p | p != source + 1 && p != target + 1 :: Q(s', p) == Q(w.waits, p))
      && forall t | t in l[..n] && t in w.waits.threads :: t in s'.threads && !s'.threads[t].sleeping && s'.threads[t].result == 0
  {
    hide Inv, WaitQueues.Inv, Woken, MovedTo, WakeMask, Requeue;
    var l := Q(w.waits, source + 1);
    var n := Front(l, wake);
    WokenFront(w, source, wake);
    var s1 := WakeMask(w.waits, source + 1, wake, AllBits()).value;
    RequeueKeeps(s1, source + 1, target + 1, requeue, target + 1);
    StillAwake(w.waits, s1, Requeue(s1, source + 1, target + 1, requeue, target + 1).value, l, n, Front(l[n..], requeue), target + 1);
  }

  lemma StillAwake(s: Waits, s1: Waits, s2: Waits, l: seq<Tid>, n: nat, m: nat, to: nat)
    requires n <= |l| && m <= |l[n..]| && NoDup(l) && Woken(s, s1, l[..n], 0) && MovedTo(s1, s2, l[n..][..m], to, to)
    ensures forall t | t in l[..n] && t in s.threads :: t in s2.threads && !s2.threads[t].sleeping && s2.threads[t].result == 0
  {
    forall t | t in l[..n] && t in s.threads ensures t in s2.threads && !s2.threads[t].sleeping && s2.threads[t].result == 0 {
      assert t in s.threads.Keys && t in s1.threads.Keys && t in s2.threads.Keys;
      assert t !in l[n..][..m];
    }
  }

  lemma FrontMatches(w: World, k: nat, count: nat)
    requires Inv(w) && k < |w.slots|
    ensures var l := Q(w.waits, k + 1); NoDup(l) && Matching(w.waits, l, count, AllBits()) == l[..Front(l, count)]
  {
    var l := Q(w.waits, k + 1);
    InQueue(w.waits, 0, k + 1);
    forall t | t in l ensures Matches(w.waits, t, AllBits()) {
      InQueue(w.waits, t, k + 1);
      assert SleepsIn(w, t, k);
    }
    MatchingAll(w.waits, l, count, AllBits());
  }

  lemma OtherQueue(s: Waits, q: QueueId, p: QueueId, n: nat)
    requires WaitQueues.Inv(s) && p != q && n <= |Q(s, q)|
    ensures Minus(Q(s, p), Q(s, q)[..n]) == Q(s, p)
  {
    forall t | t in Q(s, q)[..n] ensures t !in Q(s, p) {
      InQueue(s, t, q);
      InQueue(s, t, p);
      assert t in Q(s, q);
    }
    InQueue(s, 0, p);
    MinusNone(Q(s, p), Q(s, q)[..n]);
  }

  lemma WokenFront(w: World, k: nat, count: nat)
    requires Inv(w) && k < |w.slots|
    ensures var l := Q(w.waits, k + 1); NoDup(l) && WakeMask(w.waits, k + 1, count, AllBits()).Some?
    ensures var l, s' := Q(w.waits, k + 1), WakeMask(w.waits, k + 1, count, AllBits()).value;
      var n := Front(l, count);
      && WaitQueues.Inv(s') && Woken(w.waits, s', l[..n], 0) && Q(s', k + 1) == l[n..] && forall q | q != k + 1 :: Q(s', q) == Q(w.waits, q)
  {
    hide WaitQueues.Inv;
    hide CountsOk;
    hide SleepersOk;
    var l := Q(w.waits, k + 1);
    var n := Front(l, count);
    FrontMatches(w, k, count);
    WakeMaskKeeps(w.waits, k + 1, count, AllBits());
    hide WakeMask;
    MinusFront(l, n);
    forall q | q != k + 1 ensures Minus(Q(w.waits, q), l[..n]) == Q(w.waits, q) { OtherQueue(w.waits, k + 1, q, n); }
  }

  lemma {:induction false} MinusFront(l: seq<Tid>, n: nat)
    requires n <= |l| && NoDup(l)
    ensures Minus(l, l[..n]) == l[n..]
    decreases n
  {
    if n > 0 {
      assert Without(l, l[0]) == l[1..];
      assert l[..n][1..] == l[1..][..n - 1];
      MinusFront(l[1..], n - 1);
    }
  }

  lemma {:induction false} MinusNone(q: seq<Tid>, ts: seq<Tid>)
    requires NoDup(q) && forall t | t in ts :: t !in q
    ensures Minus(q, ts) == q
    decreases ts
  {
    if ts != [] {
      assert ts[0] in ts;
      WithoutIs(q, ts[0]);
      MinusNone(q, ts[1..]);
    }
  }
}
