/** What every run of the scheduler keeps: where each thread is, the runqueue's books, fairness. */
module SchedulerSafety {
  import opened Timeline
  import opened Scheduler

  // ----- The invariant -----

  /** The timeline is sorted, holds exactly the threads marked as queued, and its books are right. */
  ghost predicate QueueInv(s: State) {
    && Sound(s)
    && Sorted(Entities(s.threads), s.queue)
    && (forall t | t in s.threads :: s.threads[t].onRunqueue <==> t in s.queue)
    && s.count == |s.queue|
    && s.totalWeight == WeightSum(s.threads, s.queue)
  }

  predicate Is(s: State, t: Id, state: ThreadState) {
    t in s.threads && s.threads[t].state == state
  }

  predicate Held(s: State, t: Id, c: int) {
    t in s.threads && s.threads[t].holder == c
  }

  /** What a CPU's fields say at each point of its loop. */
  predicate CpuOk(s: State, c: nat)
    requires c < |s.cpus|
  {
    var cpu := s.cpus[c];
    && (cpu.idle ==> cpu.phase.Pick?)
    && match cpu.phase
       case Pick => cpu.current == NONE && cpu.selected == NONE
       case Picked(t) => cpu.current == NONE && cpu.selected == t && Is(s, t, Runnable) && !s.threads[t].onRunqueue
       case Locked(t) => cpu.current == t && cpu.selected == NONE && Is(s, t, Running) && Held(s, t, c)
       case Run(t) => cpu.current == t && cpu.selected == NONE && Is(s, t, Running) && Held(s, t, FREE)
       case Leave(t) => cpu.current == t && cpu.selected == NONE && !Is(s, t, Running) && Held(s, t, c)
       case Back(t) => cpu.current == NONE && cpu.selected == NONE && !Is(s, t, Running) && Held(s, t, c)
  }

  /** No thread is current on two CPUs, or selected by two. */
  predicate OnePlace(s: State) {
    forall c, d | 0 <= c < |s.cpus| && 0 <= d < |s.cpus| && c != d ::
      && (s.cpus[c].current != NONE ==> s.cpus[c].current != s.cpus[d].current)
      && (s.cpus[c].selected != NONE ==> s.cpus[c].selected != s.cpus[d].selected)
  }

  predicate SelectedBy(s: State, t: Id, c: nat) {
    c < |s.cpus| && s.cpus[c].selected == t
  }

  predicate CurrentOn(s: State, t: Id, c: nat) {
    c < |s.cpus| && s.cpus[c].current == t
  }

  /** A running thread is current somewhere; a runnable one is queued or selected; a held lock has a holder. */
  ghost predicate ThreadOk(s: State, t: Id)
    requires t in s.threads
  {
    var th := s.threads[t];
    && (th.state.Running? ==> exists c :: CurrentOn(s, t, c))
    && (th.state.Runnable? ==> th.onRunqueue || exists c :: SelectedBy(s, t, c))
    && (th.onRunqueue ==> th.state.Runnable?)
    && (th.holder != FREE ==> 0 <= th.holder < |s.cpus| && s.cpus[th.holder].phase in {Locked(t), Leave(t), Back(t)})
  }

  ghost predicate PlaceInv(s: State) {
    && (forall c | 0 <= c < |s.cpus| :: CpuOk(s, c))
    && OnePlace(s)
    && (forall t | t in s.threads :: ThreadOk(s, t))
    && NONE !in s.threads && |s.cpus| > 0
  }

  predicate Awake(s: State, c: nat) {
    c < |s.cpus| && s.cpus[c].online && !s.cpus[c].idle
  }

  /** While there is work, some CPU that is up is not marked idle. */
  ghost predicate NoLostWork(s: State) {
    s.queue != [] ==> exists c :: Awake(s, c)
  }

  /** A thread that can run is at most the wake-up granularity behind the minimum. */
  ghost predicate Fair(s: State) {
    && s.clock < CLOCK_LIMIT
    && s.minVruntime <= U64_MAX
    && (forall t | t in s.threads :: s.threads[t].vruntime <= U64_MAX)
    && forall t | t in s.threads && Ready(s.threads[t]) :: Abreast(s, t)
  }

  predicate Ready(th: Thread) {
    th.state.Runnable? || th.state.Running?
  }

  predicate Abreast(s: State, t: Id)
    requires t in s.threads
  {
    s.threads[t].weight > 0 ==> s.minVruntime <= VruntimeNow(s.threads[t], s.clock) + WAKEUP_GRANULARITY
  }

  ghost predicate Inv(s: State) {
    QueueInv(s) && PlaceInv(s) && NoLostWork(s) && Fair(s)
  }

  // ----- The queue -----

  lemma {:induction false} SumFrame(m: map<Id, Thread>, k: map<Id, Thread>, q: seq<Id>)
    requires forall t | t in q :: t in m && t in k && m[t].weight == k[t].weight
    ensures WeightSum(m, q) == WeightSum(k, q)
    decreases q
  {
    if q != [] {
      assert q[0] in q && forall t | t in q[1..] :: t in q;
      SumFrame(m, k, q[1..]);
    }
  }

  lemma {:induction false} SumInsert(m: map<Id, Thread>, e: map<Id, Entity>, q: seq<Id>, t: Id)
    requires Known(e, q) && t in e && t in m
    ensures WeightSum(m, Insert(e, q, t)) == WeightSum(m, q) + m[t].weight
    decreases q
  {
    if q == [] || Precedes(e, t, q[0]) {
      assert ([t] + q)[1..] == q;
    } else {
      SumInsert(m, e, q[1..], t);
      assert ([q[0]] + Insert(e, q[1..], t))[1..] == Insert(e, q[1..], t);
    }
  }

  lemma {:induction false} SumRemove(m: map<Id, Thread>, q: seq<Id>, t: Id)
    requires t in q && t in m
    ensures WeightSum(m, q) == WeightSum(m, Remove(q, t)) + m[t].weight
    decreases q
  {
    if q[0] != t {
      SumRemove(m, q[1..], t);
      assert ([q[0]] + Remove(q[1..], t))[1..] == Remove(q[1..], t);
    }
  }

  lemma SortedFrame(e: map<Id, Entity>, f: map<Id, Entity>, q: seq<Id>)
    requires Sorted(e, q) && forall t | t in q && t in e :: t in f && f[t] == e[t]
    ensures Sorted(f, q)
  {
    forall i | 0 <= i < |q| ensures q[i] in f { assert q[i] in q; }
    forall i, j | 0 <= i < j < |q| ensures Precedes(f, q[i], q[j]) {
      assert q[i] in q && q[j] in q && Precedes(e, q[i], q[j]);
    }
  }

  lemma {:induction false} InsertFrame(e: map<Id, Entity>, f: map<Id, Entity>, q: seq<Id>, x: Id)
    requires Known(e, q) && x in e && x in f && f[x] == e[x] && forall t | t in q && t in e :: t in f && f[t] == e[t]
    ensures Known(f, q) && Insert(f, q, x) == Insert(e, q, x)
    decreases q
  {
    if q != [] {
      assert q[0] in q && forall t | t in q[1..] :: t in q;
      InsertFrame(e, f, q[1..], x);
      assert q == [q[0]] + q[1..];
    }
  }

  predicate SameEntity(a: Thread, b: Thread) {
    a.vruntime == b.vruntime && a.tid == b.tid && a.weight == b.weight && a.onRunqueue == b.onRunqueue
  }

  /** Nothing the queue depends on has changed. */
  lemma QueueFrame(s: State, s': State)
    requires QueueInv(s) && s'.queue == s.queue && s'.count == s.count && s'.totalWeight == s.totalWeight
    requires Weighted(s'.threads) && NONE !in s'.threads
    requires forall t | t in s.queue && t in s.threads :: t in s'.threads && SameEntity(s.threads[t], s'.threads[t])
    requires forall t | t in s'.threads && t !in s.queue :: !s'.threads[t].onRunqueue
    ensures QueueInv(s')
  {
    forall i | 0 <= i < |s.queue| ensures s'.queue[i] in s'.threads { assert s.queue[i] in s.queue; }
    SortedFrame(Entities(s.threads), Entities(s'.threads), s.queue);
    SumFrame(s.threads, s'.threads, s.queue);
  }

  /** One thread has changed, and nothing that the queue depends on. */
  lemma QueueStep(s: State, s': State, t: Id)
    requires QueueInv(s) && s'.queue == s.queue && s'.count == s.count && s'.totalWeight == s.totalWeight
    requires t in s.threads && t in s'.threads && s'.threads == s.threads[t := s'.threads[t]] && SameEntity(s.threads[t], s'.threads[t])
    ensures QueueInv(s')
  {
    assert forall u | u in s.threads && u !in s.queue :: !s.threads[u].onRunqueue;
    hide Sorted, WeightSum, Entities;
    QueueFrame(s, s');
  }

  lemma MarkKeepsEntities(m: map<Id, Thread>, t: Id, on: bool)
    requires t in m
    ensures Entities(m[t := m[t].(onRunqueue := on)]) == Entities(m)
  {}

  lemma MarkKeepsSum(m: map<Id, Thread>, t: Id, on: bool, q: seq<Id>)
    requires t in m && forall u | u in q :: u in m
    ensures WeightSum(m[t := m[t].(onRunqueue := on)], q) == WeightSum(m, q)
  {
    SumFrame(m, m[t := m[t].(onRunqueue := on)], q);
  }

  lemma InKnown(q: seq<Id>, m: map<Id, Thread>)
    requires forall u | u in q :: u in m
    ensures forall i | 0 <= i < |q| :: q[i] in m
  {}

  lemma InsertBooked(m: map<Id, Thread>, queue: seq<Id>, t: Id)
    requires Sorted(Entities(m), queue) && t in m && t !in queue && forall i | 0 <= i < |queue| :: queue[i] in m
    ensures var q, k := Insert(Entities(m), queue, t), m[t := m[t].(onRunqueue := true)];
      && Sorted(Entities(k), q) && WeightSum(k, q) == WeightSum(m, queue) + m[t].weight && |q| == |queue| + 1
      && (forall u :: u in q <==> u == t || u in queue) && forall i | 0 <= i < |q| :: q[i] in k
  {
    var e := Entities(m);
    InsertSorted(e, queue, t);
    SumInsert(m, e, queue, t);
    hide Sorted;
    hide Insert;
    hide WeightSum;
    var q := Insert(e, queue, t);
    assert forall u | u in q :: u in m;
    MarkKeepsEntities(m, t, true);
    MarkKeepsSum(m, t, true, q);
    InKnown(q, m[t := m[t].(onRunqueue := true)]);
  }

  lemma EnqueueKeepsQueue(s: State, t: Id)
    requires QueueInv(s) && t in s.threads && !s.threads[t].onRunqueue
    ensures QueueInv(EnqueueEntity(s, t)) && forall u :: u in EnqueueEntity(s, t).queue <==> u == t || u in s.queue
  {
    hide Sorted, Insert, WeightSum, Entities;
    InsertBooked(s.threads, s.queue, t);
  }

  lemma DequeueKeepsQueue(s: State, t: Id)
    requires QueueInv(s) && t in s.threads && s.threads[t].onRunqueue
    ensures var d := DequeueEntity(s, t); d.Ok? && QueueInv(d.state) && forall u :: u in d.state.queue <==> u != t && u in s.queue
  {
    hide Sorted, Remove, WeightSum, Entities;
    var q := Remove(s.queue, t);
    RemoveSorted(Entities(s.threads), s.queue, t);
    SumRemove(s.threads, s.queue, t);
    assert forall u | u in q :: u in s.threads;
    MarkKeepsEntities(s.threads, t, false);
    MarkKeepsSum(s.threads, t, false, q);
    InKnown(q, s.threads[t := s.threads[t].(onRunqueue := false)]);
  }

  // ----- The places -----

  predicate SameRefs(a: Cpu, b: Cpu) {
    a.current == b.current && a.selected == b.selected && a.phase == b.phase && (b.idle ==> a.idle)
  }

  predicate SamePlace(a: Thread, b: Thread) {
    a.state == b.state && a.onRunqueue == b.onRunqueue && a.holder == b.holder
  }

  /** The CPU refers to no thread but `t`. */
  predicate OnlyRefs(cpu: Cpu, t: Id) {
    cpu.current in {NONE, t} && cpu.selected in {NONE, t} && (!cpu.phase.Pick? ==> cpu.phase.next == t)
  }

  predicate Refers(cpu: Cpu, t: Id) {
    t != NONE && (cpu.current == t || cpu.selected == t || (!cpu.phase.Pick? && cpu.phase.next == t))
  }

  /** A step that moves only thread `t`, and only CPU `c`. */
  predicate Moves(s: State, s': State, t: Id, c: nat) {
    && |s'.cpus| == |s.cpus| && c < |s.cpus|
    && (forall d | 0 <= d < |s.cpus| && d != c :: SameRefs(s.cpus[d], s'.cpus[d]))
    && (forall u | u in s.threads && u != t :: u in s'.threads && SamePlace(s.threads[u], s'.threads[u]))
    && (forall u | u in s'.threads && u != t :: u in s.threads)
    && (SameRefs(s.cpus[c], s'.cpus[c]) || OnlyRefs(s.cpus[c], t))
    && NONE !in s'.threads
  }

  lemma PlaceStep(s: State, s': State, t: Id, c: nat)
    requires PlaceInv(s) && Moves(s, s', t, c)
    requires CpuOk(s', c) && (t in s'.threads ==> ThreadOk(s', t))
    requires forall d | 0 <= d < |s.cpus| && d != c && Refers(s.cpus[d], t) :: CpuOk(s', d)
    requires forall d | 0 <= d < |s.cpus| && d != c ::
      && (s'.cpus[c].current != NONE ==> s'.cpus[c].current != s.cpus[d].current)
      && (s'.cpus[c].selected != NONE ==> s'.cpus[c].selected != s.cpus[d].selected)
    ensures PlaceInv(s')
  {
    forall d | 0 <= d < |s'.cpus| ensures CpuOk(s', d) {
      assert CpuOk(s, d);
      if d != c && !Refers(s.cpus[d], t) { assert SameRefs(s.cpus[d], s'.cpus[d]); }
    }
    OthersStay(s, s', t, c);
  }

  lemma OthersStay(s: State, s': State, t: Id, c: nat)
    requires PlaceInv(s) && Moves(s, s', t, c) && (t in s'.threads ==> ThreadOk(s', t))
    ensures forall u | u in s'.threads :: ThreadOk(s', u)
  {
    forall u | u in s'.threads && u != t ensures ThreadOk(s', u) {
      assert ThreadOk(s, u) && SamePlace(s.threads[u], s'.threads[u]) && u != NONE;
      if s.threads[u].state.Running? {
        var d :| CurrentOn(s, u, d);
        assert CurrentOn(s', u, d);
      }
      if s.threads[u].state.Runnable? && !s.threads[u].onRunqueue {
        var d :| SelectedBy(s, u, d);
        assert SelectedBy(s', u, d);
      }
      var h := s.threads[u].holder;
      if h != FREE {
        assert s.cpus[h].phase.next == u;
        assert s'.cpus[h].phase == s.cpus[h].phase;
      }
    }
  }

  // ----- The minimum -----

  /** Every thread that can run is where update_min_vruntime_locked looks. */
  ghost predicate Covered(s: State, selected: Id) {
    forall t | t in s.threads && Ready(s.threads[t]) ::
      || t == selected || t in s.queue || (exists c :: SelectedBy(s, t, c))
      || (s.threads[t].state.Running? && exists c :: CurrentOn(s, t, c))
  }

  lemma {:induction false} CpusMinimumLow(s: State, selected: Id, now: nat, c: nat, m: nat, d: nat)
    requires c <= |s.cpus| && Weighted(s.threads) && m <= U64_MAX
    ensures CpusMinimum(s, selected, now, c, m) <= m
    ensures d < c ==> CpusMinimum(s, selected, now, c, m) <= CpuMinimum(s, selected, now, d, U64_MAX)
    decreases c
  {
    if c > 0 {
      CpusMinimumLow(s, selected, now, c - 1, m, d);
    }
  }

  /** The minimum never falls, and when it rises it stays at or below every thread that can run. */
  lemma MinimumBounds(s: State, selected: Id, now: nat, t: Id)
    requires QueueInv(s) && Covered(s, selected) && NONE !in s.threads && now < CLOCK_LIMIT
    requires t in s.threads && Ready(s.threads[t]) && forall u | u in s.threads :: s.threads[u].vruntime <= U64_MAX
    ensures s.minVruntime <= UpdatedMin(s, selected, now)
    ensures UpdatedMin(s, selected, now) == s.minVruntime || UpdatedMin(s, selected, now) <= VruntimeNow(s.threads[t], now)
  {
    var m, n := QueueMinimum(s, selected), |s.cpus|;
    assert s.queue != [] ==> s.queue[0] in s.threads;
    CpusMinimumLow(s, selected, now, n, m, 0);
    VruntimeMonotone(s.threads[t], now, now);
    if t == selected {
    } else if t in s.queue {
      QueueFirst(s, t);
    } else if exists c :: SelectedBy(s, t, c) {
      var c :| SelectedBy(s, t, c);
      CpusMinimumLow(s, selected, now, n, m, c);
    } else {
      var c :| CurrentOn(s, t, c);
      CpusMinimumLow(s, selected, now, n, m, c);
    }
  }

  lemma QueueFirst(s: State, t: Id)
    requires QueueInv(s) && t in s.queue
    ensures s.queue != [] && s.threads[s.queue[0]].vruntime <= s.threads[t].vruntime
  {
    var i :| 0 <= i < |s.queue| && s.queue[i] == t;
    if i > 0 { assert Precedes(Entities(s.threads), s.queue[0], s.queue[i]); }
  }

  /** Fairness after the minimum has been brought up to date at `now`. */
  lemma UpdateMinFair(s: State, selected: Id, now: nat)
    requires QueueInv(s) && Covered(s, selected) && Fair(s) && s.clock <= now < CLOCK_LIMIT
    ensures Fair(UpdateMin(s, selected, now).(clock := now))
    ensures s.minVruntime <= UpdatedMin(s, selected, now)
  {
    var s' := UpdateMin(s, selected, now).(clock := now);
    UpdatedSmall(s, selected, now);
    forall t | t in s'.threads && Ready(s'.threads[t]) ensures Abreast(s', t) {
      MinimumBounds(s, selected, now, t);
      assert Abreast(s, t);
      VruntimeMonotone(s.threads[t], s.clock, now);
    }
  }

  lemma UpdatedSmall(s: State, selected: Id, now: nat)
    requires QueueInv(s) && s.minVruntime <= U64_MAX && forall t | t in s.threads :: s.threads[t].vruntime <= U64_MAX
    ensures s.minVruntime <= UpdatedMin(s, selected, now) <= U64_MAX
  {
    assert s.queue != [] ==> s.queue[0] in s.threads;
    CpusMinimumLow(s, selected, now, |s.cpus|, QueueMinimum(s, selected), 0);
  }

  /** Charging a running thread does not change its virtual runtime as seen at that moment. */
  lemma AccountNow(th: Thread, now: nat)
    requires MIN_WEIGHT <= th.weight && now < CLOCK_LIMIT && th.vruntime <= U64_MAX && th.state.Running?
    ensures var a := Account(th, now);
      VruntimeNow(a, now) == a.vruntime == VruntimeNow(th, now) && a.vruntime <= U64_MAX && a.weight == th.weight
  {}

  predicate SameSpeed(a: Thread, b: Thread) {
    a.vruntime == b.vruntime && a.state == b.state && a.execStart == b.execStart && a.weight == b.weight
  }

  /** Only thread `t` has changed, and it still keeps up. */
  lemma FairFrame(s: State, s': State, t: Id)
    requires Fair(s) && s'.clock == s.clock && s'.minVruntime == s.minVruntime
    requires forall u | u in s'.threads && u != t :: u in s.threads && SameSpeed(s.threads[u], s'.threads[u])
    requires t in s'.threads ==> s'.threads[t].vruntime <= U64_MAX && (Ready(s'.threads[t]) ==> Abreast(s', t))
    ensures Fair(s')
  {
    forall u | u in s'.threads && Ready(s'.threads[u]) ensures Abreast(s', u) {
      if u != t { assert Abreast(s, u); }
    }
  }

  lemma KeepsUp(s: State, t: Id)
    requires Fair(s) && t in s.threads
    ensures s.threads[t].vruntime <= U64_MAX && (Ready(s.threads[t]) ==> Abreast(s, t))
  {}

  /** The clock moves on. */
  lemma FairLater(s: State, now: nat)
    requires Fair(s) && Weighted(s.threads) && s.clock <= now < CLOCK_LIMIT
    ensures Fair(s.(clock := now))
  {
    forall u | u in s.threads && Ready(s.threads[u]) ensures Abreast(s.(clock := now), u) {
      assert Abreast(s, u);
      VruntimeMonotone(s.threads[u], s.clock, now);
    }
  }

  lemma CoveredBy(s: State)
    requires PlaceInv(s) && QueueInv(s)
    ensures Covered(s, NONE)
  {
    forall t | t in s.threads && Ready(s.threads[t])
      ensures t in s.queue || (exists c :: SelectedBy(s, t, c)) || (s.threads[t].state.Running? && exists c :: CurrentOn(s, t, c))
    {
      assert ThreadOk(s, t);
    }
  }

  /** Dequeuing a thread or charging it leaves the others where they were. */
  lemma CoveredStill(s: State, s': State, t: Id)
    requires Covered(s, NONE) && NONE !in s.threads && |s'.cpus| == |s.cpus|
    requires forall d | 0 <= d < |s.cpus| :: s'.cpus[d].current == s.cpus[d].current && s'.cpus[d].selected == s.cpus[d].selected
    requires forall u | u in s'.threads && u != t :: u in s.threads && s'.threads[u].state == s.threads[u].state
    requires forall u | u in s.queue && u != t :: u in s'.queue
    ensures Covered(s', t)
  {
    forall u | u in s'.threads && Ready(s'.threads[u]) && u != t
      ensures u in s'.queue || (exists d :: SelectedBy(s', u, d)) || (s'.threads[u].state.Running? && exists d :: CurrentOn(s', u, d))
    {
      forall d | SelectedBy(s, u, d) ensures SelectedBy(s', u, d) {}
      forall d | CurrentOn(s, u, d) ensures CurrentOn(s', u, d) {}
    }
  }

  // ----- The short steps -----

  lemma DispatchPlace(s: State, c: nat, now: nat)
    requires PlaceInv(s) && Enabled(s, DoDispatch(c, now))
    ensures var o := Dispatch(s, c, now); o.Ok? && PlaceInv(o.state) && s.cpus[c].phase.next in s.threads && !s.cpus[c].idle
  {
    assert CpuOk(s, c);
    var t := s.cpus[c].phase.next;
    var s' := Dispatch(s, c, now).state;
    forall d | 0 <= d < |s.cpus| && d != c ensures CpuOk(s, d) && !Refers(s.cpus[d], t) {
      assert CpuOk(s, d);
    }
    assert CurrentOn(s', t, c);
    PlaceStep(s, s', t, c);
  }

  lemma DispatchKeeps(s: State, c: nat, now: nat)
    requires Inv(s) && Enabled(s, DoDispatch(c, now))
    ensures var o := Dispatch(s, c, now); o.Ok? && Inv(o.state) && o.state.minVruntime == s.minVruntime
  {
    hide PlaceInv, QueueInv, Fair;
    DispatchPlace(s, c, now);
    var t, s' := s.cpus[c].phase.next, Dispatch(s, c, now).state;
    QueueStep(s, s', t);
    StillWeighted(s);
    FairLater(s, now);
    KeepsUp(s, t);
    FairFrame(s.(clock := now), s', t);
    assert Awake(s', c);
  }

  lemma StillWeighted(s: State)
    requires QueueInv(s)
    ensures Sound(s)
  {}

  lemma UnlockPlace(s: State, c: nat)
    requires PlaceInv(s) && Enabled(s, DoUnlock(c))
    ensures var o := Unlock(s, c); o.Ok? && PlaceInv(o.state) && s.cpus[c].current in s.threads && !s.cpus[c].idle
  {
    OwnThread(s, c);
    var t, s' := s.cpus[c].current, Unlock(s, c).state;
    assert CurrentOn(s', t, c);
    PlaceStep(s, s', t, c);
  }

  lemma UnlockKeeps(s: State, c: nat)
    requires Inv(s) && Enabled(s, DoUnlock(c))
    ensures var o := Unlock(s, c); o.Ok? && Inv(o.state) && o.state.minVruntime == s.minVruntime
  {
    hide PlaceInv, QueueInv, Fair;
    UnlockPlace(s, c);
    var t, s' := s.cpus[c].current, Unlock(s, c).state;
    QueueStep(s, s', t);
    KeepsUp(s, t);
    FairFrame(s, s', t);
    assert Awake(s', c);
  }

  lemma LockPlace(s: State, c: nat)
    requires PlaceInv(s) && Enabled(s, DoLock(c))
    ensures var o := Lock(s, c); o.Ok? && PlaceInv(o.state) && s.cpus[c].current in s.threads && !s.cpus[c].idle
  {
    OwnThread(s, c);
    var t, s' := s.cpus[c].current, Lock(s, c).state;
    assert CurrentOn(s', t, c);
    PlaceStep(s, s', t, c);
  }

  lemma LockKeeps(s: State, c: nat)
    requires Inv(s) && Enabled(s, DoLock(c))
    ensures var o := Lock(s, c); o.Ok? && Inv(o.state) && o.state.minVruntime == s.minVruntime
  {
    hide PlaceInv, QueueInv, Fair;
    LockPlace(s, c);
    var t, s' := s.cpus[c].current, Lock(s, c).state;
    QueueStep(s, s', t);
    KeepsUp(s, t);
    FairFrame(s, s', t);
    assert Awake(s', c);
  }

  /** No other CPU refers to the thread a CPU runs. */
  lemma OwnThread(s: State, c: nat)
    requires PlaceInv(s) && c < |s.cpus| && (s.cpus[c].phase.Locked? || s.cpus[c].phase.Run?)
    ensures CpuOk(s, c) && s.cpus[c].current in s.threads && s.cpus[c].current != NONE
    ensures forall d | 0 <= d < |s.cpus| && d != c :: !Refers(s.cpus[d], s.cpus[c].current)
  {
    assert CpuOk(s, c);
    forall d | 0 <= d < |s.cpus| && d != c ensures !Refers(s.cpus[d], s.cpus[c].current) {
      assert CpuOk(s, d);
    }
  }

  lemma SwitchBackKeeps(s: State, c: nat)
    requires Inv(s) && Enabled(s, DoSwitchBack(c))
    ensures var o := SwitchBack(s, c); o.Ok? && Inv(o.state) && o.state.minVruntime == s.minVruntime
  {
    assert CpuOk(s, c);
    var t, s' := s.cpus[c].current, SwitchBack(s, c).state;
    forall d | 0 <= d < |s.cpus| && d != c && Refers(s.cpus[d], t) ensures CpuOk(s', d) {
      assert CpuOk(s, d);
    }
    assert ThreadOk(s, t);
    StillSelected(s, s', t, c);
    PlaceStep(s, s', t, c);
    QueueFrame(s, s');
    FairFrame(s, s', NONE);
    assert Awake(s', c);
  }

  /** A thread some other CPU has selected is still selected. */
  lemma StillSelected(s: State, s': State, t: Id, c: nat)
    requires PlaceInv(s) && c < |s.cpus| == |s'.cpus| && t in s.threads && s.cpus[c].selected == NONE
    requires forall d | 0 <= d < |s.cpus| && d != c :: SameRefs(s.cpus[d], s'.cpus[d])
    ensures s.threads[t].state.Runnable? && !s.threads[t].onRunqueue ==> exists d :: SelectedBy(s', t, d)
  {
    if s.threads[t].state.Runnable? && !s.threads[t].onRunqueue {
      assert ThreadOk(s, t);
      var d :| SelectedBy(s, t, d);
      assert SelectedBy(s', t, d);
    }
  }

  lemma FinishPlace(s: State, c: nat, reap: bool)
    requires PlaceInv(s) && Enabled(s, DoFinish(c, reap))
    ensures var o := Finish(s, c, reap); o.Ok? && PlaceInv(o.state)
  {
    assert CpuOk(s, c);
    var t, s' := s.cpus[c].phase.next, Finish(s, c, reap).state;
    assert ThreadOk(s, t);
    forall d | 0 <= d < |s.cpus| && d != c && Refers(s.cpus[d], t) ensures CpuOk(s', d) {
      assert CpuOk(s, d);
    }
    StillSelected(s, s', t, c);
    PlaceStep(s, s', t, c);
  }

  lemma FinishKeeps(s: State, c: nat, reap: bool)
    requires Inv(s) && Enabled(s, DoFinish(c, reap))
    ensures var o := Finish(s, c, reap); o.Ok? && Inv(o.state) && o.state.minVruntime == s.minVruntime
  {
    FinishPlace(s, c, reap);
    assert CpuOk(s, c);
    var t, s' := s.cpus[c].phase.next, Finish(s, c, reap).state;
    assert ThreadOk(s, t);
    hide PlaceInv;
    QueueFrame(s, s');
    assert Ready(s.threads[t]) ==> Abreast(s, t);
    FairFrame(s, s', t);
    assert Awake(s', c);
  }

  lemma SpawnPlace(s: State, t: Id, tid: int)
    requires PlaceInv(s) && Enabled(s, DoSpawn(t, tid))
    ensures PlaceInv(Spawn(s, t, tid))
  {
    var s' := Spawn(s, t, tid);
    forall d | 0 <= d < |s.cpus| ensures CpuOk(s', d) && !Refers(s.cpus[d], t) { assert CpuOk(s, d); }
    PlaceStep(s, s', t, 0);
  }

  lemma SpawnKeeps(s: State, t: Id, tid: int)
    requires Inv(s) && Enabled(s, DoSpawn(t, tid))
    ensures Inv(Spawn(s, t, tid))
  {
    SpawnPlace(s, t, tid);
    var s' := Spawn(s, t, tid);
    hide PlaceInv;
    assert forall u | u in s.queue :: u in s.threads;
    QueueFrame(s, s');
    FairFrame(s, s', t);
    forall d | Awake(s, d) ensures Awake(s', d) {}
  }

  /** A CPU that comes up starts out awake. */
  lemma OnlineKeeps(s: State, c: nat)
    requires Inv(s) && Enabled(s, DoOnline(c))
    ensures Inv(SetCpu(s, c, s.cpus[c].(online := true, idle := false)))
  {
    hide Fair, QueueInv;
    var s' := SetCpu(s, c, s.cpus[c].(online := true, idle := false));
    CpusOnly(s, s');
    assert CpuOk(s, c);
    PlaceFrame(s, s');
    assert Awake(s', c);
  }

  lemma CpusOnly(s: State, s': State)
    requires QueueInv(s) && Fair(s) && s' == s.(cpus := s'.cpus)
    ensures QueueInv(s') && Fair(s')
  {
    QueueFrame(s, s');
    FairFrame(s, s', NONE);
  }

  lemma InheritPlace(s: State, child: Id, parent: Id, now: nat)
    requires PlaceInv(s) && Sound(s) && Enabled(s, DoInherit(child, parent, now))
    ensures var o := Inherit(s, child, parent, now); o.Ok? && PlaceInv(o.state)
  {
    assert ThreadOk(s, child);
    var s' := Inherit(s, child, parent, now).state;
    forall d | 0 <= d < |s.cpus| ensures CpuOk(s', d) { assert CpuOk(s, d); }
    PlaceStep(s, s', child, 0);
  }

  lemma InheritKeeps(s: State, child: Id, parent: Id, now: nat)
    requires Inv(s) && Enabled(s, DoInherit(child, parent, now))
    ensures var o := Inherit(s, child, parent, now); o.Ok? && Inv(o.state) && o.state.minVruntime == s.minVruntime
  {
    InheritPlace(s, child, parent, now);
    hide PlaceInv;
    var s' := Inherit(s, child, parent, now).state;
    VruntimeMonotone(s.threads[parent], now, now);
    QueueFrame(s, s');
    FairLater(s, now);
    FairFrame(s.(clock := now), s', child);
    forall d | Awake(s, d) ensures Awake(s', d) {}
  }

  /** Every thread and every CPU is where it was. */
  lemma PlaceFrame(s: State, s': State)
    requires PlaceInv(s) && |s'.cpus| == |s.cpus| && NONE !in s'.threads
    requires forall d | 0 <= d < |s.cpus| :: SameRefs(s.cpus[d], s'.cpus[d])
    requires forall u | u in s.threads :: u in s'.threads && SamePlace(s.threads[u], s'.threads[u])
    requires forall u | u in s'.threads :: u in s.threads
    ensures PlaceInv(s')
  {
    assert CpuOk(s, 0);
    PlaceStep(s, s', NONE, 0);
  }

  // ----- scheduler_next -----

  lemma NextPlace(s: State, c: nat, now: nat)
    requires PlaceInv(s) && QueueInv(s) && Enabled(s, DoNext(c, now)) && Next(s, c, now).Ok?
    ensures PlaceInv(Next(s, c, now).state)
  {
    hide UpdatedMin;
    hide Remove;
    assert CpuOk(s, c);
    var s' := Next(s, c, now).state;
    if s.queue == [] {
      PlaceStep(s, s', NONE, c);
    } else {
      var t := s.queue[0];
      assert t in s.queue;
      forall d | 0 <= d < |s.cpus| && d != c ensures s.cpus[d].selected != t {
        assert CpuOk(s, d);
      }
      forall d | 0 <= d < |s.cpus| && d != c && Refers(s.cpus[d], t) ensures CpuOk(s', d) {
        assert CpuOk(s, d);
      }
      assert ThreadOk(s, t);
      assert SelectedBy(s', t, c);
      PlaceStep(s, s', t, c);
    }
  }

  lemma NextQueue(s: State, c: nat, now: nat)
    requires Inv(s) && Enabled(s, DoNext(c, now)) && s.queue != []
    ensures var s0, t := SetCpu(s, c, s.cpus[c].(idle := false)).(clock := now), s.queue[0];
      && t in s.threads && DequeueEntity(s0, t).Ok? && QueueInv(DequeueEntity(s0, t).state)
      && Fair(DequeueEntity(s0, t).state) && Covered(DequeueEntity(s0, t).state, t)
  {
    hide PlaceInv, QueueInv, Fair, Covered, Remove;
    StillWeighted(s);
    var s0, t := SetCpu(s, c, s.cpus[c].(idle := false)).(clock := now), s.queue[0];
    FirstQueued(s);
    QueueStep(s, s0, t);
    DequeueKeepsQueue(s0, t);
    var s1 := DequeueEntity(s0, t).state;
    FairLater(s, now);
    KeepsUp(s.(clock := now), t);
    FairFrame(s.(clock := now), s0, NONE);
    FairFrame(s0, s1, t);
    CoveredBy(s);
    CoveredStill(s, s1, t);
  }

  lemma FirstQueued(s: State)
    requires QueueInv(s)
    ensures s.queue != [] ==> s.queue[0] != NONE && s.queue[0] in s.threads && s.threads[s.queue[0]].onRunqueue
  {
    if s.queue != [] { assert s.queue[0] in s.queue; }
  }

  lemma NextKeeps(s: State, c: nat, now: nat)
    requires Inv(s) && Enabled(s, DoNext(c, now))
    ensures var o := Next(s, c, now); o.Ok? && Inv(o.state) && s.minVruntime <= o.state.minVruntime
  {
    assert CpuOk(s, c);
    if s.queue == [] {
      var s' := Next(s, c, now).state;
      NextPlace(s, c, now);
      hide PlaceInv;
      QueueFrame(s, s');
      FairLater(s, now);
      FairFrame(s.(clock := now), s', NONE);
    } else {
      NextQueue(s, c, now);
      NextPlace(s, c, now);
      hide PlaceInv;
      var s0, t := SetCpu(s, c, s.cpus[c].(idle := false)).(clock := now), s.queue[0];
      var s1 := DequeueEntity(s0, t).state;
      UpdateMinFair(s1, t, now);
      var s2, s' := UpdateMin(s1, t, now), Next(s, c, now).state;
      hide UpdatedMin;
      QueueFrame(s1, s');
      assert s2 == s2.(clock := now);
      FairFrame(s2, s', NONE);
      assert Awake(s', c);
    }
  }

  // ----- scheduler_enqueue -----

  predicate CanEnqueue(s: State, t: Id) {
    t in s.threads && !s.threads[t].onRunqueue && s.threads[t].state in {Allocated, Running, Sleeping}
  }

  /** Charging a running thread keeps the queue and fairness. */
  lemma AccountKeeps(s: State, t: Id, now: nat)
    requires Inv(s) && Is(s, t, Running) && !s.threads[t].onRunqueue && Later(s, now)
    ensures var s1 := SetThread(s, t, Account(s.threads[t], now));
      QueueInv(s1) && Fair(s1) && Covered(s1, t) && Sound(s1)
  {
    var s1 := SetThread(s, t, Account(s.threads[t], now));
    AccountNow(s.threads[t], now);
    VruntimeMonotone(s.threads[t], s.clock, now);
    assert Abreast(s, t);
    QueueFrame(s, s1);
    FairFrame(s, s1, t);
    CoveredBy(s);
    CoveredStill(s, s1, t);
  }

  lemma PrepareRunning(s: State, t: Id, now: nat)
    requires Inv(s) && CanEnqueue(s, t) && Later(s, now) && s.threads[t].state.Running?
    ensures QueueInv(Prepare(s, t, now)) && Fair(Prepare(s, t, now)) && s.minVruntime <= Prepare(s, t, now).minVruntime
  {
    hide PlaceInv, QueueInv, Fair, UpdatedMin;
    StillWeighted(s);
    Charge(s, t, now);
    var s1 := SetThread(s, t, Account(s.threads[t], now));
    var s2, s' := UpdateMin(s1, t, now).(clock := now), Prepare(s, t, now);
    QueueStep(s1, s', t);
    KeepsUp(s2, t);
    FairFrame(s2, s', t);
  }

  /** Charging a running thread and bringing the minimum up to date. */
  lemma Charge(s: State, t: Id, now: nat)
    requires Inv(s) && Is(s, t, Running) && !s.threads[t].onRunqueue && Later(s, now)
    ensures Sound(s)
    ensures var s1 := SetThread(s, t, Account(s.threads[t], now));
      && QueueInv(s1) && Sound(s1) && s1.threads[t].execStart == now && s1.threads[t].state.Running? && !s1.threads[t].onRunqueue
      && Fair(UpdateMin(s1, t, now).(clock := now)) && s.minVruntime <= UpdatedMin(s1, t, now)
      && VruntimeNow(s1.threads[t], now) == s1.threads[t].vruntime
  {
    hide PlaceInv, UpdatedMin, Covered, Sorted, WeightSum;
    AccountKeeps(s, t, now);
    KeepsUp(s, t);
    AccountNow(s.threads[t], now);
    UpdateMinFair(SetThread(s, t, Account(s.threads[t], now)), t, now);
  }

  lemma PrepareOther(s: State, t: Id, now: nat)
    requires Inv(s) && CanEnqueue(s, t) && Later(s, now) && !s.threads[t].state.Running?
    ensures QueueInv(Prepare(s, t, now)) && Fair(Prepare(s, t, now)) && s.minVruntime <= Prepare(s, t, now).minVruntime
  {
    CoveredBy(s);
    hide PlaceInv;
    UpdateMinFair(s, NONE, now);
    hide UpdatedMin;
    var s2, s' := UpdateMin(s, NONE, now).(clock := now), Prepare(s, t, now);
    QueueFrame(s, s');
    FairFrame(s2, s', t);
  }

  lemma EnqueuedKeeps(s: State, t: Id)
    requires QueueInv(s) && Fair(s) && t in s.threads && !s.threads[t].onRunqueue
    ensures QueueInv(EnqueueEntity(s, t)) && Fair(EnqueueEntity(s, t))
  {
    EnqueueKeepsQueue(s, t);
    assert Ready(s.threads[t]) ==> Abreast(s, t);
    FairFrame(s, EnqueueEntity(s, t), t);
  }

  /** scheduler_enqueue keeps the books and fairness, and does not touch the CPUs except to wake one. */
  lemma EnqueueBooks(s: State, me: nat, t: Id, wakeIdle: bool, now: nat)
    requires Inv(s) && CanEnqueue(s, t) && Later(s, now) && me < |s.cpus|
    ensures var o := Enqueue(s, me, t, wakeIdle, now);
      o.Ok? && QueueInv(o.state) && Fair(o.state) && s.minVruntime <= o.state.minVruntime
  {
    if s.threads[t].state.Running? { PrepareRunning(s, t, now); } else { PrepareOther(s, t, now); }
    hide PlaceInv;
    var s1 := Prepare(s, t, now);
    EnqueuedKeeps(s1, t);
    hide Prepare;
    var s2, s' := EnqueueEntity(s1, t), Enqueue(s, me, t, wakeIdle, now).state;
    QueueFrame(s2, s');
    FairFrame(s2, s', NONE);
  }

  lemma EnqueuePlaces(s: State, me: nat, t: Id, wakeIdle: bool, now: nat)
    requires Sound(s) && CanEnqueue(s, t) && me < |s.cpus|
    ensures var o := Enqueue(s, me, t, wakeIdle, now);
      && o.Ok? && |o.state.cpus| == |s.cpus| && t in o.state.threads && o.state.threads.Keys == s.threads.Keys
      && (forall u | u in s.threads && u != t :: o.state.threads[u] == s.threads[u])
      && o.state.threads[t].state == Runnable && o.state.threads[t].onRunqueue && o.state.threads[t].holder == s.threads[t].holder
      && (forall d | 0 <= d < |s.cpus| :: SameRefs(s.cpus[d], o.state.cpus[d]))
      && (!wakeIdle ==> o.state.cpus == s.cpus)
      && (wakeIdle ==> !o.state.cpus[me].idle) && o.state.cpus[me].online == s.cpus[me].online
  {
    hide UpdatedMin;
    hide Insert;
  }

  lemma WakePlace(s: State, c: nat, t: Id, now: nat)
    requires PlaceInv(s) && Sound(s) && Enabled(s, DoWake(c, t, now))
    ensures CanEnqueue(s, t) && PlaceInv(Enqueue(s, c, t, true, now).state) && Awake(Enqueue(s, c, t, true, now).state, c)
  {
    hide Enqueue;
    assert ThreadOk(s, t);
    EnqueuePlaces(s, c, t, true, now);
    var s' := Enqueue(s, c, t, true, now).state;
    forall d | 0 <= d < |s.cpus| ensures !Refers(s.cpus[d], t) && CpuOk(s', d) { assert CpuOk(s, d); }
    PlaceStep(s, s', t, c);
  }

  lemma WakeKeeps(s: State, c: nat, t: Id, now: nat)
    requires Inv(s) && Enabled(s, DoWake(c, t, now))
    ensures var o := Enqueue(s, c, t, true, now); o.Ok? && Inv(o.state) && s.minVruntime <= o.state.minVruntime
  {
    WakePlace(s, c, t, now);
    hide PlaceInv;
    EnqueueBooks(s, c, t, true, now);
    hide Enqueue;
  }

  lemma YieldPlace(s: State, c: nat, now: nat)
    requires PlaceInv(s) && Sound(s) && Enabled(s, DoYield(c, now))
    ensures s.cpus[c].current in s.threads && CanEnqueue(s, s.cpus[c].current)
    ensures var o := Yield(s, c, now); o.Ok? && PlaceInv(o.state) && Awake(o.state, c)
  {
    OwnThread(s, c);
    var t := s.cpus[c].current;
    assert ThreadOk(s, t);
    EnqueuePlaces(s, c, t, false, now);
    var s' := Yield(s, c, now).state;
    hide Enqueue;
    PlaceStep(s, s', t, c);
  }

  lemma YieldKeeps(s: State, c: nat, now: nat)
    requires Inv(s) && Enabled(s, DoYield(c, now))
    ensures var o := Yield(s, c, now); o.Ok? && Inv(o.state) && s.minVruntime <= o.state.minVruntime
  {
    YieldPlace(s, c, now);
    hide PlaceInv;
    EnqueueBooks(s, c, s.cpus[c].current, false, now);
    var s1, s' := Enqueue(s, c, s.cpus[c].current, false, now).state, Yield(s, c, now).state;
    hide Enqueue;
    QueueFrame(s1, s');
    FairFrame(s1, s', NONE);
  }

  // ----- scheduler_block_current and scheduler_exit_locked -----

  lemma StopBooks(s: State, c: nat, state: ThreadState, now: nat)
    requires Inv(s) && Enabled(s, DoBlock(c, now)) && (state == Sleeping || state == Exited)
    ensures var o := Stop(s, c, state, now);
      o.Ok? && QueueInv(o.state) && Fair(o.state) && s.minVruntime <= o.state.minVruntime
  {
    hide PlaceInv, QueueInv, Fair, UpdatedMin;
    StillWeighted(s);
    OwnRunning(s, c);
    var t := s.cpus[c].current;
    Charge(s, t, now);
    var s1 := SetThread(s, t, Account(s.threads[t], now));
    var s2, s' := UpdateMin(s1, t, now).(clock := now), Stop(s, c, state, now).state;
    QueueStep(s1, s', t);
    KeepsUp(s2, t);
    FairFrame(s2, s', t);
  }

  lemma OwnRunning(s: State, c: nat)
    requires PlaceInv(s) && c < |s.cpus| && (s.cpus[c].phase.Locked? || s.cpus[c].phase.Run?)
    ensures CpuOk(s, c) && Is(s, s.cpus[c].current, Running) && !s.threads[s.cpus[c].current].onRunqueue && !s.cpus[c].idle
  {
    OwnThread(s, c);
    assert ThreadOk(s, s.cpus[c].current);
  }

  lemma StopKeeps(s: State, c: nat, state: ThreadState, now: nat)
    requires Inv(s) && Enabled(s, DoBlock(c, now)) && (state == Sleeping || state == Exited)
    ensures var o := Stop(s, c, state, now); o.Ok? && Inv(o.state) && s.minVruntime <= o.state.minVruntime
  {
    hide UpdatedMin, Fair, QueueInv, PlaceInv;
    StopBooks(s, c, state, now);
    StillWeighted(s);
    StopPlace(s, c, state, now);
    OwnRunning(s, c);
    assert Awake(Stop(s, c, state, now).state, c);
  }

  lemma StopPlace(s: State, c: nat, state: ThreadState, now: nat)
    requires PlaceInv(s) && Sound(s) && Enabled(s, DoBlock(c, now)) && (state == Sleeping || state == Exited)
    ensures Stop(s, c, state, now).Ok? && PlaceInv(Stop(s, c, state, now).state)
  {
    hide UpdatedMin;
    OwnThread(s, c);
    var t, s' := s.cpus[c].current, Stop(s, c, state, now).state;
    assert ThreadOk(s, t);
    PlaceStep(s, s', t, c);
  }

  // ----- scheduler_set_nice -----

  /** The state in which scheduler_set_nice changes the weight. */
  function Charged(s: State, t: Id, now: nat): State
    requires Sound(s) && t in s.threads
  {
    (if s.threads[t].state.Running? then SetThread(s, t, Account(s.threads[t], now)) else s).(clock := now)
  }

  lemma ChargedKeeps(s: State, t: Id, now: nat)
    requires Inv(s) && t in s.threads && Later(s, now)
    ensures QueueInv(Charged(s, t, now)) && Fair(Charged(s, t, now))
    ensures s.threads[t].state.Running? ==> !s.threads[t].onRunqueue && Charged(s, t, now).threads[t].execStart == now
  {
    var th := s.threads[t];
    assert ThreadOk(s, t);
    if th.state.Running? { AccountKeeps(s, t, now); }
    hide PlaceInv;
    var s0 := if th.state.Running? then SetThread(s, t, Account(th, now)) else s;
    FairLater(s0, now);
    QueueFrame(s0, Charged(s, t, now));
  }

  /** The weight of a thread off the queue changes; if it runs, it has just been charged. */
  lemma ReweighKeeps(s: State, t: Id, w: nat)
    requires QueueInv(s) && Fair(s) && t in s.threads && !s.threads[t].onRunqueue && w >= MIN_WEIGHT
    requires s.threads[t].state.Running? ==> s.threads[t].execStart == s.clock
    ensures var s' := SetThread(s, t, s.threads[t].(weight := w)); QueueInv(s') && Fair(s')
  {
    var s' := SetThread(s, t, s.threads[t].(weight := w));
    assert Ready(s.threads[t]) ==> Abreast(s, t);
    QueueFrame(s, s');
    FairFrame(s, s', t);
  }

  lemma SetNiceBooks(s: State, t: Id, nice: int, now: nat)
    requires Inv(s) && Enabled(s, DoSetNice(t, nice, now)) && -20 <= nice <= 19
    ensures var o := SetNice(s, t, nice, now); o.Ok? && QueueInv(o.state) && Fair(o.state)
  {
    ChargedKeeps(s, t, now);
    hide PlaceInv;
    var w, s1 := NiceWeights()[nice + 20], Charged(s, t, now);
    if s.threads[t].onRunqueue {
      DequeueKeepsQueue(s1, t);
      var s2 := DequeueEntity(s1, t).state;
      assert Ready(s1.threads[t]) ==> Abreast(s1, t);
      FairFrame(s1, s2, t);
      ReweighKeeps(s2, t, w);
      EnqueuedKeeps(SetThread(s2, t, s2.threads[t].(weight := w)), t);
    } else {
      ReweighKeeps(s1, t, w);
    }
  }

  lemma SetNicePlace(s: State, t: Id, nice: int, now: nat)
    requires PlaceInv(s) && Sound(s) && Enabled(s, DoSetNice(t, nice, now)) && SetNice(s, t, nice, now).Ok?
    ensures var s' := SetNice(s, t, nice, now).state;
      PlaceInv(s') && s'.cpus == s.cpus && s'.minVruntime == s.minVruntime
  {
    hide Insert;
    hide Remove;
    PlaceFrame(s, SetNice(s, t, nice, now).state);
  }

  lemma SetNiceKeeps(s: State, t: Id, nice: int, now: nat)
    requires Inv(s) && Enabled(s, DoSetNice(t, nice, now))
    ensures var o := SetNice(s, t, nice, now); o.Ok? && Inv(o.state) && o.state.minVruntime == s.minVruntime
  {
    if -20 <= nice <= 19 {
      SetNiceBooks(s, t, nice, now);
      SetNicePlace(s, t, nice, now);
      hide PlaceInv;
      var s' := SetNice(s, t, nice, now).state;
      assert s.queue == [] ==> s'.queue == [] by {
        assert s.queue == [] ==> !s.threads[t].onRunqueue;
      }
      forall d | Awake(s, d) ensures Awake(s', d) {}
    }
  }

  // ----- Every run -----

  lemma StepKeeps(s: State, a: Action)
    requires Inv(s) && Enabled(s, a)
    ensures var o := Step(s, a); o.Ok? && Inv(o.state) && s.minVruntime <= o.state.minVruntime
  {
    hide Inv;
    hide Next;
    hide Dispatch;
    hide Enqueue;
    hide Yield;
    hide Stop;
    hide SetNice;
    hide Inherit;
    match a
    case DoNext(c, now) => NextKeeps(s, c, now);
    case DoDispatch(c, now) => DispatchKeeps(s, c, now);
    case DoUnlock(c) => UnlockKeeps(s, c);
    case DoLock(c) => LockKeeps(s, c);
    case DoYield(c, now) => YieldKeeps(s, c, now);
    case DoBlock(c, now) => StopKeeps(s, c, Sleeping, now);
    case DoExit(c, now) => StopKeeps(s, c, Exited, now);
    case DoSwitchBack(c) => SwitchBackKeeps(s, c);
    case DoFinish(c, reap) => FinishKeeps(s, c, reap);
    case DoWake(c, t, now) => WakeKeeps(s, c, t, now);
    case DoSetNice(t, nice, now) => SetNiceKeeps(s, t, nice, now);
    case DoInherit(child, parent, now) => InheritKeeps(s, child, parent, now);
    case DoSpawn(t, tid) => SpawnKeeps(s, t, tid);
    case DoOnline(c) => OnlineKeeps(s, c);
  }

  /** scheduler_init, and every CPU at the head of its dispatch loop. */
  predicate Initial(s: State) {
    && s.threads == map[] && s.queue == [] && s.count == 0 && s.totalWeight == 0 && s.minVruntime == 0 && s.clock == 0
    && |s.cpus| > 0
    && forall c | 0 <= c < |s.cpus| :: s.cpus[c].current == NONE && s.cpus[c].selected == NONE && !s.cpus[c].idle && s.cpus[c].phase == Pick
  }

  /** A run: a first state and the actions taken since, the last one last. */
  datatype Trace = Start(state: State) | Then(before: Trace, action: Action)

  /** The state a run has reached, or a PANIC; None when some action was not enabled. */
  datatype Reached = At(state: State) | Panicked | Impossible

  ghost function Reach(r: Trace): Reached {
    match r
    case Start(s) => if Initial(s) then At(s) else Impossible
    case Then(before, a) =>
      var b := Reach(before);
      if !b.At? then b
      else if !Sound(b.state) then Panicked
      else if !Enabled(b.state, a) then Impossible
      else
        var o := Step(b.state, a);
        if o.Panic? then Panicked else At(o.state)
  }

  /** No run panics, and the invariant holds in every state a run reaches. */
  lemma {:induction false} Safe(r: Trace)
    ensures !Reach(r).Panicked? && (Reach(r).At? ==> Inv(Reach(r).state))
    decreases r
  {
    match r
    case Start(s) =>
    case Then(before, a) =>
      Safe(before);
      hide Inv;
      if Reach(before).At? {
        var s := Reach(before).state;
        assert Sound(s) by { InvSound(s); }
        if Enabled(s, a) { StepKeeps(s, a); }
      }
  }

  lemma InvSound(s: State)
    requires Inv(s)
    ensures Sound(s)
  {}

  /** What the invariant means for a thread: it is in exactly one place. */
  lemma WhereThreadsAre(s: State, t: Id)
    requires Inv(s) && t in s.threads
    ensures forall c, d | CurrentOn(s, t, c) && CurrentOn(s, t, d) :: c == d
    ensures s.threads[t].state.Running? ==> exists c :: CurrentOn(s, t, c)
    ensures s.threads[t].state.Runnable? <==> t in s.queue || exists c :: SelectedBy(s, t, c)
    ensures t in s.queue ==> forall c :: !SelectedBy(s, t, c)
    ensures forall c, d | SelectedBy(s, t, c) && SelectedBy(s, t, d) :: c == d
  {
    assert ThreadOk(s, t);
    forall c | SelectedBy(s, t, c) ensures s.threads[t].state.Runnable? && t !in s.queue {
      assert CpuOk(s, c);
    }
  }

  /** scheduler_next picks the least thread, which keeps within the granularity of the minimum. */
  lemma NextLeast(s: State, c: nat, now: nat)
    requires Inv(s) && Enabled(s, DoNext(c, now))
    ensures Next(s, c, now).Ok?
    ensures var t := Next(s, c, now).state.cpus[c].selected;
      if s.queue == [] then t == NONE && Next(s, c, now).state.cpus[c].idle
      else
        && t in s.queue && t in s.threads
        && forall u | u in s.queue && u != t ::
             && u in s.threads && s.threads[t].vruntime <= s.threads[u].vruntime
             && (s.threads[t].vruntime == s.threads[u].vruntime ==> s.threads[t].tid <= s.threads[u].tid)
             && (s.threads[t].vruntime == s.threads[u].vruntime && s.threads[t].tid == s.threads[u].tid ==> t < u)
  {
    NextKeeps(s, c, now);
    if s.queue != [] {
      var t := s.queue[0];
      forall u | u in s.queue && u != t ensures u in s.threads && Precedes(Entities(s.threads), t, u) {
        var i :| 0 <= i < |s.queue| && s.queue[i] == u;
        assert 0 < i;
      }
    }
  }
}
