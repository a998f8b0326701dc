/** What each step of the scheduler does to the threads it touches: how much a thread is charged, where a thread
is placed, which thread and CPU change, and what the new minimum is. */
module SchedulerEffects {
  import opened Common
  import opened Timeline
  import opened Scheduler
  import opened SchedulerSafety

  // ----- Charging and placing -----

  /** The time a thread has run since it was last charged. */
  function Elapsed(th: Thread, now: nat): nat {
    if th.execStart == 0 || now <= th.execStart then 0 else now - th.execStart
  }

  /** Real time scaled by the weight. */
  function Share(runtime: nat, weight: nat): nat
    requires weight > 0
  {
    runtime * NICE_0_LOAD / weight
  }

  lemma Scaled(th: Thread, runtime: nat)
    requires MIN_WEIGHT <= th.weight && runtime < CLOCK_LIMIT && th.vruntime <= U64_MAX
    ensures AddSaturate(th.vruntime, ScaleRuntime(runtime, th.weight)) == Least(th.vruntime + Share(runtime, th.weight), U64_MAX)
    ensures Share(0, th.weight) == 0
  {
    hide ScaleRuntime;
    ScaleFits(runtime, th.weight);
  }

  /** account_runtime: real time for the sum, time scaled by the weight for the virtual runtime, both capped. */
  lemma AccountExact(th: Thread, now: nat)
    requires MIN_WEIGHT <= th.weight && now < CLOCK_LIMIT && th.vruntime <= U64_MAX && th.sumExec <= U64_MAX
    ensures Account(th, now) ==
      th.(vruntime := Least(th.vruntime + Share(Elapsed(th, now), th.weight), U64_MAX),
          sumExec := Least(th.sumExec + Elapsed(th, now), U64_MAX), execStart := now)
  {
    hide ScaleRuntime, Share;
    Scaled(th, Elapsed(th, now));
  }

  /** entity_vruntime_now: what the thread would have if it were charged now. */
  lemma NowExact(th: Thread, now: nat)
    requires MIN_WEIGHT <= th.weight && now < CLOCK_LIMIT && th.vruntime <= U64_MAX
    ensures VruntimeNow(th, now) ==
      if th.state.Running? then Least(th.vruntime + Share(Elapsed(th, now), th.weight), U64_MAX) else th.vruntime
  {
    hide ScaleRuntime, Share;
    Scaled(th, Elapsed(th, now));
  }

  /** A new thread starts at the minimum; any other comes no lower than the granularity below it. */
  lemma PlaceExact(th: Thread, minimum: nat)
    ensures var p := Place(th, minimum);
      && p.vruntime == (if th.initialized then Greatest(th.vruntime, if minimum > WAKEUP_GRANULARITY then minimum - WAKEUP_GRANULARITY else 0) else minimum)
      && p == th.(vruntime := p.vruntime, initialized := true)
  {}

  /** claim_idle_cpu_locked marks one CPU busy and changes nothing else: the caller if it is idle, otherwise the first other
      CPU that is up and idle, if there is one. */
  lemma ClaimExact(cpus: seq<Cpu>, me: nat)
    requires me < |cpus|
    ensures var r := ClaimIdle(cpus, me);
      && |r| == |cpus| && (forall c | 0 <= c < |cpus| :: r[c] == cpus[c].(idle := r[c].idle))
      && (forall c | 0 <= c < |cpus| ::
            r[c].idle <==> cpus[c].idle && !(if cpus[me].idle then c == me else c != me && cpus[c].online && NoneBelow(cpus, me, c)))
  {
    if !cpus[me].idle { FirstIdleIs(cpus, me, 0); }
  }

  predicate NoneBelow(cpus: seq<Cpu>, me: nat, c: nat) {
    forall d | 0 <= d < c && d < |cpus| && d != me :: !(cpus[d].online && cpus[d].idle)
  }

  lemma {:induction false} FirstIdleIs(cpus: seq<Cpu>, me: nat, c: nat)
    requires c <= |cpus| && NoneBelow(cpus, me, c)
    ensures var f := FirstIdle(cpus, me, c);
      NoneBelow(cpus, me, f) && (f < |cpus| ==> f != me && cpus[f].online && cpus[f].idle)
    decreases |cpus| - c
  {
    if c < |cpus| && !(c != me && cpus[c].online && cpus[c].idle) { FirstIdleIs(cpus, me, c + 1); }
  }

  // ----- The minimum -----

  predicate QueuedAt(s: State, t: Id, v: nat) {
    t in s.queue && t in s.threads && v == s.threads[t].vruntime
  }

  predicate PendingAt(s: State, selected: Id, c: nat, v: nat) {
    c < |s.cpus| && var t := s.cpus[c].selected; t != NONE && t != selected && t in s.threads && v == s.threads[t].vruntime
  }

  predicate CurrentAt(s: State, selected: Id, now: nat, c: nat, v: nat) {
    && c < |s.cpus|
    && var t := s.cpus[c].current;
      && t != NONE && t != selected && t in s.threads && s.threads[t].state.Running? && s.threads[t].weight > 0
      && v == VruntimeNow(s.threads[t], now)
  }

  predicate SelectedAt(s: State, selected: Id, v: nat) {
    selected != NONE && selected in s.threads && v == s.threads[selected].vruntime
  }

  /** A virtual runtime that update_min_vruntime_locked looks at, on the CPUs below `n`. */
  ghost predicate CandidateBelow(s: State, selected: Id, now: nat, n: nat, v: nat) {
    || SelectedAt(s, selected, v)
    || (exists t :: QueuedAt(s, t, v))
    || (exists c: nat :: c < n && PendingAt(s, selected, c, v))
    || (exists c: nat :: c < n && CurrentAt(s, selected, now, c, v))
  }

  ghost predicate Candidate(s: State, selected: Id, now: nat, v: nat) {
    CandidateBelow(s, selected, now, |s.cpus|, v)
  }

  ghost predicate SmallRuntimes(s: State) {
    forall t | t in s.threads :: s.threads[t].vruntime <= U64_MAX
  }

  /** The minimum rises exactly when there is a candidate below the largest number and all are above it; then it becomes
      the least candidate. */
  ghost predicate NewMinimum(s: State, selected: Id, now: nat, r: nat) {
    && (r != s.minVruntime ==> Candidate(s, selected, now, r) && forall v: nat | Candidate(s, selected, now, v) :: r <= v)
    && (r != s.minVruntime <==>
          && (exists v: nat :: Candidate(s, selected, now, v) && v < U64_MAX)
          && (forall v: nat | Candidate(s, selected, now, v) :: s.minVruntime < v))
  }

  lemma QueueLeast(s: State, selected: Id, now: nat)
    requires QueueInv(s)
    ensures var m := QueueMinimum(s, selected);
      && (m == U64_MAX || CandidateBelow(s, selected, now, 0, m)) && forall v: nat | CandidateBelow(s, selected, now, 0, v) :: m <= v
  {
    FirstQueued(s);
    forall v: nat | CandidateBelow(s, selected, now, 0, v) ensures QueueMinimum(s, selected) <= v {
      if !SelectedAt(s, selected, v) {
        var t :| QueuedAt(s, t, v);
        QueueFirst(s, t);
      }
    }
    if s.queue != [] { assert QueuedAt(s, s.queue[0], s.threads[s.queue[0]].vruntime); }
  }

  lemma {:induction false} CpusLeast(s: State, selected: Id, now: nat, c: nat)
    requires QueueInv(s) && c <= |s.cpus|
    ensures var m := CpusMinimum(s, selected, now, c, QueueMinimum(s, selected));
      && (m == U64_MAX || CandidateBelow(s, selected, now, c, m)) && forall v: nat | CandidateBelow(s, selected, now, c, v) :: m <= v
  {
    hide QueueInv, QueueMinimum, VruntimeNow, CandidateBelow;
    StillWeighted(s);
    if c == 0 {
      QueueLeast(s, selected, now);
    } else {
      CpusLeast(s, selected, now, c - 1);
      var m := CpusMinimum(s, selected, now, c - 1, QueueMinimum(s, selected));
      OneMore(s, selected, now, c - 1, m);
      forall v: nat | CandidateBelow(s, selected, now, c, v) ensures CpuMinimum(s, selected, now, c - 1, m) <= v {
        LastCpu(s, selected, now, c - 1, m, v);
      }
    }
  }

  lemma OneMore(s: State, selected: Id, now: nat, c: nat, m: nat)
    requires c < |s.cpus| && Weighted(s.threads) && (m == U64_MAX || CandidateBelow(s, selected, now, c, m))
    ensures var n := CpuMinimum(s, selected, now, c, m); n == U64_MAX || CandidateBelow(s, selected, now, c + 1, n)
  {
    hide VruntimeNow;
    var n := CpuMinimum(s, selected, now, c, m);
    assert n == m || CurrentAt(s, selected, now, c, n) || PendingAt(s, selected, c, n);
  }

  lemma LastCpu(s: State, selected: Id, now: nat, c: nat, m: nat, v: nat)
    requires c < |s.cpus| && Weighted(s.threads) && CandidateBelow(s, selected, now, c + 1, v)
    requires CandidateBelow(s, selected, now, c, v) ==> m <= v
    ensures CpuMinimum(s, selected, now, c, m) <= v
  {
    hide VruntimeNow;
    if !CandidateBelow(s, selected, now, c, v) { assert CurrentAt(s, selected, now, c, v) || PendingAt(s, selected, c, v); }
  }

  lemma CandidatesSmall(s: State, selected: Id, now: nat, v: nat)
    requires SmallRuntimes(s) && Candidate(s, selected, now, v)
    ensures v <= U64_MAX
  {}

  /** update_min_vruntime_locked. */
  lemma MinimumExact(s: State, selected: Id, now: nat)
    requires QueueInv(s) && SmallRuntimes(s)
    ensures NewMinimum(s, selected, now, UpdatedMin(s, selected, now))
  {
    hide QueueInv, QueueMinimum, CpusMinimum, Candidate, SmallRuntimes;
    StillWeighted(s);
    CpusLeast(s, selected, now, |s.cpus|);
    IsCandidate(s, selected, now);
    var m := CpusMinimum(s, selected, now, |s.cpus|, QueueMinimum(s, selected));
    forall v: nat | Candidate(s, selected, now, v) ensures v <= U64_MAX && m <= v { CandidatesSmall(s, selected, now, v); }
  }

  lemma IsCandidate(s: State, selected: Id, now: nat)
    ensures forall v :: Candidate(s, selected, now, v) <==> CandidateBelow(s, selected, now, |s.cpus|, v)
  {}

  // ----- The same on the threads that can run -----

  predicate CanRun(s: State, t: Id) {
    t in s.threads && Ready(s.threads[t]) && s.threads[t].weight > 0
  }

  /** The virtual runtime of a thread that can run, as it is at `now`. */
  function RunsAt(s: State, t: Id, now: nat): nat
    requires CanRun(s, t)
  {
    VruntimeNow(s.threads[t], now)
  }

  ghost predicate HasRuntime(s: State, now: nat, v: nat) {
    exists t :: CanRun(s, t) && RunsAt(s, t, now) == v
  }

  /** The minimum rises exactly when some thread can run and all that can are above it, and then to the least of them. */
  ghost predicate LeastReady(s: State, now: nat, r: nat) {
    && (r != s.minVruntime ==> HasRuntime(s, now, r) && forall t | CanRun(s, t) :: r <= RunsAt(s, t, now))
    && (r != s.minVruntime <==>
          && (exists t :: CanRun(s, t) && RunsAt(s, t, now) < U64_MAX)
          && (forall t | CanRun(s, t) :: s.minVruntime < RunsAt(s, t, now)))
  }

  /** `s1` is `s` with `t`, unless it is NONE, charged or taken off the queue. */
  ghost predicate Aside(s: State, s1: State, t: Id, now: nat) {
    && |s1.cpus| == |s.cpus| && s1.minVruntime == s.minVruntime && s1.threads.Keys == s.threads.Keys
    && (forall d | 0 <= d < |s.cpus| :: s1.cpus[d].current == s.cpus[d].current && s1.cpus[d].selected == s.cpus[d].selected)
    && (forall u | u in s.threads && u != t :: s1.threads[u] == s.threads[u])
    && (forall u | u != t :: u in s1.queue <==> u in s.queue) && t !in s1.queue
    && (t != NONE ==> CanRun(s, t) && s1.threads[t].vruntime == RunsAt(s, t, now))
  }

  lemma CandidateRuns(s: State, s1: State, t: Id, now: nat, v: nat)
    requires PlaceInv(s) && QueueInv(s) && Aside(s, s1, t, now) && Candidate(s1, t, now, v)
    ensures HasRuntime(s, now, v)
  {
    hide Sorted, WeightSum;
    if SelectedAt(s1, t, v) {
      assert RunsAt(s, t, now) == v;
    } else if u :| QueuedAt(s1, u, v) {
      assert ThreadOk(s, u) && CanRun(s, u) && RunsAt(s, u, now) == v;
    } else if c: nat :| PendingAt(s1, t, c, v) {
      assert CpuOk(s, c) && CanRun(s, s.cpus[c].selected) && RunsAt(s, s.cpus[c].selected, now) == v;
    } else {
      var c: nat :| c < |s1.cpus| && CurrentAt(s1, t, now, c, v);
      assert CanRun(s, s.cpus[c].current) && RunsAt(s, s.cpus[c].current, now) == v;
    }
  }

  lemma RunsCandidate(s: State, s1: State, t: Id, now: nat, u: Id)
    requires PlaceInv(s) && QueueInv(s) && Aside(s, s1, t, now) && CanRun(s, u)
    ensures Candidate(s1, t, now, RunsAt(s, u, now))
  {
    hide Sorted, WeightSum;
    var v := RunsAt(s, u, now);
    assert ThreadOk(s, u);
    if u == t {
      assert SelectedAt(s1, t, v);
    } else if s.threads[u].state.Running? {
      var c :| CurrentOn(s, u, c);
      assert CurrentAt(s1, t, now, c, v);
    } else if s.threads[u].onRunqueue {
      assert QueuedAt(s1, u, v);
    } else {
      var c :| SelectedBy(s, u, c);
      assert PendingAt(s1, t, c, v);
    }
  }

  lemma LeastFromCandidates(s: State, s1: State, t: Id, now: nat)
    requires PlaceInv(s) && QueueInv(s) && QueueInv(s1) && SmallRuntimes(s1) && Aside(s, s1, t, now)
    ensures LeastReady(s, now, UpdatedMin(s1, t, now))
  {
    MinimumExact(s1, t, now);
    hide PlaceInv, QueueInv, Candidate, UpdatedMin, SmallRuntimes, RunsAt, CanRun;
    forall v: nat | Candidate(s1, t, now, v) ensures HasRuntime(s, now, v) { CandidateRuns(s, s1, t, now, v); }
    forall u | CanRun(s, u) ensures Candidate(s1, t, now, RunsAt(s, u, now)) { RunsCandidate(s, s1, t, now, u); }
  }

  lemma SmallFrom(s: State)
    requires Fair(s)
    ensures SmallRuntimes(s)
  {}

  /** A running thread that has been charged stands aside. */
  lemma ChargedAside(s: State, t: Id, now: nat)
    requires Inv(s) && Is(s, t, Running) && !s.threads[t].onRunqueue && Later(s, now)
    ensures Sound(s)
    ensures var s1 := SetThread(s, t, Account(s.threads[t], now));
      QueueInv(s1) && SmallRuntimes(s1) && Aside(s, s1, t, now) && s1.threads[t].vruntime == VruntimeNow(s.threads[t], now)
  {
    hide PlaceInv, Fair, Sorted, WeightSum, UpdatedMin, Covered;
    AccountKeeps(s, t, now);
    SmallFrom(SetThread(s, t, Account(s.threads[t], now)));
    KeepsUp(s, t);
    AccountNow(s.threads[t], now);
  }

  /** scheduler_block_current and scheduler_exit_locked bring the minimum up to the least thread that can run. */
  lemma StopMinimum(s: State, c: nat, state: ThreadState, now: nat)
    requires Inv(s) && Enabled(s, DoBlock(c, now)) && (state == Sleeping || state == Exited)
    ensures Stop(s, c, state, now).Ok? && LeastReady(s, now, Stop(s, c, state, now).state.minVruntime)
  {
    hide PlaceInv, QueueInv, Fair, UpdatedMin, LeastReady, Aside, SmallRuntimes;
    OwnRunning(s, c);
    StopKeeps(s, c, state, now);
    ChargedAside(s, s.cpus[c].current, now);
    LeastFromCandidates(s, SetThread(s, s.cpus[c].current, Account(s.threads[s.cpus[c].current], now)), s.cpus[c].current, now);
  }

  lemma NobodyAside(s: State, now: nat)
    requires Sound(s)
    ensures Aside(s, s, NONE, now)
  {}

  /** scheduler_enqueue likewise, before the thread is placed. */
  lemma EnqueueMinimum(s: State, me: nat, t: Id, wakeIdle: bool, now: nat)
    requires Inv(s) && CanEnqueue(s, t) && Later(s, now) && me < |s.cpus|
    ensures Enqueue(s, me, t, wakeIdle, now).Ok? && LeastReady(s, now, Enqueue(s, me, t, wakeIdle, now).state.minVruntime)
  {
    hide PlaceInv, QueueInv, Fair, UpdatedMin, LeastReady, Aside, SmallRuntimes, Insert;
    StillWeighted(s);
    EnqueuePlaces(s, me, t, wakeIdle, now);
    if s.threads[t].state.Running? {
      ChargedAside(s, t, now);
      LeastFromCandidates(s, SetThread(s, t, Account(s.threads[t], now)), t, now);
    } else {
      NobodyAside(s, now);
      SmallFrom(s);
      LeastFromCandidates(s, s, NONE, now);
    }
  }

  /** scheduler_next likewise, with the thread it selects counted. */
  lemma NextMinimum(s: State, c: nat, now: nat)
    requires Inv(s) && Enabled(s, DoNext(c, now)) && s.queue != []
    ensures Next(s, c, now).Ok? && LeastReady(s, now, Next(s, c, now).state.minVruntime)
  {
    hide PlaceInv, QueueInv, Fair, Covered, UpdatedMin, LeastReady, Aside, SmallRuntimes, Remove;
    StillWeighted(s);
    NextKeeps(s, c, now);
    NextQueue(s, c, now);
    var s0, t := SetCpu(s, c, s.cpus[c].(idle := false)).(clock := now), s.queue[0];
    var s1 := DequeueEntity(s0, t).state;
    SmallFrom(s1);
    DequeuedAside(s, c, now);
    LeastFromCandidates(s, s1, t, now);
  }

  lemma DequeuedAside(s: State, c: nat, now: nat)
    requires Inv(s) && Enabled(s, DoNext(c, now)) && s.queue != []
    ensures var s0, t := SetCpu(s, c, s.cpus[c].(idle := false)).(clock := now), s.queue[0];
      t in s.threads && DequeueEntity(s0, t).Ok? && Aside(s, DequeueEntity(s0, t).state, t, now)
  {
    hide Sorted, WeightSum, Remove, Fair;
    FirstQueued(s);
    StillWeighted(s);
    var s0, t := SetCpu(s, c, s.cpus[c].(idle := false)).(clock := now), s.queue[0];
    assert ThreadOk(s, t);
    QueueStep(s, s0, t);
    DequeueKeepsQueue(s0, t);
  }

  // ----- The threads and CPUs a step touches -----

  /** Only thread `t` and CPU `c` may differ. */
  ghost predicate OnlyThere(s: State, s': State, t: Id, c: nat) {
    && s'.threads.Keys == s.threads.Keys && (forall u | u in s.threads && u != t :: s'.threads[u] == s.threads[u])
    && |s'.cpus| == |s.cpus| && forall d | 0 <= d < |s.cpus| && d != c :: s'.cpus[d] == s.cpus[d]
  }

  /** After scheduler_enqueue.  A thread that was running is charged up to now; any other is placed by the new minimum. */
  lemma EnqueueEffect(s: State, me: nat, t: Id, wakeIdle: bool, now: nat)
    requires Inv(s) && CanEnqueue(s, t) && Later(s, now) && me < |s.cpus| && s.threads[t].sumExec <= U64_MAX
    ensures var o, th := Enqueue(s, me, t, wakeIdle, now), s.threads[t];
      && o.Ok? && t in o.state.threads && th.weight > 0
      && o.state.threads[t] ==
           (if th.state.Running? then
              th.(vruntime := VruntimeNow(th, now), sumExec := Least(th.sumExec + Elapsed(th, now), U64_MAX), execStart := now,
                  state := Runnable, onRunqueue := true)
            else
              th.(vruntime := if th.initialized then Greatest(th.vruntime, Floor(o.state.minVruntime)) else o.state.minVruntime,
                  initialized := true, state := Runnable, onRunqueue := true))
      && o.state.cpus == if wakeIdle then ClaimIdle(s.cpus, me) else s.cpus
  {
    hide PlaceInv, QueueInv, UpdatedMin, Insert;
    StillWeighted(s);
    KeepsUp(s, t);
    AccountExact(s.threads[t], now);
    NowExact(s.threads[t], now);
    hide Fair;
  }

  lemma StillSound(s: State)
    requires Inv(s)
    ensures Sound(s)
  {}

  /** After a yield: the thread is charged up to now and queued again, and no idle CPU is claimed for it. */
  lemma YieldEffect(s: State, c: nat, now: nat)
    requires Inv(s) && Enabled(s, DoYield(c, now))
    requires s.cpus[c].current in s.threads && s.threads[s.cpus[c].current].sumExec <= U64_MAX
    ensures var o, t := Yield(s, c, now), s.cpus[c].current;
      && o.Ok? && OnlyThere(s, o.state, t, c) && s.threads[t].weight > 0
      && o.state.threads[t] == s.threads[t].(vruntime := VruntimeNow(s.threads[t], now), execStart := now, state := Runnable,
                                             onRunqueue := true, sumExec := Least(s.threads[t].sumExec + Elapsed(s.threads[t], now), U64_MAX))
      && o.state.cpus[c] == s.cpus[c].(phase := Leave(s.cpus[c].phase.next)) && s.minVruntime <= o.state.minVruntime
  {
    hide PlaceInv, QueueInv, Fair, Enqueue, Sound, VruntimeNow;
    StillSound(s);
    YieldPlace(s, c, now);
    OwnRunning(s, c);
    YieldKeeps(s, c, now);
    EnqueueEffect(s, c, s.cpus[c].current, false, now);
    EnqueuePlaces(s, c, s.cpus[c].current, false, now);
  }

  /** After scheduler_next with work: the first thread leaves the queue and is selected. */
  lemma NextEffect(s: State, c: nat, now: nat)
    requires Inv(s) && Enabled(s, DoNext(c, now)) && s.queue != []
    ensures var o, t := Next(s, c, now), s.queue[0];
      && o.Ok? && t in s.threads && OnlyThere(s, o.state, t, c) && o.state.threads[t] == s.threads[t].(onRunqueue := false)
      && o.state.queue == s.queue[1..]
      && o.state.cpus[c] == s.cpus[c].(idle := false, selected := t, phase := Picked(t))
  {
    hide PlaceInv, QueueInv, Fair, UpdatedMin;
    StillWeighted(s);
    NextKeeps(s, c, now);
    FirstQueued(s);
  }

  /** After a dispatch: the thread runs from now on. */
  lemma DispatchEffect(s: State, c: nat, now: nat)
    requires Inv(s) && Enabled(s, DoDispatch(c, now))
    ensures var o, t := Dispatch(s, c, now), s.cpus[c].phase.next;
      && o.Ok? && t in s.threads && OnlyThere(s, o.state, t, c)
      && o.state.threads[t] == s.threads[t].(state := Running, execStart := now, holder := c)
  {
    hide PlaceInv, QueueInv, Fair;
    DispatchKeeps(s, c, now);
  }

  /** After a block or an exit: the thread is charged up to now and off the CPU's run. */
  lemma StopEffect(s: State, c: nat, state: ThreadState, now: nat)
    requires Inv(s) && Enabled(s, DoBlock(c, now)) && (state == Sleeping || state == Exited)
    requires s.cpus[c].current in s.threads && s.threads[s.cpus[c].current].sumExec <= U64_MAX
    ensures var o, t := Stop(s, c, state, now), s.cpus[c].current;
      && o.Ok? && OnlyThere(s, o.state, t, c) && s.threads[t].weight > 0
      && o.state.threads[t] == s.threads[t].(vruntime := VruntimeNow(s.threads[t], now), execStart := now, state := state,
                                             sumExec := Least(s.threads[t].sumExec + Elapsed(s.threads[t], now), U64_MAX))
  {
    hide PlaceInv, QueueInv, UpdatedMin;
    StillWeighted(s);
    StopKeeps(s, c, state, now);
    OwnRunning(s, c);
    KeepsUp(s, s.cpus[c].current);
    AccountExact(s.threads[s.cpus[c].current], now);
    NowExact(s.threads[s.cpus[c].current], now);
    hide Fair;
  }

  /** A thread pays for the time from its dispatch at `a` to its block or exit at `b`, wherever it was moved in between:
      all of it in real time and its share by weight in virtual time. */
  lemma SlicePaid(s: State, c: nat, a: nat, u: State, d: nat, state: ThreadState, b: nat)
    requires Inv(s) && Enabled(s, DoDispatch(c, a)) && a > 0
    requires Inv(u) && Enabled(u, DoBlock(d, b)) && (state == Sleeping || state == Exited) && a <= b
    requires u.cpus[d].current == s.cpus[c].phase.next && s.cpus[c].phase.next in s.threads && s.cpus[c].phase.next in u.threads
    requires var th, now := s.threads[s.cpus[c].phase.next], u.threads[s.cpus[c].phase.next];
      && Dispatch(s, c, a).Ok? && SameSpeed(Dispatch(s, c, a).state.threads[s.cpus[c].phase.next], now)
      && now.sumExec == th.sumExec <= U64_MAX
    ensures var th := s.threads[s.cpus[c].phase.next];
      && Stop(u, d, state, b).Ok? && th.weight > 0
      && var r := Stop(u, d, state, b).state.threads[s.cpus[c].phase.next];
        && r.vruntime == Least(th.vruntime + Share(b - a, th.weight), U64_MAX) && r.sumExec == Least(th.sumExec + (b - a), U64_MAX)
  {
    hide PlaceInv, QueueInv, Stop, Dispatch, VruntimeNow, Share;
    var t := s.cpus[c].phase.next;
    DispatchEffect(s, c, a);
    StopEffect(u, d, state, b);
    StillWeighted(u);
    KeepsUp(u, t);
    hide Fair;
    NowExact(u.threads[t], b);
  }

  /** scheduler_set_nice: out of range nothing happens; otherwise the thread, charged first if it runs, has the weight of its
      nice value and is queued as before. */
  lemma SetNiceEffect(s: State, t: Id, nice: int, now: nat)
    requires Inv(s) && Enabled(s, DoSetNice(t, nice, now)) && s.threads[t].sumExec <= U64_MAX
    ensures var o, th := SetNice(s, t, nice, now), s.threads[t];
      && o.Ok? && th.weight > 0 && (!(-20 <= nice <= 19) ==> o.state == s)
      && (-20 <= nice <= 19 ==>
            && o.state.threads.Keys == s.threads.Keys && o.state.cpus == s.cpus && (forall u | u in s.threads && u != t :: o.state.threads[u] == s.threads[u])
            && o.state.threads[t] == (if th.state.Running? then
                                        th.(vruntime := VruntimeNow(th, now), execStart := now, sumExec := Least(th.sumExec + Elapsed(th, now), U64_MAX))
                                      else th).(weight := NiceWeights()[nice + 20])
            && forall u :: u in o.state.queue <==> u in s.queue)
  {
    hide PlaceInv, NiceWeights, Sorted, WeightSum;
    StillWeighted(s);
    SetNiceKeeps(s, t, nice, now);
    KeepsUp(s, t);
    AccountExact(s.threads[t], now);
    NowExact(s.threads[t], now);
    hide Fair;
    hide Account, VruntimeNow, Share;
    assert forall u | u in s.threads :: s.threads[u].onRunqueue <==> u in s.queue;
    if -20 <= nice <= 19 { SetNiceQueue(s, t, nice, now); }
  }

  lemma SetNiceQueue(s: State, t: Id, nice: int, now: nat)
    requires Inv(s) && Enabled(s, DoSetNice(t, nice, now)) && -20 <= nice <= 19 && SetNice(s, t, nice, now).Ok?
    ensures forall u :: u in SetNice(s, t, nice, now).state.queue <==> u in s.queue
  {
    hide PlaceInv, Fair;
    var s1 := Charged(s, t, now);
    if s.threads[t].onRunqueue {
      ChargedKeeps(s, t, now);
      DequeueKeepsQueue(s1, t);
      var s2 := DequeueEntity(s1, t).state;
      var s3 := SetThread(s2, t, s2.threads[t].(weight := NiceWeights()[nice + 20]));
      QueueInsertIs(s3, t);
    }
  }

  lemma QueueInsertIs(s: State, t: Id)
    requires Queued(s) && t in s.threads
    ensures forall u :: u in EnqueueEntity(s, t).queue <==> u == t || u in s.queue
  {
    forall u ensures u in EnqueueEntity(s, t).queue <==> u == t || u in s.queue { InsertIn(Entities(s.threads), s.queue, t, u); }
  }

  lemma {:induction false} InsertIn(e: map<Id, Entity>, q: seq<Id>, x: Id, u: Id)
    requires Known(e, q) && x in e
    ensures u in Insert(e, q, x) <==> u == x || u in q
    decreases q
  {
    if q != [] && !Precedes(e, x, q[0]) { InsertIn(e, q[1..], x, u); }
  }

  /** A lower nice value weighs more. */
  lemma {:induction false} NiceOrder(a: int, b: int)
    requires -20 <= a < b <= 19
    ensures NiceWeights()[a + 20] > NiceWeights()[b + 20]
    decreases b - a
  {
    NiceNext(b - 1);
    hide NiceWeights;
    if a < b - 1 { NiceOrder(a, b - 1); }
  }

  lemma NiceNext(a: int)
    requires -20 <= a < 19
    ensures NiceWeights()[a + 20] > NiceWeights()[a + 21]
  {}

  /** At nice 0 virtual time is real time. */
  lemma NiceUnit(runtime: nat)
    ensures NiceWeights()[20] > 0 && Share(runtime, NiceWeights()[20]) == runtime
  {
    assert NiceWeights()[20] == 1024;
  }

  /** scheduler_inherit: the child starts at its parent's virtual runtime, with its weight. */
  lemma InheritEffect(s: State, child: Id, parent: Id, now: nat)
    requires Inv(s) && Enabled(s, DoInherit(child, parent, now))
    ensures var o, p := Inherit(s, child, parent, now), s.threads[parent];
      && o.Ok? && p.weight > 0 && o.state.cpus == s.cpus && o.state.threads.Keys == s.threads.Keys
      && (forall u | u in s.threads && u != child :: o.state.threads[u] == s.threads[u])
      && o.state.threads[child] == s.threads[child].(weight := p.weight, vruntime := VruntimeNow(p, now), initialized := p.initialized)
  {
    hide PlaceInv, QueueInv, Fair;
    StillWeighted(s);
    InheritKeeps(s, child, parent, now);
  }

  /** The end of the dispatch loop: the thread's lock is free again, or the thread is gone, exactly when it has exited and may
      be reaped; the CPU picks again. */
  lemma FinishEffect(s: State, c: nat, reap: bool)
    requires Inv(s) && Enabled(s, DoFinish(c, reap))
    ensures var o, t := Finish(s, c, reap), s.cpus[c].phase.next;
      && o.Ok? && t in s.threads && (t in o.state.threads <==> !(reap && s.threads[t].state.Exited?))
      && o.state.threads.Keys + {t} == s.threads.Keys && (forall u | u in o.state.threads && u != t :: o.state.threads[u] == s.threads[u])
      && (t in o.state.threads ==> o.state.threads[t] == s.threads[t].(holder := FREE))
      && o.state.cpus == s.cpus[c := s.cpus[c].(phase := Pick)] && o.state.queue == s.queue && o.state.minVruntime == s.minVruntime
  {
    hide PlaceInv, QueueInv, Fair;
    FinishKeeps(s, c, reap);
  }

  /** A new thread has run for no time, weighs as nice 0 does and will be placed when it is first woken. */
  lemma SpawnEffect(s: State, t: Id, tid: int, minimum: nat)
    requires Enabled(s, DoSpawn(t, tid))
    ensures var r := Spawn(s, t, tid);
      && r == s.(threads := r.threads) && r.threads.Keys == s.threads.Keys + {t} && (forall u | u in s.threads :: r.threads[u] == s.threads[u])
      && var th := r.threads[t];
        && th.state.Allocated? && th.tid == tid && th.weight == NiceWeights()[20] && th.sumExec == 0 && th.execStart == 0 && !th.onRunqueue
        && Place(th, minimum).vruntime == minimum
  {
    assert NiceWeights()[20] == 1024;
  }
}
