/** The fair scheduler of scheduler.c on any number of CPUs, as a step system.

Each action is one section of code under the runqueue lock, or the taking or releasing of a
thread's own lock around a context switch.  `Outcome.Panic` stands for the PANIC calls; the
theorems say that no run reaches one. */
module Scheduler {
  import opened Arithmetic
  import opened Timeline

  type Id = nat
  const NONE: Id := 0
  const FREE: int := -1

  const U64_MAX: nat := 0xFFFF_FFFF_FFFF_FFFF
  const NICE_0_LOAD: nat := 1024
  const WAKEUP_GRANULARITY: nat := 4_000_000
  const MIN_WEIGHT: nat := 15
  /** Up to this clock value no runtime is long enough to overflow scale_runtime. */
  const CLOCK_LIMIT: nat := 15 * 0x40_0000_0000_0000

  datatype ThreadState = Allocated | Runnable | Running | Sleeping | Exited

  /** `holder` is the CPU that holds the thread's lock, or FREE. */
  datatype Thread = Thread(tid: int, state: ThreadState, vruntime: nat, weight: nat, initialized: bool,
                           execStart: nat, sumExec: nat, onRunqueue: bool, holder: int)

  /** Where the dispatch loop of a CPU, or the thread it runs, has got to.  `next` is the loop's local
      variable: chosen, running with its lock held, running, about to switch away, switched away. */
  datatype Phase = Pick | Picked(next: Id) | Locked(next: Id) | Run(next: Id) | Leave(next: Id) | Back(next: Id)

  datatype Cpu = Cpu(current: Id, selected: Id, idle: bool, online: bool, phase: Phase)

  datatype State = State(threads: map<Id, Thread>, cpus: seq<Cpu>, queue: seq<Id>, count: nat, totalWeight: nat,
                         minVruntime: nat, clock: nat)

  datatype Outcome = Ok(state: State) | Panic

  // ----- Arithmetic -----

  function AddSaturate(a: nat, b: nat): nat {
    if a + b > U64_MAX then U64_MAX else a + b
  }

  function ScaleRuntime(runtime: nat, weight: nat): nat
    requires weight > 0
  {
    (runtime / weight * NICE_0_LOAD + runtime % weight * NICE_0_LOAD / weight) % (U64_MAX + 1)
  }

  /** scale_runtime is the floor of runtime * 1024 / weight, in 64 bits. */
  lemma ScaleExact(runtime: nat, weight: nat)
    requires weight > 0
    ensures ScaleRuntime(runtime, weight) == (runtime * NICE_0_LOAD / weight) % (U64_MAX + 1)
  {
    ScaleApart(runtime, weight, NICE_0_LOAD);
  }

  lemma ScaleFits(runtime: nat, weight: nat)
    requires MIN_WEIGHT <= weight && runtime < CLOCK_LIMIT
    ensures ScaleRuntime(runtime, weight) == runtime * NICE_0_LOAD / weight
  {
    hide ScaleRuntime;
    ScaleExact(runtime, weight);
    DivByMore(runtime * NICE_0_LOAD, MIN_WEIGHT, weight);
    DivMonotone(runtime * NICE_0_LOAD, (CLOCK_LIMIT - 1) * NICE_0_LOAD, MIN_WEIGHT);
    Small(runtime * NICE_0_LOAD / weight);
  }

  lemma Small(n: nat)
    requires n <= (CLOCK_LIMIT - 1) * NICE_0_LOAD / MIN_WEIGHT
    ensures n % (U64_MAX + 1) == n
  {}

  lemma ScaleMonotone(a: nat, b: nat, weight: nat)
    requires MIN_WEIGHT <= weight && a <= b < CLOCK_LIMIT
    ensures ScaleRuntime(a, weight) <= ScaleRuntime(b, weight)
  {
    ScaleFits(a, weight);
    ScaleFits(b, weight);
    DivMonotone(a * NICE_0_LOAD, b * NICE_0_LOAD, weight);
  }

  /** entity_vruntime_now. */
  function VruntimeNow(t: Thread, now: nat): nat
    requires t.weight > 0
  {
    if t.state.Running? && t.execStart != 0 && now > t.execStart then
      AddSaturate(t.vruntime, ScaleRuntime(now - t.execStart, t.weight))
    else t.vruntime
  }

  /** The virtual runtime of a thread never runs backwards. */
  lemma VruntimeMonotone(t: Thread, a: nat, b: nat)
    requires MIN_WEIGHT <= t.weight && a <= b < CLOCK_LIMIT && t.vruntime <= U64_MAX
    ensures t.vruntime <= VruntimeNow(t, a) <= VruntimeNow(t, b) <= U64_MAX
  {
    if t.state.Running? && t.execStart != 0 && a > t.execStart {
      ScaleMonotone(a - t.execStart, b - t.execStart, t.weight);
    }
  }

  /** account_runtime, for the fields kept here. */
  function Account(t: Thread, now: nat): Thread
    requires t.weight > 0
  {
    if t.execStart == 0 || now <= t.execStart then t.(execStart := now)
    else
      var delta := now - t.execStart;
      t.(sumExec := AddSaturate(t.sumExec, delta),
         vruntime := AddSaturate(t.vruntime, ScaleRuntime(delta, t.weight)),
         execStart := now)
  }

  function Floor(minVruntime: nat): nat {
    if minVruntime > WAKEUP_GRANULARITY then minVruntime - WAKEUP_GRANULARITY else 0
  }

  /** place_entity_locked. */
  function Place(t: Thread, minVruntime: nat): Thread {
    if !t.initialized then t.(vruntime := minVruntime, initialized := true)
    else if t.vruntime < Floor(minVruntime) then t.(vruntime := Floor(minVruntime))
    else t
  }

  // ----- The runqueue -----

  function Entities(threads: map<Id, Thread>): map<Id, Entity> {
    map t | t in threads :: Entity(threads[t].vruntime, threads[t].tid)
  }

  function WeightSum(threads: map<Id, Thread>, q: seq<Id>): nat {
    if q == [] then 0 else (if q[0] in threads then threads[q[0]].weight else 0) + WeightSum(threads, q[1..])
  }

  ghost predicate Queued(s: State) {
    forall i | 0 <= i < |s.queue| :: s.queue[i] in s.threads
  }

  /** enqueue_entity_locked. */
  function EnqueueEntity(s: State, t: Id): State
    requires Queued(s) && t in s.threads
  {
    s.(threads := s.threads[t := s.threads[t].(onRunqueue := true)],
       queue := Insert(Entities(s.threads), s.queue, t),
       count := s.count + 1,
       totalWeight := s.totalWeight + s.threads[t].weight)
  }

  /** dequeue_entity_locked. */
  function DequeueEntity(s: State, t: Id): Outcome
    requires t in s.threads
  {
    if !s.threads[t].onRunqueue || s.count == 0 || s.totalWeight < s.threads[t].weight then Panic
    else Ok(s.(threads := s.threads[t := s.threads[t].(onRunqueue := false)],
               queue := Remove(s.queue, t),
               count := s.count - 1,
               totalWeight := s.totalWeight - s.threads[t].weight))
  }

  function Min(a: nat, b: nat): nat { if a < b then a else b }

  /** The part of the minimum that CPU `c` adds. */
  function CpuMinimum(s: State, selected: Id, now: nat, c: nat, m: nat): nat
    requires c < |s.cpus| && Weighted(s.threads)
  {
    var current, pending := s.cpus[c].current, s.cpus[c].selected;
    var m1 := if current != NONE && current != selected && current in s.threads && s.threads[current].state.Running?
              then Min(m, VruntimeNow(s.threads[current], now)) else m;
    if pending != NONE && pending != selected && pending in s.threads then Min(m1, s.threads[pending].vruntime) else m1
  }

  function CpusMinimum(s: State, selected: Id, now: nat, c: nat, m: nat): nat
    requires c <= |s.cpus| && Weighted(s.threads)
  {
    if c == 0 then m else CpuMinimum(s, selected, now, c - 1, CpusMinimum(s, selected, now, c - 1, m))
  }

  function QueueMinimum(s: State, selected: Id): nat
    requires Queued(s)
  {
    var m := if selected != NONE && selected in s.threads then s.threads[selected].vruntime else U64_MAX;
    if s.queue == [] then m else Min(m, s.threads[s.queue[0]].vruntime)
  }

  /** update_min_vruntime_locked: the new minimum. */
  function UpdatedMin(s: State, selected: Id, now: nat): nat
    requires Queued(s) && Weighted(s.threads)
  {
    var m := CpusMinimum(s, selected, now, |s.cpus|, QueueMinimum(s, selected));
    if m != U64_MAX && m > s.minVruntime then m else s.minVruntime
  }

  function UpdateMin(s: State, selected: Id, now: nat): State
    requires Queued(s) && Weighted(s.threads)
  {
    s.(minVruntime := UpdatedMin(s, selected, now))
  }

  predicate Weighted(threads: map<Id, Thread>) {
    forall t | t in threads :: MIN_WEIGHT <= threads[t].weight
  }

  /** The first online idle CPU other than `me`, from `c` on; |cpus| when there is none. */
  function FirstIdle(cpus: seq<Cpu>, me: nat, c: nat): (r: nat)
    requires c <= |cpus|
    ensures c <= r <= |cpus|
    decreases |cpus| - c
  {
    if c == |cpus| || (c != me && cpus[c].online && cpus[c].idle) then c else FirstIdle(cpus, me, c + 1)
  }

  /** claim_idle_cpu_locked. */
  function ClaimIdle(cpus: seq<Cpu>, me: nat): seq<Cpu>
    requires me < |cpus|
  {
    if cpus[me].idle then cpus[me := cpus[me].(idle := false)]
    else
      var c := FirstIdle(cpus, me, 0);
      if c < |cpus| then cpus[c := cpus[c].(idle := false)] else cpus
  }

  // ----- The steps -----

  function SetThread(s: State, t: Id, th: Thread): State {
    s.(threads := s.threads[t := th])
  }

  function SetCpu(s: State, c: nat, cpu: Cpu): State
    requires c < |s.cpus|
  {
    s.(cpus := s.cpus[c := cpu])
  }

  predicate Sound(s: State) {
    Weighted(s.threads) && NONE !in s.threads && forall i | 0 <= i < |s.queue| :: s.queue[i] in s.threads
  }

  /** scheduler_enqueue up to the change of state. */
  function Prepare(s: State, t: Id, now: nat): State
    requires Sound(s) && t in s.threads
  {
    var running := s.threads[t].state.Running?;
    var s1 := if running then SetThread(s, t, Account(s.threads[t], now)) else s;
    var s2 := UpdateMin(s1, if running then t else NONE, now);
    var th := if running then s2.threads[t] else Place(s2.threads[t], s2.minVruntime);
    SetThread(s2, t, th.(state := Runnable)).(clock := now)
  }

  /** scheduler_enqueue on CPU `me`. */
  function Enqueue(s: State, me: nat, t: Id, wakeIdle: bool, now: nat): Outcome
    requires Sound(s) && t in s.threads && me < |s.cpus|
  {
    var previous := s.threads[t].state;
    if s.threads[t].onRunqueue || !(previous.Allocated? || previous.Running? || previous.Sleeping?) then Panic
    else
      var s1 := EnqueueEntity(Prepare(s, t, now), t);
      Ok(if wakeIdle then s1.(cpus := ClaimIdle(s1.cpus, me)) else s1)
  }

  /** scheduler_next. */
  function Next(s: State, c: nat, now: nat): Outcome
    requires Sound(s) && c < |s.cpus|
  {
    var cpu := s.cpus[c];
    if cpu.current != NONE || cpu.selected != NONE then Panic
    else
      var s0 := SetCpu(s, c, cpu.(idle := false)).(clock := now);
      if s.queue != [] then
        var t := s.queue[0];
        var d := DequeueEntity(s0, t);
        if d.Panic? then Panic
        else
          RemoveKnown(s0.queue, s0.threads, t);
          var s1 := UpdateMin(d.state, t, now);
          Ok(SetCpu(s1, c, cpu.(idle := false, selected := t, phase := Picked(t))))
      else if s.count != 0 || s.totalWeight != 0 then Panic
      else Ok(SetCpu(s0, c, cpu.(idle := true)))
  }

  lemma {:induction false} RemoveKnown(q: seq<Id>, threads: map<Id, Thread>, t: Id)
    requires forall i | 0 <= i < |q| :: q[i] in threads
    ensures forall i | 0 <= i < |Remove(q, t)| :: Remove(q, t)[i] in threads
    decreases q
  {
    if q != [] && q[0] != t { RemoveKnown(q[1..], threads, t); }
  }

  /** The dispatch loop once it has the thread's lock, up to the switch. */
  function Dispatch(s: State, c: nat, now: nat): Outcome
    requires c < |s.cpus| && s.cpus[c].phase.Picked?
  {
    var cpu, t := s.cpus[c], s.cpus[c].phase.next;
    if t !in s.threads || !s.threads[t].state.Runnable? || s.threads[t].onRunqueue || cpu.selected != t || cpu.current != NONE then Panic
    else
      var s1 := SetThread(s, t, s.threads[t].(state := Running, execStart := now, holder := c)).(clock := now);
      Ok(SetCpu(s1, c, cpu.(selected := NONE, current := t, phase := Locked(t))))
  }

  /** The running thread releases or takes its own lock. */
  function Unlock(s: State, c: nat): Outcome
    requires c < |s.cpus| && s.cpus[c].phase.Locked?
  {
    var t := s.cpus[c].current;
    if t !in s.threads then Panic
    else Ok(SetCpu(SetThread(s, t, s.threads[t].(holder := FREE)), c, s.cpus[c].(phase := Run(s.cpus[c].phase.next))))
  }

  function Lock(s: State, c: nat): Outcome
    requires c < |s.cpus| && s.cpus[c].phase.Run?
  {
    var t := s.cpus[c].current;
    if t !in s.threads then Panic
    else Ok(SetCpu(SetThread(s, t, s.threads[t].(holder := c)), c, s.cpus[c].(phase := Locked(s.cpus[c].phase.next))))
  }

  /** sched: the switch to the dispatch loop, for a thread that holds its lock and no longer runs. */
  function SwitchAway(s: State, c: nat): Outcome
    requires c < |s.cpus|
  {
    var cpu := s.cpus[c];
    if cpu.current !in s.threads || s.threads[cpu.current].holder != c || s.threads[cpu.current].state.Running? || cpu.phase.Pick? then Panic
    else Ok(SetCpu(s, c, cpu.(phase := Leave(cpu.phase.next))))
  }

  /** yield. */
  function Yield(s: State, c: nat, now: nat): Outcome
    requires Sound(s) && c < |s.cpus|
  {
    if s.cpus[c].current !in s.threads then Panic
    else
      var o := Enqueue(s, c, s.cpus[c].current, false, now);
      if o.Panic? then Panic else SwitchAway(o.state, c)
  }

  /** scheduler_block_current and scheduler_exit_locked, and the switch. */
  function Stop(s: State, c: nat, state: ThreadState, now: nat): Outcome
    requires Sound(s) && c < |s.cpus|
  {
    var t := s.cpus[c].current;
    if t !in s.threads || !s.threads[t].state.Running? then Panic
    else
      var s1 := SetThread(s, t, Account(s.threads[t], now));
      var s2 := UpdateMin(s1, t, s1.threads[t].execStart);
      SwitchAway(SetThread(s2, t, s2.threads[t].(state := state)).(clock := now), c)
  }

  /** The dispatch loop right after the switch back. */
  function SwitchBack(s: State, c: nat): Outcome
    requires c < |s.cpus| && s.cpus[c].phase.Leave?
  {
    var cpu := s.cpus[c];
    if cpu.current != cpu.phase.next || cpu.selected != NONE then Panic
    else Ok(SetCpu(s, c, cpu.(current := NONE, phase := Back(cpu.phase.next))))
  }

  /** The end of the dispatch loop: the lock is released, and an exited thread may be freed. */
  function Finish(s: State, c: nat, reap: bool): Outcome
    requires c < |s.cpus| && s.cpus[c].phase.Back?
  {
    var cpu, t := s.cpus[c], s.cpus[c].phase.next;
    if t !in s.threads then Panic
    else
      var s1 := if reap && s.threads[t].state.Exited? then s.(threads := s.threads - {t})
                else SetThread(s, t, s.threads[t].(holder := FREE));
      Ok(SetCpu(s1, c, cpu.(phase := Pick)))
  }

  function NiceWeights(): (w: seq<nat>)
    ensures |w| == 40 && forall i | 0 <= i < 40 :: MIN_WEIGHT <= w[i]
  {
    [88761, 71755, 56483, 46273, 36291, 29154, 23254, 18705, 14949, 11916,
     9548, 7620, 6100, 4904, 3906, 3121, 2501, 1991, 1586, 1277,
     1024, 820, 655, 526, 423, 335, 272, 215, 172, 137,
     110, 87, 70, 56, 45, 36, 29, 23, 18, 15]
  }

  /** scheduler_set_nice of an existing thread. */
  function SetNice(s: State, t: Id, nice: int, now: nat): Outcome
    requires Sound(s) && t in s.threads
  {
    if nice < -20 || nice > 19 then Ok(s)
    else
      var th := s.threads[t];
      var s1 := (if th.state.Running? then SetThread(s, t, Account(th, now)) else s).(clock := now);
      var w := NiceWeights()[nice + 20];
      if !th.onRunqueue then Ok(SetThread(s1, t, s1.threads[t].(weight := w)))
      else
        var d := DequeueEntity(s1, t);
        if d.Panic? then Panic
        else
          RemoveKnown(s1.queue, s1.threads, t);
          Ok(EnqueueEntity(SetThread(d.state, t, d.state.threads[t].(weight := w)), t))
  }

  /** scheduler_inherit. */
  function Inherit(s: State, child: Id, parent: Id, now: nat): Outcome
    requires Sound(s) && child in s.threads && parent in s.threads
  {
    var ch, p := s.threads[child], s.threads[parent];
    if !ch.state.Allocated? || ch.onRunqueue then Panic
    else Ok(SetThread(s, child, ch.(weight := p.weight, vruntime := VruntimeNow(p, now), initialized := p.initialized)).(clock := now))
  }

  /** A new thread, as thread_sched_init leaves it. */
  function Spawn(s: State, t: Id, tid: int): State {
    SetThread(s, t, Thread(tid, Allocated, 0, NICE_0_LOAD, false, 0, 0, false, FREE))
  }

  datatype Action =
    | DoNext(c: nat, now: nat) | DoDispatch(c: nat, now: nat) | DoUnlock(c: nat) | DoLock(c: nat)
    | DoYield(c: nat, now: nat) | DoBlock(c: nat, now: nat) | DoExit(c: nat, now: nat)
    | DoSwitchBack(c: nat) | DoFinish(c: nat, reap: bool)
    | DoWake(c: nat, t: Id, now: nat) | DoSetNice(t: Id, nice: int, now: nat)
    | DoInherit(child: Id, parent: Id, now: nat) | DoSpawn(t: Id, tid: int) | DoOnline(c: nat)

  /** The clock is sampled in order, below CLOCK_LIMIT. */
  predicate Later(s: State, now: nat) {
    s.clock <= now < CLOCK_LIMIT
  }

  predicate LockFree(s: State, t: Id) {
    t in s.threads && s.threads[t].holder == FREE
  }

  /** The CPU has been brought up. */
  predicate On(s: State, c: nat) {
    c < |s.cpus| && s.cpus[c].online
  }

  /** When the code can take the step: the CPU has got there, and the lock it needs is free. */
  predicate Enabled(s: State, a: Action) {
    match a
    case DoNext(c, now) => On(s, c) && s.cpus[c].phase.Pick? && Later(s, now)
    case DoDispatch(c, now) => On(s, c) && s.cpus[c].phase.Picked? && LockFree(s, s.cpus[c].phase.next) && Later(s, now)
    case DoUnlock(c) => On(s, c) && s.cpus[c].phase.Locked?
    case DoLock(c) => On(s, c) && s.cpus[c].phase.Run? && LockFree(s, s.cpus[c].current)
    case DoYield(c, now) => On(s, c) && s.cpus[c].phase.Locked? && Later(s, now)
    case DoBlock(c, now) => On(s, c) && s.cpus[c].phase.Locked? && Later(s, now)
    case DoExit(c, now) => On(s, c) && s.cpus[c].phase.Locked? && Later(s, now)
    case DoSwitchBack(c) => On(s, c) && s.cpus[c].phase.Leave?
    case DoFinish(c, _) => On(s, c) && s.cpus[c].phase.Back?
    case DoWake(c, t, now) =>
      On(s, c) && LockFree(s, t) && (s.threads[t].state.Allocated? || s.threads[t].state.Sleeping?) && Later(s, now)
    case DoSetNice(t, _, now) => LockFree(s, t) && Later(s, now)
    case DoInherit(child, parent, now) =>
      LockFree(s, child) && s.threads[child].state.Allocated? && parent in s.threads && Later(s, now)
    case DoSpawn(t, _) => t != NONE && t !in s.threads
    case DoOnline(c) => c < |s.cpus| && !s.cpus[c].online
  }

  function Step(s: State, a: Action): Outcome
    requires Sound(s) && Enabled(s, a)
  {
    match a
    case DoNext(c, now) => Next(s, c, now)
    case DoDispatch(c, now) => Dispatch(s, c, now)
    case DoUnlock(c) => Unlock(s, c)
    case DoLock(c) => Lock(s, c)
    case DoYield(c, now) => Yield(s, c, now)
    case DoBlock(c, now) => Stop(s, c, Sleeping, now)
    case DoExit(c, now) => Stop(s, c, Exited, now)
    case DoSwitchBack(c) => SwitchBack(s, c)
    case DoFinish(c, reap) => Finish(s, c, reap)
    case DoWake(c, t, now) => Enqueue(s, c, t, true, now)
    case DoSetNice(t, nice, now) => SetNice(s, t, nice, now)
    case DoInherit(child, parent, now) => Inherit(s, child, parent, now)
    case DoSpawn(t, tid) => Ok(Spawn(s, t, tid))
    case DoOnline(c) => Ok(SetCpu(s, c, s.cpus[c].(online := true, idle := false)))
  }
}
