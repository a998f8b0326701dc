/** The runqueue of scheduler.c as it is changed in place: the timeline is the red-black tree, the
minimum and the idle CPU are found by loops.  Each method is the step function of the same name. */
module SchedulerKernel {
  import opened Timeline
  import opened Scheduler
  import opened SchedulerEffects
  import opened SchedulerSafety

  class Cfs {
    var threads: map<Id, Thread>
    var cpus: seq<Cpu>
    const timeline: Queue
    var count: nat
    var totalWeight: nat
    var minVruntime: nat
    /** The last time the code has read. */
    ghost var clock: nat

    /** scheduler_init. */
    constructor (cpus: seq<Cpu>)
      ensures fresh(timeline) && fresh(timeline.root) && timeline.Valid()
      ensures Abs() == State(map[], cpus, [], 0, 0, 0, 0)
    {
      threads, this.cpus, count, totalWeight, minVruntime, clock := map[], cpus, 0, 0, 0, 0;
      timeline := new Queue();
    }

    /** The state of the step system. */
    ghost function Abs(): State
      reads this, timeline
    {
      State(threads, cpus, timeline.Contents(), count, totalWeight, minVruntime, clock)
    }

    ghost predicate Valid()
      reads this, timeline, timeline.root
    {
      timeline.Valid() && QueueInv(Abs())
    }

    method EnqueueEntityLocked(t: Id)
      requires Valid() && t in threads && !threads[t].onRunqueue
      modifies this, timeline, timeline.root
      ensures Valid() && Abs() == EnqueueEntity(old(Abs()), t)
    {
      hide QueueInv;
      EnqueueKeepsQueue(Abs(), t);
      QueueFacts(Abs(), t);
      timeline.Enqueue(t, Entities(threads));
      threads := threads[t := threads[t].(onRunqueue := true)];
      count := count + 1;
      totalWeight := totalWeight + threads[t].weight;
      assert Abs() == EnqueueEntity(old(Abs()), t);
    }

    method DequeueEntityLocked(t: Id) returns (panic: bool)
      requires Valid() && t in threads
      modifies this, timeline, timeline.root
      ensures panic <==> !old(threads[t].onRunqueue)
      ensures panic ==> DequeueEntity(old(Abs()), t).Panic? && Abs() == old(Abs())
      ensures !panic ==> Valid() && DequeueEntity(old(Abs()), t) == Ok(Abs())
    {
      hide QueueInv, Sorted, WeightSum, Remove;
      if threads[t].onRunqueue { DequeueKeepsQueue(Abs(), t); }
      QueueFacts(Abs(), t);
      if !threads[t].onRunqueue || count == 0 || totalWeight < threads[t].weight {
        return true;
      }
      timeline.Dequeue(t);
      threads := threads[t := threads[t].(onRunqueue := false)];
      count := count - 1;
      totalWeight := totalWeight - threads[t].weight;
      panic := false;
      assert DequeueEntity(old(Abs()), t) == Ok(Abs());
    }

    /** The search for the least virtual runtime. */
    method Minimum(selected: Id, now: nat) returns (minimum: nat)
      requires Valid()
      ensures minimum == CpusMinimum(Abs(), selected, now, |cpus|, QueueMinimum(Abs(), selected))
    {
      var first := timeline.First();
      minimum := U64_MAX;
      if selected != NONE && selected in threads {
        minimum := threads[selected].vruntime;
      }
      if first != NONE {
        assert first in timeline.Contents();
        if threads[first].vruntime < minimum {
          minimum := threads[first].vruntime;
        }
      }
      assert minimum == QueueMinimum(Abs(), selected) by {
        if timeline.Contents() != [] { assert timeline.Contents()[0] in threads; }
      }
      var c := 0;
      while c < |cpus|
        invariant c <= |cpus| && minimum == CpusMinimum(Abs(), selected, now, c, QueueMinimum(Abs(), selected))
      {
        var current, pending := cpus[c].current, cpus[c].selected;
        if current != NONE && current != selected && current in threads && threads[current].state.Running? {
          var vruntime := VruntimeNow(threads[current], now);
          if vruntime < minimum {
            minimum := vruntime;
          }
        }
        if pending != NONE && pending != selected && pending in threads && threads[pending].vruntime < minimum {
          minimum := threads[pending].vruntime;
        }
        c := c + 1;
      }
    }

    method UpdateMinVruntimeLocked(selected: Id, now: nat)
      requires Valid()
      modifies this`minVruntime
      ensures Valid() && Abs() == UpdateMin(old(Abs()), selected, now)
      ensures old(SmallRuntimes(Abs())) ==> NewMinimum(old(Abs()), selected, now, minVruntime)
    {
      if SmallRuntimes(Abs()) { MinimumExact(Abs(), selected, now); }
      hide NewMinimum, SmallRuntimes;
      var minimum := Minimum(selected, now);
      if minimum != U64_MAX && minimum > minVruntime {
        minVruntime := minimum;
      }
    }

    method ClaimIdleCpuLocked(me: nat) returns (target: int)
      requires me < |cpus|
      modifies this`cpus
      ensures cpus == ClaimIdle(old(cpus), me)
      ensures target != -1 ==> 0 <= target < |cpus| && target != me && old(cpus)[target].idle && !cpus[target].idle
      ensures target == -1 ==> forall c | 0 <= c < |cpus| && c != me :: old(cpus)[me].idle || !(cpus[c].online && cpus[c].idle)
    {
      if cpus[me].idle {
        cpus := cpus[me := cpus[me].(idle := false)];
        return -1;
      }
      var c := 0;
      while c < |cpus|
        invariant c <= |cpus| && cpus == old(cpus) && FirstIdle(cpus, me, 0) == FirstIdle(cpus, me, c)
        invariant forall d | 0 <= d < c && d != me :: !(cpus[d].online && cpus[d].idle)
      {
        if c != me && cpus[c].online && cpus[c].idle {
          cpus := cpus[c := cpus[c].(idle := false)];
          return c;
        }
        c := c + 1;
      }
      return -1;
    }

    /** scheduler_enqueue. */
    method SchedulerEnqueue(me: nat, t: Id, wakeIdle: bool, now: nat) returns (panic: bool, target: int)
      requires timeline.Valid() && Inv(Abs()) && t in threads && me < |cpus| && Later(Abs(), now)
      modifies this, timeline, timeline.root
      ensures Enqueue(old(Abs()), me, t, wakeIdle, now) == if panic then Panic else Ok(Abs())
      ensures timeline.Valid()
    {
      target := -1;
      var previous := threads[t].state;
      if threads[t].onRunqueue || (previous != Allocated && previous != Running && previous != Sleeping) {
        return true, target;
      }
      PrepareThread(t, now);
      EnqueueEntityLocked(t);
      if wakeIdle {
        target := ClaimIdleCpuLocked(me);
      }
      panic := false;
    }

    /** scheduler_enqueue up to the insertion: charging or placing, and the change of state. */
    method PrepareThread(t: Id, now: nat)
      requires timeline.Valid() && Inv(Abs()) && CanEnqueue(Abs(), t) && Later(Abs(), now)
      modifies this
      ensures Valid() && Abs() == Prepare(old(Abs()), t, now) && cpus == old(cpus)
    {
      hide Inv, QueueInv, UpdatedMin, CpusMinimum;
      PrepareSteps(Abs(), t, now);
      var running := threads[t].state == Running;
      if running {
        threads := threads[t := Account(threads[t], now)];
      }
      UpdateMinVruntimeLocked(if running then t else NONE, now);
      var th := threads[t];
      if !running {
        th := Place(th, minVruntime);
      }
      threads := threads[t := th.(state := Runnable)];
      clock := now;
    }

    /** scheduler_next. */
    method SchedulerNext(c: nat, now: nat) returns (panic: bool, next: Id)
      requires timeline.Valid() && Inv(Abs()) && c < |cpus| && Later(Abs(), now)
      modifies this, timeline, timeline.root
      ensures Next(old(Abs()), c, now) == if panic then Panic else Ok(Abs())
      ensures timeline.Valid() && (!panic ==> next == cpus[c].selected)
    {
      next := NONE;
      if cpus[c].current != NONE || cpus[c].selected != NONE {
        return true, next;
      }
      ghost var s := Abs();
      cpus := cpus[c := cpus[c].(idle := false)];
      clock := now;
      QueueFrame(s, Abs());
      next := timeline.First();
      if next != NONE {
        FirstQueued(Abs());
        RemoveKnown(Abs().queue, threads, next);
        panic := DequeueEntityLocked(next);
        UpdateMinVruntimeLocked(next, now);
        cpus := cpus[c := cpus[c].(selected := next, phase := Picked(next))];
      } else {
        assert timeline.Contents() == [] by { FirstQueued(Abs()); }
        panic := count != 0 || totalWeight != 0;
        if !panic {
          cpus := cpus[c := cpus[c].(idle := true)];
        }
      }
    }
  }

  lemma QueueFacts(s: State, t: Id)
    requires QueueInv(s) && t in s.threads
    ensures Sorted(Entities(s.threads), s.queue) && t in Entities(s.threads) && t != NONE
    ensures s.threads[t].onRunqueue <==> t in s.queue
    ensures s.threads[t].onRunqueue ==> s.count > 0 && s.totalWeight >= s.threads[t].weight
  {
    if t in s.queue { SumRemove(s.threads, s.queue, t); }
  }

  /** The queue is in order at each point of scheduler_enqueue. */
  lemma PrepareSteps(s: State, t: Id, now: nat)
    requires Inv(s) && CanEnqueue(s, t) && Later(s, now)
    ensures s.threads[t].state.Running? ==> QueueInv(SetThread(s, t, Account(s.threads[t], now)))
    ensures QueueInv(s) && Sound(s) && QueueInv(Prepare(s, t, now))
  {
    if s.threads[t].state.Running? {
      AccountKeeps(s, t, now);
      PrepareRunning(s, t, now);
    } else {
      PrepareOther(s, t, now);
    }
  }
}
