/** Every run of timed waits against a clock that does not run backwards: no timeout is reported early. */
module TimedWaits {
  import opened Common
  import opened WaitQueues
  import opened Ktime

  /** A wait for `n` units, `unit` of which make a second, counted from tick `start`. */
  datatype Ask = Ask(start: nat, n: nat, unit: nat)

  /** `waiting` are the threads inside a wait call, `answers` what the last call of each thread returned, and `asked`
      the duration of its last timed call. */
  datatype State = State(waits: Waits, clock: nat, frequency: nat, asked: map<Tid, Ask>, waiting: set<Tid>, answers: map<Tid, int>)

  datatype Action =
    | DoTimedWait(t: Tid, q: QueueId, mode: Mode, ask: Ask, now: nat) | DoWait(t: Tid, q: QueueId, mode: Mode) | DoReturn(t: Tid)
    | DoWake(t: Tid, result: int) | DoWakeMask(q: QueueId, count: nat, mask: set<nat>)
    | DoRequeue(from: QueueId, to: QueueId, count: nat, holds: nat) | DoExpire(now: nat)

  function Due(s: State, a: Ask): nat
    requires Frequency(s.frequency) && a.unit > 0
  {
    Deadline(a.start, ToTicks(a.n, s.frequency, a.unit))
  }

  predicate Ready(s: State, t: Tid) {
    t in s.waits.threads && !s.waits.threads[t].sleeping
  }

  /** The clock is read in order and is below its largest value. */
  predicate Later(s: State, now: nat) {
    s.clock <= now < U64_MAX
  }

  predicate Enabled(s: State, a: Action) {
    match a
    case DoTimedWait(t, q, _, ask, now) => Ready(s, t) && t !in s.waiting && q != NO_QUEUE && ask.unit > 0 && ask.start <= now && Later(s, now)
    case DoWait(t, q, _) => Ready(s, t) && t !in s.waiting && q != NO_QUEUE
    case DoReturn(t) => Ready(s, t) && t in s.waiting
    case DoWake(t, result) => t in s.waits.threads && s.waits.threads[t].waitingOn != NO_QUEUE && result != TIMED_OUT
    case DoWakeMask(q, _, _) => q != NO_QUEUE
    case DoRequeue(from, to, _, _) => from != NO_QUEUE && to != NO_QUEUE && from != to
    case DoExpire(now) => Later(s, now)
  }

  datatype Next = Next(state: State) | Panics

  function With(s: State, w: Option<Waits>): Next {
    if w.None? then Panics else Next(s.(waits := w.value))
  }

  /** The timed sleeps of wait.c: the deadline has passed already, or the thread sleeps until it. */
  function TimedWait(s: State, t: Tid, q: QueueId, mode: Mode, ask: Ask, now: nat): Next
    requires Frequency(s.frequency) && ask.unit > 0
  {
    var s1 := s.(clock := now, asked := s.asked[t := ask]);
    if Due(s, ask) <= now then Next(s1.(answers := s.answers[t := TIMED_OUT]))
    else With(s1.(waiting := s.waiting + {t}, answers := s.answers - {t}), Sleep(s.waits, t, q, Due(s, ask), mode))
  }

  function Step(s: State, a: Action): Next
    requires Frequency(s.frequency) && Enabled(s, a)
  {
    match a
    case DoTimedWait(t, q, mode, ask, now) => TimedWait(s, t, q, mode, ask, now)
    case DoWait(t, q, mode) =>
      With(s.(asked := s.asked - {t}, waiting := s.waiting + {t}, answers := s.answers - {t}), Sleep(s.waits, t, q, 0, mode))
    case DoReturn(t) => Next(s.(waiting := s.waiting - {t}, answers := s.answers[t := s.waits.threads[t].result]))
    case DoWake(t, result) => With(s, WakeLocked(s.waits, s.waits.threads[t].waitingOn, t, result))
    case DoWakeMask(q, count, mask) => With(s, WakeMask(s.waits, q, count, mask))
    case DoRequeue(from, to, count, holds) => With(s, Requeue(s.waits, from, to, count, holds))
    case DoExpire(now) => With(s.(clock := now), Expire(s.waits, now))
  }

  // ----- the invariant -----

  /** The thread's last timed wait is over by the clock. */
  predicate Over(s: State, t: Tid)
    requires Frequency(s.frequency)
  {
    t in s.asked && s.asked[t].unit > 0 && Due(s, s.asked[t]) <= s.clock
  }

  ghost predicate ThreadOk(s: State, t: Tid)
    requires Frequency(s.frequency)
  {
    && (t in s.waits.threads && s.waits.threads[t].sleeping ==> t in s.waiting)
    && (t in s.waits.threads && s.waits.threads[t].onTimeout ==>
          t in s.asked && s.asked[t].unit > 0 && s.waits.threads[t].deadline == Due(s, s.asked[t]))
    && (t in s.waits.threads && s.waits.threads[t].sleeping && t in s.asked ==> s.waits.threads[t].onTimeout)
    && (t in s.waiting && t in s.waits.threads && !s.waits.threads[t].sleeping && s.waits.threads[t].result == TIMED_OUT ==> Over(s, t))
    && (t in s.answers && t !in s.waiting && s.answers[t] == TIMED_OUT ==> Over(s, t))
  }

  ghost predicate Inv(s: State) {
    Frequency(s.frequency) && s.clock < U64_MAX && WaitQueues.Inv(s.waits) && forall t :: ThreadOk(s, t)
  }

  /** Threads may have been woken with another result or moved; nothing else has changed. */
  ghost predicate OnlyWakes(s: State, s': State) {
    && s' == s.(waits := s'.waits) && s'.waits.threads.Keys == s.waits.threads.Keys
    && forall t | t in s.waits.threads ::
         var w, w' := s.waits.threads[t], s'.waits.threads[t];
         || (w'.sleeping == w.sleeping && w'.onTimeout == w.onTimeout && w'.deadline == w.deadline && w'.result == w.result)
         || (!w'.sleeping && !w'.onTimeout && w'.result != TIMED_OUT)
  }

  lemma OnlyWakesKeeps(s: State, s': State)
    requires Inv(s) && OnlyWakes(s, s') && WaitQueues.Inv(s'.waits)
    ensures Inv(s')
  {
    forall t ensures ThreadOk(s', t) {
      assert ThreadOk(s, t) && (t in s'.waits.threads.Keys <==> t in s.waits.threads.Keys);
    }
  }

  lemma OneThread(s: State, s': State, t: Tid)
    requires Inv(s) && s'.clock < U64_MAX && s'.frequency == s.frequency && s.clock <= s'.clock && ThreadOk(s', t) && WaitQueues.Inv(s'.waits)
    requires s'.waits.threads.Keys == s.waits.threads.Keys && forall x | x != t && x in s.waits.threads :: s'.waits.threads[x] == s.waits.threads[x]
    requires forall x | x != t :: (x in s'.asked <==> x in s.asked) && (x in s.asked ==> s'.asked[x] == s.asked[x]) && (x in s'.waiting <==> x in s.waiting)
                                  && (x in s'.answers <==> x in s.answers) && (x in s.answers ==> s'.answers[x] == s.answers[x])
    ensures Inv(s')
  {
    forall x ensures ThreadOk(s', x) {
      if x != t { assert ThreadOk(s, x) && (x in s'.waits.threads.Keys <==> x in s.waits.threads.Keys); }
    }
  }

  lemma TimedWaitKeeps(s: State, t: Tid, q: QueueId, mode: Mode, ask: Ask, now: nat)
    requires Inv(s) && Enabled(s, DoTimedWait(t, q, mode, ask, now))
    ensures TimedWait(s, t, q, mode, ask, now).Next? && Inv(TimedWait(s, t, q, mode, ask, now).state)
    ensures var r := TimedWait(s, t, q, mode, ask, now).state;
      && t in r.asked && r.asked[t] == ask && t in r.waits.threads
      && if Due(s, ask) <= now then r.waits == s.waits && t in r.answers && r.answers[t] == TIMED_OUT
         else t in r.waiting && r.waits.threads[t].sleeping && r.waits.threads[t].onTimeout && r.waits.threads[t].deadline == Due(s, ask)
  {
    hide WaitQueues.Inv, ToTicks, Deadline;
    assert ThreadOk(s, t);
    AwakeOff(s.waits, t);
    SleepPossible(s.waits, t, q, Due(s, ask), mode);
    SleepKeeps(s.waits, t, q, Due(s, ask), mode);
    OneThread(s, TimedWait(s, t, q, mode, ask, now).state, t);
  }

  lemma AwakeOff(w: Waits, t: Tid)
    requires WaitQueues.Inv(w) && t in w.threads && !w.threads[t].sleeping
    ensures w.threads[t].waitingOn == NO_QUEUE && !w.threads[t].onTimeout
  {}

  lemma WaitKeeps(s: State, t: Tid, q: QueueId, mode: Mode)
    requires Inv(s) && Enabled(s, DoWait(t, q, mode))
    ensures Step(s, DoWait(t, q, mode)).Next? && Inv(Step(s, DoWait(t, q, mode)).state)
  {
    hide WaitQueues.Inv, ToTicks, Deadline;
    SleepPossible(s.waits, t, q, 0, mode);
    SleepKeeps(s.waits, t, q, 0, mode);
    OneThread(s, Step(s, DoWait(t, q, mode)).state, t);
  }

  lemma ReturnKeeps(s: State, t: Tid)
    requires Inv(s) && Enabled(s, DoReturn(t))
    ensures Inv(Step(s, DoReturn(t)).state)
    ensures var r := Step(s, DoReturn(t)).state;
      && t !in r.waiting && t in r.answers && r.answers[t] == s.waits.threads[t].result && r.waits == s.waits
      && forall x | x in s.answers && x != t :: x in r.answers && r.answers[x] == s.answers[x]
  {
    hide WaitQueues.Inv, ToTicks, Deadline;
    assert ThreadOk(s, t);
    OneThread(s, Step(s, DoReturn(t)).state, t);
  }

  lemma WakeStep(s: State, t: Tid, result: int)
    requires Inv(s) && Enabled(s, DoWake(t, result))
    ensures Step(s, DoWake(t, result)).Next? && Inv(Step(s, DoWake(t, result)).state)
  {
    hide WaitQueues.Inv, ToTicks, Deadline;
    WakeKeeps(s.waits, t, result);
    OnlyWakesKeeps(s, s.(waits := Wake(s.waits, t, result)));
  }

  lemma WakeMaskStep(s: State, q: QueueId, count: nat, mask: set<nat>)
    requires Inv(s) && q != NO_QUEUE
    ensures WakeMask(s.waits, q, count, mask).Some? && Inv(s.(waits := WakeMask(s.waits, q, count, mask).value))
  {
    hide WaitQueues.Inv, ToTicks, Deadline, WakeMask, Matching;
    WakeMaskKeeps(s.waits, q, count, mask);
    OnlyWakesKeeps(s, s.(waits := WakeMask(s.waits, q, count, mask).value));
  }

  lemma RequeueStep(s: State, from: QueueId, to: QueueId, count: nat, holds: nat)
    requires Inv(s) && from != NO_QUEUE && to != NO_QUEUE && from != to
    ensures Requeue(s.waits, from, to, count, holds).Some? && Inv(s.(waits := Requeue(s.waits, from, to, count, holds).value))
  {
    hide WaitQueues.Inv, ToTicks, Deadline, Requeue, Front;
    RequeueKeeps(s.waits, from, to, count, holds);
    OnlyWakesKeeps(s, s.(waits := Requeue(s.waits, from, to, count, holds).value));
  }

  /** A thread that sleeps although the time it asked for has passed. */
  predicate Overslept(s: State, t: Tid)
    requires Frequency(s.frequency)
  {
    t in s.waits.threads && s.waits.threads[t].sleeping && Over(s, t)
  }

  /** The threads that time out are those whose wait is over, and no such thread sleeps on. */
  lemma ExpireStep(s: State, now: nat)
    requires Inv(s) && Later(s, now)
    ensures Expire(s.waits, now).Some? && Inv(s.(clock := now, waits := Expire(s.waits, now).value))
    ensures forall t :: !Overslept(s.(clock := now, waits := Expire(s.waits, now).value), t)
    ensures forall t | Overslept(s.(clock := now), t) :: t in Expire(s.waits, now).value.threads && Expire(s.waits, now).value.threads[t].result == TIMED_OUT
  {
    hide WaitQueues.Inv, ToTicks, Deadline, Expire;
    ExpireExact(s.waits, now);
    var s' := s.(clock := now, waits := Expire(s.waits, now).value);
    forall t ensures ThreadOk(s', t) && !Overslept(s', t) {
      assert ThreadOk(s, t) && (t in s'.waits.threads.Keys <==> t in s.waits.threads.Keys);
      TimedSleeps(s.waits, t);
      TimedSleeps(s'.waits, t);
    }
    forall t | Overslept(s.(clock := now), t) ensures t in s'.waits.threads && s'.waits.threads[t].result == TIMED_OUT {
      assert ThreadOk(s, t) && t in s'.waits.threads.Keys;
    }
  }

  lemma TimedSleeps(w: Waits, t: Tid)
    requires WaitQueues.Inv(w)
    ensures t in w.threads && w.threads[t].onTimeout ==> w.threads[t].sleeping
  {}

  lemma StepKeeps(s: State, a: Action)
    requires Inv(s) && Enabled(s, a)
    ensures Step(s, a).Next? && Inv(Step(s, a).state)
  {
    hide WaitQueues.Inv, ThreadOk, TimedWait, WakeMask, Requeue, Expire, Sleep, WakeLocked;
    match a
    case DoTimedWait(t, q, mode, ask, now) => TimedWaitKeeps(s, t, q, mode, ask, now);
    case DoWait(t, q, mode) => WaitKeeps(s, t, q, mode);
    case DoReturn(t) => ReturnKeeps(s, t);
    case DoWake(t, result) => WakeStep(s, t, result);
    case DoWakeMask(q, count, mask) => WakeMaskStep(s, q, count, mask);
    case DoRequeue(from, to, count, holds) => RequeueStep(s, from, to, count, holds);
    case DoExpire(now) => ExpireStep(s, now);
  }

  // ----- runs -----

  datatype Trace = Start(state: State) | Then(before: Trace, action: Action)

  datatype Reached = At(state: State) | Panicked | Impossible

  /** Every thread awake, off every queue and outside every wait. */
  predicate Initial(s: State) {
    && Frequency(s.frequency) && s.clock < U64_MAX && s.waits.queues == map[] && s.waits.timeouts == [] && s.waiting == {} && s.answers == map[]
    && forall t | t in s.waits.threads ::
         !s.waits.threads[t].sleeping && s.waits.threads[t].waitingOn == NO_QUEUE && !s.waits.threads[t].onTimeout
  }

  ghost function Reach(r: Trace): Reached {
    match r
    case Start(s) => if Initial(s) then At(s) else Impossible
    case Then(before, a) =>
      var b := Reach(before);
      if !b.At? then b
      else if !Frequency(b.state.frequency) || !Enabled(b.state, a) then Impossible
      else
        var o := Step(b.state, a);
        if o.Panics? then Panicked else At(o.state)
  }

  /** No PANIC is reached, and the invariant holds over every run. */
  lemma {:induction false} Safe(r: Trace)
    ensures !Reach(r).Panicked? && (Reach(r).At? ==> Inv(Reach(r).state))
    decreases r
  {
    hide Step, WaitQueues.Inv, ThreadOk;
    match r
    case Start(s) => if Initial(s) { InitialInv(s); }
    case Then(before, a) =>
      Safe(before);
      if Reach(before).At? && Enabled(Reach(before).state, a) { StepKeeps(Reach(before).state, a); }
  }

  lemma InitialInv(s: State)
    requires Initial(s)
    ensures Inv(s)
  {}

  /** In every run, a wait that reports a timeout has lasted at least as long as was asked for. */
  lemma NoEarlyTimeout(r: Trace, t: Tid)
    requires Reach(r).At? && t in Reach(r).state.answers && t !in Reach(r).state.waiting && Reach(r).state.answers[t] == TIMED_OUT
    ensures var s := Reach(r).state;
      && Frequency(s.frequency) && t in s.asked && s.asked[t].unit > 0
      && var a := s.asked[t]; (s.clock - a.start) * a.unit >= a.n * s.frequency
  {
    hide ToTicks, Step, WaitQueues.Inv, Enabled, Initial;
    Safe(r);
    var s := Reach(r).state;
    assert ThreadOk(s, t);
    var a := s.asked[t];
    NeverEarly(a.n, s.frequency, a.unit, a.start, s.clock);
  }

  /** In every run, once an expiry pass has looked at the clock no thread sleeps beyond the time it asked for. */
  lemma NobodyOversleeps(r: Trace, now: nat)
    requires Reach(Then(r, DoExpire(now))).At?
    ensures var s := Reach(Then(r, DoExpire(now))).state; Frequency(s.frequency) && s.clock == now && forall t :: !Overslept(s, t)
  {
    hide ToTicks, Deadline, WaitQueues.Inv, Initial, Expire, Overslept;
    Safe(r);
    ExpireStep(Reach(r).state, now);
  }

  /** In every run, a sleeper that an expiry pass finds past its time reports the timeout when it returns. */
  lemma LateReports(r: Trace, t: Tid, now: nat)
    requires Reach(r).At? && Frequency(Reach(r).state.frequency) && Overslept(Reach(r).state.(clock := now), t)
    requires Reach(Then(Then(r, DoExpire(now)), DoReturn(t))).At?
    ensures var s := Reach(Then(Then(r, DoExpire(now)), DoReturn(t))).state; t in s.answers && s.answers[t] == TIMED_OUT
  {
    hide ToTicks, Deadline, WaitQueues.Inv, Initial, Expire;
    Safe(r);
    ExpireStep(Reach(r).state, now);
    ReturnKeeps(Reach(Then(r, DoExpire(now))).state, t);
  }

  /** In every run, a sleeper that is woken reports the result that it was woken with. */
  lemma WokenReports(r: Trace, t: Tid, result: int)
    requires Reach(Then(Then(r, DoWake(t, result)), DoReturn(t))).At?
    ensures var s := Reach(Then(Then(r, DoWake(t, result)), DoReturn(t))).state; t in s.answers && s.answers[t] == result
  {
    hide ToTicks, Deadline, WaitQueues.Inv, Initial, WaitsOn;
    Safe(r);
    WakeKeeps(Reach(r).state.waits, t, result);
    WakeStep(Reach(r).state, t, result);
    ReturnKeeps(Reach(Then(r, DoWake(t, result))).state, t);
  }
}
