/** Every run of futex waits, wakes and requeues, with threads that are told to exit at any time.

A thread that finds its exit requested while it holds a slot exits inside the wait and never gives the
slot back.  It looks twice before it sleeps and once more when it is woken by the request. */
module FutexRuns {
  import opened Common
  import opened WaitQueues
  import opened Futex

  /** How far a thread has got in futex_wait; threads outside it have no stage. */
  datatype Stage = Entered | Looked | Asleep | Leaving | Dead

  datatype State = State(world: World, stage: map<Tid, Stage>, exiting: set<Tid>)

  datatype Action =
    | DoWait(t: Tid, key: Key, bits: set<nat>) | DoLook(t: Tid) | DoInterrupt(t: Tid) | DoSleep(t: Tid, deadline: nat)
    | DoReturn(t: Tid) | DoPut(t: Tid)
    | DoWake(key: Key, count: nat, mask: set<nat>) | DoRequeue(from: Key, to: Key, wake: nat, requeue: nat)
    | DoExpire(now: nat) | DoSignal(t: Tid) | DoRequestExit(t: Tid) | DoTerminate(t: Tid)

  datatype Next = Next(state: State) | Panics

  predicate In(s: State, t: Tid, stage: Stage) {
    t in s.stage && s.stage[t] == stage && Awake(s.world, t)
  }

  predicate Enabled(s: State, a: Action) {
    match a
    case DoWait(t, _, bits) => Awake(s.world, t) && t !in s.stage && bits * AllBits() != {}
    case DoLook(t) => In(s, t, Entered)
    case DoInterrupt(t) => In(s, t, Looked)
    case DoSleep(t, _) => In(s, t, Looked)
    case DoReturn(t) => In(s, t, Asleep)
    case DoPut(t) => In(s, t, Leaving)
    case DoRequeue(from, to, _, _) => from != to
    case DoRequestExit(t) => t in s.world.waits.threads
    case DoTerminate(t) => t in s.exiting
    case _ => true
  }

  function Goes(s: State, t: Tid, stage: Stage): State { s.(stage := s.stage[t := stage]) }

  function With(s: State, waits: Waits): State { s.(world := s.world.(waits := waits)) }

  function FromTable(s: State, o: Futex.Outcome): Next {
    if o.Panic? then Panics else Next(s.(world := o.world))
  }

  /** The slot is taken; the thread is now in the sleep call of futex_wait. */
  function DoEnter(s: State, t: Tid, key: Key, bits: set<nat>): State
    requires t in s.world.waits.threads
  {
    var w := Enter(s.world, t, key, bits);
    if t in w.waits.threads && w.waits.threads[t].holds != 0 then Goes(s.(world := w), t, Entered) else s.(world := w)
  }

  /** The second look, under the wait locks, and the sleep. */
  function GoToSleep(s: State, t: Tid, deadline: nat): Next
    requires t in s.world.waits.threads
  {
    if t in s.exiting then Next(Goes(s, t, Dead))
    else
      var r := Sleep(s.world.waits, t, s.world.waits.threads[t].holds, deadline, Interruptible);
      if r.None? then Panics else Next(Goes(With(s, r.value), t, Asleep))
  }

  /** What a thread does when it runs again: it exits if it was terminated, which must have been requested. */
  function Return(s: State, t: Tid): Next
    requires t in s.world.waits.threads
  {
    if s.world.waits.threads[t].result != TERMINATED then Next(Goes(s, t, Leaving))
    else if t !in s.exiting then Panics else Next(Goes(s, t, Dead))
  }

  function GiveBack(s: State, t: Tid): Next
    requires t in s.world.waits.threads
  {
    if s.world.waits.threads[t].holds == 0 || s.world.waits.threads[t].holds > |s.world.slots| then Panics
    else
      var o := Put(s.world, t);
      if o.Panic? then Panics else Next(State(o.world, s.stage - {t}, s.exiting))
  }

  function Step(s: State, a: Action): Next
    requires Enabled(s, a)
  {
    match a
    case DoWait(t, key, bits) => Next(DoEnter(s, t, key, bits))
    case DoLook(t) => Next(Goes(s, t, if t in s.exiting then Dead else Looked))
    case DoInterrupt(t) => Next(Goes(s, t, Leaving))
    case DoSleep(t, deadline) => GoToSleep(s, t, deadline)
    case DoReturn(t) => Return(s, t)
    case DoPut(t) => GiveBack(s, t)
    case DoWake(key, count, mask) => FromTable(s, WakeKey(s.world, key, count, mask))
    case DoRequeue(from, to, wake, requeue) => FromTable(s, RequeueKeys(s.world, from, to, wake, requeue))
    case DoExpire(now) => var r := Expire(s.world.waits, now); if r.None? then Panics else Next(With(s, r.value))
    case DoSignal(t) => Next(With(s, SignalThread(s.world.waits, t, false)))
    case DoRequestExit(t) => Next(s.(exiting := s.exiting + {t}))
    case DoTerminate(t) => Next(With(s, TerminateThread(s.world.waits, t)))
  }

  // ----- the invariant -----

  /** A thread holds a slot exactly while it is in the wait; it sleeps only there, and only a thread told to exit is terminated. */
  ghost predicate StageOk(s: State, t: Tid) {
    var threads := s.world.waits.threads;
    && (t in s.stage ==> t in threads && threads[t].holds != 0)
    && (t in threads && t !in s.stage ==> threads[t].holds == 0 && !threads[t].sleeping)
    && (t in s.stage && t in threads && threads[t].sleeping ==> s.stage[t] == Asleep)
    && (Doomed(s, t) ==> t in s.exiting)
  }

  /** It will not give its slot back. */
  predicate Doomed(s: State, t: Tid) {
    && t in s.stage && t in s.world.waits.threads && !s.world.waits.threads[t].sleeping
    && (s.stage[t] == Dead || (s.stage[t] == Asleep && s.world.waits.threads[t].result == TERMINATED))
  }

  ghost predicate Inv(s: State) {
    Futex.Inv(s.world) && forall t :: StageOk(s, t)
  }

  // ----- the steps -----

  /** Only thread `t` moves. */
  ghost predicate OnlyMoves(s: State, s': State, t: Tid) {
    && s'.exiting == s.exiting && s'.world.waits.threads.Keys == s.world.waits.threads.Keys
    && forall x | x != t :: (x in s'.stage <==> x in s.stage) && (x in s.stage ==> s'.stage[x] == s.stage[x])
                            && (x in s.world.waits.threads ==> s'.world.waits.threads[x] == s.world.waits.threads[x])
  }

  lemma MoveKeeps(s: State, s': State, t: Tid)
    requires (forall x :: StageOk(s, x)) && OnlyMoves(s, s', t) && StageOk(s', t)
    ensures forall x :: StageOk(s', x)
  {
    forall x ensures StageOk(s', x) {
      assert StageOk(s, x) && (x in s'.world.waits.threads.Keys <==> x in s.world.waits.threads.Keys);
    }
  }

  lemma EnterStep(s: State, t: Tid, key: Key, bits: set<nat>)
    requires Inv(s) && Enabled(s, DoWait(t, key, bits))
    ensures Inv(DoEnter(s, t, key, bits)) && OnlyMoves(s, DoEnter(s, t, key, bits), t)
  {
    hide Futex.Inv, Enter;
    assert StageOk(s, t);
    EnterKeeps(s.world, t, key, bits);
    MoveKeeps(s, DoEnter(s, t, key, bits), t);
  }

  lemma GoesKeeps(s: State, t: Tid, stage: Stage)
    requires Inv(s) && t in s.stage && Awake(s.world, t) && stage != Asleep && (stage == Dead ==> t in s.exiting)
    ensures Inv(Goes(s, t, stage)) && OnlyMoves(s, Goes(s, t, stage), t)
  {
    hide Futex.Inv;
    assert StageOk(s, t);
    MoveKeeps(s, Goes(s, t, stage), t);
  }

  lemma SleepKeeps(s: State, t: Tid, deadline: nat)
    requires Inv(s) && Enabled(s, DoSleep(t, deadline)) && t !in s.exiting
    ensures GoToSleep(s, t, deadline).Next? && Inv(GoToSleep(s, t, deadline).state) && OnlyMoves(s, GoToSleep(s, t, deadline).state, t)
  {
    hide Futex.Inv;
    assert StageOk(s, t);
    HoldsSlot(s.world, t);
    SleepStep(s.world, t, s.world.waits.threads[t].holds - 1, deadline);
    MoveKeeps(s, GoToSleep(s, t, deadline).state, t);
  }

  lemma HoldsSlot(w: World, t: Tid)
    requires Futex.Inv(w) && t in w.waits.threads
    ensures w.waits.threads[t].holds <= |w.slots|
  {}

  lemma PutStep(s: State, t: Tid)
    requires Inv(s) && Enabled(s, DoPut(t))
    ensures GiveBack(s, t).Next? && Inv(GiveBack(s, t).state) && OnlyMoves(s, GiveBack(s, t).state, t)
  {
    hide Futex.Inv;
    assert StageOk(s, t);
    PutKeeps(s.world, t);
    MoveKeeps(s, GiveBack(s, t).state, t);
  }

  lemma CalmKeeps(s: State, w: World)
    requires Inv(s) && Futex.Inv(w) && Calm(s.world.waits, w.waits)
    ensures Inv(s.(world := w)) && forall t :: Doomed(s.(world := w), t) <==> Doomed(s, t)
  {
    hide Futex.Inv;
    var s' := s.(world := w);
    forall t ensures StageOk(s', t) && (Doomed(s', t) <==> Doomed(s, t)) {
      assert StageOk(s, t) && (t in s'.world.waits.threads.Keys <==> t in s.world.waits.threads.Keys);
    }
  }

  lemma TerminateKeeps(s: State, t: Tid)
    requires Inv(s) && t in s.exiting
    ensures var s' := With(s, TerminateThread(s.world.waits, t)); Inv(s') && OnlyMoves(s, s', t)
  {
    hide Futex.Inv;
    SignalStepKeeps(s.world, t);
    var s' := With(s, TerminateThread(s.world.waits, t));
    assert StageOk(s, t);
    MoveKeeps(s, s', t);
  }

  lemma RequestKeeps(s: State, t: Tid)
    requires Inv(s)
    ensures Inv(s.(exiting := s.exiting + {t}))
  {
    forall x ensures StageOk(s.(exiting := s.exiting + {t}), x) { assert StageOk(s, x); }
  }

  lemma StepKeeps(s: State, a: Action)
    requires Inv(s) && Enabled(s, a)
    ensures Step(s, a).Next? && Inv(Step(s, a).state)
  {
    hide Futex.Inv, StageOk, Calm, Enter, Put, WakeKey, RequeueKeys, Expire, SignalThread, TerminateThread, Sleep, OnlyMoves;
    match a
    case DoWait(t, key, bits) => EnterStep(s, t, key, bits);
    case DoLook(t) => GoesKeeps(s, t, if t in s.exiting then Dead else Looked);
    case DoInterrupt(t) => GoesKeeps(s, t, Leaving);
    case DoSleep(t, deadline) => if t in s.exiting { GoesKeeps(s, t, Dead); } else { SleepKeeps(s, t, deadline); }
    case DoReturn(t) => ReturnKeeps(s, t);
    case DoPut(t) => PutStep(s, t);
    case DoWake(key, count, mask) =>
      WakeKeyKeeps(s.world, key, count, mask);
      CalmKeeps(s, WakeKey(s.world, key, count, mask).world);
    case DoRequeue(from, to, wake, requeue) =>
      RequeueKeysKeeps(s.world, from, to, wake, requeue);
      CalmKeeps(s, RequeueKeys(s.world, from, to, wake, requeue).world);
    case DoExpire(now) =>
      ExpireKeeps(s.world, now);
      CalmKeeps(s, s.world.(waits := Expire(s.world.waits, now).value));
    case DoSignal(t) =>
      SignalStepKeeps(s.world, t);
      CalmKeeps(s, s.world.(waits := SignalThread(s.world.waits, t, false)));
    case DoRequestExit(t) => RequestKeeps(s, t);
    case DoTerminate(t) => TerminateKeeps(s, t);
  }

  lemma ReturnKeeps(s: State, t: Tid)
    requires Inv(s) && Enabled(s, DoReturn(t))
    ensures Return(s, t).Next? && Inv(Return(s, t).state)
  {
    hide Futex.Inv;
    assert StageOk(s, t);
    GoesKeeps(s, t, if s.world.waits.threads[t].result == TERMINATED then Dead else Leaving);
  }

  // ----- runs -----

  datatype Trace = Start(world: World) | Then(before: Trace, action: Action)

  datatype Reached = At(state: State) | Panicked | Impossible

  /** No slot in use, every thread awake and off every queue. */
  predicate Initial(w: World) {
    && |w.slots| == SLOT_COUNT && (forall i | 0 <= i < SLOT_COUNT :: !w.slots[i].active && w.slots[i].waiters == 0)
    && w.waits.queues == map[] && w.waits.timeouts == []
    && forall t | t in w.waits.threads ::
        !w.waits.threads[t].sleeping && w.waits.threads[t].waitingOn == NO_QUEUE && !w.waits.threads[t].onTimeout && w.waits.threads[t].holds == 0
  }

  ghost function Reach(r: Trace): Reached {
    match r
    case Start(w) => if Initial(w) then At(State(w, map[], {})) else Impossible
    case Then(before, a) =>
      var b := Reach(before);
      if !b.At? then b
      else if !Enabled(b.state, a) then Impossible
      else
        var o := Step(b.state, a);
        if o.Panics? then Panicked else At(o.state)
  }

  lemma InitialInv(w: World)
    requires Initial(w)
    ensures Inv(State(w, map[], {}))
  {
    forall k: nat | k < |w.slots| ensures CountOk(w, k) { assert Holders(w.waits.threads, k) == {}; }
  }

  /** The invariant holds over every run and no PANIC is reached. */
  lemma {:induction false} Safe(r: Trace)
    ensures !Reach(r).Panicked? && (Reach(r).At? ==> Inv(Reach(r).state))
    decreases r
  {
    hide Inv, Step;
    match r
    case Start(w) => if Initial(w) { InitialInv(w); }
    case Then(before, a) =>
      Safe(before);
      if Reach(before).At? && Enabled(Reach(before).state, a) { StepKeeps(Reach(before).state, a); }
  }

  // ----- when the counts are exact -----

  /** The threads that hold slot `k` and will give it back. */
  ghost function Users(s: State, k: nat): set<Tid> {
    set t | t in Holders(s.world.waits.threads, k) && !Doomed(s, t)
  }

  /** The guards of the three branches in which a waiter exits: its exit was requested before it looks, before it sleeps,
      or it sleeps when the request reaches it. */
  predicate Catches(s: State, a: Action) {
    match a
    case DoLook(t) => t in s.exiting
    case DoSleep(t, _) => t in s.exiting
    case DoTerminate(t) => t in s.world.waits.threads && s.world.waits.threads[t].sleeping && s.world.waits.threads[t].waitingOn != NO_QUEUE
    case _ => false
  }

  /** Some waiter was caught by an exit request in the run. */
  ghost predicate Caught(r: Trace) {
    r.Then? && (Caught(r.before) || (Reach(r.before).At? && Catches(Reach(r.before).state, r.action)))
  }

  ghost predicate SomeDoomed(s: State) {
    exists t :: Doomed(s, t)
  }

  /** A step dooms exactly the thread it catches, and a doomed thread stays doomed. */
  lemma DoomStep(s: State, a: Action, x: Tid)
    requires Inv(s) && Enabled(s, a) && Step(s, a).Next?
    ensures Doomed(Step(s, a).state, x) <==> Doomed(s, x) || (Catches(s, a) && x == a.t)
  {
    hide Futex.Inv, Calm, Enter, Put, WakeKey, RequeueKeys, Expire, SignalThread, TerminateThread, Sleep, OnlyMoves, StageOk;
    match a
    case DoWait(t, key, bits) => EnterStep(s, t, key, bits); MovesOnly(s, Step(s, a).state, t, x);
    case DoLook(t) => GoesKeeps(s, t, if t in s.exiting then Dead else Looked); MovesOnly(s, Step(s, a).state, t, x);
    case DoInterrupt(t) => GoesKeeps(s, t, Leaving); MovesOnly(s, Step(s, a).state, t, x);
    case DoSleep(t, deadline) =>
      if t in s.exiting { GoesKeeps(s, t, Dead); } else { SleepKeeps(s, t, deadline); SleepsNow(s, t, deadline); }
      MovesOnly(s, Step(s, a).state, t, x);
    case DoReturn(t) =>
      ReturnKeeps(s, t);
      GoesKeeps(s, t, if s.world.waits.threads[t].result == TERMINATED then Dead else Leaving);
      MovesOnly(s, Step(s, a).state, t, x);
    case DoPut(t) => PutStep(s, t); MovesOnly(s, Step(s, a).state, t, x);
    case DoWake(key, count, mask) =>
      WakeKeyKeeps(s.world, key, count, mask);
      CalmKeeps(s, WakeKey(s.world, key, count, mask).world);
    case DoRequeue(from, to, wake, requeue) =>
      RequeueKeysKeeps(s.world, from, to, wake, requeue);
      CalmKeeps(s, RequeueKeys(s.world, from, to, wake, requeue).world);
    case DoExpire(now) =>
      ExpireKeeps(s.world, now);
      CalmKeeps(s, s.world.(waits := Expire(s.world.waits, now).value));
    case DoSignal(t) =>
      SignalStepKeeps(s.world, t);
      CalmKeeps(s, s.world.(waits := SignalThread(s.world.waits, t, false)));
    case DoRequestExit(t) =>
    case DoTerminate(t) =>
      TerminateKeeps(s, t);
      MovesOnly(s, Step(s, a).state, t, x);
      TerminatesNow(s, t);
  }

  lemma MovesOnly(s: State, s': State, t: Tid, x: Tid)
    requires OnlyMoves(s, s', t)
    ensures x != t ==> (Doomed(s', x) <==> Doomed(s, x))
  {
    assert x in s'.world.waits.threads.Keys <==> x in s.world.waits.threads.Keys;
  }

  lemma SleepsNow(s: State, t: Tid, deadline: nat)
    requires t in s.world.waits.threads && t !in s.exiting && GoToSleep(s, t, deadline).Next?
    ensures GoToSleep(s, t, deadline).state.world.waits.threads[t].sleeping
  {}

  lemma TerminatesNow(s: State, t: Tid)
    requires Inv(s)
    ensures Doomed(With(s, TerminateThread(s.world.waits, t)), t) <==> Doomed(s, t) || Catches(s, DoTerminate(t))
  {
    hide Futex.Inv;
    assert StageOk(s, t);
  }

  /** Once a waiter has been caught there is always one that will not give its slot back, and before that there is none. */
  lemma {:induction false} DoomedWhen(r: Trace)
    requires Reach(r).At?
    ensures SomeDoomed(Reach(r).state) <==> Caught(r)
    decreases r
  {
    hide Inv, Step, Doomed, Catches;
    if r.Start? {
      NoStages(Reach(r).state);
    } else {
      var s := Reach(r.before).state;
      Safe(r.before);
      DoomedWhen(r.before);
      forall x ensures Doomed(Reach(r).state, x) <==> Doomed(s, x) || (Catches(s, r.action) && x == Caller(r.action)) {
        DoomStep(s, r.action, x);
        CatchesCaller(s, r.action);
      }
      if SomeDoomed(s) { var x :| Doomed(s, x); assert Doomed(Reach(r).state, x); }
      if Catches(s, r.action) { assert Doomed(Reach(r).state, Caller(r.action)); }
    }
  }

  function Caller(a: Action): Tid {
    if a.DoLook? || a.DoSleep? || a.DoTerminate? then a.t else 0
  }

  lemma CatchesCaller(s: State, a: Action)
    ensures Catches(s, a) ==> (a.DoLook? || a.DoSleep? || a.DoTerminate?) && Caller(a) == a.t
  {}

  lemma NoStages(s: State)
    requires s.stage == map[]
    ensures !SomeDoomed(s)
  {}

  /** Every count is the number of threads that will give the slot back exactly when no waiter was caught by an exit request. */
  lemma ExactWhen(r: Trace)
    requires Reach(r).At?
    ensures |Reach(r).state.world.slots| == SLOT_COUNT
    ensures !Caught(r) <==> forall k: nat | k < SLOT_COUNT :: Reach(r).state.world.slots[k].waiters == |Users(Reach(r).state, k)|
  {
    Safe(r);
    DoomedWhen(r);
    var s := Reach(r).state;
    if Caught(r) {
      var t :| Doomed(s, t);
      DoomedCounts(s, t);
    } else {
      forall k: nat | k < SLOT_COUNT ensures s.world.slots[k].waiters == |Users(s, k)| {
        assert CountOk(s.world, k);
        assert Users(s, k) == Holders(s.world.waits.threads, k);
      }
    }
  }

  lemma DoomedCounts(s: State, t: Tid)
    requires Inv(s) && Doomed(s, t)
    ensures exists k: nat :: k < SLOT_COUNT && s.world.slots[k].waiters != |Users(s, k)|
  {
    assert StageOk(s, t);
    HoldsSlot(s.world, t);
    var k := s.world.waits.threads[t].holds - 1;
    assert CountOk(s.world, k);
    var h := Holders(s.world.waits.threads, k);
    assert t in h && Users(s, k) <= h - {t};
    SubsetSize(Users(s, k), h - {t});
  }

  /** An exit request that arrives before the waiter sleeps: the slot is counted for ever although nobody will give it back. */
  lemma LeakExample()
    ensures exists r: Trace :: Reach(r).At? && Caught(r) && Reach(r).state.world.slots != [] && Reach(r).state.world.slots[0].waiters == 1 && Users(Reach(r).state, 0) == {}
  {
    var key := Key(0, 0, false);
    var th := Waiter(false, NO_QUEUE, false, 0, 0, Uninterruptible, AllBits(), 0);
    var w0 := World(seq(SLOT_COUNT, _ => Slot(key, false, 0)), Waits(map[], [], map[0 := th]));
    var r1 := Then(Start(w0), DoRequestExit(0));
    var s1 := State(w0, map[], {0});
    assert Reach(r1) == At(s1);
    assert AllBits() * AllBits() != {} by { assert Bit(0) && 0 in AllBits() && 0 in AllBits() * AllBits(); }
    FindIs(w0.slots, key, 0);
    UnusedIs(w0.slots, 0);
    var r2 := Then(r1, DoWait(0, key, AllBits()));
    var s2 := DoEnter(s1, 0, key, AllBits());
    assert Reach(r2) == At(s2) && s2.stage == map[0 := Entered] && s2.world.slots[0].waiters == 1;
    var r3 := Then(r2, DoLook(0));
    var s3 := Goes(s2, 0, Dead);
    assert Reach(r3) == At(s3) && Caught(r3);
    assert Users(s3, 0) == {} by { assert Doomed(s3, 0); }
  }
}
