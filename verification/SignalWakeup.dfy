/** No lost signal wake-up: the lock-free check of wait_queue_sleep_deadline against senders.

A thread on its way to an interruptible sleep reads its signal sequence, looks for pending signals,
and reads the sequence again under the wait locks.  A sender stores the signal, bumps the sequence
and then wakes the thread.  The steps of any number of senders interleave with those of the thread. */
module SignalWakeup {

  type Signal = nat
  type SenderId = nat

  /** How far the thread has got; `seen` is the sequence it read first. */
  datatype Phase = Awake | Read(seen: nat) | Checked(seen: nat) | Asleep

  /** A sender between its store and its wake. */
  datatype Sender = Sender(signal: Signal, bumped: bool)

  /** `pending` are the signals pending for the thread, its own and the process signals targeted at it. */
  datatype World = World(pending: set<Signal>, mask: set<Signal>, sequence: nat, phase: Phase, senders: map<SenderId, Sender>)

  datatype Action =
    | ReadSequence | CheckPending | GoToSleep | OtherWake
    | SetMask(mask: set<Signal>) | Take(signal: Signal)
    | Store(id: SenderId, signal: Signal) | StoreBlocked(signal: Signal) | Bump(id: SenderId) | WakeTarget(id: SenderId)
    | Discard(signal: Signal)

  function Unblocked(w: World): set<Signal> {
    w.pending - w.mask
  }

  /** What the code can do next; only the running thread itself changes its mask and takes signals. */
  predicate Enabled(w: World, a: Action) {
    match a
    case ReadSequence => w.phase.Awake?
    case CheckPending => w.phase.Read?
    case GoToSleep => w.phase.Checked?
    case OtherWake => w.phase.Asleep?
    case SetMask(_) => w.phase.Awake?
    case Take(_) => w.phase.Awake?
    case Store(id, signal) => id !in w.senders && signal !in w.mask
    case StoreBlocked(signal) => signal in w.mask
    case Bump(id) => id in w.senders && !w.senders[id].bumped
    case WakeTarget(id) => id in w.senders && w.senders[id].bumped
    case Discard(_) => true
  }

  function Step(w: World, a: Action): World
    requires Enabled(w, a)
  {
    match a
    case ReadSequence => w.(phase := Read(w.sequence))
    // A pending signal, or a changed sequence, makes the sleep return as interrupted.
    case CheckPending => if Unblocked(w) != {} then w.(phase := Awake) else w.(phase := Checked(w.phase.seen))
    case GoToSleep => if w.sequence != w.phase.seen then w.(phase := Awake) else w.(phase := Asleep)
    case OtherWake => w.(phase := Awake)
    case SetMask(mask) => w.(mask := mask)
    case Take(signal) => w.(pending := w.pending - {signal})
    case Store(id, signal) => w.(pending := w.pending + {signal}, senders := w.senders[id := Sender(signal, false)])
    case StoreBlocked(signal) => w.(pending := w.pending + {signal})
    case Bump(id) => w.(sequence := w.sequence + 1, senders := w.senders[id := w.senders[id].(bumped := true)])
    case WakeTarget(id) => w.(phase := if w.phase.Asleep? then Awake else w.phase, senders := w.senders - {id})
    case Discard(signal) => w.(pending := w.pending - {signal})
  }

  /** Some sender of `signal` has not reached its wake; it may already have bumped the sequence. */
  ghost predicate OnItsWay(w: World, signal: Signal, bumpedToo: bool) {
    exists id :: id in w.senders && w.senders[id].signal == signal && (bumpedToo || !w.senders[id].bumped)
  }

  ghost predicate Inv(w: World) {
    match w.phase
    case Awake => true
    case Read(seen) => seen <= w.sequence
    case Checked(seen) => seen <= w.sequence && (seen == w.sequence ==> forall s | s in Unblocked(w) :: OnItsWay(w, s, false))
    case Asleep => forall s | s in Unblocked(w) :: OnItsWay(w, s, true)
  }

  /** The property: a sleeping thread with an unblocked signal pending has a wake-up coming. */
  ghost predicate NotLost(w: World) {
    w.phase.Asleep? ==> forall s | s in Unblocked(w) :: OnItsWay(w, s, true)
  }

  lemma SameSenders(w: World, w': World, s: Signal, b: bool)
    requires OnItsWay(w, s, b) && forall id | id in w.senders :: id in w'.senders && w'.senders[id] == w.senders[id]
    ensures OnItsWay(w', s, b) && OnItsWay(w', s, true)
  {
    var id :| id in w.senders && w.senders[id].signal == s && (b || !w.senders[id].bumped);
    assert id in w'.senders && w'.senders[id] == w.senders[id];
  }

  lemma StepKeeps(w: World, a: Action)
    requires Inv(w) && Enabled(w, a)
    ensures Inv(Step(w, a))
  {
    var w' := Step(w, a);
    match a
    case Store(id, signal) =>
      forall s | s in Unblocked(w') && OnItsWay(w, s, w.phase.Asleep?) ensures OnItsWay(w', s, w.phase.Asleep?) {
        SameSenders(w, w', s, w.phase.Asleep?);
      }
      assert w'.senders[id] == Sender(signal, false);
    case Bump(id) =>
      if w.phase.Asleep? {
        forall s | s in Unblocked(w') ensures OnItsWay(w', s, true) {
          assert OnItsWay(w, s, true);
          var k :| k in w.senders && w.senders[k].signal == s;
          assert k in w'.senders && w'.senders[k].signal == s;
        }
      }
    case WakeTarget(id) =>
      if w.phase.Checked? && w.phase.seen == w.sequence {
        forall s | s in Unblocked(w') ensures OnItsWay(w', s, false) {
          assert OnItsWay(w, s, false);
          var k :| k in w.senders && w.senders[k].signal == s && !w.senders[k].bumped;
          assert k in w'.senders && w'.senders[k] == w.senders[k];
        }
      }
    case GoToSleep =>
      forall s | s in Unblocked(w) && OnItsWay(w, s, false) ensures OnItsWay(w', s, true) { SameSenders(w, w', s, false); }
    case _ =>
      forall s | s in Unblocked(w') && OnItsWay(w, s, w.phase.Asleep?) ensures OnItsWay(w', s, w.phase.Asleep?) {
        SameSenders(w, w', s, w.phase.Asleep?);
      }
  }

  /** The thread gives up the sleep exactly for an unblocked signal it sees or a sequence that has moved, and sleeps otherwise;
      a wake reaches it exactly when it sleeps. */
  lemma SleeperExact(w: World, id: SenderId)
    ensures w.phase.Read? ==> (Step(w, CheckPending).phase.Awake? <==> exists s :: s in w.pending && s !in w.mask)
    ensures w.phase.Read? ==> Step(w, CheckPending).phase in {Awake, Checked(w.phase.seen)}
    ensures w.phase.Checked? ==> (Step(w, GoToSleep).phase.Asleep? <==> w.phase.seen == w.sequence)
    ensures w.phase.Checked? && w.phase.seen != w.sequence ==> Step(w, GoToSleep).phase.Awake?
    ensures Enabled(w, WakeTarget(id)) ==>
      !Step(w, WakeTarget(id)).phase.Asleep? && (!w.phase.Asleep? ==> Step(w, WakeTarget(id)).phase == w.phase)
  {
    if s :| s in w.pending && s !in w.mask { assert s in Unblocked(w); }
  }

  datatype Trace = Start(world: World) | Then(before: Trace, action: Action)

  predicate Initial(w: World) {
    w.phase == Awake && w.senders == map[]
  }

  datatype Reached = At(world: World) | Impossible

  ghost function Reach(r: Trace): Reached {
    match r
    case Start(w) => if Initial(w) then At(w) else Impossible
    case Then(before, a) =>
      var b := Reach(before);
      if b.At? && Enabled(b.world, a) then At(Step(b.world, a)) else Impossible
  }

  /** In every interleaving. */
  lemma {:induction false} NoLostWakeup(r: Trace)
    ensures Reach(r).At? ==> Inv(Reach(r).world) && NotLost(Reach(r).world)
    decreases r
  {
    if r.Then? {
      NoLostWakeup(r.before);
      var b := Reach(r.before);
      if b.At? && Enabled(b.world, r.action) { StepKeeps(b.world, r.action); }
    }
  }

  /** Without the second look at the sequence the wake-up can be lost. */
  function StepUnchecked(w: World, a: Action): World
    requires Enabled(w, a)
  {
    if a.GoToSleep? then w.(phase := Asleep) else Step(w, a)
  }

  lemma SecondLookNeeded()
    ensures exists r: Trace :: Reach(r).At? && Enabled(Reach(r).world, GoToSleep) && !NotLost(StepUnchecked(Reach(r).world, GoToSleep))
  {
    var w := World({1}, {}, 1, Checked(0), map[]);
    RaceReaches();
    assert 1 in Unblocked(StepUnchecked(w, GoToSleep));
    assert !NotLost(StepUnchecked(w, GoToSleep));
    hide Reach;
  }

  /** The thread has looked at its pending signals and a sender does all its work before the thread sleeps. */
  function Race(): Trace {
    Then(Then(Then(Looked(), Store(0, 1)), Bump(0)), WakeTarget(0))
  }

  function Looked(): Trace {
    Then(Then(Start(World({}, {}, 0, Awake, map[])), ReadSequence), CheckPending)
  }

  lemma LookedReaches()
    ensures Reach(Looked()) == At(World({}, {}, 0, Checked(0), map[]))
  {}

  lemma RaceReaches()
    ensures Reach(Race()) == At(World({1}, {}, 1, Checked(0), map[]))
  {
    LookedReaches();
    hide Looked;
    assert Reach(Then(Then(Looked(), Store(0, 1)), Bump(0))) == At(World({1}, {}, 1, Checked(0), map[0 := Sender(1, true)]));
  }
}
