/** Pending signals of signal.c: the pending sets, the real-time queues, and which thread a process
signal is aimed at.  A signal set is a set of numbers from 1 to 64. */
module Signals {
  import opened Common

  const SIGKILL: nat := 9
  const SIGCONT: nat := 18
  const SIGSTOP: nat := 19
  const RTMIN: nat := 32
  const SIGNAL_COUNT: nat := 64
  const REALTIME_LIMIT: nat := 128

  /** The siginfo of one signal. */
  datatype Info = Info(signal: nat, value: nat)

  datatype Pending = Pending(bits: set<nat>, information: map<nat, Info>, realtime: seq<Info>, realtimeCount: nat)

  const EMPTY := Pending({}, map[], [], 0)

  datatype Disposition = Default | Ignore | Handler

  /** `live` is false for a thread that is being set up or has exited. */
  datatype Task = Task(mask: set<nat>, pending: Pending, target: set<nat>, live: bool)

  datatype Process = Process(pending: Pending, tasks: seq<Option<Task>>, actions: map<nat, Disposition>, stopped: bool)

  predicate Realtime(signal: nat) { signal >= RTMIN }

  predicate Stops(signal: nat) { signal in {SIGSTOP, 20, 21, 22} }

  predicate IgnoredByDefault(signal: nat) { signal in {17, 23, 28} }

  predicate ValidSignal(signal: nat) { 1 <= signal <= SIGNAL_COUNT }

  // ----- One pending set -----

  /** The queued entries of one real-time signal, oldest first. */
  function Queued(q: seq<Info>, signal: nat): seq<Info> {
    if q == [] then [] else (if q[0].signal == signal then [q[0]] else []) + Queued(q[1..], signal)
  }

  function Others(q: seq<Info>, signal: nat): seq<Info> {
    if q == [] then [] else (if q[0].signal == signal then [] else [q[0]]) + Others(q[1..], signal)
  }

  /** The bit of a real-time signal is set exactly when its queue holds an entry. */
  ghost predicate PendingOk(p: Pending) {
    && p.realtimeCount == |p.realtime|
    && (forall s | s in p.bits :: ValidSignal(s))
    && (forall s | Realtime(s) :: s in p.bits <==> Queued(p.realtime, s) != [])
    && (forall s | s in p.bits && !Realtime(s) :: s in p.information && p.information[s].signal == s)
    && (forall i | 0 <= i < |p.realtime| :: Realtime(p.realtime[i].signal))
  }

  /** signal_pending_clear. */
  function Clear(p: Pending, signal: nat): Pending {
    var q := Others(p.realtime, signal);
    Pending(p.bits - {signal}, p.information - {signal}, q,
            if p.realtimeCount >= |p.realtime| - |q| then p.realtimeCount - (|p.realtime| - |q|) else 0)
  }

  /** signal_store_pending; `alloc` is what the allocation of a queue entry answers. */
  function Store(p: Pending, info: Info, alloc: bool): Option<Pending> {
    if Realtime(info.signal) then
      if p.realtimeCount >= REALTIME_LIMIT || !alloc then None
      else Some(p.(realtime := p.realtime + [info], realtimeCount := p.realtimeCount + 1, bits := p.bits + {info.signal}))
    else if info.signal in p.bits then Some(p)
    else Some(p.(bits := p.bits + {info.signal}, information := p.information[info.signal := info]))
  }

  /** The queue without its oldest entry of this signal. */
  function WithoutFirst(q: seq<Info>, signal: nat): seq<Info> {
    if q == [] then [] else if q[0].signal == signal then q[1..] else [q[0]] + WithoutFirst(q[1..], signal)
  }

  /** One occurrence of a pending signal leaves the set; None is the PANIC for a missing entry. */
  function TakeOne(p: Pending, signal: nat): Option<(Info, Pending)> {
    if Realtime(signal) then
      if Queued(p.realtime, signal) == [] || p.realtimeCount == 0 then None
      else
        var q := WithoutFirst(p.realtime, signal);
        Some((Queued(p.realtime, signal)[0],
              p.(realtime := q, realtimeCount := p.realtimeCount - 1,
                 bits := if Queued(q, signal) != [] then p.bits else p.bits - {signal})))
    else if signal !in p.information then None
    else Some((p.information[signal], p.(bits := p.bits - {signal}, information := p.information - {signal})))
  }

  lemma {:induction false} QueuedSnoc(q: seq<Info>, info: Info, s: nat)
    ensures Queued(q + [info], s) == Queued(q, s) + if info.signal == s then [info] else []
    decreases q
  {
    if q != [] {
      assert (q + [info])[1..] == q[1..] + [info];
      QueuedSnoc(q[1..], info, s);
    }
  }

  lemma {:induction false} QueuedOthers(q: seq<Info>, signal: nat, s: nat)
    ensures Queued(Others(q, signal), s) == if s == signal then [] else Queued(q, s)
    ensures |Others(q, signal)| <= |q| && forall x | x in Others(q, signal) :: x in q
    decreases q
  {
    if q != [] {
      QueuedOthers(q[1..], signal, s);
      var r := Others(q[1..], signal);
      assert ([q[0]] + r)[1..] == r && [] + r == r;
    }
  }

  lemma {:induction false} QueuedFirst(q: seq<Info>, signal: nat, s: nat)
    requires Queued(q, signal) != []
    ensures Queued(WithoutFirst(q, signal), s) == if s == signal then Queued(q, s)[1..] else Queued(q, s)
    ensures |WithoutFirst(q, signal)| == |q| - 1 && forall x | x in WithoutFirst(q, signal) :: x in q
    decreases q
  {
    if q[0].signal != signal {
      QueuedFirst(q[1..], signal, s);
      var r := WithoutFirst(q[1..], signal);
      assert ([q[0]] + r)[1..] == r;
    }
  }

  lemma ClearKeeps(p: Pending, signal: nat)
    requires PendingOk(p)
    ensures PendingOk(Clear(p, signal)) && signal !in Clear(p, signal).bits
    ensures forall s | s != signal :: Queued(Clear(p, signal).realtime, s) == Queued(p.realtime, s)
  {
    var q := Others(p.realtime, signal);
    forall s ensures Queued(q, s) == if s == signal then [] else Queued(p.realtime, s) { QueuedOthers(p.realtime, signal, s); }
    QueuedOthers(p.realtime, signal, 0);
    forall i | 0 <= i < |q| ensures Realtime(q[i].signal) {
      assert q[i] in q && q[i] in p.realtime;
    }
  }

  /** A stored real-time signal goes behind the earlier ones; a standard signal that is pending stays as it was. */
  lemma StoreKeeps(p: Pending, info: Info, alloc: bool)
    requires PendingOk(p) && ValidSignal(info.signal)
    ensures var r := Store(p, info, alloc);
      && (r.None? <==> Realtime(info.signal) && (|p.realtime| >= REALTIME_LIMIT || !alloc))
      && (r.Some? ==> PendingOk(r.value) && r.value.bits == p.bits + {info.signal})
      && (r.Some? && Realtime(info.signal) ==> Queued(r.value.realtime, info.signal) == Queued(p.realtime, info.signal) + [info])
      && (r.Some? ==> forall s | s != info.signal :: Queued(r.value.realtime, s) == Queued(p.realtime, s))
  {
    forall s ensures Queued(p.realtime + [info], s) == Queued(p.realtime, s) + if info.signal == s then [info] else [] {
      QueuedSnoc(p.realtime, info, s);
    }
  }

  /** Entries of a real-time signal leave in the order they came, and its bit is cleared with the last one. */
  lemma TakeOneKeeps(p: Pending, signal: nat)
    requires PendingOk(p) && signal in p.bits
    ensures var r := TakeOne(p, signal);
      && r.Some? && r.value.0.signal == signal && PendingOk(r.value.1)
      && (Realtime(signal) ==> r.value.0 == Queued(p.realtime, signal)[0] && Queued(r.value.1.realtime, signal) == Queued(p.realtime, signal)[1..])
      && (forall s | s != signal :: Queued(r.value.1.realtime, s) == Queued(p.realtime, s) && (s in r.value.1.bits <==> s in p.bits))
      && (signal in r.value.1.bits <==> Realtime(signal) && |Queued(p.realtime, signal)| > 1)
  {
    if Realtime(signal) {
      var q := WithoutFirst(p.realtime, signal);
      forall s ensures Queued(q, s) == if s == signal then Queued(p.realtime, s)[1..] else Queued(p.realtime, s) {
        QueuedFirst(p.realtime, signal, s);
      }
      QueuedFirst(p.realtime, signal, 0);
      QueuedHead(p.realtime, signal);
      forall i | 0 <= i < |q| ensures Realtime(q[i].signal) {
        assert q[i] in q && q[i] in p.realtime;
      }
    }
  }

  lemma {:induction false} QueuedHead(q: seq<Info>, signal: nat)
    requires Queued(q, signal) != []
    ensures Queued(q, signal)[0].signal == signal && |q| > 0
    decreases q
  {
    if q[0].signal != signal { QueuedHead(q[1..], signal); }
  }

  // ----- The process -----

  function ClearTask(t: Option<Task>, signal: nat): Option<Task> {
    if t.None? then None else Some(t.value.(pending := Clear(t.value.pending, signal), target := t.value.target - {signal}))
  }

  function UntargetTask(t: Option<Task>, signal: nat): Option<Task> {
    if t.None? then None else Some(t.value.(target := t.value.target - {signal}))
  }

  /** signal_clear_locked: the signal disappears from the whole process. */
  function ClearAll(p: Process, signal: nat): Process {
    p.(pending := Clear(p.pending, signal),
       tasks := seq(|p.tasks|, i requires 0 <= i < |p.tasks| => ClearTask(p.tasks[i], signal)))
  }

  /** signal_target_clear_locked. */
  function Untarget(p: Process, signal: nat): Process {
    p.(tasks := seq(|p.tasks|, i requires 0 <= i < |p.tasks| => UntargetTask(p.tasks[i], signal)))
  }

  /** signal_thread_targetable_locked, for the thread in slot `i`. */
  predicate Targetable(p: Process, i: nat, signal: nat, exclude: int) {
    && i < |p.tasks| && p.tasks[i].Some? && i != exclude && p.tasks[i].value.live
    && (signal == SIGKILL || signal == SIGSTOP || signal !in p.tasks[i].value.mask)
  }

  predicate Targets(p: Process, i: nat, signal: nat) {
    i < |p.tasks| && p.tasks[i].Some? && signal in p.tasks[i].value.target
  }

  function FirstTargetable(p: Process, signal: nat, exclude: int, i: nat): nat
    decreases |p.tasks| - i
  {
    if i >= |p.tasks| || Targetable(p, i, signal, exclude) then i else FirstTargetable(p, signal, exclude, i + 1)
  }

  function Aim(p: Process, i: nat, signal: nat): Process
    requires i < |p.tasks| && p.tasks[i].Some?
  {
    p.(tasks := p.tasks[i := Some(p.tasks[i].value.(target := p.tasks[i].value.target + {signal}))])
  }

  /** A thread that is targeted already may keep the signal. */
  predicate KeepsTarget(p: Process, signal: nat, exclude: int) {
    exists i: nat :: i < |p.tasks| && Targets(p, i, signal) && Targetable(p, i, signal, exclude)
  }

  /** signal_process_retarget_locked. */
  function Retarget(p: Process, signal: nat, exclude: int): Process {
    if signal !in p.pending.bits then Untarget(p, signal)
    else if KeepsTarget(p, signal, exclude) then p
    else
      var q := Untarget(p, signal);
      var i := FirstTargetable(q, signal, exclude, 0);
      if i < |q.tasks| && q.tasks[i].Some? then Aim(q, i, signal) else q
  }

  /** Retargets, in ascending order from `s` on, the signals of a set. */
  function RetargetFrom(p: Process, signals: set<nat>, s: nat, exclude: int): Process
    decreases SIGNAL_COUNT + 1 - s
  {
    if s > SIGNAL_COUNT then p
    else RetargetFrom(if s in signals then Retarget(p, s, exclude) else p, signals, s + 1, exclude)
  }

  /** signal_thread_mask_changed_locked, after the mask of thread `i` has become `mask`. */
  function ChangeMask(p: Process, i: nat, mask: set<nat>): Process
    requires i < |p.tasks| && p.tasks[i].Some?
  {
    var q := p.(tasks := p.tasks[i := Some(p.tasks[i].value.(mask := mask))]);
    RetargetFrom(q, q.pending.bits, 1, -1)
  }

  /** signal_thread_detach_locked. */
  function Detach(p: Process, i: nat): Process
    requires i < |p.tasks| && p.tasks[i].Some?
  {
    var targeted := p.tasks[i].value.target;
    RetargetFrom(p.(tasks := p.tasks[i := Some(p.tasks[i].value.(target := {}))]), targeted, 1, i)
  }

  /** signal_prepare_group_locked. */
  function Prepare(p: Process, signal: nat): Process {
    if signal == SIGCONT then ClearAll(ClearAll(ClearAll(ClearAll(p, SIGSTOP), 20), 21), 22).(stopped := false)
    else if Stops(signal) then ClearAll(p, SIGCONT)
    else if signal == SIGKILL then p.(stopped := false)
    else p
  }

  function Action(p: Process, signal: nat): Disposition {
    if signal in p.actions then p.actions[signal] else Default
  }

  predicate AnyTargetable(p: Process, signal: nat) {
    exists i: nat :: i < |p.tasks| && Targetable(p, i, signal, -1)
  }

  predicate ProcessIgnores(p: Process, signal: nat) {
    Action(p, signal) == Ignore || (Action(p, signal) == Default && IgnoredByDefault(signal) && AnyTargetable(p, signal))
  }

  /** signal_queue_process_locked of a live process. */
  function QueueProcess(p: Process, info: Info, alloc: bool): Process {
    if !ValidSignal(info.signal) then p
    else
      var q := Prepare(p, info.signal);
      if ProcessIgnores(q, info.signal) then q
      else
        var r := Store(q.pending, info, alloc);
        if r.None? then q else Retarget(q.(pending := r.value), info.signal, -1)
  }

  predicate TaskIgnores(p: Process, i: nat, signal: nat)
    requires i < |p.tasks| && p.tasks[i].Some?
  {
    Action(p, signal) == Ignore || (Action(p, signal) == Default && IgnoredByDefault(signal) && signal !in p.tasks[i].value.mask)
  }

  /** signal_queue_thread_locked of a live thread of a live process. */
  function QueueThread(p: Process, i: nat, info: Info, alloc: bool): Process {
    if !ValidSignal(info.signal) || i >= |p.tasks| || p.tasks[i].None? then p
    else
      var q := Prepare(p, info.signal);
      if i >= |q.tasks| || q.tasks[i].None? || TaskIgnores(q, i, info.signal) then q
      else
        var r := Store(q.tasks[i].value.pending, info, alloc);
        if r.None? then q else q.(tasks := q.tasks[i := Some(q.tasks[i].value.(pending := r.value))])
  }

  /** What thread `i` may take from `set`; process signals only when aimed at it, if `honor` is set. */
  function Available(p: Process, i: nat, signals: set<nat>, honor: bool): set<nat>
    requires i < |p.tasks| && p.tasks[i].Some?
  {
    (p.tasks[i].value.pending.bits + (if honor then p.pending.bits * p.tasks[i].value.target else p.pending.bits)) * signals
  }

  function Lowest(signals: set<nat>, s: nat): nat
    decreases SIGNAL_COUNT + 1 - s
  {
    if s > SIGNAL_COUNT || s in signals then s else Lowest(signals, s + 1)
  }

  datatype Taken = Nothing(process: Process) | Took(info: Info, process: Process) | Panic

  /** signal_take_set_locked. */
  function Take(p: Process, i: nat, signals: set<nat>, honor: bool): Taken
    requires i < |p.tasks| && p.tasks[i].Some?
  {
    var s := Lowest(Available(p, i, signals, honor), 1);
    if s > SIGNAL_COUNT then Nothing(p)
    else if s in p.tasks[i].value.pending.bits then
      var r := TakeOne(p.tasks[i].value.pending, s);
      if r.None? then Panic else Took(r.value.0, p.(tasks := p.tasks[i := Some(p.tasks[i].value.(pending := r.value.1))]))
    else
      var r := TakeOne(p.pending, s);
      if r.None? then Panic
      else
        var q := p.(pending := r.value.1);
        Took(r.value.0, if s in r.value.1.bits then q else Untarget(q, s))
  }

  // ----- The invariant -----

  predicate Has(p: Process, i: nat, signal: nat) {
    i < |p.tasks| && p.tasks[i].Some? && signal in p.tasks[i].value.pending.bits
  }

  /** The signal is pending somewhere in the process. */
  ghost predicate Anywhere(p: Process, signal: nat) {
    signal in p.pending.bits || exists i: nat :: Has(p, i, signal)
  }

  ghost predicate QueuesOk(p: Process) {
    PendingOk(p.pending) && forall i: nat | i < |p.tasks| && p.tasks[i].Some? :: PendingOk(p.tasks[i].value.pending)
  }

  /** SIGCONT and a stop signal are never pending together. */
  ghost predicate ContOrStop(p: Process) {
    forall s | Stops(s) :: !(Anywhere(p, SIGCONT) && Anywhere(p, s))
  }

  /** A process signal is aimed at no more than one thread, and only while it is pending. */
  ghost predicate AimedOnce(p: Process) {
    && (forall i: nat, s | Targets(p, i, s) :: s in p.pending.bits)
    && (forall i: nat, j: nat, s | Targets(p, i, s) && Targets(p, j, s) :: i == j)
  }

  ghost predicate Inv(p: Process) {
    QueuesOk(p) && ContOrStop(p) && AimedOnce(p)
  }

  lemma ClearAllKeeps(p: Process, signal: nat)
    requires Inv(p)
    ensures Inv(ClearAll(p, signal)) && !Anywhere(ClearAll(p, signal), signal)
    ensures forall s :: Anywhere(ClearAll(p, signal), s) <==> Anywhere(p, s) && s != signal
    ensures |ClearAll(p, signal).tasks| == |p.tasks| && forall i: nat | i < |p.tasks| :: ClearAll(p, signal).tasks[i].Some? == p.tasks[i].Some?
  {
    var q := ClearAll(p, signal);
    ClearKeeps(p.pending, signal);
    forall i: nat | i < |p.tasks| && p.tasks[i].Some? ensures PendingOk(q.tasks[i].value.pending) {
      ClearKeeps(p.tasks[i].value.pending, signal);
    }
    forall i: nat, s ensures Has(q, i, s) <==> Has(p, i, s) && s != signal {}
    forall s | s != signal && Anywhere(p, s) ensures Anywhere(q, s) {
      if s !in p.pending.bits { var i: nat :| Has(p, i, s); assert Has(q, i, s); }
    }
    forall i: nat, s | Targets(q, i, s) ensures Targets(p, i, s) && s in q.pending.bits {
      assert Targets(p, i, s);
    }
  }

  lemma UntargetKeeps(p: Process, signal: nat)
    requires QueuesOk(p) && ContOrStop(p)
    ensures QueuesOk(Untarget(p, signal)) && ContOrStop(Untarget(p, signal))
    ensures forall i: nat, s :: Targets(Untarget(p, signal), i, s) <==> Targets(p, i, s) && s != signal
  {
    var q := Untarget(p, signal);
    forall i: nat, s ensures Has(q, i, s) <==> Has(p, i, s) {}
    forall s ensures Anywhere(q, s) <==> Anywhere(p, s) {
      if Anywhere(q, s) && s !in q.pending.bits { var i: nat :| Has(q, i, s); assert Has(p, i, s); }
    }
    forall i: nat, s ensures Targets(q, i, s) <==> Targets(p, i, s) && s != signal {}
  }

  lemma {:induction false} FirstTargetableIs(p: Process, signal: nat, exclude: int, i: nat)
    ensures var f := FirstTargetable(p, signal, exclude, i);
      && i <= f && (f < |p.tasks| ==> Targetable(p, f, signal, exclude))
      && forall j: nat | i <= j < f :: !Targetable(p, j, signal, exclude)
    decreases |p.tasks| - i
  {
    if i < |p.tasks| && !Targetable(p, i, signal, exclude) { FirstTargetableIs(p, signal, exclude, i + 1); }
  }

  lemma AimKeeps(p: Process, i: nat, signal: nat)
    requires Inv(p) && i < |p.tasks| && p.tasks[i].Some? && signal in p.pending.bits && forall j: nat :: !Targets(p, j, signal)
    ensures Inv(Aim(p, i, signal))
    ensures forall j: nat, s :: Targets(Aim(p, i, signal), j, s) <==> Targets(p, j, s) || (j == i && s == signal)
  {
    var q := Aim(p, i, signal);
    forall j: nat, s ensures Has(q, j, s) <==> Has(p, j, s) {}
    forall s ensures Anywhere(q, s) <==> Anywhere(p, s) {
      if Anywhere(q, s) && s !in q.pending.bits { var j: nat :| Has(q, j, s); assert Has(p, j, s); }
    }
    forall j: nat, s ensures Targets(q, j, s) <==> Targets(p, j, s) || (j == i && s == signal) {}
  }

  /** After retargeting, a pending signal is aimed at a thread that can take it, if there is one. */
  lemma RetargetKeeps(p: Process, signal: nat, exclude: int)
    requires Inv(p)
    ensures Inv(Retarget(p, signal, exclude)) && Retarget(p, signal, exclude).pending == p.pending
    ensures |Retarget(p, signal, exclude).tasks| == |p.tasks|
    ensures signal in p.pending.bits ==>
      (KeepsTarget(Retarget(p, signal, exclude), signal, exclude) <==> exists i: nat :: i < |p.tasks| && Targetable(p, i, signal, exclude))
  {
    UntargetKeeps(p, signal);
    var q := Untarget(p, signal);
    assert AimedOnce(q) by {
      forall i: nat, s | Targets(q, i, s) ensures Targets(p, i, s) {}
    }
    if signal in p.pending.bits {
      if KeepsTarget(p, signal, exclude) {
      } else {
        FirstTargetableIs(q, signal, exclude, 0);
        var i := FirstTargetable(q, signal, exclude, 0);
        assert forall j: nat :: Targetable(q, j, signal, exclude) <==> Targetable(p, j, signal, exclude);
        if i < |q.tasks| {
          AimKeeps(q, i, signal);
          assert Targetable(p, i, signal, exclude);
          assert Targets(Aim(q, i, signal), i, signal) && Targetable(Aim(q, i, signal), i, signal, exclude);
        } else {
          NobodyKeeps(p, q, signal, exclude);
        }
      }
    }
  }

  lemma NobodyKeeps(p: Process, q: Process, signal: nat, exclude: int)
    requires forall j: nat :: !Targetable(q, j, signal, exclude)
    requires forall j: nat :: Targetable(q, j, signal, exclude) <==> Targetable(p, j, signal, exclude)
    ensures !KeepsTarget(q, signal, exclude) && !exists i: nat :: i < |p.tasks| && Targetable(p, i, signal, exclude)
  {}

  /** Some thread other than `exclude` can take the signal. */
  ghost predicate Takers(p: Process, signal: nat, exclude: int) {
    exists i: nat :: i < |p.tasks| && Targetable(p, i, signal, exclude)
  }

  ghost predicate SameTakers(p: Process, q: Process) {
    |q.tasks| == |p.tasks| && forall j: nat, s, e :: Targetable(q, j, s, e) <==> Targetable(p, j, s, e)
  }

  /** Retargeting a signal moves no other signal, and thread `exclude` does not get it back. */
  lemma RetargetOnly(p: Process, signal: nat, exclude: int)
    ensures SameTakers(p, Retarget(p, signal, exclude))
    ensures forall j: nat, s | s != signal :: Targets(Retarget(p, signal, exclude), j, s) <==> Targets(p, j, s)
    ensures forall j: nat | j == exclude && !Targets(p, j, signal) :: !Targets(Retarget(p, signal, exclude), j, signal)
  {
    var r, q := Retarget(p, signal, exclude), Untarget(p, signal);
    forall j: nat, s, e ensures Targetable(q, j, s, e) <==> Targetable(p, j, s, e) {}
    forall j: nat, s ensures Targets(q, j, s) <==> Targets(p, j, s) && s != signal {}
    FirstTargetableIs(q, signal, exclude, 0);
    forall j: nat, s, e ensures Targetable(r, j, s, e) <==> Targetable(q, j, s, e) {}
  }

  lemma TakersMove(p: Process, q: Process, signal: nat, exclude: int)
    requires SameTakers(p, q)
    ensures Takers(q, signal, exclude) <==> Takers(p, signal, exclude)
  {
    if Takers(p, signal, exclude) { var i: nat :| i < |p.tasks| && Targetable(p, i, signal, exclude); assert Targetable(q, i, signal, exclude); }
    if Takers(q, signal, exclude) { var i: nat :| i < |q.tasks| && Targetable(q, i, signal, exclude); assert Targetable(p, i, signal, exclude); }
  }

  lemma AimsMove(p: Process, q: Process, signal: nat, exclude: int)
    requires SameTakers(p, q) && forall j: nat :: Targets(q, j, signal) <==> Targets(p, j, signal)
    ensures KeepsTarget(q, signal, exclude) <==> KeepsTarget(p, signal, exclude)
  {
    if KeepsTarget(p, signal, exclude) {
      var i: nat :| i < |p.tasks| && Targets(p, i, signal) && Targetable(p, i, signal, exclude);
      assert Targets(q, i, signal) && Targetable(q, i, signal, exclude);
    }
    if KeepsTarget(q, signal, exclude) {
      var i: nat :| i < |q.tasks| && Targets(q, i, signal) && Targetable(q, i, signal, exclude);
      assert Targets(p, i, signal) && Targetable(p, i, signal, exclude);
    }
  }

  /** The loop over a set of signals: each pending one ends aimed at a thread exactly when some thread can take it. */
  lemma {:induction false} RetargetFromAims(p: Process, signals: set<nat>, s: nat, exclude: int)
    requires Inv(p)
    ensures var r := RetargetFrom(p, signals, s, exclude);
      && SameTakers(p, r)
      && (forall j: nat, x: nat | x < s || x !in signals :: Targets(r, j, x) <==> Targets(p, j, x))
      && (forall x | s <= x <= SIGNAL_COUNT && x in signals && x in p.pending.bits :: KeepsTarget(r, x, exclude) <==> Takers(p, x, exclude))
      && (forall j: nat, x: nat | j == exclude && !Targets(p, j, x) :: !Targets(r, j, x))
    decreases SIGNAL_COUNT + 1 - s
  {
    hide Inv, Retarget, Targetable, Targets, KeepsTarget, Takers, SameTakers;
    if s > SIGNAL_COUNT {
      TakersSame(p);
    } else if s !in signals {
      RetargetFromAims(p, signals, s + 1, exclude);
    } else {
      var q := Retarget(p, s, exclude);
      RetargetKeeps(p, s, exclude);
      RetargetOnly(p, s, exclude);
      RetargetFromAims(q, signals, s + 1, exclude);
      var r := RetargetFrom(q, signals, s + 1, exclude);
      TakersTrans(p, q, r);
      AimsMove(q, r, s, exclude);
      forall x ensures Takers(q, x, exclude) <==> Takers(p, x, exclude) { TakersMove(p, q, x, exclude); }
      TakersIs(p, s, exclude);
    }
  }

  lemma TakersSame(p: Process)
    ensures SameTakers(p, p)
  {}

  lemma TakersTrans(p: Process, q: Process, r: Process)
    requires SameTakers(p, q) && SameTakers(q, r)
    ensures SameTakers(p, r)
  {}

  lemma TakersIs(p: Process, signal: nat, exclude: int)
    ensures Takers(p, signal, exclude) <==> exists i: nat :: i < |p.tasks| && Targetable(p, i, signal, exclude)
  {}

  lemma {:induction false} RetargetFromKeeps(p: Process, signals: set<nat>, s: nat, exclude: int)
    requires Inv(p)
    ensures Inv(RetargetFrom(p, signals, s, exclude)) && RetargetFrom(p, signals, s, exclude).pending == p.pending
    decreases SIGNAL_COUNT + 1 - s
  {
    if s <= SIGNAL_COUNT {
      if s in signals { RetargetKeeps(p, s, exclude); }
      RetargetFromKeeps(if s in signals then Retarget(p, s, exclude) else p, signals, s + 1, exclude);
    }
  }

  /** Pending sets and targets do not depend on the mask. */
  lemma TaskKeeps(p: Process, i: nat, t: Task)
    requires Inv(p) && i < |p.tasks| && p.tasks[i].Some? && t.pending == p.tasks[i].value.pending && t.target <= p.tasks[i].value.target
    ensures Inv(p.(tasks := p.tasks[i := Some(t)]))
  {
    var q := p.(tasks := p.tasks[i := Some(t)]);
    forall j: nat, s ensures Has(q, j, s) <==> Has(p, j, s) {}
    forall s ensures Anywhere(q, s) <==> Anywhere(p, s) {
      if Anywhere(q, s) && s !in q.pending.bits { var j: nat :| Has(q, j, s); assert Has(p, j, s); }
    }
    forall j: nat, s | Targets(q, j, s) ensures Targets(p, j, s) {}
  }

  lemma ChangeMaskKeeps(p: Process, i: nat, mask: set<nat>)
    requires Inv(p) && i < |p.tasks| && p.tasks[i].Some?
    ensures Inv(ChangeMask(p, i, mask)) && ChangeMask(p, i, mask).pending == p.pending
    ensures forall s | s in p.pending.bits ::
      KeepsTarget(ChangeMask(p, i, mask), s, -1) <==> Takers(p.(tasks := p.tasks[i := Some(p.tasks[i].value.(mask := mask))]), s, -1)
  {
    hide Inv, KeepsTarget, Takers, RetargetFrom, SameTakers;
    var q := p.(tasks := p.tasks[i := Some(p.tasks[i].value.(mask := mask))]);
    TaskKeeps(p, i, p.tasks[i].value.(mask := mask));
    RetargetFromKeeps(q, q.pending.bits, 1, -1);
    RetargetFromAims(q, q.pending.bits, 1, -1);
    AimedPending(p, i);
  }

  /** A leaving thread is aimed at no more, and each signal it was to take is aimed at another thread
      exactly when another thread can take it. */
  lemma DetachKeeps(p: Process, i: nat)
    requires Inv(p) && i < |p.tasks| && p.tasks[i].Some?
    ensures Inv(Detach(p, i)) && Detach(p, i).pending == p.pending
    ensures forall s :: !Targets(Detach(p, i), i, s)
    ensures forall s | Targets(p, i, s) :: KeepsTarget(Detach(p, i), s, i) <==> Takers(p, s, i)
    ensures forall j: nat, s | !Targets(p, i, s) :: Targets(Detach(p, i), j, s) <==> Targets(p, j, s)
  {
    hide Inv, KeepsTarget, Takers, RetargetFrom, SameTakers;
    var q, targeted := p.(tasks := p.tasks[i := Some(p.tasks[i].value.(target := {}))]), p.tasks[i].value.target;
    TaskKeeps(p, i, p.tasks[i].value.(target := {}));
    RetargetFromKeeps(q, targeted, 1, i);
    RetargetFromAims(q, targeted, 1, i);
    AimedPending(p, i);
    TakersCleared(p, q, i);
    forall s ensures Takers(q, s, i) <==> Takers(p, s, i) { TakersMove(p, q, s, i); }
  }

  lemma AimedPending(p: Process, i: nat)
    requires Inv(p)
    ensures forall s | Targets(p, i, s) :: s in p.pending.bits
    ensures forall s | s in p.pending.bits :: 1 <= s <= SIGNAL_COUNT
  {}

  lemma TakersCleared(p: Process, q: Process, i: nat)
    requires i < |p.tasks| && p.tasks[i].Some? && q == p.(tasks := p.tasks[i := Some(p.tasks[i].value.(target := {}))])
    ensures SameTakers(p, q)
  {
    forall j: nat, s, e ensures Targetable(q, j, s, e) <==> Targetable(p, j, s, e) {}
  }

  /** Once the group has been prepared for a signal, storing that signal anywhere breaks nothing. */
  ghost predicate Welcome(p: Process, signal: nat) {
    && (signal == SIGCONT ==> forall s | Stops(s) :: !Anywhere(p, s))
    && (Stops(signal) ==> !Anywhere(p, SIGCONT))
  }

  lemma StoppedOnly(p: Process, stopped: bool)
    requires Inv(p)
    ensures Inv(p.(stopped := stopped)) && forall s :: Anywhere(p.(stopped := stopped), s) <==> Anywhere(p, s)
  {
    var q := p.(stopped := stopped);
    forall j: nat, s ensures (Has(q, j, s) <==> Has(p, j, s)) && (Targets(q, j, s) <==> Targets(p, j, s)) {}
    forall s ensures Anywhere(q, s) <==> Anywhere(p, s) {
      if Anywhere(q, s) && s !in q.pending.bits { var j: nat :| Has(q, j, s); assert Has(p, j, s); }
    }
  }

  lemma PrepareKeeps(p: Process, signal: nat)
    requires Inv(p)
    ensures Inv(Prepare(p, signal)) && Welcome(Prepare(p, signal), signal)
    ensures |Prepare(p, signal).tasks| == |p.tasks| && forall i: nat | i < |p.tasks| :: Prepare(p, signal).tasks[i].Some? == p.tasks[i].Some?
  {
    hide ClearAll;
    hide Inv;
    hide Anywhere;
    ClearAllKeeps(p, SIGCONT);
    ClearAllKeeps(p, SIGSTOP);
    var a := ClearAll(p, SIGSTOP);
    ClearAllKeeps(a, 20);
    var b := ClearAll(a, 20);
    ClearAllKeeps(b, 21);
    var c := ClearAll(b, 21);
    ClearAllKeeps(c, 22);
    StoppedOnly(ClearAll(c, 22), false);
    StoppedOnly(p, false);
  }

  /** The set of pending signals grows by one that is welcome. */
  lemma Joined(p: Process, q: Process, signal: nat)
    requires ContOrStop(p) && Welcome(p, signal) && forall s | Anywhere(q, s) :: Anywhere(p, s) || s == signal
    ensures ContOrStop(q)
  {}

  lemma QueueProcessKeeps(p: Process, info: Info, alloc: bool)
    requires Inv(p)
    ensures Inv(QueueProcess(p, info, alloc))
  {
    if ValidSignal(info.signal) {
      PrepareKeeps(p, info.signal);
      var q := Prepare(p, info.signal);
      StoreKeeps(q.pending, info, alloc);
      var r := Store(q.pending, info, alloc);
      if r.Some? {
        var q' := q.(pending := r.value);
        StoredInProcess(q, r.value, info.signal);
        RetargetKeeps(q', info.signal, -1);
      }
    }
  }

  lemma StoredInProcess(p: Process, pending: Pending, signal: nat)
    requires Inv(p) && Welcome(p, signal) && PendingOk(pending) && pending.bits == p.pending.bits + {signal}
    ensures Inv(p.(pending := pending))
  {
    var q := p.(pending := pending);
    forall j: nat, s ensures (Has(q, j, s) <==> Has(p, j, s)) && (Targets(q, j, s) <==> Targets(p, j, s)) {}
    forall s | Anywhere(q, s) ensures Anywhere(p, s) || s == signal {
      if s !in q.pending.bits { var j: nat :| Has(q, j, s); assert Has(p, j, s); }
    }
    Joined(p, q, signal);
  }

  lemma StoredInTask(p: Process, i: nat, pending: Pending, signal: nat)
    requires Inv(p) && Welcome(p, signal) && i < |p.tasks| && p.tasks[i].Some? && PendingOk(pending)
    requires forall s | s in pending.bits :: s in p.tasks[i].value.pending.bits || s == signal
    ensures Inv(p.(tasks := p.tasks[i := Some(p.tasks[i].value.(pending := pending))]))
  {
    var q := p.(tasks := p.tasks[i := Some(p.tasks[i].value.(pending := pending))]);
    forall j: nat, s ensures (Has(q, j, s) ==> Has(p, j, s) || s == signal) && (Targets(q, j, s) <==> Targets(p, j, s)) {
      assert Has(q, j, s) ==> Has(p, j, s) || s == signal;
    }
    forall s | Anywhere(q, s) ensures Anywhere(p, s) || s == signal {
      if s !in q.pending.bits { var j: nat :| Has(q, j, s); assert Has(p, j, s) || s == signal; }
    }
    Joined(p, q, signal);
  }

  lemma QueueThreadKeeps(p: Process, i: nat, info: Info, alloc: bool)
    requires Inv(p)
    ensures Inv(QueueThread(p, i, info, alloc))
  {
    hide Inv, Prepare, PendingOk, Welcome, Store;
    if ValidSignal(info.signal) && i < |p.tasks| && p.tasks[i].Some? {
      PrepareKeeps(p, info.signal);
      var q := Prepare(p, info.signal);
      TaskPending(q, i);
      StoreKeeps(q.tasks[i].value.pending, info, alloc);
      var r := Store(q.tasks[i].value.pending, info, alloc);
      if r.Some? { StoredInTask(q, i, r.value, info.signal); }
    }
  }

  lemma TaskPending(p: Process, i: nat)
    requires Inv(p)
    ensures PendingOk(p.pending) && (i < |p.tasks| && p.tasks[i].Some? ==> PendingOk(p.tasks[i].value.pending))
  {}

  lemma {:induction false} LowestIs(signals: set<nat>, s: nat)
    ensures var l := Lowest(signals, s); s <= l || s > SIGNAL_COUNT
    ensures var l := Lowest(signals, s); (l <= SIGNAL_COUNT ==> l in signals) && forall x | x in signals && s <= x <= SIGNAL_COUNT :: l <= x
    decreases SIGNAL_COUNT + 1 - s
  {
    if s <= SIGNAL_COUNT && s !in signals { LowestIs(signals, s + 1); }
  }

  /** A take yields the lowest available signal, with no PANIC; nothing is taken only when nothing is available. */
  lemma TakeKeeps(p: Process, i: nat, signals: set<nat>, honor: bool)
    requires Inv(p) && i < |p.tasks| && p.tasks[i].Some?
    ensures var t := Take(p, i, signals, honor);
      && !t.Panic? && Inv(t.process)
      && (t.Nothing? <==> Available(p, i, signals, honor) == {})
      && (t.Took? ==> t.info.signal in Available(p, i, signals, honor) && forall x | x in Available(p, i, signals, honor) :: t.info.signal <= x)
  {
    var a := Available(p, i, signals, honor);
    assert forall x | x in a :: ValidSignal(x) by { assert PendingOk(p.pending) && PendingOk(p.tasks[i].value.pending); }
    LowestIs(a, 1);
    var s := Lowest(a, 1);
    if s <= SIGNAL_COUNT {
      if s in p.tasks[i].value.pending.bits {
        TakeOneKeeps(p.tasks[i].value.pending, s);
        TakenFromTask(p, i, TakeOne(p.tasks[i].value.pending, s).value.1);
      } else {
        TakeOneKeeps(p.pending, s);
        TakenFromProcess(p, TakeOne(p.pending, s).value.1, s);
      }
    } else {
      assert a == {};
    }
  }

  lemma TakenFromTask(p: Process, i: nat, pending: Pending)
    requires Inv(p) && i < |p.tasks| && p.tasks[i].Some? && PendingOk(pending)
    requires forall s | s in pending.bits :: s in p.tasks[i].value.pending.bits
    ensures Inv(p.(tasks := p.tasks[i := Some(p.tasks[i].value.(pending := pending))]))
  {
    var q := p.(tasks := p.tasks[i := Some(p.tasks[i].value.(pending := pending))]);
    forall j: nat, s ensures (Has(q, j, s) ==> Has(p, j, s)) && (Targets(q, j, s) <==> Targets(p, j, s)) {}
    forall s | Anywhere(q, s) ensures Anywhere(p, s) {
      if s !in q.pending.bits { var j: nat :| Has(q, j, s); assert Has(p, j, s); }
    }
  }

  lemma TakenFromProcess(p: Process, pending: Pending, signal: nat)
    requires Inv(p) && PendingOk(pending) && signal in p.pending.bits && forall s | s != signal :: s in pending.bits <==> s in p.pending.bits
    ensures var q := p.(pending := pending); Inv(if signal in pending.bits then q else Untarget(q, signal))
  {
    var q := p.(pending := pending);
    forall j: nat, s ensures (Has(q, j, s) <==> Has(p, j, s)) && (Targets(q, j, s) <==> Targets(p, j, s)) {}
    forall s | Anywhere(q, s) ensures Anywhere(p, s) {
      if s !in q.pending.bits { var j: nat :| Has(q, j, s); assert Has(p, j, s); }
    }
    UntargetKeeps(q, signal);
    if signal !in pending.bits {
      var u := Untarget(q, signal);
      forall i: nat, s | Targets(u, i, s) ensures Targets(p, i, s) && s in u.pending.bits { assert Targets(q, i, s); }
    }
  }

  // ----- Every run -----

  datatype Operation =
    | OnProcess(info: Info, alloc: bool) | OnThread(slot: nat, info: Info, alloc: bool)
    | Receive(slot: nat, signals: set<nat>, honor: bool) | NewMask(slot: nat, mask: set<nat>) | Forget(signal: nat)
    | Create(slot: nat, mask: set<nat>) | Leave(slot: nat) | SetAction(signal: nat, action: Disposition)

  predicate Enabled(p: Process, o: Operation) {
    match o
    case Receive(i, _, _) => i < |p.tasks| && p.tasks[i].Some?
    case NewMask(i, _) => i < |p.tasks| && p.tasks[i].Some?
    case Create(i, _) => i < |p.tasks| && p.tasks[i].None?
    case Leave(i) => i < |p.tasks| && p.tasks[i].Some?
    case _ => true
  }

  /** A thread that leaves hands on the signals aimed at it and then gives up its slot. */
  function Left(p: Process, i: nat): Process
    requires i < |p.tasks| && p.tasks[i].Some?
  {
    var q := Detach(p, i);
    if i < |q.tasks| then q.(tasks := q.tasks[i := None]) else q
  }

  /** None is the PANIC of a take that finds no queue entry. */
  function Apply(p: Process, o: Operation): Option<Process>
    requires Enabled(p, o)
  {
    match o
    case OnProcess(info, alloc) => Some(QueueProcess(p, info, alloc))
    case OnThread(i, info, alloc) => Some(QueueThread(p, i, info, alloc))
    case Receive(i, signals, honor) => var t := Take(p, i, signals, honor); if t.Panic? then None else Some(t.process)
    case NewMask(i, mask) => Some(ChangeMask(p, i, mask))
    case Forget(signal) => Some(ClearAll(p, signal))
    case Create(i, mask) => Some(p.(tasks := p.tasks[i := Some(Task(mask, EMPTY, {}, true))]))
    case Leave(i) => Some(Left(p, i))
    case SetAction(signal, action) => Some(p.(actions := p.actions[signal := action]))
  }

  /** Fewer signals are pending and aimed, in the same process. */
  lemma Fewer(p: Process, q: Process)
    requires Inv(p) && q.pending == p.pending && QueuesOk(q)
    requires forall j: nat, s | Has(q, j, s) :: Has(p, j, s)
    requires forall j: nat, s | Targets(q, j, s) :: Targets(p, j, s)
    ensures Inv(q)
  {
    forall s | Anywhere(q, s) ensures Anywhere(p, s) {
      if s !in q.pending.bits { var j: nat :| Has(q, j, s); assert Has(p, j, s); }
    }
  }

  lemma CreateKeeps(p: Process, i: nat, mask: set<nat>)
    requires Inv(p) && i < |p.tasks| && p.tasks[i].None?
    ensures Inv(p.(tasks := p.tasks[i := Some(Task(mask, EMPTY, {}, true))]))
  {
    var q := p.(tasks := p.tasks[i := Some(Task(mask, EMPTY, {}, true))]);
    forall j: nat, s ensures (Has(q, j, s) ==> Has(p, j, s)) && (Targets(q, j, s) ==> Targets(p, j, s)) {}
    assert PendingOk(EMPTY);
    Fewer(p, q);
  }

  lemma LeftKeeps(p: Process, i: nat)
    requires Inv(p) && i < |p.tasks| && p.tasks[i].Some?
    ensures Inv(Left(p, i))
  {
    DetachKeeps(p, i);
    var d, q := Detach(p, i), Left(p, i);
    forall j: nat, s ensures (Has(q, j, s) ==> Has(d, j, s)) && (Targets(q, j, s) ==> Targets(d, j, s)) {}
    Fewer(d, q);
  }

  lemma ApplyKeeps(p: Process, o: Operation)
    requires Inv(p) && Enabled(p, o)
    ensures Apply(p, o).Some? && Inv(Apply(p, o).value)
  {
    match o
    case OnProcess(info, alloc) => QueueProcessKeeps(p, info, alloc);
    case OnThread(i, info, alloc) => QueueThreadKeeps(p, i, info, alloc);
    case Receive(i, signals, honor) => TakeKeeps(p, i, signals, honor);
    case NewMask(i, mask) => ChangeMaskKeeps(p, i, mask);
    case Forget(signal) => ClearAllKeeps(p, signal);
    case Create(i, mask) => CreateKeeps(p, i, mask);
    case Leave(i) => LeftKeeps(p, i);
    case SetAction(signal, action) =>
      var q := p.(actions := p.actions[signal := action]);
      forall j: nat, s ensures (Has(q, j, s) <==> Has(p, j, s)) && (Targets(q, j, s) <==> Targets(p, j, s)) {}
      Fewer(p, q);
  }

  datatype Trace = Start(process: Process) | Then(before: Trace, operation: Operation)

  /** A process as it begins: nothing pending anywhere. */
  predicate Initial(p: Process) {
    p.pending == EMPTY && forall i | 0 <= i < |p.tasks| :: p.tasks[i].Some? ==> p.tasks[i].value.pending == EMPTY && p.tasks[i].value.target == {}
  }

  datatype Reached = At(process: Process) | Panicked | Impossible

  ghost function Reach(r: Trace): Reached {
    match r
    case Start(p) => if Initial(p) then At(p) else Impossible
    case Then(before, o) =>
      var b := Reach(before);
      if !b.At? then b
      else if !Enabled(b.process, o) then Impossible
      else
        var a := Apply(b.process, o);
        if a.None? then Panicked else At(a.value)
  }

  /** The invariant holds over every run, and no take misses its entry. */
  lemma {:induction false} Safe(r: Trace)
    ensures !Reach(r).Panicked? && (Reach(r).At? ==> Inv(Reach(r).process))
    decreases r
  {
    match r
    case Start(p) => assert PendingOk(EMPTY);
    case Then(before, o) =>
      Safe(before);
      if Reach(before).At? && Enabled(Reach(before).process, o) { ApplyKeeps(Reach(before).process, o); }
  }
}
