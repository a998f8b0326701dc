/** The pending signals of a process as signal.c changes them, with its loops over lists and threads. */
module SignalKernel {
  import opened Common
  import opened Signals

  /** signal_pending_clear: the loop that drops the queued entries of one signal. */
  method ClearPending(p: Pending, signal: nat) returns (r: Pending)
    ensures r == Clear(p, signal)
  {
    hide Others;
    var q, count, k := p.realtime, p.realtimeCount, 0;
    ghost var dropped := 0;
    OthersEnds(q, signal);
    while k < |q|
      invariant k <= |q| && |p.realtime| == |q| + dropped
      invariant q[..k] + Others(q[k..], signal) == Others(p.realtime, signal)
      invariant count == if p.realtimeCount >= dropped then p.realtimeCount - dropped else 0
      decreases |q| - k
    {
      OthersStep(q, k, signal);
      if q[k].signal != signal {
        k := k + 1;
        continue;
      }
      q := q[..k] + q[k + 1..];
      count := if count > 0 then count - 1 else 0;
      dropped := dropped + 1;
    }
    OthersEnds(q, signal);
    r := Pending(p.bits - {signal}, p.information - {signal}, q, count);
  }

  lemma OthersEnds(q: seq<Info>, signal: nat)
    ensures q[..0] + Others(q[0..], signal) == Others(q, signal) && q[..|q|] + Others(q[|q|..], signal) == q
  {
    assert q[0..] == q && q[|q|..] == [];
  }

  lemma OthersStep(q: seq<Info>, k: nat, signal: nat)
    requires k < |q|
    ensures q[k].signal != signal ==> q[..k + 1] + Others(q[k + 1..], signal) == q[..k] + Others(q[k..], signal)
    ensures q[k].signal == signal ==> var r := q[..k] + q[k + 1..]; r[..k] + Others(r[k..], signal) == q[..k] + Others(q[k..], signal)
  {
    var tail := q[k..];
    assert tail[0] == q[k] && tail[1..] == q[k + 1..];
    if q[k].signal != signal {
      assert q[..k + 1] == q[..k] + [q[k]];
    } else {
      var r := q[..k] + q[k + 1..];
      assert r[..k] == q[..k] && r[k..] == q[k + 1..];
    }
  }

  /** The search and removal of signal_take_set_locked in one pending set. */
  /** The first loop of signal_take_set_locked. */
  method FirstOf(signals: set<nat>) returns (s: nat)
    ensures s == Lowest(signals, 1)
  {
    s := 1;
    while s <= SIGNAL_COUNT && s !in signals
      invariant 1 <= s <= SIGNAL_COUNT + 1 && Lowest(signals, s) == Lowest(signals, 1)
    {
      s := s + 1;
    }
  }

  method TakePending(p: Pending, signal: nat) returns (r: Option<(Info, Pending)>)
    requires PendingOk(p)
    ensures r == TakeOne(p, signal)
  {
    if !Realtime(signal) {
      if signal !in p.information {
        return None;
      }
      return Some((p.information[signal], p.(bits := p.bits - {signal}, information := p.information - {signal})));
    }
    var k := FindEntry(p.realtime, signal);
    FoundEntry(p.realtime, signal, k);
    if k == |p.realtime| {
      return None;
    }
    var q := p.realtime[..k] + p.realtime[k + 1..];
    var left := FindEntry(q, signal);
    FoundEntry(q, signal, left);
    var bits := p.bits;
    if left == |q| {
      bits := bits - {signal};
    }
    r := Some((p.realtime[k], p.(realtime := q, realtimeCount := p.realtimeCount - 1, bits := bits)));
  }

  method FindEntry(q: seq<Info>, signal: nat) returns (k: nat)
    ensures k <= |q| && (forall i | 0 <= i < k :: q[i].signal != signal) && (k < |q| ==> q[k].signal == signal)
  {
    k := 0;
    while k < |q|
      invariant k <= |q| && forall i | 0 <= i < k :: q[i].signal != signal
    {
      if q[k].signal == signal {
        return;
      }
      k := k + 1;
    }
  }

  lemma {:induction false} FoundEntry(q: seq<Info>, signal: nat, k: nat)
    requires k <= |q| && (forall i | 0 <= i < k :: q[i].signal != signal) && (k < |q| ==> q[k].signal == signal)
    ensures k == |q| ==> Queued(q, signal) == []
    ensures k < |q| ==> Queued(q, signal) != [] && Queued(q, signal)[0] == q[k] && WithoutFirst(q, signal) == q[..k] + q[k + 1..]
    decreases q
  {
    if k > 0 {
      FoundEntry(q[1..], signal, k - 1);
      assert k < |q| ==> [q[0]] + (q[1..][..k - 1] + q[1..][k..]) == q[..k] + q[k + 1..];
    } else if |q| > 0 {
      assert q[..0] + q[1..] == q[1..];
    }
  }

  class ProcessSignals {
    var pending: Pending
    var tasks: seq<Option<Task>>
    var actions: map<nat, Disposition>
    var stopped: bool

    ghost function Abs(): Process
      reads this
    {
      Process(pending, tasks, actions, stopped)
    }

    /** signal_clear_locked. */
    method ClearSignal(signal: nat)
      modifies this`pending, this`tasks
      ensures Abs() == ClearAll(old(Abs()), signal)
    {
      pending := ClearPending(pending, signal);
      for i := 0 to |tasks|
        invariant |tasks| == old(|tasks|) && pending == Clear(old(pending), signal)
        invariant forall j | 0 <= j < i :: tasks[j] == ClearTask(old(tasks)[j], signal)
        invariant forall j | i <= j < |tasks| :: tasks[j] == old(tasks)[j]
      {
        if tasks[i].Some? {
          var t := tasks[i].value;
          var p := ClearPending(t.pending, signal);
          tasks := tasks[i := Some(t.(pending := p, target := t.target - {signal}))];
        }
      }
    }

    /** signal_target_clear_locked. */
    method UntargetAll(signal: nat)
      modifies this`tasks
      ensures Abs() == Untarget(old(Abs()), signal)
    {
      for i := 0 to |tasks|
        invariant |tasks| == old(|tasks|)
        invariant forall j | 0 <= j < i :: tasks[j] == UntargetTask(old(tasks)[j], signal)
        invariant forall j | i <= j < |tasks| :: tasks[j] == old(tasks)[j]
      {
        if tasks[i].Some? {
          tasks := tasks[i := Some(tasks[i].value.(target := tasks[i].value.target - {signal}))];
        }
      }
    }

    method HasTarget(signal: nat, exclude: int) returns (r: bool)
      ensures r <==> KeepsTarget(Abs(), signal, exclude)
    {
      for i := 0 to |tasks|
        invariant forall j: nat | j < i :: !(Targets(Abs(), j, signal) && Targetable(Abs(), j, signal, exclude))
      {
        if tasks[i].Some? && signal in tasks[i].value.target && i != exclude && tasks[i].value.live
           && (signal == SIGKILL || signal == SIGSTOP || signal !in tasks[i].value.mask) {
          assert Targets(Abs(), i, signal) && Targetable(Abs(), i, signal, exclude);
          return true;
        }
      }
      return false;
    }

    method FindTargetable(signal: nat, exclude: int) returns (i: nat)
      ensures i == FirstTargetable(Abs(), signal, exclude, 0)
    {
      i := 0;
      while i < |tasks|
        invariant i <= |tasks| && FirstTargetable(Abs(), signal, exclude, i) == FirstTargetable(Abs(), signal, exclude, 0)
      {
        if tasks[i].Some? && i != exclude && tasks[i].value.live
           && (signal == SIGKILL || signal == SIGSTOP || signal !in tasks[i].value.mask) {
          return;
        }
        i := i + 1;
      }
    }

    /** signal_process_retarget_locked; `woken` is the thread that gets the signal and must be woken. */
    method RetargetSignal(signal: nat, exclude: int) returns (woken: int)
      modifies this`tasks
      ensures Abs() == Retarget(old(Abs()), signal, exclude)
      ensures woken >= 0 ==> Targets(Abs(), woken, signal) && !KeepsTarget(old(Abs()), signal, exclude)
      ensures woken < 0 ==> signal !in pending.bits || KeepsTarget(old(Abs()), signal, exclude) || forall i: nat :: !Targetable(old(Abs()), i, signal, exclude)
    {
      woken := -1;
      if signal !in pending.bits {
        UntargetAll(signal);
        return;
      }
      var kept := HasTarget(signal, exclude);
      if kept {
        return;
      }
      ghost var p := Abs();
      UntargetAll(signal);
      FirstTargetableIs(Abs(), signal, exclude, 0);
      assert forall j: nat :: Targetable(Abs(), j, signal, exclude) <==> Targetable(p, j, signal, exclude);
      var i := FindTargetable(signal, exclude);
      if i < |tasks| {
        tasks := tasks[i := Some(tasks[i].value.(target := tasks[i].value.target + {signal}))];
        woken := i;
      }
    }

    /** signal_thread_detach_locked: the signals aimed at a thread are aimed at others. */
    method DetachThread(i: nat)
      requires Inv(Abs()) && i < |tasks| && tasks[i].Some?
      modifies this`tasks
      ensures Inv(Abs()) && Abs() == Detach(old(Abs()), i)
    {
      DetachKeeps(Abs(), i);
      var targeted := tasks[i].value.target;
      tasks := tasks[i := Some(tasks[i].value.(target := {}))];
      var s := 1;
      while s <= SIGNAL_COUNT
        invariant 1 <= s <= SIGNAL_COUNT + 1 && pending == old(pending) && actions == old(actions) && stopped == old(stopped)
        invariant RetargetFrom(Abs(), targeted, s, i) == Detach(old(Abs()), i)
      {
        if s in targeted {
          var woken := RetargetSignal(s, i);
        }
        s := s + 1;
      }
    }

    /** signal_take_set_locked: the lowest signal the thread in slot `i` may take. */
    method TakeSet(i: nat, signals: set<nat>, honor: bool) returns (r: Option<Info>, panic: bool)
      requires Inv(Abs()) && i < |tasks| && tasks[i].Some?
      modifies this`pending, this`tasks
      ensures !panic && Inv(Abs())
      ensures var t := Take(old(Abs()), i, signals, honor); !t.Panic? && Abs() == t.process && r == if t.Took? then Some(t.info) else None
    {
      hide Inv, PendingOk, TakeOne, Lowest, Untarget;
      TakeKeeps(Abs(), i, signals, honor);
      TaskPending(Abs(), i);
      var available := (tasks[i].value.pending.bits + (if honor then pending.bits * tasks[i].value.target else pending.bits)) * signals;
      var s := FirstOf(available);
      if s > SIGNAL_COUNT {
        return None, false;
      }
      if s in tasks[i].value.pending.bits {
        var t := TakePending(tasks[i].value.pending, s);
        tasks := tasks[i := Some(tasks[i].value.(pending := t.value.1))];
        return Some(t.value.0), false;
      }
      var t := TakePending(pending, s);
      pending := t.value.1;
      if s !in pending.bits {
        UntargetAll(s);
      }
      return Some(t.value.0), false;
    }
  }
}
