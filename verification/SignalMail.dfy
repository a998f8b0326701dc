/** Signals as mail.  For every place, which is the process or one of its threads, and every signal there is a queue of
messages; `MailAfter` says what each operation does to each of these queues, and `MailRefines` shows that signal.c, with
its bit sets, its one message per standard signal and its shared list of real-time messages, does exactly that. */
module SignalMail {
  import opened Common
  import opened Signals

  datatype Place = Shared | Own(slot: nat)

  /** The messages of one signal in one pending set, oldest first. */
  function Held(p: Pending, s: nat): seq<Info> {
    if Realtime(s) then Queued(p.realtime, s)
    else if s in p.bits && s in p.information then [p.information[s]]
    else []
  }

  function At(p: Process, place: Place): Option<Pending> {
    match place
    case Shared => Some(p.pending)
    case Own(i) => if i < |p.tasks| && p.tasks[i].Some? then Some(p.tasks[i].value.pending) else None
  }

  function Mail(p: Process, place: Place, s: nat): seq<Info> {
    if At(p, place).Some? then Held(At(p, place).value, s) else []
  }

  /** SIGCONT and the stop signals drive each other out. */
  predicate Cancels(signal: nat, s: nat) {
    (signal == SIGCONT && Stops(s)) || (Stops(signal) && s == SIGCONT)
  }

  /** A real-time message joins the others; a standard signal keeps its first message. */
  function Arrive(m: seq<Info>, info: Info): seq<Info> {
    if Realtime(info.signal) then m + [info] else if m == [] then [info] else m
  }

  predicate Room(p: Pending, signal: nat, alloc: bool) {
    Realtime(signal) ==> |p.realtime| < REALTIME_LIMIT && alloc
  }

  /** A process signal is dropped when the process ignores it: by choice, or by default while a thread could take it. */
  ghost predicate Dropped(p: Process, signal: nat) {
    Action(p, signal) == Ignore || (Action(p, signal) == Default && IgnoredByDefault(signal) && Takers(p, signal, -1))
  }

  /** The same for a signal sent to thread `i`. */
  predicate DroppedAt(p: Process, i: nat, signal: nat) {
    || Action(p, signal) == Ignore
    || (Action(p, signal) == Default && IgnoredByDefault(signal) && i < |p.tasks| && p.tasks[i].Some? && signal !in p.tasks[i].value.mask)
  }

  /** Thread `i` may take this signal: its own, or one of the process, if need be only one that is aimed at it. */
  predicate MayTake(p: Process, i: nat, signals: set<nat>, honor: bool, s: nat) {
    s in signals && (Mail(p, Own(i), s) != [] || (Mail(p, Shared, s) != [] && (honor ==> Targets(p, i, s))))
  }

  predicate TakesFirst(p: Process, i: nat, signals: set<nat>, honor: bool, s: nat) {
    MayTake(p, i, signals, honor, s) && forall x: nat | x < s :: !MayTake(p, i, signals, honor, x)
  }

  /** What an operation leaves in the queue of signal `s` at `place`. */
  ghost function MailAfter(p: Process, o: Operation, place: Place, s: nat): seq<Info> {
    var m := Mail(p, place, s);
    match o
    case OnProcess(info, alloc) =>
      if !ValidSignal(info.signal) then m
      else if Cancels(info.signal, s) then []
      else if place == Shared && s == info.signal && !Dropped(p, s) && Room(p.pending, s, alloc) then Arrive(m, info)
      else m
    case OnThread(i, info, alloc) =>
      if !ValidSignal(info.signal) || At(p, Own(i)).None? then m
      else if Cancels(info.signal, s) then []
      else if place == Own(i) && s == info.signal && !DroppedAt(p, i, s) && Room(At(p, Own(i)).value, s, alloc) then Arrive(m, info)
      else m
    case Receive(i, signals, honor) =>
      if TakesFirst(p, i, signals, honor, s) && place == (if Mail(p, Own(i), s) != [] then Own(i) else Shared) && m != [] then m[1..] else m
    case Forget(signal) => if s == signal then [] else m
    case Create(i, _) => if place == Own(i) then [] else m
    case Leave(i) => if place == Own(i) then [] else m
    case _ => m
  }

  // ----- One pending set -----

  lemma HeldBits(p: Pending, s: nat)
    requires PendingOk(p)
    ensures Held(p, s) != [] <==> s in p.bits
    ensures Held(p, s) != [] ==> ValidSignal(s) && Held(p, s)[0].signal == s
  {
    if Realtime(s) && Held(p, s) != [] { QueuedHead(p.realtime, s); }
  }

  lemma HeldClear(p: Pending, x: nat, s: nat)
    requires PendingOk(p)
    ensures Held(Clear(p, x), s) == if s == x then [] else Held(p, s)
  {
    QueuedOthers(p.realtime, x, s);
  }

  lemma HeldStore(p: Pending, info: Info, alloc: bool, s: nat)
    requires PendingOk(p) && ValidSignal(info.signal)
    ensures var r := Store(p, info, alloc);
      && (r.Some? <==> Room(p, info.signal, alloc))
      && (r.Some? ==> Held(r.value, s) == if s == info.signal then Arrive(Held(p, s), info) else Held(p, s))
  {
    HeldBits(p, info.signal);
    QueuedSnoc(p.realtime, info, s);
  }

  lemma HeldTake(p: Pending, x: nat, s: nat)
    requires PendingOk(p) && x in p.bits
    ensures var r := TakeOne(p, x);
      && r.Some? && Held(p, x) != [] && r.value.0 == Held(p, x)[0]
      && Held(r.value.1, s) == if s == x then Held(p, x)[1..] else Held(p, s)
  {
    HeldBits(p, x);
    TakeOneKeeps(p, x);
    if Realtime(x) { QueuedFirst(p.realtime, x, s); }
  }

  // ----- Clearing -----

  /** Nothing but pending sets, targets and the stopped flag differs. */
  ghost predicate SameThreads(p: Process, q: Process) {
    && |q.tasks| == |p.tasks| && q.actions == p.actions
    && forall i | 0 <= i < |p.tasks| :: (q.tasks[i].Some? <==> p.tasks[i].Some?)
         && (p.tasks[i].Some? ==> q.tasks[i].value.mask == p.tasks[i].value.mask && q.tasks[i].value.live == p.tasks[i].value.live)
  }

  lemma ClearAllMail(p: Process, x: nat)
    requires Inv(p)
    ensures var q := ClearAll(p, x);
      && SameThreads(p, q) && q.stopped == p.stopped
      && (forall place, s :: Mail(q, place, s) == if s == x then [] else Mail(p, place, s))
      && (forall i: nat, s :: Targets(q, i, s) <==> Targets(p, i, s) && s != x)
      && (!Realtime(x) ==> forall place :: Load(q, place) == Load(p, place))
  {
    hide Clear, Held;
    var q := ClearAll(p, x);
    forall place, s ensures Mail(q, place, s) == (if s == x then [] else Mail(p, place, s)) {
      PlaceOk(p, place);
      if At(p, place).Some? { HeldClear(At(p, place).value, x, s); }
    }
    if !Realtime(x) {
      forall place ensures Load(q, place) == Load(p, place) {
        PlaceOk(p, place);
        if At(p, place).Some? { ClearLoad(At(p, place).value, x); }
      }
    }
  }

  lemma PlaceOk(p: Process, place: Place)
    requires Inv(p)
    ensures At(p, place).Some? ==> PendingOk(At(p, place).value)
  {}

  /** The number of real-time messages at a place. */
  function Load(p: Process, place: Place): nat {
    if At(p, place).Some? then |At(p, place).value.realtime| else 0
  }

  lemma ClearLoad(p: Pending, x: nat)
    requires PendingOk(p) && !Realtime(x)
    ensures |Clear(p, x).realtime| == |p.realtime|
  {
    OthersAll(p.realtime, x);
  }

  lemma {:induction false} OthersAll(q: seq<Info>, x: nat)
    requires forall i | 0 <= i < |q| :: q[i].signal != x
    ensures Others(q, x) == q
    decreases q
  {
    if q != [] { OthersAll(q[1..], x); }
  }

  /** signal_prepare_group_locked. */
  ghost predicate Prepared(p: Process, q: Process, signal: nat) {
    && Inv(q) && SameThreads(p, q) && q.stopped == (p.stopped && signal != SIGCONT && signal != SIGKILL)
    && (forall place, s :: Mail(q, place, s) == if Cancels(signal, s) then [] else Mail(p, place, s))
    && (forall i: nat, s :: Targets(q, i, s) <==> Targets(p, i, s) && !Cancels(signal, s))
    && (forall place :: Load(q, place) == Load(p, place))
  }

  lemma StoppedMail(p: Process, stopped: bool)
    requires Inv(p)
    ensures var q := p.(stopped := stopped);
      && Inv(q) && SameThreads(p, q) && (forall place, s :: Mail(q, place, s) == Mail(p, place, s))
      && (forall i: nat, s :: Targets(q, i, s) <==> Targets(p, i, s)) && forall place :: Load(q, place) == Load(p, place)
  {
    StoppedOnly(p, stopped);
  }

  lemma PrepareMail(p: Process, signal: nat)
    requires Inv(p)
    ensures Prepared(p, Prepare(p, signal), signal)
  {
    hide ClearAll, Inv, Mail, Load, Targets;
    StoppedMail(p, false);
    if signal == SIGCONT {
      ClearStops(p);
    } else if Stops(signal) {
      ClearAllKeeps(p, SIGCONT);
      ClearAllMail(p, SIGCONT);
    }
  }

  lemma ClearStops(p: Process)
    requires Inv(p)
    ensures Prepared(p, Prepare(p, SIGCONT), SIGCONT)
  {
    hide ClearAll, Inv, Mail, Load, Targets;
    ClearAllKeeps(p, SIGSTOP);
    ClearAllMail(p, SIGSTOP);
    var a := ClearAll(p, SIGSTOP);
    ClearAllKeeps(a, 20);
    ClearAllMail(a, 20);
    var b := ClearAll(a, 20);
    ClearAllKeeps(b, 21);
    ClearAllMail(b, 21);
    var c := ClearAll(b, 21);
    ClearAllKeeps(c, 22);
    ClearAllMail(c, 22);
    StoppedMail(ClearAll(c, 22), false);
  }

  // ----- Sending -----

  lemma SameTakers(p: Process, q: Process, signal: nat)
    requires SameThreads(p, q)
    ensures Takers(q, signal, -1) <==> Takers(p, signal, -1)
    ensures forall s :: Action(q, s) == Action(p, s)
  {
    forall i: nat ensures Targetable(q, i, signal, -1) <==> Targetable(p, i, signal, -1) {}
    if Takers(p, signal, -1) { var i: nat :| i < |p.tasks| && Targetable(p, i, signal, -1); assert Targetable(q, i, signal, -1); }
    if Takers(q, signal, -1) { var i: nat :| i < |q.tasks| && Targetable(q, i, signal, -1); assert Targetable(p, i, signal, -1); }
  }

  /** A live thread that does not block the signal, which nobody can do to SIGKILL and SIGSTOP. */
  predicate Ready(t: Task, signal: nat) {
    t.live && (signal == 9 || signal == 19 || signal !in t.mask)
  }

  lemma TakersExact(p: Process, signal: nat, exclude: int)
    ensures Takers(p, signal, exclude) <==> exists i :: 0 <= i < |p.tasks| && i != exclude && p.tasks[i].Some? && Ready(p.tasks[i].value, signal)
    ensures KeepsTarget(p, signal, exclude) <==>
      exists i :: 0 <= i < |p.tasks| && i != exclude && p.tasks[i].Some? && signal in p.tasks[i].value.target && Ready(p.tasks[i].value, signal)
  {
    forall i: nat ensures Targetable(p, i, signal, exclude) <==>
      i < |p.tasks| && i != exclude && p.tasks[i].Some? && Ready(p.tasks[i].value, signal) {}
    if i :| 0 <= i < |p.tasks| && i != exclude && p.tasks[i].Some? && Ready(p.tasks[i].value, signal) { assert Targetable(p, i, signal, exclude); }
    if i :| 0 <= i < |p.tasks| && i != exclude && p.tasks[i].Some? && signal in p.tasks[i].value.target && Ready(p.tasks[i].value, signal) {
      assert Targets(p, i, signal) && Targetable(p, i, signal, exclude);
    }
  }

  /** A pending signal that nobody keeps goes to the first thread that can take it, and to no other. */
  lemma RetargetFirst(p: Process, signal: nat, exclude: int, i: nat)
    requires signal in p.pending.bits && !KeepsTarget(p, signal, exclude) && i < |p.tasks|
    ensures var r := Retarget(p, signal, exclude);
      && |r.tasks| == |p.tasks|
      && (r.tasks[i].Some? && signal in r.tasks[i].value.target <==>
            && i != exclude && p.tasks[i].Some? && Ready(p.tasks[i].value, signal)
            && forall j | 0 <= j < i && j != exclude && p.tasks[j].Some? :: !Ready(p.tasks[j].value, signal))
  {
    var q := Untarget(p, signal);
    var f := FirstTargetable(q, signal, exclude, 0);
    FirstTargetableIs(q, signal, exclude, 0);
    forall j: nat ensures Targetable(q, j, signal, exclude) <==>
      j < |p.tasks| && j != exclude && p.tasks[j].Some? && Ready(p.tasks[j].value, signal) {}
    if f < i && f < |p.tasks| { assert Targetable(q, f, signal, exclude); }
    if i < f { assert !Targetable(q, i, signal, exclude); }
    if i == f { forall j | 0 <= j < i && j != exclude && p.tasks[j].Some? ensures !Ready(p.tasks[j].value, signal) { assert !Targetable(q, j, signal, exclude); } }
  }

  lemma IgnoresIs(p: Process, signal: nat)
    ensures ProcessIgnores(p, signal) <==> Dropped(p, signal)
  {}

  /** A signal sent to a process: it arrives exactly when it is valid, not dropped and has room, and is then aimed at a thread
      exactly when one can take it; what it cancels is gone everywhere and nothing else changes. */
  lemma SendProcess(p: Process, info: Info, alloc: bool)
    requires Inv(p)
    ensures var r := QueueProcess(p, info, alloc);
      && SameThreads(p, r) && (forall place, s :: Mail(r, place, s) == MailAfter(p, OnProcess(info, alloc), place, s))
      && (ValidSignal(info.signal) ==> r.stopped == (p.stopped && info.signal != SIGCONT && info.signal != SIGKILL))
      && (ValidSignal(info.signal) && !Dropped(p, info.signal) && Room(p.pending, info.signal, alloc) ==>
            info.signal in r.pending.bits && (KeepsTarget(r, info.signal, -1) <==> Takers(p, info.signal, -1)))
  {
    hide Prepare, Inv, Retarget, Mail, KeepsTarget, Takers, Store, SameThreads, Dropped, Room, Arrive, Welcome, ProcessIgnores;
    var signal := info.signal;
    ThreadsRefl(p);
    if ValidSignal(signal) {
      var q := Prepare(p, signal);
      PrepareMail(p, signal);
      PrepareKeeps(p, signal);
      SameFate(p, q, signal, alloc);
      StoreSome(q, info, alloc);
      if !Dropped(p, signal) && Room(p.pending, signal, alloc) {
        ArriveShared(q, info, alloc);
        ThreadsTrans(p, q, QueueProcess(p, info, alloc));
      }
    }
  }

  lemma ThreadsRefl(p: Process)
    ensures SameThreads(p, p)
  {}

  lemma ThreadsTrans(p: Process, q: Process, r: Process)
    requires SameThreads(p, q) && SameThreads(q, r)
    ensures SameThreads(p, r)
  {}

  /** Preparing the group changes nothing that decides what becomes of the signal. */
  lemma SameFate(p: Process, q: Process, signal: nat, alloc: bool)
    requires Prepared(p, q, signal)
    ensures ProcessIgnores(q, signal) <==> Dropped(p, signal)
    ensures Takers(q, signal, -1) <==> Takers(p, signal, -1)
    ensures Room(q.pending, signal, alloc) <==> Room(p.pending, signal, alloc)
  {
    SameTakers(p, q, signal);
    IgnoresIs(q, signal);
    hide Inv, Mail;
    assert Load(q, Shared) == Load(p, Shared);
  }

  lemma StoreSome(q: Process, info: Info, alloc: bool)
    requires Inv(q) && ValidSignal(info.signal)
    ensures Store(q.pending, info, alloc).Some? <==> Room(q.pending, info.signal, alloc)
  {
    PlaceOk(q, Shared);
    HeldStore(q.pending, info, alloc, info.signal);
  }

  lemma ArriveShared(q: Process, info: Info, alloc: bool)
    requires Inv(q) && Welcome(q, info.signal) && ValidSignal(info.signal) && Store(q.pending, info, alloc).Some?
    ensures var r := Retarget(q.(pending := Store(q.pending, info, alloc).value), info.signal, -1);
      && SameThreads(q, r) && r.stopped == q.stopped && info.signal in r.pending.bits
      && (KeepsTarget(r, info.signal, -1) <==> Takers(q, info.signal, -1))
      && forall place, s :: Mail(r, place, s) == if place == Shared && s == info.signal then Arrive(Mail(q, Shared, s), info) else Mail(q, place, s)
  {
    hide Inv, Welcome, Retarget, Held, Store, KeepsTarget, Takers;
    PlaceOk(q, Shared);
    StoreKeeps(q.pending, info, alloc);
    var v := Store(q.pending, info, alloc).value;
    forall s ensures Held(v, s) == if s == info.signal then Arrive(Held(q.pending, s), info) else Held(q.pending, s) {
      HeldStore(q.pending, info, alloc, s);
    }
    StoredInProcess(q, v, info.signal);
    Stored(q, v, info.signal);
  }

  lemma Stored(q: Process, pending: Pending, signal: nat)
    requires Inv(q.(pending := pending)) && signal in pending.bits
    ensures var r := Retarget(q.(pending := pending), signal, -1);
      && SameThreads(q, r) && r.stopped == q.stopped && signal in r.pending.bits && (KeepsTarget(r, signal, -1) <==> Takers(q, signal, -1))
      && forall place, s :: Mail(r, place, s) == if place == Shared then Held(pending, s) else Mail(q, place, s)
  {
    hide Inv, Retarget, Held;
    var q' := q.(pending := pending);
    RetargetAny(q', signal, -1);
    RetargetKeeps(q', signal, -1);
    SameTakers(q, q', signal);
  }

  /** A signal sent to a thread. */
  lemma SendThread(p: Process, i: nat, info: Info, alloc: bool)
    requires Inv(p)
    ensures var r := QueueThread(p, i, info, alloc);
      SameThreads(p, r) && forall place, s :: Mail(r, place, s) == MailAfter(p, OnThread(i, info, alloc), place, s)
  {
    hide Prepare, Inv, Mail, Store, SameThreads, DroppedAt, Room, Arrive, TaskIgnores;
    var signal := info.signal;
    ThreadsRefl(p);
    if ValidSignal(signal) && At(p, Own(i)).Some? {
      var q := Prepare(p, signal);
      PrepareMail(p, signal);
      SameFateAt(p, q, i, signal, alloc);
      ArriveOwn(q, i, info, alloc);
      ThreadsTrans(p, q, QueueThread(p, i, info, alloc));
    }
  }

  lemma SameFateAt(p: Process, q: Process, i: nat, signal: nat, alloc: bool)
    requires Prepared(p, q, signal) && At(p, Own(i)).Some?
    ensures At(q, Own(i)).Some? && (TaskIgnores(q, i, signal) <==> DroppedAt(p, i, signal))
    ensures Room(At(q, Own(i)).value, signal, alloc) <==> Room(At(p, Own(i)).value, signal, alloc)
  {
    SameTakers(p, q, signal);
    hide Inv, Mail;
    assert Load(q, Own(i)) == Load(p, Own(i));
  }

  lemma ArriveOwn(q: Process, i: nat, info: Info, alloc: bool)
    requires Inv(q) && ValidSignal(info.signal) && At(q, Own(i)).Some?
    ensures var o := Store(At(q, Own(i)).value, info, alloc);
      && (o.Some? <==> Room(At(q, Own(i)).value, info.signal, alloc)) && SameThreads(q, q)
      && (o.Some? ==>
            var r := q.(tasks := q.tasks[i := Some(q.tasks[i].value.(pending := o.value))]);
            && SameThreads(q, r)
            && forall place, s :: Mail(r, place, s) == if place == Own(i) && s == info.signal then Arrive(Mail(q, place, s), info) else Mail(q, place, s))
  {
    hide Inv, Held, Store, Room;
    PlaceOk(q, Own(i));
    var o := Store(At(q, Own(i)).value, info, alloc);
    forall s ensures
      && (o.Some? <==> Room(At(q, Own(i)).value, info.signal, alloc))
      && (o.Some? ==> Held(o.value, s) == if s == info.signal then Arrive(Held(At(q, Own(i)).value, s), info) else Held(At(q, Own(i)).value, s))
    {
      HeldStore(At(q, Own(i)).value, info, alloc, s);
    }
    HeldStore(At(q, Own(i)).value, info, alloc, 0);
  }

  // ----- Taking -----

  lemma MayTakeIs(p: Process, i: nat, signals: set<nat>, honor: bool, s: nat)
    requires Inv(p) && i < |p.tasks| && p.tasks[i].Some?
    ensures s in Available(p, i, signals, honor) <==> MayTake(p, i, signals, honor, s)
    ensures MayTake(p, i, signals, honor, s) ==> ValidSignal(s)
    ensures Mail(p, Own(i), s) != [] <==> s in p.tasks[i].value.pending.bits
    ensures Mail(p, Shared, s) != [] <==> s in p.pending.bits
  {
    PlaceOk(p, Own(i));
    PlaceOk(p, Shared);
    HeldBits(p.tasks[i].value.pending, s);
    HeldBits(p.pending, s);
    hide Inv, Held;
  }

  /** A take yields the first message of the lowest signal the thread may take, from its own mail before the process's, or
      nothing exactly when there is none, and removes exactly that message. */
  lemma TakeMail(p: Process, i: nat, signals: set<nat>, honor: bool)
    requires Inv(p) && i < |p.tasks| && p.tasks[i].Some?
    ensures var t := Take(p, i, signals, honor);
      && !t.Panic? && (t.Nothing? <==> forall s: nat :: !MayTake(p, i, signals, honor, s))
      && (t.Took? ==>
            var s := t.info.signal;
            && TakesFirst(p, i, signals, honor, s)
            && var m := Mail(p, if Mail(p, Own(i), s) != [] then Own(i) else Shared, s); m != [] && t.info == m[0])
      && forall place, s :: Mail(t.process, place, s) == MailAfter(p, Receive(i, signals, honor), place, s)
  {
    hide Inv, Mail, TakeOne, Untarget, Available, Lowest, PendingOk;
    var a := Available(p, i, signals, honor);
    forall s: nat ensures (s in a <==> MayTake(p, i, signals, honor, s)) && (MayTake(p, i, signals, honor, s) ==> ValidSignal(s)) {
      MayTakeIs(p, i, signals, honor, s);
    }
    LowestIs(a, 1);
    var x := Lowest(a, 1);
    if x <= SIGNAL_COUNT {
      assert TakesFirst(p, i, signals, honor, x);
      MayTakeIs(p, i, signals, honor, x);
      if x in p.tasks[i].value.pending.bits { TakeOwn(p, i, x); } else { TakeShared(p, x); }
    }
  }

  lemma TakeOwn(p: Process, i: nat, x: nat)
    requires Inv(p) && i < |p.tasks| && p.tasks[i].Some? && x in p.tasks[i].value.pending.bits
    ensures var o := TakeOne(p.tasks[i].value.pending, x);
      && o.Some? && Mail(p, Own(i), x) != [] && o.value.0 == Mail(p, Own(i), x)[0] && o.value.0.signal == x
      && var r := p.(tasks := p.tasks[i := Some(p.tasks[i].value.(pending := o.value.1))]);
        forall place, s :: Mail(r, place, s) == if place == Own(i) && s == x then Mail(p, place, s)[1..] else Mail(p, place, s)
  {
    hide Inv, Held, TakeOne;
    PlaceOk(p, Own(i));
    var q := p.tasks[i].value.pending;
    HeldBits(q, x);
    HeldTake(q, x, x);
    forall s ensures Held(TakeOne(q, x).value.1, s) == if s == x then Held(q, x)[1..] else Held(q, s) { HeldTake(q, x, s); }
  }

  lemma TakeShared(p: Process, x: nat)
    requires Inv(p) && x in p.pending.bits
    ensures var o := TakeOne(p.pending, x);
      && o.Some? && Mail(p, Shared, x) != [] && o.value.0 == Mail(p, Shared, x)[0] && o.value.0.signal == x
      && var q := p.(pending := o.value.1);
        var r := if x in o.value.1.bits then q else Untarget(q, x);
        forall place, s :: Mail(r, place, s) == if place == Shared && s == x then Mail(p, place, s)[1..] else Mail(p, place, s)
  {
    hide Inv, Held, TakeOne;
    PlaceOk(p, Shared);
    HeldBits(p.pending, x);
    HeldTake(p.pending, x, x);
    var q := p.(pending := TakeOne(p.pending, x).value.1);
    forall s ensures Held(q.pending, s) == if s == x then Held(p.pending, x)[1..] else Held(p.pending, s) { HeldTake(p.pending, x, s); }
    forall place ensures At(Untarget(q, x), place) == At(q, place) {}
  }

  // ----- Every operation -----

  /** Retargeting moves no mail. */
  lemma RetargetAny(p: Process, signal: nat, exclude: int)
    ensures SameThreads(p, Retarget(p, signal, exclude)) && forall place :: At(Retarget(p, signal, exclude), place) == At(p, place)
    ensures Retarget(p, signal, exclude).stopped == p.stopped
  {
    var q, r := Untarget(p, signal), Retarget(p, signal, exclude);
    forall place ensures At(q, place) == At(p, place) {}
    forall place ensures At(r, place) == At(q, place) {}
  }

  lemma {:induction false} RetargetFromMail(p: Process, signals: set<nat>, s: nat, exclude: int)
    ensures var r := RetargetFrom(p, signals, s, exclude); SameThreads(p, r) && r.stopped == p.stopped && forall place :: At(r, place) == At(p, place)
    decreases SIGNAL_COUNT + 1 - s
  {
    hide Retarget, At, SameThreads;
    ThreadsRefl(p);
    if s <= SIGNAL_COUNT {
      var q := if s in signals then Retarget(p, s, exclude) else p;
      if s in signals { RetargetAny(p, s, exclude); }
      RetargetFromMail(q, signals, s + 1, exclude);
      ThreadsTrans(p, q, RetargetFrom(q, signals, s + 1, exclude));
    }
  }

  lemma LeaveMail(p: Process, i: nat)
    requires i < |p.tasks| && p.tasks[i].Some?
    ensures forall place, s :: Mail(Left(p, i), place, s) == if place == Own(i) then [] else Mail(p, place, s)
    ensures SameThreads(p.(tasks := p.tasks[i := None]), Left(p, i))
  {
    hide RetargetFrom, Held;
    var q := p.(tasks := p.tasks[i := Some(p.tasks[i].value.(target := {}))]);
    RetargetFromMail(q, p.tasks[i].value.target, 1, i);
    forall place ensures At(q, place) == At(p, place) {}
  }

  lemma NewMaskMail(p: Process, i: nat, mask: set<nat>)
    requires i < |p.tasks| && p.tasks[i].Some?
    ensures forall place, s :: Mail(ChangeMask(p, i, mask), place, s) == Mail(p, place, s)
    ensures SameThreads(p.(tasks := p.tasks[i := Some(p.tasks[i].value.(mask := mask))]), ChangeMask(p, i, mask))
  {
    hide RetargetFrom, Held;
    var q := p.(tasks := p.tasks[i := Some(p.tasks[i].value.(mask := mask))]);
    RetargetFromMail(q, q.pending.bits, 1, -1);
    forall place ensures At(q, place) == At(p, place) {}
  }

  lemma CreateMail(p: Process, i: nat, mask: set<nat>)
    requires i < |p.tasks| && p.tasks[i].None?
    ensures var q := p.(tasks := p.tasks[i := Some(Task(mask, EMPTY, {}, true))]);
      forall place, s :: Mail(q, place, s) == if place == Own(i) then [] else Mail(p, place, s)
  {}

  /** Every operation does to every queue of messages exactly what `MailAfter` says. */
  lemma MailRefines(p: Process, o: Operation)
    requires Inv(p) && Enabled(p, o)
    ensures Apply(p, o).Some? && forall place, s :: Mail(Apply(p, o).value, place, s) == MailAfter(p, o, place, s)
  {
    hide Inv, Mail, QueueProcess, QueueThread, Take, ChangeMask, ClearAll, Left;
    match o
    case OnProcess(info, alloc) => SendProcess(p, info, alloc);
    case OnThread(i, info, alloc) => SendThread(p, i, info, alloc);
    case Receive(i, signals, honor) => TakeMail(p, i, signals, honor);
    case NewMask(i, mask) => NewMaskMail(p, i, mask);
    case Forget(signal) => ClearAllMail(p, signal);
    case Create(i, mask) => CreateMail(p, i, mask);
    case Leave(i) => LeaveMail(p, i);
    case SetAction(signal, action) => ActionMail(p, p.actions[signal := action]);
  }

  lemma ActionMail(p: Process, actions: map<nat, Disposition>)
    ensures forall place, s :: Mail(p.(actions := actions), place, s) == Mail(p, place, s)
  {}
}
