/** Runs of the copy-on-write machine, and the machine that copies private memory eagerly
at fork.  `Refines` shows that no run of the first can be told from the second by the
bytes of private memory: anonymous pages, and the pages of private file mappings that have been written. */
module CowMachine {
  import opened Common
  import opened CopyOnWrite

  function Keys(p: Pid, lo: Vpn, hi: Vpn): set<Key> {
    set v: Vpn | lo <= v < hi :: Key(p, v)
  }

  lemma KeysMore(p: Pid, lo: Vpn, hi: Vpn)
    ensures lo < hi ==> Keys(p, lo, hi) == Keys(p, lo, hi - 1) + {Key(p, hi - 1)}
    ensures lo == hi ==> Keys(p, lo, hi) == {}
  {}

  // ----- Ranges -----

  function ProtectRange(s: State, p: Pid, lo: Vpn, hi: Vpn, prot: Prot): State
    requires lo <= hi
    decreases hi - lo
  {
    if lo == hi then s
    else
      var q := ProtectRange(s, p, lo, hi - 1, prot);
      if Key(p, hi - 1) in q.areas then ProtectPage(q, Key(p, hi - 1), prot) else q
  }

  lemma {:induction false} ProtectRangeKeeps(s: State, p: Pid, lo: Vpn, hi: Vpn, prot: Prot)
    requires Good(s) && lo <= hi
    ensures var r := ProtectRange(s, p, lo, hi, prot);
      && Good(r) && r.live == s.live && r.held == s.held && r.areas.Keys == s.areas.Keys
      && (forall k | k in s.areas :: r.areas[k] == if k in Keys(p, lo, hi) then s.areas[k].(prot := prot) else s.areas[k])
      && (forall k :: Content(r, k) == Content(s, k))
    decreases hi - lo
  {
    hide Good;
    hide Content;
    if lo < hi {
      KeysMore(p, lo, hi);
      ProtectRangeKeeps(s, p, lo, hi - 1, prot);
      var q := ProtectRange(s, p, lo, hi - 1, prot);
      if Key(p, hi - 1) in q.areas { ProtectPageKeeps(q, Key(p, hi - 1), prot); }
    }
  }

  function UnmapRange(s: State, p: Pid, lo: Vpn, hi: Vpn): State
    requires lo <= hi
    decreases hi - lo
  {
    if lo == hi then s else UnmapPage(UnmapRange(s, p, lo, hi - 1), Key(p, hi - 1))
  }

  lemma UnmapPageFrame(s: State, k: Key)
    ensures var r := UnmapPage(s, k); r.live == s.live && r.held == s.held && r.areas == s.areas - {k}
  {}

  lemma {:induction false} UnmapRangeKeeps(s: State, p: Pid, lo: Vpn, hi: Vpn)
    requires Good(s) && lo <= hi
    ensures var r := UnmapRange(s, p, lo, hi);
      && Good(r) && r.live == s.live && r.held == s.held && r.areas == s.areas - Keys(p, lo, hi)
      && (forall k | k !in Keys(p, lo, hi) :: Content(r, k) == Content(s, k))
    decreases hi - lo
  {
    hide Good, Content, UnmapPage, Keys;
    KeysMore(p, lo, hi);
    if lo < hi {
      UnmapRangeKeeps(s, p, lo, hi - 1);
      var q := UnmapRange(s, p, lo, hi - 1);
      UnmapPageKeeps(q, Key(p, hi - 1));
      UnmapPageFrame(q, Key(p, hi - 1));
    }
  }

  /** Reclaim: the clean entries of `keys` are dropped one after the other. */
  function DropAll(s: State, keys: seq<Key>): State {
    if keys == [] then s
    else
      var last, q := keys[|keys| - 1], DropAll(s, keys[..|keys| - 1]);
      if Reclaimable(q, last) then DropEntry(q, last) else q
  }

  lemma {:induction false} DropAllKeeps(s: State, keys: seq<Key>)
    requires Good(s)
    ensures var r := DropAll(s, keys);
      && Good(r) && r.live == s.live && r.held == s.held && r.areas == s.areas
      && (forall k :: Content(r, k) == Content(s, k))
  {
    hide Good;
    hide Content;
    if keys != [] {
      DropAllKeeps(s, keys[..|keys| - 1]);
      var last, q := keys[|keys| - 1], DropAll(s, keys[..|keys| - 1]);
      if Reclaimable(q, last) { ReclaimPageKeeps(q, last); }
    }
  }

  // ----- Fork -----

  function CloneMap<V>(m: map<Key, V>, p: Pid, c: Pid): map<Key, V> {
    m + map k | k in m && k.pid == p :: Key(c, k.vpn) := m[k]
  }

  datatype Copied = Copied(s: State, ok: bool)

  /** vm_copy over the pages below `hi`.  `failAt` is the page whose page-table page could not be allocated. */
  function CopyRange(s: State, p: Pid, c: Pid, hi: Vpn, failAt: Option<Vpn>): Copied {
    if hi == 0 then Copied(s, true)
    else
      var q := CopyRange(s, p, c, hi - 1, failAt);
      var k := Key(p, hi - 1);
      if !q.ok || k !in q.s.ptes then q
      else if k !in q.s.areas || RefCount(q.s, q.s.ptes[k].frame) >= REF_MAX then Copied(q.s, false)
      else if failAt == Some(hi - 1) then Copied(ParentCow(q.s, k), false)
      else Copied(CopyEntry(q.s, k, Key(c, hi - 1)), true)
  }

  ghost predicate Twins(s: State, p: Pid, c: Pid) {
    && p != c
    && (forall v: Vpn | Key(p, v) in s.areas :: Key(c, v) in s.areas && s.areas[Key(c, v)] == s.areas[Key(p, v)])
  }

  ghost predicate Unborn(s: State, c: Pid) {
    forall v: Vpn :: Key(c, v) !in s.ptes
  }

  ghost predicate CopiedBelow(s: State, r: State, p: Pid, c: Pid, hi: Vpn) {
    forall v: Vpn | v < hi :: Content(r, Key(c, v)) == Content(s, Key(p, v))
  }

  ghost predicate OthersKept(s: State, r: State, c: Pid) {
    && r.live == s.live && r.held == s.held && r.areas == s.areas
    && forall k: Key | k.pid != c :: Content(r, k) == Content(s, k) && (k in r.ptes <==> k in s.ptes)
  }

  lemma CopyStep(s: State, k: Key, to: Key)
    requires Good(s) && k in s.ptes && to !in s.ptes && to in s.areas && s.areas[to] == s.areas[k]
    requires RefCount(s, s.ptes[k].frame) < REF_MAX
    ensures var r := CopyEntry(s, k, to);
      && Good(r) && r.live == s.live && r.held == s.held && r.areas == s.areas
      && r.ptes.Keys == s.ptes.Keys + {to}
      && (forall j | j != to :: Content(r, j) == Content(s, j)) && Content(r, to) == Content(s, k)
  {
    EntryBasics(s, k, multiset{});
    hide Good;
    hide Content;
    CopyEntryKeeps(s, k, to);
    CopyEntryFrame(s, k, to);
    hide CopyEntry;
  }

  lemma CopyEntryFrame(s: State, k: Key, to: Key)
    requires k in s.ptes && k in s.areas
    ensures var r := CopyEntry(s, k, to);
      r.live == s.live && r.held == s.held && r.areas == s.areas && r.ptes.Keys == s.ptes.Keys + {to}
  {}

  lemma ParentStep(s: State, k: Key)
    requires Good(s) && k in s.ptes
    ensures k in s.areas
    ensures var r := ParentCow(s, k);
      && Good(r) && r.live == s.live && r.held == s.held && r.areas == s.areas && r.ptes.Keys == s.ptes.Keys
      && (forall j :: Content(r, j) == Content(s, j))
  {
    hide Inv, Content;
    EntryBasics(s, k, multiset{});
    ParentCowKeeps(s, k, multiset{});
  }

  lemma {:induction false} CopyRangeKeeps(s: State, p: Pid, c: Pid, hi: Vpn, failAt: Option<Vpn>)
    requires Good(s) && Twins(s, p, c) && Unborn(s, c)
    ensures var r := CopyRange(s, p, c, hi, failAt);
      && Good(r.s) && OthersKept(s, r.s, c) && (r.ok ==> CopiedBelow(s, r.s, p, c, hi))
      && (forall v: Vpn | hi <= v :: Key(c, v) !in r.s.ptes)
  {
    hide Good, Content, ParentCow, CopyEntry, OthersKept, CopiedBelow;
    if hi > 0 {
      CopyRangeKeeps(s, p, c, hi - 1, failAt);
      var q := CopyRange(s, p, c, hi - 1, failAt);
      var k, to := Key(p, hi - 1), Key(c, hi - 1);
      if q.ok && k !in q.s.ptes {
        CopyNothing(s, q.s, p, c, hi - 1);
      } else if q.ok {
        CopyParent(s, q.s, p, c, hi - 1);
        if RefCount(q.s, q.s.ptes[k].frame) < REF_MAX { CopyChild(s, q.s, p, c, hi - 1); }
      }
    } else {
      CopyStart(s, p, c);
    }
  }

  lemma CopyStart(s: State, p: Pid, c: Pid)
    ensures OthersKept(s, s, c) && CopiedBelow(s, s, p, c, 0)
  { hide Content; }

  lemma CopyNothing(s: State, q: State, p: Pid, c: Pid, v: Vpn)
    requires OthersKept(s, q, c) && CopiedBelow(s, q, p, c, v) && p != c && Key(p, v) !in q.ptes && Key(c, v) !in q.ptes
    ensures CopiedBelow(s, q, p, c, v + 1)
  {
    hide Content;
    Unmapped(s, Key(p, v));
    Unmapped(q, Key(c, v));
  }

  lemma CopyParent(s: State, q: State, p: Pid, c: Pid, v: Vpn)
    requires Good(q) && OthersKept(s, q, c) && p != c && Key(p, v) in q.ptes
    ensures Key(p, v) in q.areas
    ensures var r := ParentCow(q, Key(p, v)); Good(r) && OthersKept(s, r, c) && r.ptes.Keys == q.ptes.Keys
  {
    hide Good, Content, ParentCow;
    ParentStep(q, Key(p, v));
  }

  lemma CopyChild(s: State, q: State, p: Pid, c: Pid, v: Vpn)
    requires Good(q) && Twins(s, p, c) && OthersKept(s, q, c) && CopiedBelow(s, q, p, c, v)
    requires Key(p, v) in q.ptes && Key(p, v) in q.areas && Key(c, v) !in q.ptes && RefCount(q, q.ptes[Key(p, v)].frame) < REF_MAX
    ensures var r := CopyEntry(q, Key(p, v), Key(c, v));
      Good(r) && OthersKept(s, r, c) && CopiedBelow(s, r, p, c, v + 1) && r.ptes.Keys == q.ptes.Keys + {Key(c, v)}
  {
    hide Good, Content, CopyEntry;
    CopyStep(q, Key(p, v), Key(c, v));
  }

  lemma Unmapped(s: State, k: Key)
    requires k !in s.ptes
    ensures Content(s, k) == Untouched()
  {}

  /** The pages of `p` below `hi` that map the frame. */
  ghost function PagesOf(s: State, p: Pid, hi: Vpn, f: Frame): set<Vpn> {
    set v: Vpn | v < hi && Key(p, v) in s.ptes && s.ptes[Key(p, v)].frame == f
  }

  /** Every table page can be had, and no frame gets more references than can be counted. */
  ghost predicate CopyFits(s: State, p: Pid, hi: Vpn, failAt: Option<Vpn>) {
    && (failAt.Some? && failAt.value < hi ==> Key(p, failAt.value) !in s.ptes)
    && (forall f | PagesOf(s, p, hi, f) != {} :: RefCount(s, f) + |PagesOf(s, p, hi, f)| <= REF_MAX)
  }

  /** When a fork succeeds. */
  ghost predicate ForkFits(s: State, p: Pid, top: Vpn, failAt: Option<Vpn>, cloneOk: bool) {
    cloneOk && CopyFits(s, p, top, failAt)
  }

  lemma PagesMore(s: State, p: Pid, hi: Vpn, f: Frame)
    requires hi > 0
    ensures var k := Key(p, hi - 1);
      PagesOf(s, p, hi, f) == PagesOf(s, p, hi - 1, f) + (if k in s.ptes && s.ptes[k].frame == f then {hi - 1} else {})
    ensures |PagesOf(s, p, hi, f)| == |PagesOf(s, p, hi - 1, f)| + if Key(p, hi - 1) in s.ptes && s.ptes[Key(p, hi - 1)].frame == f then 1 else 0
  {
    var k := Key(p, hi - 1);
    assert PagesOf(s, p, hi, f) == PagesOf(s, p, hi - 1, f) + (if k in s.ptes && s.ptes[k].frame == f then {hi - 1} else {});
  }

  /** The walk moves no page of the parent and adds one reference for each page it shares. */
  ghost predicate Shared(s: State, r: State, p: Pid, hi: Vpn) {
    && (forall f :: RefCount(r, f) == RefCount(s, f) + |PagesOf(s, p, hi, f)|)
    && (forall v: Vpn :: (Key(p, v) in r.ptes <==> Key(p, v) in s.ptes) && (Key(p, v) in s.ptes ==> r.ptes[Key(p, v)].frame == s.ptes[Key(p, v)].frame))
  }

  lemma SharedMore(s: State, q: State, p: Pid, c: Pid, v: Vpn)
    requires Shared(s, q, p, v) && p != c
    ensures Key(p, v) !in q.ptes ==> Shared(s, q, p, v + 1)
    ensures Key(p, v) in q.ptes && Key(p, v) in q.areas && q.ptes[Key(p, v)].frame in q.frames ==>
      Shared(s, CopyEntry(q, Key(p, v), Key(c, v)), p, v + 1)
  {
    hide PagesOf;
    forall f ensures |PagesOf(s, p, v + 1, f)| == |PagesOf(s, p, v, f)| + if Key(p, v) in s.ptes && s.ptes[Key(p, v)].frame == f then 1 else 0 {
      PagesMore(s, p, v + 1, f);
    }
  }

  lemma FitsMore(s: State, p: Pid, v: Vpn, failAt: Option<Vpn>)
    ensures var k := Key(p, v);
      CopyFits(s, p, v + 1, failAt) <==>
        && CopyFits(s, p, v, failAt)
        && (k in s.ptes ==> failAt != Some(v) && RefCount(s, s.ptes[k].frame) + |PagesOf(s, p, v, s.ptes[k].frame)| < REF_MAX)
  {
    forall f ensures
      && |PagesOf(s, p, v + 1, f)| == |PagesOf(s, p, v, f)| + (if Key(p, v) in s.ptes && s.ptes[Key(p, v)].frame == f then 1 else 0)
      && (PagesOf(s, p, v, f) != {} ==> PagesOf(s, p, v + 1, f) != {})
    {
      PagesMore(s, p, v + 1, f);
    }
    if Key(p, v) in s.ptes { assert v in PagesOf(s, p, v + 1, s.ptes[Key(p, v)].frame); }
    FitsMoreFrames(s, p, v, failAt);
  }

  lemma FitsMoreFrames(s: State, p: Pid, v: Vpn, failAt: Option<Vpn>)
    requires forall f :: |PagesOf(s, p, v + 1, f)| == |PagesOf(s, p, v, f)| + (if Key(p, v) in s.ptes && s.ptes[Key(p, v)].frame == f then 1 else 0)
                         && (PagesOf(s, p, v, f) != {} ==> PagesOf(s, p, v + 1, f) != {})
    requires Key(p, v) in s.ptes ==> PagesOf(s, p, v + 1, s.ptes[Key(p, v)].frame) != {}
    ensures var k := Key(p, v);
      CopyFits(s, p, v + 1, failAt) <==>
        && CopyFits(s, p, v, failAt)
        && (k in s.ptes ==> failAt != Some(v) && RefCount(s, s.ptes[k].frame) + |PagesOf(s, p, v, s.ptes[k].frame)| < REF_MAX)
  {
    hide PagesOf, RefCount;
    forall f | PagesOf(s, p, v + 1, f) != {} ensures PagesOf(s, p, v, f) != {} || (Key(p, v) in s.ptes && s.ptes[Key(p, v)].frame == f) {
      if PagesOf(s, p, v, f) == {} { assert |PagesOf(s, p, v, f)| == 0; }
    }
  }

  lemma SharedStart(s: State, p: Pid, failAt: Option<Vpn>)
    ensures Shared(s, s, p, 0) && CopyFits(s, p, 0, failAt)
  {}

  /** The walk succeeds exactly when every page can be shared. */
  lemma {:induction false} CopyRangeFits(s: State, p: Pid, c: Pid, hi: Vpn, failAt: Option<Vpn>)
    requires Good(s) && Twins(s, p, c) && Unborn(s, c)
    ensures var r := CopyRange(s, p, c, hi, failAt); (r.ok <==> CopyFits(s, p, hi, failAt)) && (r.ok ==> Shared(s, r.s, p, hi))
  {
    hide Inv, Shared, CopyFits, PagesOf, CopyEntry, ParentCow, OthersKept, CopiedBelow;
    if hi > 0 {
      var k := Key(p, hi - 1);
      CopyRangeFits(s, p, c, hi - 1, failAt);
      CopyRangeKeeps(s, p, c, hi - 1, failAt);
      FitsMore(s, p, hi - 1, failAt);
      var q := CopyRange(s, p, c, hi - 1, failAt);
      if q.ok {
        SharedAt(s, q.s, p, hi - 1);
        if k in q.s.ptes { EntryBasics(q.s, k, multiset{}); }
        SharedMore(s, q.s, p, c, hi - 1);
      }
    } else {
      SharedStart(s, p, failAt);
    }
  }

  lemma SharedAt(s: State, q: State, p: Pid, v: Vpn)
    requires Shared(s, q, p, v)
    ensures var k := Key(p, v);
      && (k in q.ptes <==> k in s.ptes)
      && (k in s.ptes ==> q.ptes[k].frame == s.ptes[k].frame
                          && RefCount(q, q.ptes[k].frame) == RefCount(s, s.ptes[k].frame) + |PagesOf(s, p, v, s.ptes[k].frame)|)
  {}

  /** mmap_process_fork.  The child's areas are the parent's from the start here; nothing reads
      them before they are complete.  A failed copy or clone frees all the child got. */
  function Fork(s: State, p: Pid, c: Pid, top: Vpn, failAt: Option<Vpn>, cloneOk: bool): Copied {
    var r := CopyRange(s.(areas := CloneMap(s.areas, p, c), live := s.live + {c}), p, c, top, failAt);
    if r.ok && cloneOk then r
    else
      var u := UnmapRange(r.s, c, 0, top);
      Copied(u.(live := u.live - {c}), false)
  }

  function Exit(s: State, p: Pid, top: Vpn): State {
    var u := UnmapRange(s, p, 0, top);
    u.(live := u.live - {p})
  }

  // ----- New areas and the page cache -----

  function MapRange(s: State, p: Pid, lo: Vpn, hi: Vpn, a: Area): State {
    s.(areas := s.areas + map k | k in Keys(p, lo, hi) :: a)
  }

  function CacheFill(s: State, f: Frame, data: Page): State {
    AllocFrame(s, f, data).(held := s.held + {f})
  }

  function CacheDrop(s: State, f: Frame): State {
    PFree(s.(held := s.held - {f}), f)
  }

  function CacheWrite(s: State, f: Frame, data: Page): State
    requires f in s.frames
  {
    s.(frames := s.frames[f := s.frames[f].(data := data)])
  }

  // ----- Actions -----

  datatype Action =
    | Mmap(pid: Pid, lo: Vpn, hi: Vpn, area: Area)
    | Munmap(pid: Pid, lo: Vpn, hi: Vpn)
    | Mprotect(pid: Pid, lo: Vpn, hi: Vpn, prot: Prot)
    | PageFault(key: Key, access: Access, env: FaultEnv)
    | UserStore(key: Key, offset: nat, value: Byte, found: Page) // `found` is the page as the store finds it
    | ForkCall(pid: Pid, child: Pid, top: Vpn, failAt: Option<Vpn>, cloneOk: bool)
    | ExitCall(pid: Pid, top: Vpn)
    | Reclaim(keys: seq<Key>)
    | CacheFillPage(frame: Frame, data: Page)
    | CacheDropPage(frame: Frame)
    | CacheWritePage(frame: Frame, data: Page)

  ghost predicate Below(s: State, p: Pid, top: Vpn) {
    forall k | k in s.areas && k.pid == p :: k.vpn < top
  }

  ghost predicate Enabled(s: State, a: Action) {
    match a
    case Mmap(p, lo, hi, area) => p in s.live && lo <= hi && Keys(p, lo, hi) !! s.areas.Keys && (area.backed ==> area.shared)
    case Munmap(p, lo, hi) => lo <= hi
    case Mprotect(p, lo, hi, prot) => lo <= hi
    case PageFault(k, access, env) => EnvOk(s, k, env)
    case UserStore(k, offset, value, found) =>
      && k in s.ptes && s.ptes[k].frame in s.frames && HardwareAllows(s.ptes[k], Write) && offset < PGSIZE
      && found == Content(s, k).page
    case ForkCall(p, c, top, failAt, cloneOk) => p in s.live && c !in s.live && Below(s, p, top)
    case ExitCall(p, top) => Below(s, p, top)
    case Reclaim(keys) => true
    case CacheFillPage(f, data) => f !in s.frames
    case CacheDropPage(f) => f in s.held
    case CacheWritePage(f, data) => f in s.held && f in s.frames
  }

  function Step(s: State, a: Action): Copied
    requires Enabled(s, a)
  {
    match a
    case Mmap(p, lo, hi, area) => Copied(MapRange(s, p, lo, hi, area), true)
    case Munmap(p, lo, hi) => Copied(UnmapRange(s, p, lo, hi), true)
    case Mprotect(p, lo, hi, prot) => Copied(ProtectRange(s, p, lo, hi, prot), true)
    case PageFault(k, access, env) => Copied(Fault(s, k, access, env).0, true)
    case UserStore(k, offset, value, found) => Copied(Store(s, k, offset, value), true)
    case ForkCall(p, c, top, failAt, cloneOk) => Fork(s, p, c, top, failAt, cloneOk)
    case ExitCall(p, top) => Copied(Exit(s, p, top), true)
    case Reclaim(keys) => Copied(DropAll(s, keys), true)
    case CacheFillPage(f, data) => Copied(CacheFill(s, f, data), true)
    case CacheDropPage(f) => Copied(CacheDrop(s, f), true)
    case CacheWritePage(f, data) => Copied(CacheWrite(s, f, data), true)
  }

  /** Only a fork can fail as a whole. */
  ghost predicate Succeeds(s: State, a: Action) {
    a.ForkCall? ==> ForkFits(s, a.pid, a.top, a.failAt, a.cloneOk)
  }

  // ----- The eager machine -----

  /** Private memory without sharing: one page of bytes for every private anonymous page and for
      every page of a private file mapping that has been written.  The first store to such a page
      copies what it finds there. */
  datatype Eager = Eager(areas: map<Key, Area>, data: map<Key, Page>, live: set<Pid>)

  function EagerStep(e: Eager, a: Action, ok: bool): Eager {
    match a
    case Mmap(p, lo, hi, area) =>
      Eager(e.areas + map k | k in Keys(p, lo, hi) :: area,
            if area.PrivateAnon() then e.data + map k | k in Keys(p, lo, hi) :: ZeroPage() else e.data, e.live)
    case Munmap(p, lo, hi) => Eager(e.areas - Keys(p, lo, hi), e.data - Keys(p, lo, hi), e.live)
    case Mprotect(p, lo, hi, prot) =>
      e.(areas := map k | k in e.areas :: if k in Keys(p, lo, hi) then e.areas[k].(prot := prot) else e.areas[k])
    case UserStore(k, offset, value, found) =>
      if k in e.areas && !e.areas[k].shared && offset < PGSIZE then
        e.(data := e.data[k := Poke(if k in e.data then e.data[k] else found, offset, value)])
      else e
    case ForkCall(p, c, top, failAt, cloneOk) =>
      if ok then Eager(CloneMap(e.areas, p, c), CloneMap(e.data, p, c), e.live + {c}) else e
    case ExitCall(p, top) => Eager(e.areas - Keys(p, 0, top), e.data - Keys(p, 0, top), e.live - {p})
    case _ => e
  }

  function Abs(s: State): Eager {
    Eager(s.areas, map k | k in s.areas && Mine(s.areas[k], Content(s, k)) :: Content(s, k).page, s.live)
  }

  lemma AbsSame(s: State, r: State)
    requires r.areas == s.areas && r.live == s.live
    requires forall k | k in s.areas && (Mine(s.areas[k], Content(s, k)) || Mine(s.areas[k], Content(r, k))) :: Content(r, k) == Content(s, k)
    ensures Abs(r) == Abs(s)
  { hide Content, Mine; }

  lemma ViewAbs(s: State, r: State)
    requires r.areas == s.areas && r.live == s.live && SameBytes(s, r, s.areas.Keys) && NewClean(s, r)
    ensures Abs(r) == Abs(s)
  {
    hide Content, ZeroPage;
    forall k | k !in s.ptes ensures Content(s, k) == Untouched() { Unmapped(s, k); }
    AbsSame(s, r);
  }

  lemma RetagGood(s: State, areas: map<Key, Area>, live: set<Pid>)
    requires Good(s) && (forall k | k in s.ptes :: k in areas && areas[k] == s.areas[k])
    requires forall k | k in areas :: k.pid in live && (areas[k].backed ==> areas[k].shared)
    ensures Good(s.(areas := areas, live := live))
    ensures forall k :: Content(s.(areas := areas, live := live), k) == Content(s, k)
  {
    AreasShape(s, areas, live);
    AreaCounted(s, areas, live, multiset{});
    hide Shape;
    hide Counted;
  }

  lemma AreaBasics(s: State, k: Key)
    requires Good(s) && k in s.areas
    ensures k.pid in s.live && (s.areas[k].backed ==> s.areas[k].shared)
  {}

  lemma MmapRefines(s: State, p: Pid, lo: Vpn, hi: Vpn, a: Area)
    requires Good(s) && Enabled(s, Mmap(p, lo, hi, a))
    ensures Good(MapRange(s, p, lo, hi, a))
    ensures Abs(MapRange(s, p, lo, hi, a)) == EagerStep(Abs(s), Mmap(p, lo, hi, a), true)
  {
    var r := MapRange(s, p, lo, hi, a);
    forall k | k in s.areas ensures k.pid in s.live && (s.areas[k].backed ==> s.areas[k].shared) { AreaBasics(s, k); }
    forall k | k in s.ptes ensures k in s.areas { EntryBasics(s, k, multiset{}); }
    hide Good;
    RetagGood(s, r.areas, s.live);
    forall k | k in Keys(p, lo, hi) ensures Content(s, k) == Untouched() { Unmapped(s, k); }
    hide Content;
    hide ZeroPage;
    MmapAbs(s, r, p, lo, hi, a);
  }

  lemma MmapAbs(s: State, r: State, p: Pid, lo: Vpn, hi: Vpn, a: Area)
    requires r == MapRange(s, p, lo, hi, a) && Keys(p, lo, hi) !! s.areas.Keys
    requires forall k :: Content(r, k) == Content(s, k)
    requires forall k | k in Keys(p, lo, hi) :: Content(s, k) == Untouched()
    ensures Abs(r) == EagerStep(Abs(s), Mmap(p, lo, hi, a), true)
  {
    hide Content, ZeroPage, Keys;
    var e := EagerStep(Abs(s), Mmap(p, lo, hi, a), true);
    forall k ensures k in Abs(r).data <==> k in e.data {}
    forall k | k in e.data ensures Abs(r).data[k] == e.data[k] {}
  }

  lemma MunmapRefines(s: State, p: Pid, lo: Vpn, hi: Vpn)
    requires Good(s) && lo <= hi
    ensures Good(UnmapRange(s, p, lo, hi))
    ensures Abs(UnmapRange(s, p, lo, hi)) == EagerStep(Abs(s), Munmap(p, lo, hi), true)
  {
    hide Good;
    hide Content;
    UnmapRangeKeeps(s, p, lo, hi);
    var r := UnmapRange(s, p, lo, hi);
    hide UnmapRange;
    assert Abs(r).data == Abs(s).data - Keys(p, lo, hi);
  }

  lemma MprotectRefines(s: State, p: Pid, lo: Vpn, hi: Vpn, prot: Prot)
    requires Good(s) && lo <= hi
    ensures Good(ProtectRange(s, p, lo, hi, prot))
    ensures Abs(ProtectRange(s, p, lo, hi, prot)) == EagerStep(Abs(s), Mprotect(p, lo, hi, prot), true)
  {
    hide Good, Content, ProtectRange, Keys;
    ProtectRangeKeeps(s, p, lo, hi, prot);
    var r := ProtectRange(s, p, lo, hi, prot);
    assert Abs(r).areas == EagerStep(Abs(s), Mprotect(p, lo, hi, prot), true).areas;
    RetaggedData(s, r);
  }

  /** New protections leave the private pages what they are. */
  lemma RetaggedData(s: State, r: State)
    requires r.areas.Keys == s.areas.Keys && (forall k :: Content(r, k) == Content(s, k))
    requires forall k | k in s.areas :: r.areas[k] == s.areas[k].(prot := r.areas[k].prot)
    ensures Abs(r).data == Abs(s).data
  { hide Content; }

  lemma FaultRefines(s: State, k: Key, access: Access, env: FaultEnv)
    requires Good(s) && EnvOk(s, k, env)
    ensures Good(Fault(s, k, access, env).0) && Abs(Fault(s, k, access, env).0) == Abs(s)
  {
    hide Good, Content, Fault, SameBytes, NewClean, Abs;
    FaultCorrect(s, k, access, env);
    ViewAbs(s, Fault(s, k, access, env).0);
  }

  lemma StoreRefines(s: State, k: Key, offset: nat, value: Byte, found: Page)
    requires Good(s) && Enabled(s, UserStore(k, offset, value, found))
    ensures Good(Store(s, k, offset, value))
    ensures Abs(Store(s, k, offset, value)) == EagerStep(Abs(s), UserStore(k, offset, value, found), true)
  {
    EntryBasics(s, k, multiset{});
    StoreShape(s, k, offset, value);
    StoreCounted(s, k, offset, value);
    if s.areas[k].shared { StoreShared(s, k, offset, value); } else { StorePrivate(s, k, offset, value); }
    hide Shape;
    hide Counted;
    hide Content;
    hide Poke;
    AreaBasics(s, k);
    StoreAbs(s, k, offset, value, found);
  }

  lemma StoreAbs(s: State, k: Key, offset: nat, value: Byte, found: Page)
    requires k in s.ptes && k in s.areas && s.ptes[k].frame in s.frames && offset < PGSIZE
    requires found == Content(s, k).page && (s.areas[k].backed ==> s.areas[k].shared)
    requires var r := Store(s, k, offset, value);
      && (s.areas[k].shared ==>
            forall j | j in s.areas && (Mine(s.areas[j], Content(s, j)) || Mine(s.areas[j], Content(r, j))) :: Content(r, j) == Content(s, j))
      && (!s.areas[k].shared ==>
            (forall j | j != k :: Content(r, j) == Content(s, j)) && Content(r, k) == Seen(Poke(Content(s, k).page, offset, value), true))
    ensures Abs(Store(s, k, offset, value)) == EagerStep(Abs(s), UserStore(k, offset, value, found), true)
  {
    hide Content;
    hide Poke;
    var r := Store(s, k, offset, value);
    assert r.areas == s.areas && r.live == s.live;
    hide Store;
    assert Abs(r).data == EagerStep(Abs(s), UserStore(k, offset, value, found), true).data;
  }

  lemma DeathGood(u: State, c: Pid)
    requires Good(u) && forall k | k in u.areas :: k.pid != c
    ensures Good(u.(live := u.live - {c}))
    ensures forall k :: Content(u.(live := u.live - {c}), k) == Content(u, k)
  {
    forall k | k in u.areas ensures k.pid in u.live - {c} && (u.areas[k].backed ==> u.areas[k].shared) { AreaBasics(u, k); }
    forall k | k in u.ptes ensures k in u.areas { EntryBasics(u, k, multiset{}); }
    hide Good;
    RetagGood(u, u.areas, u.live - {c});
  }

  lemma ExitRefines(s: State, p: Pid, top: Vpn)
    requires Good(s) && Below(s, p, top)
    ensures Good(Exit(s, p, top))
    ensures Abs(Exit(s, p, top)) == EagerStep(Abs(s), ExitCall(p, top), true)
  {
    hide Good;
    hide Content;
    MunmapRefines(s, p, 0, top);
    UnmapRangeKeeps(s, p, 0, top);
    var u := UnmapRange(s, p, 0, top);
    assert forall k | k in s.areas && k.pid == p :: k in Keys(p, 0, top);
    DeathGood(u, p);
    hide UnmapRange;
    LiveAbs(u, p);
  }

  lemma LiveAbs(u: State, p: Pid)
    requires forall k :: Content(u.(live := u.live - {p}), k) == Content(u, k)
    ensures Abs(u.(live := u.live - {p})) == Abs(u).(live := u.live - {p})
  {
    hide Content;
    assert Abs(u.(live := u.live - {p})).data == Abs(u).data;
  }

  lemma {:induction false} CloneFacts<V>(m: map<Key, V>, p: Pid, c: Pid)
    requires p != c && forall k | k in m :: k.pid != c
    ensures forall k | k in m :: k in CloneMap(m, p, c) && CloneMap(m, p, c)[k] == m[k]
    ensures forall v: Vpn :: Key(c, v) in CloneMap(m, p, c) <==> Key(p, v) in m
    ensures forall v: Vpn | Key(p, v) in m :: CloneMap(m, p, c)[Key(c, v)] == m[Key(p, v)]
    ensures forall k | k in CloneMap(m, p, c) && k.pid != c :: k in m
  {}

  /** The state a fork starts copying from. */
  function ForkStart(s: State, p: Pid, c: Pid): State {
    s.(areas := CloneMap(s.areas, p, c), live := s.live + {c})
  }

  lemma ForkStartGood(s: State, p: Pid, c: Pid)
    requires Good(s) && p in s.live && c !in s.live
    ensures Good(ForkStart(s, p, c)) && Twins(ForkStart(s, p, c), p, c) && Unborn(s, c)
    ensures forall k :: Content(ForkStart(s, p, c), k) == Content(s, k)
    ensures forall k | k in s.areas :: k.pid != c
  {
    forall k | k in s.areas ensures k.pid != c { AreaBasics(s, k); }
    CloneFacts(s.areas, p, c);
    var m := CloneMap(s.areas, p, c);
    forall k | k in m ensures k.pid in s.live + {c} && (m[k].backed ==> m[k].shared) {
      if k.pid == c { assert k == Key(c, k.vpn); AreaBasics(s, Key(p, k.vpn)); } else { AreaBasics(s, k); }
    }
    forall k | k in s.ptes ensures k in s.areas { EntryBasics(s, k, multiset{}); }
    hide Good;
    hide Content;
    hide CloneMap;
    RetagGood(s, m, s.live + {c});
  }

  lemma ForkOkAbs(s: State, r: State, p: Pid, c: Pid, top: Vpn)
    requires p != c && Below(s, p, top) && (forall k | k in s.areas :: k.pid != c)
    requires r.areas == CloneMap(s.areas, p, c) && r.live == s.live + {c}
    requires CopiedBelow(s, r, p, c, top) && forall k: Key | k.pid != c :: Content(r, k) == Content(s, k)
    ensures Abs(r) == Eager(CloneMap(s.areas, p, c), CloneMap(Abs(s).data, p, c), s.live + {c})
  {
    hide Content, CloneMap;
    CloneFacts(s.areas, p, c);
    CloneFacts(Abs(s).data, p, c);
    var d := CloneMap(Abs(s).data, p, c);
    forall k ensures k in Abs(r).data <==> k in d {
      if k.pid == c { assert k == Key(c, k.vpn); }
    }
    forall k | k in d ensures Abs(r).data[k] == d[k] {
      if k.pid == c { assert k == Key(c, k.vpn); }
    }
    assert Abs(r).data == d;
  }

  lemma ForkFailAreas(areas: map<Key, Area>, p: Pid, c: Pid, top: Vpn)
    requires p != c && (forall k | k in areas :: k.pid != c && (k.pid == p ==> k.vpn < top))
    ensures CloneMap(areas, p, c) - Keys(c, 0, top) == areas
  {
    var m := CloneMap(areas, p, c) - Keys(c, 0, top);
    CloneFacts(areas, p, c);
    forall k ensures k in m <==> k in areas {
      assert k == Key(k.pid, k.vpn);
      assert k in Keys(c, 0, top) <==> k.pid == c && k.vpn < top;
    }
  }

  lemma ForkOk(s: State, p: Pid, c: Pid, top: Vpn, failAt: Option<Vpn>)
    requires Good(s) && p in s.live && c !in s.live && Below(s, p, top)
    requires CopyRange(ForkStart(s, p, c), p, c, top, failAt).ok
    ensures var r := CopyRange(ForkStart(s, p, c), p, c, top, failAt).s;
      Good(r) && Abs(r) == Eager(CloneMap(s.areas, p, c), CloneMap(Abs(s).data, p, c), s.live + {c})
  {
    ForkStartGood(s, p, c);
    var s0 := ForkStart(s, p, c);
    hide Good;
    hide Content;
    hide CloneMap;
    CopyRangeKeeps(s0, p, c, top, failAt);
    var r := CopyRange(s0, p, c, top, failAt).s;
    hide CopyRange;
    assert CopiedBelow(s, r, p, c, top);
    ForkOkAbs(s, r, p, c, top);
  }

  lemma ForkFail(s: State, p: Pid, c: Pid, top: Vpn, failAt: Option<Vpn>)
    requires Good(s) && p in s.live && c !in s.live && Below(s, p, top)
    ensures
      var u := UnmapRange(CopyRange(ForkStart(s, p, c), p, c, top, failAt).s, c, 0, top);
      var n := u.(live := u.live - {c});
      Good(n) && n.areas == s.areas && n.live == s.live && forall k: Key | k in s.areas :: Content(n, k) == Content(s, k)
  {
    ForkStartGood(s, p, c);
    var s0 := ForkStart(s, p, c);
    hide Good;
    hide Content;
    hide CloneMap;
    CopyRangeKeeps(s0, p, c, top, failAt);
    var r := CopyRange(s0, p, c, top, failAt).s;
    hide CopyRange;
    UnmapRangeKeeps(r, c, 0, top);
    var u := UnmapRange(r, c, 0, top);
    hide UnmapRange;
    ForkFailAreas(s.areas, p, c, top);
    DeathGood(u, c);
    Unspawn(s.live, c);
    hide Keys;
  }

  lemma Unspawn(live: set<Pid>, c: Pid)
    requires c !in live
    ensures live + {c} - {c} == live
  {}

  /** Fork succeeds exactly when the areas can be cloned, every table page can be had and no reference count overflows. */
  lemma ForkExact(s: State, p: Pid, c: Pid, top: Vpn, failAt: Option<Vpn>, cloneOk: bool)
    requires Good(s) && p in s.live && c !in s.live
    ensures Fork(s, p, c, top, failAt, cloneOk).ok <==> ForkFits(s, p, top, failAt, cloneOk)
  {
    hide Good, CloneMap, CopyRange, UnmapRange, PagesOf;
    ForkStartGood(s, p, c);
    StartsFree(s, p, c);
    CopyRangeFits(ForkStart(s, p, c), p, c, top, failAt);
    SamePages(s, ForkStart(s, p, c), p, top);
  }

  lemma StartsFree(s: State, p: Pid, c: Pid)
    requires Unborn(s, c)
    ensures Unborn(ForkStart(s, p, c), c)
  {}

  lemma SamePages(s: State, r: State, p: Pid, hi: Vpn)
    requires r.ptes == s.ptes && r.frames == s.frames
    ensures forall f :: PagesOf(r, p, hi, f) == PagesOf(s, p, hi, f) && RefCount(r, f) == RefCount(s, f)
  {
    forall f ensures PagesOf(r, p, hi, f) == PagesOf(s, p, hi, f) {}
  }

  /** Fork: on success the child gets the parent's bytes, on failure nobody sees a change. */
  lemma ForkRefines(s: State, p: Pid, c: Pid, top: Vpn, failAt: Option<Vpn>, cloneOk: bool)
    requires Good(s) && p in s.live && c !in s.live && Below(s, p, top)
    ensures var r := Fork(s, p, c, top, failAt, cloneOk);
      && Good(r.s) && (r.ok <==> ForkFits(s, p, top, failAt, cloneOk))
      && Abs(r.s) == EagerStep(Abs(s), ForkCall(p, c, top, failAt, cloneOk), ForkFits(s, p, top, failAt, cloneOk))
  {
    hide Good, Content, CloneMap, CopyRange, UnmapRange, ForkFits;
    ForkExact(s, p, c, top, failAt, cloneOk);
    var r := CopyRange(ForkStart(s, p, c), p, c, top, failAt);
    if r.ok && cloneOk {
      ForkOk(s, p, c, top, failAt);
    } else {
      ForkFail(s, p, c, top, failAt);
      var u := UnmapRange(r.s, c, 0, top);
      AbsSame(s, u.(live := u.live - {c}));
    }
  }

  lemma HeldShape(s: State, held: set<Frame>)
    requires Shape(s) && (forall f | f in held && f !in s.held :: f in s.frames)
    requires forall k | k in s.ptes && s.ptes[k].frame in held :: s.ptes[k].frame in s.held
    ensures Shape(s.(held := held))
  { hide ZeroPage; }

  lemma HeldFrames(s: State)
    requires Good(s)
    ensures s.held <= s.frames.Keys
  {}

  lemma HeldSame(s: State, held: set<Frame>)
    ensures forall k :: Content(s.(held := held), k) == Content(s, k)
  {}

  lemma CacheFillGood(s: State, f: Frame, data: Page)
    requires Good(s) && f !in s.frames
    ensures Good(CacheFill(s, f, data)) && forall k :: Content(CacheFill(s, f, data), k) == Content(s, k)
  {
    hide Shape, Counted, Content;
    var q := AllocFrame(s, f, data);
    forall k | k in s.ptes ensures s.ptes[k].frame in s.frames { EntryBasics(s, k, multiset{}); }
    HeldFrames(s);
    FramesSame(s, q.frames);
    HeldSame(q, s.held + {f});
    AllocKeeps(s, f, data, multiset{});
    assert multiset{} + multiset{f} == multiset{f};
    HeldShape(q, s.held + {f});
    CacheFillCounted(q, s.held, f);
  }

  lemma CacheFillCounted(q: State, held: set<Frame>, f: Frame)
    requires Counted(q, multiset{f}) && q.held == held && f !in held
    ensures Counted(q.(held := held + {f}), multiset{})
  {
    var r := q.(held := held + {f});
    assert forall g :: Mappers(r.ptes, g) == Mappers(q.ptes, g);
  }

  lemma CacheDropGood(s: State, f: Frame)
    requires Good(s) && f in s.held
    ensures Good(CacheDrop(s, f))
    ensures CacheDrop(s, f).areas == s.areas && CacheDrop(s, f).live == s.live
    ensures SameBytes(s, CacheDrop(s, f), s.areas.Keys) && NewClean(s, CacheDrop(s, f))
  {
    var q := s.(held := s.held - {f});
    HeldShape(s, s.held - {f});
    CacheDropCounted(s, f);
    hide Shape;
    hide Counted;
    PFreeKeeps(q, f, multiset{f});
    assert multiset{f} - multiset{f} == multiset{};
    PFreeSame(q, f, multiset{f});
    hide PFree;
    forall k ensures Content(q, k) == Content(s, k) {}
    hide Content;
  }

  lemma CacheDropCounted(s: State, f: Frame)
    requires Counted(s, multiset{}) && f in s.held && s.held <= s.frames.Keys
    ensures Counted(s.(held := s.held - {f}), multiset{f})
  {
    var r := s.(held := s.held - {f});
    assert forall g :: Mappers(r.ptes, g) == Mappers(s.ptes, g);
  }

  lemma CacheWriteGood(s: State, f: Frame, data: Page)
    requires Good(s) && f in s.held && f in s.frames
    ensures Good(CacheWrite(s, f, data))
    ensures forall k | k in s.areas && (Mine(s.areas[k], Content(s, k)) || Mine(s.areas[k], Content(CacheWrite(s, f, data), k))) ::
      Content(CacheWrite(s, f, data), k) == Content(s, k)
  {
    hide Shape, Counted, Content;
    CacheWriteCounted(s, f, data);
    CacheWriteShape(s, f, data);
    CacheWriteSame(s, f, data);
  }

  lemma CacheWriteCounted(s: State, f: Frame, data: Page)
    requires Counted(s, multiset{}) && f in s.frames
    ensures Counted(CacheWrite(s, f, data), multiset{})
  {
    assert forall g :: Holders(CacheWrite(s, f, data), g) == Holders(s, g);
  }

  /** A page that is a process's own is not in the cache. */
  lemma CacheWriteSame(s: State, f: Frame, data: Page)
    requires Shape(s) && f in s.held && f in s.frames
    ensures forall k | k in s.areas && (Mine(s.areas[k], Content(s, k)) || Mine(s.areas[k], Content(CacheWrite(s, f, data), k))) ::
      Content(CacheWrite(s, f, data), k) == Content(s, k)
  { hide ZeroPage, Exclusive, CleanIsZero, Flagged; }

  lemma CacheWriteShape(s: State, f: Frame, data: Page)
    requires Shape(s) && f in s.held && f in s.frames
    ensures Shape(CacheWrite(s, f, data))
  { hide ZeroPage; }

  // ----- Runs -----

  /** One step of the machine is one step of the eager machine. */
  lemma StepRefines(s: State, a: Action)
    requires Good(s) && Enabled(s, a)
    ensures Good(Step(s, a).s) && (Step(s, a).ok <==> Succeeds(s, a)) && Abs(Step(s, a).s) == EagerStep(Abs(s), a, Succeeds(s, a))
  {
    hide Good, Content, ForkFits;
    match a {
      case Mmap(p, lo, hi, area) => MmapRefines(s, p, lo, hi, area);
      case Munmap(p, lo, hi) => MunmapRefines(s, p, lo, hi);
      case Mprotect(p, lo, hi, prot) => MprotectRefines(s, p, lo, hi, prot);
      case PageFault(k, access, env) => FaultRefines(s, k, access, env);
      case UserStore(k, offset, value, found) => StoreRefines(s, k, offset, value, found);
      case ForkCall(p, c, top, failAt, cloneOk) => ForkRefines(s, p, c, top, failAt, cloneOk);
      case ExitCall(p, top) => ExitRefines(s, p, top);
      case Reclaim(keys) => DropAllKeeps(s, keys); AbsSame(s, DropAll(s, keys));
      case CacheFillPage(f, data) => CacheFillGood(s, f, data); AbsSame(s, CacheFill(s, f, data));
      case CacheDropPage(f) => CacheDropRefines(s, f);
      case CacheWritePage(f, data) => CacheWriteGood(s, f, data); AbsSame(s, CacheWrite(s, f, data));
    }
  }

  lemma CacheDropRefines(s: State, f: Frame)
    requires Good(s) && f in s.held
    ensures Good(CacheDrop(s, f)) && Abs(CacheDrop(s, f)) == Abs(s)
  {
    hide Good, Content, CacheDrop, SameBytes, NewClean, Abs;
    CacheDropGood(s, f);
    ViewAbs(s, CacheDrop(s, f));
  }

  /** A run: the states it goes through and the action of each step. */
  datatype Run = Start(init: State) | Then(before: Run, action: Action, after: State) {
    function Last(): State {
      if Start? then init else after
    }

    ghost predicate Legal() {
      if Start? then init.frames == map[] && init.ptes == map[] && init.areas == map[] && init.held == {}
      else before.Legal() && Enabled(before.Last(), action) && after == Step(before.Last(), action).s
    }

    ghost function Reference(): Eager
      requires Legal()
    {
      if Start? then Eager(map[], map[], init.live)
      else EagerStep(before.Reference(), action, Succeeds(before.Last(), action))
    }
  }

  /** Over every run, each process's private memory is what it would be had every fork copied it at
      once and every first store to a private file page made its own copy; the invariant holds in every state the run reaches. */
  lemma {:induction false} Refines(run: Run)
    requires run.Legal()
    ensures Good(run.Last()) && Abs(run.Last()) == run.Reference()
  {
    match run {
      case Start(init) =>
        InitGood(init);
      case Then(before, action, after) =>
        Refines(before);
        hide Good;
        StepRefines(before.Last(), action);
    }
  }

  lemma InitGood(init: State)
    requires init.frames == map[] && init.ptes == map[] && init.areas == map[] && init.held == {}
    ensures Good(init) && Abs(init) == Eager(map[], map[], init.live)
  {
    assert Abs(init).data == map[];
  }

  /** In every reachable state a load that the hardware lets through reads the eager machine's bytes:
      on private anonymous pages, and on private file pages from the first store on. */
  lemma LoadReads(run: Run, k: Key)
    requires run.Legal()
    requires k in run.Last().ptes && k in run.Last().areas
    requires run.Last().areas[k].PrivateAnon() || (run.Last().areas[k].PrivateFile() && run.Last().ptes[k].d)
    requires HardwareAllows(run.Last().ptes[k], Read)
    ensures var s := run.Last();
      && s.ptes[k].frame in s.frames && k in run.Reference().data
      && s.frames[s.ptes[k].frame].data == run.Reference().data[k]
  {
    Refines(run);
    EntryBasics(run.Last(), k, multiset{});
    assert Abs(run.Last()).data[k] == Content(run.Last(), k).page;
    hide Good;
  }
}
