/** Copy-on-write user memory: page-table entries, page reference counts and areas.

The machine's table holds the valid user leaf entries of every process, keyed by
process and page number; the areas are the page-indexed view of each process's
VMA set.  `Inv` is what every locked section keeps.  Its `extra` argument counts
references that are held by the code of a section and not yet by an entry. */
module CopyOnWrite {
  import opened Common

  type Pid = nat
  type Vpn = nat
  type Frame = nat
  type Byte = b: int | 0 <= b < 256

  const PGSIZE := 4096
  const REF_MAX := 0xffff_ffff

  datatype Bytes = Bytes(bytes: seq<Byte>)

  type Page = p: Bytes | |p.bytes| == PGSIZE witness Bytes(seq(PGSIZE, i => 0))

  function ZeroPage(): Page { Bytes(seq(PGSIZE, i => 0)) }

  datatype Key = Key(pid: Pid, vpn: Vpn)

  datatype Prot = Prot(read: bool, write: bool, exec: bool) {
    predicate NoAccess() { !read && !write && !exec }
  }

  datatype Area = Area(prot: Prot, shared: bool, file: bool, backed: bool, elf: bool) {
    predicate PrivateAnon() { !shared && !file && !backed }
    predicate PrivateFile() { !shared && file }
  }

  datatype Pte = Pte(frame: Frame, r: bool, w: bool, x: bool, u: bool, d: bool, cow: bool)

  datatype Phys = Phys(data: Page, refs: nat)

  /** `held` are the frames to which the page cache or a shared anonymous backing
      owns one reference. */
  datatype State = State(frames: map<Frame, Phys>, ptes: map<Key, Pte>,
                         areas: map<Key, Area>, live: set<Pid>, held: set<Frame>)

  ghost function Mappers(ptes: map<Key, Pte>, f: Frame): set<Key> {
    set k | k in ptes && ptes[k].frame == f
  }

  ghost function Holders(s: State, f: Frame): nat {
    |Mappers(s.ptes, f)| + if f in s.held then 1 else 0
  }

  /** What the flags of an entry may say, given its area (mmap_pte_permissions). */
  predicate FlagsAgree(p: Pte, a: Area) {
    && (p.w ==> a.prot.write && !p.cow)
    && p.u == !a.prot.NoAccess()
    && p.r == (a.prot.NoAccess() || a.prot.read || a.prot.write)
    && p.x == a.prot.exec
    && (a.prot.write && !a.shared ==> p.w || p.cow)
    && (a.prot.write && a.shared && !a.file ==> p.w)
    && (a.shared ==> !p.cow)
  }

  ghost predicate Owned(s: State) {
    && (forall k | k in s.ptes :: k in s.areas && s.ptes[k].frame in s.frames)
    && s.held <= s.frames.Keys
    && (forall k | k in s.areas :: k.pid in s.live && (s.areas[k].backed ==> s.areas[k].shared))
  }

  ghost predicate Counted(s: State, extra: multiset<Frame>) {
    && (forall f | f in extra :: f in s.frames)
    && (forall f | f in s.frames :: s.frames[f].refs == Holders(s, f) + extra[f] && 0 < s.frames[f].refs <= REF_MAX)
  }

  /** A writable private entry is the only one that maps its frame. */
  ghost predicate Exclusive(s: State) {
    forall k | k in s.ptes && s.ptes[k].w && k in s.areas && !s.areas[k].shared ::
      s.ptes[k].frame !in s.held && forall j | j in s.ptes && s.ptes[j].frame == s.ptes[k].frame :: j == k
  }

  /** Private anonymous frames never mix with frames that others may write. */
  ghost predicate AnonApart(s: State) {
    forall k | k in s.ptes && k in s.areas && s.areas[k].PrivateAnon() ::
      s.ptes[k].frame !in s.held &&
      forall j | j in s.ptes && s.ptes[j].frame == s.ptes[k].frame :: j in s.areas && s.areas[j].PrivateAnon()
  }

  /** Nor do the pages of private file mappings that have been written. */
  ghost predicate WrittenApart(s: State) {
    forall k | k in s.ptes && k in s.areas && s.areas[k].PrivateFile() && s.ptes[k].d ::
      s.ptes[k].frame !in s.held &&
      forall j | j in s.ptes && s.ptes[j].frame == s.ptes[k].frame :: j in s.areas && !s.areas[j].shared
  }

  /** A private anonymous page whose dirty bit is clear is still all zeroes. */
  ghost predicate CleanIsZero(s: State) {
    forall k | k in s.ptes && k in s.areas && s.areas[k].PrivateAnon() && !s.ptes[k].d && s.ptes[k].frame in s.frames ::
      s.frames[s.ptes[k].frame].data == ZeroPage()
  }

  ghost predicate Flagged(s: State) {
    forall k | k in s.ptes && k in s.areas :: FlagsAgree(s.ptes[k], s.areas[k])
  }

  ghost predicate Shape(s: State) {
    Owned(s) && Exclusive(s) && AnonApart(s) && WrittenApart(s) && CleanIsZero(s) && Flagged(s)
  }

  ghost predicate Inv(s: State, extra: multiset<Frame>) {
    Shape(s) && Counted(s, extra)
  }

  /** The invariant between locked sections: no reference is in flight. */
  ghost predicate Good(s: State) { Inv(s, multiset{}) }

  /** What a process sees at a page, and whether it has been written through the entry. */
  datatype Seen = Seen(page: Page, written: bool)

  function Untouched(): Seen { Seen(ZeroPage(), false) }

  /** Unmapped anonymous pages read as zeroes. */
  function Content(s: State, k: Key): Seen {
    if k in s.ptes && s.ptes[k].frame in s.frames then Seen(s.frames[s.ptes[k].frame].data, s.ptes[k].d) else Untouched()
  }

  /** The page is the process's own: private anonymous memory, or a private file page once it has been written. */
  predicate Mine(a: Area, c: Seen) {
    a.PrivateAnon() || (a.PrivateFile() && c.written)
  }

  /** Every page that `s` shows to a process, private or shared, shows the same bytes in `r`. */
  ghost predicate SameBytes(s: State, r: State, keys: set<Key>) {
    forall k | k in s.areas && k in keys && (k in s.ptes || s.areas[k].PrivateAnon()) :: Content(r, k) == Content(s, k)
  }

  /** Pages that appear have not been written. */
  ghost predicate NewClean(s: State, r: State) {
    forall k | k in s.areas && k !in s.ptes :: !Content(r, k).written
  }

  ghost predicate SameView(s: State, r: State) {
    && r.areas == s.areas && r.live == s.live && r.held == s.held
    && SameBytes(s, r, s.areas.Keys) && NewClean(s, r)
  }

  // ----- Reference primitives (palloc.c) -----

  /** palloc_refcount: a page that is not allocated counts 0. */
  function RefCount(s: State, f: Frame): nat {
    if f in s.frames then s.frames[f].refs else 0
  }

  /** pfree; dropping a reference to a page without one is the source's PANIC and changes nothing here. */
  function PFree(s: State, f: Frame): State {
    if RefCount(s, f) == 0 then s
    else if RefCount(s, f) == 1 then s.(frames := s.frames - {f})
    else s.(frames := s.frames[f := s.frames[f].(refs := s.frames[f].refs - 1)])
  }

  /** palloc_get, when it succeeds. */
  function Get(s: State, f: Frame): State {
    if f in s.frames then s.(frames := s.frames[f := s.frames[f].(refs := s.frames[f].refs + 1)]) else s
  }

  function AllocFrame(s: State, f: Frame, data: Page): State {
    s.(frames := s.frames[f := Phys(data, 1)])
  }

  /** The shape depends on frames only through the bytes of the mapped ones. */
  lemma FramesShape(s: State, frames: map<Frame, Phys>)
    requires Shape(s) && s.held <= frames.Keys
    requires forall k | k in s.ptes :: s.ptes[k].frame in frames && frames[s.ptes[k].frame].data == s.frames[s.ptes[k].frame].data
    ensures Shape(s.(frames := frames))
  {}

  lemma FramesSame(s: State, frames: map<Frame, Phys>)
    requires forall k | k in s.ptes ::
      s.ptes[k].frame in s.frames && s.ptes[k].frame in frames && frames[s.ptes[k].frame].data == s.frames[s.ptes[k].frame].data
    ensures forall j :: Content(s.(frames := frames), j) == Content(s, j)
  { hide ZeroPage; }

  /** The last reference is not a page table's and not the cache's when somebody else has one in hand. */
  lemma LastReference(s: State, f: Frame, extra: multiset<Frame>)
    requires Counted(s, extra) && f in extra && s.frames[f].refs == 1
    ensures f !in s.held && forall k | k in s.ptes :: s.ptes[k].frame != f
  {
    assert Mappers(s.ptes, f) == {};
    assert forall k | k in s.ptes && s.ptes[k].frame == f :: k in Mappers(s.ptes, f);
  }

  lemma PFreeCounted(s: State, f: Frame, extra: multiset<Frame>)
    requires Counted(s, extra) && f in extra
    ensures f in s.frames && s.frames[f].refs > 0
    ensures Counted(PFree(s, f), extra - multiset{f})
    ensures s.frames[f].refs == 1 ==> f !in s.held && forall k | k in s.ptes :: s.ptes[k].frame != f
  {
    hide Mappers;
    var r := PFree(s, f);
    assert forall g :: Holders(r, g) == Holders(s, g);
    if s.frames[f].refs == 1 { LastReference(s, f, extra); }
  }

  lemma PFreeKeeps(s: State, f: Frame, extra: multiset<Frame>)
    requires Inv(s, extra) && f in extra
    ensures f in s.frames && s.frames[f].refs > 0
    ensures Inv(PFree(s, f), extra - multiset{f})
  {
    PFreeCounted(s, f, extra);
    FramesShape(s, PFree(s, f).frames);
  }

  lemma GetKeeps(s: State, f: Frame, extra: multiset<Frame>)
    requires Inv(s, extra) && f in s.frames && s.frames[f].refs < REF_MAX
    ensures Inv(Get(s, f), extra + multiset{f})
  {
    FramesShape(s, Get(s, f).frames);
  }

  lemma AllocKeeps(s: State, f: Frame, data: Page, extra: multiset<Frame>)
    requires Inv(s, extra) && f !in s.frames
    ensures Inv(AllocFrame(s, f, data), extra + multiset{f})
  {
    assert Mappers(s.ptes, f) == {};
    assert f !in extra;
    FramesShape(s, AllocFrame(s, f, data).frames);
  }

  // ----- Entry primitives -----

  lemma MappersRemove(ptes: map<Key, Pte>, k: Key, f: Frame)
    requires k in ptes
    ensures |Mappers(ptes - {k}, f)| == |Mappers(ptes, f)| - if ptes[k].frame == f then 1 else 0
  {
    assert Mappers(ptes - {k}, f) == Mappers(ptes, f) - {k};
  }

  lemma MappersInstall(ptes: map<Key, Pte>, k: Key, p: Pte, f: Frame)
    requires k !in ptes
    ensures |Mappers(ptes[k := p], f)| == |Mappers(ptes, f)| + if p.frame == f then 1 else 0
  {
    if p.frame == f {
      assert Mappers(ptes[k := p], f) == Mappers(ptes, f) + {k};
    } else {
      assert Mappers(ptes[k := p], f) == Mappers(ptes, f);
    }
  }

  lemma RemoveCounted(s: State, k: Key, extra: multiset<Frame>)
    requires Counted(s, extra) && k in s.ptes && s.ptes[k].frame in s.frames
    ensures Counted(s.(ptes := s.ptes - {k}), extra + multiset{s.ptes[k].frame})
  {
    var r := s.(ptes := s.ptes - {k});
    forall f ensures Holders(r, f) == Holders(s, f) - if s.ptes[k].frame == f then 1 else 0 {
      MappersRemove(s.ptes, k, f);
    }
  }

  lemma RemoveKeeps(s: State, k: Key, extra: multiset<Frame>)
    requires Inv(s, extra) && k in s.ptes
    ensures Inv(s.(ptes := s.ptes - {k}), extra + multiset{s.ptes[k].frame})
  {
    RemoveCounted(s, k, extra);
  }

  lemma InstallCounted(s: State, k: Key, p: Pte, extra: multiset<Frame>)
    requires Counted(s, extra) && k !in s.ptes && p.frame in extra
    ensures Counted(s.(ptes := s.ptes[k := p]), extra - multiset{p.frame})
  {
    var r := s.(ptes := s.ptes[k := p]);
    forall f ensures Holders(r, f) == Holders(s, f) + if p.frame == f then 1 else 0 {
      MappersInstall(s.ptes, k, p, f);
    }
  }

  lemma InstallShape(s: State, k: Key, p: Pte)
    requires Shape(s) && k !in s.ptes && k in s.areas && p.frame in s.frames
    requires FlagsAgree(p, s.areas[k])
    requires forall j | j in s.ptes && s.ptes[j].frame == p.frame ::
               && (s.ptes[j].w ==> s.areas[j].shared)
               && (p.w ==> s.areas[k].shared)
               && s.areas[j].PrivateAnon() == s.areas[k].PrivateAnon()
    requires !s.areas[k].shared && (p.w || s.areas[k].PrivateAnon()) ==> p.frame !in s.held
    requires s.areas[k].PrivateAnon() && !p.d ==> s.frames[p.frame].data == ZeroPage()
    requires s.areas[k].PrivateFile() && p.d ==>
               p.frame !in s.held && forall j | j in s.ptes && s.ptes[j].frame == p.frame :: !s.areas[j].shared
    requires s.areas[k].shared ==> forall j | j in s.ptes && s.ptes[j].frame == p.frame :: !(s.areas[j].PrivateFile() && s.ptes[j].d)
    ensures Shape(s.(ptes := s.ptes[k := p]))
  {
    hide ZeroPage, AnonApart, WrittenApart;
    InstallApart(s, k, p);
  }

  lemma InstallApart(s: State, k: Key, p: Pte)
    requires Owned(s) && AnonApart(s) && WrittenApart(s) && k !in s.ptes && k in s.areas
    requires forall j | j in s.ptes && s.ptes[j].frame == p.frame :: s.areas[j].PrivateAnon() == s.areas[k].PrivateAnon()
    requires s.areas[k].PrivateAnon() || (s.areas[k].PrivateFile() && p.d) ==> p.frame !in s.held
    requires s.areas[k].PrivateFile() && p.d ==> forall j | j in s.ptes && s.ptes[j].frame == p.frame :: !s.areas[j].shared
    requires s.areas[k].shared ==> forall j | j in s.ptes && s.ptes[j].frame == p.frame :: !(s.areas[j].PrivateFile() && s.ptes[j].d)
    ensures AnonApart(s.(ptes := s.ptes[k := p])) && WrittenApart(s.(ptes := s.ptes[k := p]))
  {}

  lemma ReflagCounted(s: State, k: Key, p: Pte, a: Area, extra: multiset<Frame>)
    requires Counted(s, extra) && k in s.ptes && p.frame == s.ptes[k].frame
    ensures Counted(s.(ptes := s.ptes[k := p], areas := s.areas[k := a]), extra)
  {
    var r := s.(ptes := s.ptes[k := p], areas := s.areas[k := a]);
    forall f ensures Mappers(r.ptes, f) == Mappers(s.ptes, f) {}
  }

  lemma ReflagShape(s: State, k: Key, p: Pte, a: Area)
    requires Shape(s) && k in s.ptes && p.frame == s.ptes[k].frame
    requires a.PrivateAnon() == s.areas[k].PrivateAnon() && a.shared == s.areas[k].shared && a.backed == s.areas[k].backed
    requires a.file == s.areas[k].file && p.d == s.ptes[k].d
    requires FlagsAgree(p, a)
    requires p.w && !a.shared ==>
               p.frame !in s.held && forall j | j in s.ptes && s.ptes[j].frame == p.frame :: j == k
    requires a.PrivateAnon() && !p.d ==> s.frames[p.frame].data == ZeroPage()
    ensures Shape(s.(ptes := s.ptes[k := p], areas := s.areas[k := a]))
  {
    hide ZeroPage, AnonApart, WrittenApart;
    ReflagApart(s, k, p, a);
  }

  lemma ReflagApart(s: State, k: Key, p: Pte, a: Area)
    requires AnonApart(s) && WrittenApart(s) && k in s.ptes && k in s.areas && p.frame == s.ptes[k].frame && p.d == s.ptes[k].d
    requires a.file == s.areas[k].file && a.shared == s.areas[k].shared && a.backed == s.areas[k].backed
    ensures AnonApart(s.(ptes := s.ptes[k := p], areas := s.areas[k := a]))
    ensures WrittenApart(s.(ptes := s.ptes[k := p], areas := s.areas[k := a]))
  {}

  lemma ReflagKeeps(s: State, k: Key, p: Pte, extra: multiset<Frame>)
    requires Inv(s, extra) && k in s.ptes && p.frame == s.ptes[k].frame && FlagsAgree(p, s.areas[k])
    requires p.w && !s.areas[k].shared ==>
               p.frame !in s.held && forall j | j in s.ptes && s.ptes[j].frame == p.frame :: j == k
    requires p.d == s.ptes[k].d
    ensures Inv(s.(ptes := s.ptes[k := p]), extra)
  {
    SameArea(s.areas, k);
    ReflagCounted(s, k, p, s.areas[k], extra);
    ReflagShape(s, k, p, s.areas[k]);
  }

  lemma SameArea(areas: map<Key, Area>, k: Key)
    requires k in areas
    ensures areas[k := areas[k]] == areas
  {}

  lemma EntryBasics(s: State, k: Key, extra: multiset<Frame>)
    requires Inv(s, extra) && k in s.ptes
    ensures k in s.areas && FlagsAgree(s.ptes[k], s.areas[k])
    ensures s.ptes[k].frame in s.frames && 0 < s.frames[s.ptes[k].frame].refs <= REF_MAX
  {}

  /** Changing the flags of an entry changes no byte. */
  lemma ReflagSame(s: State, k: Key, p: Pte, areas: map<Key, Area>)
    requires k in s.ptes && p.frame == s.ptes[k].frame && p.d == s.ptes[k].d
    ensures forall j :: Content(s.(ptes := s.ptes[k := p], areas := areas), j) == Content(s, j)
  {}

  // ----- Faults (vm_resolve_cow and mmap_handle_fault) -----

  datatype Access = Read | Write | Exec | Populate
  datatype FaultResult = Ok | MapErr | AccErr | NoMem | BusErr | Retry
  datatype CowResult = NotCow | Resolved | NoPage

  /** The page a fault gets: none, a new frame, or a frame of the cache or of a backing. */
  datatype Supply = NoSupply(why: FaultResult) | Fresh(frame: Frame, data: Page) | Cached(frame: Frame)

  ghost predicate Supplied(s: State, a: Area, supply: Supply) {
    match supply
    case NoSupply(why) => why == NoMem || (a.file && (why == Retry || (why == BusErr && !a.elf)))
    case Fresh(f, data) => f !in s.frames && !a.backed && !(a.file && a.shared) && (!a.file ==> data == ZeroPage())
    case Cached(f) => f in s.held && f in s.frames && s.frames[f].refs < REF_MAX && (a.file || a.backed)
  }

  predicate AccessAllowed(a: Area, access: Access) {
    match access
    case Populate => !a.prot.NoAccess()
    case Exec => a.prot.exec
    case Write => a.prot.write
    case Read => a.prot.read
  }

  /** What the hardware checks on an access in user mode. */
  predicate HardwareAllows(p: Pte, access: Access) {
    && p.u
    && match access
       case Populate => p.r || p.w || p.x
       case Exec => p.x
       case Write => p.w
       case Read => p.r
  }

  function Permissions(frame: Frame, prot: Prot): Pte {
    Pte(frame, prot.NoAccess() || prot.read || prot.write, prot.write, prot.exec, !prot.NoAccess(), false, false)
  }

  /** The only holder takes its page back. */
  function CowTake(s: State, k: Key): State
    requires k in s.ptes
  {
    s.(ptes := s.ptes[k := s.ptes[k].(w := true, cow := false)])
  }

  /** The entry moves to the new frame `f`, which gets the old frame's bytes. */
  function CowCopy(s: State, k: Key, f: Frame): State
    requires k in s.ptes && s.ptes[k].frame in s.frames
  {
    AllocFrame(s, f, s.frames[s.ptes[k].frame].data).(
      ptes := s.ptes[k := s.ptes[k].(frame := f, w := true, cow := false)])
  }

  function ResolveCow(s: State, k: Key, copy: Option<Frame>): (State, CowResult)
    requires k in s.ptes
  {
    var p := s.ptes[k];
    if !p.cow then (s, if p.w then Resolved else NotCow)
    else if RefCount(s, p.frame) == 0 then (s, NoPage)
    else if RefCount(s, p.frame) == 1 then (CowTake(s, k), Resolved)
    else if copy.None? then (s, NoPage)
    else (PFree(CowCopy(s, k, copy.value), p.frame), Resolved)
  }

  function GrantWrite(s: State, k: Key): State
    requires k in s.ptes
  {
    s.(ptes := s.ptes[k := s.ptes[k].(w := true)])
  }

  /** `marked` is the answer of the file layer when the fault has to mark a page dirty or executable. */
  function FaultMapped(s: State, k: Key, access: Access, copy: Option<Frame>, marked: bool): (State, FaultResult)
    requires k in s.ptes && k in s.areas
  {
    var p, a := s.ptes[k], s.areas[k];
    if access.Write? && p.u && !p.w && a.file && a.shared && a.prot.write then
      if marked then (GrantWrite(s, k), Ok) else (s, NoMem)
    else
      var (r, cow) := if access.Write? then ResolveCow(s, k, copy) else (s, NotCow);
      match cow
      case Resolved => (r, Ok)
      case NoPage => (r, NoMem)
      case NotCow => (r, if HardwareAllows(p, access) then Ok else AccErr)
  }

  /** The entry a first fault installs. */
  function FirstPte(a: Area, access: Access, supply: Supply): Pte
    requires !supply.NoSupply?
  {
    var p := Permissions(supply.frame, a.prot);
    if !supply.Cached? || !a.file || !p.w then p
    else if !a.shared then p.(w := false, cow := true)
    else if !access.Write? then p.(w := false)
    else p
  }

  predicate NeedsMark(a: Area, access: Access, supply: Supply) {
    supply.Cached? && a.file && (a.prot.exec || (a.shared && a.prot.write && access.Write?))
  }

  function TakeSupply(s: State, supply: Supply): State {
    match supply
    case NoSupply(_) => s
    case Fresh(f, data) => AllocFrame(s, f, data)
    case Cached(f) => Get(s, f)
  }

  /** A first fault's new entry, with its reference. */
  function FirstMap(s: State, k: Key, p: Pte, supply: Supply): State {
    TakeSupply(s, supply).(ptes := s.ptes[k := p])
  }

  function FaultUnmapped(s: State, k: Key, access: Access, supply: Supply, marked: bool, tableOk: bool): (State, FaultResult)
    requires k !in s.ptes && k in s.areas
  {
    if supply.NoSupply? then (s, supply.why)
    else if (NeedsMark(s.areas[k], access, supply) && !marked) || !tableOk then (s, NoMem)
    else (FirstMap(s, k, FirstPte(s.areas[k], access, supply), supply), Ok)
  }

  datatype FaultEnv = FaultEnv(supply: Supply, copy: Option<Frame>, marked: bool, tableOk: bool)

  ghost predicate EnvOk(s: State, k: Key, env: FaultEnv) {
    && (env.copy.Some? ==> env.copy.value !in s.frames)
    && (k in s.areas ==> Supplied(s, s.areas[k], env.supply))
  }

  function Fault(s: State, k: Key, access: Access, env: FaultEnv): (State, FaultResult) {
    if k !in s.areas then (s, MapErr)
    else if !AccessAllowed(s.areas[k], access) then (s, AccErr)
    else if k in s.ptes then FaultMapped(s, k, access, env.copy, env.marked)
    else FaultUnmapped(s, k, access, env.supply, env.marked, env.tableOk)
  }

  /** An entry with one reference to its frame is the frame's only holder. */
  lemma SoleHolder(s: State, k: Key)
    requires Good(s) && k in s.ptes && s.frames[s.ptes[k].frame].refs == 1
    ensures s.ptes[k].frame !in s.held
    ensures forall j | j in s.ptes && s.ptes[j].frame == s.ptes[k].frame :: j == k
  {
    var m := Mappers(s.ptes, s.ptes[k].frame);
    assert k in m;
    assert |m - {k}| == |m| - 1 == 0;
    forall j | j in s.ptes && s.ptes[j].frame == s.ptes[k].frame ensures j == k {
      assert j in m && j !in m - {k};
    }
  }

  lemma PutBack(ptes: map<Key, Pte>, k: Key, p: Pte)
    ensures (ptes - {k})[k := p] == ptes[k := p]
  {}

  lemma CopyCounted(s: State, k: Key, f: Frame)
    requires Counted(s, multiset{}) && Owned(s) && k in s.ptes && f !in s.frames
    ensures Counted(CowCopy(s, k, f), multiset{s.ptes[k].frame})
  {
    var was, r := s.ptes[k].frame, CowCopy(s, k, f);
    PutBack(s.ptes, k, r.ptes[k]);
    forall g ensures |Mappers(r.ptes, g)| == |Mappers(s.ptes, g)| + (if g == f then 1 else 0) - (if g == was then 1 else 0) {
      MappersRemove(s.ptes, k, g);
      MappersInstall(s.ptes - {k}, k, r.ptes[k], g);
    }
    assert Mappers(s.ptes, f) == {};
  }

  lemma CopyShape(s: State, k: Key, f: Frame)
    requires Shape(s) && k in s.ptes && f !in s.frames && s.ptes[k].cow && s.areas[k].prot.write
    ensures Shape(CowCopy(s, k, f))
  {
    var q := AllocFrame(s, f, s.frames[s.ptes[k].frame].data);
    var n := s.ptes[k].(frame := f, w := true, cow := false);
    FramesShape(s, q.frames);
    InstallShape(q.(ptes := q.ptes - {k}), k, n);
    PutBack(s.ptes, k, n);
  }

  lemma CowCopySame(s: State, k: Key, f: Frame)
    requires Owned(s) && k in s.ptes && f !in s.frames
    ensures forall j | j in s.ptes :: Content(CowCopy(s, k, f), j) == Content(s, j)
    ensures forall j | j !in s.ptes :: j !in CowCopy(s, k, f).ptes && Content(CowCopy(s, k, f), j) == Untouched()
  {}

  lemma PFreeSame(s: State, f: Frame, extra: multiset<Frame>)
    requires Inv(s, extra) && f in extra
    ensures SameView(s, PFree(s, f))
  {
    hide Counted, SameView, Exclusive, AnonApart, WrittenApart, CleanIsZero, Flagged, Content;
    PFreeCounted(s, f, extra);
    FramesSame(s, PFree(s, f).frames);
    SameContents(s, PFree(s, f));
  }

  lemma SameViewRefl(s: State)
    ensures SameView(s, s)
  {}

  lemma SameViewTrans(s: State, v: State, r: State)
    requires SameView(s, v) && SameView(v, r) && s.ptes.Keys <= v.ptes.Keys
    ensures SameView(s, r)
  {}

  lemma SameContents(s: State, r: State)
    requires r.areas == s.areas && r.live == s.live && r.held == s.held && forall j :: Content(r, j) == Content(s, j)
    ensures SameView(s, r)
  {}

  lemma CowTakeKeeps(s: State, k: Key)
    requires Good(s) && k in s.ptes && s.ptes[k].cow && s.areas[k].prot.write && s.frames[s.ptes[k].frame].refs == 1
    ensures Good(CowTake(s, k)) && SameView(s, CowTake(s, k))
  {
    hide Shape, Counted, SameView, Content;
    EntryBasics(s, k, multiset{});
    SoleHolder(s, k);
    ReflagKeeps(s, k, s.ptes[k].(w := true, cow := false), multiset{});
    ReflagSame(s, k, s.ptes[k].(w := true, cow := false), s.areas);
    SameContents(s, CowTake(s, k));
  }

  lemma CowCopyKeeps(s: State, k: Key, f: Frame)
    requires Good(s) && k in s.ptes && f !in s.frames && s.ptes[k].cow && s.areas[k].prot.write
    ensures Inv(CowCopy(s, k, f), multiset{s.ptes[k].frame}) && SameView(s, CowCopy(s, k, f))
  {
    CopyCounted(s, k, f);
    CopyShape(s, k, f);
    CowCopySame(s, k, f);
  }

  lemma CowEntries(s: State, k: Key, copy: Option<Frame>)
    requires k in s.ptes && k in s.areas && s.ptes[k].frame in s.frames
    ensures CowTake(s, k).ptes == s.ptes[k := s.ptes[k].(w := true, cow := false)]
    ensures copy.Some? ==> var v := CowCopy(s, k, copy.value);
      v.ptes == s.ptes[k := s.ptes[k].(frame := copy.value, w := true, cow := false)] && PFree(v, s.ptes[k].frame).ptes == v.ptes
  {
  }

  lemma ResolveCowKeeps(s: State, k: Key, copy: Option<Frame>)
    requires Good(s) && k in s.ptes && (copy.Some? ==> copy.value !in s.frames) && s.areas[k].prot.write
    ensures Good(ResolveCow(s, k, copy).0)
    ensures SameView(s, ResolveCow(s, k, copy).0)
    ensures k in ResolveCow(s, k, copy).0.ptes
    ensures ResolveCow(s, k, copy).1.Resolved? ==> ResolveCow(s, k, copy).0.ptes[k] == s.ptes[k].(frame := ResolveCow(s, k, copy).0.ptes[k].frame, w := true, cow := false)
    ensures !ResolveCow(s, k, copy).1.Resolved? ==> ResolveCow(s, k, copy).0 == s
    ensures s.ptes[k].w || s.ptes[k].cow ==> !ResolveCow(s, k, copy).1.NotCow?
  {
    hide Shape, Counted, SameView, PFree, CowCopy, CowTake;
    EntryBasics(s, k, multiset{});
    CowEntries(s, k, copy);
    var p := s.ptes[k];
    if p.cow && s.frames[p.frame].refs == 1 {
      CowTakeKeeps(s, k);
    } else if p.cow && copy.Some? {
      CowCopyKeeps(s, k, copy.value);
      var v := CowCopy(s, k, copy.value);
      PFreeKeeps(v, p.frame, multiset{p.frame});
      assert multiset{p.frame} - multiset{p.frame} == multiset{};
      PFreeSame(v, p.frame, multiset{p.frame});
      SameViewTrans(s, v, PFree(v, p.frame));
    } else {
      SameViewRefl(s);
    }
  }

  /** No entry but that of `k` differs. */
  ghost predicate OnlyEntry(s: State, r: State, k: Key) {
    && r.areas == s.areas && r.live == s.live && r.held == s.held
    && forall j | j != k :: (j in r.ptes <==> j in s.ptes) && (j in s.ptes ==> r.ptes[j] == s.ptes[j])
  }

  /** One frame is new, and the old frame of `k` has one reference fewer; every other frame is as before. */
  ghost predicate Copied(s: State, r: State, k: Key, f: Frame)
    requires k in s.ptes && s.ptes[k].frame in s.frames
  {
    var was := s.ptes[k].frame;
    && f in r.frames && r.frames[f] == Phys(s.frames[was].data, 1)
    && was in r.frames && r.frames[was].data == s.frames[was].data && r.frames[was].refs == s.frames[was].refs - 1
    && r.frames.Keys == s.frames.Keys + {f} && forall g | g in s.frames && g != was :: r.frames[g] == s.frames[g]
  }

  /** What vm_resolve_cow answers and does.  A copy-on-write entry becomes writable exactly when its frame has no
      other holder, which then stays, or a frame is free for the copy, to which the entry then moves. */
  lemma ResolveCowExact(s: State, k: Key, copy: Option<Frame>)
    requires Good(s) && k in s.ptes && (copy.Some? ==> copy.value !in s.frames)
    ensures var (r, result) := ResolveCow(s, k, copy);
      var p := s.ptes[k];
      && (result.NotCow? <==> !p.cow && !p.w)
      && (result.NoPage? <==> p.cow && s.frames[p.frame].refs > 1 && copy.None?)
      && OnlyEntry(s, r, k) && k in r.ptes
      && (!p.cow || result.NoPage? ==> r == s)
      && (p.cow && result.Resolved? ==> r.ptes[k] == p.(frame := r.ptes[k].frame, w := true, cow := false))
      && (p.cow && s.frames[p.frame].refs == 1 ==> r.ptes[k].frame == p.frame && r.frames == s.frames)
      && (p.cow && s.frames[p.frame].refs > 1 && copy.Some? ==> r.ptes[k].frame == copy.value && Copied(s, r, k, copy.value))
  {
    hide Inv, CowCopy, CowTake, PFree, Copied, OnlyEntry;
    EntryBasics(s, k, multiset{});
    OnlyEntrySame(s, k);
    OnlyEntryTake(s, k);
    if copy.Some? && s.frames[s.ptes[k].frame].refs > 1 { CopyDone(s, k, copy.value); }
  }

  lemma OnlyEntrySame(s: State, k: Key)
    ensures OnlyEntry(s, s, k)
  {}

  lemma OnlyEntryTake(s: State, k: Key)
    requires k in s.ptes
    ensures OnlyEntry(s, CowTake(s, k), k) && CowTake(s, k).frames == s.frames && k in CowTake(s, k).ptes
    ensures CowTake(s, k).ptes[k] == s.ptes[k].(w := true, cow := false)
  {}

  lemma CopyDone(s: State, k: Key, f: Frame)
    requires k in s.ptes && s.ptes[k].frame in s.frames && s.frames[s.ptes[k].frame].refs > 1 && f !in s.frames
    ensures var r := PFree(CowCopy(s, k, f), s.ptes[k].frame);
      && OnlyEntry(s, r, k) && Copied(s, r, k, f) && k in r.ptes && r.ptes[k] == s.ptes[k].(frame := f, w := true, cow := false)
  {}

  lemma FirstShape(s: State, k: Key, access: Access, supply: Supply)
    requires Shape(s) && k !in s.ptes && k in s.areas && Supplied(s, s.areas[k], supply) && !supply.NoSupply?
    ensures Shape(FirstMap(s, k, FirstPte(s.areas[k], access, supply), supply))
  {
    FramesShape(s, TakeSupply(s, supply).frames);
    InstallShape(TakeSupply(s, supply), k, FirstPte(s.areas[k], access, supply));
  }

  lemma FirstCounted(s: State, k: Key, p: Pte, supply: Supply)
    requires Good(s) && k !in s.ptes && k in s.areas && Supplied(s, s.areas[k], supply) && !supply.NoSupply?
    requires p.frame == supply.frame
    ensures Counted(FirstMap(s, k, p, supply), multiset{})
  {
    hide Shape;
    if supply.Fresh? { AllocKeeps(s, p.frame, supply.data, multiset{}); } else { GetKeeps(s, p.frame, multiset{}); }
    InstallCounted(TakeSupply(s, supply), k, p, multiset{p.frame});
    assert multiset{p.frame} - multiset{p.frame} == multiset{};
  }

  lemma FirstSame(s: State, k: Key, p: Pte, supply: Supply)
    requires Owned(s) && k !in s.ptes && k in s.areas && Supplied(s, s.areas[k], supply) && !supply.NoSupply?
    requires p.frame == supply.frame && !p.d
    ensures SameView(s, FirstMap(s, k, p, supply))
  {
    hide ZeroPage;
    assert forall j | j in s.ptes :: s.ptes[j].frame in s.frames;
  }

  lemma FirstFaultKeeps(s: State, k: Key, access: Access, supply: Supply)
    requires Good(s) && k !in s.ptes && k in s.areas && Supplied(s, s.areas[k], supply) && !supply.NoSupply?
    ensures var r := FirstMap(s, k, FirstPte(s.areas[k], access, supply), supply); Good(r) && SameView(s, r)
  {
    var p := FirstPte(s.areas[k], access, supply);
    FirstShape(s, k, access, supply);
    FirstCounted(s, k, p, supply);
    FirstSame(s, k, p, supply);
  }

  lemma FirstAllows(s: State, k: Key, access: Access, supply: Supply)
    requires k !in s.ptes && k in s.areas && AccessAllowed(s.areas[k], access) && Supplied(s, s.areas[k], supply) && !supply.NoSupply?
    ensures var p := FirstPte(s.areas[k], access, supply);
      && FirstMap(s, k, p, supply).ptes == s.ptes[k := p]
      && (HardwareAllows(p, access) || (access.Write? && p.cow))
  {}

  lemma GrantWriteKeeps(s: State, k: Key)
    requires Good(s) && k in s.ptes && s.areas[k].shared && s.areas[k].prot.write
    ensures Good(GrantWrite(s, k)) && SameView(s, GrantWrite(s, k))
  {
    hide Shape, Counted, SameView, Content;
    EntryBasics(s, k, multiset{});
    ReflagKeeps(s, k, s.ptes[k].(w := true), multiset{});
    ReflagSame(s, k, s.ptes[k].(w := true), s.areas);
    SameContents(s, GrantWrite(s, k));
  }

  lemma FaultMappedKeeps(s: State, k: Key, access: Access, copy: Option<Frame>, marked: bool)
    requires Good(s) && k in s.ptes && (copy.Some? ==> copy.value !in s.frames) && AccessAllowed(s.areas[k], access)
    ensures
      var (r, result) := FaultMapped(s, k, access, copy, marked);
      && Good(r) && SameView(s, r)
      && !result.MapErr? && !result.AccErr? && !result.BusErr? && !result.Retry?
      && (result.Ok? ==> k in r.ptes && HardwareAllows(r.ptes[k], access))
      && (!result.Ok? ==> r == s)
  {
    hide Inv, SameView, ResolveCow;
    EntryBasics(s, k, multiset{});
    SameViewRefl(s);
    var p, a := s.ptes[k], s.areas[k];
    if access.Write? && p.u && !p.w && a.file && a.shared && a.prot.write {
      GrantWriteKeeps(s, k);
    } else if access.Write? {
      ResolveCowKeeps(s, k, copy);
    }
  }

  /** When a fault ends for want of memory: on a write, a shared file page cannot be marked dirty or a page with other
      holders cannot be copied; on the first touch, there is no page, it cannot be marked, or there is no table. */
  predicate OutOfMemory(s: State, k: Key, access: Access, env: FaultEnv)
    requires k in s.areas && (k in s.ptes ==> s.ptes[k].frame in s.frames)
  {
    var a := s.areas[k];
    if k in s.ptes then
      var p := s.ptes[k];
      access.Write? && ((a.file && a.shared && !p.w && !env.marked) || (p.cow && s.frames[p.frame].refs > 1 && env.copy.None?))
    else if env.supply.NoSupply? then env.supply.why.NoMem?
    else
      !env.tableOk || (env.supply.Cached? && a.file && (a.prot.exec || (a.shared && a.prot.write && access.Write?)) && !env.marked)
  }

  /** The entry and the frames after a fault on a page that has an entry: only a write changes anything. */
  ghost predicate MappedEffect(s: State, r: State, k: Key, access: Access, env: FaultEnv)
    requires k in s.ptes && s.ptes[k].frame in s.frames
  {
    var p := s.ptes[k];
    && k in r.ptes
    && if !access.Write? || p.w then r == s
       else
         && r.ptes[k] == p.(frame := r.ptes[k].frame, w := true, cow := false)
         && if p.cow && s.frames[p.frame].refs > 1 then env.copy.Some? && r.ptes[k].frame == env.copy.value && Copied(s, r, k, env.copy.value)
            else r.ptes[k].frame == p.frame && r.frames == s.frames
  }

  /** The entry and the frames after the first touch of a page. */
  ghost predicate FirstEffect(s: State, r: State, k: Key, access: Access, supply: Supply)
    requires k in s.areas
  {
    var a := s.areas[k];
    && k in r.ptes && !supply.NoSupply?
    && var p := r.ptes[k];
      && p.frame == supply.frame && !p.d
      && (p.cow <==> supply.Cached? && a.file && !a.shared && a.prot.write)
      && (p.w <==> a.prot.write && !p.cow && (supply.Cached? && a.file ==> access.Write?))
      && p.frame in r.frames
      && (supply.Fresh? ==> r.frames == s.frames[p.frame := Phys(supply.data, 1)])
      && (supply.Cached? ==> p.frame in s.frames && r.frames == s.frames[p.frame := Phys(s.frames[p.frame].data, s.frames[p.frame].refs + 1)])
  }

  lemma FaultMappedExact(s: State, k: Key, access: Access, env: FaultEnv)
    requires Good(s) && EnvOk(s, k, env) && k in s.ptes && k in s.areas && AccessAllowed(s.areas[k], access)
    ensures s.ptes[k].frame in s.frames
    ensures var (r, result) := FaultMapped(s, k, access, env.copy, env.marked);
      && (result.NoMem? <==> OutOfMemory(s, k, access, env)) && OnlyEntry(s, r, k)
      && (result.Ok? ==> MappedEffect(s, r, k, access, env))
  {
    hide Inv, ResolveCow, Copied;
    EntryBasics(s, k, multiset{});
    ResolveCowExact(s, k, env.copy);
    var p, a := s.ptes[k], s.areas[k];
    if access.Write? && !(!p.w && a.file && a.shared) {
      var cow := ResolveCow(s, k, env.copy).1;
      assert cow.NoPage? <==> p.cow && s.frames[p.frame].refs > 1 && env.copy.None?;
    }
  }

  lemma FaultUnmappedExact(s: State, k: Key, access: Access, env: FaultEnv)
    requires EnvOk(s, k, env) && k !in s.ptes && k in s.areas
    ensures var (r, result) := FaultUnmapped(s, k, access, env.supply, env.marked, env.tableOk);
      && (result.NoMem? <==> OutOfMemory(s, k, access, env)) && OnlyEntry(s, r, k)
      && (result.BusErr? <==> env.supply == NoSupply(BusErr)) && (result.Retry? <==> env.supply == NoSupply(Retry))
      && (result.Ok? ==> FirstEffect(s, r, k, access, env.supply))
  {}

  /** A fault keeps the invariant and the bytes of every page, private or shared.  It refuses an access that
      the area allows only for want of memory or, on the first touch of a file page, of file contents.
      When it answers Ok the access then succeeds, except that a first write fault on a cached page of a
      private file mapping may only install the copy-on-write entry; that entry's next fault resolves it. */
  lemma FaultCorrect(s: State, k: Key, access: Access, env: FaultEnv)
    requires Good(s) && EnvOk(s, k, env)
    ensures
      var (r, result) := Fault(s, k, access, env);
      && Good(r) && SameView(s, r)
      && (result.MapErr? <==> k !in s.areas)
      && (result.AccErr? <==> k in s.areas && !AccessAllowed(s.areas[k], access))
      && (!result.Ok? ==> r == s)
      && (result.NoMem? <==> k in s.areas && AccessAllowed(s.areas[k], access) && (k in s.ptes ==> s.ptes[k].frame in s.frames)
                             && OutOfMemory(s, k, access, env))
      && (result.BusErr? <==> k in s.areas && AccessAllowed(s.areas[k], access) && k !in s.ptes && env.supply == NoSupply(BusErr))
      && (result.Retry? <==> k in s.areas && AccessAllowed(s.areas[k], access) && k !in s.ptes && env.supply == NoSupply(Retry))
      && (result.BusErr? || result.Retry? ==> s.areas[k].file && (result.BusErr? ==> !s.areas[k].elf))
      && OnlyEntry(s, r, k)
      && (result.Ok? && k in s.ptes ==> s.ptes[k].frame in s.frames && MappedEffect(s, r, k, access, env))
      && (result.Ok? && k !in s.ptes ==> FirstEffect(s, r, k, access, env.supply))
      && (result.Ok? ==> k in r.ptes && (HardwareAllows(r.ptes[k], access) || (access.Write? && r.ptes[k].cow && k !in s.ptes)))
  {
    hide Inv, SameView, FaultMapped, FirstMap, OutOfMemory, MappedEffect, FirstEffect;
    SameViewRefl(s);
    if k in s.areas && AccessAllowed(s.areas[k], access) {
      if k in s.ptes {
        FaultMappedKeeps(s, k, access, env.copy, env.marked);
        FaultMappedExact(s, k, access, env);
      } else if Fault(s, k, access, env).1.Ok? {
        FirstFaultKeeps(s, k, access, env.supply);
        FirstAllows(s, k, access, env.supply);
      }
      if k !in s.ptes { FaultUnmappedExact(s, k, access, env); }
    }
  }

  // ----- Loads and stores -----

  function Store(s: State, k: Key, offset: nat, value: Byte): State
    requires k in s.ptes && s.ptes[k].frame in s.frames && offset < PGSIZE
  {
    var f := s.ptes[k].frame;
    s.(frames := s.frames[f := s.frames[f].(data := Poke(s.frames[f].data, offset, value))],
       ptes := s.ptes[k := s.ptes[k].(d := true)])
  }

  function Poke(p: Page, offset: nat, value: Byte): Page
    requires offset < PGSIZE
  {
    Bytes(p.bytes[offset := value])
  }

  lemma StoreShape(s: State, k: Key, offset: nat, value: Byte)
    requires Shape(s) && k in s.ptes && s.ptes[k].w && offset < PGSIZE
    ensures Shape(Store(s, k, offset, value))
  {
    hide ZeroPage, Poke, Exclusive, AnonApart, WrittenApart, CleanIsZero;
    StoreExclusive(s, k, offset, value);
    StoreApart(s, k, offset, value);
    StoreClean(s, k, offset, value);
  }

  lemma StoreExclusive(s: State, k: Key, offset: nat, value: Byte)
    requires Owned(s) && Exclusive(s) && k in s.ptes && offset < PGSIZE
    ensures Exclusive(Store(s, k, offset, value))
  { hide ZeroPage, Poke; }

  lemma StoreApart(s: State, k: Key, offset: nat, value: Byte)
    requires Owned(s) && Exclusive(s) && AnonApart(s) && WrittenApart(s) && k in s.ptes && s.ptes[k].w && offset < PGSIZE
    ensures AnonApart(Store(s, k, offset, value)) && WrittenApart(Store(s, k, offset, value))
  { hide ZeroPage, Poke; }

  lemma StoreClean(s: State, k: Key, offset: nat, value: Byte)
    requires Owned(s) && Exclusive(s) && AnonApart(s) && CleanIsZero(s) && k in s.ptes && s.ptes[k].w && offset < PGSIZE
    ensures CleanIsZero(Store(s, k, offset, value))
  { hide ZeroPage, Poke; }

  lemma StoreCounted(s: State, k: Key, offset: nat, value: Byte)
    requires Counted(s, multiset{}) && Owned(s) && k in s.ptes && offset < PGSIZE
    ensures Counted(Store(s, k, offset, value), multiset{})
  {
    hide Poke;
    var r := Store(s, k, offset, value);
    assert forall f :: Mappers(r.ptes, f) == Mappers(s.ptes, f);
  }

  /** A permitted store to a private page changes that page only: no other process's
      page, private or shared, and no page that the cache holds. */
  lemma StorePrivate(s: State, k: Key, offset: nat, value: Byte)
    requires Shape(s) && k in s.ptes && s.ptes[k].w && offset < PGSIZE && !s.areas[k].shared
    ensures var r := Store(s, k, offset, value);
      && Content(r, k) == Seen(Poke(Content(s, k).page, offset, value), true)
      && (forall j | j != k :: Content(r, j) == Content(s, j))
      && (forall f | f in s.held :: r.frames[f] == s.frames[f])
  { hide ZeroPage; hide Poke; hide CleanIsZero; hide Flagged; hide AnonApart; hide WrittenApart; }

  /** A store changes one byte for every process that maps the frame, and for nobody else. */
  lemma StoreSeen(s: State, k: Key, offset: nat, value: Byte)
    requires Owned(s) && k in s.ptes && offset < PGSIZE
    ensures var r := Store(s, k, offset, value);
      forall j | j in s.ptes ::
        && (Content(r, j).written <==> j == k || s.ptes[j].d)
        && Content(r, j).page == if s.ptes[j].frame == s.ptes[k].frame then Poke(Content(s, k).page, offset, value) else Content(s, j).page
  { hide ZeroPage; hide Poke; }

  /** A store to a shared page reaches no page that is a process's own. */
  lemma StoreShared(s: State, k: Key, offset: nat, value: Byte)
    requires Shape(s) && k in s.ptes && offset < PGSIZE && s.areas[k].shared
    ensures forall j | j in s.areas && (Mine(s.areas[j], Content(s, j)) || Mine(s.areas[j], Content(Store(s, k, offset, value), j))) ::
      Content(Store(s, k, offset, value), j) == Content(s, j)
  { hide ZeroPage; hide Poke; hide CleanIsZero; hide Flagged; hide Exclusive; }

  // ----- One page of mprotect, munmap, reclaim and fork -----

  function ProtectedPte(p: Pte, a: Area, prot: Prot, refs: nat): Pte {
    var n := Permissions(p.frame, prot).(d := p.d);
    if prot.write && !a.shared && refs > 1 then n.(w := false, cow := true)
    else if prot.write && a.file && a.shared && !p.w then n.(w := false)
    else n.(cow := !prot.write && !a.shared && p.cow)
  }

  function ProtectPage(s: State, k: Key, prot: Prot): State
    requires k in s.areas
  {
    var a := s.areas[k];
    if k in s.ptes then
      s.(areas := s.areas[k := a.(prot := prot)],
         ptes := s.ptes[k := ProtectedPte(s.ptes[k], a, prot, RefCount(s, s.ptes[k].frame))])
    else s.(areas := s.areas[k := a.(prot := prot)])
  }

  /** Areas without entries may change freely. */
  lemma AreasShape(s: State, areas: map<Key, Area>, live: set<Pid>)
    requires Shape(s) && (forall k | k in s.ptes :: k in areas && areas[k] == s.areas[k])
    requires forall k | k in areas :: k.pid in live && (areas[k].backed ==> areas[k].shared)
    ensures Shape(s.(areas := areas, live := live))
  { hide ZeroPage; }

  lemma AreaCounted(s: State, areas: map<Key, Area>, live: set<Pid>, extra: multiset<Frame>)
    requires Counted(s, extra)
    ensures Counted(s.(areas := areas, live := live), extra)
  {
    assert forall f :: Holders(s.(areas := areas, live := live), f) == Holders(s, f);
  }

  lemma ProtectEntryShape(s: State, k: Key, prot: Prot)
    requires Good(s) && k in s.ptes
    ensures Shape(ProtectPage(s, k, prot))
  {
    var p := ProtectedPte(s.ptes[k], s.areas[k], prot, RefCount(s, s.ptes[k].frame));
    if s.frames[p.frame].refs == 1 { SoleHolder(s, k); }
    ReflagShape(s, k, p, s.areas[k].(prot := prot));
  }

  lemma ProtectPageKeeps(s: State, k: Key, prot: Prot)
    requires Good(s) && k in s.areas
    ensures Good(ProtectPage(s, k, prot))
    ensures forall j :: Content(ProtectPage(s, k, prot), j) == Content(s, j)
  {
    hide Shape, Counted, Content;
    var a := s.areas[k].(prot := prot);
    if k in s.ptes {
      var p := ProtectedPte(s.ptes[k], s.areas[k], prot, RefCount(s, s.ptes[k].frame));
      ProtectEntryShape(s, k, prot);
      ReflagCounted(s, k, p, a, multiset{});
      ReflagSame(s, k, p, s.areas[k := a]);
    } else {
      ProtectUnmapped(s, k, a);
    }
  }

  lemma ProtectUnmapped(s: State, k: Key, a: Area)
    requires Good(s) && k in s.areas && k !in s.ptes && a == s.areas[k].(prot := a.prot)
    ensures Good(s.(areas := s.areas[k := a]))
    ensures forall j :: Content(s.(areas := s.areas[k := a]), j) == Content(s, j)
  {
    AreasShape(s, s.areas[k := a], s.live);
    AreaCounted(s, s.areas[k := a], s.live, multiset{});
    hide ZeroPage;
  }

  /** mprotect gives no entry more than `prot`.  A private entry gets write access exactly as the sole holder of its frame
      and is copy-on-write otherwise; a shared file entry keeps waiting for the fault that marks the page dirty. */
  lemma ProtectedExclusive(s: State, k: Key, prot: Prot)
    requires Good(s) && k in s.ptes && k in s.areas
    ensures var p := ProtectPage(s, k, prot).ptes[k];
      && p.frame == s.ptes[k].frame && p.d == s.ptes[k].d
      && (p.w ==> prot.write) && (p.x ==> prot.exec) && (p.u <==> !prot.NoAccess())
      && (!s.areas[k].shared ==> (p.w <==> prot.write && Holders(s, p.frame) == 1))
      && (s.areas[k].shared ==> (p.w <==> prot.write && (s.areas[k].file ==> s.ptes[k].w)))
      && (p.cow <==> !s.areas[k].shared && if prot.write then Holders(s, p.frame) > 1 else s.ptes[k].cow)
  { hide Holders; }

  function DropEntry(s: State, k: Key): State
    requires k in s.ptes
  {
    PFree(s.(ptes := s.ptes - {k}), s.ptes[k].frame)
  }

  lemma DropEntryKeeps(s: State, k: Key, extra: multiset<Frame>)
    requires Inv(s, extra) && k in s.ptes
    ensures Inv(DropEntry(s, k), extra)
    ensures forall j | j != k :: Content(DropEntry(s, k), j) == Content(s, j)
  {
    EntryBasics(s, k, extra);
    var f, q := s.ptes[k].frame, s.(ptes := s.ptes - {k});
    RemoveKeeps(s, k, extra);
    PFreeKeeps(q, f, extra + multiset{f});
    assert extra + multiset{f} - multiset{f} == extra;
    DropSame(s, k);
    hide Inv;
    hide Content;
  }

  lemma DropSame(s: State, k: Key)
    requires k in s.ptes && s.ptes[k].frame in s.frames && s.frames[s.ptes[k].frame].refs > 0
    requires Owned(s) && Owned(DropEntry(s, k))
    ensures forall j: Key | j != k :: Content(DropEntry(s, k), j) == Content(s, j)
  { hide ZeroPage; }

  function UnmapPage(s: State, k: Key): State {
    var r := if k in s.ptes then DropEntry(s, k) else s;
    r.(areas := r.areas - {k})
  }

  lemma ForgetShape(s: State, k: Key)
    requires Shape(s) && k !in s.ptes
    ensures Shape(s.(areas := s.areas - {k}))
  {
    AreasShape(s, s.areas - {k}, s.live);
  }

  lemma DropRemoves(s: State, k: Key)
    ensures k in s.ptes ==> k !in DropEntry(s, k).ptes
  {}

  lemma ForgetSame(s: State, k: Key)
    ensures forall j :: Content(s.(areas := s.areas - {k}), j) == Content(s, j)
  {}

  lemma UnmapPageKeeps(s: State, k: Key)
    requires Good(s)
    ensures Good(UnmapPage(s, k)) && k !in UnmapPage(s, k).ptes && k !in UnmapPage(s, k).areas
    ensures forall j | j != k :: Content(UnmapPage(s, k), j) == Content(s, j) && (j in UnmapPage(s, k).ptes <==> j in s.ptes)
  {
    hide Shape;
    hide Counted;
    var r := if k in s.ptes then DropEntry(s, k) else s;
    if k in s.ptes { DropEntryKeeps(s, k, multiset{}); }
    DropRemoves(s, k);
    ForgetShape(r, k);
    AreaCounted(r, r.areas - {k}, r.live, multiset{});
    ForgetSame(r, k);
    hide DropEntry;
    hide Content;
  }

  predicate Reclaimable(s: State, k: Key) {
    && k in s.areas && s.areas[k].PrivateAnon() && !s.areas[k].elf
    && k in s.ptes && !s.ptes[k].d
  }

  /** Dropping a clean private anonymous page loses nothing: it reads as zeroes again. */
  lemma ReclaimPageKeeps(s: State, k: Key)
    requires Good(s) && Reclaimable(s, k)
    ensures Good(DropEntry(s, k))
    ensures forall j :: Content(DropEntry(s, k), j) == Content(s, j)
  {
    assert Content(s, k) == Untouched();
    hide Good;
    hide ZeroPage;
    DropEntryKeeps(s, k, multiset{});
    DropRemoves(s, k);
    assert Content(DropEntry(s, k), k) == Untouched();
    hide DropEntry;
  }

  /** The entry both processes have after a fork. */
  function ForkedPte(p: Pte, a: Area): Pte {
    if !a.shared && p.w then p.(w := false, cow := true) else p
  }

  function ParentCow(s: State, k: Key): State
    requires k in s.ptes && k in s.areas
  {
    s.(ptes := s.ptes[k := ForkedPte(s.ptes[k], s.areas[k])])
  }

  lemma ParentCowKeeps(s: State, k: Key, extra: multiset<Frame>)
    requires Inv(s, extra) && k in s.ptes
    ensures Inv(ParentCow(s, k), extra)
    ensures forall j :: Content(ParentCow(s, k), j) == Content(s, j)
  {
    var p := ForkedPte(s.ptes[k], s.areas[k]);
    ReflagKeeps(s, k, p, extra);
    ReflagSame(s, k, p, s.areas);
    hide Inv;
    hide Content;
  }

  /** vm_copy_walk at one mapped page: both processes end with the same frame, read-only when private. */
  function CopyEntry(s: State, from: Key, to: Key): State
    requires from in s.ptes && from in s.areas
  {
    var r := ParentCow(Get(s, s.ptes[from].frame), from);
    r.(ptes := r.ptes[to := r.ptes[from]])
  }

  /** Parent and child end with the same entry on the same frame: a shared one as it was, a private one without write access. */
  lemma CopyFlags(s: State, from: Key, to: Key)
    requires from in s.ptes && from in s.areas && to !in s.ptes && FlagsAgree(s.ptes[from], s.areas[from])
    ensures var r, p := CopyEntry(s, from, to), s.ptes[from];
      && from in r.ptes && to in r.ptes && r.ptes[from] == r.ptes[to] && r.ptes.Keys == s.ptes.Keys + {to}
      && r.ptes[to] == p.(w := p.w && s.areas[from].shared, cow := p.cow || (p.w && !s.areas[from].shared))
      && (forall j | j in s.ptes && j != from :: r.ptes[j] == s.ptes[j])
  {}

  lemma CopyEntryKeeps(s: State, from: Key, to: Key)
    requires Good(s) && from in s.ptes && to !in s.ptes && to in s.areas && s.areas[to] == s.areas[from]
    requires s.frames[s.ptes[from].frame].refs < REF_MAX
    ensures Good(CopyEntry(s, from, to))
    ensures forall j | j != to :: Content(CopyEntry(s, from, to), j) == Content(s, j)
    ensures Content(CopyEntry(s, from, to), to) == Content(s, from)
    ensures var r, p := CopyEntry(s, from, to), s.ptes[from];
      && from in r.ptes && to in r.ptes && r.ptes[from] == r.ptes[to] && r.ptes.Keys == s.ptes.Keys + {to}
      && r.ptes[to] == p.(w := p.w && s.areas[from].shared, cow := p.cow || (p.w && !s.areas[from].shared))
      && (forall j | j in s.ptes && j != from :: r.ptes[j] == s.ptes[j])
  {
    CopyFlags(s, from, to);
    var f := s.ptes[from].frame;
    var g := Get(s, f);
    GetKeeps(s, f, multiset{});
    ParentCowKeeps(g, from, multiset{f});
    var r := ParentCow(g, from);
    assert Counted(CopyEntry(s, from, to), multiset{}) by {
      InstallCounted(r, to, r.ptes[from], multiset{f});
      assert multiset{f} - multiset{f} == multiset{};
    }
    CopyInstall(r, from, to);
    CopySameBytes(s, from, to);
    hide Shape;
    hide Counted;
    hide Content;
  }

  lemma CopySameBytes(s: State, from: Key, to: Key)
    requires from in s.ptes && from in s.areas && to !in s.ptes && s.ptes[from].frame in s.frames
    ensures forall j | j != to :: Content(CopyEntry(s, from, to), j) == Content(s, j)
    ensures Content(CopyEntry(s, from, to), to) == Content(s, from)
  { hide ZeroPage; }

  lemma CopyInstall(r: State, from: Key, to: Key)
    requires Shape(r) && from in r.ptes && to !in r.ptes && to in r.areas && r.areas[to] == r.areas[from]
    requires r.ptes[from].w ==> r.areas[from].shared
    ensures Shape(r.(ptes := r.ptes[to := r.ptes[from]]))
  {
    InstallShape(r, to, r.ptes[from]);
  }
}
