/** The operations of the copy-on-write machine as the kernel performs them: entries, areas and
reference counts are changed in place, ranges are walked page by page. */
module CowKernel {
  import opened Common
  import opened CopyOnWrite
  import opened CowMachine

  const MMAP_RECLAIM_BATCH := 64

  function PFreeAll(s: State, frames: seq<Frame>): State
    decreases |frames|
  {
    if frames == [] then s else PFreeAll(PFree(s, frames[0]), frames[1..])
  }

  lemma {:induction false} PFreeAllSnoc(s: State, frames: seq<Frame>, f: Frame)
    ensures PFreeAll(s, frames + [f]) == PFree(PFreeAll(s, frames), f)
    decreases |frames|
  {
    if frames == [] {
      assert [f][1..] == [];
      assert PFreeAll(s, [f]) == PFreeAll(PFree(s, f), []);
      assert [] + [f] == [f];
    } else {
      assert (frames + [f])[0] == frames[0] && (frames + [f])[1..] == frames[1..] + [f];
      PFreeAllSnoc(PFree(s, frames[0]), frames[1..], f);
    }
  }

  /** Freeing pages does not look at the entries, so an entry may be cleared before or after. */
  lemma {:induction false} PFreeAllEntries(s: State, frames: seq<Frame>, ptes: map<Key, Pte>)
    ensures PFreeAll(s.(ptes := ptes), frames) == PFreeAll(s, frames).(ptes := ptes)
    ensures PFreeAll(s, frames).ptes == s.ptes && PFreeAll(s, frames).areas == s.areas
    decreases |frames|
  {
    if frames != [] {
      assert PFree(s.(ptes := ptes), frames[0]) == PFree(s, frames[0]).(ptes := ptes);
      PFreeAllEntries(PFree(s, frames[0]), frames[1..], ptes);
    }
  }

  class Memory {
    var frames: map<Frame, Phys>
    var ptes: map<Key, Pte>
    var areas: map<Key, Area>
    var live: set<Pid>
    var held: set<Frame>

    function View(): State
      reads this
    {
      State(frames, ptes, areas, live, held)
    }

    /** pfree; the source panics on a page without a reference. */
    method Put(f: Frame)
      requires RefCount(View(), f) > 0
      modifies this`frames
      ensures View() == PFree(old(View()), f)
      ensures |frames| == |old(frames)| - if RefCount(old(View()), f) == 1 then 1 else 0
    {
      frames := frames[f := frames[f].(refs := frames[f].refs - 1)];
      if frames[f].refs == 0 {
        frames := frames - {f};
        assert old(frames).Keys == frames.Keys + {f};
        assert |old(frames)| == |old(frames).Keys| && |frames| == |frames.Keys|;
        assert frames == old(frames) - {f};
      } else {
        assert frames.Keys == old(frames).Keys;
        assert |old(frames)| == |old(frames).Keys| && |frames| == |frames.Keys|;
      }
    }

    /** palloc_get. */
    method TryGet(f: Frame) returns (ok: bool)
      modifies this`frames
      ensures ok == (0 < RefCount(old(View()), f) < REF_MAX)
      ensures View() == if ok then Get(old(View()), f) else old(View())
    {
      ok := f in frames && 0 < frames[f].refs && frames[f].refs < REF_MAX;
      if ok { frames := frames[f := frames[f].(refs := frames[f].refs + 1)]; }
    }

    /** vm_resolve_cow. */
    method Resolve(k: Key, copy: Option<Frame>) returns (result: CowResult)
      requires Good(View()) && k in ptes && (copy.Some? ==> copy.value !in frames)
      modifies this`frames, this`ptes
      ensures View() == ResolveCow(old(View()), k, copy).0 && result == ResolveCow(old(View()), k, copy).1
      ensures result.NoPage? <==> old(ptes)[k].cow && RefCount(old(View()), old(ptes)[k].frame) > 1 && copy.None?
    {
      hide Inv;
      EntryBasics(View(), k, multiset{});
      var was := ptes[k];
      if !was.cow {
        return if was.w then Resolved else NotCow;
      }
      if frames[was.frame].refs == 1 {
        ptes := ptes[k := was.(w := true, cow := false)];
        return Resolved;
      }
      if copy.None? {
        return NoPage;
      }
      frames := frames[copy.value := Phys(frames[was.frame].data, 1)];
      ptes := ptes[k := was.(frame := copy.value, w := true, cow := false)];
      assert View() == CowCopy(old(View()), k, copy.value);
      Put(was.frame);
      return Resolved;
    }

    /** The part of mmap_handle_fault for a page that has an entry. */
    method HandleMapped(k: Key, access: Access, env: FaultEnv) returns (result: FaultResult)
      requires Good(View()) && EnvOk(View(), k, env) && k in ptes && k in areas
      modifies this`frames, this`ptes
      ensures (View(), result) == FaultMapped(old(View()), k, access, env.copy, env.marked)
    {
      hide Good;
      var p, area := ptes[k], areas[k];
      if access.Write? && p.u && !p.w && area.file && area.shared && area.prot.write {
        if !env.marked { return NoMem; }
        ptes := ptes[k := p.(w := true)];
        return Ok;
      }
      if access.Write? {
        var cow := Resolve(k, env.copy);
        if cow.Resolved? { return Ok; }
        if cow.NoPage? { return NoMem; }
      }
      return if HardwareAllows(p, access) then Ok else AccErr;
    }

    /** mmap_handle_fault, one pass under the process's lock. */
    method HandleFault(k: Key, access: Access, env: FaultEnv) returns (result: FaultResult)
      requires Good(View()) && EnvOk(View(), k, env)
      modifies this`frames, this`ptes
      ensures View() == Fault(old(View()), k, access, env).0 && result == Fault(old(View()), k, access, env).1
    {
      hide Good;
      if k !in areas {
        return MapErr;
      }
      var area := areas[k];
      if !AccessAllowed(area, access) {
        return AccErr;
      }
      if k in ptes {
        result := HandleMapped(k, access, env);
        return;
      }
      if env.supply.NoSupply? {
        return env.supply.why;
      }
      ghost var before := View();
      match env.supply {
        case Fresh(f, data) => frames := frames[f := Phys(data, 1)];
        case Cached(f) => var got := TryGet(f); assert got by { HeldCounted(before, f); }
      }
      assert View() == TakeSupply(before, env.supply);
      if (NeedsMark(area, access, env.supply) && !env.marked) || !env.tableOk {
        SupplyBack(before, env.supply);
        Put(env.supply.frame);
        return NoMem;
      }
      ptes := ptes[k := FirstPte(area, access, env.supply)];
      return Ok;
    }

    /** vma_unmap and vm_unmap_range. */
    method Unmap(p: Pid, lo: Vpn, hi: Vpn)
      requires Good(View()) && lo <= hi
      modifies this`frames, this`ptes, this`areas
      ensures View() == UnmapRange(old(View()), p, lo, hi)
    {
      hide Good;
      ghost var s := View();
      UnmapRangeKeeps(s, p, lo, hi);
      areas := areas - Keys(p, lo, hi);
      var v := lo;
      while v < hi
        invariant lo <= v <= hi
        invariant areas == s.areas - Keys(p, lo, hi) && live == s.live && held == s.held
        invariant frames == UnmapRange(s, p, lo, v).frames && ptes == UnmapRange(s, p, lo, v).ptes
      {
        ghost var q := UnmapRange(s, p, lo, v);
        UnmapRangeKeeps(s, p, lo, v);
        var k := Key(p, v);
        if k in ptes {
          var f := ptes[k].frame;
          GoodEntry(q, k);
          ptes := ptes - {k};
          Put(f);
        }
        v := v + 1;
      }
    }

    /** vma_protect and vm_protect_user_range. */
    method Protect(p: Pid, lo: Vpn, hi: Vpn, prot: Prot)
      requires Good(View()) && lo <= hi
      modifies this`ptes, this`areas
      ensures View() == ProtectRange(old(View()), p, lo, hi, prot)
    {
      hide Good, Content, ProtectRange, ProtectAreas, ProtectPage;
      ghost var s := View();
      areas := ProtectAreas(areas, p, lo, hi, prot);
      var v := lo;
      ProtectRangeNone(s, p, lo, prot);
      while v < hi
        invariant lo <= v <= hi && frames == s.frames && live == s.live && held == s.held
        invariant areas == ProtectAreas(s.areas, p, lo, hi, prot)
        invariant frames == ProtectRange(s, p, lo, v, prot).frames && ptes == ProtectRange(s, p, lo, v, prot).ptes
      {
        ProtectRangeAreas(s, p, lo, v, hi, prot);
        ProtectRangeNext(s, p, lo, v, prot);
        ProtectEntry(Key(p, v), prot, ProtectRange(s, p, lo, v, prot));
        v := v + 1;
      }
      ProtectRangeAreas(s, p, lo, hi, hi, prot);
    }

    /** One entry of vm_protect_user_range; `q` is the state in which the area of `k` is still the old one. */
    method ProtectEntry(k: Key, prot: Prot, ghost q: State)
      requires Good(q) && frames == q.frames && ptes == q.ptes && areas.Keys == q.areas.Keys
      requires k in areas ==> areas[k] == q.areas[k].(prot := prot)
      modifies this`ptes
      ensures frames == (if k in q.areas then ProtectPage(q, k, prot) else q).frames
      ensures ptes == (if k in q.areas then ProtectPage(q, k, prot) else q).ptes
      ensures k in ptes && k in areas && ptes[k].w ==> prot.write && (areas[k].shared || Holders(q, ptes[k].frame) == 1)
    {
      hide Good;
      if k in ptes {
        GoodEntry(q, k);
        ProtectedExclusive(q, k, prot);
        var refs := if ptes[k].frame in frames then frames[ptes[k].frame].refs else 0;
        ptes := ptes[k := ProtectedPte(ptes[k], areas[k], prot, refs)];
      }
    }

    /** vm_copy_walk at page `v` of the parent `p`, when the pages below are copied.  `s` is the state
        before the fork. */
    method CopyAt(p: Pid, c: Pid, v: Vpn, failAt: Option<Vpn>, ghost s: State) returns (ok: bool)
      requires Good(s) && p in s.live && c !in s.live && areas == s.areas && live == s.live && held == s.held
      requires var q := CopyRange(ForkStart(s, p, c), p, c, v, failAt); q.ok && frames == q.s.frames && ptes == q.s.ptes
      modifies this`frames, this`ptes
      ensures var r := CopyRange(ForkStart(s, p, c), p, c, v + 1, failAt); frames == r.s.frames && ptes == r.s.ptes && ok == r.ok
    {
      ghost var s0 := ForkStart(s, p, c);
      ghost var q := CopyRange(s0, p, c, v, failAt).s;
      ForkStartGood(s, p, c);
      hide Good;
      hide Content;
      CopyRangeKeeps(s0, p, c, v, failAt);
      CopyRangeNext(s0, p, c, v, failAt);
      hide CopyRange;
      hide CloneMap;
      hide CopyEntry;
      hide ParentCow;
      var k := Key(p, v);
      ok := true;
      if k in ptes {
        GoodEntry(q, k);
        ParentKey(s, p, c, k);
        ok := CopyOne(k, Key(c, v), failAt == Some(v), q);
      }
    }

    /** vm_copy: the walk over the parent's entries. */
    method CopyAll(p: Pid, c: Pid, top: Vpn, failAt: Option<Vpn>) returns (ok: bool)
      requires Good(View()) && p in live && c !in live
      modifies this`frames, this`ptes
      ensures var r := CopyRange(ForkStart(old(View()), p, c), p, c, top, failAt); frames == r.s.frames && ptes == r.s.ptes && ok == r.ok
    {
      ghost var s := View();
      ghost var s0 := ForkStart(s, p, c);
      ok := true;
      var v := 0;
      CopyRangeNone(s0, p, c, failAt);
      hide Good;
      hide CopyRange;
      while ok && v < top
        invariant 0 <= v <= top && areas == s.areas && live == s.live && held == s.held
        invariant frames == CopyRange(s0, p, c, v, failAt).s.frames && ptes == CopyRange(s0, p, c, v, failAt).s.ptes
        invariant ok == CopyRange(s0, p, c, v, failAt).ok
        decreases top - v
      {
        ok := CopyAt(p, c, v, failAt, s);
        v := v + 1;
      }
      CopyRangeStops(s0, p, c, v, top, failAt);
    }

    /** mmap_process_fork: copy the entries, clone the areas, or free what the child got. */
    method ForkInto(p: Pid, c: Pid, top: Vpn, failAt: Option<Vpn>, cloneOk: bool) returns (ok: bool)
      requires Good(View()) && p in live && c !in live
      modifies this
      ensures View() == Fork(old(View()), p, c, top, failAt, cloneOk).s && ok == Fork(old(View()), p, c, top, failAt, cloneOk).ok
      ensures ok <==> ForkFits(old(View()), p, top, failAt, cloneOk)
    {
      hide Good, Content, ForkFits, CloneMap, CopyRange, CopiedBelow, UnmapRange;
      ForkExact(View(), p, c, top, failAt, cloneOk);
      ghost var s0 := ForkStart(View(), p, c);
      ForkStartGood(View(), p, c);
      CopyRangeKeeps(s0, p, c, top, failAt);
      ok := CopyAll(p, c, top, failAt);
      areas := CloneMap(areas, p, c);
      live := live + {c};
      assert View() == CopyRange(s0, p, c, top, failAt).s;
      if !ok || !cloneOk {
        ok := false;
        Unmap(c, 0, top);
        live := live - {c};
      }
    }

    /** vm_copy_walk at one mapped page.  `q` is this state with the child's areas already in place. */
    method CopyOne(k: Key, to: Key, tableFails: bool, ghost q: State) returns (ok: bool)
      requires k in ptes && k in areas && q == View().(areas := q.areas, live := q.live)
      requires k in q.areas && q.areas[k] == areas[k] && 0 < RefCount(q, ptes[k].frame) <= REF_MAX
      modifies this`frames, this`ptes
      ensures ok == (RefCount(q, old(ptes)[k].frame) < REF_MAX && !tableFails)
      ensures
        var r := if ok then CopyEntry(q, k, to) else if RefCount(q, old(ptes)[k].frame) < REF_MAX then ParentCow(q, k) else q;
        frames == r.frames && ptes == r.ptes
    {
      var f, pte := ptes[k].frame, ptes[k];
      ok := TryGet(f);
      if !ok { return; }
      if !areas[k].shared && pte.w {
        pte := pte.(w := false, cow := true);
      }
      ptes := ptes[k := pte];
      assert pte == ForkedPte(old(ptes)[k], areas[k]) && ptes == ParentCow(q, k).ptes;
      if tableFails {
        Put(f);
        ok := false;
        assert frames == old(frames);
      } else {
        ptes := ptes[to := pte];
      }
    }

    /** mmap_reclaim_anonymous: clean private anonymous pages are dropped in batches until `target`
        frames are free again.  The answer is the number of frames freed; when it is below the
        target, no clean page of the process is left. */
    method ReclaimAnonymous(p: Pid, top: Vpn, target: nat) returns (reclaimed: nat, dropped: seq<Key>)
      requires Good(View()) && Below(View(), p, top)
      modifies this`frames, this`ptes
      ensures View() == DropAll(old(View()), dropped) && Good(View())
      ensures reclaimed == |old(frames)| - |frames|
      ensures reclaimed < target ==> forall v: Vpn :: !CleanAnonymous(View(), Key(p, v))
    {
      hide Good, Content, Inv, DropAll, PFreeAll, Deferred, NoneBelow;
      NoneStart(View(), p);
      ghost var s := View();
      NothingDropped(s);
      reclaimed, dropped := 0, [];
      var batch: seq<Frame>, v := [], 0;
      while v < top && reclaimed < target
        invariant 0 <= v <= top && areas == s.areas && live == s.live && held == s.held
        invariant Deferred(View(), s, batch, dropped)
        invariant reclaimed == |s.frames| - |frames|
        invariant NoneBelow(View(), p, v)
      {
        var k := Key(p, v);
        NoneNext(View(), p, v);
        if Reclaimable(View(), k) {
          var f := ptes[k].frame;
          DeferDrop(View(), s, batch, dropped, k);
          ptes := ptes - {k};
          batch, dropped := batch + [f], dropped + [k];
          if |batch| >= MMAP_RECLAIM_BATCH {
            var freed := FlushBatch(batch, s, dropped, p, v + 1);
            reclaimed, batch := reclaimed + freed, [];
          }
        }
        v := v + 1;
      }
      var freed := FlushBatch(batch, s, dropped, p, v);
      reclaimed := reclaimed + freed;
      if v == top { NoneAtAll(View(), p, top); }
    }

    /** Flush, in the middle of a walk that has reached page `v`. */
    method FlushBatch(batch: seq<Frame>, ghost s: State, ghost dropped: seq<Key>, ghost p: Pid, ghost v: Vpn) returns (freed: nat)
      requires Deferred(View(), s, batch, dropped) && NoneBelow(View(), p, v)
      modifies this`frames
      ensures Deferred(View(), s, [], dropped) && NoneBelow(View(), p, v)
      ensures View() == DropAll(s, dropped) && Good(View()) && freed == |old(frames)| - |frames|
    {
      hide Good, Content, Inv, DropAll, PFreeAll, Deferred, NoneBelow;
      ghost var w := View();
      InFlight(w, s, batch, dropped);
      freed := Flush(batch);
      Flushed(w, s, batch, dropped, View());
      NoneSame(w, View(), p, v);
    }

    /** Drops the references of a batch and counts the frames this frees. */
    method Flush(batch: seq<Frame>) returns (freed: nat)
      requires Inv(View(), multiset(batch))
      modifies this`frames
      ensures View() == PFreeAll(old(View()), batch) && Good(View())
      ensures freed == |old(frames)| - |frames|
    {
      hide Inv;
      hide Good;
      hide PFree;
      freed := 0;
      ghost var s := View();
      var i := 0;
      assert batch[0..] == batch;
      while i < |batch|
        invariant 0 <= i <= |batch| && ptes == s.ptes && areas == s.areas && live == s.live && held == s.held
        invariant Inv(View(), multiset(batch[i..])) && PFreeAll(View(), batch[i..]) == PFreeAll(s, batch)
        invariant freed == |s.frames| - |frames|
      {
        var rest := batch[i..];
        assert rest[0] == batch[i] && rest[1..] == batch[i + 1..];
        assert multiset(rest) - multiset{rest[0]} == multiset(rest[1..]) by { assert rest == [rest[0]] + rest[1..]; }
        PFreeKeeps(View(), batch[i], multiset(rest));
        if frames[batch[i]].refs == 1 { freed := freed + 1; }
        Put(batch[i]);
        i := i + 1;
      }
      assert batch[i..] == [] && multiset(batch[i..]) == multiset{};
      NoneInFlight(View());
    }
  }

  /** No clean page of the process is left below `v`. */
  ghost predicate NoneBelow(w: State, p: Pid, v: Vpn) {
    forall u: Vpn | u < v :: !Reclaimable(w, Key(p, u))
  }

  lemma NoneStart(w: State, p: Pid)
    ensures NoneBelow(w, p, 0)
  {}

  lemma NoneNext(w: State, p: Pid, v: Vpn)
    requires NoneBelow(w, p, v)
    ensures NoneBelow(w.(ptes := w.ptes - {Key(p, v)}), p, v + 1)
    ensures !Reclaimable(w, Key(p, v)) ==> NoneBelow(w, p, v + 1)
  {}

  lemma NoneSame(w: State, w': State, p: Pid, v: Vpn)
    requires NoneBelow(w, p, v) && w'.ptes == w.ptes && w'.areas == w.areas
    ensures NoneBelow(w', p, v)
  {
    forall u: Vpn | u < v ensures !Reclaimable(w', Key(p, u)) { assert !Reclaimable(w, Key(p, u)); }
  }

  lemma NoneAtAll(w: State, p: Pid, top: Vpn)
    requires NoneBelow(w, p, top) && Below(w, p, top)
    ensures forall v: Vpn :: !CleanAnonymous(w, Key(p, v))
  {
    forall v: Vpn ensures !Reclaimable(w, Key(p, v)) { if v >= top { assert Key(p, v) !in w.areas; } }
    assert forall v: Vpn :: CleanAnonymous(w, Key(p, v)) ==> Reclaimable(w, Key(p, v));
  }

  /** A mapped page of private anonymous memory, not of the program image, that has not been written. */
  predicate CleanAnonymous(s: State, k: Key) {
    k in s.areas && !s.areas[k].shared && !s.areas[k].file && !s.areas[k].backed && !s.areas[k].elf && k in s.ptes && !s.ptes[k].d
  }

  /** `w` is `s` without the entries `dropped`, except that the frames of `batch` are still to be freed. */
  ghost predicate Deferred(w: State, s: State, batch: seq<Frame>, dropped: seq<Key>) {
    Inv(w, multiset(batch)) && PFreeAll(w, batch) == DropAll(s, dropped)
  }

  lemma NothingDropped(s: State)
    requires Good(s)
    ensures Deferred(s, s, [], [])
  {}

  lemma InFlight(w: State, s: State, batch: seq<Frame>, dropped: seq<Key>)
    requires Deferred(w, s, batch, dropped)
    ensures Inv(w, multiset(batch))
  {}

  lemma Flushed(w: State, s: State, batch: seq<Frame>, dropped: seq<Key>, w': State)
    requires Deferred(w, s, batch, dropped) && Good(w') && w' == PFreeAll(w, batch)
    ensures Deferred(w', s, [], dropped) && w' == DropAll(s, dropped) && w'.ptes == w.ptes
  {
    PFreeAllPtes(w, batch);
  }

  lemma {:induction false} PFreeAllPtes(s: State, frames: seq<Frame>)
    ensures PFreeAll(s, frames).ptes == s.ptes && PFreeAll(s, frames).areas == s.areas
    decreases |frames|
  {
    if frames != [] { PFreeAllPtes(PFree(s, frames[0]), frames[1..]); }
  }

  lemma NoneInFlight(s: State)
    ensures Good(s) <==> Inv(s, multiset{})
  {}

  lemma ParentKey(s: State, p: Pid, c: Pid, k: Key)
    requires k.pid == p && p != c && (forall j | j in s.areas :: j.pid != c) && k in ForkStart(s, p, c).areas
    ensures k in s.areas && ForkStart(s, p, c).areas[k] == s.areas[k]
  {
    CloneFacts(s.areas, p, c);
  }

  function ProtectAreas(areas: map<Key, Area>, p: Pid, lo: Vpn, hi: Vpn, prot: Prot): map<Key, Area>
    requires lo <= hi
  {
    map k | k in areas :: if k in Keys(p, lo, hi) then areas[k].(prot := prot) else areas[k]
  }

  /** The areas above `v` are still the old ones when the walk reaches `v`. */
  lemma ProtectRangeAreas(s: State, p: Pid, lo: Vpn, v: Vpn, hi: Vpn, prot: Prot)
    requires Good(s) && lo <= v <= hi
    ensures var q, a := ProtectRange(s, p, lo, v, prot), ProtectAreas(s.areas, p, lo, hi, prot);
      && Good(q) && q.live == s.live && q.held == s.held && a.Keys == q.areas.Keys && (v == hi ==> q.areas == a)
      && (v < hi && Key(p, v) in a ==> a[Key(p, v)] == q.areas[Key(p, v)].(prot := prot))
  {
    hide Good, Content, ProtectRange;
    ProtectRangeKeeps(s, p, lo, v, prot);
  }

  lemma ProtectRangeNone(s: State, p: Pid, lo: Vpn, prot: Prot)
    ensures ProtectRange(s, p, lo, lo, prot) == s
  {}

  lemma ProtectRangeNext(s: State, p: Pid, lo: Vpn, v: Vpn, prot: Prot)
    requires lo <= v
    ensures
      var q, k := ProtectRange(s, p, lo, v, prot), Key(p, v);
      ProtectRange(s, p, lo, v + 1, prot) == if k in q.areas then ProtectPage(q, k, prot) else q
  {}

  lemma CopyRangeNone(s: State, p: Pid, c: Pid, failAt: Option<Vpn>)
    ensures CopyRange(s, p, c, 0, failAt) == Copied(s, true)
  {}

  lemma CopyRangeNext(s: State, p: Pid, c: Pid, v: Vpn, failAt: Option<Vpn>)
    requires CopyRange(s, p, c, v, failAt).ok
    ensures
      var q, k, n := CopyRange(s, p, c, v, failAt), Key(p, v), CopyRange(s, p, c, v + 1, failAt);
      if k !in q.s.ptes then n == q
      else if k !in q.s.areas || RefCount(q.s, q.s.ptes[k].frame) >= REF_MAX then n == Copied(q.s, false)
      else if failAt == Some(v) then n == Copied(ParentCow(q.s, k), false)
      else n == Copied(CopyEntry(q.s, k, Key(c, v)), true)
  {}

  lemma {:induction false} CopyRangeStops(s: State, p: Pid, c: Pid, v: Vpn, top: Vpn, failAt: Option<Vpn>)
    requires v <= top && (v == top || !CopyRange(s, p, c, v, failAt).ok)
    ensures CopyRange(s, p, c, top, failAt) == CopyRange(s, p, c, v, failAt)
    decreases top - v
  {
    if v < top { CopyRangeStops(s, p, c, v + 1, top, failAt); }
  }

  /** Clearing a clean entry now and freeing its frame with the batch is dropping it last. */
  lemma DeferDrop(w: State, s: State, batch: seq<Frame>, dropped: seq<Key>, k: Key)
    requires Deferred(w, s, batch, dropped) && Reclaimable(w, k)
    ensures Deferred(w.(ptes := w.ptes - {k}), s, batch + [w.ptes[k].frame], dropped + [k])
  {
    hide Inv;
    var f, n := w.ptes[k].frame, w.(ptes := w.ptes - {k});
    RemoveKeeps(w, k, multiset(batch));
    assert multiset(batch + [f]) == multiset(batch) + multiset{f};
    PFreeAllSnoc(n, batch, f);
    PFreeAllEntries(w, batch, w.ptes - {k});
    assert (dropped + [k])[..|dropped|] == dropped;
  }

  lemma GoodEntry(s: State, k: Key)
    requires Good(s) && k in s.ptes
    ensures k in s.areas && s.ptes[k].frame in s.frames && 0 < s.frames[s.ptes[k].frame].refs <= REF_MAX
  {
    EntryBasics(s, k, multiset{});
  }

  lemma HeldCounted(s: State, f: Frame)
    requires Good(s) && f in s.held
    ensures f in s.frames && 0 < s.frames[f].refs
  {}

  lemma SupplyBack(s: State, supply: Supply)
    requires !supply.NoSupply? && (supply.Fresh? ==> supply.frame !in s.frames)
    requires supply.Cached? ==> supply.frame in s.frames && s.frames[supply.frame].refs > 0
    ensures RefCount(TakeSupply(s, supply), supply.frame) > 0
    ensures PFree(TakeSupply(s, supply), supply.frame) == s
  {}
}
