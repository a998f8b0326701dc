/** What futex calls do to the waiters of each key and to the slots. */
module FutexOrder {
  import opened Common
  import opened WaitQueues
  import opened WakeOrder
  import opened Futex

  // ----- By key -----

  /** The waiters of a key, oldest first. */
  ghost function Waiters(w: World, key: Key): seq<Tid> {
    var k := Find(w.slots, key, 0);
    if k < |w.slots| then Q(w.waits, k + 1) else []
  }

  /** A key has waiters only through the one active slot that carries it. */
  lemma WaitersAt(w: World, key: Key, k: nat)
    requires Futex.Inv(w) && k < |w.slots| && w.slots[k].active && w.slots[k].key == key
    ensures Waiters(w, key) == Q(w.waits, k + 1)
  {
    hide WaitQueues.Inv, CountsOk, SleepersOk;
    FindIs(w.slots, key, 0);
  }

  /** futex_wake reaches exactly the first `count` waiters of the key that meet the mask, and no slot changes. */
  lemma WakeKeyExact(w: World, key: Key, count: nat, mask: set<nat>)
    requires Futex.Inv(w)
    ensures var o := WakeKey(w, key, count, mask);
      o.Ok? && o.world.slots == w.slots && Wakes(w.waits, o.world.waits, ChosenSet(w.waits, Waiters(w, key), count, mask))
  {
    hide Futex.Inv, WaitQueues.Inv, WakeMask, IsChosen, Wakes;
    WaitsInv(w);
    FindIs(w.slots, key, 0);
    var k := Find(w.slots, key, 0);
    if k < |w.slots| {
      WakeMaskExact(w.waits, k + 1, count, mask);
    } else {
      assert ChosenSet(w.waits, [], count, mask) == {};
      WakesNone(w.waits);
    }
  }

  lemma WakesNone(s: Waits)
    ensures Wakes(s, s, {})
  {
    assert SetOf([]) == {};
    forall p ensures Kept(Q(s, p), {}) == Q(s, p) { KeptAll(Q(s, p)); }
  }

  /** futex_requeue that has nothing to move, or no slot to move it to, is a plain wake. */
  lemma RequeuePlain(w: World, from: Key, to: Key, wake: nat, requeue: nat)
    requires Futex.Inv(w)
    requires requeue == 0 || NoSlotFor(w, to) || forall k: nat | k < |w.slots| :: !(w.slots[k].active && w.slots[k].key == from)
    ensures RequeueKeys(w, from, to, wake, requeue) == WakeKey(w, from, wake, AllBits())
  {
    hide Futex.Inv, WaitQueues.Inv, WakeMask, Requeue, Settle, GetSlots;
    FindIs(w.slots, from, 0);
    FindIs(w.slots, to, 0);
    UnusedIs(w.slots, 0);
  }

  /** Every slot is in use, and none for this key. */
  predicate NoSlotFor(w: World, key: Key) {
    forall k: nat | k < |w.slots| :: w.slots[k].active && w.slots[k].key != key
  }

  /** futex_wait takes the key's slot, sets one up, or does nothing exactly when there is none. */
  lemma EnterExact(w: World, t: Tid, key: Key, bits: set<nat>)
    requires Futex.Inv(w) && Awake(w, t) && w.waits.threads[t].holds == 0 && bits * AllBits() != {}
    ensures var r := Enter(w, t, key, bits);
      if NoSlotFor(w, key) then r == w
      else
        var h := r.waits.threads[t].holds;
        && 0 < h <= |w.slots| == |r.slots| && r.slots[h - 1] == Slot(key, true, w.slots[h - 1].waiters + 1)
        && (w.slots[h - 1].active ==> w.slots[h - 1].key == key)
        && (forall k | 0 <= k < |w.slots| && k != h - 1 :: r.slots[k] == w.slots[k])
        && r.waits == w.waits.(threads := w.waits.threads[t := w.waits.threads[t].(holds := h, bits := bits)])
  {
    hide Futex.Inv, WaitQueues.Inv;
    GetKeeps(w, key);
    FindIs(w.slots, key, 0);
    UnusedIs(w.slots, 0);
  }

  /** The end of a wait: one waiter less, and the slot is free again exactly with the last. */
  lemma PutExact(w: World, t: Tid)
    requires Futex.Inv(w) && Awake(w, t) && w.waits.threads[t].holds != 0
    ensures w.waits.threads[t].holds <= |w.slots| && Put(w, t).Ok?
    ensures var r, k := Put(w, t).world, w.waits.threads[t].holds - 1;
      && |r.slots| == |w.slots| && r.slots[k].waiters == w.slots[k].waiters - 1 && (r.slots[k].active <==> w.slots[k].waiters > 1)
      && (r.slots[k].active ==> r.slots[k].key == w.slots[k].key)
      && (forall j | 0 <= j < |w.slots| && j != k :: r.slots[j] == w.slots[j])
      && r.waits.threads.Keys == w.waits.threads.Keys && r.waits.threads[t].holds == 0
      && (forall u | u in w.waits.threads && u != t :: r.waits.threads[u] == w.waits.threads[u])
  {
    PutKeeps(w, t);
    hide Futex.Inv;
  }
}
