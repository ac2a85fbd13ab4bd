/** What Good_ does to entries and slots (src/addrman.cpp:154-249). */
module AddrManPromotion {
  import opened AddrManState
  import opened AddrManInvariant
  import opened AddrManOps
  import opened AddrManEffects

  /** Who holds a new slot once `id` has left all its slots. */
  function WithoutId(s: State, id: int, slot: Slot): int {
    if At(s.newTable, slot) == id then EMPTY else At(s.newTable, slot)
  }

  /** From `s` to `t`, with `id` taken out of the new table, the entry `prior` goes back from the
      tried table to the new slot `slot`, its only reference; whoever is there loses that
      reference and is gone if and only if it was the last one. Nothing else changes in the new
      table and the other entries. */
  ghost predicate WentBack(s: State, t: State, id: int, prior: int, slot: Slot)
    requires prior in s.infos
  {
    var there := WithoutId(s, id, slot);
    && prior in t.infos && Kept(s.infos[prior].(inTried := false, refCount := 1), t.infos[prior])
    && At(t.newTable, slot) == prior
    && (forall other: Slot :: other != slot ==> At(t.newTable, other) == WithoutId(s, id, other))
    && (forall x :: x in s.infos && x != id && x != prior && x != there ==>
          x in t.infos && Kept(s.infos[x], t.infos[x]))
    && (forall x :: x in t.infos ==> x in s.infos)
    && (there in s.infos ==>
          && (there in t.infos <==> s.infos[there].refCount > 1)
          && (there in t.infos ==>
                Kept(s.infos[there].(refCount := s.infos[there].refCount - 1), t.infos[there])))
  }

  /** Nothing changes in the new table but for `id` leaving it, nor in the other entries. */
  ghost predicate NothingElse(s: State, t: State, id: int) {
    && (forall slot: Slot :: At(t.newTable, slot) == WithoutId(s, id, slot))
    && (forall x :: x in t.infos <==> x in s.infos)
    && (forall x :: x in s.infos && x != id ==> x in t.infos && Kept(s.infos[x], t.infos[x]))
  }

  /** The entry `id`, now as in `i`, is in the tried slot its address hashes to and nowhere else;
      an entry that was there has gone back to the new slot of its own address and source. */
  ghost predicate Promoted(s: State, t: State, id: int, i: Info) {
    var slot := TriedSlot(s.h, s.key, i.service);
    var prior := At(s.triedTable, slot);
    && id in t.infos && Kept(i.(refCount := 0, inTried := true), t.infos[id])
    && At(t.triedTable, slot) == id
    && (forall other: Slot :: other != slot ==> At(t.triedTable, other) == At(s.triedTable, other))
    && (if prior in s.infos then WentBack(s, t, id, prior, SlotFor(s, s.infos[prior].service, s.infos[prior].source))
        else NothingElse(s, t, id))
  }

  // ---- The stages ----

  lemma LeaveNewEffect(s: State, id: int)
    requires NewSlotsOk(s) && RefCountsOk(s, {}) && id in s.infos
    ensures var t := LeaveNew(s, id);
      && (forall slot: Slot :: At(t.newTable, slot) == WithoutId(s, id, slot))
      && t.infos == s.infos[id := s.infos[id].(refCount := 0)]
      && t.triedTable == s.triedTable && t.h == s.h && t.key == s.key
  {
    var t := LeaveNew(s, id);
    forall slot: Slot ensures At(t.newTable, slot) == WithoutId(s, id, slot) {
      if At(s.newTable, slot) == id {
        HeldByBucket(s, slot);
      }
    }
  }

  lemma LeaveTriedEffect(s: State, slot: Slot)
    requires At(s.triedTable, slot) in s.infos
    ensures var t := LeaveTried(s, slot); var prior := At(s.triedTable, slot);
      && t.infos == s.infos[prior := s.infos[prior].(inTried := false)]
      && t.newTable == s.newTable && t.h == s.h && t.key == s.key
      && (forall other: Slot :: At(t.triedTable, other) == if other == slot then EMPTY else At(s.triedTable, other))
  {
  }

  /** Entering a new slot just emptied. */
  lemma EnterNewEffect(s: State, u: State, prior: int, slot: Slot)
    requires Displaced(s, u, slot, prior) && prior in s.infos && prior in u.infos
    requires Kept(s.infos[prior], u.infos[prior])
    ensures var t := EnterNew(u, prior, slot);
      && Displaced(s, t, slot, prior) && At(t.newTable, slot) == prior
      && prior in t.infos && Kept(s.infos[prior].(refCount := 1), t.infos[prior])
  {
  }

  /** An eviction. */
  lemma EvictEffect(s: State, slot: Slot, pending: set<int>)
    requires Linked(s, pending) && At(s.triedTable, slot) != EMPTY
    ensures var t := Evict(s, slot, pending); var prior := At(s.triedTable, slot);
      var l := LeaveTried(s, slot); var nslot := SlotFor(s, s.infos[prior].service, s.infos[prior].source);
      && Displaced(l, t, nslot, prior) && At(t.newTable, nslot) == prior
      && prior in t.infos && Kept(l.infos[prior].(refCount := 1), t.infos[prior])
  {
    var prior := At(s.triedTable, slot);
    var i := s.infos[prior];
    var l := LeaveTried(s, slot);
    var nslot := SlotFor(s, i.service, i.source);
    assert Retabled(s, l, prior, slot, false);
    RetabledKeeps(s, l, prior, slot, false, pending);
    PendingHasNoSlot(l, prior, pending + {prior}, nslot);
    assert EMPTY !in l.infos;
    if At(l.newTable, nslot) != EMPTY {
      OccupantIsReferenced(l, nslot, pending + {prior});
    }
    ClearNewEffect(l, nslot, prior);
    ClearNewSpares(l, nslot, prior);
    EnterNewEffect(l, ClearNew(l, nslot), prior, nslot);
  }

  lemma EnterTriedEffect(s: State, u: State, id: int, i: Info, slot: Slot)
    requires id in u.infos && Kept(i.(refCount := 0), u.infos[id])
    ensures var t := EnterTried(u, id, slot);
      && t.infos == u.infos[id := t.infos[id]] && Kept(i.(refCount := 0, inTried := true), t.infos[id])
      && t.newTable == u.newTable && At(t.triedTable, slot) == id
      && (forall other: Slot :: other != slot ==> At(t.triedTable, other) == At(u.triedTable, other))
  {
  }

  /** With the tried slot free. */
  lemma PromotedAtOnce(s: State, u: State, id: int, slot: Slot)
    requires id in s.infos && slot == TriedSlot(s.h, s.key, s.infos[id].service)
    requires At(s.triedTable, slot) == EMPTY && EMPTY !in s.infos && u.triedTable == s.triedTable
    requires forall other: Slot :: At(u.newTable, other) == WithoutId(s, id, other)
    requires u.infos == s.infos[id := s.infos[id].(refCount := 0)]
    ensures Promoted(s, EnterTried(u, id, slot), id, s.infos[id])
  {
    EnterTriedEffect(s, u, id, s.infos[id], slot);
  }

  /** With the tried slot taken: the eviction as seen from before the entry left its new slots. */
  lemma EvictedFrom(s: State, s1: State, l: State, u: State, id: int, prior: int, nslot: Slot)
    requires id in s.infos && prior in s.infos && id != prior && EMPTY !in s.infos
    requires s1.infos == s.infos[id := s.infos[id].(refCount := 0)] && WithoutId(s, id, nslot) != prior
    requires forall slot: Slot :: At(s1.newTable, slot) == WithoutId(s, id, slot)
    requires l.infos == s1.infos[prior := s1.infos[prior].(inTried := false)] && l.newTable == s1.newTable
    requires Displaced(l, u, nslot, prior) && At(u.newTable, nslot) == prior
    requires prior in u.infos && Kept(l.infos[prior].(refCount := 1), u.infos[prior])
    ensures WentBack(s, u, id, prior, nslot)
    ensures id in u.infos && Kept(s.infos[id].(refCount := 0), u.infos[id])
  {
    var there := WithoutId(s, id, nslot);
    assert there == At(l.newTable, nslot) && there != id;
    assert l.infos[id] == s1.infos[id];
    if there in s.infos && there != prior {
      assert l.infos[there] == s.infos[there];
    }
    forall x | x in s.infos && x != id && x != prior && x != there
      ensures x in u.infos && Kept(s.infos[x], u.infos[x])
    {
      assert l.infos[x] == s.infos[x];
    }
  }

  lemma WentBackThenTried(s: State, u: State, t: State, id: int, prior: int, nslot: Slot)
    requires prior in s.infos && id != prior && WithoutId(s, id, nslot) != id && WentBack(s, u, id, prior, nslot)
    requires id in u.infos && id in t.infos && t.infos == u.infos[id := t.infos[id]] && t.newTable == u.newTable
    ensures WentBack(s, t, id, prior, nslot)
  {
  }

  lemma MakeTriedEffect(s: State, id: int)
    requires Consistent(s) && id in s.infos && !s.infos[id].inTried
    ensures Promoted(s, MakeTried(s, id), id, s.infos[id])
  {
    var slot := TriedSlot(s.h, s.key, s.infos[id].service);
    var s1 := LeaveNew(s, id);
    LeaveNewCounted(s, id);
    LeaveNewEffect(s, id);
    var prior := At(s.triedTable, slot);
    assert EMPTY !in s.infos;
    if prior == EMPTY {
      PromotedAtOnce(s, s1, id, slot);
    } else {
      LeaveNewReady(s, id);
      EvictEffect(s1, slot, {id});
      assert prior in s.infos && s.infos[prior].inTried && s1.infos[prior] == s.infos[prior];
      PromotedOver(s, s1, Evict(s1, slot, {id}), id, prior, slot);
    }
  }

  lemma PromotedOver(s: State, s1: State, u: State, id: int, prior: int, slot: Slot)
    requires id in s.infos && slot == TriedSlot(s.h, s.key, s.infos[id].service) && NewSlotsOk(s)
    requires prior in s.infos && s.infos[prior].inTried && id != prior && EMPTY !in s.infos
    requires prior == At(s.triedTable, slot)
    requires s1.infos == s.infos[id := s.infos[id].(refCount := 0)]
    requires forall other: Slot :: At(s1.newTable, other) == WithoutId(s, id, other)
    requires s1.triedTable == s.triedTable && s1.h == s.h && s1.key == s.key
    requires var l := LeaveTried(s1, slot); var nslot := SlotFor(s, s.infos[prior].service, s.infos[prior].source);
      && Displaced(l, u, nslot, prior) && At(u.newTable, nslot) == prior
      && prior in u.infos && Kept(l.infos[prior].(refCount := 1), u.infos[prior])
    ensures id in u.infos && Promoted(s, EnterTried(u, id, slot), id, s.infos[id])
  {
    var nslot := SlotFor(s, s.infos[prior].service, s.infos[prior].source);
    LeaveTriedEffect(s1, slot);
    assert At(s.newTable, nslot) != prior;
    EvictedFrom(s, s1, LeaveTried(s1, slot), u, id, prior, nslot);
    EnterTriedEffect(s, u, id, s.infos[id], slot);
    WentBackThenTried(s, u, EnterTried(u, id, slot), id, prior, nslot);
  }

  // ---- Good_ ----

  /** Marking a known service good sets its times and attempts. If it was untried, it moves to its
      tried slot and whoever is there goes back to the new table; nothing else changes. */
  lemma GoodEffect(s: State, svc: Service, time: int)
    requires Consistent(s)
    ensures var t := Good(s, svc, time);
      if svc.ip in s.idOf && s.infos[s.idOf[svc.ip]].service == svc then
        var id := s.idOf[svc.ip];
        var i := s.infos[id].(lastSuccess := time, lastTry := time, attempts := 0);
        if i.inTried then t == s.(infos := s.infos[id := i]) else Promoted(s, t, id, i)
      else t == s
  {
    if Known(s, svc) {
      var id := s.idOf[svc.ip];
      var s1 := Succeeded(s, id, time);
      GoodCases(s, svc, time);
      if !s1.infos[id].inTried {
        TouchConsistent(s, id, s1.infos[id]);
        UntriedIsHeld(s1, id);
        MakeTriedEffect(s1, id);
        PromotedTouched(s, s1, MakeTried(s1, id), id);
      }
    }
  }

  lemma PromotedTouched(s: State, s1: State, t: State, id: int)
    requires TriedSlotsOk(s) && id in s.infos && !s.infos[id].inTried
    requires id in s1.infos && s1 == Touch(s, id, s1.infos[id])
    requires Promoted(s1, t, id, s1.infos[id]) && s1.infos[id].service == s.infos[id].service
    ensures Promoted(s, t, id, s1.infos[id])
  {
    var slot := TriedSlot(s.h, s.key, s.infos[id].service);
    var prior := At(s.triedTable, slot);
    if prior in s.infos {
      assert prior != EMPTY ==> s.infos[prior].inTried;
    }
  }
}
