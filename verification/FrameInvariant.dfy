// What every operation on the frame store keeps: reference counts are exact, the
// pool and the quota counter agree with the live frames, and every frame that is
// gone was handed back exactly once.
module FrameInvariant {
  import opened SmallHeap
  import opened FrameStore

  // ----- Counting over the frames of a store -----

  datatype Measure = RefsTo(p: Ptr) | UnkeptOf(r: nat) | OccupantsOf(r: nat, slot: nat)

  // What one frame contributes. A frame whose count has reached zero is on its way
  // out: its slots are being released and no longer count as references.
  function Weigh(m: Measure, f: Frame): nat {
    match m
    case RefsTo(p) => if f.live && f.refCount > 0 then multiset(f.slots)[p] else 0
    case UnkeptOf(r) => if f.live && f.owner == r && !f.kept then 1 else 0
    case OccupantsOf(r, slot) => if f.live && f.owner == r && f.place == InPool(slot) then 1 else 0
  }

  function Total(m: Measure, fs: seq<Frame>): nat {
    if fs == [] then 0 else Total(m, fs[..|fs| - 1]) + Weigh(m, fs[|fs| - 1])
  }

  lemma {:induction false} TotalUpdate(m: Measure, fs: seq<Frame>, i: nat, f: Frame)
    requires i < |fs|
    ensures Total(m, fs[i := f]) == Total(m, fs) - Weigh(m, fs[i]) + Weigh(m, f)
  {
    var n := |fs| - 1;
    if i == n {
      assert fs[i := f][..n] == fs[..n];
    } else {
      assert fs[i := f][..n] == fs[..n][i := f];
      TotalUpdate(m, fs[..n], i, f);
    }
  }

  lemma UpdateTotals(fs: seq<Frame>, i: nat, f: Frame)
    requires i < |fs|
    ensures forall m :: Total(m, fs[i := f]) == Total(m, fs) - Weigh(m, fs[i]) + Weigh(m, f)
  {
    forall m ensures Total(m, fs[i := f]) == Total(m, fs) - Weigh(m, fs[i]) + Weigh(m, f) {
      TotalUpdate(m, fs, i, f);
    }
  }

  lemma AppendTotals(fs: seq<Frame>, f: Frame)
    ensures forall m :: Total(m, fs + [f]) == Total(m, fs) + Weigh(m, f)
  {
    assert (fs + [f])[..|fs|] == fs;
  }

  lemma {:induction false} TotalPositive(m: Measure, fs: seq<Frame>) returns (i: nat)
    requires Total(m, fs) > 0
    ensures i < |fs| && Weigh(m, fs[i]) > 0
  {
    var n := |fs| - 1;
    if Weigh(m, fs[n]) > 0 { i := n; } else { i := TotalPositive(m, fs[..n]); }
  }

  lemma {:induction false} TotalAtLeast(m: Measure, fs: seq<Frame>, i: nat)
    requires i < |fs|
    ensures Total(m, fs) >= Weigh(m, fs[i])
  {
    if i < |fs| - 1 { TotalAtLeast(m, fs[..|fs| - 1], i); }
  }

  // ----- The invariant -----

  // References to frame `id`: holders outside the store plus slots of composites.
  function References(s: Store, held: multiset<Ptr>, id: nat): nat {
    held[To(id)] + Total(RefsTo(To(id)), s.frames)
  }

  function CountOf(s: Store, id: nat): int {
    if s.IsLive(id) then s.frames[id].refCount else 0
  }

  ghost predicate CountsExact(s: Store, held: multiset<Ptr>) {
    forall id: nat :: References(s, held, id) == CountOf(s, id)
  }

  // Slots point to older frames, owners exist, and the fixed mark tells where a
  // frame is stored.
  ghost predicate WellFormed(s: Store, id: nat)
    requires id < |s.frames|
  {
    var f := s.frames[id];
    && f.owner < |s.archives|
    && (f.fixed <==> f.place.InPool?)
    && (f.place.InPool? ==> f.place.slot < USER_QUEUE_SIZE)
    && (forall p :: p in f.slots ==> p.To? && p.id < id)
  }

  ghost predicate PoolExact(s: Store, r: nat)
    requires r < |s.archives|
  {
    var pool := s.archives[r].pool;
    && |pool.free| == USER_QUEUE_SIZE
    && pool.Consistent()
    && forall slot :: 0 <= slot < USER_QUEUE_SIZE ==>
         Total(OccupantsOf(r, slot), s.frames) == if pool.free[slot] then 0 else 1
  }

  ghost predicate QuotaExact(s: Store, r: nat)
    requires r < |s.archives|
  {
    s.archives[r].published == Total(UnkeptOf(r), s.frames) % UINT32_RANGE
  }

  // Every frame that is no longer live was handed back once; no other was.
  ghost predicate ReturnedOnce(s: Store) {
    forall id: nat :: multiset(s.returned)[id] == if id < |s.frames| && !s.frames[id].live then 1 else 0
  }

  ghost predicate Inv(s: Store, held: multiset<Ptr>) {
    && !s.fault
    && CountsExact(s, held)
    && (forall id :: 0 <= id < |s.frames| ==> WellFormed(s, id))
    && (forall r :: 0 <= r < |s.archives| ==> PoolExact(s, r) && QuotaExact(s, r))
    && ReturnedOnce(s)
  }

  // Between operations no frame is on its way out.
  ghost predicate Quiet(s: Store) {
    forall id :: 0 <= id < |s.frames| && s.frames[id].live ==> s.frames[id].refCount > 0
  }

  // ----- Elementary steps -----

  // One frame changed from `f` to `f'`, and the holders with it so that the books balance.
  ghost predicate Balances(f: Frame, f': Frame, id: nat, held: multiset<Ptr>, held': multiset<Ptr>) {
    forall q: nat ::
      held'[To(q)] + Weigh(RefsTo(To(q)), f') - (if q == id && f'.live then f'.refCount else 0)
      == held[To(q)] + Weigh(RefsTo(To(q)), f) - (if q == id && f.live then f.refCount else 0)
  }

  lemma CountsAfterUpdate(s: Store, held: multiset<Ptr>, id: nat, s': Store, held': multiset<Ptr>)
    requires CountsExact(s, held) && id < |s.frames| == |s'.frames|
    requires s'.frames == s.frames[id := s'.frames[id]]
    requires Balances(s.frames[id], s'.frames[id], id, held, held')
    ensures CountsExact(s', held')
  {
    forall q: nat ensures References(s', held', q) == CountOf(s', q) {
      TotalUpdate(RefsTo(To(q)), s.frames, id, s'.frames[id]);
      assert References(s, held, q) == CountOf(s, q);
    }
  }

  lemma ArchivesAfterUpdate(s: Store, id: nat, s': Store)
    requires forall r :: 0 <= r < |s.archives| ==> PoolExact(s, r) && QuotaExact(s, r)
    requires id < |s.frames| == |s'.frames| && s'.frames == s.frames[id := s'.frames[id]]
    requires s'.archives == s.archives
    requires forall r, slot :: Weigh(OccupantsOf(r, slot), s'.frames[id]) == Weigh(OccupantsOf(r, slot), s.frames[id])
    requires forall r :: Weigh(UnkeptOf(r), s'.frames[id]) == Weigh(UnkeptOf(r), s.frames[id])
    ensures forall r :: 0 <= r < |s'.archives| ==> PoolExact(s', r) && QuotaExact(s', r)
  {
    UpdateTotals(s.frames, id, s'.frames[id]);
    forall r | 0 <= r < |s'.archives| ensures PoolExact(s', r) && QuotaExact(s', r) {
      assert PoolExact(s, r) && QuotaExact(s, r);
    }
  }

  // The invariant survives a change of one frame that keeps where it lives.
  lemma UpdateKeepsInv(s: Store, held: multiset<Ptr>, id: nat, f: Frame, held': multiset<Ptr>)
    requires Inv(s, held) && s.IsLive(id)
    requires f.live && f.owner == s.frames[id].owner && f.kept == s.frames[id].kept
    requires f.place == s.frames[id].place && f.fixed == s.frames[id].fixed
    requires forall p :: p in f.slots ==> p.To? && p.id < id
    requires Balances(s.frames[id], f, id, held, held')
    ensures Inv(s.SetFrame(id, f), held')
  {
    var s' := s.SetFrame(id, f);
    CountsAfterUpdate(s, held, id, s', held');
    ArchivesAfterUpdate(s, id, s');
    forall i | 0 <= i < |s'.frames| ensures WellFormed(s', i) {
      assert WellFormed(s, i);
    }
    assert ReturnedOnce(s');
  }

  // A change of `refCount` and of the holders that balance.
  lemma RecountKeepsInv(s: Store, held: multiset<Ptr>, id: nat, count: int, held': multiset<Ptr>)
    requires Inv(s, held) && s.IsLive(id)
    requires Balances(s.frames[id], s.frames[id].(refCount := count), id, held, held')
    ensures Inv(s.SetFrame(id, s.frames[id].(refCount := count)), held')
  {
    assert WellFormed(s, id);
    UpdateKeepsInv(s, held, id, s.frames[id].(refCount := count), held');
  }

  // The wrapping counter goes down with the total it counts.
  lemma CountDown(total: nat)
    requires total > 0
    ensures (total % UINT32_RANGE + UINT32_RANGE - 1) % UINT32_RANGE == (total - 1) % UINT32_RANGE
  {
  }

  lemma KeepKeepsArchives(s: Store, id: nat)
    requires forall r :: 0 <= r < |s.archives| ==> PoolExact(s, r) && QuotaExact(s, r)
    requires s.IsLive(id) && WellFormed(s, id) && !s.frames[id].kept
    ensures var s' := s.Keep(id);
            && |s'.archives| == |s.archives|
            && forall r :: 0 <= r < |s'.archives| ==> PoolExact(s', r) && QuotaExact(s', r)
  {
    var f := s.frames[id];
    var s' := s.Keep(id);
    UpdateTotals(s.frames, id, f.(kept := true));
    TotalAtLeast(UnkeptOf(f.owner), s.frames, id);
    CountDown(Total(UnkeptOf(f.owner), s.frames));
    forall r | 0 <= r < |s'.archives| ensures PoolExact(s', r) && QuotaExact(s', r) {
      assert PoolExact(s, r) && QuotaExact(s, r);
    }
  }

  lemma KeepKeepsInv(s: Store, held: multiset<Ptr>, id: nat)
    requires Inv(s, held) && s.IsLive(id)
    ensures Inv(s.Keep(id), held)
    ensures s.Keep(id).frames == s.frames[id := s.frames[id].(kept := true)]
  {
    var f := s.frames[id];
    if f.kept {
      assert s.frames[id := f.(kept := true)] == s.frames;
    } else {
      var s' := s.Keep(id);
      assert WellFormed(s, id);
      CountsAfterUpdate(s, held, id, s', held);
      KeepKeepsArchives(s, id);
      forall i | 0 <= i < |s'.frames| ensures WellFormed(s', i) {
        assert WellFormed(s, i);
      }
      assert ReturnedOnce(s');
    }
  }

  lemma GiveBackKeepsInv(s: Store, held: multiset<Ptr>, id: nat)
    requires Inv(s, held) && s.IsLive(id) && s.frames[id].kept && s.frames[id].refCount == 0
    ensures Inv(s.GiveBack(id), held)
    ensures s.GiveBack(id).frames == s.frames[id := s.frames[id].(live := false)]
    ensures s.GiveBack(id).returned == s.returned + [id]
  {
    var s' := s.GiveBack(id);
    assert WellFormed(s, id);
    GiveBackKeepsArchives(s, id);
    CountsAfterUpdate(s, held, id, s', held);
    forall i | 0 <= i < |s'.frames| ensures WellFormed(s', i) {
      assert WellFormed(s, i);
    }
    assert ReturnedOnce(s');
  }

  lemma GiveBackKeepsArchives(s: Store, id: nat)
    requires forall r :: 0 <= r < |s.archives| ==> PoolExact(s, r) && QuotaExact(s, r)
    requires s.IsLive(id) && WellFormed(s, id) && s.frames[id].kept
    ensures var s' := s.GiveBack(id);
            && s'.fault == s.fault
            && s'.frames == s.frames[id := s.frames[id].(live := false)]
            && s'.returned == s.returned + [id]
            && |s'.archives| == |s.archives|
            && forall r :: 0 <= r < |s'.archives| ==> PoolExact(s', r) && QuotaExact(s', r)
  {
    var f := s.frames[id];
    assert PoolExact(s, f.owner);
    UpdateTotals(s.frames, id, f.(live := false));
    if f.fixed {
      TotalAtLeast(OccupantsOf(f.owner, f.place.slot), s.frames, id);
      DeallocateIsSound(s.archives[f.owner].pool, f.place.slot);
    }
    var s' := s.GiveBack(id);
    forall r | 0 <= r < |s'.archives| ensures PoolExact(s', r) && QuotaExact(s', r) {
      assert PoolExact(s, r) && QuotaExact(s, r);
    }
  }

  // ----- The release cascade -----

  // What a cascade below `bound` may change: counts, kept marks and liveness of
  // older frames. A frame that survives keeps its marks and a positive count.
  ghost predicate Settles(s: Store, s': Store, bound: nat) {
    && |s'.frames| == |s.frames|
    && |s'.archives| == |s.archives|
    && (forall r :: 0 <= r < |s.archives| ==> s'.archives[r].maximum == s.archives[r].maximum
                                              && s'.archives[r].composite == s.archives[r].composite)
    && forall q :: 0 <= q < |s.frames| ==> SettlesAt(s.frames[q], s'.frames[q], q < bound)
  }

  ghost predicate SettlesAt(f: Frame, f': Frame, below: bool) {
    && f' == f.(refCount := f'.refCount, kept := f'.kept, live := f'.live)
    && (f'.live ==> f.live && f'.kept == f.kept)
    && (f'.live && f'.refCount <= 0 ==> f.refCount <= 0)
    && (!below ==> f' == f)
  }

  lemma HeldIsLive(s: Store, held: multiset<Ptr>, id: nat)
    requires Inv(s, held) && held[To(id)] > 0
    ensures s.IsLive(id) && s.frames[id].refCount >= held[To(id)]
  {
    assert References(s, held, id) == CountOf(s, id);
  }

  // The composite itself goes back once its slots are released.
  lemma UnpublishKeepsInv(s: Store, held: multiset<Ptr>, id: nat)
    requires Inv(s, held) && s.IsLive(id) && s.frames[id].refCount == 0
    ensures Inv(s.Unpublish(id), held)
    ensures s.Unpublish(id).frames == s.frames[id := s.frames[id].(kept := true, live := false)]
    ensures s.Unpublish(id).returned == s.returned + [id]
    ensures Settles(s, s.Unpublish(id), id + 1)
  {
    KeepKeepsInv(s, held, id);
    GiveBackKeepsInv(s.Keep(id), held, id);
  }

  // Dropping one reference keeps the invariant, however deep the cascade goes.
  lemma {:induction false} ReleaseKeepsInv(s: Store, held: multiset<Ptr>, id: nat)
    requires Inv(s, held + multiset{To(id)})
    ensures Inv(s.Release(id), held)
    ensures Settles(s, s.Release(id), id + 1)
    decreases id, 1, 0
  {
    HeldIsLive(s, held + multiset{To(id)}, id);
    var f := s.frames[id];
    assert WellFormed(s, id);
    var s1 := s.SetFrame(id, f.(refCount := f.refCount - 1));
    if f.refCount != 1 {
      RecountKeepsInv(s, held + multiset{To(id)}, id, f.refCount - 1, held);
    } else {
      RecountKeepsInv(s, held + multiset{To(id)}, id, 0, held + multiset(f.slots));
      ReleaseSlotsKeepsInv(s1, held, id, f.slots);
      var s2 := s1.ReleaseSlots(id, f.slots);
      assert SettlesAt(s1.frames[id], s2.frames[id], false);
      UnpublishKeepsInv(s2, held, id);
      SettlesThrough(s, s1, s2, s2.Unpublish(id), id);
    }
  }

  lemma SettlesThrough(s: Store, s1: Store, s2: Store, s3: Store, id: nat)
    requires s.IsLive(id) && s1 == s.SetFrame(id, s.frames[id].(refCount := 0))
    requires Settles(s1, s2, id) && Settles(s2, s3, id + 1)
    requires !s3.IsLive(id)
    ensures Settles(s, s3, id + 1)
  {
    forall q | 0 <= q < |s.frames| ensures SettlesAt(s.frames[q], s3.frames[q], q < id + 1) {
      assert SettlesAt(s1.frames[q], s2.frames[q], q < id);
      assert SettlesAt(s2.frames[q], s3.frames[q], q < id + 1);
    }
  }

  lemma {:induction false} ReleaseSlotsKeepsInv(s: Store, held: multiset<Ptr>, bound: nat, slots: seq<Ptr>)
    requires Inv(s, held + multiset(slots))
    requires forall p :: p in slots ==> p.To? && p.id < bound
    ensures Inv(s.ReleaseSlots(bound, slots), held)
    ensures Settles(s, s.ReleaseSlots(bound, slots), bound)
    decreases bound, 0, |slots|
  {
    if slots == [] {
      assert held + multiset(slots) == held;
    } else {
      var rest := slots[1..];
      assert slots == [slots[0]] + rest;
      assert held + multiset(slots) == (held + multiset(rest)) + multiset{slots[0]};
      var c := slots[0].id;
      ReleaseKeepsInv(s, held + multiset(rest), c);
      var s1 := s.Release(c);
      ReleaseSlotsKeepsInv(s1, held, bound, rest);
      var s2 := s1.ReleaseSlots(bound, rest);
      forall q | 0 <= q < |s.frames| ensures SettlesAt(s.frames[q], s2.frames[q], q < bound) {
        assert SettlesAt(s.frames[q], s1.frames[q], q < c + 1);
        assert SettlesAt(s1.frames[q], s2.frames[q], q < bound);
      }
    }
  }

  lemma SettlesKeepsQuiet(s: Store, s': Store, bound: nat)
    requires Quiet(s) && Settles(s, s', bound)
    ensures Quiet(s')
  {
    forall q | 0 <= q < |s'.frames| && s'.frames[q].live ensures s'.frames[q].refCount > 0 {
      assert SettlesAt(s.frames[q], s'.frames[q], q < bound);
    }
  }
}
