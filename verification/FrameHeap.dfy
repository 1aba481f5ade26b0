// The frame code as it runs: objects whose fields are updated in place. Each
// method is tied to the function on store values that describes it, under the
// ownership discipline that keeps memory sound.
module FrameHeap {
  import opened Prelude
  import opened FrameStore
  import opened FrameInvariant
  import opened FrameOwnership

  // The stages a release passes through, and what holds at each.
  lemma ReleaseUnfolds(s: Store, held: multiset<Ptr>, id: nat)
    requires Inv(s, held + multiset{To(id)})
    ensures s.IsLive(id) && Inv(s.Release(id), held)
    ensures var f := s.frames[id];
            var s1 := s.SetFrame(id, f.(refCount := f.refCount - 1));
            if f.refCount != 1 then s.Release(id) == s1
            else
              var s2 := s1.ReleaseSlots(id, f.slots);
              && Inv(s1, held + multiset(f.slots))
              && (forall p :: p in f.slots ==> p.To? && p.id < id)
              && Inv(s2, held) && s2.IsLive(id) && s2.frames[id].refCount == 0
              && s.Release(id) == s2.Unpublish(id)
  {
    HeldIsLive(s, held + multiset{To(id)}, id);
    assert WellFormed(s, id);
    ReleaseKeepsInv(s, held, id);
    var f := s.frames[id];
    if f.refCount == 1 {
      var s1 := s.SetFrame(id, f.(refCount := 0));
      RecountKeepsInv(s, held + multiset{To(id)}, id, 0, held + multiset(f.slots));
      ReleaseSlotsKeepsInv(s1, held, id, f.slots);
      assert SettlesAt(s1.frames[id], s1.ReleaseSlots(id, f.slots).frames[id], false);
    }
  }

  // One round of the loop that clones a vector of holders.
  lemma CloneStep(s: Store, held: multiset<Ptr>, ps: seq<Ptr>, i: nat)
    requires i < |ps| && multiset(ps) <= held && Sound(s, held + multiset(ps[..i]))
    ensures ps[i].To? ==> s.IsLive(ps[i].id)
    ensures Sound(s.Clone(ps[i]), held + multiset(ps[..i + 1]))
    ensures CloneAll(s.Clone(ps[i]), ps[i + 1..]) == CloneAll(s, ps[i..])
  {
    assert ps[i] in multiset(ps);
    if ps[i].To? { HeldIsLive(s, held + multiset(ps[..i]), ps[i].id); }
    CloneKeepsSound(s, held + multiset(ps[..i]), ps[i]);
    assert ps[..i + 1] == ps[..i] + [ps[i]];
    assert held + multiset(ps[..i]) + multiset{ps[i]} == held + multiset(ps[..i + 1]);
    assert ps[i..][1..] == ps[i + 1..];
  }

  // All frames and archives of a process. `held` in the contracts below stands for
  // every reference other than the one the call consumes.
  class Memory {
    var frames: seq<Frame>
    var archives: seq<Archive>
    ghost var returned: seq<nat>

    ghost function View(): Store
      reads this
    {
      Store(frames, archives, returned, false)
    }

    constructor (kinds: seq<(nat, bool)>)
      ensures View() == Initial(kinds) && Sound(View(), multiset{})
    {
      frames, returned := [], [];
      archives := seq(|kinds|, i requires 0 <= i < |kinds| => Archive(kinds[i].0, 0, kinds[i].1, FreshPool()));
      InitialIsSound(kinds);
    }

    method Acquire(id: nat, ghost held: multiset<Ptr>)
      requires Sound(View(), held) && View().IsLive(id)
      modifies this`frames
      ensures View() == old(View()).Acquire(id)
      ensures Sound(View(), held + multiset{To(id)})
    {
      CloneKeepsSound(View(), held, To(id));
      frames := frames[id := frames[id].(refCount := frames[id].refCount + 1)];
    }

    method Keep(id: nat, ghost held: multiset<Ptr>)
      requires Inv(View(), held) && View().IsLive(id)
      modifies this`frames, this`archives
      ensures View() == old(View()).Keep(id)
      ensures Inv(View(), held)
    {
      KeepKeepsInv(View(), held, id);
      assert WellFormed(View(), id);
      if !frames[id].kept {
        frames := frames[id := frames[id].(kept := true)];
        KeepFrame(frames[id].owner);
      }
    }

    method KeepFrame(r: nat)
      requires r < |archives|
      modifies this`archives
      ensures View() == old(View()).KeepFrame(r)
    {
      archives := archives[r := archives[r].(published := (archives[r].published + UINT32_RANGE - 1) % UINT32_RANGE)];
    }

    // unpublish_frame: keep, then back to the pool if the frame is marked fixed.
    method UnpublishFrame(id: nat, ghost held: multiset<Ptr>)
      requires Inv(View(), held) && View().IsLive(id) && frames[id].refCount == 0
      modifies this
      ensures View() == old(View()).Unpublish(id)
      ensures Inv(View(), held)
    {
      UnpublishKeepsInv(View(), held, id);
      assert WellFormed(View(), id);
      Keep(id, held);
      ghost var kept := View();
      assert WellFormed(kept, id) && PoolExact(kept, frames[id].owner);
      TotalAtLeast(if frames[id].fixed then OccupantsOf(frames[id].owner, frames[id].place.slot)
                   else UnkeptOf(0), frames, id);
      var f := frames[id];
      frames := frames[id := f.(live := false)];
      returned := returned + [id];
      if f.fixed {
        var pool := archives[f.owner].pool.Deallocate(f.place.slot);
        archives := archives[f.owner := archives[f.owner].(pool := pool.value)];
      }
    }

    // release of a plain or a composite frame: the caller that takes the count to
    // zero releases the slots one by one, then hands the frame back.
    method Release(id: nat, ghost held: multiset<Ptr>)
      requires Inv(View(), held + multiset{To(id)})
      modifies this
      ensures View() == old(View()).Release(id)
      ensures Inv(View(), held)
      decreases id, 1
    {
      ReleaseUnfolds(View(), held, id);
      var f := frames[id];
      frames := frames[id := f.(refCount := f.refCount - 1)];
      if f.refCount == 1 {
        ReleaseSlots(id, f.slots, held);
        UnpublishFrame(id, held);
      }
    }

    // The loop of the composite's release over its slot array.
    method ReleaseSlots(id: nat, slots: seq<Ptr>, ghost held: multiset<Ptr>)
      requires Inv(View(), held + multiset(slots))
      requires forall p :: p in slots ==> p.To? && p.id < id
      modifies this
      ensures View() == old(View()).ReleaseSlots(id, slots)
      ensures Inv(View(), held)
      decreases id, 0
    {
      var i := 0;
      while i < |slots|
        invariant 0 <= i <= |slots|
        invariant Inv(View(), held + multiset(slots[i..]))
        invariant View().ReleaseSlots(id, slots[i..]) == old(View()).ReleaseSlots(id, slots)
      {
        var p := slots[i];
        ghost var rest := slots[i + 1..];
        assert slots[i..] == [p] + rest;
        assert held + multiset(slots[i..]) == held + multiset(rest) + multiset{p};
        if p.To? {
          Release(p.id, held + multiset(rest));
        }
        i := i + 1;
      }
      assert held + multiset(slots[i..]) == held;
    }

    // alloc_and_track: the new frame if the quota allows one, with one reference.
    method AllocAndTrack(r: nat, meta: Meta, ghost held: multiset<Ptr>) returns (p: Ptr)
      requires Sound(View(), held) && r < |archives|
      modifies this`frames, this`archives
      ensures (View(), p) == old(View()).AllocAndTrack(r, meta)
      ensures Sound(View(), held + multiset{p})
    {
      AllocKeepsSound(View(), held, r, meta);
      p := PublishFrame(r, meta);
      if p.To? {
        frames := frames[p.id := frames[p.id].(refCount := frames[p.id].refCount + 1)];
        assert frames == old(View()).AllocAndTrack(r, meta).0.frames;
      }
    }

    method PublishFrame(r: nat, meta: Meta) returns (p: Ptr)
      requires r < |archives|
      modifies this`frames, this`archives
      ensures var (s, q) := old(View()).AllocAndTrack(r, meta);
              && p == q
              && View().archives == s.archives
              && (p.To? ==> p.id == old(|frames|) && s.frames == old(frames) + [s.frames[p.id]]
                            && View().frames == old(frames) + [s.frames[p.id].(refCount := 0)])
              && (p.Null? ==> View() == s)
    {
      var a := archives[r];
      if a.maximum > 0 && a.published >= a.maximum { return Null; }
      var slot: Option<nat> := None;
      var pool := a.pool;
      if a.maximum > 0 {
        var (pool', slot') := pool.Allocate();
        pool, slot := pool', slot';
      }
      var place := if slot.Some? then InPool(slot.value) else OnHeap;
      archives := archives[r := a.(published := (a.published + 1) % UINT32_RANGE, pool := pool)];
      p := To(|frames|);
      frames := frames + [Frame(true, 0, false, slot.Some?, place, r, a.composite, [], meta)];
    }

    // The setters of a frame's description.
    method Describe(id: nat, meta: Meta, ghost held: multiset<Ptr>)
      requires Sound(View(), held) && View().IsLive(id)
      modifies this`frames
      ensures View() == old(View()).SetMeta(id, meta)
      ensures Sound(View(), held)
    {
      SetMetaKeepsSound(View(), held, id, meta);
      frames := frames[id := frames[id].(meta := meta)];
    }

    // The holders are a by-value argument: they give up their references either way.
    method AllocateCompositeFrame(r: nat, holders: seq<Ptr>, meta: Meta, ghost held: multiset<Ptr>) returns (p: Ptr)
      requires Sound(View(), held + multiset(holders)) && r < |archives|
      requires View().Grants(r) ==> Null !in holders
      modifies this
      ensures (View(), p) == old(View()).Compose(r, holders, meta)
      ensures Sound(View(), held + multiset{p})
    {
      ComposeKeepsSound(View(), held, r, holders, meta);
      forall q | q in holders && q.To? ensures View().IsLive(q.id) {
        HeldIsLive(View(), held + multiset(holders), q.id);
      }
      AllocKeepsSound(View(), held + multiset(holders), r, meta.(blocking := false));
      ghost var before := View();
      p := AllocAndTrack(r, meta.(blocking := false), held + multiset(holders));
      if p.Null? {
        DestroyAll(holders, held);
        return;
      }
      MarkBlocking(p.id, holders);
      FillSlots(p.id, holders);
      assert frames == old(View()).Compose(r, holders, meta).0.frames;
    }

    // Marks the composite blocking if any of its parts is.
    method MarkBlocking(id: nat, holders: seq<Ptr>)
      requires id < |frames| && !frames[id].meta.blocking
      requires forall q :: q in holders ==> q.To? && q.id < id && frames[q.id].live
      modifies this`frames
      ensures frames == old(frames)[id := old(frames)[id].(meta := old(frames)[id].meta.(blocking :=
                          exists q :: q in holders && old(frames)[q.id].meta.blocking))]
    {
      var i := 0;
      while i < |holders|
        invariant 0 <= i <= |holders|
        invariant frames == old(frames)[id := old(frames)[id].(meta := old(frames)[id].meta.(blocking :=
                              exists q :: q in holders[..i] && old(frames)[q.id].meta.blocking))]
      {
        assert holders[..i + 1] == holders[..i] + [holders[i]];
        if frames[holders[i].id].meta.blocking {
          frames := frames[id := frames[id].(meta := frames[id].meta.(blocking := true))];
          assert holders[i] in holders[..i + 1];
        }
        i := i + 1;
      }
      assert holders[..i] == holders;
    }

    // Swaps each pointer out of its holder into the slot array.
    method FillSlots(id: nat, holders: seq<Ptr>)
      requires id < |frames| && frames[id].slots == []
      modifies this`frames
      ensures frames == old(frames)[id := old(frames)[id].(slots := holders)]
    {
      var i := 0;
      while i < |holders|
        invariant 0 <= i <= |holders|
        invariant frames == old(frames)[id := old(frames)[id].(slots := holders[..i])]
      {
        frames := frames[id := frames[id].(slots := frames[id].slots + [holders[i]])];
        assert holders[..i + 1] == holders[..i] + [holders[i]];
        i := i + 1;
      }
      assert holders[..i] == holders;
    }

    // One more reference for each holder of a vector.
    method CloneEach(ps: seq<Ptr>, ghost held: multiset<Ptr>)
      requires Sound(View(), held) && multiset(ps) <= held
      modifies this
      ensures View() == CloneAll(old(View()), ps)
      ensures Sound(View(), held + multiset(ps))
    {
      var i := 0;
      while i < |ps|
        invariant 0 <= i <= |ps| && Sound(View(), held + multiset(ps[..i]))
        invariant CloneAll(View(), ps[i..]) == CloneAll(old(View()), ps)
      {
        CloneStep(View(), held, ps, i);
        if ps[i].To? {
          Acquire(ps[i].id, held + multiset(ps[..i]));
        }
        i := i + 1;
      }
      assert ps[..i] == ps;
    }

    // ~FrameHolder
    method Destroy(p: Ptr, ghost held: multiset<Ptr>)
      requires Sound(View(), held + multiset{p})
      modifies this
      ensures View() == old(View()).Drop(p)
      ensures Sound(View(), held)
    {
      DropKeepsSound(View(), held, p);
      if p.To? {
        Release(p.id, held);
      }
    }

    method DestroyAll(ps: seq<Ptr>, ghost held: multiset<Ptr>)
      requires Sound(View(), held + multiset(ps))
      modifies this
      ensures View() == old(View()).DropAll(ps)
      ensures Sound(View(), held)
    {
      var i := 0;
      while i < |ps|
        invariant 0 <= i <= |ps|
        invariant Sound(View(), held + multiset(ps[i..]))
        invariant View().DropAll(ps[i..]) == old(View()).DropAll(ps)
      {
        assert ps[i..] == [ps[i]] + ps[i + 1..];
        assert held + multiset(ps[i..]) == held + multiset(ps[i + 1..]) + multiset{ps[i]};
        Destroy(ps[i], held + multiset(ps[i + 1..]));
        i := i + 1;
      }
      assert held + multiset(ps[i..]) == held;
    }
  }

  // An owning handle.
  class FrameHolder {
    var frame: Ptr

    constructor (frame: Ptr)
      ensures this.frame == frame
    {
      this.frame := frame;
    }

    // Move construction empties the source and changes no count.
    constructor MoveFrom(other: FrameHolder)
      modifies other
      ensures frame == old(other.frame) && other.frame == Null
    {
      frame := other.frame;
      new;
      other.frame := Null;
    }

    method Clone(memory: Memory, ghost held: multiset<Ptr>) returns (copy: FrameHolder)
      requires Sound(memory.View(), held) && frame in held
      modifies memory`frames
      ensures fresh(copy) && copy.frame == frame
      ensures memory.View() == old(memory.View()).Clone(frame)
      ensures Sound(memory.View(), held + multiset{frame})
    {
      if frame.To? { HeldIsLive(memory.View(), held, frame.id); }
      CloneKeepsSound(memory.View(), held, frame);
      copy := new FrameHolder(frame);
      if frame.To? {
        memory.Acquire(frame.id, held);
      }
    }

    // Move assignment; `held` counts every reference but the one this holder had.
    method AssignFrom(memory: Memory, other: FrameHolder, ghost held: multiset<Ptr>)
      requires Sound(memory.View(), held + multiset{frame})
      modifies this, other, memory
      ensures memory.View() == old(memory.View()).Drop(old(frame))
      ensures Sound(memory.View(), held)
      ensures other.frame == Null
      ensures frame == if this == other then Null else old(other.frame)
    {
      memory.Destroy(frame, held);
      frame := other.frame;
      other.frame := Null;
    }

    method Destroy(memory: Memory, ghost held: multiset<Ptr>)
      requires Sound(memory.View(), held + multiset{frame})
      modifies memory
      ensures memory.View() == old(memory.View()).Drop(frame)
      ensures Sound(memory.View(), held)
    {
      memory.Destroy(frame, held);
    }
  }
}
