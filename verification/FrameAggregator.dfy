// The frame aggregator as an object on top of the frame memory and its queue.
module FrameAggregator {
  import opened FrameStore
  import opened FrameInvariant
  import opened FrameOwnership
  import opened FrameHeap
  import opened Aggregation
  import opened AggregatorOwnership
  import opened AggregatorPaths
  import Q = ConsumerQueue

  // One round of the loop over the parts of a composite.
  lemma RememberStep(a: Aggregator, ext: multiset<Ptr>, id: nat, slots: seq<Ptr>, i: nat)
    requires AggSound(a, ext) && To(id) in ext && id < |a.store.frames| && a.store.frames[id].slots == slots
    requires PartsDescribed(a.store, slots) && i < |slots|
    ensures slots[i].To? && a.store.IsLive(slots[i].id) && a.Profile(slots[i]).Some?
    ensures var a' := a.Remember(a.Profile(slots[i]).value, slots[i]);
            && id < |a'.store.frames| && a'.store.frames[id].slots == slots && PartsDescribed(a'.store, slots)
            && a'.RememberAll(slots[i + 1..]) == a.RememberAll(slots[i..])
  {
    assert slots[i] in slots;
    PartKeepsOthers(a, ext, id, slots[i]);
    assert slots[i..][1..] == slots[i + 1..];
  }

  // One round of the loop over the requested streams.
  lemma TouchStep(a: Aggregator, ids: seq<int>, i: nat)
    requires i < |ids|
    ensures a.TouchAll(ids[i..]) == if Lookup(a.last, ids[i]).Null? then (a.Touch(ids[i]), false)
                                    else a.TouchAll(ids[i + 1..])
  {
    assert ids[i..][1..] == ids[i + 1..];
  }

  class FrameAggregator {
    const memory: Memory
    const queue: Q.ConsumerQueue<Ptr>
    const archive: nat
    var ids: seq<int>
    var lastSet: seq<Entry>
    var accepting: bool

    ghost function View(): Aggregator
      reads this, memory, queue
    {
      Aggregator(memory.View(), ids, lastSet, queue.View(), accepting, archive)
    }

    constructor (memory: Memory, archive: nat, streams: seq<int>)
      ensures this.memory == memory && this.archive == archive && fresh(queue)
      ensures accepting && lastSet == [] && queue.View() == Q.Empty(FRAMES_TO_AGGREGATE)
      ensures Sorted(ids) && forall x :: x in ids <==> x in streams
    {
      this.memory, this.archive := memory, archive;
      queue := new Q.ConsumerQueue<Ptr>(FRAMES_TO_AGGREGATE);
      lastSet, accepting := [], true;
      ids := [];
      new;
      var i := 0;
      while i < |streams|
        invariant 0 <= i <= |streams|
        invariant Sorted(ids) && forall x :: x in ids <==> x in streams[..i]
        invariant accepting && lastSet == [] && queue.View() == Q.Empty(FRAMES_TO_AGGREGATE)
        modifies this`ids
      {
        ids := Insert(ids, streams[i]);
        assert streams[..i + 1] == streams[..i] + [streams[i]];
        i := i + 1;
      }
      assert streams[..i] == streams;
    }

    // last_set_[uid] = clone
    method Remember(uid: int, p: Ptr, ghost ext: multiset<Ptr>)
      requires AggSound(View(), ext) && p.To? && memory.View().IsLive(p.id)
      modifies this`lastSet, memory
      ensures View() == old(View()).Remember(uid, p)
      ensures AggSound(View(), ext)
    {
      ghost var a := View();
      RememberKeepsSound(a, ext, uid, p);
      ghost var held' := ext + a.Remember(uid, p).Owned();
      var was := Lookup(lastSet, uid);
      RememberSwaps(a, ext, uid, p);
      memory.Acquire(p.id, ext + a.Owned());
      memory.Destroy(was, held');
      lastSet := Put(lastSet, uid, p);
    }

    // A composite of all entries, or an empty pointer.
    method Compose(ghost ext: multiset<Ptr>) returns (c: Ptr)
      requires AggSound(View(), ext) && (View().Grants() ==> Null !in Holders(lastSet))
      modifies memory
      ensures (memory.View(), c) == old(View()).Composed()
      ensures Sound(memory.View(), ext + old(View()).Owned() + multiset{c})
      ensures archive < |memory.archives|
    {
      ghost var held := ext + View().Owned();
      ComposedKeepsSound(View(), ext);
      var ps := Holders(lastSet);
      memory.CloneEach(ps, held);
      c := memory.AllocateCompositeFrame(archive, ps, DefaultMeta(), held);
    }

    method Deliver(c: Ptr, ghost ext: multiset<Ptr>)
      requires AggSound(View(), ext) && c.To? && c in ext
      modifies memory, queue
      ensures View() == old(View()).Deliver(c)
      ensures AggSound(View(), ext)
    {
      DeliverKeepsSound(View(), ext, c);
      if |queue.items| < FRAMES_TO_AGGREGATE {
        EnqueueClone(c, ext + View().Owned());
      } else {
        DropOldest(ext + View().Owned());
      }
    }

    method EnqueueClone(c: Ptr, ghost held: multiset<Ptr>)
      requires Sound(memory.View(), held) && c.To? && c in held
      modifies memory, queue
      ensures queue.View() == old(queue.View()).Enqueue(c)
      ensures memory.View() == if old(queue.accepting) then old(memory.View()).Clone(c)
                               else old(memory.View()).Clone(c).Drop(c)
    {
      HeldIsLive(memory.View(), held, c.id);
      memory.Acquire(c.id, held);
      var taken := queue.accepting;
      queue.Enqueue(c);
      if !taken {
        memory.Destroy(c, held);
      }
    }

    method DropOldest(ghost held: multiset<Ptr>)
      requires Sound(memory.View(), held) && queue.items != [] && queue.items[0] in held
      modifies memory, queue
      ensures queue.View() == old(queue.View()).PopFront()
      ensures memory.View() == old(memory.View()).Drop(old(queue.items[0]))
    {
      var oldest := queue.items[0];
      queue.PopFront();
      assert held == held - multiset{oldest} + multiset{oldest};
      memory.Destroy(oldest, held - multiset{oldest});
    }

    // The map is complete: form a composite and describe it like the frame in hand.
    method Emit(f: Frame, ghost ext: multiset<Ptr>)
      requires AggSound(View(), ext) && (View().Grants() ==> Null !in Holders(lastSet))
      modifies this`lastSet, memory, queue
      ensures View() == old(View()).Emit(f)
      ensures AggSound(View(), ext)
    {
      ghost var a := View();
      EmitKeepsSound(a, ext, f);
      ComposedKeepsSound(a, ext);
      var c := Compose(ext);
      if c.Null? { return; }
      assert ext + multiset{c} + View().Owned() == ext + a.Owned() + multiset{c};
      SendOut(c, f, ext);
    }

    method SendOut(c: Ptr, f: Frame, ghost ext: multiset<Ptr>)
      requires AggSound(View(), ext + multiset{c}) && c.To? && memory.View().IsLive(c.id)
      modifies this`lastSet, memory, queue
      ensures var a := old(View());
              var a1 := a.(store := a.Described(c.id, f)).Deliver(c);
              View() == a1.(store := a1.store.DropAll(Holders(a.last)).Drop(c), last := [])
      ensures AggSound(View(), ext)
    {
      ghost var ext1 := ext + multiset{c};
      DescribedKeepsSound(View(), ext1, c.id, f);
      memory.Describe(c.id, f.meta.(blocking := memory.frames[c.id].meta.blocking), ext1 + View().Owned());
      Deliver(c, ext1);
      Finish(c, ext);
    }

    // The map is cleared, then the local holder of the composite dies.
    method Finish(c: Ptr, ghost ext: multiset<Ptr>)
      requires AggSound(View(), ext + multiset{c})
      modifies this`lastSet, memory
      ensures var a := old(View());
              View() == a.(store := a.store.DropAll(Holders(a.last)).Drop(c), last := [])
      ensures AggSound(View(), ext)
    {
      ClearKeepsSound(View(), ext, c);
      ghost var rest := ext + multiset(queue.items);
      assert ext + multiset{c} + View().Owned() == rest + multiset{c} + multiset(Holders(lastSet));
      memory.DestroyAll(AllHolders(), rest + multiset{c});
      lastSet := [];
      memory.Destroy(c, rest);
    }

    function AllHolders(): seq<Ptr>
      reads this
    {
      Holders(lastSet)
    }

    method HandleSingle(p: Ptr, ghost ext: multiset<Ptr>)
      requires AggSound(View(), ext) && p.To? && p in ext && Meets(View(), p)
      modifies this`lastSet, memory, queue
      ensures View() == old(View()).HandleSingle(p)
      ensures AggSound(View(), ext)
    {
      HeldIsLive(memory.View(), ext + View().Owned(), p.id);
      var f := memory.frames[p.id];
      if f.meta.profile.None? { return; }
      var uid := f.meta.profile.value;
      if uid !in ids { return; }
      Remember(uid, p, ext);
      if |lastSet| == |ids| {
        Emit(f, ext);
      }
    }

    // The loop over the parts of a composite.
    method RememberParts(id: nat, ghost ext: multiset<Ptr>)
      requires AggSound(View(), ext) && To(id) in ext && id < |memory.frames|
      requires PartsDescribed(memory.View(), memory.frames[id].slots)
      modifies this`lastSet, memory
      ensures View() == old(View()).RememberAll(old(memory.frames[id].slots))
      ensures AggSound(View(), ext)
    {
      var slots := memory.frames[id].slots;
      RememberAllKeepsSound(View(), ext, id, slots);
      var i := 0;
      while i < |slots|
        invariant 0 <= i <= |slots| && AggSound(View(), ext)
        invariant id < |memory.frames| && memory.frames[id].slots == slots && PartsDescribed(memory.View(), slots)
        invariant View().RememberAll(slots[i..]) == old(View()).RememberAll(slots)
        invariant ids == old(ids) && accepting == old(accepting)
      {
        RememberStep(View(), ext, id, slots, i);
        Remember(memory.frames[slots[i].id].meta.profile.value, slots[i], ext);
        i := i + 1;
      }
      assert slots[i..] == [];
    }

    // Whether every stream has a frame; the first that has none gets an empty holder.
    method TouchStreams(ghost ext: multiset<Ptr>) returns (complete: bool)
      requires AggSound(View(), ext)
      modifies this`lastSet
      ensures (View(), complete) == old(View()).TouchAll(ids)
      ensures AggSound(View(), ext)
    {
      ghost var a := View();
      TouchAllKeepsSound(a, ext, ids);
      var i := 0;
      while i < |ids|
        invariant 0 <= i <= |ids| && View() == a
        invariant a.TouchAll(ids[i..]) == a.TouchAll(ids)
      {
        TouchStep(a, ids, i);
        if Lookup(lastSet, ids[i]).Null? {
          if !HasKey(lastSet, ids[i]) {
            lastSet := Put(lastSet, ids[i], Null);
          }
          return false;
        }
        i := i + 1;
      }
      assert ids[i..] == [];
      return true;
    }

    // handleFrame. The precondition on the frame is what the code dereferences unchecked.
    method HandleFrame(p: Ptr, ghost ext: multiset<Ptr>)
      requires AggSound(View(), ext) && p.To? && p in ext && p.id < |memory.frames| && Handleable(View(), p)
      modifies this`lastSet, memory, queue
      ensures View() == old(View()).Handle(p)
      ensures AggSound(View(), ext)
    {
      HeldIsLive(memory.View(), ext + View().Owned(), p.id);
      if !accepting { return; }
      if memory.frames[p.id].composite {
        HandleComposite(p.id, ext);
      } else {
        HandleSingle(p, ext);
      }
    }

    method HandleComposite(id: nat, ghost ext: multiset<Ptr>)
      requires AggSound(View(), ext) && To(id) in ext && id < |memory.frames|
      requires PartsDescribed(memory.View(), memory.frames[id].slots)
      modifies this`lastSet, memory, queue
      ensures View() == old(View()).HandleComposite(id)
      ensures AggSound(View(), ext)
    {
      HandleCompositeKeepsSound(View(), ext, id);
      RememberParts(id, ext);
      ghost var a1 := View();
      TouchAllKeepsSound(a1, ext, ids);
      var complete := TouchStreams(ext);
      if !complete { return; }
      CompleteHasNoNull(View(), ext);
      var c := Compose(ext);
      if c.Null? { return; }
      assert ext + multiset{c} + View().Owned() == ext + a1.Owned() + multiset{c};
      Publish(c, ext);
    }

    // enqueue of a clone; then the local holder dies.
    method Publish(c: Ptr, ghost ext: multiset<Ptr>)
      requires AggSound(View(), ext + multiset{c}) && c.To?
      modifies memory, queue
      ensures View() == old(View()).Publish(c)
      ensures AggSound(View(), ext)
    {
      ghost var a := View();
      PublishKeepsAggSound(a, ext, c);
      PublishSwaps(a, ext, c);
      HeldIsLive(memory.View(), ext + multiset{c} + a.Owned(), c.id);
      ghost var rest := ext + a.Publish(c).Owned();
      memory.Acquire(c.id, ext + multiset{c} + a.Owned());
      var lost := Lost(Q.Queue(queue.items, queue.capacity, queue.accepting, queue.needToFlush), c);
      queue.Enqueue(c);
      memory.Destroy(lost, rest + multiset{c});
      memory.Destroy(c, rest);
    }

    method TryDequeue(ghost ext: multiset<Ptr>) returns (p: Ptr)
      requires AggSound(View(), ext)
      modifies queue
      ensures (View(), p) == old(View()).Dequeue()
      ensures AggSound(View(), if p.To? then ext + multiset{p} else ext)
    {
      DequeueKeepsSound(View(), ext);
      var item := queue.TryDequeue();
      p := if item.Some? then item.value else Null;
    }

    method Start()
      modifies this`accepting
      ensures View() == old(View()).Start()
    {
      accepting := true;
    }

    method Stop(ghost ext: multiset<Ptr>)
      requires AggSound(View(), ext)
      modifies this`accepting, memory, queue
      ensures View() == old(View()).Stop()
      ensures AggSound(View(), ext)
    {
      ghost var a := View();
      StopKeepsSound(a, ext);
      accepting := false;
      var dropped := queue.Clear();
      ghost var rest := ext + multiset(Holders(lastSet));
      assert ext + a.Owned() == rest + multiset(dropped);
      memory.DestroyAll(dropped, rest);
    }
  }
}
