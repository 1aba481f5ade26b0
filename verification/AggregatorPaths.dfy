// The remaining paths of the aggregator: composite input, the consumer's calls and
// stop; and exactly when handling a frame goes wrong.
module AggregatorPaths {
  import opened Prelude
  import opened FrameStore
  import opened FrameInvariant
  import opened FrameOwnership
  import opened Aggregation
  import opened AggregatorOwnership
  import Q = ConsumerQueue

  // ----- Composite input -----

  // Every part has a stream profile.
  predicate PartsDescribed(s: Store, ps: seq<Ptr>) {
    forall p :: p in ps ==> p.To? && p.id < |s.frames| && s.frames[p.id].meta.profile.Some?
  }

  lemma PartIsLive(a: Aggregator, ext: multiset<Ptr>, id: nat, p: Ptr)
    requires AggSound(a, ext) && To(id) in ext && id < |a.store.frames|
    requires p.To? && p in a.store.frames[id].slots
    ensures a.store.IsLive(p.id)
  {
    HeldIsLive(a.store, ext + a.Owned(), id);
    SlotIsLive(a.store, ext + a.Owned(), id, p.id);
  }

  // Remembering one part leaves the description and the slots of every frame.
  lemma PartKeepsOthers(a: Aggregator, ext: multiset<Ptr>, id: nat, p: Ptr)
    requires AggSound(a, ext) && To(id) in ext && id < |a.store.frames|
    requires p.To? && p in a.store.frames[id].slots
    ensures a.store.IsLive(p.id)
    ensures forall uid: int :: var s := a.Remember(uid, p).store;
              |s.frames| == |a.store.frames|
              && forall q :: 0 <= q < |s.frames| ==>
                   s.frames[q].meta == a.store.frames[q].meta && s.frames[q].slots == a.store.frames[q].slots
  {
    PartIsLive(a, ext, id, p);
    forall uid: int ensures var s := a.Remember(uid, p).store;
      |s.frames| == |a.store.frames|
      && forall q :: 0 <= q < |s.frames| ==>
           s.frames[q].meta == a.store.frames[q].meta && s.frames[q].slots == a.store.frames[q].slots
    {
      RememberKeepsSound(a, ext, uid, p);
      var s := a.Remember(uid, p).store;
      forall q | 0 <= q < |s.frames|
        ensures s.frames[q].meta == a.store.frames[q].meta && s.frames[q].slots == a.store.frames[q].slots
      {
        assert SettlesAt(a.store.Clone(p).frames[q], s.frames[q], q < |a.store.frames|);
      }
    }
  }

  lemma {:induction false} RememberAllKeepsSound(a: Aggregator, ext: multiset<Ptr>, id: nat, ps: seq<Ptr>)
    requires AggSound(a, ext) && To(id) in ext
    requires id < |a.store.frames| && forall p :: p in ps ==> p in a.store.frames[id].slots
    requires PartsDescribed(a.store, ps)
    ensures var a' := a.RememberAll(ps);
            AggSound(a', ext) && a'.ids == a.ids && a'.queue == a.queue && a'.archive == a.archive
    decreases |ps|
  {
    if ps != [] {
      PartKeepsOthers(a, ext, id, ps[0]);
      var uid := a.Profile(ps[0]).value;
      RememberKeepsSound(a, ext, uid, ps[0]);
      RememberAllKeepsSound(a.Remember(uid, ps[0]), ext, id, ps[1..]);
    }
  }

  lemma TouchKeepsSound(a: Aggregator, ext: multiset<Ptr>, uid: int)
    requires AggSound(a, ext) && uid in a.ids
    ensures AggSound(a.Touch(uid), ext)
  {
    if !HasKey(a.last, uid) {
      var a' := a.Touch(uid);
      PutAscending(a.last, uid, Null);
      AbsentHasNull(a.last, uid);
      forall id: nat ensures (ext + a.Owned())[To(id)] == (ext + a'.Owned())[To(id)] {
        PutBalances(a.last, uid, Null, id);
      }
      SoundIgnoresNull(a.store, ext + a.Owned(), ext + a'.Owned());
    }
  }

  lemma {:induction false} AbsentHasNull(last: seq<Entry>, uid: int)
    requires !HasKey(last, uid)
    ensures Lookup(last, uid) == Null
  {
    if last != [] {
      AbsentHasNull(last[1..], uid);
    }
  }

  // Either some requested stream has no frame, and now has an empty holder, or all
  // have one and nothing was touched.
  lemma {:induction false} TouchAllKeepsSound(a: Aggregator, ext: multiset<Ptr>, uids: seq<int>)
    requires AggSound(a, ext) && forall uid :: uid in uids ==> uid in a.ids
    ensures var (a', complete) := a.TouchAll(uids);
            && AggSound(a', ext)
            && a'.ids == a.ids && a'.queue == a.queue && a'.archive == a.archive && a'.store == a.store
            && (complete ==> a' == a && forall uid :: uid in uids ==> Lookup(a.last, uid).To?)
            && (!complete ==> exists uid :: uid in uids && HasKey(a'.last, uid) && Lookup(a'.last, uid).Null?)
    decreases |uids|
  {
    if uids != [] {
      if Lookup(a.last, uids[0]).Null? {
        TouchKeepsSound(a, ext, uids[0]);
        PutKeys(a.last, uids[0], Null, uids[0]);
        assert uids[0] in uids && HasKey(a.Touch(uids[0]).last, uids[0]);
      } else {
        TouchAllKeepsSound(a, ext, uids[1..]);
      }
    }
  }

  lemma {:induction false} EntryIsLookup(last: seq<Entry>, e: Entry)
    requires Ascending(last) && e in last
    ensures HasKey(last, e.uid) && Lookup(last, e.uid) == e.holder
  {
    if last[0] != e {
      assert e in last[1..];
      EntryIsLookup(last[1..], e);
    }
  }

  lemma {:induction false} NullHolderHasEntry(last: seq<Entry>) returns (e: Entry)
    requires Null in Holders(last)
    ensures e in last && e.holder == Null
  {
    if last[0].holder == Null { e := last[0]; } else { e := NullHolderHasEntry(last[1..]); }
  }

  lemma CompleteHasNoNull(a: Aggregator, ext: multiset<Ptr>)
    requires AggSound(a, ext) && forall uid :: uid in a.ids ==> Lookup(a.last, uid).To?
    ensures Null !in Holders(a.last)
  {
    if Null in Holders(a.last) {
      var e := NullHolderHasEntry(a.last);
      EntryIsLookup(a.last, e);
    }
  }

  lemma EnqueueBalances(queue: Q.Queue<Ptr>, c: Ptr, id: nat)
    ensures multiset(queue.items)[To(id)] + multiset{c}[To(id)]
            == multiset(queue.Enqueue(c).items)[To(id)] + multiset{Lost(queue, c)}[To(id)]
  {
    var all := queue.items + [c];
    assert multiset(all) == multiset(queue.items) + multiset{c};
    assert all == [all[0]] + all[1..];
    assert multiset(all) == multiset{all[0]} + multiset(all[1..]);
    assert (multiset(queue.items) + multiset{c})[To(id)] == multiset(all)[To(id)];
    assert (multiset{all[0]} + multiset(all[1..]))[To(id)] == multiset(all)[To(id)];
  }

  // enqueue with its own overwrite; the local holder then dies.
  lemma PublishKeepsAggSound(a: Aggregator, ext: multiset<Ptr>, c: Ptr)
    requires AggSound(a, ext + multiset{c}) && c.To?
    ensures AggSound(a.Publish(c), ext)
  {
    PublishSwaps(a, ext, c);
    DropKeepsSound(a.store.Clone(c).Drop(Lost(a.queue, c)), ext + a.Publish(c).Owned(), c);
  }

  // The two references that change hands in between.
  lemma PublishSwaps(a: Aggregator, ext: multiset<Ptr>, c: Ptr)
    requires AggSound(a, ext + multiset{c}) && c.To?
    ensures var rest := ext + a.Publish(c).Owned();
            && a.store.IsLive(c.id)
            && Sound(a.store.Clone(c), rest + multiset{c} + multiset{Lost(a.queue, c)})
            && Sound(a.store.Clone(c).Drop(Lost(a.queue, c)), rest + multiset{c})
            && Settles(a.store.Clone(c), a.store.Clone(c).Drop(Lost(a.queue, c)), |a.store.frames|)
  {
    var held := ext + multiset{c} + a.Owned();
    var rest := ext + a.Publish(c).Owned();
    HeldIsLive(a.store, held, c.id);
    forall id: nat ensures held[To(id)] + multiset{c}[To(id)]
                           == (rest + multiset{c})[To(id)] + multiset{Lost(a.queue, c)}[To(id)] {
      EnqueueBalances(a.queue, c, id);
    }
    SwapKeepsSound(a.store, held, c, Lost(a.queue, c), rest + multiset{c});
  }

  // A composite whose parts all have profiles is handled soundly, too.
  lemma HandleCompositeKeepsSound(a: Aggregator, ext: multiset<Ptr>, id: nat)
    requires AggSound(a, ext) && To(id) in ext && id < |a.store.frames|
    requires PartsDescribed(a.store, a.store.frames[id].slots)
    ensures AggSound(a.HandleComposite(id), ext)
  {
    var slots := a.store.frames[id].slots;
    RememberAllKeepsSound(a, ext, id, slots);
    var a1 := a.RememberAll(slots);
    TouchAllKeepsSound(a1, ext, a.ids);
    var (a2, complete) := a1.TouchAll(a.ids);
    if complete {
      CompleteHasNoNull(a2, ext);
      ComposedKeepsSound(a2, ext);
      var (s, c) := a2.Composed();
      var a3 := a2.(store := s);
      if c.Null? {
        SoundIgnoresNull(s, ext + a2.Owned() + multiset{c}, ext + a2.Owned());
      } else {
        assert ext + multiset{c} + a3.Owned() == ext + a2.Owned() + multiset{c};
        PublishKeepsAggSound(a3, ext, c);
      }
    }
  }

  // The whole of handleFrame. The guards are what the code dereferences unchecked.
  predicate Handleable(a: Aggregator, p: Ptr)
    requires p.To? && p.id < |a.store.frames|
  {
    a.accepting ==>
      if a.store.frames[p.id].composite then PartsDescribed(a.store, a.store.frames[p.id].slots) else Meets(a, p)
  }

  lemma HandleKeepsSound(a: Aggregator, ext: multiset<Ptr>, p: Ptr)
    requires AggSound(a, ext) && p.To? && p in ext && p.id < |a.store.frames| && Handleable(a, p)
    ensures AggSound(a.Handle(p), ext)
  {
    HeldIsLive(a.store, ext + a.Owned(), p.id);
    if a.accepting {
      if a.store.frames[p.id].composite {
        HandleCompositeKeepsSound(a, ext, p.id);
      } else {
        HandleSingleKeepsSound(a, ext, p);
      }
    }
  }

  // ----- The consumer and the owner -----

  lemma DequeueKeepsSound(a: Aggregator, ext: multiset<Ptr>)
    requires AggSound(a, ext)
    ensures var (a', p) := a.Dequeue();
            AggSound(a', if p.To? then ext + multiset{p} else ext)
  {
    var items := a.queue.items;
    var (a', p) := a.Dequeue();
    if items != [] {
      assert items == [items[0]] + items[1..];
      assert items[0] in items;
      assert ext + a.Owned() == ext + multiset{p} + a'.Owned();
    }
  }

  lemma StopKeepsSound(a: Aggregator, ext: multiset<Ptr>)
    requires AggSound(a, ext)
    ensures AggSound(a.Stop(), ext) && a.Stop().queue.items == []
  {
    var rest := ext + multiset(Holders(a.last));
    assert ext + a.Owned() == rest + multiset(a.queue.items);
    DropAllKeepsSound(a.store, rest, a.queue.items);
    assert rest == ext + a.Stop().Owned();
  }

  // ----- When handling a single frame goes wrong -----

  lemma {:induction false} ReleaseKeepsFault(s: Store, id: nat)
    requires s.fault
    ensures s.Release(id).fault
    decreases id, 1, 0
  {
    if s.IsLive(id) {
      var f := s.frames[id];
      ReleaseSlotsKeepsFault(s.SetFrame(id, f.(refCount := f.refCount - 1)), id, f.slots);
    }
  }

  lemma {:induction false} ReleaseSlotsKeepsFault(s: Store, bound: nat, slots: seq<Ptr>)
    requires s.fault
    ensures s.ReleaseSlots(bound, slots).fault
    decreases bound, 0, |slots|
  {
    if slots != [] {
      if slots[0].To? && slots[0].id < bound { ReleaseKeepsFault(s, slots[0].id); }
      ReleaseSlotsKeepsFault(s.ReleaseSlot(bound, slots[0]), bound, slots[1..]);
    }
  }

  lemma {:induction false} DropAllKeepsFault(s: Store, ps: seq<Ptr>)
    requires s.fault
    ensures s.DropAll(ps).fault
    decreases |ps|
  {
    if ps != [] {
      if ps[0].To? { ReleaseKeepsFault(s, ps[0].id); }
      DropAllKeepsFault(s.Drop(ps[0]), ps[1..]);
    }
  }

  lemma EmitKeepsFault(a: Aggregator, f: Frame)
    requires a.Composed().1.To? && a.Composed().0.fault
    ensures a.Emit(f).store.fault
  {
    var (s, c) := a.Composed();
    var a1 := a.(store := s).(store := a.(store := s).Described(c.id, f));
    if a1.store.Clone(c).fault { ReleaseKeepsFault(a1.store.Clone(c), c.id); }
    if a1.queue.items != [] && a1.queue.items[0].To? { ReleaseKeepsFault(a1.store, a1.queue.items[0].id); }
    var a2 := a1.Deliver(c);
    DropAllKeepsFault(a2.store, Holders(a.last));
    ReleaseKeepsFault(a2.store.DropAll(Holders(a.last)), c.id);
  }

  // Handling a single frame touches memory it must not in exactly one situation: the
  // frame brings the number of entries up to the number of requested streams, an empty
  // holder is among them, and the archive grants the composite.
  lemma SingleFaultsExactly(a: Aggregator, ext: multiset<Ptr>, p: Ptr)
    requires AggSound(a, ext) && p.To? && p in ext
    ensures a.HandleSingle(p).store.fault <==>
            && a.Accepts(p)
            && var a1 := a.Remember(a.Profile(p).value, p);
               |a1.last| == |a.ids| && Null in Holders(a1.last) && a1.Grants()
  {
    if a.Accepts(p) {
      HeldIsLive(a.store, ext + a.Owned(), p.id);
      var a1 := a.Remember(a.Profile(p).value, p);
      RememberKeepsSound(a, ext, a.Profile(p).value, p);
      if |a1.last| == |a.ids| {
        if Null in Holders(a1.last) && a1.Grants() {
          GrantedWithNull(a1, ext);
          EmitKeepsFault(a1, a.store.frames[p.id]);
        } else {
          EmitKeepsSound(a1, ext, a.store.frames[p.id]);
        }
      }
    }
  }

  lemma GrantedWithNull(a: Aggregator, ext: multiset<Ptr>)
    requires AggSound(a, ext) && Null in Holders(a.last) && a.Grants()
    ensures a.Composed().1.To? && a.Composed().0.fault
  {
    CloneAllKeepsSound(a.store, ext + a.Owned(), Holders(a.last));
  }

  // How it comes to that: a composite that leaves some requested stream without a frame
  // leaves an empty holder for one of them.
  lemma IncompleteCompositeLeavesEmptyHolder(a: Aggregator, ext: multiset<Ptr>, id: nat)
    requires AggSound(a, ext) && To(id) in ext && id < |a.store.frames|
    requires PartsDescribed(a.store, a.store.frames[id].slots)
    requires exists uid :: uid in a.ids && Lookup(a.RememberAll(a.store.frames[id].slots).last, uid).Null?
    ensures Null in Holders(a.HandleComposite(id).last)
  {
    var slots := a.store.frames[id].slots;
    RememberAllKeepsSound(a, ext, id, slots);
    var a1 := a.RememberAll(slots);
    TouchAllKeepsSound(a1, ext, a.ids);
    var (a2, complete) := a1.TouchAll(a.ids);
    var uid :| uid in a.ids && HasKey(a2.last, uid) && Lookup(a2.last, uid).Null?;
    LookupFinds(a2.last, uid);
  }

  // A composite of one stream only, on an empty map of two.
  lemma HalfCompositeLeaves(a: Aggregator, id: nat, p: Ptr, u: int, v: int)
    requires a.ids == [u, v] && u < v && a.last == []
    requires id < |a.store.frames| && a.store.frames[id].slots == [p]
    requires p.To? && a.Profile(p) == Some(u)
    ensures a.HandleComposite(id) == a.(store := a.store.Clone(p), last := [Entry(u, p), Entry(v, Null)])
  {
    var a1 := a.Remember(u, p);
    assert [p][1..] == [] && a1.last == [Entry(u, p)] && a1.last[1..] == [];
    assert a.RememberAll([p]) == a1.RememberAll([]) == a1;
    assert [u, v][1..] == [v];
    assert Lookup(a1.last, u) == p && Lookup(a1.last, v) == Lookup([], v) == Null && !HasKey([], v);
    assert a1.TouchAll([u, v]) == a1.TouchAll([v]) == (a1.Touch(v), false);
    assert Put(a1.last, v, Null) == [Entry(u, p)] + Put([], v, Null);
  }

  // The next frame of that stream takes the place of its entry and completes the map.
  lemma NextFrameCompletes(a: Aggregator, p: Ptr, q: Ptr, u: int, v: int)
    requires a.last == [Entry(u, p), Entry(v, Null)] && u < v && p.To? && q.To?
    requires a.store.IsLive(p.id) && a.store.frames[p.id].refCount > 1 && a.store.IsLive(q.id)
    ensures var a1 := a.Remember(u, q);
            a1.last == [Entry(u, q), Entry(v, Null)] && Null in Holders(a1.last)
            && a1.store.archives == a.store.archives
  {
    var last := a.Remember(u, q).last;
    assert last == [Entry(u, q), Entry(v, Null)];
    assert last[1..] == [Entry(v, Null)];
    assert Holders(last) == [q] + Holders([Entry(v, Null)]);
    assert Holders([Entry(v, Null)])[0] == Null;
    assert Holders(last)[1] == Null;
  }

  // So this is how a null holder gets asked whether it blocks: two streams, nothing
  // remembered yet, a composite that has a part of the first one only, and then a frame
  // of that stream, with room for a composite in the archive.
  lemma EmptyHolderIsMet(a: Aggregator, ext: multiset<Ptr>, id: nat, p: Ptr, q: Ptr, u: int, v: int)
    requires AggSound(a, ext) && a.accepting && a.ids == [u, v] && u < v && a.last == [] && a.Grants()
    requires To(id) in ext && a.store.IsLive(id) && a.store.frames[id].composite && a.store.frames[id].slots == [p]
    requires p.To? && a.Profile(p) == Some(u)
    requires q.To? && q in ext && a.Profile(q) == Some(u) && !a.store.frames[q.id].composite
    ensures !a.Handle(To(id)).store.fault && a.Handle(To(id)).Handle(q).store.fault
  {
    HandleCompositeKeepsSound(a, ext, id);
    HalfCompositeLeaves(a, id, p, u, v);
    var a1 := a.Handle(To(id));
    NextFrameCompletes(a1, p, q, u, v);
    assert a1.Profile(q) == Some(u) && u in a1.ids;
    SingleFaultsExactly(a1, ext, q);
  }

  // A program gets there: it allocates two frames of one stream and makes a composite of
  // the first, as the first things it does.
  function HalfFed(meta: Meta): World {
    var w := World(Initial([(0, false), (0, true)]), multiset{});
    Run(w, [Alloc(0, meta), Alloc(0, meta), ComposeFrames(1, [To(0)], DefaultMeta())])
  }

  lemma HalfFedIsReached(meta: Meta)
    ensures EnabledRun(World(Initial([(0, false), (0, true)]), multiset{}),
                       [Alloc(0, meta), Alloc(0, meta), ComposeFrames(1, [To(0)], DefaultMeta())])
    ensures var World(s, held) := HalfFed(meta);
            && Sound(s, held) && held == multiset{To(1), To(2)} && |s.frames| == 3 && s.Grants(1)
            && s.IsLive(0) && s.frames[0].meta == meta
            && s.IsLive(1) && s.frames[1].meta == meta && !s.frames[1].composite
            && s.IsLive(2) && s.frames[2].composite && s.frames[2].slots == [To(0)]
  {
    var kinds := [(0, false), (0, true)];
    var ops := [Alloc(0, meta), Alloc(0, meta), ComposeFrames(1, [To(0)], DefaultMeta())];
    var w0 := World(Initial(kinds), multiset{});
    assert Step(Step(w0, ops[0]), ops[1]).held == multiset{To(0), To(1)};
    ThreeSteps(w0, ops);
    InitialIsSound(kinds);
    RunKeepsSound(w0, ops);
    assert Run(w0, ops).held == multiset{To(1), To(2)};
  }

  lemma ThreeSteps(w: World, ops: seq<Op>)
    requires |ops| == 3
    ensures Run(w, ops) == Step(Step(Step(w, ops[0]), ops[1]), ops[2])
    ensures EnabledRun(w, ops) <==>
            && Enabled(w, ops[0]) && Enabled(Step(w, ops[0]), ops[1])
            && Enabled(Step(Step(w, ops[0]), ops[1]), ops[2])
  {
    var w1 := Step(w, ops[0]);
    var w2 := Step(w1, ops[1]);
    assert ops[1..][1..] == [ops[2]];
    assert Run(w, ops) == Run(w1, ops[1..]) == Run(w2, [ops[2]]) == Run(Step(w2, ops[2]), []);
    assert EnabledRun(w2, [ops[2]]) <==> Enabled(w2, ops[2]) && EnabledRun(Step(w2, ops[2]), []);
  }

  lemma FaultIsReached(u: int, v: int)
    requires u < v
    ensures var w := HalfFed(DefaultMeta().(profile := Some(u)));
            var a := Aggregator(w.store, [u, v], [], Q.Empty(FRAMES_TO_AGGREGATE), true, 1);
            !a.Handle(To(2)).store.fault && a.Handle(To(2)).Handle(To(1)).store.fault
  {
    var meta := DefaultMeta().(profile := Some(u));
    var w := HalfFed(meta);
    HalfFedIsReached(meta);
    var a := Aggregator(w.store, [u, v], [], Q.Empty(FRAMES_TO_AGGREGATE), true, 1);
    assert w.held + a.Owned() == w.held;
    EmptyHolderIsMet(a, w.held, 2, To(0), To(1), u, v);
  }

  // ----- When handling a composite goes wrong -----

  lemma {:induction false} UndescribedPartFaults(a: Aggregator, ext: multiset<Ptr>, id: nat, ps: seq<Ptr>)
    requires AggSound(a, ext) && To(id) in ext
    requires id < |a.store.frames| && forall p :: p in ps ==> p in a.store.frames[id].slots
    requires !PartsDescribed(a.store, ps)
    ensures a.RememberAll(ps).store.fault
    decreases |ps|
  {
    var p := ps[0];
    if p.To? && a.store.IsLive(p.id) && a.Profile(p).Some? {
      var uid := a.Profile(p).value;
      PartKeepsOthers(a, ext, id, p);
      RememberKeepsSound(a, ext, uid, p);
      assert ps == [p] + ps[1..];
      UndescribedPartFaults(a.Remember(uid, p), ext, id, ps[1..]);
    }
  }

  lemma {:induction false} CloneAllKeepsFault(s: Store, ps: seq<Ptr>)
    requires s.fault
    ensures CloneAll(s, ps).fault
    decreases |ps|
  {
    if ps != [] { CloneAllKeepsFault(s.Clone(ps[0]), ps[1..]); }
  }

  lemma ComposedKeepsFault(a: Aggregator)
    requires a.store.fault
    ensures a.Composed().0.fault
  {
    var ps := Holders(a.last);
    CloneAllKeepsFault(a.store, ps);
    var s := CloneAll(a.store, ps);
    DropAllKeepsFault(s.AllocAndTrack(a.archive, DefaultMeta()).0, ps);
  }

  lemma PublishKeepsFault(a: Aggregator, c: Ptr)
    requires a.store.fault
    ensures a.Publish(c).store.fault
  {
    var s := a.store.Clone(c);
    var lost := Lost(a.queue, c);
    if lost.To? { ReleaseKeepsFault(s, lost.id); }
    if c.To? { ReleaseKeepsFault(s.Drop(lost), c.id); }
  }

  lemma {:induction false} TouchAllKeepsStore(a: Aggregator, uids: seq<int>)
    ensures a.TouchAll(uids).0.store == a.store
    decreases |uids|
  {
    if uids != [] && Lookup(a.last, uids[0]).To? { TouchAllKeepsStore(a, uids[1..]); }
  }

  // Composite input goes wrong exactly when some part of it has no stream profile.
  lemma CompositeFaultsExactly(a: Aggregator, ext: multiset<Ptr>, id: nat)
    requires AggSound(a, ext) && To(id) in ext && id < |a.store.frames|
    ensures a.HandleComposite(id).store.fault <==> !PartsDescribed(a.store, a.store.frames[id].slots)
  {
    var slots := a.store.frames[id].slots;
    if PartsDescribed(a.store, slots) {
      HandleCompositeKeepsSound(a, ext, id);
    } else {
      UndescribedPartFaults(a, ext, id, slots);
      var a1 := a.RememberAll(slots);
      TouchAllKeepsStore(a1, a1.ids);
      TouchAllKeepsStore(a1, a.ids);
      var (a2, complete) := a1.TouchAll(a.ids);
      ComposedKeepsFault(a2);
      var (s, c) := a2.Composed();
      PublishKeepsFault(a2.(store := s), c);
    }
  }

  // And that is reached, too: a frame without a profile may well be part of a composite.
  lemma UndescribedPartIsReached(ids: seq<int>)
    ensures var w := HalfFed(DefaultMeta());
            var a := Aggregator(w.store, ids, [], Q.Empty(FRAMES_TO_AGGREGATE), true, 1);
            a.Handle(To(2)).store.fault
  {
    var w := HalfFed(DefaultMeta());
    HalfFedIsReached(DefaultMeta());
    var a := Aggregator(w.store, ids, [], Q.Empty(FRAMES_TO_AGGREGATE), true, 1);
    assert w.held + a.Owned() == w.held;
    assert To(0) in a.store.frames[2].slots;
    CompositeFaultsExactly(a, w.held, 2);
  }
}
