// What the other calls of the aggregator promise: stop and start, the consumer's calls,
// and a composite as input.
module AggregatorCalls {
  import opened Prelude
  import opened FrameStore
  import opened FrameOwnership
  import opened Aggregation
  import opened AggregatorOwnership
  import opened AggregatorPaths
  import opened AggregatorRuns

  // ----- Stop and start -----

  // A stopped aggregator ignores whatever it is fed, until it is started; what it
  // remembers of each stream survives, what was queued does not.
  lemma StoppedIgnoresFrames(a: Aggregator, p: Ptr)
    ensures var a' := a.Stop();
            && a'.Handle(p) == a' && a'.queue.items == []
            && !a'.queue.accepting && a'.queue.capacity == a.queue.capacity
            && a'.Start().accepting && a'.Start() == a'.(accepting := true)
            && a'.last == a.last && a'.ids == a.ids && a'.archive == a.archive
  {
  }

  // Starting does not open the queue again; the consumer's next call does. Until then
  // each composite is formed and dropped, and the map is emptied all the same.
  lemma ClosedQueueLosesComposite(a: Aggregator, ext: multiset<Ptr>, c: Ptr)
    requires AggSound(a, ext) && c.To? && c in ext
    requires !a.queue.accepting && |a.queue.items| < FRAMES_TO_AGGREGATE
    ensures a.Deliver(c).queue == a.queue && AggSound(a.Deliver(c), ext)
  {
    DeliverKeepsSound(a, ext, c);
  }

  // The consumer gets the oldest composite, if there is one, and the queue is open.
  lemma DequeueTakesOldest(a: Aggregator, ext: multiset<Ptr>)
    requires AggSound(a, ext)
    ensures var (a', p) := a.Dequeue();
            && a'.queue.accepting && a'.queue.capacity == a.queue.capacity
            && a'.store == a.store && a'.last == a.last && a'.accepting == a.accepting
            && (p.Null? <==> a.queue.items == [])
            && a.queue.items == (if p.To? then [p] else []) + a'.queue.items
  {
    if a.queue.items != [] { assert a.queue.items[0] in a.queue.items; }
  }

  // ----- A composite as input -----

  // The parts of a composite under their streams, in order.
  function Parts(s: Store, ps: seq<Ptr>): (log: seq<Entry>)
    requires PartsDescribed(s, ps)
    ensures |log| == |ps|
  {
    seq(|ps|, i requires 0 <= i < |ps| =>
      (assert ps[i] in ps; Entry(s.frames[ps[i].id].meta.profile.value, ps[i])))
  }

  lemma {:induction false} NewestOfTwo(a: seq<Entry>, b: seq<Entry>, uid: int)
    requires forall k :: 0 <= k < |b| ==> b[k].holder.To?
    ensures Newest(a + b, uid) == if Newest(b, uid).To? then Newest(b, uid) else Newest(a, uid)
  {
    if b == [] {
      assert a + b == a;
    } else {
      var n := |b| - 1;
      assert (a + b)[..|a + b| - 1] == a + b[..n];
      NewestOfTwo(a, b[..n], uid);
    }
  }

  lemma PartsAfter(s: Store, s': Store, ps: seq<Ptr>)
    requires ps != [] && PartsDescribed(s, ps) && |s'.frames| == |s.frames|
    requires forall q :: 0 <= q < |s.frames| ==> s'.frames[q].meta == s.frames[q].meta
    ensures PartsDescribed(s', ps[1..]) && Parts(s, ps) == [Parts(s, ps)[0]] + Parts(s', ps[1..])
  {
    assert forall p :: p in ps[1..] ==> p in ps;
  }

  // One part remembered.
  lemma RememberPart(a: Aggregator, ext: multiset<Ptr>, id: nat, ps: seq<Ptr>)
    requires AggSound(a, ext) && To(id) in ext && id < |a.store.frames| && ps != []
    requires forall p :: p in ps ==> p in a.store.frames[id].slots
    requires PartsDescribed(a.store, ps)
    ensures a.store.IsLive(ps[0].id) && a.Profile(ps[0]) == Some(Parts(a.store, ps)[0].uid)
    ensures var e := Parts(a.store, ps)[0];
            var a1 := a.Remember(e.uid, ps[0]);
            && e.holder == ps[0] && AggSound(a1, ext) && |a1.store.frames| == |a.store.frames|
            && a1.store.frames[id].slots == a.store.frames[id].slots
            && PartsDescribed(a1.store, ps[1..]) && Parts(a.store, ps) == [e] + Parts(a1.store, ps[1..])
            && a.RememberAll(ps) == a1.RememberAll(ps[1..])
  {
    var p := ps[0];
    assert p in ps;
    var uid := Parts(a.store, ps)[0].uid;
    PartKeepsOthers(a, ext, id, p);
    RememberKeepsSound(a, ext, uid, p);
    PartsAfter(a.store, a.Remember(uid, p).store, ps);
  }

  // Afterwards each stream has the last part that is of it, or what it had.
  lemma {:induction false} RememberAllEnters(a: Aggregator, ext: multiset<Ptr>, id: nat, ps: seq<Ptr>, uid: int)
    requires AggSound(a, ext) && To(id) in ext && id < |a.store.frames|
    requires forall p :: p in ps ==> p in a.store.frames[id].slots
    requires PartsDescribed(a.store, ps)
    ensures var p := Newest(Parts(a.store, ps), uid);
            Lookup(a.RememberAll(ps).last, uid) == if p.To? then p else Lookup(a.last, uid)
    ensures |a.RememberAll(ps).store.frames| == |a.store.frames|
    decreases |ps|
  {
    if ps != [] {
      RememberPart(a, ext, id, ps);
      var e := Parts(a.store, ps)[0];
      var a1 := a.Remember(e.uid, ps[0]);
      assert forall x :: x in ps[1..] ==> x in ps;
      RememberAllEnters(a1, ext, id, ps[1..], uid);
      PutKeys(a.last, e.uid, ps[0], uid);
      NewestOfTwo([e], Parts(a1.store, ps[1..]), uid);
      NewestAppend([], e, uid);
      assert [] + [e] == [e];
    }
  }

  // What is left to do once the parts are remembered.
  function Concluded(a: Aggregator): Aggregator {
    var (a1, complete) := a.TouchAll(a.ids);
    if !complete then a1
    else
      var (s, c) := a1.Composed();
      if c.Null? then a1.(store := s) else a1.(store := s).Publish(c)
  }

  lemma ConcludedQueues(a: Aggregator, ext: multiset<Ptr>)
    requires AggSound(a, ext)
    ensures var a' := Concluded(a);
            var c := |a.store.frames|;
            if (forall uid :: uid in a.ids ==> Lookup(a.last, uid).To?) && a.Grants() then
              && a'.queue == a.queue.Enqueue(To(c)) && a'.last == a.last
              && c < |a'.store.frames| && a'.store.frames[c].slots == Holders(a.last)
            else
              a'.queue == a.queue && forall x :: Lookup(a'.last, x) == Lookup(a.last, x)
  {
    TouchAllKeepsSound(a, ext, a.ids);
    if forall uid :: uid in a.ids ==> Lookup(a.last, uid).To? {
      AllTouched(a, a.ids);
      CompleteHasNoNull(a, ext);
      ComposedKeepsSound(a, ext);
      if a.Grants() {
        PublishKeepsComposite(a, ext);
      }
    } else {
      TouchingLooksSame(a, a.ids);
    }
  }

  // A composite as input: its parts are remembered, whatever their streams. If then every
  // requested stream has a frame and the archive grants it, a composite of everything
  // remembered enters the queue as its newest item, and the map stays as it is;
  // otherwise nothing is queued.
  lemma CompositeInputQueues(a: Aggregator, ext: multiset<Ptr>, id: nat)
    requires AggSound(a, ext) && a.accepting && To(id) in ext && a.store.IsLive(id) && a.store.frames[id].composite
    requires PartsDescribed(a.store, a.store.frames[id].slots)
    ensures var a1 := a.RememberAll(a.store.frames[id].slots);
            var a' := a.Handle(To(id));
            var c := |a.store.frames|;
            if (forall uid :: uid in a.ids ==> Lookup(a1.last, uid).To?) && a1.Grants() then
              && a'.queue == a.queue.Enqueue(To(c)) && a'.last == a1.last
              && c < |a'.store.frames| && a'.store.frames[c].slots == Holders(a1.last)
            else
              a'.queue == a.queue && forall x :: Lookup(a'.last, x) == Lookup(a1.last, x)
  {
    var slots := a.store.frames[id].slots;
    RememberAllKeepsSound(a, ext, id, slots);
    RememberAllEnters(a, ext, id, slots, 0);
    var a1 := a.RememberAll(slots);
    ConcludedQueues(a1, ext);
    assert a.Handle(To(id)) == Concluded(a1);
  }

  lemma {:induction false} AllTouched(a: Aggregator, uids: seq<int>)
    requires forall uid :: uid in uids ==> Lookup(a.last, uid).To?
    ensures a.TouchAll(uids) == (a, true)
    decreases |uids|
  {
    if uids != [] {
      assert uids[0] in uids && forall uid :: uid in uids[1..] ==> uid in uids;
      AllTouched(a, uids[1..]);
    }
  }

  lemma {:induction false} TouchingLooksSame(a: Aggregator, uids: seq<int>)
    requires Ascending(a.last) && exists uid :: uid in uids && Lookup(a.last, uid).Null?
    ensures !a.TouchAll(uids).1 && forall x :: Lookup(a.TouchAll(uids).0.last, x) == Lookup(a.last, x)
    decreases |uids|
  {
    if Lookup(a.last, uids[0]).Null? {
      forall x ensures Lookup(a.Touch(uids[0]).last, x) == Lookup(a.last, x) {
        PutKeys(a.last, uids[0], Null, x);
      }
    } else {
      var uid :| uid in uids && Lookup(a.last, uid).Null?;
      assert uid in uids[1..];
      TouchingLooksSame(a, uids[1..]);
    }
  }

  lemma PublishKeepsComposite(a: Aggregator, ext: multiset<Ptr>)
    requires AggSound(a, ext) && Null !in Holders(a.last) && a.Composed().1.To?
    ensures var (s, c) := a.Composed();
            var a' := a.(store := s).Publish(c);
            c.id == |a.store.frames| < |a'.store.frames| && a'.store.frames[c.id].slots == Holders(a.last)
  {
    var (s, c) := a.Composed();
    ComposedKeepsSound(a, ext);
    var a1 := a.(store := s);
    assert ext + multiset{c} + a1.Owned() == ext + a.Owned() + multiset{c};
    PublishSwaps(a1, ext, c);
    var s2 := s.Clone(c).Drop(Lost(a.queue, c));
    DropKeepsSound(s2, ext + a1.Publish(c).Owned(), c);
    SettlesKeepsSlots(s.Clone(c), s2, |s.frames|);
    SettlesKeepsSlots(s2, s2.Drop(c), |s2.frames|);
  }
}
