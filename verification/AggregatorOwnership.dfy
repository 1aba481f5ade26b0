// Handling a frame keeps the frame store sound on every path, and touches no
// reference that is not the aggregator's own.
module AggregatorOwnership {
  import opened FrameStore
  import opened FrameInvariant
  import opened FrameOwnership
  import opened Aggregation

  // `ext` counts the holders outside the aggregator.
  ghost predicate AggSound(a: Aggregator, ext: multiset<Ptr>) {
    && Sound(a.store, ext + a.Owned())
    && a.archive < |a.store.archives|
    && Ascending(a.last)
    && a.queue.capacity == FRAMES_TO_AGGREGATE
    && Null !in a.queue.items && |a.queue.items| <= FRAMES_TO_AGGREGATE
    && forall e :: e in a.last && e.holder.Null? ==> e.uid in a.ids
  }

  // ----- The map -----

  lemma {:induction false} PutAscending(last: seq<Entry>, uid: int, p: Ptr)
    requires Ascending(last)
    ensures Ascending(Put(last, uid, p))
    ensures forall e :: e in Put(last, uid, p) ==> e == Entry(uid, p) || e in last
  {
    if last != [] && uid > last[0].uid {
      PutAscending(last[1..], uid, p);
      var t := Put(last[1..], uid, p);
      forall i | 0 <= i < |t| ensures t[i].uid > last[0].uid && (t[i] == Entry(uid, p) || t[i] in last) {
        assert t[i] in t;
        if t[i] != Entry(uid, p) {
          var j :| 0 <= j < |last[1..]| && last[1..][j] == t[i];
          assert last[j + 1] == t[i];
        }
      }
    }
  }

  lemma {:induction false} PutKeys(last: seq<Entry>, uid: int, p: Ptr, x: int)
    requires Ascending(last)
    ensures HasKey(Put(last, uid, p), x) <==> x == uid || HasKey(last, x)
    ensures Lookup(Put(last, uid, p), x) == if x == uid then p else Lookup(last, x)
  {
    if last == [] {
    } else if uid <= last[0].uid {
      assert Put(last, uid, p)[1..] == if uid < last[0].uid then last else last[1..];
    } else {
      PutKeys(last[1..], uid, p, x);
      assert Put(last, uid, p)[1..] == Put(last[1..], uid, p);
    }
  }

  // How many entries hold q.
  function CountIn(last: seq<Entry>, q: Ptr): nat {
    if last == [] then 0 else (if last[0].holder == q then 1 else 0) + CountIn(last[1..], q)
  }

  lemma {:induction false} CountInHolders(last: seq<Entry>, q: Ptr)
    ensures multiset(Holders(last))[q] == CountIn(last, q)
  {
    if last != [] {
      CountInHolders(last[1..], q);
      assert multiset(Holders(last)) == multiset{last[0].holder} + multiset(Holders(last[1..]));
    }
  }

  // The holder put in takes the place of the one that was there, if any.
  lemma {:induction false} PutHolders(last: seq<Entry>, uid: int, p: Ptr, q: Ptr)
    requires Ascending(last)
    ensures CountIn(Put(last, uid, p), q) + (if Lookup(last, uid) == q then 1 else 0)
            == CountIn(last, q) + (if p == q then 1 else 0) + (if !HasKey(last, uid) && q == Null then 1 else 0)
  {
    var r := Put(last, uid, p);
    if last == [] {
      assert r[1..] == [];
    } else if uid < last[0].uid {
      assert r[1..] == last;
      AbsentBelow(last, uid);
    } else if uid == last[0].uid {
      assert r[1..] == last[1..];
    } else {
      PutHolders(last[1..], uid, p, q);
      assert r[1..] == Put(last[1..], uid, p);
    }
  }

  lemma {:induction false} PutSize(last: seq<Entry>, uid: int, p: Ptr)
    requires Ascending(last)
    ensures |Put(last, uid, p)| == |last| + if HasKey(last, uid) then 0 else 1
  {
    if last == [] {
    } else if uid < last[0].uid {
      AbsentBelow(last, uid);
    } else if uid > last[0].uid {
      PutSize(last[1..], uid, p);
    }
  }

  lemma PutBalances(last: seq<Entry>, uid: int, p: Ptr, id: nat)
    requires Ascending(last)
    ensures multiset(Holders(Put(last, uid, p)))[To(id)] + multiset{Lookup(last, uid)}[To(id)]
            == multiset(Holders(last))[To(id)] + multiset{p}[To(id)]
  {
    PutHolders(last, uid, p, To(id));
    CountInHolders(last, To(id));
    CountInHolders(Put(last, uid, p), To(id));
  }

  lemma {:induction false} AbsentBelow(last: seq<Entry>, uid: int)
    requires Ascending(last) && last != [] && uid < last[0].uid
    ensures !HasKey(last, uid) && Lookup(last, uid) == Null
  {
    if |last| > 1 {
      AbsentBelow(last[1..], uid);
    }
  }

  lemma {:induction false} LookupFinds(last: seq<Entry>, uid: int)
    requires HasKey(last, uid)
    ensures Entry(uid, Lookup(last, uid)) in last
    ensures Lookup(last, uid) in Holders(last)
  {
    if last[0].uid != uid {
      LookupFinds(last[1..], uid);
    }
  }

  // ----- Cloning a vector of holders -----

  lemma {:induction false} CloneAllKeepsSound(s: Store, held: multiset<Ptr>, ps: seq<Ptr>)
    requires Sound(s, held) && multiset(ps) <= held
    ensures Sound(CloneAll(s, ps), held + multiset(ps))
    ensures SameButCounts(s, CloneAll(s, ps))
    decreases |ps|
  {
    if ps == [] {
      assert held + multiset(ps) == held;
    } else {
      assert ps == [ps[0]] + ps[1..];
      if ps[0].To? { HeldIsLive(s, held, ps[0].id); }
      CloneKeepsSound(s, held, ps[0]);
      CloneAllKeepsSound(s.Clone(ps[0]), held + multiset{ps[0]}, ps[1..]);
      assert held + multiset{ps[0]} + multiset(ps[1..]) == held + multiset(ps);
    }
  }

  // Only reference counts differ.
  ghost predicate SameButCounts(s: Store, s': Store) {
    && s'.archives == s.archives && s'.returned == s.returned && |s'.frames| == |s.frames|
    && forall i :: 0 <= i < |s.frames| ==> s'.frames[i] == s.frames[i].(refCount := s'.frames[i].refCount)
  }

  // ----- The steps of handling a frame -----

  // A new reference to `p` is taken and one to `was` given up.
  lemma SwapKeepsSound(s: Store, held: multiset<Ptr>, p: Ptr, was: Ptr, held': multiset<Ptr>)
    requires Sound(s, held) && p.To? && s.IsLive(p.id)
    requires forall id: nat :: held[To(id)] + multiset{p}[To(id)] == held'[To(id)] + multiset{was}[To(id)]
    ensures Sound(s.Clone(p), held' + multiset{was})
    ensures Sound(s.Clone(p).Drop(was), held')
    ensures Settles(s.Clone(p), s.Clone(p).Drop(was), |s.frames|)
    ensures SameButCounts(s, s.Clone(p))
  {
    CloneKeepsSound(s, held, p);
    SoundIgnoresNull(s.Clone(p), held + multiset{p}, held' + multiset{was});
    DropKeepsSound(s.Clone(p), held', was);
  }

  lemma OwnedAfterPut(a: Aggregator, ext: multiset<Ptr>, uid: int, p: Ptr, id: nat)
    requires Ascending(a.last)
    ensures (ext + a.Owned())[To(id)] + multiset{p}[To(id)]
            == (ext + a.Remember(uid, p).Owned())[To(id)] + multiset{Lookup(a.last, uid)}[To(id)]
  {
    PutBalances(a.last, uid, p, id);
  }

  // The references that change hands when a frame is remembered.
  lemma RememberSwaps(a: Aggregator, ext: multiset<Ptr>, uid: int, p: Ptr)
    requires AggSound(a, ext) && p.To? && a.store.IsLive(p.id)
    ensures var held' := ext + a.Remember(uid, p).Owned();
            && Sound(a.store.Clone(p), held' + multiset{Lookup(a.last, uid)})
            && Sound(a.Remember(uid, p).store, held')
            && Settles(a.store.Clone(p), a.Remember(uid, p).store, |a.store.frames|)
            && SameButCounts(a.store, a.store.Clone(p))
  {
    forall id: nat
      ensures (ext + a.Owned())[To(id)] + multiset{p}[To(id)]
              == (ext + a.Remember(uid, p).Owned())[To(id)] + multiset{Lookup(a.last, uid)}[To(id)]
    {
      OwnedAfterPut(a, ext, uid, p, id);
    }
    SwapKeepsSound(a.store, ext + a.Owned(), p, Lookup(a.last, uid), ext + a.Remember(uid, p).Owned());
  }

  lemma RememberKeepsSound(a: Aggregator, ext: multiset<Ptr>, uid: int, p: Ptr)
    requires AggSound(a, ext) && p.To? && a.store.IsLive(p.id)
    ensures AggSound(a.Remember(uid, p), ext)
    ensures Settles(a.store.Clone(p), a.Remember(uid, p).store, |a.store.frames|)
    ensures SameButCounts(a.store, a.store.Clone(p))
  {
    PutAscending(a.last, uid, p);
    RememberSwaps(a, ext, uid, p);
  }

  // The reference to a new composite goes to the queue, or is dropped with the
  // queue's oldest; the local holder of it stays.
  lemma DeliverKeepsSound(a: Aggregator, ext: multiset<Ptr>, c: Ptr)
    requires AggSound(a, ext) && c.To? && c in ext
    ensures AggSound(a.Deliver(c), ext)
    ensures a.Deliver(c).last == a.last
  {
    var held := ext + a.Owned();
    var items := a.queue.items;
    if |items| < FRAMES_TO_AGGREGATE {
      HeldIsLive(a.store, held, c.id);
      CloneKeepsSound(a.store, held, c);
      if a.queue.accepting {
        assert multiset(items + [c]) == multiset(items) + multiset{c};
        assert ext + a.Deliver(c).Owned() == held + multiset{c};
      } else {
        DropKeepsSound(a.store.Clone(c), held, c);
      }
    } else {
      assert items == [items[0]] + items[1..];
      assert held == ext + a.Deliver(c).Owned() + multiset{items[0]};
      DropKeepsSound(a.store, ext + a.Deliver(c).Owned(), items[0]);
    }
  }

  // Composing clones of everything in `last` adds one reference, to the composite, if
  // the archive grants it.
  lemma ComposedKeepsSound(a: Aggregator, ext: multiset<Ptr>)
    requires AggSound(a, ext) && (a.Grants() ==> Null !in Holders(a.last))
    ensures var (s, c) := a.Composed();
            && (c.To? <==> a.Grants())
            && Sound(s, ext + a.Owned() + multiset{c})
            && |s.archives| == |a.store.archives|
            && (c.To? ==> c.id == |a.store.frames| == |s.frames| - 1
                          && s.IsLive(c.id) && s.frames[c.id].slots == Holders(a.last)
                          && s.frames[..c.id] == CloneAll(a.store, Holders(a.last)).frames)
            && SameButCounts(a.store, CloneAll(a.store, Holders(a.last)))
  {
    var held := ext + a.Owned();
    var ps := Holders(a.last);
    CloneAllKeepsSound(a.store, held, ps);
    var s1 := CloneAll(a.store, ps);
    ComposeKeepsSound(s1, held, a.archive, ps, DefaultMeta());
  }

  lemma DescribedKeepsSound(a: Aggregator, ext: multiset<Ptr>, c: nat, f: Frame)
    requires AggSound(a, ext) && a.store.IsLive(c)
    ensures AggSound(a.(store := a.Described(c, f)), ext)
  {
    SetMetaKeepsSound(a.store, ext + a.Owned(), c, f.meta.(blocking := a.store.frames[c].meta.blocking));
  }

  // The map is cleared and the local holder of the composite dies.
  lemma ClearKeepsSound(a: Aggregator, ext: multiset<Ptr>, c: Ptr)
    requires AggSound(a, ext + multiset{c})
    ensures AggSound(a.(store := a.store.DropAll(Holders(a.last)).Drop(c), last := []), ext)
  {
    var ps := Holders(a.last);
    var rest := ext + multiset(a.queue.items);
    assert ext + multiset{c} + a.Owned() == rest + multiset{c} + multiset(ps);
    DropAllKeepsSound(a.store, rest + multiset{c}, ps);
    DropKeepsSound(a.store.DropAll(ps), rest, c);
    assert rest == ext + a.(last := []).Owned();
  }

  lemma EmitKeepsSound(a: Aggregator, ext: multiset<Ptr>, f: Frame)
    requires AggSound(a, ext) && (a.Grants() ==> Null !in Holders(a.last))
    ensures AggSound(a.Emit(f), ext)
  {
    var (s, c) := a.Composed();
    ComposedKeepsSound(a, ext);
    if c.Null? {
      SoundIgnoresNull(s, ext + a.Owned() + multiset{c}, ext + a.Owned());
    } else {
      var a1 := a.(store := s);
      assert ext + multiset{c} + a1.Owned() == ext + a.Owned() + multiset{c};
      DescribedKeepsSound(a1, ext + multiset{c}, c.id, f);
      var a2 := a1.(store := a1.Described(c.id, f));
      DeliverKeepsSound(a2, ext + multiset{c}, c);
      ClearKeepsSound(a2.Deliver(c), ext, c);
    }
  }

  // The frame that completes the set must not meet an empty holder there when the archive
  // grants the composite: asking an empty holder whether it blocks dereferences null.
  predicate Meets(a: Aggregator, p: Ptr) {
    a.Accepts(p) ==>
      var a1 := a.Remember(a.Profile(p).value, p);
      |a1.last| == |a.ids| && a1.Grants() ==> Null !in Holders(a1.last)
  }

  // Every path of handling a single frame keeps the store sound: filtered, stored,
  // replaced, refused, emitted, overflowed or turned away by a closed queue. The
  // caller's own references are what they were.
  lemma HandleSingleKeepsSound(a: Aggregator, ext: multiset<Ptr>, p: Ptr)
    requires AggSound(a, ext) && p.To? && p in ext && Meets(a, p)
    ensures AggSound(a.HandleSingle(p), ext)
  {
    if a.Accepts(p) {
      HeldIsLive(a.store, ext + a.Owned(), p.id);
      var a1 := a.Remember(a.Profile(p).value, p);
      RememberKeepsSound(a, ext, a.Profile(p).value, p);
      if |a1.last| == |a.ids| {
        EmitKeepsSound(a1, ext, a.store.frames[p.id]);
      }
    }
  }

  // ----- A refused allocation -----

  lemma DropAfterClone(s: Store, p: Ptr)
    requires p.To? ==> s.IsLive(p.id) && s.frames[p.id].refCount > 0
    ensures s.Clone(p).Drop(p) == s
  {
    if p.To? {
      var f := s.frames[p.id];
      assert s.frames[p.id := f.(refCount := f.refCount + 1)][p.id := f] == s.frames;
    }
  }

  predicate AllCounted(s: Store, ps: seq<Ptr>) {
    forall p :: p in ps && p.To? ==> s.IsLive(p.id) && s.frames[p.id].refCount > 0
  }

  lemma CloneCommutes(s: Store, p: Ptr, q: Ptr)
    requires AllCounted(s, [p, q])
    ensures s.Clone(p).Clone(q) == s.Clone(q).Clone(p)
  {
    assert p in [p, q] && q in [p, q];
    if p.To? && q.To? {
      assert s.Clone(p).Clone(q).frames == s.Clone(q).Clone(p).frames;
    }
  }

  lemma CloneKeepsCounted(s: Store, p: Ptr, ps: seq<Ptr>)
    requires AllCounted(s, ps) && p in ps
    ensures AllCounted(s.Clone(p), ps)
  {
  }

  lemma {:induction false} DropCancelsFirstClone(s: Store, p: Ptr, ps: seq<Ptr>)
    requires AllCounted(s, [p] + ps)
    ensures CloneAll(s.Clone(p), ps).Drop(p) == CloneAll(s, ps)
    decreases |ps|
  {
    assert p in [p] + ps && forall q :: q in ps ==> q in [p] + ps;
    if ps == [] {
      DropAfterClone(s, p);
    } else {
      assert ps[0] in ps && forall q :: q in ps[1..] ==> q in ps;
      CloneCommutes(s, p, ps[0]);
      CloneKeepsCounted(s, ps[0], [p] + ps);
      DropCancelsFirstClone(s.Clone(ps[0]), p, ps[1..]);
    }
  }

  // Taking a reference to each of `ps` and giving them up again changes nothing.
  lemma {:induction false} DropAllCancelsCloneAll(s: Store, ps: seq<Ptr>)
    requires AllCounted(s, ps)
    ensures CloneAll(s, ps).DropAll(ps) == s
    decreases |ps|
  {
    if ps != [] {
      assert ps == [ps[0]] + ps[1..];
      DropCancelsFirstClone(s, ps[0], ps[1..]);
      DropAllCancelsCloneAll(s, ps[1..]);
    }
  }

  // When the archive refuses the composite, handling the frame has only stored it: the
  // map, the queue and the whole store are as after the store alone, so the next
  // accepted frame finds a complete set and tries again.
  lemma RefusalOnlyStores(a: Aggregator, ext: multiset<Ptr>, p: Ptr)
    requires AggSound(a, ext) && p.To? && p in ext && a.Accepts(p)
    requires var a1 := a.Remember(a.Profile(p).value, p);
             |a1.last| == |a.ids| && !a1.Grants()
    ensures a.HandleSingle(p) == a.Remember(a.Profile(p).value, p)
  {
    var a1 := a.Remember(a.Profile(p).value, p);
    HeldIsLive(a.store, ext + a.Owned(), p.id);
    RememberKeepsSound(a, ext, a.Profile(p).value, p);
    var ps := Holders(a1.last);
    forall q | q in ps && q.To? ensures a1.store.IsLive(q.id) && a1.store.frames[q.id].refCount > 0 {
      HeldIsLive(a1.store, ext + a1.Owned(), q.id);
    }
    DropAllCancelsCloneAll(a1.store, ps);
    CloneAllKeepsSound(a1.store, ext + a1.Owned(), ps);
  }
}
