// Whole runs of an aggregator that is fed single frames while its consumer and every
// other client of the frame store act in between: what the composites contain, how
// many there are, and that nothing is leaked or lost.
module AggregatorRuns {
  import opened Prelude
  import opened FrameStore
  import opened FrameInvariant
  import opened FrameOwnership
  import opened Aggregation
  import opened AggregatorOwnership
  import opened AggregatorPaths
  import Q = ConsumerQueue

  // ----- The newest frame of a stream -----

  // `log` lists accepted frames with their streams, oldest first.
  function Newest(log: seq<Entry>, uid: int): Ptr {
    if log == [] then Null
    else if log[|log| - 1].uid == uid then log[|log| - 1].holder
    else Newest(log[..|log| - 1], uid)
  }

  function NewestPerStream(log: seq<Entry>, ids: seq<int>): seq<Ptr> {
    seq(|ids|, i requires 0 <= i < |ids| => Newest(log, ids[i]))
  }

  lemma NewestAppend(log: seq<Entry>, e: Entry, uid: int)
    ensures Newest(log + [e], uid) == if e.uid == uid then e.holder else Newest(log, uid)
  {
    assert (log + [e])[..|log|] == log;
  }

  // ----- The map when it is complete -----

  function Uids(last: seq<Entry>): (u: seq<int>)
    ensures |u| == |last| && forall i :: 0 <= i < |last| ==> u[i] == last[i].uid
  {
    seq(|last|, i requires 0 <= i < |last| => last[i].uid)
  }

  // Ascending ids among ascending ids are no more, and if as many, the same.
  lemma {:induction false} SortedSubset(a: seq<int>, b: seq<int>)
    requires Sorted(a) && Sorted(b) && forall x :: x in a ==> x in b
    ensures |a| <= |b| && (|a| == |b| ==> a == b)
  {
    if a != [] {
      var n := |a| - 1;
      assert a[n] in a;
      var k :| 0 <= k < |b| && b[k] == a[n];
      forall x | x in a[..n] ensures x in b[..k] {
        var i :| 0 <= i < n && a[i] == x;
        assert a[i] in a;
        var j :| 0 <= j < |b| && b[j] == x;
        assert b[j] < b[k];
        assert j < k;
        assert b[..k][j] == x;
      }
      SortedSubset(a[..n], b[..k]);
      if |a| == |b| {
        assert a == a[..n] + [a[n]];
        assert b == b[..k] + [b[k]];
      }
    }
  }

  lemma {:induction false} HoldersAt(last: seq<Entry>, i: nat)
    requires i < |last|
    ensures |Holders(last)| == |last| && Holders(last)[i] == last[i].holder
  {
    HoldersLength(last);
    if i > 0 { HoldersAt(last[1..], i - 1); }
  }

  lemma {:induction false} HoldersLength(last: seq<Entry>)
    ensures |Holders(last)| == |last|
  {
    if last != [] { HoldersLength(last[1..]); }
  }

  ghost predicate Tracks(last: seq<Entry>, ids: seq<int>, log: seq<Entry>) {
    && Ascending(last)
    && (forall e :: e in last ==> e.uid in ids && e.holder.To?)
    && (forall uid :: Lookup(last, uid) == Newest(log, uid))
  }

  // A map with as many entries as there are streams holds, in ascending order of ids,
  // the newest frame of each.
  lemma CompleteMap(last: seq<Entry>, ids: seq<int>, log: seq<Entry>)
    requires Tracks(last, ids, log) && Sorted(ids) && |last| == |ids|
    ensures Holders(last) == NewestPerStream(log, ids) && Null !in Holders(last)
  {
    var u := Uids(last);
    forall x | x in u ensures x in ids {
      var i :| 0 <= i < |u| && u[i] == x;
      assert last[i] in last;
    }
    SortedSubset(u, ids);
    HoldersLength(last);
    forall i | 0 <= i < |ids| ensures Holders(last)[i] == Newest(log, ids[i]) && Holders(last)[i].To? {
      HoldersAt(last, i);
      assert last[i] in last;
      EntryIsLookup(last, last[i]);
      assert u[i] == ids[i];
    }
  }

  // It is complete exactly when every requested stream has sent a frame.
  lemma CompleteIffAllStreams(last: seq<Entry>, ids: seq<int>, log: seq<Entry>)
    requires Tracks(last, ids, log) && Sorted(ids)
    ensures |last| == |ids| <==> forall uid :: uid in ids ==> Newest(log, uid).To?
  {
    if |last| == |ids| {
      CompleteMap(last, ids, log);
      forall uid | uid in ids ensures Newest(log, uid).To? {
        var i :| 0 <= i < |ids| && ids[i] == uid;
        assert NewestPerStream(log, ids)[i] in Holders(last);
      }
    }
    if forall uid :: uid in ids ==> Newest(log, uid).To? {
      var u := Uids(last);
      forall uid | uid in ids ensures uid in u {
        assert Lookup(last, uid).To?;
        if !HasKey(last, uid) { AbsentHasNull(last, uid); }
        LookupFinds(last, uid);
        var i :| 0 <= i < |last| && last[i] == Entry(uid, Lookup(last, uid));
        assert u[i] == uid;
      }
      SortedSubset(ids, u);
      forall x | x in u ensures x in ids {
        var i :| 0 <= i < |u| && u[i] == x;
        assert last[i] in last;
      }
      SortedSubset(u, ids);
    }
  }

  lemma PutTracks(last: seq<Entry>, ids: seq<int>, log: seq<Entry>, uid: int, p: Ptr)
    requires Tracks(last, ids, log) && uid in ids && p.To?
    ensures Tracks(Put(last, uid, p), ids, log + [Entry(uid, p)])
  {
    PutAscending(last, uid, p);
    forall x ensures Lookup(Put(last, uid, p), x) == Newest(log + [Entry(uid, p)], x) {
      PutKeys(last, uid, p, x);
      NewestAppend(log, Entry(uid, p), x);
    }
  }

  // ----- The slots of a frame never change once it is composed -----

  ghost predicate SlotsStable(s: Store, s': Store) {
    |s.frames| <= |s'.frames| && forall i :: 0 <= i < |s.frames| ==> s'.frames[i].slots == s.frames[i].slots
  }

  lemma SettlesKeepsSlots(s: Store, s': Store, bound: nat)
    requires Settles(s, s', bound)
    ensures SlotsStable(s, s')
  {
    forall i | 0 <= i < |s.frames| ensures s'.frames[i].slots == s.frames[i].slots {
      assert SettlesAt(s.frames[i], s'.frames[i], i < bound);
    }
  }

  lemma OpKeepsSlots(w: World, op: Op)
    requires Sound(w.store, w.held) && Enabled(w, op)
    ensures SlotsStable(w.store, Step(w, op).store)
  {
    var World(s, held) := w;
    match op
    case DestroyHolder(p) => DropKeepsSlots(s, held, p);
    case AssignHolder(dst, _) => DropKeepsSlots(s, held, dst);
    case AssignSelf(p) => DropKeepsSlots(s, held, p);
    case KeepFrameOf(p) => KeepKeepsSlots(s, held, p.id);
    case ComposeFrames(r, ps, meta) => ComposeKeepsSlots(s, held, r, ps, meta);
    case _ =>
  }

  lemma KeepKeepsSlots(s: Store, held: multiset<Ptr>, id: nat)
    requires Sound(s, held) && To(id) in held
    ensures SlotsStable(s, s.Keep(id))
  {
    HeldIsLive(s, held, id);
    KeepKeepsInv(s, held, id);
  }

  lemma ComposeKeepsSlots(s: Store, held: multiset<Ptr>, r: nat, ps: seq<Ptr>, meta: Meta)
    requires Sound(s, held) && r < |s.archives| && multiset(ps) <= held && (s.Grants(r) ==> Null !in ps)
    ensures SlotsStable(s, s.Compose(r, ps, meta).0)
  {
    assert held == held - multiset(ps) + multiset(ps);
    ComposeKeepsSound(s, held - multiset(ps), r, ps, meta);
    var (s', p) := s.Compose(r, ps, meta);
    if p.Null? {
      SettlesKeepsSlots(s, s', |s.frames|);
    } else {
      assert forall i :: 0 <= i < |s.frames| ==> s'.frames[i] == s'.frames[..p.id][i];
    }
  }

  lemma DropKeepsSlots(s: Store, held: multiset<Ptr>, p: Ptr)
    requires Sound(s, held) && p in held
    ensures SlotsStable(s, s.Drop(p))
  {
    assert held == held - multiset{p} + multiset{p};
    DropKeepsSound(s, held - multiset{p}, p);
    SettlesKeepsSlots(s, s.Drop(p), |s.frames|);
  }

  // ----- What one emission does -----

  // The description of a composite: that of the frame that completed it, and blocking
  // exactly when some part is.
  ghost function Description(s: Store, parts: seq<Ptr>, meta: Meta): Meta {
    meta.(blocking := exists p :: p in parts && p.To? && p.id < |s.frames| && s.frames[p.id].meta.blocking)
  }

  // Frame c is live, holds exactly `slots`, and is described by `meta`.
  predicate IsComposite(s: Store, c: nat, slots: seq<Ptr>, meta: Meta) {
    s.IsLive(c) && s.frames[c].slots == slots && s.frames[c].meta == meta
  }

  lemma SettlesKeepsComposite(s: Store, s': Store, bound: nat, c: nat, slots: seq<Ptr>, meta: Meta)
    requires Settles(s, s', bound) && IsComposite(s, c, slots, meta) && s'.IsLive(c)
    ensures IsComposite(s', c, slots, meta)
  {
    assert SettlesAt(s.frames[c], s'.frames[c], c < bound);
  }

  // What the aggregator does with a composite it was granted: the queue gains it, or
  // loses its oldest and it is dropped; the map is empty again.
  lemma DeliverEffect(a: Aggregator, ext: multiset<Ptr>, c: Ptr, slots: seq<Ptr>, meta: Meta)
    requires AggSound(a, ext) && c.To? && c in ext && a.queue.accepting
    requires IsComposite(a.store, c.id, slots, meta)
    ensures SlotsStable(a.store, a.Deliver(c).store)
    ensures IsComposite(a.Deliver(c).store, c.id, slots, meta)
    ensures a.Deliver(c).queue.items ==
            if |a.queue.items| < FRAMES_TO_AGGREGATE then a.queue.items + [c] else a.queue.items[1..]
    ensures a.Deliver(c).queue.accepting
  {
    var items := a.queue.items;
    if |items| >= FRAMES_TO_AGGREGATE {
      assert items[0] in items;
      DropKeepsSlots(a.store, ext + a.Owned(), items[0]);
      DeliverKeepsSound(a, ext, c);
      HeldIsLive(a.Deliver(c).store, ext + a.Deliver(c).Owned(), c.id);
      assert ext + a.Owned() == ext + a.Owned() - multiset{items[0]} + multiset{items[0]};
      DropKeepsSound(a.store, ext + a.Owned() - multiset{items[0]}, items[0]);
      SettlesKeepsComposite(a.store, a.Deliver(c).store, |a.store.frames|, c.id, slots, meta);
    }
  }

  lemma ClearEffect(a: Aggregator, ext: multiset<Ptr>, c: Ptr)
    requires AggSound(a, ext + multiset{c})
    ensures Settles(a.store, a.store.DropAll(Holders(a.last)).Drop(c), |a.store.frames|)
  {
    var ps := Holders(a.last);
    var rest := ext + multiset(a.queue.items);
    assert ext + multiset{c} + a.Owned() == rest + multiset{c} + multiset(ps);
    DropAllKeepsSound(a.store, rest + multiset{c}, ps);
    DropKeepsSound(a.store.DropAll(ps), rest, c);
    SettlesChain(a.store, a.store.DropAll(ps), a.store.DropAll(ps).Drop(c), |a.store.frames|);
  }

  // The composite as it comes from the archive and is described, before the queue.
  lemma ComposedEffect(a: Aggregator, ext: multiset<Ptr>, f: Frame)
    requires AggSound(a, ext) && Null !in Holders(a.last) && a.Composed().1.To?
    ensures var (s, c) := a.Composed();
            var a1 := a.(store := s);
            var a2 := a1.(store := a1.Described(c.id, f));
            && AggSound(a2, ext + multiset{c})
            && SlotsStable(a.store, a2.store)
            && c.id == |a.store.frames|
            && IsComposite(a2.store, c.id, Holders(a.last), Description(a.store, Holders(a.last), f.meta))
            && a.Emit(f) == a2.Deliver(c).(store := a2.Deliver(c).store.DropAll(Holders(a.last)).Drop(c), last := [])
  {
    var (s, c) := a.Composed();
    ComposedKeepsSound(a, ext);
    var a1 := a.(store := s);
    assert ext + multiset{c} + a1.Owned() == ext + a.Owned() + multiset{c};
    DescribedKeepsSound(a1, ext + multiset{c}, c.id, f);
    var s0 := CloneAll(a.store, Holders(a.last));
    forall i | 0 <= i < |a.store.frames|
      ensures s.frames[i].slots == a.store.frames[i].slots && s0.frames[i].meta == a.store.frames[i].meta
    {
      assert s.frames[i] == s.frames[..c.id][i] == s0.frames[i];
    }
    ComposedBlocks(a, ext);
  }

  lemma ComposedBlocks(a: Aggregator, ext: multiset<Ptr>)
    requires AggSound(a, ext) && Null !in Holders(a.last) && a.Composed().1.To?
    ensures var (s, c) := a.Composed();
            c.id < |s.frames| && s.frames[c.id].meta == Description(a.store, Holders(a.last), DefaultMeta())
  {
    var ps := Holders(a.last);
    CloneAllKeepsSound(a.store, ext + a.Owned(), ps);
    var s0 := CloneAll(a.store, ps);
    forall p | p in ps ensures p.To? && s0.IsLive(p.id) {
      assert p != Null;
      HeldIsLive(s0, ext + a.Owned() + multiset(ps), p.id);
    }
    assert s0.AnyBlocking(ps) <==> Description(a.store, ps, DefaultMeta()).blocking;
  }

  lemma EmitEffect(a: Aggregator, ext: multiset<Ptr>, f: Frame)
    requires AggSound(a, ext) && Null !in Holders(a.last) && a.queue.accepting
    ensures var a' := a.Emit(f);
            var c := a.Composed().1;
            && SlotsStable(a.store, a'.store)
            && a'.queue.accepting && a'.ids == a.ids && a'.accepting == a.accepting
            && (c.Null? ==> a'.last == a.last && a'.queue == a.queue)
            && (c.To? ==>
                  && a'.last == []
                  && c.id == |a.store.frames| < |a'.store.frames|
                  && a'.store.frames[c.id].slots == Holders(a.last)
                  && (|a.queue.items| < FRAMES_TO_AGGREGATE ==>
                        && a'.queue.items == a.queue.items + [c]
                        && IsComposite(a'.store, c.id, Holders(a.last), Description(a.store, Holders(a.last), f.meta)))
                  && (|a.queue.items| == FRAMES_TO_AGGREGATE ==> a'.queue.items == a.queue.items[1..]))
  {
    var (s, c) := a.Composed();
    ComposedKeepsSound(a, ext);
    if c.Null? {
      RefusedKeepsSlots(a, ext);
    } else {
      ComposedEffect(a, ext, f);
      var a1 := a.(store := s);
      var a2 := a1.(store := a1.Described(c.id, f));
      var meta := Description(a.store, Holders(a.last), f.meta);
      DeliverEffect(a2, ext + multiset{c}, c, Holders(a.last), meta);
      DeliverKeepsSound(a2, ext + multiset{c}, c);
      var a3 := a2.Deliver(c);
      ClearEffect(a3, ext, c);
      SettlesKeepsSlots(a3.store, a.Emit(f).store, |a3.store.frames|);
      if |a.queue.items| < FRAMES_TO_AGGREGATE {
        EmitKeepsSound(a, ext, f);
        assert c in a.Emit(f).queue.items;
        HeldIsLive(a.Emit(f).store, ext + a.Emit(f).Owned(), c.id);
        SettlesKeepsComposite(a3.store, a.Emit(f).store, |a3.store.frames|, c.id, Holders(a.last), meta);
      }
    }
  }

  lemma RefusedKeepsSlots(a: Aggregator, ext: multiset<Ptr>)
    requires AggSound(a, ext) && a.Composed().1.Null?
    ensures SlotsStable(a.store, a.Composed().0)
  {
    var ps := Holders(a.last);
    CloneAllKeepsSound(a.store, ext + a.Owned(), ps);
    var s := CloneAll(a.store, ps);
    DropAllKeepsSound(s, ext + a.Owned(), ps);
    SettlesKeepsSlots(s, s.DropAll(ps), |s.frames|);
    assert a.Composed().0 == s.DropAll(ps);
  }

  // ----- Runs -----

  // A composite the aggregator formed, and the frames accepted since the one before it,
  // the one that completed it included.
  datatype Emission = Emission(composite: nat, log: seq<Entry>)

  datatype RunState = RunState(
    agg: Aggregator,
    ext: multiset<Ptr>,        // holders of everyone else
    log: seq<Entry>,           // frames accepted since the last emission
    emissions: seq<Emission>,  // one per composite formed
    entered: seq<nat>,         // which of them entered the queue
    left: nat,                 // how many of these have left it again
    handed: seq<nat>,          // which of these went to the consumer
    got: seq<Ptr>,             // what the consumer got
    overflows: nat)

  datatype Event =
    | Feed(p: Ptr)             // handleFrame with a frame someone holds
    | Consume                  // dequeue or tryDequeue
    | Client(op: Op)           // anyone else uses the frame store

  predicate CanHappen(r: RunState, e: Event) {
    match e
    case Feed(p) => p.To? && p in r.ext && p.id < |r.agg.store.frames| && !r.agg.store.frames[p.id].composite
    case Consume => true
    case Client(op) => Enabled(World(r.agg.store, r.ext), op)
  }

  function Next(r: RunState, e: Event): RunState {
    match e
    case Feed(p) => FeedNext(r, p)
    case Consume =>
      var (a, p) := r.agg.Dequeue();
      if p.Null? then r.(agg := a)
      else
        r.(agg := a, ext := r.ext + multiset{p}, left := r.left + 1, handed := r.handed + [r.left], got := r.got + [p])
    case Client(op) =>
      var World(s, ext) := Step(World(r.agg.store, r.ext), op);
      r.(agg := r.agg.(store := s), ext := ext)
  }

  function FeedNext(r: RunState, p: Ptr): RunState {
    var a := r.agg;
    var r' := r.(agg := a.Handle(p));
    if !a.Accepts(p) then r'
    else
      var a1 := a.Remember(a.Profile(p).value, p);
      var log := r.log + [Entry(a.Profile(p).value, p)];
      if |a1.last| == |a.ids| && a1.Composed().1.To? then
        Recorded(r'.(log := []), Emission(a1.Composed().1.id, log), |a.queue.items| < FRAMES_TO_AGGREGATE)
      else r'.(log := log)
  }

  // One more composite: it enters the queue, or is dropped and the oldest leaves.
  function Recorded(r: RunState, e: Emission, room: bool): RunState {
    var r' := r.(emissions := r.emissions + [e]);
    if room then r'.(entered := r.entered + [|r.emissions|])
    else r'.(left := r.left + 1, overflows := r.overflows + 1)
  }

  predicate Increasing(ks: seq<nat>) {
    forall i, j :: 0 <= i < j < |ks| ==> ks[i] < ks[j]
  }

  // `p` is the k-th of the composites that entered the queue.
  predicate IsEntry(r: RunState, k: int, p: Ptr) {
    0 <= k < |r.entered| && r.entered[k] < |r.emissions| && p == To(r.emissions[r.entered[k]].composite)
  }

  // The composites that entered the queue did so in the order they were formed; they
  // leave it in that order, some to the consumer and one per overflow not; the others
  // are in the queue.
  ghost predicate QueueFollows(r: RunState) {
    && Increasing(r.entered) && (forall k :: 0 <= k < |r.entered| ==> r.entered[k] < |r.emissions|)
    && |r.emissions| == |r.entered| + r.overflows
    && |r.entered| == r.left + |r.agg.queue.items|
    && (forall k :: 0 <= k < |r.agg.queue.items| ==> IsEntry(r, r.left + k, r.agg.queue.items[k]))
    && r.left == |r.handed| + r.overflows
    && Increasing(r.handed) && |r.got| == |r.handed|
    && (forall k :: 0 <= k < |r.handed| ==> r.handed[k] < r.left && IsEntry(r, r.handed[k], r.got[k]))
  }

  ghost predicate EmissionRight(s: Store, ids: seq<int>, e: Emission) {
    && e.composite < |s.frames|
    && s.frames[e.composite].slots == NewestPerStream(e.log, ids)
    && (forall uid :: uid in ids ==> Newest(e.log, uid).To?)
  }

  ghost predicate RunInv(r: RunState) {
    && AggSound(r.agg, r.ext)
    && r.agg.accepting && r.agg.queue.accepting && Sorted(r.agg.ids)
    && Tracks(r.agg.last, r.agg.ids, r.log)
    && (forall k :: 0 <= k < |r.emissions| ==> EmissionRight(r.agg.store, r.agg.ids, r.emissions[k]))
    && QueueFollows(r)
  }

  lemma StableEmissions(s: Store, s': Store, ids: seq<int>, es: seq<Emission>)
    requires SlotsStable(s, s')
    requires forall k :: 0 <= k < |es| ==> EmissionRight(s, ids, es[k])
    ensures forall k :: 0 <= k < |es| ==> EmissionRight(s', ids, es[k])
  {
    forall k | 0 <= k < |es| ensures EmissionRight(s', ids, es[k]) {
      assert EmissionRight(s, ids, es[k]);
    }
  }

  // Storing an accepted frame keeps everything but the log entry it adds.
  lemma StoreKeepsRun(r: RunState, p: Ptr)
    requires RunInv(r) && CanHappen(r, Feed(p)) && r.agg.Accepts(p)
    ensures var uid := r.agg.Profile(p).value;
            var a1 := r.agg.Remember(uid, p);
            && AggSound(a1, r.ext)
            && Tracks(a1.last, a1.ids, r.log + [Entry(uid, p)])
            && SlotsStable(r.agg.store, a1.store)
            && (|a1.last| == |a1.ids| ==> Holders(a1.last) == NewestPerStream(r.log + [Entry(uid, p)], a1.ids)
                                          && Null !in Holders(a1.last))
  {
    var a := r.agg;
    var uid := a.Profile(p).value;
    var a1 := a.Remember(uid, p);
    HeldIsLive(a.store, r.ext + a.Owned(), p.id);
    RememberKeepsSound(a, r.ext, uid, p);
    SettlesKeepsSlots(a.store.Clone(p), a1.store, |a.store.frames|);
    PutTracks(a.last, a.ids, r.log, uid, p);
    if |a1.last| == |a1.ids| {
      CompleteMap(a1.last, a1.ids, r.log + [Entry(uid, p)]);
    }
  }

  // The first half of FeedNext.
  function Stored(r: RunState, p: Ptr): RunState
    requires r.agg.Accepts(p)
  {
    var uid := r.agg.Profile(p).value;
    r.(agg := r.agg.Remember(uid, p), log := r.log + [Entry(uid, p)])
  }

  lemma StoreKeepsRunInv(r: RunState, p: Ptr)
    requires RunInv(r) && CanHappen(r, Feed(p)) && r.agg.Accepts(p)
    ensures RunInv(Stored(r, p))
  {
    StoreKeepsRun(r, p);
    StableEmissions(r.agg.store, Stored(r, p).agg.store, r.agg.ids, r.emissions);
    SameQueueFollows(r, Stored(r, p).agg, r.ext, Stored(r, p).log);
  }

  // The second half of FeedNext, once the map is complete.
  function EmitNext(r: RunState, f: Frame): RunState {
    var a := r.agg;
    var r' := r.(agg := a.Emit(f));
    if a.Composed().1.To? then
      Recorded(r'.(log := []), Emission(a.Composed().1.id, r.log), |a.queue.items| < FRAMES_TO_AGGREGATE)
    else r'
  }

  lemma NewEmissionRight(r: RunState, f: Frame)
    requires RunInv(r) && |r.agg.last| == |r.agg.ids| && r.agg.Composed().1.To?
    ensures EmissionRight(r.agg.Emit(f).store, r.agg.ids, Emission(r.agg.Composed().1.id, r.log))
  {
    CompleteMap(r.agg.last, r.agg.ids, r.log);
    CompleteIffAllStreams(r.agg.last, r.agg.ids, r.log);
    EmitEffect(r.agg, r.ext, f);
  }

  lemma EmissionsStayRight(r: RunState, f: Frame, k: nat)
    requires RunInv(r) && |r.agg.last| == |r.agg.ids| && k < |EmitNext(r, f).emissions|
    ensures EmissionRight(r.agg.Emit(f).store, r.agg.ids, EmitNext(r, f).emissions[k])
  {
    if k == |r.emissions| {
      NewEmissionRight(r, f);
    } else {
      CompleteMap(r.agg.last, r.agg.ids, r.log);
      EmitEffect(r.agg, r.ext, f);
      assert EmissionRight(r.agg.store, r.agg.ids, r.emissions[k]);
    }
  }

  lemma EmptyTracks(ids: seq<int>)
    ensures Tracks([], ids, [])
  {
  }

  // A composite that enters the queue.
  lemma EnterKeepsOrder(r: RunState, agg: Aggregator, e: Emission)
    requires QueueFollows(r) && agg.queue.items == r.agg.queue.items + [To(e.composite)]
    ensures QueueFollows(Recorded(r.(agg := agg, log := []), e, true))
  {
    var r' := Recorded(r.(agg := agg, log := []), e, true);
    forall k | 0 <= k < |agg.queue.items| ensures IsEntry(r', r'.left + k, agg.queue.items[k]) {
      assert k < |r.agg.queue.items| ==> IsEntry(r, r.left + k, r.agg.queue.items[k]);
    }
    forall k | 0 <= k < |r'.handed| ensures r'.handed[k] < r'.left && IsEntry(r', r'.handed[k], r'.got[k]) {
      assert IsEntry(r, r.handed[k], r.got[k]);
    }
  }

  // One that is dropped together with the oldest.
  lemma OverflowKeepsOrder(r: RunState, agg: Aggregator, e: Emission)
    requires QueueFollows(r) && r.agg.queue.items != [] && agg.queue.items == r.agg.queue.items[1..]
    ensures QueueFollows(Recorded(r.(agg := agg, log := []), e, false))
  {
    var r' := Recorded(r.(agg := agg, log := []), e, false);
    forall k | 0 <= k < |agg.queue.items| ensures IsEntry(r', r'.left + k, agg.queue.items[k]) {
      assert IsEntry(r, r.left + (k + 1), r.agg.queue.items[k + 1]);
    }
    forall k | 0 <= k < |r'.handed| ensures r'.handed[k] < r'.left && IsEntry(r', r'.handed[k], r'.got[k]) {
      assert IsEntry(r, r.handed[k], r.got[k]);
    }
  }

  // The books after a composite has been formed.
  lemma RecordKeepsOrder(r: RunState, agg: Aggregator, e: Emission)
    requires QueueFollows(r) && |r.agg.queue.items| <= FRAMES_TO_AGGREGATE
    requires agg.queue.items == if |r.agg.queue.items| < FRAMES_TO_AGGREGATE
                                then r.agg.queue.items + [To(e.composite)] else r.agg.queue.items[1..]
    ensures QueueFollows(Recorded(r.(agg := agg, log := []), e, |r.agg.queue.items| < FRAMES_TO_AGGREGATE))
  {
    if |r.agg.queue.items| < FRAMES_TO_AGGREGATE {
      EnterKeepsOrder(r, agg, e);
    } else {
      OverflowKeepsOrder(r, agg, e);
    }
  }

  lemma TakeKeepsOrder(r: RunState, agg: Aggregator, ext: multiset<Ptr>)
    requires QueueFollows(r) && r.agg.queue.items != [] && agg.queue.items == r.agg.queue.items[1..]
    ensures QueueFollows(r.(agg := agg, ext := ext, left := r.left + 1, handed := r.handed + [r.left],
                            got := r.got + [r.agg.queue.items[0]]))
  {
    var items := r.agg.queue.items;
    var r' := r.(agg := agg, ext := ext, left := r.left + 1, handed := r.handed + [r.left], got := r.got + [items[0]]);
    forall k | 0 <= k < |agg.queue.items| ensures IsEntry(r', r'.left + k, agg.queue.items[k]) {
      assert IsEntry(r, r.left + (k + 1), items[k + 1]);
    }
    forall k | 0 <= k < |r'.handed| ensures r'.handed[k] < r'.left && IsEntry(r', r'.handed[k], r'.got[k]) {
      assert IsEntry(r, r.left + 0, items[0]);
      assert k < |r.handed| ==> IsEntry(r, r.handed[k], r.got[k]);
    }
  }

  // Whatever leaves the queue and the emissions alone leaves their order alone.
  lemma SameQueueFollows(r: RunState, agg: Aggregator, ext: multiset<Ptr>, log: seq<Entry>)
    requires QueueFollows(r) && agg.queue.items == r.agg.queue.items
    ensures QueueFollows(r.(agg := agg, ext := ext, log := log))
  {
    var r' := r.(agg := agg, ext := ext, log := log);
    forall k | 0 <= k < |agg.queue.items| ensures IsEntry(r', r'.left + k, agg.queue.items[k]) {
      assert IsEntry(r, r.left + k, r.agg.queue.items[k]);
    }
    forall k | 0 <= k < |r'.handed| ensures r'.handed[k] < r'.left && IsEntry(r', r'.handed[k], r'.got[k]) {
      assert IsEntry(r, r.handed[k], r.got[k]);
    }
  }

  lemma EmitAccounts(r: RunState, f: Frame)
    requires RunInv(r) && |r.agg.last| == |r.agg.ids|
    ensures var r' := EmitNext(r, f);
            && r'.agg.accepting && r'.agg.queue.accepting && r'.agg.ids == r.agg.ids
            && Tracks(r'.agg.last, r'.agg.ids, r'.log)
            && QueueFollows(r')
  {
    var a' := r.agg.Emit(f);
    CompleteMap(r.agg.last, r.agg.ids, r.log);
    EmitCounts(r.agg, r.ext, f);
    EmptyTracks(r.agg.ids);
    if r.agg.Composed().1.To? {
      RecordKeepsOrder(r, a', Emission(r.agg.Composed().1.id, r.log));
    } else {
      SameQueueFollows(r, a', r.ext, r.log);
    }
  }

  lemma EmitCounts(a: Aggregator, ext: multiset<Ptr>, f: Frame)
    requires AggSound(a, ext) && Null !in Holders(a.last) && a.queue.accepting
    ensures var a' := a.Emit(f);
            && a'.queue.accepting && a'.ids == a.ids && a'.accepting == a.accepting
            && (a.Composed().1.Null? ==> a'.last == a.last && a'.queue == a.queue)
            && (a.Composed().1.To? ==>
                  && a'.last == []
                  && a'.queue.items == if |a.queue.items| < FRAMES_TO_AGGREGATE
                                       then a.queue.items + [To(a.Composed().1.id)] else a.queue.items[1..])
  {
    EmitEffect(a, ext, f);
  }

  lemma EmitKeepsRunInv(r: RunState, f: Frame)
    requires RunInv(r) && |r.agg.last| == |r.agg.ids|
    ensures RunInv(EmitNext(r, f)) && EmitNext(r, f).agg.ids == r.agg.ids
  {
    CompleteMap(r.agg.last, r.agg.ids, r.log);
    EmitKeepsSound(r.agg, r.ext, f);
    EmitAccounts(r, f);
    var es := EmitNext(r, f).emissions;
    forall k | 0 <= k < |es| ensures EmissionRight(r.agg.Emit(f).store, r.agg.ids, es[k]) {
      EmissionsStayRight(r, f, k);
    }
  }

  // FeedNext is the two halves one after the other.
  lemma FeedHalves(r: RunState, p: Ptr)
    requires r.agg.accepting && p.To? && r.agg.store.IsLive(p.id) && !r.agg.store.frames[p.id].composite
    ensures Next(r, Feed(p)) ==
            if !r.agg.Accepts(p) then r
            else
              var r1 := Stored(r, p);
              if |r1.agg.last| == |r1.agg.ids| then EmitNext(r1, r.agg.store.frames[p.id]) else r1
  {
  }

  lemma FeedKeepsRunInv(r: RunState, p: Ptr)
    requires RunInv(r) && CanHappen(r, Feed(p))
    ensures RunInv(Next(r, Feed(p))) && Next(r, Feed(p)).agg.ids == r.agg.ids
  {
    var a := r.agg;
    HeldIsLive(a.store, r.ext + a.Owned(), p.id);
    FeedHalves(r, p);
    if a.Accepts(p) {
      StoreKeepsRunInv(r, p);
      var r1 := Stored(r, p);
      if |r1.agg.last| == |r1.agg.ids| {
        EmitKeepsRunInv(r1, a.store.frames[p.id]);
      }
    }
  }

  lemma ConsumeKeepsOrder(r: RunState)
    requires QueueFollows(r)
    ensures QueueFollows(Next(r, Consume))
  {
    var items := r.agg.queue.items;
    var (a, p) := r.agg.Dequeue();
    if items == [] {
      SameQueueFollows(r, a, r.ext, r.log);
    } else {
      assert IsEntry(r, r.left + 0, items[0]);
      TakeKeepsOrder(r, a, r.ext + multiset{p});
    }
  }

  lemma ConsumeKeepsRunInv(r: RunState)
    requires RunInv(r)
    ensures RunInv(Next(r, Consume)) && Next(r, Consume).agg.ids == r.agg.ids
  {
    DequeueKeepsSound(r.agg, r.ext);
    ConsumeKeepsOrder(r);
    StableEmissions(r.agg.store, Next(r, Consume).agg.store, r.agg.ids, r.emissions);
  }

  // A client's step on its own holders does not see those of the aggregator.
  lemma StepFrames(s: Store, e: multiset<Ptr>, h: multiset<Ptr>, op: Op)
    requires Enabled(World(s, e), op)
    ensures Enabled(World(s, e + h), op)
    ensures Step(World(s, e + h), op).store == Step(World(s, e), op).store
    ensures Step(World(s, e + h), op).held == Step(World(s, e), op).held + h
  {
    EnabledFrames(s, e, h, op);
    StoreIgnoresHolders(s, e, e + h, op);
    HeldByStep(s, e, op);
    HeldByStep(s, e + h, op);
    TakeFrames(e, h, TakenBy(op), GivenBy(s, op));
  }

  lemma EnabledFrames(s: Store, e: multiset<Ptr>, h: multiset<Ptr>, op: Op)
    requires Enabled(World(s, e), op)
    ensures Enabled(World(s, e + h), op) && TakenBy(op) <= e
  {
    if op.AssignHolder? { assert multiset{op.dst} <= multiset{op.dst, op.src}; }
  }

  lemma StoreIgnoresHolders(s: Store, e: multiset<Ptr>, e': multiset<Ptr>, op: Op)
    ensures Step(World(s, e), op).store == Step(World(s, e'), op).store
  {
  }

  lemma TakeFrames(e: multiset<Ptr>, h: multiset<Ptr>, out: multiset<Ptr>, into: multiset<Ptr>)
    requires out <= e
    ensures e + h - out + into == e - out + into + h
  {
  }

  lemma OpKeepsArchives(w: World, op: Op)
    requires Sound(w.store, w.held) && Enabled(w, op)
    ensures |Step(w, op).store.archives| == |w.store.archives|
  {
    var World(s, held) := w;
    match op
    case DestroyHolder(p) => TakeSettles(s, held, p);
    case AssignHolder(dst, _) => TakeSettles(s, held, dst);
    case AssignSelf(p) => TakeSettles(s, held, p);
    case ComposeFrames(r, ps, meta) => ComposeKeepsArchives(s, held, r, ps, meta);
    case _ =>
  }

  lemma ComposeKeepsArchives(s: Store, held: multiset<Ptr>, r: nat, ps: seq<Ptr>, meta: Meta)
    requires Sound(s, held) && r < |s.archives| && multiset(ps) <= held
    ensures |s.Compose(r, ps, meta).0.archives| == |s.archives|
  {
    if s.Compose(r, ps, meta).1.Null? {
      assert held == held - multiset(ps) + multiset(ps);
      DropAllKeepsSound(s, held - multiset(ps), ps);
    }
  }

  lemma TakeSettles(s: Store, held: multiset<Ptr>, p: Ptr)
    requires Sound(s, held) && p in held
    ensures Settles(s, s.Drop(p), |s.frames|)
  {
    assert held == held - multiset{p} + multiset{p};
    DropKeepsSound(s, held - multiset{p}, p);
  }

  lemma ClientKeepsRunInv(r: RunState, op: Op)
    requires RunInv(r) && CanHappen(r, Client(op))
    ensures RunInv(Next(r, Client(op))) && Next(r, Client(op)).agg.ids == r.agg.ids
  {
    var a := r.agg;
    var w := World(a.store, r.ext + a.Owned());
    StepFrames(a.store, r.ext, a.Owned(), op);
    StepKeepsSound(w, op);
    OpKeepsSlots(w, op);
    OpKeepsArchives(w, op);
    StableEmissions(a.store, Step(w, op).store, a.ids, r.emissions);
    assert Next(r, Client(op)).agg.Owned() == a.Owned();
    SameQueueFollows(r, Next(r, Client(op)).agg, Next(r, Client(op)).ext, r.log);
  }

  lemma NextKeepsRunInv(r: RunState, e: Event)
    requires RunInv(r) && CanHappen(r, e)
    ensures RunInv(Next(r, e)) && Next(r, e).agg.ids == r.agg.ids
  {
    match e
    case Feed(p) => FeedKeepsRunInv(r, p);
    case Consume => ConsumeKeepsRunInv(r);
    case Client(op) => ClientKeepsRunInv(r, op);
  }

  predicate RunPossible(r: RunState, events: seq<Event>)
    decreases |events|
  {
    events == [] || (CanHappen(r, events[0]) && RunPossible(Next(r, events[0]), events[1..]))
  }

  function RunOf(r: RunState, events: seq<Event>): RunState
    decreases |events|
  {
    if events == [] then r else RunOf(Next(r, events[0]), events[1..])
  }

  // A fresh aggregator in a process whose frame store is sound.
  function Begin(s: Store, ext: multiset<Ptr>, ids: seq<int>, archive: nat): RunState {
    RunState(Aggregator(s, ids, [], Q.Empty(FRAMES_TO_AGGREGATE), true, archive), ext, [], [], [], 0, [], [], 0)
  }

  lemma {:induction false} RunKeepsInv(r: RunState, events: seq<Event>)
    requires RunInv(r) && RunPossible(r, events)
    ensures RunInv(RunOf(r, events)) && RunOf(r, events).agg.ids == r.agg.ids
    decreases |events|
  {
    if events != [] {
      NextKeepsRunInv(r, events[0]);
      RunKeepsInv(Next(r, events[0]), events[1..]);
    }
  }

  // The main theorem. In every run fed only single frames: memory stays sound; every
  // composite formed holds exactly one frame per requested stream, in ascending order
  // of ids, and it is the newest frame of that stream since the composite before; the
  // queue never exceeds its capacity; the composites formed are those delivered, those
  // queued, and two for every overflow; those delivered and those queued come in the
  // order they were formed; and those queued are live and hold what they were formed of.
  lemma EveryAggregatorRun(s: Store, ext: multiset<Ptr>, ids: seq<int>, archive: nat, events: seq<Event>)
    requires Sound(s, ext) && Sorted(ids) && archive < |s.archives|
    requires RunPossible(Begin(s, ext, ids, archive), events)
    ensures var r := RunOf(Begin(s, ext, ids, archive), events);
            && Sound(r.agg.store, r.ext + r.agg.Owned())
            && (forall k :: 0 <= k < |r.emissions| ==> EmissionRight(r.agg.store, ids, r.emissions[k]))
            && |r.agg.queue.items| <= FRAMES_TO_AGGREGATE
            && |r.emissions| == |r.got| + |r.agg.queue.items| + 2 * r.overflows
            && QueueFollows(r)
            && (forall k :: 0 <= k < |r.agg.queue.items| ==> QueuedRight(r, k))
  {
    var r0 := Begin(s, ext, ids, archive);
    assert ext + r0.agg.Owned() == ext;
    RunKeepsInv(r0, events);
    var r := RunOf(r0, events);
    forall k | 0 <= k < |r.agg.queue.items| ensures QueuedRight(r, k) {
      QueuedIsRight(r, k);
    }
  }

  // The composite at position k of the queue is live and still holds one frame per
  // stream: the newest of each when it was formed.
  ghost predicate QueuedRight(r: RunState, k: nat)
    requires k < |r.agg.queue.items|
  {
    && r.left + k < |r.entered| && r.entered[r.left + k] < |r.emissions|
    && var e := r.emissions[r.entered[r.left + k]];
       && r.agg.queue.items[k] == To(e.composite)
       && r.agg.store.IsLive(e.composite)
       && r.agg.store.frames[e.composite].slots == NewestPerStream(e.log, r.agg.ids)
  }

  lemma QueuedIsRight(r: RunState, k: nat)
    requires RunInv(r) && k < |r.agg.queue.items|
    ensures QueuedRight(r, k)
  {
    var p := r.agg.queue.items[k];
    assert IsEntry(r, r.left + k, p);
    assert EmissionRight(r.agg.store, r.agg.ids, r.emissions[r.entered[r.left + k]]);
    assert p in r.agg.queue.items;
    HeldIsLive(r.agg.store, r.ext + r.agg.Owned(), p.id);
  }

  // A frame that a requested stream sends, told from its description alone.
  predicate Wanted(s: Store, ids: seq<int>, p: Ptr) {
    p.To? && p.id < |s.frames| && s.frames[p.id].meta.profile.Some? && s.frames[p.id].meta.profile.value in ids
  }

  function WantedEntry(s: Store, ids: seq<int>, p: Ptr): Entry
    requires Wanted(s, ids, p)
  {
    Entry(s.frames[p.id].meta.profile.value, p)
  }

  // A single frame makes a composite exactly when it is of a requested stream, with it
  // every requested stream has sent a frame since the last composite, and the archive
  // grants one.
  lemma EmitsExactlyWhenComplete(r: RunState, p: Ptr)
    requires RunInv(r) && CanHappen(r, Feed(p))
    ensures var a := r.agg;
            |Next(r, Feed(p)).emissions| > |r.emissions| <==>
            && Wanted(a.store, a.ids, p)
            && var e := WantedEntry(a.store, a.ids, p);
               && (forall uid :: uid in a.ids ==> Newest(r.log + [e], uid).To?)
               && a.Remember(e.uid, p).Grants()
  {
    var a := r.agg;
    HeldIsLive(a.store, r.ext + a.Owned(), p.id);
    if Wanted(a.store, a.ids, p) {
      var e := WantedEntry(a.store, a.ids, p);
      assert a.Accepts(p) && a.Profile(p) == Some(e.uid);
      StoreKeepsRun(r, p);
      var a1 := a.Remember(e.uid, p);
      CompleteIffAllStreams(a1.last, a.ids, r.log + [e]);
      if |a1.last| == |a.ids| { ComposedKeepsSound(a1, r.ext); }
    }
  }

  // The composite is described like the frame that completed it and blocks like its
  // parts, and it is the last in the queue unless that was full.
  lemma EmissionIsDescribed(r: RunState, p: Ptr)
    requires RunInv(r) && CanHappen(r, Feed(p)) && Wanted(r.agg.store, r.agg.ids, p)
    requires |Next(r, Feed(p)).emissions| > |r.emissions| && |r.agg.queue.items| < FRAMES_TO_AGGREGATE
    ensures var r' := Next(r, Feed(p));
            var e := r'.emissions[|r.emissions|];
            var parts := NewestPerStream(e.log, r.agg.ids);
            var before := r.agg.Remember(WantedEntry(r.agg.store, r.agg.ids, p).uid, p).store;
            && r'.agg.queue.items == r.agg.queue.items + [To(e.composite)]
            && IsComposite(r'.agg.store, e.composite, parts,
                           Description(before, parts, r.agg.store.frames[p.id].meta))
  {
    var a := r.agg;
    HeldIsLive(a.store, r.ext + a.Owned(), p.id);
    var uid := WantedEntry(a.store, a.ids, p).uid;
    assert a.Accepts(p) && a.Profile(p) == Some(uid);
    StoreKeepsRun(r, p);
    FeedHalves(r, p);
    EmitEffect(a.Remember(uid, p), r.ext, a.store.frames[p.id]);
  }
}
