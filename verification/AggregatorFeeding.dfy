// What the aggregator makes of the frames it is fed, told from the frames alone: which
// of them it keeps, and how it cuts them up into composites.
module AggregatorFeeding {
  import opened Prelude
  import opened FrameStore
  import opened FrameInvariant
  import opened FrameOwnership
  import opened Aggregation
  import opened AggregatorOwnership
  import opened AggregatorRuns

  // ----- One frame -----

  // `p` is under `uid`, and every other stream has what it had.
  ghost predicate Entered(last: seq<Entry>, last': seq<Entry>, uid: int, p: Ptr) {
    forall x :: (HasKey(last', x) <==> x == uid || HasKey(last, x))
                && Lookup(last', x) == if x == uid then p else Lookup(last, x)
  }

  lemma PutEnters(last: seq<Entry>, uid: int, p: Ptr)
    requires Ascending(last)
    ensures Entered(last, Put(last, uid, p), uid, p) && Put(last, uid, p) != []
    ensures |Put(last, uid, p)| == |last| + if HasKey(last, uid) then 0 else 1
  {
    PutSize(last, uid, p);
    forall x ensures (HasKey(Put(last, uid, p), x) <==> x == uid || HasKey(last, x))
                     && Lookup(Put(last, uid, p), x) == if x == uid then p else Lookup(last, x) {
      PutKeys(last, uid, p, x);
    }
  }

  // The frame completes the map, and there is room for a composite.
  predicate Completes(a: Aggregator, uid: int, p: Ptr) {
    |a.last| + (if HasKey(a.last, uid) then 0 else 1) == |a.ids| && a.Remember(uid, p).Grants()
  }

  // A single frame is ignored, with nothing changed at all, exactly when its stream is
  // not requested. Otherwise it enters the map under its stream, in place of the frame
  // that was there and of no other; unless it completes the map, which then goes into a
  // composite and is empty again.
  lemma SingleEntersExactly(a: Aggregator, ext: multiset<Ptr>, p: Ptr)
    requires AggSound(a, ext) && a.accepting && p.To? && p in ext
    requires p.id < |a.store.frames| && !a.store.frames[p.id].composite
    ensures !Wanted(a.store, a.ids, p) ==> a.Handle(p) == a
    ensures Wanted(a.store, a.ids, p) ==>
              var uid := WantedEntry(a.store, a.ids, p).uid;
              if Completes(a, uid, p) then a.Handle(p).last == []
              else Entered(a.last, a.Handle(p).last, uid, p) && a.Handle(p).queue == a.queue
  {
    HeldIsLive(a.store, ext + a.Owned(), p.id);
    if Wanted(a.store, a.ids, p) {
      var uid := WantedEntry(a.store, a.ids, p).uid;
      assert a.Accepts(p) && a.Profile(p) == Some(uid);
      PutEnters(a.last, uid, p);
      RememberKeepsSound(a, ext, uid, p);
      CompletedIsEmitted(a.Remember(uid, p), ext, a.store.frames[p.id]);
    }
  }

  lemma CompletedIsEmitted(a: Aggregator, ext: multiset<Ptr>, f: Frame)
    requires AggSound(a, ext)
    ensures if a.Grants() then a.Emit(f).last == [] else a.Emit(f).last == a.last && a.Emit(f).queue == a.queue
  {
    CloneAllKeepsSound(a.store, ext + a.Owned(), Holders(a.last));
  }

  // What completes the map goes into the composite with everything remembered.
  lemma CompositeIsMap(a: Aggregator, ext: multiset<Ptr>, p: Ptr)
    requires AggSound(a, ext) && a.accepting && a.queue.accepting && p.To? && p in ext
    requires p.id < |a.store.frames| && !a.store.frames[p.id].composite && Wanted(a.store, a.ids, p)
    requires Completes(a, WantedEntry(a.store, a.ids, p).uid, p)
    requires Null !in Holders(Put(a.last, WantedEntry(a.store, a.ids, p).uid, p))
    ensures var uid := WantedEntry(a.store, a.ids, p).uid;
            var a' := a.Handle(p);
            var c := |a.store.frames|;
            && c < |a'.store.frames| && a'.store.frames[c].slots == Holders(Put(a.last, uid, p))
            && a'.queue.items == (if |a.queue.items| < FRAMES_TO_AGGREGATE then a.queue.items + [To(c)]
                                  else a.queue.items[1..])
  {
    var uid := WantedEntry(a.store, a.ids, p).uid;
    HeldIsLive(a.store, ext + a.Owned(), p.id);
    assert a.Accepts(p) && a.Profile(p) == Some(uid);
    PutEnters(a.last, uid, p);
    RememberKeepsSound(a, ext, uid, p);
    var a1 := a.Remember(uid, p);
    ComposedKeepsSound(a1, ext);
    EmitEffect(a1, ext, a.store.frames[p.id]);
  }

  // ----- Runs: what the events do -----

  // A feeding is a call of handleFrame and leaves all holders as they are; the consumer
  // gets the oldest composite in the queue, if any; and other clients operate on the
  // frame store and on their own holders.
  lemma EventsAct(r: RunState, e: Event)
    requires RunInv(r) && CanHappen(r, e)
    ensures var r' := Next(r, e);
            match e
            case Feed(p) => r'.agg == r.agg.Handle(p) && r'.ext == r.ext && r'.got == r.got
            case Consume =>
              if r.agg.queue.items == [] then r'.got == r.got && r'.ext == r.ext && r'.agg.queue.items == []
              else
                && r'.got == r.got + [r.agg.queue.items[0]] && r'.agg.queue.items == r.agg.queue.items[1..]
                && r'.ext == r.ext + multiset{r.agg.queue.items[0]} && r'.agg.store == r.agg.store
            case Client(op) =>
              var w := Step(World(r.agg.store, r.ext), op);
              r'.agg == r.agg.(store := w.store) && r'.ext == w.held && r'.got == r.got
  {
    if e.Consume? && r.agg.queue.items != [] { assert r.agg.queue.items[0] in r.agg.queue.items; }
  }

  // Any frame someone holds can be fed, the consumer can call at any time, and other
  // clients can do whatever their holders allow.
  lemma EventsHappen(r: RunState, p: Ptr, op: Op)
    requires RunInv(r)
    ensures CanHappen(r, Consume)
    ensures p.To? && p in r.ext ==> p.id < |r.agg.store.frames|
                                      && (!r.agg.store.frames[p.id].composite ==> CanHappen(r, Feed(p)))
    ensures Enabled(World(r.agg.store, r.ext), op) ==> CanHappen(r, Client(op))
  {
    if p.To? && p in r.ext { HeldIsLive(r.agg.store, r.ext + r.agg.Owned(), p.id); }
  }

  // ----- Runs: the log is what was fed -----

  // The entry a feeding makes, told from the frame's description at that moment.
  function FedBy(r: RunState, e: Event): seq<Entry> {
    if e.Feed? && Wanted(r.agg.store, r.agg.ids, e.p) then [WantedEntry(r.agg.store, r.agg.ids, e.p)] else []
  }

  // All of them over a run, oldest first.
  function FedLog(r: RunState, events: seq<Event>): seq<Entry>
    decreases |events|
  {
    if events == [] then [] else FedBy(r, events[0]) + FedLog(Next(r, events[0]), events[1..])
  }

  function Logs(es: seq<Emission>): (logs: seq<seq<Entry>>)
    ensures |logs| == |es|
  {
    seq(|es|, k requires 0 <= k < |es| => es[k].log)
  }

  function Flat(logs: seq<seq<Entry>>): seq<Entry> {
    if logs == [] then [] else Flat(logs[..|logs| - 1]) + logs[|logs| - 1]
  }

  // A feeding takes the frame into the log, which it may close with an emission.
  ghost predicate LogsWith(r: RunState, r': RunState, fed: seq<Entry>) {
    || (r'.emissions == r.emissions && r'.log == r.log + fed)
    || (|r'.emissions| == |r.emissions| + 1 && Logs(r'.emissions) == Logs(r.emissions) + [r.log + fed] && r'.log == [])
  }

  lemma FeedingLogs(r: RunState, p: Ptr)
    requires p.To?
    ensures var fed := if r.agg.Accepts(p) then [Entry(r.agg.Profile(p).value, p)] else [];
            LogsWith(r, FeedNext(r, p), fed)
  {
    var r' := FeedNext(r, p);
    assert r.log + [] == r.log;
    if |r'.emissions| == |r.emissions| + 1 {
      assert Logs(r'.emissions) == Logs(r.emissions) + [r'.emissions[|r.emissions|].log];
    }
  }

  lemma StepLogs(r: RunState, e: Event)
    requires RunInv(r) && CanHappen(r, e)
    ensures LogsWith(r, Next(r, e), FedBy(r, e))
  {
    assert r.log + [] == r.log;
    if e.Feed? {
      HeldIsLive(r.agg.store, r.ext + r.agg.Owned(), e.p.id);
      WantedIsAccepted(r.agg, e.p);
      FeedingLogs(r, e.p);
    }
  }

  lemma WantedIsAccepted(a: Aggregator, p: Ptr)
    requires p.To? && a.store.IsLive(p.id)
    ensures Wanted(a.store, a.ids, p) <==> a.Accepts(p)
    ensures Wanted(a.store, a.ids, p) ==> a.Profile(p) == Some(WantedEntry(a.store, a.ids, p).uid)
  {
  }

  lemma StepFlat(r: RunState, r': RunState, fed: seq<Entry>)
    requires LogsWith(r, r', fed)
    ensures Flat(Logs(r'.emissions)) + r'.log == Flat(Logs(r.emissions)) + r.log + fed
  {
    var logs := Logs(r.emissions);
    assert Flat(logs) + r.log + fed == Flat(logs) + (r.log + fed);
    if r'.emissions != r.emissions {
      assert (logs + [r.log + fed])[..|logs|] == logs;
    }
  }

  // No frame of a requested stream is left out, used twice or reordered: the logs of the
  // composites, one after the other, and the log still open are what was fed.
  lemma {:induction false} LogsAreFed(r: RunState, events: seq<Event>)
    requires RunInv(r) && RunPossible(r, events)
    ensures var r' := RunOf(r, events);
            Flat(Logs(r'.emissions)) + r'.log == Flat(Logs(r.emissions)) + r.log + FedLog(r, events)
    decreases |events|
  {
    var now := Flat(Logs(r.emissions)) + r.log;
    if events == [] {
      assert now + [] == now;
    } else {
      StepLogs(r, events[0]);
      StepFlat(r, Next(r, events[0]), FedBy(r, events[0]));
      NextKeepsRunInv(r, events[0]);
      LogsAreFed(Next(r, events[0]), events[1..]);
      Assoc(now, FedBy(r, events[0]), FedLog(Next(r, events[0]), events[1..]));
    }
  }

  lemma Assoc(a: seq<Entry>, b: seq<Entry>, c: seq<Entry>)
    ensures a + b + c == a + (b + c)
  {
  }

  // ----- Runs: where the log is cut -----

  // The reference: a log is cut as soon as it has a frame of every stream.
  datatype Pieces = Pieces(whole: seq<seq<Entry>>, open: seq<Entry>)

  predicate HasAll(log: seq<Entry>, ids: seq<int>) {
    forall uid :: uid in ids ==> exists k :: 0 <= k < |log| && log[k].uid == uid
  }

  function CutUp(log: seq<Entry>, ids: seq<int>): Pieces {
    if log == [] then Pieces([], [])
    else
      var before := CutUp(log[..|log| - 1], ids);
      var open := before.open + [log[|log| - 1]];
      if HasAll(open, ids) then Pieces(before.whole + [open], []) else Pieces(before.whole, open)
  }

  lemma CutUpAppend(log: seq<Entry>, e: Entry, ids: seq<int>)
    ensures var before := CutUp(log, ids);
            var open := before.open + [e];
            CutUp(log + [e], ids) == if HasAll(open, ids) then Pieces(before.whole + [open], [])
                                     else Pieces(before.whole, open)
  {
    assert (log + [e])[..|log|] == log;
  }

  lemma {:induction false} NewestPresent(log: seq<Entry>, uid: int)
    requires forall k :: 0 <= k < |log| ==> log[k].holder.To?
    ensures Newest(log, uid).To? <==> exists k :: 0 <= k < |log| && log[k].uid == uid
  {
    if log != [] {
      var n := |log| - 1;
      NewestPresent(log[..n], uid);
      if log[n].uid != uid && Newest(log[..n], uid).To? {
        var k :| 0 <= k < n && log[..n][k].uid == uid;
        assert log[k].uid == uid;
      }
    }
  }

  lemma HasAllIsNewest(log: seq<Entry>, ids: seq<int>)
    requires forall k :: 0 <= k < |log| ==> log[k].holder.To?
    ensures HasAll(log, ids) <==> forall uid :: uid in ids ==> Newest(log, uid).To?
  {
    forall uid | uid in ids ensures Newest(log, uid).To? <==> exists k :: 0 <= k < |log| && log[k].uid == uid {
      NewestPresent(log, uid);
    }
  }

  // The archive puts no limit on composites.
  predicate Unlimited(a: Aggregator) {
    a.archive < |a.store.archives| && a.store.archives[a.archive].maximum == 0
  }

  // The run so far has cut `log` up as it is to be cut.
  ghost predicate CutsLike(r: RunState, log: seq<Entry>) {
    && CutUp(log, r.agg.ids) == Pieces(Logs(r.emissions), r.log)
    && forall k :: 0 <= k < |r.log| ==> r.log[k].holder.To?
  }

  lemma FeedingCuts(r: RunState, p: Ptr, log: seq<Entry>)
    requires RunInv(r) && CanHappen(r, Feed(p)) && CutsLike(r, log) && Unlimited(r.agg)
    ensures CutsLike(Next(r, Feed(p)), log + FedBy(r, Feed(p)))
  {
    StepLogs(r, Feed(p));
    EmitsExactlyWhenComplete(r, p);
    NextKeepsRunInv(r, Feed(p));
    if Wanted(r.agg.store, r.agg.ids, p) {
      RememberKeepsUnlimited(r, p);
      var e := WantedEntry(r.agg.store, r.agg.ids, p);
      CutUpAppend(log, e, r.agg.ids);
      HasAllIsNewest(r.log + [e], r.agg.ids);
    } else {
      assert log + [] == log && r.log + [] == r.log;
    }
  }

  lemma RememberKeepsUnlimited(r: RunState, p: Ptr)
    requires RunInv(r) && CanHappen(r, Feed(p)) && Unlimited(r.agg)
    ensures forall uid :: r.agg.Remember(uid, p).Grants() && Unlimited(r.agg.Remember(uid, p))
  {
    HeldIsLive(r.agg.store, r.ext + r.agg.Owned(), p.id);
    forall uid ensures r.agg.Remember(uid, p).Grants() && Unlimited(r.agg.Remember(uid, p)) {
      RememberKeepsSound(r.agg, r.ext, uid, p);
    }
  }

  // ----- The archive's maximum -----

  ghost predicate MaximaStable(s: Store, s': Store) {
    |s'.archives| == |s.archives|
    && forall r :: 0 <= r < |s.archives| ==> s'.archives[r].maximum == s.archives[r].maximum
  }

  lemma ComposedKeepsMaxima(a: Aggregator, ext: multiset<Ptr>)
    requires AggSound(a, ext)
    ensures MaximaStable(a.store, a.Composed().0)
  {
    var ps := Holders(a.last);
    CloneAllKeepsSound(a.store, ext + a.Owned(), ps);
    if !a.Grants() {
      DropAllKeepsSound(CloneAll(a.store, ps), ext + a.Owned(), ps);
    }
  }

  lemma DeliverKeepsMaxima(a: Aggregator, ext: multiset<Ptr>, c: Ptr)
    requires AggSound(a, ext) && c.To? && c in ext
    ensures MaximaStable(a.store, a.Deliver(c).store)
  {
    var held := ext + a.Owned();
    HeldIsLive(a.store, held, c.id);
    if |a.queue.items| >= FRAMES_TO_AGGREGATE {
      var oldest := a.queue.items[0];
      assert oldest in a.queue.items;
      assert held == held - multiset{oldest} + multiset{oldest};
      DropKeepsSound(a.store, held - multiset{oldest}, oldest);
    } else if !a.queue.accepting {
      CloneKeepsSound(a.store, held, c);
      DropKeepsSound(a.store.Clone(c), held, c);
    }
  }

  lemma EmitKeepsMaxima(a: Aggregator, ext: multiset<Ptr>, f: Frame)
    requires AggSound(a, ext) && Null !in Holders(a.last)
    ensures MaximaStable(a.store, a.Emit(f).store)
  {
    ComposedKeepsMaxima(a, ext);
    var (s, c) := a.Composed();
    if c.To? {
      ComposedEffect(a, ext, f);
      var a1 := a.(store := s);
      var a2 := a1.(store := a1.Described(c.id, f));
      DeliverKeepsMaxima(a2, ext + multiset{c}, c);
      DeliverKeepsSound(a2, ext + multiset{c}, c);
      ClearEffect(a2.Deliver(c), ext, c);
    }
  }

  lemma EmitKeepsUnlimited(a: Aggregator, ext: multiset<Ptr>, f: Frame)
    requires AggSound(a, ext) && Null !in Holders(a.last) && Unlimited(a)
    ensures Unlimited(a.Emit(f))
  {
    EmitKeepsMaxima(a, ext, f);
  }

  lemma FeedKeepsUnlimited(r: RunState, p: Ptr)
    requires RunInv(r) && CanHappen(r, Feed(p)) && Unlimited(r.agg)
    ensures Unlimited(r.agg.Handle(p))
  {
    var a := r.agg;
    HeldIsLive(a.store, r.ext + a.Owned(), p.id);
    if a.Accepts(p) {
      StoreKeepsRun(r, p);
      RememberKeepsUnlimited(r, p);
      var a1 := a.Remember(a.Profile(p).value, p);
      if |a1.last| == |a1.ids| {
        EmitKeepsUnlimited(a1, r.ext, a.store.frames[p.id]);
      }
    }
  }

  lemma OpKeepsMaximum(w: World, op: Op, r: nat)
    requires Sound(w.store, w.held) && Enabled(w, op) && r < |w.store.archives|
    requires !(op.ChangeMaximum? && op.r == r)
    ensures var s' := Step(w, op).store;
            r < |s'.archives| && s'.archives[r].maximum == w.store.archives[r].maximum
  {
    var World(s, held) := w;
    match op
    case DestroyHolder(p) => TakeSettles(s, held, p);
    case AssignHolder(dst, _) => TakeSettles(s, held, dst);
    case AssignSelf(p) => TakeSettles(s, held, p);
    case ComposeFrames(q, ps, meta) => ComposeKeepsMaximum(s, held, q, ps, meta, r);
    case _ =>
  }

  lemma ComposeKeepsMaximum(s: Store, held: multiset<Ptr>, q: nat, ps: seq<Ptr>, meta: Meta, r: nat)
    requires Sound(s, held) && q < |s.archives| && r < |s.archives| && multiset(ps) <= held
    ensures var s' := s.Compose(q, ps, meta).0;
            |s'.archives| == |s.archives| && s'.archives[r].maximum == s.archives[r].maximum
  {
    if !s.Grants(q) {
      assert held == held - multiset(ps) + multiset(ps);
      DropAllKeepsSound(s, held - multiset(ps), ps);
    }
  }

  lemma NextKeepsUnlimited(r: RunState, e: Event)
    requires RunInv(r) && CanHappen(r, e) && Unlimited(r.agg)
    requires !(e.Client? && e.op.ChangeMaximum? && e.op.r == r.agg.archive)
    ensures Unlimited(Next(r, e).agg) && Next(r, e).agg.archive == r.agg.archive
  {
    match e
    case Feed(p) => FeedKeepsUnlimited(r, p);
    case Consume =>
    case Client(op) =>
      StepFrames(r.agg.store, r.ext, r.agg.Owned(), op);
      OpKeepsMaximum(World(r.agg.store, r.ext + r.agg.Owned()), op, r.agg.archive);
  }

  lemma OtherStepsCut(r: RunState, e: Event, log: seq<Entry>)
    requires CutsLike(r, log) && !e.Feed? && RunInv(r) && CanHappen(r, e)
    ensures CutsLike(Next(r, e), log + FedBy(r, e))
  {
    assert log + [] == log;
    NextKeepsRunInv(r, e);
  }

  lemma {:induction false} RunCuts(r: RunState, events: seq<Event>, log: seq<Entry>)
    requires RunInv(r) && RunPossible(r, events) && CutsLike(r, log) && Unlimited(r.agg)
    requires forall e :: e in events ==> !(e.Client? && e.op.ChangeMaximum? && e.op.r == r.agg.archive)
    ensures CutsLike(RunOf(r, events), log + FedLog(r, events))
    decreases |events|
  {
    if events == [] {
      assert log + [] == log;
    } else {
      var e := events[0];
      assert e in events && forall x :: x in events[1..] ==> x in events;
      if e.Feed? { FeedingCuts(r, e.p, log); } else { OtherStepsCut(r, e, log); }
      NextKeepsUnlimited(r, e);
      NextKeepsRunInv(r, e);
      RunCuts(Next(r, e), events[1..], log + FedBy(r, e));
      Assoc(log, FedBy(r, e), FedLog(Next(r, e), events[1..]));
    }
  }

  lemma FreshRunCuts(r: RunState, events: seq<Event>)
    requires RunInv(r) && RunPossible(r, events) && CutsLike(r, []) && Unlimited(r.agg)
    requires forall e :: e in events ==> !(e.Client? && e.op.ChangeMaximum? && e.op.r == r.agg.archive)
    ensures CutUp(FedLog(r, events), r.agg.ids) == Pieces(Logs(RunOf(r, events).emissions), RunOf(r, events).log)
  {
    RunCuts(r, events, []);
    RunKeepsInv(r, events);
    assert [] + FedLog(r, events) == FedLog(r, events);
  }

  lemma BeginIsRight(s: Store, ext: multiset<Ptr>, ids: seq<int>, archive: nat)
    requires Sound(s, ext) && Sorted(ids) && archive < |s.archives|
    ensures var r := Begin(s, ext, ids, archive); RunInv(r) && CutsLike(r, []) && r.agg.ids == ids
  {
    assert ext + Begin(s, ext, ids, archive).agg.Owned() == ext;
  }

  // The whole of it: with an archive that puts no limit on composites, those that a run
  // forms are the pieces into which the frames fed are cut up, as soon as every
  // requested stream has sent one, whatever consumers and other clients do in between.
  lemma CompositesArePieces(s: Store, ext: multiset<Ptr>, ids: seq<int>, archive: nat, events: seq<Event>)
    requires Sound(s, ext) && Sorted(ids) && archive < |s.archives| && s.archives[archive].maximum == 0
    requires var r := Begin(s, ext, ids, archive);
             RunPossible(r, events)
             && forall e :: e in events ==> !(e.Client? && e.op.ChangeMaximum? && e.op.r == archive)
    ensures var r := Begin(s, ext, ids, archive);
            var r' := RunOf(r, events);
            CutUp(FedLog(r, events), ids) == Pieces(Logs(r'.emissions), r'.log)
  {
    BeginIsRight(s, ext, ids, archive);
    FreshRunCuts(Begin(s, ext, ids, archive), events);
  }
}
