// References given up by many threads at once. A release is not one step: the count
// goes down atomically, and the thread that takes it to zero releases the slots and
// hands the frame back while other threads go on. Here each of these is a step of its
// own and any order is possible, also orders the loops of the program never take.
module ConcurrentRelease {
  import opened FrameStore
  import opened SmallHeap
  import opened FrameInvariant
  import opened FrameOwnership

  datatype Phase = Releasing | Kept

  datatype State = State(
    store: Store,
    held: multiset<Ptr>,        // holders
    pending: multiset<Ptr>,     // references some thread is about to release
    dying: map<nat, Phase>,     // frames whose count has reached zero
    owed: multiset<nat>)        // archives whose counter some thread is about to lower
  {
    function All(): multiset<Ptr> {
      held + pending
    }
  }

  datatype Action =
    | Do(op: Op)                // an operation that neither releases nor keeps
    | Give(p: Ptr)              // a holder dies
    | GiveFor(dst: Ptr)         // a holder is assigned over
    | ComposeAll(r: nat, ps: seq<Ptr>, meta: Meta)
    | Decrement(p: Ptr)         // fetch_sub
    | MarkKept(p: Ptr)          // keep by a holder: the exchange of the mark
    | KeepDying(id: nat)        // unpublish_frame: the exchange of the mark
    | LowerCounter(r: nat)      // keep_frame: the counter goes down
    | GiveBackDying(id: nat)    // unpublish_frame: back to pool or heap

  predicate IsDo(op: Op) {
    op.Alloc? || op.CloneHolder? || op.MoveHolder? || op.Describe? || op.ChangeMaximum? || op.StopPool?
  }

  predicate CanStep(c: State, a: Action) {
    match a
    case Do(op) => IsDo(op) && Enabled(World(c.store, c.held), op)
    case Give(p) => p in c.held
    case GiveFor(p) => p in c.held
    case ComposeAll(r, ps, _) =>
      r < |c.store.archives| && multiset(ps) <= c.held && (c.store.Grants(r) ==> Null !in ps)
    case Decrement(p) => p in c.pending
    case MarkKept(p) => p.To? && p in c.held
    case KeepDying(id) => id in c.dying && c.dying[id] == Releasing
    case LowerCounter(r) => r in c.owed
    case GiveBackDying(id) => id in c.dying && c.dying[id] == Kept
  }

  // fetch_sub(1): the reference is gone; at zero the slots are what is left to release.
  function AfterDecrement(c: State, id: nat): State {
    if !c.store.IsLive(id) then c.(store := c.store.Faulted())
    else
      var f := c.store.frames[id];
      var s := c.store.SetFrame(id, f.(refCount := f.refCount - 1));
      if f.refCount != 1 then c.(store := s)
      else c.(store := s, pending := c.pending + multiset(f.slots), dying := c.dying[id := Releasing])
  }

  // kept_.exchange(true): the thread that finds the mark unset has yet to lower the
  // counter of the frame's archive.
  function AfterMark(c: State, id: nat): State {
    if !c.store.IsLive(id) then c.(store := c.store.Faulted())
    else
      var f := c.store.frames[id];
      if f.kept then c
      else c.(store := c.store.SetFrame(id, f.(kept := true)), owed := c.owed + multiset{f.owner})
  }

  function Next(c: State, a: Action): State
    requires CanStep(c, a)
  {
    match a
    case Do(op) => var w := Step(World(c.store, c.held), op); c.(store := w.store, held := w.held)
    case Give(p) => c.(held := c.held - multiset{p}, pending := c.pending + multiset{p})
    case GiveFor(p) => c.(held := c.held - multiset{p} + multiset{Null}, pending := c.pending + multiset{p})
    case ComposeAll(r, ps, meta) =>
      if !c.store.Grants(r) then
        c.(held := c.held - multiset(ps) + multiset{Null}, pending := c.pending + multiset(ps))
      else
        var (s, p) := c.store.Compose(r, ps, meta);
        c.(store := s, held := c.held - multiset(ps) + multiset{p})
    case Decrement(p) =>
      var c' := c.(pending := c.pending - multiset{p});
      if p.Null? then c' else AfterDecrement(c', p.id)
    case MarkKept(p) => AfterMark(c, p.id)
    case KeepDying(id) => AfterMark(c, id).(dying := c.dying[id := Kept])
    case LowerCounter(r) => c.(store := c.store.KeepFrame(r), owed := c.owed - multiset{r})
    case GiveBackDying(id) => c.(store := c.store.GiveBack(id), dying := c.dying - {id})
  }

  // ----- The invariant -----

  // All but the quota counters.
  ghost predicate SameButCounters(t: Store, s: Store) {
    && t.frames == s.frames && t.returned == s.returned && t.fault == s.fault && |t.archives| == |s.archives|
    && forall r :: 0 <= r < |t.archives| ==> t.archives[r] == s.archives[r].(published := t.archives[r].published)
  }

  ghost predicate InvButCounters(s: Store, held: multiset<Ptr>) {
    exists t :: SameButCounters(t, s) && Inv(t, held)
  }

  // A counter has yet to be lowered by as many as it is owed.
  ghost predicate CountersExact(s: Store, owed: multiset<nat>) {
    && (forall r :: r in owed ==> r < |s.archives|)
    && forall r: nat :: r < |s.archives| ==> CounterExact(s, owed, r)
  }

  ghost predicate CounterExact(s: Store, owed: multiset<nat>, r: nat)
    requires r < |s.archives|
  {
    s.archives[r].published == (Unkept(s, r) + owed[r]) % UINT32_RANGE
  }

  // The frames at zero are exactly the dying ones, and those past keep are kept.
  ghost predicate DyingExact(s: Store, dying: map<nat, Phase>) {
    && (forall id: nat :: id in dying <==> s.IsLive(id) && s.frames[id].refCount == 0)
    && (forall id :: id in dying && dying[id] == Kept ==> s.frames[id].kept)
  }

  // Between any two steps: counts match holders, pending references and the slots of
  // frames that still count; the pools and, but for what is owed, the quota counters are
  // exact; and the frames at zero are those on their way out.
  ghost predicate CInv(c: State) {
    && InvButCounters(c.store, c.All())
    && CountersExact(c.store, c.owed)
    && DyingExact(c.store, c.dying)
  }

  // Which frames are at zero is the same; marks of those are kept.
  ghost predicate SameZeros(s: Store, s': Store) {
    && (forall id: nat :: s'.IsLive(id) && s'.frames[id].refCount == 0 <==> s.IsLive(id) && s.frames[id].refCount == 0)
    && (forall id: nat :: s.IsLive(id) && s.frames[id].kept ==> s'.IsLive(id) && s'.frames[id].kept)
  }

  lemma Settled(t: Store, s: Store, held: multiset<Ptr>)
    requires SameButCounters(t, s) && Inv(t, held)
    ensures InvButCounters(s, held)
  {
  }

  lemma IgnoresNull(s: Store, held: multiset<Ptr>, held': multiset<Ptr>)
    requires InvButCounters(s, held) && forall id: nat :: held[To(id)] == held'[To(id)]
    ensures InvButCounters(s, held')
  {
    var t :| SameButCounters(t, s) && Inv(t, held);
    InvIgnoresNull(t, held, held');
  }

  lemma PointsToLive(s: Store, held: multiset<Ptr>, id: nat)
    requires InvButCounters(s, held) && To(id) in held
    ensures s.IsLive(id) && s.frames[id].refCount >= held[To(id)]
  {
    var t :| SameButCounters(t, s) && Inv(t, held);
    HeldIsLive(t, held, id);
  }

  // One frame changes and counts as before against its quota.
  lemma UpdateKeepsCounters(s: Store, owed: multiset<nat>, id: nat, f: Frame)
    requires CountersExact(s, owed) && id < |s.frames|
    requires forall r :: Weigh(UnkeptOf(r), f) == Weigh(UnkeptOf(r), s.frames[id])
    ensures CountersExact(s.SetFrame(id, f), owed)
  {
    forall r: nat | r < |s.archives| ensures CounterExact(s.SetFrame(id, f), owed, r) {
      TotalUpdate(UnkeptOf(r), s.frames, id, f);
      assert CounterExact(s, owed, r);
    }
  }

  // ----- Operations that release nothing -----

  // An allocation: whether it is refused is up to the counter as it is, not as it will be.
  lemma AllocKeepsInvBut(s: Store, total: multiset<Ptr>, r: nat, meta: Meta)
    requires InvButCounters(s, total) && r < |s.archives|
    ensures var (s', p) := s.AllocAndTrack(r, meta);
            && InvButCounters(s', total + multiset{p}) && SameZeros(s, s')
            && (p.To? <==> s.Grants(r))
            && (p.To? ==> p.id == |s.frames| && s'.frames == s.frames + [s'.frames[p.id]]
                          && s'.IsLive(p.id) && s'.frames[p.id].refCount == 1 && s'.frames[p.id].slots == [])
  {
    var (s', p) := s.AllocAndTrack(r, meta);
    if p.Null? {
      IgnoresNull(s, total, total + multiset{p});
    } else {
      var t :| SameButCounters(t, s) && Inv(t, total);
      assert PoolExact(t, r);
      AllocateTakesFreeSlot(t.archives[r].pool);
      var f := s'.frames[p.id];
      var pool := s'.archives[r].pool;
      PublishKeepsInv(t, total, r, f, pool);
      Settled(Published(t, r, f, pool), s', total + multiset{p});
    }
  }

  lemma AllocKeepsCounters(s: Store, owed: multiset<nat>, r: nat, meta: Meta)
    requires CountersExact(s, owed) && r < |s.archives|
    ensures CountersExact(s.AllocAndTrack(r, meta).0, owed)
  {
    var (s', p) := s.AllocAndTrack(r, meta);
    if p.To? {
      AppendTotals(s.frames, s'.frames[p.id]);
      forall q: nat | q < |s'.archives| ensures CounterExact(s', owed, q) {
        assert CounterExact(s, owed, q);
      }
    }
  }

  lemma CloneKeepsCInvParts(s: Store, total: multiset<Ptr>, owed: multiset<nat>, p: Ptr)
    requires InvButCounters(s, total) && CountersExact(s, owed) && p in total
    ensures InvButCounters(s.Clone(p), total + multiset{p}) && CountersExact(s.Clone(p), owed)
    ensures SameZeros(s, s.Clone(p))
  {
    var t :| SameButCounters(t, s) && Inv(t, total);
    if p.To? {
      PointsToLive(s, total, p.id);
      UpdateKeepsCounters(s, owed, p.id, s.frames[p.id].(refCount := s.frames[p.id].refCount + 1));
    }
    CloneKeepsInv(t, total, p);
    Settled(t.Clone(p), s.Clone(p), total + multiset{p});
  }

  lemma DescribeKeepsCInvParts(s: Store, total: multiset<Ptr>, owed: multiset<nat>, id: nat, meta: Meta)
    requires InvButCounters(s, total) && CountersExact(s, owed) && To(id) in total
    ensures InvButCounters(s.SetMeta(id, meta), total) && CountersExact(s.SetMeta(id, meta), owed)
    ensures SameZeros(s, s.SetMeta(id, meta))
  {
    var t :| SameButCounters(t, s) && Inv(t, total);
    PointsToLive(s, total, id);
    UpdateKeepsCounters(s, owed, id, s.frames[id].(meta := meta));
    SetMetaKeepsInv(t, total, id, meta);
    Settled(t.SetMeta(id, meta), s.SetMeta(id, meta), total);
  }

  lemma OptionKeepsCInvParts(s: Store, total: multiset<Ptr>, owed: multiset<nat>, r: nat, a: Archive)
    requires InvButCounters(s, total) && CountersExact(s, owed) && r < |s.archives|
    requires a.published == s.archives[r].published
    requires a.pool.free == s.archives[r].pool.free && a.pool.size == s.archives[r].pool.size
    ensures InvButCounters(s.SetArchive(r, a), total) && CountersExact(s.SetArchive(r, a), owed)
  {
    var t :| SameButCounters(t, s) && Inv(t, total);
    var b := a.(published := t.archives[r].published);
    ArchiveOptionKeepsInv(t, total, r, b);
    Settled(t.SetArchive(r, b), s.SetArchive(r, a), total);
    forall q: nat | q < |s.archives| ensures CounterExact(s.SetArchive(r, a), owed, q) {
      assert CounterExact(s, owed, q);
    }
  }

  lemma DoKeepsCInvParts(s: Store, total: multiset<Ptr>, owed: multiset<nat>, op: Op)
    requires InvButCounters(s, total) && CountersExact(s, owed) && IsDo(op) && Enabled(World(s, total), op)
    ensures var w := Step(World(s, total), op);
            InvButCounters(w.store, w.held) && CountersExact(w.store, owed) && SameZeros(s, w.store)
  {
    match op
    case Alloc(r, meta) =>
      AllocKeepsInvBut(s, total, r, meta);
      AllocKeepsCounters(s, owed, r, meta);
    case CloneHolder(p) => CloneKeepsCInvParts(s, total, owed, p);
    case MoveHolder(p) => IgnoresNull(s, total, total + multiset{Null});
    case Describe(p, meta) => DescribeKeepsCInvParts(s, total, owed, p.id, meta);
    case ChangeMaximum(r, maximum) => OptionKeepsCInvParts(s, total, owed, r, s.archives[r].(maximum := maximum));
    case StopPool(r) =>
      OptionKeepsCInvParts(s, total, owed, r, s.archives[r].(pool := s.archives[r].pool.StopAllocating()));
  }

  // A step on the holders alone does not see the pending references.
  lemma DoFrames(s: Store, held: multiset<Ptr>, pending: multiset<Ptr>, op: Op)
    requires IsDo(op) && Enabled(World(s, held), op)
    ensures Enabled(World(s, held + pending), op)
    ensures Step(World(s, held + pending), op).store == Step(World(s, held), op).store
    ensures Step(World(s, held + pending), op).held == Step(World(s, held), op).held + pending
  {
  }

  lemma DoKeepsCInv(c: State, op: Op)
    requires CInv(c) && CanStep(c, Do(op))
    ensures CInv(Next(c, Do(op)))
  {
    DoFrames(c.store, c.held, c.pending, op);
    DoKeepsCInvParts(c.store, c.All(), c.owed, op);
  }

  lemma FillKeepsInvBut(s: Store, held: multiset<Ptr>, id: nat, ps: seq<Ptr>, meta: Meta)
    requires InvButCounters(s, held + multiset(ps)) && s.IsLive(id) && s.frames[id].refCount > 0
    requires s.frames[id].slots == [] && forall p :: p in ps ==> p.To? && p.id < id
    ensures InvButCounters(s.SetFrame(id, s.frames[id].(slots := ps, meta := meta)), held)
  {
    var t :| SameButCounters(t, s) && Inv(t, held + multiset(ps));
    FillKeepsInv(t, held, id, ps, meta);
    var f := s.frames[id].(slots := ps, meta := meta);
    Settled(t.SetFrame(id, f), s.SetFrame(id, f), held);
  }

  lemma GrantKeepsCInvParts(s: Store, total: multiset<Ptr>, owed: multiset<nat>, r: nat, ps: seq<Ptr>, meta: Meta)
    requires InvButCounters(s, total + multiset(ps)) && CountersExact(s, owed) && s.Grants(r) && Null !in ps
    ensures var (s', p) := s.Compose(r, ps, meta);
            InvButCounters(s', total + multiset{p}) && CountersExact(s', owed) && SameZeros(s, s')
  {
    var meta0 := meta.(blocking := false);
    AllocKeepsInvBut(s, total + multiset(ps), r, meta0);
    AllocKeepsCounters(s, owed, r, meta0);
    var (s1, p) := s.AllocAndTrack(r, meta0);
    forall q | q in ps ensures q.To? && s.IsLive(q.id) {
      assert q != Null;
      PointsToLive(s, total + multiset(ps), q.id);
    }
    assert total + multiset(ps) + multiset{p} == total + multiset{p} + multiset(ps);
    var meta1 := s1.frames[p.id].meta.(blocking := s.AnyBlocking(ps));
    FillKeepsInvBut(s1, total + multiset{p}, p.id, ps, meta1);
    UpdateKeepsCounters(s1, owed, p.id, s1.frames[p.id].(slots := ps, meta := meta1));
  }

  lemma RefusalKeepsCInv(c: State, ps: multiset<Ptr>)
    requires CInv(c) && ps <= c.held
    ensures CInv(c.(held := c.held - ps + multiset{Null}, pending := c.pending + ps))
  {
    var total := c.held - ps + multiset{Null} + (c.pending + ps);
    assert total == c.All() + multiset{Null};
    IgnoresNull(c.store, c.All(), total);
  }

  lemma ComposeKeepsCInv(c: State, r: nat, ps: seq<Ptr>, meta: Meta)
    requires CInv(c) && CanStep(c, ComposeAll(r, ps, meta))
    ensures CInv(Next(c, ComposeAll(r, ps, meta)))
  {
    if !c.store.Grants(r) {
      RefusalKeepsCInv(c, multiset(ps));
    } else {
      var p := c.store.Compose(r, ps, meta).1;
      var rest := c.held - multiset(ps) + c.pending;
      assert c.All() == rest + multiset(ps);
      GrantKeepsCInvParts(c.store, rest, c.owed, r, ps, meta);
      assert c.held - multiset(ps) + multiset{p} + c.pending == rest + multiset{p};
    }
  }

  // ----- Releasing -----

  // The thread that decrements leaves the other references, and the slots if none is left.
  lemma DecrementKeepsInv(s: Store, total: multiset<Ptr>, id: nat)
    requires Inv(s, total + multiset{To(id)})
    ensures s.IsLive(id) && s.frames[id].refCount >= 1
    ensures var f := s.frames[id];
            Inv(s.SetFrame(id, f.(refCount := f.refCount - 1)),
                if f.refCount != 1 then total else total + multiset(f.slots))
  {
    HeldIsLive(s, total + multiset{To(id)}, id);
    var f := s.frames[id];
    RecountKeepsInv(s, total + multiset{To(id)}, id, f.refCount - 1,
                    if f.refCount != 1 then total else total + multiset(f.slots));
  }

  lemma DecrementKeepsInvBut(s: Store, total: multiset<Ptr>, id: nat)
    requires InvButCounters(s, total + multiset{To(id)})
    ensures s.IsLive(id) && s.frames[id].refCount >= 1
    ensures var f := s.frames[id];
            InvButCounters(s.SetFrame(id, f.(refCount := f.refCount - 1)),
                           if f.refCount != 1 then total else total + multiset(f.slots))
  {
    var t :| SameButCounters(t, s) && Inv(t, total + multiset{To(id)});
    DecrementKeepsInv(t, total, id);
    var f := s.frames[id];
    var f' := f.(refCount := f.refCount - 1);
    Settled(t.SetFrame(id, f'), s.SetFrame(id, f'), if f.refCount != 1 then total else total + multiset(f.slots));
  }

  lemma RecountKeepsDying(s: Store, dying: map<nat, Phase>, id: nat)
    requires DyingExact(s, dying) && s.IsLive(id) && s.frames[id].refCount >= 1
    ensures var f := s.frames[id];
            DyingExact(s.SetFrame(id, f.(refCount := f.refCount - 1)),
                       if f.refCount != 1 then dying else dying[id := Releasing])
  {
  }

  // `c` without the reference that goes.
  lemma AfterDecrementKeepsCInv(c: State, id: nat)
    requires InvButCounters(c.store, c.All() + multiset{To(id)})
    requires CountersExact(c.store, c.owed) && DyingExact(c.store, c.dying)
    ensures CInv(AfterDecrement(c, id))
  {
    DecrementKeepsInvBut(c.store, c.All(), id);
    RecountKeepsDying(c.store, c.dying, id);
    var f := c.store.frames[id];
    UpdateKeepsCounters(c.store, c.owed, id, f.(refCount := f.refCount - 1));
    assert c.held + (c.pending + multiset(f.slots)) == c.All() + multiset(f.slots);
  }

  lemma DecrementKeepsCInv(c: State, p: Ptr)
    requires CInv(c) && p in c.pending
    ensures CInv(Next(c, Decrement(p)))
  {
    var c' := c.(pending := c.pending - multiset{p});
    assert c.All() == c'.All() + multiset{p};
    if p.Null? {
      IgnoresNull(c.store, c.All(), c'.All());
    } else {
      AfterDecrementKeepsCInv(c', p.id);
    }
  }

  // The mark is set: what the counter is ahead of the unkept frames is owed.
  lemma MarkKeepsInvBut(s: Store, held: multiset<Ptr>, id: nat)
    requires InvButCounters(s, held) && s.IsLive(id)
    ensures InvButCounters(s.SetFrame(id, s.frames[id].(kept := true)), held)
    ensures s.frames[id].owner < |s.archives|
  {
    var t :| SameButCounters(t, s) && Inv(t, held);
    assert WellFormed(t, id);
    KeepKeepsInv(t, held, id);
    Settled(t.Keep(id), s.SetFrame(id, s.frames[id].(kept := true)), held);
  }

  lemma MarkKeepsCounters(s: Store, owed: multiset<nat>, id: nat)
    requires CountersExact(s, owed) && s.IsLive(id) && !s.frames[id].kept && s.frames[id].owner < |s.archives|
    ensures var f := s.frames[id];
            CountersExact(s.SetFrame(id, f.(kept := true)), owed + multiset{f.owner})
  {
    var f := s.frames[id];
    var s', owed' := s.SetFrame(id, f.(kept := true)), owed + multiset{f.owner};
    forall r: nat | r < |s.archives| ensures CounterExact(s', owed', r) {
      TotalUpdate(UnkeptOf(r), s.frames, id, f.(kept := true));
      assert CounterExact(s, owed, r);
    }
  }

  lemma MarkKeepsCInv(c: State, id: nat)
    requires CInv(c) && c.store.IsLive(id)
    ensures CInv(AfterMark(c, id)) && AfterMark(c, id).store.frames[id].kept
  {
    MarkKeepsInvBut(c.store, c.All(), id);
    if !c.store.frames[id].kept {
      MarkKeepsCounters(c.store, c.owed, id);
    }
  }

  lemma LowerCounterKeepsCInv(c: State, r: nat)
    requires CInv(c) && r in c.owed
    ensures CInv(Next(c, LowerCounter(r)))
  {
    var t :| SameButCounters(t, c.store) && Inv(t, c.All());
    var s' := c.store.KeepFrame(r);
    Settled(t, s', c.All());
    forall q: nat | q < |s'.archives| ensures CounterExact(s', c.owed - multiset{r}, q) {
      assert CounterExact(c.store, c.owed, q);
      if q == r { CountDown(Unkept(c.store, r) + c.owed[r]); }
    }
  }

  lemma GiveBackKeepsInvBut(s: Store, held: multiset<Ptr>, id: nat)
    requires InvButCounters(s, held) && s.IsLive(id) && s.frames[id].kept && s.frames[id].refCount == 0
    ensures InvButCounters(s.GiveBack(id), held)
    ensures s.GiveBack(id).frames == s.frames[id := s.frames[id].(live := false)]
  {
    var t :| SameButCounters(t, s) && Inv(t, held);
    GiveBackKeepsInv(t, held, id);
    assert WellFormed(t, id);
    Settled(t.GiveBack(id), s.GiveBack(id), held);
  }

  lemma GiveBackKeepsCounters(s: Store, owed: multiset<nat>, id: nat)
    requires CountersExact(s, owed) && s.IsLive(id) && s.frames[id].kept
    requires s.GiveBack(id).frames == s.frames[id := s.frames[id].(live := false)]
    ensures CountersExact(s.GiveBack(id), owed)
  {
    var s1 := s.SetFrame(id, s.frames[id].(live := false));
    UpdateKeepsCounters(s, owed, id, s.frames[id].(live := false));
    forall r: nat | r < |s.archives| ensures CounterExact(s.GiveBack(id), owed, r) {
      assert CounterExact(s1, owed, r);
    }
  }

  lemma GiveBackKeepsCInv(c: State, id: nat)
    requires CInv(c) && CanStep(c, GiveBackDying(id))
    ensures CInv(Next(c, GiveBackDying(id)))
  {
    GiveBackKeepsInvBut(c.store, c.All(), id);
    GiveBackKeepsCounters(c.store, c.owed, id);
  }

  lemma GiveKeepsCInv(c: State, p: Ptr)
    requires CInv(c) && p in c.held
    ensures CInv(c.(held := c.held - multiset{p}, pending := c.pending + multiset{p}))
  {
    assert c.held - multiset{p} + (c.pending + multiset{p}) == c.All();
  }

  lemma KeepDyingKeepsCInv(c: State, id: nat)
    requires CInv(c) && CanStep(c, KeepDying(id))
    ensures CInv(Next(c, KeepDying(id)))
  {
    MarkKeepsCInv(c, id);
  }

  lemma MarkKeptKeepsCInv(c: State, p: Ptr)
    requires CInv(c) && CanStep(c, MarkKept(p))
    ensures CInv(Next(c, MarkKept(p)))
  {
    PointsToLive(c.store, c.All(), p.id);
    MarkKeepsCInv(c, p.id);
  }

  lemma NextKeepsCInv(c: State, a: Action)
    requires CInv(c) && CanStep(c, a)
    ensures CInv(Next(c, a))
  {
    match a
    case Do(op) => DoKeepsCInv(c, op);
    case Give(p) => GiveKeepsCInv(c, p);
    case GiveFor(p) => RefusalKeepsCInv(c, multiset{p});
    case ComposeAll(r, ps, meta) => ComposeKeepsCInv(c, r, ps, meta);
    case Decrement(p) => DecrementKeepsCInv(c, p);
    case MarkKept(p) => MarkKeptKeepsCInv(c, p);
    case KeepDying(id) => KeepDyingKeepsCInv(c, id);
    case LowerCounter(r) => LowerCounterKeepsCInv(c, r);
    case GiveBackDying(id) => GiveBackKeepsCInv(c, id);
  }
}
