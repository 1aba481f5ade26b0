// The ownership theorems: what each operation of the frame code keeps, the
// equality of "live" and "reachable from a holder", and safety over whole runs.
module FrameOwnership {
  import opened SmallHeap
  import opened FrameStore
  import opened FrameInvariant

  // The invariant between operations.
  ghost predicate Sound(s: Store, held: multiset<Ptr>) {
    Inv(s, held) && Quiet(s)
  }

  // Empty holders do not matter.
  lemma SoundIgnoresNull(s: Store, held: multiset<Ptr>, held': multiset<Ptr>)
    requires Sound(s, held)
    requires forall id: nat :: held[To(id)] == held'[To(id)]
    ensures Sound(s, held')
  {
    InvIgnoresNull(s, held, held');
  }

  lemma InvIgnoresNull(s: Store, held: multiset<Ptr>, held': multiset<Ptr>)
    requires Inv(s, held)
    requires forall id: nat :: held[To(id)] == held'[To(id)]
    ensures Inv(s, held')
  {
    forall id: nat ensures References(s, held', id) == CountOf(s, id) {
      assert References(s, held, id) == CountOf(s, id);
    }
  }

  lemma DropKeepsSound(s: Store, held: multiset<Ptr>, p: Ptr)
    requires Sound(s, held + multiset{p})
    ensures Sound(s.Drop(p), held)
    ensures Settles(s, s.Drop(p), |s.frames|)
  {
    if p.Null? {
      SoundIgnoresNull(s, held + multiset{p}, held);
    } else {
      HeldIsLive(s, held + multiset{p}, p.id);
      ReleaseKeepsInv(s, held, p.id);
      SettlesKeepsQuiet(s, s.Drop(p), p.id + 1);
      SettlesWiden(s, s.Drop(p), p.id + 1, |s.frames|);
    }
  }

  lemma SettlesWiden(s: Store, s': Store, bound: nat, bound': nat)
    requires Settles(s, s', bound) && bound <= bound'
    ensures Settles(s, s', bound')
  {
    forall q | 0 <= q < |s.frames| ensures SettlesAt(s.frames[q], s'.frames[q], q < bound') {
      assert SettlesAt(s.frames[q], s'.frames[q], q < bound);
    }
  }

  lemma SettlesChain(s: Store, s1: Store, s2: Store, bound: nat)
    requires Settles(s, s1, bound) && Settles(s1, s2, bound)
    ensures Settles(s, s2, bound)
  {
    forall q | 0 <= q < |s.frames| ensures SettlesAt(s.frames[q], s2.frames[q], q < bound) {
      assert SettlesAt(s.frames[q], s1.frames[q], q < bound);
      assert SettlesAt(s1.frames[q], s2.frames[q], q < bound);
    }
  }

  lemma {:induction false} DropAllKeepsSound(s: Store, held: multiset<Ptr>, ps: seq<Ptr>)
    requires Sound(s, held + multiset(ps))
    ensures Sound(s.DropAll(ps), held)
    ensures Settles(s, s.DropAll(ps), |s.frames|)
    decreases |ps|
  {
    if ps == [] {
      assert held + multiset(ps) == held;
    } else {
      assert ps == [ps[0]] + ps[1..];
      assert held + multiset(ps) == (held + multiset(ps[1..])) + multiset{ps[0]};
      DropKeepsSound(s, held + multiset(ps[1..]), ps[0]);
      DropAllKeepsSound(s.Drop(ps[0]), held, ps[1..]);
      SettlesChain(s, s.Drop(ps[0]), s.DropAll(ps), |s.frames|);
    }
  }

  lemma CloneKeepsSound(s: Store, held: multiset<Ptr>, p: Ptr)
    requires Sound(s, held) && (p.To? ==> s.IsLive(p.id))
    ensures Sound(s.Clone(p), held + multiset{p})
  {
    CloneKeepsInv(s, held, p);
  }

  lemma CloneKeepsInv(s: Store, held: multiset<Ptr>, p: Ptr)
    requires Inv(s, held) && (p.To? ==> s.IsLive(p.id) && s.frames[p.id].refCount > 0)
    ensures Inv(s.Clone(p), held + multiset{p})
  {
    if p.Null? {
      InvIgnoresNull(s, held, held + multiset{p});
    } else {
      RecountKeepsInv(s, held, p.id, s.frames[p.id].refCount + 1, held + multiset{p});
    }
  }

  // A new frame, never kept and holding nothing, stored where `f.place` says.
  predicate Publishable(s: Store, r: nat, f: Frame, pool: Pool) {
    && r < |s.archives|
    && f.live && f.refCount == 1 && !f.kept && f.owner == r && f.slots == []
    && (f.fixed <==> f.place.InPool?)
    && pool.Consistent()
    && var free := s.archives[r].pool.free;
       if f.place.OnHeap? then pool.free == free
       else f.place.slot < |free| && free[f.place.slot] && pool.free == free[f.place.slot := false]
  }

  lemma PublishKeepsInv(s: Store, held: multiset<Ptr>, r: nat, f: Frame, pool: Pool)
    requires Inv(s, held) && Publishable(s, r, f, pool)
    ensures Inv(Published(s, r, f, pool), held + multiset{To(|s.frames|)})
  {
    var s' := Published(s, r, f, pool);
    var n := |s.frames|;
    AppendTotals(s.frames, f);
    assert References(s, held, n) == CountOf(s, n);
    forall q: nat ensures References(s', held + multiset{To(n)}, q) == CountOf(s', q) {
      assert References(s, held, q) == CountOf(s, q);
    }
    PublishKeepsArchives(s, r, f, pool);
    assert PoolExact(s, r);
    forall i | 0 <= i < |s'.frames| ensures WellFormed(s', i) {
      assert i < n ==> WellFormed(s, i);
    }
    assert ReturnedOnce(s');
  }

  lemma PublishKeepsArchives(s: Store, r: nat, f: Frame, pool: Pool)
    requires forall i :: 0 <= i < |s.archives| ==> PoolExact(s, i) && QuotaExact(s, i)
    requires Publishable(s, r, f, pool)
    ensures var s' := Published(s, r, f, pool);
            forall i :: 0 <= i < |s'.archives| ==> PoolExact(s', i) && QuotaExact(s', i)
  {
    var s' := Published(s, r, f, pool);
    AppendTotals(s.frames, f);
    forall i | 0 <= i < |s'.archives| ensures PoolExact(s', i) && QuotaExact(s', i) {
      assert PoolExact(s, i) && QuotaExact(s, i);
    }
  }

  function Published(s: Store, r: nat, f: Frame, pool: Pool): Store
    requires r < |s.archives|
  {
    var a := s.archives[r];
    s.(frames := s.frames + [f],
       archives := s.archives[r := a.(published := (a.published + 1) % UINT32_RANGE, pool := pool)])
  }

  // What an allocation gives: nothing exactly when the counter has reached a positive
  // maximum; otherwise a new frame with one reference, described as asked, in the pool
  // exactly when the archive uses one and it has room.
  predicate Allocated(s: Store, r: nat, meta: Meta, s': Store, p: Ptr)
    requires r < |s.archives|
  {
    var a := s.archives[r];
    && (p.Null? <==> a.maximum > 0 && a.published >= a.maximum)
    && (p.Null? ==> s' == s)
    && (p.To? ==>
          && p.id == |s.frames| && |s'.frames| == |s.frames| + 1 && s'.frames[..p.id] == s.frames
          && var f := s'.frames[p.id];
             && f.live && f.refCount == 1 && !f.kept && f.owner == r && f.composite == a.composite
             && f.slots == [] && f.meta == meta
             && (f.fixed <==> a.maximum > 0 && a.pool.keepAllocating
                              && exists i :: 0 <= i < |a.pool.free| && a.pool.free[i]))
  }

  lemma AllocKeepsInv(s: Store, held: multiset<Ptr>, r: nat, meta: Meta)
    requires Inv(s, held) && r < |s.archives|
    ensures var (s', p) := s.AllocAndTrack(r, meta);
            Inv(s', held + multiset{p}) && Allocated(s, r, meta, s', p)
  {
    var (s', p) := s.AllocAndTrack(r, meta);
    if p.Null? {
      InvIgnoresNull(s, held, held + multiset{p});
    } else {
      assert PoolExact(s, r);
      AllocateTakesFreeSlot(s.archives[r].pool);
      var f := s'.frames[p.id];
      PublishKeepsInv(s, held, r, f, s'.archives[r].pool);
      assert s' == Published(s, r, f, s'.archives[r].pool);
    }
  }

  lemma AllocKeepsSound(s: Store, held: multiset<Ptr>, r: nat, meta: Meta)
    requires Sound(s, held) && r < |s.archives|
    ensures var (s', p) := s.AllocAndTrack(r, meta);
            Sound(s', held + multiset{p}) && Allocated(s, r, meta, s', p)
  {
    AllocKeepsInv(s, held, r, meta);
    var (s', p) := s.AllocAndTrack(r, meta);
    if p.To? {
      assert forall q :: 0 <= q < |s.frames| ==> s'.frames[q] == s'.frames[..p.id][q];
    }
  }

  // Filling the slots of a frame that has none moves references from holders to it.
  lemma FillKeepsInv(s: Store, held: multiset<Ptr>, id: nat, ps: seq<Ptr>, meta: Meta)
    requires Inv(s, held + multiset(ps)) && s.IsLive(id) && s.frames[id].refCount > 0 && s.frames[id].slots == []
    requires forall p :: p in ps ==> p.To? && p.id < id
    ensures Inv(s.SetFrame(id, s.frames[id].(slots := ps, meta := meta)), held)
  {
    UpdateKeepsInv(s, held + multiset(ps), id, s.frames[id].(slots := ps, meta := meta), held);
  }

  // A granted composite takes over the references of its holders.
  lemma GrantKeepsInv(s: Store, held: multiset<Ptr>, r: nat, holders: seq<Ptr>, meta: Meta)
    requires Inv(s, held + multiset(holders)) && r < |s.archives|
    requires s.Grants(r) && Null !in holders
    ensures var (s', p) := s.Compose(r, holders, meta);
            && Inv(s', held + multiset{p})
            && p == To(|s.frames|) && |s'.frames| == |s.frames| + 1 && s'.frames[..p.id] == s.frames
            && s'.frames[p.id].slots == holders && s'.IsLive(p.id) && s'.frames[p.id].refCount == 1
  {
    var (s1, p) := s.AllocAndTrack(r, meta.(blocking := false));
    AllocKeepsInv(s, held + multiset(holders), r, meta.(blocking := false));
    forall q | q in holders ensures q.To? && s.IsLive(q.id) {
      assert q != Null;
      HeldIsLive(s, held + multiset(holders), q.id);
    }
    assert held + multiset(holders) + multiset{p} == held + multiset{p} + multiset(holders);
    FillKeepsInv(s1, held + multiset{p}, p.id, holders, s1.frames[p.id].meta.(blocking := s.AnyBlocking(holders)));
  }

  // Composing trades the holders for one reference to the composite, or for none. Only
  // a composite that is granted looks at the holders, so only then none may be empty.
  lemma ComposeKeepsSound(s: Store, held: multiset<Ptr>, r: nat, holders: seq<Ptr>, meta: Meta)
    requires Sound(s, held + multiset(holders)) && r < |s.archives|
    requires s.Grants(r) ==> Null !in holders
    ensures var (s', p) := s.Compose(r, holders, meta);
            && Sound(s', held + multiset{p})
            && (p.To? <==> s.Grants(r))
            && (p.Null? ==> Settles(s, s', |s.frames|))
            && (p.To? ==> p.id == |s.frames| && |s'.frames| == |s.frames| + 1 && s'.frames[..p.id] == s.frames
                          && s'.frames[p.id].slots == holders && s'.frames[p.id].live)
  {
    var (s', p) := s.Compose(r, holders, meta);
    if !s.Grants(r) {
      DropAllKeepsSound(s, held, holders);
      SoundIgnoresNull(s.DropAll(holders), held, held + multiset{p});
    } else {
      GrantKeepsInv(s, held, r, holders, meta);
      assert forall q :: 0 <= q < |s.frames| ==> s'.frames[q] == s'.frames[..p.id][q];
    }
  }

  lemma KeepKeepsSound(s: Store, held: multiset<Ptr>, id: nat)
    requires Sound(s, held) && s.IsLive(id)
    ensures Sound(s.Keep(id), held)
  {
    KeepKeepsInv(s, held, id);
  }

  lemma SetMetaKeepsSound(s: Store, held: multiset<Ptr>, id: nat, meta: Meta)
    requires Sound(s, held) && s.IsLive(id)
    ensures Sound(s.SetMeta(id, meta), held)
  {
    SetMetaKeepsInv(s, held, id, meta);
  }

  lemma SetMetaKeepsInv(s: Store, held: multiset<Ptr>, id: nat, meta: Meta)
    requires Inv(s, held) && s.IsLive(id)
    ensures Inv(s.SetMeta(id, meta), held)
  {
    assert WellFormed(s, id);
    UpdateKeepsInv(s, held, id, s.frames[id].(meta := meta), held);
  }

  // Changing the maximum or stopping the pool touches no frame.
  lemma ArchiveOptionKeepsInv(s: Store, held: multiset<Ptr>, r: nat, a: Archive)
    requires Inv(s, held) && r < |s.archives|
    requires a.published == s.archives[r].published
    requires a.pool.free == s.archives[r].pool.free && a.pool.size == s.archives[r].pool.size
    ensures Inv(s.SetArchive(r, a), held)
  {
    var s' := s.SetArchive(r, a);
    forall q: nat ensures References(s', held, q) == CountOf(s', q) {
      assert References(s, held, q) == CountOf(s, q);
    }
    forall i | 0 <= i < |s'.archives| ensures PoolExact(s', i) && QuotaExact(s', i) {
      assert PoolExact(s, i) && QuotaExact(s, i);
    }
    forall i | 0 <= i < |s'.frames| ensures WellFormed(s', i) {
      assert WellFormed(s, i);
    }
    assert ReturnedOnce(s');
  }

  // ----- Live means reachable -----

  // `path` leads from a frame some holder points at, through slots of live
  // composites, to frame `id`.
  ghost predicate LeadsTo(s: Store, held: multiset<Ptr>, path: seq<nat>, id: nat) {
    if |path| == 0 then false
    else
      && path[|path| - 1] == id
      && if |path| == 1 then To(id) in held
         else var c := path[|path| - 2];
              s.IsLive(c) && To(id) in s.frames[c].slots && LeadsTo(s, held, path[..|path| - 1], c)
  }

  ghost predicate Reachable(s: Store, held: multiset<Ptr>, id: nat) {
    exists path :: LeadsTo(s, held, path, id)
  }

  // What a live composite holds is live.
  lemma SlotIsLive(s: Store, held: multiset<Ptr>, c: nat, id: nat)
    requires Sound(s, held) && s.IsLive(c) && To(id) in s.frames[c].slots
    ensures s.IsLive(id)
  {
    TotalAtLeast(RefsTo(To(id)), s.frames, c);
    assert References(s, held, id) == CountOf(s, id);
  }

  lemma {:induction false} ReachableIsLive(s: Store, held: multiset<Ptr>, path: seq<nat>, id: nat)
    requires Sound(s, held) && LeadsTo(s, held, path, id)
    ensures s.IsLive(id)
  {
    if |path| == 1 {
      HeldIsLive(s, held, id);
    } else {
      SlotIsLive(s, held, path[|path| - 2], id);
    }
  }

  lemma {:induction false} LiveIsReachable(s: Store, held: multiset<Ptr>, id: nat) returns (path: seq<nat>)
    requires Sound(s, held) && s.IsLive(id)
    ensures LeadsTo(s, held, path, id)
    decreases |s.frames| - id
  {
    assert References(s, held, id) == CountOf(s, id);
    if To(id) in held {
      path := [id];
    } else {
      var c := TotalPositive(RefsTo(To(id)), s.frames);
      assert WellFormed(s, c);
      var prefix := LiveIsReachable(s, held, c);
      path := prefix + [id];
      assert path[..|path| - 1] == prefix;
    }
  }

  // No leak and no dangling frame: a frame is live exactly when some holder
  // reaches it, through any depth of nested composites.
  lemma LiveIffReachable(s: Store, held: multiset<Ptr>)
    requires Sound(s, held)
    ensures forall id: nat :: s.IsLive(id) <==> Reachable(s, held, id)
  {
    forall id: nat ensures s.IsLive(id) <==> Reachable(s, held, id) {
      if s.IsLive(id) {
        var path := LiveIsReachable(s, held, id);
      } else if Reachable(s, held, id) {
        var path :| LeadsTo(s, held, path, id);
        ReachableIsLive(s, held, path, id);
      }
    }
  }

  // ----- Runs -----

  datatype World = World(store: Store, held: multiset<Ptr>)

  // One operation of a client on holders it owns, or of the owner of an archive.
  datatype Op =
    | Alloc(r: nat, meta: Meta)
    | CloneHolder(p: Ptr)
    | DestroyHolder(p: Ptr)
    | MoveHolder(p: Ptr)                  // move construction: the source becomes empty
    | AssignHolder(dst: Ptr, src: Ptr)    // move assignment: releases what dst held
    | AssignSelf(p: Ptr)                  // h = std::move(h)
    | KeepFrameOf(p: Ptr)
    | ComposeFrames(r: nat, ps: seq<Ptr>, meta: Meta)
    | Describe(p: Ptr, meta: Meta)
    | ChangeMaximum(r: nat, maximum: nat)
    | StopPool(r: nat)

  // Clients use only holders that exist, and dereference only full ones.
  predicate Enabled(w: World, op: Op) {
    match op
    case Alloc(r, _) => r < |w.store.archives|
    case CloneHolder(p) => p in w.held
    case DestroyHolder(p) => p in w.held
    case MoveHolder(p) => p in w.held
    case AssignHolder(dst, src) => multiset{dst, src} <= w.held
    case AssignSelf(p) => p in w.held
    case KeepFrameOf(p) => p.To? && p in w.held
    case ComposeFrames(r, ps, _) =>
      r < |w.store.archives| && multiset(ps) <= w.held && (w.store.Grants(r) ==> Null !in ps)
    case Describe(p, _) => p.To? && p in w.held
    case ChangeMaximum(r, _) => r < |w.store.archives|
    case StopPool(r) => r < |w.store.archives|
  }

  function Step(w: World, op: Op): World {
    var World(s, held) := w;
    match op
    case Alloc(r, meta) => var (s', p) := s.AllocAndTrack(r, meta); World(s', held + multiset{p})
    case CloneHolder(p) => World(s.Clone(p), held + multiset{p})
    case DestroyHolder(p) => World(s.Drop(p), held - multiset{p})
    case MoveHolder(p) => World(s, held + multiset{Null})
    case AssignHolder(dst, src) => World(s.Drop(dst), held - multiset{dst} + multiset{Null})
    case AssignSelf(p) => World(s.Drop(p), held - multiset{p} + multiset{Null})
    case KeepFrameOf(p) => World(if p.To? then s.Keep(p.id) else s.Faulted(), held)
    case ComposeFrames(r, ps, meta) =>
      var (s', p) := s.Compose(r, ps, meta); World(s', held - multiset(ps) + multiset{p})
    case Describe(p, meta) => World(if p.To? then s.SetMeta(p.id, meta) else s.Faulted(), held)
    case ChangeMaximum(r, maximum) => World(s.SetMaximum(r, maximum), held)
    case StopPool(r) => World(s.StopAllocating(r), held)
  }

  lemma StepKeepsSound(w: World, op: Op)
    requires Sound(w.store, w.held) && Enabled(w, op)
    ensures Sound(Step(w, op).store, Step(w, op).held)
  {
    if op.CloneHolder? || op.DestroyHolder? || op.MoveHolder? || op.AssignHolder? || op.AssignSelf? {
      HolderStepKeepsSound(w, op);
    } else {
      StoreStepKeepsSound(w, op);
    }
  }

  lemma HolderStepKeepsSound(w: World, op: Op)
    requires Sound(w.store, w.held) && Enabled(w, op)
    requires op.CloneHolder? || op.DestroyHolder? || op.MoveHolder? || op.AssignHolder? || op.AssignSelf?
    ensures Sound(Step(w, op).store, Step(w, op).held)
  {
    var World(s, held) := w;
    match op
    case CloneHolder(p) =>
      if p.To? { HeldIsLive(s, held, p.id); }
      CloneKeepsSound(s, held, p);
    case DestroyHolder(p) => TakeKeepsSound(s, held, p);
    case MoveHolder(p) => SoundIgnoresNull(s, held, held + multiset{Null});
    case AssignHolder(dst, src) =>
      TakeKeepsSound(s, held, dst);
      SoundIgnoresNull(s.Drop(dst), held - multiset{dst}, held - multiset{dst} + multiset{Null});
    case AssignSelf(p) =>
      TakeKeepsSound(s, held, p);
      SoundIgnoresNull(s.Drop(p), held - multiset{p}, held - multiset{p} + multiset{Null});
  }

  lemma TakeKeepsSound(s: Store, held: multiset<Ptr>, p: Ptr)
    requires Sound(s, held) && p in held
    ensures Sound(s.Drop(p), held - multiset{p})
  {
    assert held == held - multiset{p} + multiset{p};
    DropKeepsSound(s, held - multiset{p}, p);
  }

  lemma StoreStepKeepsSound(w: World, op: Op)
    requires Sound(w.store, w.held) && Enabled(w, op)
    requires !(op.CloneHolder? || op.DestroyHolder? || op.MoveHolder? || op.AssignHolder? || op.AssignSelf?)
    ensures Sound(Step(w, op).store, Step(w, op).held)
  {
    var World(s, held) := w;
    match op
    case Alloc(r, meta) => AllocKeepsSound(s, held, r, meta);
    case KeepFrameOf(p) =>
      HeldIsLive(s, held, p.id);
      KeepKeepsSound(s, held, p.id);
    case ComposeFrames(r, ps, meta) =>
      assert held == held - multiset(ps) + multiset(ps);
      ComposeKeepsSound(s, held - multiset(ps), r, ps, meta);
    case Describe(p, meta) =>
      HeldIsLive(s, held, p.id);
      SetMetaKeepsSound(s, held, p.id, meta);
    case ChangeMaximum(r, maximum) => ArchiveOptionKeepsInv(s, held, r, s.archives[r].(maximum := maximum));
    case StopPool(r) => ArchiveOptionKeepsInv(s, held, r, s.archives[r].(pool := s.archives[r].pool.StopAllocating()));
  }

  // The holders an operation ends, and those it makes.
  function TakenBy(op: Op): multiset<Ptr> {
    match op
    case DestroyHolder(p) => multiset{p}
    case AssignHolder(dst, _) => multiset{dst}
    case AssignSelf(p) => multiset{p}
    case ComposeFrames(_, ps, _) => multiset(ps)
    case _ => multiset{}
  }

  function GivenBy(s: Store, op: Op): multiset<Ptr> {
    match op
    case Alloc(r, meta) => multiset{s.AllocAndTrack(r, meta).1}
    case CloneHolder(p) => multiset{p}
    case MoveHolder(_) => multiset{Null}
    case AssignHolder(_, _) => multiset{Null}
    case AssignSelf(_) => multiset{Null}
    case ComposeFrames(r, ps, meta) => multiset{s.Compose(r, ps, meta).1}
    case _ => multiset{}
  }

  // Exactly these holders change hands.
  lemma HeldByStep(s: Store, e: multiset<Ptr>, op: Op)
    ensures Step(World(s, e), op).held == e - TakenBy(op) + GivenBy(s, op)
  {
    assert e - multiset{} == e && e + multiset{} == e;
  }

  // Whoever has a holder may do anything with it; frames can be allocated by anyone.
  lemma HoldersMayAct(w: World, r: nat, p: Ptr, q: Ptr, meta: Meta)
    ensures p in w.held ==>
              && Enabled(w, CloneHolder(p)) && Enabled(w, DestroyHolder(p)) && Enabled(w, MoveHolder(p))
              && Enabled(w, AssignSelf(p))
              && (p.To? ==> Enabled(w, KeepFrameOf(p)) && Enabled(w, Describe(p, meta)))
              && (q in w.held && p != q ==> Enabled(w, AssignHolder(p, q)))
    ensures r < |w.store.archives| ==>
              && Enabled(w, Alloc(r, meta)) && Enabled(w, StopPool(r)) && Enabled(w, ComposeFrames(r, [], meta))
              && (p.To? && p in w.held ==> Enabled(w, ComposeFrames(r, [p], meta)))
  {
    assert multiset([p]) == multiset{p};
    assert multiset([p][..0]) == multiset{} && [p][..0] == [];
  }

  // What the options of an archive set, and that they set nothing else.
  lemma ArchiveOptionsSet(w: World, op: Op)
    requires Enabled(w, op) && (op.ChangeMaximum? || op.StopPool?)
    ensures var s, s' := w.store, Step(w, op).store;
            && s'.frames == s.frames && |s'.archives| == |s.archives|
            && (forall q :: 0 <= q < |s.archives| && q != op.r ==> s'.archives[q] == s.archives[q])
            && (op.ChangeMaximum? ==>
                  s'.archives[op.r] == s.archives[op.r].(maximum := op.maximum)
                  && (s'.Grants(op.r) <==> op.maximum == 0 || s.archives[op.r].published < op.maximum))
            && (op.StopPool? ==>
                  s'.archives[op.r].maximum == s.archives[op.r].maximum && !s'.archives[op.r].pool.keepAllocating)
  {
  }

  // Frames allocated once the pool is stopped live on the heap.
  lemma StoppedPoolUsesHeap(s: Store, r: nat, meta: Meta)
    requires r < |s.archives| && s.StopAllocating(r).AllocAndTrack(r, meta).1.To?
    ensures var (s', p) := s.StopAllocating(r).AllocAndTrack(r, meta);
            p.id < |s'.frames| && s'.frames[p.id].place.OnHeap? && !s'.frames[p.id].fixed
  {
  }

  // What an operation on one frame sets, and that it sets nothing else.
  lemma FrameOptionsSet(w: World, op: Op)
    requires Sound(w.store, w.held) && Enabled(w, op)
    requires (op.Describe? || op.KeepFrameOf? || op.CloneHolder?) && op.p.To?
    ensures op.p.id < |w.store.frames|
    ensures var f := w.store.frames[op.p.id];
            var f' := match op
                      case Describe(_, meta) => f.(meta := meta)
                      case KeepFrameOf(_) => f.(kept := true)
                      case _ => f.(refCount := f.refCount + 1);
            Step(w, op).store.frames == w.store.frames[op.p.id := f']
    ensures !op.KeepFrameOf? ==> Step(w, op).store.archives == w.store.archives
  {
    HeldIsLive(w.store, w.held, op.p.id);
    if op.KeepFrameOf? { KeepKeepsInv(w.store, w.held, op.p.id); }
  }

  predicate EnabledRun(w: World, ops: seq<Op>)
    decreases |ops|
  {
    ops == [] || (Enabled(w, ops[0]) && EnabledRun(Step(w, ops[0]), ops[1..]))
  }

  function Run(w: World, ops: seq<Op>): World
    decreases |ops|
  {
    if ops == [] then w else Run(Step(w, ops[0]), ops[1..])
  }

  lemma InitialIsSound(kinds: seq<(nat, bool)>)
    ensures Sound(Initial(kinds), multiset{})
  {
    var s := Initial(kinds);
    forall r | 0 <= r < |s.archives| ensures PoolExact(s, r) && QuotaExact(s, r) {
      UsedAll(s.archives[r].pool.free);
    }
    forall id: nat ensures References(s, multiset{}, id) == CountOf(s, id) {
    }
  }

  lemma {:induction false} RunKeepsSound(w: World, ops: seq<Op>)
    requires Sound(w.store, w.held) && EnabledRun(w, ops)
    ensures Sound(Run(w, ops).store, Run(w, ops).held)
    decreases |ops|
  {
    if ops != [] {
      StepKeepsSound(w, ops[0]);
      RunKeepsSound(Step(w, ops[0]), ops[1..]);
    }
  }

  // The main theorem: after any run of any client program no memory fault has
  // happened, counts are exact, live frames are the reachable ones, each archive's
  // pool and quota counter describe its live frames, and every frame that is gone
  // went back to its archive exactly once.
  lemma EveryRunIsSound(kinds: seq<(nat, bool)>, ops: seq<Op>)
    requires EnabledRun(World(Initial(kinds), multiset{}), ops)
    ensures var World(s, held) := Run(World(Initial(kinds), multiset{}), ops);
            && !s.fault
            && (forall id: nat :: References(s, held, id) == CountOf(s, id))
            && (forall id: nat :: s.IsLive(id) <==> Reachable(s, held, id))
            && (forall r :: 0 <= r < |s.archives| ==> PoolExact(s, r) && QuotaExact(s, r))
            && (forall id: nat :: multiset(s.returned)[id] == if id < |s.frames| && !s.IsLive(id) then 1 else 0)
  {
    InitialIsSound(kinds);
    RunKeepsSound(World(Initial(kinds), multiset{}), ops);
    var World(s, held) := Run(World(Initial(kinds), multiset{}), ops);
    LiveIffReachable(s, held);
  }

  // ----- The pool -----

  lemma {:induction false} TotalAtLeastTwo(m: Measure, fs: seq<Frame>, i: nat, j: nat)
    requires i < j < |fs|
    ensures Total(m, fs) >= Weigh(m, fs[i]) + Weigh(m, fs[j])
  {
    if j == |fs| - 1 {
      TotalAtLeast(m, fs[..j], i);
    } else {
      TotalAtLeastTwo(m, fs[..|fs| - 1], i, j);
    }
  }

  predicate Occupies(s: Store, id: nat, r: nat, slot: nat) {
    s.IsLive(id) && s.frames[id].owner == r && s.frames[id].place == InPool(slot)
  }

  // A slot is taken exactly when a live frame occupies it; no two live frames share
  // a slot; and a live frame is marked fixed exactly when it occupies one.
  lemma PoolMatchesLiveFrames(s: Store, held: multiset<Ptr>, r: nat)
    requires Sound(s, held) && r < |s.archives|
    ensures var pool := s.archives[r].pool;
            && |pool.free| == USER_QUEUE_SIZE && pool.size == Used(pool.free)
            && (forall slot: nat | slot < USER_QUEUE_SIZE ::
                  !pool.free[slot] <==> exists id: nat :: Occupies(s, id, r, slot))
            && (forall i: nat, j: nat, slot: nat | Occupies(s, i, r, slot) && Occupies(s, j, r, slot) :: i == j)
            && (forall id: nat | s.IsLive(id) && s.frames[id].owner == r ::
                  s.frames[id].fixed <==> exists slot: nat :: Occupies(s, id, r, slot))
  {
    var pool := s.archives[r].pool;
    assert PoolExact(s, r);
    forall slot: nat | slot < USER_QUEUE_SIZE
      ensures !pool.free[slot] <==> exists id: nat :: Occupies(s, id, r, slot)
    {
      if !pool.free[slot] {
        var id := TotalPositive(OccupantsOf(r, slot), s.frames);
        assert Occupies(s, id, r, slot);
      } else if id: nat :| Occupies(s, id, r, slot) {
        TotalAtLeast(OccupantsOf(r, slot), s.frames, id);
      }
    }
    forall i: nat, j: nat, slot: nat | Occupies(s, i, r, slot) && Occupies(s, j, r, slot) ensures i == j {
      assert WellFormed(s, i);
      if i < j { TotalAtLeastTwo(OccupantsOf(r, slot), s.frames, i, j); }
      if j < i { TotalAtLeastTwo(OccupantsOf(r, slot), s.frames, j, i); }
    }
    forall id: nat | s.IsLive(id) && s.frames[id].owner == r
      ensures s.frames[id].fixed <==> exists slot: nat :: Occupies(s, id, r, slot)
    {
      assert WellFormed(s, id);
      if s.frames[id].fixed {
        assert Occupies(s, id, r, s.frames[id].place.slot);
      }
    }
  }

  // ----- The publish quota -----

  // Frames of archive `r` that count against its quota.
  function Unkept(s: Store, r: nat): nat {
    Total(UnkeptOf(r), s.frames)
  }

  lemma {:induction false} TotalMonotone(m: Measure, fs: seq<Frame>, fs': seq<Frame>)
    requires |fs| == |fs'| && forall i :: 0 <= i < |fs| ==> Weigh(m, fs'[i]) <= Weigh(m, fs[i])
    ensures Total(m, fs') <= Total(m, fs)
  {
    if fs != [] {
      TotalMonotone(m, fs[..|fs| - 1], fs'[..|fs| - 1]);
    }
  }

  lemma SettlesLowersUnkept(s: Store, s': Store, bound: nat, r: nat)
    requires Settles(s, s', bound)
    ensures Unkept(s', r) <= Unkept(s, r)
  {
    forall i | 0 <= i < |s.frames| ensures Weigh(UnkeptOf(r), s'.frames[i]) <= Weigh(UnkeptOf(r), s.frames[i]) {
      assert SettlesAt(s.frames[i], s'.frames[i], i < bound);
    }
    TotalMonotone(UnkeptOf(r), s.frames, s'.frames);
  }

  // Below its quota the counter has not wrapped, so allocation is refused exactly
  // when the archive has as many unkept frames as the maximum allows.
  lemma AllocRefusedIffQuotaUsed(s: Store, held: multiset<Ptr>, r: nat, meta: Meta)
    requires Sound(s, held) && r < |s.archives|
    requires s.archives[r].maximum == 0 || Unkept(s, r) <= s.archives[r].maximum < UINT32_RANGE
    ensures s.AllocAndTrack(r, meta).1.Null? <==> s.archives[r].maximum > 0 && Unkept(s, r) == s.archives[r].maximum
    ensures s.AllocAndTrack(r, meta).1.To? ==> Unkept(s.AllocAndTrack(r, meta).0, r) == Unkept(s, r) + 1
  {
    assert QuotaExact(s, r);
    var (s', p) := s.AllocAndTrack(r, meta);
    if p.To? {
      AppendTotals(s.frames, s'.frames[p.id]);
    }
  }

  // The quota of one archive while its maximum stays what it is.
  predicate WithinQuota(s: Store, r: nat, maximum: nat) {
    r < |s.archives| && s.archives[r].maximum == maximum && Unkept(s, r) <= maximum
  }

  lemma StepKeepsQuota(w: World, op: Op, r: nat, maximum: nat)
    requires Sound(w.store, w.held) && Enabled(w, op)
    requires WithinQuota(w.store, r, maximum) && 0 < maximum < UINT32_RANGE
    requires !(op.ChangeMaximum? && op.r == r)
    ensures WithinQuota(Step(w, op).store, r, maximum)
  {
    var World(s, held) := w;
    match op
    case Alloc(q, meta) => AllocKeepsQuota(s, held, q, meta, r);
    case ComposeFrames(q, ps, meta) => ComposeKeepsQuota(s, held, q, ps, meta, r);
    case DestroyHolder(p) => DropKeepsQuota(s, held, p, r);
    case AssignHolder(dst, src) => DropKeepsQuota(s, held, dst, r);
    case AssignSelf(p) => DropKeepsQuota(s, held, p, r);
    case _ => UpdateKeepsQuota(w, op, r);
  }

  // Operations on one frame or one archive that release nothing.
  lemma UpdateKeepsQuota(w: World, op: Op, r: nat)
    requires Sound(w.store, w.held) && Enabled(w, op) && r < |w.store.archives|
    requires op.CloneHolder? || op.MoveHolder? || op.KeepFrameOf? || op.Describe? || op.ChangeMaximum? || op.StopPool?
    requires !(op.ChangeMaximum? && op.r == r)
    ensures var s' := Step(w, op).store;
            && Unkept(s', r) <= Unkept(w.store, r)
            && r < |s'.archives| && s'.archives[r].maximum == w.store.archives[r].maximum
  {
    var World(s, held) := w;
    if (op.CloneHolder? || op.KeepFrameOf? || op.Describe?) && op.p.To? {
      var id := op.p.id;
      HeldIsLive(s, held, id);
      if op.KeepFrameOf? { KeepKeepsInv(s, held, id); }
      TotalUpdate(UnkeptOf(r), s.frames, id, Step(w, op).store.frames[id]);
    }
  }

  lemma DropKeepsQuota(s: Store, held: multiset<Ptr>, p: Ptr, r: nat)
    requires Sound(s, held) && p in held && r < |s.archives|
    ensures Unkept(s.Drop(p), r) <= Unkept(s, r)
    ensures |s.Drop(p).archives| == |s.archives| && s.Drop(p).archives[r].maximum == s.archives[r].maximum
  {
    assert held == held - multiset{p} + multiset{p};
    DropKeepsSound(s, held - multiset{p}, p);
    SettlesLowersUnkept(s, s.Drop(p), |s.frames|, r);
  }

  // One more unkept frame where it was allocated, none elsewhere.
  lemma AllocRaisesUnkept(s: Store, q: nat, meta: Meta, r: nat)
    requires q < |s.archives| && r < |s.archives|
    ensures var s' := s.AllocAndTrack(q, meta).0;
            && |s'.archives| == |s.archives| && s'.archives[r].maximum == s.archives[r].maximum
            && Unkept(s', r) == Unkept(s, r) + if q == r && s.Grants(q) then 1 else 0
  {
    var (s', p) := s.AllocAndTrack(q, meta);
    if p.To? {
      AppendTotals(s.frames, s'.frames[p.id]);
    }
  }

  lemma AllocKeepsQuota(s: Store, held: multiset<Ptr>, q: nat, meta: Meta, r: nat)
    requires Sound(s, held) && q < |s.archives| && r < |s.archives|
    requires 0 < s.archives[r].maximum < UINT32_RANGE && Unkept(s, r) <= s.archives[r].maximum
    ensures WithinQuota(s.AllocAndTrack(q, meta).0, r, s.archives[r].maximum)
  {
    AllocRaisesUnkept(s, q, meta, r);
    assert QuotaExact(s, r);
  }

  lemma ComposeKeepsQuota(s: Store, held: multiset<Ptr>, q: nat, ps: seq<Ptr>, meta: Meta, r: nat)
    requires Sound(s, held) && q < |s.archives| && r < |s.archives|
    requires multiset(ps) <= held && (s.Grants(q) ==> Null !in ps)
    requires 0 < s.archives[r].maximum < UINT32_RANGE && Unkept(s, r) <= s.archives[r].maximum
    ensures WithinQuota(s.Compose(q, ps, meta).0, r, s.archives[r].maximum)
  {
    var meta0 := meta.(blocking := false);
    var (s', p) := s.Compose(q, ps, meta);
    assert held == held - multiset(ps) + multiset(ps);
    ComposeKeepsSound(s, held - multiset(ps), q, ps, meta);
    if p.Null? {
      SettlesLowersUnkept(s, s', |s.frames|, r);
    } else {
      AllocKeepsSound(s, held, q, meta0);
      AllocKeepsQuota(s, held, q, meta0, r);
      var s1 := s.AllocAndTrack(q, meta0).0;
      UpdateTotals(s1.frames, p.id, s'.frames[p.id]);
      assert s'.frames == s1.frames[p.id := s'.frames[p.id]];
    }
  }

  // With a constant positive maximum the number of unkept frames of an archive,
  // and the counter that tracks it, never exceed the maximum in any run.
  lemma {:induction false} QuotaHoldsInEveryRun(w: World, ops: seq<Op>, r: nat, maximum: nat)
    requires Sound(w.store, w.held) && EnabledRun(w, ops)
    requires WithinQuota(w.store, r, maximum) && 0 < maximum < UINT32_RANGE
    requires forall op :: op in ops ==> !(op.ChangeMaximum? && op.r == r)
    ensures var s := Run(w, ops).store;
            WithinQuota(s, r, maximum) && s.archives[r].published == Unkept(s, r)
    decreases |ops|
  {
    if ops == [] {
      assert QuotaExact(w.store, r);
    } else {
      StepKeepsSound(w, ops[0]);
      StepKeepsQuota(w, ops[0], r, maximum);
      assert forall op :: op in ops[1..] ==> op in ops;
      QuotaHoldsInEveryRun(Step(w, ops[0]), ops[1..], r, maximum);
    }
  }

  // When the last holder is gone, everything has been handed back.
  lemma NoHolderNoFrame(s: Store, held: multiset<Ptr>)
    requires Sound(s, held) && forall id: nat :: To(id) !in held
    ensures forall id: nat :: !s.IsLive(id)
    ensures multiset(s.returned) == multiset(Numbers(|s.frames|))
  {
    LiveIffReachable(s, held);
    forall id: nat ensures !s.IsLive(id) {
      if s.IsLive(id) {
        var path := LiveIsReachable(s, held, id);
        HeadIsHeld(s, held, path, id);
      }
    }
    forall id: nat ensures multiset(s.returned)[id] == multiset(Numbers(|s.frames|))[id] {
      CountingUp(|s.frames|, id);
      assert !s.IsLive(id);
    }
  }

  lemma {:induction false} HeadIsHeld(s: Store, held: multiset<Ptr>, path: seq<nat>, id: nat)
    requires LeadsTo(s, held, path, id)
    ensures To(path[0]) in held
  {
    if |path| > 1 {
      HeadIsHeld(s, held, path[..|path| - 1], path[|path| - 2]);
    }
  }

  function Numbers(n: nat): seq<nat> {
    seq(n, i => i)
  }

  lemma {:induction false} CountingUp(n: nat, id: nat)
    ensures multiset(Numbers(n))[id] == if id < n then 1 else 0
  {
    if n > 0 {
      CountingUp(n - 1, id);
      assert Numbers(n) == Numbers(n - 1) + [n - 1];
    }
  }
}
