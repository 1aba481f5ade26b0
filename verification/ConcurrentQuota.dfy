// The publish quota when frames are allocated, kept and given up by many threads at
// once and each step interleaves.
module ConcurrentQuota {
  import opened FrameStore
  import opened FrameInvariant
  import opened FrameOwnership
  import opened ConcurrentRelease
  import opened ConcurrentRuns

  // Frames that count against the quota of archive `r`, and those that still will be
  // counted for a moment.
  function Counted(c: State, r: nat): nat {
    Unkept(c.store, r) + c.owed[r]
  }

  predicate WithinMaximum(c: State, r: nat, maximum: nat) {
    r < |c.store.archives| && c.store.archives[r].maximum == maximum && Counted(c, r) <= maximum
  }

  // A step that changes one frame and no archive's maximum.
  lemma UpdateLowersCounted(s: Store, id: nat, f: Frame, r: nat)
    requires id < |s.frames| && Weigh(UnkeptOf(r), f) <= Weigh(UnkeptOf(r), s.frames[id])
    ensures Unkept(s.SetFrame(id, f), r) == Unkept(s, r) + Weigh(UnkeptOf(r), f) - Weigh(UnkeptOf(r), s.frames[id])
  {
    TotalUpdate(UnkeptOf(r), s.frames, id, f);
  }

  lemma CounterNotWrapped(s: Store, owed: multiset<nat>, r: nat)
    requires CountersExact(s, owed) && r < |s.archives| && Unkept(s, r) + owed[r] < UINT32_RANGE
    ensures s.archives[r].published == Unkept(s, r) + owed[r]
  {
    assert CounterExact(s, owed, r);
  }

  // An allocation is granted only below the maximum, where the counter has not wrapped.
  lemma AllocKeepsWithin(s: Store, owed: multiset<nat>, q: nat, meta: Meta, r: nat, maximum: nat)
    requires CountersExact(s, owed) && q < |s.archives| && r < |s.archives| && 0 < maximum < UINT32_RANGE
    requires s.archives[r].maximum == maximum && Unkept(s, r) + owed[r] <= maximum
    ensures var s' := s.AllocAndTrack(q, meta).0;
            && |s'.archives| == |s.archives| && s'.archives[r].maximum == maximum && Unkept(s', r) + owed[r] <= maximum
  {
    CounterNotWrapped(s, owed, r);
    AllocRaisesUnkept(s, q, meta, r);
  }

  // Nor does a change of one frame's count or description.
  lemma FrameKeepsWithin(c: State, id: nat, f: Frame, held: multiset<Ptr>, r: nat, maximum: nat)
    requires WithinMaximum(c, r, maximum) && id < |c.store.frames|
    requires var was := c.store.frames[id]; f.live == was.live && f.kept == was.kept && f.owner == was.owner
    ensures WithinMaximum(c.(store := c.store.SetFrame(id, f), held := held), r, maximum)
  {
    UpdateLowersCounted(c.store, id, f, r);
  }

  lemma CloneKeepsWithin(c: State, p: Ptr, r: nat, maximum: nat)
    requires CInv(c) && CanStep(c, Do(CloneHolder(p))) && WithinMaximum(c, r, maximum)
    ensures WithinMaximum(Next(c, Do(CloneHolder(p))), r, maximum)
  {
    if p.To? {
      PointsToLive(c.store, c.All(), p.id);
      var f := c.store.frames[p.id];
      FrameKeepsWithin(c, p.id, f.(refCount := f.refCount + 1), c.held + multiset{p}, r, maximum);
    }
  }

  lemma DescribeKeepsWithin(c: State, p: Ptr, meta: Meta, r: nat, maximum: nat)
    requires CInv(c) && CanStep(c, Do(Describe(p, meta))) && WithinMaximum(c, r, maximum)
    ensures WithinMaximum(Next(c, Do(Describe(p, meta))), r, maximum)
  {
    PointsToLive(c.store, c.All(), p.id);
    FrameKeepsWithin(c, p.id, c.store.frames[p.id].(meta := meta), c.held, r, maximum);
  }

  lemma DoKeepsWithin(c: State, op: Op, r: nat, maximum: nat)
    requires CInv(c) && CanStep(c, Do(op)) && WithinMaximum(c, r, maximum) && 0 < maximum < UINT32_RANGE
    requires !(op.ChangeMaximum? && op.r == r)
    ensures WithinMaximum(Next(c, Do(op)), r, maximum)
  {
    match op
    case Alloc(q, meta) => AllocKeepsWithin(c.store, c.owed, q, meta, r, maximum);
    case CloneHolder(p) => CloneKeepsWithin(c, p, r, maximum);
    case Describe(p, meta) => DescribeKeepsWithin(c, p, meta, r, maximum);
    case _ =>
  }

  lemma ComposedCountsAsAllocated(s: Store, q: nat, ps: seq<Ptr>, meta: Meta, r: nat)
    requires s.Grants(q) && s.AllLive(ps)
    ensures var s1 := s.AllocAndTrack(q, meta.(blocking := false)).0;
            var s' := s.Compose(q, ps, meta).0;
            s'.archives == s1.archives && Unkept(s', r) == Unkept(s1, r)
  {
    var (s1, p) := s.AllocAndTrack(q, meta.(blocking := false));
    var f := s.Compose(q, ps, meta).0.frames[p.id];
    UpdateLowersCounted(s1, p.id, f, r);
  }

  lemma HeldAreLive(c: State, ps: seq<Ptr>)
    requires CInv(c) && multiset(ps) <= c.held && Null !in ps
    ensures c.store.AllLive(ps)
  {
    forall p | p in ps ensures p.To? && c.store.IsLive(p.id) {
      assert p in multiset(ps);
      PointsToLive(c.store, c.All(), p.id);
    }
  }

  lemma ComposeKeepsWithin(c: State, q: nat, ps: seq<Ptr>, meta: Meta, r: nat, maximum: nat)
    requires CInv(c) && CanStep(c, ComposeAll(q, ps, meta))
    requires WithinMaximum(c, r, maximum) && 0 < maximum < UINT32_RANGE
    ensures WithinMaximum(Next(c, ComposeAll(q, ps, meta)), r, maximum)
  {
    if c.store.Grants(q) {
      HeldAreLive(c, ps);
      AllocKeepsWithin(c.store, c.owed, q, meta.(blocking := false), r, maximum);
      ComposedCountsAsAllocated(c.store, q, ps, meta, r);
    }
  }

  // A thread that sets a mark moves the frame from those counted to those owed.
  lemma MarkKeepsWithin(c: State, id: nat, r: nat, maximum: nat)
    requires CInv(c) && c.store.IsLive(id) && WithinMaximum(c, r, maximum)
    ensures WithinMaximum(AfterMark(c, id), r, maximum)
  {
    UpdateLowersCounted(c.store, id, c.store.frames[id].(kept := true), r);
  }

  lemma DecrementKeepsWithin(c: State, p: Ptr, r: nat, maximum: nat)
    requires CInv(c) && p in c.pending && WithinMaximum(c, r, maximum)
    ensures WithinMaximum(Next(c, Decrement(p)), r, maximum)
  {
    if p.To? {
      PointsToLive(c.store, c.All(), p.id);
      var f := c.store.frames[p.id];
      UpdateLowersCounted(c.store, p.id, f.(refCount := f.refCount - 1), r);
    }
  }

  lemma GiveBackKeepsWithin(c: State, id: nat, r: nat, maximum: nat)
    requires CInv(c) && CanStep(c, GiveBackDying(id)) && WithinMaximum(c, r, maximum)
    ensures WithinMaximum(Next(c, GiveBackDying(id)), r, maximum)
  {
    GiveBackKeepsInvBut(c.store, c.All(), id);
    UpdateLowersCounted(c.store, id, c.store.frames[id].(live := false), r);
  }

  lemma NextKeepsWithin(c: State, a: Action, r: nat, maximum: nat)
    requires CInv(c) && CanStep(c, a) && WithinMaximum(c, r, maximum) && 0 < maximum < UINT32_RANGE
    requires !(a.Do? && a.op.ChangeMaximum? && a.op.r == r)
    ensures WithinMaximum(Next(c, a), r, maximum)
  {
    match a
    case Do(op) => DoKeepsWithin(c, op, r, maximum);
    case ComposeAll(q, ps, meta) => ComposeKeepsWithin(c, q, ps, meta, r, maximum);
    case MarkKept(p) =>
      PointsToLive(c.store, c.All(), p.id);
      MarkKeepsWithin(c, p.id, r, maximum);
    case KeepDying(id) => MarkKeepsWithin(c, id, r, maximum);
    case Decrement(p) => DecrementKeepsWithin(c, p, r, maximum);
    case GiveBackDying(id) => GiveBackKeepsWithin(c, id, r, maximum);
    case _ =>
  }

  // With a constant positive maximum an archive never has more unkept frames than that,
  // in any interleaving, and its counter is theirs plus the decrements still owed.
  lemma {:induction false} QuotaHoldsInEveryInterleaving(c: State, run: seq<Action>, r: nat, maximum: nat)
    requires CInv(c) && CanRun(c, run) && WithinMaximum(c, r, maximum) && 0 < maximum < UINT32_RANGE
    requires forall a :: a in run ==> !(a.Do? && a.op.ChangeMaximum? && a.op.r == r)
    ensures var c' := RunSteps(c, run);
            WithinMaximum(c', r, maximum) && c'.store.archives[r].published == Counted(c', r)
    decreases |run|
  {
    if run == [] {
      assert CounterExact(c.store, c.owed, r);
    } else {
      NextKeepsCInv(c, run[0]);
      NextKeepsWithin(c, run[0], r, maximum);
      assert forall a :: a in run[1..] ==> a in run;
      QuotaHoldsInEveryInterleaving(Next(c, run[0]), run[1..], r, maximum);
    }
  }
}
