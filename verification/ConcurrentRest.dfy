// Releases come to an end: however the threads interleave, each reference given up is a
// bounded amount of work, and when it is done exactly the reachable frames are left.
module ConcurrentRest {
  import opened FrameStore
  import opened FrameOwnership
  import opened ConcurrentRelease
  import opened ConcurrentRuns

  // ----- What each step does to the books -----

  // A dying holder, or one that is assigned over, leaves its reference to its thread.
  lemma GivingMovesReference(c: State, p: Ptr)
    requires p in c.held
    ensures Next(c, Give(p)) == c.(held := c.held - multiset{p}, pending := c.pending + multiset{p})
    ensures Next(c, GiveFor(p)).held == c.held - multiset{p} + multiset{Null}
    ensures Next(c, GiveFor(p)).pending == c.pending + multiset{p} && Next(c, GiveFor(p)).store == c.store
  {
  }

  // Other operations of clients move the holders they name.
  lemma OperationMovesHolders(c: State, op: Op)
    requires CanStep(c, Do(op))
    ensures Next(c, Do(op)).held == c.held - TakenBy(op) + GivenBy(c.store, op)
    ensures Next(c, Do(op)).pending == c.pending && Next(c, Do(op)).owed == c.owed
    ensures Next(c, Do(op)).store == Step(World(c.store, c.held), op).store
  {
    HeldByStep(c.store, c.held, op);
  }

  // A composite takes over the references of its parts; refused, it leaves them to the thread.
  lemma ComposingMovesReferences(c: State, r: nat, ps: seq<Ptr>, meta: Meta)
    requires CanStep(c, ComposeAll(r, ps, meta))
    ensures var c' := Next(c, ComposeAll(r, ps, meta));
            if c.store.Grants(r) then
              && c'.held == c.held - multiset(ps) + multiset{To(|c.store.frames|)} && c'.pending == c.pending
              && c'.store == c.store.Compose(r, ps, meta).0
            else
              c'.held == c.held - multiset(ps) + multiset{Null} && c'.pending == c.pending + multiset(ps)
              && c'.store == c.store
  {
  }

  // What the thread that gives up the last reference to a composite has to release next.
  function Inherited(c: State, p: Ptr): multiset<Ptr> {
    if p.To? && p.id < |c.store.frames| && c.store.frames[p.id].refCount == 1
    then multiset(c.store.frames[p.id].slots) else multiset{}
  }

  lemma DecrementMovesReferences(c: State, p: Ptr)
    requires CInv(c) && p in c.pending
    ensures Next(c, Decrement(p)).held == c.held
    ensures Next(c, Decrement(p)).pending == c.pending - multiset{p} + Inherited(c, p)
  {
    if p.To? { PointsToLive(c.store, c.All(), p.id); }
    assert c.pending - multiset{p} + multiset{} == c.pending - multiset{p};
  }

  // A holder that keeps its frame moves no reference, and the frame is kept.
  lemma KeepingMarks(c: State, p: Ptr)
    requires CInv(c) && p.To? && p in c.held
    ensures var c' := Next(c, MarkKept(p));
            && c'.held == c.held && c'.pending == c.pending && c'.dying == c.dying
            && p.id < |c'.store.frames| && c'.store.frames[p.id].kept
  {
    PointsToLive(c.store, c.All(), p.id);
    MarkKeepsCInv(c, p.id);
  }

  // ----- The work left -----

  // The steps of releases already begun.
  predicate Releases(a: Action) {
    a.Decrement? || a.KeepDying? || a.LowerCounter? || a.GiveBackDying?
  }

  // The most that frame i may still cost.
  function Cost(f: Frame, dying: map<nat, Phase>, i: nat): nat {
    if !f.live then 0
    else if i in dying then (if dying[i] == Releasing then 3 else 1)
    else |f.slots| + 3
  }

  function Costs(frames: seq<Frame>, dying: map<nat, Phase>): nat {
    if frames == [] then 0
    else Costs(frames[..|frames| - 1], dying) + Cost(frames[|frames| - 1], dying, |frames| - 1)
  }

  function Work(c: State): nat {
    |c.pending| + |c.owed| + Costs(c.store.frames, c.dying)
  }

  lemma {:induction false} CostsAgree(
    frames: seq<Frame>, frames': seq<Frame>, dying: map<nat, Phase>, dying': map<nat, Phase>)
    requires |frames| == |frames'|
    requires forall i :: 0 <= i < |frames| ==> Cost(frames[i], dying, i) == Cost(frames'[i], dying', i)
    ensures Costs(frames, dying) == Costs(frames', dying')
  {
    if frames != [] {
      CostsAgree(frames[..|frames| - 1], frames'[..|frames| - 1], dying, dying');
    }
  }

  lemma {:induction false} CostsChange(
    frames: seq<Frame>, frames': seq<Frame>, dying: map<nat, Phase>, dying': map<nat, Phase>, id: nat)
    requires id < |frames| == |frames'|
    requires forall i :: 0 <= i < |frames| && i != id ==> Cost(frames[i], dying, i) == Cost(frames'[i], dying', i)
    ensures Costs(frames', dying') - Costs(frames, dying) == Cost(frames'[id], dying', id) - Cost(frames[id], dying, id)
  {
    var n := |frames| - 1;
    if id == n {
      CostsAgree(frames[..n], frames'[..n], dying, dying');
    } else {
      CostsChange(frames[..n], frames'[..n], dying, dying', id);
    }
  }

  lemma DecrementWorks(c: State, p: Ptr)
    requires CInv(c) && p in c.pending
    ensures Work(Next(c, Decrement(p))) < Work(c)
  {
    if p.To? {
      PointsToLive(c.store, c.All(), p.id);
      var c' := Next(c, Decrement(p));
      var f := c.store.frames[p.id];
      CostsChange(c.store.frames, c'.store.frames, c.dying, c'.dying, p.id);
      assert |multiset(f.slots)| == |f.slots|;
    }
  }

  lemma KeepWorks(c: State, id: nat)
    requires CInv(c) && CanStep(c, KeepDying(id))
    ensures Work(Next(c, KeepDying(id))) < Work(c)
  {
    var c' := Next(c, KeepDying(id));
    CostsChange(c.store.frames, c'.store.frames, c.dying, c'.dying, id);
  }

  lemma GiveBackWorks(c: State, id: nat)
    requires CInv(c) && CanStep(c, GiveBackDying(id))
    ensures Work(Next(c, GiveBackDying(id))) < Work(c)
  {
    var c' := Next(c, GiveBackDying(id));
    GiveBackKeepsInvBut(c.store, c.All(), id);
    CostsChange(c.store.frames, c'.store.frames, c.dying, c'.dying, id);
  }

  lemma ReleasesWork(c: State, a: Action)
    requires CInv(c) && CanStep(c, a) && Releases(a)
    ensures Work(Next(c, a)) < Work(c) && Next(c, a).held == c.held
  {
    match a
    case Decrement(p) =>
      DecrementWorks(c, p);
      DecrementMovesReferences(c, p);
    case KeepDying(id) => KeepWorks(c, id);
    case LowerCounter(r) =>
    case GiveBackDying(id) => GiveBackWorks(c, id);
  }

  // Releases begun come to an end in every interleaving: however the threads take turns,
  // they take no more steps than there is work.
  lemma {:induction false} ReleasesAreBounded(c: State, run: seq<Action>)
    requires CInv(c) && CanRun(c, run) && forall a :: a in run ==> Releases(a)
    ensures |run| + Work(RunSteps(c, run)) <= Work(c) && RunSteps(c, run).held == c.held
    decreases |run|
  {
    if run != [] {
      assert run[0] in run && forall a :: a in run[1..] ==> a in run;
      ReleasesWork(c, run[0]);
      NextKeepsCInv(c, run[0]);
      ReleasesAreBounded(Next(c, run[0]), run[1..]);
    }
  }

  predicate AtRest(c: State) {
    c.pending == multiset{} && c.dying == map[] && c.owed == multiset{}
  }

  // No thread has to wait for another: whatever is pending, owed or dying can be dealt
  // with at once, and a holder can be given up or its frame kept at any time.
  lemma NoThreadWaits(c: State)
    ensures forall p :: p in c.pending ==> CanStep(c, Decrement(p))
    ensures forall r :: r in c.owed ==> CanStep(c, LowerCounter(r))
    ensures forall id :: id in c.dying ==>
              CanStep(c, if c.dying[id] == Releasing then KeepDying(id) else GiveBackDying(id))
    ensures forall p :: p in c.held ==> CanStep(c, Give(p)) && CanStep(c, GiveFor(p))
    ensures forall p :: p in c.held && p.To? ==> CanStep(c, MarkKept(p))
    ensures forall op :: IsDo(op) && Enabled(World(c.store, c.held), op) ==> CanStep(c, Do(op))
  {
  }

  // As long as there is work some thread can go on with it.
  lemma SomeoneGoesOn(c: State) returns (a: Action)
    requires !AtRest(c)
    ensures CanStep(c, a) && Releases(a)
  {
    if c.pending != multiset{} {
      var p :| p in c.pending;
      a := Decrement(p);
    } else if c.owed != multiset{} {
      var r :| r in c.owed;
      a := LowerCounter(r);
    } else {
      var id :| id in c.dying;
      a := if c.dying[id] == Releasing then KeepDying(id) else GiveBackDying(id);
    }
  }

  // So from every state the threads come to rest without touching a holder; and then the
  // live frames are those the holders reach, and the quota counters are exact.
  lemma {:induction false} ComesToRest(c: State) returns (run: seq<Action>)
    requires CInv(c)
    ensures CanRun(c, run) && forall a :: a in run ==> Releases(a)
    ensures var c' := RunSteps(c, run);
            && AtRest(c') && c'.held == c.held && CInv(c')
            && (forall id: nat :: c'.store.IsLive(id) <==> Reachable(c'.store, c.held, id))
            && (forall r: nat :: r < |c'.store.archives| ==>
                  c'.store.archives[r].published == Unkept(c'.store, r) % UINT32_RANGE)
    decreases Work(c)
  {
    if AtRest(c) {
      run := [];
      forall id: nat ensures c.store.IsLive(id) <==> Reachable(c.store, c.held, id) {
        AtRestLiveIffReachable(c, id);
      }
      forall r: nat | r < |c.store.archives|
        ensures c.store.archives[r].published == Unkept(c.store, r) % UINT32_RANGE
      {
        assert CounterExact(c.store, c.owed, r);
      }
    } else {
      var a := SomeoneGoesOn(c);
      ReleasesWork(c, a);
      NextKeepsCInv(c, a);
      var rest := ComesToRest(Next(c, a));
      run := [a] + rest;
      assert run[1..] == rest;
    }
  }
}
