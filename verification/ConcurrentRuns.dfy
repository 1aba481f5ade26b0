// Whole interleavings of threads that allocate, keep and give up frames.
module ConcurrentRuns {
  import opened FrameStore
  import opened FrameInvariant
  import opened FrameOwnership
  import opened ConcurrentRelease

  predicate CanRun(c: State, run: seq<Action>)
    decreases |run|
  {
    run == [] || (CanStep(c, run[0]) && CanRun(Next(c, run[0]), run[1..]))
  }

  function RunSteps(c: State, run: seq<Action>): State
    requires CanRun(c, run)
    decreases |run|
  {
    if run == [] then c else RunSteps(Next(c, run[0]), run[1..])
  }

  function Begin(kinds: seq<(nat, bool)>): State {
    State(Initial(kinds), multiset{}, multiset{}, map[], multiset{})
  }

  lemma {:induction false} RunKeepsCInv(c: State, run: seq<Action>)
    requires CInv(c) && CanRun(c, run)
    ensures CInv(RunSteps(c, run))
    decreases |run|
  {
    if run != [] {
      NextKeepsCInv(c, run[0]);
      RunKeepsCInv(Next(c, run[0]), run[1..]);
    }
  }

  lemma BeginKeepsCInv(kinds: seq<(nat, bool)>)
    ensures CInv(Begin(kinds))
  {
    InitialIsSound(kinds);
    var c := Begin(kinds);
    assert c.All() == multiset{};
    Settled(c.store, c.store, multiset{});
  }

  // Reachability looks at frames only.
  lemma {:induction false} SamePaths(s: Store, s': Store, held: multiset<Ptr>, path: seq<nat>, id: nat)
    requires s.frames == s'.frames && LeadsTo(s, held, path, id)
    ensures LeadsTo(s', held, path, id)
  {
    if |path| > 1 { SamePaths(s, s', held, path[..|path| - 1], path[|path| - 2]); }
  }

  lemma SameReachable(s: Store, s': Store, held: multiset<Ptr>, id: nat)
    requires s.frames == s'.frames && Reachable(s, held, id)
    ensures Reachable(s', held, id)
  {
    var path :| LeadsTo(s, held, path, id);
    SamePaths(s, s', held, path, id);
  }

  lemma AtRestLiveIffReachable(c: State, id: nat)
    requires CInv(c) && c.pending == multiset{} && c.dying == map[]
    ensures c.store.IsLive(id) <==> Reachable(c.store, c.held, id)
  {
    var t :| SameButCounters(t, c.store) && Inv(t, c.All());
    assert c.All() == c.held;
    forall q | 0 <= q < |t.frames| && t.frames[q].live ensures t.frames[q].refCount > 0 {
      assert References(t, c.held, q) == CountOf(t, q);
      assert q !in c.dying;
    }
    LiveIffReachable(t, c.held);
    if Reachable(c.store, c.held, id) { SameReachable(c.store, t, c.held, id); }
    if Reachable(t, c.held, id) { SameReachable(t, c.store, c.held, id); }
  }

  // What the invariant says about the store itself.
  lemma CInvSays(c: State)
    requires CInv(c)
    ensures !c.store.fault
    ensures forall id: nat :: References(c.store, c.All(), id) == CountOf(c.store, id)
    ensures forall r: nat :: r < |c.store.archives| ==> PoolExact(c.store, r)
    ensures forall id: nat ::
              multiset(c.store.returned)[id] == if id < |c.store.frames| && !c.store.IsLive(id) then 1 else 0
  {
    var t :| SameButCounters(t, c.store) && Inv(t, c.All());
    forall id: nat ensures References(c.store, c.All(), id) == CountOf(c.store, id) {
      assert References(t, c.All(), id) == CountOf(t, id);
    }
    forall r: nat | r < |c.store.archives| ensures PoolExact(c.store, r) {
      assert PoolExact(t, r);
    }
    assert ReturnedOnce(t);
  }

  // Every interleaving: no freed frame is ever touched, no slot is freed twice, the
  // counts and the pools are exact at every step, the quota counters are exact but for
  // the decrements that are still owed, and each frame that is gone went back once. When
  // no release is in progress, the live frames are those the holders reach.
  lemma EveryInterleavingIsSound(kinds: seq<(nat, bool)>, run: seq<Action>)
    requires CanRun(Begin(kinds), run)
    ensures var c := RunSteps(Begin(kinds), run);
            && !c.store.fault
            && (forall id: nat :: References(c.store, c.held + c.pending, id) == CountOf(c.store, id))
            && (forall r: nat :: r < |c.store.archives| ==> PoolExact(c.store, r) && CounterExact(c.store, c.owed, r))
            && (forall id: nat ::
                  multiset(c.store.returned)[id] == if id < |c.store.frames| && !c.store.IsLive(id) then 1 else 0)
            && (c.pending == multiset{} && c.dying == map[] ==>
                  forall id: nat :: c.store.IsLive(id) <==> Reachable(c.store, c.held, id))
  {
    BeginKeepsCInv(kinds);
    RunKeepsCInv(Begin(kinds), run);
    var c := RunSteps(Begin(kinds), run);
    CInvSays(c);
    if c.pending == multiset{} && c.dying == map[] {
      forall id: nat ensures c.store.IsLive(id) <==> Reachable(c.store, c.held, id) {
        AtRestLiveIffReachable(c, id);
      }
    }
  }
}
