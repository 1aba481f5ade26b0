// What the dispatcher does with the items it is given: that it runs them, in push order,
// and loses none but to a clear or an overwrite; and that neither its worker nor a stop
// call ever gets stuck.
module DispatcherProgress {
  import opened Dispatcher

  // ----- What each step does to the items -----

  // The step pushes an item: a push that finds the queue open and, if it is a blocking
  // one, finds room or a flush; or one that has waited for that.
  predicate Pushes(s: State, a: Action) {
    match a
    case Put(t) =>
      s.Pc(t).Passed? && s.queue.accepting
      && (s.Pc(t).blocking ==> |s.queue.items| < s.queue.capacity || s.queue.flushing)
    case PutResume(_) => true
    case _ => false
  }

  // The step overwrites the oldest item: a non-blocking push to an open, full queue.
  predicate Overwrites(s: State, a: Action) {
    a.Put? && s.Pc(a.t).Passed? && !s.Pc(a.t).blocking && s.queue.accepting && |s.queue.items| >= s.queue.capacity
  }

  predicate Clears(a: Action) {
    a.StopClear? || a.DestructorClear?
  }

  // Items are lost to a clear, which takes all that are queued, to an overwrite, which
  // takes the oldest, and to nothing else.
  lemma LosesExactly(s: State, a: Action)
    requires Enabled(s, a)
    ensures Next(s, a).dropped == s.dropped
                                  + (if Clears(a) then set k | k in s.queue.items
                                     else if Overwrites(s, a) then {(s.queue.items + [s.pushed])[0]}
                                     else {})
  {
  }

  // What a push pushes is queued behind all others.
  lemma PushesExactly(s: State, a: Action)
    requires Enabled(s, a)
    ensures Next(s, a).pushed == s.pushed + if Pushes(s, a) then 1 else 0
    ensures Pushes(s, a) ==>
              Next(s, a).queue.items == if Overwrites(s, a) then (s.queue.items + [s.pushed])[1..]
                                        else s.queue.items + [s.pushed]
    ensures a.Put? && !Pushes(s, a) ==>
              (Next(s, a).Pc(a.t) == Blocked <==> s.queue.accepting && s.Pc(a.t).blocking)
              && Next(s, a).queue == s.queue
  {
  }

  // What leaves the queue otherwise is the oldest item, and the worker runs it. If there
  // is none it waits, unless the queue is being flushed.
  lemma TakesExactly(s: State, a: Action)
    requires Enabled(s, a)
    ensures a.WorkerFetch? || a.WorkerWake? ==>
              if s.queue.items != [] then
                Next(s, a).worker == Busy(s.queue.items[0]) && Next(s, a).queue.items == s.queue.items[1..]
              else
                Next(s, a).queue.items == []
                && Next(s, a).worker == if a.WorkerFetch? && !s.queue.flushing then Parked else After
    ensures !a.WorkerFetch? && !a.WorkerWake? && !Clears(a) && !Pushes(s, a) ==>
              Next(s, a).queue.items == s.queue.items
  {
  }

  // What it runs it finishes, and nothing else is ever finished.
  lemma FinishesExactly(s: State, a: Action)
    requires Enabled(s, a)
    ensures Next(s, a).done == s.done + if a.WorkerFinish? then {s.worker.item} else {}
    ensures s.worker.Busy? && !a.WorkerFinish? ==> Next(s, a).worker == s.worker
    ensures Next(s, a).worker.Busy? && !a.WorkerFetch? && !a.WorkerWake? ==> Next(s, a).worker == s.worker
  {
  }

  // ----- Nothing is lost, and items run in push order -----

  // Every item pushed is done, running or queued, and in this order.
  ghost predicate Contiguous(s: State) {
    var n := s.pushed - |s.queue.items|;
    && s.dropped == {}
    && (forall i :: 0 <= i < |s.queue.items| ==> s.queue.items[i] == n + i)
    && (s.worker.Busy? ==> s.worker.item == n - 1)
    && (forall k: nat :: k in s.done <==> k < if s.worker.Busy? then n - 1 else n)
  }

  lemma StepKeepsContiguous(s: State, a: Action)
    requires Contiguous(s) && Enabled(s, a) && !Clears(a) && !Overwrites(s, a)
    ensures Contiguous(Next(s, a))
  {
    LosesExactly(s, a);
    PushesExactly(s, a);
    TakesExactly(s, a);
    FinishesExactly(s, a);
  }

  // Without clears and overwrites every item pushed is done, running or queued, and the
  // done ones are those pushed first.
  lemma {:induction false} NothingIsLost(capacity: nat, run: seq<Action>, i: nat)
    requires i <= |run|
    requires forall j :: 0 <= j < i ==> !Clears(run[j]) && !Overwrites(StateAt(Initial(capacity), run, j), run[j])
    ensures Contiguous(StateAt(Initial(capacity), run, i))
  {
    if i > 0 {
      NothingIsLost(capacity, run, i - 1);
      var before := StateAt(Initial(capacity), run, i - 1);
      if Enabled(before, run[i - 1]) { StepKeepsContiguous(before, run[i - 1]); }
    }
  }

  // In every run, clears and overwrites included, the item that runs was pushed after
  // all that are done and before all that are queued.
  ghost predicate Ordered(s: State) {
    && (forall k: nat :: k in s.done && s.worker.Busy? ==> k < s.worker.item)
    && (forall k: nat, l: nat :: k in s.done && l in s.queue.items ==> k < l)
    && (forall l: nat :: s.worker.Busy? && l in s.queue.items ==> s.worker.item < l)
  }

  lemma AppendMembers(items: seq<nat>, x: nat)
    ensures forall l :: l in items + [x] <==> l in items || l == x
    ensures forall l :: l in (items + [x])[1..] ==> l in items || l == x
  {
  }

  lemma StepKeepsOrdered(s: State, a: Action)
    requires Inv(s) && Ordered(s) && Enabled(s, a)
    ensures Ordered(Next(s, a))
  {
    PushesExactly(s, a);
    TakesExactly(s, a);
    FinishesExactly(s, a);
    AppendMembers(s.queue.items, s.pushed);
    assert forall k: nat :: k in s.done ==> Finished(s, k) && k < s.pushed;
    assert s.worker.Busy? ==> Pending(s, s.worker.item);
    if (a.WorkerFetch? || a.WorkerWake?) && s.queue.items != [] {
      assert forall i :: 0 < i < |s.queue.items| ==> s.queue.items[0] < s.queue.items[i];
      assert s.queue.items[0] in s.queue.items;
      assert !s.worker.Busy?;
    }
  }

  lemma {:induction false} OrderedAt(capacity: nat, run: seq<Action>, i: nat)
    requires i <= |run|
    ensures Ordered(StateAt(Initial(capacity), run, i)) && Inv(StateAt(Initial(capacity), run, i))
  {
    InvAt(capacity, run, i);
    if i > 0 {
      OrderedAt(capacity, run, i - 1);
      var before := StateAt(Initial(capacity), run, i - 1);
      if Enabled(before, run[i - 1]) { StepKeepsOrdered(before, run[i - 1]); }
    }
  }

  lemma {:induction false} HistoryGrows(capacity: nat, run: seq<Action>, i: nat, j: nat)
    requires i <= j <= |run|
    ensures var s, s' := StateAt(Initial(capacity), run, i), StateAt(Initial(capacity), run, j);
            s.done <= s'.done && s.dropped <= s'.dropped && s.pushed <= s'.pushed
    decreases j
  {
    if i < j {
      HistoryGrows(capacity, run, i, j - 1);
      var before := StateAt(Initial(capacity), run, j - 1);
      if Enabled(before, run[j - 1]) {
        LosesExactly(before, run[j - 1]);
        PushesExactly(before, run[j - 1]);
        FinishesExactly(before, run[j - 1]);
      }
    }
  }

  // Items finish in push order: what is done by step i was pushed before what is not
  // and still gets done by step j.
  lemma FinishInPushOrder(capacity: nat, run: seq<Action>, i: nat, j: nat, k: nat, l: nat)
    requires i <= j <= |run|
    requires k in StateAt(Initial(capacity), run, i).done
    requires l !in StateAt(Initial(capacity), run, i).done && l in StateAt(Initial(capacity), run, j).done
    ensures k < l
  {
    OrderedAt(capacity, run, i);
    OrderedAt(capacity, run, j);
    HistoryGrows(capacity, run, i, j);
    var s, s' := StateAt(Initial(capacity), run, i), StateAt(Initial(capacity), run, j);
    assert Finished(s, k) && Finished(s', l);
    assert l !in s'.dropped;
    if l < s.pushed {
      assert Pending(s, l) || Finished(s, l);
    }
  }

  // ----- The worker goes on -----

  // The steps can be taken one after the other.
  predicate CanDo(s: State, steps: seq<Action>)
    decreases |steps|
  {
    steps == [] || (Enabled(s, steps[0]) && CanDo(Next(s, steps[0]), steps[1..]))
  }

  function Did(s: State, steps: seq<Action>): State
    requires CanDo(s, steps)
    decreases |steps|
  {
    if steps == [] then s else Did(Next(s, steps[0]), steps[1..])
  }

  lemma One(s: State, a: Action)
    requires Enabled(s, a)
    ensures CanDo(s, [a]) && Did(s, [a]) == Next(s, a)
  {
    assert [a][1..] == [];
    assert CanDo(Next(s, a), []) && Did(Next(s, a), []) == Next(s, a);
  }

  lemma {:induction false} DoMore(s: State, a: seq<Action>, b: seq<Action>)
    requires CanDo(s, a) && CanDo(Did(s, a), b)
    ensures CanDo(s, a + b) && Did(s, a + b) == Did(Did(s, a), b)
    decreases |a|
  {
    if a == [] {
      assert a + b == b;
    } else {
      assert (a + b)[0] == a[0] && (a + b)[1..] == a[1..] + b;
      DoMore(Next(s, a[0]), a[1..], b);
    }
  }

  lemma Then(s: State, a: Action, b: seq<Action>)
    requires Enabled(s, a) && CanDo(Next(s, a), b)
    ensures CanDo(s, [a] + b) && Did(s, [a] + b) == Did(Next(s, a), b)
  {
    One(s, a);
    DoMore(s, [a], b);
  }

  // What the worker does on its own does not touch the clients, the flags of stop and
  // the history of pushes.
  predicate SameClients(s: State, s': State) {
    s'.clients == s.clients && s'.pushed == s.pushed && s'.wasStopped == s.wasStopped && s'.alive == s.alive
    && s'.queue.capacity == s.queue.capacity && s'.queue.flushing == s.queue.flushing && s'.dropped == s.dropped
  }

  // The steps that take an idle worker to the item at the front.
  function ToFront(w: WorkerPc): seq<Action> {
    match w
    case After => [WorkerFlush] + [WorkerTest] + [WorkerFetch]
    case Loop => [WorkerTest] + [WorkerFetch]
    case Fetch => [WorkerFetch]
    case Parked => [WorkerWake]
    case _ => []
  }

  // Wherever an idle worker stands, it gets to the oldest item on its own and runs it.
  lemma WorkerTakesFront(s: State)
    requires s.alive && s.queue.items != [] && !s.worker.Busy? && !s.worker.Gone?
    ensures CanDo(s, ToFront(s.worker))
    ensures var s' := Did(s, ToFront(s.worker));
            && s'.worker == Busy(s.queue.items[0]) && s'.queue.items == s.queue.items[1..]
            && s'.done == s.done && SameClients(s, s')
  {
    match s.worker
    case After =>
      var s1 := Next(s, WorkerFlush);
      var s2 := Next(s1, WorkerTest);
      One(s2, WorkerFetch);
      Then(s1, WorkerTest, [WorkerFetch]);
      Then(s, WorkerFlush, [WorkerTest] + [WorkerFetch]);
      assert ToFront(After) == [WorkerFlush] + ([WorkerTest] + [WorkerFetch]);
    case Loop =>
      One(Next(s, WorkerTest), WorkerFetch);
      Then(s, WorkerTest, [WorkerFetch]);
    case Fetch => One(s, WorkerFetch);
    case Parked => One(s, WorkerWake);
  }

  // A worker left alone, with nothing blocking the item it runs, works off the whole
  // queue: every item in it is run to its end.
  lemma {:induction false} WorkerDrainsQueue(s: State) returns (steps: seq<Action>)
    requires s.alive && !s.worker.Gone? && s.Pc(0) == Idle
    ensures CanDo(s, steps)
    ensures var s' := Did(s, steps);
            && s'.queue.items == [] && !s'.worker.Busy? && !s'.worker.Gone? && SameClients(s, s')
            && (forall k :: k in s'.done <==> k in s.done || k in s.queue.items || s.worker == Busy(k))
    decreases |s.queue.items|, if s.worker.Busy? then 0 else 1
  {
    if s.worker.Busy? {
      One(s, WorkerFinish);
      var s1 := Next(s, WorkerFinish);
      if s1.queue.items == [] {
        steps := [WorkerFinish];
      } else {
        var first := ToFront(s1.worker);
        WorkerTakesFront(s1);
        assert s1.queue.items == [s1.queue.items[0]] + s1.queue.items[1..];
        var rest := WorkerDrainsQueue(Did(s1, first));
        DoMore(s1, first, rest);
        steps := [WorkerFinish] + (first + rest);
        Then(s, WorkerFinish, first + rest);
      }
    } else if s.queue.items == [] {
      steps := [];
    } else {
      var first := ToFront(s.worker);
      WorkerTakesFront(s);
      assert s.queue.items == [s.queue.items[0]] + s.queue.items[1..];
      var rest := WorkerDrainsQueue(Did(s, first));
      steps := first + rest;
      DoMore(s, first, rest);
    }
  }

  // ----- A stop call can return -----

  // The steps after which the flush mark of the worker is set.
  function ToFlush(s: State): seq<Action> {
    match s.worker
    case Busy(_) => [WorkerFinish] + [WorkerFlush]
    case After => [WorkerFlush]
    case Parked => if s.queue.Ready() then [WorkerWake] + [WorkerFlush] else [WorkerTimeout] + [WorkerFlush]
    case _ => []
  }

  // A stop call that waits while the worker runs the last item, is idle after it or is
  // parked gets its answer from the worker's next two steps.
  lemma StopIsAnswered(s: State, t: nat)
    requires s.Pc(t).Waiting? && s.queue.items == []
    requires (s.worker.Busy? && s.Pc(0) == Idle) || s.worker.After? || s.worker.Parked?
    ensures CanDo(s, ToFlush(s))
    ensures Did(s, ToFlush(s)).wasFlushed && Enabled(Did(s, ToFlush(s)), StopReturn(t))
  {
    match s.worker
    case Busy(_) =>
      One(Next(s, WorkerFinish), WorkerFlush);
      Then(s, WorkerFinish, [WorkerFlush]);
    case After => One(s, WorkerFlush);
    case Parked =>
      if s.queue.Ready() {
        One(Next(s, WorkerWake), WorkerFlush);
        Then(s, WorkerWake, [WorkerFlush]);
      } else {
        One(Next(s, WorkerTimeout), WorkerFlush);
        Then(s, WorkerTimeout, [WorkerFlush]);
      }
  }

  // And one that waits while the worker is on its way to the queue gets it there.
  lemma StopIsAnsweredLater(s: State, t: nat) returns (steps: seq<Action>)
    requires s.Pc(t).Waiting? && s.queue.items == [] && s.alive && (s.worker.Loop? || s.worker.Fetch?)
    ensures CanDo(s, steps) && Enabled(Did(s, steps), StopReturn(t))
  {
    var s1 := if s.worker.Loop? then Next(s, WorkerTest) else s;
    var first := if s.worker.Loop? then [WorkerTest] else [];
    if s.worker.Loop? { One(s, WorkerTest); }
    var s2 := Next(s1, WorkerFetch);
    StopIsAnswered(s2, t);
    Then(s1, WorkerFetch, ToFlush(s2));
    steps := first + ([WorkerFetch] + ToFlush(s2));
    DoMore(s, first, [WorkerFetch] + ToFlush(s2));
  }

  // ----- The calls -----

  // invoke on a running dispatcher pushes its item behind all others; on a stopped one
  // it does nothing.
  lemma InvokePushes(s: State, t: nat, blocking: bool)
    requires s.Pc(t) == Idle && (t == 0 ==> s.worker.Busy?)
    requires s.queue.accepting && |s.queue.items| < s.queue.capacity
    ensures Enabled(s, Check(t, blocking))
    ensures s.wasStopped ==> Next(s, Check(t, blocking)) == s
    ensures !s.wasStopped ==>
              CanDo(s, [Check(t, blocking)] + [Put(t)])
              && var s' := Did(s, [Check(t, blocking)] + [Put(t)]);
                 s'.queue.items == s.queue.items + [s.pushed] && s'.pushed == s.pushed + 1 && s'.Pc(t) == Idle
                 && s'.dropped == s.dropped
  {
    if !s.wasStopped {
      One(Next(s, Check(t, blocking)), Put(t));
      Then(s, Check(t, blocking), [Put(t)]);
    }
  }

  // A push that waits goes on exactly when there is room or a flush, and a stop that
  // waits exactly when the worker has been idle since. Nothing else holds a thread up,
  // nor a worker that has an item or waits for one.
  lemma WaitsExactly(s: State, t: nat)
    ensures s.Pc(t).Blocked? ==>
              (Enabled(s, PutResume(t)) <==> |s.queue.items| < s.queue.capacity || s.queue.flushing)
    ensures s.Pc(t).Waiting? ==> (Enabled(s, StopReturn(t)) <==> s.wasFlushed)
    ensures s.Pc(t).Passed? ==> Enabled(s, Put(t))
    ensures s.worker.Parked? ==>
              if s.queue.items != [] || s.queue.flushing then Enabled(s, WorkerWake) else Enabled(s, WorkerTimeout)
    ensures s.worker.Busy? && s.Pc(0) == Idle ==> Enabled(s, WorkerFinish)
    ensures Enabled(s, DestructorClear) && Enabled(s, Kill)
  {
  }

  // start opens the queue and lets invoke through; stop keeps it out, and empties and
  // closes the queue, before it waits for the worker.
  lemma StartOpens(s: State, t: nat)
    requires t != 0 && s.Pc(t) == Idle
    ensures CanDo(s, [StartFlag(t)] + [StartQueue(t)])
    ensures var s' := Did(s, [StartFlag(t)] + [StartQueue(t)]);
            !s'.wasStopped && s'.queue == s.queue.(accepting := true, flushing := false) && s'.Pc(t) == Idle
  {
    One(Next(s, StartFlag(t)), StartQueue(t));
    Then(s, StartFlag(t), [StartQueue(t)]);
  }

  lemma StopCloses(s: State, t: nat)
    requires t != 0 && s.Pc(t) == Idle
    ensures CanDo(s, [StopFlag(t)] + ([StopClear(t)] + [StopReset(t)]))
    ensures var s' := Did(s, [StopFlag(t)] + ([StopClear(t)] + [StopReset(t)]));
            && s'.wasStopped && !s'.wasFlushed && s'.Pc(t) == Waiting(s.pushed)
            && s'.queue == s.queue.(items := [], accepting := false, flushing := true)
  {
    var s1 := Next(s, StopFlag(t));
    One(Next(s1, StopClear(t)), StopReset(t));
    Then(s1, StopClear(t), [StopReset(t)]);
    Then(s, StopFlag(t), [StopClear(t)] + [StopReset(t)]);
  }

  // The destructor ends the worker at its next test and at no other place.
  lemma KilledWorkerLeaves(s: State)
    requires s.worker.Loop?
    ensures Next(s, WorkerTest).worker == if s.alive then Fetch else Gone
    ensures !Next(s, Kill).alive && Next(s, Kill).worker == s.worker && Next(s, Kill).queue == s.queue
    ensures Next(Next(s, Kill), WorkerTest).worker == Gone
  {
  }
}
