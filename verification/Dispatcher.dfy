// The dispatcher: any number of client threads and one worker around a queue.
// Every section under a mutex and every access to an atomic flag is one step, and
// the steps of all threads interleave freely.
module Dispatcher {
  import opened ConsumerQueue

  // Where a client call stands. `mark` is the number of items pushed so far when the
  // call of `stop` cleared the queue.
  datatype ClientPc =
    | Idle
    | Passed(blocking: bool)  // invoke has read was_stopped_ as false
    | Blocked                 // inside blockingEnqueue, waiting for room
    | Starting                // start has reset was_stopped_
    | Stopping                // stop has set was_stopped_
    | Emptied(mark: nat)      // stop has cleared the queue
    | Waiting(mark: nat)      // stop has reset was_flushed_ and waits for it

  datatype WorkerPc =
    | Loop          // about to test is_alive_
    | Fetch         // about to call dequeue
    | Parked        // waiting inside dequeue
    | Busy(item: nat)
    | After         // about to set was_flushed_
    | Gone

  // Items are named by their position in the order of pushes. Thread 0 stands for the
  // worker itself: the running item may call invoke, but not stop or start.
  datatype State = State(
    queue: Queue<nat>,
    pushed: nat,
    done: set<nat>,      // run to completion, or left by an exception
    dropped: set<nat>,   // overwritten or cleared
    wasStopped: bool,
    wasFlushed: bool,
    alive: bool,
    worker: WorkerPc,
    clients: map<nat, ClientPc>)
  {
    function Pc(t: nat): ClientPc {
      if t in clients then clients[t] else Idle
    }

    function At(t: nat, pc: ClientPc): State {
      this.(clients := clients[t := pc])
    }

    function Add(): State {
      this.(queue := queue.Push(pushed), pushed := pushed + 1)
    }

    // The non-blocking push with its overwrite.
    function Enqueue(): State {
      if !queue.accepting then this
      else
        var s := Add();
        if |s.queue.items| > queue.capacity
        then s.(queue := s.queue.PopFront(), dropped := dropped + {s.queue.items[0]}) else s
    }

    function Drain(): State {
      this.(queue := queue.Clear(), dropped := dropped + (set k | k in queue.items))
    }

    // The end of a dequeue that does not wait any longer.
    function Take(): State {
      match queue.Front()
      case None => this.(worker := After)
      case Some(item) => this.(queue := queue.PopFront(), worker := Busy(item))
    }
  }

  datatype Action =
    | Check(t: nat, blocking: bool)
    | Put(t: nat)
    | PutResume(t: nat)
    | StartFlag(t: nat)
    | StartQueue(t: nat)
    | StopFlag(t: nat)
    | StopClear(t: nat)
    | StopReset(t: nat)
    | StopReturn(t: nat)
    | DestructorClear   // the second clear of the destructor
    | Kill              // the destructor resets is_alive_
    | WorkerTest
    | WorkerFetch
    | WorkerWake
    | WorkerTimeout
    | WorkerFinish
    | WorkerFlush

  // Steps that are not part of a call by a client thread.
  predicate IsWorkerStep(a: Action) {
    a.DestructorClear? || a.Kill? || a.WorkerTest? || a.WorkerFetch? || a.WorkerWake?
    || a.WorkerTimeout? || a.WorkerFinish? || a.WorkerFlush?
  }

  predicate Enabled(s: State, a: Action) {
    match a
    case Check(t, _) => s.Pc(t) == Idle && (t == 0 ==> s.worker.Busy?)
    case Put(t) => s.Pc(t).Passed?
    case PutResume(t) => s.Pc(t).Blocked? && s.queue.HasRoom()
    case StartFlag(t) => t != 0 && s.Pc(t) == Idle
    case StartQueue(t) => s.Pc(t).Starting?
    case StopFlag(t) => t != 0 && s.Pc(t) == Idle
    case StopClear(t) => s.Pc(t).Stopping?
    case StopReset(t) => s.Pc(t).Emptied?
    case StopReturn(t) => s.Pc(t).Waiting? && s.wasFlushed
    case DestructorClear => true
    case Kill => true
    case WorkerTest => s.worker.Loop?
    case WorkerFetch => s.worker.Fetch?
    case WorkerWake => s.worker.Parked? && s.queue.Ready()
    case WorkerTimeout => s.worker.Parked? && !s.queue.Ready()
    case WorkerFinish => s.worker.Busy? && s.Pc(0) == Idle
    case WorkerFlush => s.worker.After?
  }

  function Next(s: State, a: Action): State
    requires Enabled(s, a)
  {
    match a
    case Check(t, blocking) => if s.wasStopped then s else s.At(t, Passed(blocking))
    case Put(t) =>
      if !s.Pc(t).blocking then s.Enqueue().At(t, Idle)
      else if !s.queue.accepting then s.At(t, Idle)
      else if s.queue.HasRoom() then s.Add().At(t, Idle)
      else s.At(t, Blocked)
    case PutResume(t) => s.Add().At(t, Idle)
    case StartFlag(t) => s.(wasStopped := false).At(t, Starting)
    case StartQueue(t) => s.(queue := s.queue.Start()).At(t, Idle)
    case StopFlag(t) => s.(wasStopped := true).At(t, Stopping)
    case StopClear(t) => s.Drain().At(t, Emptied(s.pushed))
    case StopReset(t) => s.(wasFlushed := false).At(t, Waiting(s.Pc(t).mark))
    case StopReturn(t) => s.At(t, Idle)
    case DestructorClear => s.Drain()
    case Kill => s.(alive := false)
    case WorkerTest => s.(worker := if s.alive then Fetch else Gone)
    case WorkerFetch =>
      var s' := s.(queue := s.queue.Open());
      if s.queue.Ready() then s'.Take() else s'.(worker := Parked)
    case WorkerWake => s.Take()
    case WorkerTimeout => s.(worker := After)
    case WorkerFinish => s.(done := s.done + {s.worker.item}, worker := After)
    case WorkerFlush => s.(wasFlushed := true, worker := Loop)
  }

  function Initial(capacity: nat): State {
    State(Empty(capacity), 0, {}, {}, true, false, true, Loop, map[])
  }

  // ----- The invariant -----

  predicate Finished(s: State, k: nat) {
    k in s.done || k in s.dropped
  }

  predicate Pending(s: State, k: nat) {
    k in s.queue.items || s.worker == Busy(k)
  }

  // Every pushed item is in exactly one place; the queue is in push order.
  ghost predicate Partitioned(s: State) {
    && (forall i, j :: 0 <= i < j < |s.queue.items| ==> s.queue.items[i] < s.queue.items[j])
    && (forall k: nat :: Pending(s, k) || Finished(s, k) <==> k < s.pushed)
    && (forall k: nat :: !(Pending(s, k) && Finished(s, k)))
    && (s.worker.Busy? ==> s.worker.item !in s.queue.items)
    && s.done !! s.dropped
  }

  // What a call of `stop` has established so far.
  ghost predicate BarrierHolds(s: State, t: nat) {
    match s.Pc(t)
    case Emptied(mark) => mark <= s.pushed && forall k: nat :: k in s.queue.items ==> k >= mark
    case Waiting(mark) =>
      && mark <= s.pushed
      && (forall k: nat :: k in s.queue.items ==> k >= mark)
      && (s.wasFlushed && s.worker.Busy? ==> s.worker.item >= mark)
    case _ => true
  }

  ghost predicate Inv(s: State) {
    Partitioned(s) && forall t: nat :: BarrierHolds(s, t)
  }

  // `s'` has the items of `s` and perhaps one new one at the back.
  lemma AddKeepsPartition(s: State)
    requires Partitioned(s)
    ensures Partitioned(s.Add())
    ensures forall k: nat :: k in s.Add().queue.items <==> k in s.queue.items || k == s.pushed
  {
    var s' := s.Add();
    assert s.pushed !in s.queue.items && !Finished(s, s.pushed) by {
      assert !(Pending(s, s.pushed) || Finished(s, s.pushed));
    }
    assert forall k: nat :: k in s.queue.items ==> k < s.pushed by {
      forall k: nat | k in s.queue.items ensures k < s.pushed { assert Pending(s, k); }
    }
    assert forall i :: 0 <= i < |s.queue.items| ==> s.queue.items[i] in s.queue.items;
    forall k: nat ensures Pending(s', k) || Finished(s', k) <==> k < s'.pushed {
      assert Pending(s', k) <==> Pending(s, k) || k == s.pushed;
    }
    forall k: nat ensures !(Pending(s', k) && Finished(s', k)) {
      assert Pending(s', k) <==> Pending(s, k) || k == s.pushed;
    }
  }

  // The front item leaves the queue for the worker or is dropped.
  lemma FrontLeaves(s: State, s': State)
    requires Partitioned(s) && s.queue.items != []
    requires s'.queue.items == s.queue.items[1..] && s'.pushed == s.pushed && s'.done == s.done
    requires || (s'.worker == s.worker && s'.dropped == s.dropped + {s.queue.items[0]})
             || (!s.worker.Busy? && s'.worker == Busy(s.queue.items[0]) && s'.dropped == s.dropped)
    ensures Partitioned(s')
  {
    var x := s.queue.items[0];
    assert s.queue.items == [x] + s'.queue.items;
    assert Pending(s, x);
    forall k: nat ensures Pending(s', k) || Finished(s', k) <==> k < s'.pushed {
      assert Pending(s, k) || Finished(s, k) <==> k < s.pushed;
    }
    forall k: nat ensures !(Pending(s', k) && Finished(s', k)) {
      assert !(Pending(s, k) && Finished(s, k));
    }
  }

  lemma ClearKeepsPartition(s: State, s': State)
    requires Partitioned(s)
    requires s'.queue.items == [] && s'.pushed == s.pushed && s'.done == s.done && s'.worker == s.worker
    requires s'.dropped == s.dropped + (set k | k in s.queue.items)
    ensures Partitioned(s')
  {
    forall k: nat ensures Pending(s', k) || Finished(s', k) <==> k < s'.pushed {
      assert Pending(s, k) || Finished(s, k) <==> k < s.pushed;
    }
    forall k: nat ensures !(Pending(s', k) && Finished(s', k)) {
      assert !(Pending(s, k) && Finished(s, k));
    }
    forall k: nat | k in s.done ensures k !in s'.dropped {
      assert Finished(s, k);
    }
  }

  lemma FinishKeepsPartition(s: State, s': State)
    requires Partitioned(s) && s.worker.Busy?
    requires s'.queue == s.queue && s'.pushed == s.pushed && s'.dropped == s.dropped
    requires s'.done == s.done + {s.worker.item} && s'.worker == After
    ensures Partitioned(s')
  {
    assert Pending(s, s.worker.item);
    forall k: nat ensures Pending(s', k) || Finished(s', k) <==> k < s'.pushed {
      assert Pending(s, k) || Finished(s, k) <==> k < s.pushed;
    }
    forall k: nat ensures !(Pending(s', k) && Finished(s', k)) {
      assert !(Pending(s, k) && Finished(s, k));
    }
  }

  // Steps that leave the items where they are.
  lemma SameItems(s: State, s': State)
    requires Partitioned(s)
    requires s'.queue.items == s.queue.items && s'.pushed == s.pushed && s'.done == s.done && s'.dropped == s.dropped
    requires s'.worker == s.worker || (!s.worker.Busy? && !s'.worker.Busy?)
    ensures Partitioned(s')
  {
    forall k: nat ensures (Pending(s', k) <==> Pending(s, k)) && (Finished(s', k) <==> Finished(s, k)) {
    }
  }

  lemma EnqueueKeepsPartition(s: State)
    requires Partitioned(s)
    ensures Partitioned(s.Enqueue())
  {
    if s.queue.accepting {
      AddKeepsPartition(s);
      if |s.Add().queue.items| > s.queue.capacity {
        FrontLeaves(s.Add(), s.Enqueue());
      }
    }
  }

  lemma TakeKeepsPartition(s: State)
    requires Partitioned(s) && !s.worker.Busy?
    ensures Partitioned(s.Take())
  {
    if s.queue.items == [] { SameItems(s, s.Take()); } else { FrontLeaves(s, s.Take()); }
  }

  lemma NextKeepsPartition(s: State, a: Action)
    requires Partitioned(s) && Enabled(s, a)
    ensures Partitioned(Next(s, a))
  {
    var s' := Next(s, a);
    match a
    case Put(t) =>
      if !s.Pc(t).blocking {
        EnqueueKeepsPartition(s);
        SameItems(s.Enqueue(), s');
      } else if s.queue.accepting && s.queue.HasRoom() {
        AddKeepsPartition(s);
        SameItems(s.Add(), s');
      } else {
        SameItems(s, s');
      }
    case PutResume(t) =>
      AddKeepsPartition(s);
      SameItems(s.Add(), s');
    case StopClear(t) => ClearKeepsPartition(s, s');
    case DestructorClear => ClearKeepsPartition(s, s');
    case WorkerFetch =>
      var s1 := s.(queue := s.queue.Open());
      SameItems(s, s1);
      if s.queue.Ready() { TakeKeepsPartition(s1); } else { SameItems(s, s'); }
    case WorkerWake => TakeKeepsPartition(s);
    case WorkerFinish => FinishKeepsPartition(s, s');
    case _ => SameItems(s, s');
  }

  // What any step can do to the items: none from before re-enters the queue, the
  // worker takes only queued ones, and the flush mark is set by an idle worker.
  ghost predicate OnlyGains(s: State, s': State) {
    && s'.pushed >= s.pushed
    && (forall k: nat :: k in s'.queue.items ==> k in s.queue.items || k >= s.pushed)
    && (s'.worker.Busy? && s'.worker != s.worker ==> s'.worker.item in s.queue.items)
    && (s'.wasFlushed && !s.wasFlushed ==> !s'.worker.Busy?)
  }

  lemma EnqueueOnlyGains(s: State)
    ensures OnlyGains(s, s.Enqueue()) && OnlyGains(s, s.Add())
    ensures s.Enqueue().clients == s.clients && s.Enqueue().wasFlushed == s.wasFlushed && s.Enqueue().worker == s.worker
  {
  }

  lemma TakeOnlyGains(s: State)
    ensures OnlyGains(s, s.Take()) && s.Take().clients == s.clients && s.Take().wasFlushed == s.wasFlushed
  {
  }

  // A step other than a thread's own leaves what its stop call has established.
  lemma OthersKeepBarrier(s: State, s': State, t: nat)
    requires BarrierHolds(s, t) && OnlyGains(s, s') && s'.Pc(t) == s.Pc(t)
    ensures BarrierHolds(s', t)
  {
  }

  lemma OwnStepKeepsBarrier(s: State, a: Action)
    requires Inv(s) && Enabled(s, a)
    requires !IsWorkerStep(a)
    ensures BarrierHolds(Next(s, a), a.t)
  {
    assert BarrierHolds(s, a.t);
  }

  lemma ClientOnlyGains(s: State, a: Action)
    requires Enabled(s, a) && !IsWorkerStep(a)
    ensures OnlyGains(s, Next(s, a))
  {
    EnqueueOnlyGains(s);
  }

  lemma OthersKeepPc(s: State, a: Action, t: nat)
    requires Enabled(s, a) && !IsWorkerStep(a)
    ensures a.t != t ==> Next(s, a).Pc(t) == s.Pc(t)
  {
    EnqueueOnlyGains(s);
  }

  lemma ClientKeepsBarriers(s: State, a: Action)
    requires Inv(s) && Enabled(s, a) && !IsWorkerStep(a)
    ensures forall t: nat :: BarrierHolds(Next(s, a), t)
  {
    ClientOnlyGains(s, a);
    OwnStepKeepsBarrier(s, a);
    forall t: nat ensures BarrierHolds(Next(s, a), t) {
      assert BarrierHolds(s, t);
      if t != a.t {
        OthersKeepPc(s, a, t);
        OthersKeepBarrier(s, Next(s, a), t);
      }
    }
  }

  lemma WorkerKeepsBarriers(s: State, a: Action)
    requires Inv(s) && Enabled(s, a)
    requires IsWorkerStep(a)
    ensures forall t: nat :: BarrierHolds(Next(s, a), t)
  {
    TakeOnlyGains(s);
    TakeOnlyGains(s.(queue := s.queue.Open()));
    var s' := Next(s, a);
    assert OnlyGains(s, s');
    forall t: nat ensures BarrierHolds(s', t) {
      assert BarrierHolds(s, t);
      OthersKeepBarrier(s, s', t);
    }
  }

  lemma NextKeepsInv(s: State, a: Action)
    requires Inv(s) && Enabled(s, a)
    ensures Inv(Next(s, a))
    ensures s.done <= Next(s, a).done && s.dropped <= Next(s, a).dropped
  {
    NextKeepsPartition(s, a);
    if IsWorkerStep(a) {
      WorkerKeepsBarriers(s, a);
    } else {
      ClientKeepsBarriers(s, a);
    }
  }

  // ----- Runs -----

  // The state before step i of a run. A thread scheduled for a step it cannot take
  // does nothing.
  function StateAt(s: State, run: seq<Action>, i: nat): State
    requires i <= |run|
  {
    if i == 0 then s
    else
      var before := StateAt(s, run, i - 1);
      if Enabled(before, run[i - 1]) then Next(before, run[i - 1]) else before
  }

  lemma {:induction false} InvAt(capacity: nat, run: seq<Action>, i: nat)
    requires i <= |run|
    ensures Inv(StateAt(Initial(capacity), run, i))
  {
    if i > 0 {
      InvAt(capacity, run, i - 1);
      var before := StateAt(Initial(capacity), run, i - 1);
      if Enabled(before, run[i - 1]) {
        NextKeepsInv(before, run[i - 1]);
      }
    }
  }

  lemma {:induction false} FinishedForever(capacity: nat, run: seq<Action>, i: nat, j: nat, k: nat)
    requires i <= j <= |run| && Finished(StateAt(Initial(capacity), run, i), k)
    ensures Finished(StateAt(Initial(capacity), run, j), k)
    ensures !Pending(StateAt(Initial(capacity), run, j), k)
    decreases j - i
  {
    InvAt(capacity, run, j);
    if i < j {
      FinishedForever(capacity, run, i, j - 1, k);
      InvAt(capacity, run, j - 1);
      var before := StateAt(Initial(capacity), run, j - 1);
      if Enabled(before, run[j - 1]) {
        NextKeepsInv(before, run[j - 1]);
      }
    }
  }

  predicate Marked(s: State, t: nat, mark: nat) {
    (s.Pc(t).Emptied? || s.Pc(t).Waiting?) && s.Pc(t).mark == mark
  }

  lemma ClearSetsMark(s: State, t: nat)
    requires Enabled(s, StopClear(t))
    ensures Marked(Next(s, StopClear(t)), t, s.pushed)
  {
  }

  // Between its clear and its return a stop call keeps its mark.
  lemma MarkStays(s: State, a: Action, t: nat, mark: nat)
    requires Enabled(s, a) && a != StopReturn(t) && Marked(s, t, mark)
    ensures Marked(Next(s, a), t, mark)
  {
    if IsWorkerStep(a) { WorkerKeepsClients(s, a); } else { OthersKeepPc(s, a, t); }
  }

  lemma WorkerKeepsClients(s: State, a: Action)
    requires Enabled(s, a) && IsWorkerStep(a)
    ensures Next(s, a).clients == s.clients
  {
    TakeOnlyGains(s);
    TakeOnlyGains(s.(queue := s.queue.Open()));
  }

  // The wait of thread t's stop call ends at step i.
  predicate ReturnsAt(s: State, run: seq<Action>, i: nat, t: nat)
    requires i < |run|
  {
    run[i] == StopReturn(t) && Enabled(StateAt(s, run, i), run[i])
  }

  predicate ClearsAt(s: State, run: seq<Action>, i: nat, t: nat)
    requires i < |run|
  {
    run[i] == StopClear(t) && Enabled(StateAt(s, run, i), run[i])
  }

  lemma MarkAtNext(s: State, run: seq<Action>, i: nat, t: nat, mark: nat)
    requires i < |run| && !ReturnsAt(s, run, i, t)
    requires (ClearsAt(s, run, i, t) && mark == StateAt(s, run, i).pushed)
             || Marked(StateAt(s, run, i), t, mark)
    ensures Marked(StateAt(s, run, i + 1), t, mark)
  {
    if !Enabled(StateAt(s, run, i), run[i]) {
    } else if run[i] == StopClear(t) {
      ClearSetsMark(StateAt(s, run, i), t);
    } else {
      MarkStays(StateAt(s, run, i), run[i], t, mark);
    }
  }

  // The mark of a stop call is the number of items pushed before its clear, as long
  // as the thread is in the same call.
  lemma {:induction false} MarkIsPushedAtClear(s: State, run: seq<Action>, c: nat, i: nat, t: nat)
    requires c < i < |run| && ClearsAt(s, run, c, t)
    requires forall j :: c < j < i ==> !ReturnsAt(s, run, j, t)
    ensures Marked(StateAt(s, run, i), t, StateAt(s, run, c).pushed)
    decreases i
  {
    if c + 1 < i {
      MarkIsPushedAtClear(s, run, c, i - 1, t);
    }
    MarkAtNext(s, run, i - 1, t, StateAt(s, run, c).pushed);
  }

  // `stop` is a barrier. When a call that cleared the queue at step c returns at step
  // i, every item pushed before the clear has finished, and at no later step is such
  // an item queued or running: whatever the other threads did in between, including
  // other stops, starts and invokes that passed their check before the stop.
  lemma StopIsABarrier(capacity: nat, run: seq<Action>, c: nat, i: nat, t: nat, j: nat, k: nat)
    requires c < i < j <= |run|
    requires ClearsAt(Initial(capacity), run, c, t) && ReturnsAt(Initial(capacity), run, i, t)
    requires forall m :: c < m < i ==> !ReturnsAt(Initial(capacity), run, m, t)
    requires k < StateAt(Initial(capacity), run, c).pushed
    ensures Finished(StateAt(Initial(capacity), run, j), k)
    ensures !Pending(StateAt(Initial(capacity), run, j), k)
  {
    MarkIsPushedAtClear(Initial(capacity), run, c, i, t);
    InvAt(capacity, run, i);
    var s := StateAt(Initial(capacity), run, i);
    assert BarrierHolds(s, t);
    assert Pending(s, k) || Finished(s, k);
    FinishedForever(capacity, run, i, j, k);
  }
}
