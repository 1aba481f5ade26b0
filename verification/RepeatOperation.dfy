// A repeating operation: one client thread starts and stops it, and the worker of a
// one-item dispatcher runs it and re-arms it. Steps interleave freely.
module RepeatOperation {
  import opened ConsumerQueue

  datatype ClientPc =
    | Idle
    | Start1   // stopped_ is false
    | Start2   // was_stopped_ is false
    | Start3   // the queue is started; about to test was_stopped_ in invoke
    | Start4   // about to push
    | Stop1    // stopped_ is true
    | Stop2    // was_stopped_ is true
    | Stop3    // the queue is cleared
    | Stop4    // was_flushed_ is reset; waiting for it

  datatype WorkerPc =
    | Loop
    | Parked       // waiting inside dequeue
    | Running      // inside the operation
    | Finished     // about to test stopped_
    | Rearm        // about to test was_stopped_ in invoke
    | Push         // about to push
    | After        // about to set was_flushed_

  // `resting` holds from the return of `stop` (and before the first `start`) until the
  // next `start` begins.
  datatype State = State(
    queue: Queue<()>,
    stopped: bool,
    wasStopped: bool,
    wasFlushed: bool,
    client: ClientPc,
    worker: WorkerPc,
    resting: bool)
  {
    function Enqueue(): State {
      this.(queue := queue.Enqueue(()))
    }

    function Take(): State {
      this.(queue := queue.PopFront(), worker := if queue.items == [] then After else Running)
    }
  }

  datatype Action =
    | ClientStart    // stopped_ = false
    | ClientStop     // stopped_ = true
    | ClientStep     // the next section of the call in progress
    | WorkerStep     // the next section of the worker
    | WorkerThrow    // the operation ends by an exception
    | WorkerTimeout

  predicate Enabled(s: State, a: Action) {
    match a
    case ClientStart => s.client.Idle?
    case ClientStop => s.client.Idle?
    case ClientStep => !s.client.Idle? && (s.client.Stop4? ==> s.wasFlushed)
    case WorkerStep => s.worker.Parked? ==> s.queue.Ready()
    case WorkerThrow => s.worker.Running?
    case WorkerTimeout => s.worker.Parked? && !s.queue.Ready()
  }

  function NextClient(s: State): State {
    match s.client
    case Idle => s
    case Start1 => s.(wasStopped := false, client := Start2)
    case Start2 => s.(queue := s.queue.Start(), client := Start3)
    case Start3 => s.(client := if s.wasStopped then Idle else Start4)
    case Start4 => s.Enqueue().(client := Idle)
    case Stop1 => s.(wasStopped := true, client := Stop2)
    case Stop2 => s.(queue := s.queue.Clear(), client := Stop3)
    case Stop3 => s.(wasFlushed := false, client := Stop4)
    case Stop4 => s.(client := Idle, resting := true)
  }

  function NextWorker(s: State): State {
    match s.worker
    case Loop =>
      var s' := s.(queue := s.queue.Open());
      if s.queue.Ready() then s'.Take() else s'.(worker := Parked)
    case Parked => s.Take()
    case Running => s.(worker := Finished)
    case Finished => s.(worker := if s.stopped then After else Rearm)
    case Rearm => s.(worker := if s.wasStopped then After else Push)
    case Push => s.Enqueue().(worker := After)
    case After => s.(wasFlushed := true, worker := Loop)
  }

  function Next(s: State, a: Action): State {
    if !Enabled(s, a) then s else
    match a
    case ClientStart => s.(stopped := false, client := Start1, resting := false)
    case ClientStop => s.(stopped := true, client := Stop1)
    case ClientStep => NextClient(s)
    case WorkerStep => NextWorker(s)
    case WorkerThrow => s.(worker := After)
    case WorkerTimeout => s.(worker := After)
  }

  function Initial(): State {
    State(Empty(1), true, true, false, Idle, Loop, true)
  }

  // The worker neither runs the operation nor is on its way to re-arm it.
  predicate Quiescent(s: State) {
    s.worker.Loop? || s.worker.Parked? || s.worker.After?
  }

  // After the clear of a stop nothing can enter the queue: it stays closed until the
  // worker itself dequeues, and by then the worker has nothing left to push.
  predicate ClosedDown(s: State) {
    && s.queue.items == []
    && s.stopped && s.wasStopped
    && (s.queue.accepting ==> Quiescent(s))
  }

  // Runs that are waiting, in progress, or about to be requested.
  function Tokens(s: State): nat {
    |s.queue.items| + (if Quiescent(s) then 0 else 1)
    + (if s.client.Start1? || s.client.Start2? || s.client.Start3? || s.client.Start4? then 1 else 0)
  }

  predicate Inv(s: State) {
    && s.queue.capacity == 1 && |s.queue.items| <= 1
    && (s.client.Stop1? ==> s.stopped)
    && (s.client.Stop2? ==> s.stopped && s.wasStopped)
    && (s.client.Stop3? || s.client.Stop4? ==> ClosedDown(s))
    && (s.client.Stop4? && s.wasFlushed ==> Quiescent(s))
    && (s.resting ==> ClosedDown(s) && Quiescent(s))
    && (s.client.Start1? || s.client.Start2? || s.client.Start3? || s.client.Start4? ==> !s.resting)
  }

  lemma NextKeepsInv(s: State, a: Action)
    requires Inv(s)
    ensures Inv(Next(s, a))
  {
  }

  function StateAt(run: seq<Action>, i: nat): State
    requires i <= |run|
  {
    if i == 0 then Initial() else Next(StateAt(run, i - 1), run[i - 1])
  }

  lemma {:induction false} InvAt(run: seq<Action>, i: nat)
    requires i <= |run|
    ensures Inv(StateAt(run, i))
  {
    if i > 0 {
      InvAt(run, i - 1);
      NextKeepsInv(StateAt(run, i - 1), run[i - 1]);
    }
  }

  lemma {:induction false} RestsUntilStart(run: seq<Action>, r: nat, j: nat)
    requires r <= j <= |run| && StateAt(run, r).resting
    requires forall i :: r <= i < j ==> run[i] != ClientStart
    ensures StateAt(run, j).resting
    decreases j - r
  {
    if r < j {
      RestsUntilStart(run, r, j - 1);
    }
  }

  // Once `stop` has returned, and until the next `start` begins, the queue is empty,
  // the operation is not running and nothing is about to run it: whatever the worker
  // had already read when the stop began.
  lemma StoppedStaysStopped(run: seq<Action>, i: nat, j: nat)
    requires i < j <= |run|
    requires run[i] == ClientStep && StateAt(run, i).client.Stop4? && Enabled(StateAt(run, i), run[i])
    requires forall k :: i < k < j ==> run[k] != ClientStart
    ensures StateAt(run, j).queue.items == [] && Quiescent(StateAt(run, j))
  {
    assert StateAt(run, i + 1).resting;
    RestsUntilStart(run, i + 1, j);
    InvAt(run, j);
  }

  // At most one run is ever queued.
  lemma AtMostOneQueued(run: seq<Action>, i: nat)
    requires i <= |run|
    ensures |StateAt(run, i).queue.items| <= 1
  {
    InvAt(run, i);
  }

  // When `start` is only called while the operation rests, at most one run exists at
  // any time, counting the queued one, the one in progress and the one being asked for.
  predicate Alternates(run: seq<Action>, n: nat)
    requires n <= |run|
  {
    forall i :: 0 <= i < n && run[i] == ClientStart && StateAt(run, i).client.Idle? ==> StateAt(run, i).resting
  }

  // A second run comes about in exactly one way: `start` while there is one already.
  lemma SecondRunExactly(s: State, a: Action)
    requires Inv(s) && Tokens(s) <= 1
    ensures Tokens(Next(s, a)) > 1 <==> a == ClientStart && s.client.Idle? && Tokens(s) == 1
  {
  }

  lemma {:induction false} AtMostOneRun(run: seq<Action>, i: nat)
    requires i <= |run| && Alternates(run, i)
    ensures Tokens(StateAt(run, i)) <= 1
  {
    if i > 0 {
      AtMostOneRun(run, i - 1);
      InvAt(run, i - 1);
      SecondRunExactly(StateAt(run, i - 1), run[i - 1]);
    }
  }
}
