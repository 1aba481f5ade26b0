// That a repeating operation repeats: between a start and the next stop exactly one run
// of it exists, and the worker makes the next one of each that ends.
module RepeatProgress {
  import opened RepeatOperation

  // ----- Exactly one run -----

  // A call of start that began at rest has come so far, or is over, and nothing has
  // ended it since: one run is being asked for, queued, in progress or being re-armed.
  predicate Going(s: State) {
    && !s.stopped && s.queue.capacity == 1
    && match s.client
       case Start1 => Quiescent(s) && s.queue.items == []
       case Start2 => Quiescent(s) && s.queue.items == [] && !s.wasStopped
       case Start3 => Quiescent(s) && s.queue.items == [] && !s.wasStopped && s.queue.accepting
       case Start4 => Quiescent(s) && s.queue.items == [] && !s.wasStopped && s.queue.accepting
       case Idle => !s.wasStopped && s.queue.accepting && |s.queue.items| + (if Quiescent(s) then 0 else 1) == 1
       case _ => false
  }

  lemma NextKeepsGoing(s: State, a: Action)
    requires Going(s) && a != ClientStart && a != ClientStop && a != WorkerThrow
    ensures Going(Next(s, a))
  {
  }

  lemma StartGetsGoing(s: State)
    requires Inv(s) && s.resting && s.client.Idle?
    ensures Going(Next(s, ClientStart))
  {
  }

  lemma {:induction false} GoingUntilStop(run: seq<Action>, r: nat, i: nat)
    requires r < i <= |run|
    requires run[r] == ClientStart && StateAt(run, r).client.Idle? && StateAt(run, r).resting
    requires forall k :: r < k < i ==> run[k] != ClientStart && run[k] != ClientStop && run[k] != WorkerThrow
    ensures Going(StateAt(run, i))
    decreases i
  {
    if i == r + 1 {
      InvAt(run, r);
      StartGetsGoing(StateAt(run, r));
    } else {
      GoingUntilStop(run, r, i - 1);
      NextKeepsGoing(StateAt(run, i - 1), run[i - 1]);
    }
  }

  // From a start at rest to the next start, stop or exception there is exactly one run at
  // any time: asked for, queued, in progress, or about to be queued again. Once the call
  // has returned it is one of the last three.
  lemma ExactlyOneRun(run: seq<Action>, r: nat, i: nat)
    requires r < i <= |run|
    requires run[r] == ClientStart && StateAt(run, r).client.Idle? && StateAt(run, r).resting
    requires forall k :: r < k < i ==> run[k] != ClientStart && run[k] != ClientStop && run[k] != WorkerThrow
    ensures Tokens(StateAt(run, i)) == 1
    ensures StateAt(run, i).client.Idle? ==>
              |StateAt(run, i).queue.items| + (if Quiescent(StateAt(run, i)) then 0 else 1) == 1
  {
    GoingUntilStop(run, r, i);
  }

  // ----- It repeats -----

  // `n` steps of the worker.
  function Works(s: State, n: nat): State
    decreases n
  {
    if n == 0 then s else Works(Next(s, WorkerStep), n - 1)
  }

  lemma WorksMore(s: State, m: nat, n: nat)
    ensures Works(s, m + n) == Works(Works(s, m), n)
    decreases m
  {
    if m > 0 { WorksMore(Next(s, WorkerStep), m - 1, n); }
  }

  // Nothing has called stop or is in the middle of a call.
  predicate Undisturbed(s: State) {
    s.client.Idle? && !s.stopped && !s.wasStopped && s.queue.accepting && s.queue.capacity == 1
  }

  // A run that ends while neither stop flag is set is queued again by the worker's next
  // three steps.
  lemma RunIsRequeued(s: State)
    requires s.worker.Finished? && Undisturbed(s) && s.queue.items == []
    ensures Works(s, 3).queue.items == [()] && Works(s, 3).worker.After? && Undisturbed(Works(s, 3))
  {
    assert Works(s, 3) == Next(Next(Next(s, WorkerStep), WorkerStep), WorkerStep);
  }

  // When one of them is set it is not.
  lemma StoppedRunIsNotRequeued(s: State)
    requires s.worker.Finished? && (s.stopped || s.wasStopped)
    ensures Works(s, 2).worker.After? || Next(s, WorkerStep).worker.After?
    ensures Next(s, WorkerStep).queue == s.queue && Works(s, 2).queue == s.queue
    ensures s.stopped ==> Next(s, WorkerStep).worker.After?
  {
    assert Works(s, 2) == Next(Next(s, WorkerStep), WorkerStep);
  }

  // How many steps an idle worker is away from running what is queued.
  function StepsToRun(w: WorkerPc): nat {
    match w
    case After => 2
    case Loop => 1
    case Parked => 1
    case _ => 0
  }

  lemma QueuedRunStarts(s: State)
    requires Undisturbed(s) && s.queue.items == [()] && Quiescent(s)
    ensures var s' := Works(s, StepsToRun(s.worker));
            s'.worker.Running? && s'.queue.items == [] && Undisturbed(s')
  {
    if s.worker.After? {
      assert Works(s, 2) == Next(Next(s, WorkerStep), WorkerStep);
    } else {
      assert Works(s, 1) == Next(s, WorkerStep);
    }
  }

  // So it goes on for ever: six steps of the worker take it from one run of the operation
  // to the next.
  lemma {:induction false} RepeatsForEver(s: State, n: nat)
    requires s.worker.Running? && Undisturbed(s) && s.queue.items == []
    ensures var s' := Works(s, 6 * n); s'.worker.Running? && Undisturbed(s') && s'.queue.items == []
  {
    if n > 0 {
      RepeatsForEver(s, n - 1);
      var s0 := Works(s, 6 * (n - 1));
      var s1 := Works(s0, 1);
      assert s1 == Next(s0, WorkerStep);
      RunIsRequeued(s1);
      QueuedRunStarts(Works(s1, 3));
      WorksMore(s1, 3, 2);
      WorksMore(s0, 1, 5);
      WorksMore(s, 6 * (n - 1), 6);
    }
  }

  // ----- The two calls -----

  // `n` steps of the client.
  function Calls(s: State, n: nat): State
    decreases n
  {
    if n == 0 then s else Calls(Next(s, ClientStep), n - 1)
  }

  // start from rest, undisturbed by the worker: the operation is queued.
  lemma StartQueues(s: State)
    requires Inv(s) && s.resting && s.client.Idle?
    ensures var s' := Calls(Next(s, ClientStart), 4);
            s'.client.Idle? && s'.queue.items == [()] && !s'.stopped && !s'.wasStopped && s'.queue.accepting
            && !s'.queue.flushing && s'.worker == s.worker
  {
    var s1 := Next(s, ClientStart);
    assert Calls(s1, 4) == Next(Next(Next(Next(s1, ClientStep), ClientStep), ClientStep), ClientStep);
  }

  // stop: both flags are set, the queue is emptied and closed, and the call waits until
  // the worker has been idle once.
  lemma StopWaits(s: State)
    requires s.client.Idle?
    ensures var s' := Calls(Next(s, ClientStop), 3);
            s'.client.Stop4? && s'.stopped && s'.wasStopped && s'.queue.items == [] && !s'.queue.accepting
            && s'.queue.flushing && !s'.wasFlushed && s'.worker == s.worker && !Enabled(s', ClientStep)
  {
    var s1 := Next(s, ClientStop);
    assert Calls(s1, 3) == Next(Next(Next(s1, ClientStep), ClientStep), ClientStep);
  }

  lemma StopReturns(s: State)
    requires s.client.Stop4? && s.worker.After?
    ensures var s' := Next(Next(s, WorkerStep), ClientStep);
            s'.client.Idle? && s'.resting && s'.queue == s.queue && s'.stopped == s.stopped
  {
  }

  // A stop that waits is answered: wherever the worker stands, within two steps of it (a
  // run in progress included) it is idle. The clear has set the flush mark, which only a
  // start takes back, so the worker does not wait inside the queue.
  lemma StopIsAnswered(s: State) returns (n: nat)
    requires Inv(s) && s.client.Stop4? && s.queue.flushing
    ensures n <= 2 && Works(s, n).worker.After?
  {
    var s1 := Next(s, WorkerStep);
    assert Works(s, 1) == s1 && Works(s, 2) == Next(s1, WorkerStep);
    n := if s.worker.After? then 0 else if s.worker.Running? then 2 else 1;
  }

  lemma FlushLastsUntilReturn(s: State, a: Action)
    requires s.client.Stop4? && s.queue.flushing && Next(s, a).client.Stop4?
    ensures Next(s, a).queue.flushing
  {
  }

  // An exception ends it: the worker goes on without the operation, which is not queued.
  lemma ThrowEndsIt(s: State)
    requires s.worker.Running?
    ensures Next(s, WorkerThrow).worker.After? && Next(s, WorkerThrow).queue == s.queue
    ensures Tokens(Next(s, WorkerThrow)) == Tokens(s) - 1
  {
  }

  // The worker waits inside the queue exactly when that is empty and not being flushed;
  // and when it has waited long enough it goes round once more.
  lemma WaitsExactly(s: State)
    requires s.worker.Loop?
    ensures Next(s, WorkerStep).worker ==
            if s.queue.items != [] then Running else if s.queue.flushing then After else Parked
    ensures Next(s, WorkerStep).queue.accepting
  {
  }

  lemma TimeoutGoesRound(s: State)
    requires s.worker.Parked? && s.queue.items == [] && !s.queue.flushing
    ensures Next(s, WorkerTimeout).worker.After? && Next(s, WorkerTimeout).queue == s.queue
    ensures Next(s, WorkerStep) == s
  {
  }
}
