// The bounded queue between producers and a consumer. `Queue` is its value with
// one function per section run under the mutex; `ConsumerQueue` is the object;
// `Machine` lets any number of threads interleave those sections.
module ConsumerQueue {
  import opened Prelude

  datatype Queue<T> = Queue(items: seq<T>, capacity: nat, accepting: bool, flushing: bool) {
    // enqueue: when full, the oldest item makes room.
    function Enqueue(x: T): Queue<T> {
      if !accepting then this
      else
        var all := items + [x];
        this.(items := if |all| > capacity then all[1..] else all)
    }

    // The condition blockingEnqueue waits for, and the push that follows it. The push
    // does not look at `accepting` again.
    predicate HasRoom() {
      |items| < capacity || flushing
    }

    function Push(x: T): Queue<T> {
      this.(items := items + [x])
    }

    // The condition dequeue waits for.
    predicate Ready() {
      |items| > 0 || flushing
    }

    // Entering dequeue or tryDequeue re-opens the queue.
    function Open(): Queue<T> {
      this.(accepting := true)
    }

    function Front(): Option<T> {
      if items == [] then None else Some(items[0])
    }

    function PopFront(): Queue<T> {
      if items == [] then this else this.(items := items[1..])
    }

    function Clear(): Queue<T> {
      this.(items := [], accepting := false, flushing := true)
    }

    function Start(): Queue<T> {
      this.(accepting := true, flushing := false)
    }
  }

  function Empty<T>(capacity: nat): Queue<T> {
    Queue([], capacity, true, false)
  }

  // The queue as an object. A call that would wait is split at the wait: the first
  // part reports that it must wait, the second resumes when the condition holds.
  class ConsumerQueue<T> {
    const capacity: nat
    var items: seq<T>
    var accepting: bool
    var needToFlush: bool

    function View(): Queue<T>
      reads this
    {
      Queue(items, capacity, accepting, needToFlush)
    }

    constructor (capacity: nat)
      ensures View() == Empty(capacity)
    {
      this.capacity := capacity;
      items, accepting, needToFlush := [], true, false;
    }

    method Enqueue(item: T)
      modifies this`items
      ensures View() == old(View()).Enqueue(item)
    {
      if accepting {
        items := items + [item];
        if |items| > capacity {
          items := items[1..];
        }
      }
    }

    method BlockingEnqueue(item: T) returns (mustWait: bool)
      modifies this`items
      ensures mustWait <==> accepting && !old(View()).HasRoom()
      ensures View() == if accepting && !mustWait then old(View()).Push(item) else old(View())
    {
      mustWait := false;
      if accepting {
        if |items| < capacity || needToFlush {
          items := items + [item];
        } else {
          mustWait := true;
        }
      }
    }

    method ResumeEnqueue(item: T)
      requires View().HasRoom()
      modifies this`items
      ensures View() == old(View()).Push(item)
    {
      items := items + [item];
    }

    method Dequeue() returns (mustWait: bool, item: Option<T>)
      modifies this`items, this`accepting
      ensures mustWait <==> !old(View()).Ready()
      ensures item == if mustWait then None else old(View()).Front()
      ensures View() == old(View()).Open().PopFront()
    {
      accepting := true;
      mustWait := |items| == 0 && !needToFlush;
      item := None;
      if !mustWait {
        item := TakeFront();
      }
    }

    method ResumeDequeue() returns (item: Option<T>)
      requires View().Ready()
      modifies this`items
      ensures item == old(View()).Front() && View() == old(View()).PopFront()
    {
      item := TakeFront();
    }

    method TakeFront() returns (item: Option<T>)
      modifies this`items
      ensures item == old(View()).Front() && View() == old(View()).PopFront()
    {
      if |items| == 0 { return None; }
      item := Some(items[0]);
      items := items[1..];
    }

    method TryDequeue() returns (item: Option<T>)
      modifies this`items, this`accepting
      ensures item == old(View()).Front() && View() == old(View()).Open().PopFront()
    {
      accepting := true;
      item := TakeFront();
    }

    method PopFront()
      modifies this`items
      ensures View() == old(View()).PopFront()
    {
      if |items| != 0 {
        items := items[1..];
      }
    }

    method Clear() returns (dropped: seq<T>)
      modifies this
      ensures View() == old(View()).Clear() && dropped == old(items)
    {
      accepting := false;
      needToFlush := true;
      dropped := [];
      while |items| != 0
        invariant dropped + items == old(items)
        invariant !accepting && needToFlush
        decreases |items|
      {
        dropped := dropped + [items[0]];
        items := items[1..];
      }
    }

    method Start()
      modifies this`accepting, this`needToFlush
      ensures View() == old(View()).Start()
    {
      needToFlush := false;
      accepting := true;
    }
  }

  // ----- Every interleaving -----

  datatype Fate = Delivered | Overwritten | Popped | Cleared

  datatype Waiter<T> = PutWait(item: T) | GetWait

  // `pushed` and `removed` are histories: all items that entered the queue, and all
  // that left it with the reason, in order.
  datatype Machine<T> = Machine(
    queue: Queue<T>,
    waiting: map<nat, Waiter<T>>,
    pushed: seq<T>,
    removed: seq<(T, Fate)>)

  datatype Action<T> =
    | EnqueueItem(item: T)
    | PutEnter(thread: nat, item: T)
    | PutResume(thread: nat)
    | GetEnter(thread: nat)
    | GetResume(thread: nat)
    | GetTimeout(thread: nat)
    | TryGet
    | PopOne
    | ClearAll
    | Restart

  predicate Enabled<T>(m: Machine<T>, a: Action<T>) {
    match a
    case PutEnter(t, _) => t !in m.waiting
    case GetEnter(t) => t !in m.waiting
    case PutResume(t) => t in m.waiting && m.waiting[t].PutWait? && m.queue.HasRoom()
    case GetResume(t) => t in m.waiting && m.waiting[t].GetWait? && m.queue.Ready()
    case GetTimeout(t) => t in m.waiting && m.waiting[t].GetWait? && !m.queue.Ready()
    case _ => true
  }

  function Enter<T>(m: Machine<T>, x: T): Machine<T> {
    m.(queue := m.queue.Push(x), pushed := m.pushed + [x])
  }

  function Leave<T>(m: Machine<T>, fate: Fate): Machine<T> {
    if m.queue.items == [] then m
    else m.(queue := m.queue.PopFront(), removed := m.removed + [(m.queue.items[0], fate)])
  }

  function Wake<T>(m: Machine<T>, t: nat): Machine<T> {
    m.(waiting := m.waiting - {t})
  }

  function Tagged<T>(items: seq<T>, fate: Fate): seq<(T, Fate)> {
    seq(|items|, i requires 0 <= i < |items| => (items[i], fate))
  }

  function Next<T>(m: Machine<T>, a: Action<T>): Machine<T>
    requires Enabled(m, a)
  {
    match a
    case EnqueueItem(x) =>
      if !m.queue.accepting then m
      else
        var m' := Enter(m, x);
        if |m'.queue.items| > m.queue.capacity then Leave(m', Overwritten) else m'
    case PutEnter(t, x) =>
      if !m.queue.accepting then m
      else if m.queue.HasRoom() then Enter(m, x)
      else m.(waiting := m.waiting[t := PutWait(x)])
    case PutResume(t) => Enter(Wake(m, t), m.waiting[t].item)
    case GetEnter(t) =>
      var m' := m.(queue := m.queue.Open());
      if m.queue.Ready() then Leave(m', Delivered) else m'.(waiting := m.waiting[t := GetWait])
    case GetResume(t) => Leave(Wake(m, t), Delivered)
    case GetTimeout(t) => Wake(m, t)
    case TryGet => Leave(m.(queue := m.queue.Open()), Delivered)
    case PopOne => Leave(m, Popped)
    case ClearAll => m.(queue := m.queue.Clear(), removed := m.removed + Tagged(m.queue.items, Cleared))
    case Restart => m.(queue := m.queue.Start())
  }

  // The machine's actions are the sections the object runs.
  lemma ActionsRunTheSections<T>(m: Machine<T>, a: Action<T>)
    requires Enabled(m, a)
    ensures Next(m, a).queue ==
            match a
            case EnqueueItem(x) => m.queue.Enqueue(x)
            case PutEnter(_, x) => if m.queue.accepting && m.queue.HasRoom() then m.queue.Push(x) else m.queue
            case PutResume(t) => m.queue.Push(m.waiting[t].item)
            case GetEnter(_) => m.queue.Open().PopFront()
            case GetResume(_) => m.queue.PopFront()
            case GetTimeout(_) => m.queue
            case TryGet => m.queue.Open().PopFront()
            case PopOne => m.queue.PopFront()
            case ClearAll => m.queue.Clear()
            case Restart => m.queue.Start()
  {
  }

  // ----- What each section does, told from what is in the queue and the two flags -----

  // The item that enters the queue.
  function Entering<T>(m: Machine<T>, a: Action<T>): seq<T>
    requires Enabled(m, a)
  {
    var q := m.queue;
    if a.EnqueueItem? && q.accepting then [a.item]
    else if a.PutEnter? && q.accepting && (|q.items| < q.capacity || q.flushing) then [a.item]
    else if a.PutResume? then [m.waiting[a.thread].item]
    else []
  }

  // The items that leave it.
  function Leaving<T>(m: Machine<T>, a: Action<T>): seq<(T, Fate)>
    requires Enabled(m, a)
  {
    var items := m.queue.items;
    if a.EnqueueItem? && m.queue.accepting && |items| >= m.queue.capacity then [((items + [a.item])[0], Overwritten)]
    else if a.ClearAll? then Tagged(items, Cleared)
    else if items == [] then []
    else if a.GetEnter? || a.GetResume? || a.TryGet? then [(items[0], Delivered)]
    else if a.PopOne? then [(items[0], Popped)]
    else []
  }

  // A push enters the queue unless that is closed; one that has waited enters it all the
  // same. A full queue loses its oldest item to a plain push and to nothing else, a
  // reader takes the oldest, and a clear takes everything. A reader waits exactly when
  // there is nothing and no flush, a blocking push exactly when the queue is open and
  // full and not being flushed.
  lemma SectionsDo<T>(m: Machine<T>, a: Action<T>)
    requires Enabled(m, a)
    ensures Next(m, a).pushed == m.pushed + Entering(m, a)
    ensures Next(m, a).removed == m.removed + Leaving(m, a)
    ensures Next(m, a).queue.capacity == m.queue.capacity
    ensures a.GetEnter? ==>
              (a.thread in Next(m, a).waiting <==> m.queue.items == [] && !m.queue.flushing)
    ensures a.PutEnter? ==>
              (a.thread in Next(m, a).waiting <==>
               m.queue.accepting && |m.queue.items| >= m.queue.capacity && !m.queue.flushing)
    ensures a.GetResume? || a.PutResume? || a.GetTimeout? ==> a.thread !in Next(m, a).waiting
  {
    assert m.pushed + [] == m.pushed && m.removed + [] == m.removed;
  }

  // A reader gets the oldest item, and what it leaves is the rest.
  lemma FrontIsOldest<T>(q: Queue<T>)
    ensures q.Front().None? <==> q.items == []
    ensures q.items == (if q.Front().Some? then [q.Front().value] else []) + q.PopFront().items
    ensures q.PopFront() == q.(items := q.PopFront().items)
  {
  }

  // Who waits can go on: a reader when there is an item or a flush, or else at its
  // timeout, and a blocking push when there is room or a flush.
  lemma WaitersGoOn<T>(m: Machine<T>, t: nat)
    requires t in m.waiting
    ensures m.waiting[t].GetWait? ==>
              (Enabled(m, GetResume(t)) <==> m.queue.items != [] || m.queue.flushing)
              && (Enabled(m, GetTimeout(t)) <==> m.queue.items == [] && !m.queue.flushing)
    ensures m.waiting[t].PutWait? ==>
              (Enabled(m, PutResume(t)) <==> |m.queue.items| < m.queue.capacity || m.queue.flushing)
  {
  }

  // A thread that does not wait may call anything at any time.
  lemma AnyoneMayCall<T>(m: Machine<T>, t: nat, x: T)
    requires t !in m.waiting
    ensures Enabled(m, PutEnter(t, x)) && Enabled(m, GetEnter(t)) && Enabled(m, EnqueueItem(x))
    ensures Enabled(m, TryGet) && Enabled(m, PopOne) && Enabled(m, ClearAll) && Enabled(m, Restart)
  {
  }

  // What re-opens a queue.
  predicate Reopens<T>(a: Action<T>) {
    a.GetEnter? || a.TryGet? || a.Restart?
  }

  // `run` has a clear with no start behind it, or no reader and no start.
  ghost predicate ClosedSince<T(!new)>(run: seq<Action<T>>, byReaders: bool) {
    exists k: int :: ClearedAt(run, k, byReaders)
  }

  predicate ClearedAt<T>(run: seq<Action<T>>, k: int, byReaders: bool) {
    0 <= k < |run| && run[k].ClearAll?
    && forall j :: k < j < |run| ==> !(if byReaders then Reopens(run[j]) else run[j].Restart?)
  }

  lemma {:induction false} RunSnoc<T>(m: Machine<T>, run: seq<Action<T>>, a: Action<T>)
    requires EnabledRun(m, run + [a])
    ensures EnabledRun(m, run) && Enabled(Run(m, run), a) && Run(m, run + [a]) == Next(Run(m, run), a)
    decreases |run|
  {
    if run == [] {
      assert (run + [a])[1..] == [];
    } else {
      assert (run + [a])[0] == run[0] && (run + [a])[1..] == run[1..] + [a];
      RunSnoc(Next(m, run[0]), run[1..], a);
    }
  }

  lemma ClosedSinceSnoc<T(!new)>(run: seq<Action<T>>, a: Action<T>, byReaders: bool)
    ensures ClosedSince(run + [a], byReaders) <==>
            a.ClearAll? || (ClosedSince(run, byReaders) && !(if byReaders then Reopens(a) else a.Restart?))
  {
    var all := run + [a];
    if a.ClearAll? { assert ClearedAt(all, |run|, byReaders); }
    if k: int :| ClearedAt(run, k, byReaders) {
      if !(if byReaders then Reopens(a) else a.Restart?) { assert ClearedAt(all, k, byReaders); }
    }
    if k: int :| ClearedAt(all, k, byReaders) {
      if k < |run| {
        assert all[k] == run[k] && all[|run|] == a;
        assert forall j :: k < j < |run| ==> all[j] == run[j];
        assert ClearedAt(run, k, byReaders);
      }
    }
  }

  // A queue that starts open is closed exactly from a clear to the next reader or start,
  // and is being flushed exactly from a clear to the next start.
  lemma {:induction false} FlagsByHistory<T(!new)>(m: Machine<T>, run: seq<Action<T>>)
    requires EnabledRun(m, run) && m.queue.accepting && !m.queue.flushing
    ensures !Run(m, run).queue.accepting <==> ClosedSince(run, true)
    ensures Run(m, run).queue.flushing <==> ClosedSince(run, false)
    decreases |run|
  {
    if run != [] {
      var n := |run| - 1;
      assert run == run[..n] + [run[n]];
      RunSnoc(m, run[..n], run[n]);
      FlagsByHistory(m, run[..n]);
      ClosedSinceSnoc(run[..n], run[n], true);
      ClosedSinceSnoc(run[..n], run[n], false);
    }
  }

  function Values<T>(removed: seq<(T, Fate)>): seq<T> {
    seq(|removed|, i requires 0 <= i < |removed| => removed[i].0)
  }

  // Nothing is lost, invented or reordered.
  predicate Conserves<T(==)>(m: Machine<T>) {
    m.pushed == Values(m.removed) + m.queue.items
  }

  lemma NextConserves<T>(m: Machine<T>, a: Action<T>)
    requires Enabled(m, a) && Conserves(m)
    ensures Conserves(Next(m, a))
    ensures m.pushed <= Next(m, a).pushed && m.removed <= Next(m, a).removed
  {
    if a.ClearAll? {
      assert Values(m.removed + Tagged(m.queue.items, Cleared)) == Values(m.removed) + m.queue.items;
    } else {
      assert forall x: T, fate: Fate :: Values(m.removed + [(x, fate)]) == Values(m.removed) + [x];
    }
  }

  predicate EnabledRun<T>(m: Machine<T>, run: seq<Action<T>>)
    decreases |run|
  {
    run == [] || (Enabled(m, run[0]) && EnabledRun(Next(m, run[0]), run[1..]))
  }

  function Run<T>(m: Machine<T>, run: seq<Action<T>>): Machine<T>
    requires EnabledRun(m, run)
    decreases |run|
  {
    if run == [] then m else Run(Next(m, run[0]), run[1..])
  }

  function Initial<T>(capacity: nat): Machine<T> {
    Machine(Empty(capacity), map[], [], [])
  }

  // Over any interleaving, what was pushed, in order, is what was removed, in order,
  // followed by what is still queued.
  lemma {:induction false} QueueConservation<T>(m: Machine<T>, run: seq<Action<T>>)
    requires Conserves(m) && EnabledRun(m, run)
    ensures Conserves(Run(m, run))
    ensures m.pushed <= Run(m, run).pushed && m.removed <= Run(m, run).removed
    decreases |run|
  {
    if run != [] {
      NextConserves(m, run[0]);
      QueueConservation(Next(m, run[0]), run[1..]);
    }
  }

  // Positions in the push order of the items delivered to consumers.
  function DeliveredAt<T>(removed: seq<(T, Fate)>): (at: seq<nat>)
    ensures forall k :: 0 <= k < |at| ==> at[k] < |removed| && removed[at[k]].1 == Delivered
    ensures forall j, k :: 0 <= j < k < |at| ==> at[j] < at[k]
    ensures forall i :: 0 <= i < |removed| && removed[i].1 == Delivered ==> i in at
  {
    if removed == [] then []
    else
      var n := |removed| - 1;
      DeliveredAt(removed[..n]) + (if removed[n].1 == Delivered then [n] else [])
  }

  function Deliveries<T>(removed: seq<(T, Fate)>): seq<T> {
    if removed == [] then []
    else
      var n := |removed| - 1;
      Deliveries(removed[..n]) + (if removed[n].1 == Delivered then [removed[n].0] else [])
  }

  // Deliveries are the pushes at strictly increasing positions: an order-preserving
  // subsequence in which no push is delivered twice.
  lemma {:induction false} DeliveriesAreASubsequence<T>(removed: seq<(T, Fate)>, pushed: seq<T>)
    requires Values(removed) <= pushed
    ensures |Deliveries(removed)| == |DeliveredAt(removed)|
    ensures forall k :: 0 <= k < |Deliveries(removed)| ==> Deliveries(removed)[k] == pushed[DeliveredAt(removed)[k]]
  {
    if removed != [] {
      var n := |removed| - 1;
      assert Values(removed[..n]) == Values(removed)[..n];
      DeliveriesAreASubsequence(removed[..n], pushed);
      assert Values(removed)[n] == removed[n].0;
    }
  }

  lemma EveryDeliveryInOrder<T>(capacity: nat, run: seq<Action<T>>)
    requires EnabledRun(Initial<T>(capacity), run)
    ensures var m := Run(Initial<T>(capacity), run);
            var at := DeliveredAt(m.removed);
            && |Deliveries(m.removed)| == |at|
            && (forall k :: 0 <= k < |at| ==> at[k] < |m.pushed| && Deliveries(m.removed)[k] == m.pushed[at[k]])
            && (forall j, k :: 0 <= j < k < |at| ==> at[j] < at[k])
  {
    assert Conserves(Initial<T>(capacity));
    QueueConservation(Initial<T>(capacity), run);
    var m := Run(Initial<T>(capacity), run);
    DeliveriesAreASubsequence(m.removed, m.pushed);
  }

  // ----- Size -----

  predicate Fits<T>(m: Machine<T>) {
    |m.queue.items| <= m.queue.capacity
  }

  // A queue within its capacity outgrows it in exactly one way: a blocking push goes
  // through at full size because the queue is being flushed.
  lemma OutgrowsExactlyByFlushedPush<T>(m: Machine<T>, a: Action<T>)
    requires Enabled(m, a) && Fits(m)
    ensures !Fits(Next(m, a)) <==>
            && |m.queue.items| == m.queue.capacity
            && m.queue.flushing
            && (a.PutResume? || (a.PutEnter? && m.queue.accepting))
  {
  }

  // The flush flag goes up only in `clear`, so before the first one the bound holds;
  // and without blocking pushes it always holds.
  lemma {:induction false} SizeBounded<T>(m: Machine<T>, run: seq<Action<T>>)
    requires EnabledRun(m, run) && Fits(m)
    requires (!m.queue.flushing && forall a :: a in run ==> !a.ClearAll?)
             || ((forall t :: t in m.waiting ==> m.waiting[t].GetWait?) && forall a :: a in run ==> !a.PutEnter?)
    ensures Fits(Run(m, run)) && Run(m, run).queue.capacity == m.queue.capacity
    decreases |run|
  {
    if run != [] {
      OutgrowsExactlyByFlushedPush(m, run[0]);
      assert forall a :: a in run[1..] ==> a in run;
      assert run[0] in run;
      SizeBounded(Next(m, run[0]), run[1..]);
    }
  }

  // Capacity 1, one item queued, then: clear, a reader re-opens the queue, and two
  // blocking pushes both go through.
  lemma FlushedQueueMayOutgrow(x: int)
    ensures var run := [ClearAll, TryGet, PutEnter(0, x), PutEnter(0, x)];
            EnabledRun(Initial<int>(1), run) && !Fits(Run(Initial<int>(1), run))
  {
    var m := Initial<int>(1);
    var run := [ClearAll, TryGet, PutEnter(0, x), PutEnter(0, x)];
    var m1 := Next(m, run[0]);
    var m2 := Next(m1, run[1]);
    var m3 := Next(m2, run[2]);
    var m4 := Next(m3, run[3]);
    assert run[1..][0] == run[1] && run[1..][1..][0] == run[2] && run[1..][1..][1..][0] == run[3];
    assert run[1..][1..][1..][1..] == [];
    assert EnabledRun(m4, []) && EnabledRun(m3, run[1..][1..][1..]);
    assert Run(m3, run[1..][1..][1..]) == m4;
    assert EnabledRun(m2, run[1..][1..]) && Run(m2, run[1..][1..]) == m4;
    assert EnabledRun(m1, run[1..]) && Run(m1, run[1..]) == m4;
  }
}
