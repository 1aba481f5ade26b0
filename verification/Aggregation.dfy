// The frame aggregator as a value: the latest frame of each stream, the queue of
// composites, and what handling one frame does to them and to the frame store.
module Aggregation {
  import opened Prelude
  import opened FrameStore
  import Q = ConsumerQueue

  const FRAMES_TO_AGGREGATE: nat := 250

  // One entry of the map from stream id to the holder of its latest frame.
  datatype Entry = Entry(uid: int, holder: Ptr)

  function Holders(last: seq<Entry>): seq<Ptr> {
    if last == [] then [] else [last[0].holder] + Holders(last[1..])
  }

  predicate HasKey(last: seq<Entry>, uid: int) {
    last != [] && (last[0].uid == uid || HasKey(last[1..], uid))
  }

  // The holder stored for `uid`; an absent entry is an empty holder.
  function Lookup(last: seq<Entry>, uid: int): Ptr {
    if last == [] then Null else if last[0].uid == uid then last[0].holder else Lookup(last[1..], uid)
  }

  // The map is kept in ascending order of stream ids.
  predicate Ascending(last: seq<Entry>) {
    forall i, j :: 0 <= i < j < |last| ==> last[i].uid < last[j].uid
  }

  function Put(last: seq<Entry>, uid: int, p: Ptr): seq<Entry> {
    if last == [] || uid < last[0].uid then [Entry(uid, p)] + last
    else if last[0].uid == uid then [Entry(uid, p)] + last[1..]
    else [last[0]] + Put(last[1..], uid, p)
  }

  datatype Aggregator = Aggregator(
    store: Store,
    ids: seq<int>,            // the streams to aggregate, ascending
    last: seq<Entry>,
    queue: Q.Queue<Ptr>,
    accepting: bool,
    archive: nat)             // the archive composites come from
  {
    // References the aggregator itself owns.
    function Owned(): multiset<Ptr> {
      multiset(Holders(last)) + multiset(queue.items)
    }

    // last_set_[uid] = holder: the new reference is taken before the old one is dropped.
    function Remember(uid: int, p: Ptr): Aggregator {
      this.(store := store.Clone(p).Drop(Lookup(last, uid)), last := Put(last, uid, p))
    }

    function Profile(p: Ptr): Option<int> {
      if p.To? && store.IsLive(p.id) then store.frames[p.id].meta.profile else None
    }

    // A frame that is kept because its stream is one of those to aggregate.
    predicate Accepts(p: Ptr) {
      Profile(p).Some? && Profile(p).value in ids
    }

    // The composite's description is that of the frame that completed it.
    function Described(c: nat, f: Frame): Store {
      if store.IsLive(c)
      then store.SetMeta(c, f.meta.(blocking := store.frames[c].meta.blocking))
      else store.Faulted()
    }

    // The new composite goes to the queue; a full queue loses its oldest instead, and a
    // closed one takes nothing.
    function Deliver(c: Ptr): Aggregator {
      if |queue.items| < FRAMES_TO_AGGREGATE then
        var s := store.Clone(c);
        if queue.accepting then this.(store := s, queue := queue.Enqueue(c)) else this.(store := s.Drop(c))
      else if queue.items == [] then this
      else this.(store := store.Drop(queue.items[0]), queue := queue.PopFront())
    }

    // The archive has room for a composite.
    predicate Grants() {
      store.Grants(archive)
    }

    // One composite of everything in `last`, if the archive still grants one.
    function Composed(): (Store, Ptr) {
      CloneAll(store, Holders(last)).Compose(archive, Holders(last), DefaultMeta())
    }

    function Emit(f: Frame): Aggregator {
      var (s, c) := Composed();
      if c.Null? then this.(store := s)
      else
        var a := this.(store := this.(store := s).Described(c.id, f)).Deliver(c);
        a.(store := a.store.DropAll(Holders(last)).Drop(c), last := [])
    }

    // handleFrame for a frame that is not a composite.
    function HandleSingle(p: Ptr): Aggregator {
      if !Accepts(p) then this
      else
        var a := Remember(Profile(p).value, p);
        if |a.last| == |ids| then a.Emit(store.frames[p.id]) else a
    }

    function Handle(p: Ptr): Aggregator {
      if !accepting then this
      else if p.Null? || !store.IsLive(p.id) then this.(store := store.Faulted())
      else if store.frames[p.id].composite then HandleComposite(p.id)
      else HandleSingle(p)
    }

    // ----- Composite input -----

    // The parts of a composite are remembered whatever their stream.
    function RememberAll(ps: seq<Ptr>): Aggregator
      decreases |ps|
    {
      if ps == [] then this
      else if ps[0].Null? || !store.IsLive(ps[0].id) || Profile(ps[0]).None? then this.(store := store.Faulted())
      else Remember(Profile(ps[0]).value, ps[0]).RememberAll(ps[1..])
    }

    // Testing last_set_[id] leaves an empty holder behind when there is none.
    function Touch(uid: int): Aggregator {
      if HasKey(last, uid) then this else this.(last := Put(last, uid, Null))
    }

    // The streams are looked up in ascending order up to the first that has no frame.
    function TouchAll(uids: seq<int>): (Aggregator, bool)
      decreases |uids|
    {
      if uids == [] then (this, true)
      else if Lookup(last, uids[0]).Null? then (Touch(uids[0]), false)
      else TouchAll(uids[1..])
    }

    function HandleComposite(id: nat): Aggregator
      requires id < |store.frames|
    {
      var (a, complete) := RememberAll(store.frames[id].slots).TouchAll(ids);
      if !complete then a
      else
        var (s, c) := a.Composed();
        if c.Null? then a.(store := s) else a.(store := s).Publish(c)
    }

    // enqueue of a clone, with the queue's own overwrite, then the local holder dies.
    function Publish(c: Ptr): Aggregator {
      this.(store := store.Clone(c).Drop(Lost(queue, c)).Drop(c), queue := queue.Enqueue(c))
    }

    // ----- The other calls -----

    // dequeue or tryDequeue: the front holder moves to the consumer.
    function Dequeue(): (Aggregator, Ptr) {
      var q := queue.Open();
      (this.(queue := q.PopFront()), if queue.items == [] then Null else queue.items[0])
    }

    function Stop(): Aggregator {
      this.(accepting := false, store := store.DropAll(queue.items), queue := queue.Clear())
    }

    function Start(): Aggregator {
      this.(accepting := true)
    }
  }

  // The holder that dies in enqueue: the new one if the queue is closed, the oldest if
  // it overflows.
  function Lost(queue: Q.Queue<Ptr>, c: Ptr): Ptr {
    if !queue.accepting then c
    else if |queue.items| + 1 > queue.capacity then (queue.items + [c])[0]
    else Null
  }

  function DefaultMeta(): Meta {
    Meta(None, None, 0.0, 0, false)
  }

  // The set of stream ids, kept in ascending order.
  predicate Sorted(ids: seq<int>) {
    forall i, j :: 0 <= i < j < |ids| ==> ids[i] < ids[j]
  }

  function Insert(ids: seq<int>, uid: int): (r: seq<int>)
    requires Sorted(ids)
    ensures Sorted(r) && forall x :: x in r <==> x in ids || x == uid
  {
    if ids == [] || uid < ids[0] then [uid] + ids
    else if uid == ids[0] then ids
    else
      var r := Insert(ids[1..], uid);
      assert ids == [ids[0]] + ids[1..];
      assert forall i :: 0 <= i < |r| ==> r[i] in r;
      [ids[0]] + r
  }
}
