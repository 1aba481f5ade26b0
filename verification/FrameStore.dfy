// The memory of frames and archives as a value, and every operation of the
// frame-ownership code as a function on it.
//
// A frame is addressed by its incarnation number: its index in the order in which
// frames were published. The pool slot (or heap block) it occupies is a field, so
// a pointer kept across the reuse of a slot still names the old incarnation and
// is seen to dangle. Every use of memory the C++ program must not make sets the
// sticky `fault` flag.
module FrameStore {
  import opened Prelude
  import opened SmallHeap

  const USER_QUEUE_SIZE: nat := 128
  const UINT32_RANGE: nat := 0x1_0000_0000

  datatype Ptr = Null | To(id: nat)

  datatype Place = OnHeap | InPool(slot: nat)

  // The descriptive fields of a frame; `profile` is the unique id of its stream
  // profile, if it has one.
  datatype Meta = Meta(profile: Option<int>, sensor: Option<int>, timestamp: real, domain: int, blocking: bool)

  datatype Frame = Frame(
    live: bool,         // published and not yet returned
    refCount: int,
    kept: bool,
    fixed: bool,
    place: Place,
    owner: nat,         // index of the archive to return to
    composite: bool,
    slots: seq<Ptr>,    // the frames a composite holds references to
    meta: Meta)

  datatype Archive = Archive(
    maximum: nat,       // current value of the queue-size option
    published: nat,     // 32-bit counter
    composite: bool,    // whether this is the archive of composite frames
    pool: Pool)

  datatype Store = Store(
    frames: seq<Frame>,
    archives: seq<Archive>,
    returned: seq<nat>, // ids in the order they were handed back to their archive
    fault: bool)
  {
    predicate IsLive(id: nat) {
      id < |frames| && frames[id].live
    }

    function Faulted(): Store {
      this.(fault := true)
    }

    function SetFrame(id: nat, f: Frame): Store
      requires id < |frames|
    {
      this.(frames := frames[id := f])
    }

    function SetArchive(r: nat, a: Archive): Store
      requires r < |archives|
    {
      this.(archives := archives[r := a])
    }

    // FrameData::acquire
    function Acquire(id: nat): Store {
      if !IsLive(id) then Faulted()
      else SetFrame(id, frames[id].(refCount := frames[id].refCount + 1))
    }

    // FrameArchive::keep_frame: the 32-bit counter goes down by one.
    function KeepFrame(r: nat): Store {
      if r >= |archives| then Faulted()
      else SetArchive(r, archives[r].(published := (archives[r].published + UINT32_RANGE - 1) % UINT32_RANGE))
    }

    // FrameData::keep
    function Keep(id: nat): Store {
      if !IsLive(id) then Faulted()
      else if frames[id].kept then this
      else SetFrame(id, frames[id].(kept := true)).KeepFrame(frames[id].owner)
    }

    // The end of FrameArchive::unpublish_frame: back to the pool or to the heap.
    function GiveBack(id: nat): Store {
      if !IsLive(id) || frames[id].owner >= |archives| then Faulted()
      else
        var f := frames[id];
        var pool := archives[f.owner].pool;
        var gone := SetFrame(id, f.(live := false)).(returned := returned + [id]);
        if !f.fixed then (if f.place.InPool? then Faulted() else gone)
        else if f.place.OnHeap? || f.place.slot >= |pool.free| || pool.free[f.place.slot] then Faulted()
        else gone.SetArchive(f.owner, archives[f.owner].(pool := pool.Deallocate(f.place.slot).value))
    }

    // FrameArchive::unpublish_frame
    function Unpublish(id: nat): Store {
      Keep(id).GiveBack(id)
    }

    // FrameData::release and CompositeFrameData::release
    function Release(id: nat): Store
      decreases id, 1, 0
    {
      if !IsLive(id) then Faulted()
      else
        var f := frames[id];
        var s := SetFrame(id, f.(refCount := f.refCount - 1));
        if f.refCount != 1 then s else s.ReleaseSlots(id, f.slots).Unpublish(id)
    }

    // Releases every pointer of `slots` in order. A pointer that is not to a frame
    // older than `bound` would make the cascade revisit a frame on its own stack.
    function ReleaseSlots(bound: nat, slots: seq<Ptr>): Store
      decreases bound, 0, |slots|
    {
      if slots == [] then this
      else ReleaseSlot(bound, slots[0]).ReleaseSlots(bound, slots[1..])
    }

    function ReleaseSlot(bound: nat, p: Ptr): Store
      decreases bound, 0, 0
    {
      match p
      case Null => this
      case To(id) => if id < bound then Release(id) else Faulted()
    }

    // ~FrameHolder
    function Drop(p: Ptr): Store {
      if p.Null? then this else Release(p.id)
    }

    // FrameHolder::clone
    function Clone(p: Ptr): Store {
      if p.Null? then this else Acquire(p.id)
    }

    // Destruction of a vector or map of holders.
    function DropAll(ps: seq<Ptr>): Store
      decreases |ps|
    {
      if ps == [] then this else Drop(ps[0]).DropAll(ps[1..])
    }

    // The archive has room for one more frame that counts.
    predicate Grants(r: nat) {
      r < |archives| && (archives[r].maximum == 0 || archives[r].published < archives[r].maximum)
    }

    // FrameArchive::alloc_and_track: quota check, choice of slot or heap block,
    // and the first reference. `meta` is arbitrary: a recycled slot keeps the
    // stream profile and sensor of its previous occupant.
    function AllocAndTrack(r: nat, meta: Meta): (Store, Ptr) {
      if r >= |archives| then (Faulted(), Null)
      else
        var a := archives[r];
        if a.maximum > 0 && a.published >= a.maximum then (this, Null)
        else
          var (pool, slot) := if a.maximum > 0 then a.pool.Allocate() else (a.pool, None);
          var f := Frame(true, 1, false, slot.Some?, if slot.Some? then InPool(slot.value) else OnHeap,
                         r, a.composite, [], meta);
          (this.(frames := frames + [f],
                 archives := archives[r := a.(published := (a.published + 1) % UINT32_RANGE, pool := pool)]),
           To(|frames|))
    }

    predicate AllLive(ps: seq<Ptr>) {
      forall p :: p in ps ==> p.To? && IsLive(p.id)
    }

    predicate AnyBlocking(ps: seq<Ptr>) {
      exists p :: p in ps && p.To? && IsLive(p.id) && frames[p.id].meta.blocking
    }

    // SyntheticSource::allocateCompositeFrame: on success the references move from
    // the holders to the slots of the composite, on refusal the holders die.
    function Compose(r: nat, holders: seq<Ptr>, meta: Meta): (Store, Ptr) {
      var (s, p) := AllocAndTrack(r, meta.(blocking := false));
      if p.Null? then (s.DropAll(holders), Null)
      else if !AllLive(holders) then (s.Faulted(), p)  // isBlocking() is asked of every holder
      else
        var f := s.frames[p.id];
        (s.SetFrame(p.id, f.(slots := holders, meta := f.meta.(blocking := AnyBlocking(holders)))), p)
    }

    function SetMeta(id: nat, meta: Meta): Store {
      if !IsLive(id) then Faulted() else SetFrame(id, frames[id].(meta := meta))
    }

    function SetMaximum(r: nat, maximum: nat): Store {
      if r >= |archives| then Faulted() else SetArchive(r, archives[r].(maximum := maximum))
    }

    // The part of FrameArchive::flush that touches the pool.
    function StopAllocating(r: nat): Store {
      if r >= |archives| then Faulted()
      else SetArchive(r, archives[r].(pool := archives[r].pool.StopAllocating()))
    }
  }

  // A clone of each holder of a vector, in order.
  function CloneAll(s: Store, ps: seq<Ptr>): Store
    decreases |ps|
  {
    if ps == [] then s else CloneAll(s.Clone(ps[0]), ps[1..])
  }

  function FreshPool(): Pool {
    Pool(seq(USER_QUEUE_SIZE, _ => true), true, 0)
  }

  // One archive per entry: its queue-size maximum and whether it is composite.
  function Initial(kinds: seq<(nat, bool)>): Store {
    Store([], seq(|kinds|, i requires 0 <= i < |kinds| => Archive(kinds[i].0, 0, kinds[i].1, FreshPool())), [], false)
  }
}
