// The fixed-capacity slot pool an archive draws frames from, and the one-slot
// heap that tracks callbacks in flight. `Pool` is the abstract value of the
// bookkeeping; `Heap` is the object that updates it in place.
module SmallHeap {
  import opened Prelude

  datatype Pool = Pool(free: seq<bool>, keepAllocating: bool, size: int) {
    predicate Consistent() {
      size == Used(free)
    }

    function Allocate(): (Pool, Option<nat>) {
      var i := FirstFree(free);
      if !keepAllocating || i == |free| then (this, None)
      else (this.(free := free[i := false], size := size + 1), Some(i))
    }

    // None models the exception thrown for an item outside the buffer. A slot that
    // is already free is not detected: the size is decremented all the same.
    function Deallocate(item: int): Option<Pool> {
      if 0 <= item < |free| then Some(this.(free := free[item := true], size := size - 1))
      else None
    }

    function StopAllocating(): Pool {
      this.(keepAllocating := false)
    }
  }

  // Number of slots handed out.
  function Used(free: seq<bool>): (n: nat)
    ensures n <= |free|
  {
    if free == [] then 0
    else Used(free[..|free| - 1]) + (if free[|free| - 1] then 0 else 1)
  }

  // The slot the allocation scan stops at: the lowest free one, or |free|.
  function FirstFree(free: seq<bool>): (i: nat)
    ensures i <= |free|
    ensures forall j :: 0 <= j < i ==> !free[j]
    ensures i < |free| ==> free[i]
  {
    if free == [] then 0
    else
      var i := FirstFree(free[..|free| - 1]);
      if i < |free| - 1 || free[|free| - 1] then i else |free|
  }

  lemma {:induction false} UsedUpdate(free: seq<bool>, i: nat, b: bool)
    requires i < |free|
    ensures Used(free[i := b]) == Used(free) - (if free[i] then 0 else 1) + (if b then 0 else 1)
  {
    var n := |free| - 1;
    if i == n {
      assert free[i := b][..n] == free[..n];
    } else {
      assert free[i := b][..n] == free[..n][i := b];
      UsedUpdate(free[..n], i, b);
    }
  }

  lemma {:induction false} UsedAll(free: seq<bool>)
    requires forall i :: 0 <= i < |free| ==> free[i]
    ensures Used(free) == 0
  {
    if free != [] {
      UsedAll(free[..|free| - 1]);
    }
  }

  // Allocation hands out a slot nobody holds and keeps the count right; it is
  // refused exactly when allocation was stopped or every slot is taken.
  lemma AllocateTakesFreeSlot(p: Pool)
    requires p.Consistent()
    ensures p.Allocate().0.Consistent()
    ensures p.Allocate().1 == None <==> !p.keepAllocating || forall i :: 0 <= i < |p.free| ==> !p.free[i]
    ensures p.Allocate().1.Some? ==>
              var i := p.Allocate().1.value;
              i < |p.free| && p.free[i] && p.Allocate().0.free == p.free[i := false]
              && forall j :: 0 <= j < i ==> !p.free[j]
  {
    var i := FirstFree(p.free);
    if i < |p.free| {
      UsedUpdate(p.free, i, false);
    }
  }

  // A stopped pool hands out nothing any more, takes back what is out, and is otherwise
  // as it was.
  lemma StoppedPoolRefuses(p: Pool, item: int)
    ensures var q := p.StopAllocating();
            && q.Allocate() == (q, None) && q.free == p.free && q.size == p.size
            && (0 <= item < |p.free| ==>
                  && q.Deallocate(item).Some? && q.Deallocate(item).value.free == p.free[item := true]
                  && q.Deallocate(item).value.Allocate().1.None?)
  {
  }

  // Returning an item keeps the count right exactly when the slot was taken, and
  // is the inverse of the allocation that handed it out.
  lemma DeallocateIsSound(p: Pool, item: int)
    requires p.Consistent()
    ensures p.Deallocate(item).Some? <==> 0 <= item < |p.free|
    ensures p.Deallocate(item).Some? ==>
              (p.Deallocate(item).value.Consistent() <==> !p.free[item])
              && p.Deallocate(item).value.free == p.free[item := true]
              && p.Deallocate(item).value.keepAllocating == p.keepAllocating
    ensures p.Allocate().1.Some? ==> p.Allocate().0.Deallocate(p.Allocate().1.value) == Some(p)
  {
    if 0 <= item < |p.free| {
      UsedUpdate(p.free, item, true);
    }
    var i := FirstFree(p.free);
    if i < |p.free| {
      assert p.free[i := false][i := true] == p.free;
    }
  }

  // The pool as an object. Items are named by their offset from the start of
  // the buffer; `blank` is the default-constructed item.
  class Heap<T> {
    const blank: T
    var buffer: array<T>
    var isFree: array<bool>
    var keepAllocating: bool
    var size: int

    ghost predicate Valid()
      reads this, isFree
    {
      isFree.Length == buffer.Length && size == Used(isFree[..])
    }

    ghost function View(): Pool
      reads this, isFree
    {
      Pool(isFree[..], keepAllocating, size)
    }

    constructor (capacity: nat, blank: T)
      ensures Valid() && fresh(isFree) && fresh(buffer) && this.blank == blank
      ensures isFree.Length == capacity && View().size == 0 && View().keepAllocating
      ensures forall i :: 0 <= i < capacity ==> isFree[i] && buffer[i] == blank
    {
      this.blank := blank;
      var b := new T[capacity](_ => blank);
      var fr := new bool[capacity](_ => true);
      buffer, isFree, keepAllocating, size := b, fr, true, 0;
      UsedAll(fr[..]);
    }

    method Allocate() returns (item: Option<nat>)
      requires Valid()
      modifies this`size, isFree
      ensures Valid()
      ensures (View(), item) == old(View()).Allocate()
    {
      if !keepAllocating { return None; }
      var i := 0;
      while i < isFree.Length
        invariant 0 <= i <= isFree.Length
        invariant forall j :: 0 <= j < i ==> !isFree[j]
        invariant isFree[..] == old(isFree[..]) && size == old(size)
      {
        if isFree[i] {
          assert FirstFree(isFree[..]) == i;
          UsedUpdate(isFree[..], i, false);
          isFree[i] := false;
          size := size + 1;
          return Some(i);
        }
        i := i + 1;
      }
      return None;
    }

    // The result says whether the call returns normally; false is the exception.
    method Deallocate(item: int) returns (ok: bool)
      requires Valid()
      requires isFree as object != buffer
      modifies this`size, isFree, buffer
      ensures ok <==> 0 <= item < isFree.Length
      ensures if ok then old(View()).Deallocate(item) == Some(View()) && buffer[item] == blank
              else View() == old(View())
      ensures forall i :: 0 <= i < buffer.Length && i != item ==> buffer[i] == old(buffer[i])
      ensures ok && !old(isFree[item]) ==> Valid()
    {
      if item < 0 || item >= isFree.Length { return false; }
      UsedUpdate(isFree[..], item, true);
      buffer[item] := blank;
      isFree[item] := true;
      size := size - 1;
      return true;
    }

    method StopAllocating()
      modifies this`keepAllocating
      ensures View() == old(View()).StopAllocating()
    {
      keepAllocating := false;
    }
  }
}
