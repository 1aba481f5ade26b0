// Choosing a device: a cyclic search that starts at a moving position.
module DeviceHub {
  import opened Prelude

  // What an entry does when the hub tries to open it: its serial number, or an exception.
  type Probe = Option<string>

  predicate Suits(p: Probe, serial: string) {
    p.Some? && (serial == "" || p.value == serial)
  }

  // The position probed in round i of a search from `start`.
  function Position(start: nat, i: nat, n: nat): (k: nat)
    requires n > 0
    ensures k < n
  {
    (start + i) % n
  }

  // The first round that finds a suitable entry, if any does.
  function FirstRound(devices: seq<Probe>, start: nat, serial: string, i: nat): (r: Option<nat>)
    requires i <= |devices|
    ensures r.Some? ==> i <= r.value < |devices| && Suits(devices[Position(start, r.value, |devices|)], serial)
    ensures forall j :: i <= j < (if r.Some? then r.value else |devices|) ==>
                          !Suits(devices[Position(start, j, |devices|)], serial)
    decreases |devices| - i
  {
    if i == |devices| then None
    else if Suits(devices[Position(start, i, |devices|)], serial) then Some(i)
    else FirstRound(devices, start, serial, i + 1)
  }

  function Choose(devices: seq<Probe>, start: nat, serial: string): (r: Option<nat>)
    ensures r.Some? ==> r.value < |devices|
  {
    match FirstRound(devices, start, serial, 0)
    case None => None
    case Some(i) => Some(Position(start, i, |devices|))
  }

  // Where the next search starts.
  function Advance(devices: seq<Probe>, start: nat, serial: string, cycle: bool): nat {
    if Choose(devices, start, serial).Some? && cycle && serial == "" then (start + 1) % |devices| else start
  }

  predicate SuitsAt(devices: seq<Probe>, k: nat, serial: string) {
    k < |devices| && Suits(devices[k], serial)
  }

  predicate ProbesInOrder(devices: seq<Probe>, start: nat, probed: seq<nat>) {
    && |probed| <= |devices|
    && forall i :: 0 <= i < |probed| ==> probed[i] == Position(start, i, |devices|)
  }

  // The hub. `devices` says how each entry of the list answers while the call runs.
  class Hub {
    var cameraIndex: nat

    constructor ()
      ensures cameraIndex == 0
    {
      cameraIndex := 0;
    }

    // The result is the position of the device; `probed` lists the positions tried.
    method CreateDevice(devices: seq<Probe>, serial: string, cycleDevices: bool)
      returns (res: Option<nat>, probed: seq<nat>)
      modifies this
      ensures res == Choose(devices, old(cameraIndex), serial)
      ensures cameraIndex == Advance(devices, old(cameraIndex), serial, cycleDevices)
      ensures ProbesInOrder(devices, old(cameraIndex), probed)
      ensures forall i :: 0 <= i < |probed| - 1 ==> !SuitsAt(devices, probed[i], serial)
      ensures if res.Some? then probed != [] && probed[|probed| - 1] == res.value else |probed| == |devices|
    {
      res, probed := None, [];
      var cycle := cycleDevices;
      var i := 0;
      while i < |devices| && res.None?
        invariant 0 <= i <= |devices| && |probed| == i
        invariant cameraIndex == old(cameraIndex)
        invariant ProbesInOrder(devices, cameraIndex, probed)
        invariant forall j :: 0 <= j < i - 1 ==> !SuitsAt(devices, probed[j], serial)
        invariant res.None? ==> cycle == cycleDevices && forall j :: 0 <= j < i ==> !SuitsAt(devices, probed[j], serial)
        invariant res.None? ==>
                    FirstRound(devices, cameraIndex, serial, 0) == FirstRound(devices, cameraIndex, serial, i)
        invariant res.Some? ==> i > 0 && FirstRound(devices, cameraIndex, serial, 0) == Some(i - 1)
                                && res == Some(probed[i - 1]) && cycle == (cycleDevices && serial == "")
        decreases |devices| - i
      {
        var k := Position(cameraIndex, i, |devices|);
        probed := probed + [k];
        match devices[k] {
          case None =>
          case Some(newSerial) =>
            if serial != "" {
              if serial == newSerial {
                res := Some(k);
                cycle := false;
              }
            } else {
              res := Some(k);
            }
        }
        i := i + 1;
      }
      if res.Some? && cycle {
        cameraIndex := (cameraIndex + 1) % |devices|;
      }
    }
  }

  // ----- What the search finds -----

  lemma PositionsDiffer(start: nat, i: nat, j: nat, n: nat)
    requires i < j < n
    ensures Position(start, i, n) != Position(start, j, n)
  {
    var a, b := start + i, start + j;
    if a % n == b % n {
      assert a == n * (a / n) + a % n && b == n * (b / n) + b % n;
      assert b - a == n * (b / n - a / n);
      MultipleIsBig(n, b / n - a / n);
    }
  }

  lemma MultipleIsBig(n: nat, q: int)
    requires n > 0
    ensures n * q <= 0 || n * q >= n
  {
  }

  // The round that probes position k.
  function RoundOf(start: nat, k: nat, n: nat): (i: nat)
    requires k < n
    ensures i < n
  {
    (k + n - start % n) % n
  }

  lemma RoundProbes(start: nat, k: nat, n: nat)
    requires k < n
    ensures Position(start, RoundOf(start, k, n), n) == k
  {
    var s := start % n;
    var i := RoundOf(start, k, n);
    SumMod(start, i, n);
    if k >= s {
      SmallMod(k - s, n);
      assert k + n - s == (k - s) + n;
      PlusOne(k - s, n);
    } else {
      SmallMod(k + n - s, n);
      assert s + i == k + n;
      PlusOne(k, n);
    }
    SmallMod(k, n);
  }

  lemma SmallMod(a: nat, n: nat)
    requires a < n
    ensures a % n == a
  {
  }

  lemma PlusOne(a: nat, n: nat)
    requires n > 0
    ensures (a + n) % n == a % n
  {
    var q, r := a / n, a % n;
    assert a + n == n * (q + 1) + r;
    ModUnique(a + n, n, q + 1, r);
  }

  lemma ModUnique(a: nat, n: nat, q: nat, r: nat)
    requires r < n && a == n * q + r
    ensures a % n == r
  {
    var q', r' := a / n, a % n;
    assert n * (q - q') == r' - r;
    MultipleIsBig(n, q - q');
    MultipleIsBig(n, q' - q);
  }

  lemma SumMod(a: nat, b: nat, n: nat)
    requires n > 0
    ensures (a + b) % n == (a % n + b) % n
  {
    var q, r := (a % n + b) / n, (a % n + b) % n;
    assert a == n * (a / n) + a % n;
    assert a + b == n * (a / n) + n * q + r;
    assert n * (a / n) + n * q == n * (a / n + q);
    ModUnique(a + b, n, a / n + q, r);
  }

  // A search probes no position twice and succeeds exactly when some entry of the list
  // suits, wherever it starts.
  lemma ChooseFindsIfAny(devices: seq<Probe>, start: nat, serial: string)
    ensures Choose(devices, start, serial).Some? <==> exists k :: 0 <= k < |devices| && Suits(devices[k], serial)
    ensures Choose(devices, start, serial).Some? ==> Suits(devices[Choose(devices, start, serial).value], serial)
    ensures forall i, j :: 0 <= i < j < |devices| ==> Position(start, i, |devices|) != Position(start, j, |devices|)
  {
    forall i, j | 0 <= i < j < |devices| ensures Position(start, i, |devices|) != Position(start, j, |devices|) {
      PositionsDiffer(start, i, j, |devices|);
    }
    forall k | 0 <= k < |devices| && Suits(devices[k], serial) ensures Choose(devices, start, serial).Some? {
      RoundProbes(start, k, |devices|);
    }
  }

  // An entry opens and, if a serial number is asked for, has it.
  predicate Answers(devices: seq<Probe>, k: nat, serial: string) {
    k < |devices| && devices[k].Some? && (serial != "" ==> devices[k].value == serial)
  }

  // Entry k is the one of round i, and answers where those of earlier rounds do not.
  predicate AnswersFirst(devices: seq<Probe>, start: nat, serial: string, i: nat, k: nat)
    requires |devices| > 0
  {
    && k == Position(start, i, |devices|) && Answers(devices, k, serial)
    && forall j: nat :: j < i ==> !Answers(devices, Position(start, j, |devices|), serial)
  }

  // The device returned is the first in cyclic order, from the start position on, that
  // opens and has the serial number asked for; none is returned exactly when none does.
  lemma ReturnsFirstInOrder(devices: seq<Probe>, start: nat, serial: string)
    ensures Choose(devices, start, serial).None? <==> forall k: nat :: !Answers(devices, k, serial)
    ensures Choose(devices, start, serial).Some? ==>
              exists i: nat :: i < |devices|
                               && AnswersFirst(devices, start, serial, i, Choose(devices, start, serial).value)
  {
    ChooseFindsIfAny(devices, start, serial);
    forall k: nat ensures Answers(devices, k, serial) <==> k < |devices| && Suits(devices[k], serial) {
    }
    var r := FirstRound(devices, start, serial, 0);
    if r.Some? {
      assert AnswersFirst(devices, start, serial, r.value, Choose(devices, start, serial).value);
    }
  }

  // The next search starts one further exactly when cycling is on, any device would do
  // and one was found; otherwise it starts at the same place.
  lemma AdvancesExactly(devices: seq<Probe>, start: nat, serial: string, cycle: bool)
    ensures var found := exists k :: 0 <= k < |devices| && Answers(devices, k, "");
            Advance(devices, start, serial, cycle)
            == if cycle && serial == "" && found then (start + 1) % |devices| else start
  {
    ChooseFindsIfAny(devices, start, serial);
    forall k | 0 <= k < |devices| ensures Suits(devices[k], "") <==> Answers(devices, k, "") {
    }
  }

  // The position a search starts at is taken whenever its entry suits.
  lemma StartIsPreferred(devices: seq<Probe>, start: nat, serial: string)
    requires |devices| > 0 && Suits(devices[start % |devices|], serial)
    ensures Choose(devices, start, serial) == Some(start % |devices|)
  {
  }

  // ----- Consecutive calls -----

  // Where the search of call c starts.
  function IndexAt(devices: seq<Probe>, start: nat, c: nat): nat {
    if c == 0 then start else Advance(devices, IndexAt(devices, start, c - 1), "", true)
  }

  lemma {:induction false} IndexAtCall(devices: seq<Probe>, start: nat, c: nat)
    requires |devices| > 0 && exists k :: 0 <= k < |devices| && Suits(devices[k], "")
    ensures IndexAt(devices, start, c) % |devices| == (start + c) % |devices|
  {
    if c > 0 {
      IndexAtCall(devices, start, c - 1);
      var before := IndexAt(devices, start, c - 1);
      ChooseFindsIfAny(devices, before, "");
      SumMod(before, 1, |devices|);
      SumMod(start + c - 1, 1, |devices|);
      SmallMod((before + 1) % |devices|, |devices|);
    }
  }

  // Fair cycling: with an unchanged list and any device wanted, |devices| consecutive
  // calls return every device that opens at least once, from wherever they start.
  lemma EveryDeviceIsReturned(devices: seq<Probe>, start: nat, first: nat, k: nat) returns (c: nat)
    requires k < |devices| && devices[k].Some?
    ensures first <= c < first + |devices|
    ensures Choose(devices, IndexAt(devices, start, c), "") == Some(k)
  {
    var n := |devices|;
    assert Suits(devices[k], "");
    c := first + RoundOf(start + first, k, n);
    RoundProbes(start + first, k, n);
    IndexAtCall(devices, start, c);
    StartIsPreferred(devices, IndexAt(devices, start, c), "");
  }
}
