// Everything the port sends over a run, counted, and told from the events alone.
module HandshakeTally {
  import opened Handshake

  // ----- Kinds of effects -----

  datatype Kind = Sync | Kick | Heartbeat | FileReply | Goodbye | PartOfBurst | Other

  function KindOf(e: Effect): Kind {
    match e
    case WriteSync => Sync
    case KickWatchdog => Kick
    case StartWatchdog => PartOfBurst
    case Send(n) =>
      if n == 50002 then Heartbeat
      else if n == 50076 then FileReply
      else if n == 50003 then Goodbye
      else if n in {50004, 50015, 50011, 50013, 50010} then PartOfBurst
      else Other
  }

  function One(e: Effect, k: Kind): nat {
    if KindOf(e) == k then 1 else 0
  }

  function Count(effects: seq<Effect>, k: Kind): nat {
    if effects == [] then 0 else Count(effects[..|effects| - 1], k) + One(effects[|effects| - 1], k)
  }

  lemma {:induction false} CountAppend(a: seq<Effect>, b: seq<Effect>, k: Kind)
    ensures Count(a + b, k) == Count(a, k) + Count(b, k)
  {
    if b == [] {
      assert a + b == a;
    } else {
      var n := |b| - 1;
      assert (a + b)[..|a + b| - 1] == a + b[..n];
      CountAppend(a, b[..n], k);
    }
  }

  lemma CountTwo(e: Effect, f: Effect, k: Kind)
    ensures Count([e], k) == One(e, k) && Count([e, f], k) == One(e, k) + One(f, k)
  {
    assert [e][..0] == [] && [e, f][..1] == [e];
  }

  // What goes out when the connection is made, in this order.
  lemma BurstContents(k: Kind)
    ensures BURST == [Send(50004), StartWatchdog, Send(50015), Send(50011), Send(50013), Send(50010)]
    ensures Count(BURST, k) == if k == PartOfBurst then 6 else 0
  {
    var a := [Send(50004), StartWatchdog];
    var b := [Send(50015), Send(50011)];
    var c := [Send(50013), Send(50010)];
    assert BURST == a + b + c;
    CountAppend(a + b, c, k);
    CountAppend(a, b, k);
    CountTwo(a[0], a[1], k);
    CountTwo(b[0], b[1], k);
    CountTwo(c[0], c[1], k);
  }

  // ----- What one event adds -----

  // A message other than Sync and Ack while the port waits for these.
  predicate IsWrong(p: Port, e: Event) {
    e.Message? && p.state == Syncing && e.kind != 50001 && e.kind != 50004
  }

  predicate IsFilePart(e: Event) {
    e == Message(50075) || e == Message(50074)
  }

  function Due(p: Port, e: Event, k: Kind): nat {
    match k
    case Sync =>
      if e == Connect || e == WatchdogFired || IsWrong(p, e)
         || (e == HeadTimeout && p.state == Syncing && p.retryTimes >= 5) then 1 else 0
    case Kick => if e == Message(50002) then 1 else 0
    case Heartbeat => if e == Message(50002) || (e == HeadTimeout && p.state == Connected) then 1 else 0
    case FileReply => if IsFilePart(e) then 1 else 0
    case Goodbye => if e == LocalDisconnect then 1 else 0
    case PartOfBurst => if e == Message(50004) && p.state != Connected then 6 else 0
    case Other => 0
  }

  lemma EmitCounts(p: Port, es: seq<Effect>, k: Kind)
    ensures Count(p.Emit(es).effects, k) == Count(p.effects, k) + Count(es, k)
  {
    CountAppend(p.effects, es, k);
  }

  lemma OfferCounts(p: Port, cause: Cause, k: Kind)
    ensures Count(p.OfferHand(cause).effects, k) == Count(p.effects, k) + if k == Sync then 1 else 0
  {
    EmitCounts(p, [WriteSync], k);
    CountTwo(WriteSync, WriteSync, k);
  }

  lemma ConnectionCounts(p: Port, kind: nat, k: Kind)
    ensures Count(p.HandleConnection(kind).effects, k) == Count(p.effects, k)
            + (if kind == 50004 && p.state != Connected && k == PartOfBurst then 6
               else if kind == 50002 && (k == Kick || k == Heartbeat) then 1 else 0)
  {
    if kind == ACK {
      BurstContents(k);
      EmitCounts(p, BURST, k);
    } else if kind == HEARTBEAT {
      EmitCounts(p, [Send(HEARTBEAT), KickWatchdog], k);
      CountTwo(Send(HEARTBEAT), KickWatchdog, k);
    }
  }

  lemma DispatchCounts(p: Port, kind: nat, k: Kind)
    ensures Count(p.Dispatch(kind).effects, k) == Count(p.effects, k)
            + (if kind == 50004 && p.state != Connected && k == PartOfBurst then 6
               else if kind == 50002 && (k == Kick || k == Heartbeat) then 1
               else if IsFilePart(Message(kind)) && k == FileReply then 1 else 0)
  {
    if kind >= DATA_UNIT_NONE {
      EmitCounts(p, [Send(FILE_RESP)], k);
      CountTwo(Send(FILE_RESP), Send(FILE_RESP), k);
    } else if kind < COMMAND_NONE {
      ConnectionCounts(p, kind, k);
    }
  }

  lemma MessageCounts(p: Port, kind: nat, k: Kind)
    ensures Count(p.HandleMessage(kind).effects, k) == Count(p.effects, k) + Due(p, Message(kind), k)
  {
    OfferCounts(p, OnWrongReply, k);
    DispatchCounts(if IsWrong(p, Message(kind)) then p.OfferHand(OnWrongReply) else p, kind, k);
  }

  lemma RetryCounts(p: Port, k: Kind)
    ensures Count(p.Retry().effects, k) == Count(p.effects, k) + Due(p, HeadTimeout, k)
  {
    match p.state
    case Disconnected =>
    case Syncing => OfferCounts(p.(retryTimes := 0), OnRetry, k);
    case Connected =>
      EmitCounts(p, [Send(HEARTBEAT)], k);
      CountTwo(Send(HEARTBEAT), Send(HEARTBEAT), k);
  }

  lemma DisconnectCounts(p: Port, k: Kind)
    ensures Count(p.Emit([Send(DISCONNECT)]).effects, k) == Count(p.effects, k) + if k == Goodbye then 1 else 0
  {
    EmitCounts(p, [Send(DISCONNECT)], k);
    CountTwo(Send(DISCONNECT), Send(DISCONNECT), k);
  }

  lemma HandleCounts(p: Port, e: Event, k: Kind)
    ensures Count(p.Handle(e).effects, k) == Count(p.effects, k) + Due(p, e, k)
  {
    match e
    case Connect => OfferCounts(p, OnConnect, k);
    case LocalDisconnect => DisconnectCounts(p, k);
    case Message(kind) => MessageCounts(p, kind, k);
    case HeadTimeout => RetryCounts(p, k);
    case WatchdogFired => OfferCounts(p, OnWatchdog, k);
  }

  // ----- The counts, from the events alone -----

  function EventsIn(events: seq<Event>, counted: set<Event>): nat {
    if events == [] then 0
    else EventsIn(events[..|events| - 1], counted) + (if events[|events| - 1] in counted then 1 else 0)
  }

  // What last decided the state is one of these.
  predicate DecidedBy(events: seq<Event>, causes: set<Event>) {
    LastDecision(events) >= 0 && events[LastDecision(events)] in causes
  }

  // Timeouts that come while one of these was the last to decide the state.
  function TimeoutsAfter(events: seq<Event>, causes: set<Event>): nat {
    if events == [] then 0
    else
      var before := events[..|events| - 1];
      TimeoutsAfter(before, causes)
      + (if events[|events| - 1] == HeadTimeout && DecidedBy(before, causes) then 1 else 0)
  }

  // Messages other than Sync and Ack that come while the hand has been offered and not
  // been taken.
  function WrongMessages(events: seq<Event>): nat {
    if events == [] then 0
    else
      var before := events[..|events| - 1];
      var e := events[|events| - 1];
      WrongMessages(before)
      + (if e.Message? && e.kind != 50001 && e.kind != 50004 && DecidedBy(before, {Connect, WatchdogFired})
         then 1 else 0)
  }

  // How many there have to be of each kind.
  function Expected(events: seq<Event>, k: Kind): nat {
    match k
    case Sync =>
      EventsIn(events, {Connect, WatchdogFired}) + WrongMessages(events)
      + TimeoutsAfter(events, {Connect, WatchdogFired}) / 6
    case Kick => EventsIn(events, {Message(50002)})
    case Heartbeat => EventsIn(events, {Message(50002)}) + TimeoutsAfter(events, {Message(50004)})
    case FileReply => EventsIn(events, {Message(50075), Message(50074)})
    case Goodbye => EventsIn(events, {LocalDisconnect})
    case PartOfBurst => 6 * EnteringAcks(events)
    case Other => 0
  }

  lemma {:induction false} TimeoutsFound(events: seq<Event>)
    ensures TimeoutsAfter(events, {Connect, WatchdogFired}) == SyncTimeouts(events)
  {
    if events != [] {
      var before := events[..|events| - 1];
      TimeoutsFound(before);
      StateIsDecided(before);
    }
  }

  lemma ExpectedStep(before: seq<Event>, e: Event, p: Port, k: Kind)
    requires p.state == Run(before).state && p.retryTimes == SyncTimeouts(before) % 6
    ensures Expected(before + [e], k) == Expected(before, k) + Due(p, e, k)
  {
    var events := before + [e];
    assert events[..|events| - 1] == before;
    StateIsDecided(before);
    TimeoutsFound(before);
  }

  // Over every run, told from the events alone: each heartbeat message is answered by a
  // heartbeat and a kick of the watchdog, each head timeout while connected by a
  // heartbeat, each part of a file by its reply, each local disconnect by a disconnect;
  // a Sync goes out for each connect and watchdog firing, for each wrong message while
  // syncing and for every sixth timeout then; a burst goes out for each entering Ack; and
  // nothing else is ever sent.
  lemma {:induction false} SendsExactly(events: seq<Event>, k: Kind)
    ensures Count(Run(events).effects, k) == Expected(events, k)
  {
    if events != [] {
      var before := events[..|events| - 1];
      var e := events[|events| - 1];
      assert events == before + [e];
      SendsExactly(before, k);
      RetryOffersEverySixth(before);
      HandleCounts(Run(before), e, k);
      ExpectedStep(before, e, Run(before), k);
    }
  }
}
