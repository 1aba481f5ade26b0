// The handshake of the serial port: which state the port is in, what it sends, and
// when it offers its hand again.
module Handshake {
  const SYNC: nat := 50001
  const HEARTBEAT: nat := 50002
  const DISCONNECT: nat := 50003
  const ACK: nat := 50004
  const COMMAND_NONE: nat := 50008
  const REQUIRE_USER_FILES: nat := 50010
  const REQUIRE_INTRINSICS: nat := 50011
  const REQUIRE_EXTRINSICS: nat := 50013
  const SYNC_TIMESTAMP: nat := 50015
  const DATA_UNIT_NONE: nat := 50072
  const FILE_TAIL: nat := 50074
  const FILE_DATA: nat := 50075
  const FILE_RESP: nat := 50076
  const MAX_SYNC_RETRIES: nat := 5

  datatype WorkingState = Disconnected | Syncing | Connected

  datatype Cause = OnConnect | OnWrongReply | OnRetry | OnWatchdog

  // What happened to the connection, as the peer and the timers see it.
  datatype Signal = HandOffered(cause: Cause) | AckReceived | DisconnectReceived

  // What the port does to the outside.
  datatype Effect = WriteSync | Send(kind: nat) | StartWatchdog | KickWatchdog

  datatype Event =
    | Connect               // the end of connect()
    | LocalDisconnect       // disconnect()
    | Message(kind: nat)    // a packet of the receive loop
    | HeadTimeout           // a head read came back short
    | WatchdogFired

  datatype Port = Port(
    state: WorkingState,
    retryTimes: nat,
    effects: seq<Effect>,
    signals: seq<Signal>)
  {
    function Emit(es: seq<Effect>): Port {
      this.(effects := effects + es)
    }

    function OfferHand(cause: Cause): Port {
      this.(state := Syncing, signals := signals + [HandOffered(cause)]).Emit([WriteSync])
    }

    function OnAck(): Port {
      var s := this.(signals := signals + [AckReceived]);
      if state == Connected then s else s.(state := Connected).Emit(BURST)
    }

    function OnDisconnect(): Port {
      this.(state := Disconnected, signals := signals + [DisconnectReceived])
    }

    function HandleConnection(kind: nat): Port {
      if kind == ACK then OnAck()
      else if kind == HEARTBEAT then Emit([Send(HEARTBEAT), KickWatchdog])
      else if kind == DISCONNECT then OnDisconnect()
      else this
    }

    function Dispatch(kind: nat): Port {
      if kind >= DATA_UNIT_NONE then
        if kind == FILE_DATA || kind == FILE_TAIL then Emit([Send(FILE_RESP)]) else this
      else if kind >= COMMAND_NONE then this
      else HandleConnection(kind)
    }

    function HandleMessage(kind: nat): Port {
      var s := if state == Syncing && kind != SYNC && kind != ACK then OfferHand(OnWrongReply) else this;
      s.Dispatch(kind)
    }

    function Retry(): Port {
      match state
      case Disconnected => this
      case Syncing =>
        if retryTimes + 1 > MAX_SYNC_RETRIES then this.(retryTimes := 0).OfferHand(OnRetry)
        else this.(retryTimes := retryTimes + 1)
      case Connected => Emit([Send(HEARTBEAT)])
    }

    function Handle(e: Event): Port {
      match e
      case Connect => OfferHand(OnConnect)
      case LocalDisconnect => Emit([Send(DISCONNECT)])
      case Message(kind) => HandleMessage(kind)
      case HeadTimeout => Retry()
      case WatchdogFired => OfferHand(OnWatchdog)
    }
  }

  // What goes out when the connection is made.
  const BURST: seq<Effect> :=
    [Send(ACK), StartWatchdog, Send(SYNC_TIMESTAMP), Send(REQUIRE_INTRINSICS), Send(REQUIRE_EXTRINSICS),
     Send(REQUIRE_USER_FILES)]

  function Initial(): Port {
    Port(Disconnected, 0, [], [])
  }

  function Run(events: seq<Event>): Port {
    if events == [] then Initial() else Run(events[..|events| - 1]).Handle(events[|events| - 1])
  }

  // ----- The port as an object -----

  class SerialPort {
    var workingState: WorkingState
    var retryTimes: nat
    ghost var effects: seq<Effect>
    ghost var signals: seq<Signal>

    ghost function View(): Port
      reads this
    {
      Port(workingState, retryTimes, effects, signals)
    }

    constructor ()
      ensures View() == Initial()
    {
      workingState, retryTimes, effects, signals := Disconnected, 0, [], [];
    }

    method OfferHand(ghost cause: Cause)
      modifies this
      ensures View() == old(View()).OfferHand(cause)
    {
      workingState := Syncing;
      effects := effects + [WriteSync];
      signals := signals + [HandOffered(cause)];
    }

    method SendCommand(kind: nat)
      modifies this`effects
      ensures View() == old(View()).Emit([Send(kind)])
    {
      effects := effects + [Send(kind)];
    }

    method OnConnected()
      modifies this
      ensures View() == old(View()).OnAck()
    {
      signals := signals + [AckReceived];
      if workingState == Connected { return; }
      workingState := Connected;
      SendCommand(ACK);
      effects := effects + [StartWatchdog];
      SendCommand(SYNC_TIMESTAMP);
      SendCommand(REQUIRE_INTRINSICS);
      SendCommand(REQUIRE_EXTRINSICS);
      SendCommand(REQUIRE_USER_FILES);
      assert effects == old(effects) + BURST;
    }

    method HandleConnection(kind: nat)
      modifies this
      ensures View() == old(View()).HandleConnection(kind)
    {
      if kind == ACK {
        OnConnected();
      } else if kind == HEARTBEAT {
        SendCommand(HEARTBEAT);
        effects := effects + [KickWatchdog];
        assert effects == old(effects) + [Send(HEARTBEAT), KickWatchdog];
      } else if kind == DISCONNECT {
        workingState := Disconnected;
        signals := signals + [DisconnectReceived];
      }
    }

    method HandleTlvData(kind: nat)
      modifies this
      ensures View() == old(View()).HandleMessage(kind)
    {
      if workingState == Syncing && kind != SYNC && kind != ACK {
        OfferHand(OnWrongReply);
      }
      if kind >= DATA_UNIT_NONE {
        if kind == FILE_DATA || kind == FILE_TAIL { SendCommand(FILE_RESP); }
      } else if kind >= COMMAND_NONE {
      } else {
        HandleConnection(kind);
      }
    }

    method Retry()
      modifies this
      ensures View() == old(View()).Retry()
    {
      match workingState {
        case Disconnected =>
        case Syncing =>
          retryTimes := retryTimes + 1;
          if retryTimes > MAX_SYNC_RETRIES {
            retryTimes := 0;
            OfferHand(OnRetry);
          }
        case Connected => SendCommand(HEARTBEAT);
      }
    }
  }

  // ----- What every run satisfies -----

  // The state is a function of the last thing that happened to the connection.
  function StateAfter(signals: seq<Signal>): WorkingState {
    if signals == [] then Disconnected
    else match signals[|signals| - 1]
         case HandOffered(_) => Syncing
         case AckReceived => Connected
         case DisconnectReceived => Disconnected
  }

  lemma LastSignal(signals: seq<Signal>, x: Signal)
    ensures StateAfter(signals + [x]) == match x
                                         case HandOffered(_) => Syncing
                                         case AckReceived => Connected
                                         case DisconnectReceived => Disconnected
  {
  }

  lemma HandleFollowsSignals(p: Port, e: Event)
    requires p.state == StateAfter(p.signals)
    ensures p.Handle(e).state == StateAfter(p.Handle(e).signals)
  {
    var offered := p.signals + [HandOffered(OnWrongReply)];
    LastSignal(p.signals, AckReceived);
    LastSignal(p.signals, DisconnectReceived);
    LastSignal(offered, DisconnectReceived);
    forall cause: Cause { LastSignal(p.signals, HandOffered(cause)); }
  }

  lemma {:induction false} StateFollowsSignals(events: seq<Event>)
    ensures Run(events).state == StateAfter(Run(events).signals)
  {
    if events != [] {
      StateFollowsSignals(events[..|events| - 1]);
      HandleFollowsSignals(Run(events[..|events| - 1]), events[|events| - 1]);
    }
  }

  // The events that decide the state.
  predicate Decides(e: Event) {
    e == Connect || e == WatchdogFired || e == Message(ACK) || e == Message(DISCONNECT)
  }

  predicate IsLastDecision(events: seq<Event>, k: int) {
    0 <= k < |events| && Decides(events[k]) && forall j :: k < j < |events| ==> !Decides(events[j])
  }

  // Its position, if there is one.
  function LastDecision(events: seq<Event>): (k: int)
    ensures k >= 0 ==> IsLastDecision(events, k)
    ensures k < 0 ==> forall j :: 0 <= j < |events| ==> !Decides(events[j])
  {
    if events == [] then -1
    else if Decides(events[|events| - 1]) then |events| - 1
    else
      var n := |events| - 1;
      assert forall j :: 0 <= j < n ==> events[j] == events[..n][j];
      LastDecision(events[..n])
  }

  // Other events leave the state as it is: what a wrong reply or a timeout offers is
  // offered by a port that is syncing already.
  lemma HandleDecides(p: Port, e: Event)
    ensures p.Handle(e).state == if e == Connect || e == WatchdogFired then Syncing
                                 else if e == Message(ACK) then Connected
                                 else if e == Message(DISCONNECT) then Disconnected
                                 else p.state
  {
  }

  lemma {:induction false} StateIsDecided(events: seq<Event>)
    ensures var k := LastDecision(events);
            Run(events).state == if k < 0 || events[k] == Message(DISCONNECT) then Disconnected
                                 else if events[k] == Message(ACK) then Connected
                                 else Syncing
  {
    if events != [] {
      var n := |events| - 1;
      StateIsDecided(events[..n]);
      HandleDecides(Run(events[..n]), events[n]);
    }
  }

  // What the state is, told from the events alone: whatever else happens in between,
  // timeouts, heartbeats, replies of the wrong type and data, it is that of the last
  // Connect, watchdog firing, Ack or Disconnect.
  lemma {:induction false} StateIsLastSignal(events: seq<Event>)
    ensures Run(events).state == Connected <==> exists k :: IsLastDecision(events, k) && events[k] == Message(ACK)
    ensures Run(events).state == Syncing <==>
            exists k :: IsLastDecision(events, k) && (events[k] == Connect || events[k] == WatchdogFired)
    ensures Run(events).state == Disconnected <==>
            forall k :: IsLastDecision(events, k) ==> events[k] == Message(DISCONNECT)
  {
    StateIsDecided(events);
    var k := LastDecision(events);
    assert k >= 0 ==> IsLastDecision(events, k);
    forall j | IsLastDecision(events, j) ensures j == k {
      assert k >= 0;
    }
  }

  // Acks that found the port not connected.
  function Entries(signals: seq<Signal>): nat {
    if signals == [] then 0
    else
      var before := signals[..|signals| - 1];
      Entries(before) + (if signals[|signals| - 1] == AckReceived && StateAfter(before) != Connected then 1 else 0)
  }

  lemma EntriesAppend(signals: seq<Signal>, x: Signal)
    ensures Entries(signals + [x]) ==
            Entries(signals) + if x == AckReceived && StateAfter(signals) != Connected then 1 else 0
  {
    assert (signals + [x])[..|signals|] == signals;
  }

  predicate InBurst(e: Effect) {
    e == StartWatchdog || (e.Send? && (e.kind == ACK || e.kind == SYNC_TIMESTAMP || e.kind == REQUIRE_INTRINSICS
                                       || e.kind == REQUIRE_EXTRINSICS || e.kind == REQUIRE_USER_FILES))
  }

  // The effects that belong to a burst.
  function BurstPart(effects: seq<Effect>): seq<Effect> {
    if effects == [] then []
    else
      var e := effects[|effects| - 1];
      BurstPart(effects[..|effects| - 1]) + if InBurst(e) then [e] else []
  }

  lemma {:induction false} BurstPartAppend(a: seq<Effect>, b: seq<Effect>)
    ensures BurstPart(a + b) == BurstPart(a) + BurstPart(b)
  {
    if b == [] {
      assert a + b == a;
    } else {
      var n := |b| - 1;
      assert (a + b)[..|a + b| - 1] == a + b[..n];
      BurstPartAppend(a, b[..n]);
    }
  }

  lemma {:induction false} AllBurstParts(es: seq<Effect>)
    requires forall i :: 0 <= i < |es| ==> InBurst(es[i])
    ensures BurstPart(es) == es
  {
    if es != [] {
      var n := |es| - 1;
      AllBurstParts(es[..n]);
      assert es == es[..n] + [es[n]];
    }
  }

  function Bursts(n: nat): seq<Effect> {
    if n == 0 then [] else Bursts(n - 1) + BURST
  }

  lemma OneEffect(e: Effect)
    ensures BurstPart([e]) == if InBurst(e) then [e] else []
  {
    assert [e][..0] == [];
  }

  lemma OfferAppendsNoBurst(p: Port, cause: Cause)
    ensures BurstPart(p.OfferHand(cause).effects) == BurstPart(p.effects)
    ensures Entries(p.OfferHand(cause).signals) == Entries(p.signals)
  {
    BurstPartAppend(p.effects, [WriteSync]);
    OneEffect(WriteSync);
    EntriesAppend(p.signals, HandOffered(cause));
  }

  lemma SendAppendsNoBurst(p: Port, kind: nat)
    requires !InBurst(Send(kind))
    ensures BurstPart(p.Emit([Send(kind)]).effects) == BurstPart(p.effects)
  {
    BurstPartAppend(p.effects, [Send(kind)]);
    OneEffect(Send(kind));
  }

  lemma HeartbeatAppendsNoBurst(p: Port)
    ensures BurstPart(p.Emit([Send(HEARTBEAT), KickWatchdog]).effects) == BurstPart(p.effects)
  {
    SendAppendsNoBurst(p, HEARTBEAT);
    var es := p.effects + [Send(HEARTBEAT)];
    BurstPartAppend(es, [KickWatchdog]);
    OneEffect(KickWatchdog);
    assert p.effects + [Send(HEARTBEAT), KickWatchdog] == es + [KickWatchdog];
  }

  // The burst of a port is sent in full once per entry.
  predicate BurstPerEntry(p: Port) {
    BurstPart(p.effects) == Bursts(Entries(p.signals))
  }

  lemma AckKeepsBurstPerEntry(p: Port)
    requires BurstPerEntry(p) && p.state == StateAfter(p.signals)
    ensures BurstPerEntry(p.OnAck())
  {
    EntriesAppend(p.signals, AckReceived);
    BurstPartAppend(p.effects, BURST);
    AllBurstParts(BURST);
  }

  lemma ConnectionKeepsBurstPerEntry(p: Port, kind: nat)
    requires BurstPerEntry(p) && p.state == StateAfter(p.signals)
    ensures BurstPerEntry(p.HandleConnection(kind))
  {
    if kind == ACK {
      AckKeepsBurstPerEntry(p);
    } else if kind == HEARTBEAT {
      HeartbeatAppendsNoBurst(p);
    } else if kind == DISCONNECT {
      EntriesAppend(p.signals, DisconnectReceived);
    }
  }

  lemma MessageKeepsBurstPerEntry(p: Port, kind: nat)
    requires BurstPerEntry(p) && p.state == StateAfter(p.signals)
    ensures BurstPerEntry(p.HandleMessage(kind))
  {
    OfferAppendsNoBurst(p, OnWrongReply);
    var s := if p.state == Syncing && kind != SYNC && kind != ACK then p.OfferHand(OnWrongReply) else p;
    if kind >= DATA_UNIT_NONE {
      SendAppendsNoBurst(s, FILE_RESP);
    } else if kind < COMMAND_NONE {
      ConnectionKeepsBurstPerEntry(s, kind);
    }
  }

  lemma RetryKeepsBurstPerEntry(p: Port)
    requires BurstPerEntry(p)
    ensures BurstPerEntry(p.Retry())
  {
    OfferAppendsNoBurst(p.(retryTimes := 0), OnRetry);
    SendAppendsNoBurst(p, HEARTBEAT);
  }

  lemma HandleKeepsBurstPerEntry(p: Port, e: Event)
    requires BurstPerEntry(p) && p.state == StateAfter(p.signals)
    ensures BurstPerEntry(p.Handle(e))
  {
    match e
    case Connect => OfferAppendsNoBurst(p, OnConnect);
    case LocalDisconnect => SendAppendsNoBurst(p, DISCONNECT);
    case Message(kind) => MessageKeepsBurstPerEntry(p, kind);
    case HeadTimeout => RetryKeepsBurstPerEntry(p);
    case WatchdogFired => OfferAppendsNoBurst(p, OnWatchdog);
  }

  // Acks that found the port not connected, told from the events alone.
  function EnteringAcks(events: seq<Event>): nat {
    if events == [] then 0
    else
      var before := events[..|events| - 1];
      var k := LastDecision(before);
      EnteringAcks(before)
      + (if events[|events| - 1] == Message(ACK) && !(k >= 0 && before[k] == Message(ACK)) then 1 else 0)
  }

  lemma OfferEntersNot(p: Port, cause: Cause)
    ensures Entries(p.OfferHand(cause).signals) == Entries(p.signals)
    ensures p.OfferHand(cause).state == StateAfter(p.OfferHand(cause).signals)
  {
    EntriesAppend(p.signals, HandOffered(cause));
    LastSignal(p.signals, HandOffered(cause));
  }

  lemma DispatchEnters(p: Port, kind: nat)
    requires p.state == StateAfter(p.signals)
    ensures Entries(p.Dispatch(kind).signals)
            == Entries(p.signals) + if kind == ACK && p.state != Connected then 1 else 0
  {
    EntriesAppend(p.signals, AckReceived);
    EntriesAppend(p.signals, DisconnectReceived);
  }

  lemma HandleEnters(p: Port, e: Event)
    requires p.state == StateAfter(p.signals)
    ensures Entries(p.Handle(e).signals)
            == Entries(p.signals) + if e == Message(ACK) && p.state != Connected then 1 else 0
  {
    match e
    case Connect => OfferEntersNot(p, OnConnect);
    case LocalDisconnect =>
    case Message(kind) =>
      OfferEntersNot(p, OnWrongReply);
      DispatchEnters(if p.state == Syncing && kind != SYNC && kind != ACK then p.OfferHand(OnWrongReply) else p, kind);
    case HeadTimeout => OfferEntersNot(p.(retryTimes := 0), OnRetry);
    case WatchdogFired => OfferEntersNot(p, OnWatchdog);
  }

  lemma {:induction false} EntriesAreEnteringAcks(events: seq<Event>)
    ensures Entries(Run(events).signals) == EnteringAcks(events)
  {
    if events != [] {
      var before := events[..|events| - 1];
      EntriesAreEnteringAcks(before);
      StateFollowsSignals(before);
      StateIsDecided(before);
      HandleEnters(Run(before), events[|events| - 1]);
    }
  }

  // The Ack, the watchdog start, the time stamp and the three requests go out together
  // and in this order, exactly once per entry to Connected, over any run.
  lemma BurstOncePerEntry(events: seq<Event>)
    ensures BurstPart(Run(events).effects) == Bursts(EnteringAcks(events))
  {
    RunKeepsBurstPerEntry(events);
    EntriesAreEnteringAcks(events);
  }

  lemma {:induction false} RunKeepsBurstPerEntry(events: seq<Event>)
    ensures BurstPerEntry(Run(events))
  {
    if events != [] {
      var before := events[..|events| - 1];
      RunKeepsBurstPerEntry(before);
      StateFollowsSignals(before);
      HandleKeepsBurstPerEntry(Run(before), events[|events| - 1]);
    }
  }

  // Head timeouts that found the port syncing.
  function SyncTimeouts(events: seq<Event>): nat {
    if events == [] then 0
    else
      var before := events[..|events| - 1];
      SyncTimeouts(before)
      + (if events[|events| - 1] == HeadTimeout && Run(before).state == Syncing then 1 else 0)
  }

  predicate CountsRetries(p: Port, timeouts: nat) {
    Offers(p.signals, OnRetry) == timeouts / 6 && p.retryTimes == timeouts % 6
  }

  // Signals other than a re-offer leave the count of re-offers.
  lemma OtherSignal(p: Port, x: Signal, timeouts: nat)
    requires CountsRetries(p, timeouts) && x != HandOffered(OnRetry)
    ensures CountsRetries(p.(signals := p.signals + [x]), timeouts)
  {
    SignalAppend(p.signals, x, OnRetry);
  }

  lemma MessageCountsRetries(p: Port, kind: nat, timeouts: nat)
    requires CountsRetries(p, timeouts)
    ensures CountsRetries(p.HandleMessage(kind), timeouts)
  {
    OtherSignal(p, HandOffered(OnWrongReply), timeouts);
    var s := if p.state == Syncing && kind != SYNC && kind != ACK then p.OfferHand(OnWrongReply) else p;
    OtherSignal(s, AckReceived, timeouts);
    OtherSignal(s, DisconnectReceived, timeouts);
  }

  lemma RetryCounts(p: Port, timeouts: nat)
    requires CountsRetries(p, timeouts)
    ensures CountsRetries(p.Retry(), timeouts + if p.state == Syncing then 1 else 0)
  {
    SignalAppend(p.signals, HandOffered(OnRetry), OnRetry);
  }

  // The hand is offered again after every sixth timeout while syncing, and only then,
  // whatever happens between the timeouts.
  lemma {:induction false} RetryOffersEverySixth(events: seq<Event>)
    ensures Offers(Run(events).signals, OnRetry) == SyncTimeouts(events) / 6
    ensures Run(events).retryTimes == SyncTimeouts(events) % 6
  {
    if events != [] {
      var before := events[..|events| - 1];
      RetryOffersEverySixth(before);
      var p, n := Run(before), SyncTimeouts(before);
      match events[|events| - 1]
      case Connect => OtherSignal(p, HandOffered(OnConnect), n);
      case LocalDisconnect =>
      case Message(kind) => MessageCountsRetries(p, kind, n);
      case HeadTimeout => RetryCounts(p, n);
      case WatchdogFired => OtherSignal(p, HandOffered(OnWatchdog), n);
    }
  }

  // ----- Offers -----

  function WrongReplies(events: seq<Event>): nat {
    if events == [] then 0
    else
      var before := events[..|events| - 1];
      var e := events[|events| - 1];
      WrongReplies(before)
      + (if e.Message? && e.kind != SYNC && e.kind != ACK && Run(before).state == Syncing then 1 else 0)
  }

  function Offers(signals: seq<Signal>, cause: Cause): nat {
    if signals == [] then 0
    else Offers(signals[..|signals| - 1], cause) + (if signals[|signals| - 1] == HandOffered(cause) then 1 else 0)
  }

  function SyncsWritten(effects: seq<Effect>): nat {
    if effects == [] then 0
    else SyncsWritten(effects[..|effects| - 1]) + (if effects[|effects| - 1] == WriteSync then 1 else 0)
  }

  function AllOffers(signals: seq<Signal>): nat {
    if signals == [] then 0
    else AllOffers(signals[..|signals| - 1]) + (if signals[|signals| - 1].HandOffered? then 1 else 0)
  }

  lemma SignalAppend(signals: seq<Signal>, x: Signal, cause: Cause)
    ensures Offers(signals + [x], cause) == Offers(signals, cause) + if x == HandOffered(cause) then 1 else 0
    ensures AllOffers(signals + [x]) == AllOffers(signals) + if x.HandOffered? then 1 else 0
  {
    assert (signals + [x])[..|signals|] == signals;
  }

  lemma {:induction false} SyncsAppend(a: seq<Effect>, b: seq<Effect>)
    ensures SyncsWritten(a + b) == SyncsWritten(a) + SyncsWritten(b)
  {
    if b == [] {
      assert a + b == a;
    } else {
      var n := |b| - 1;
      assert (a + b)[..|a + b| - 1] == a + b[..n];
      SyncsAppend(a, b[..n]);
    }
  }

  lemma {:induction false} NoSyncs(es: seq<Effect>)
    requires forall i :: 0 <= i < |es| ==> es[i] != WriteSync
    ensures SyncsWritten(es) == 0
  {
    if es != [] { NoSyncs(es[..|es| - 1]); }
  }

  // What one step does to the two counts.
  ghost predicate Counted(p: Port, p': Port, offers: nat) {
    && SyncsWritten(p'.effects) == SyncsWritten(p.effects) + offers
    && AllOffers(p'.signals) == AllOffers(p.signals) + offers
  }

  lemma EmitCounted(p: Port, es: seq<Effect>)
    requires forall i :: 0 <= i < |es| ==> es[i] != WriteSync
    ensures Counted(p, p.Emit(es), 0)
  {
    SyncsAppend(p.effects, es);
    NoSyncs(es);
  }

  lemma OfferCounted(p: Port, cause: Cause)
    ensures Counted(p, p.OfferHand(cause), 1)
    ensures forall c: Cause ::
              Offers(p.OfferHand(cause).signals, c) == Offers(p.signals, c) + if c == cause then 1 else 0
  {
    SyncsAppend(p.effects, [WriteSync]);
    assert [WriteSync][..0] == [];
    forall c: Cause { SignalAppend(p.signals, HandOffered(cause), c); }
  }

  // Other than by an offer, a connection message neither offers nor writes a sync.
  lemma ConnectionCounted(p: Port, kind: nat)
    ensures Counted(p, p.HandleConnection(kind), 0)
    ensures Offers(p.HandleConnection(kind).signals, OnWrongReply) == Offers(p.signals, OnWrongReply)
  {
    SignalAppend(p.signals, AckReceived, OnWrongReply);
    SignalAppend(p.signals, DisconnectReceived, OnWrongReply);
    if kind == ACK {
      EmitCounted(p, BURST);
    } else if kind == HEARTBEAT {
      EmitCounted(p, [Send(HEARTBEAT), KickWatchdog]);
    }
  }

  lemma MessageCounted(p: Port, kind: nat)
    ensures var wrong := p.state == Syncing && kind != SYNC && kind != ACK;
            && Counted(p, p.HandleMessage(kind), if wrong then 1 else 0)
            && Offers(p.HandleMessage(kind).signals, OnWrongReply)
               == Offers(p.signals, OnWrongReply) + if wrong then 1 else 0
  {
    OfferCounted(p, OnWrongReply);
    var s := if p.state == Syncing && kind != SYNC && kind != ACK then p.OfferHand(OnWrongReply) else p;
    EmitCounted(s, [Send(FILE_RESP)]);
    ConnectionCounted(s, kind);
  }

  // Syncs and offers grow alike.
  predicate GrowAlike(p: Port, p': Port) {
    SyncsWritten(p'.effects) - SyncsWritten(p.effects) == AllOffers(p'.signals) - AllOffers(p.signals)
  }

  lemma RetryCounted(p: Port)
    ensures GrowAlike(p, p.Retry()) && Offers(p.Retry().signals, OnWrongReply) == Offers(p.signals, OnWrongReply)
  {
    OfferCounted(p.(retryTimes := 0), OnRetry);
    EmitCounted(p, [Send(HEARTBEAT)]);
  }

  lemma HandleCounted(p: Port, e: Event)
    ensures var wrong := e.Message? && p.state == Syncing && e.kind != SYNC && e.kind != ACK;
            && GrowAlike(p, p.Handle(e))
            && Offers(p.Handle(e).signals, OnWrongReply) == Offers(p.signals, OnWrongReply) + if wrong then 1 else 0
  {
    match e
    case Connect => OfferCounted(p, OnConnect);
    case LocalDisconnect => EmitCounted(p, [Send(DISCONNECT)]);
    case Message(kind) => MessageCounted(p, kind);
    case HeadTimeout => RetryCounted(p);
    case WatchdogFired => OfferCounted(p, OnWatchdog);
  }

  // Every offer writes one Sync and nothing else does; and the offers made because of a
  // wrong reply are the messages other than Sync and Ack that found the port syncing.
  lemma {:induction false} OneSyncPerOffer(events: seq<Event>)
    ensures SyncsWritten(Run(events).effects) == AllOffers(Run(events).signals)
    ensures Offers(Run(events).signals, OnWrongReply) == WrongReplies(events)
  {
    if events != [] {
      var before := events[..|events| - 1];
      OneSyncPerOffer(before);
      HandleCounted(Run(before), events[|events| - 1]);
    }
  }
}
