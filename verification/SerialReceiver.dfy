// The receive loop of the serial port as a function of the bytes on the line and of
// what each read returns; what it delivers, and exactly when that is what was sent.
module SerialReceiver {
  import opened LittleEndian
  import opened SerialFraming

  // What one call of the port's read does: return up to this many bytes, or throw.
  datatype ReadEvent = Bytes(n: nat) | IoError

  datatype Parser = Parser(
    input: seq<Byte>,         // the line: every byte the peer sends
    pos: nat,                 // how many of them have been read
    headFound: bool,
    head: Head,
    body: seq<Byte>,          // what has been read of the packet's data
    lack: nat,                // what a read that came back short left to be read of it
    delivered: seq<Packet>,   // the calls of handleTlvData
    retries: nat,             // the calls of retry
    kept: seq<Byte>)          // the bytes read, without those of head reads that came back short
  {
    // The bytes that a read of `want` bytes takes off the line.
    function Chunk(want: nat, n: nat): (chunk: seq<Byte>)
      requires pos <= |input|
      ensures |chunk| <= want && pos + |chunk| <= |input|
    {
      var size := if n < want then n else want;
      input[pos..pos + if size > |input| - pos then |input| - pos else size]
    }

    // The read of a head: kept when valid, skipped when not, and dropped with a retry
    // when the read came back short.
    function ReadHead(n: nat): Parser
      requires pos <= |input|
    {
      var chunk := Chunk(HEAD_SIZE, n);
      if |chunk| != HEAD_SIZE then this.(pos := pos + |chunk|, retries := retries + 1)
      else
        var h := DecodeHead(chunk);
        this.(pos := pos + HEAD_SIZE, kept := kept + chunk, head := h, headFound := HeadValid(h))
    }

    function BodyWant(): nat {
      if lack > 0 then lack else head.length
    }

    // The read of a body, or of what is still missing of it; a complete packet is
    // handed on.
    function ReadBody(n: nat): Parser
      requires pos <= |input|
    {
      var chunk := Chunk(BodyWant(), n);
      this.(pos := pos + |chunk|).Filled(chunk)
    }

    function Filled(chunk: seq<Byte>): Parser
      requires |chunk| <= BodyWant()
    {
      var p := this.(kept := kept + chunk, body := body + chunk, lack := BodyWant() - |chunk|);
      if p.lack > 0 then p
      else p.(headFound := false, body := [], delivered := delivered + [Packet(head.kind, body + chunk)])
    }

    // One read and what the loop makes of it.
    function Step(e: ReadEvent): (p: Parser)
      requires pos <= |input|
      ensures p.input == input && pos <= p.pos <= |input|
    {
      match e
      case IoError => this
      case Bytes(n) => if headFound then ReadBody(n) else ReadHead(n)
    }

    function Run(events: seq<ReadEvent>): (p: Parser)
      requires pos <= |input|
      ensures p.input == input && pos <= p.pos <= |input|
      decreases |events|
    {
      if events == [] then this else Step(events[0]).Run(events[1..])
    }

    // The next read is that of a head and gets a part of one only.
    predicate SplitsHead(e: ReadEvent)
      requires pos <= |input|
    {
      !headFound && e.Bytes? && 0 < |Chunk(HEAD_SIZE, e.n)| < HEAD_SIZE
    }

    // Every head read gets a whole head or nothing.
    predicate HeadsWhole(events: seq<ReadEvent>)
      requires pos <= |input|
      decreases |events|
    {
      events == [] || (!SplitsHead(events[0]) && Step(events[0]).HeadsWhole(events[1..]))
    }

    // The stretches of the line that the reads take, without those of split heads.
    function Unsplit(events: seq<ReadEvent>): seq<Byte>
      requires pos <= |input|
      decreases |events|
    {
      if events == [] then []
      else
        var p := Step(events[0]);
        (if SplitsHead(events[0]) then [] else input[pos..p.pos]) + p.Unsplit(events[1..])
    }

    // The head of a packet without data has been read; the read that follows delivers it.
    predicate AtEmptyPacket() {
      headFound && head.length == 0
    }

    // The kept bytes fall into those up to the last packet boundary, the head and the body.
    function Base(): seq<Byte> {
      if headFound && HEAD_SIZE + |body| <= |kept| then kept[..|kept| - HEAD_SIZE - |body|] else kept
    }

    function HeadBytes(): (s: seq<Byte>)
      requires HEAD_SIZE + |body| <= |kept|
      ensures |s| == HEAD_SIZE
    {
      kept[|kept| - HEAD_SIZE - |body|..|kept| - |body|]
    }

    // Behind the last boundary are the head and the body so far.
    predicate Shaped() {
      && pos <= |input| && |kept| <= pos
      && if headFound then
           && HEAD_SIZE + |body| <= |kept|
           && HeadValid(head) && head == DecodeHead(HeadBytes())
           && kept == Base() + HeadBytes() + body
           && if lack > 0 then |body| + lack == head.length else body == []
         else
           body == [] && lack == 0
    }

    // What has been delivered is the batch parse up to the last boundary.
    predicate Valid() {
      Shaped() && Whole(Base()) && delivered == Parse(Base())
    }
  }

  function Start(input: seq<Byte>): Parser {
    Parser(input, 0, false, Head(0, 0), [], 0, [], 0, [])
  }

  // ----- What every run satisfies -----

  lemma Pieces(p: Parser, base: seq<Byte>, head: seq<Byte>)
    requires p.headFound && |head| == HEAD_SIZE && p.kept == base + head + p.body
    ensures HEAD_SIZE + |p.body| <= |p.kept| && p.Base() == base && p.HeadBytes() == head
  {
  }

  lemma ReadHeadKeepsValid(p: Parser, n: nat)
    requires p.Valid() && !p.headFound
    ensures p.ReadHead(n).Valid()
  {
    var chunk := p.Chunk(HEAD_SIZE, n);
    var p' := p.ReadHead(n);
    if |chunk| == HEAD_SIZE {
      if p'.headFound {
        assert p'.kept == p.kept + chunk + p'.body;
        Pieces(p', p.kept, chunk);
      } else {
        ParseBadHead(p.kept, chunk);
      }
    }
  }

  lemma ReadBodyExtends(p: Parser, n: nat)
    requires p.Shaped() && p.headFound
    ensures p.ReadBody(n).kept == p.Base() + p.HeadBytes() + (p.body + p.Chunk(p.BodyWant(), n))
  {
    var chunk := p.Chunk(p.BodyWant(), n);
    assert p.Base() + p.HeadBytes() + p.body + chunk == p.Base() + p.HeadBytes() + (p.body + chunk);
  }

  lemma ReadBodyKeepsShape(p: Parser, n: nat)
    requires p.Shaped() && p.headFound
    ensures var p' := p.ReadBody(n);
            && p'.Shaped()
            && var body := p.body + p.Chunk(p.BodyWant(), n);
               && p'.kept == p.Base() + p.HeadBytes() + body
               && |body| <= p.head.length
               && (|body| < p.head.length <==> p'.headFound)
               && p'.Base() == (if p'.headFound then p.Base() else p'.kept)
               && p'.delivered == p.delivered + if p'.headFound then [] else [Packet(p.head.kind, body)]
  {
    ReadBodyExtends(p, n);
    if p.ReadBody(n).headFound {
      Pieces(p.ReadBody(n), p.Base(), p.HeadBytes());
    }
  }

  lemma ReadBodyKeepsValid(p: Parser, n: nat)
    requires p.Valid() && p.headFound
    ensures p.ReadBody(n).Valid()
  {
    ReadBodyKeepsShape(p, n);
    ParsePartial(p.Base(), p.head, p.body + p.Chunk(p.BodyWant(), n), p.HeadBytes());
  }

  lemma StepKeepsValid(p: Parser, e: ReadEvent)
    requires p.Valid()
    ensures p.Step(e).Valid()
  {
    if e.Bytes? {
      if p.headFound { ReadBodyKeepsValid(p, e.n); } else { ReadHeadKeepsValid(p, e.n); }
    }
  }

  lemma {:induction false} RunKeepsValid(p: Parser, events: seq<ReadEvent>)
    requires p.Valid()
    ensures p.Run(events).Valid()
    decreases |events|
  {
    if events != [] {
      StepKeepsValid(p, events[0]);
      RunKeepsValid(p.Step(events[0]), events[1..]);
    }
  }

  // What has been delivered is the batch parse of the bytes kept, except that a packet
  // without data waits for the read that follows its head.
  lemma DeliveredIsBatchParse(p: Parser)
    requires p.Valid()
    ensures p.delivered <= Parse(p.kept)
    ensures p.delivered == Parse(p.kept) <==> !p.AtEmptyPacket()
  {
    if p.headFound {
      ParsePartial(p.Base(), p.head, p.body, p.HeadBytes());
    }
  }

  lemma StepKeepsBytes(p: Parser, e: ReadEvent)
    requires p.pos <= |p.input|
    ensures p.Step(e).kept == p.kept + if p.SplitsHead(e) then [] else p.input[p.pos..p.Step(e).pos]
    ensures p.SplitsHead(e) ==> p.pos < p.Step(e).pos
  {
  }

  lemma {:induction false} RunKeepsUnsplit(p: Parser, events: seq<ReadEvent>)
    requires p.pos <= |p.input|
    ensures p.Run(events).kept == p.kept + p.Unsplit(events)
    decreases |events|
  {
    if events != [] {
      StepKeepsBytes(p, events[0]);
      RunKeepsUnsplit(p.Step(events[0]), events[1..]);
    }
  }

  lemma SliceJoin(s: seq<Byte>, a: nat, b: nat, c: nat)
    requires a <= b <= c <= |s|
    ensures s[a..b] + s[b..c] == s[a..c]
  {
  }

  lemma {:induction false} WholeHeadsLoseNothing(p: Parser, events: seq<ReadEvent>)
    requires p.pos <= |p.input| && p.HeadsWhole(events)
    ensures p.Unsplit(events) == p.input[p.pos..p.Run(events).pos]
    decreases |events|
  {
    if events != [] {
      var p' := p.Step(events[0]);
      WholeHeadsLoseNothing(p', events[1..]);
      SliceJoin(p.input, p.pos, p'.pos, p'.Run(events[1..]).pos);
    }
  }

  lemma {:induction false} SplitHeadsLose(p: Parser, events: seq<ReadEvent>)
    requires p.pos <= |p.input|
    ensures |p.Unsplit(events)| <= p.Run(events).pos - p.pos
    ensures !p.HeadsWhole(events) ==> |p.Unsplit(events)| < p.Run(events).pos - p.pos
    decreases |events|
  {
    if events != [] {
      StepKeepsBytes(p, events[0]);
      SplitHeadsLose(p.Step(events[0]), events[1..]);
    }
  }

  // No byte is lost exactly when no head is split.
  lemma LosesNothingExactly(p: Parser, events: seq<ReadEvent>)
    requires p.pos <= |p.input|
    ensures var n := p.Run(events).pos;
            && |p.Unsplit(events)| <= n - p.pos
            && (|p.Unsplit(events)| == n - p.pos <==> p.HeadsWhole(events))
            && (p.HeadsWhole(events) ==> p.Unsplit(events) == p.input[p.pos..n])
  {
    SplitHeadsLose(p, events);
    if p.HeadsWhole(events) { WholeHeadsLoseNothing(p, events); }
  }

  // Whatever the reads do, the loop delivers the batch parse of the bytes they take off
  // the line, with those of split heads cut out.
  lemma DeliversUnsplit(input: seq<Byte>, events: seq<ReadEvent>)
    ensures var p := Start(input).Run(events);
            && p.delivered <= Parse(Start(input).Unsplit(events))
            && (p.delivered == Parse(Start(input).Unsplit(events)) <==> !p.AtEmptyPacket())
  {
    RunKeepsValid(Start(input), events);
    RunKeepsUnsplit(Start(input), events);
    assert Start(input).kept + Start(input).Unsplit(events) == Start(input).Unsplit(events);
    DeliveredIsBatchParse(Start(input).Run(events));
  }

  // Chunking invariance: however the reads cut up the bytes, and however often a read
  // throws, the loop delivers what the batch parser finds in the bytes read so far, as
  // long as each head read gets a whole head or nothing.
  lemma ChunkingInvariance(input: seq<Byte>, events: seq<ReadEvent>)
    requires Start(input).HeadsWhole(events)
    ensures var p := Start(input).Run(events);
            && p.delivered <= Parse(input[..p.pos])
            && (p.delivered == Parse(input[..p.pos]) <==> !p.AtEmptyPacket())
  {
    LosesNothingExactly(Start(input), events);
    DeliversUnsplit(input, events);
  }

  // A head read that brings a part of a head loses those bytes: the loop goes on as if
  // they had never been on the line.
  lemma SplitHeadIsDropped(p: Parser, e: ReadEvent)
    requires p.Valid() && p.SplitsHead(e)
    ensures var p' := p.Step(e);
            && p'.kept == p.kept && p.pos < p'.pos < p.pos + HEAD_SIZE
            && p' == p.(pos := p'.pos, retries := p.retries + 1)
  {
  }

  // ----- Reads and retries -----

  function Least(a: nat, b: nat): nat {
    if a < b then a else b
  }

  // What a read asks for: a head, a body, or what is missing of one.
  function Wants(p: Parser): nat {
    if !p.headFound then HEAD_SIZE else if p.lack > 0 then p.lack else p.head.length
  }

  // A read takes what it asks for off the line, unless it is allowed less or less is there.
  lemma ReadTakesAll(p: Parser, n: nat)
    requires p.pos <= |p.input|
    ensures p.Step(Bytes(n)).pos == p.pos + Least(Least(Wants(p), n), |p.input| - p.pos)
    ensures p.Step(IoError) == p
  {
  }

  // Head reads that bring less than a head, none included.
  function ShortHeads(p: Parser, events: seq<ReadEvent>): nat
    requires p.pos <= |p.input|
    decreases |events|
  {
    if events == [] then 0
    else
      var e := events[0];
      (if e.Bytes? && !p.headFound && Least(e.n, |p.input| - p.pos) < HEAD_SIZE then 1 else 0)
      + ShortHeads(p.Step(e), events[1..])
  }

  // Each of them is a retry, and nothing else is.
  lemma {:induction false} RetriesAreShortHeads(p: Parser, events: seq<ReadEvent>)
    requires p.pos <= |p.input|
    ensures p.Run(events).retries == p.retries + ShortHeads(p, events)
    decreases |events|
  {
    if events != [] {
      RetriesAreShortHeads(p.Step(events[0]), events[1..]);
    }
  }

  // At the end of a line that has fallen silent every read that does not throw is a retry.
  lemma {:induction false} SilenceRetries(p: Parser, events: seq<ReadEvent>)
    requires p.pos == |p.input| && !p.headFound
    requires forall e :: e in events ==> e.Bytes?
    ensures p.Run(events) == p.(retries := p.retries + |events|)
    decreases |events|
  {
    if events != [] {
      assert events[0] in events && forall e :: e in events[1..] ==> e in events;
      SilenceRetries(p.Step(events[0]), events[1..]);
    }
  }

  // ----- Over the line -----

  lemma {:induction false} SerializedSize(ps: seq<Packet>)
    requires forall p :: p in ps ==> p.Valid()
    ensures |SerializeAll(ps)| >= HEAD_SIZE * |ps|
  {
    if ps != [] { SerializedSize(ps[1..]); }
  }

  // Packets take at least the bytes they serialize to.
  lemma {:induction false} ParsedFits(s: seq<Byte>)
    ensures forall p :: p in Parse(s) ==> p.Valid()
    ensures |SerializeAll(Parse(s))| <= |s|
    decreases |s|
  {
    ParsedAreValid(s);
    if |s| >= HEAD_SIZE {
      var h := DecodeHead(s[..HEAD_SIZE]);
      var rest := s[HEAD_SIZE..];
      if !HeadValid(h) {
        ParsedFits(rest);
      } else if h.length <= |rest| {
        ParsedFits(rest[h.length..]);
        assert Parse(s)[1..] == Parse(rest[h.length..]);
      }
    }
  }

  // The messages arrive, all of them and in order, exactly when the reads have taken
  // every byte off the line, none of them split a head, and the last packet is not one
  // without data whose read is still to come.
  lemma TransferExactly(messages: seq<Packet>, events: seq<ReadEvent>)
    requires forall m :: m in messages ==> m.Valid()
    ensures var start := Start(SerializeAll(messages));
            var p := start.Run(events);
            && (p.delivered == messages <==>
                start.HeadsWhole(events) && p.pos == |p.input| && !p.AtEmptyPacket())
            && (start.HeadsWhole(events) ==> p.delivered <= messages)
  {
    var input := SerializeAll(messages);
    var start := Start(input);
    var p := start.Run(events);
    RunKeepsValid(start, events);
    RunKeepsUnsplit(start, events);
    LosesNothingExactly(start, events);
    DeliversUnsplit(input, events);
    RoundTrip(messages);
    assert input[..|input|] == input;
    if start.HeadsWhole(events) {
      ParsePrefix(input, p.pos);
    }
    if p.delivered == messages {
      ParsedFits(p.Base());
    }
  }

  // An incomplete packet at the end means the bytes are not whole.
  lemma PartialIsNotWhole(base: seq<Byte>, head: seq<Byte>, body: seq<Byte>)
    requires Whole(base) && |head| == HEAD_SIZE && HeadValid(DecodeHead(head))
    requires |body| < DecodeHead(head).length
    ensures !Whole(base + head + body)
  {
    ParseAppend(base, head + body);
    assert base + head + body == base + (head + body);
    assert (head + body)[..HEAD_SIZE] == head && (head + body)[HEAD_SIZE..] == body;
  }

  // In the middle of a packet there is more to be read, if what was sent was whole.
  lemma MoreToRead(p: Parser)
    requires p.Valid() && Whole(p.input) && p.kept == p.input[..p.pos]
    ensures p.headFound && p.head.length > 0 ==> p.pos < |p.input|
    ensures !p.headFound ==> p.pos == |p.input| || p.pos + HEAD_SIZE <= |p.input|
  {
    if p.headFound {
      if p.pos == |p.input| && p.head.length > 0 {
        assert p.kept == p.input;
        PartialIsNotWhole(p.Base(), p.HeadBytes(), p.body);
      }
    } else {
      assert p.input == p.kept + p.input[p.pos..];
      ParseAppend(p.kept, p.input[p.pos..]);
    }
  }

  // What is left to do, in reads.
  function ToRead(p: Parser): nat
    requires p.pos <= |p.input|
  {
    |p.input| - p.pos + if p.AtEmptyPacket() then 1 else 0
  }

  // How many reads ask for, and are allowed, some bytes.
  function Answers(events: seq<ReadEvent>): nat {
    if events == [] then 0
    else (if events[0].Bytes? && events[0].n > 0 then 1 else 0) + Answers(events[1..])
  }

  lemma StepKeepsAllRead(p: Parser, e: ReadEvent)
    requires p.pos <= |p.input| && p.kept == p.input[..p.pos] && !p.SplitsHead(e)
    ensures p.Step(e).kept == p.input[..p.Step(e).pos]
  {
    StepKeepsBytes(p, e);
    SliceJoin(p.input, 0, p.pos, p.Step(e).pos);
  }

  lemma StepProgresses(p: Parser, e: ReadEvent)
    requires p.Valid() && Whole(p.input) && p.kept == p.input[..p.pos] && !p.SplitsHead(e)
    ensures p.Step(e).kept == p.input[..p.Step(e).pos]
    ensures ToRead(p.Step(e)) <= ToRead(p)
    ensures e.Bytes? && e.n > 0 && ToRead(p) > 0 ==> ToRead(p.Step(e)) < ToRead(p)
  {
    StepKeepsAllRead(p, e);
    MoreToRead(p);
    StepMeasure(p, e);
  }

  lemma StepMeasure(p: Parser, e: ReadEvent)
    requires p.Shaped() && !p.SplitsHead(e)
    requires p.headFound && p.head.length > 0 ==> p.pos < |p.input|
    ensures ToRead(p.Step(e)) <= ToRead(p)
    ensures e.Bytes? && e.n > 0 && ToRead(p) > 0 ==> ToRead(p.Step(e)) < ToRead(p)
  {
  }

  lemma {:induction false} RunProgresses(p: Parser, events: seq<ReadEvent>)
    requires p.Valid() && Whole(p.input) && p.kept == p.input[..p.pos] && p.HeadsWhole(events)
    ensures ToRead(p.Run(events)) == 0 || ToRead(p.Run(events)) + Answers(events) <= ToRead(p)
    decreases |events|
  {
    if events != [] {
      StepKeepsValid(p, events[0]);
      StepProgresses(p, events[0]);
      RunProgresses(p.Step(events[0]), events[1..]);
    }
  }

  // As many reads that bring something as there are bytes are enough, whatever their
  // sizes, however many others come back empty or throw in between, and in any order.
  lemma EnoughReadsDeliverAll(messages: seq<Packet>, events: seq<ReadEvent>)
    requires forall m :: m in messages ==> m.Valid()
    requires Start(SerializeAll(messages)).HeadsWhole(events)
    requires Answers(events) >= |SerializeAll(messages)|
    ensures Start(SerializeAll(messages)).Run(events).delivered == messages
  {
    RoundTrip(messages);
    RunProgresses(Start(SerializeAll(messages)), events);
    TransferExactly(messages, events);
  }

  // Reads that may bring a whole head each never split one.
  lemma {:induction false} LargeReadsKeepHeadsWhole(p: Parser, events: seq<ReadEvent>)
    requires p.Valid() && Whole(p.input) && p.kept == p.input[..p.pos]
    requires forall e :: e in events ==> e.IoError? || e.n == 0 || e.n >= HEAD_SIZE
    ensures p.HeadsWhole(events)
    decreases |events|
  {
    if events != [] {
      MoreToRead(p);
      StepKeepsValid(p, events[0]);
      assert events[0] in events && forall e :: e in events[1..] ==> e in events;
      StepProgresses(p, events[0]);
      LargeReadsKeepHeadsWhole(p.Step(events[0]), events[1..]);
    }
  }

  lemma {:induction false} AllAnswer(events: seq<ReadEvent>)
    requires forall e :: e in events ==> e.Bytes? && e.n > 0
    ensures Answers(events) == |events|
  {
    if events != [] {
      assert events[0] in events && forall e :: e in events[1..] ==> e in events;
      AllAnswer(events[1..]);
    }
  }

  // Messages are lost when the first head arrives in two pieces, whatever is read then.
  lemma SplitHeadLosesMessages(messages: seq<Packet>, n: nat, rest: seq<ReadEvent>)
    requires messages != [] && forall m :: m in messages ==> m.Valid()
    requires 0 < n < HEAD_SIZE
    ensures Start(SerializeAll(messages)).Run([Bytes(n)] + rest).delivered != messages
  {
    SerializedSize(messages);
    TransferExactly(messages, [Bytes(n)] + rest);
  }

  lemma TwoSteps(p: Parser, e1: ReadEvent, e2: ReadEvent)
    requires p.pos <= |p.input|
    ensures p.Run([e1, e2]) == p.Step(e1).Step(e2)
  {
    assert [e1, e2][1..] == [e2];
    assert p.Step(e1).Run([e2]) == p.Step(e1).Step(e2).Run([]);
  }

  // The head of this message comes as four and four bytes: both reads are dropped.
  lemma FourAndFourBytesDeliverNothing(m: Packet)
    requires m.Valid()
    ensures var p := Start(SerializeAll([m])).Run([Bytes(4), Bytes(4)]);
            p.pos == HEAD_SIZE && p.delivered == [] && p.retries == 2 && p.kept == []
  {
    SerializedSize([m]);
    TwoSteps(Start(SerializeAll([m])), Bytes(4), Bytes(4));
  }

  // Read as its head and its data, it is delivered by the second read.
  lemma HeadThenDataDeliversIt(m: Packet)
    requires m.Valid()
    ensures Start(SerializeAll([m])).Run([Bytes(HEAD_SIZE), Bytes(|m.data|)]).delivered == [m]
  {
    var input := SerializeAll([m]);
    assert SerializeAll([m][1..]) == [];
    assert input == EncodeUint32(m.kind) + EncodeUint32(|m.data|) + m.data;
    assert input[..HEAD_SIZE][..4] == EncodeUint32(m.kind) && input[..HEAD_SIZE][4..] == EncodeUint32(|m.data|);
    assert input[HEAD_SIZE..] == m.data;
    Uint32RoundTrip(m.kind);
    Uint32RoundTrip(|m.data|);
    var p := Start(input);
    TwoSteps(p, Bytes(HEAD_SIZE), Bytes(|m.data|));
    assert p.Chunk(HEAD_SIZE, HEAD_SIZE) == input[..HEAD_SIZE];
    var p1 := p.Step(Bytes(HEAD_SIZE));
    assert p1.headFound && p1.head == Head(m.kind, |m.data|);
    assert p1.Chunk(|m.data|, |m.data|) == m.data == p1.body + m.data;
  }

  // ----- The receive loop as it runs -----

  class Receiver {
    const input: seq<Byte>
    var pos: nat

    var isHeadFound: bool
    var packRead: nat
    var packLack: nat
    var head: Head
    var buffer: array<Byte>

    var delivered: seq<Packet>
    var retries: nat
    ghost var kept: seq<Byte>

    // `packRead` and `packLack` add up to the length, and the buffer holds the body so far.
    ghost predicate Valid()
      reads this
    {
      && pos <= |input|
      && packRead <= buffer.Length
      && if isHeadFound then
           if packLack > 0 then packRead + packLack == head.length <= buffer.Length else packRead == 0
         else
           packRead == packLack == 0
    }

    ghost function View(): Parser
      requires Valid()
      reads this, buffer
    {
      Parser(input, pos, isHeadFound, head, buffer[..packRead], packLack, delivered, retries, kept)
    }

    constructor (input: seq<Byte>)
      ensures Valid() && fresh(buffer) && View() == Start(input)
    {
      this.input := input;
      pos, isHeadFound, packRead, packLack, head := 0, false, 0, 0, Head(0, 0);
      buffer := new Byte[0];
      delivered, retries, kept := [], 0, [];
    }

    // serial::Serial::read
    method Read(want: nat, n: nat) returns (chunk: seq<Byte>)
      requires Valid()
      modifies this`pos
      ensures Valid() && chunk == old(View()).Chunk(want, n)
      ensures View() == old(View()).(pos := old(pos) + |chunk|)
    {
      var size := if n < want then n else want;
      if size > |input| - pos { size := |input| - pos; }
      chunk := input[pos..pos + size];
      pos := pos + size;
    }

    // The read of a head and what the loop makes of it.
    method ReadHead(n: nat)
      requires Valid() && !isHeadFound
      modifies this`pos, this`isHeadFound, this`head, this`retries, this`kept
      ensures Valid() && View() == old(View()).ReadHead(n)
    {
      var chunk := Read(HEAD_SIZE, n);
      if |chunk| != HEAD_SIZE {
        retries := retries + 1;
        return;
      }
      head := DecodeHead(chunk);
      kept := kept + chunk;
      if HeadValid(head) {
        isHeadFound := true;
      }
    }

    // Grows the buffer to hold the body, keeping what is in it.
    method Reserve()
      requires Valid() && isHeadFound
      modifies this`buffer
      ensures Valid() && View() == old(View()) && buffer.Length >= head.length
      ensures buffer == old(buffer) || fresh(buffer)
    {
      if buffer.Length < head.length {
        var grown := new Byte[head.length](_ => 0);
        var i := 0;
        while i < buffer.Length
          invariant 0 <= i <= buffer.Length
          invariant buffer == old(buffer) && buffer[..] == old(buffer[..])
          invariant grown[..i] == buffer[..i]
        {
          grown[i] := buffer[i];
          i := i + 1;
        }
        buffer := grown;
        assert buffer[..packRead] == old(buffer[..packRead]);
      }
    }

    // The read of a body, or of what is still missing of it; a complete packet is
    // handed on.
    method ReadBody(n: nat)
      requires Valid() && isHeadFound
      modifies this`pos, this`isHeadFound, this`packRead, this`packLack, this`buffer, this`delivered, this`kept, buffer
      ensures Valid() && View() == old(View()).ReadBody(n)
      ensures buffer == old(buffer) || fresh(buffer)
    {
      Reserve();
      FillBody(n);
    }

    method FillBody(n: nat)
      requires Valid() && isHeadFound && head.length <= buffer.Length
      modifies this`pos, this`isHeadFound, this`packRead, this`packLack, this`delivered, this`kept, buffer
      ensures Valid() && View() == old(View()).ReadBody(n)
    {
      var chunk := Read(if packLack > 0 then packLack else head.length, n);
      TakeIn(chunk);
    }

    method TakeIn(chunk: seq<Byte>)
      requires Valid() && isHeadFound && head.length <= buffer.Length && |chunk| <= View().BodyWant()
      modifies this`isHeadFound, this`packRead, this`packLack, this`delivered, this`kept, buffer
      ensures Valid() && View() == old(View()).Filled(chunk)
    {
      Store(chunk);
      kept := kept + chunk;
      Account(|chunk|);
    }

    // The loop's bookkeeping after a body read of `nread` bytes.
    method Account(nread: nat)
      requires pos <= |input| && isHeadFound && head.length <= buffer.Length
      requires if packLack > 0 then nread <= packLack && packRead + packLack == head.length
               else packRead == 0 && nread <= head.length
      modifies this`isHeadFound, this`packRead, this`packLack, this`delivered
      ensures Valid()
      ensures var lack := (if old(packLack) > 0 then old(packLack) else head.length) - nread;
              var body := buffer[..old(packRead) + nread];
              View() == if lack > 0
                        then Parser(input, pos, true, head, body, lack, old(delivered), retries, kept)
                        else Parser(input, pos, false, head, [], 0,
                                    old(delivered) + [Packet(head.kind, body)], retries, kept)
    {
      if packLack > 0 {
        packRead := packRead + nread;
        packLack := packLack - nread;
      } else if nread < head.length {
        packRead := nread;
        packLack := head.length - nread;
      }
      if packLack > 0 { return; }
      packRead := 0;
      isHeadFound := false;
      delivered := delivered + [Packet(head.kind, buffer[..head.length])];
    }

    // Writes a chunk behind what the buffer already holds of the body.
    method Store(chunk: seq<Byte>)
      requires packRead + |chunk| <= buffer.Length
      modifies buffer
      ensures buffer[..packRead + |chunk|] == old(buffer[..packRead]) + chunk
    {
      var i := 0;
      while i < |chunk|
        invariant 0 <= i <= |chunk|
        invariant buffer[..packRead + i] == old(buffer[..packRead]) + chunk[..i]
      {
        buffer[packRead + i] := chunk[i];
        i := i + 1;
      }
    }

    // The receive loop, for as long as the port keeps answering.
    method ReceiveLoop(events: seq<ReadEvent>)
      requires Valid()
      modifies this, buffer
      ensures Valid() && View() == old(View()).Run(events)
    {
      var k := 0;
      while k < |events|
        invariant 0 <= k <= |events|
        invariant Valid() && (buffer == old(buffer) || fresh(buffer))
        invariant View().Run(events[k..]) == old(View()).Run(events)
      {
        assert events[k..][0] == events[k] && events[k..][1..] == events[k + 1..];
        match events[k] {
          case IoError =>
          case Bytes(n) =>
            if !isHeadFound { ReadHead(n); } else { ReadBody(n); }
        }
        k := k + 1;
      }
      assert events[k..] == [];
    }
  }

  // The loop over a line: what it delivers and how much it reads is determined by the
  // bytes on the line and by the reads, and is the batch parse unless a head was split.
  method ReceiveAny(input: seq<Byte>, events: seq<ReadEvent>) returns (delivered: seq<Packet>, count: nat)
    ensures var p := Start(input).Run(events); delivered == p.delivered && count == p.pos <= |input|
    ensures Start(input).HeadsWhole(events) ==> delivered <= Parse(input[..count])
    ensures Start(input).HeadsWhole(events) && !Start(input).Run(events).AtEmptyPacket() ==>
              delivered == Parse(input[..count])
  {
    var r := new Receiver(input);
    r.ReceiveLoop(events);
    delivered, count := r.delivered, r.pos;
    if Start(input).HeadsWhole(events) {
      ChunkingInvariance(input, events);
    }
  }

  // Over the line: what was serialized at one end is delivered at the other, in order
  // and complete, under any reads that each may bring a head and that are enough; and in
  // general exactly when the reads take everything and split no head.
  method Transfer(messages: seq<Packet>, events: seq<ReadEvent>) returns (delivered: seq<Packet>)
    requires forall m :: m in messages ==> m.Valid()
    ensures (forall e :: e in events ==> e.Bytes? && e.n >= HEAD_SIZE) && |events| >= |SerializeAll(messages)| ==>
              delivered == messages
    ensures var start := Start(SerializeAll(messages));
            var p := start.Run(events);
            delivered == messages <==> start.HeadsWhole(events) && p.pos == |p.input| && !p.AtEmptyPacket()
    ensures Start(SerializeAll(messages)).HeadsWhole(events) ==> delivered <= messages
  {
    var input := SerializeAll(messages);
    var count;
    delivered, count := ReceiveAny(input, events);
    TransferExactly(messages, events);
    if (forall e :: e in events ==> e.Bytes? && e.n >= HEAD_SIZE) && |events| >= |input| {
      RoundTrip(messages);
      LargeReadsKeepHeadsWhole(Start(input), events);
      AllAnswer(events);
      EnoughReadsDeliverAll(messages, events);
    }
  }
}
