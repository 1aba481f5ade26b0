// The type-length-value framing of the serial protocol: the serializer, a batch
// parser over a complete byte sequence, and the laws that connect them.
module SerialFraming {
  import opened LittleEndian

  const MIN_TYPE: nat := 50000
  const MAX_TYPE: nat := 60000
  const MAX_LENGTH: nat := 4096 * 1024
  const HEAD_SIZE: nat := 8

  datatype Packet = Packet(kind: nat, data: seq<Byte>) {
    predicate Valid() {
      MIN_TYPE <= kind <= MAX_TYPE && |data| <= MAX_LENGTH
    }
  }

  // ----- Heads -----

  datatype Head = Head(kind: nat, length: nat)

  function DecodeHead(s: seq<Byte>): Head
    requires |s| == HEAD_SIZE
  {
    Head(DecodeUint32(s[..4]), DecodeUint32(s[4..]))
  }

  predicate HeadValid(h: Head) {
    !(h.kind < MIN_TYPE || h.kind > MAX_TYPE || h.length > MAX_LENGTH)
  }

  // ----- The batch parser -----

  // The packets of a byte sequence read in one go. A head that is not valid is
  // skipped as a whole; what is left of an incomplete packet yields nothing.
  function Parse(s: seq<Byte>): seq<Packet>
    decreases |s|
  {
    if |s| < HEAD_SIZE then []
    else
      var h := DecodeHead(s[..HEAD_SIZE]);
      var rest := s[HEAD_SIZE..];
      if !HeadValid(h) then Parse(rest)
      else if |rest| < h.length then []
      else [Packet(h.kind, rest[..h.length])] + Parse(rest[h.length..])
  }

  // The parser ends exactly at the end of `s`.
  predicate Whole(s: seq<Byte>)
    decreases |s|
  {
    if |s| < HEAD_SIZE then s == []
    else
      var h := DecodeHead(s[..HEAD_SIZE]);
      var rest := s[HEAD_SIZE..];
      if !HeadValid(h) then Whole(rest)
      else h.length <= |rest| && Whole(rest[h.length..])
  }

  lemma CutAppend(s: seq<Byte>, t: seq<Byte>, n: nat)
    requires n <= |s|
    ensures (s + t)[..n] == s[..n] && (s + t)[n..] == s[n..] + t
  {
  }

  // Parsing goes on where a whole prefix ends.
  lemma {:induction false} ParseAppend(s: seq<Byte>, t: seq<Byte>)
    requires Whole(s)
    ensures Parse(s + t) == Parse(s) + Parse(t)
    ensures Whole(s + t) <==> Whole(t)
    decreases |s|
  {
    if s == [] {
      assert s + t == t;
    } else {
      CutAppend(s, t, HEAD_SIZE);
      var h := DecodeHead(s[..HEAD_SIZE]);
      var rest := s[HEAD_SIZE..];
      if !HeadValid(h) {
        ParseAppend(rest, t);
      } else {
        CutAppend(rest, t, h.length);
        ParseAppend(rest[h.length..], t);
      }
    }
  }

  // ----- The serializer -----

  // One message as `send` lays it out.
  function Serialize(p: Packet): seq<Byte>
    requires p.kind < UINT32_RANGE && |p.data| < UINT32_RANGE
  {
    EncodeUint32(p.kind) + EncodeUint32(|p.data|) + p.data
  }

  function SerializeAll(ps: seq<Packet>): seq<Byte>
    requires forall p :: p in ps ==> p.Valid()
  {
    if ps == [] then []
    else
      assert ps[0] in ps && ps[0].Valid();
      Serialize(ps[0]) + SerializeAll(ps[1..])
  }

  lemma ParseOne(p: Packet)
    requires p.Valid()
    ensures Parse(Serialize(p)) == [p] && Whole(Serialize(p))
  {
    var s := Serialize(p);
    assert s[..HEAD_SIZE][..4] == EncodeUint32(p.kind);
    assert s[..HEAD_SIZE][4..] == EncodeUint32(|p.data|);
    assert s[HEAD_SIZE..] == p.data;
    Uint32RoundTrip(p.kind);
    Uint32RoundTrip(|p.data|);
    assert p.data[..|p.data|] == p.data && p.data[|p.data|..] == [];
    assert Parse([]) == [] && Whole([]);
  }

  // The bytes of a message as they are on the line: type, length, data.
  lemma FrameBytes(a: Byte, b: Byte)
    ensures Serialize(Packet(50001, [a, b])) == [0x51, 0xC3, 0, 0, 2, 0, 0, 0, a, b]
  {
    assert EncodeUint32(50001) == [0x51, 0xC3, 0, 0] && EncodeUint32(2) == [2, 0, 0, 0];
  }

  // What passes for a head.
  lemma HeadBounds(h: Head)
    ensures HeadValid(h) <==> 50000 <= h.kind <= 60000 && h.length <= 4194304
  {
  }

  // The batch parser inverts the serializer.
  lemma {:induction false} RoundTrip(ps: seq<Packet>)
    requires forall p :: p in ps ==> p.Valid()
    ensures Parse(SerializeAll(ps)) == ps && Whole(SerializeAll(ps))
  {
    if ps != [] {
      ParseOne(ps[0]);
      RoundTrip(ps[1..]);
      ParseAppend(Serialize(ps[0]), SerializeAll(ps[1..]));
    }
  }

  // Serialization loses nothing: equal byte streams come from equal messages.
  lemma SerializeInjective(ps: seq<Packet>, qs: seq<Packet>)
    requires (forall p :: p in ps ==> p.Valid()) && (forall q :: q in qs ==> q.Valid())
    requires SerializeAll(ps) == SerializeAll(qs)
    ensures ps == qs
  {
    RoundTrip(ps);
    RoundTrip(qs);
  }

  // A packet is never delivered that is not valid.
  lemma {:induction false} ParsedAreValid(s: seq<Byte>)
    ensures forall p :: p in Parse(s) ==> p.Valid()
    decreases |s|
  {
    if |s| >= HEAD_SIZE {
      var h := DecodeHead(s[..HEAD_SIZE]);
      var rest := s[HEAD_SIZE..];
      if !HeadValid(h) {
        ParsedAreValid(rest);
      } else if h.length <= |rest| {
        ParsedAreValid(rest[h.length..]);
      }
    }
  }

  // An incomplete packet at the end yields nothing.
  lemma ParsePartial(s: seq<Byte>, h: Head, body: seq<Byte>, head: seq<Byte>)
    requires Whole(s) && |head| == HEAD_SIZE && h == DecodeHead(head) && HeadValid(h)
    requires |body| <= h.length
    ensures |body| < h.length ==> Parse(s + head + body) == Parse(s)
    ensures |body| == h.length ==> Parse(s + head + body) == Parse(s) + [Packet(h.kind, body)]
                                   && Whole(s + head + body)
  {
    ParseAppend(s, head + body);
    assert s + head + body == s + (head + body);
    assert (head + body)[..HEAD_SIZE] == head && (head + body)[HEAD_SIZE..] == body;
    if |body| == h.length {
      assert body[..h.length] == body && body[h.length..] == [];
      assert Parse([]) == [] && Whole([]);
    }
  }

  lemma ParseBadHead(s: seq<Byte>, head: seq<Byte>)
    requires Whole(s) && |head| == HEAD_SIZE && !HeadValid(DecodeHead(head))
    ensures Parse(s + head) == Parse(s) && Whole(s + head)
  {
    ParseAppend(s, head);
    assert head[..HEAD_SIZE] == head && head[HEAD_SIZE..] == [];
    assert Parse([]) == [] && Whole([]);
  }

  // Reading less delivers the same packets, only fewer.
  lemma {:induction false} ParsePrefix(s: seq<Byte>, n: nat)
    requires n <= |s|
    ensures Parse(s[..n]) <= Parse(s)
    decreases |s|
  {
    var t := s[..n];
    if n >= HEAD_SIZE {
      assert t[..HEAD_SIZE] == s[..HEAD_SIZE];
      var h := DecodeHead(s[..HEAD_SIZE]);
      var rest := s[HEAD_SIZE..];
      assert t[HEAD_SIZE..] == rest[..n - HEAD_SIZE];
      if !HeadValid(h) {
        ParsePrefix(rest, n - HEAD_SIZE);
      } else if h.length <= n - HEAD_SIZE {
        assert t[HEAD_SIZE..][..h.length] == rest[..h.length];
        assert t[HEAD_SIZE..][h.length..] == rest[h.length..][..n - HEAD_SIZE - h.length];
        ParsePrefix(rest[h.length..], n - HEAD_SIZE - h.length);
      }
    }
  }
}
