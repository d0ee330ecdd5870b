/** Frames on a byte stream: a prefix with the total and head lengths, a head
    and a payload (fdbus/CFdbMessage.cpp, fdbus/CBaseSession.cpp,
    fdbus/CFdbSession.cpp).

    `Decode` says what a whole stream means; the session code is proved against
    it for every way of cutting the stream into reads. */
module Framing {
  import opened Maybes
  import opened Codec
  import opened MessageHeader

  const PREFIX_SIZE := 8
  const MAX_HEAD_SIZE := 256
  const RESERVED_SIZE := PREFIX_SIZE + MAX_HEAD_SIZE

  /** A message to send. */
  datatype Message = Message(head: Header, payload: Bytes)

  /** A message handed to the upper layer. */
  datatype Delivery = Delivery(head: Header, payload: Bytes)

  datatype Prefix = Prefix(total: nat, headLength: nat)

  function EncodePrefix(p: Prefix): (bs: Bytes)
    ensures |bs| == PREFIX_SIZE
  {
    LittleEndian(p.total, 4) + LittleEndian(p.headLength, 4)
  }

  function DecodePrefix(bs: Bytes): Prefix
    requires |bs| >= PREFIX_SIZE
  {
    Prefix(FromLittleEndian(bs[0..4]), FromLittleEndian(bs[4..8]))
  }

  function FrameSize(m: Message): nat {
    PREFIX_SIZE + |EncodeHeader(FullHead(m))| + |m.payload|
  }

  /** The head with the payload size filled in. */
  function FullHead(m: Message): Header {
    m.head.(payloadSize := |m.payload|)
  }

  function Frame(m: Message): (bs: Bytes)
    ensures |bs| == FrameSize(m)
  {
    Front(EncodeHeader(FullHead(m)), |m.payload|) + m.payload
  }

  /** Prefix and head of a frame. */
  function Front(head: Bytes, payloadSize: nat): (bs: Bytes)
    ensures |bs| == PREFIX_SIZE + |head|
  {
    EncodePrefix(Prefix(PREFIX_SIZE + |head| + payloadSize, |head|)) + head
  }

  function FrameAll(ms: seq<Message>): Bytes {
    if ms == [] then [] else Frame(ms[0]) + FrameAll(ms[1..])
  }

  // ------------------------------------------------------------------
  // What a stream means.

  /** A prefix that ends the session: shorter than itself, or asking for more
      than `limit` bytes, the largest buffer that can be allocated. */
  predicate BadPrefix(p: Prefix, limit: nat) {
    p.total < PREFIX_SIZE || p.total > limit
  }

  predicate KnownType(t: int) {
    1 <= t <= 11
  }

  /** The head and payload of a complete frame, if the head can be understood:
      the payload starts after the head and has the size that the head gives. */
  function ParseFrame(frame: Bytes): (d: Maybe<Delivery>)
    requires |frame| >= PREFIX_SIZE
    ensures d.Just? ==> |d.value.payload| == d.value.head.payloadSize && |d.value.payload| <= |frame| - PREFIX_SIZE
  {
    var headLength := DecodePrefix(frame).headLength;
    var data := frame[PREFIX_SIZE..];
    if headLength > |data| then Nothing
    else
      match DecodeHeader(data[..headLength])
      case Nothing => Nothing
      case Just(h) =>
        if KnownType(h.msgType) && 0 <= h.payloadSize <= |data| - headLength
        then Just(Delivery(h, data[headLength..headLength + h.payloadSize]))
        else Nothing
  }

  /** Deliveries in order, the bytes of an incomplete last frame, and whether
      the stream broke on a bad prefix or head. */
  datatype Decoded = Decoded(messages: seq<Delivery>, rest: Bytes, broken: bool) {
    function After(first: seq<Delivery>): Decoded {
      this.(messages := first + messages)
    }
  }

  /** The next thing to do with a stream: wait for more bytes, give up, or hand
      over a frame and go on. */
  datatype Next = Wait | Break | Got(delivery: Delivery, rest: Bytes)

  function NextFrame(s: Bytes, limit: nat): (n: Next)
    ensures n.Got? ==> |n.rest| < |s|
  {
    if |s| < PREFIX_SIZE then Wait
    else
      var p := DecodePrefix(s);
      if BadPrefix(p, limit) then Break
      else if |s| < p.total then Wait
      else
        match ParseFrame(s[..p.total])
        case Nothing => Break
        case Just(d) => Got(d, s[p.total..])
  }

  function Decode(s: Bytes, limit: nat): Decoded
    decreases |s|
  {
    match NextFrame(s, limit)
    case Wait => Decoded([], s, false)
    case Break => Decoded([], [], true)
    case Got(d, rest) => Decode(rest, limit).After([d])
  }

  lemma PrefixStable(s: Bytes, t: Bytes)
    requires |s| >= PREFIX_SIZE
    ensures DecodePrefix(s + t) == DecodePrefix(s)
  {
    assert (s + t)[0..4] == s[0..4];
    assert (s + t)[4..8] == s[4..8];
  }

  /** More bytes do not change what the first frame is. */
  lemma NextStable(s: Bytes, t: Bytes, limit: nat)
    ensures NextFrame(s, limit).Break? ==> NextFrame(s + t, limit).Break?
    ensures NextFrame(s, limit).Got? ==>
              NextFrame(s + t, limit) == Got(NextFrame(s, limit).delivery, NextFrame(s, limit).rest + t)
  {
    if |s| >= PREFIX_SIZE {
      PrefixStable(s, t);
      var total := DecodePrefix(s).total;
      if !NextFrame(s, limit).Wait? && !BadPrefix(DecodePrefix(s), limit) {
        assert (s + t)[..total] == s[..total];
        assert (s + t)[total..] == s[total..] + t;
      }
    }
  }

  /** Decoding a stream whose first frame is complete. */
  lemma DecodeOne(s: Bytes, limit: nat)
    requires |s| >= PREFIX_SIZE && !BadPrefix(DecodePrefix(s), limit) && PREFIX_SIZE <= DecodePrefix(s).total <= |s|
    ensures var total := DecodePrefix(s).total;
            match ParseFrame(s[..total])
            case Nothing => Decode(s, limit) == Decoded([], [], true)
            case Just(d) => Decode(s, limit) == Decode(s[total..], limit).After([d])
  {}

  lemma AfterTwice(d: Decoded, a: seq<Delivery>, b: seq<Delivery>)
    ensures d.After(b).After(a) == d.After(a + b)
  {
    assert a + (b + d.messages) == a + b + d.messages;
  }

  /** Taking the first frame off what is left of a stream. */
  lemma FrameTaken(whole: Decoded, chunk: Bytes, limit: nat, delivered: seq<Delivery>)
    requires |chunk| >= PREFIX_SIZE && !BadPrefix(DecodePrefix(chunk), limit) && PREFIX_SIZE <= DecodePrefix(chunk).total <= |chunk|
    requires whole == Decode(chunk, limit).After(delivered)
    ensures var total := DecodePrefix(chunk).total;
            match ParseFrame(chunk[..total])
            case Nothing => whole.broken && whole.messages == delivered
            case Just(d) => whole == Decode(chunk[total..], limit).After(delivered + [d])
  {
    DecodeOne(chunk, limit);
    var total := DecodePrefix(chunk).total;
    if ParseFrame(chunk[..total]).Just? {
      AfterTwice(Decode(chunk[total..], limit), delivered, [ParseFrame(chunk[..total]).value]);
    }
  }

  /** Decoding can stop anywhere and go on with the rest. */
  lemma {:induction false} DecodeInPieces(s: Bytes, t: Bytes, limit: nat)
    ensures var d := Decode(s, limit);
            if d.broken then Decode(s + t, limit).broken && Decode(s + t, limit).messages == d.messages
            else Decode(s + t, limit) == Decode(d.rest + t, limit).After(d.messages)
    decreases |s|
  {
    NextStable(s, t, limit);
    match NextFrame(s, limit)
    case Wait =>
    case Break =>
    case Got(d, rest) =>
      DecodeInPieces(rest, t, limit);
      var r := Decode(rest, limit);
      AfterTwice(Decode(r.rest + t, limit), [d], r.messages);
  }

  /** What is left over is waiting. */
  lemma {:induction false} RestWaits(s: Bytes, limit: nat)
    ensures !Decode(s, limit).broken ==> NextFrame(Decode(s, limit).rest, limit).Wait?
    decreases |s|
  {
    if NextFrame(s, limit).Got? {
      RestWaits(NextFrame(s, limit).rest, limit);
    }
  }

  lemma NextHasItsSize(s: Bytes, limit: nat)
    requires NextFrame(s, limit).Got?
    ensures var d := NextFrame(s, limit).delivery; |d.payload| == d.head.payloadSize
  {}

  /** Whatever the stream is, every delivered payload has the size its head gives. */
  lemma {:induction false} PayloadsHaveTheirSize(s: Bytes, limit: nat, n: nat)
    requires n < |Decode(s, limit).messages|
    ensures var d := Decode(s, limit).messages[n]; |d.payload| == d.head.payloadSize
    decreases |s|
  {
    match NextFrame(s, limit)
    case Wait =>
    case Break =>
    case Got(d, rest) =>
      assert Decode(s, limit).messages == [d] + Decode(rest, limit).messages;
      if n == 0 {
        NextHasItsSize(s, limit);
      } else {
        PayloadsHaveTheirSize(rest, limit, n - 1);
      }
  }

  // ------------------------------------------------------------------
  // Frames come back.

  /** The limits under which a message can be framed and received. */
  predicate Sendable(m: Message, limit: nat) {
    && ValidHeader(FullHead(m)) && KnownType(m.head.msgType)
    && FrameSize(m) <= limit
  }

  lemma PrefixRoundTrip(p: Prefix, t: Bytes)
    requires p.total < 0x1_0000_0000 && p.headLength < 0x1_0000_0000
    ensures DecodePrefix(EncodePrefix(p) + t) == p
  {
    var bs := EncodePrefix(p);
    assert Pow256(4) == 0x1_0000_0000 by {
      assert Pow256(1) == 256 * Pow256(0) && Pow256(2) == 256 * Pow256(1) && Pow256(3) == 256 * Pow256(2);
    }
    assert (bs + t)[0..4] == LittleEndian(p.total, 4);
    assert (bs + t)[4..8] == LittleEndian(p.headLength, 4);
    LittleEndianRoundTrip(p.total, 4);
    LittleEndianRoundTrip(p.headLength, 4);
  }

  lemma FrameParses(m: Message, limit: nat)
    requires Sendable(m, limit) && limit < 0x8000_0000
    ensures ParseFrame(Frame(m)) == Just(Delivery(FullHead(m), m.payload))
    ensures DecodePrefix(Frame(m)).total == FrameSize(m)
  {
    var head := EncodeHeader(FullHead(m));
    var data := head + m.payload;
    FramePrefix(m, head, data);
    HeaderRoundTrip(FullHead(m));
    ParsesTo(Frame(m), head, FullHead(m), m.payload);
  }

  lemma ParsesTo(frame: Bytes, head: Bytes, h: Header, payload: Bytes)
    requires |frame| >= PREFIX_SIZE && DecodePrefix(frame).headLength == |head| && frame[PREFIX_SIZE..] == head + payload
    requires DecodeHeader(head) == Just(h) && KnownType(h.msgType) && h.payloadSize == |payload|
    ensures ParseFrame(frame) == Just(Delivery(h, payload))
  {
    var data := frame[PREFIX_SIZE..];
    assert |data| == |head| + |payload|;
    assert data[..|head|] == head;
    assert data[|head|..|head| + |payload|] == payload;
  }

  lemma FramePrefix(m: Message, head: Bytes, data: Bytes)
    requires head == EncodeHeader(FullHead(m)) && data == head + m.payload && FrameSize(m) < 0x1_0000_0000
    ensures DecodePrefix(Frame(m)) == Prefix(FrameSize(m), |head|) && Frame(m)[PREFIX_SIZE..] == data
  {
    var p := Prefix(FrameSize(m), |head|);
    assert Frame(m) == EncodePrefix(p) + data;
    PrefixRoundTrip(p, data);
  }

  /** Where the payload of a frame is looked for: right after the head, as long
      as the head says. */
  predicate LiesInside(frame: Bytes, h: Header)
    requires |frame| >= PREFIX_SIZE
  {
    var start := PREFIX_SIZE + DecodePrefix(frame).headLength;
    start <= start + h.payloadSize <= |frame|
  }

  /** A head that can be understood gives a payload inside its frame exactly when
      head and payload together are not longer than the frame; only then is
      something delivered. */
  lemma PayloadInsideIff(frame: Bytes, h: Header)
    requires |frame| >= PREFIX_SIZE && DecodePrefix(frame).total == |frame| && KnownType(h.msgType)
    requires var headLength := DecodePrefix(frame).headLength;
             headLength <= |frame| - PREFIX_SIZE ==> DecodeHeader(frame[PREFIX_SIZE..][..headLength]) == Just(h)
    ensures var p := DecodePrefix(frame);
            && (LiesInside(frame, h) <==> 0 <= h.payloadSize <= p.total - PREFIX_SIZE - p.headLength)
            && (ParseFrame(frame).Just? <==> LiesInside(frame, h))
  {}

  /** A frame that ends with its head, which announces a payload of one byte. */
  lemma PayloadBeyondFrame(h: Header)
    requires h.payloadSize == 1 && ValidHeader(h) && KnownType(h.msgType) && |EncodeHeader(h)| <= MAX_HEAD_SIZE
    ensures var frame := Front(EncodeHeader(h), 0);
            && DecodePrefix(frame) == Prefix(|frame|, |EncodeHeader(h)|)
            && DecodeHeader(frame[PREFIX_SIZE..][..|EncodeHeader(h)|]) == Just(h)
            && !LiesInside(frame, h)
  {
    var head := EncodeHeader(h);
    var p := Prefix(PREFIX_SIZE + |head|, |head|);
    var frame := Front(head, 0);
    assert frame == EncodePrefix(p) + head;
    PrefixRoundTrip(p, head);
    assert frame[PREFIX_SIZE..] == head && head[..|head|] == head;
    HeaderRoundTrip(h);
  }

  lemma FrameIsNext(m: Message, limit: nat)
    requires Sendable(m, limit) && limit < 0x8000_0000
    ensures NextFrame(Frame(m), limit) == Got(Delivery(FullHead(m), m.payload), [])
  {
    FrameParses(m, limit);
    assert Frame(m)[..FrameSize(m)] == Frame(m) && Frame(m)[FrameSize(m)..] == [];
  }

  lemma FirstFrame(m: Message, t: Bytes, limit: nat)
    requires Sendable(m, limit) && limit < 0x8000_0000
    ensures Decode(Frame(m) + t, limit) == Decode(t, limit).After([Delivery(FullHead(m), m.payload)])
  {
    FrameIsNext(m, limit);
    NextStable(Frame(m), t, limit);
    assert [] + t == t;
  }

  function Deliveries(ms: seq<Message>): seq<Delivery> {
    if ms == [] then [] else [Delivery(FullHead(ms[0]), ms[0].payload)] + Deliveries(ms[1..])
  }

  /** A stream of framed messages means exactly those messages, in order, with
      nothing left over. */
  lemma {:induction false} FramesComeBack(ms: seq<Message>, limit: nat)
    requires limit < 0x8000_0000
    requires forall i | 0 <= i < |ms| :: Sendable(ms[i], limit)
    ensures Decode(FrameAll(ms), limit) == Decoded(Deliveries(ms), [], false)
  {
    if ms != [] {
      FirstFrame(ms[0], FrameAll(ms[1..]), limit);
      FramesComeBack(ms[1..], limit);
    }
  }

  /** Whatever follows a bad prefix is never looked at. */
  lemma StopsAtBadPrefix(ms: seq<Message>, bad: Bytes, t: Bytes, limit: nat)
    requires limit < 0x8000_0000
    requires forall i | 0 <= i < |ms| :: Sendable(ms[i], limit)
    requires |bad| == PREFIX_SIZE && BadPrefix(DecodePrefix(bad), limit)
    ensures Decode(FrameAll(ms) + (bad + t), limit).messages == Deliveries(ms)
    ensures Decode(FrameAll(ms) + (bad + t), limit).broken
  {
    FramesComeBack(ms, limit);
    DecodeInPieces(FrameAll(ms), bad + t, limit);
    assert [] + (bad + t) == bad + t;
    PrefixStable(bad, t);
  }

  // ------------------------------------------------------------------
  // The sender.

  /** An outgoing message: the payload sits behind room for prefix and head. */
  class OutMessage {
    var buffer: array<byte>
    var payloadSize: nat
    var headSize: nat
    var offset: nat

    ghost predicate Valid()
      reads this, buffer
    {
      buffer.Length == RESERVED_SIZE + payloadSize
    }

    /** Allocates the buffer and copies the payload to its place. */
    constructor (payload: Bytes)
      ensures Valid() && fresh(buffer) && payloadSize == |payload|
      ensures buffer[RESERVED_SIZE..] == payload
    {
      var b := new byte[RESERVED_SIZE + |payload|](_ => 0);
      forall i | 0 <= i < |payload| {
        b[RESERVED_SIZE + i] := payload[i];
      }
      buffer, payloadSize, headSize, offset := b, |payload|, MAX_HEAD_SIZE, 0;
    }

    method WriteAt(at: nat, bs: Bytes)
      requires at + |bs| <= buffer.Length
      modifies buffer
      ensures buffer[at..at + |bs|] == bs
      ensures forall i | 0 <= i < buffer.Length && !(at <= i < at + |bs|) :: buffer[i] == old(buffer[i])
    {
      for i := 0 to |bs|
        invariant forall j | 0 <= j < i :: buffer[at + j] == bs[j]
        invariant forall j | 0 <= j < buffer.Length && !(at <= j < at + i) :: buffer[j] == old(buffer[j])
      {
        buffer[at + i] := bs[i];
      }
    }

    /** Writes head and prefix directly in front of the payload. */
    method BuildHeader(head: Header) returns (ok: bool)
      requires Valid()
      modifies this, buffer
      ensures Valid() && buffer == old(buffer) && payloadSize == old(payloadSize)
      ensures ok <==> |EncodeHeader(head.(payloadSize := payloadSize))| <= MAX_HEAD_SIZE
      ensures buffer[RESERVED_SIZE..] == old(buffer[RESERVED_SIZE..])
      ensures ok ==> offset <= buffer.Length && buffer[offset..] == Frame(Message(head, old(buffer[RESERVED_SIZE..])))
    {
      var headBytes := EncodeHeader(head.(payloadSize := payloadSize));
      ok := |headBytes| <= MAX_HEAD_SIZE;
      if ok {
        PlaceHead(headBytes);
      }
    }

    method PlaceHead(head: Bytes)
      requires Valid() && |head| <= MAX_HEAD_SIZE
      modifies this, buffer
      ensures Valid() && buffer == old(buffer) && payloadSize == old(payloadSize) && offset <= buffer.Length
      ensures buffer[RESERVED_SIZE..] == old(buffer[RESERVED_SIZE..])
      ensures buffer[offset..] == Front(head, payloadSize) + old(buffer[RESERVED_SIZE..])
    {
      headSize := |head|;
      offset := RESERVED_SIZE - headSize - PREFIX_SIZE;
      WriteFront(offset, EncodePrefix(Prefix(PREFIX_SIZE + headSize + payloadSize, headSize)) + head);
    }

    /** Fills the room in front of the payload from `at` on. */
    method WriteFront(at: nat, front: Bytes)
      requires Valid() && at + |front| == RESERVED_SIZE
      modifies buffer
      ensures buffer[RESERVED_SIZE..] == old(buffer[RESERVED_SIZE..])
      ensures buffer[at..] == front + old(buffer[RESERVED_SIZE..])
    {
      WriteAt(at, front);
      assert buffer[RESERVED_SIZE..] == old(buffer[RESERVED_SIZE..]);
      assert buffer[at..] == buffer[at..RESERVED_SIZE] + buffer[RESERVED_SIZE..];
    }
  }

  // ------------------------------------------------------------------
  // The receiver.

  /** A 32-bit pattern read as a signed integer. */
  function ToInt32(v: int): int {
    var p := v % 0x1_0000_0000;
    if p < 0x8000_0000 then p else p - 0x1_0000_0000
  }

  /** Checks a prefix as the session does; `false` is a fatal error. */
  method ParsePrefix(data: Bytes, limit: nat) returns (ok: bool, p: Prefix)
    requires |data| >= PREFIX_SIZE && limit < 0x8000_0000
    ensures p == DecodePrefix(data)
    ensures ok <==> !BadPrefix(p, limit)
  {
    p := DecodePrefix(data);
    FromLittleEndianRange(data[0..4]);
    assert Pow256(4) == 0x1_0000_0000 by {
      assert Pow256(1) == 256 * Pow256(0) && Pow256(2) == 256 * Pow256(1) && Pow256(3) == 256 * Pow256(2);
    }
    var dataSize := ToInt32(p.total - PREFIX_SIZE);
    if dataSize < 0 {
      return false, p;
    }
    ok := p.total <= limit;
  }

  /** A session that collects input in chunks.  `pending` is the prefix whose
      frame is being collected; the frame's bytes, prefix included, are still
      at the head of `chunk`. */
  class Session {
    const limit: nat
    var chunk: Bytes
    var pending: Maybe<Prefix>
    var fatal: bool
    var delivered: seq<Delivery>
    /** All bytes received so far. */
    ghost var stream: Bytes

    ghost predicate PendingOk()
      reads this
    {
      pending.Just? ==> |chunk| >= PREFIX_SIZE && pending.value == DecodePrefix(chunk) && !BadPrefix(pending.value, limit)
    }

    /** What was delivered and what is left over mean the whole stream. */
    ghost predicate InStep()
      reads this
    {
      && limit < 0x8000_0000
      && (fatal ==> Decode(stream, limit).broken && delivered == Decode(stream, limit).messages)
      && (!fatal ==> Decode(stream, limit) == Decode(chunk, limit).After(delivered) && PendingOk())
    }

    /** Between reads no complete frame is left undelivered. */
    ghost predicate Valid()
      reads this
    {
      && InStep()
      && delivered == Decode(stream, limit).messages
      && fatal == Decode(stream, limit).broken
      && (!fatal ==> chunk == Decode(stream, limit).rest)
    }

    constructor (limit: nat)
      requires limit < 0x8000_0000
      ensures Valid() && stream == [] && delivered == [] && !fatal && this.limit == limit
    {
      this.limit := limit;
      chunk, pending, fatal, delivered, stream := [], Nothing, false, [], [];
    }

    /** Hands over every complete frame.  Returns how many more bytes the next
        step needs. */
    method OnInputReady() returns (expected: nat)
      requires InStep()
      modifies this`chunk, this`pending, this`fatal, this`delivered
      ensures Valid()
      ensures expected == if fatal then 0
                          else if |chunk| < PREFIX_SIZE then PREFIX_SIZE - |chunk|
                          else DecodePrefix(chunk).total - |chunk|
    {
      expected := 0;
      while true
        invariant InStep()
        decreases !fatal, |chunk|, pending.Nothing?
      {
        if fatal {
          pending, expected := Nothing, 0;
          break;
        }
        if pending.Just? {
          var total := pending.value.total;
          if total > |chunk| {
            expected := total - |chunk|;
            break;
          }
          ProcessFrame(total);
        } else {
          if |chunk| < PREFIX_SIZE {
            expected := PREFIX_SIZE - |chunk|;
            break;
          }
          var ok, p := ParsePrefix(chunk, limit);
          if ok {
            pending := Just(p);
          } else {
            fatal := true;
          }
        }
      }
    }

    /** Takes the pending frame out of the chunk and hands it over. */
    method ProcessFrame(total: nat)
      requires InStep() && !fatal && pending.Just? && total == pending.value.total <= |chunk|
      modifies this`chunk, this`pending, this`fatal, this`delivered
      ensures InStep() && pending.Nothing? && chunk == old(chunk)[total..]
    {
      ghost var whole := Decode(stream, limit);
      FrameTaken(whole, chunk, limit, delivered);
      var frame := chunk[..total];
      var parsed := ParseFrame(frame);
      chunk, pending := chunk[total..], Nothing;
      if parsed.Nothing? {
        fatal := true;
        assert whole.broken && whole.messages == delivered;
      } else {
        delivered := delivered + [parsed.value];
        assert whole == Decode(chunk, limit).After(delivered);
      }
    }

    /** One read of the socket. */
    method Receive(bytes: Bytes) returns (expected: nat)
      requires Valid()
      modifies this
      ensures Valid() && stream == old(stream) + bytes
      ensures old(delivered) <= delivered
    {
      DecodeInPieces(stream, bytes, limit);
      if fatal {
        stream := stream + bytes;
        return 0;
      }
      if pending.Just? {
        PrefixStable(chunk, bytes);
      }
      chunk, stream := chunk + bytes, stream + bytes;
      expected := OnInputReady();
    }
  }

  /** A session that blocks until a whole frame has been read.  `incoming` is
      what the peer sends before the connection ends. */
  class BlockingSession {
    const limit: nat
    var incoming: Bytes
    var fatal: bool
    var delivered: seq<Delivery>

    constructor (incoming: Bytes, limit: nat)
      ensures this.incoming == incoming && this.limit == limit && !fatal && delivered == []
    {
      this.incoming, this.limit := incoming, limit;
      fatal, delivered := false, [];
    }

    /** Reads `size` bytes, or fails for good when the peer is gone. */
    method ReceiveData(size: nat) returns (ok: bool, bs: Bytes)
      modifies this`incoming, this`fatal
      ensures ok <==> size <= |old(incoming)|
      ensures ok ==> bs == old(incoming)[..size] && incoming == old(incoming)[size..] && fatal == old(fatal)
      ensures !ok ==> fatal && incoming == []
    {
      if size > |incoming| {
        incoming, fatal := [], true;
        return false, [];
      }
      ok, bs, incoming := true, incoming[..size], incoming[size..];
    }

    /** Reads and hands over one frame. */
    method OnInput()
      requires limit < 0x8000_0000
      modifies this
      ensures if old(fatal) then fatal && delivered == old(delivered)
              else match NextFrame(old(incoming), limit)
                   case Got(d, rest) => !fatal && delivered == old(delivered) + [d] && incoming == rest
                   case _ => fatal && delivered == old(delivered)
    {
      if fatal { return; }
      ghost var s := incoming;
      var ok, prefix := ReceiveData(PREFIX_SIZE);
      if fatal { return; }
      assert s == prefix + incoming;
      PrefixStable(prefix, incoming);
      var p;
      ok, p := ParsePrefix(prefix, limit);
      if !ok { fatal := true; }
      if fatal { return; }
      var data;
      ok, data := ReceiveData(p.total - PREFIX_SIZE);
      if ok {
        assert prefix + data == s[..p.total] && incoming == s[p.total..];
        match ParseFrame(prefix + data) {
          case Nothing => fatal := true;
          case Just(d) => delivered := delivered + [d];
        }
      }
    }
  }

  // ------------------------------------------------------------------
  // Both receivers hand over what the stream means.

  function Concat(chunks: seq<Bytes>): Bytes {
    if chunks == [] then [] else Concat(chunks[..|chunks| - 1]) + chunks[|chunks| - 1]
  }

  /** However the stream is cut into reads, exactly its messages are delivered. */
  method ReceiveChunks(chunks: seq<Bytes>, limit: nat) returns (delivered: seq<Delivery>, broken: bool)
    requires limit < 0x8000_0000
    ensures delivered == Decode(Concat(chunks), limit).messages
    ensures broken == Decode(Concat(chunks), limit).broken
  {
    var session := new Session(limit);
    for n := 0 to |chunks|
      invariant session.Valid() && session.stream == Concat(chunks[..n]) && session.limit == limit
    {
      assert chunks[..n + 1][..n] == chunks[..n];
      var expected := session.Receive(chunks[n]);
    }
    assert chunks[..|chunks|] == chunks;
    delivered, broken := session.delivered, session.fatal;
  }

  /** Reading frame by frame until the connection fails delivers the same. */
  method ReceiveBlocking(stream: Bytes, limit: nat) returns (delivered: seq<Delivery>)
    requires limit < 0x8000_0000
    ensures delivered == Decode(stream, limit).messages
  {
    var session := new BlockingSession(stream, limit);
    while !session.fatal
      invariant session.limit == limit
      invariant !session.fatal ==> Decode(stream, limit) == Decode(session.incoming, limit).After(session.delivered)
      invariant session.fatal ==> session.delivered == Decode(stream, limit).messages
      decreases !session.fatal, |session.incoming|
    {
      ghost var before, done := session.incoming, session.delivered;
      session.OnInput();
      if NextFrame(before, limit).Got? {
        AfterTwice(Decode(session.incoming, limit), done, [NextFrame(before, limit).delivery]);
      }
    }
    delivered := session.delivered;
  }

  /** Messages framed by the sender arrive as themselves, in order, over any
      cutting of the stream; nothing is lost, added or reordered. */
  method ReceiveFramed(ms: seq<Message>, chunks: seq<Bytes>, limit: nat) returns (delivered: seq<Delivery>)
    requires limit < 0x8000_0000
    requires forall i | 0 <= i < |ms| :: Sendable(ms[i], limit)
    requires Concat(chunks) == FrameAll(ms)
    ensures delivered == Deliveries(ms)
  {
    FramesComeBack(ms, limit);
    var broken;
    delivered, broken := ReceiveChunks(chunks, limit);
  }
}
