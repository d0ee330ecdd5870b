/** The head of a message (utils/CFdbIfMessageHeader.h) in the simple wire
    format: seven fixed fields, an options byte, and up to three optional ones. */
module MessageHeader {
  import opened Maybes
  import opened Codec

  datatype Header = Header(
    msgType: int, sn: int, code: int, flag: int, objectId: int, payloadSize: int, qos: int,
    topic: Maybe<Bytes>, sendTime: Maybe<int>, replyTime: Maybe<int>)

  const FIXED_KINDS: seq<Kind> :=
    [IntKind(1, false), IntKind(4, true), IntKind(4, true), IntKind(4, false),
     IntKind(4, false), IntKind(4, false), IntKind(1, false), IntKind(1, false)]

  /** Bit 1: topic; bit 2: send or arrive time; bit 3: reply time. */
  function Options(h: Header): int {
    (if h.topic.Just? then 2 else 0) + (if h.sendTime.Just? then 4 else 0) + (if h.replyTime.Just? then 8 else 0)
  }

  function FixedItems(h: Header): (items: seq<Item>)
    ensures |items| == 8
  {
    [Int(1, false, h.msgType), Int(4, true, h.sn), Int(4, true, h.code), Int(4, false, h.flag),
     Int(4, false, h.objectId), Int(4, false, h.payloadSize), Int(1, false, h.qos), Int(1, false, Options(h))]
  }

  function OptionalItems(h: Header): seq<Item> {
    (if h.topic.Just? then [Str(h.topic.value)] else [])
    + (if h.sendTime.Just? then [Int(8, false, h.sendTime.value)] else [])
    + (if h.replyTime.Just? then [Int(8, false, h.replyTime.value)] else [])
  }

  predicate HasTopic(options: int) { options / 2 % 2 == 1 }
  predicate HasSendTime(options: int) { options / 4 % 2 == 1 }
  predicate HasReplyTime(options: int) { options / 8 % 2 == 1 }

  function OptionalKinds(options: int): seq<Kind> {
    (if HasTopic(options) then [StrKind] else [])
    + (if HasSendTime(options) then [IntKind(8, false)] else [])
    + (if HasReplyTime(options) then [IntKind(8, false)] else [])
  }

  /** Every field is in the range of its type. */
  predicate ValidHeader(h: Header) {
    && (forall i | 0 <= i < 8 :: Encodable(FixedItems(h)[i]))
    && (forall i | 0 <= i < |OptionalItems(h)| :: Encodable(OptionalItems(h)[i]))
  }

  function EncodeHeader(h: Header): Bytes {
    EncodeAll(FixedItems(h)) + EncodeAll(OptionalItems(h))
  }

  predicate AllFixed(items: seq<Item>) {
    |items| == 8 && forall i | 0 <= i < 8 :: items[i].Int?
  }

  function DecodeHeader(bs: Bytes): Maybe<Header> {
    match ReadAll(bs, 0, FIXED_KINDS)
    case Error => Nothing
    case Ok(fixed, pos) =>
      if pos > |bs| || !AllFixed(fixed) then Nothing
      else
        var options := fixed[7].v;
        match ReadAll(bs, pos, OptionalKinds(options))
        case Error => Nothing
        case Ok(optional, _) => FromItems(fixed, options, optional)
  }

  /** Puts the optional items that are present where they belong. */
  function FromItems(fixed: seq<Item>, options: int, optional: seq<Item>): Maybe<Header>
    requires AllFixed(fixed)
  {
    var t := if HasTopic(options) then 1 else 0;
    var s := if HasSendTime(options) then 1 else 0;
    var r := if HasReplyTime(options) then 1 else 0;
    if |optional| != t + s + r then Nothing
    else if (t == 1 && !optional[0].Str?) || (s == 1 && !optional[t].Int?) || (r == 1 && !optional[t + s].Int?) then Nothing
    else Just(Header(fixed[0].v, fixed[1].v, fixed[2].v, fixed[3].v, fixed[4].v, fixed[5].v, fixed[6].v,
                     if t == 1 then Just(optional[0].chars) else Nothing,
                     if s == 1 then Just(optional[t].v) else Nothing,
                     if r == 1 then Just(optional[t + s].v) else Nothing))
  }

  lemma OptionsTellWhatIsThere(h: Header)
    ensures HasTopic(Options(h)) == h.topic.Just?
    ensures HasSendTime(Options(h)) == h.sendTime.Just?
    ensures HasReplyTime(Options(h)) == h.replyTime.Just?
  {}

  lemma OptionalKindsMatch(h: Header)
    ensures KindsOf(OptionalItems(h)) == OptionalKinds(Options(h))
  {
    OptionsTellWhatIsThere(h);
    KindsOfEach(OptionalItems(h));
  }

  lemma OptionalFieldsRestored(h: Header)
    ensures FromItems(FixedItems(h), Options(h), OptionalItems(h)) == Just(h)
  {
    OptionsTellWhatIsThere(h);
  }

  lemma FixedKindsMatch(h: Header)
    ensures KindsOf(FixedItems(h)) == FIXED_KINDS
  {
    KindsOfEach(FixedItems(h));
  }

  lemma HeaderParts(h: Header)
    requires ValidHeader(h)
    ensures ReadAll(EncodeHeader(h), 0, FIXED_KINDS) == Ok(FixedItems(h), |EncodeAll(FixedItems(h))|)
    ensures ReadAll(EncodeHeader(h), |EncodeAll(FixedItems(h))|, OptionalKinds(Options(h)))
            == Ok(OptionalItems(h), |EncodeHeader(h)|)
  {
    var bs, fixed, optional := EncodeHeader(h), FixedItems(h), OptionalItems(h);
    var pos := |EncodeAll(fixed)|;
    FixedKindsMatch(h);
    assert bs[0..pos] == EncodeAll(fixed);
    assert bs[pos..pos + |EncodeAll(optional)|] == EncodeAll(optional);
    SequenceRoundTrip(bs, 0, fixed);
    OptionalKindsMatch(h);
    SequenceRoundTrip(bs, pos, optional);
  }

  /** Decoding in terms of its two parts. */
  lemma DecodesTo(bs: Bytes, fixed: seq<Item>, pos: nat, optional: seq<Item>, end: nat)
    requires AllFixed(fixed) && pos <= |bs|
    requires ReadAll(bs, 0, FIXED_KINDS) == Ok(fixed, pos)
    requires ReadAll(bs, pos, OptionalKinds(fixed[7].v)) == Ok(optional, end)
    ensures DecodeHeader(bs) == FromItems(fixed, fixed[7].v, optional)
  {}

  lemma PartsDecode(bs: Bytes, h: Header, pos: nat, end: nat)
    requires pos <= |bs| && ReadAll(bs, 0, FIXED_KINDS) == Ok(FixedItems(h), pos)
    requires ReadAll(bs, pos, OptionalKinds(Options(h))) == Ok(OptionalItems(h), end)
    ensures DecodeHeader(bs) == Just(h)
  {
    OptionalFieldsRestored(h);
    DecodesTo(bs, FixedItems(h), pos, OptionalItems(h), end);
  }

  /** A valid head is decoded to itself. */
  lemma HeaderRoundTrip(h: Header)
    requires ValidHeader(h)
    ensures DecodeHeader(EncodeHeader(h)) == Just(h)
  {
    HeaderParts(h);
    PartsDecode(EncodeHeader(h), h, |EncodeAll(FixedItems(h))|, |EncodeHeader(h)|);
  }
}
