/** The simple wire format (fdbus/CFdbSimpleSerializer.cpp): little-endian
    integers, length-prefixed strings and raw blocks, as values. */
module Codec {

  type byte = b: int | 0 <= b < 256
  type Bytes = seq<byte>

  // ------------------------------------------------------------------
  // Integers.

  function Pow256(n: nat): (p: nat)
    ensures p > 0
  {
    if n == 0 then 1 else 256 * Pow256(n - 1)
  }

  /** `n` bytes of `v`, least significant first. */
  function LittleEndian(v: nat, n: nat): (bs: Bytes)
    ensures |bs| == n
  {
    if n == 0 then [] else [v % 256] + LittleEndian(v / 256, n - 1)
  }

  function FromLittleEndian(bs: Bytes): nat {
    if bs == [] then 0 else bs[0] + 256 * FromLittleEndian(bs[1..])
  }

  function Reverse(bs: Bytes): (r: Bytes)
    ensures |r| == |bs|
    ensures forall i | 0 <= i < |bs| :: r[i] == bs[|bs| - 1 - i]
  {
    if bs == [] then [] else Reverse(bs[1..]) + [bs[0]]
  }

  lemma ReverseTwice(bs: Bytes)
    ensures Reverse(Reverse(bs)) == bs
  {}

  /** How a host keeps an integer in memory. */
  function InMemory(v: nat, n: nat, little: bool): (bs: Bytes)
    ensures |bs| == n
  {
    if little then LittleEndian(v, n) else Reverse(LittleEndian(v, n))
  }

  lemma {:induction false} LittleEndianRoundTrip(v: nat, n: nat)
    requires v < Pow256(n)
    ensures FromLittleEndian(LittleEndian(v, n)) == v
  {
    if n > 0 {
      LittleEndianRoundTrip(v / 256, n - 1);
    }
  }

  lemma {:induction false} FromLittleEndianRange(bs: Bytes)
    ensures FromLittleEndian(bs) < Pow256(|bs|)
  {
    if bs != [] {
      FromLittleEndianRange(bs[1..]);
    }
  }

  // ------------------------------------------------------------------
  // Items.

  datatype Item =
    | Int(width: nat, signed: bool, v: int)
    | Str(chars: Bytes)
    | Raw(block: Bytes)

  /** What a reader has to know about an item. */
  datatype Kind =
    | IntKind(width: nat, signed: bool)
    | StrKind
    | RawKind(size: nat)

  function KindOf(item: Item): Kind {
    match item
    case Int(width, signed, _) => IntKind(width, signed)
    case Str(_) => StrKind
    case Raw(block) => RawKind(|block|)
  }

  predicate IntInRange(width: nat, signed: bool, v: int) {
    if signed then 2 * v + Pow256(width) >= 0 && 2 * v < Pow256(width) else 0 <= v < Pow256(width)
  }

  /** Two's complement bit pattern.  Values that do not fit do not occur. */
  function Pattern(width: nat, v: int): (p: nat)
    ensures p < Pow256(width)
  {
    if 0 <= v < Pow256(width) then v
    else if v < 0 <= v + Pow256(width) then v + Pow256(width)
    else 0
  }

  function FromPattern(width: nat, signed: bool, p: nat): int {
    if signed && 2 * p >= Pow256(width) then p - Pow256(width) else p
  }

  predicate NulFree(s: Bytes) {
    forall i | 0 <= i < |s| :: s[i] != 0
  }

  /** Items that the format is made for. */
  predicate Encodable(item: Item) {
    match item
    case Int(width, signed, v) => IntInRange(width, signed, v)
    case Str(chars) => NulFree(chars) && |chars| < 0xFFFF
    case Raw(_) => true
  }

  /** The 16-bit length field of a string: its length and the terminator, with
      both conversions to 16 bits wrapping around. */
  function StringLength(n: nat): (l: nat)
    ensures l <= n + 1 && l < 0x1_0000
  {
    (n % 0x1_0000 + 1) % 0x1_0000
  }

  function Encode(item: Item): Bytes {
    match item
    case Int(width, _, v) => LittleEndian(Pattern(width, v), width)
    case Str(chars) => LittleEndian(StringLength(|chars|), 2) + (chars + [0])[..StringLength(|chars|)]
    case Raw(block) => block
  }

  function EncodeAll(items: seq<Item>): Bytes {
    if items == [] then [] else Encode(items[0]) + EncodeAll(items[1..])
  }

  // ------------------------------------------------------------------
  // Reading.

  datatype Result<+T> = Ok(value: T, pos: nat) | Error

  /** The bytes before the first NUL. */
  function UpToNul(s: Bytes): (r: Bytes)
    ensures NulFree(r) && |r| <= |s| && r == s[..|r|]
    ensures |r| < |s| ==> s[|r|] == 0
  {
    if s == [] || s[0] == 0 then [] else [s[0]] + UpToNul(s[1..])
  }

  function ReadInt(buf: Bytes, pos: nat, width: nat, signed: bool): Result<int>
    requires pos <= |buf|
  {
    if pos + width > |buf| then Error
    else Ok(FromPattern(width, signed, FromLittleEndian(buf[pos..pos + width])), pos + width)
  }

  function ReadStr(buf: Bytes, pos: nat): Result<Bytes>
    requires pos <= |buf|
  {
    match ReadInt(buf, pos, 2, false)
    case Error => Error
    case Ok(len, start) => ReadChars(buf, start, len)
  }

  /** The characters behind a length field. */
  function ReadChars(buf: Bytes, start: nat, len: int): Result<Bytes> {
    if len == 0 then Ok([], start)
    else if len < 0 || start + len > |buf| then Error
    else
      var chars := buf[start..start + len];
      if chars[len - 1] != 0 then Error else Ok(UpToNul(chars), start + len)
  }

  function ReadRaw(buf: Bytes, pos: nat, size: nat): Result<Bytes>
    requires pos <= |buf|
  {
    if pos + size > |buf| then Error else Ok(buf[pos..pos + size], pos + size)
  }

  function Read(buf: Bytes, pos: nat, kind: Kind): (r: Result<Item>)
    requires pos <= |buf|
    ensures r.Ok? ==> pos <= r.pos <= |buf|
  {
    match kind
    case IntKind(width, signed) =>
      var r := ReadInt(buf, pos, width, signed);
      if r.Ok? then Ok(Int(width, signed, r.value), r.pos) else Error
    case StrKind =>
      var r := ReadStr(buf, pos);
      if r.Ok? then Ok(Str(r.value), r.pos) else Error
    case RawKind(size) =>
      var r := ReadRaw(buf, pos, size);
      if r.Ok? then Ok(Raw(r.value), r.pos) else Error
  }

  function ReadAll(buf: Bytes, pos: nat, kinds: seq<Kind>): Result<seq<Item>>
    requires pos <= |buf|
    decreases |kinds|
  {
    if kinds == [] then Ok([], pos)
    else
      match Read(buf, pos, kinds[0])
      case Error => Error
      case Ok(item, next) =>
        match ReadAll(buf, next, kinds[1..])
        case Error => Error
        case Ok(items, last) => Ok([item] + items, last)
  }

  function KindsOf(items: seq<Item>): (kinds: seq<Kind>)
    ensures |kinds| == |items|
  {
    if items == [] then [] else [KindOf(items[0])] + KindsOf(items[1..])
  }

  lemma {:induction false} KindsOfEach(items: seq<Item>)
    ensures forall i | 0 <= i < |items| :: KindsOf(items)[i] == KindOf(items[i])
  {
    if items != [] {
      KindsOfEach(items[1..]);
    }
  }

  // ------------------------------------------------------------------
  // Round trips.

  lemma IntRoundTrip(buf: Bytes, pos: nat, width: nat, signed: bool, v: int)
    requires IntInRange(width, signed, v)
    requires pos + width <= |buf| && buf[pos..pos + width] == LittleEndian(Pattern(width, v), width)
    ensures ReadInt(buf, pos, width, signed) == Ok(v, pos + width)
  {
    LittleEndianRoundTrip(Pattern(width, v), width);
  }

  lemma {:induction false} UpToNulOfTerminated(s: Bytes)
    requires NulFree(s)
    ensures UpToNul(s + [0]) == s
  {
    if s != [] {
      assert (s + [0])[1..] == s[1..] + [0];
      UpToNulOfTerminated(s[1..]);
    }
  }

  /** The first two bytes of an encoded string give its length field back. */
  lemma LengthFieldRoundTrip(buf: Bytes, pos: nat, l: nat)
    requires l < 0x1_0000 && pos + 2 <= |buf| && buf[pos..pos + 2] == LittleEndian(l, 2)
    ensures ReadInt(buf, pos, 2, false) == Ok(l, pos + 2)
  {
    assert Pow256(2) == 0x1_0000 by { assert Pow256(1) == 256 * Pow256(0); }
    LittleEndianRoundTrip(l, 2);
  }

  /** An encoded item is at `pos` in `buf`. */
  ghost predicate At(buf: Bytes, pos: nat, bs: Bytes) {
    pos + |bs| <= |buf| && buf[pos..pos + |bs|] == bs
  }

  lemma StringAt(buf: Bytes, pos: nat, chars: Bytes)
    requires At(buf, pos, Encode(Str(chars)))
    ensures var l := StringLength(|chars|);
            pos + 2 + l <= |buf| && buf[pos + 2..pos + 2 + l] == (chars + [0])[..l] && ReadInt(buf, pos, 2, false) == Ok(l, pos + 2)
  {
    var l := StringLength(|chars|);
    var bs := Encode(Str(chars));
    assert buf[pos..pos + 2] == bs[..2];
    assert buf[pos + 2..pos + 2 + l] == bs[2..];
    LengthFieldRoundTrip(buf, pos, l);
  }

  lemma ShortStringRead(buf: Bytes, pos: nat, chars: Bytes)
    requires At(buf, pos, Encode(Str(chars))) && |chars| < 0xFFFF
    ensures ReadStr(buf, pos) == Ok(UpToNul(chars + [0]), pos + |Encode(Str(chars))|)
  {
    var t := chars + [0];
    StringAt(buf, pos, chars);
    assert StringLength(|chars|) == |t|;
    assert t[..|t|] == t;
    assert ReadStr(buf, pos) == ReadChars(buf, pos + 2, |t|);
  }

  /** A longer string is never read in full. */
  lemma LongStringRead(buf: Bytes, pos: nat, chars: Bytes)
    requires At(buf, pos, Encode(Str(chars))) && |chars| >= 0xFFFF
    ensures forall next :: ReadStr(buf, pos) != Ok(chars, next)
  {
    var l := StringLength(|chars|);
    StringAt(buf, pos, chars);
    assert l < 0x1_0000 && l <= |chars|;
    match ReadStr(buf, pos)
    case Error =>
    case Ok(s, _) => StringIsCut(buf, pos, l, s, chars);
  }

  /** What is read is shorter than the length field, which counts the terminator. */
  lemma StringIsCut(buf: Bytes, pos: nat, l: nat, s: Bytes, chars: Bytes)
    requires pos + 2 + l <= |buf| && ReadInt(buf, pos, 2, false) == Ok(l, pos + 2) && l <= |chars| && |chars| > 0
    requires ReadStr(buf, pos).Ok? && ReadStr(buf, pos).value == s
    ensures |s| < |chars|
  {
    assert ReadStr(buf, pos) == ReadChars(buf, pos + 2, l);
    if l > 0 {
      var t := buf[pos + 2..pos + 2 + l];
      assert t[l - 1] == 0 && s == UpToNul(t);
      assert !NulFree(t) && t[..|t|] == t;
    }
  }

  /** A string comes back exactly when it has no NUL and at most 65534 bytes. */
  lemma StringRoundTripIff(buf: Bytes, pos: nat, chars: Bytes)
    requires At(buf, pos, Encode(Str(chars)))
    ensures (exists next :: ReadStr(buf, pos) == Ok(chars, next)) <==> NulFree(chars) && |chars| < 0xFFFF
    ensures NulFree(chars) && |chars| < 0xFFFF ==> ReadStr(buf, pos) == Ok(chars, pos + |Encode(Str(chars))|)
  {
    if |chars| < 0xFFFF {
      ShortStringRead(buf, pos, chars);
      if NulFree(chars) {
        UpToNulOfTerminated(chars);
      }
    } else {
      LongStringRead(buf, pos, chars);
    }
  }

  /** A string of 65535 letters is written with length zero and read back empty. */
  lemma LongStringIsLost()
    ensures var chars: Bytes := seq(0xFFFF, _ => 97);
            NulFree(chars) && ReadStr(Encode(Str(chars)), 0) == Ok([], 2)
  {
    var chars: Bytes := seq(0xFFFF, _ => 97);
    StringAt(Encode(Str(chars)), 0, chars);
  }

  lemma ItemRoundTrip(buf: Bytes, pos: nat, item: Item)
    requires Encodable(item) && At(buf, pos, Encode(item))
    ensures Read(buf, pos, KindOf(item)) == Ok(item, pos + |Encode(item)|)
  {
    match item
    case Int(width, signed, v) => IntRoundTrip(buf, pos, width, signed, v);
    case Str(chars) => StringRoundTripIff(buf, pos, chars);
    case Raw(_) =>
  }

  lemma FrontAt(buf: Bytes, pos: nat, all: Bytes, first: Bytes, rest: Bytes)
    requires all == first + rest && At(buf, pos, all)
    ensures At(buf, pos, first)
  {
    assert buf[pos..pos + |first|] == all[..|first|];
  }

  lemma BackAt(buf: Bytes, pos: nat, all: Bytes, first: Bytes, rest: Bytes)
    requires all == first + rest && At(buf, pos, all)
    ensures At(buf, pos + |first|, rest)
  {
    assert buf[pos + |first|..pos + |first| + |rest|] == all[|first|..];
  }

  /** Reading the first item and then the others. */
  lemma ReadOneMore(buf: Bytes, pos: nat, items: seq<Item>, next: nat, last: nat)
    requires items != [] && pos <= |buf| && next <= |buf|
    requires Read(buf, pos, KindOf(items[0])) == Ok(items[0], next)
    requires ReadAll(buf, next, KindsOf(items[1..])) == Ok(items[1..], last)
    ensures ReadAll(buf, pos, KindsOf(items)) == Ok(items, last)
  {
    var kinds := KindsOf(items);
    assert kinds[0] == KindOf(items[0]) && kinds[1..] == KindsOf(items[1..]);
    assert [items[0]] + items[1..] == items;
  }

  lemma RestAt(buf: Bytes, pos: nat, items: seq<Item>, first: Bytes, rest: Bytes)
    requires items != [] && first == Encode(items[0]) && rest == EncodeAll(items[1..])
    requires At(buf, pos, EncodeAll(items))
    ensures At(buf, pos + |first|, rest) && |EncodeAll(items)| == |first| + |rest|
  {
    BackAt(buf, pos, EncodeAll(items), first, rest);
  }

  lemma FirstRead(buf: Bytes, pos: nat, items: seq<Item>, next: nat)
    requires items != [] && Encodable(items[0]) && At(buf, pos, EncodeAll(items)) && next == pos + |Encode(items[0])|
    ensures Read(buf, pos, KindOf(items[0])) == Ok(items[0], next)
  {
    FrontAt(buf, pos, EncodeAll(items), Encode(items[0]), EncodeAll(items[1..]));
    ItemRoundTrip(buf, pos, items[0]);
  }

  /** Any sequence of encodable items is read back as itself, wherever it is in
      the buffer and whatever follows. */
  lemma {:induction false} SequenceRoundTrip(buf: Bytes, pos: nat, items: seq<Item>)
    requires forall i | 0 <= i < |items| :: Encodable(items[i])
    requires At(buf, pos, EncodeAll(items))
    ensures ReadAll(buf, pos, KindsOf(items)) == Ok(items, pos + |EncodeAll(items)|)
    decreases |items|
  {
    if items != [] {
      var next, last := pos + |Encode(items[0])|, pos + |EncodeAll(items)|;
      FirstRead(buf, pos, items, next);
      RestAt(buf, pos, items, Encode(items[0]), EncodeAll(items[1..]));
      SequenceRoundTrip(buf, next, items[1..]);
      ReadOneMore(buf, pos, items, next, last);
    }
  }
}
