/** The length-prefixed setup codec: a big-endian `u32` length, then that many bytes. */
module Codec {
  import opened Basics

  const MAX_FRAME_SIZE: nat := 1_024 * 1_024
  const TWO32: nat := 0x1_0000_0000

  datatype Parsed<+T> = Parsed(item: T) | ReaderError | DeserializeError

  /** The flexbuffers serializer and deserializer for items of type T. */
  datatype Format<!T> = Format(serialize: T -> Option<seq<Byte>>, parse: seq<Byte> -> Parsed<T>)

  ghost predicate Inverse<T(!new)>(f: Format<T>) {
    forall x :: f.serialize(x).Some? ==> f.parse(f.serialize(x).value) == Parsed(x)
  }

  datatype DecodeError = FrameTooLarge(length: nat) | BadReader | BadItem

  datatype Decoded<+T> = NeedMore | Item(item: T) | Failed(error: DecodeError)

  /** The low `width` bytes of n, most significant first. */
  function BigEndian(n: nat, width: nat): (b: seq<Byte>)
    ensures |b| == width
    decreases width, n
  {
    if width == 0 then [] else BigEndian(n / 256, width - 1) + [n % 256]
  }

  function BigEndianValue(b: seq<Byte>): nat {
    if b == [] then 0
    else
      var last: int := b[|b| - 1];
      BigEndianValue(b[..|b| - 1]) * 256 + last
  }

  function Pow256(width: nat): (p: nat)
    ensures p > 0
  {
    if width == 0 then 1 else Pow256(width - 1) * 256
  }

  lemma {:induction false} BigEndianRoundTrip(n: nat, width: nat)
    requires n < Pow256(width)
    ensures BigEndianValue(BigEndian(n, width)) == n
    decreases width
  {
    if width > 0 {
      BigEndianRoundTrip(n / 256, width - 1);
      assert BigEndian(n, width)[..width - 1] == BigEndian(n / 256, width - 1);
    }
  }

  /** `put_u32`. */
  function U32Bytes(n: nat): (b: seq<Byte>)
    requires n < TWO32
    ensures |b| == 4
  {
    BigEndian(n, 4)
  }

  /** `u32::from_be_bytes`. */
  function U32Value(b: seq<Byte>): nat
    requires |b| == 4
  {
    BigEndianValue(b)
  }

  lemma U32RoundTrip(n: nat)
    requires n < TWO32
    ensures U32Value(U32Bytes(n)) == n
  {
    assert Pow256(2) == 0x1_0000;
    assert Pow256(4) == Pow256(2) * 256 * 256;
    BigEndianRoundTrip(n, 4);
  }

  /** `bytes::BytesMut`, restricted to the operations the codec uses. */
  class BytesMut {
    var bytes: seq<Byte>

    constructor ()
      ensures bytes == []
    {
      bytes := [];
    }

    method PutU32(n: nat)
      requires n < TWO32
      modifies this
      ensures bytes == old(bytes) + U32Bytes(n)
    {
      bytes := bytes + U32Bytes(n);
    }

    method PutSlice(s: seq<Byte>)
      modifies this
      ensures bytes == old(bytes) + s
    {
      bytes := bytes + s;
    }

    method Advance(n: nat)
      requires n <= |bytes|
      modifies this
      ensures bytes == old(bytes)[n..]
    {
      bytes := bytes[n..];
    }
  }

  // --- specification on byte sequences ---

  /** The frame of a serialized item. The length is cast to `u32`, so it wraps. */
  function Frame(payload: seq<Byte>): seq<Byte> {
    U32Bytes(|payload| % TWO32) + payload
  }

  /** One decode attempt: what it reports and what it leaves in the buffer. */
  function DecodeOne<T>(f: Format<T>, buf: seq<Byte>): (r: (Decoded<T>, seq<Byte>))
    ensures r.0.NeedMore? ==> r.1 == buf
    ensures r.0.Item? ==> |r.1| < |buf|
  {
    if |buf| < 4 then (NeedMore, buf)
    else
      var length := U32Value(buf[..4]);
      if length > MAX_FRAME_SIZE then (Failed(FrameTooLarge(length)), buf)
      else if |buf| < 4 + length then (NeedMore, buf)
      else
        var body := buf[4..];
        match f.parse(body[..length])
        case ReaderError => (Failed(BadReader), body)
        case DeserializeError => (Failed(BadItem), body)
        case Parsed(item) => (Item(item), body[length..])
  }

  /** The number the first four bytes of a buffer say, most significant byte first. */
  function Header(buf: seq<Byte>): nat
    requires |buf| >= 4
  {
    var a: int, b: int, c: int, d: int := buf[0], buf[1], buf[2], buf[3];
    a * 16_777_216 + b * 65_536 + c * 256 + d
  }

  lemma HeaderIsU32(buf: seq<Byte>)
    requires |buf| >= 4
    ensures U32Value(buf[..4]) == Header(buf)
  {
    var b := buf[..4];
    assert b[..3][..2] == b[..2] && b[..2][..1] == b[..1] && b[..1][..0] == [];
    assert BigEndianValue(b[..1]) == b[0];
    assert BigEndianValue(b[..2]) == BigEndianValue(b[..1]) * 256 + b[1];
    assert BigEndianValue(b[..3]) == BigEndianValue(b[..2]) * 256 + b[2];
  }

  /** The header announces more than 1 MiB. */
  predicate StartsOversized(buf: seq<Byte>) {
    |buf| >= 4 && Header(buf) > 1_048_576
  }

  /** The header, or part of the announced payload, has not arrived yet. */
  predicate StartsPartial(buf: seq<Byte>) {
    |buf| < 4 || (Header(buf) <= 1_048_576 && |buf| < 4 + Header(buf))
  }

  /** The payload of the first frame, when all of it is there. */
  function Payload(buf: seq<Byte>): seq<Byte>
    requires !StartsOversized(buf) && !StartsPartial(buf)
  {
    buf[4..4 + Header(buf)]
  }

  predicate StartsWithItem<T>(f: Format<T>, buf: seq<Byte>) {
    !StartsOversized(buf) && !StartsPartial(buf) && f.parse(Payload(buf)).Parsed?
  }

  /**
    What becomes of any buffer: an oversized header is an error at once, however few
    bytes follow it; a partial frame waits with the buffer unchanged; a whole frame is
    an item and leaves exactly what follows it, or an error that only drops the header.
  */
  lemma DecodeOutcome<T>(f: Format<T>, buf: seq<Byte>)
    ensures var (r, rest) := DecodeOne(f, buf);
            && (StartsOversized(buf) ==> r == Failed(FrameTooLarge(Header(buf))) && rest == buf)
            && (r.NeedMore? <==> StartsPartial(buf))
            && (r.NeedMore? ==> rest == buf)
            && (!StartsOversized(buf) && !StartsPartial(buf) ==>
                  match f.parse(Payload(buf))
                  case Parsed(item) => r == Item(item) && rest == buf[4 + Header(buf)..]
                  case ReaderError => r == Failed(BadReader) && rest == buf[4..]
                  case DeserializeError => r == Failed(BadItem) && rest == buf[4..])
  {
    if |buf| >= 4 {
      HeaderIsU32(buf);
      if !StartsOversized(buf) && !StartsPartial(buf) {
        assert buf[4..][..Header(buf)] == Payload(buf);
        assert buf[4..][Header(buf)..] == buf[4 + Header(buf)..];
      }
    }
  }

  // --- the codec ---

  method Encode<T>(f: Format<T>, item: T, dst: BytesMut) returns (ok: bool)
    modifies dst
    ensures ok <==> f.serialize(item).Some?
    ensures dst.bytes == old(dst.bytes) + Encoding(f, item)
  {
    var bytes := f.serialize(item);
    if bytes.None? {
      return false;
    }
    dst.PutU32(|bytes.value| % TWO32);
    dst.PutSlice(bytes.value);
    return true;
  }

  method Decode<T>(f: Format<T>, src: BytesMut) returns (r: Decoded<T>)
    modifies src
    ensures (r, src.bytes) == DecodeOne(f, old(src.bytes))
    ensures StartsOversized(old(src.bytes)) ==> r == Failed(FrameTooLarge(Header(old(src.bytes)))) && src.bytes == old(src.bytes)
    ensures r.NeedMore? <==> StartsPartial(old(src.bytes))
    ensures r.Item? <==> StartsWithItem(f, old(src.bytes))
  {
    DecodeOutcome(f, src.bytes);
    if |src.bytes| < 4 {
      return NeedMore;
    }
    var length := U32Value(src.bytes[..4]);
    if length > MAX_FRAME_SIZE {
      return Failed(FrameTooLarge(length));
    }
    if |src.bytes| < 4 + length {
      return NeedMore;
    }
    src.Advance(4);
    match f.parse(src.bytes[..length]) {
      case ReaderError =>
        return Failed(BadReader);
      case DeserializeError =>
        return Failed(BadItem);
      case Parsed(item) =>
        src.Advance(length);
        return Item(item);
    }
  }

  // --- decoding a stream ---

  /** What a reader has obtained from a stream: items, first error, unread bytes. */
  datatype Stream<T> = Stream(items: seq<T>, error: Option<DecodeError>, buffer: seq<Byte>)

  /** Decode until more bytes are needed or an error occurs. */
  function Drain<T>(f: Format<T>, buf: seq<Byte>): Stream<T>
    decreases |buf|
  {
    var (r, rest) := DecodeOne(f, buf);
    match r
    case NeedMore => Stream([], None, rest)
    case Failed(e) => Stream([], Some(e), rest)
    case Item(x) => var s := Drain(f, rest); s.(items := [x] + s.items)
  }

  /** Append one chunk and drain; after an error bytes only accumulate. */
  function Feed<T>(f: Format<T>, s: Stream<T>, chunk: seq<Byte>): Stream<T> {
    if s.error.Some? then s.(buffer := s.buffer + chunk)
    else
      var d := Drain(f, s.buffer + chunk);
      d.(items := s.items + d.items)
  }

  function FeedAll<T>(f: Format<T>, chunks: seq<seq<Byte>>): Stream<T> {
    if chunks == [] then Stream([], None, [])
    else Feed(f, FeedAll(f, chunks[..|chunks| - 1]), chunks[|chunks| - 1])
  }

  function Concat<T>(chunks: seq<seq<T>>): seq<T> {
    if chunks == [] then [] else Concat(chunks[..|chunks| - 1]) + chunks[|chunks| - 1]
  }

  /** A verdict reached on a buffer does not change when more bytes follow it. */
  lemma DecodeOneStable<T>(f: Format<T>, a: seq<Byte>, b: seq<Byte>)
    requires !DecodeOne(f, a).0.NeedMore?
    ensures DecodeOne(f, a + b) == (DecodeOne(f, a).0, DecodeOne(f, a).1 + b)
  {
    assert (a + b)[..4] == a[..4];
    var length := U32Value(a[..4]);
    if length <= MAX_FRAME_SIZE {
      var body := a[4..];
      assert (a + b)[4..] == body + b;
      assert (body + b)[..length] == body[..length];
      assert (body + b)[length..] == body[length..] + b;
    }
  }

  /** An item obtained earlier stays in front of what feeding adds. */
  lemma FeedPrepend<T>(f: Format<T>, item: T, tail: Stream<T>, chunk: seq<Byte>)
    ensures var s := Feed(f, tail, chunk);
            Feed(f, tail.(items := [item] + tail.items), chunk) == s.(items := [item] + s.items)
  {
    if tail.error.None? {
      var d := Drain(f, tail.buffer + chunk);
      assert [item] + (tail.items + d.items) == ([item] + tail.items) + d.items;
    }
  }

  /** Draining a prefix first and feeding the rest later is draining the whole. */
  lemma {:induction false} DrainSplit<T>(f: Format<T>, a: seq<Byte>, b: seq<Byte>)
    ensures Drain(f, a + b) == Feed(f, Drain(f, a), b)
    decreases |a|
  {
    var (r, rest) := DecodeOne(f, a);
    match r {
      case NeedMore =>
        assert [] + Drain(f, a + b).items == Drain(f, a + b).items;
      case Failed(_) =>
        DecodeOneStable(f, a, b);
      case Item(x) =>
        DecodeOneStable(f, a, b);
        DrainSplit(f, rest, b);
        FeedPrepend(f, x, Drain(f, rest), b);
    }
  }

  /** However the stream is cut into chunks, the reader ends in the same state. */
  lemma {:induction false} ChunkIndependence<T>(f: Format<T>, chunks: seq<seq<Byte>>)
    ensures FeedAll(f, chunks) == Drain(f, Concat(chunks))
  {
    if chunks != [] {
      var front, last := chunks[..|chunks| - 1], chunks[|chunks| - 1];
      ChunkIndependence(f, front);
      DrainSplit(f, Concat(front), last);
    }
  }

  // --- round trip ---

  ghost predicate Encodable<T>(f: Format<T>, items: seq<T>) {
    forall i :: 0 <= i < |items| ==>
      f.serialize(items[i]).Some? && |f.serialize(items[i]).value| <= MAX_FRAME_SIZE
  }

  /** What `Encode` appends for one item: nothing when it does not serialize. */
  function Encoding<T>(f: Format<T>, item: T): seq<Byte> {
    if f.serialize(item).Some? then Frame(f.serialize(item).value) else []
  }

  function EncodeAll<T>(f: Format<T>, items: seq<T>): seq<Byte> {
    if items == [] then [] else Encoding(f, items[0]) + EncodeAll(f, items[1..])
  }

  /** A frame whose header carries the length of its payload. */
  lemma HeaderedFrame<T>(f: Format<T>, header: seq<Byte>, payload: seq<Byte>, item: T, trailing: seq<Byte>)
    requires |header| == 4 && U32Value(header) == |payload| <= MAX_FRAME_SIZE
    requires f.parse(payload) == Parsed(item)
    ensures DecodeOne(f, header + (payload + trailing)) == (Item(item), trailing)
  {
  }

  /** A frame whose payload is larger than its header can say. */
  lemma HeaderedOversize<T>(f: Format<T>, header: seq<Byte>, payload: seq<Byte>, item: T, trailing: seq<Byte>)
    requires |header| == 4 && |payload| > MAX_FRAME_SIZE
    ensures DecodeOne(f, header + (payload + trailing)) != (Item(item), trailing)
  {
  }

  /**
    One encoded item decodes to itself and leaves exactly what follows, if and only
    if its serialized form is no larger than the limit, which the encoder ignores.
  */
  lemma FrameRoundTripIffFits<T(!new)>(f: Format<T>, item: T, trailing: seq<Byte>)
    requires Inverse(f) && f.serialize(item).Some?
    ensures DecodeOne(f, Encoding(f, item) + trailing) == (Item(item), trailing)
            <==> |f.serialize(item).value| <= MAX_FRAME_SIZE
  {
    var payload := f.serialize(item).value;
    var header := U32Bytes(|payload| % TWO32);
    assert Encoding(f, item) + trailing == header + (payload + trailing);
    if |payload| <= MAX_FRAME_SIZE {
      U32RoundTrip(|payload|);
      HeaderedFrame(f, header, payload, item, trailing);
    } else {
      HeaderedOversize(f, header, payload, item, trailing);
    }
  }

  lemma DrainItem<T>(f: Format<T>, buf: seq<Byte>, item: T, rest: seq<Byte>)
    requires DecodeOne(f, buf) == (Item(item), rest)
    ensures Drain(f, buf) == Drain(f, rest).(items := [item] + Drain(f, rest).items)
  {
  }

  lemma PrependItems<T>(items: seq<T>, t: Stream<T>, tail: Stream<T>, whole: Stream<T>)
    requires items != []
    requires tail == t.(items := items[1..] + t.items)
    requires whole == tail.(items := [items[0]] + tail.items)
    ensures whole == t.(items := items + t.items)
  {
  }

  lemma RoundTripHead<T(!new)>(f: Format<T>, items: seq<T>, trailing: seq<Byte>)
    requires Inverse(f) && Encodable(f, items) && items != []
    ensures var s := Drain(f, EncodeAll(f, items[1..]) + trailing);
            Drain(f, EncodeAll(f, items) + trailing) == s.(items := [items[0]] + s.items)
  {
    var rest := EncodeAll(f, items[1..]) + trailing;
    FrameRoundTripIffFits(f, items[0], rest);
    DrainItem(f, Encoding(f, items[0]) + rest, items[0], rest);
    assert EncodeAll(f, items) + trailing == Encoding(f, items[0]) + rest;
  }

  /**
    Any sequence of items that fit is decoded in order from its encoding; the
    trailing bytes are then treated exactly as if they were the whole stream.
  */
  lemma {:induction false} RoundTrip<T(!new)>(f: Format<T>, items: seq<T>, trailing: seq<Byte>)
    requires Inverse(f) && Encodable(f, items)
    ensures var t := Drain(f, trailing);
            Drain(f, EncodeAll(f, items) + trailing) == t.(items := items + t.items)
  {
    var t := Drain(f, trailing);
    if items == [] {
      assert EncodeAll(f, items) + trailing == trailing;
      assert items + t.items == t.items;
    } else {
      RoundTrip(f, items[1..], trailing);
      RoundTripHead(f, items, trailing);
      PrependItems(items, t, Drain(f, EncodeAll(f, items[1..]) + trailing),
                   Drain(f, EncodeAll(f, items) + trailing));
    }
  }

  /** Bytes that do not yet form a frame are left in the buffer untouched. */
  lemma RoundTripLeavesTrailing<T(!new)>(f: Format<T>, items: seq<T>, trailing: seq<Byte>)
    requires Inverse(f) && Encodable(f, items)
    requires DecodeOne(f, trailing).0.NeedMore?
    ensures Drain(f, EncodeAll(f, items) + trailing) == Stream(items, None, trailing)
  {
    RoundTrip(f, items, trailing);
    assert items + [] == items;
  }

  /**
    The reader of any stream, in any chunks: the good frames in front are its items, and
    what follows them decides how it ends. An oversized header stops it at once, a whole
    frame that does not parse stops it after the header, a partial frame leaves it waiting.
  */
  lemma StreamVerdict<T(!new)>(f: Format<T>, items: seq<T>, tail: seq<Byte>, chunks: seq<seq<Byte>>)
    requires Inverse(f) && Encodable(f, items)
    requires Concat(chunks) == EncodeAll(f, items) + tail && !StartsWithItem(f, tail)
    ensures FeedAll(f, chunks)
            == if StartsOversized(tail) then Stream(items, Some(FrameTooLarge(Header(tail))), tail)
               else if StartsPartial(tail) then Stream(items, None, tail)
               else Stream(items, Some(if f.parse(Payload(tail)).ReaderError? then BadReader else BadItem), tail[4..])
  {
    ChunkIndependence(f, chunks);
    RoundTrip(f, items, tail);
    DecodeOutcome(f, tail);
    assert items + [] == items;
  }

  lemma FrameHeader(n: nat, payload: seq<Byte>)
    requires n < TWO32
    ensures Header(U32Bytes(n) + payload) == n
  {
    var frame := U32Bytes(n) + payload;
    assert frame[..4] == U32Bytes(n);
    U32RoundTrip(n);
    HeaderIsU32(frame);
  }

  /**
    An item too large for a frame: its encoding carries the length modulo two to the 32,
    and the peer's decoder refuses it unless that remainder happens to be within the limit.
  */
  lemma OversizedItemRefusedIff<T>(f: Format<T>, item: T, trailing: seq<Byte>)
    requires f.serialize(item).Some? && |f.serialize(item).value| > MAX_FRAME_SIZE
    ensures var length := |f.serialize(item).value| % 4_294_967_296;
            DecodeOne(f, Encoding(f, item) + trailing).0 == Failed(FrameTooLarge(length)) <==> length > 1_048_576
  {
    var payload := f.serialize(item).value;
    assert Encoding(f, item) + trailing == U32Bytes(|payload| % TWO32) + (payload + trailing);
    FrameHeader(|payload| % TWO32, payload + trailing);
    DecodeOutcome(f, Encoding(f, item) + trailing);
  }
}
