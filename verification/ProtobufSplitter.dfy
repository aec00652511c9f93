/**
 Splitting a byte stream into length-delimited messages: `ProtobufSplitter` in app/bz_cli_proto/src/protobuf_util.rs.
 Lengths are base 128 varints of 64-bit numbers, as in the Protocol Buffers encoding, section "Base 128 Varints". Sums
 of lengths wrap around at 64 bits, as they do without overflow checks.
 */
module ProtobufSplitter {
  import opened Collections

  type Byte = b: int | 0 <= b < 256

  const TWO_TO_THE_64: nat := 0x1_0000_0000_0000_0000

  /** The canonical encoding: seven bits to a byte, least significant first, the top bit set on all but the last. */
  function Varint(n: nat): (r: seq<Byte>)
    ensures |r| > 0
  {
    if n < 128 then [n] else [n % 128 + 128] + Varint(n / 128)
  }

  /** One more than the largest number that still fits when `i` bytes have been read. */
  function Limit(i: nat): nat {
    if i == 0 then TWO_TO_THE_64 else Limit(i - 1) / 128
  }

  /** Reads a varint from the front, `i` bytes having been read: its value and width. At most ten bytes are read. */
  function ReadVarint(src: seq<Byte>, i: nat): (r: Option<(nat, nat)>)
    ensures r.Some? ==> 0 < r.value.1 <= |src|
    decreases |src|
  {
    if i >= 10 || src == [] then None
    else if src[0] < 128 then if i == 9 && src[0] >= 2 then None else Some((src[0], 1))
    else
      var rest := ReadVarint(src[1..], i + 1);
      if rest.None? then None else Some((src[0] - 128 + 128 * rest.value.0, rest.value.1 + 1))
  }

  lemma {:induction false} LimitOfNine()
    ensures Limit(9) == 2 && Limit(10) == 0
  {
    assert Limit(1) == 0x200_0000_0000_0000;
    assert Limit(2) == 0x4_0000_0000_0000;
    assert Limit(3) == 0x800_0000_0000;
    assert Limit(4) == 0x10_0000_0000;
    assert Limit(5) == 0x2000_0000;
    assert Limit(6) == 0x40_0000;
    assert Limit(7) == 0x8000;
    assert Limit(8) == 0x100;
  }

  lemma {:induction false} NoneBeyondTen(i: nat)
    requires i >= 10
    ensures Limit(i) == 0
  {
    LimitOfNine();
    if i > 10 { NoneBeyondTen(i - 1); }
  }

  lemma {:induction false} LimitBounds(n: nat, i: nat)
    requires n < Limit(i)
    ensures i < 10 && (i == 9 ==> n < 2) && (n >= 128 ==> n / 128 < Limit(i + 1))
  {
    LimitOfNine();
    if i >= 10 { NoneBeyondTen(i); }
  }

  /** A canonical varint is read back, whatever follows it, and is at most ten bytes wide. */
  lemma {:induction false} VarintRoundTrip(n: nat, i: nat, rest: seq<Byte>)
    requires n < Limit(i)
    ensures i < 10 && |Varint(n)| <= 10 - i && ReadVarint(Varint(n) + rest, i) == Some((n, |Varint(n)|))
    decreases n
  {
    hide Limit;
    LimitBounds(n, i);
    if n >= 128 {
      VarintRoundTrip(n / 128, i + 1, rest);
      assert (Varint(n) + rest)[1..] == Varint(n / 128) + rest;
    }
  }

  /** No proper prefix of a canonical varint reads as a varint. */
  lemma {:induction false} PartialVarint(n: nat, i: nat, k: nat)
    requires k < |Varint(n)|
    ensures ReadVarint(Varint(n)[..k], i) == None
    decreases n
  {
    if k > 0 {
      assert Varint(n)[..k][1..] == Varint(n / 128)[..k - 1];
      PartialVarint(n / 128, i + 1, k - 1);
    }
  }

  // ----- One call -----

  datatype Decoded = Frame(frame: seq<Byte>, rest: seq<Byte>) | NeedMore | Corrupted

  /** The length of a frame with its length in front, as computed: in 64 bits. */
  function Required(n: nat): (r: nat)
    ensures r < TWO_TO_THE_64
  {
    (|Varint(n)| + n) % TWO_TO_THE_64
  }

  function Decode(src: seq<Byte>): (r: Decoded)
    ensures r.Frame? ==> r.frame + r.rest == src
  {
    var length := ReadVarint(src, 0);
    if length.None? then if |src| > 10 then Corrupted else NeedMore
    else
      var required := Required(length.value.0);
      if |src| < required then NeedMore else Frame(src[..required], src[required..])
  }

  /** A message with its length in front. */
  function Delimited(message: seq<Byte>): (r: seq<Byte>)
    ensures |r| > 0
  {
    Varint(|message|) + message
  }

  /** The message and its length together are shorter than 2^64, like everything in memory. */
  ghost predicate Fits(message: seq<Byte>) {
    |Delimited(message)| < TWO_TO_THE_64
  }

  lemma {:induction false} FitsFacts(message: seq<Byte>)
    requires Fits(message)
    ensures |message| < Limit(0) && Required(|message|) == |Delimited(message)|
  {
    hide Varint;
  }

  /** A complete frame at the front is split off exactly. */
  lemma {:induction false} WholeFrame(message: seq<Byte>, rest: seq<Byte>)
    requires Fits(message)
    ensures Decode(Delimited(message) + rest) == Frame(Delimited(message), rest)
  {
    FitsFacts(message);
    VarintRoundTrip(|message|, 0, message + rest);
    assert Delimited(message) + rest == Varint(|message|) + (message + rest);
    hide ReadVarint, Varint, Required;
  }

  /** An incomplete frame asks for more and is never taken for corruption. */
  lemma {:induction false} PartialFrame(message: seq<Byte>, k: nat)
    requires Fits(message) && k < |Delimited(message)|
    ensures Decode(Delimited(message)[..k]) == NeedMore
  {
    var width := |Varint(|message|)|;
    FitsFacts(message);
    VarintRoundTrip(|message|, 0, message);
    if k < width {
      PartialVarint(|message|, 0, k);
      assert Delimited(message)[..k] == Varint(|message|)[..k];
    } else {
      VarintRoundTrip(|message|, 0, message[..k - width]);
      assert Delimited(message)[..k] == Varint(|message|) + message[..k - width];
    }
    hide ReadVarint, Varint, Required;
  }

  // ----- Non-canonical lengths -----

  /** The canonical encoding is the shortest, and the only one of its width. */
  lemma {:induction false} CanonicalIsShortest(src: seq<Byte>, i: nat)
    requires ReadVarint(src, i).Some?
    ensures var (n, width) := ReadVarint(src, i).value;
            |Varint(n)| <= width && (|Varint(n)| == width <==> src[..width] == Varint(n))
    decreases |src|
  {
    if src[0] >= 128 {
      CanonicalIsShortest(src[1..], i + 1);
      var (m, w) := ReadVarint(src[1..], i + 1).value;
      var n := src[0] - 128 + 128 * m;
      assert n / 128 == m && n % 128 == src[0] - 128;
      assert src[..w + 1] == [src[0]] + src[1..][..w];
      if m > 0 {
        assert Varint(n) == [src[0]] + Varint(m);
        assert Varint(n)[1..] == Varint(m);
      }
    }
  }

  /** Seven bits below the limit of the next byte stay below the limit of this one. */
  lemma {:induction false} LimitAbove(i: nat)
    requires i < 10
    ensures i < 9 ==> Limit(i) == 128 * Limit(i + 1) && Limit(i) >= 128
    ensures Limit(9) == 2 && Limit(10) == 0
  {
    LimitOfNine();
    assert Limit(0) == 0x1_0000_0000_0000_0000;
    assert Limit(1) == 0x200_0000_0000_0000;
    assert Limit(2) == 0x4_0000_0000_0000;
    assert Limit(3) == 0x800_0000_0000;
    assert Limit(4) == 0x10_0000_0000;
    assert Limit(5) == 0x2000_0000;
    assert Limit(6) == 0x40_0000;
    assert Limit(7) == 0x8000;
    assert Limit(8) == 0x100;
  }

  lemma {:induction false} ReadBelowLimit(src: seq<Byte>, i: nat)
    requires ReadVarint(src, i).Some?
    ensures ReadVarint(src, i).value.0 < Limit(i)
    decreases |src|
  {
    hide Limit;
    if src[0] >= 128 {
      ReadBelowLimit(src[1..], i + 1);
    }
    LimitAbove(i);
  }

  lemma {:induction false} LimitOfZero()
    ensures Limit(0) == TWO_TO_THE_64
  {
  }

  lemma {:induction false} WrapOnce(width: nat, n: nat)
    requires width <= 10 && n < TWO_TO_THE_64
    ensures (width + n) % TWO_TO_THE_64 == if width + n < TWO_TO_THE_64 then width + n else width + n - TWO_TO_THE_64
  {
  }

  lemma {:induction false} WrapsAtMostOnce(src: seq<Byte>)
    requires ReadVarint(src, 0).Some?
    ensures var n := ReadVarint(src, 0).value.0;
            && n < TWO_TO_THE_64 && |Varint(n)| <= 10
            && Required(n) == if |Varint(n)| + n < TWO_TO_THE_64 then |Varint(n)| + n
              else |Varint(n)| + n - TWO_TO_THE_64
  {
    hide ReadVarint, Varint, Limit;
    var n := ReadVarint(src, 0).value.0;
    LimitOfZero();
    ReadBelowLimit(src, 0);
    VarintRoundTrip(n, 0, []);
    WrapOnce(|Varint(n)|, n);
  }

  /** A frame ends where its message ends exactly if its length was written canonically and the sum did not wrap. */
  lemma {:induction false} FrameIsWholeIff(src: seq<Byte>)
    requires Decode(src).Frame?
    ensures var (n, width) := ReadVarint(src, 0).value;
            |Decode(src).frame| == width + n <==> src[..width] == Varint(n) && width + n < TWO_TO_THE_64
  {
    CanonicalIsShortest(src, 0);
    WrapsAtMostOnce(src);
    hide ReadVarint, Varint;
  }

  lemma {:induction false} WidthAtLeast(n: nat, i: nat)
    requires i <= 9 && n >= Limit(9 - i) / 2
    ensures |Varint(n)| > i
    decreases i
  {
    if i > 0 {
      LimitAbove(9 - i);
      hide Limit;
      WidthAtLeast(n / 128, i - 1);
    }
  }

  /** The sum wraps for the ten greatest lengths and no others. */
  lemma {:induction false} WrapsIff(n: nat)
    requires n < TWO_TO_THE_64
    ensures |Varint(n)| + n < TWO_TO_THE_64 <==> n < TWO_TO_THE_64 - 10
    ensures n >= TWO_TO_THE_64 - 10 ==> |Varint(n)| == 10 && Required(n) == n - (TWO_TO_THE_64 - 10)
  {
    VarintRoundTrip(n, 0, []);
    if n >= TWO_TO_THE_64 - 10 {
      assert Limit(0) == TWO_TO_THE_64;
      WidthAtLeast(n, 9);
    }
    hide Varint;
  }

  /** Canonical lengths that wrap: the splitter returns fewer than ten bytes, all of them part of the length. */
  lemma {:induction false} WrappedIsCut(n: nat, rest: seq<Byte>)
    requires TWO_TO_THE_64 - 10 <= n < TWO_TO_THE_64
    ensures var src, k := Varint(n) + rest, n - (TWO_TO_THE_64 - 10);
            k < 10 == |Varint(n)| && Decode(src) == Frame(src[..k], src[k..])
  {
    WrapsIff(n);
    VarintRoundTrip(n, 0, rest);
    hide ReadVarint, Varint;
  }

  /** The length 2^64 - 10: an empty frame is returned and nothing is taken off, so no call gets any further. */
  lemma {:induction false} WrappedIsStuck(rest: seq<Byte>)
    ensures var src := Varint(TWO_TO_THE_64 - 10) + rest;
            Decode(src) == Frame([], src)
  {
    WrappedIsCut(TWO_TO_THE_64 - 10, rest);
    var src := Varint(TWO_TO_THE_64 - 10) + rest;
    assert src[..0] == [] && src[0..] == src;
  }

  /** An empty frame is returned exactly for the length 2^64 - 10. */
  lemma {:induction false} EmptyFrameIff(src: seq<Byte>)
    requires Decode(src).Frame?
    ensures Decode(src).frame == [] <==> ReadVarint(src, 0).value.0 == TWO_TO_THE_64 - 10
  {
    WrapsAtMostOnce(src);
    WrapsIff(ReadVarint(src, 0).value.0);
    hide ReadVarint, Varint;
  }

  /** The length zero written in two bytes: the splitter returns half of the length as a frame. */
  lemma {:induction false} NonCanonicalIsCut()
    ensures Decode([128, 0]) == Frame([128], [0])
  {
    var src: seq<Byte> := [128, 0];
    assert src[1..] == [0];
    assert ReadVarint(src[1..], 1) == Some((0, 1));
    assert ReadVarint(src, 0) == Some((0, 2));
    assert src[..1] == [128];
  }

  // ----- Streams -----

  /** The bytes of a list of messages. */
  function Stream(messages: seq<seq<Byte>>): seq<Byte> {
    if messages == [] then [] else Delimited(messages[0]) + Stream(messages[1..])
  }

  function Frames(messages: seq<seq<Byte>>): (r: seq<seq<Byte>>)
    ensures |r| == |messages| && forall i :: 0 <= i < |r| ==> r[i] == Delimited(messages[i])
  {
    seq(|messages|, i requires 0 <= i < |messages| => Delimited(messages[i]))
  }

  function Joined(chunks: seq<seq<Byte>>): seq<Byte> {
    if chunks == [] then [] else Joined(chunks[..|chunks| - 1]) + chunks[|chunks| - 1]
  }

  lemma {:induction false} StreamSplit(messages: seq<seq<Byte>>, m: nat)
    requires m <= |messages|
    ensures Stream(messages) == Stream(messages[..m]) + Stream(messages[m..])
  {
    if m == 0 {
      assert messages[0..] == messages && messages[..0] == [];
    } else {
      StreamSplit(messages[1..], m - 1);
      assert messages[..m][1..] == messages[1..][..m - 1] && messages[1..][m - 1..] == messages[m..];
      var a, b, c := Delimited(messages[0]), Stream(messages[1..][..m - 1]), Stream(messages[m..]);
      assert a + (b + c) == a + b + c;
    }
  }

  ghost predicate AllFit(messages: seq<seq<Byte>>) {
    forall i :: 0 <= i < |messages| ==> Fits(messages[i])
  }

  /** With the buffer at a frame boundary of the stream, a call returns the next frame, or asks for more of it. */
  lemma {:induction false} NextFrame(messages: seq<seq<Byte>>, m: nat, buffer: seq<Byte>)
    requires m <= |messages| && AllFit(messages) && buffer <= Stream(messages[m..])
    ensures match Decode(buffer)
            case Frame(frame, rest) => m < |messages| && frame == Delimited(messages[m])
                && rest <= Stream(messages[m + 1..])
            case NeedMore => if m < |messages| then |buffer| < |Delimited(messages[m])| else buffer == []
            case Corrupted => false
  {
    if m < |messages| {
      var first, later := Delimited(messages[m]), Stream(messages[m + 1..]);
      assert messages[m..][1..] == messages[m + 1..];
      assert Stream(messages[m..]) == first + later;
      hide Decode, Stream, Delimited, Fits;
      if |buffer| < |first| {
        assert buffer == first[..|buffer|];
        PartialFrame(messages[m], |buffer|);
      } else {
        var rest := buffer[|first|..];
        assert buffer == first + rest;
        WholeFrame(messages[m], rest);
      }
    }
  }

  /** The frames of the first messages have been taken off the input, and the rest starts at the next one. */
  ghost predicate Split(messages: seq<seq<Byte>>, input: seq<Byte>, frames: seq<seq<Byte>>, rest: seq<Byte>) {
    var m := |frames|;
    && m <= |messages| && frames == Frames(messages[..m])
    && Stream(messages[..m]) + rest == input && rest <= Stream(messages[m..])
  }

  /** What is left is not a whole frame. */
  ghost predicate Exhausted(messages: seq<seq<Byte>>, frames: seq<seq<Byte>>, rest: seq<Byte>) {
    |frames| <= |messages| && if |frames| < |messages| then |rest| < |Delimited(messages[|frames|])| else rest == []
  }

  lemma {:induction false} StreamSnoc(messages: seq<seq<Byte>>, m: nat)
    requires m < |messages|
    ensures Stream(messages[..m + 1]) == Stream(messages[..m]) + Delimited(messages[m])
  {
    StreamSplit(messages[..m + 1], m);
    assert messages[..m + 1][..m] == messages[..m] && messages[..m + 1][m..] == [messages[m]];
    assert Stream([messages[m]]) == Delimited(messages[m]) + [];
  }

  lemma {:induction false} SplitNext(messages: seq<seq<Byte>>, input: seq<Byte>, frames: seq<seq<Byte>>,
                                     buffer: seq<Byte>)
    requires AllFit(messages) && Split(messages, input, frames, buffer)
    ensures match Decode(buffer)
            case Frame(frame, rest) => Split(messages, input, frames + [frame], rest) && |rest| < |buffer|
            case NeedMore => Exhausted(messages, frames, buffer)
            case Corrupted => false
  {
    hide Decode, Stream, Delimited, AllFit;
    var m := |frames|;
    NextFrame(messages, m, buffer);
    if Decode(buffer).Frame? {
      var frame, rest := Decode(buffer).frame, Decode(buffer).rest;
      StreamSnoc(messages, m);
      assert Stream(messages[..m]) + (frame + rest) == Stream(messages[..m]) + frame + rest;
      assert Frames(messages[..m + 1]) == frames + [frame];
    }
  }

  class Buffer {
    var bytes: seq<Byte>

    constructor ()
      ensures bytes == []
    {
      bytes := [];
    }

    /** `decode`: takes one frame off the front if it is complete; `None` reports corruption. */
    method TakeFrame() returns (r: Option<Option<seq<Byte>>>)
      modifies this
      ensures match Decode(old(bytes))
              case Frame(frame, rest) => r == Some(Some(frame)) && bytes == rest
              case NeedMore => r == Some(None) && bytes == old(bytes)
              case Corrupted => r == None && bytes == old(bytes)
    {
      var length := ReadVarint(bytes, 0);
      if length.None? {
        return if |bytes| > 10 then None else Some(None);
      }
      var required := Required(length.value.0);
      if |bytes| < required {
        return Some(None);
      }
      r := Some(Some(bytes[..required]));
      bytes := bytes[required..];
    }

    /** Takes frames until the buffer holds no complete one. */
    method TakeFrames(soFar: seq<seq<Byte>>, ghost messages: seq<seq<Byte>>, ghost input: seq<Byte>)
      returns (frames: seq<seq<Byte>>, ok: bool)
      requires AllFit(messages) && Split(messages, input, soFar, bytes)
      modifies this
      ensures ok && Split(messages, input, frames, bytes) && Exhausted(messages, frames, bytes)
    {
      hide Decode, AllFit, Split, Exhausted;
      frames := soFar;
      while true
        invariant Split(messages, input, frames, bytes)
        decreases |bytes|
      {
        SplitNext(messages, input, frames, bytes);
        var next := TakeFrame();
        if next.None? {
          return frames, false;
        }
        if next.value.None? {
          return frames, true;
        }
        frames := frames + [next.value.value];
      }
    }
  }

  lemma {:induction false} SplitMore(messages: seq<seq<Byte>>, input: seq<Byte>, frames: seq<seq<Byte>>,
                                     rest: seq<Byte>, chunk: seq<Byte>)
    requires Split(messages, input, frames, rest) && input + chunk <= Stream(messages)
    ensures Split(messages, input + chunk, frames, rest + chunk)
  {
    hide Stream;
    var m := |frames|;
    StreamSplit(messages, m);
    var taken, left := Stream(messages[..m]), Stream(messages[m..]);
    assert taken + (rest + chunk) == input + chunk;
    assert rest + chunk == (taken + left)[|taken|..|taken| + |rest + chunk|];
  }

  lemma {:induction false} JoinedSnoc(chunks: seq<seq<Byte>>, i: nat)
    requires i < |chunks|
    ensures Joined(chunks[..i + 1]) == Joined(chunks[..i]) + chunks[i]
  {
    assert chunks[..i + 1][..i] == chunks[..i];
  }

  lemma {:induction false} JoinedPrefix(chunks: seq<seq<Byte>>, i: nat)
    requires i <= |chunks|
    ensures Joined(chunks[..i]) <= Joined(chunks)
    decreases |chunks| - i
  {
    if i == |chunks| {
      assert chunks[..i] == chunks;
    } else {
      JoinedSnoc(chunks, i);
      JoinedPrefix(chunks, i + 1);
    }
  }

  /**
   However the bytes of a stream of messages are cut into chunks, and wherever they stop, the frames of all complete
   messages come out in order, no byte is lost, and corruption is never reported.
   */
  method Feed(chunks: seq<seq<Byte>>, ghost messages: seq<seq<Byte>>)
    returns (frames: seq<seq<Byte>>, rest: seq<Byte>, ok: bool)
    requires AllFit(messages) && Joined(chunks) <= Stream(messages)
    ensures ok && |frames| <= |messages| && frames == Frames(messages[..|frames|])
    ensures Stream(messages[..|frames|]) + rest == Joined(chunks)
    ensures if |frames| < |messages| then |rest| < |Delimited(messages[|frames|])| else rest == []
  {
    var buffer := new Buffer();
    frames, ok := [], true;
    assert messages[..0] == [] && chunks[..0] == [] && Split(messages, [], [], []);
    if messages != [] { assert |Delimited(messages[0])| > 0; }
    assert Exhausted(messages, [], []);
    for i := 0 to |chunks|
      invariant fresh(buffer) && ok
      invariant Split(messages, Joined(chunks[..i]), frames, buffer.bytes) && Exhausted(messages, frames, buffer.bytes)
    {
      JoinedSnoc(chunks, i);
      JoinedPrefix(chunks, i + 1);
      SplitMore(messages, Joined(chunks[..i]), frames, buffer.bytes, chunks[i]);
      hide Split, Exhausted, AllFit, Joined, Stream;
      buffer.bytes := buffer.bytes + chunks[i];
      frames, ok := buffer.TakeFrames(frames, messages, Joined(chunks[..i + 1]));
    }
    assert chunks[..|chunks|] == chunks;
    rest := buffer.bytes;
  }
}
