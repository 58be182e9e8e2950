/** Protocol-84 Batch framing: length-prefixed packets, compressed as one stream, under limits on
    every size. zlib (RFC 1950) is any compressor with a decompressor that undoes it. */
module Batch {
  import opened Options

  type byte = n: nat | n < 256
  type Bytes = seq<byte>

  const U32_MAX: nat := 0xffff_ffff

  datatype RawPacket = RawPacket(id: byte, body: Bytes)

  datatype Limits = Limits(compressed: nat, decompressed: nat, innerPacket: nat, innerCount: nat)

  datatype Error =
    | UnexpectedEof | TrailingBytes | EmptyPacket | CompressionFailed | LengthOutOfRange
    | CompressedLimit | DecompressedLimit | InnerPacketLimit | InnerCountLimit

  datatype Result<T> = Ok(value: T) | Err(error: Error)

  /** What a decompressor yields before the stream ends or proves malformed. */
  datatype Stream = Stream(output: Bytes, whole: bool)

  datatype Zlib = Zlib(deflate: Bytes -> Bytes, inflate: Bytes -> Stream)

  ghost predicate Inverse(z: Zlib) {
    forall b :: z.inflate(z.deflate(b)) == Stream(b, true)
  }

  // ----- lengths

  function U32(n: nat): (b: Bytes)
    requires n <= U32_MAX
    ensures |b| == 4
  {
    [n / 0x100_0000, n / 0x1_0000 % 256, n / 256 % 256, n % 256]
  }

  function FromU32(b: Bytes): (n: nat)
    requires |b| == 4
    ensures n <= U32_MAX
  {
    b[0] as int * 0x100_0000 + b[1] as int * 0x1_0000 + b[2] as int * 256 + b[3]
  }

  lemma U32Decodes(n: nat)
    requires n <= U32_MAX
    ensures FromU32(U32(n)) == n
  {
    var high := n / 0x1_0000;
    assert n == high * 0x1_0000 + n / 256 % 256 * 256 + n % 256 by {
      assert n / 256 == high * 256 + n / 256 % 256;
    }
    assert high == n / 0x100_0000 * 256 + high % 256;
  }

  lemma U32Encodes(b: Bytes)
    requires |b| == 4
    ensures U32(FromU32(b)) == b
  {
    var n := FromU32(b);
    var high, low := b[0] as int * 256 + b[1], b[2] as int * 256 + b[3];
    assert n == high * 0x1_0000 + low;
    assert n / 0x1_0000 == high && n / 0x100_0000 == b[0] as int && high % 256 == b[1] as int;
    assert n / 256 == high * 256 + b[2] && n / 256 % 256 == b[2] as int;
    assert n % 256 == b[3] as int;
  }

  /** Lengths are written most significant byte first: the first byte that differs decides. */
  lemma U32IsBigEndian(m: nat, n: nat, k: nat)
    requires m <= U32_MAX && n <= U32_MAX && k < 4
    requires U32(m)[..k] == U32(n)[..k] && U32(m)[k] < U32(n)[k]
    ensures m < n
  {
    U32Decodes(m);
    U32Decodes(n);
    assert forall i :: 0 <= i < k ==> U32(m)[i] == U32(m)[..k][i] == U32(n)[i];
  }

  // ----- framing

  function EncodedLen(p: RawPacket): nat {
    1 + |p.body|
  }

  function Framed(p: RawPacket): Bytes
    requires EncodedLen(p) <= U32_MAX
  {
    U32(EncodedLen(p)) + [p.id] + p.body
  }

  ghost predicate Frameable(ps: seq<RawPacket>) {
    forall k :: 0 <= k < |ps| ==> EncodedLen(ps[k]) <= U32_MAX
  }

  function FramedAll(ps: seq<RawPacket>): Bytes
    requires forall k :: 0 <= k < |ps| ==> EncodedLen(ps[k]) <= U32_MAX
  {
    if ps == [] then [] else Framed(ps[0]) + FramedAll(ps[1..])
  }

  /** Parses one frame: the packet and what follows it. */
  function ParseOne(b: Bytes, l: Limits): (r: Result<(RawPacket, Bytes)>)
    ensures r.Ok? ==> |r.value.1| < |b|
  {
    if |b| < 4 then Err(UnexpectedEof)
    else
      var length, rest := FromU32(b[..4]), b[4..];
      if length == 0 then Err(EmptyPacket)
      else if length > l.innerPacket then Err(InnerPacketLimit)
      else if |rest| < length then Err(UnexpectedEof)
      else Ok((RawPacket(rest[0], rest[1..length]), rest[length..]))
  }

  function ParseAll(b: Bytes, l: Limits, count: nat): Result<seq<RawPacket>>
    decreases |b|
  {
    if b == [] then Ok([])
    else if count + 1 > l.innerCount then Err(InnerCountLimit)
    else
      match ParseOne(b, l)
      case Err(e) => Err(e)
      case Ok((p, rest)) =>
        match ParseAll(rest, l, count + 1)
        case Err(e) => Err(e)
        case Ok(ps) => Ok([p] + ps)
  }

  /** Reads at most one byte past the limit, so a stream that is too long is reported as that even if
      it is malformed further on. */
  function Inflate(z: Zlib, c: Bytes, limit: nat): Result<Bytes> {
    var stream := z.inflate(c);
    if |stream.output| > limit then Err(DecompressedLimit)
    else if !stream.whole then Err(CompressionFailed)
    else Ok(stream.output)
  }

  function DecodeBody(z: Zlib, body: Bytes, l: Limits): Result<seq<RawPacket>> {
    if |body| < 4 then Err(UnexpectedEof)
    else
      var length, rest := FromU32(body[..4]), body[4..];
      if length > l.compressed then Err(CompressedLimit)
      else if |rest| < length then Err(UnexpectedEof)
      else if |rest| > length then Err(TrailingBytes)
      else
        var inflated := Inflate(z, rest, l.decompressed);
        if inflated.Err? then Err(inflated.error) else ParseAll(inflated.value, l, 0)
  }

  /** The frames of a batch, refused at the first packet or total that is too large. */
  function Uncompressed(ps: seq<RawPacket>, l: Limits): Result<Bytes> {
    if ps == [] then Ok([])
    else
      var last := ps[|ps| - 1];
      match Uncompressed(ps[..|ps| - 1], l)
      case Err(e) => Err(e)
      case Ok(b) =>
        if EncodedLen(last) > l.innerPacket then Err(InnerPacketLimit)
        else if EncodedLen(last) > U32_MAX then Err(LengthOutOfRange)
        else if |b + Framed(last)| > l.decompressed then Err(DecompressedLimit)
        else Ok(b + Framed(last))
  }

  function EncodeBody(z: Zlib, ps: seq<RawPacket>, l: Limits): Result<Bytes> {
    if |ps| > l.innerCount then Err(InnerCountLimit)
    else
      match Uncompressed(ps, l)
      case Err(e) => Err(e)
      case Ok(b) =>
        var c := z.deflate(b);
        if |c| > l.compressed then Err(CompressedLimit)
        else if |c| > U32_MAX then Err(LengthOutOfRange)
        else Ok(U32(|c|) + c)
  }

  // ----- the two directions

  lemma FramePrefixParses(p: RawPacket, rest: Bytes, l: Limits)
    requires EncodedLen(p) <= U32_MAX && EncodedLen(p) <= l.innerPacket
    ensures ParseOne(Framed(p) + rest, l) == Ok((p, rest))
  {
    var b := Framed(p) + rest;
    var length := EncodedLen(p);
    U32Decodes(length);
    assert b[..4] == U32(length);
    var tail := b[4..];
    assert tail == [p.id] + p.body + rest;
    assert tail[1..length] == p.body && tail[length..] == rest;
  }

  lemma {:induction false} FramesParse(ps: seq<RawPacket>, l: Limits, count: nat)
    requires Frameable(ps) && count + |ps| <= l.innerCount
    requires forall k :: 0 <= k < |ps| ==> EncodedLen(ps[k]) <= l.innerPacket
    ensures ParseAll(FramedAll(ps), l, count) == Ok(ps)
    decreases |ps|
  {
    if ps != [] {
      FramePrefixParses(ps[0], FramedAll(ps[1..]), l);
      FramesParse(ps[1..], l, count + 1);
      assert [ps[0]] + ps[1..] == ps;
    }
  }

  lemma {:induction false} FramedAllAppends(ps: seq<RawPacket>, p: RawPacket)
    requires Frameable(ps) && EncodedLen(p) <= U32_MAX
    ensures Frameable(ps + [p]) && FramedAll(ps + [p]) == FramedAll(ps) + Framed(p)
    decreases |ps|
  {
    if ps != [] {
      FramedAllAppends(ps[1..], p);
      assert (ps + [p])[1..] == ps[1..] + [p];
    } else {
      assert (ps + [p])[1..] == [];
    }
  }

  lemma {:induction false} UncompressedIsFrames(ps: seq<RawPacket>, l: Limits)
    requires Uncompressed(ps, l).Ok?
    ensures Frameable(ps) && Uncompressed(ps, l).value == FramedAll(ps)
    ensures forall k :: 0 <= k < |ps| ==> EncodedLen(ps[k]) <= l.innerPacket
    ensures ps != [] ==> |FramedAll(ps)| <= l.decompressed
  {
    if ps != [] {
      var init := ps[..|ps| - 1];
      UncompressedIsFrames(init, l);
      FramedAllAppends(init, ps[|ps| - 1]);
      assert ps == init + [ps[|ps| - 1]];
    }
  }

  lemma {:induction false} SmallEnoughFrames(ps: seq<RawPacket>, l: Limits)
    requires Frameable(ps) && |FramedAll(ps)| <= l.decompressed
    requires forall k :: 0 <= k < |ps| ==> EncodedLen(ps[k]) <= l.innerPacket
    ensures Uncompressed(ps, l) == Ok(FramedAll(ps))
  {
    if ps != [] {
      var init, last := ps[..|ps| - 1], ps[|ps| - 1];
      assert ps == init + [last];
      FramedAllAppends(init, last);
      SmallEnoughFrames(init, l);
    }
  }

  /** Encoding succeeds exactly when every limit holds of what it would produce. */
  lemma EncodesExactly(z: Zlib, ps: seq<RawPacket>, l: Limits)
    ensures EncodeBody(z, ps, l).Ok? <==>
              && |ps| <= l.innerCount && Frameable(ps)
              && (forall k :: 0 <= k < |ps| ==> EncodedLen(ps[k]) <= l.innerPacket)
              && (ps == [] || |FramedAll(ps)| <= l.decompressed)
              && |z.deflate(FramedAll(ps))| <= l.compressed && |z.deflate(FramedAll(ps))| <= U32_MAX
  {
    if Uncompressed(ps, l).Ok? {
      UncompressedIsFrames(ps, l);
    } else if Frameable(ps) && (ps == [] || |FramedAll(ps)| <= l.decompressed)
        && forall k :: 0 <= k < |ps| ==> EncodedLen(ps[k]) <= l.innerPacket {
      SmallEnoughFrames(ps, l);
    }
  }

  /** A batch is refused over the first packet that is too large, or that makes the whole too large. */
  lemma {:induction false} RefusedOverFirst(ps: seq<RawPacket>, l: Limits) returns (k: nat)
    requires Uncompressed(ps, l).Err?
    ensures k < |ps| && Frameable(ps[..k]) && Uncompressed(ps[..k], l) == Ok(FramedAll(ps[..k]))
    ensures var e, size := Uncompressed(ps, l).error, EncodedLen(ps[k]);
            && (e == InnerPacketLimit <==> size > l.innerPacket)
            && (e == LengthOutOfRange <==> size <= l.innerPacket && size > U32_MAX)
            && (e == DecompressedLimit <==> size <= l.innerPacket && size <= U32_MAX)
            && (e == DecompressedLimit ==> |FramedAll(ps[..k])| + 4 + size > l.decompressed)
  {
    var init := ps[..|ps| - 1];
    if Uncompressed(init, l).Err? {
      k := RefusedOverFirst(init, l);
      assert init[..k] == ps[..k];
    } else {
      k := |ps| - 1;
      UncompressedIsFrames(init, l);
    }
  }

  /** Whatever encodes under some limits decodes under them to the same packets in order. */
  lemma BatchRoundTrip(z: Zlib, ps: seq<RawPacket>, l: Limits)
    requires Inverse(z) && EncodeBody(z, ps, l).Ok?
    ensures DecodeBody(z, EncodeBody(z, ps, l).value, l) == Ok(ps)
  {
    UncompressedIsFrames(ps, l);
    FramesParse(ps, l, 0);
    var c := z.deflate(FramedAll(ps));
    var body := U32(|c|) + c;
    U32Decodes(|c|);
    assert body[..4] == U32(|c|) && body[4..] == c;
  }

  lemma ParsedOneIsFrame(b: Bytes, l: Limits)
    requires ParseOne(b, l).Ok?
    ensures var (p, rest) := ParseOne(b, l).value;
            EncodedLen(p) <= U32_MAX && EncodedLen(p) <= l.innerPacket && b == Framed(p) + rest
  {
    var (p, rest) := ParseOne(b, l).value;
    U32Encodes(b[..4]);
    assert b == b[..4] + b[4..];
    assert b[4..] == [p.id] + p.body + rest;
  }

  /** Anything that decodes is exactly the frames of its packets and respects every limit. */
  lemma {:induction false} ParsedIsFrames(b: Bytes, l: Limits, count: nat)
    requires ParseAll(b, l, count).Ok?
    ensures var ps := ParseAll(b, l, count).value;
            && Frameable(ps) && FramedAll(ps) == b
            && (ps != [] ==> count + |ps| <= l.innerCount)
            && forall k :: 0 <= k < |ps| ==> EncodedLen(ps[k]) <= l.innerPacket
    decreases |b|
  {
    if b != [] {
      ParsedOneIsFrame(b, l);
      var (p, rest) := ParseOne(b, l).value;
      ParsedIsFrames(rest, l, count + 1);
      var ps := ParseAll(b, l, count).value;
      assert ps[1..] == ParseAll(rest, l, count + 1).value;
    }
  }

  lemma DecodedRespectsLimits(z: Zlib, body: Bytes, l: Limits)
    requires DecodeBody(z, body, l).Ok?
    ensures var ps := DecodeBody(z, body, l).value;
            && Frameable(ps) && z.inflate(body[4..]) == Stream(FramedAll(ps), true)
            && |body| - 4 <= l.compressed && |FramedAll(ps)| <= l.decompressed && |ps| <= l.innerCount
            && forall k :: 0 <= k < |ps| ==> EncodedLen(ps[k]) <= l.innerPacket
  {
    ParsedIsFrames(z.inflate(body[4..]).output, l, 0);
  }

  /** Decoding succeeds with these packets exactly when the body is one length-prefixed stream that
      inflates to their frames, within every limit. */
  lemma DecodesExactly(z: Zlib, body: Bytes, l: Limits, ps: seq<RawPacket>)
    ensures DecodeBody(z, body, l) == Ok(ps) <==>
              && Frameable(ps) && |body| >= 4 && FromU32(body[..4]) == |body| - 4 <= l.compressed
              && z.inflate(body[4..]) == Stream(FramedAll(ps), true) && |FramedAll(ps)| <= l.decompressed
              && |ps| <= l.innerCount && forall k :: 0 <= k < |ps| ==> EncodedLen(ps[k]) <= l.innerPacket
  {
    if DecodeBody(z, body, l).Ok? {
      DecodedRespectsLimits(z, body, l);
    }
    if Frameable(ps) && |ps| <= l.innerCount && forall k :: 0 <= k < |ps| ==> EncodedLen(ps[k]) <= l.innerPacket {
      FramesParse(ps, l, 0);
    }
  }

  /** Why one frame is refused: cut off, empty, or too large, in that order. */
  lemma FrameErrors(b: Bytes, l: Limits)
    ensures var r := ParseOne(b, l);
            if |b| < 4 then r == Err(UnexpectedEof)
            else
              var length := FromU32(b[..4]);
              && (r == Err(EmptyPacket) <==> length == 0)
              && (r == Err(InnerPacketLimit) <==> 0 < length && length > l.innerPacket)
              && (r == Err(UnexpectedEof) <==> 0 < length <= l.innerPacket && |b| < 4 + length)
              && (r.Ok? <==> 0 < length <= l.innerPacket && 4 + length <= |b|)
  {
  }

  /** A frame is refused for its own fault, or because there are as many packets as allowed already. */
  lemma ParseErrors(b: Bytes, l: Limits, count: nat)
    requires b != []
    ensures var r := ParseAll(b, l, count);
            && (r == Err(InnerCountLimit) <== count >= l.innerCount)
            && (count < l.innerCount && ParseOne(b, l).Err? ==> r == Err(ParseOne(b, l).error))
            && (count < l.innerCount && ParseOne(b, l).Ok? && ParseAll(ParseOne(b, l).value.1, l, count + 1).Err? ==>
                  r == ParseAll(ParseOne(b, l).value.1, l, count + 1))
  {
  }

  /** Why a batch is refused apart from a single packet: the count first, the compressed size last. */
  lemma EncodeErrors(z: Zlib, ps: seq<RawPacket>, l: Limits)
    ensures |ps| > l.innerCount ==> EncodeBody(z, ps, l) == Err(InnerCountLimit)
    ensures |ps| <= l.innerCount && Uncompressed(ps, l).Err? ==> EncodeBody(z, ps, l) == Err(Uncompressed(ps, l).error)
    ensures |ps| <= l.innerCount && Uncompressed(ps, l).Ok? ==>
              var size := |z.deflate(Uncompressed(ps, l).value)|;
              && (size > l.compressed ==> EncodeBody(z, ps, l) == Err(CompressedLimit))
              && (size <= l.compressed && size > U32_MAX ==> EncodeBody(z, ps, l) == Err(LengthOutOfRange))
  {
  }

  /** Why a body is refused before any frame is parsed. */
  lemma BodyErrors(z: Zlib, body: Bytes, l: Limits)
    ensures |body| < 4 ==> DecodeBody(z, body, l) == Err(UnexpectedEof)
    ensures |body| >= 4 ==>
            var length, r := FromU32(body[..4]), DecodeBody(z, body, l);
            && (length > l.compressed ==> r == Err(CompressedLimit))
            && (length <= l.compressed && |body| - 4 < length ==> r == Err(UnexpectedEof))
            && (length <= l.compressed && length < |body| - 4 ==> r == Err(TrailingBytes))
            && (length <= l.compressed && length == |body| - 4 ==>
                  var stream := z.inflate(body[4..]);
                  && (|stream.output| > l.decompressed ==> r == Err(DecompressedLimit))
                  && (|stream.output| <= l.decompressed && !stream.whole ==> r == Err(CompressionFailed)))
  {
  }

  // ----- outer frames

  const GAME_MARKER: byte := 0xfe

  datatype FrameResult<T> = Frame(value: T) | TooLarge | Eof | WrongMarker | NoPacket

  function EncodeGameFrame(p: RawPacket, limit: nat): FrameResult<Bytes> {
    if 1 + EncodedLen(p) > limit then TooLarge else Frame([GAME_MARKER, p.id] + p.body)
  }

  function DecodeGameFrame(b: Bytes, limit: nat): FrameResult<RawPacket> {
    if |b| > limit then TooLarge
    else if b == [] then Eof
    else if b[0] != GAME_MARKER then WrongMarker
    else if |b| == 1 then NoPacket
    else Frame(RawPacket(b[1], b[2..]))
  }

  /** Under one limit, encoding and decoding of game frames undo each other; what fits encodes. */
  lemma GameFrameRoundTrip(p: RawPacket, b: Bytes, limit: nat)
    ensures EncodeGameFrame(p, limit).Frame? <==> 2 + |p.body| <= limit
    ensures DecodeGameFrame(b, limit) == TooLarge <==> |b| > limit
    ensures DecodeGameFrame(b, limit) == Eof <==> b == []
    ensures DecodeGameFrame(b, limit) == WrongMarker <==> 0 < |b| <= limit && b[0] != 0xfe
    ensures DecodeGameFrame(b, limit).Frame? <==> 2 <= |b| <= limit && b[0] == 0xfe
    ensures EncodeGameFrame(p, limit).Frame? ==> DecodeGameFrame(EncodeGameFrame(p, limit).value, limit) == Frame(p)
    ensures DecodeGameFrame(b, limit).Frame? ==> EncodeGameFrame(DecodeGameFrame(b, limit).value, limit) == Frame(b)
  {
    assert ([GAME_MARKER, p.id] + p.body)[2..] == p.body;
    if DecodeGameFrame(b, limit).Frame? {
      assert b == [GAME_MARKER, b[1]] + b[2..];
    }
  }

  // ----- the program

  class Reader {
    const input: Bytes
    var offset: nat

    ghost predicate Valid()
      reads this
    {
      offset <= |input|
    }

    ghost function Rest(): Bytes
      requires Valid()
      reads this
    {
      input[offset..]
    }

    constructor (input: Bytes)
      ensures Valid() && Rest() == input
    {
      this.input, offset := input, 0;
    }

    method ReadExact(length: nat) returns (r: Option<Bytes>)
      requires Valid()
      modifies this
      ensures Valid()
      ensures |old(Rest())| < length ==> r.None? && Rest() == old(Rest())
      ensures |old(Rest())| >= length ==> r == Some(old(Rest())[..length]) && Rest() == old(Rest())[length..]
    {
      if |input| - offset < length {
        return None;
      }
      var start := offset;
      offset := offset + length;
      r := Some(input[start..offset]);
      assert input[start..offset] == input[start..][..length];
    }

    method ReadU32() returns (r: Option<nat>)
      requires Valid()
      modifies this
      ensures Valid()
      ensures |old(Rest())| < 4 ==> r.None? && Rest() == old(Rest())
      ensures |old(Rest())| >= 4 ==> r == Some(FromU32(old(Rest())[..4])) && Rest() == old(Rest())[4..]
    {
      var b := ReadExact(4);
      r := if b.None? then None else Some(FromU32(b.value));
    }
  }

  method ReadPacket(reader: Reader, l: Limits) returns (r: Result<RawPacket>)
    requires reader.Valid()
    modifies reader
    ensures reader.Valid()
    ensures match ParseOne(old(reader.Rest()), l)
            case Err(e) => r == Err(e)
            case Ok((p, rest)) => r == Ok(p) && reader.Rest() == rest
  {
    var length := reader.ReadU32();
    if length.None? {
      return Err(UnexpectedEof);
    }
    if length.value == 0 {
      return Err(EmptyPacket);
    }
    if length.value > l.innerPacket {
      return Err(InnerPacketLimit);
    }
    var b := reader.ReadExact(length.value);
    if b.None? {
      return Err(UnexpectedEof);
    }
    r := Ok(RawPacket(b.value[0], b.value[1..]));
  }

  function Prepended(packets: seq<RawPacket>, r: Result<seq<RawPacket>>): Result<seq<RawPacket>> {
    if r.Ok? then Ok(packets + r.value) else r
  }

  lemma ParseStep(b: Bytes, l: Limits, packets: seq<RawPacket>)
    requires b != [] && |packets| + 1 <= l.innerCount && ParseOne(b, l).Ok?
    ensures var (p, rest) := ParseOne(b, l).value;
            Prepended(packets, ParseAll(b, l, |packets|)) == Prepended(packets + [p], ParseAll(rest, l, |packets| + 1))
  {
    var (p, rest) := ParseOne(b, l).value;
    var after := ParseAll(rest, l, |packets| + 1);
    assert after.Ok? ==> packets + ([p] + after.value) == packets + [p] + after.value;
  }

  method ReadPackets(b: Bytes, l: Limits) returns (r: Result<seq<RawPacket>>)
    ensures r == ParseAll(b, l, 0)
  {
    var inner := new Reader(b);
    var packets: seq<RawPacket> := [];
    assert forall ps: seq<RawPacket> :: packets + ps == ps;
    while inner.offset < |inner.input|
      invariant inner.Valid() && fresh(inner)
      invariant ParseAll(b, l, 0) == Prepended(packets, ParseAll(inner.Rest(), l, |packets|))
      decreases |inner.Rest()|
    {
      if |packets| + 1 > l.innerCount {
        return Err(InnerCountLimit);
      }
      ghost var before := inner.Rest();
      var p := ReadPacket(inner, l);
      if p.Err? {
        return Err(p.error);
      }
      ParseStep(before, l, packets);
      packets := packets + [p.value];
    }
    assert inner.Rest() == [] && packets + [] == packets;
    r := Ok(packets);
  }

  method Decode(z: Zlib, body: Bytes, l: Limits) returns (r: Result<seq<RawPacket>>)
    ensures r == DecodeBody(z, body, l)
  {
    var reader := new Reader(body);
    var length := reader.ReadU32();
    if length.None? {
      return Err(UnexpectedEof);
    }
    if length.value > l.compressed {
      return Err(CompressedLimit);
    }
    var c := reader.ReadExact(length.value);
    if c.None? {
      return Err(UnexpectedEof);
    }
    if reader.offset < |reader.input| {
      return Err(TrailingBytes);
    }
    assert c.value == body[4..];
    var stream := z.inflate(c.value);
    if |stream.output| > l.decompressed {
      return Err(DecompressedLimit);
    }
    if !stream.whole {
      return Err(CompressionFailed);
    }
    r := ReadPackets(stream.output, l);
  }

  method Encode(z: Zlib, ps: seq<RawPacket>, l: Limits) returns (r: Result<Bytes>)
    ensures r == EncodeBody(z, ps, l)
  {
    if |ps| > l.innerCount {
      return Err(InnerCountLimit);
    }
    var b: Bytes := [];
    for k := 0 to |ps|
      invariant Uncompressed(ps[..k], l) == Ok(b)
    {
      assert ps[..k + 1][..k] == ps[..k];
      if EncodedLen(ps[k]) > l.innerPacket {
        UncompressedFails(ps, l, k + 1);
        return Err(InnerPacketLimit);
      }
      if EncodedLen(ps[k]) > U32_MAX {
        UncompressedFails(ps, l, k + 1);
        return Err(LengthOutOfRange);
      }
      b := b + U32(EncodedLen(ps[k]));
      b := b + [ps[k].id] + ps[k].body;
      assert b == Uncompressed(ps[..k], l).value + Framed(ps[k]);
      if |b| > l.decompressed {
        UncompressedFails(ps, l, k + 1);
        return Err(DecompressedLimit);
      }
    }
    assert ps[..|ps|] == ps;
    var c := z.deflate(b);
    if |c| > l.compressed {
      return Err(CompressedLimit);
    }
    if |c| > U32_MAX {
      return Err(LengthOutOfRange);
    }
    r := Ok(U32(|c|) + c);
  }

  /** A refused prefix refuses the batch with the same error. */
  lemma {:induction false} UncompressedFails(ps: seq<RawPacket>, l: Limits, k: nat)
    requires k <= |ps| && Uncompressed(ps[..k], l).Err?
    ensures Uncompressed(ps, l) == Err(Uncompressed(ps[..k], l).error)
    decreases |ps| - k
  {
    if k == |ps| {
      assert ps[..k] == ps;
    } else {
      assert ps[..k + 1][..k] == ps[..k];
      UncompressedFails(ps, l, k + 1);
    }
  }
}
