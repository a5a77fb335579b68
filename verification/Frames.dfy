/**
 The frame around every payload: `[u32 len][u8 type][u64 cid][payload]`, and the
 stream of frames that a connection carries.
 */
module Frames {
  import opened Wire
  import opened Layouts

  const HEADER_LEN := 13
  const MAX_PAYLOAD_LEN := 16 * 1024 * 1024

  /** The codes of `FrameType` (`repr(u8)`); `from_u8` refuses every other byte. */
  predicate KnownType(b: byte) {
    || 0x01 <= b <= 0x03 || 0x10 <= b <= 0x12 || 0x20 <= b <= 0x2E || 0x30 <= b <= 0x36 || 0x40 <= b <= 0x42
  }

  type FrameType = b: byte | KnownType(b) witness 1

  const HELLO: FrameType := 0x01
  const PRODUCE_RESP: FrameType := 0x12
  const POLL_RESP: FrameType := 0x23
  const UNSUBSCRIBE: FrameType := 0x26
  const GOODBYE: FrameType := 0x42

  datatype Frame = Frame(kind: FrameType, cid: u64, payload: seq<byte>)
  datatype FrameHeader = FrameHeader(payloadLen: nat, kind: FrameType, cid: u64)

  datatype CodecError = PayloadTooLarge(size: nat) | UnknownFrameType(code: byte) | HeaderTooShort(size: nat)
  datatype Coded<+T> = Good(value: T) | Bad(error: CodecError)

  function EncodeFrame(f: Frame): (r: Coded<seq<byte>>)
    ensures r.Good? <==> |f.payload| <= MAX_PAYLOAD_LEN
    ensures r.Good? ==> |r.value| == HEADER_LEN + |f.payload|
  {
    if |f.payload| > MAX_PAYLOAD_LEN then Bad(PayloadTooLarge(|f.payload|))
    else
      Widths();
      Good(BigEndian(4, |f.payload|) + [f.kind] + BigEndian(8, f.cid) + f.payload)
  }

  function DecodeHeader(b: seq<byte>): Coded<FrameHeader> {
    if |b| < HEADER_LEN then Bad(HeaderTooShort(|b|))
    else
      Widths();
      var len := FromBigEndian(b[..4]);
      if !KnownType(b[4]) then Bad(UnknownFrameType(b[4]))
      else if len > MAX_PAYLOAD_LEN then Bad(PayloadTooLarge(len))
      else Good(FrameHeader(len, b[4], FromBigEndian(b[5..13])))
  }

  /** A frame's header and payload can be read back from the front of any stream it starts. */
  lemma FrameRoundTrip(f: Frame, tail: seq<byte>)
    requires EncodeFrame(f).Good?
    ensures var b := EncodeFrame(f).value + tail;
            && |b| >= HEADER_LEN + |f.payload|
            && DecodeHeader(b) == Good(FrameHeader(|f.payload|, f.kind, f.cid))
            && b[HEADER_LEN..HEADER_LEN + |f.payload|] == f.payload
            && b[HEADER_LEN + |f.payload|..] == tail
  {
    Widths();
    var len, cid := BigEndian(4, |f.payload|), BigEndian(8, f.cid);
    var b := EncodeFrame(f).value + tail;
    FromBigEndianInverts(4, |f.payload|);
    FromBigEndianInverts(8, f.cid);
    assert b[..4] == len && b[5..13] == cid;
  }

  /** The per-type payload bound the worker enforces after the header. */
  function FrameLimit(kind: FrameType): nat {
    if 0x10 <= kind <= 0x12 then 4 * 1024 * 1024
    else if kind == POLL_RESP then 8 * 1024 * 1024
    else 64 * 1024
  }

  /** The frames a connection handler gets to see: it stops at the first short read or refused header. */
  function ReadFrames(b: seq<byte>): (fs: seq<Frame>)
    decreases |b|
  {
    match DecodeHeader(b)
    case Bad(_) => []
    case Good(h) =>
      if h.payloadLen > FrameLimit(h.kind) || |b| < HEADER_LEN + h.payloadLen then []
      else
        var end := HEADER_LEN + h.payloadLen;
        [Frame(h.kind, h.cid, b[HEADER_LEN..end])] + ReadFrames(b[end..])
  }

  /** What the worker takes in: produce frames up to 4 MiB, poll replies up to 8 MiB, every other type up to 64 KiB. */
  lemma AcceptedSizes(f: Frame, tail: seq<byte>)
    requires EncodeFrame(f).Good?
    ensures ReadFrames(EncodeFrame(f).value + tail) != [] <==>
            |f.payload| <= (if f.kind in {0x10, 0x11, PRODUCE_RESP} then 4_194_304 else if f.kind == POLL_RESP then 8_388_608 else 65_536)
  {
    FrameRoundTrip(f, tail);
    hide EncodeFrame, DecodeHeader;
  }

  /** A header is accepted exactly if some frame has it: every refused one has no frame. */
  lemma HeaderAcceptedIff(b: seq<byte>)
    requires |b| >= HEADER_LEN
    ensures DecodeHeader(b).Good? <==> exists f: Frame :: EncodeFrame(f).Good? && EncodeFrame(f).value[..HEADER_LEN] == b[..HEADER_LEN]
  {
    Widths();
    if DecodeHeader(b).Good? {
      var h := DecodeHeader(b).value;
      var f := Frame(h.kind, h.cid, seq(h.payloadLen, _ => 0));
      BigEndianInverts(b[..4]);
      BigEndianInverts(b[5..13]);
      assert EncodeFrame(f).value[..13] == b[..4] + [b[4]] + b[5..13] == b[..13];
    }
    if f: Frame :| EncodeFrame(f).Good? && EncodeFrame(f).value[..HEADER_LEN] == b[..HEADER_LEN] {
      var e := EncodeFrame(f).value;
      FrameRoundTrip(f, []);
      assert e + [] == e;
      assert b[..4] == b[..13][..4] == e[..13][..4] == e[..4];
      assert b[4] == b[..13][4] == e[..13][4] == e[4];
    }
  }

  predicate Sendable(f: Frame) { |f.payload| <= FrameLimit(f.kind) }

  predicate AllSendable(fs: seq<Frame>) { fs == [] || (Sendable(fs[0]) && AllSendable(fs[1..])) }

  function WriteFrames(fs: seq<Frame>): seq<byte>
    requires AllSendable(fs)
  {
    if fs == [] then [] else EncodeFrame(fs[0]).value + WriteFrames(fs[1..])
  }

  lemma NextFrame(f: Frame, tail: seq<byte>)
    requires Sendable(f)
    ensures ReadFrames(EncodeFrame(f).value + tail) == [f] + ReadFrames(tail)
  {
    FrameRoundTrip(f, tail);
  }

  /** However many bytes of a frame stream arrive, what is read is a prefix of what was written. */
  lemma {:induction false} ReadFramesOfPrefix(fs: seq<Frame>, k: nat)
    requires AllSendable(fs) && k <= |WriteFrames(fs)|
    ensures ReadFrames(WriteFrames(fs)[..k]) <= fs
    ensures k == |WriteFrames(fs)| <==> ReadFrames(WriteFrames(fs)[..k]) == fs
    decreases |fs|
  {
    if fs == [] {
      assert ReadFrames([]) == [];
    } else {
      var first, rest := EncodeFrame(fs[0]).value, WriteFrames(fs[1..]);
      assert WriteFrames(fs) == first + rest && AllSendable(fs[1..]) && Sendable(fs[0]);
      hide EncodeFrame, ReadFrames, WriteFrames, AllSendable, Sendable;
      TakeSplit(first, rest, k);
      if k < |first| {
        ShortFrame(fs[0], k);
      } else {
        NextFrame(fs[0], rest[..k - |first|]);
        ReadFramesOfPrefix(fs[1..], k - |first|);
        assert fs == [fs[0]] + fs[1..];
      }
    }
  }

  lemma ShortFrame(f: Frame, k: nat)
    requires Sendable(f) && k < |EncodeFrame(f).value|
    ensures ReadFrames(EncodeFrame(f).value[..k]) == []
  {
    var e := EncodeFrame(f).value;
    if k >= HEADER_LEN {
      FrameRoundTrip(f, []);
      assert e + [] == e;
      assert e[..k][..4] == e[..4] && e[..k][5..13] == e[5..13];
    }
  }
}
