/**
 The two payloads whose decoding is not one-to-one: a boolean byte is read as
 `!= 0`, and an unknown error kind is read as `Internal`. Both still round-trip;
 which accepted bytes re-encode to themselves is stated exactly.
 */
module Replies {
  import opened Wire
  import opened Layouts
  import opened Decoders
  import E = Encoders

  datatype ErrorKind =
    | Internal | WorkerUnavailable | Timeout | WorkerDraining | Protocol | ClusterNotRegistered
    | InvalidArgument | NotTransactional | SubscriptionNotFound | BrokerRetryable | MessageTooLarge
    | AuthnAuthz | OffsetInvalid | TxnState | UnknownTopicOrPartition

  const KINDS := [
    Internal, WorkerUnavailable, Timeout, WorkerDraining, Protocol, ClusterNotRegistered,
    InvalidArgument, NotTransactional, SubscriptionNotFound, BrokerRetryable, MessageTooLarge,
    AuthnAuthz, OffsetInvalid, TxnState, UnknownTopicOrPartition]

  /** `as_u16`: the discriminant. */
  function KindCode(k: ErrorKind): (n: nat)
    ensures n < |KINDS| && KINDS[n] == k
  {
    match k
    case Internal => 0 case WorkerUnavailable => 1 case Timeout => 2 case WorkerDraining => 3
    case Protocol => 4 case ClusterNotRegistered => 5 case InvalidArgument => 6 case NotTransactional => 7
    case SubscriptionNotFound => 8 case BrokerRetryable => 9 case MessageTooLarge => 10 case AuthnAuthz => 11
    case OffsetInvalid => 12 case TxnState => 13 case UnknownTopicOrPartition => 14
  }

  /** `from_u16`: codes this build does not know become `Internal`. */
  function KindOf(n: nat): (k: ErrorKind)
    ensures KindCode(k) == n <==> n < 15
  {
    if n < 15 then KINDS[n] else Internal
  }

  datatype ErrorResp = ErrorResp(kind: ErrorKind, retryable: bool, nativeCode: i32, message: Str)
  datatype ProduceResp =
    | Ack(partition: i32, offset: i64)
    | Failed(code: u16, message: Str, retryable: bool)

  const ERROR_RESP := Then(U16, Then(U8, Then(I32, Text(2, "error_message"))))
  const PRODUCE_ERR := Then(U16, Then(Text(2, "message"), U8))
  const PRODUCE_RESP := Choice("produce_resp", [Then(I32, I64), PRODUCE_ERR])

  function Bit(b: bool): int { if b then 1 else 0 }

  function ErrorVal(e: ErrorResp): (v: Value)
    ensures Typed(ERROR_RESP, v)
  {
    Widths();
    assert Typed(Then(I32, Text(2, "error_message")), Both(Num(e.nativeCode), Raw(e.message)));
    Both(Num(KindCode(e.kind)), Both(Num(Bit(e.retryable)), Both(Num(e.nativeCode), Raw(e.message))))
  }

  function ErrorOf(v: Value): ErrorResp
    requires Typed(ERROR_RESP, v)
  {
    Widths();
    assert Typed(ERROR_RESP.second.second, v.snd.snd);
    ErrorResp(KindOf(v.fst.n), v.snd.fst.n != 0, v.snd.snd.fst.n, v.snd.snd.snd.bytes)
  }

  function ProduceRespVal(p: ProduceResp): (v: Value)
    ensures Typed(PRODUCE_RESP, v)
  {
    Widths();
    match p
    case Ack(partition, offset) => Alt(0, Both(Num(partition), Num(offset)))
    case Failed(code, message, retryable) =>
      assert Typed(PRODUCE_ERR, Both(Num(code), Both(Raw(message), Num(Bit(retryable)))));
      Alt(1, Both(Num(code), Both(Raw(message), Num(Bit(retryable)))))
  }

  function ProduceRespOf(v: Value): ProduceResp
    requires Typed(PRODUCE_RESP, v)
  {
    Widths();
    if v.tag == 0 then
      assert Typed(Then(I32, I64), v.v);
      Ack(v.v.fst.n, v.v.snd.n)
    else
      assert Typed(PRODUCE_ERR, v.v);
      Failed(v.v.fst.n, v.v.snd.fst.bytes, v.v.snd.snd.n != 0)
  }

  /** What was decoded, normalised by `of`, or the layout's own error. */
  ghost predicate Normalised<T(!new)>(r: Result<T>, rest: seq<byte>, f: Format, of: Value --> T, buf: seq<byte>)
    requires forall v :: Typed(f, v) ==> of.requires(v)
  {
    match Decode(f, buf)
    case Ok(p) => Typed(f, p.v) && r == Ok(of(p.v)) && rest == p.rest
    case Err(e) => r == Err(e)
  }

  method DecodeErrorResp(buf: seq<byte>) returns (r: Result<ErrorResp>, rest: seq<byte>)
    ensures Normalised(r, rest, ERROR_RESP, ErrorOf, buf)
  {
    hide Decode, DecodeAll, TakeSized, ValidUtf8, Pow256;
    rest := buf;
    if |buf| < 7 { TooShort(ERROR_RESP, buf); return Err(Truncated), rest; }
    Widths();
    var code, retryable, nativeCode, message;
    Field(ERROR_RESP, buf);
    code, rest := GetInt(2, false, buf);
    Field(ERROR_RESP.second, rest);
    retryable, rest := GetInt(1, false, rest);
    Field(ERROR_RESP.second.second, rest);
    nativeCode, rest := GetInt(4, true, rest);
    message, rest :- ReadStr(2, "error_message", rest);
    Canonical(ERROR_RESP, buf);
    r := Ok(ErrorResp(KindOf(code), retryable != 0, nativeCode, message));
  }

  method DecodeProduceResp(buf: seq<byte>) returns (r: Result<ProduceResp>, rest: seq<byte>)
    ensures Normalised(r, rest, PRODUCE_RESP, ProduceRespOf, buf)
  {
    hide Decode, DecodeAll, TakeSized, ValidUtf8, Pow256;
    Widths();
    rest := buf;
    Branch(PRODUCE_RESP, buf);
    if buf == [] { return Err(Truncated), rest; }
    var tag := buf[0];
    rest := buf[1..];
    match tag
    case 0 =>
      ghost var f := Then(I32, I64);
      if |rest| < 4 + 8 { TooShort(f, rest); return Err(Truncated), rest; }
      var partition, offset;
      Field(f, rest);
      partition, rest := GetInt(4, true, rest);
      offset, rest := GetInt(8, true, rest);
      Canonical(PRODUCE_RESP, buf);
      r := Ok(Ack(partition, offset));
    case 1 =>
      if |rest| < 2 { TooShort(PRODUCE_ERR, rest); return Err(Truncated), rest; }
      var code, message: Str, retryable;
      Field(PRODUCE_ERR, rest);
      code, rest := GetInt(2, false, rest);
      Field(PRODUCE_ERR.second, rest);
      message, rest :- ReadStr(2, "message", rest);
      if |rest| < 1 { TooShort(U8, rest); return Err(Truncated), rest; }
      retryable, rest := GetInt(1, false, rest);
      Canonical(PRODUCE_RESP, buf);
      r := Ok(Failed(code, message, retryable != 0));
    case _ => r := Err(InvalidTag(tag, "produce_resp"));
  }

  method EncodeErrorResp(e: ErrorResp, buf: seq<byte>) returns (r: Result<seq<byte>>)
    ensures r == E.Appended(buf, Encode(ERROR_RESP, ErrorVal(e)))
  {
    hide Encode, ValidUtf8, Pow256;
    Widths();
    ghost var v := ErrorVal(e);
    E.Field(ERROR_RESP, v, buf);
    var out := E.PutInt(2, false, KindCode(e.kind), buf);
    E.Field(ERROR_RESP.second, v.snd, out);
    out := E.PutInt(1, false, Bit(e.retryable), out);
    E.Field(ERROR_RESP.second.second, v.snd.snd, out);
    out := E.PutInt(4, true, e.nativeCode, out);
    r := E.WriteBytes(2, e.message, out);
  }

  method EncodeProduceResp(p: ProduceResp, buf: seq<byte>) returns (r: Result<seq<byte>>)
    ensures r == E.Appended(buf, Encode(PRODUCE_RESP, ProduceRespVal(p)))
  {
    hide Encode, ValidUtf8, Pow256;
    Widths();
    ghost var v := ProduceRespVal(p);
    E.Branch(PRODUCE_RESP, v, buf);
    match p
    case Ack(partition, offset) =>
      E.Field(Then(I32, I64), v.v, buf + [0]);
      var out := E.PutInt(4, true, partition, buf + [0]);
      out := E.PutInt(8, true, offset, out);
      r := Ok(out);
    case Failed(code, message, retryable) =>
      E.Field(PRODUCE_ERR, v.v, buf + [1]);
      var out := E.PutInt(2, false, code, buf + [1]);
      E.Field(PRODUCE_ERR.second, v.v.snd, out);
      out :- E.WriteBytes(2, message, out);
      out := E.PutInt(1, false, Bit(retryable), out);
      r := Ok(out);
  }

  /** Two values with the same encoding, whatever follows, are the same value. */
  lemma EncodingDetermines(f: Format, v: Value, w: Value, tail: seq<byte>)
    requires Typed(f, v) && Typed(f, w) && Encode(f, v).Ok? && Encode(f, w).Ok?
    requires Encode(f, v).value + tail == Encode(f, w).value + tail
    ensures v == w
  {
    RoundTrip(f, v, tail);
    RoundTrip(f, w, tail);
  }

  lemma ErrorRoundTrip(e: ErrorResp, tail: seq<byte>, r: Result<ErrorResp>, rest: seq<byte>)
    requires Encode(ERROR_RESP, ErrorVal(e)).Ok?
    requires Normalised(r, rest, ERROR_RESP, ErrorOf, Encode(ERROR_RESP, ErrorVal(e)).value + tail)
    ensures r == Ok(e) && rest == tail
  {
    hide Decode, Encode;
    RoundTrip(ERROR_RESP, ErrorVal(e), tail);
  }

  lemma ProduceRespRoundTrip(p: ProduceResp, tail: seq<byte>, r: Result<ProduceResp>, rest: seq<byte>)
    requires Encode(PRODUCE_RESP, ProduceRespVal(p)).Ok?
    requires Normalised(r, rest, PRODUCE_RESP, ProduceRespOf, Encode(PRODUCE_RESP, ProduceRespVal(p)).value + tail)
    ensures r == Ok(p) && rest == tail
  {
    hide Decode, Encode;
    RoundTrip(PRODUCE_RESP, ProduceRespVal(p), tail);
  }

  /** Every strict prefix of an error reply, and of a produce reply, is reported as truncated. */
  lemma RepliesTruncated<T(!new)>(f: Format, of: Value --> T, v: Value, k: nat, r: Result<T>, rest: seq<byte>)
    requires Typed(f, v) && Encode(f, v).Ok? && k < |Encode(f, v).value|
    requires forall w :: Typed(f, w) ==> of.requires(w)
    requires Normalised(r, rest, f, of, Encode(f, v).value[..k])
    ensures r == Err(Truncated)
  {
    PrefixTruncated(f, v, k);
  }

  lemma IntAt(w: pos, b: seq<byte>)
    requires |b| >= w
    ensures Decode(Int(w, false), b) == Ok(Parsed(Num(FromBigEndian(b[..w])), b[w..]))
  {
  }

  /** The fields of an accepted error payload, by position. */
  lemma ErrorFields(buf: seq<byte>)
    requires Decode(ERROR_RESP, buf).Ok?
    ensures |buf| >= 7
    ensures var v := Decode(ERROR_RESP, buf).value.v;
            Typed(ERROR_RESP, v) && v.fst.n == FromBigEndian(buf[..2]) && v.snd.fst.n == buf[2]
  {
    hide Decode, Encode, TakeSized, ValidUtf8;
    Canonical(ERROR_RESP, buf);
    if |buf| < 7 { TooShort(ERROR_RESP, buf); }
    Field(ERROR_RESP, buf);
    IntAt(2, buf);
    Field(ERROR_RESP.second, buf[2..]);
    IntAt(1, buf[2..]);
    assert buf[2..][..1] == [buf[2]];
    assert FromBigEndian([buf[2]][..0]) == 0;
  }

  /** Accepted error bytes re-encode to themselves exactly when the kind is known and the flag is 0 or 1. */
  lemma ErrorCanonicalIff(buf: seq<byte>)
    requires Decode(ERROR_RESP, buf).Ok?
    ensures var p := Decode(ERROR_RESP, buf).value;
            && |buf| >= 7 && Typed(ERROR_RESP, p.v)
            && var again := Encode(ERROR_RESP, ErrorVal(ErrorOf(p.v)));
            && again.Ok?
            && (buf == again.value + p.rest <==> FromBigEndian(buf[..2]) <= 14 && buf[2] <= 1)
  {
    ErrorFields(buf);
    Canonical(ERROR_RESP, buf);
    var p := Decode(ERROR_RESP, buf).value;
    var w := ErrorVal(ErrorOf(p.v));
    ErrorSameMessage(p.v);
    if buf == Encode(ERROR_RESP, w).value + p.rest {
      EncodingDetermines(ERROR_RESP, p.v, w, p.rest);
    }
  }

  lemma ErrorSameMessage(v: Value)
    requires Typed(ERROR_RESP, v) && Encode(ERROR_RESP, v).Ok?
    ensures Encode(ERROR_RESP, ErrorVal(ErrorOf(v))).Ok?
    ensures ErrorVal(ErrorOf(v)) == v <==> v.fst.n <= 14 && v.snd.fst.n <= 1
  {
  }

  /** An accepted delivery failure re-encodes to itself exactly when its last byte, the flag, is 0 or 1. */
  lemma ProduceRespCanonicalIff(buf: seq<byte>)
    requires Decode(PRODUCE_RESP, buf).Ok?
    ensures var p := Decode(PRODUCE_RESP, buf).value;
            && |p.rest| < |buf| && Typed(PRODUCE_RESP, p.v)
            && var again := Encode(PRODUCE_RESP, ProduceRespVal(ProduceRespOf(p.v)));
            && again.Ok?
            && (buf == again.value + p.rest <==> buf[0] == 0 || buf[|buf| - |p.rest| - 1] <= 1)
  {
    Canonical(PRODUCE_RESP, buf);
    var p := Decode(PRODUCE_RESP, buf).value;
    var w := ProduceRespVal(ProduceRespOf(p.v));
    ProduceRespBytes(p.v);
    hide Decode, Encode, Typed, ProduceRespVal, ProduceRespOf, ValidUtf8;
    if buf == Encode(PRODUCE_RESP, w).value + p.rest {
      EncodingDetermines(PRODUCE_RESP, p.v, w, p.rest);
    }
  }

  lemma ProduceRespBytes(v: Value)
    requires Typed(PRODUCE_RESP, v) && Encode(PRODUCE_RESP, v).Ok?
    ensures var e := Encode(PRODUCE_RESP, v).value;
            && |e| >= 1 && e[0] == v.tag
            && Encode(PRODUCE_RESP, ProduceRespVal(ProduceRespOf(v))).Ok?
            && (ProduceRespVal(ProduceRespOf(v)) == v <==> v.tag == 0 || e[|e| - 1] <= 1)
  {
    var w := ProduceRespVal(ProduceRespOf(v));
    if v.tag == 0 { AckSame(v); } else { FailureSame(v); }
    hide ProduceRespVal, ProduceRespOf, ValidUtf8, Encode, Typed;
    var e := Encode(PRODUCE_RESP, v).value;
    E.Branch(PRODUCE_RESP, v, []);
    assert [] + e == e;
    if v.tag != 0 {
      FailedBytes(v.v, w.v);
      E.Branch(PRODUCE_RESP, w, []);
    }
  }

  lemma AckSame(v: Value)
    requires Typed(PRODUCE_RESP, v) && v.tag == 0
    ensures ProduceRespVal(ProduceRespOf(v)) == v
  {
    assert Typed(Then(I32, I64), v.v);
    hide ValidUtf8;
  }

  lemma FailureSame(v: Value)
    requires Typed(PRODUCE_RESP, v) && v.tag != 0
    ensures var w := ProduceRespVal(ProduceRespOf(v));
            && v.tag == w.tag == 1 && Typed(PRODUCE_ERR, v.v) && Typed(PRODUCE_ERR, w.v)
            && w.v.fst == v.v.fst && w.v.snd.fst == v.v.snd.fst && (w == v <==> v.v.snd.snd.n <= 1)
  {
    assert Typed(PRODUCE_ERR, v.v);
    hide ValidUtf8;
  }

  lemma FailedBytes(v: Value, w: Value)
    requires Typed(PRODUCE_ERR, v) && Typed(PRODUCE_ERR, w) && Encode(PRODUCE_ERR, v).Ok?
    requires w.fst == v.fst && w.snd.fst == v.snd.fst
    ensures Encode(PRODUCE_ERR, w).Ok?
    ensures var e := Encode(PRODUCE_ERR, v).value; |e| >= 1 && e[|e| - 1] == v.snd.snd.n
  {
  }
}
