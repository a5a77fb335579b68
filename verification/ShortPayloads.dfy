/**
 The short payloads: fixed-size requests, the replies that are a status byte with an
 optional message, and the two requests made of a name and one more field.
 */
module ShortPayloads {
  import opened Wire
  import opened Layouts
  import D = Decoders
  import E = Encoders

  type u32 = n: int | 0 <= n < 0x1_0000_0000

  datatype Hello = Hello(major: byte)
  /** `CommitReq` and `UnsubscribeReq`. */
  datatype IdReq = IdReq(subscriptionId: u64)
  datatype PollReq = PollReq(subscriptionId: u64, maxMessages: u32, timeoutMs: u32)
  datatype PollRebalanceReq = PollRebalanceReq(subscriptionId: u64, maxEvents: u32)
  datatype RegisterClusterReq = RegisterClusterReq(cluster: Str, config: seq<KeyValue>)
  datatype TxnOp = TxnBegin | TxnCommit | TxnAbort
  datatype TxnReq = TxnReq(cluster: Str, op: TxnOp)
  /** The replies to commit, register, seek, send-offsets, pause/resume, transaction and token requests. */
  datatype Status = StatusOk | StatusErr(message: Str)
  datatype SubscribeResp = SubscribeOk(subscriptionId: u64) | SubscribeErr(message: Str)

  const U32 := Int(4, false)
  const HELLO := U8
  const POLL := Then(U64, Then(U32, U32))
  const POLL_REBALANCE := Then(U64, U32)
  const REGISTER := Then(Text(2, "cluster"), CONFIG)
  const TXN := Then(Text(2, "cluster"), Choice("txn_op", [Empty, Empty, Empty]))
  const SUBSCRIBE_RESP := Choice("subscribe_resp", [U64, Text(2, "message")])

  /** The status replies differ only in the name an invalid tag is reported under. */
  function StatusLayout(field: string): Format { Choice(field, [Empty, Text(2, "message")]) }

  function HelloVal(m: Hello): (v: Value) ensures Typed(HELLO, v) { Widths(); Num(m.major) }

  function IdVal(m: IdReq): (v: Value) ensures Typed(U64, v) { Widths(); Num(m.subscriptionId) }

  function PollReqVal(m: PollReq): (v: Value)
    ensures Typed(POLL, v)
  {
    Widths();
    Both(Num(m.subscriptionId), Both(Num(m.maxMessages), Num(m.timeoutMs)))
  }

  function PollRebalanceVal(m: PollRebalanceReq): (v: Value)
    ensures Typed(POLL_REBALANCE, v)
  {
    Widths();
    Both(Num(m.subscriptionId), Num(m.maxEvents))
  }

  function RegisterVal(m: RegisterClusterReq): (v: Value)
    ensures Typed(REGISTER, v)
  {
    Both(Raw(m.cluster), ConfigVal(m.config))
  }

  function OpCode(op: TxnOp): (n: byte)
    ensures n < 3
  {
    match op case TxnBegin => 0 case TxnCommit => 1 case TxnAbort => 2
  }

  function TxnVal(m: TxnReq): (v: Value)
    ensures Typed(TXN, v)
  {
    Both(Raw(m.cluster), Alt(OpCode(m.op), Unit))
  }

  function StatusVal(m: Status): (v: Value)
    ensures forall field :: Typed(StatusLayout(field), v)
  {
    if m.StatusOk? then Alt(0, Unit) else Alt(1, Raw(m.message))
  }

  function SubscribeRespVal(m: SubscribeResp): (v: Value)
    ensures Typed(SUBSCRIBE_RESP, v)
  {
    Widths();
    match m
    case SubscribeOk(id) => Alt(0, Num(id))
    case SubscribeErr(message) => Alt(1, Raw(message))
  }

  lemma ShortInjective()
    ensures Injective(HelloVal) && Injective(IdVal) && Injective(PollReqVal) && Injective(PollRebalanceVal)
    ensures Injective(RegisterVal) && Injective(TxnVal) && Injective(StatusVal) && Injective(SubscribeRespVal)
  {
  }

  // ---------------------------------------------------------------- decoders

  method DecodeHello(buf: seq<byte>) returns (r: Result<Hello>, rest: seq<byte>)
    ensures Agrees(r, rest, HelloVal, Decode(HELLO, buf))
  {
    rest := buf;
    if buf == [] { return Err(Truncated), rest; }
    var major;
    Widths();
    major, rest := D.GetInt(1, false, buf);
    r := Ok(Hello(major));
  }

  method DecodeIdReq(buf: seq<byte>) returns (r: Result<IdReq>, rest: seq<byte>)
    ensures Agrees(r, rest, IdVal, Decode(U64, buf))
  {
    rest := buf;
    if |buf| < 8 { return Err(Truncated), rest; }
    var id;
    Widths();
    id, rest := D.GetInt(8, false, buf);
    r := Ok(IdReq(id));
  }

  method DecodePollReq(buf: seq<byte>) returns (r: Result<PollReq>, rest: seq<byte>)
    ensures Agrees(r, rest, PollReqVal, Decode(POLL, buf))
  {
    hide Decode, DecodeAll, Pow256;
    rest := buf;
    if |buf| < 8 + 4 + 4 { D.TooShort(POLL, buf); return Err(Truncated), rest; }
    var id, max, timeout;
    Widths();
    D.Field(POLL, buf);
    id, rest := D.GetInt(8, false, buf);
    D.Field(POLL.second, rest);
    max, rest := D.GetInt(4, false, rest);
    timeout, rest := D.GetInt(4, false, rest);
    r := Ok(PollReq(id, max, timeout));
  }

  method DecodePollRebalanceReq(buf: seq<byte>) returns (r: Result<PollRebalanceReq>, rest: seq<byte>)
    ensures Agrees(r, rest, PollRebalanceVal, Decode(POLL_REBALANCE, buf))
  {
    hide Decode, DecodeAll, Pow256;
    rest := buf;
    if |buf| < 12 { D.TooShort(POLL_REBALANCE, buf); return Err(Truncated), rest; }
    var id, max;
    Widths();
    D.Field(POLL_REBALANCE, buf);
    id, rest := D.GetInt(8, false, buf);
    max, rest := D.GetInt(4, false, rest);
    r := Ok(PollRebalanceReq(id, max));
  }

  method DecodeRegisterClusterReq(buf: seq<byte>) returns (r: Result<RegisterClusterReq>, rest: seq<byte>)
    ensures Agrees(r, rest, RegisterVal, Decode(REGISTER, buf))
  {
    hide Decode, DecodeAll, TakeSized, ValidUtf8, Typed, Pow256;
    var cluster, config: seq<KeyValue>;
    D.Field(REGISTER, buf);
    cluster, rest :- D.ReadStr(2, "cluster", buf);
    config, rest :- D.ReadKeyValues(2, "cfg_key", "cfg_value", rest);
    r := Ok(RegisterClusterReq(cluster, config));
  }

  method DecodeTxnReq(buf: seq<byte>) returns (r: Result<TxnReq>, rest: seq<byte>)
    ensures Agrees(r, rest, TxnVal, Decode(TXN, buf))
  {
    hide DecodeAll, TakeSized, ValidUtf8, Typed, Pow256;
    var cluster;
    D.Field(TXN, buf);
    cluster, rest :- D.ReadStr(2, "cluster", buf);
    if |rest| < 1 { return Err(Truncated), rest; }
    D.Branch(TXN.second, rest);
    var op := rest[0];
    rest := rest[1..];
    match op
    case 0 => r := Ok(TxnReq(cluster, TxnBegin));
    case 1 => r := Ok(TxnReq(cluster, TxnCommit));
    case 2 => r := Ok(TxnReq(cluster, TxnAbort));
    case _ => r := Err(InvalidTag(op, "txn_op"));
  }

  method DecodeStatus(field: string, buf: seq<byte>) returns (r: Result<Status>, rest: seq<byte>)
    ensures Agrees(r, rest, StatusVal, Decode(StatusLayout(field), buf))
  {
    hide DecodeAll, TakeSized, ValidUtf8, Typed, Pow256;
    rest := buf;
    if buf == [] { return Err(Truncated), rest; }
    D.Branch(StatusLayout(field), buf);
    rest := buf[1..];
    match buf[0]
    case 0 => r := Ok(StatusOk);
    case 1 =>
      var message;
      message, rest :- D.ReadStr(2, "message", rest);
      r := Ok(StatusErr(message));
    case tag => r := Err(InvalidTag(tag, field));
  }

  method DecodeSubscribeResp(buf: seq<byte>) returns (r: Result<SubscribeResp>, rest: seq<byte>)
    ensures Agrees(r, rest, SubscribeRespVal, Decode(SUBSCRIBE_RESP, buf))
  {
    hide DecodeAll, TakeSized, ValidUtf8, Typed, Pow256;
    rest := buf;
    if buf == [] { return Err(Truncated), rest; }
    D.Branch(SUBSCRIBE_RESP, buf);
    rest := buf[1..];
    match buf[0]
    case 0 =>
      if |rest| < 8 { return Err(Truncated), rest; }
      var id;
      Widths();
      id, rest := D.GetInt(8, false, rest);
      r := Ok(SubscribeOk(id));
    case 1 =>
      var message;
      message, rest :- D.ReadStr(2, "message", rest);
      r := Ok(SubscribeErr(message));
    case tag => r := Err(InvalidTag(tag, "subscribe_resp"));
  }

  // ---------------------------------------------------------------- encoders

  method EncodeHello(m: Hello, buf: seq<byte>) returns (out: seq<byte>)
    ensures Ok(out) == E.Appended(buf, Encode(HELLO, HelloVal(m)))
  {
    Widths();
    out := E.PutInt(1, false, m.major, buf);
  }

  method EncodeIdReq(m: IdReq, buf: seq<byte>) returns (out: seq<byte>)
    ensures Ok(out) == E.Appended(buf, Encode(U64, IdVal(m)))
  {
    Widths();
    out := E.PutInt(8, false, m.subscriptionId, buf);
  }

  method EncodePollReq(m: PollReq, buf: seq<byte>) returns (out: seq<byte>)
    ensures Ok(out) == E.Appended(buf, Encode(POLL, PollReqVal(m)))
  {
    hide Encode, EncodeAll, Typed, Pow256;
    Widths();
    ghost var v := PollReqVal(m);
    E.Field(POLL, v, buf);
    out := E.PutInt(8, false, m.subscriptionId, buf);
    E.Field(POLL.second, v.snd, out);
    out := E.PutInt(4, false, m.maxMessages, out);
    out := E.PutInt(4, false, m.timeoutMs, out);
  }

  method EncodePollRebalanceReq(m: PollRebalanceReq, buf: seq<byte>) returns (out: seq<byte>)
    ensures Ok(out) == E.Appended(buf, Encode(POLL_REBALANCE, PollRebalanceVal(m)))
  {
    hide Encode, EncodeAll, Typed, Pow256;
    Widths();
    E.Field(POLL_REBALANCE, PollRebalanceVal(m), buf);
    out := E.PutInt(8, false, m.subscriptionId, buf);
    out := E.PutInt(4, false, m.maxEvents, out);
  }

  method EncodeRegisterClusterReq(m: RegisterClusterReq, buf: seq<byte>) returns (r: Result<seq<byte>>)
    ensures r == E.Appended(buf, Encode(REGISTER, RegisterVal(m)))
  {
    hide Encode, EncodeAll, Typed, ValidUtf8;
    var out;
    E.Field(REGISTER, RegisterVal(m), buf);
    out :- E.WriteBytes(2, m.cluster, buf);
    r := E.WriteKeyValues(2, "cfg_key", "cfg_value", m.config, out);
  }

  method EncodeTxnReq(m: TxnReq, buf: seq<byte>) returns (r: Result<seq<byte>>)
    ensures r == E.Appended(buf, Encode(TXN, TxnVal(m)))
  {
    hide EncodeAll, Typed, ValidUtf8, Pow256;
    var out;
    ghost var v := TxnVal(m);
    E.Field(TXN, v, buf);
    out :- E.WriteBytes(2, m.cluster, buf);
    E.Branch(TXN.second, v.snd, out);
    out := out + [OpCode(m.op)];
    assert out + [] == out;
    r := Ok(out);
  }

  method EncodeStatus(ghost field: string, m: Status, buf: seq<byte>) returns (r: Result<seq<byte>>)
    ensures r == E.Appended(buf, Encode(StatusLayout(field), StatusVal(m)))
  {
    hide EncodeAll, Typed, ValidUtf8, Pow256;
    E.Branch(StatusLayout(field), StatusVal(m), buf);
    match m
    case StatusOk =>
      assert buf + [0] + [] == buf + [0];
      r := Ok(buf + [0]);
    case StatusErr(message) =>
      r := E.WriteBytes(2, message, buf + [1]);
  }

  method EncodeSubscribeResp(m: SubscribeResp, buf: seq<byte>) returns (r: Result<seq<byte>>)
    ensures r == E.Appended(buf, Encode(SUBSCRIBE_RESP, SubscribeRespVal(m)))
  {
    hide EncodeAll, Typed, ValidUtf8, Pow256;
    E.Branch(SUBSCRIBE_RESP, SubscribeRespVal(m), buf);
    match m
    case SubscribeOk(id) =>
      Widths();
      var out := E.PutInt(8, false, id, buf + [0]);
      r := Ok(out);
    case SubscribeErr(message) =>
      r := E.WriteBytes(2, message, buf + [1]);
  }
}
