/**
 The payload types of the protocol and the layout each is documented to have.
 `XVal` reads a message as a value of its layout; it is injective, so the laws of
 the wire grammar become laws of the messages.
 */
module Layouts {
  import opened Wire

  // ------------------------------------------------------------------- types

  type u16 = n: int | 0 <= n < 0x1_0000
  type u64 = n: int | 0 <= n < 0x1_0000_0000_0000_0000
  type i32 = n: int | -0x8000_0000 <= n < 0x8000_0000
  type i64 = n: int | -0x8000_0000_0000_0000 <= n < 0x8000_0000_0000_0000

  /** A Rust `String`: bytes that are valid UTF-8. */
  type Str = s: seq<byte> | ValidUtf8(s) witness []

  datatype Header = Header(name: Str, value: seq<byte>)
  datatype KeyValue = KeyValue(key: Str, value: Str)
  datatype Partition = Partition(topic: Str, partition: i32)
  datatype Offset = Offset(topic: Str, partition: i32, offset: i64)

  datatype ConsumerMessage = ConsumerMessage(
    topic: Str, partition: i32, offset: i64, timestampMs: i64,
    key: seq<byte>, value: seq<byte>, headers: seq<Header>)
  datatype PollResp = PollOk(messages: seq<ConsumerMessage>) | PollErr(message: Str)

  datatype RebalanceEvent =
    | Assign(partitions: seq<Partition>)
    | Revoke(partitions: seq<Partition>)
    | Error(message: Str)
  datatype PollRebalanceResp = RebalanceOk(events: seq<RebalanceEvent>) | RebalanceErr(message: Str)

  datatype SubscribeReq = SubscribeReq(cluster: Str, groupId: Str, topics: seq<Str>, config: seq<KeyValue>)

  datatype ProduceFnf = ProduceFnf(
    cluster: Str, topic: Str, key: seq<byte>, value: seq<byte>,
    partition: i32, timestampMs: i64, headers: seq<Header>)

  datatype SeekReq =
    | ByOffset(subscriptionId: u64, targets: seq<Offset>)
    | ByTimestamp(subscriptionId: u64, timestampMs: i64, partitions: seq<Partition>)

  datatype SendOffsetsReq = SendOffsetsReq(producerCluster: Str, subscriptionId: u64, groupId: Str, offsets: seq<Offset>)

  datatype OAuthReq = OAuthReq(cluster: Str, token: Str, lifetimeMs: i64, principal: Str, extensions: seq<KeyValue>)

  datatype PauseResumeOp = Pause | Resume
  datatype PauseResumeReq = PauseResumeReq(subscriptionId: u64, op: PauseResumeOp, partitions: seq<Partition>)

  // ----------------------------------------------------------------- layouts

  const U8 := Int(1, false)
  const U16 := Int(2, false)
  const U64 := Int(8, false)
  const I32 := Int(4, true)
  const I64 := Int(8, true)
  const TOPIC := Text(2, "topic")
  const HEADER := Then(Text(2, "header_name"), Blob(4))
  const HEADERS := Many(4, HEADER)
  const PARTITION := Then(TOPIC, I32)
  const PARTITIONS := Many(4, PARTITION)
  const OFFSET := Then(TOPIC, Then(I32, I64))
  const OFFSETS := Many(4, OFFSET)

  function KeyValueLayout(key: string, value: string): Format { Then(Text(2, key), Text(2, value)) }

  const CONFIG := Many(2, KeyValueLayout("cfg_key", "cfg_value"))
  const EXTENSIONS := Many(4, KeyValueLayout("ext_key", "ext_val"))
  const MESSAGE_BODY := Then(Blob(4), Then(Blob(4), HEADERS))
  const MESSAGE := Then(TOPIC, Then(I32, Then(I64, Then(I64, MESSAGE_BODY))))
  const POLL_RESP := Choice("poll_resp", [Many(4, MESSAGE), Text(2, "message")])
  const EVENT := Choice("rebalance_event_kind", [PARTITIONS, PARTITIONS, Text(2, "message")])
  const REBALANCE_RESP := Choice("poll_rebalance_resp", [Many(4, EVENT), Text(2, "message")])
  const SUBSCRIBE := Then(Text(2, "cluster"), Then(Text(2, "group_id"), Then(Many(2, TOPIC), CONFIG)))
  const PRODUCE_BODY := Then(Blob(4), Then(Blob(4), Then(I32, Then(I64, HEADERS))))
  const PRODUCE := Then(Text(2, "cluster"), Then(TOPIC, PRODUCE_BODY))
  const SEEK := Then(U64, Choice("seek_mode", [OFFSETS, Then(I64, PARTITIONS)]))
  const SEND_OFFSETS := Then(Text(2, "producer_cluster"), Then(U64, Then(Text(2, "group_id"), OFFSETS)))
  const OAUTH := Then(Text(2, "cluster"), Then(Text(4, "token_value"), Then(I64, Then(Text(2, "principal_name"), EXTENSIONS))))
  const PAUSE_RESUME := Then(U64, Then(Choice("pause_resume_op", [Empty, Empty]), PARTITIONS))

  lemma Widths()
    ensures Pow256(1) == 0x100
    ensures Pow256(2) == 0x1_0000
    ensures Pow256(4) == 0x1_0000_0000
    ensures Pow256(8) == 0x1_0000_0000_0000_0000
  {
  }

  // ---------------------------------------------------- messages as values

  function ListVals<T>(xs: seq<T>, val: T -> Value): (vs: seq<Value>)
    ensures |vs| == |xs|
    ensures forall i :: 0 <= i < |xs| ==> vs[i] == val(xs[i])
  {
    seq(|xs|, i requires 0 <= i < |xs| => val(xs[i]))
  }

  lemma {:induction false} AllTypedAt(item: Format, vs: seq<Value>)
    requires forall i :: 0 <= i < |vs| ==> Typed(item, vs[i])
    ensures AllTyped(item, vs)
    decreases |vs|
  {
    if vs != [] { AllTypedAt(item, vs[1..]); }
  }

  function ListVal<T>(w: pos, item: Format, xs: seq<T>, val: T -> Value): (v: Value)
    requires forall i :: 0 <= i < |xs| ==> Typed(item, val(xs[i]))
    ensures Typed(Many(w, item), v)
  {
    AllTypedAt(item, ListVals(xs, val));
    Items(ListVals(xs, val))
  }

  function StrVal(s: Str): (v: Value) ensures forall w, field :: Typed(Text(w, field), v) { Raw(s) }

  function HeaderVal(h: Header): (v: Value) ensures Typed(HEADER, v) { Both(Raw(h.name), Raw(h.value)) }

  function HeadersVal(hs: seq<Header>): (v: Value) ensures Typed(HEADERS, v) { ListVal(4, HEADER, hs, HeaderVal) }

  function KeyValueVal(p: KeyValue): (v: Value)
    ensures forall k, x :: Typed(KeyValueLayout(k, x), v)
  {
    Both(Raw(p.key), Raw(p.value))
  }

  function PartitionVal(p: Partition): (v: Value)
    ensures Typed(PARTITION, v)
  {
    Widths();
    Both(Raw(p.topic), Num(p.partition))
  }

  function PartitionsVal(ps: seq<Partition>): (v: Value) ensures Typed(PARTITIONS, v) { ListVal(4, PARTITION, ps, PartitionVal) }

  function OffsetVal(o: Offset): (v: Value)
    ensures Typed(OFFSET, v)
  {
    Widths();
    Both(Raw(o.topic), Both(Num(o.partition), Num(o.offset)))
  }

  function OffsetsVal(os: seq<Offset>): (v: Value) ensures Typed(OFFSETS, v) { ListVal(4, OFFSET, os, OffsetVal) }

  function MessageVal(m: ConsumerMessage): (v: Value)
    ensures Typed(MESSAGE, v)
  {
    Widths();
    var body := Both(Raw(m.key), Both(Raw(m.value), HeadersVal(m.headers)));
    assert Typed(MESSAGE_BODY, body);
    assert Typed(Then(I64, MESSAGE_BODY), Both(Num(m.timestampMs), body));
    Both(Raw(m.topic), Both(Num(m.partition), Both(Num(m.offset), Both(Num(m.timestampMs), body))))
  }

  function PollVal(p: PollResp): (v: Value)
    ensures Typed(POLL_RESP, v)
  {
    match p
    case PollOk(ms) => Alt(0, ListVal(4, MESSAGE, ms, MessageVal))
    case PollErr(message) => Alt(1, Raw(message))
  }

  function EventVal(e: RebalanceEvent): (v: Value)
    ensures Typed(EVENT, v)
  {
    match e
    case Assign(ps) => Alt(0, PartitionsVal(ps))
    case Revoke(ps) => Alt(1, PartitionsVal(ps))
    case Error(message) => Alt(2, Raw(message))
  }

  function RebalanceVal(p: PollRebalanceResp): (v: Value)
    ensures Typed(REBALANCE_RESP, v)
  {
    match p
    case RebalanceOk(es) => Alt(0, ListVal(4, EVENT, es, EventVal))
    case RebalanceErr(message) => Alt(1, Raw(message))
  }

  function ConfigVal(ps: seq<KeyValue>): (v: Value)
    ensures Typed(CONFIG, v)
  {
    ListVal(2, KeyValueLayout("cfg_key", "cfg_value"), ps, KeyValueVal)
  }

  function SubscribeVal(m: SubscribeReq): (v: Value)
    ensures Typed(SUBSCRIBE, v)
  {
    var lists := Both(ListVal(2, TOPIC, m.topics, StrVal), ConfigVal(m.config));
    assert Typed(Then(Many(2, TOPIC), CONFIG), lists);
    Both(Raw(m.cluster), Both(Raw(m.groupId), lists))
  }

  function ProduceVal(m: ProduceFnf): (v: Value)
    ensures Typed(PRODUCE, v)
  {
    Widths();
    var numbers := Both(Num(m.partition), Both(Num(m.timestampMs), HeadersVal(m.headers)));
    assert Typed(Then(I32, Then(I64, HEADERS)), numbers);
    var body := Both(Raw(m.key), Both(Raw(m.value), numbers));
    assert Typed(PRODUCE_BODY, body);
    Both(Raw(m.cluster), Both(Raw(m.topic), body))
  }

  function SeekVal(m: SeekReq): (v: Value)
    ensures Typed(SEEK, v)
  {
    Widths();
    match m
    case ByOffset(id, targets) => Both(Num(id), Alt(0, OffsetsVal(targets)))
    case ByTimestamp(id, ts, ps) =>
      assert Typed(Then(I64, PARTITIONS), Both(Num(ts), PartitionsVal(ps)));
      Both(Num(id), Alt(1, Both(Num(ts), PartitionsVal(ps))))
  }

  function SendOffsetsVal(m: SendOffsetsReq): (v: Value)
    ensures Typed(SEND_OFFSETS, v)
  {
    Widths();
    var tail := Both(Raw(m.groupId), OffsetsVal(m.offsets));
    assert Typed(Then(Text(2, "group_id"), OFFSETS), tail);
    Both(Raw(m.producerCluster), Both(Num(m.subscriptionId), tail))
  }

  function OAuthVal(m: OAuthReq): (v: Value)
    ensures Typed(OAUTH, v)
  {
    Widths();
    var tail := Both(Raw(m.principal), ListVal(4, KeyValueLayout("ext_key", "ext_val"), m.extensions, KeyValueVal));
    assert Typed(Then(Text(2, "principal_name"), EXTENSIONS), tail);
    assert Typed(Then(I64, Then(Text(2, "principal_name"), EXTENSIONS)), Both(Num(m.lifetimeMs), tail));
    Both(Raw(m.cluster), Both(Raw(m.token), Both(Num(m.lifetimeMs), tail)))
  }

  function PauseResumeVal(m: PauseResumeReq): (v: Value)
    ensures Typed(PAUSE_RESUME, v)
  {
    Widths();
    Both(Num(m.subscriptionId), Both(Alt(if m.op.Pause? then 0 else 1, Unit), PartitionsVal(m.partitions)))
  }

  // --------------------------------------------------------------- the laws

  ghost predicate Injective<T(!new)>(val: T -> Value) {
    forall x, y :: val(x) == val(y) ==> x == y
  }

  lemma ListInjective<T(!new)>(val: T -> Value, xs: seq<T>, ys: seq<T>)
    requires Injective(val) && ListVals(xs, val) == ListVals(ys, val)
    ensures xs == ys
  {
  }

  lemma PartsInjective()
    ensures Injective(StrVal) && Injective(HeaderVal) && Injective(KeyValueVal)
    ensures Injective(PartitionVal) && Injective(OffsetVal)
  {
  }

  lemma MessageInjective()
    ensures Injective(MessageVal)
  {
  }

  lemma PollInjective()
    ensures Injective(PollVal)
  {
    MessageInjective();
    forall x: PollResp, y: PollResp | PollVal(x) == PollVal(y)
      ensures x == y
    {
      if x.PollOk? { ListInjective(MessageVal, x.messages, y.messages); }
    }
  }

  lemma EventInjective()
    ensures Injective(EventVal)
  {
  }

  lemma RebalanceInjective()
    ensures Injective(RebalanceVal)
  {
    EventInjective();
    forall x: PollRebalanceResp, y: PollRebalanceResp | RebalanceVal(x) == RebalanceVal(y)
      ensures x == y
    {
      if x.RebalanceOk? { ListInjective(EventVal, x.events, y.events); }
    }
  }

  lemma RequestsInjective()
    ensures Injective(SubscribeVal) && Injective(ProduceVal) && Injective(SeekVal)
    ensures Injective(SendOffsetsVal) && Injective(OAuthVal) && Injective(PauseResumeVal)
  {
    PartsInjective();
    forall x: SubscribeReq, y: SubscribeReq | SubscribeVal(x) == SubscribeVal(y)
      ensures x == y
    {
      ListInjective(StrVal, x.topics, y.topics);
      ListInjective(KeyValueVal, x.config, y.config);
    }
    forall x: ProduceFnf, y: ProduceFnf | ProduceVal(x) == ProduceVal(y)
      ensures x == y
    {
      ListInjective(HeaderVal, x.headers, y.headers);
    }
    forall x: SeekReq, y: SeekReq | SeekVal(x) == SeekVal(y)
      ensures x == y
    {
      if x.ByOffset? { ListInjective(OffsetVal, x.targets, y.targets); }
      else { ListInjective(PartitionVal, x.partitions, y.partitions); }
    }
    forall x: SendOffsetsReq, y: SendOffsetsReq | SendOffsetsVal(x) == SendOffsetsVal(y)
      ensures x == y
    {
      ListInjective(OffsetVal, x.offsets, y.offsets);
    }
    forall x: OAuthReq, y: OAuthReq | OAuthVal(x) == OAuthVal(y)
      ensures x == y
    {
      ListInjective(KeyValueVal, x.extensions, y.extensions);
    }
    forall x: PauseResumeReq, y: PauseResumeReq | PauseResumeVal(x) == PauseResumeVal(y)
      ensures x == y
    {
      ListInjective(PartitionVal, x.partitions, y.partitions);
    }
  }

  /** What a decoder returned is what its layout says: the value and the unread rest, or the same error. */
  ghost predicate Agrees<T(!new)>(r: Result<T>, rest: seq<byte>, val: T -> Value, spec: Result<Parsed>) {
    match spec
    case Ok(p) => r.Ok? && val(r.value) == p.v && rest == p.rest
    case Err(e) => r == Err(e)
  }

  /** Any decoder that implements its layout gives back every encodable message and stops at its end. */
  lemma MessageRoundTrip<T(!new)>(f: Format, val: T -> Value, m: T, tail: seq<byte>, r: Result<T>, rest: seq<byte>)
    requires Injective(val) && Typed(f, val(m)) && Encode(f, val(m)).Ok?
    requires Agrees(r, rest, val, Decode(f, Encode(f, val(m)).value + tail))
    ensures r == Ok(m) && rest == tail
  {
    RoundTrip(f, val(m), tail);
    assert val(r.value) == val(m);
  }

  /** Any bytes such a decoder accepts start with the one encoding of the message it returned. */
  lemma MessageCanonical<T(!new)>(f: Format, val: T -> Value, buf: seq<byte>, r: Result<T>, rest: seq<byte>)
    requires Agrees(r, rest, val, Decode(f, buf)) && r.Ok?
    ensures Typed(f, val(r.value)) && Encode(f, val(r.value)).Ok?
    ensures buf == Encode(f, val(r.value)).value + rest
  {
    Canonical(f, buf);
  }

  /** Such a decoder answers `Truncated` on every strict prefix of every encoding. */
  lemma MessageTruncated<T(!new)>(f: Format, val: T -> Value, m: T, k: nat, r: Result<T>, rest: seq<byte>)
    requires Typed(f, val(m)) && Encode(f, val(m)).Ok? && k < |Encode(f, val(m)).value|
    requires Agrees(r, rest, val, Decode(f, Encode(f, val(m)).value[..k]))
    ensures r == Err(Truncated)
  {
    PrefixTruncated(f, val(m), k);
  }
}
