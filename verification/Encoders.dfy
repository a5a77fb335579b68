/**
 The hand-written encoders: each appends its fields to the buffer and stops at the
 first field that does not fit its length prefix. The result is the buffer with the
 encoding of the message's layout appended, or the layout's error.
 */
module Encoders {
  import opened Wire
  import opened Layouts

  /** Appending an encoding to what is already in the buffer. */
  function Appended(buf: seq<byte>, spec: Result<seq<byte>>): Result<seq<byte>> {
    match spec
    case Ok(bytes) => Ok(buf + bytes)
    case Err(e) => Err(e)
  }

  lemma Field(f: Format, v: Value, buf: seq<byte>)
    requires f.Then? && Typed(f, v)
    ensures Typed(f.first, v.fst) && Typed(f.second, v.snd)
    ensures match Appended(buf, Encode(f.first, v.fst))
            case Ok(out) => Appended(buf, Encode(f, v)) == Appended(out, Encode(f.second, v.snd))
            case Err(e) => Encode(f, v) == Err(e)
  {
    var x, y := Encode(f.first, v.fst), Encode(f.second, v.snd);
    if x.Ok? && y.Ok? { Assoc(buf, x.value, y.value); }
  }

  lemma Branch(f: Format, v: Value, buf: seq<byte>)
    requires f.Choice? && Typed(f, v)
    ensures Typed(f.cases[v.tag], v.v)
    ensures Appended(buf, Encode(f, v)) == Appended(buf + [v.tag], Encode(f.cases[v.tag], v.v))
  {
    var body := Encode(f.cases[v.tag], v.v);
    if body.Ok? { Assoc(buf, [v.tag], body.value); }
  }

  /** The items from `i` on are still to be written after `out`. */
  ghost predicate InLoop<T(!new)>(f: Format, val: T -> Value, xs: seq<T>, buf: seq<byte>, i: nat, out: seq<byte>) {
    && f.Many? && i <= |xs| && AllTyped(f.item, ListVals(xs, val)) && AllTyped(f.item, ListVals(xs[i..], val))
    && Appended(buf, Encode(f, Items(ListVals(xs, val)))) == Appended(out, EncodeAll(f.item, ListVals(xs[i..], val)))
  }

  lemma Counted(f: Format, vs: seq<Value>)
    requires f.Many? && Typed(f, Items(vs))
    ensures |vs| >= Pow256(f.width) ==> Encode(f, Items(vs)) == Err(FieldTooLarge(|vs|))
    ensures |vs| < Pow256(f.width) ==> Encode(f, Items(vs)) == Appended(BigEndian(f.width, |vs|), EncodeAll(f.item, vs))
  {
  }

  lemma LoopStarts<T(!new)>(f: Format, val: T -> Value, xs: seq<T>, buf: seq<byte>)
    requires f.Many? && Typed(f, Items(ListVals(xs, val)))
    ensures |xs| >= Pow256(f.width) ==> Encode(f, Items(ListVals(xs, val))) == Err(FieldTooLarge(|xs|))
    ensures |xs| < Pow256(f.width) ==> InLoop(f, val, xs, buf, 0, buf + BigEndian(f.width, |xs|))
  {
    hide Encode, EncodeAll;
    assert xs[0..] == xs;
    Counted(f, ListVals(xs, val));
    var body := EncodeAll(f.item, ListVals(xs, val));
    if |xs| < Pow256(f.width) && body.Ok? { Assoc(buf, BigEndian(f.width, |xs|), body.value); }
  }

  lemma LoopAdvances<T(!new)>(f: Format, val: T -> Value, xs: seq<T>, buf: seq<byte>, i: nat, out: seq<byte>)
    requires InLoop(f, val, xs, buf, i, out) && i < |xs|
    ensures Typed(f.item, val(xs[i]))
    ensures match Appended(out, Encode(f.item, val(xs[i])))
            case Ok(next) => InLoop(f, val, xs, buf, i + 1, next)
            case Err(e) => Encode(f, Items(ListVals(xs, val))) == Err(e)
  {
    var vs := ListVals(xs[i..], val);
    assert vs[0] == val(xs[i]) && vs[1..] == ListVals(xs[i + 1..], val);
    var x, rest := Encode(f.item, vs[0]), EncodeAll(f.item, vs[1..]);
    if x.Ok? && rest.Ok? { Assoc(out, x.value, rest.value); }
  }

  lemma LoopEnds<T(!new)>(f: Format, val: T -> Value, xs: seq<T>, buf: seq<byte>, out: seq<byte>)
    requires InLoop(f, val, xs, buf, |xs|, out)
    ensures Appended(buf, Encode(f, Items(ListVals(xs, val)))) == Ok(out)
  {
    assert ListVals(xs[|xs|..], val) == [];
    assert out + [] == out;
  }

  // -------------------------------------------------------------- primitives

  /** `put_u8` .. `put_i64`. */
  method PutInt(w: pos, signed: bool, n: int, buf: seq<byte>) returns (out: seq<byte>)
    requires InRange(w, signed, n)
    ensures Ok(out) == Appended(buf, Encode(Int(w, signed), Num(n)))
  {
    out := buf + BigEndian(w, Unsigned(w, n));
  }

  method WriteBytes(w: pos, s: seq<byte>, buf: seq<byte>) returns (r: Result<seq<byte>>)
    ensures r == Appended(buf, Encode(Blob(w), Raw(s)))
    ensures ValidUtf8(s) ==> forall field :: r == Appended(buf, Encode(Text(w, field), Raw(s)))
  {
    if |s| >= Pow256(w) { return Err(FieldTooLarge(|s|)); }
    var out := buf + BigEndian(w, |s|);
    Assoc(buf, BigEndian(w, |s|), s);
    r := Ok(out + s);
  }

  // -------------------------------------------------------------- list loops

  method WriteHeaders(headers: seq<Header>, buf: seq<byte>) returns (r: Result<seq<byte>>)
    ensures r == Appended(buf, Encode(HEADERS, HeadersVal(headers)))
  {
    hide Encode, EncodeAll, Typed, ValidUtf8;
    Widths();
    ghost var list := HeadersVal(headers);
    LoopStarts(HEADERS, HeaderVal, headers, buf);
    if |headers| > 0xFFFF_FFFF { return Err(FieldTooLarge(|headers|)); }
    var out, i := buf + BigEndian(4, |headers|), 0;
    while i < |headers|
      invariant i <= |headers| && InLoop(HEADERS, HeaderVal, headers, buf, i, out)
    {
      LoopAdvances(HEADERS, HeaderVal, headers, buf, i, out);
      Field(HEADER, HeaderVal(headers[i]), out);
      out :- WriteBytes(2, headers[i].name, out);
      out :- WriteBytes(4, headers[i].value, out);
      i := i + 1;
    }
    LoopEnds(HEADERS, HeaderVal, headers, buf, out);
    r := Ok(out);
  }

  method WritePartitions(parts: seq<Partition>, buf: seq<byte>) returns (r: Result<seq<byte>>)
    ensures r == Appended(buf, Encode(PARTITIONS, PartitionsVal(parts)))
  {
    hide Encode, EncodeAll, Typed, ValidUtf8;
    Widths();
    ghost var list := PartitionsVal(parts);
    LoopStarts(PARTITIONS, PartitionVal, parts, buf);
    if |parts| > 0xFFFF_FFFF { return Err(FieldTooLarge(|parts|)); }
    var out, i := buf + BigEndian(4, |parts|), 0;
    while i < |parts|
      invariant i <= |parts| && InLoop(PARTITIONS, PartitionVal, parts, buf, i, out)
    {
      LoopAdvances(PARTITIONS, PartitionVal, parts, buf, i, out);
      Field(PARTITION, PartitionVal(parts[i]), out);
      out :- WriteBytes(2, parts[i].topic, out);
      out := PutInt(4, true, parts[i].partition, out);
      i := i + 1;
    }
    LoopEnds(PARTITIONS, PartitionVal, parts, buf, out);
    r := Ok(out);
  }

  method WriteOffsets(offsets: seq<Offset>, buf: seq<byte>) returns (r: Result<seq<byte>>)
    ensures r == Appended(buf, Encode(OFFSETS, OffsetsVal(offsets)))
  {
    hide Encode, EncodeAll, Typed, ValidUtf8;
    Widths();
    ghost var list := OffsetsVal(offsets);
    LoopStarts(OFFSETS, OffsetVal, offsets, buf);
    if |offsets| > 0xFFFF_FFFF { return Err(FieldTooLarge(|offsets|)); }
    var out, i := buf + BigEndian(4, |offsets|), 0;
    while i < |offsets|
      invariant i <= |offsets| && InLoop(OFFSETS, OffsetVal, offsets, buf, i, out)
    {
      LoopAdvances(OFFSETS, OffsetVal, offsets, buf, i, out);
      ghost var v := OffsetVal(offsets[i]);
      Field(OFFSET, v, out);
      out :- WriteBytes(2, offsets[i].topic, out);
      Field(OFFSET.second, v.snd, out);
      out := PutInt(4, true, offsets[i].partition, out);
      out := PutInt(8, true, offsets[i].offset, out);
      i := i + 1;
    }
    LoopEnds(OFFSETS, OffsetVal, offsets, buf, out);
    r := Ok(out);
  }

  method WriteKeyValues(w: pos, ghost key: string, ghost value: string, pairs: seq<KeyValue>, buf: seq<byte>)
    returns (r: Result<seq<byte>>)
    ensures r == Appended(buf, Encode(Many(w, KeyValueLayout(key, value)), ListVal(w, KeyValueLayout(key, value), pairs, KeyValueVal)))
  {
    hide Encode, EncodeAll, Typed, ValidUtf8;
    ghost var f := Many(w, KeyValueLayout(key, value));
    ghost var list := ListVal(w, f.item, pairs, KeyValueVal);
    LoopStarts(f, KeyValueVal, pairs, buf);
    if |pairs| >= Pow256(w) { return Err(FieldTooLarge(|pairs|)); }
    var out, i := buf + BigEndian(w, |pairs|), 0;
    while i < |pairs|
      invariant i <= |pairs| && InLoop(f, KeyValueVal, pairs, buf, i, out)
    {
      LoopAdvances(f, KeyValueVal, pairs, buf, i, out);
      Field(f.item, KeyValueVal(pairs[i]), out);
      out :- WriteBytes(2, pairs[i].key, out);
      out :- WriteBytes(2, pairs[i].value, out);
      i := i + 1;
    }
    LoopEnds(f, KeyValueVal, pairs, buf, out);
    r := Ok(out);
  }

  method WriteTopics(topics: seq<Str>, buf: seq<byte>) returns (r: Result<seq<byte>>)
    ensures r == Appended(buf, Encode(Many(2, TOPIC), ListVal(2, TOPIC, topics, StrVal)))
  {
    hide Encode, EncodeAll, Typed, ValidUtf8;
    Widths();
    ghost var f := Many(2, TOPIC);
    ghost var list := ListVal(2, TOPIC, topics, StrVal);
    LoopStarts(f, StrVal, topics, buf);
    if |topics| > 0xFFFF { return Err(FieldTooLarge(|topics|)); }
    var out, i := buf + BigEndian(2, |topics|), 0;
    while i < |topics|
      invariant i <= |topics| && InLoop(f, StrVal, topics, buf, i, out)
    {
      LoopAdvances(f, StrVal, topics, buf, i, out);
      out :- WriteBytes(2, topics[i], out);
      i := i + 1;
    }
    LoopEnds(f, StrVal, topics, buf, out);
    r := Ok(out);
  }

  // ---------------------------------------------------------------- payloads

  method WriteMessage(m: ConsumerMessage, buf: seq<byte>) returns (r: Result<seq<byte>>)
    ensures r == Appended(buf, Encode(MESSAGE, MessageVal(m)))
  {
    hide Encode, EncodeAll, Typed, ValidUtf8, Pow256;
    Widths();
    var out := buf;
    ghost var v := MessageVal(m);
    Field(MESSAGE, v, out);
    out :- WriteBytes(2, m.topic, out);
    Field(MESSAGE.second, v.snd, out);
    out := PutInt(4, true, m.partition, out);
    Field(MESSAGE.second.second, v.snd.snd, out);
    out := PutInt(8, true, m.offset, out);
    Field(MESSAGE.second.second.second, v.snd.snd.snd, out);
    out := PutInt(8, true, m.timestampMs, out);
    ghost var body := v.snd.snd.snd.snd;
    Field(MESSAGE_BODY, body, out);
    out :- WriteBytes(4, m.key, out);
    Field(MESSAGE_BODY.second, body.snd, out);
    out :- WriteBytes(4, m.value, out);
    r := WriteHeaders(m.headers, out);
  }

  method EncodePollResp(p: PollResp, buf: seq<byte>) returns (r: Result<seq<byte>>)
    ensures r == Appended(buf, Encode(POLL_RESP, PollVal(p)))
  {
    hide Encode, EncodeAll, Typed, ValidUtf8, Pow256;
    Branch(POLL_RESP, PollVal(p), buf);
    match p
    case PollOk(messages) =>
      var start := buf + [0];
      ghost var f := Many(4, MESSAGE);
      Widths();
      LoopStarts(f, MessageVal, messages, start);
      if |messages| > 0xFFFF_FFFF { return Err(FieldTooLarge(|messages|)); }
      var out, i := start + BigEndian(4, |messages|), 0;
      while i < |messages|
        invariant i <= |messages| && InLoop(f, MessageVal, messages, start, i, out)
      {
        LoopAdvances(f, MessageVal, messages, start, i, out);
        out :- WriteMessage(messages[i], out);
        i := i + 1;
      }
      LoopEnds(f, MessageVal, messages, start, out);
      r := Ok(out);
    case PollErr(message) =>
      r := WriteBytes(2, message, buf + [1]);
  }

  method WriteEvent(e: RebalanceEvent, buf: seq<byte>) returns (r: Result<seq<byte>>)
    ensures r == Appended(buf, Encode(EVENT, EventVal(e)))
  {
    hide Encode, EncodeAll, Typed, ValidUtf8;
    Branch(EVENT, EventVal(e), buf);
    match e
    case Assign(ps) => r := WritePartitions(ps, buf + [0]);
    case Revoke(ps) => r := WritePartitions(ps, buf + [1]);
    case Error(message) => r := WriteBytes(2, message, buf + [2]);
  }

  method EncodePollRebalanceResp(p: PollRebalanceResp, buf: seq<byte>) returns (r: Result<seq<byte>>)
    ensures r == Appended(buf, Encode(REBALANCE_RESP, RebalanceVal(p)))
  {
    hide Encode, EncodeAll, Typed, ValidUtf8, Pow256;
    Branch(REBALANCE_RESP, RebalanceVal(p), buf);
    match p
    case RebalanceOk(events) =>
      var start := buf + [0];
      ghost var f := Many(4, EVENT);
      Widths();
      LoopStarts(f, EventVal, events, start);
      if |events| > 0xFFFF_FFFF { return Err(FieldTooLarge(|events|)); }
      var out, i := start + BigEndian(4, |events|), 0;
      while i < |events|
        invariant i <= |events| && InLoop(f, EventVal, events, start, i, out)
      {
        LoopAdvances(f, EventVal, events, start, i, out);
        out :- WriteEvent(events[i], out);
        i := i + 1;
      }
      LoopEnds(f, EventVal, events, start, out);
      r := Ok(out);
    case RebalanceErr(message) =>
      r := WriteBytes(2, message, buf + [1]);
  }

  method EncodeSubscribeReq(m: SubscribeReq, buf: seq<byte>) returns (r: Result<seq<byte>>)
    ensures r == Appended(buf, Encode(SUBSCRIBE, SubscribeVal(m)))
  {
    hide Encode, EncodeAll, Typed, ValidUtf8;
    var out := buf;
    ghost var v := SubscribeVal(m);
    Field(SUBSCRIBE, v, out);
    out :- WriteBytes(2, m.cluster, out);
    Field(SUBSCRIBE.second, v.snd, out);
    out :- WriteBytes(2, m.groupId, out);
    Field(SUBSCRIBE.second.second, v.snd.snd, out);
    out :- WriteTopics(m.topics, out);
    r := WriteKeyValues(2, "cfg_key", "cfg_value", m.config, out);
  }

  method EncodeProduce(m: ProduceFnf, buf: seq<byte>) returns (r: Result<seq<byte>>)
    ensures r == Appended(buf, Encode(PRODUCE, ProduceVal(m)))
  {
    hide Encode, EncodeAll, Typed, ValidUtf8, Pow256;
    Widths();
    var out := buf;
    ghost var v := ProduceVal(m);
    Field(PRODUCE, v, out);
    out :- WriteBytes(2, m.cluster, out);
    Field(PRODUCE.second, v.snd, out);
    out :- WriteBytes(2, m.topic, out);
    Field(PRODUCE_BODY, v.snd.snd, out);
    out :- WriteBytes(4, m.key, out);
    Field(PRODUCE_BODY.second, v.snd.snd.snd, out);
    out :- WriteBytes(4, m.value, out);
    ghost var numbers := v.snd.snd.snd.snd;
    Field(PRODUCE_BODY.second.second, numbers, out);
    out := PutInt(4, true, m.partition, out);
    Field(PRODUCE_BODY.second.second.second, numbers.snd, out);
    out := PutInt(8, true, m.timestampMs, out);
    r := WriteHeaders(m.headers, out);
  }

  method EncodeSeekReq(m: SeekReq, buf: seq<byte>) returns (r: Result<seq<byte>>)
    ensures r == Appended(buf, Encode(SEEK, SeekVal(m)))
  {
    hide Encode, EncodeAll, Typed, ValidUtf8, Pow256;
    Widths();
    ghost var v := SeekVal(m);
    Field(SEEK, v, buf);
    var out := PutInt(8, false, m.subscriptionId, buf);
    Branch(SEEK.second, v.snd, out);
    match m
    case ByOffset(_, targets) => r := WriteOffsets(targets, out + [0]);
    case ByTimestamp(_, ts, ps) =>
      out := out + [1];
      Field(Then(I64, PARTITIONS), v.snd.v, out);
      out := PutInt(8, true, ts, out);
      r := WritePartitions(ps, out);
  }

  method EncodeSendOffsetsReq(m: SendOffsetsReq, buf: seq<byte>) returns (r: Result<seq<byte>>)
    ensures r == Appended(buf, Encode(SEND_OFFSETS, SendOffsetsVal(m)))
  {
    hide Encode, EncodeAll, Typed, ValidUtf8, Pow256;
    Widths();
    var out := buf;
    ghost var v := SendOffsetsVal(m);
    Field(SEND_OFFSETS, v, out);
    out :- WriteBytes(2, m.producerCluster, out);
    Field(SEND_OFFSETS.second, v.snd, out);
    out := PutInt(8, false, m.subscriptionId, out);
    Field(SEND_OFFSETS.second.second, v.snd.snd, out);
    out :- WriteBytes(2, m.groupId, out);
    r := WriteOffsets(m.offsets, out);
  }

  method EncodeOAuthReq(m: OAuthReq, buf: seq<byte>) returns (r: Result<seq<byte>>)
    ensures r == Appended(buf, Encode(OAUTH, OAuthVal(m)))
  {
    hide Encode, EncodeAll, Typed, ValidUtf8, Pow256;
    Widths();
    var out := buf;
    ghost var v := OAuthVal(m);
    Field(OAUTH, v, out);
    out :- WriteBytes(2, m.cluster, out);
    Field(OAUTH.second, v.snd, out);
    out :- WriteBytes(4, m.token, out);
    Field(OAUTH.second.second, v.snd.snd, out);
    out := PutInt(8, true, m.lifetimeMs, out);
    Field(OAUTH.second.second.second, v.snd.snd.snd, out);
    out :- WriteBytes(2, m.principal, out);
    r := WriteKeyValues(4, "ext_key", "ext_val", m.extensions, out);
  }

  method EncodePauseResumeReq(m: PauseResumeReq, buf: seq<byte>) returns (r: Result<seq<byte>>)
    ensures r == Appended(buf, Encode(PAUSE_RESUME, PauseResumeVal(m)))
  {
    hide EncodeAll, Typed, ValidUtf8, Pow256;
    Widths();
    ghost var v := PauseResumeVal(m);
    Field(PAUSE_RESUME, v, buf);
    var out := PutInt(8, false, m.subscriptionId, buf);
    Field(PAUSE_RESUME.second, v.snd, out);
    Branch(PAUSE_RESUME.second.first, v.snd.fst, out);
    out := out + [if m.op.Pause? then 0 else 1];
    assert out + [] == out;
    r := WritePartitions(m.partitions, out);
  }
}
