/**
 The hand-written decoders: a cursor over the payload that is advanced field by
 field, with counted loops for the lists. Each returns the message and the unread
 rest, and is proved to agree with the layout of its message.
 */
module Decoders {
  import opened Wire
  import opened Layouts

  // ------------------------------------------- one step of a layout at a time

  function Paired(v: Value, r: Result<Parsed>): Result<Parsed> {
    match r
    case Ok(p) => Ok(Parsed(Both(v, p.v), p.rest))
    case Err(e) => Err(e)
  }

  lemma Field(f: Format, b: seq<byte>)
    requires f.Then?
    ensures match Decode(f.first, b)
            case Ok(p) => Decode(f, b) == Paired(p.v, Decode(f.second, p.rest))
            case Err(e) => Decode(f, b) == Err(e)
  {
  }

  function Tagged(tag: byte, r: Result<Parsed>): Result<Parsed> {
    match r
    case Ok(p) => Ok(Parsed(Alt(tag, p.v), p.rest))
    case Err(e) => Err(e)
  }

  lemma Branch(f: Format, b: seq<byte>)
    requires f.Choice?
    ensures b == [] ==> Decode(f, b) == Err(Truncated)
    ensures b != [] && b[0] >= |f.cases| ==> Decode(f, b) == Err(InvalidTag(b[0], f.field))
    ensures b != [] && b[0] < |f.cases| ==> Decode(f, b) == Tagged(b[0], Decode(f.cases[b[0]], b[1..]))
  {
  }

  /** Bytes a layout needs before anything in it can vary: what the `remaining()` checks ask for. */
  function FixedSize(f: Format): nat {
    match f
    case Empty => 0
    case Int(w, _) => w
    case Blob(w) => w
    case Text(w, _) => w
    case Many(w, _) => w
    case Choice(_, _) => 1
    case Then(x, y) => if x.Int? then x.width + FixedSize(y) else FixedSize(x)
  }

  lemma {:induction false} TooShort(f: Format, b: seq<byte>)
    requires |b| < FixedSize(f)
    ensures Decode(f, b) == Err(Truncated)
  {
    if f.Then? {
      if !f.first.Int? || |b| < f.first.width { TooShort(f.first, b); }
      else { TooShort(f.second, b[f.first.width..]); }
    }
  }

  // ------------------------------------------------------------------- lists

  function Listed(r: Result<ParsedAll>): Result<Parsed> {
    match r
    case Ok(p) => Ok(Parsed(Items(p.vs), p.rest))
    case Err(e) => Err(e)
  }

  /** The result of reading further items after `vs`. */
  function After(vs: seq<Value>, more: Result<ParsedAll>): Result<ParsedAll> {
    match more
    case Ok(p) => Ok(ParsedAll(vs + p.vs, p.rest))
    case Err(e) => Err(e)
  }

  /** `n` items were announced, `xs` have been read, and `rest` is unread. */
  ghost predicate InLoop<T(!new)>(f: Format, buf: seq<byte>, val: T -> Value, xs: seq<T>, left: nat, rest: seq<byte>) {
    f.Many? && Decode(f, buf) == Listed(After(ListVals(xs, val), DecodeAll(f.item, left, rest)))
  }

  lemma LoopStarts<T(!new)>(f: Format, buf: seq<byte>, val: T -> Value, n: nat, rest: seq<byte>)
    requires f.Many? && Decode(Int(f.width, false), buf) == Ok(Parsed(Num(n), rest))
    ensures InLoop(f, buf, val, [], n, rest)
  {
    var all := DecodeAll(f.item, n, rest);
    if all.Ok? { assert [] + all.value.vs == all.value.vs; }
  }

  lemma LoopAdvances<T(!new)>(f: Format, buf: seq<byte>, val: T -> Value, xs: seq<T>, left: pos, b: seq<byte>, r: Result<T>, rest: seq<byte>)
    requires InLoop(f, buf, val, xs, left, b) && Agrees(r, rest, val, Decode(f.item, b))
    ensures r.Ok? ==> InLoop(f, buf, val, xs + [r.value], left - 1, rest)
    ensures r.Err? ==> Decode(f, buf) == Err(r.error)
  {
    if r.Ok? {
      assert ListVals(xs + [r.value], val) == ListVals(xs, val) + [val(r.value)];
      var more := DecodeAll(f.item, left - 1, rest);
      if more.Ok? {
        assert ListVals(xs + [r.value], val) + more.value.vs == ListVals(xs, val) + ([val(r.value)] + more.value.vs);
      }
    }
  }

  lemma LoopEnds<T(!new)>(f: Format, buf: seq<byte>, val: T -> Value, xs: seq<T>, rest: seq<byte>)
    requires InLoop(f, buf, val, xs, 0, rest)
    ensures Decode(f, buf) == Ok(Parsed(Items(ListVals(xs, val)), rest))
  {
    assert ListVals(xs, val) + [] == ListVals(xs, val);
  }

  // -------------------------------------------------------------- primitives

  /** `get_u8` .. `get_i64`, which panic unless the bytes are there. */
  method GetInt(w: pos, signed: bool, buf: seq<byte>) returns (n: int, rest: seq<byte>)
    requires |buf| >= w
    ensures InRange(w, signed, n)
    ensures Decode(Int(w, signed), buf) == Ok(Parsed(Num(n), rest))
    ensures |rest| == |buf| - w
  {
    n, rest := Interpreted(w, signed, FromBigEndian(buf[..w])), buf[w..];
  }

  method ReadBytes(w: pos, buf: seq<byte>) returns (r: Result<seq<byte>>, rest: seq<byte>)
    ensures match TakeSized(w, buf)
            case Ok(p) => r == Ok(p.0) && rest == p.1
            case Err(e) => r == Err(e)
    ensures r.Ok? ==> Decode(Blob(w), buf) == Ok(Parsed(Raw(r.value), rest))
    ensures r.Err? ==> Decode(Blob(w), buf) == Err(r.error)
  {
    rest := buf;
    if |buf| < w { return Err(Truncated), rest; }
    var len;
    len, rest := GetInt(w, false, buf);
    if |rest| < len { return Err(Truncated), rest; }
    r, rest := Ok(rest[..len]), rest[len..];
  }

  method ReadStr(w: pos, field: string, buf: seq<byte>) returns (r: Result<Str>, rest: seq<byte>)
    ensures Agrees(r, rest, StrVal, Decode(Text(w, field), buf))
  {
    var s;
    s, rest :- ReadBytes(w, buf);
    r := if ValidUtf8(s) then Ok(s) else Err(InvalidUtf8(field));
  }

  /** A list count: the length check and the read. */
  method ReadCount(w: pos, buf: seq<byte>) returns (r: Result<nat>, rest: seq<byte>)
    ensures r.Ok? ==> Decode(Int(w, false), buf) == Ok(Parsed(Num(r.value), rest))
    ensures r.Err? ==> r == Err(Truncated) && forall item :: Decode(Many(w, item), buf) == Err(Truncated)
  {
    rest := buf;
    if |buf| < w { return Err(Truncated), rest; }
    var n;
    n, rest := GetInt(w, false, buf);
    r := Ok(n);
  }

  // -------------------------------------------------------------- list loops

  method ReadHeader(buf: seq<byte>) returns (r: Result<Header>, rest: seq<byte>)
    ensures Agrees(r, rest, HeaderVal, Decode(HEADER, buf))
  {
    var name, value;
    name, rest :- ReadStr(2, "header_name", buf);
    value, rest :- ReadBytes(4, rest);
    r := Ok(Header(name, value));
  }

  method ReadHeaders(buf: seq<byte>) returns (r: Result<seq<Header>>, rest: seq<byte>)
    ensures Agrees(r, rest, HeadersVal, Decode(HEADERS, buf))
  {
    hide Decode, DecodeAll;
    var n, headers: seq<Header>, i := 0, [], 0;
    n, rest :- ReadCount(4, buf);
    LoopStarts(HEADERS, buf, HeaderVal, n, rest);
    while i < n
      invariant 0 <= i <= n && InLoop(HEADERS, buf, HeaderVal, headers, n - i, rest)
    {
      ghost var b := rest;
      var h;
      h, rest := ReadHeader(rest);
      LoopAdvances(HEADERS, buf, HeaderVal, headers, n - i, b, h, rest);
      if h.Err? { return Err(h.error), rest; }
      headers, i := headers + [h.value], i + 1;
    }
    LoopEnds(HEADERS, buf, HeaderVal, headers, rest);
    r := Ok(headers);
  }

  method ReadPartition(buf: seq<byte>) returns (r: Result<Partition>, rest: seq<byte>)
    ensures Agrees(r, rest, PartitionVal, Decode(PARTITION, buf))
  {
    Widths();
    var topic, partition;
    topic, rest :- ReadStr(2, "topic", buf);
    if |rest| < 4 { return Err(Truncated), rest; }
    partition, rest := GetInt(4, true, rest);
    r := Ok(Partition(topic, partition));
  }

  method ReadPartitions(buf: seq<byte>) returns (r: Result<seq<Partition>>, rest: seq<byte>)
    ensures Agrees(r, rest, PartitionsVal, Decode(PARTITIONS, buf))
  {
    hide Decode, DecodeAll;
    var n, parts: seq<Partition>, i := 0, [], 0;
    n, rest :- ReadCount(4, buf);
    LoopStarts(PARTITIONS, buf, PartitionVal, n, rest);
    while i < n
      invariant 0 <= i <= n && InLoop(PARTITIONS, buf, PartitionVal, parts, n - i, rest)
    {
      ghost var b := rest;
      var p;
      p, rest := ReadPartition(rest);
      LoopAdvances(PARTITIONS, buf, PartitionVal, parts, n - i, b, p, rest);
      if p.Err? { return Err(p.error), rest; }
      parts, i := parts + [p.value], i + 1;
    }
    LoopEnds(PARTITIONS, buf, PartitionVal, parts, rest);
    r := Ok(parts);
  }

  method ReadOffset(buf: seq<byte>) returns (r: Result<Offset>, rest: seq<byte>)
    ensures Agrees(r, rest, OffsetVal, Decode(OFFSET, buf))
  {
    hide Decode, DecodeAll, TakeSized, ValidUtf8, Typed, Pow256;
    var topic, partition, offset;
    Field(OFFSET, buf);
    topic, rest :- ReadStr(2, "topic", buf);
    if |rest| < 12 { TooShort(OFFSET.second, rest); return Err(Truncated), rest; }
    Field(OFFSET.second, rest);
    partition, rest := GetInt(4, true, rest);
    offset, rest := GetInt(8, true, rest);
    Widths();
    r := Ok(Offset(topic, partition, offset));
  }

  method ReadOffsets(buf: seq<byte>) returns (r: Result<seq<Offset>>, rest: seq<byte>)
    ensures Agrees(r, rest, OffsetsVal, Decode(OFFSETS, buf))
  {
    hide Decode, DecodeAll;
    var n, offsets: seq<Offset>, i := 0, [], 0;
    n, rest :- ReadCount(4, buf);
    LoopStarts(OFFSETS, buf, OffsetVal, n, rest);
    while i < n
      invariant 0 <= i <= n && InLoop(OFFSETS, buf, OffsetVal, offsets, n - i, rest)
    {
      ghost var b := rest;
      var o;
      o, rest := ReadOffset(rest);
      LoopAdvances(OFFSETS, buf, OffsetVal, offsets, n - i, b, o, rest);
      if o.Err? { return Err(o.error), rest; }
      offsets, i := offsets + [o.value], i + 1;
    }
    LoopEnds(OFFSETS, buf, OffsetVal, offsets, rest);
    r := Ok(offsets);
  }

  method ReadKeyValue(key: string, value: string, buf: seq<byte>) returns (r: Result<KeyValue>, rest: seq<byte>)
    ensures Agrees(r, rest, KeyValueVal, Decode(KeyValueLayout(key, value), buf))
  {
    var k, v;
    k, rest :- ReadStr(2, key, buf);
    v, rest :- ReadStr(2, value, rest);
    r := Ok(KeyValue(k, v));
  }

  /** The config pairs of a request (`w` = 2) and the extensions of a token (`w` = 4). */
  method ReadKeyValues(w: pos, key: string, value: string, buf: seq<byte>) returns (r: Result<seq<KeyValue>>, rest: seq<byte>)
    ensures Agrees(r, rest, (ps: seq<KeyValue>) => Items(ListVals(ps, KeyValueVal)), Decode(Many(w, KeyValueLayout(key, value)), buf))
  {
    hide Decode, DecodeAll;
    ghost var f := Many(w, KeyValueLayout(key, value));
    var n, pairs: seq<KeyValue>, i := 0, [], 0;
    n, rest :- ReadCount(w, buf);
    LoopStarts(f, buf, KeyValueVal, n, rest);
    while i < n
      invariant 0 <= i <= n && InLoop(f, buf, KeyValueVal, pairs, n - i, rest)
    {
      ghost var b := rest;
      var p;
      p, rest := ReadKeyValue(key, value, rest);
      LoopAdvances(f, buf, KeyValueVal, pairs, n - i, b, p, rest);
      if p.Err? { return Err(p.error), rest; }
      pairs, i := pairs + [p.value], i + 1;
    }
    LoopEnds(f, buf, KeyValueVal, pairs, rest);
    r := Ok(pairs);
  }

  method ReadTopics(buf: seq<byte>) returns (r: Result<seq<Str>>, rest: seq<byte>)
    ensures Agrees(r, rest, (xs: seq<Str>) => Items(ListVals(xs, StrVal)), Decode(Many(2, TOPIC), buf))
  {
    hide Decode, DecodeAll;
    ghost var f := Many(2, TOPIC);
    var n, topics: seq<Str>, i := 0, [], 0;
    n, rest :- ReadCount(2, buf);
    LoopStarts(f, buf, StrVal, n, rest);
    while i < n
      invariant 0 <= i <= n && InLoop(f, buf, StrVal, topics, n - i, rest)
    {
      ghost var b := rest;
      var t;
      t, rest := ReadStr(2, "topic", rest);
      LoopAdvances(f, buf, StrVal, topics, n - i, b, t, rest);
      if t.Err? { return Err(t.error), rest; }
      topics, i := topics + [t.value], i + 1;
    }
    LoopEnds(f, buf, StrVal, topics, rest);
    r := Ok(topics);
  }

  // ---------------------------------------------------------------- payloads

  method ReadMessage(buf: seq<byte>) returns (r: Result<ConsumerMessage>, rest: seq<byte>)
    ensures Agrees(r, rest, MessageVal, Decode(MESSAGE, buf))
  {
    hide Decode, DecodeAll, TakeSized, ValidUtf8, Typed, Pow256;
    var topic, partition, offset, timestampMs, key: seq<byte>, value: seq<byte>, headers: seq<Header>;
    Field(MESSAGE, buf);
    topic, rest :- ReadStr(2, "topic", buf);
    if |rest| < 4 + 8 + 8 { TooShort(MESSAGE.second, rest); return Err(Truncated), rest; }
    Field(MESSAGE.second, rest);
    partition, rest := GetInt(4, true, rest);
    Field(MESSAGE.second.second, rest);
    offset, rest := GetInt(8, true, rest);
    Field(MESSAGE.second.second.second, rest);
    timestampMs, rest := GetInt(8, true, rest);
    Field(MESSAGE_BODY, rest);
    key, rest :- ReadBytes(4, rest);
    Field(MESSAGE_BODY.second, rest);
    value, rest :- ReadBytes(4, rest);
    headers, rest :- ReadHeaders(rest);
    Widths();
    r := Ok(ConsumerMessage(topic, partition, offset, timestampMs, key, value, headers));
  }

  method DecodePollResp(buf: seq<byte>) returns (r: Result<PollResp>, rest: seq<byte>)
    ensures Agrees(r, rest, PollVal, Decode(POLL_RESP, buf))
  {
    hide Decode, DecodeAll, TakeSized, ValidUtf8, Typed, Pow256;
    rest := buf;
    Branch(POLL_RESP, buf);
    if buf == [] { return Err(Truncated), rest; }
    var tag := buf[0];
    rest := buf[1..];
    match tag
    case 0 =>
      ghost var f, start := Many(4, MESSAGE), rest;
      var n, messages: seq<ConsumerMessage>, i := 0, [], 0;
      n, rest :- ReadCount(4, rest);
      LoopStarts(f, start, MessageVal, n, rest);
      while i < n
        invariant 0 <= i <= n && InLoop(f, start, MessageVal, messages, n - i, rest)
      {
        ghost var b := rest;
        var m;
        m, rest := ReadMessage(rest);
        LoopAdvances(f, start, MessageVal, messages, n - i, b, m, rest);
        if m.Err? { return Err(m.error), rest; }
        messages, i := messages + [m.value], i + 1;
      }
      LoopEnds(f, start, MessageVal, messages, rest);
      r := Ok(PollOk(messages));
    case 1 =>
      var message;
      message, rest :- ReadStr(2, "message", rest);
      r := Ok(PollErr(message));
    case _ => r := Err(InvalidTag(tag, "poll_resp"));
  }

  method ReadEvent(buf: seq<byte>) returns (r: Result<RebalanceEvent>, rest: seq<byte>)
    ensures Agrees(r, rest, EventVal, Decode(EVENT, buf))
  {
    hide Decode, DecodeAll, TakeSized, ValidUtf8, Typed, Pow256;
    rest := buf;
    Branch(EVENT, buf);
    if |buf| < 1 { return Err(Truncated), rest; }
    var kind := buf[0];
    rest := buf[1..];
    match kind
    case 0 =>
      var ps;
      ps, rest :- ReadPartitions(rest);
      r := Ok(Assign(ps));
    case 1 =>
      var ps;
      ps, rest :- ReadPartitions(rest);
      r := Ok(Revoke(ps));
    case 2 =>
      var message;
      message, rest :- ReadStr(2, "message", rest);
      r := Ok(Error(message));
    case _ => r := Err(InvalidTag(kind, "rebalance_event_kind"));
  }

  method DecodePollRebalanceResp(buf: seq<byte>) returns (r: Result<PollRebalanceResp>, rest: seq<byte>)
    ensures Agrees(r, rest, RebalanceVal, Decode(REBALANCE_RESP, buf))
  {
    hide Decode, DecodeAll, TakeSized, ValidUtf8, Typed, Pow256;
    rest := buf;
    Branch(REBALANCE_RESP, buf);
    if buf == [] { return Err(Truncated), rest; }
    var tag := buf[0];
    rest := buf[1..];
    match tag
    case 0 =>
      ghost var f, start := Many(4, EVENT), rest;
      var n, events: seq<RebalanceEvent>, i := 0, [], 0;
      n, rest :- ReadCount(4, rest);
      LoopStarts(f, start, EventVal, n, rest);
      while i < n
        invariant 0 <= i <= n && InLoop(f, start, EventVal, events, n - i, rest)
      {
        ghost var b := rest;
        var e;
        e, rest := ReadEvent(rest);
        LoopAdvances(f, start, EventVal, events, n - i, b, e, rest);
        if e.Err? { return Err(e.error), rest; }
        events, i := events + [e.value], i + 1;
      }
      LoopEnds(f, start, EventVal, events, rest);
      r := Ok(RebalanceOk(events));
    case 1 =>
      var message;
      message, rest :- ReadStr(2, "message", rest);
      r := Ok(RebalanceErr(message));
    case _ => r := Err(InvalidTag(tag, "poll_rebalance_resp"));
  }

  method DecodeSubscribeReq(buf: seq<byte>) returns (r: Result<SubscribeReq>, rest: seq<byte>)
    ensures Agrees(r, rest, SubscribeVal, Decode(SUBSCRIBE, buf))
  {
    hide Decode, DecodeAll, TakeSized, ValidUtf8, Typed, Pow256;
    var cluster, groupId, topics: seq<Str>, config: seq<KeyValue>;
    Field(SUBSCRIBE, buf);
    cluster, rest :- ReadStr(2, "cluster", buf);
    Field(SUBSCRIBE.second, rest);
    groupId, rest :- ReadStr(2, "group_id", rest);
    Field(SUBSCRIBE.second.second, rest);
    topics, rest :- ReadTopics(rest);
    config, rest :- ReadKeyValues(2, "cfg_key", "cfg_value", rest);
    r := Ok(SubscribeReq(cluster, groupId, topics, config));
  }

  method DecodeProduce(buf: seq<byte>) returns (r: Result<ProduceFnf>, rest: seq<byte>)
    ensures Agrees(r, rest, ProduceVal, Decode(PRODUCE, buf))
  {
    hide Decode, DecodeAll, TakeSized, ValidUtf8, Typed, Pow256;
    var cluster, topic, key: seq<byte>, value: seq<byte>, partition, timestampMs, headers: seq<Header>;
    Field(PRODUCE, buf);
    cluster, rest :- ReadStr(2, "cluster", buf);
    Field(PRODUCE.second, rest);
    topic, rest :- ReadStr(2, "topic", rest);
    Field(PRODUCE_BODY, rest);
    key, rest :- ReadBytes(4, rest);
    Field(PRODUCE_BODY.second, rest);
    value, rest :- ReadBytes(4, rest);
    ghost var numbers := PRODUCE_BODY.second.second;
    if |rest| < 4 + 8 { TooShort(numbers, rest); return Err(Truncated), rest; }
    Field(numbers, rest);
    partition, rest := GetInt(4, true, rest);
    Field(numbers.second, rest);
    timestampMs, rest := GetInt(8, true, rest);
    headers, rest :- ReadHeaders(rest);
    Widths();
    r := Ok(ProduceFnf(cluster, topic, key, value, partition, timestampMs, headers));
  }

  method DecodeSeekReq(buf: seq<byte>) returns (r: Result<SeekReq>, rest: seq<byte>)
    ensures Agrees(r, rest, SeekVal, Decode(SEEK, buf))
  {
    hide Decode, DecodeAll, TakeSized, ValidUtf8, Typed, Pow256;
    rest := buf;
    if |buf| < 9 { TooShort(SEEK, buf); return Err(Truncated), rest; }
    Widths();
    var id;
    Field(SEEK, buf);
    id, rest := GetInt(8, false, buf);
    Branch(SEEK.second, rest);
    var mode := rest[0];
    rest := rest[1..];
    match mode
    case 0 =>
      var targets;
      targets, rest :- ReadOffsets(rest);
      r := Ok(ByOffset(id, targets));
    case 1 =>
      ghost var f := Then(I64, PARTITIONS);
      if |rest| < 12 { TooShort(f, rest); return Err(Truncated), rest; }
      var ts, ps: seq<Partition>;
      Field(f, rest);
      ts, rest := GetInt(8, true, rest);
      ps, rest :- ReadPartitions(rest);
      r := Ok(ByTimestamp(id, ts, ps));
    case _ => r := Err(InvalidTag(mode, "seek_mode"));
  }

  method DecodeSendOffsetsReq(buf: seq<byte>) returns (r: Result<SendOffsetsReq>, rest: seq<byte>)
    ensures Agrees(r, rest, SendOffsetsVal, Decode(SEND_OFFSETS, buf))
  {
    hide Decode, DecodeAll, TakeSized, ValidUtf8, Typed, Pow256;
    var cluster, id, groupId: Str, offsets: seq<Offset>;
    Field(SEND_OFFSETS, buf);
    cluster, rest :- ReadStr(2, "producer_cluster", buf);
    if |rest| < 8 { TooShort(SEND_OFFSETS.second, rest); return Err(Truncated), rest; }
    Field(SEND_OFFSETS.second, rest);
    id, rest := GetInt(8, false, rest);
    Field(SEND_OFFSETS.second.second, rest);
    groupId, rest :- ReadStr(2, "group_id", rest);
    offsets, rest :- ReadOffsets(rest);
    Widths();
    r := Ok(SendOffsetsReq(cluster, id, groupId, offsets));
  }

  method DecodeOAuthReq(buf: seq<byte>) returns (r: Result<OAuthReq>, rest: seq<byte>)
    ensures Agrees(r, rest, OAuthVal, Decode(OAUTH, buf))
  {
    hide Decode, DecodeAll, TakeSized, ValidUtf8, Typed, Pow256;
    var cluster, token, lifetimeMs, principal: Str, extensions: seq<KeyValue>;
    Field(OAUTH, buf);
    cluster, rest :- ReadStr(2, "cluster", buf);
    Field(OAUTH.second, rest);
    token, rest :- ReadStr(4, "token_value", rest);
    ghost var f := OAUTH.second.second;
    if |rest| < 8 { TooShort(f, rest); return Err(Truncated), rest; }
    Field(f, rest);
    lifetimeMs, rest := GetInt(8, true, rest);
    Field(f.second, rest);
    principal, rest :- ReadStr(2, "principal_name", rest);
    extensions, rest :- ReadKeyValues(4, "ext_key", "ext_val", rest);
    Widths();
    r := Ok(OAuthReq(cluster, token, lifetimeMs, principal, extensions));
  }

  method DecodePauseResumeReq(buf: seq<byte>) returns (r: Result<PauseResumeReq>, rest: seq<byte>)
    ensures Agrees(r, rest, PauseResumeVal, Decode(PAUSE_RESUME, buf))
  {
    hide DecodeAll, TakeSized, ValidUtf8, Typed, Pow256;
    rest := buf;
    ghost var f := PAUSE_RESUME.second;
    if |buf| < 9 { TooShort(PAUSE_RESUME, buf); return Err(Truncated), rest; }
    Widths();
    var id, ps;
    Field(PAUSE_RESUME, buf);
    id, rest := GetInt(8, false, buf);
    Field(f, rest);
    Branch(f.first, rest);
    var op := rest[0];
    if op > 1 { return Err(InvalidTag(op, "pause_resume_op")), rest; }
    rest := rest[1..];
    ps, rest :- ReadPartitions(rest);
    r := Ok(PauseResumeReq(id, if op == 0 then Pause else Resume, ps));
  }
}
