/**
 A poll takes its batch out of the buffer before the reply is framed, so a reply over
 the frame bound loses the batch. Which buffers and polls can come to that.
 */
module DrainedReplies {
  import opened Wire
  import opened Layouts
  import opened ConsumerBuffer
  import opened PollReply
  import Frames

  /** What the next poll for at most `max` messages takes out. */
  function Batch(s: Sub, max: nat): seq<ConsumerMessage> { s.buffer[..Taken(s, max)] }

  /** The reply to a batch encodes and fits into a frame. */
  predicate Framed(ms: seq<ConsumerMessage>) {
    var payload := Encode(POLL_RESP, PollVal(PollOk(ms)));
    payload.Ok? && Frames.EncodeFrame(Frames.Frame(Frames.POLL_RESP, 0, payload.value)).Good?
  }

  /** At most `hi` buffered bytes, `h` headers and `t` bytes of topic, and header names that can be encoded. */
  predicate Bounded(m: ConsumerMessage, hi: nat, h: nat, t: nat) {
    && MessageBytes(m) <= hi && |m.headers| <= h && |m.topic| <= t
    && forall i :: 0 <= i < |m.headers| ==> |m.headers[i].name| < 0x1_0000
  }

  predicate AllBounded(ms: seq<ConsumerMessage>, hi: nat, h: nat, t: nat) {
    forall i :: 0 <= i < |ms| ==> Bounded(ms[i], hi, h, t)
  }

  predicate ArrivalsBounded(es: seq<Event>, hi: nat, h: nat, t: nat) {
    forall i :: 0 <= i < |es| && es[i].Arrive? ==> Bounded(es[i].m, hi, h, t)
  }

  function PerMessage(hi: nat, h: nat, t: nat): nat { hi + t + 34 + 6 * h }

  /** The most messages one poll can take. */
  function MostTaken(cfg: Config, max: nat): nat {
    if max < Max(1, cfg.capacity) then max else Max(1, cfg.capacity)
  }

  // ------------------------------------------------------ no reply is larger

  lemma {:induction false} SizeAtMost(ms: seq<ConsumerMessage>, hi: nat, h: nat, t: nat)
    requires AllBounded(ms, hi, h, t)
    ensures BatchSize(ms) <= |ms| * PerMessage(hi, h, t)
  {
    hide MessageBytes;
    if ms != [] {
      SizeAtMost(ms[1..], hi, h, t);
      OneMore(|ms| - 1, PerMessage(hi, h, t));
      assert Bounded(ms[0], hi, h, t);
    }
  }

  /** Messages this small all encode. */
  predicate Small(hi: nat, h: nat, t: nat) { hi < 0x1_0000_0000 && h < 0x1_0000_0000 && t < 0x1_0000 }

  lemma ThenEncodes(f: Format, v: Value)
    requires f.Then? && Typed(f, v) && Encode(f.first, v.fst).Ok? && Encode(f.second, v.snd).Ok?
    ensures Encode(f, v).Ok?
  {
  }

  lemma LeafEncodes(w: pos, field: string, s: seq<byte>)
    requires |s| < Pow256(w)
    ensures Encode(Blob(w), Raw(s)).Ok?
    ensures ValidUtf8(s) ==> Encode(Text(w, field), Raw(s)).Ok?
  {
  }

  lemma {:induction false} HeaderAtMost(hs: seq<Header>, i: nat)
    requires i < |hs|
    ensures |hs[i].name| + |hs[i].value| <= HeaderBytes(hs)
  {
    if i > 0 { HeaderAtMost(hs[1..], i - 1); }
  }

  lemma {:induction false} HeadersEncode(hs: seq<Header>)
    requires AllTyped(HEADER, ListVals(hs, HeaderVal))
    requires forall i :: 0 <= i < |hs| ==> |hs[i].name| < 0x1_0000 && |hs[i].value| < 0x1_0000_0000
    ensures EncodeAll(HEADER, ListVals(hs, HeaderVal)).Ok?
    decreases |hs|
  {
    if hs != [] {
      var vs := ListVals(hs, HeaderVal);
      assert vs[0] == HeaderVal(hs[0]) && vs[1..] == ListVals(hs[1..], HeaderVal);
      Widths();
      LeafEncodes(2, "header_name", hs[0].name);
      LeafEncodes(4, "", hs[0].value);
      ThenEncodes(HEADER, vs[0]);
      HeadersEncode(hs[1..]);
    }
  }

  lemma HeaderListEncodes(m: ConsumerMessage, hi: nat, h: nat, t: nat)
    requires Bounded(m, hi, h, t) && Small(hi, h, t)
    ensures Encode(HEADERS, HeadersVal(m.headers)).Ok?
  {
    forall i | 0 <= i < |m.headers|
      ensures |m.headers[i].name| < 0x1_0000 && |m.headers[i].value| < 0x1_0000_0000
    {
      HeaderAtMost(m.headers, i);
    }
    Widths();
    ManySize(HEADERS, HeadersVal(m.headers));
    HeadersEncode(m.headers);
  }

  lemma NumberEncodes(w: pos, n: int)
    requires InRange(w, true, n)
    ensures Encode(Int(w, true), Num(n)).Ok?
  {
  }

  lemma MessageEncodes(m: ConsumerMessage, hi: nat, h: nat, t: nat)
    requires Bounded(m, hi, h, t) && Small(hi, h, t)
    ensures Encode(MESSAGE, MessageVal(m)).Ok?
  {
    HeaderListEncodes(m, hi, h, t);
    var v := MessageVal(m);
    Widths();
    hide Encode, ValidUtf8, Typed, Pow256, HeadersVal;
    LeafEncodes(2, "topic", m.topic);
    LeafEncodes(4, "", m.key);
    LeafEncodes(4, "", m.value);
    NumberEncodes(4, m.partition);
    NumberEncodes(8, m.offset);
    NumberEncodes(8, m.timestampMs);
    ThenTyped(MESSAGE, v);
    ThenTyped(MESSAGE.second, v.snd);
    ThenTyped(MESSAGE.second.second, v.snd.snd);
    ThenTyped(MESSAGE.second.second.second, v.snd.snd.snd);
    ThenTyped(MESSAGE_BODY, v.snd.snd.snd.snd);
    ThenEncodes(MESSAGE_BODY.second, v.snd.snd.snd.snd.snd);
    ThenEncodes(MESSAGE_BODY, v.snd.snd.snd.snd);
    ThenEncodes(MESSAGE.second.second.second, v.snd.snd.snd);
    ThenEncodes(MESSAGE.second.second, v.snd.snd);
    ThenEncodes(MESSAGE.second, v.snd);
    ThenEncodes(MESSAGE, v);
  }

  lemma ThenTyped(f: Format, v: Value)
    requires f.Then? && Typed(f, v)
    ensures Typed(f.first, v.fst) && Typed(f.second, v.snd)
  {
  }

  lemma {:induction false} MessagesEncode(ms: seq<ConsumerMessage>, hi: nat, h: nat, t: nat)
    requires AllTyped(MESSAGE, ListVals(ms, MessageVal)) && AllBounded(ms, hi, h, t) && Small(hi, h, t)
    ensures EncodeAll(MESSAGE, ListVals(ms, MessageVal)).Ok?
    decreases |ms|
  {
    hide Encode, MessageVal;
    if ms != [] {
      var vs := ListVals(ms, MessageVal);
      assert vs[0] == MessageVal(ms[0]) && vs[1..] == ListVals(ms[1..], MessageVal);
      MessageEncodes(ms[0], hi, h, t);
      MessagesEncode(ms[1..], hi, h, t);
    }
  }

  lemma BatchEncodes(ms: seq<ConsumerMessage>, hi: nat, h: nat, t: nat)
    requires AllBounded(ms, hi, h, t) && Small(hi, h, t) && |ms| < 0x1_0000_0000
    ensures Encode(POLL_RESP, PollVal(PollOk(ms))).Ok?
  {
    var v := PollVal(PollOk(ms));
    Widths();
    assert Typed(Many(4, MESSAGE), v.v);
    ManySize(Many(4, MESSAGE), v.v);
    MessagesEncode(ms, hi, h, t);
  }

  /** Every reply is framed if the largest one could be. */
  lemma SmallBatchFramed(ms: seq<ConsumerMessage>, n: nat, hi: nat, h: nat, t: nat)
    requires AllBounded(ms, hi, h, t) && |ms| <= n && Fits(n, hi, h, t)
    ensures Framed(ms)
  {
    if ms == [] {
      BatchEncodes(ms, 0, 0, 0);
    } else {
      ScaleUp(1, n, PerMessage(hi, h, t));
      ScaleUp(34, PerMessage(hi, h, t), n);
      BatchEncodes(ms, hi, h, t);
    }
    SizeAtMost(ms, hi, h, t);
    ScaleUp(|ms|, n, PerMessage(hi, h, t));
    hide Encode, PollVal, BatchSize;
    ReplyFramedIff(ms, 0);
  }

  lemma {:induction false} ReceivedBounded(cfg: Config, w: System, es: seq<Event>, z: System, hi: nat, h: nat, t: nat)
    requires Reaches(cfg, w, es, z) && ArrivalsBounded(es, hi, h, t) && AllBounded(w.sub.received, hi, h, t)
    ensures AllBounded(z.sub.received, hi, h, t)
    decreases |es|
  {
    if es != [] {
      var x := Next(cfg, w, es[0]);
      assert AllBounded(x.sub.received, hi, h, t) by { hide Bounded; }
      hide Next, Bounded;
      ReceivedBounded(cfg, x, es[1..], z, hi, h, t);
    }
  }

  lemma BatchBounded(cfg: Config, es: seq<Event>, z: System, max: nat, hi: nat, h: nat, t: nat)
    requires Reaches(cfg, START, es, z) && ArrivalsBounded(es, hi, h, t)
    ensures AllBounded(Batch(z.sub, max), hi, h, t) && |Batch(z.sub, max)| <= MostTaken(cfg, max)
  {
    AccountedFromStart(cfg, es, z);
    ReceivedBounded(cfg, START, es, z, hi, h, t);
    hide Bounded, TotalBytes, Drops;
    var gone := Messages(z.sub.removed);
    forall i | 0 <= i < |Batch(z.sub, max)|
      ensures Bounded(Batch(z.sub, max)[i], hi, h, t)
    {
      assert Batch(z.sub, max)[i] == (gone + z.sub.buffer)[|gone| + i] == z.sub.received[|gone| + i];
    }
  }

  // ------------------------------------------------------ the largest happens

  function Copies(n: nat, m: ConsumerMessage): (ms: seq<ConsumerMessage>)
    ensures |ms| == n && forall i :: 0 <= i < n ==> ms[i] == m
  {
    seq(n, _ => m)
  }

  lemma {:induction false} AsciiIsUtf8(n: nat)
    ensures ValidUtf8(seq(n, _ => 0x61 as byte))
  {
    if n > 0 {
      AsciiIsUtf8(n - 1);
      assert seq(n, _ => 0x61 as byte)[1..] == seq(n - 1, _ => 0x61 as byte);
    }
  }

  lemma {:induction false} EmptyHeaders(hs: seq<Header>)
    requires forall i :: 0 <= i < |hs| ==> hs[i] == Header([], [])
    ensures HeaderBytes(hs) == 0
  {
    if hs != [] { EmptyHeaders(hs[1..]); }
  }

  /** A message as large as the bounds allow. */
  function Heaviest(hi: nat, h: nat, t: nat): (m: ConsumerMessage)
    ensures Bounded(m, hi, h, t) && WireSize(m) == PerMessage(hi, h, t)
  {
    AsciiIsUtf8(t);
    var hs: seq<Header> := seq(h, _ => Header([], []));
    EmptyHeaders(hs);
    ConsumerMessage(seq(t, _ => 0x61 as byte), 0, 0, 0, seq(hi, _ => 0 as byte), [], hs)
  }

  lemma {:induction false} CopiesSize(ms: seq<ConsumerMessage>, m: ConsumerMessage)
    requires forall i :: 0 <= i < |ms| ==> ms[i] == m
    ensures BatchSize(ms) == |ms| * WireSize(m)
  {
    hide WireSize;
    if ms != [] {
      CopiesSize(ms[1..], m);
      OneMore(|ms| - 1, WireSize(m));
    }
  }

  /** A run that has come to a rest with `ms` in the buffer. */
  ghost predicate Holds(cfg: Config, hi: nat, h: nat, t: nat, es: seq<Event>, w: System, ms: seq<ConsumerMessage>) {
    Settled(cfg, 0, hi, es, w) && ArrivalsBounded(es, hi, h, t) && w.sub.buffer == ms
  }

  lemma PushOne(cfg: Config, hi: nat, h: nat, t: nat, es: seq<Event>, w: System, ms: seq<ConsumerMessage>, m: ConsumerMessage)
    returns (es': seq<Event>, w': System)
    requires Holds(cfg, hi, h, t, es, w, ms) && Bounded(m, hi, h, t)
    ensures Holds(cfg, hi, h, t, es', w', if Overflows(cfg, w.sub, m) && ms != [] then ms[1..] + [m] else ms + [m])
  {
    hide Settled, MessageBytes, Bounded;
    assert MessageBytes(m) <= hi by { WeightOf(m, hi, h, t); }
    es', w' := DeliverOne(cfg, 0, hi, es, w, m);
  }

  lemma WeightOf(m: ConsumerMessage, hi: nat, h: nat, t: nat)
    requires Bounded(m, hi, h, t)
    ensures MessageBytes(m) <= hi
  {
  }

  /** The buffer can be filled with messages that weigh nothing. */
  lemma {:induction false} FillEmpty(cfg: Config, hi: nat, h: nat, t: nat, n: nat) returns (es: seq<Event>, w: System)
    requires n <= Max(1, cfg.capacity)
    ensures Holds(cfg, hi, h, t, es, w, Copies(n, Weighing(0)))
  {
    var m := Weighing(0);
    if n == 0 {
      es, w := [], START;
      Stays(cfg, START);
    } else {
      es, w := FillEmpty(cfg, hi, h, t, n - 1);
      NoWeight(cfg, hi, es, w, n - 1);
      assert n == 1 || !Overflows(cfg, w.sub, m);
      hide Holds, Overflows, MessageBytes;
      es, w := PushOne(cfg, hi, h, t, es, w, Copies(n - 1, m), m);
      assert Copies(n - 1, m) + [m] == Copies(n, m);
    }
  }

  lemma NoWeight(cfg: Config, hi: nat, es: seq<Event>, w: System, n: nat)
    requires Settled(cfg, 0, hi, es, w) && w.sub.buffer == Copies(n, Weighing(0))
    ensures w.sub.bytes == 0
  {
    AccountedFromStart(cfg, es, w);
    WeighedTotal(0, 0, w.sub.buffer);
  }

  /** And then, one by one, with the heaviest: a full buffer drops one message for each that comes. */
  lemma {:induction false} FillHeavy(cfg: Config, hi: nat, h: nat, t: nat, k: nat) returns (es: seq<Event>, w: System)
    requires k <= Max(1, cfg.capacity)
    ensures Holds(cfg, hi, h, t, es, w, Copies(Max(1, cfg.capacity) - k, Weighing(0)) + Copies(k, Heaviest(hi, h, t)))
  {
    var n, light, heavy := Max(1, cfg.capacity), Weighing(0), Heaviest(hi, h, t);
    if k == 0 {
      es, w := FillEmpty(cfg, hi, h, t, n);
      assert Copies(n, light) + Copies(0, heavy) == Copies(n, light);
    } else {
      es, w := FillHeavy(cfg, hi, h, t, k - 1);
      var ms := Copies(n - (k - 1), light) + Copies(k - 1, heavy);
      assert Overflows(cfg, w.sub, heavy) && ms != [];
      hide Holds, Overflows, Heaviest, MessageBytes;
      es, w := PushOne(cfg, hi, h, t, es, w, ms, heavy);
      assert ms[1..] + [heavy] == Copies(n - k, light) + Copies(k, heavy);
    }
  }

  /** Some run leaves a poll for `max` with as many of the heaviest messages as a poll can take. */
  lemma LargestBatch(cfg: Config, max: nat, hi: nat, h: nat, t: nat) returns (es: seq<Event>, z: System)
    ensures Reaches(cfg, START, es, z) && ArrivalsBounded(es, hi, h, t)
    ensures var ms := Batch(z.sub, max);
            |ms| == MostTaken(cfg, max) && forall i :: 0 <= i < |ms| ==> ms[i] == Heaviest(hi, h, t)
  {
    var n := Max(1, cfg.capacity);
    es, z := FillHeavy(cfg, hi, h, t, n);
    assert z.sub.buffer == Copies(n, Heaviest(hi, h, t));
  }

  /**
   Every batch that a poll for at most `max` can take in any run over messages within the
   bounds is framed, and so reaches the client, if and only if as many of the heaviest as
   one poll can take make a reply within the frame bound, with topics that can be encoded.
   */
  lemma EveryReplyFramedIff(cfg: Config, max: nat, hi: nat, h: nat, t: nat)
    ensures (forall es, z :: Reaches(cfg, START, es, z) && ArrivalsBounded(es, hi, h, t) ==> Framed(Batch(z.sub, max)))
            <==> Fits(MostTaken(cfg, max), hi, h, t)
  {
    hide Reaches, MostTaken, Bounded, Framed, Fits, ArrivalsBounded;
    if Fits(MostTaken(cfg, max), hi, h, t) {
      forall es, z | Reaches(cfg, START, es, z) && ArrivalsBounded(es, hi, h, t)
        ensures Framed(Batch(z.sub, max))
      {
        BatchBounded(cfg, es, z, max, hi, h, t);
        SmallBatchFramed(Batch(z.sub, max), MostTaken(cfg, max), hi, h, t);
      }
    } else {
      var es, z := LargestBatch(cfg, max, hi, h, t);
      LargestNotFramed(Batch(z.sub, max), hi, h, t);
    }
  }

  /** `n` of the heaviest messages make a reply within the frame bound, and their topics can be encoded. */
  predicate Fits(n: nat, hi: nat, h: nat, t: nat) {
    n == 0 || (t < 0x1_0000 && 5 + n * PerMessage(hi, h, t) <= Frames.MAX_PAYLOAD_LEN)
  }

  lemma LargestNotFramed(ms: seq<ConsumerMessage>, hi: nat, h: nat, t: nat)
    requires (forall i :: 0 <= i < |ms| ==> ms[i] == Heaviest(hi, h, t)) && !Fits(|ms|, hi, h, t)
    ensures !Framed(ms)
  {
    CopiesSize(ms, Heaviest(hi, h, t));
    if t >= 0x1_0000 { LongTopicNotFramed(ms); } else { LargeNotFramed(ms); }
  }

  lemma LongTopicNotFramed(ms: seq<ConsumerMessage>)
    requires ms != [] && |ms[0].topic| >= 0x1_0000
    ensures !Framed(ms)
  {
    var v := PollVal(PollOk(ms));
    if Encode(POLL_RESP, v).Ok? {
      ManySize(Many(4, MESSAGE), v.v);
      var vs := ListVals(ms, MessageVal);
      assert vs[0] == MessageVal(ms[0]) && Encode(MESSAGE, vs[0]).Ok?;
      Widths();
      ThenSize(MESSAGE, vs[0]);
    }
  }

  lemma LargeNotFramed(ms: seq<ConsumerMessage>)
    requires 5 + BatchSize(ms) > Frames.MAX_PAYLOAD_LEN
    ensures !Framed(ms)
  {
    hide BatchSize, PollVal;
    if Encode(POLL_RESP, PollVal(PollOk(ms))).Ok? { ReplyFramedIff(ms, 0); }
  }
}
