/**
 What a poll reply weighs on the wire, in terms of the byte counts the buffer
 keeps: whether a batch that has already been drained can still be sent.
 */
module PollReply {
  import opened Wire
  import opened Layouts
  import opened ConsumerBuffer
  import Frames

  function WireSize(m: ConsumerMessage): nat {
    MessageBytes(m) + |m.topic| + 34 + 6 * |m.headers|
  }

  function BatchSize(ms: seq<ConsumerMessage>): nat {
    if ms == [] then 0 else WireSize(ms[0]) + BatchSize(ms[1..])
  }

  lemma ThenSize(f: Format, v: Value)
    requires f.Then? && Typed(f, v) && Encode(f, v).Ok?
    ensures Typed(f.first, v.fst) && Typed(f.second, v.snd)
    ensures Encode(f.first, v.fst).Ok? && Encode(f.second, v.snd).Ok?
    ensures |Encode(f, v).value| == |Encode(f.first, v.fst).value| + |Encode(f.second, v.snd).value|
  {
  }

  lemma LeafSize(w: pos, signed: bool, field: string, n: int, s: seq<byte>)
    ensures InRange(w, signed, n) ==> |Encode(Int(w, signed), Num(n)).value| == w
    ensures Encode(Blob(w), Raw(s)).Ok? ==> |Encode(Blob(w), Raw(s)).value| == w + |s|
    ensures ValidUtf8(s) && Encode(Text(w, field), Raw(s)).Ok? ==> |Encode(Text(w, field), Raw(s)).value| == w + |s|
  {
  }

  lemma HeaderSize(h: Header)
    requires Encode(HEADER, HeaderVal(h)).Ok?
    ensures |Encode(HEADER, HeaderVal(h)).value| == |h.name| + |h.value| + 6
  {
  }

  lemma {:induction false} HeadersSize(hs: seq<Header>)
    requires AllTyped(HEADER, ListVals(hs, HeaderVal)) && EncodeAll(HEADER, ListVals(hs, HeaderVal)).Ok?
    ensures |EncodeAll(HEADER, ListVals(hs, HeaderVal)).value| == HeaderBytes(hs) + 6 * |hs|
    decreases |hs|
  {
    if hs != [] {
      var vs := ListVals(hs, HeaderVal);
      assert vs[0] == HeaderVal(hs[0]) && vs[1..] == ListVals(hs[1..], HeaderVal);
      HeaderSize(hs[0]);
      HeadersSize(hs[1..]);
    }
  }

  lemma MessageSize(m: ConsumerMessage)
    requires Encode(MESSAGE, MessageVal(m)).Ok?
    ensures |Encode(MESSAGE, MessageVal(m)).value| == WireSize(m)
  {
    var v := MessageVal(m);
    ManySize(HEADERS, HeadersVal(m.headers));
    hide Encode, ValidUtf8, Typed;
    Widths();
    ThenSize(MESSAGE, v);
    ThenSize(MESSAGE.second, v.snd);
    ThenSize(MESSAGE.second.second, v.snd.snd);
    ThenSize(MESSAGE.second.second.second, v.snd.snd.snd);
    ThenSize(MESSAGE_BODY, v.snd.snd.snd.snd);
    ThenSize(MESSAGE_BODY.second, v.snd.snd.snd.snd.snd);
    LeafSize(2, false, "topic", 0, m.topic);
    LeafSize(4, true, "", m.partition, m.key);
    LeafSize(8, true, "", m.offset, []);
    LeafSize(8, true, "", m.timestampMs, []);
    LeafSize(4, true, "", 0, m.value);
    HeadersSize(m.headers);
  }

  lemma ManySize(f: Format, v: Value)
    requires f.Many? && Typed(f, v)
    ensures AllTyped(f.item, v.vals)
    ensures Encode(f, v).Ok? ==>
              EncodeAll(f.item, v.vals).Ok? && |Encode(f, v).value| == f.width + |EncodeAll(f.item, v.vals).value|
  {
  }

  lemma {:induction false} MessagesSize(ms: seq<ConsumerMessage>)
    requires AllTyped(MESSAGE, ListVals(ms, MessageVal)) && EncodeAll(MESSAGE, ListVals(ms, MessageVal)).Ok?
    ensures |EncodeAll(MESSAGE, ListVals(ms, MessageVal)).value| == BatchSize(ms)
    decreases |ms|
  {
    hide Encode, WireSize, MessageVal;
    if ms != [] {
      var vs := ListVals(ms, MessageVal);
      assert vs[0] == MessageVal(ms[0]) && vs[1..] == ListVals(ms[1..], MessageVal);
      MessageSize(ms[0]);
      MessagesSize(ms[1..]);
    }
  }

  /** A poll reply is 5 bytes and, per message, its buffered bytes, its topic, 34 bytes and 6 per header. */
  lemma ReplySize(ms: seq<ConsumerMessage>)
    requires Encode(POLL_RESP, PollVal(PollOk(ms))).Ok?
    ensures |Encode(POLL_RESP, PollVal(PollOk(ms))).value| == 5 + BatchSize(ms)
  {
    var v := PollVal(PollOk(ms));
    assert Typed(Many(4, MESSAGE), v.v) && Encode(Many(4, MESSAGE), v.v).Ok?;
    ManySize(Many(4, MESSAGE), v.v);
    MessagesSize(ms);
  }

  /** So the reply to a drained batch leaves the worker exactly when that sum is within the frame bound. */
  lemma ReplyFramedIff(ms: seq<ConsumerMessage>, cid: u64)
    requires Encode(POLL_RESP, PollVal(PollOk(ms))).Ok?
    ensures var payload := Encode(POLL_RESP, PollVal(PollOk(ms))).value;
            Frames.EncodeFrame(Frames.Frame(Frames.POLL_RESP, cid, payload)).Good?
            <==> 5 + BatchSize(ms) <= Frames.MAX_PAYLOAD_LEN
  {
    ReplySize(ms);
  }
}
