/**
 The bytes of the two messages that carry data, written out field by field as the
 protocol documents them, without the grammar.
 */
module OnTheWire {
  import opened Wire
  import opened Layouts
  import E = Encoders

  /** A signed integer in `w` bytes, most significant first. */
  function Signed(w: pos, n: int): seq<byte>
    requires InRange(w, true, n)
  {
    BigEndian(w, if n < 0 then Pow256(w) + n else n)
  }

  /** Bytes after their length in `w` bytes. */
  function Prefixed(w: pos, s: seq<byte>): seq<byte>
    requires |s| < Pow256(w)
  {
    BigEndian(w, |s|) + s
  }

  predicate HeadersFit(hs: seq<Header>) {
    forall i :: 0 <= i < |hs| ==> |hs[i].name| < Pow256(2) && |hs[i].value| < Pow256(4)
  }

  function HeaderBytes(hs: seq<Header>): seq<byte>
    requires HeadersFit(hs)
  {
    if hs == [] then [] else Prefixed(2, hs[0].name) + Prefixed(4, hs[0].value) + HeaderBytes(hs[1..])
  }

  lemma LeafBytes(w: pos, field: string, s: seq<byte>)
    ensures Encode(Blob(w), Raw(s)) == if |s| < Pow256(w) then Ok(Prefixed(w, s)) else Err(FieldTooLarge(|s|))
    ensures ValidUtf8(s) ==> Encode(Text(w, field), Raw(s)) == Encode(Blob(w), Raw(s))
  {
  }

  lemma HeaderOnTheWire(h: Header)
    ensures Encode(HEADER, HeaderVal(h)).Ok? <==> |h.name| < Pow256(2) && |h.value| < Pow256(4)
    ensures Encode(HEADER, HeaderVal(h)).Ok? ==> Encode(HEADER, HeaderVal(h)).value == Prefixed(2, h.name) + Prefixed(4, h.value)
  {
    LeafBytes(2, "header_name", h.name);
    LeafBytes(4, "", h.value);
    hide Prefixed, ValidUtf8;
  }

  lemma {:induction false} HeadersOnTheWire(hs: seq<Header>)
    requires AllTyped(HEADER, ListVals(hs, HeaderVal))
    ensures EncodeAll(HEADER, ListVals(hs, HeaderVal)).Ok? <==> HeadersFit(hs)
    ensures HeadersFit(hs) ==> EncodeAll(HEADER, ListVals(hs, HeaderVal)).value == HeaderBytes(hs)
    decreases |hs|
  {
    if hs != [] {
      var vs := ListVals(hs, HeaderVal);
      assert vs[0] == HeaderVal(hs[0]) && vs[1..] == ListVals(hs[1..], HeaderVal);
      HeaderOnTheWire(hs[0]);
      HeadersOnTheWire(hs[1..]);
      hide Prefixed, Encode, Typed;
    }
  }

  lemma HeaderListOnTheWire(hs: seq<Header>)
    ensures Encode(HEADERS, HeadersVal(hs)).Ok? <==> |hs| < Pow256(4) && HeadersFit(hs)
    ensures |hs| < Pow256(4) && HeadersFit(hs) ==> Encode(HEADERS, HeadersVal(hs)).value == BigEndian(4, |hs|) + HeaderBytes(hs)
  {
    AllTypedAt(HEADER, ListVals(hs, HeaderVal));
    HeadersOnTheWire(hs);
    hide HeaderBytes, HeadersFit, BigEndian, Pow256;
    E.Counted(HEADERS, ListVals(hs, HeaderVal));
  }

  /** A consumer message that can be sent: topic, partition, offset, timestamp, key, value, headers. */
  lemma MessageOnTheWire(m: ConsumerMessage)
    requires |m.topic| < Pow256(2) && |m.key| < Pow256(4) && |m.value| < Pow256(4) && |m.headers| < Pow256(4) && HeadersFit(m.headers)
    ensures InRange(4, true, m.partition) && InRange(8, true, m.offset) && InRange(8, true, m.timestampMs)
    ensures Encode(MESSAGE, MessageVal(m)) ==
            Ok(Prefixed(2, m.topic) + Signed(4, m.partition) + Signed(8, m.offset) + Signed(8, m.timestampMs)
               + Prefixed(4, m.key) + Prefixed(4, m.value) + (BigEndian(4, |m.headers|) + HeaderBytes(m.headers)))
  {
    Widths();
    var v, o := MessageVal(m), [];
    LeafBytes(2, "topic", m.topic);
    LeafBytes(4, "", m.key);
    LeafBytes(4, "", m.value);
    SignedBytes(4, m.partition);
    SignedBytes(8, m.offset);
    SignedBytes(8, m.timestampMs);
    HeaderListOnTheWire(m.headers);
    hide Encode, Typed, ValidUtf8, Pow256, Prefixed, HeaderBytes, HeadersVal, BigEndian, HeadersFit;
    var all := Encode(MESSAGE, v);
    assert o + Prefixed(2, m.topic) == Prefixed(2, m.topic);
    E.Field(MESSAGE, v, o);
    o := Prefixed(2, m.topic);
    E.Field(MESSAGE.second, v.snd, o);
    o := o + Signed(4, m.partition);
    E.Field(MESSAGE.second.second, v.snd.snd, o);
    o := o + Signed(8, m.offset);
    E.Field(MESSAGE.second.second.second, v.snd.snd.snd, o);
    o := o + Signed(8, m.timestampMs);
    E.Field(MESSAGE_BODY, v.snd.snd.snd.snd, o);
    o := o + Prefixed(4, m.key);
    E.Field(MESSAGE_BODY.second, v.snd.snd.snd.snd.snd, o);
    o := o + Prefixed(4, m.value);
    assert all.Ok? ==> [] + all.value == all.value;
  }

  /** A produce request that can be sent: cluster, topic, key, value, partition, timestamp, headers. */
  lemma ProduceOnTheWire(m: ProduceFnf)
    requires |m.cluster| < Pow256(2) && |m.topic| < Pow256(2) && |m.key| < Pow256(4) && |m.value| < Pow256(4)
    requires |m.headers| < Pow256(4) && HeadersFit(m.headers)
    ensures InRange(4, true, m.partition) && InRange(8, true, m.timestampMs)
    ensures Encode(PRODUCE, ProduceVal(m)) ==
            Ok(Prefixed(2, m.cluster) + Prefixed(2, m.topic) + Prefixed(4, m.key) + Prefixed(4, m.value)
               + Signed(4, m.partition) + Signed(8, m.timestampMs) + (BigEndian(4, |m.headers|) + HeaderBytes(m.headers)))
  {
    Widths();
    var v, o := ProduceVal(m), [];
    LeafBytes(2, "cluster", m.cluster);
    LeafBytes(2, "topic", m.topic);
    LeafBytes(4, "", m.key);
    LeafBytes(4, "", m.value);
    SignedBytes(4, m.partition);
    SignedBytes(8, m.timestampMs);
    HeaderListOnTheWire(m.headers);
    hide Encode, Typed, ValidUtf8, Pow256, Prefixed, HeaderBytes, HeadersVal, BigEndian, HeadersFit;
    var all := Encode(PRODUCE, v);
    assert o + Prefixed(2, m.cluster) == Prefixed(2, m.cluster);
    E.Field(PRODUCE, v, o);
    o := Prefixed(2, m.cluster);
    E.Field(PRODUCE.second, v.snd, o);
    o := o + Prefixed(2, m.topic);
    E.Field(PRODUCE_BODY, v.snd.snd, o);
    o := o + Prefixed(4, m.key);
    E.Field(PRODUCE_BODY.second, v.snd.snd.snd, o);
    o := o + Prefixed(4, m.value);
    E.Field(PRODUCE_BODY.second.second, v.snd.snd.snd.snd, o);
    o := o + Signed(4, m.partition);
    E.Field(PRODUCE_BODY.second.second.second, v.snd.snd.snd.snd.snd, o);
    o := o + Signed(8, m.timestampMs);
    assert all.Ok? ==> [] + all.value == all.value;
  }
}
