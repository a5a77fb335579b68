/**
 The hand-written encoders and decoders together. Sending a message and reading it back,
 with anything after it or cut anywhere, and reading bytes and writing them again: the
 laws of the grammar, stated of each pair as it is called.
 */
module RoundTrips {
  import opened Wire
  import opened Layouts
  import D = Decoders
  import E = Encoders
  import S = ShortPayloads
  import R = Replies

  /** What came back of a message that was sent: whole with a tail, or only its first bytes. */
  ghost predicate Faithful<T(!new)>(m: T, sent: Result<seq<byte>>, tail: seq<byte>, back: Result<T>, rest: seq<byte>, k: nat, cut: Result<T>) {
    sent.Ok? ==> back == Ok(m) && rest == tail && (k < |sent.value| ==> cut == Err(Truncated))
  }

  /** The bytes that were read are the encoding of what was read, and the rest. */
  ghost predicate Rewritten<T(!new)>(buf: seq<byte>, r: Result<T>, rest: seq<byte>, again: Result<seq<byte>>) {
    r.Ok? ==> again.Ok? && buf == again.value + rest
  }

  lemma Sent<T(!new)>(f: Format, val: T -> Value, m: T, sent: Result<seq<byte>>, tail: seq<byte>, back: Result<T>, rest: seq<byte>,
                      k: nat, cut: Result<T>, cutRest: seq<byte>)
    requires Injective(val) && Typed(f, val(m)) && sent == E.Appended([], Encode(f, val(m))) && sent.Ok?
    requires Agrees(back, rest, val, Decode(f, sent.value + tail))
    requires k < |sent.value| ==> Agrees(cut, cutRest, val, Decode(f, sent.value[..k]))
    ensures Faithful(m, sent, tail, back, rest, k, cut)
  {
    hide Encode, Decode, Typed;
    assert [] + Encode(f, val(m)).value == Encode(f, val(m)).value;
    MessageRoundTrip(f, val, m, tail, back, rest);
    if k < |sent.value| { MessageTruncated(f, val, m, k, cut, cutRest); }
  }

  lemma Read<T(!new)>(f: Format, val: T -> Value, buf: seq<byte>, r: Result<T>, rest: seq<byte>)
    requires Agrees(r, rest, val, Decode(f, buf)) && r.Ok?
    ensures Typed(f, val(r.value)) && Rewritten(buf, r, rest, E.Appended([], Encode(f, val(r.value))))
  {
    hide Encode, Decode, Typed;
    MessageCanonical(f, val, buf, r, rest);
    assert [] + Encode(f, val(r.value)).value == Encode(f, val(r.value)).value;
  }

  method SendPollResp(m: PollResp, tail: seq<byte>, k: nat)
    returns (sent: Result<seq<byte>>, back: Result<PollResp>, rest: seq<byte>, cut: Result<PollResp>)
    ensures sent.Ok? <==> Encode(POLL_RESP, PollVal(m)).Ok?
    ensures Faithful(m, sent, tail, back, rest, k, cut)
  {
    sent := E.EncodePollResp(m, []);
    back, rest, cut := Err(Truncated), [], Err(Truncated);
    if sent.Ok? {
      PollInjective();
      hide *;
      back, rest := D.DecodePollResp(sent.value + tail);
      var cutRest := [];
      if k < |sent.value| { cut, cutRest := D.DecodePollResp(sent.value[..k]); }
      Sent(POLL_RESP, PollVal, m, sent, tail, back, rest, k, cut, cutRest);
    }
  }

  method ReceivePollResp(buf: seq<byte>) returns (r: Result<PollResp>, rest: seq<byte>, again: Result<seq<byte>>)
    ensures r.Ok? <==> Decode(POLL_RESP, buf).Ok?
    ensures Rewritten(buf, r, rest, again)
  {
    r, rest := D.DecodePollResp(buf);
    again := Err(Truncated);
    if r.Ok? {
      Read(POLL_RESP, PollVal, buf, r, rest);
      hide *;
      again := E.EncodePollResp(r.value, []);
    }
  }

  method SendPollRebalanceResp(m: PollRebalanceResp, tail: seq<byte>, k: nat)
    returns (sent: Result<seq<byte>>, back: Result<PollRebalanceResp>, rest: seq<byte>, cut: Result<PollRebalanceResp>)
    ensures sent.Ok? <==> Encode(REBALANCE_RESP, RebalanceVal(m)).Ok?
    ensures Faithful(m, sent, tail, back, rest, k, cut)
  {
    sent := E.EncodePollRebalanceResp(m, []);
    back, rest, cut := Err(Truncated), [], Err(Truncated);
    if sent.Ok? {
      RebalanceInjective();
      hide *;
      back, rest := D.DecodePollRebalanceResp(sent.value + tail);
      var cutRest := [];
      if k < |sent.value| { cut, cutRest := D.DecodePollRebalanceResp(sent.value[..k]); }
      Sent(REBALANCE_RESP, RebalanceVal, m, sent, tail, back, rest, k, cut, cutRest);
    }
  }

  method ReceivePollRebalanceResp(buf: seq<byte>) returns (r: Result<PollRebalanceResp>, rest: seq<byte>, again: Result<seq<byte>>)
    ensures r.Ok? <==> Decode(REBALANCE_RESP, buf).Ok?
    ensures Rewritten(buf, r, rest, again)
  {
    r, rest := D.DecodePollRebalanceResp(buf);
    again := Err(Truncated);
    if r.Ok? {
      Read(REBALANCE_RESP, RebalanceVal, buf, r, rest);
      hide *;
      again := E.EncodePollRebalanceResp(r.value, []);
    }
  }

  method SendSubscribeReq(m: SubscribeReq, tail: seq<byte>, k: nat)
    returns (sent: Result<seq<byte>>, back: Result<SubscribeReq>, rest: seq<byte>, cut: Result<SubscribeReq>)
    ensures sent.Ok? <==> Encode(SUBSCRIBE, SubscribeVal(m)).Ok?
    ensures Faithful(m, sent, tail, back, rest, k, cut)
  {
    sent := E.EncodeSubscribeReq(m, []);
    back, rest, cut := Err(Truncated), [], Err(Truncated);
    if sent.Ok? {
      RequestsInjective();
      hide *;
      back, rest := D.DecodeSubscribeReq(sent.value + tail);
      var cutRest := [];
      if k < |sent.value| { cut, cutRest := D.DecodeSubscribeReq(sent.value[..k]); }
      Sent(SUBSCRIBE, SubscribeVal, m, sent, tail, back, rest, k, cut, cutRest);
    }
  }

  method ReceiveSubscribeReq(buf: seq<byte>) returns (r: Result<SubscribeReq>, rest: seq<byte>, again: Result<seq<byte>>)
    ensures r.Ok? <==> Decode(SUBSCRIBE, buf).Ok?
    ensures Rewritten(buf, r, rest, again)
  {
    r, rest := D.DecodeSubscribeReq(buf);
    again := Err(Truncated);
    if r.Ok? {
      Read(SUBSCRIBE, SubscribeVal, buf, r, rest);
      hide *;
      again := E.EncodeSubscribeReq(r.value, []);
    }
  }

  method SendProduce(m: ProduceFnf, tail: seq<byte>, k: nat)
    returns (sent: Result<seq<byte>>, back: Result<ProduceFnf>, rest: seq<byte>, cut: Result<ProduceFnf>)
    ensures sent.Ok? <==> Encode(PRODUCE, ProduceVal(m)).Ok?
    ensures Faithful(m, sent, tail, back, rest, k, cut)
  {
    sent := E.EncodeProduce(m, []);
    back, rest, cut := Err(Truncated), [], Err(Truncated);
    if sent.Ok? {
      RequestsInjective();
      hide *;
      back, rest := D.DecodeProduce(sent.value + tail);
      var cutRest := [];
      if k < |sent.value| { cut, cutRest := D.DecodeProduce(sent.value[..k]); }
      Sent(PRODUCE, ProduceVal, m, sent, tail, back, rest, k, cut, cutRest);
    }
  }

  method ReceiveProduce(buf: seq<byte>) returns (r: Result<ProduceFnf>, rest: seq<byte>, again: Result<seq<byte>>)
    ensures r.Ok? <==> Decode(PRODUCE, buf).Ok?
    ensures Rewritten(buf, r, rest, again)
  {
    r, rest := D.DecodeProduce(buf);
    again := Err(Truncated);
    if r.Ok? {
      Read(PRODUCE, ProduceVal, buf, r, rest);
      hide *;
      again := E.EncodeProduce(r.value, []);
    }
  }

  method SendSeekReq(m: SeekReq, tail: seq<byte>, k: nat)
    returns (sent: Result<seq<byte>>, back: Result<SeekReq>, rest: seq<byte>, cut: Result<SeekReq>)
    ensures sent.Ok? <==> Encode(SEEK, SeekVal(m)).Ok?
    ensures Faithful(m, sent, tail, back, rest, k, cut)
  {
    sent := E.EncodeSeekReq(m, []);
    back, rest, cut := Err(Truncated), [], Err(Truncated);
    if sent.Ok? {
      RequestsInjective();
      hide *;
      back, rest := D.DecodeSeekReq(sent.value + tail);
      var cutRest := [];
      if k < |sent.value| { cut, cutRest := D.DecodeSeekReq(sent.value[..k]); }
      Sent(SEEK, SeekVal, m, sent, tail, back, rest, k, cut, cutRest);
    }
  }

  method ReceiveSeekReq(buf: seq<byte>) returns (r: Result<SeekReq>, rest: seq<byte>, again: Result<seq<byte>>)
    ensures r.Ok? <==> Decode(SEEK, buf).Ok?
    ensures Rewritten(buf, r, rest, again)
  {
    r, rest := D.DecodeSeekReq(buf);
    again := Err(Truncated);
    if r.Ok? {
      Read(SEEK, SeekVal, buf, r, rest);
      hide *;
      again := E.EncodeSeekReq(r.value, []);
    }
  }

  method SendSendOffsetsReq(m: SendOffsetsReq, tail: seq<byte>, k: nat)
    returns (sent: Result<seq<byte>>, back: Result<SendOffsetsReq>, rest: seq<byte>, cut: Result<SendOffsetsReq>)
    ensures sent.Ok? <==> Encode(SEND_OFFSETS, SendOffsetsVal(m)).Ok?
    ensures Faithful(m, sent, tail, back, rest, k, cut)
  {
    sent := E.EncodeSendOffsetsReq(m, []);
    back, rest, cut := Err(Truncated), [], Err(Truncated);
    if sent.Ok? {
      RequestsInjective();
      hide *;
      back, rest := D.DecodeSendOffsetsReq(sent.value + tail);
      var cutRest := [];
      if k < |sent.value| { cut, cutRest := D.DecodeSendOffsetsReq(sent.value[..k]); }
      Sent(SEND_OFFSETS, SendOffsetsVal, m, sent, tail, back, rest, k, cut, cutRest);
    }
  }

  method ReceiveSendOffsetsReq(buf: seq<byte>) returns (r: Result<SendOffsetsReq>, rest: seq<byte>, again: Result<seq<byte>>)
    ensures r.Ok? <==> Decode(SEND_OFFSETS, buf).Ok?
    ensures Rewritten(buf, r, rest, again)
  {
    r, rest := D.DecodeSendOffsetsReq(buf);
    again := Err(Truncated);
    if r.Ok? {
      Read(SEND_OFFSETS, SendOffsetsVal, buf, r, rest);
      hide *;
      again := E.EncodeSendOffsetsReq(r.value, []);
    }
  }

  method SendOAuthReq(m: OAuthReq, tail: seq<byte>, k: nat)
    returns (sent: Result<seq<byte>>, back: Result<OAuthReq>, rest: seq<byte>, cut: Result<OAuthReq>)
    ensures sent.Ok? <==> Encode(OAUTH, OAuthVal(m)).Ok?
    ensures Faithful(m, sent, tail, back, rest, k, cut)
  {
    sent := E.EncodeOAuthReq(m, []);
    back, rest, cut := Err(Truncated), [], Err(Truncated);
    if sent.Ok? {
      RequestsInjective();
      hide *;
      back, rest := D.DecodeOAuthReq(sent.value + tail);
      var cutRest := [];
      if k < |sent.value| { cut, cutRest := D.DecodeOAuthReq(sent.value[..k]); }
      Sent(OAUTH, OAuthVal, m, sent, tail, back, rest, k, cut, cutRest);
    }
  }

  method ReceiveOAuthReq(buf: seq<byte>) returns (r: Result<OAuthReq>, rest: seq<byte>, again: Result<seq<byte>>)
    ensures r.Ok? <==> Decode(OAUTH, buf).Ok?
    ensures Rewritten(buf, r, rest, again)
  {
    r, rest := D.DecodeOAuthReq(buf);
    again := Err(Truncated);
    if r.Ok? {
      Read(OAUTH, OAuthVal, buf, r, rest);
      hide *;
      again := E.EncodeOAuthReq(r.value, []);
    }
  }

  method SendPauseResumeReq(m: PauseResumeReq, tail: seq<byte>, k: nat)
    returns (sent: Result<seq<byte>>, back: Result<PauseResumeReq>, rest: seq<byte>, cut: Result<PauseResumeReq>)
    ensures sent.Ok? <==> Encode(PAUSE_RESUME, PauseResumeVal(m)).Ok?
    ensures Faithful(m, sent, tail, back, rest, k, cut)
  {
    sent := E.EncodePauseResumeReq(m, []);
    back, rest, cut := Err(Truncated), [], Err(Truncated);
    if sent.Ok? {
      RequestsInjective();
      hide *;
      back, rest := D.DecodePauseResumeReq(sent.value + tail);
      var cutRest := [];
      if k < |sent.value| { cut, cutRest := D.DecodePauseResumeReq(sent.value[..k]); }
      Sent(PAUSE_RESUME, PauseResumeVal, m, sent, tail, back, rest, k, cut, cutRest);
    }
  }

  method ReceivePauseResumeReq(buf: seq<byte>) returns (r: Result<PauseResumeReq>, rest: seq<byte>, again: Result<seq<byte>>)
    ensures r.Ok? <==> Decode(PAUSE_RESUME, buf).Ok?
    ensures Rewritten(buf, r, rest, again)
  {
    r, rest := D.DecodePauseResumeReq(buf);
    again := Err(Truncated);
    if r.Ok? {
      Read(PAUSE_RESUME, PauseResumeVal, buf, r, rest);
      hide *;
      again := E.EncodePauseResumeReq(r.value, []);
    }
  }

  method SendRegisterClusterReq(m: S.RegisterClusterReq, tail: seq<byte>, k: nat)
    returns (sent: Result<seq<byte>>, back: Result<S.RegisterClusterReq>, rest: seq<byte>, cut: Result<S.RegisterClusterReq>)
    ensures sent.Ok? <==> Encode(S.REGISTER, S.RegisterVal(m)).Ok?
    ensures Faithful(m, sent, tail, back, rest, k, cut)
  {
    sent := S.EncodeRegisterClusterReq(m, []);
    back, rest, cut := Err(Truncated), [], Err(Truncated);
    if sent.Ok? {
      S.ShortInjective();
      hide *;
      back, rest := S.DecodeRegisterClusterReq(sent.value + tail);
      var cutRest := [];
      if k < |sent.value| { cut, cutRest := S.DecodeRegisterClusterReq(sent.value[..k]); }
      Sent(S.REGISTER, S.RegisterVal, m, sent, tail, back, rest, k, cut, cutRest);
    }
  }

  method ReceiveRegisterClusterReq(buf: seq<byte>) returns (r: Result<S.RegisterClusterReq>, rest: seq<byte>, again: Result<seq<byte>>)
    ensures r.Ok? <==> Decode(S.REGISTER, buf).Ok?
    ensures Rewritten(buf, r, rest, again)
  {
    r, rest := S.DecodeRegisterClusterReq(buf);
    again := Err(Truncated);
    if r.Ok? {
      Read(S.REGISTER, S.RegisterVal, buf, r, rest);
      hide *;
      again := S.EncodeRegisterClusterReq(r.value, []);
    }
  }

  method SendTxnReq(m: S.TxnReq, tail: seq<byte>, k: nat)
    returns (sent: Result<seq<byte>>, back: Result<S.TxnReq>, rest: seq<byte>, cut: Result<S.TxnReq>)
    ensures sent.Ok? <==> Encode(S.TXN, S.TxnVal(m)).Ok?
    ensures Faithful(m, sent, tail, back, rest, k, cut)
  {
    sent := S.EncodeTxnReq(m, []);
    back, rest, cut := Err(Truncated), [], Err(Truncated);
    if sent.Ok? {
      S.ShortInjective();
      hide *;
      back, rest := S.DecodeTxnReq(sent.value + tail);
      var cutRest := [];
      if k < |sent.value| { cut, cutRest := S.DecodeTxnReq(sent.value[..k]); }
      Sent(S.TXN, S.TxnVal, m, sent, tail, back, rest, k, cut, cutRest);
    }
  }

  method ReceiveTxnReq(buf: seq<byte>) returns (r: Result<S.TxnReq>, rest: seq<byte>, again: Result<seq<byte>>)
    ensures r.Ok? <==> Decode(S.TXN, buf).Ok?
    ensures Rewritten(buf, r, rest, again)
  {
    r, rest := S.DecodeTxnReq(buf);
    again := Err(Truncated);
    if r.Ok? {
      Read(S.TXN, S.TxnVal, buf, r, rest);
      hide *;
      again := S.EncodeTxnReq(r.value, []);
    }
  }

  method SendSubscribeResp(m: S.SubscribeResp, tail: seq<byte>, k: nat)
    returns (sent: Result<seq<byte>>, back: Result<S.SubscribeResp>, rest: seq<byte>, cut: Result<S.SubscribeResp>)
    ensures sent.Ok? <==> Encode(S.SUBSCRIBE_RESP, S.SubscribeRespVal(m)).Ok?
    ensures Faithful(m, sent, tail, back, rest, k, cut)
  {
    sent := S.EncodeSubscribeResp(m, []);
    back, rest, cut := Err(Truncated), [], Err(Truncated);
    if sent.Ok? {
      S.ShortInjective();
      hide *;
      back, rest := S.DecodeSubscribeResp(sent.value + tail);
      var cutRest := [];
      if k < |sent.value| { cut, cutRest := S.DecodeSubscribeResp(sent.value[..k]); }
      Sent(S.SUBSCRIBE_RESP, S.SubscribeRespVal, m, sent, tail, back, rest, k, cut, cutRest);
    }
  }

  method ReceiveSubscribeResp(buf: seq<byte>) returns (r: Result<S.SubscribeResp>, rest: seq<byte>, again: Result<seq<byte>>)
    ensures r.Ok? <==> Decode(S.SUBSCRIBE_RESP, buf).Ok?
    ensures Rewritten(buf, r, rest, again)
  {
    r, rest := S.DecodeSubscribeResp(buf);
    again := Err(Truncated);
    if r.Ok? {
      Read(S.SUBSCRIBE_RESP, S.SubscribeRespVal, buf, r, rest);
      hide *;
      again := S.EncodeSubscribeResp(r.value, []);
    }
  }

  method SendPollReq(m: S.PollReq, tail: seq<byte>, k: nat)
    returns (sent: seq<byte>, back: Result<S.PollReq>, rest: seq<byte>, cut: Result<S.PollReq>)
    ensures Faithful(m, Ok(sent), tail, back, rest, k, cut)
  {
    sent := S.EncodePollReq(m, []);
    S.ShortInjective();
    hide *;
    back, rest := S.DecodePollReq(sent + tail);
    var cutRest := [];
    cut := Err(Truncated);
    if k < |sent| { cut, cutRest := S.DecodePollReq(sent[..k]); }
    Sent(S.POLL, S.PollReqVal, m, Ok(sent), tail, back, rest, k, cut, cutRest);
  }

  method ReceivePollReq(buf: seq<byte>) returns (r: Result<S.PollReq>, rest: seq<byte>, again: seq<byte>)
    ensures r.Ok? <==> Decode(S.POLL, buf).Ok?
    ensures Rewritten(buf, r, rest, Ok(again))
  {
    r, rest := S.DecodePollReq(buf);
    again := [];
    if r.Ok? {
      Read(S.POLL, S.PollReqVal, buf, r, rest);
      hide *;
      again := S.EncodePollReq(r.value, []);
    }
  }

  method SendPollRebalanceReq(m: S.PollRebalanceReq, tail: seq<byte>, k: nat)
    returns (sent: seq<byte>, back: Result<S.PollRebalanceReq>, rest: seq<byte>, cut: Result<S.PollRebalanceReq>)
    ensures Faithful(m, Ok(sent), tail, back, rest, k, cut)
  {
    sent := S.EncodePollRebalanceReq(m, []);
    S.ShortInjective();
    hide *;
    back, rest := S.DecodePollRebalanceReq(sent + tail);
    var cutRest := [];
    cut := Err(Truncated);
    if k < |sent| { cut, cutRest := S.DecodePollRebalanceReq(sent[..k]); }
    Sent(S.POLL_REBALANCE, S.PollRebalanceVal, m, Ok(sent), tail, back, rest, k, cut, cutRest);
  }

  method ReceivePollRebalanceReq(buf: seq<byte>) returns (r: Result<S.PollRebalanceReq>, rest: seq<byte>, again: seq<byte>)
    ensures r.Ok? <==> Decode(S.POLL_REBALANCE, buf).Ok?
    ensures Rewritten(buf, r, rest, Ok(again))
  {
    r, rest := S.DecodePollRebalanceReq(buf);
    again := [];
    if r.Ok? {
      Read(S.POLL_REBALANCE, S.PollRebalanceVal, buf, r, rest);
      hide *;
      again := S.EncodePollRebalanceReq(r.value, []);
    }
  }

  method SendIdReq(m: S.IdReq, tail: seq<byte>, k: nat)
    returns (sent: seq<byte>, back: Result<S.IdReq>, rest: seq<byte>, cut: Result<S.IdReq>)
    ensures Faithful(m, Ok(sent), tail, back, rest, k, cut)
  {
    sent := S.EncodeIdReq(m, []);
    S.ShortInjective();
    hide *;
    back, rest := S.DecodeIdReq(sent + tail);
    var cutRest := [];
    cut := Err(Truncated);
    if k < |sent| { cut, cutRest := S.DecodeIdReq(sent[..k]); }
    Sent(U64, S.IdVal, m, Ok(sent), tail, back, rest, k, cut, cutRest);
  }

  method ReceiveIdReq(buf: seq<byte>) returns (r: Result<S.IdReq>, rest: seq<byte>, again: seq<byte>)
    ensures r.Ok? <==> Decode(U64, buf).Ok?
    ensures Rewritten(buf, r, rest, Ok(again))
  {
    r, rest := S.DecodeIdReq(buf);
    again := [];
    if r.Ok? {
      Read(U64, S.IdVal, buf, r, rest);
      hide *;
      again := S.EncodeIdReq(r.value, []);
    }
  }

  method SendHello(m: S.Hello, tail: seq<byte>, k: nat)
    returns (sent: seq<byte>, back: Result<S.Hello>, rest: seq<byte>, cut: Result<S.Hello>)
    ensures Faithful(m, Ok(sent), tail, back, rest, k, cut)
  {
    sent := S.EncodeHello(m, []);
    S.ShortInjective();
    hide *;
    back, rest := S.DecodeHello(sent + tail);
    var cutRest := [];
    cut := Err(Truncated);
    if k < |sent| { cut, cutRest := S.DecodeHello(sent[..k]); }
    Sent(S.HELLO, S.HelloVal, m, Ok(sent), tail, back, rest, k, cut, cutRest);
  }

  method ReceiveHello(buf: seq<byte>) returns (r: Result<S.Hello>, rest: seq<byte>, again: seq<byte>)
    ensures r.Ok? <==> Decode(S.HELLO, buf).Ok?
    ensures Rewritten(buf, r, rest, Ok(again))
  {
    r, rest := S.DecodeHello(buf);
    again := [];
    if r.Ok? {
      Read(S.HELLO, S.HelloVal, buf, r, rest);
      hide *;
      again := S.EncodeHello(r.value, []);
    }
  }

  method SendStatus(field: string, m: S.Status, tail: seq<byte>, k: nat)
    returns (sent: Result<seq<byte>>, back: Result<S.Status>, rest: seq<byte>, cut: Result<S.Status>)
    ensures sent.Ok? <==> Encode(S.StatusLayout(field), S.StatusVal(m)).Ok?
    ensures Faithful(m, sent, tail, back, rest, k, cut)
  {
    sent := S.EncodeStatus(field, m, []);
    back, rest, cut := Err(Truncated), [], Err(Truncated);
    if sent.Ok? {
      S.ShortInjective();
      hide *;
      back, rest := S.DecodeStatus(field, sent.value + tail);
      var cutRest := [];
      if k < |sent.value| { cut, cutRest := S.DecodeStatus(field, sent.value[..k]); }
      Sent(S.StatusLayout(field), S.StatusVal, m, sent, tail, back, rest, k, cut, cutRest);
    }
  }

  method ReceiveStatus(field: string, buf: seq<byte>) returns (r: Result<S.Status>, rest: seq<byte>, again: Result<seq<byte>>)
    ensures r.Ok? <==> Decode(S.StatusLayout(field), buf).Ok?
    ensures Rewritten(buf, r, rest, again)
  {
    r, rest := S.DecodeStatus(field, buf);
    again := Err(Truncated);
    if r.Ok? {
      Read(S.StatusLayout(field), S.StatusVal, buf, r, rest);
      hide *;
      again := S.EncodeStatus(field, r.value, []);
    }
  }

  // ------------------------------------------------- the replies that normalise

  method SendErrorResp(m: R.ErrorResp, tail: seq<byte>, k: nat)
    returns (sent: Result<seq<byte>>, back: Result<R.ErrorResp>, rest: seq<byte>, cut: Result<R.ErrorResp>)
    ensures sent.Ok? <==> Encode(R.ERROR_RESP, R.ErrorVal(m)).Ok?
    ensures Faithful(m, sent, tail, back, rest, k, cut)
  {
    hide Encode, Decode, Typed, R.ErrorOf, R.ErrorVal;
    sent := R.EncodeErrorResp(m, []);
    back, rest, cut := Err(Truncated), [], Err(Truncated);
    if sent.Ok? {
      assert [] + Encode(R.ERROR_RESP, R.ErrorVal(m)).value == Encode(R.ERROR_RESP, R.ErrorVal(m)).value;
      back, rest := R.DecodeErrorResp(sent.value + tail);
      R.ErrorRoundTrip(m, tail, back, rest);
      if k < |sent.value| {
        var cutRest;
        cut, cutRest := R.DecodeErrorResp(sent.value[..k]);
        R.RepliesTruncated(R.ERROR_RESP, R.ErrorOf, R.ErrorVal(m), k, cut, cutRest);
      }
    }
  }

  /** Error bytes come out as they went in exactly when the kind code is known and the flag is 0 or 1. */
  method ReceiveErrorResp(buf: seq<byte>) returns (r: Result<R.ErrorResp>, rest: seq<byte>, again: Result<seq<byte>>)
    ensures r.Ok? <==> Decode(R.ERROR_RESP, buf).Ok?
    ensures r.Ok? ==> |buf| >= 7 && again.Ok? && (buf == again.value + rest <==> FromBigEndian(buf[..2]) <= 14 && buf[2] <= 1)
  {
    hide Encode, Decode, Typed, R.ErrorOf, R.ErrorVal, FromBigEndian;
    r, rest := R.DecodeErrorResp(buf);
    again := Err(Truncated);
    if r.Ok? {
      R.ErrorCanonicalIff(buf);
      again := R.EncodeErrorResp(r.value, []);
      assert [] + again.value == again.value;
    }
  }

  method SendProduceResp(m: R.ProduceResp, tail: seq<byte>, k: nat)
    returns (sent: Result<seq<byte>>, back: Result<R.ProduceResp>, rest: seq<byte>, cut: Result<R.ProduceResp>)
    ensures sent.Ok? <==> Encode(R.PRODUCE_RESP, R.ProduceRespVal(m)).Ok?
    ensures Faithful(m, sent, tail, back, rest, k, cut)
  {
    hide Encode, Decode, Typed, R.ProduceRespOf, R.ProduceRespVal;
    sent := R.EncodeProduceResp(m, []);
    back, rest, cut := Err(Truncated), [], Err(Truncated);
    if sent.Ok? {
      assert [] + Encode(R.PRODUCE_RESP, R.ProduceRespVal(m)).value == Encode(R.PRODUCE_RESP, R.ProduceRespVal(m)).value;
      back, rest := R.DecodeProduceResp(sent.value + tail);
      R.ProduceRespRoundTrip(m, tail, back, rest);
      if k < |sent.value| {
        var cutRest;
        cut, cutRest := R.DecodeProduceResp(sent.value[..k]);
        R.RepliesTruncated(R.PRODUCE_RESP, R.ProduceRespOf, R.ProduceRespVal(m), k, cut, cutRest);
      }
    }
  }

  /** Produce-reply bytes come out as they went in exactly when they acknowledge or their flag is 0 or 1. */
  method ReceiveProduceResp(buf: seq<byte>) returns (r: Result<R.ProduceResp>, rest: seq<byte>, again: Result<seq<byte>>)
    ensures r.Ok? <==> Decode(R.PRODUCE_RESP, buf).Ok?
    ensures r.Ok? ==> |rest| < |buf| && again.Ok? && (buf == again.value + rest <==> buf[0] == 0 || buf[|buf| - |rest| - 1] <= 1)
  {
    hide Encode, Decode, Typed, R.ProduceRespOf, R.ProduceRespVal, FromBigEndian;
    r, rest := R.DecodeProduceResp(buf);
    again := Err(Truncated);
    if r.Ok? {
      R.ProduceRespCanonicalIff(buf);
      again := R.EncodeProduceResp(r.value, []);
      assert [] + again.value == again.value;
    }
  }
}
