/**
 That calls go through: with a worker that answers, a call ends with its own reply and
 its connection is in the pool for the next one; an answer that is an error frame leaves
 the connection there as well.
 */
module RpcCompletes {
  import opened Basics
  import opened Wire
  import opened Frames
  import opened PooledRpc

  function DoAll(s: State, es: seq<Event>, maxIdle: nat): State
    decreases |es|
  {
    if es == [] then s else DoAll(Do(s, es[0], maxIdle), es[1..], maxIdle)
  }

  lemma {:induction false} DoAllConcat(s: State, es: seq<Event>, fs: seq<Event>, maxIdle: nat)
    ensures DoAll(s, es + fs, maxIdle) == DoAll(DoAll(s, es, maxIdle), fs, maxIdle)
    decreases |es|
  {
    hide Do;
    if es == [] {
      assert es + fs == fs;
    } else {
      assert (es + fs)[1..] == es[1..] + fs;
      DoAllConcat(Do(s, es[0], maxIdle), es[1..], fs, maxIdle);
    }
  }

  lemma Two(s: State, e: Event, f: Event, maxIdle: nat)
    ensures DoAll(s, [e, f], maxIdle) == Do(Do(s, e, maxIdle), f, maxIdle)
  {
    hide Do;
    assert [e, f][1..] == [f] && [f][1..] == [];
    assert DoAll(Do(s, e, maxIdle), [f], maxIdle) == DoAll(Do(Do(s, e, maxIdle), f, maxIdle), [], maxIdle);
  }

  const QUIET := Conn([], [], true, true)

  function RequestOf(s: State, call: Call, payload: seq<byte>): Request {
    Request(RequestType(call), |s.issued| + 1, payload)
  }

  /** The frame type of an answer: what the call waits for, or the error frame. */
  function AnswerType(call: Call, refused: bool): FrameType
    requires Expects(call).Some?
  {
    if refused then ERROR else Expects(call).value
  }

  lemma Started(s: State, p: nat, call: Call, payload: seq<byte>, maxIdle: nat)
    requires p < |s.callers| && s.callers[p].Ready? && Expects(call).Some?
    ensures var req := RequestOf(s, call, payload);
            Do(s, Client(p, Start(call, payload)), maxIdle) ==
            s.(callers := s.callers[p := Acquiring(call, req)], issued := s.issued + [req])
  {
    hide RequestType;
  }

  /** With an empty pool the caller dials, and the worker's greeting gives it the connection. */
  lemma Dials(s: State, p: nat, call: Call, req: Request, maxIdle: nat)
    requires p < |s.callers| && s.callers[p] == Acquiring(call, req) && s.idle == []
    ensures var c := |s.conns|;
            DoAll(s, [Client(p, Connect), Worker(c, Close)] + [Client(p, TakeGreeting)], maxIdle) ==
            s.(conns := s.conns + [QUIET], callers := s.callers[p := Holding(call, req, c)])
  {
    var c := |s.conns|;
    var hello := Reply(HELLO, 0, [1], DIALLED.toWorker[0]);
    var s1 := s.(conns := s.conns + [DIALLED], callers := s.callers[p := Greeting(call, req, c)]);
    var s2 := s1.(conns := s.conns + [Conn([], [hello], true, true)]);
    assert Do(s, Client(p, Connect), maxIdle) == s1;
    assert Serve(DIALLED, Close) == Conn([], [hello], true, true);
    assert Do(s1, Worker(c, Close), maxIdle) == s2 by {
      assert s1.conns[c := Serve(DIALLED, Close)] == s2.conns;
    }
    var z := s.(conns := s.conns + [QUIET], callers := s.callers[p := Holding(call, req, c)]);
    assert Do(s2, Client(p, TakeGreeting), maxIdle) == z by {
      assert [hello][1..] == [] && s2.conns[c := QUIET] == z.conns;
      assert s2.callers[p := Holding(call, req, c)] == z.callers;
    }
    hide Do;
    Two(s, Client(p, Connect), Worker(c, Close), maxIdle);
    DoAllConcat(s, [Client(p, Connect), Worker(c, Close)], [Client(p, TakeGreeting)], maxIdle);
    assert [Client(p, TakeGreeting)][1..] == [];
    assert DoAll(s2, [Client(p, TakeGreeting)], maxIdle) == DoAll(z, [], maxIdle);
  }

  /** A live connection on top of the pool is taken. */
  lemma Reuses(s: State, p: nat, call: Call, req: Request, c: nat, maxIdle: nat)
    requires p < |s.callers| && s.callers[p] == Acquiring(call, req)
    requires s.idle != [] && s.idle[|s.idle| - 1] == c < |s.conns| && s.conns[c] == QUIET
    ensures Do(s, Client(p, Pop), maxIdle) ==
            s.(idle := s.idle[..|s.idle| - 1], callers := s.callers[p := Holding(call, req, c)])
  {
  }

  /** On a quiet connection the request is written, answered and the answer taken; the connection is put back. */
  lemma Exchanges(s: State, p: nat, call: Call, req: Request, c: nat, body: seq<byte>, refused: bool, maxIdle: nat)
    requires p < |s.callers| && s.callers[p] == Holding(call, req, c) && c < |s.conns| && s.conns[c] == QUIET
    requires Expects(call).Some? && req.kind == RequestType(call) && |req.payload| <= FrameLimit(req.kind)
    ensures DoAll(s, [Client(p, Write), Worker(c, if refused then Refuse(body) else Respond(body))] + [Client(p, Receive)], maxIdle) ==
            s.(callers := s.callers[p := Ready], idle := if |s.idle| < maxIdle then s.idle + [c] else s.idle,
               outcomes := s.outcomes + [(req, Reply(AnswerType(call, refused), req.cid, body, req))])
  {
    BothEndsAgree(call);
    hide ReplyTo, Expects, RequestType, FrameLimit;
    var a := if refused then Refuse(body) else Respond(body);
    var rep := Reply(AnswerType(call, refused), req.cid, body, req);
    var s1 := s.(conns := s.conns[c := Conn([req], [], true, true)], callers := s.callers[p := Awaiting(call, req, c)]);
    var s2 := s1.(conns := s.conns[c := Conn([], [rep], true, true)]);
    var z := s.(callers := s.callers[p := Ready], idle := if |s.idle| < maxIdle then s.idle + [c] else s.idle,
                outcomes := s.outcomes + [(req, rep)]);
    Writes(s, p, call, req, c, maxIdle);
    Answers1(s1, c, req, a, rep, maxIdle);
    Takes(s2, p, call, req, c, rep, maxIdle);
    assert s1.conns[c := Conn([], [rep], true, true)] == s2.conns;
    assert s2.conns[c := QUIET] == s.conns;
    assert s2.callers[p := Ready] == z.callers;
    hide Do;
    Two(s, Client(p, Write), Worker(c, a), maxIdle);
    DoAllConcat(s, [Client(p, Write), Worker(c, a)], [Client(p, Receive)], maxIdle);
    assert [Client(p, Receive)][1..] == [];
    assert DoAll(s2, [Client(p, Receive)], maxIdle) == DoAll(z, [], maxIdle);
  }

  lemma Writes(s: State, p: nat, call: Call, req: Request, c: nat, maxIdle: nat)
    requires p < |s.callers| && s.callers[p] == Holding(call, req, c) && c < |s.conns| && s.conns[c] == QUIET && Expects(call).Some?
    ensures Do(s, Client(p, Write), maxIdle) ==
            s.(conns := s.conns[c := Conn([req], [], true, true)], callers := s.callers[p := Awaiting(call, req, c)])
  {
    hide Expects;
    assert [] + [req] == [req];
  }

  lemma Answers1(s: State, c: nat, req: Request, a: Answer, rep: Reply, maxIdle: nat)
    requires c < |s.conns| && s.conns[c] == Conn([req], [], true, true) && |req.payload| <= FrameLimit(req.kind)
    requires (a.Respond? || a.Refuse?) && Written(req, a) == [rep]
    ensures Do(s, Worker(c, a), maxIdle) == s.(conns := s.conns[c := Conn([], [rep], true, true)])
  {
    hide FrameLimit, Written;
    assert [req][1..] == [] && [] + [rep] == [rep];
  }

  lemma Takes(s: State, p: nat, call: Call, req: Request, c: nat, rep: Reply, maxIdle: nat)
    requires p < |s.callers| && s.callers[p] == Awaiting(call, req, c) && c < |s.conns| && s.conns[c] == Conn([], [rep], true, true)
    requires rep.cid == req.cid && (rep.kind == ERROR || Expects(call) == Some(rep.kind))
    ensures Do(s, Client(p, Receive), maxIdle) ==
            s.(conns := s.conns[c := QUIET], callers := s.callers[p := Ready],
               idle := if |s.idle| < maxIdle then s.idle + [c] else s.idle, outcomes := s.outcomes + [(req, rep)])
  {
    hide Expects;
    assert [rep][1..] == [];
  }

  /**
   From any state in which caller `p` is free and the pool is empty: a call dials, is
   answered and ends with its own reply, and the new connection is in the pool.
   */
  lemma FirstCallCompletes(s: State, p: nat, call: Call, payload: seq<byte>, body: seq<byte>, refused: bool, maxIdle: nat)
    returns (es: seq<Event>)
    requires p < |s.callers| && s.callers[p].Ready? && s.idle == []
    requires Expects(call).Some? && |payload| <= FrameLimit(RequestType(call))
    ensures var z, req, c := DoAll(s, es, maxIdle), RequestOf(s, call, payload), |s.conns|;
            && z.outcomes == s.outcomes + [(req, Reply(AnswerType(call, refused), req.cid, body, req))]
            && z.callers == s.callers && z.conns == s.conns + [QUIET] && z.idle == if maxIdle > 0 then [c] else []
  {
    var req, c := RequestOf(s, call, payload), |s.conns|;
    var s1 := s.(callers := s.callers[p := Acquiring(call, req)], issued := s.issued + [req]);
    var s2 := s1.(conns := s.conns + [QUIET], callers := s.callers[p := Holding(call, req, c)]);
    Started(s, p, call, payload, maxIdle);
    Dials(s1, p, call, req, maxIdle);
    assert s1.callers[p := Holding(call, req, c)] == s2.callers;
    Exchanges(s2, p, call, req, c, body, refused, maxIdle);
    assert s2.callers[p := Ready] == s.callers;
    hide Do, FrameLimit;
    var e0, e1 := [Client(p, Start(call, payload))], [Client(p, Connect), Worker(c, Close)] + [Client(p, TakeGreeting)];
    var e2 := [Client(p, Write), Worker(c, if refused then Refuse(body) else Respond(body))] + [Client(p, Receive)];
    assert e0[1..] == [] && DoAll(s, e0, maxIdle) == DoAll(s1, [], maxIdle);
    DoAllConcat(s, e0, e1, maxIdle);
    DoAllConcat(s, e0 + e1, e2, maxIdle);
    es := e0 + e1 + e2;
  }

  /** And the next call finds it there: no dial, the same reply of its own, the pool as it was. */
  lemma NextCallCompletes(s: State, p: nat, call: Call, payload: seq<byte>, body: seq<byte>, refused: bool, maxIdle: nat)
    returns (es: seq<Event>)
    requires p < |s.callers| && s.callers[p].Ready? && 0 < |s.idle| <= maxIdle
    requires var c := s.idle[|s.idle| - 1]; c < |s.conns| && s.conns[c] == QUIET
    requires Expects(call).Some? && |payload| <= FrameLimit(RequestType(call))
    ensures var z, req := DoAll(s, es, maxIdle), RequestOf(s, call, payload);
            && z.outcomes == s.outcomes + [(req, Reply(AnswerType(call, refused), req.cid, body, req))]
            && z.callers == s.callers && z.conns == s.conns && z.idle == s.idle
  {
    var req, c := RequestOf(s, call, payload), s.idle[|s.idle| - 1];
    var below := s.idle[..|s.idle| - 1];
    var s1 := s.(callers := s.callers[p := Acquiring(call, req)], issued := s.issued + [req]);
    var s2 := s1.(idle := below, callers := s.callers[p := Holding(call, req, c)]);
    Started(s, p, call, payload, maxIdle);
    Reuses(s1, p, call, req, c, maxIdle);
    assert s1.callers[p := Holding(call, req, c)] == s2.callers;
    Exchanges(s2, p, call, req, c, body, refused, maxIdle);
    assert s2.callers[p := Ready] == s.callers && below + [c] == s.idle;
    hide Do, FrameLimit;
    var e1 := [Client(p, Start(call, payload)), Client(p, Pop)];
    var e2 := [Client(p, Write), Worker(c, if refused then Refuse(body) else Respond(body))] + [Client(p, Receive)];
    Two(s, Client(p, Start(call, payload)), Client(p, Pop), maxIdle);
    DoAllConcat(s, e1, e2, maxIdle);
    es := e1 + e2;
  }

  // -------------------------------------------------- the handler and the pool

  /** The request types that a handler answers. */
  predicate HasReply(kind: FrameType) {
    kind in {0x02, 0x10, 0x11, 0x20, 0x22, 0x24, 0x27, 0x29, 0x2B, 0x2D, 0x31, 0x33, 0x35}
  }

  /** The first frame of a connection that greets with the worker's own version. */
  predicate Greets(q: Request) { q.kind == HELLO && q.payload != [] && q.payload[0] == 1 && |q.payload| <= FrameLimit(HELLO) }

  /**
   One turn of the handler takes one frame and writes at most one, which answers it. A
   connection that does not greet first, or sends a frame over its limit, is closed without
   a word; after that a request is answered exactly once, or the connection is closed, and
   the types without a reply get none.
   */
  lemma OneReplyOrClose(c: Conn, a: Answer)
    requires c.open && c.toWorker != []
    ensures var z, q := Serve(c, a), c.toWorker[0];
            var large := |q.payload| > FrameLimit(q.kind);
            && z.toWorker == c.toWorker[1..] && c.toClient <= z.toClient
            && var sent := z.toClient[|c.toClient|..];
            && |sent| <= 1 && (sent != [] ==> sent[0].to == q && sent[0].cid == q.cid)
            && (large ==> sent == [] && !z.open)
            && (!c.greeted ==> (z.greeted <==> Greets(q)) && (z.open <==> Greets(q)) && (sent != [] <==> Greets(q)))
            && (c.greeted && !large ==> (sent != [] <==> HasReply(q.kind) && !a.Close?))
            && (c.greeted && !large ==> (z.open <==> a.Respond? || a.Refuse?))
            && (c.greeted && sent != [] ==> (sent[0].kind == ERROR <==> !a.Respond?))
  {
  }

  /** A frame that the worker's end is closed to is never handled. */
  lemma ClosedIsSilent(s: State, c: nat, a: Answer, maxIdle: nat)
    requires c < |s.conns|
    ensures var z := Do(s, WorkerCloses(c), maxIdle);
            !z.conns[c].open && z.conns[c].toClient == s.conns[c].toClient && Do(z, Worker(c, a), maxIdle) == z
  {
    var z := Do(s, WorkerCloses(c), maxIdle);
    assert z.conns[c := z.conns[c]] == z.conns;
  }

  /** The reply that a caller finds is its own, and of the type it waits for or an error. */
  predicate Acceptable(call: Call, req: Request, r: Reply) {
    r.cid == req.cid && (r.kind == ERROR || Expects(call) == Some(r.kind))
  }

  /**
   Which ends put a connection back: nothing written, nothing to wait for, an acceptable
   answer, or the one failure the source does not treat as such. Every other end, among
   them a greeting of another version, throws it away.
   */
  lemma PutBackIff(s: State, p: nat, a: Action, maxIdle: nat)
    requires p < |s.callers| && Enabled(s, p, a) && Has(s.callers[p]) && |s.idle| < maxIdle && s.callers[p].conn !in s.idle
    requires Act(s, p, a, maxIdle).callers[p].Ready?
    ensures var c, z := s.callers[p].conn, Act(s, p, a, maxIdle);
            && (c in z.idle <==> a.NotWritten? || a.Write? || a.ReadOptionFails?
                                 || (a.Receive? && Acceptable(s.callers[p].call, s.callers[p].req, s.conns[c].toClient[0])))
            && z.idle == (if c in z.idle then s.idle + [c] else s.idle)
            && z.mismatches == s.mismatches + (if a.Receive? && c !in z.idle then 1 else 0)
  {
    hide ReplyTo, RequestType;
  }

  /** A greeting is good exactly if it is a Hello of the same version; then the caller has the connection. */
  lemma GreetedIff(s: State, p: nat, maxIdle: nat)
    requires p < |s.callers| && Enabled(s, p, TakeGreeting)
    ensures var r := s.conns[s.callers[p].conn].toClient[0];
            var z := Act(s, p, TakeGreeting, maxIdle);
            z.callers[p] == if r.kind == HELLO && |r.payload| > 0 && r.payload[0] == 1
                            then Holding(s.callers[p].call, s.callers[p].req, s.callers[p].conn) else Ready
  {
  }

  /** After the pool is cleared no connection made before is handed out: the caller can only dial. */
  lemma ClearedDials(s: State, p: nat, maxIdle: nat)
    requires p < |s.callers| && s.callers[p].Acquiring?
    ensures var z := Do(s, ClearIdle, maxIdle);
            && Do(z, Client(p, Pop), maxIdle) == z && Enabled(z, p, Connect)
            && Do(z, Client(p, Connect), maxIdle).callers[p] == Greeting(s.callers[p].call, s.callers[p].req, |s.conns|)
  {
  }
}
