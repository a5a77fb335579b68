/**
 Requests over pooled connections. Callers of one process share a pool; a connection
 carries one request at a time, is put back after its reply, and is thrown away
 when a read or write fails. The worker handles each connection's frames in order.

 A run is any sequence of events; an event that does not apply changes nothing.
 Frames arrive whole or not at all: a read or write that fails part way is a failure.
 */
module PooledRpc {
  import opened Basics
  import opened Wire
  import opened Frames

  const ERROR: FrameType := 0x40

  datatype Request = Request(kind: FrameType, cid: nat, payload: seq<byte>)

  /** A reply frame; `to` is the request the worker was handling when it wrote it. */
  datatype Reply = Reply(kind: FrameType, cid: nat, payload: seq<byte>, to: Request)

  /** The frame type that the worker's handler for a request type writes; the rest write nothing. */
  function ReplyTo(kind: FrameType): Option<FrameType> {
    match kind
    case 0x02 => Some(0x03)
    case 0x10 => Some(0x12)
    case 0x11 => Some(0x12)
    case 0x20 => Some(0x21)
    case 0x22 => Some(0x23)
    case 0x24 => Some(0x25)
    case 0x27 => Some(0x28)
    case 0x29 => Some(0x2A)
    case 0x2B => Some(0x2C)
    case 0x2D => Some(0x2E)
    case 0x31 => Some(0x32)
    case 0x33 => Some(0x34)
    case 0x35 => Some(0x36)
    case _ => None
  }

  /** The frame type that the client's call for a request type waits for; unsubscribing waits for nothing. */
  datatype Call =
    | ProduceFnf | Produce | Subscribe | Poll | Commit | RegisterCluster | Txn | PollRebalance
    | Seek | SendOffsets | PauseResume | SetOAuthToken | UnsubscribeCall

  function RequestType(call: Call): FrameType {
    match call
    case ProduceFnf => 0x10
    case Produce => 0x11
    case Subscribe => 0x20
    case Poll => 0x22
    case Commit => 0x24
    case UnsubscribeCall => UNSUBSCRIBE
    case RegisterCluster => 0x27
    case Txn => 0x29
    case PollRebalance => 0x2B
    case Seek => 0x2D
    case SendOffsets => 0x31
    case PauseResume => 0x33
    case SetOAuthToken => 0x35
  }

  function Expects(call: Call): Option<FrameType> {
    match call
    case ProduceFnf => Some(PRODUCE_RESP)
    case Produce => Some(PRODUCE_RESP)
    case Subscribe => Some(0x21)
    case Poll => Some(POLL_RESP)
    case Commit => Some(0x25)
    case UnsubscribeCall => None
    case RegisterCluster => Some(0x28)
    case Txn => Some(0x2A)
    case PollRebalance => Some(0x2C)
    case Seek => Some(0x2E)
    case SendOffsets => Some(0x32)
    case PauseResume => Some(0x34)
    case SetOAuthToken => Some(0x36)
  }

  /** Both ends of a socket: what is on the way, whether the worker still holds its end, whether it has seen Hello. */
  datatype Conn = Conn(toWorker: seq<Request>, toClient: seq<Reply>, open: bool, greeted: bool)

  const DIALLED := Conn([Request(HELLO, 0, [1])], [], true, false)

  /** What the handler may do with a request that has a reply. */
  datatype Answer =
    | Respond(payload: seq<byte>)
    | Refuse(payload: seq<byte>)
    | RefuseAndClose(payload: seq<byte>)   // the panic fallback of the produce handler
    | Close

  function Written(q: Request, a: Answer): seq<Reply> {
    match a
    case Respond(p) => if ReplyTo(q.kind).Some? then [Reply(ReplyTo(q.kind).value, q.cid, p, q)] else []
    case Refuse(p) => if ReplyTo(q.kind).Some? then [Reply(ERROR, q.cid, p, q)] else []
    case RefuseAndClose(p) => if ReplyTo(q.kind).Some? then [Reply(ERROR, q.cid, p, q)] else []
    case Close => []
  }

  /** One turn of `handle_connection`. */
  function Serve(c: Conn, a: Answer): Conn {
    if !c.open || c.toWorker == [] then c
    else
      var q := c.toWorker[0];
      var rest := c.(toWorker := c.toWorker[1..]);
      if |q.payload| > FrameLimit(q.kind) then rest.(open := false)
      else if !c.greeted then
        if q.kind != HELLO || q.payload == [] || q.payload[0] != 1 then rest.(open := false)
        else rest.(greeted := true, toClient := c.toClient + [Reply(HELLO, q.cid, [1], q)])
      else
        rest.(toClient := c.toClient + Written(q, a), open := !(a.Close? || a.RefuseAndClose?))
  }

  datatype Caller =
    | Ready
    | Acquiring(call: Call, req: Request)
    | Greeting(call: Call, req: Request, conn: nat)
    | Holding(call: Call, req: Request, conn: nat)
    | Awaiting(call: Call, req: Request, conn: nat)

  predicate Has(p: Caller) { p.Greeting? || p.Holding? || p.Awaiting? }

  /** `outcomes` and `mismatches` record what `recv_resp` and its callers accepted and refused. */
  datatype State = State(
    conns: seq<Conn>, idle: seq<nat>, callers: seq<Caller>, issued: seq<Request>,
    outcomes: seq<(Request, Reply)>, mismatches: nat)

  datatype Action =
    | Start(call: Call, payload: seq<byte>)
    | Pop
    | Connect
    | ConnectFails
    | TakeGreeting
    | GreetingFails
    | Write
    | NotWritten                           // encoding or a socket option fails: the connection is put back
    | WriteFails
    | Receive
    | ReceiveFails                         // timeout or end of stream: poisoned
    | ReadOptionFails                      // the read timeout cannot be set: put back without being poisoned

  datatype Event =
    | Client(p: nat, action: Action)
    | ClearIdle
    | Worker(c: nat, answer: Answer)
    | WorkerCloses(c: nat)

  function Init(callers: nat): State {
    State([], [], seq(callers, _ => Ready), [], [], 0)
  }

  function Release(s: State, p: nat, maxIdle: nat): State
    requires p < |s.callers| && Has(s.callers[p])
  {
    s.(callers := s.callers[p := Ready],
       idle := if |s.idle| < maxIdle then s.idle + [s.callers[p].conn] else s.idle)
  }

  function Abandon(s: State, p: nat): State
    requires p < |s.callers|
  {
    s.(callers := s.callers[p := Ready])
  }

  /** A fresh correlation id, except that Unsubscribe always carries zero. */
  function Begin(s: State, p: nat, call: Call, payload: seq<byte>): State
    requires p < |s.callers|
  {
    if call.UnsubscribeCall? then
      s.(callers := s.callers[p := Acquiring(call, Request(UNSUBSCRIBE, 0, payload))])
    else
      var req := Request(RequestType(call), |s.issued| + 1, payload);
      s.(callers := s.callers[p := Acquiring(call, req)], issued := s.issued + [req])
  }

  /** `is_alive`: the non-blocking read finds neither end of stream nor a byte. */
  predicate Alive(c: Conn) { c.open && c.toClient == [] }

  function PopIdle(s: State, p: nat): State
    requires p < |s.callers| && s.callers[p].Acquiring?
  {
    if s.idle == [] then s
    else
      var top := s.idle[|s.idle| - 1];
      var s' := s.(idle := s.idle[..|s.idle| - 1]);
      if top < |s.conns| && Alive(s.conns[top]) then
        s'.(callers := s.callers[p := Holding(s.callers[p].call, s.callers[p].req, top)])
      else s'
  }

  /** The checks on a reply, in the order they are made. */
  datatype Verdict = WrongCid | WorkerError | WrongKind | Accepted

  function Judge(call: Call, req: Request, r: Reply): Verdict {
    if r.cid != req.cid then WrongCid
    else if r.kind == ERROR then WorkerError
    else if Expects(call) != Some(r.kind) then WrongKind
    else Accepted
  }

  function TakeReply(s: State, p: nat, maxIdle: nat): State
    requires p < |s.callers| && s.callers[p].Awaiting? && s.callers[p].conn < |s.conns|
    requires s.conns[s.callers[p].conn].toClient != []
  {
    var Awaiting(call, req, c) := s.callers[p];
    var r := s.conns[c].toClient[0];
    var s' := s.(conns := s.conns[c := s.conns[c].(toClient := s.conns[c].toClient[1..])]);
    match Judge(call, req, r)
    case WrongCid => Abandon(s', p).(mismatches := s.mismatches + 1)
    case WrongKind => Abandon(s', p).(mismatches := s.mismatches + 1)
    case _ => Release(s', p, maxIdle).(outcomes := s.outcomes + [(req, r)])
  }

  function ReadGreeting(s: State, p: nat): State
    requires p < |s.callers| && s.callers[p].Greeting? && s.callers[p].conn < |s.conns|
    requires s.conns[s.callers[p].conn].toClient != []
  {
    var Greeting(call, req, c) := s.callers[p];
    var r := s.conns[c].toClient[0];
    var s' := s.(conns := s.conns[c := s.conns[c].(toClient := s.conns[c].toClient[1..])]);
    if r.kind == HELLO && r.payload != [] && r.payload[0] == 1 then s'.(callers := s.callers[p := Holding(call, req, c)])
    else Abandon(s', p)
  }

  function PutRequest(s: State, p: nat, maxIdle: nat): State
    requires p < |s.callers| && s.callers[p].Holding? && s.callers[p].conn < |s.conns|
  {
    var Holding(call, req, c) := s.callers[p];
    var s' := s.(conns := s.conns[c := s.conns[c].(toWorker := s.conns[c].toWorker + [req])]);
    if Expects(call).Some? then s'.(callers := s.callers[p := Awaiting(call, req, c)])
    else Release(s', p, maxIdle)
  }

  predicate Enabled(s: State, p: nat, a: Action)
    requires p < |s.callers|
  {
    var caller := s.callers[p];
    && (Has(caller) ==> caller.conn < |s.conns|)
    && match a
       case Start(_, _) => caller.Ready?
       case Pop => caller.Acquiring? && s.idle != []
       case Connect => caller.Acquiring? && s.idle == []
       case ConnectFails => caller.Acquiring? && s.idle == []
       case TakeGreeting => caller.Greeting? && s.conns[caller.conn].toClient != []
       case GreetingFails => caller.Greeting?
       case Write => caller.Holding?
       case NotWritten => caller.Holding?
       case WriteFails => caller.Holding?
       case Receive => caller.Awaiting? && s.conns[caller.conn].toClient != []
       case ReceiveFails => caller.Awaiting?
       case ReadOptionFails => caller.Awaiting?
  }

  function Act(s: State, p: nat, a: Action, maxIdle: nat): State
    requires p < |s.callers| && Enabled(s, p, a)
  {
    match a
    case Start(call, payload) => Begin(s, p, call, payload)
    case Pop => PopIdle(s, p)
    case Connect =>
      s.(conns := s.conns + [DIALLED],
         callers := s.callers[p := Greeting(s.callers[p].call, s.callers[p].req, |s.conns|)])
    case TakeGreeting => ReadGreeting(s, p)
    case Write => PutRequest(s, p, maxIdle)
    case NotWritten => Release(s, p, maxIdle)
    case Receive => TakeReply(s, p, maxIdle)
    case ReadOptionFails => Release(s, p, maxIdle)
    case _ => Abandon(s, p)
  }

  function Do(s: State, e: Event, maxIdle: nat): State {
    match e
    case Client(p, a) => if p < |s.callers| && Enabled(s, p, a) then Act(s, p, a, maxIdle) else s
    case ClearIdle => s.(idle := [])
    case Worker(c, a) => if c < |s.conns| then s.(conns := s.conns[c := Serve(s.conns[c], a)]) else s
    case WorkerCloses(c) => if c < |s.conns| then s.(conns := s.conns[c := s.conns[c].(open := false)]) else s
  }

  function Run(callers: nat, maxIdle: nat, es: seq<Event>): State {
    if es == [] then Init(callers)
    else
      Do(Run(callers, maxIdle, es[..|es| - 1]), es[|es| - 1], maxIdle)
  }

  // ------------------------------------------------------------------------
  // Every accepted reply answers the request just sent
  // ------------------------------------------------------------------------

  /** Requests that get replies are told apart by their correlation ids. */
  predicate Known(issued: seq<Request>, q: Request) {
    q.kind == HELLO || q.kind == UNSUBSCRIBE || (1 <= q.cid <= |issued| && issued[q.cid - 1] == q)
  }

  predicate Honest(issued: seq<Request>, r: Reply) {
    && r.cid == r.to.cid
    && Known(issued, r.to)
    && r.to.kind != UNSUBSCRIBE
    && (r.to.kind == HELLO ==> r.kind == HELLO)
  }

  predicate KnownConn(issued: seq<Request>, c: Conn) {
    && (forall i :: 0 <= i < |c.toWorker| ==> Known(issued, c.toWorker[i]))
    && (forall i :: 0 <= i < |c.toClient| ==> Honest(issued, c.toClient[i]))
  }

  predicate KnownCaller(issued: seq<Request>, p: Caller) {
    p.Ready? || (p.req.kind == RequestType(p.call) && Known(issued, p.req) && (p.Awaiting? ==> Expects(p.call).Some?))
  }

  predicate Traced(s: State) {
    && (forall c :: 0 <= c < |s.conns| ==> KnownConn(s.issued, s.conns[c]))
    && (forall p :: 0 <= p < |s.callers| ==> KnownCaller(s.issued, s.callers[p]))
    && (forall i :: 0 <= i < |s.outcomes| ==> s.outcomes[i].1.to == s.outcomes[i].0)
  }

  lemma BothEndsAgree(call: Call)
    ensures Expects(call) == ReplyTo(RequestType(call))
    ensures Expects(call) != Some(HELLO) && Expects(call) != Some(ERROR)
    ensures RequestType(call) != HELLO && (RequestType(call) == UNSUBSCRIBE <==> Expects(call) == None)
  {
  }

  lemma ServeTraced(issued: seq<Request>, c: Conn, a: Answer)
    requires KnownConn(issued, c)
    ensures KnownConn(issued, Serve(c, a))
  {
    hide FrameLimit, Known;
  }

  lemma KnownGrows(s: State, req: Request)
    requires Traced(s)
    ensures Traced(s.(issued := s.issued + [req]))
  {
  }

  lemma TakeReplyTraced(s: State, p: nat, maxIdle: nat)
    requires p < |s.callers| && Enabled(s, p, Receive) && Traced(s)
    ensures Traced(TakeReply(s, p, maxIdle))
  {
    var Awaiting(call, req, c) := s.callers[p];
    var r := s.conns[c].toClient[0];
    BothEndsAgree(call);
    hide Expects, RequestType, ReplyTo;
    assert KnownConn(s.issued, s.conns[c]) && KnownCaller(s.issued, s.callers[p]);
    assert Honest(s.issued, r);
    assert Judge(call, req, r) == Accepted || Judge(call, req, r) == WorkerError ==> r.to == req;
  }

  lemma WriteTraced(s: State, p: nat, maxIdle: nat)
    requires p < |s.callers| && Enabled(s, p, Write) && Traced(s)
    ensures Traced(PutRequest(s, p, maxIdle))
  {
  }

  lemma GreetingTraced(s: State, p: nat)
    requires p < |s.callers| && Enabled(s, p, TakeGreeting) && Traced(s)
    ensures Traced(ReadGreeting(s, p))
  {
  }

  lemma ActTraced(s: State, p: nat, a: Action, maxIdle: nat)
    requires p < |s.callers| && Enabled(s, p, a) && Traced(s)
    ensures Traced(Act(s, p, a, maxIdle))
  {
    match a {
      case Start(call, payload) =>
        KnownGrows(s, Request(RequestType(call), |s.issued| + 1, payload));
        hide Expects, RequestType, ReplyTo, KnownConn;
      case Receive =>
        TakeReplyTraced(s, p, maxIdle);
        hide Traced;
      case Write =>
        WriteTraced(s, p, maxIdle);
        hide Traced;
      case TakeGreeting =>
        GreetingTraced(s, p);
        hide Traced;
      case _ =>
        hide Expects, RequestType, ReplyTo, Known, Honest, TakeReply, PutRequest, ReadGreeting;
    }
  }

  lemma DoTraced(s: State, e: Event, maxIdle: nat)
    requires Traced(s)
    ensures Traced(Do(s, e, maxIdle))
  {
    match e {
      case Client(p, a) =>
        if p < |s.callers| && Enabled(s, p, a) { ActTraced(s, p, a, maxIdle); }
      case Worker(c, a) =>
        if c < |s.conns| { ServeTraced(s.issued, s.conns[c], a); }
      case _ =>
    }
  }

  /**
   In every run, whatever fails and whatever the worker answers, a reply or an error
   that a caller gets is the one written for that caller's own request.
   */
  lemma {:induction false} RepliesAreOwn(callers: nat, maxIdle: nat, es: seq<Event>)
    ensures Traced(Run(callers, maxIdle, es))
    ensures forall o :: o in Run(callers, maxIdle, es).outcomes ==> o.1.to == o.0
  {
    if es != [] {
      RepliesAreOwn(callers, maxIdle, es[..|es| - 1]);
      DoTraced(Run(callers, maxIdle, es[..|es| - 1]), es[|es| - 1], maxIdle);
      hide Do;
    }
  }

  // ------------------------------------------------------------------------
  // A connection in the pool owes nothing
  // ------------------------------------------------------------------------

  predicate Silent(qs: seq<Request>) { forall i :: 0 <= i < |qs| ==> ReplyTo(qs[i].kind) == None }

  /** Nothing to read, and nothing on the way to a worker that will answer it. */
  predicate OwesNothing(c: Conn) { c.greeted && c.toClient == [] && (!c.open || Silent(c.toWorker)) }

  predicate OwesGreeting(c: Conn) {
    || (!c.greeted && c.toClient == [] && c.toWorker == DIALLED.toWorker)
    || (c.greeted && c.toWorker == [] && |c.toClient| == 1 && c.toClient[0].kind == HELLO)
    || (!c.open && c.toClient == [])
  }

  /** The worker still has to answer `req` and nothing else, or has answered exactly that, or never will. */
  predicate Owes(c: Conn, req: Request) {
    c.greeted && (Unanswered(c, req) || Answered(c, req) || (!c.open && c.toClient == []))
  }

  predicate Unanswered(c: Conn, req: Request) {
    var n := |c.toWorker|;
    c.toClient == [] && n > 0 && c.toWorker[n - 1] == req && Silent(c.toWorker[..n - 1])
  }

  predicate Answered(c: Conn, req: Request) {
    c.toWorker == [] && |c.toClient| == 1 && Answers(c.toClient[0], req)
  }

  predicate Answers(r: Reply, req: Request) {
    r.to == req && r.cid == req.cid && (r.kind == ERROR || Some(r.kind) == ReplyTo(req.kind))
  }

  predicate InOrder(s: State, p: Caller) {
    && (!p.Ready? ==> p.req.kind == RequestType(p.call))
    && (Has(p) ==> p.conn < |s.conns| && p.conn !in s.idle)
    && (p.Greeting? ==> OwesGreeting(s.conns[p.conn]))
    && (p.Holding? ==> OwesNothing(s.conns[p.conn]))
    && (p.Awaiting? ==> Expects(p.call).Some? && Owes(s.conns[p.conn], p.req))
  }

  predicate Disjoint(s: State) {
    forall p, q :: 0 <= p < q < |s.callers| && Has(s.callers[p]) && Has(s.callers[q]) ==> s.callers[p].conn != s.callers[q].conn
  }

  predicate Pooled(s: State) {
    && (forall i :: 0 <= i < |s.idle| ==> s.idle[i] < |s.conns| && OwesNothing(s.conns[s.idle[i]]))
    && (forall i, j :: 0 <= i < j < |s.idle| ==> s.idle[i] != s.idle[j])
  }

  predicate Orderly(s: State) {
    && Pooled(s)
    && Disjoint(s)
    && (forall p :: 0 <= p < |s.callers| ==> InOrder(s, s.callers[p]))
    && s.mismatches == 0
  }

  lemma ServeKeeps(c: Conn, a: Answer, req: Request)
    requires ReplyTo(req.kind).Some?
    ensures OwesNothing(c) ==> OwesNothing(Serve(c, a))
    ensures OwesGreeting(c) ==> OwesGreeting(Serve(c, a))
    ensures Owes(c, req) ==> Owes(Serve(c, a), req)
  {
    hide ReplyTo, FrameLimit;
    if c.open && c.toWorker != [] && c.greeted {
      var tail := c.toWorker[1..];
      assert |c.toWorker| > 1 ==> tail[..|tail| - 1] == c.toWorker[..|c.toWorker| - 1][1..];
    }
  }

  /** A change to one connection that keeps what its user may rely on. */
  lemma ChangeConn(s: State, c: nat, to: Conn)
    requires Orderly(s) && c < |s.conns|
    requires OwesNothing(s.conns[c]) ==> OwesNothing(to)
    requires OwesGreeting(s.conns[c]) ==> OwesGreeting(to)
    requires forall req :: Owes(s.conns[c], req) && ReplyTo(req.kind).Some? ==> Owes(to, req)
    ensures Orderly(s.(conns := s.conns[c := to]))
  {
  }

  lemma WorkerOrderly(s: State, c: nat, a: Answer)
    requires Orderly(s) && c < |s.conns|
    ensures Orderly(s.(conns := s.conns[c := Serve(s.conns[c], a)]))
  {
    forall req: Request | ReplyTo(req.kind).Some?
      ensures Owes(s.conns[c], req) ==> Owes(Serve(s.conns[c], a), req)
    {
      ServeKeeps(s.conns[c], a, req);
    }
    ServeKeeps(s.conns[c], a, Request(0x20, 1, []));
    hide Serve, Orderly, OwesNothing, OwesGreeting, Owes;
    ChangeConn(s, c, Serve(s.conns[c], a));
  }

  lemma CloseOrderly(s: State, c: nat)
    requires Orderly(s) && c < |s.conns|
    ensures Orderly(s.(conns := s.conns[c := s.conns[c].(open := false)]))
  {
    ChangeConn(s, c, s.conns[c].(open := false));
  }

  /** A caller moves on with the connection it has, whose contents it may change. */
  lemma MoveOn(s: State, p: nat, to: Caller, conn: Conn)
    requires Orderly(s) && p < |s.callers| && Has(s.callers[p])
    requires Has(to) ==> to.conn == s.callers[p].conn
    requires InOrder(s.(conns := s.conns[s.callers[p].conn := conn]), to)
    ensures Orderly(s.(conns := s.conns[s.callers[p].conn := conn], callers := s.callers[p := to]))
    ensures to.Ready? ==> s.callers[p].conn !in s.idle && forall q :: 0 <= q < |s.callers| && q != p && Has(s.callers[q]) ==> s.callers[q].conn != s.callers[p].conn
  {
  }

  /** Putting back a connection that owes nothing. */
  lemma PutBack(s: State, p: nat, conn: Conn, maxIdle: nat)
    requires Orderly(s) && p < |s.callers| && Has(s.callers[p]) && s.callers[p].conn < |s.conns| && OwesNothing(conn)
    ensures Orderly(Release(s.(conns := s.conns[s.callers[p].conn := conn]), p, maxIdle))
  {
    MoveOn(s, p, Ready, conn);
    var c := s.callers[p].conn;
    var s' := s.(conns := s.conns[c := conn], callers := s.callers[p := Ready]);
    hide OwesNothing, Orderly;
    if |s.idle| < maxIdle { AddIdle(s', c); }
  }

  /** A connection that nobody has and that owes nothing can join the pool. */
  lemma AddIdle(s: State, c: nat)
    requires Orderly(s) && c < |s.conns| && OwesNothing(s.conns[c]) && c !in s.idle
    requires forall q :: 0 <= q < |s.callers| && Has(s.callers[q]) ==> s.callers[q].conn != c
    ensures Orderly(s.(idle := s.idle + [c]))
  {
    hide OwesNothing, OwesGreeting, Owes, ReplyTo, Expects, RequestType;
    var z := s.(idle := s.idle + [c]);
    forall q | 0 <= q < |s.callers|
      ensures InOrder(z, s.callers[q])
    {
      assert InOrder(s, s.callers[q]);
    }
    hide InOrder;
  }

  lemma PopOrderly(s: State, p: nat)
    requires p < |s.callers| && Enabled(s, p, Pop) && Orderly(s)
    ensures Orderly(PopIdle(s, p))
  {
  }

  lemma ConnectOrderly(s: State, p: nat, maxIdle: nat)
    requires p < |s.callers| && Enabled(s, p, Connect) && Orderly(s)
    ensures Orderly(Act(s, p, Connect, maxIdle))
  {
  }

  lemma WriteOrderly(s: State, p: nat, maxIdle: nat)
    requires p < |s.callers| && Enabled(s, p, Write) && Orderly(s)
    ensures Orderly(PutRequest(s, p, maxIdle))
  {
    var Holding(call, req, c) := s.callers[p];
    assert InOrder(s, s.callers[p]);
    BothEndsAgree(call);
    var conn := s.conns[c].(toWorker := s.conns[c].toWorker + [req]);
    assert conn.toWorker[..|conn.toWorker| - 1] == s.conns[c].toWorker;
    if Expects(call).Some? {
      assert Owes(conn, req);
      hide Orderly;
      MoveOn(s, p, Awaiting(call, req, c), conn);
    } else {
      hide Orderly;
      PutBack(s, p, conn, maxIdle);
    }
  }

  lemma ReceiveOrderly(s: State, p: nat, maxIdle: nat)
    requires p < |s.callers| && Enabled(s, p, Receive) && Orderly(s)
    ensures Orderly(TakeReply(s, p, maxIdle))
  {
    var Awaiting(call, req, c) := s.callers[p];
    assert InOrder(s, s.callers[p]);
    BothEndsAgree(call);
    hide Expects, ReplyTo, RequestType;
    var conn := s.conns[c].(toClient := s.conns[c].toClient[1..]);
    assert Answered(s.conns[c], req) && OwesNothing(conn);
    PutBack(s, p, conn, maxIdle);
  }

  lemma GreetingOrderly(s: State, p: nat)
    requires p < |s.callers| && Enabled(s, p, TakeGreeting) && Orderly(s)
    ensures Orderly(ReadGreeting(s, p))
  {
  }

  lemma StartOrderly(s: State, p: nat, call: Call, payload: seq<byte>)
    requires p < |s.callers| && Enabled(s, p, Start(call, payload)) && Orderly(s)
    ensures Orderly(Begin(s, p, call, payload))
  {
  }

  lemma AbandonOrderly(s: State, p: nat)
    requires p < |s.callers| && Orderly(s)
    ensures Orderly(Abandon(s, p))
  {
  }

  lemma ActOrderly(s: State, p: nat, a: Action, maxIdle: nat)
    requires p < |s.callers| && Enabled(s, p, a) && Orderly(s) && !a.ReadOptionFails?
    ensures Orderly(Act(s, p, a, maxIdle))
  {
    match a {
      case Start(call, payload) => StartOrderly(s, p, call, payload);
      case Pop => PopOrderly(s, p);
      case Connect => ConnectOrderly(s, p, maxIdle);
      case TakeGreeting => GreetingOrderly(s, p);
      case Write => WriteOrderly(s, p, maxIdle);
      case NotWritten =>
        var c := s.callers[p].conn;
        assert InOrder(s, s.callers[p]) && s.(conns := s.conns[c := s.conns[c]]) == s;
        hide Orderly;
        PutBack(s, p, s.conns[c], maxIdle);
      case Receive => ReceiveOrderly(s, p, maxIdle);
      case _ => AbandonOrderly(s, p);
    }
    hide *;
  }

  lemma DoOrderly(s: State, e: Event, maxIdle: nat)
    requires Orderly(s) && !(e.Client? && e.action.ReadOptionFails?)
    ensures Orderly(Do(s, e, maxIdle))
  {
    match e {
      case Client(p, a) =>
        if p < |s.callers| && Enabled(s, p, a) { ActOrderly(s, p, a, maxIdle); }
        hide Act;
      case ClearIdle =>
        hide OwesNothing, OwesGreeting, Owes, ReplyTo, Expects, RequestType;
        forall q | 0 <= q < |s.callers|
          ensures InOrder(s.(idle := []), s.callers[q])
        {
          assert InOrder(s, s.callers[q]);
        }
      case Worker(c, a) =>
        if c < |s.conns| { WorkerOrderly(s, c, a); }
      case WorkerCloses(c) =>
        if c < |s.conns| { CloseOrderly(s, c); }
    }
  }

  /** No run of `es` fails to set a read timeout. */
  predicate OptionsSucceed(es: seq<Event>) {
    forall i :: 0 <= i < |es| ==> !(es[i].Client? && es[i].action.ReadOptionFails?)
  }

  /**
   In every run in which the read timeout can be set, no connection in the pool has a
   reply on it or coming, no connection has two users, and the checks on the
   correlation id and the frame type never fail.
   */
  lemma {:induction false} IdleOwesNothing(callers: nat, maxIdle: nat, es: seq<Event>)
    requires OptionsSucceed(es)
    ensures Orderly(Run(callers, maxIdle, es))
    ensures var s := Run(callers, maxIdle, es);
            && s.mismatches == 0
            && forall i :: 0 <= i < |s.idle| ==> s.idle[i] < |s.conns| && OwesNothing(s.conns[s.idle[i]])
  {
    if es != [] {
      var before := es[..|es| - 1];
      IdleOwesNothing(callers, maxIdle, before);
      DoOrderly(Run(callers, maxIdle, before), es[|es| - 1], maxIdle);
    }
    hide Do, OwesNothing, InOrder, Disjoint;
  }

  /** Where it cannot be set, the pool stays sound exactly if the connection is discarded or already dead. */
  lemma OptionFailureHarmlessIff(s: State, p: nat, maxIdle: nat)
    requires p < |s.callers| && Enabled(s, p, ReadOptionFails) && Orderly(s)
    ensures Orderly(Act(s, p, ReadOptionFails, maxIdle)) <==>
            |s.idle| >= maxIdle || (!s.conns[s.callers[p].conn].open && s.conns[s.callers[p].conn].toClient == [])
  {
    var Awaiting(call, req, c) := s.callers[p];
    var s' := Act(s, p, ReadOptionFails, maxIdle);
    assert InOrder(s, s.callers[p]);
    BothEndsAgree(call);
    assert s.(conns := s.conns[c := s.conns[c]]) == s;
    if |s.idle| >= maxIdle {
      AbandonOrderly(s, p);
    } else if !s.conns[c].open && s.conns[c].toClient == [] {
      PutBack(s, p, s.conns[c], maxIdle);
    } else {
      assert s'.idle[|s.idle|] == c;
      assert !OwesNothing(s.conns[c]);
    }
  }

  // ------------------------------------------------------------------------
  // What the correlation ids are for
  // ------------------------------------------------------------------------

  lemma Then(callers: nat, maxIdle: nat, es: seq<Event>, s: State, e: Event) returns (es': seq<Event>, s': State)
    requires s == Run(callers, maxIdle, es)
    ensures es' == es + [e] && s' == Do(s, e, maxIdle) == Run(callers, maxIdle, es')
  {
    es', s' := es + [e], Do(s, e, maxIdle);
    assert es'[..|es'| - 1] == es;
  }

  /** A process with one caller, a pool of one and at most one connection, before any reply was taken. */
  function Solo(conns: seq<Conn>, idle: seq<nat>, caller: Caller, issued: seq<Request>): State {
    State(conns, idle, [caller], issued, [], 0)
  }

  function Ask(n: nat): Request { Request(0x20, n, []) }

  function Asks(n: nat): (qs: seq<Request>)
    ensures |qs| == n
  {
    if n == 0 then [] else Asks(n - 1) + [Ask(n)]
  }

  lemma SoloStart(conns: seq<Conn>, idle: seq<nat>, n: nat)
    ensures Do(Solo(conns, idle, Ready, Asks(n)), Client(0, Start(Subscribe, [])), 1) ==
            Solo(conns, idle, Acquiring(Subscribe, Ask(n + 1)), Asks(n + 1))
  {
    assert Asks(n) + [Ask(n + 1)] == Asks(n + 1);
  }

  lemma SoloConnect(req: Request, issued: seq<Request>)
    ensures Do(Solo([], [], Acquiring(Subscribe, req), issued), Client(0, Connect), 1) ==
            Solo([DIALLED], [], Greeting(Subscribe, req, 0), issued)
  {
  }

  lemma SoloGreeted(req: Request, issued: seq<Request>, r: Reply)
    requires r.kind == HELLO && r.payload == [1]
    ensures Do(Solo([Conn([], [r], true, true)], [], Greeting(Subscribe, req, 0), issued), Client(0, TakeGreeting), 1) ==
            Solo([Conn([], [], true, true)], [], Holding(Subscribe, req, 0), issued)
  {
    assert [r][1..] == [];
  }

  lemma SoloPop(c: Conn, req: Request, issued: seq<Request>)
    requires Alive(c)
    ensures Do(Solo([c], [0], Acquiring(Subscribe, req), issued), Client(0, Pop), 1) ==
            Solo([c], [], Holding(Subscribe, req, 0), issued)
  {
  }

  lemma SoloWrite(c: Conn, req: Request, issued: seq<Request>)
    ensures Do(Solo([c], [], Holding(Subscribe, req, 0), issued), Client(0, Write), 1) ==
            Solo([c.(toWorker := c.toWorker + [req])], [], Awaiting(Subscribe, req, 0), issued)
  {
    hide ReplyTo, RequestType;
  }

  lemma SoloOptionFails(c: Conn, req: Request, issued: seq<Request>)
    ensures Do(Solo([c], [], Awaiting(Subscribe, req, 0), issued), Client(0, ReadOptionFails), 1) ==
            Solo([c], [0], Ready, issued)
  {
  }

  lemma SoloWorker(c: Conn, caller: Caller, issued: seq<Request>, a: Answer)
    ensures Do(Solo([c], [], caller, issued), Worker(0, a), 1) == Solo([Serve(c, a)], [], caller, issued)
  {
    hide Serve;
  }

  lemma SoloStale(c: Conn, req: Request, issued: seq<Request>)
    requires c.toClient != [] && c.toClient[0].cid != req.cid
    ensures Do(Solo([c], [], Awaiting(Subscribe, req, 0), issued), Client(0, Receive), 1).mismatches == 1
  {
  }

  lemma PendingAnswer()
    ensures !OwesNothing(Conn([Ask(1)], [], true, true))
    ensures Serve(Conn([Ask(1), Ask(2)], [], true, true), Respond([])).toClient == [Reply(0x21, 1, [], Ask(1))]
  {
  }

  /** A caller that has just failed to set the read timeout, the worker not having answered yet. */
  lemma AfterOptionFailure() returns (es: seq<Event>, s: State)
    ensures s == Run(1, 1, es) && s == Solo([Conn([Ask(1)], [], true, true)], [0], Ready, Asks(1))
  {
    es, s := [], Init(1);
    assert s == Run(1, 1, es);
    assert s.callers == [Ready];
    assert s == Solo([], [], Ready, Asks(0));
    var hello := Reply(HELLO, 0, [1], DIALLED.toWorker[0]);
    assert Serve(DIALLED, Close) == Conn([], [hello], true, true);
    hide Run, Do, Init, Asks, Serve;
    SoloStart([], [], 0);
    es, s := Then(1, 1, es, s, Client(0, Start(Subscribe, [])));
    SoloConnect(Ask(1), Asks(1));
    es, s := Then(1, 1, es, s, Client(0, Connect));
    SoloWorker(DIALLED, Greeting(Subscribe, Ask(1), 0), Asks(1), Close);
    es, s := Then(1, 1, es, s, Worker(0, Close));
    SoloGreeted(Ask(1), Asks(1), hello);
    es, s := Then(1, 1, es, s, Client(0, TakeGreeting));
    SoloWrite(Conn([], [], true, true), Ask(1), Asks(1));
    es, s := Then(1, 1, es, s, Client(0, Write));
    assert [] + [Ask(1)] == [Ask(1)];
    SoloOptionFails(Conn([Ask(1)], [], true, true), Ask(1), Asks(1));
    es, s := Then(1, 1, es, s, Client(0, ReadOptionFails));
  }

  /**
   Without that hypothesis the pool can hold a connection with an answer still to
   come. The next caller takes it for a live one and reads the stale reply: the
   correlation id is what keeps it from being believed.
   */
  lemma StaleReplyIsRefused() returns (es: seq<Event>, later: seq<Event>)
    ensures var s := Run(1, 1, es); s.idle == [0] && |s.conns| == 1 && !OwesNothing(s.conns[0])
    ensures es <= later && Run(1, 1, later).mismatches == 1
  {
    var s;
    es, s := AfterOptionFailure();
    var c, c' := Conn([Ask(1)], [], true, true), Conn([Ask(1), Ask(2)], [], true, true);
    PendingAnswer();
    hide Run, Do, Asks, Serve, OwesNothing;
    SoloStart([c], [0], 1);
    later, s := Then(1, 1, es, s, Client(0, Start(Subscribe, [])));
    SoloPop(c, Ask(2), Asks(2));
    later, s := Then(1, 1, later, s, Client(0, Pop));
    SoloWrite(c, Ask(2), Asks(2));
    later, s := Then(1, 1, later, s, Client(0, Write));
    assert c.(toWorker := c.toWorker + [Ask(2)]) == c';
    SoloWorker(c', Awaiting(Subscribe, Ask(2), 0), Asks(2), Respond([]));
    later, s := Then(1, 1, later, s, Worker(0, Respond([])));
    SoloStale(Serve(c', Respond([])), Ask(2), Asks(2));
    later, s := Then(1, 1, later, s, Client(0, Receive));
  }
}
