/**
 The client side of worker recovery for one socket: a cached belief that the worker
 is alive, a record of every cluster and token that was registered, one retry after
 an error that suggests a dead worker, and a replay of the record to a new one.

 One client process spawns the worker and makes its calls one at a time, and the
 worker may crash at any point: `MayCrash` stands at every place where the client
 waits for it. Crashing is the only way the transport fails.
 */
module SelfHealing {
  import opened Basics

  datatype Token = Token(value: string, lifetimeMs: int, principal: string, extensions: seq<(string, string)>)

  /** What the worker holds for a cluster. */
  datatype Stored = Stored(config: map<string, string>, token: Option<Token>)

  type Clusters = map<string, Stored>

  /** What the client recorded for a cluster. */
  datatype ReplayEntry = ReplayEntry(config: seq<(string, string)>, token: Option<Token>)

  datatype Request =
    | Register(cluster: string, config: seq<(string, string)>)
    | SetToken(cluster: string, token: Token)
    | Other                        // any request that leaves the registry alone

  datatype IoKind = BrokenPipe | ConnectionReset | ConnectionRefused | ConnectionAborted | UnexpectedEof | TimedOut
  datatype IpcError = EnsureWorker | Encode | Pool | Io(kind: IoKind) | DecodeResp | UnexpectedKind | CidMismatch | Server | Worker

  datatype Reply = Served | Error(e: IpcError)

  predicate ShouldInvalidate(e: IpcError) {
    match e
    case Pool => true
    case Io(kind) => !kind.TimedOut?
    case _ => false
  }

  /** Exactly the errors of a missing or broken connection suggest a dead worker; a timeout does not. */
  lemma InvalidatesIff(e: IpcError)
    ensures ShouldInvalidate(e) <==>
            e in {Pool, Io(BrokenPipe), Io(ConnectionReset), Io(ConnectionRefused), Io(ConnectionAborted), Io(UnexpectedEof)}
  {
  }

  /** Pairs collected into a hash map: later ones win. */
  function AsMap(config: seq<(string, string)>): map<string, string> {
    if config == [] then map[]
    else var (k, v) := config[|config| - 1]; AsMap(config[..|config| - 1])[k := v]
  }

  /** `i` is the last place of key `k` among the pairs. */
  predicate LastOf(config: seq<(string, string)>, i: nat, k: string) {
    i < |config| && config[i].0 == k && forall j :: i < j < |config| ==> config[j].0 != k
  }

  /** A key is in the collected map exactly if some pair has it, and its value is that of the last such pair. */
  lemma {:induction false} LaterPairsWin(config: seq<(string, string)>)
    ensures forall k :: k in AsMap(config) <==> exists i :: 0 <= i < |config| && config[i].0 == k
    ensures forall i, k :: 0 <= i && LastOf(config, i, k) ==> k in AsMap(config) && AsMap(config)[k] == config[i].1
    decreases |config|
  {
    if config != [] {
      var before, last := config[..|config| - 1], config[|config| - 1];
      LaterPairsWin(before);
      assert forall i :: 0 <= i < |before| ==> config[i] == before[i];
      forall k
        ensures k in AsMap(config) <==> exists i :: 0 <= i < |config| && config[i].0 == k
      {
        if k in AsMap(before) {
          var i :| 0 <= i < |before| && before[i].0 == k;
          assert config[i].0 == k;
        }
        if k == last.0 { assert config[|config| - 1].0 == k; }
      }
      forall i, k | 0 <= i && LastOf(config, i, k)
        ensures k in AsMap(config) && AsMap(config)[k] == config[i].1
      {
        if i < |before| { assert LastOf(before, i, k) && k != last.0; }
      }
    }
  }

  predicate Accepts(m: Clusters, r: Request) {
    match r
    case Register(_, config) => "bootstrap.servers" in AsMap(config)
    case SetToken(c, _) => c in m
    case Other => true
  }

  /** The worker's registry after a request it accepts; registering again keeps the token. */
  function Handle(m: Clusters, r: Request): Clusters
    requires Accepts(m, r)
  {
    match r
    case Register(c, config) => m[c := Stored(AsMap(config), if c in m then m[c].token else None)]
    case SetToken(c, t) => m[c := m[c].(token := Some(t))]
    case Other => m
  }

  /** What a worker has to hold for the clusters `keys` of the record. */
  function Image(replay: map<string, ReplayEntry>, keys: set<string>): Clusters
    requires keys <= replay.Keys
  {
    map c | c in keys :: Stored(AsMap(replay[c].config), replay[c].token)
  }

  predicate Replayable(replay: map<string, ReplayEntry>) {
    forall c :: c in replay ==> "bootstrap.servers" in AsMap(replay[c].config)
  }

  /** The record after a request that succeeded. */
  function Record(replay: map<string, ReplayEntry>, r: Request): map<string, ReplayEntry> {
    match r
    case Register(c, config) =>
      replay[c := ReplayEntry(config, if c in replay then replay[c].token else None)]
    case SetToken(c, t) =>
      replay[c := ReplayEntry(if c in replay then replay[c].config else [], Some(t))]
    case Other => replay
  }

  /** Recording a success and handling the request are the same step on the two sides. */
  lemma RecordMirrorsHandle(replay: map<string, ReplayEntry>, r: Request)
    requires Replayable(replay) && Accepts(Image(replay, replay.Keys), r)
    ensures var next := Record(replay, r);
            Replayable(next) && Image(next, next.Keys) == Handle(Image(replay, replay.Keys), r)
  {
    hide AsMap;
    var next := Record(replay, r);
    assert Replayable(next);
    var left, right := Image(next, next.Keys), Handle(Image(replay, replay.Keys), r);
    assert left.Keys == right.Keys;
    assert forall c :: c in left ==> left[c] == right[c];
  }

  /** A worker that never crashed, after handling `rs` from the start. */
  function HandleAll(rs: seq<Request>): Option<Clusters> {
    if rs == [] then Some(map[])
    else
      var before := HandleAll(rs[..|rs| - 1]);
      var last := rs[|rs| - 1];
      if before.Some? && Accepts(before.value, last) then Some(Handle(before.value, last)) else None
  }

  function RecordAll(rs: seq<Request>): map<string, ReplayEntry> {
    if rs == [] then map[] else Record(RecordAll(rs[..|rs| - 1]), rs[|rs| - 1])
  }

  /** Replaying the record rebuilds what a worker that never crashed would hold. */
  lemma {:induction false} ReplayRebuildsTheWorker(rs: seq<Request>)
    requires HandleAll(rs).Some?
    ensures Replayable(RecordAll(rs)) && Image(RecordAll(rs), RecordAll(rs).Keys) == HandleAll(rs).value
  {
    if rs != [] {
      ReplayRebuildsTheWorker(rs[..|rs| - 1]);
      RecordMirrorsHandle(RecordAll(rs[..|rs| - 1]), rs[|rs| - 1]);
      hide Handle, Record, Accepts, AsMap, Image, Replayable;
    }
  }

  /** Replaying one entry adds exactly its cluster. */
  lemma ReplayedOne(replay: map<string, ReplayEntry>, done: set<string>, c: string)
    requires Replayable(replay) && done <= replay.Keys && c in replay && c !in done
    ensures var m, entry := Image(replay, done), replay[c];
            && entry.config != []
            && Accepts(m, Register(c, entry.config))
            && var m' := Handle(m, Register(c, entry.config));
            && (entry.token.Some? ==> Accepts(m', SetToken(c, entry.token.value)))
            && Image(replay, done + {c}) ==
               if entry.token.Some? then Handle(m', SetToken(c, entry.token.value)) else m'
  {
  }

  function Firsts(order: seq<string>, i: nat): set<string>
    requires i <= |order|
  {
    set c | c in order[..i]
  }

  lemma OneFurther(order: seq<string>, keys: set<string>, i: nat)
    requires Lists(order, keys) && i < |order|
    ensures order[i] in keys && order[i] !in Firsts(order, i)
    ensures Firsts(order, i + 1) == Firsts(order, i) + {order[i]} && Firsts(order, i + 1) <= keys
  {
    assert order[..i + 1] == order[..i] + [order[i]];
  }

  lemma AllListed(order: seq<string>, keys: set<string>)
    requires Lists(order, keys)
    ensures Firsts(order, |order|) == keys
  {
    assert order[..|order|] == order;
  }

  class Client {
    var knownAlive: bool
    var replay: map<string, ReplayEntry>
    /** The worker process behind the socket, if it is running. */
    var worker: Option<Clusters>
    var retryAttempts: nat
    var retrySuccesses: nat
    var retryFailures: nat
    /** What the outside did: crashes of the worker, spawns that failed, requests the worker refused for reasons of its own. */
    ghost var crashes: nat
    ghost var spawnFailures: nat
    ghost var refusals: nat
    ghost var replays: nat

    /** A running worker is one this client spawned and believes alive, and it holds `held`. */
    ghost predicate Holds(held: Clusters)
      reads this
    {
      && (worker.Some? ==> knownAlive && worker.value == held)
      && (!knownAlive ==> held == Image(replay, replay.Keys))
    }

    /** Between calls: a running worker holds the whole record. */
    ghost predicate Valid()
      reads this
    {
      && Replayable(replay)
      && Holds(Image(replay, replay.Keys))
      && retryAttempts == retrySuccesses + retryFailures
    }

    /** The worker has died since the client last heard from it. */
    ghost predicate DiedUnnoticed()
      reads this
    {
      knownAlive && worker.None?
    }

    constructor ()
      ensures Valid() && replay == map[] && worker == None && !knownAlive
    {
      knownAlive, replay, worker := false, map[], None;
      retryAttempts, retrySuccesses, retryFailures := 0, 0, 0;
      crashes, spawnFailures, refusals, replays := 0, 0, 0, 0;
    }

    method MayCrash()
      modifies this`worker, this`crashes
      ensures || (worker == old(worker) && crashes == old(crashes))
              || (worker == None && old(worker).Some? && crashes == old(crashes) + 1)
    {
      if worker.Some? {
        if * { worker, crashes := None, crashes + 1; }
      }
    }

    /** A spawn either brings up an empty worker or fails. */
    method Spawn() returns (ok: bool)
      modifies this`worker, this`spawnFailures
      ensures ok ==> worker == Some(map[]) && spawnFailures == old(spawnFailures)
      ensures !ok ==> worker == old(worker) && spawnFailures == old(spawnFailures) + 1
    {
      if * {
        ok, spawnFailures := false, spawnFailures + 1;
      } else {
        ok, worker := true, Some(map[]);
      }
    }

    /** A request that leaves the registry alone may be answered with an error of the worker's own. */
    method Refuses() returns (refused: bool)
      modifies this`refusals
      ensures refusals == old(refusals) + if refused then 1 else 0
    {
      refused := false;
      if * { refused, refusals := true, refusals + 1; }
    }

    /** What a read or write on a dead worker's socket may report. */
    method DeadSocket() returns (kind: IoKind)
      ensures !kind.TimedOut?
    {
      kind :| !kind.TimedOut?;
    }

    /**
     `ipc::ensure`. With the belief cached it does nothing, which is what stops the
     recursion; and a worker that answers the probe is taken as it is, so one that
     somebody else spawned is not replayed to.
     */
    method Ensure(ghost held: Clusters) returns (r: Reply)
      requires Replayable(replay)
      modifies this`worker, this`knownAlive, this`crashes, this`spawnFailures, this`refusals, this`replays
      ensures crashes >= old(crashes) && refusals == old(refusals)
      ensures spawnFailures == old(spawnFailures) + if r == Error(EnsureWorker) then 1 else 0
      ensures old(knownAlive) ==> r == Served && knownAlive && worker == old(worker) && crashes == old(crashes) && replays == old(replays)
      ensures old(Holds(held)) ==> (crashes > old(crashes) <==> r.Error? && !r.e.EnsureWorker?)
      ensures replays <= old(replays) + 1
      ensures old(Holds(held)) && r.Served? ==> knownAlive && Holds(held) && (crashes == old(crashes) && old(!DiedUnnoticed()) ==> worker.Some?)
      ensures old(Holds(held)) && r.Error? ==> worker.None? && Holds(held)
      ensures r.Error? ==> r.e.EnsureWorker? || (ShouldInvalidate(r.e) && crashes > old(crashes))
      ensures !old(knownAlive) && old(worker).Some? && crashes == old(crashes) ==> r.Served? && worker == old(worker)
      decreases if knownAlive then 0 else 1, 0
    {
      if knownAlive { return Served; }
      MayCrash();
      var spawn := worker.None?;
      if spawn {
        var spawned := Spawn();
        if !spawned { return Error(EnsureWorker); }
      }
      knownAlive := true;
      r := Served;
      if spawn { r := ReplayClusters(); }
    }

    /**
     Register every recorded cluster, then its token, in no particular order; stop at the
     first failure. Its requests go through `Ensure` again, but no second replay starts.
     */
    method ReplayClusters() returns (r: Reply)
      requires Replayable(replay) && knownAlive && worker == Some(map[])
      modifies this`worker, this`knownAlive, this`crashes, this`spawnFailures, this`refusals, this`replays
      ensures knownAlive && crashes >= old(crashes) && replays == old(replays) + 1
      ensures worker.Some? ==> r.Served? && worker.value == Image(replay, replay.Keys)
      ensures spawnFailures == old(spawnFailures) && refusals == old(refusals)
      ensures r.Served? ==> worker.Some? && crashes == old(crashes)
      ensures r.Error? ==> ShouldInvalidate(r.e) && crashes > old(crashes)
      decreases 0, 3
    {
      replays := replays + 1;
      var snap := Snapshot();
      assert Firsts(snap, 0) == {} && Image(replay, {}) == map[];
      hide *;
      r := Served;
      for i := 0 to |snap|
        invariant knownAlive && r.Served? && Replayable(replay) && Lists(snap, replay.Keys)
        invariant replays == old(replays) + 1 && crashes == old(crashes) && worker.Some?
        invariant spawnFailures == old(spawnFailures) && refusals == old(refusals)
        invariant Firsts(snap, i) <= replay.Keys
        invariant worker.Some? ==> worker.value == Image(replay, Firsts(snap, i))
      {
        OneFurther(snap, replay.Keys, i);
        r := ReplayOne(snap[i], Firsts(snap, i));
        if r.Error? { return; }
      }
      AllListed(snap, replay.Keys);
    }

    /** The recorded clusters, in no particular order. */
    method Snapshot() returns (order: seq<string>)
      ensures Lists(order, replay.Keys)
    {
      var todo := replay.Keys;
      order := [];
      while todo != {}
        invariant todo <= replay.Keys && Lists(order, replay.Keys - todo)
        decreases |todo|
      {
        var c :| c in todo;
        order, todo := order + [c], todo - {c};
      }
      assert replay.Keys - todo == replay.Keys;
    }

    /** The two requests of one recorded cluster. */
    method ReplayOne(c: string, ghost done: set<string>) returns (r: Reply)
      requires Replayable(replay) && knownAlive && done <= replay.Keys && c in replay && c !in done
      requires worker.Some? ==> worker.value == Image(replay, done)
      modifies this`worker, this`knownAlive, this`crashes, this`spawnFailures, this`refusals, this`replays
      ensures knownAlive && crashes >= old(crashes) && replays == old(replays)
      ensures worker.Some? ==> r.Served? && worker.value == Image(replay, done + {c})
      ensures spawnFailures == old(spawnFailures) && refusals == old(refusals)
      ensures r.Served? ==> worker.Some? && crashes == old(crashes)
      ensures r.Error? ==> ShouldInvalidate(r.e) && worker.None? && (crashes > old(crashes) || old(worker).None?)
      decreases 0, 2
    {
      var entry := replay[c];
      ghost var held := Image(replay, done);
      ReplayedOne(replay, done, c);
      hide AsMap, Image, Replayable, Accepts, Handle, ShouldInvalidate;
      r := Served;
      if entry.config != [] {
        r := Once(Register(c, entry.config), held);
        if r.Error? { return; }
        held := Handle(held, Register(c, entry.config));
      }
      if entry.token.Some? {
        r := Once(SetToken(c, entry.token.value), held);
      }
    }

    /** `round_trip_once`: one attempt, from ensuring the worker to reading its reply. */
    method Once(req: Request, ghost held: Clusters) returns (r: Reply)
      requires Replayable(replay) && Holds(held)
      modifies this`worker, this`knownAlive, this`crashes, this`spawnFailures, this`refusals, this`replays
      ensures crashes >= old(crashes) && Holds(if r.Served? && Accepts(held, req) then Handle(held, req) else held)
      ensures old(knownAlive) ==> knownAlive && replays == old(replays)
      ensures replays <= old(replays) + 1
      ensures r.Served? ==> Accepts(held, req) && worker.Some?
      ensures r.Error? ==> worker.None? || r.e.Worker?
      ensures r.Error? ==> r.e.EnsureWorker? || r.e.Worker? || ShouldInvalidate(r.e)
      ensures spawnFailures == old(spawnFailures) + if r == Error(EnsureWorker) then 1 else 0
      ensures refusals == old(refusals) + if r == Error(Worker) && Accepts(held, req) then 1 else 0
      ensures !req.Other? ==> refusals == old(refusals)
      ensures r.Error? && r.e.EnsureWorker? ==> !old(knownAlive)
      ensures (r.Error? && ShouldInvalidate(r.e)) <==> (crashes > old(crashes) || old(DiedUnnoticed()))
      decreases if knownAlive then 0 else 1, 1
    {
      r := Ensure(held);
      if r.Error? { return; }
      hide AsMap, Image, Handle, Accepts;
      r := Exchange(req, held);
    }

    /** The part of an attempt that uses the socket: a connection, the request, its reply. */
    method Exchange(req: Request, ghost held: Clusters) returns (r: Reply)
      requires knownAlive && Holds(held)
      modifies this`worker, this`crashes, this`refusals
      ensures crashes >= old(crashes) && Holds(if r.Served? && Accepts(held, req) then Handle(held, req) else held)
      ensures r.Served? ==> Accepts(held, req) && worker.Some?
      ensures r.Error? ==> (worker.None? && ShouldInvalidate(r.e)) || r.e.Worker?
      ensures refusals == old(refusals) + if r == Error(Worker) && Accepts(held, req) then 1 else 0
      ensures !req.Other? ==> refusals == old(refusals)
      ensures (r.Error? && ShouldInvalidate(r.e)) <==> (crashes > old(crashes) || old(worker).None?)
    {
      hide AsMap, Image;
      MayCrash();
      if worker.None? { return Error(Pool); }
      MayCrash();
      if worker.None? { var kind := DeadSocket(); return Error(Io(kind)); }
      if !Accepts(worker.value, req) {
        MayCrash();
        if worker.None? { var kind := DeadSocket(); return Error(Io(kind)); }
        return Error(Worker);
      }
      worker := Some(Handle(worker.value, req));
      MayCrash();
      if worker.None? { var kind := DeadSocket(); return Error(Io(kind)); }
      if req.Other? {
        var refused := Refuses();
        if refused { return Error(Worker); }
      }
      r := Served;
    }

    /** `with_retry`: after an error that suggests a dead worker, forget the belief and try once more. */
    method WithRetry(req: Request) returns (r: Reply)
      requires Valid()
      modifies this`worker, this`knownAlive, this`crashes, this`spawnFailures, this`refusals, this`replays, this`retryAttempts, this`retrySuccesses, this`retryFailures
      ensures crashes >= old(crashes) && replays <= old(replays) + 2
      ensures retryAttempts == old(retryAttempts) + if crashes > old(crashes) || old(DiedUnnoticed()) then 1 else 0
      ensures retrySuccesses == old(retrySuccesses) + if r.Served? then retryAttempts - old(retryAttempts) else 0
      ensures retryFailures == old(retryFailures) + if r.Error? then retryAttempts - old(retryAttempts) else 0
      ensures spawnFailures == old(spawnFailures) + if r == Error(EnsureWorker) then 1 else 0
      ensures var held := Image(replay, replay.Keys);
              && (r.Served? ==> Accepts(held, req) && Holds(Handle(held, req)) && worker.Some?)
              && (r.Error? ==> Holds(held))
              && refusals == old(refusals) + (if r == Error(Worker) && Accepts(held, req) then 1 else 0)
      ensures !req.Other? ==> refusals == old(refusals)
      ensures r.Error? ==> r.e.EnsureWorker? || r.e.Worker? || ShouldInvalidate(r.e)
      ensures r.Error? && ShouldInvalidate(r.e) ==>
                !knownAlive && crashes + (if old(DiedUnnoticed()) then 1 else 0) >= old(crashes) + 2
    {
      ghost var held := Image(replay, replay.Keys);
      hide AsMap, Image, Replayable, Accepts, Handle;
      r := Once(req, held);
      if r.Error? && ShouldInvalidate(r.e) {
        knownAlive := false;
        retryAttempts := retryAttempts + 1;
        r := Once(req, held);
        if r.Served? {
          retrySuccesses := retrySuccesses + 1;
        } else {
          retryFailures := retryFailures + 1;
          if ShouldInvalidate(r.e) { knownAlive := false; }
        }
      }
    }

    /**
     A public request: `register_cluster` and `set_oauth_bearer_token` record what
     succeeded, every other request records nothing. A request that succeeds was
     served by a worker holding everything recorded before the call. It fails only if a
     spawn fails, the worker refuses it, or two crashes get in its way, one of which may
     have happened while the client was not looking.
     */
    method Call(req: Request) returns (r: Reply)
      requires Valid()
      modifies this
      ensures Valid() && crashes >= old(crashes) && replays <= old(replays) + 2
      ensures r.Served? ==>
                && Accepts(old(Image(replay, replay.Keys)), req)
                && worker == Some(Handle(old(Image(replay, replay.Keys)), req))
                && replay == Record(old(replay), req)
      ensures r.Error? ==> replay == old(replay)
      ensures r.Error? ==>
                || spawnFailures > old(spawnFailures)
                || !Accepts(old(Image(replay, replay.Keys)), req)
                || (req.Other? && refusals > old(refusals))
                || crashes + (if old(DiedUnnoticed()) then 1 else 0) >= old(crashes) + 2
      ensures spawnFailures == old(spawnFailures) + if r == Error(EnsureWorker) then 1 else 0
      ensures retryAttempts == old(retryAttempts) + if crashes > old(crashes) || old(DiedUnnoticed()) then 1 else 0
    {
      RecordMirrorsHandleIfAccepted(req);
      hide AsMap, Image, Replayable, Accepts, Handle, Record;
      r := WithRetry(req);
      if r.Served? {
        replay := Record(replay, req);
      }
    }

    lemma RecordMirrorsHandleIfAccepted(req: Request)
      requires Replayable(replay)
      ensures Accepts(Image(replay, replay.Keys), req) ==>
                var next := Record(replay, req);
                Replayable(next) && Image(next, next.Keys) == Handle(Image(replay, replay.Keys), req)
    {
      if Accepts(Image(replay, replay.Keys), req) { RecordMirrorsHandle(replay, req); }
    }
  }
}
