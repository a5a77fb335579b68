/**
 Stable virtual subscription ids over worker ids that die with the worker.

 Any number of callers run `poll` or `commit` on virtual ids while the worker
 crashes, drops single subscriptions, and is subscribed to again. Each lock
 acquisition, registry access and request is a step of its own.

 Two things go wrong, and each has its exact condition: an id is handed out while
 something still claims it for other parameters, which cannot happen if a restarted
 worker does not reuse ids (its counter really restarts at 1); and a call subscribes
 again for an entry that has vanished, which cannot happen if nobody unsubscribes a
 virtual id while a call on it is running.
 */
module Resubscribe {
  import opened Basics

  datatype Params = Params(socket: string, cluster: string, group: string, topics: seq<string>, config: seq<(string, string)>)

  datatype Entry = Entry(params: Params, id: nat)

  datatype Pc =
    | First                        // snapshot taken, first attempt to come
    | Waiting                      // the subscription was gone; wants the entry's lock
    | Holding                      // has the lock, is about to read the registry again
    | Subscribing                  // nobody else has resubscribed: it is up to this call
    | Updating(newId: nat)         // subscribed again, about to write the new id to the registry
    | Retrying                     // has the current id, second attempt to come
    | Done(served: Option<Params>) // on success, what the worker subscription that answered was created with

  datatype Call = Call(vid: nat, snap: Entry, pc: Pc)

  /** `asking` holds the ids of new subscriptions that are not in the registry yet. `created` and `resubs` are history: every id ever handed out, and every successful resubscription. */
  datatype World = World(
    registry: map<nat, Entry>, nextVirtual: nat,
    asking: map<nat, Entry>, live: map<nat, Params>, nextReal: nat,
    locks: map<nat, nat>, calls: map<nat, Call>,
    created: map<nat, Params>, resubs: seq<(nat, nat)>)

  const EMPTY := World(map[], 1, map[], map[], 1, map[], map[], map[], [])

  datatype Event =
    | Subscribe(u: nat, p: Params)  // subscriber `u` gets an id from the worker
    | Insert(u: nat)               // and enters it under a new virtual id
    | Unsubscribe(vid: nat)        // the entry is removed; the worker drops the subscription later, as in `Lose`
    | Crash(restart: nat)          // all subscriptions lost; the id counter restarts here
    | Lose(id: nat)              // one subscription ends and is removed
    | Begin(c: nat, v: nat)
    | Attempt(c: nat)
    | Acquire(c: nat)
    | Reread(c: nat)
    | Resub(c: nat)
    | Update(c: nat)
    | Retry(c: nat)
    | Fail(c: nat)                 // any other error: the call ends

  predicate Held(pc: Pc) { pc.Holding? || pc.Subscribing? || pc.Updating? || pc.Retrying? }

  predicate Enabled(w: World, e: Event) {
    match e
    case Subscribe(u, _) => u !in w.asking
    case Insert(u) => u in w.asking
    case Unsubscribe(v) => v in w.registry
    case Crash(_) => true
    case Lose(r) => true
    case Begin(c, v) => c !in w.calls && v in w.registry
    case Attempt(c) => c in w.calls && w.calls[c].pc.First?
    case Acquire(c) => c in w.calls && w.calls[c].pc.Waiting? && w.calls[c].vid !in w.locks
    case Reread(c) => c in w.calls && w.calls[c].pc.Holding?
    case Resub(c) => c in w.calls && w.calls[c].pc.Subscribing?
    case Update(c) => c in w.calls && w.calls[c].pc.Updating?
    case Retry(c) => c in w.calls && w.calls[c].pc.Retrying?
    case Fail(c) => c in w.calls && (w.calls[c].pc.First? || w.calls[c].pc.Subscribing? || w.calls[c].pc.Retrying?)
  }

  function Outcome(w: World, id: nat): Option<Params> {
    if id in w.live then Some(w.live[id]) else None
  }

  /** A subscription that the worker creates has the next id of its counter. */
  function Next(w: World, e: Event): World
    requires Enabled(w, e)
  {
    match e
    case Subscribe(u, p) =>
      w.(asking := w.asking[u := Entry(p, w.nextReal)],
         live := w.live[w.nextReal := p], created := w.created[w.nextReal := p], nextReal := w.nextReal + 1)
    case Insert(u) =>
      w.(registry := w.registry[w.nextVirtual := w.asking[u]], nextVirtual := w.nextVirtual + 1, asking := w.asking - {u})
    case Unsubscribe(v) => w.(registry := w.registry - {v})
    case Crash(restart) => w.(live := map[], nextReal := restart)
    case Lose(r) => w.(live := w.live - {r})
    case Begin(c, v) => w.(calls := w.calls[c := Call(v, w.registry[v], First)])
    case Attempt(c) =>
      var k := w.calls[c];
      var served := Outcome(w, k.snap.id);
      w.(calls := w.calls[c := k.(pc := if served.Some? then Done(served) else Waiting)])
    case Acquire(c) =>
      var k := w.calls[c];
      w.(calls := w.calls[c := k.(pc := Holding)], locks := w.locks[k.vid := c])
    case Reread(c) =>
      var k := w.calls[c];
      w.(calls := w.calls[c := if k.vid in w.registry && w.registry[k.vid].id != k.snap.id
                               then Call(k.vid, Entry(k.snap.params, w.registry[k.vid].id), Retrying)
                               else k.(pc := Subscribing)])
    case Resub(c) =>
      var k := w.calls[c];
      w.(calls := w.calls[c := k.(pc := Updating(w.nextReal))], resubs := w.resubs + [(k.vid, k.snap.id)],
         live := w.live[w.nextReal := k.snap.params], created := w.created[w.nextReal := k.snap.params], nextReal := w.nextReal + 1)
    case Update(c) =>
      var k := w.calls[c];
      w.(calls := w.calls[c := Call(k.vid, Entry(k.snap.params, k.pc.newId), Retrying)],
         registry := if k.vid in w.registry then w.registry[k.vid := Entry(w.registry[k.vid].params, k.pc.newId)] else w.registry)
    case Retry(c) =>
      var k := w.calls[c];
      w.(calls := w.calls[c := k.(pc := Done(Outcome(w, k.snap.id)))], locks := w.locks - {k.vid})
    case Fail(c) =>
      var k := w.calls[c];
      w.(calls := w.calls[c := k.(pc := Done(None))], locks := if Held(k.pc) then w.locks - {k.vid} else w.locks)
  }

  /** Hypothesis: a restarted worker does not hand out an id again. */
  predicate FreshIds(w: World, e: Event) { e.Crash? ==> e.restart >= w.nextReal }

  /** Hypothesis: no call on a virtual id is running when it is unsubscribed. */
  ghost predicate Quiet(w: World, e: Event) {
    e.Unsubscribe? ==> forall c :: c in w.calls && w.calls[c].vid == e.vid ==> w.calls[c].pc.Done?
  }

  // ----------------------------------------------------- the right parameters

  /** Id `r` was created with parameters `p`. */
  predicate Made(w: World, r: nat, p: Params) { r in w.created && w.created[r] == p }

  predicate CallOk(w: World, k: Call) {
    && (!k.pc.Done? ==> Made(w, k.snap.id, k.snap.params))
    && (k.vid in w.registry ==> w.registry[k.vid].params == k.snap.params)
    && k.vid < w.nextVirtual
    && (k.pc.Updating? ==> Made(w, k.pc.newId, k.snap.params))
    && (k.pc.Done? && k.pc.served.Some? ==> k.pc.served.value == k.snap.params)
  }

  /** Every id that is live, registered or held by a running call was created with the parameters it is held for. */
  ghost predicate Bindings(w: World) {
    && (forall r :: r in w.live ==> Made(w, r, w.live[r]))
    && (forall v :: v in w.registry ==> v < w.nextVirtual && Made(w, w.registry[v].id, w.registry[v].params))
    && (forall u :: u in w.asking ==> Made(w, w.asking[u].id, w.asking[u].params))
    && (forall c :: c in w.calls ==> CallOk(w, w.calls[c]))
  }

  ghost predicate Bound(w: World) {
    (forall r :: r in w.created ==> r < w.nextReal) && Bindings(w)
  }

  predicate Moves(e: Event, c: nat) {
    match e
    case Subscribe(_, _) => false
    case Insert(_) => false
    case Unsubscribe(_) => false
    case Crash(_) => false
    case Lose(_) => false
    case _ => e.c == c
  }

  /** The steps of a call in progress. */
  predicate OfCall(w: World, e: Event) {
    match e
    case Subscribe(_, _) => false
    case Insert(_) => false
    case Unsubscribe(_) => false
    case Crash(_) => false
    case Lose(_) => false
    case Begin(_, _) => false
    case _ => e.c in w.calls
  }

  /** What a step of call `c` may touch: its own state, and the lock and the entry of its virtual id; these only while it may. */
  ghost predicate Local(w: World, c: nat, z: World)
    requires c in w.calls
  {
    var k := w.calls[c];
    && c in z.calls && z.calls == w.calls[c := z.calls[c]] && z.calls[c].vid == k.vid
    && z.nextVirtual == w.nextVirtual && z.asking == w.asking
    && (forall v :: v != k.vid ==> (v in z.locks <==> v in w.locks) && (v in z.locks ==> z.locks[v] == w.locks[v]))
    && (forall v :: v in z.registry <==> v in w.registry)
    && (forall v :: v in z.registry ==> z.registry[v].params == w.registry[v].params && (v != k.vid ==> z.registry[v] == w.registry[v]))
    && (z.resubs == w.resubs || z.resubs == w.resubs + [(k.vid, k.snap.id)])
    && (k.vid in w.locks && !Held(k.pc) ==> z.locks == w.locks && z.registry == w.registry && z.resubs == w.resubs)
  }

  lemma StepLocal(w: World, e: Event)
    requires Enabled(w, e) && OfCall(w, e)
    ensures Local(w, e.c, Next(w, e))
  {
    hide Outcome;
  }

  /** A step leaves the calls it does not move as they were. */
  lemma CallsFramed(w: World, e: Event)
    requires Enabled(w, e)
    ensures var z := Next(w, e);
            && (forall c :: c in w.calls && !Moves(e, c) ==> c in z.calls && z.calls[c] == w.calls[c])
            && (forall c :: c in z.calls && !Moves(e, c) ==> c in w.calls)
  {
    if OfCall(w, e) {
      StepLocal(w, e);
      hide Next;
    }
  }

  ghost predicate Reaches(w: World, es: seq<Event>, z: World)
    decreases |es|
  {
    if es == [] then z == w else Enabled(w, es[0]) && Reaches(Next(w, es[0]), es[1..], z)
  }

  /** The hypotheses hold at every step of the run. */
  ghost predicate Assumed(w: World, es: seq<Event>, quiet: bool)
    decreases |es|
  {
    es == [] || (
      && Enabled(w, es[0]) && FreshIds(w, es[0]) && (quiet ==> Quiet(w, es[0]))
      && Assumed(Next(w, es[0]), es[1..], quiet))
  }

  /** Nothing that still refers to id `n` holds it for other parameters than `p`. */
  ghost predicate Unclaimed(w: World, n: nat, p: Params) {
    && (forall v :: v in w.registry && w.registry[v].id == n ==> w.registry[v].params == p)
    && (forall u :: u in w.asking && w.asking[u].id == n ==> w.asking[u].params == p)
    && (forall c :: c in w.calls && Refers(w.calls[c], n) ==> w.calls[c].snap.params == p)
  }

  /** A call that is not done will still use id `n`. */
  predicate Refers(k: Call, n: nat) { !k.pc.Done? && (k.snap.id == n || (k.pc.Updating? && k.pc.newId == n)) }

  /** The parameters a new subscription is created with. */
  function Wanted(w: World, e: Event): Params
    requires Enabled(w, e) && (e.Subscribe? || e.Resub?)
  {
    if e.Subscribe? then e.p else w.calls[e.c].snap.params
  }

  /** What fresh ids are for: handing out an id keeps the bindings exactly if nothing claims it for other parameters. */
  lemma HandOutKeepsIff(w: World, e: Event)
    requires Bindings(w) && Enabled(w, e) && (e.Subscribe? || e.Resub?)
    ensures Bindings(Next(w, e)) <==> Unclaimed(w, w.nextReal, Wanted(w, e))
  {
    hide Bindings, Unclaimed, Next;
    if Bindings(Next(w, e)) {
      HandedOutUnclaimed(w, e);
    } else if Unclaimed(w, w.nextReal, Wanted(w, e)) {
      UnclaimedKeeps(w, e);
    }
  }

  lemma HandedOutUnclaimed(w: World, e: Event)
    requires Bindings(w) && Enabled(w, e) && (e.Subscribe? || e.Resub?) && Bindings(Next(w, e))
    ensures Unclaimed(w, w.nextReal, Wanted(w, e))
  {
    var z := Next(w, e);
    forall v | v in w.registry && w.registry[v].id == w.nextReal
      ensures w.registry[v].params == Wanted(w, e)
    {
      assert v in z.registry && z.registry[v] == w.registry[v];
    }
    forall u | u in w.asking && w.asking[u].id == w.nextReal
      ensures w.asking[u].params == Wanted(w, e)
    {
      assert u in z.asking && z.asking[u] == w.asking[u];
    }
    forall c | c in w.calls && Refers(w.calls[c], w.nextReal)
      ensures w.calls[c].snap.params == Wanted(w, e)
    {
      assert c in z.calls && CallOk(z, z.calls[c]);
    }
  }

  lemma UnclaimedKeeps(w: World, e: Event)
    requires Bindings(w) && Enabled(w, e) && (e.Subscribe? || e.Resub?)
    requires Unclaimed(w, w.nextReal, Wanted(w, e))
    ensures Bindings(Next(w, e))
  {
    hide CallOk, Next, Made, Unclaimed;
    UnclaimedKeepsCalls(w, e);
    UnclaimedKeepsIds(w, e);
  }

  lemma UnclaimedKeepsIds(w: World, e: Event)
    requires Bindings(w) && Enabled(w, e) && (e.Subscribe? || e.Resub?)
    requires Unclaimed(w, w.nextReal, Wanted(w, e))
    ensures var z := Next(w, e);
            && (forall r :: r in z.live ==> Made(z, r, z.live[r]))
            && (forall v :: v in z.registry ==> v < z.nextVirtual && Made(z, z.registry[v].id, z.registry[v].params))
            && (forall u :: u in z.asking ==> Made(z, z.asking[u].id, z.asking[u].params))
  {
    hide CallOk;
  }

  lemma UnclaimedKeepsCalls(w: World, e: Event)
    requires Bindings(w) && Enabled(w, e) && (e.Subscribe? || e.Resub?)
    requires Unclaimed(w, w.nextReal, Wanted(w, e))
    ensures var z := Next(w, e); forall c :: c in z.calls ==> CallOk(z, z.calls[c])
  {
    var z := Next(w, e);
    forall c | c in z.calls
      ensures CallOk(z, z.calls[c])
    {
      assert CallOk(w, w.calls[c]);
    }
  }

  /** A step that creates nothing leaves ids and parameters as they are; only an update moves an entry to another id. */
  lemma NoNewIds(w: World, e: Event)
    requires Enabled(w, e) && !e.Subscribe? && !e.Resub? && !e.Insert?
    ensures var z := Next(w, e);
            && z.created == w.created && z.nextVirtual == w.nextVirtual && z.asking == w.asking
            && (forall r :: r in z.live ==> r in w.live && z.live[r] == w.live[r])
            && (forall v :: v in z.registry ==>
                  && v in w.registry && z.registry[v].params == w.registry[v].params
                  && (z.registry[v].id == w.registry[v].id || MovesEntry(w, e, v, z.registry[v].id)))
  {
    hide Outcome;
    if OfCall(w, e) && !e.Update? { QuietStep(w, e); }
  }

  /** Call `e.c` writes the id it got to its own entry. */
  predicate MovesEntry(w: World, e: Event, v: nat, id: nat) {
    e.Update? && e.c in w.calls && w.calls[e.c].pc.Updating? && v == w.calls[e.c].vid && id == w.calls[e.c].pc.newId
  }

  lemma QuietStep(w: World, e: Event)
    requires Enabled(w, e) && OfCall(w, e) && !e.Resub? && !e.Update?
    ensures var z := Next(w, e); z.created == w.created && z.live == w.live && z.registry == w.registry
                                 && z.nextVirtual == w.nextVirtual && z.asking == w.asking
  {
    hide Outcome;
  }

  lemma MoverKeeps(w: World, e: Event, c: nat)
    requires Bindings(w) && Enabled(w, e) && Moves(e, c) && !e.Resub?
    ensures c in Next(w, e).calls && CallOk(Next(w, e), Next(w, e).calls[c])
  {
    if c in w.calls { assert CallOk(w, w.calls[c]); }
  }

  lemma InsertKeeps(w: World, u: nat)
    requires Bindings(w) && Enabled(w, Insert(u))
    ensures Bindings(Next(w, Insert(u)))
  {
    var z := Next(w, Insert(u));
    forall c | c in z.calls
      ensures CallOk(z, z.calls[c])
    {
      assert CallOk(w, w.calls[c]);
    }
  }

  /** No other step needs a hypothesis. */
  lemma OtherStepsKeep(w: World, e: Event)
    requires Bindings(w) && Enabled(w, e) && !e.Subscribe? && !e.Resub?
    ensures Bindings(Next(w, e))
  {
    if e.Insert? {
      InsertKeeps(w, e.u);
    } else {
      hide Next, CallOk;
      OtherStepsCalls(w, e);
      OtherStepsIds(w, e);
    }
  }

  lemma OtherStepsIds(w: World, e: Event)
    requires Bindings(w) && Enabled(w, e) && !e.Subscribe? && !e.Resub? && !e.Insert?
    ensures var z := Next(w, e);
            && (forall r :: r in z.live ==> Made(z, r, z.live[r]))
            && (forall v :: v in z.registry ==> v < z.nextVirtual && Made(z, z.registry[v].id, z.registry[v].params))
            && (forall u :: u in z.asking ==> Made(z, z.asking[u].id, z.asking[u].params))
  {
    hide Next;
    NoNewIds(w, e);
    if e.Update? { assert CallOk(w, w.calls[e.c]); }
  }

  lemma OtherStepsCalls(w: World, e: Event)
    requires Bindings(w) && Enabled(w, e) && !e.Subscribe? && !e.Resub? && !e.Insert?
    ensures var z := Next(w, e); forall c :: c in z.calls ==> CallOk(z, z.calls[c])
  {
    hide Next;
    NoNewIds(w, e);
    CallsFramed(w, e);
    var z := Next(w, e);
    forall c | c in z.calls
      ensures CallOk(z, z.calls[c])
    {
      if Moves(e, c) { MoverKeeps(w, e, c); } else { assert CallOk(w, w.calls[c]); }
    }
  }

  /** Fresh ids are unclaimed. */
  lemma StepBound(w: World, e: Event)
    requires Bound(w) && Enabled(w, e) && FreshIds(w, e)
    ensures Bound(Next(w, e))
  {
    if e.Subscribe? || e.Resub? {
      FreshUnclaimed(w);
      UnclaimedKeeps(w, e);
    } else {
      if !e.Insert? { NoNewIds(w, e); }
      OtherStepsKeep(w, e);
    }
    hide Bindings;
  }

  ghost predicate AlwaysBound(w: World, es: seq<Event>)
    decreases |es|
  {
    Bindings(w) && (es == [] || (Enabled(w, es[0]) && AlwaysBound(Next(w, es[0]), es[1..])))
  }

  ghost predicate NeverClaimed(w: World, es: seq<Event>)
    decreases |es|
  {
    es == [] || (
      && Enabled(w, es[0])
      && (es[0].Subscribe? || es[0].Resub? ==> Unclaimed(w, w.nextReal, Wanted(w, es[0])))
      && NeverClaimed(Next(w, es[0]), es[1..]))
  }

  /** Over whole runs: the bindings hold throughout exactly if no id is handed out while it is claimed for other parameters. */
  lemma {:induction false} AlwaysBoundIff(w: World, es: seq<Event>, z: World)
    requires Bindings(w) && Reaches(w, es, z)
    ensures AlwaysBound(w, es) <==> NeverClaimed(w, es)
    decreases |es|
  {
    if es != [] {
      if es[0].Subscribe? || es[0].Resub? { HandOutKeepsIff(w, es[0]); } else { OtherStepsKeep(w, es[0]); }
      hide Bindings, Unclaimed, Next;
      if Bindings(Next(w, es[0])) { AlwaysBoundIff(Next(w, es[0]), es[1..], z); }
    }
  }

  lemma {:induction false} BoundAtEnd(w: World, es: seq<Event>, z: World)
    requires Reaches(w, es, z) && AlwaysBound(w, es)
    ensures Bindings(z)
    decreases |es|
  {
    hide Bindings;
    if es != [] { BoundAtEnd(Next(w, es[0]), es[1..], z); }
  }

  /** Every successful call on a virtual id was answered by a subscription made with that id's own saved parameters. */
  lemma ServedWithOwnParams(es: seq<Event>, z: World, c: nat)
    requires Reaches(EMPTY, es, z) && NeverClaimed(EMPTY, es)
    requires c in z.calls && z.calls[c].pc.Done? && z.calls[c].pc.served.Some?
    ensures z.calls[c].pc.served.value == z.calls[c].snap.params
    ensures z.calls[c].vid in z.registry ==> z.registry[z.calls[c].vid].params == z.calls[c].pc.served.value
  {
    AlwaysBoundIff(EMPTY, es, z);
    BoundAtEnd(EMPTY, es, z);
    assert CallOk(z, z.calls[c]);
  }

  /** Ids that are not reused are never claimed when they are handed out. */
  lemma {:induction false} FreshNeverClaimed(w: World, es: seq<Event>, z: World, quiet: bool)
    requires Bound(w) && Reaches(w, es, z) && Assumed(w, es, quiet)
    ensures NeverClaimed(w, es)
    decreases |es|
  {
    if es != [] {
      FreshUnclaimed(w);
      StepBound(w, es[0]);
      hide Bound, Bindings, Next;
      FreshNeverClaimed(Next(w, es[0]), es[1..], z, quiet);
    }
  }

  lemma FreshUnclaimed(w: World)
    requires Bound(w)
    ensures forall p :: Unclaimed(w, w.nextReal, p)
  {
    forall c | c in w.calls ensures !Refers(w.calls[c], w.nextReal) { assert CallOk(w, w.calls[c]); }
  }

  // ------------------------------------------------------------- at most once

  predicate LockOk(w: World, c: nat, k: Call) {
    && (Held(k.pc) ==> k.vid in w.locks && w.locks[k.vid] == c)
    && ((k.pc.Subscribing? || k.pc.Updating?) && k.vid in w.registry ==> w.registry[k.vid].id == k.snap.id)
    && (k.pc.Updating? ==> forall i :: 0 <= i < |w.resubs| ==> w.resubs[i] != (k.vid, k.pc.newId))
  }

  /** A resubscribed id has left the registry, unless the call that replaced it is about to write the new one. */
  predicate Replaced(w: World, p: (nat, nat)) {
    && p.0 < w.nextVirtual && p.1 in w.created
    && (p.0 in w.registry && w.registry[p.0].id == p.1 ==>
          && p.0 in w.locks && w.locks[p.0] in w.calls
          && w.calls[w.locks[p.0]].pc.Updating? && w.calls[w.locks[p.0]].vid == p.0)
  }

  ghost predicate Guarded(w: World) {
    && (forall c :: c in w.calls ==> LockOk(w, c, w.calls[c]))
    && (forall i :: 0 <= i < |w.resubs| ==> Replaced(w, w.resubs[i]))
  }

  lemma OtherLockedByCall(w: World, e: Event, c: nat)
    requires Enabled(w, e) && OfCall(w, e) && c in w.calls && c != e.c
    requires LockOk(w, c, w.calls[c]) && LockOk(w, e.c, w.calls[e.c])
    ensures c in Next(w, e).calls && Next(w, e).calls[c] == w.calls[c] && LockOk(Next(w, e), c, w.calls[c])
  {
    hide Next;
    StepLocal(w, e);
  }

  lemma OtherLockedByRest(w: World, e: Event, c: nat)
    requires Enabled(w, e) && !OfCall(w, e) && c in w.calls && !Moves(e, c) && w.calls[c].vid < w.nextVirtual
    requires LockOk(w, c, w.calls[c])
    ensures c in Next(w, e).calls && Next(w, e).calls[c] == w.calls[c] && LockOk(Next(w, e), c, w.calls[c])
  {
  }

  /** A step leaves alone the lock and the registry entry that another call holds, and records nothing for it. */
  lemma OtherLocked(w: World, e: Event, c: nat)
    requires Bound(w) && Guarded(w) && Enabled(w, e) && c in w.calls && !Moves(e, c)
    ensures c in Next(w, e).calls && Next(w, e).calls[c] == w.calls[c] && LockOk(Next(w, e), c, w.calls[c])
  {
    hide Next, LockOk, Replaced;
    assert LockOk(w, c, w.calls[c]);
    if OfCall(w, e) {
      assert LockOk(w, e.c, w.calls[e.c]);
      OtherLockedByCall(w, e, c);
    } else {
      VidKnown(w, c);
      OtherLockedByRest(w, e, c);
    }
  }

  lemma VidKnown(w: World, c: nat)
    requires Bound(w) && c in w.calls
    ensures w.calls[c].vid < w.nextVirtual
  {
    assert CallOk(w, w.calls[c]);
  }

  lemma MoverLocked(w: World, e: Event, c: nat)
    requires Bound(w) && Guarded(w) && Enabled(w, e) && FreshIds(w, e) && Moves(e, c)
    ensures c in Next(w, e).calls && LockOk(Next(w, e), c, Next(w, e).calls[c])
  {
    hide Next;
    assert forall i :: 0 <= i < |w.resubs| ==> Replaced(w, w.resubs[i]) && w.resubs[i].1 < w.nextReal;
    assert c in w.calls ==> LockOk(w, c, w.calls[c]) && CallOk(w, w.calls[c]);
    hide Bound, Bindings, Guarded;
    if e.Resub? { ResubKeepsLock(w, e, c); } else { MoverTakesLock(w, e, c); }
  }

  lemma ResubKeepsLock(w: World, e: Event, c: nat)
    requires Enabled(w, e) && Moves(e, c) && e.Resub?
    requires c in w.calls ==> LockOk(w, c, w.calls[c]) && (w.calls[c].pc.Done? || w.calls[c].snap.id < w.nextReal)
    requires forall i :: 0 <= i < |w.resubs| ==> w.resubs[i].1 < w.nextReal
    ensures c in Next(w, e).calls && LockOk(Next(w, e), c, Next(w, e).calls[c])
  {
    hide Outcome;
  }

  lemma MoverTakesLock(w: World, e: Event, c: nat)
    requires Enabled(w, e) && Moves(e, c) && !e.Resub?
    requires c in w.calls ==> LockOk(w, c, w.calls[c]) && (w.calls[c].pc.Done? || w.calls[c].snap.id < w.nextReal)
    requires forall i :: 0 <= i < |w.resubs| ==> w.resubs[i].1 < w.nextReal
    ensures c in Next(w, e).calls && LockOk(Next(w, e), c, Next(w, e).calls[c])
  {
    hide Outcome;
  }

  lemma StepLocks(w: World, e: Event)
    requires Bound(w) && Guarded(w) && Enabled(w, e) && FreshIds(w, e)
    ensures var z := Next(w, e); forall c :: c in z.calls ==> LockOk(z, c, z.calls[c])
  {
    hide Next, LockOk, Replaced;
    var z := Next(w, e);
    CallsFramed(w, e);
    forall c | c in z.calls
      ensures LockOk(z, c, z.calls[c])
    {
      if Moves(e, c) { MoverLocked(w, e, c); } else { OtherLocked(w, e, c); }
    }
  }

  lemma PairKeptByCall(w: World, e: Event, p: (nat, nat))
    requires Enabled(w, e) && OfCall(w, e) && LockOk(w, e.c, w.calls[e.c]) && p in w.resubs && Replaced(w, p)
    ensures Replaced(Next(w, e), p)
  {
    hide Outcome;
  }

  lemma PairKeptByRest(w: World, e: Event, p: (nat, nat))
    requires Enabled(w, e) && !OfCall(w, e) && Replaced(w, p)
    ensures Replaced(Next(w, e), p)
  {
  }

  lemma PairKept(w: World, e: Event, p: (nat, nat))
    requires Guarded(w) && Enabled(w, e) && p in w.resubs
    ensures Replaced(Next(w, e), p)
  {
    hide Next, LockOk, Replaced;
    assert Replaced(w, p);
    if OfCall(w, e) {
      assert LockOk(w, e.c, w.calls[e.c]);
      PairKeptByCall(w, e, p);
    } else {
      PairKeptByRest(w, e, p);
    }
  }

  lemma StepReplaced(w: World, e: Event)
    requires Bound(w) && Guarded(w) && Enabled(w, e) && FreshIds(w, e)
    ensures var z := Next(w, e);
            forall i :: 0 <= i < |z.resubs| ==> Replaced(z, z.resubs[i])
  {
    var z := Next(w, e);
    if e.Resub? { NewPair(w, e.c); }
    hide Replaced;
    forall i | 0 <= i < |z.resubs|
      ensures Replaced(z, z.resubs[i])
    {
      if i < |w.resubs| { PairKept(w, e, w.resubs[i]); }
    }
  }

  lemma NewPair(w: World, c: nat)
    requires Bound(w) && Guarded(w) && Enabled(w, Resub(c))
    ensures var k := w.calls[c]; Replaced(Next(w, Resub(c)), (k.vid, k.snap.id))
    ensures var k := w.calls[c]; k.vid in w.registry ==> (k.vid, k.snap.id) !in w.resubs
  {
    assert LockOk(w, c, w.calls[c]) && CallOk(w, w.calls[c]);
    assert forall p :: p in w.resubs ==> Replaced(w, p);
  }

  lemma {:induction false} GuardedAlways(w: World, es: seq<Event>, z: World, quiet: bool)
    requires Bound(w) && Guarded(w) && Reaches(w, es, z) && Assumed(w, es, quiet)
    ensures Bound(z) && Guarded(z)
    decreases |es|
  {
    if es != [] {
      StepBound(w, es[0]);
      StepLocks(w, es[0]);
      StepReplaced(w, es[0]);
      hide Bound, Next, LockOk, Replaced;
      GuardedAlways(Next(w, es[0]), es[1..], z, quiet);
    }
  }

  /** In every run with fresh ids, a stale id is subscribed again a second time only if its entry has vanished. */
  lemma RepeatsOnlyVanished(es: seq<Event>, w: World, c: nat)
    requires Reaches(EMPTY, es, w) && Assumed(EMPTY, es, false) && Enabled(w, Resub(c))
    ensures var k := w.calls[c]; (k.vid, k.snap.id) in w.resubs ==> k.vid !in w.registry
  {
    GuardedAlways(EMPTY, es, w, false);
    NewPair(w, c);
  }

  ghost predicate Distinct(w: World) {
    forall i, j :: 0 <= i < j < |w.resubs| ==> w.resubs[i] != w.resubs[j]
  }

  /** No call subscribes again for an entry that has vanished: the branch the source falls through to is not taken. */
  ghost predicate NeverVanished(w: World, es: seq<Event>)
    decreases |es|
  {
    es == [] || (
      && Enabled(w, es[0])
      && (es[0].Resub? ==> w.calls[es[0].c].vid in w.registry)
      && NeverVanished(Next(w, es[0]), es[1..]))
  }

  lemma OtherResubs(w: World, e: Event)
    requires Enabled(w, e)
    ensures Next(w, e).resubs == if e.Resub? then w.resubs + [(w.calls[e.c].vid, w.calls[e.c].snap.id)] else w.resubs
  {
    hide Outcome;
  }

  lemma {:induction false} DistinctAlways(w: World, es: seq<Event>, z: World)
    requires Bound(w) && Guarded(w) && Distinct(w) && Reaches(w, es, z) && Assumed(w, es, false) && NeverVanished(w, es)
    ensures Distinct(z)
    decreases |es|
  {
    if es != [] {
      StepBound(w, es[0]);
      StepLocks(w, es[0]);
      StepReplaced(w, es[0]);
      if es[0].Resub? { NewPair(w, es[0].c); }
      OtherResubs(w, es[0]);
      hide Bound, Next, LockOk, Replaced;
      DistinctAlways(Next(w, es[0]), es[1..], z);
    }
  }

  /** However many callers find the same subscription gone, it is resubscribed at most once, unless its entry vanished meanwhile. */
  lemma ResubscribedAtMostOnce(es: seq<Event>, z: World)
    requires Reaches(EMPTY, es, z) && Assumed(EMPTY, es, false) && NeverVanished(EMPTY, es)
    ensures forall i, j :: 0 <= i < j < |z.resubs| ==> z.resubs[i] != z.resubs[j]
  {
    DistinctAlways(EMPTY, es, z);
  }

  /** Calls that are not done have their entry. */
  ghost predicate Listed(w: World) {
    forall c :: c in w.calls && !w.calls[c].pc.Done? ==> w.calls[c].vid in w.registry
  }

  lemma StepListed(w: World, e: Event)
    requires Listed(w) && Enabled(w, e) && Quiet(w, e)
    ensures Listed(Next(w, e))
  {
    hide Outcome;
  }

  /** That is so where nobody unsubscribes a virtual id while a call on it is running. */
  lemma {:induction false} QuietNeverVanishes(w: World, es: seq<Event>, z: World)
    requires Listed(w) && Reaches(w, es, z) && Assumed(w, es, true)
    ensures NeverVanished(w, es)
    decreases |es|
  {
    if es != [] {
      StepListed(w, es[0]);
      hide Next;
      QuietNeverVanishes(Next(w, es[0]), es[1..], z);
    }
  }
}
