/**
 What goes wrong with virtual ids when worker ids are reused or an entry vanishes while
 calls on it are running, and how often a subscription can then be made again.
 */
module ResubscribeRaces {
  import opened Basics
  import opened Resubscribe

  lemma Start(w: World)
    ensures Reaches(w, [], w)
  {
  }

  lemma {:induction false} Chain(w: World, es: seq<Event>, x: World, e: Event)
    requires Reaches(w, es, x) && Enabled(x, e)
    ensures Reaches(w, es + [e], Next(x, e))
    decreases |es|
  {
    hide Next, Enabled;
    if es == [] {
      assert ([] + [e])[1..] == [];
      assert Reaches(Next(w, e), [], Next(w, e));
    } else {
      Chain(Next(w, es[0]), es[1..], x, e);
      assert (es + [e])[1..] == es[1..] + [e];
    }
  }

  lemma Then(start: World, es: seq<Event>, w: World, e: Event) returns (es': seq<Event>, z: World)
    requires Reaches(start, es, w) && Enabled(w, e)
    ensures es' == es + [e] && z == Next(w, e) && Reaches(start, es', z)
  {
    hide Next, Enabled;
    es', z := es + [e], Next(w, e);
    Chain(start, es, w, e);
  }

  // ------------------------------------------------------------- reused ids

  lemma OneSubscriber(p: Params) returns (es: seq<Event>, z: World)
    ensures Reaches(EMPTY, es, z)
    ensures z == World(map[1 := Entry(p, 1)], 2, map[], map[1 := p], 2, map[], map[], map[1 := p], [])
  {
    Start(EMPTY);
    hide Reaches;
    es, z := Then(EMPTY, [], EMPTY, Subscribe(0, p));
    es, z := Then(EMPTY, es, z, Insert(0));
    assert z.asking == map[];
  }

  /** With the counter restarting at 1, a call on one virtual id can be answered by another's subscription. */
  lemma ReusedIdServesTheWrongSubscription(p: Params, q: Params) returns (es: seq<Event>, z: World)
    requires p != q
    ensures Reaches(EMPTY, es, z)
    ensures 0 in z.calls && z.calls[0].snap.params == p && z.calls[0].pc == Done(Some(q))
  {
    es, z := OneSubscriber(p);
    hide Reaches;
    es, z := Then(EMPTY, es, z, Crash(1));
    es, z := Then(EMPTY, es, z, Subscribe(0, q));
    assert z.live == map[1 := q];
    es, z := Then(EMPTY, es, z, Begin(0, 1));
    es, z := Then(EMPTY, es, z, Attempt(0));
  }

  /** So can a call on a virtual id that is entered only after the restart. */
  lemma LateInsertServesTheWrongSubscription(p: Params, q: Params) returns (es: seq<Event>, z: World)
    requires p != q
    ensures Reaches(EMPTY, es, z)
    ensures 0 in z.calls && z.calls[0].snap.params == p && z.calls[0].pc == Done(Some(q))
  {
    Start(EMPTY);
    hide Reaches;
    es, z := Then(EMPTY, [], EMPTY, Subscribe(0, p));
    es, z := Then(EMPTY, es, z, Crash(1));
    es, z := Then(EMPTY, es, z, Subscribe(1, q));
    assert z.live == map[1 := q] && z.asking[0] == Entry(p, 1);
    es, z := Then(EMPTY, es, z, Insert(0));
    es, z := Then(EMPTY, es, z, Begin(0, 1));
    es, z := Then(EMPTY, es, z, Attempt(0));
  }

  // ------------------------------------------------------- vanished entries

  /** A call that has taken id `r` for virtual id `v` and may still subscribe again for it. */
  predicate Eager(k: Call, v: nat, r: nat) {
    k.vid == v && k.snap.id == r && (k.pc.First? || k.pc.Waiting? || k.pc.Holding? || k.pc.Subscribing?)
  }

  function EagerCalls(w: World, v: nat, r: nat): set<nat> { set c | c in w.calls && Eager(w.calls[c], v, r) }

  /** The entry of a virtual id that was given out is gone; it never comes back. */
  predicate Gone(w: World, v: nat) { v < w.nextVirtual && v !in w.registry }

  /** How often id `r` of virtual id `v` has been subscribed again. */
  function Times(w: World, v: nat, r: nat): nat { multiset(w.resubs)[(v, r)] }

  /** How often it has been, and still can be. */
  function Budget(w: World, v: nat, r: nat): nat { Times(w, v, r) + |EagerCalls(w, v, r)| }

  lemma StepWithinBudget(w: World, e: Event, v: nat, r: nat)
    requires Enabled(w, e) && Gone(w, v)
    ensures Gone(Next(w, e), v) && Budget(Next(w, e), v, r) <= Budget(w, v, r)
  {
    var z := Next(w, e);
    EagerShrink(w, e, v, r);
    OtherResubs(w, e);
    var before, now := EagerCalls(w, v, r), EagerCalls(z, v, r);
    hide Next, EagerCalls;
    if e.Resub? && e.c in before && (w.calls[e.c].vid, w.calls[e.c].snap.id) == (v, r) {
      Smaller(now, before - {e.c});
    } else {
      Smaller(now, before);
    }
  }

  lemma Smaller(a: set<nat>, b: set<nat>)
    requires a <= b
    ensures |a| <= |b|
  {
    assert b == a + (b - a);
  }

  lemma EagerShrink(w: World, e: Event, v: nat, r: nat)
    requires Enabled(w, e) && Gone(w, v)
    ensures Gone(Next(w, e), v) && EagerCalls(Next(w, e), v, r) <= EagerCalls(w, v, r)
    ensures e.Resub? ==> e.c !in EagerCalls(Next(w, e), v, r)
    ensures e.Resub? && (w.calls[e.c].vid, w.calls[e.c].snap.id) == (v, r) ==> e.c in EagerCalls(w, v, r)
  {
  }

  /** In every run, once an entry is gone no more calls subscribe again for it than are already under way. */
  lemma {:induction false} WithinBudget(w: World, es: seq<Event>, z: World, v: nat, r: nat)
    requires Reaches(w, es, z) && Gone(w, v)
    ensures Gone(z, v) && Budget(z, v, r) <= Budget(w, v, r)
    decreases |es|
  {
    if es != [] {
      StepWithinBudget(w, es[0], v, r);
      hide Next, Enabled, Gone, Budget;
      WithinBudget(Next(w, es[0]), es[1..], z, v, r);
    }
  }

  /** A lock belongs to the call that holds it, and to no other. */
  ghost predicate Locked(w: World) {
    && (forall v :: v in w.locks ==> w.locks[v] in w.calls && Held(w.calls[w.locks[v]].pc) && w.calls[w.locks[v]].vid == v)
    && (forall c :: c in w.calls && Held(w.calls[c].pc) ==> w.calls[c].vid in w.locks && w.locks[w.calls[c].vid] == c)
  }

  lemma StepLocked(w: World, e: Event)
    requires Locked(w) && Enabled(w, e)
    ensures Locked(Next(w, e))
  {
    if OfCall(w, e) { CallLocked(w, e); } else { RestLocked(w, e); }
  }

  lemma RestLocked(w: World, e: Event)
    requires Locked(w) && Enabled(w, e) && !OfCall(w, e)
    ensures Locked(Next(w, e))
  {
  }

  lemma CallLocked(w: World, e: Event)
    requires Locked(w) && Enabled(w, e) && OfCall(w, e)
    ensures Locked(Next(w, e))
  {
    hide Next, Enabled;
    StepLocal(w, e);
    MoverLock(w, e);
  }

  /** A call has its lock after a step exactly if the step leaves it holding. */
  lemma MoverLock(w: World, e: Event)
    requires Locked(w) && OfCall(w, e) && Enabled(w, e)
    ensures var z, v := Next(w, e), w.calls[e.c].vid;
            && e.c in z.calls
            && (Held(z.calls[e.c].pc) ==> v in z.locks && z.locks[v] == e.c)
            && (!Held(z.calls[e.c].pc) ==> v !in z.locks || (v in w.locks && z.locks[v] == w.locks[v] && w.locks[v] != e.c))
            && (v in z.locks && z.locks[v] != e.c ==> v in w.locks && z.locks[v] == w.locks[v])
  {
    hide Outcome;
  }

  lemma {:induction false} AlwaysLocked(w: World, es: seq<Event>, z: World)
    requires Locked(w) && Reaches(w, es, z)
    ensures Locked(z)
    decreases |es|
  {
    if es != [] {
      StepLocked(w, es[0]);
      hide Next, Enabled, Locked;
      AlwaysLocked(Next(w, es[0]), es[1..], z);
    }
  }

  /** Only call `c`, on `v`, has gone on; at most the lock of `v` has changed hands, and `v` is still gone. */
  ghost predicate Along(w: World, c: nat, v: nat, z: World) {
    && c in w.calls && c in z.calls && z.calls == w.calls[c := z.calls[c]]
    && z.calls[c].vid == w.calls[c].vid == v && Gone(z, v) && z.locks - {v} == w.locks - {v}
  }

  /** It has come to its end and let go of the lock. */
  ghost predicate Ended(w: World, c: nat, v: nat, z: World) {
    Along(w, c, v, z) && z.calls[c].pc.Done? && z.locks == w.locks - {v}
  }

  /** The state a step of call `c` leaves it in, when its entry is gone. */
  function After(w: World, e: Event): Pc
    requires OfCall(w, e) && Enabled(w, e)
  {
    match e
    case Attempt(c) => if w.calls[c].snap.id in w.live then Done(Some(w.live[w.calls[c].snap.id])) else Waiting
    case Acquire(_) => Holding
    case Reread(_) => Subscribing
    case Resub(_) => Updating(w.nextReal)
    case Update(_) => Retrying
    case Retry(c) => Done(Outcome(w, w.calls[c].snap.id))
    case _ => Done(None)
  }

  lemma GoOn(w: World, e: Event, v: nat)
    requires OfCall(w, e) && Enabled(w, e) && w.calls[e.c].vid == v && Gone(w, v)
    ensures var z := Next(w, e);
            && Along(w, e.c, v, z) && z.calls[e.c].pc == After(w, e)
            && (!e.Update? ==> z.calls[e.c].snap == w.calls[e.c].snap)
            && (e.Attempt? ==> z.locks == w.locks)
            && ((e.Retry? || (e.Fail? && Held(w.calls[e.c].pc))) ==> z.locks == w.locks - {v})
  {
    StepLocal(w, e);
    assert Next(w, e).locks - {v} == w.locks - {v};
  }

  lemma AlongAlong(w: World, c: nat, v: nat, x: World, z: World)
    requires Along(w, c, v, x) && Along(x, c, v, z)
    ensures Along(w, c, v, z)
    ensures z.locks == x.locks - {v} ==> z.locks == w.locks - {v}
  {
    assert w.calls[c := x.calls[c]][c := z.calls[c]] == w.calls[c := z.calls[c]];
  }

  /** One more step of call `c` in a run in which only it goes on. */
  lemma Further(start: World, es: seq<Event>, w: World, x: World, e: Event, v: nat) returns (es': seq<Event>, z: World)
    requires Reaches(start, es, x) && OfCall(x, e) && Enabled(x, e) && Along(w, e.c, v, x)
    ensures Reaches(start, es', z) && Along(w, e.c, v, z) && z.calls[e.c].pc == After(x, e)
    ensures !e.Update? ==> z.calls[e.c].snap == x.calls[e.c].snap
    ensures z.resubs == if e.Resub? then x.resubs + [(v, x.calls[e.c].snap.id)] else x.resubs
    ensures e.Attempt? ==> z.locks == x.locks
    ensures e.Retry? || (e.Fail? && Held(x.calls[e.c].pc)) ==> z.locks == w.locks - {v}
  {
    es', z := Then(start, es, x, e);
    GoOn(x, e, v);
    OtherResubs(x, e);
    AlongAlong(w, e.c, v, x, z);
    hide Next, Enabled, Along, After;
  }

  /** A call that has the lock subscribes again, although the entry is gone. */
  lemma SubscribeHeld(start: World, es0: seq<Event>, w: World, x: World, c: nat, v: nat, r: nat) returns (es: seq<Event>, z: World)
    requires Reaches(start, es0, x) && Along(w, c, v, x) && Eager(x.calls[c], v, r) && Held(x.calls[c].pc)
    ensures Reaches(start, es, z) && Ended(w, c, v, z) && z.resubs == x.resubs + [(v, r)]
  {
    hide Reaches, Next, Outcome;
    es, z := es0, x;
    if z.calls[c].pc.Holding? { es, z := Further(start, es, w, z, Reread(c), v); }
    es, z := Further(start, es, w, z, Resub(c), v);
    es, z := FinishUpdate(start, es, w, z, c, v);
  }

  lemma FinishUpdate(start: World, es0: seq<Event>, w: World, x: World, c: nat, v: nat) returns (es: seq<Event>, z: World)
    requires Reaches(start, es0, x) && Along(w, c, v, x) && x.calls[c].pc.Updating?
    ensures Reaches(start, es, z) && Ended(w, c, v, z) && z.resubs == x.resubs
  {
    hide Reaches, Next, Outcome;
    es, z := Further(start, es0, w, x, Update(c), v);
    es, z := Further(start, es, w, z, Retry(c), v);
  }

  /** A call that wants the lock gets it, finding the subscription gone if it has not tried yet. */
  lemma SubscribeFree(start: World, es0: seq<Event>, w: World, c: nat, v: nat, r: nat) returns (es: seq<Event>, z: World)
    requires Reaches(start, es0, w) && Gone(w, v) && v !in w.locks
    requires c in w.calls && Eager(w.calls[c], v, r) && !Held(w.calls[c].pc)
    ensures Reaches(start, es, z) && Ended(w, c, v, z) && z.resubs == w.resubs + [(v, r)]
  {
    es, z := Then(start, es0, w, Lose(r));
    assert r !in z.live && z.calls == w.calls[c := z.calls[c]];
    hide Reaches, Next;
    if z.calls[c].pc.First? { es, z := Further(start, es, w, z, Attempt(c), v); }
    es, z := Further(start, es, w, z, Acquire(c), v);
    es, z := SubscribeHeld(start, es, w, z, c, v, r);
  }

  /** Any other call that has the lock can come to its end without subscribing. */
  lemma LetGo(start: World, es0: seq<Event>, w: World, h: nat, v: nat) returns (es: seq<Event>, z: World)
    requires Reaches(start, es0, w) && Gone(w, v) && h in w.calls && w.calls[h].vid == v && Held(w.calls[h].pc)
    ensures Reaches(start, es, z) && Ended(w, h, v, z) && z.resubs == w.resubs
  {
    hide Reaches, Next, Outcome;
    es, z := es0, w;
    assert w.calls == w.calls[h := w.calls[h]];
    if z.calls[h].pc.Updating? { es, z := Further(start, es, w, z, Update(h), v); }
    if z.calls[h].pc.Holding? { es, z := Further(start, es, w, z, Reread(h), v); }
    es, z := Further(start, es, w, z, Fail(h), v);
  }

  lemma EndedEager(w: World, c: nat, v: nat, z: World, r: nat)
    requires Ended(w, c, v, z)
    ensures EagerCalls(z, v, r) == EagerCalls(w, v, r) - {c}
  {
  }

  lemma OneMoreTime(w: World, z: World, v: nat, r: nat)
    requires z.resubs == w.resubs + [(v, r)]
    ensures Times(z, v, r) == Times(w, v, r) + 1
  {
  }

  /** One of the calls under way subscribes again. */
  lemma SpendOne(start: World, es0: seq<Event>, w: World, v: nat, r: nat) returns (es: seq<Event>, z: World)
    requires Reaches(start, es0, w) && Locked(w) && Gone(w, v) && EagerCalls(w, v, r) != {}
    ensures Reaches(start, es, z) && Gone(z, v)
    ensures |EagerCalls(z, v, r)| == |EagerCalls(w, v, r)| - 1 && Times(z, v, r) == Times(w, v, r) + 1
  {
    var c :| c in EagerCalls(w, v, r);
    var x := w;
    es := es0;
    if v in w.locks {
      var h := w.locks[v];
      if Eager(w.calls[h], v, r) {
        assert h in EagerCalls(w, v, r);
        assert w.calls == w.calls[h := w.calls[h]];
        hide Reaches, Next, Enabled, Eager;
        es, z := SubscribeHeld(start, es, w, w, h, v, r);
        EndedEager(w, h, v, z, r);
        OneMoreTime(w, z, v, r);
        return;
      }
      es, x := LetGo(start, es, w, h, v);
      EndedEager(w, h, v, x, r);
      assert h !in EagerCalls(w, v, r);
    }
    assert x.calls[c] == w.calls[c] && !Held(x.calls[c].pc) && x.resubs == w.resubs;
    assert EagerCalls(x, v, r) == EagerCalls(w, v, r);
    hide Reaches, Next, Enabled, Eager;
    es, z := SubscribeFree(start, es, x, c, v, r);
    EndedEager(x, c, v, z, r);
    OneMoreTime(x, z, v, r);
  }

  /** All of them can, one after the other. */
  lemma {:induction false} SpendAll(start: World, es0: seq<Event>, w: World, v: nat, r: nat) returns (es: seq<Event>, z: World)
    requires Locked(start) && Reaches(start, es0, w) && Gone(w, v)
    ensures Reaches(start, es, z) && Times(z, v, r) == Budget(w, v, r)
    decreases |EagerCalls(w, v, r)|
  {
    hide Reaches, Next, Enabled, Locked, Gone;
    AlwaysLocked(start, es0, w);
    es, z := es0, w;
    if EagerCalls(w, v, r) != {} {
      es, z := SpendOne(start, es, z, v, r);
      es, z := SpendAll(start, es, z, v, r);
    }
  }

  /**
   From any state in which the entry of `v` is gone, id `r` can be subscribed again `n`
   times in all if and only if that often it already was or calls are still under way to.
   */
  lemma SubscribedAgainIff(es0: seq<Event>, w: World, v: nat, r: nat, n: nat)
    requires Reaches(EMPTY, es0, w) && Gone(w, v)
    ensures (exists es, z :: Reaches(w, es, z) && Times(z, v, r) >= n) <==> Budget(w, v, r) >= n
  {
    assert Locked(EMPTY);
    AlwaysLocked(EMPTY, es0, w);
    Start(w);
    var es1, z1 := SpendAll(w, [], w, v, r);
    hide Reaches, Gone, Locked;
    if es, z :| Reaches(w, es, z) && Times(z, v, r) >= n {
      WithinBudget(w, es, z, v, r);
    }
  }

  /** Two calls have found the subscription gone when the virtual id is unsubscribed. */
  lemma TwoWaitingThenUnsubscribed(p: Params) returns (es: seq<Event>, z: World)
    ensures Reaches(EMPTY, es, z) && Gone(z, 1) && {0, 1} <= EagerCalls(z, 1, 1)
  {
    es, z := OneSubscriber(p);
    hide Reaches;
    es, z := Then(EMPTY, es, z, Lose(1));
    es, z := Then(EMPTY, es, z, Begin(0, 1));
    es, z := Then(EMPTY, es, z, Begin(1, 1));
    es, z := Then(EMPTY, es, z, Attempt(0));
    es, z := Then(EMPTY, es, z, Attempt(1));
    es, z := Then(EMPTY, es, z, Unsubscribe(1));
  }

  /** Unsubscribing while calls are running lets one subscription be made again twice, each time for nobody. */
  lemma UnsubscribeRaceResubscribesTwice(p: Params) returns (es: seq<Event>, z: World)
    ensures Reaches(EMPTY, es, z) && Times(z, 1, 1) >= 2
  {
    var w;
    es, w := TwoWaitingThenUnsubscribed(p);
    Smaller({0, 1}, EagerCalls(w, 1, 1));
    es, z := SpendAll(EMPTY, es, w, 1, 1);
  }
}
