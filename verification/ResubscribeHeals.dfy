/**
 That calls on virtual ids heal: a call that finds its subscription gone ends with an
 answer from the new one, however other calls run in between, and a call left to itself
 gets there even across a crash of the worker.
 */
module ResubscribeHeals {
  import opened Basics
  import opened Resubscribe
  import R = ResubscribeRaces

  // ------------------------------------------------- whatever others do meanwhile

  /** The worker does not crash, id `n` is not lost, and the request of call `c` does not fail otherwise. */
  predicate Spared(es: seq<Event>, n: nat, c: nat) {
    forall i :: 0 <= i < |es| ==> !es[i].Crash? && es[i] != Lose(n) && es[i] != Fail(c)
  }

  /** Id `n` is live with parameters `p`, and call `c` is on its way to be answered by it, or has been. */
  predicate OnTrack(w: World, c: nat, n: nat, p: Params) {
    && n in w.live && w.live[n] == p && n < w.nextReal && c in w.calls
    && match w.calls[c].pc
       case Updating(newId) => newId == n
       case Retrying => w.calls[c].snap.id == n
       case Done(served) => served == Some(p)
       case _ => false
  }

  lemma StepOnTrack(w: World, e: Event, c: nat, n: nat, p: Params)
    requires OnTrack(w, c, n, p) && Enabled(w, e) && !e.Crash? && e != Lose(n) && e != Fail(c)
    ensures OnTrack(Next(w, e), c, n, p)
  {
  }

  lemma {:induction false} StaysOnTrack(w: World, es: seq<Event>, z: World, c: nat, n: nat, p: Params)
    requires OnTrack(w, c, n, p) && Reaches(w, es, z) && Spared(es, n, c)
    ensures OnTrack(z, c, n, p)
    decreases |es|
  {
    if es != [] {
      StepOnTrack(w, es[0], c, n, p);
      hide Next, Enabled, OnTrack;
      StaysOnTrack(Next(w, es[0]), es[1..], z, c, n, p);
    }
  }

  /** In every run in which the new subscription is spared, a call that subscribes again is answered by it. */
  lemma SubscribedAgainIsServed(w: World, c: nat, es: seq<Event>, z: World)
    requires Enabled(w, Resub(c)) && Reaches(Next(w, Resub(c)), es, z) && Spared(es, w.nextReal, c)
    ensures c in z.calls && (z.calls[c].pc.Done? ==> z.calls[c].pc == Done(Some(w.calls[c].snap.params)))
    ensures z.calls[c].pc.Updating? || z.calls[c].pc.Retrying? || z.calls[c].pc.Done?
  {
    StaysOnTrack(Next(w, Resub(c)), es, z, c, w.nextReal, w.calls[c].snap.params);
  }

  /** And a call that finds its entry moved to a live id is answered by that one. */
  lemma MovedIsServed(es0: seq<Event>, w: World, c: nat, es: seq<Event>, z: World)
    requires Reaches(EMPTY, es0, w) && Assumed(EMPTY, es0, false) && Enabled(w, Reread(c))
    requires var k := w.calls[c]; k.vid in w.registry && w.registry[k.vid].id != k.snap.id && w.registry[k.vid].id in w.live
    requires Reaches(Next(w, Reread(c)), es, z) && Spared(es, w.registry[w.calls[c].vid].id, c)
    ensures c in z.calls && (z.calls[c].pc.Done? ==> z.calls[c].pc == Done(Some(w.registry[w.calls[c].vid].params)))
    ensures z.calls[c].pc.Retrying? || z.calls[c].pc.Done?
  {
    assert Bound(EMPTY) && Guarded(EMPTY);
    hide Bound, Guarded, Next, OnTrack, Reaches;
    GuardedAlways(EMPTY, es0, w, false);
    var k, x := w.calls[c], Next(w, Reread(c));
    var n, p := w.registry[k.vid].id, w.registry[k.vid].params;
    MovedOnTrack(w, c);
    StaysOnTrack(x, es, z, c, n, p);
    NeverUpdates(x, es, z, c);
    ServedOnTrack(z, c, n, p);
  }

  lemma MovedOnTrack(w: World, c: nat)
    requires Bound(w) && Enabled(w, Reread(c))
    requires var k := w.calls[c]; k.vid in w.registry && w.registry[k.vid].id != k.snap.id && w.registry[k.vid].id in w.live
    ensures var x, e := Next(w, Reread(c)), w.registry[w.calls[c].vid];
            OnTrack(x, c, e.id, e.params) && x.calls[c].pc.Retrying?
  {
    var e := w.registry[w.calls[c].vid];
    assert Made(w, e.id, e.params) && Made(w, e.id, w.live[e.id]);
  }

  lemma ServedOnTrack(w: World, c: nat, n: nat, p: Params)
    requires OnTrack(w, c, n, p)
    ensures c in w.calls && (w.calls[c].pc.Done? ==> w.calls[c].pc == Done(Some(p)))
  {
  }

  lemma {:induction false} NeverUpdates(w: World, es: seq<Event>, z: World, c: nat)
    requires Reaches(w, es, z) && c in w.calls && (w.calls[c].pc.Retrying? || w.calls[c].pc.Done?)
    ensures c in z.calls && (z.calls[c].pc.Retrying? || z.calls[c].pc.Done?)
    decreases |es|
  {
    if es != [] {
      hide Next, Enabled;
      StillPast(w, es[0], c);
      NeverUpdates(Next(w, es[0]), es[1..], z, c);
    }
  }

  lemma StillPast(w: World, e: Event, c: nat)
    requires Enabled(w, e) && c in w.calls && (w.calls[c].pc.Retrying? || w.calls[c].pc.Done?)
    ensures var x := Next(w, e); c in x.calls && (x.calls[c].pc.Retrying? || x.calls[c].pc.Done?)
  {
    hide Outcome;
  }

  /** A first attempt is answered exactly if the id it has is live; otherwise the call goes on to heal. */
  lemma FirstAttempt(w: World, c: nat)
    requires Bindings(w) && Enabled(w, Attempt(c))
    ensures var k, z := w.calls[c], Next(w, Attempt(c)).calls[c];
            z.pc == (if k.snap.id in w.live then Done(Some(k.snap.params)) else Waiting) && z.snap == k.snap && z.vid == k.vid
  {
    assert CallOk(w, w.calls[c]);
  }

  // --------------------------------------------------------- a call by itself

  /** A call on a listed virtual id whose lock is free, with an id the worker no longer has. */
  predicate Sick(w: World, c: nat) {
    && c in w.calls && w.calls[c].pc.First? && w.calls[c].snap.id !in w.live
    && w.calls[c].vid in w.registry && w.calls[c].vid !in w.locks
  }

  lemma LocksAndLooks(start: World, es0: seq<Event>, w: World, c: nat) returns (es: seq<Event>, z: World)
    requires Reaches(start, es0, w) && Sick(w, c)
    ensures Reaches(start, es, z) && es0 <= es && c in z.calls
    ensures z == w.(calls := z.calls, locks := w.locks[w.calls[c].vid := c])
    ensures var k := w.calls[c];
            z.calls[c] == if w.registry[k.vid].id == k.snap.id then Call(k.vid, k.snap, Subscribing)
                          else Call(k.vid, Entry(k.snap.params, w.registry[k.vid].id), Retrying)
  {
    hide Reaches;
    es, z := R.Then(start, es0, w, Attempt(c));
    es, z := R.Then(start, es, z, Acquire(c));
    es, z := R.Then(start, es, z, Reread(c));
  }

  /** Left to itself it subscribes again, writes the new id to its entry, lets the lock go and is answered. */
  lemma HealsAlone(start: World, es0: seq<Event>, w: World, c: nat) returns (es: seq<Event>, z: World)
    requires Reaches(start, es0, w) && Sick(w, c) && w.registry[w.calls[c].vid].id == w.calls[c].snap.id
    ensures Reaches(start, es, z) && es0 <= es
    ensures var k, n := w.calls[c], w.nextReal;
            && c in z.calls && z.calls[c].pc == Done(Some(k.snap.params))
            && z.registry == w.registry[k.vid := Entry(w.registry[k.vid].params, n)]
            && z.live == w.live[n := k.snap.params] && z.locks == w.locks && z.resubs == w.resubs + [(k.vid, k.snap.id)]
  {
    es, z := LocksAndLooks(start, es0, w, c);
    hide Reaches, Next, Enabled;
    var x := z;
    es, z := SubscribesAndEnds(start, es, x, c);
    assert w.locks[w.calls[c].vid := c] - {w.calls[c].vid} == w.locks;
  }

  lemma SubscribesAndEnds(start: World, es0: seq<Event>, w: World, c: nat) returns (es: seq<Event>, z: World)
    requires Reaches(start, es0, w) && c in w.calls && w.calls[c].pc.Subscribing? && w.calls[c].vid in w.registry
    ensures Reaches(start, es, z) && es0 <= es
    ensures var k, n := w.calls[c], w.nextReal;
            && c in z.calls && z.calls[c].pc == Done(Some(k.snap.params))
            && z.registry == w.registry[k.vid := Entry(w.registry[k.vid].params, n)]
            && z.live == w.live[n := k.snap.params] && z.locks == w.locks - {k.vid} && z.resubs == w.resubs + [(k.vid, k.snap.id)]
  {
    hide Reaches;
    es, z := R.Then(start, es0, w, Resub(c));
    es, z := R.Then(start, es, z, Update(c));
    es, z := R.Then(start, es, z, Retry(c));
  }

  /** Or, where somebody else has subscribed again, it is answered by that subscription and makes none. */
  lemma FollowsAlone(start: World, es0: seq<Event>, w: World, c: nat) returns (es: seq<Event>, z: World)
    requires Reaches(start, es0, w) && Sick(w, c)
    requires var n := w.registry[w.calls[c].vid].id; n != w.calls[c].snap.id && n in w.live
    ensures Reaches(start, es, z)
    ensures var n := w.registry[w.calls[c].vid].id;
            && c in z.calls && z.calls[c].pc == Done(Some(w.live[n]))
            && z.registry == w.registry && z.live == w.live && z.locks == w.locks && z.resubs == w.resubs
  {
    es, z := LocksAndLooks(start, es0, w, c);
    hide Reaches;
    es, z := R.Then(start, es, z, Retry(c));
    assert w.locks[w.calls[c].vid := c] - {w.calls[c].vid} == w.locks;
  }

  /** From any state: after a crash, the next call on a virtual id whose lock is free is answered with that id's own parameters. */
  lemma SurvivesCrash(w: World, restart: nat, c: nat, v: nat) returns (es: seq<Event>, z: World)
    requires v in w.registry && v !in w.locks && c !in w.calls
    ensures Reaches(w, es, z) && |es| >= 2 && es[0] == Crash(restart) && es[1] == Begin(c, v)
    ensures c in z.calls && z.calls[c].pc == Done(Some(w.registry[v].params))
    ensures v in z.registry && z.registry[v] == Entry(w.registry[v].params, restart) && z.live == map[restart := w.registry[v].params]
  {
    R.Start(w);
    hide Reaches;
    var es0;
    es0, z := R.Then(w, [], w, Crash(restart));
    es0, z := R.Then(w, es0, z, Begin(c, v));
    es, z := HealsAlone(w, es0, z, c);
  }
}
