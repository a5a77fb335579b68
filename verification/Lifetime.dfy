/**
 When a worker ends itself: the main loop's accept, join and tick branches over time,
 with the frames its connection handlers see in between.

 Time is in microseconds; subscription activity is kept and compared in whole
 milliseconds, as the worker does. A run is any sequence of events; an event that
 does not apply changes nothing. Once draining is signalled the loop's branches stop.
 */
module Lifetime {

  datatype Message = Hello | Goodbye | Subscribe(id: nat) | Poll(id: nat) | Unsubscribe(id: nat) | OtherRequest

  datatype Event =
    | Wait(d: nat)
    | Accept(c: nat)
    | AcceptFails
    | Frame(c: nat, m: Message)
    | Ends(c: nat)
    | Join
    | Tick

  /** `live` and `finished` are the task set: handlers still running, and ended ones not yet collected. */
  datatype State = State(
    now: nat, lastActive: nat, lastTick: nat,
    live: set<nat>, finished: set<nat>, greeted: set<nat>,
    expedited: bool, subs: map<nat, nat>, draining: bool)

  function Ms(t: nat): nat { t / 1000 }

  /** `subs` holds the instant of the last touch, which the worker stores as its millisecond. */
  predicate Active(s: State, id: nat, idleMs: nat)
    requires id in s.subs
  {
    Ms(s.now) - Ms(s.subs[id]) <= idleMs
  }

  predicate NoneActive(s: State, idleMs: nat) { forall id :: id in s.subs ==> !Active(s, id, idleMs) }

  /** A quarter of the timeout, within one and thirty seconds. */
  function CheckInterval(idleMs: nat): nat {
    var quarter := idleMs * 1000 / 4;
    if idleMs == 0 || quarter > 30_000_000 then 30_000_000
    else if quarter < 1_000_000 then 1_000_000
    else quarter
  }

  /** The interval is between one and thirty seconds, and a quarter of the timeout wherever that is. */
  lemma CheckIntervalClamped(idleMs: nat)
    ensures 1_000_000 <= CheckInterval(idleMs) <= 30_000_000
    ensures 4_000 <= idleMs <= 120_000 ==> 4 * CheckInterval(idleMs) == idleMs * 1000
    ensures 0 < idleMs <= 4_000 ==> CheckInterval(idleMs) == 1_000_000
    ensures idleMs >= 120_000 ==> CheckInterval(idleMs) == 30_000_000
  {
  }

  function Init(start: nat): State { State(start, start, start, {}, {}, {}, false, map[], false) }

  function Handle(s: State, c: nat, m: Message): State {
    if c !in s.live then s
    else if c !in s.greeted then
      if m.Hello? then s.(greeted := s.greeted + {c}) else End(s, c)
    else
      match m
      case Goodbye => s.(expedited := true)
      case Subscribe(id) => s.(subs := s.subs[id := s.now])
      case Poll(id) => if id in s.subs then s.(subs := s.subs[id := s.now]) else s
      case Unsubscribe(id) => s.(subs := s.subs - {id})
      case _ => s
  }

  function End(s: State, c: nat): State {
    if c !in s.live then s
    else s.(live := s.live - {c}, greeted := s.greeted - {c}, finished := s.finished + {c})
  }

  function OnJoin(s: State, idleMs: nat): State {
    if s.finished == {} || idleMs == 0 then s
    else
      var s' := s.(finished := {});
      if s.expedited && s.live == {} && NoneActive(s, idleMs) then s'.(draining := true) else s'
  }

  function OnTick(s: State, idleMs: nat): State {
    if idleMs == 0 then s
    else
      var s' := s.(finished := {}, lastTick := s.now);
      if s.live != {} then s'.(lastActive := s.now)
      else if NoneActive(s, idleMs) && s.now - s.lastActive >= idleMs * 1000 then s'.(draining := true)
      else s'
  }

  function Do(idleMs: nat, s: State, e: Event): State {
    match e
    case Wait(d) => s.(now := s.now + d)
    case Frame(c, m) => Handle(s, c, m)
    case Ends(c) => End(s, c)
    case _ => if s.draining then s else Loop(idleMs, s, e)
  }

  /** One turn of the main loop. */
  function Loop(idleMs: nat, s: State, e: Event): (s': State)
    ensures s'.now == s.now && s'.subs == s.subs && s'.greeted == s.greeted && s'.expedited == s.expedited
  {
    match e
    case Accept(c) => if c in s.live then s else s.(lastActive := s.now, live := s.live + {c}, finished := {})
    case AcceptFails => s.(lastActive := s.now)
    case Join => OnJoin(s, idleMs)
    case Tick => OnTick(s, idleMs)
    case _ => s
  }

  function Run(idleMs: nat, start: nat, es: seq<Event>): State {
    if es == [] then Init(start) else Do(idleMs, Run(idleMs, start, es[..|es| - 1]), es[|es| - 1])
  }

  /** The state in which event `i` of a run takes place. */
  function At(idleMs: nat, start: nat, es: seq<Event>, i: nat): State
    requires i <= |es|
  {
    Run(idleMs, start, es[..i])
  }

  // ------------------------------------------------------------------------
  // What happened in a run, told by its events
  // ------------------------------------------------------------------------

  /** Event `i` creates or polls subscription `id`. */
  predicate Touches(idleMs: nat, start: nat, es: seq<Event>, i: nat, id: nat)
    requires i < |es|
  {
    var s := At(idleMs, start, es, i);
    && es[i].Frame? && es[i].c in s.live && es[i].c in s.greeted
    && (es[i].m == Subscribe(id) || (es[i].m == Poll(id) && id in s.subs))
  }

  /** Event `i` is an accept, or a tick that finds a handler running. */
  predicate ShowsUse(idleMs: nat, start: nat, es: seq<Event>, i: nat)
    requires i < |es|
  {
    var s := At(idleMs, start, es, i);
    && !s.draining
    && match es[i]
       case Accept(c) => c !in s.live
       case AcceptFails => true
       case Tick => idleMs > 0 && s.live != {}
       case _ => false
  }

  /** Some client said Goodbye after its own Hello. */
  predicate SaidGoodbye(es: seq<Event>) {
    exists i, j :: 0 <= j < i < |es| && es[i].Frame? && es[i].m == Goodbye && es[j] == Frame(es[i].c, Hello)
  }

  predicate SaidHello(es: seq<Event>, c: nat) { exists j :: 0 <= j < |es| && es[j] == Frame(c, Hello) }

  // ------------------------------------------------------------------------
  // What the state knows of it
  // ------------------------------------------------------------------------

  predicate Consistent(s: State) {
    && s.lastActive <= s.now && s.lastTick <= s.now
    && s.greeted <= s.live
    && (s.live != {} ==> s.lastActive >= s.lastTick)
    && (forall id :: id in s.subs ==> s.subs[id] <= s.now)
  }

  lemma DoConsistent(idleMs: nat, s: State, e: Event)
    requires Consistent(s)
    ensures Consistent(Do(idleMs, s, e)) && Do(idleMs, s, e).now >= s.now && Do(idleMs, s, e).lastActive >= s.lastActive
    ensures s.draining ==> Do(idleMs, s, e).draining
  {
  }

  lemma {:induction false} AlwaysConsistent(idleMs: nat, start: nat, es: seq<Event>)
    ensures Consistent(Run(idleMs, start, es))
  {
    if es != [] {
      AlwaysConsistent(idleMs, start, es[..|es| - 1]);
      DoConsistent(idleMs, Run(idleMs, start, es[..|es| - 1]), es[|es| - 1]);
      hide Do;
    }
  }

  lemma {:induction false} TouchRemembered(idleMs: nat, start: nat, es: seq<Event>, i: nat, id: nat)
    requires i < |es| && Touches(idleMs, start, es, i, id) && id in Run(idleMs, start, es).subs
    ensures Run(idleMs, start, es).subs[id] >= At(idleMs, start, es, i).now
    decreases |es|
  {
    hide NoneActive, Loop;
    var before := es[..|es| - 1];
    AlwaysConsistent(idleMs, start, before);
    assert es[..i] == before[..i];
    if i < |before| {
      Earlier(idleMs, start, before, i);
      if id in Run(idleMs, start, before).subs {
        TouchRemembered(idleMs, start, before, i, id);
      }
    } else {
      assert es[..i] == before;
    }
  }

  lemma {:induction false} Earlier(idleMs: nat, start: nat, es: seq<Event>, i: nat)
    requires i <= |es|
    ensures start <= At(idleMs, start, es, i).now <= Run(idleMs, start, es).now
    decreases |es|
  {
    if es != [] {
      var before := es[..|es| - 1];
      AlwaysConsistent(idleMs, start, before);
      DoConsistent(idleMs, Run(idleMs, start, before), es[|es| - 1]);
      hide Do, Consistent;
      if i < |es| {
        Earlier(idleMs, start, before, i);
        assert es[..i] == before[..i];
      } else {
        Earlier(idleMs, start, before, 0);
        assert before[..0] == es[..0];
      }
    }
    assert es[..|es|] == es;
  }

  lemma {:induction false} UseRemembered(idleMs: nat, start: nat, es: seq<Event>, i: nat)
    requires i < |es| && ShowsUse(idleMs, start, es, i)
    ensures Run(idleMs, start, es).lastActive >= At(idleMs, start, es, i).now
    decreases |es|
  {
    hide NoneActive;
    var before := es[..|es| - 1];
    AlwaysConsistent(idleMs, start, before);
    assert es[..i] == before[..i];
    DoConsistent(idleMs, Run(idleMs, start, before), es[|es| - 1]);
    if i < |before| {
      hide Do;
      UseRemembered(idleMs, start, before, i);
    } else {
      assert es[..i] == before;
    }
  }

  lemma {:induction false} GreetedSaidHello(idleMs: nat, start: nat, es: seq<Event>, c: nat)
    requires c in Run(idleMs, start, es).greeted
    ensures SaidHello(es, c)
  {
    hide Loop;
    if es != [] {
      var before, last := es[..|es| - 1], es[|es| - 1];
      if c in Run(idleMs, start, before).greeted {
        GreetedSaidHello(idleMs, start, before, c);
        var j :| 0 <= j < |before| && before[j] == Frame(c, Hello);
        assert es[j] == Frame(c, Hello);
      } else {
        assert es[|es| - 1] == Frame(c, Hello);
      }
    }
  }

  lemma {:induction false} ExpeditedMeansGoodbye(idleMs: nat, start: nat, es: seq<Event>)
    requires Run(idleMs, start, es).expedited
    ensures SaidGoodbye(es)
  {
    hide Loop;
    if es != [] {
      var before, last := es[..|es| - 1], es[|es| - 1];
      var s := Run(idleMs, start, before);
      if s.expedited {
        ExpeditedMeansGoodbye(idleMs, start, before);
        var i, j :| 0 <= j < i < |before| && before[i].Frame? && before[i].m == Goodbye && before[j] == Frame(before[i].c, Hello);
        assert es[i].Frame? && es[i].m == Goodbye && es[j] == Frame(es[i].c, Hello);
      } else {
        assert last.Frame? && last.m == Goodbye && last.c in s.greeted;
        GreetedSaidHello(idleMs, start, before, last.c);
        var j :| 0 <= j < |before| && before[j] == Frame(last.c, Hello);
        assert es[j] == Frame(es[|es| - 1].c, Hello);
      }
    }
  }

  /** A connection whose first frame is not Hello is closed, and whatever the frame asked for is not done. */
  lemma FirstFrameMustGreet(idleMs: nat, s: State, c: nat, m: Message)
    requires c in s.live && c !in s.greeted && !m.Hello?
    ensures var z := Do(idleMs, s, Frame(c, m));
            z == s.(live := s.live - {c}, greeted := s.greeted, finished := s.finished + {c})
  {
    assert s.greeted - {c} == s.greeted;
  }

  // ------------------------------------------------------------------------
  // The worker ends itself only when nobody uses it
  // ------------------------------------------------------------------------

  lemma StaleByTheClock(touched: nat, now: nat, idleMs: nat)
    requires Ms(now) - Ms(touched) > idleMs
    ensures now - touched > idleMs * 1000
  {
  }

  /**
   Event `e` after run `es` makes the worker drain. Then self-exit is enabled, no
   handler is running or waiting to be collected, no subscription that is left was
   created or polled within the timeout, and either a client that had shaken hands
   said Goodbye, or for the whole timeout there was no accept and no tick that found
   a handler running.
   */
  lemma SelfExitJustified(idleMs: nat, start: nat, es: seq<Event>, e: Event)
    requires var s := Run(idleMs, start, es); !s.draining && Do(idleMs, s, e).draining
    ensures idleMs > 0
    ensures var s := Do(idleMs, Run(idleMs, start, es), e); s.live == {} && s.finished == {}
    ensures var s := Run(idleMs, start, es);
            forall i, id :: 0 <= i < |es| && Touches(idleMs, start, es, i, id) && id in s.subs ==>
              s.now - At(idleMs, start, es, i).now > idleMs * 1000
    ensures var s := Run(idleMs, start, es);
            || SaidGoodbye(es)
            || (forall i :: 0 <= i < |es| && ShowsUse(idleMs, start, es, i) ==> s.now - At(idleMs, start, es, i).now >= idleMs * 1000)
  {
    var s := Run(idleMs, start, es);
    assert e.Join? || e.Tick?;
    assert NoneActive(s, idleMs);
    forall i, id | 0 <= i < |es| && Touches(idleMs, start, es, i, id) && id in s.subs
      ensures s.now - At(idleMs, start, es, i).now > idleMs * 1000
    {
      TouchRemembered(idleMs, start, es, i, id);
      assert !Active(s, id, idleMs);
      StaleByTheClock(s.subs[id], s.now, idleMs);
    }
    if s.expedited {
      ExpeditedMeansGoodbye(idleMs, start, es);
    } else {
      forall i | 0 <= i < |es| && ShowsUse(idleMs, start, es, i)
        ensures s.now - At(idleMs, start, es, i).now >= idleMs * 1000
      {
        UseRemembered(idleMs, start, es, i);
      }
    }
  }

  // ------------------------------------------------------------------------
  // An unused worker ends itself in time
  // ------------------------------------------------------------------------

  /** Ticks come at most one check interval apart for as long as the main loop runs. */
  predicate Punctual(idleMs: nat, start: nat, es: seq<Event>) {
    forall i :: 0 <= i <= |es| ==> OnTime(idleMs, At(idleMs, start, es, i))
  }

  predicate OnTime(idleMs: nat, s: State) { s.draining || s.now <= s.lastTick + CheckInterval(idleMs) }

  predicate NoAccept(es: seq<Event>) { forall i :: 0 <= i < |es| ==> !es[i].Accept? && !es[i].AcceptFails? }

  /** Since `t0` nobody has been connected, and no tick has come late enough to notice. */
  predicate Abandoned(s: State, idleMs: nat, t0: nat) {
    && s.live == {} && s.lastActive <= t0
    && (forall id :: id in s.subs ==> s.subs[id] <= t0)
    && (s.lastTick < t0 + idleMs * 1000 + 1000 || s.draining)
  }

  lemma AbandonedStep(s: State, e: Event, idleMs: nat, t0: nat)
    requires idleMs > 0 && Abandoned(s, idleMs, t0) && !e.Accept? && !e.AcceptFails?
    ensures Abandoned(Do(idleMs, s, e), idleMs, t0)
  {
  }

  lemma {:induction false} StaysAbandoned(idleMs: nat, start: nat, es: seq<Event>, after: seq<Event>, t0: nat)
    requires idleMs > 0 && NoAccept(after) && Abandoned(Run(idleMs, start, es), idleMs, t0)
    ensures Abandoned(Run(idleMs, start, es + after), idleMs, t0)
    decreases |after|
  {
    if after == [] {
      assert es + after == es;
    } else {
      var rest := after[..|after| - 1];
      StaysAbandoned(idleMs, start, es, rest, t0);
      assert (es + after)[..|es + after| - 1] == es + rest;
      AbandonedStep(Run(idleMs, start, es + rest), after[|after| - 1], idleMs, t0);
      hide Do, Abandoned;
    }
  }

  /**
   The last connection has closed after run `es` and no accept follows: one check
   interval and a millisecond past the timeout the worker is draining, whatever
   subscriptions were left behind.
   */
  lemma SelfExitInTime(idleMs: nat, start: nat, es: seq<Event>, after: seq<Event>)
    requires idleMs > 0 && NoAccept(after) && Punctual(idleMs, start, es + after)
    requires Run(idleMs, start, es).live == {}
    requires Run(idleMs, start, es + after).now >= Run(idleMs, start, es).now + idleMs * 1000 + CheckInterval(idleMs) + 1000
    ensures Run(idleMs, start, es + after).draining
  {
    AlwaysConsistent(idleMs, start, es);
    var t0 := Run(idleMs, start, es).now;
    assert Abandoned(Run(idleMs, start, es), idleMs, t0);
    StaysAbandoned(idleMs, start, es, after, t0);
    var whole := es + after;
    assert whole[..|whole|] == whole;
    assert At(idleMs, start, whole, |whole|) == Run(idleMs, start, whole);
    hide Do, Run;
  }

  // ------------------------------------------------------------------------
  // How long nobody was connected
  // ------------------------------------------------------------------------

  /**
   The timeout counts from the last tick that saw a connection, not from its end. An
   exit without a Goodbye can come up to one check interval early, and no more.
   */
  lemma QuietBeforeIdleExit(idleMs: nat, start: nat, es: seq<Event>, e: Event, i: nat)
    requires var s := Run(idleMs, start, es); !s.draining && Do(idleMs, s, e).draining && !s.expedited
    requires Punctual(idleMs, start, es) && i < |es|
    requires At(idleMs, start, es, i).live != {}
    ensures Run(idleMs, start, es).now + CheckInterval(idleMs) >= At(idleMs, start, es, i).now + idleMs * 1000
  {
    AlwaysConsistent(idleMs, start, es[..i]);
    ActiveGrows(idleMs, start, es, i);
    assert OnTime(idleMs, At(idleMs, start, es, i));
  }

  lemma {:induction false} ActiveGrows(idleMs: nat, start: nat, es: seq<Event>, i: nat)
    requires i <= |es|
    ensures At(idleMs, start, es, i).lastActive <= Run(idleMs, start, es).lastActive
    ensures At(idleMs, start, es, i).draining ==> Run(idleMs, start, es).draining
    decreases |es|
  {
    if i == |es| {
      assert es[..i] == es;
    } else {
      var before := es[..|es| - 1];
      ActiveGrows(idleMs, start, before, i);
      assert es[..i] == before[..i];
      AlwaysConsistent(idleMs, start, before);
      DoConsistent(idleMs, Run(idleMs, start, before), es[|es| - 1]);
      hide Do;
    }
  }

  lemma Then(idleMs: nat, start: nat, es: seq<Event>, s: State, e: Event) returns (es': seq<Event>, s': State)
    requires s == Run(idleMs, start, es)
    ensures es' == es + [e] && s' == Do(idleMs, s, e) == Run(idleMs, start, es')
  {
    es', s' := es + [e], Do(idleMs, s, e);
    assert es'[..|es'| - 1] == es;
  }

  lemma ThenPunctual(idleMs: nat, start: nat, es: seq<Event>, s: State, e: Event) returns (es': seq<Event>, s': State)
    requires s == Run(idleMs, start, es) && Punctual(idleMs, start, es) && OnTime(idleMs, Do(idleMs, s, e))
    ensures es' == es + [e] && s' == Do(idleMs, s, e) == Run(idleMs, start, es') && Punctual(idleMs, start, es')
  {
    es', s' := Then(idleMs, start, es, s, e);
    hide Do, OnTime;
    forall i | 0 <= i <= |es'|
      ensures OnTime(idleMs, At(idleMs, start, es', i))
    {
      if i == |es'| { assert es'[..i] == es'; } else { assert es'[..i] == es[..i] && OnTime(idleMs, At(idleMs, start, es, i)); }
    }
  }

  lemma QuietTick(idleMs: nat, s: State)
    requires idleMs > 0 && !s.draining && s.live == {} && s.lastTick == s.now >= s.lastActive
    requires s.now + CheckInterval(idleMs) < s.lastActive + idleMs * 1000
    ensures var w := Do(idleMs, s, Wait(CheckInterval(idleMs)));
            var t := Do(idleMs, w, Tick);
            OnTime(idleMs, w) && OnTime(idleMs, t) && t == s.(finished := {}, now := w.now, lastTick := w.now)
  {
    hide CheckInterval, NoneActive;
  }

  /** One check interval with its tick, over which nobody is connected and the timeout is not reached. */
  lemma QuietInterval(idleMs: nat, start: nat, es: seq<Event>, s: State) returns (es': seq<Event>, s': State)
    requires idleMs > 0 && s == Run(idleMs, start, es) && Punctual(idleMs, start, es)
    requires !s.draining && s.live == {} && s.lastTick == s.now >= s.lastActive
    requires s.now + CheckInterval(idleMs) < s.lastActive + idleMs * 1000
    ensures es <= es' && s' == Run(idleMs, start, es') && Punctual(idleMs, start, es')
    ensures var t := s.now + CheckInterval(idleMs); s' == s.(finished := {}, now := t, lastTick := t)
  {
    QuietTick(idleMs, s);
    hide *;
    es', s' := ThenPunctual(idleMs, start, es, s, Wait(CheckInterval(idleMs)));
    es', s' := ThenPunctual(idleMs, start, es', s', Tick);
  }

  /**
   That bound is attained. With a timeout between four seconds and two minutes and ticks
   exactly one check interval apart, a client that leaves `d` before a tick is followed by
   an exit only three intervals and `d` later, so early by one interval less `d`.
   */
  lemma IdleExitCanBeEarly(idleMs: nat, d: nat) returns (before: seq<Event>, es: seq<Event>, s: State)
    requires 4_000 <= idleMs <= 120_000 && d <= CheckInterval(idleMs)
    ensures s == Run(idleMs, 0, es) && Punctual(idleMs, 0, es + [Tick])
    ensures !s.draining && Do(idleMs, s, Tick).draining && !s.expedited
    ensures before + [Ends(1)] <= es && Run(idleMs, 0, before).live == {1}
    ensures s.now + CheckInterval(idleMs) == Run(idleMs, 0, before).now + idleMs * 1000 + d
  {
    var gap := CheckInterval(idleMs);
    assert 4 * gap == idleMs * 1000;
    before, s := LastClient(idleMs, d);
    hide Run, Punctual, CheckInterval;
    es, s := ThenPunctual(idleMs, 0, before, s, Ends(1));
    es, s := ThenPunctual(idleMs, 0, es, s, Wait(d));
    es, s := ThenPunctual(idleMs, 0, es, s, Tick);
    es, s := QuietInterval(idleMs, 0, es, s);
    es, s := QuietInterval(idleMs, 0, es, s);
    es, s := ThenPunctual(idleMs, 0, es, s, Wait(gap));
    var all, z := ThenPunctual(idleMs, 0, es, s, Tick);
  }

  /** The client is there at the first tick, and still `d` before the second. */
  lemma LastClient(idleMs: nat, d: nat) returns (es: seq<Event>, s: State)
    requires idleMs > 0 && d <= CheckInterval(idleMs)
    ensures s == Run(idleMs, 0, es) && Punctual(idleMs, 0, es)
    ensures var gap := CheckInterval(idleMs); s == State(2 * gap - d, gap, gap, {1}, {}, {}, false, map[], false)
  {
    var gap := CheckInterval(idleMs);
    es, s := [], Init(0);
    assert es[..0] == [] && Punctual(idleMs, 0, es);
    ClientSteps(idleMs, gap, d);
    hide Run, Punctual, CheckInterval, Do;
    es, s := ThenPunctual(idleMs, 0, es, s, Accept(1));
    es, s := ThenPunctual(idleMs, 0, es, s, Wait(gap));
    es, s := ThenPunctual(idleMs, 0, es, s, Tick);
    es, s := ThenPunctual(idleMs, 0, es, s, Wait(gap - d));
  }

  lemma ClientSteps(idleMs: nat, gap: nat, d: nat)
    requires idleMs > 0 && d <= gap
    ensures Do(idleMs, Init(0), Accept(1)) == State(0, 0, 0, {1}, {}, {}, false, map[], false)
    ensures Do(idleMs, State(0, 0, 0, {1}, {}, {}, false, map[], false), Wait(gap)) == State(gap, 0, 0, {1}, {}, {}, false, map[], false)
    ensures Do(idleMs, State(gap, 0, 0, {1}, {}, {}, false, map[], false), Tick) == State(gap, gap, gap, {1}, {}, {}, false, map[], false)
    ensures Do(idleMs, State(gap, gap, gap, {1}, {}, {}, false, map[], false), Wait(gap - d)) ==
            State(2 * gap - d, gap, gap, {1}, {}, {}, false, map[], false)
  {
  }

  // ------------------------------------------------------------------------
  // The farewell's short cut
  // ------------------------------------------------------------------------

  /** The main loop turns to its ended tasks before it turns to its ticker. */
  predicate JoinComesFirst(es: seq<Event>) {
    exists i :: 0 <= i < |es| && es[i].Join? && forall j :: 0 <= j < i ==> !es[j].Tick?
  }

  predicate NoTurn(es: seq<Event>) { forall i :: 0 <= i < |es| ==> !es[i].Join? && !es[i].Tick? }

  /** Everything is ready for the short cut: a Goodbye, nobody connected or active, the last handler uncollected. */
  predicate Parting(s: State, idleMs: nat) {
    !s.draining && s.expedited && s.live == {} && s.finished != {} && NoneActive(s, idleMs)
  }

  lemma PartingJoins(idleMs: nat, s: State)
    requires idleMs > 0 && Parting(s, idleMs)
    ensures Do(idleMs, s, Join).draining
  {
  }

  lemma PartingStep(idleMs: nat, s: State, e: Event)
    requires idleMs > 0 && Parting(s, idleMs) && !e.Accept? && !e.AcceptFails? && s.now < s.lastActive + idleMs * 1000
    ensures var t := Do(idleMs, s, e);
            if e.Join? then t.draining
            else if e.Tick? then !t.draining && t.live == {} && t.finished == {} && t.lastActive == s.lastActive
            else Parting(t, idleMs) && t.lastActive == s.lastActive
  {
    if e.Wait? {
      forall id | id in s.subs
        ensures !Active(s.(now := s.now + e.d), id, idleMs)
      {
        assert !Active(s, id, idleMs);
      }
    }
  }

  lemma CollectedStep(idleMs: nat, s: State, e: Event)
    requires !s.draining && s.live == {} && s.finished == {} && !e.Accept? && !e.AcceptFails?
    requires Do(idleMs, s, e).now < s.lastActive + idleMs * 1000
    ensures var t := Do(idleMs, s, e); !t.draining && t.live == {} && t.finished == {} && t.lastActive == s.lastActive
  {
    hide NoneActive;
  }

  lemma {:induction false} UntilTheTurn(idleMs: nat, start: nat, es: seq<Event>, after: seq<Event>)
    requires idleMs > 0 && NoAccept(after) && Parting(Run(idleMs, start, es), idleMs)
    requires Run(idleMs, start, es + after).now < Run(idleMs, start, es).lastActive + idleMs * 1000
    ensures var s, z := Run(idleMs, start, es), Run(idleMs, start, es + after);
            if NoTurn(after) then Parting(z, idleMs) && z.lastActive == s.lastActive
            else if JoinComesFirst(after) then z.draining
            else !z.draining && z.live == {} && z.finished == {} && z.lastActive == s.lastActive
    decreases |after|
  {
    if after == [] {
      assert es + after == es;
    } else {
      var rest, last := after[..|after| - 1], after[|after| - 1];
      var mid := Run(idleMs, start, es + rest);
      assert (es + after)[..|es + after| - 1] == es + rest;
      AlwaysConsistent(idleMs, start, es + rest);
      DoConsistent(idleMs, mid, last);
      FirstTurns(rest, last);
      assert rest + [last] == after;
      hide Do, Parting, NoTurn, JoinComesFirst, Consistent;
      UntilTheTurn(idleMs, start, es, rest);
      if NoTurn(rest) {
        PartingStep(idleMs, mid, last);
      } else if !JoinComesFirst(rest) {
        CollectedStep(idleMs, mid, last);
      }
    }
  }

  lemma FirstTurns(rest: seq<Event>, last: Event)
    ensures NoTurn(rest + [last]) <==> NoTurn(rest) && !last.Join? && !last.Tick?
    ensures JoinComesFirst(rest + [last]) <==> JoinComesFirst(rest) || (NoTurn(rest) && last.Join?)
  {
    var es := rest + [last];
    assert forall i :: 0 <= i < |rest| ==> es[i] == rest[i];
    assert es[|rest|] == last;
    if JoinComesFirst(rest) {
      var i :| 0 <= i < |rest| && rest[i].Join? && forall j :: 0 <= j < i ==> !rest[j].Tick?;
      assert es[i].Join?;
    }
  }

  /**
   After a Goodbye, with nobody connected and no active subscription, the worker ends
   before the timeout exactly if the loop turns to its ended tasks before it turns to its
   ticker: a tick that comes first collects the last handler, and with it the short cut.
   */
  lemma ShortCutTakenIff(idleMs: nat, start: nat, es: seq<Event>, after: seq<Event>)
    requires idleMs > 0 && NoAccept(after) && Parting(Run(idleMs, start, es), idleMs)
    requires Run(idleMs, start, es + after).now < Run(idleMs, start, es).lastActive + idleMs * 1000
    ensures Run(idleMs, start, es + after).draining <==> JoinComesFirst(after)
  {
    UntilTheTurn(idleMs, start, es, after);
  }

  /** With the last handler already collected and no new accept, the worker does not end before the timeout. */
  lemma {:induction false} CollectedStaysUntilTimeout(idleMs: nat, start: nat, es: seq<Event>, after: seq<Event>)
    requires NoAccept(after)
    requires var s := Run(idleMs, start, es); s.live == {} && s.finished == {} && !s.draining
    ensures var s, z := Run(idleMs, start, es), Run(idleMs, start, es + after);
            && z.live == {} && z.finished == {} && z.lastActive == s.lastActive
            && (z.draining ==> z.now >= s.lastActive + idleMs * 1000)
    decreases |after|
  {
    if after == [] {
      assert es + after == es;
    } else {
      var rest := after[..|after| - 1];
      CollectedStaysUntilTimeout(idleMs, start, es, rest);
      assert (es + after)[..|es + after| - 1] == es + rest;
      hide NoneActive;
    }
  }

  /** A process that connects, says Goodbye and is gone. */
  lemma SaysGoodbye() returns (es: seq<Event>, s: State)
    ensures s == Run(2000, 0, es) && s == State(0, 0, 0, {}, {1}, {}, true, map[], false)
  {
    es, s := [], Init(0);
    es, s := Then(2000, 0, es, s, Accept(1));
    hide Run;
    es, s := Then(2000, 0, es, s, Frame(1, Hello));
    es, s := Then(2000, 0, es, s, Frame(1, Goodbye));
    es, s := Then(2000, 0, es, s, Ends(1));
  }

  /** Both orders can follow a farewell: the last handler's end is there, and the tick may be due as well. */
  lemma GoodbyeCanBeMissed() returns (es: seq<Event>, s: State)
    ensures s == Run(2000, 0, es) && Parting(s, 2000) && s.now < s.lastActive + 2000 * 1000
    ensures Run(2000, 0, es + [Join]).draining && !Run(2000, 0, es + [Tick, Join]).draining
  {
    es, s := SaysGoodbye();
    hide Run;
    assert 1 in s.finished;
    var joined, z := Then(2000, 0, es, s, Join);
    var ticked, t := Then(2000, 0, es, s, Tick);
    ticked, t := Then(2000, 0, ticked, t, Join);
    assert es + [Tick] + [Join] == es + [Tick, Join];
  }
}
