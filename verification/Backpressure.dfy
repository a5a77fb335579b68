/**
 The two-watermark state machine on top of the buffer: what it guarantees when a
 check runs together with its push or drain, and what the window between the two
 costs.
 */
module Backpressure {
  import opened Basics
  import opened Layouts
  import opened ConsumerBuffer

  // ------------------------------------ a check together with its push or drain

  datatype Whole = WholePush(m: ConsumerMessage) | WholePoll(max: nat)

  function Do(cfg: Config, s: Sub, e: Whole): Sub {
    match e
    case WholePush(m) => var t := Push(cfg, s, m); MaybePause(cfg, t, Read(t))
    case WholePoll(max) =>
      if s.buffer == [] then s else var t := Drain(s, max); MaybeResume(cfg, t, Read(t))
  }

  function DoAll(cfg: Config, s: Sub, es: seq<Whole>): Sub
    decreases |es|
  {
    if es == [] then s else DoAll(cfg, Do(cfg, s, es[0]), es[1..])
  }

  /** A whole step is two events of the interleaved system, so whatever holds of all its runs holds here. */
  lemma WholeStepsAreRuns(cfg: Config, s: Sub, e: Whole)
    ensures exists es :: Reaches(cfg, System(s, None, multiset{}), es, System(Do(cfg, s, e), None, multiset{}))
  {
    var w, z := System(s, None, multiset{}), System(Do(cfg, s, e), None, multiset{});
    match e
    case WholePush(m) =>
      var x := Next(cfg, w, Arrive(m));
      Stays(cfg, z);
      StepFirst(cfg, x, CheckPause, [], z);
      StepFirst(cfg, w, Arrive(m), [CheckPause], z);
    case WholePoll(max) =>
      if s.buffer == [] {
        Stays(cfg, w);
      } else {
        var x := Next(cfg, w, Poll(max));
        var l := Read(Drain(s, max));
        assert x.resuming - multiset{l} == multiset{};
        Stays(cfg, z);
        StepFirst(cfg, x, CheckResume(l), [], z);
        StepFirst(cfg, w, Poll(max), [CheckResume(l)], z);
      }
  }

  lemma DoAccounted(cfg: Config, s: Sub, e: Whole)
    requires Accounted(cfg, s)
    ensures Accounted(cfg, Do(cfg, s, e))
  {
    match e
    case WholePush(m) => PushAccounted(cfg, s, m);
    case WholePoll(max) => DrainAccounted(cfg, s, max);
  }

  /** What a poll takes and decides: it resumes exactly if both low watermarks are reached. */
  lemma PollDecides(cfg: Config, s: Sub, max: nat)
    ensures var t, k := Do(cfg, s, WholePoll(max)), if max < |s.buffer| then max else |s.buffer|;
            && t.buffer == s.buffer[k..] && Messages(t.removed) == Messages(s.removed) + s.buffer[..k] && t.received == s.received
            && t.dropped == s.dropped
            && (s.buffer != [] ==> (t.paused <==> s.paused && (|t.buffer| > cfg.resumeAt || t.bytes > cfg.resumeAtBytes)))
            && t.resumeTotal == s.resumeTotal + (if s.paused && !t.paused then 1 else 0) && t.pauseTotal == s.pauseTotal
  {
    hide TotalBytes, MessageBytes;
  }

  /** What a push drops and decides: the oldest goes exactly if either cap is reached, and either high watermark pauses. */
  lemma PushDecides(cfg: Config, s: Sub, m: ConsumerMessage)
    ensures var t := Do(cfg, s, WholePush(m));
            var full := |s.buffer| >= cfg.capacity || (cfg.byteCapacity > 0 && s.bytes + MessageBytes(m) > cfg.byteCapacity);
            && t.buffer == (if full && s.buffer != [] then s.buffer[1..] else s.buffer) + [m] && t.received == s.received + [m]
            && t.dropped == s.dropped + (if full && s.buffer != [] then 1 else 0)
            && (t.paused <==> s.paused || (cfg.pauseAt > 0 && |t.buffer| >= cfg.pauseAt)
                              || (cfg.pauseAtBytes > 0 && t.bytes >= cfg.pauseAtBytes))
            && t.pauseTotal == s.pauseTotal + (if !s.paused && t.paused then 1 else 0) && t.resumeTotal == s.resumeTotal
  {
    hide MessageBytes;
  }

  function PushCount(es: seq<Whole>): nat {
    if es == [] then 0 else (if es[0].WholePush? then 1 else 0) + PushCount(es[1..])
  }

  /** Without a byte cap, nothing is dropped in any run until more messages have come than the buffer holds. */
  lemma {:induction false} NothingDroppedWithin(cfg: Config, s: Sub, es: seq<Whole>)
    requires cfg.byteCapacity == 0 && |s.buffer| + PushCount(es) <= cfg.capacity
    ensures DoAll(cfg, s, es).dropped == s.dropped
    decreases |es|
  {
    if es != [] {
      match es[0] {
        case WholePush(m) => PushDecides(cfg, s, m);
        case WholePoll(max) => PollDecides(cfg, s, max);
      }
      hide Do;
      NothingDroppedWithin(cfg, Do(cfg, s, es[0]), es[1..]);
    }
  }

  /** A paused fetcher always leaves something to poll, so some poll will find the low watermark. */
  lemma {:induction false} PausedHasWork(cfg: Config, s: Sub, es: seq<Whole>)
    requires Accounted(cfg, s) && (s.paused ==> s.buffer != [])
    ensures Accounted(cfg, DoAll(cfg, s, es))
    ensures DoAll(cfg, s, es).paused ==> DoAll(cfg, s, es).buffer != []
    decreases |es|
  {
    if es != [] {
      DoAccounted(cfg, s, es[0]);
      PausedHasWork(cfg, Do(cfg, s, es[0]), es[1..]);
    }
  }

  /** Each low watermark is below its high watermark, where that one is in force. */
  predicate Ordered(cfg: Config) {
    && (cfg.pauseAt == 0 || cfg.resumeAt < cfg.pauseAt)
    && (cfg.pauseAtBytes == 0 || cfg.resumeAtBytes < cfg.pauseAtBytes)
  }

  /** With ordered watermarks, the fetcher is paused whenever a high watermark is reached. */
  lemma {:induction false} HighWaterIsPaused(cfg: Config, s: Sub, es: seq<Whole>)
    requires Ordered(cfg) && Accounted(cfg, s) && (Trips(cfg, Read(s)) ==> s.paused)
    ensures Trips(cfg, Read(DoAll(cfg, s, es))) ==> DoAll(cfg, s, es).paused
    decreases |es|
  {
    if es != [] {
      DoAccounted(cfg, s, es[0]);
      HighWaterIsPaused(cfg, Do(cfg, s, es[0]), es[1..]);
    }
  }

  /** Some levels both pause and resume the fetcher exactly if the watermarks are not ordered. */
  lemma WatermarksOverlapIff(cfg: Config)
    ensures (exists l: Levels :: l.bytes >= 0 && Trips(cfg, l) && Clears(cfg, l)) <==> !Ordered(cfg)
  {
    if !Ordered(cfg) {
      var l := if cfg.pauseAt != 0 && cfg.resumeAt >= cfg.pauseAt then Levels(cfg.resumeAt, 0) else Levels(0, cfg.resumeAtBytes);
      assert Trips(cfg, l) && Clears(cfg, l);
    }
  }

  /** The watermarks that follow from the two capacities when nothing else is set. */
  function Defaults(capacity: nat, byteCapacity: nat): Config {
    Config(capacity, Max(capacity * 8 / 10, 1), Max(capacity * 2 / 10, 1),
           byteCapacity, Max(byteCapacity * 8 / 10, 1), Max(byteCapacity * 2 / 10, 1))
  }

  /** They are ordered exactly from capacities of three on, and a byte capacity of zero, which turns the cap off, pauses on the first byte. */
  lemma DefaultsOrderedIff(capacity: nat, byteCapacity: nat)
    ensures Ordered(Defaults(capacity, byteCapacity)) <==> capacity >= 3 && byteCapacity >= 3
    ensures forall l: Levels :: l.bytes >= 1 ==> Trips(Defaults(capacity, 0), l)
  {
  }

  function PollCount(rs: seq<Removal>): nat { |rs| - DropsAtMost(rs) }

  function DropsAtMost(rs: seq<Removal>): (n: nat)
    ensures n == Drops(rs) <= |rs|
  {
    if rs == [] then 0 else DropsAtMost(rs[..|rs| - 1]) + (if rs[|rs| - 1].Dropped? then 1 else 0)
  }

  /** Only polls shorten the buffer, one message each. */
  lemma DoShortens(cfg: Config, s: Sub, e: Whole)
    ensures var t := Do(cfg, s, e);
            && PollCount(s.removed) + |s.buffer| - |t.buffer| <= PollCount(t.removed)
            && s.resumeTotal <= t.resumeTotal
            && (s.resumeTotal < t.resumeTotal ==> |t.buffer| <= cfg.resumeAt)
  {
    match e
    case WholePush(m) =>
      if Overflows(cfg, s, m) && s.buffer != [] {
        var rs := s.removed + [Dropped(s.buffer[0])];
        assert rs[..|rs| - 1] == s.removed;
      }
    case WholePoll(max) =>
      DropsOfPolled(s.removed, s.buffer[..Taken(s, max)]);
  }

  /** Hysteresis: from a full buffer, the fetcher is resumed only after `pauseAt - resumeAt` messages were polled. */
  lemma {:induction false} Hysteresis(cfg: Config, s: Sub, es: seq<Whole>)
    ensures var t := DoAll(cfg, s, es);
            && s.resumeTotal <= t.resumeTotal
            && (s.resumeTotal < t.resumeTotal ==> PollCount(t.removed) - PollCount(s.removed) >= |s.buffer| - cfg.resumeAt)
    ensures PollCount(s.removed) <= PollCount(DoAll(cfg, s, es).removed)
    decreases |es|
  {
    if es != [] {
      var x := Do(cfg, s, es[0]);
      DoShortens(cfg, s, es[0]);
      PollsGrow(cfg, s, es[0]);
      Hysteresis(cfg, x, es[1..]);
    }
  }

  lemma PollsGrow(cfg: Config, s: Sub, e: Whole)
    ensures PollCount(s.removed) <= PollCount(Do(cfg, s, e).removed)
  {
    match e
    case WholePush(m) =>
      if Overflows(cfg, s, m) && s.buffer != [] {
        var rs := s.removed + [Dropped(s.buffer[0])];
        assert rs[..|rs| - 1] == s.removed;
      }
    case WholePoll(max) =>
      DropsOfPolled(s.removed, s.buffer[..Taken(s, max)]);
  }

  // -------------------------------------------- the window between the two

  /** Some outstanding resume check will clear the pause. */
  ghost predicate WillClear(cfg: Config, w: System) {
    exists l :: l in w.resuming && Clears(cfg, l)
  }

  /** Paused, and yet nothing left that could ever lead to a resume: no message to poll, no check to come. */
  ghost predicate Stuck(cfg: Config, w: System) {
    w.sub.paused && w.sub.buffer == [] && !WillClear(cfg, w)
  }

  /** The one step that gets a subscription stuck: a pause check that comes after a poll has emptied the buffer. */
  lemma StuckExactlyByLatePause(cfg: Config, w: System, e: Event)
    requires Accounted(cfg, w.sub) && Enabled(w, e) && !Stuck(cfg, w)
    ensures Stuck(cfg, Next(cfg, w, e)) <==>
            e.CheckPause? && Trips(cfg, w.pausing.value) && w.sub.buffer == [] && !WillClear(cfg, w)
  {
    var z := Next(cfg, w, e);
    match e
    case Arrive(m) =>
    case CheckPause => assert z.resuming == w.resuming;
    case Poll(max) =>
      if w.sub.buffer != [] {
        DrainAccounted(cfg, w.sub, max);
        if z.sub.buffer == [] { assert Clears(cfg, Read(z.sub)) && Read(z.sub) in z.resuming; }
      }
    case CheckResume(l) =>
      if WillClear(cfg, w) && !Clears(cfg, l) {
        var c :| c in w.resuming && Clears(cfg, c);
        assert c in z.resuming;
      }
  }

  /** A pause check that comes after a poll has emptied the buffer, with no check left to clear it. */
  ghost predicate LatePause(cfg: Config, w: System, e: Event) {
    e.CheckPause? && w.pausing.Some? && Trips(cfg, w.pausing.value) && w.sub.buffer == [] && !WillClear(cfg, w)
  }

  ghost predicate NeverStuck(cfg: Config, w: System, es: seq<Event>)
    decreases |es|
  {
    !Stuck(cfg, w) && (es == [] || (Enabled(w, es[0]) && NeverStuck(cfg, Next(cfg, w, es[0]), es[1..])))
  }

  ghost predicate NeverLate(cfg: Config, w: System, es: seq<Event>)
    decreases |es|
  {
    es == [] || (Enabled(w, es[0]) && !LatePause(cfg, w, es[0]) && NeverLate(cfg, Next(cfg, w, es[0]), es[1..]))
  }

  /** Over whole runs: a subscription never gets stuck exactly if no pause check comes late. */
  lemma {:induction false} NeverStuckIff(cfg: Config, w: System, es: seq<Event>, z: System)
    requires Accounted(cfg, w.sub) && !Stuck(cfg, w) && Reaches(cfg, w, es, z)
    ensures NeverStuck(cfg, w, es) <==> NeverLate(cfg, w, es)
    decreases |es|
  {
    if es != [] {
      StepAccounted(cfg, w, es[0]);
      StuckExactlyByLatePause(cfg, w, es[0]);
      assert Stuck(cfg, Next(cfg, w, es[0])) <==> LatePause(cfg, w, es[0]);
      hide Accounted, Stuck, LatePause, Next;
      if !Stuck(cfg, Next(cfg, w, es[0])) { NeverStuckIff(cfg, Next(cfg, w, es[0]), es[1..], z); }
    }
  }

  /** A stuck subscription stays stuck as long as no message arrives, and a paused fetcher delivers none. */
  lemma {:induction false} StuckForever(cfg: Config, w: System, es: seq<Event>, z: System)
    requires Stuck(cfg, w) && Reaches(cfg, w, es, z) && forall e <- es :: !e.Arrive?
    ensures Stuck(cfg, z)
    decreases |es|
  {
    if es != [] {
      var x := Next(cfg, w, es[0]);
      assert forall l :: l in x.resuming ==> l in w.resuming;
      StuckForever(cfg, x, es[1..], z);
    }
  }

  /** Such a run exists: push, poll, the poll's resume check, then the push's pause check. */
  lemma StuckIsReachable(m: ConsumerMessage) returns (cfg: Config, es: seq<Event>, z: System)
    ensures Reaches(cfg, START, es, z) && Stuck(cfg, z)
  {
    hide Reaches, TotalBytes, MessageBytes, Drops, Messages;
    cfg := Config(10, 1, 0, 0, 0, 0);
    var l := Levels(0, 0);
    var w1, w2 := PushThenPoll(cfg, m);
    var w3 := Next(cfg, w2, CheckResume(l));
    z := Next(cfg, w3, CheckPause);
    assert z.resuming == multiset{};
    Stays(cfg, z);
    StepFirst(cfg, w3, CheckPause, [], z);
    es := [CheckPause] + [];
    StepFirst(cfg, w2, CheckResume(l), es, z);
    es := [CheckResume(l)] + es;
    StepFirst(cfg, w1, Poll(1), es, z);
    es := [Poll(1)] + es;
    StepFirst(cfg, START, Arrive(m), es, z);
    es := [Arrive(m)] + es;
  }

  lemma PushThenPoll(cfg: Config, m: ConsumerMessage) returns (w1: System, w2: System)
    requires cfg.capacity > 0 && cfg.byteCapacity == 0
    ensures w1 == Next(cfg, START, Arrive(m)) && w2 == Next(cfg, w1, Poll(1))
    ensures w2 == System(Sub([], 0, 0, false, 0, 0, [m], [Polled(m)]), Some(Levels(1, MessageBytes(m))), multiset{Levels(0, 0)})
  {
    w1 := System(Sub([m], MessageBytes(m), 0, false, 0, 0, [m], []), Some(Levels(1, MessageBytes(m))), multiset{});
    w2 := Next(cfg, w1, Poll(1));
    SingleBytes(m);
    assert [m][..1] == [m] && PolledAll([m]) == [Polled(m)];
  }

  /** And the hysteresis is lost there too: an old resume check undoes a pause although nothing was polled since. */
  lemma HysteresisNeedsWholeSteps(m: ConsumerMessage) returns (cfg: Config, es: seq<Event>, w: System, z: System)
    ensures cfg.resumeAt < cfg.pauseAt && Reaches(cfg, START, es, w)
    ensures w.sub.paused && |w.sub.buffer| == cfg.pauseAt
    ensures Reaches(cfg, w, [CheckResume(Levels(0, 0))], z)
    ensures !z.sub.paused && z.sub.removed == w.sub.removed
  {
    hide Reaches, TotalBytes, MessageBytes, Drops, Messages;
    cfg := Config(10, 1, 0, 0, 0, 0);
    var l := Levels(0, 0);
    var w1, w2 := PushThenPoll(cfg, m);
    var w3 := Next(cfg, w2, CheckPause);
    w := Next(cfg, w3, Arrive(m));
    z := Next(cfg, w, CheckResume(l));
    Stays(cfg, z);
    StepFirst(cfg, w, CheckResume(l), [], z);
    assert [CheckResume(l)] + [] == [CheckResume(l)];
    Stays(cfg, w);
    StepFirst(cfg, w3, Arrive(m), [], w);
    es := [Arrive(m)] + [];
    StepFirst(cfg, w2, CheckPause, es, w);
    es := [CheckPause] + es;
    StepFirst(cfg, w1, Poll(1), es, w);
    es := [Poll(1)] + es;
    StepFirst(cfg, START, Arrive(m), es, w);
    es := [Arrive(m)] + es;
  }

  // ---------------------------------------- when the split code keeps the promises

  /** `n` messages were buffered once, and `polled` had been polled by then: what every later state shows. */
  ghost predicate Owed(cfg: Config, w: System, n: nat, polled: nat, resumed: nat) {
    && polled <= PollCount(w.sub.removed) && resumed <= w.sub.resumeTotal
    && PollCount(w.sub.removed) - polled >= n - |w.sub.buffer|
    && (WillClear(cfg, w) || w.sub.resumeTotal > resumed ==> PollCount(w.sub.removed) - polled >= n - cfg.resumeAt)
  }

  lemma StepOwed(cfg: Config, w: System, e: Event, n: nat, polled: nat, resumed: nat)
    requires Owed(cfg, w, n, polled, resumed) && Enabled(w, e)
    ensures Owed(cfg, Next(cfg, w, e), n, polled, resumed)
  {
    hide Next, WillClear, PollCount, Clears;
    ChecksKept(cfg, w, e);
    CountsMove(cfg, w, e);
  }

  /** Only polls shorten the buffer, and only a clearing check resumes. */
  lemma CountsMove(cfg: Config, w: System, e: Event)
    requires Enabled(w, e)
    ensures var z := Next(cfg, w, e);
            && PollCount(w.sub.removed) <= PollCount(z.sub.removed)
            && PollCount(w.sub.removed) + |w.sub.buffer| - |z.sub.buffer| <= PollCount(z.sub.removed)
            && w.sub.resumeTotal <= z.sub.resumeTotal
            && (w.sub.resumeTotal < z.sub.resumeTotal ==> e.CheckResume? && Clears(cfg, e.l))
  {
    hide PollCount, TotalBytes, MessageBytes, Overflows, Clears, Trips;
    match e
    case Arrive(m) =>
      DoShortens(cfg, w.sub, WholePush(m));
      PollsGrow(cfg, w.sub, WholePush(m));
    case Poll(max) =>
      DoShortens(cfg, w.sub, WholePoll(max));
      PollsGrow(cfg, w.sub, WholePoll(max));
    case _ =>
  }

  /** A check that will clear was there before, or comes from a drain that reached the low watermark. */
  lemma ChecksKept(cfg: Config, w: System, e: Event)
    requires Enabled(w, e)
    ensures var z := Next(cfg, w, e);
            WillClear(cfg, z) ==> WillClear(cfg, w) || (e.Poll? && w.sub.buffer != [] && |z.sub.buffer| <= cfg.resumeAt)
    ensures e.CheckResume? && Clears(cfg, e.l) ==> WillClear(cfg, w)
  {
    hide TotalBytes, MessageBytes;
    var z := Next(cfg, w, e);
    if WillClear(cfg, z) && !WillClear(cfg, w) {
      var l :| l in z.resuming && Clears(cfg, l);
      assert l !in w.resuming;
    }
  }

  lemma {:induction false} AlwaysOwed(cfg: Config, w: System, es: seq<Event>, z: System, n: nat, polled: nat, resumed: nat)
    requires Owed(cfg, w, n, polled, resumed) && Reaches(cfg, w, es, z)
    ensures Owed(cfg, z, n, polled, resumed)
    decreases |es|
  {
    if es != [] {
      StepOwed(cfg, w, es[0], n, polled, resumed);
      hide Owed, Next, Enabled;
      AlwaysOwed(cfg, Next(cfg, w, es[0]), es[1..], z, n, polled, resumed);
    }
  }

  /** A resume comes in run `es` before enough was polled to reach the low watermark. */
  ghost predicate ResumesEarly(cfg: Config, w: System, es: seq<Event>, z: System) {
    && Reaches(cfg, w, es, z) && z.sub.resumeTotal > w.sub.resumeTotal
    && PollCount(z.sub.removed) - PollCount(w.sub.removed) < |w.sub.buffer| - cfg.resumeAt
  }

  /** Above the low watermark, a paused fetcher can be resumed too early exactly if an old check that will clear is outstanding. */
  lemma ResumesEarlyIff(cfg: Config, w: System)
    requires w.sub.paused && |w.sub.buffer| > cfg.resumeAt
    ensures (exists es, z :: ResumesEarly(cfg, w, es, z)) <==> WillClear(cfg, w)
  {
    var n, polled, resumed := |w.sub.buffer|, PollCount(w.sub.removed), w.sub.resumeTotal;
    if WillClear(cfg, w) {
      var l :| l in w.resuming && Clears(cfg, l);
      var z := Next(cfg, w, CheckResume(l));
      Stays(cfg, z);
      StepFirst(cfg, w, CheckResume(l), [], z);
      assert ResumesEarly(cfg, w, [CheckResume(l)] + [], z);
    } else {
      assert Owed(cfg, w, n, polled, resumed);
      forall es, z | Reaches(cfg, w, es, z)
        ensures !ResumesEarly(cfg, w, es, z)
      {
        AlwaysOwed(cfg, w, es, z, n, polled, resumed);
      }
    }
  }

  /** High water means paused, or the check of the last push is still to come and has seen at least as much. */
  ghost predicate HighWaterSeen(cfg: Config, w: System) {
    match w.pausing
    case None => Trips(cfg, Read(w.sub)) ==> w.sub.paused
    case Some(l) => l.len >= |w.sub.buffer| && l.bytes >= w.sub.bytes
  }

  /** A resume check that clears on old readings although the buffer is at high water again. */
  predicate ResumesAtHighWater(cfg: Config, w: System, e: Event) {
    e.CheckResume? && Clears(cfg, e.l) && w.pausing.None? && Trips(cfg, Read(w.sub))
  }

  /** Exactly such a step leaves high water unpaused. */
  lemma HighWaterStepIff(cfg: Config, w: System, e: Event)
    requires HighWaterSeen(cfg, w) && Enabled(w, e)
    ensures HighWaterSeen(cfg, Next(cfg, w, e)) <==> !ResumesAtHighWater(cfg, w, e)
  {
    hide TotalBytes, MessageBytes;
  }

  ghost predicate AlwaysSeen(cfg: Config, w: System, es: seq<Event>)
    decreases |es|
  {
    HighWaterSeen(cfg, w) && (es == [] || (Enabled(w, es[0]) && AlwaysSeen(cfg, Next(cfg, w, es[0]), es[1..])))
  }

  ghost predicate NeverResumesAtHighWater(cfg: Config, w: System, es: seq<Event>)
    decreases |es|
  {
    es == [] || (
      && Enabled(w, es[0]) && !ResumesAtHighWater(cfg, w, es[0])
      && NeverResumesAtHighWater(cfg, Next(cfg, w, es[0]), es[1..]))
  }

  /** Over whole runs of the split code: high water is always paused, or about to be, exactly if no such step is taken. */
  lemma {:induction false} HighWaterHoldsIff(cfg: Config, w: System, es: seq<Event>, z: System)
    requires HighWaterSeen(cfg, w) && Reaches(cfg, w, es, z)
    ensures AlwaysSeen(cfg, w, es) <==> NeverResumesAtHighWater(cfg, w, es)
    decreases |es|
  {
    if es != [] {
      HighWaterStepIff(cfg, w, es[0]);
      hide HighWaterSeen, ResumesAtHighWater, Next, Enabled;
      if HighWaterSeen(cfg, Next(cfg, w, es[0])) { HighWaterHoldsIff(cfg, Next(cfg, w, es[0]), es[1..], z); }
    }
  }
}
