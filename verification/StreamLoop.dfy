/**
 The background puller of a subscription and the poll side, as the source runs
 them: a subscription object whose fields are updated in place, a loop over the
 results of the broker stream with exponential backoff, and one poll iteration.
 */
module StreamLoop {
  import opened Layouts
  import opened ConsumerBuffer
  import B = Backpressure

  const BACKOFF_START_MS := 50
  const BACKOFF_MAX_MS := 5_000
  const MAX_CONSECUTIVE_ERRORS := 60

  /** One result of `stream.next()`, and whether the subscription object is still owned by then. */
  datatype StreamResult =
    | Message(m: ConsumerMessage, owned: bool)
    | Failure(fatal: bool, owned: bool)
    | End(owned: bool)

  datatype Stop = Running | Fatal | Exhausted | Ended | Abandoned

  /** The loop's own variables, plus the sleeps since the last success. */
  datatype Puller = Puller(backoffMs: nat, errors: nat, streak: seq<nat>, stop: Stop, terminated: bool)

  const IDLE := Puller(BACKOFF_START_MS, 0, [], Running, false)

  function Min(a: nat, b: nat): nat { if a < b then a else b }

  function Pull(p: Puller, r: StreamResult): Puller {
    if !p.stop.Running? then p
    else match r
      case Message(_, owned) =>
        IDLE.(stop := if owned then Running else Abandoned, terminated := p.terminated)
      case End(owned) => p.(stop := Ended, terminated := p.terminated || owned)
      case Failure(fatal, owned) =>
        var n := p.errors + 1;
        if fatal then p.(errors := n, stop := Fatal, terminated := p.terminated || owned)
        else if n >= MAX_CONSECUTIVE_ERRORS then p.(errors := n, stop := Exhausted, terminated := p.terminated || owned)
        else Puller(Min(p.backoffMs * 2, BACKOFF_MAX_MS), n, p.streak + [p.backoffMs], Running, p.terminated)
  }

  function PullAll(rs: seq<StreamResult>): Puller {
    if rs == [] then IDLE else Pull(PullAll(rs[..|rs| - 1]), rs[|rs| - 1])
  }

  /** The buffer after the messages that reach it: those pulled before the loop stops, while owned. */
  function Deliver(cfg: Config, s: Sub, rs: seq<StreamResult>): Sub {
    if rs == [] then s
    else
      var t, last := Deliver(cfg, s, rs[..|rs| - 1]), rs[|rs| - 1];
      if PullAll(rs[..|rs| - 1]).stop.Running? && last.Message? && last.owned
      then var u := Push(cfg, t, last.m); MaybePause(cfg, u, Read(u))
      else t
  }

  /** The byte count of a drained batch. */
  method BatchBytes(out: seq<ConsumerMessage>) returns (total: nat)
    ensures total == TotalBytes(out)
  {
    total := 0;
    for i := 0 to |out|
      invariant total == TotalBytes(out[..i])
    {
      assert out[..i + 1] == out[..i] + [out[i]];
      TotalBytesConcat(out[..i], [out[i]]);
      SingleBytes(out[i]);
      total := total + MessageBytes(out[i]);
    }
    assert out[..|out|] == out;
  }

  class Subscription {
    const cfg: Config
    var buffer: seq<ConsumerMessage>
    var bufferBytes: nat
    var messagesDropped: nat
    var paused: bool
    var pauseTotal: nat
    var resumeTotal: nat
    var terminated: bool
    ghost var received: seq<ConsumerMessage>
    ghost var removed: seq<Removal>

    ghost function View(): Sub
      reads this
    {
      Sub(buffer, bufferBytes, messagesDropped, paused, pauseTotal, resumeTotal, received, removed)
    }

    ghost predicate Valid()
      reads this
    {
      Accounted(cfg, View())
    }

    constructor (cfg: Config)
      ensures this.cfg == cfg && View() == FRESH && Valid() && !terminated
    {
      this.cfg := cfg;
      buffer, bufferBytes, messagesDropped := [], 0, 0;
      paused, pauseTotal, resumeTotal, terminated := false, 0, 0, false;
      received, removed := [], [];
      new;
      assert Messages([]) + [] == [];
    }

    method MaybePause(len: nat, bytes: nat)
      modifies this
      ensures View() == ConsumerBuffer.MaybePause(cfg, old(View()), Levels(len, bytes))
      ensures old(Valid()) ==> Valid()
      ensures terminated == old(terminated)
    {
      var countTrip := cfg.pauseAt > 0 && len >= cfg.pauseAt;
      var bytesTrip := cfg.pauseAtBytes > 0 && bytes >= cfg.pauseAtBytes;
      if !countTrip && !bytesTrip { return; }
      var was := paused;
      paused := true;
      if was { return; }
      pauseTotal := pauseTotal + 1;
    }

    method MaybeResume(len: nat, bytes: nat)
      modifies this
      ensures View() == ConsumerBuffer.MaybeResume(cfg, old(View()), Levels(len, bytes))
      ensures old(Valid()) ==> Valid()
      ensures terminated == old(terminated)
    {
      if len > cfg.resumeAt || bytes > cfg.resumeAtBytes { return; }
      var was := paused;
      paused := false;
      if !was { return; }
      resumeTotal := resumeTotal + 1;
    }

    /** The locked part of one message; the byte counter is a `usize`, so the subtraction must not underflow. */
    method PushLocked(m: ConsumerMessage)
      requires Valid()
      modifies this
      ensures Valid() && View() == Push(cfg, old(View()), m)
      ensures terminated == old(terminated)
    {
      hide Accounted, TotalBytes, MessageBytes;
      PushAccounted(cfg, View(), m);
      var size := MessageBytes(m);
      if |buffer| >= cfg.capacity || (cfg.byteCapacity > 0 && bufferBytes + size > cfg.byteCapacity) {
        if buffer != [] {
          var oldest := buffer[0];
          buffer := buffer[1..];
          removed := removed + [Dropped(oldest)];
          bufferBytes := bufferBytes - MessageBytes(oldest);
          messagesDropped := messagesDropped + 1;
        }
      }
      buffer := buffer + [m];
      received := received + [m];
      bufferBytes := bufferBytes + size;
    }

    /** One iteration of `poll`: a batch, or nothing if the buffer is empty. */
    method PollOnce(max: nat) returns (out: seq<ConsumerMessage>)
      requires Valid()
      modifies this
      ensures Valid() && terminated == old(terminated)
      ensures out == old(buffer)[..Taken(old(View()), max)]
      ensures |out| == (if max < |old(buffer)| then max else |old(buffer)|)
      ensures old(buffer) == [] ==> View() == old(View())
      ensures old(buffer) != [] ==>
                var t := Drain(old(View()), max); View() == ConsumerBuffer.MaybeResume(cfg, t, Read(t))
    {
      if buffer == [] { return []; }
      DrainAccounted(cfg, View(), max);
      hide Accounted, TotalBytes, MessageBytes, PolledAll;
      var take := if max < |buffer| then max else |buffer|;
      out := buffer[..take];
      buffer := buffer[take..];
      removed := removed + PolledAll(out);
      var drained := BatchBytes(out);
      bufferBytes := bufferBytes - drained;
      MaybeResume(|buffer|, bufferBytes);
    }

    /** `stream_loop` over the results the stream yields; returns why it stopped and its sleeps since the last message. */
    method Run(results: seq<StreamResult>) returns (stop: Stop, streak: seq<nat>)
      requires Valid() && !terminated
      modifies this
      ensures Valid()
      ensures stop == PullAll(results).stop && streak == PullAll(results).streak && terminated == PullAll(results).terminated
      ensures View() == Deliver(cfg, old(View()), results)
    {
      hide Accounted, Push, ConsumerBuffer.MaybePause;
      var backoffMs: nat, errors: nat := BACKOFF_START_MS, 0;
      stop, streak := Running, [];
      for i := 0 to |results|
        invariant Valid()
        invariant PullAll(results[..i]) == Puller(backoffMs, errors, streak, stop, terminated)
        invariant View() == Deliver(cfg, old(View()), results[..i])
      {
        assert results[..i + 1][..i] == results[..i];
        if stop == Running {
          match results[i]
          case Message(m, owned) =>
            backoffMs, errors, streak := BACKOFF_START_MS, 0, [];
            if owned {
              PushLocked(m);
              MaybePause(|buffer|, bufferBytes);
            } else {
              stop := Abandoned;
            }
          case Failure(fatal, owned) =>
            errors := errors + 1;
            if fatal || errors >= MAX_CONSECUTIVE_ERRORS {
              if owned { terminated := true; }
              stop := if fatal then Fatal else Exhausted;
            } else {
              streak := streak + [backoffMs];
              backoffMs := Min(backoffMs * 2, BACKOFF_MAX_MS);
            }
          case End(owned) =>
            if owned { terminated := true; }
            stop := Ended;
        }
      }
      assert results[..|results|] == results;
    }
  }

  // ---------------------------------------------------------------- backoff

  function Pow2(k: nat): (p: nat)
    ensures p >= 1
  {
    if k == 0 then 1 else 2 * Pow2(k - 1)
  }

  function Backoff(k: nat): nat { Min(BACKOFF_START_MS * Pow2(k), BACKOFF_MAX_MS) }

  function Sum(xs: seq<nat>): nat { if xs == [] then 0 else Sum(xs[..|xs| - 1]) + xs[|xs| - 1] }

  /** Sleep spent on `k` errors in a row: doubling up to the cap, then the cap. */
  function StreakSleep(k: nat): nat {
    if k <= 7 then BACKOFF_START_MS * (Pow2(k) - 1) else 6_350 + (k - 7) * BACKOFF_MAX_MS
  }

  lemma Doublings()
    ensures Pow2(5) == 32 && Pow2(6) == 64 && Pow2(7) == 128
  {
    assert Pow2(2) == 4 && Pow2(4) == 16;
  }

  lemma {:induction false} PastTheCap(k: nat)
    requires k >= 7
    ensures Pow2(k) >= 128
  {
    Doublings();
    if k > 7 { PastTheCap(k - 1); }
  }

  lemma StreakGrows(k: nat)
    ensures StreakSleep(k + 1) == StreakSleep(k) + Backoff(k)
    ensures Backoff(k + 1) == Min(Backoff(k) * 2, BACKOFF_MAX_MS)
  {
    Doublings();
    if k >= 7 { PastTheCap(k); }
    else if k <= 4 { assert Pow2(2) == 4 && Pow2(3) == 8 && Pow2(4) == 16; }
  }

  /** Consecutive failures at the end of what the stream yielded. */
  function TrailingFailures(rs: seq<StreamResult>): nat {
    if rs == [] || !rs[|rs| - 1].Failure? then 0 else 1 + TrailingFailures(rs[..|rs| - 1])
  }

  /** The last result ends the loop: said of the results alone, without the loop's variables. */
  predicate Stops(rs: seq<StreamResult>)
    requires rs != []
  {
    match rs[|rs| - 1]
    case Message(_, owned) => !owned
    case End(_) => true
    case Failure(fatal, _) => fatal || TrailingFailures(rs) >= MAX_CONSECUTIVE_ERRORS
  }

  /** While it runs: `k` errors in a row leave backoff `min(50 * 2^k, 5000)` and the closed-form sleep behind them. */
  ghost predicate OnSchedule(p: Puller, k: nat) {
    p.errors == k && k < MAX_CONSECUTIVE_ERRORS && p.backoffMs == Backoff(k) && Sum(p.streak) == StreakSleep(k)
  }

  lemma {:induction false} LoopBehaviour(rs: seq<StreamResult>)
    ensures PullAll(rs).stop.Running? <==> forall i :: 0 < i <= |rs| ==> !Stops(rs[..i])
    ensures PullAll(rs).stop.Running? ==> OnSchedule(PullAll(rs), TrailingFailures(rs))
    decreases |rs|
  {
    if rs == [] {
      assert Pow2(0) == 1;
    } else {
      var before, last := rs[..|rs| - 1], rs[|rs| - 1];
      LoopBehaviour(before);
      LastStop(rs);
      if PullAll(rs).stop.Running? { PullOnSchedule(PullAll(before), TrailingFailures(before), last); }
      hide OnSchedule;
    }
  }

  lemma LastStop(rs: seq<StreamResult>)
    requires rs != []
    ensures var before := rs[..|rs| - 1];
            (forall i :: 0 < i <= |rs| ==> !Stops(rs[..i])) <==>
            (forall i :: 0 < i <= |before| ==> !Stops(before[..i])) && !Stops(rs)
  {
    hide Stops;
    var before := rs[..|rs| - 1];
    assert rs[..|rs|] == rs;
    assert forall i :: 0 < i < |rs| ==> rs[..i] == before[..i];
    if forall i :: 0 < i <= |rs| ==> !Stops(rs[..i]) {
      forall i | 0 < i <= |before| ensures !Stops(before[..i]) { assert rs[..i] == before[..i]; }
    }
  }

  lemma PullOnSchedule(p: Puller, k: nat, r: StreamResult)
    requires p.stop.Running? && OnSchedule(p, k) && Pull(p, r).stop.Running?
    ensures OnSchedule(Pull(p, r), if r.Failure? then k + 1 else 0)
  {
    StreakGrows(k);
    assert Pow2(0) == 1;
    assert (p.streak + [p.backoffMs])[..|p.streak|] == p.streak;
  }

  // ------------------------------------------------------- how the loop ends

  /** The first `i` results end the loop, and no fewer do. */
  ghost predicate FirstStop(rs: seq<StreamResult>, i: nat) {
    0 < i <= |rs| && Stops(rs[..i]) && forall j :: 0 < j < i ==> !Stops(rs[..j])
  }

  ghost predicate NoStop(rs: seq<StreamResult>) { forall i :: 0 < i <= |rs| ==> !Stops(rs[..i]) }

  lemma {:induction false} NotTerminatedBefore(rs: seq<StreamResult>)
    requires NoStop(rs)
    ensures PullAll(rs).stop.Running? && !PullAll(rs).terminated
    decreases |rs|
  {
    LoopBehaviour(rs);
    if rs != [] {
      LastStop(rs);
      NotTerminatedBefore(rs[..|rs| - 1]);
    }
  }

  /** After the first stopping result nothing changes any more. */
  lemma {:induction false} StoppedForGood(rs: seq<StreamResult>, i: nat)
    requires i <= |rs| && !PullAll(rs[..i]).stop.Running?
    ensures PullAll(rs) == PullAll(rs[..i])
    decreases |rs|
  {
    if i < |rs| {
      assert rs[..|rs| - 1][..i] == rs[..i];
      StoppedForGood(rs[..|rs| - 1], i);
    } else {
      assert rs[..i] == rs;
    }
  }

  /**
   Why the loop ends and whether the subscription is marked terminated, from the results
   alone: a stream end, a fatal error and the 60th error in a row mark it, if somebody
   still owns it; a message for nobody ends the loop without a mark.
   */
  lemma EndsBy(rs: seq<StreamResult>, i: nat)
    requires FirstStop(rs, i)
    ensures var p, last := PullAll(rs), rs[i - 1];
            && (last.Message? ==> p.stop == Abandoned && !p.terminated)
            && (last.End? ==> p.stop == Ended && p.terminated == last.owned)
            && (last.Failure? && last.fatal ==> p.stop == Fatal && p.terminated == last.owned)
            && (last.Failure? && !last.fatal ==> p.stop == Exhausted && p.terminated == last.owned)
  {
    var upTo, before := rs[..i], rs[..i - 1];
    assert upTo[..|upTo| - 1] == before;
    forall j | 0 < j <= |before| ensures !Stops(before[..j]) { assert before[..j] == rs[..j]; }
    NotTerminatedBefore(before);
    LoopBehaviour(before);
    LoopBehaviour(upTo);
    assert upTo[..i] == upTo;
    StoppedForGood(rs, i);
  }

  lemma TerminatedIff(rs: seq<StreamResult>)
    ensures PullAll(rs).terminated <==> exists i :: FirstStop(rs, i) && !rs[i - 1].Message? && rs[i - 1].owned
  {
    if i :| FirstStop(rs, i) {
      EndsBy(rs, i);
      forall j | FirstStop(rs, j) ensures j == i {}
    } else {
      NoFirstNoStop(rs);
      NotTerminatedBefore(rs);
    }
  }

  lemma {:induction false} NoFirstNoStop(rs: seq<StreamResult>)
    requires forall i :: !FirstStop(rs, i)
    ensures NoStop(rs)
  {
    hide Stops;
    var k := |rs|;
    if i :| 0 < i <= |rs| && Stops(rs[..i]) { LeastStop(rs, i); }
  }

  lemma {:induction false} LeastStop(rs: seq<StreamResult>, i: nat)
    requires 0 < i <= |rs| && Stops(rs[..i])
    ensures exists j :: FirstStop(rs, j)
    decreases i
  {
    hide Stops;
    if j :| 0 < j < i && Stops(rs[..j]) { LeastStop(rs, j); } else { assert FirstStop(rs, i); }
  }

  /** The messages that came while somebody owned the subscription, as pushes with their pause checks. */
  function Pushes(rs: seq<StreamResult>): seq<B.Whole> {
    if rs == [] then []
    else
      var last := rs[|rs| - 1];
      Pushes(rs[..|rs| - 1]) + (if last.Message? && last.owned then [B.WholePush(last.m)] else [])
  }

  lemma {:induction false} DoAllSnoc(cfg: Config, s: Sub, es: seq<B.Whole>, e: B.Whole)
    ensures B.DoAll(cfg, s, es + [e]) == B.Do(cfg, B.DoAll(cfg, s, es), e)
    decreases |es|
  {
    hide B.Do;
    if es == [] {
      assert [] + [e] == [e] && [e][1..] == [];
      assert B.DoAll(cfg, B.Do(cfg, s, e), []) == B.Do(cfg, s, e);
    } else {
      assert (es + [e])[1..] == es[1..] + [e];
      DoAllSnoc(cfg, B.Do(cfg, s, es[0]), es[1..], e);
    }
  }

  /** While the loop runs, what it leaves in the buffer is one whole push for each message it was given. */
  lemma {:induction false} DeliversEveryPush(cfg: Config, s: Sub, rs: seq<StreamResult>)
    requires NoStop(rs)
    ensures Deliver(cfg, s, rs) == B.DoAll(cfg, s, Pushes(rs))
    decreases |rs|
  {
    if rs != [] {
      var before, last := rs[..|rs| - 1], rs[|rs| - 1];
      LastStop(rs);
      NotTerminatedBefore(before);
      hide Stops, ConsumerBuffer.MaybePause, Push, PullAll;
      DeliversEveryPush(cfg, s, before);
      if last.Message? && last.owned {
        DoAllSnoc(cfg, s, Pushes(before), B.WholePush(last.m));
      } else {
        assert Pushes(before) + [] == Pushes(before);
      }
    }
  }

  /** And after it has stopped, one for each message before that. */
  lemma {:induction false} DeliversUpToTheStop(cfg: Config, s: Sub, rs: seq<StreamResult>, i: nat)
    requires FirstStop(rs, i)
    ensures Deliver(cfg, s, rs) == B.DoAll(cfg, s, Pushes(rs[..i - 1]))
    decreases |rs|
  {
    var before := rs[..|rs| - 1];
    if i < |rs| {
      assert before[..i] == rs[..i] && before[..i - 1] == rs[..i - 1];
      forall j | 0 < j < i ensures !Stops(before[..j]) { assert before[..j] == rs[..j]; }
      EndsBy(before, i);
      hide PullAll, Stops;
      DeliversUpToTheStop(cfg, s, before, i);
    } else {
      assert rs[..i] == rs && rs[..i - 1] == before;
      forall j | 0 < j <= |before| ensures !Stops(before[..j]) { assert before[..j] == rs[..j]; }
      DeliversEveryPush(cfg, s, before);
    }
  }

  /** No error streak sleeps longer than 266 350 ms in all, whether or not it is the one that ends the loop. */
  lemma {:induction false} SleepBound(rs: seq<StreamResult>)
    ensures Sum(PullAll(rs).streak) <= 266_350
    decreases |rs|
  {
    if PullAll(rs).stop.Running? {
      LoopBehaviour(rs);
      Doublings();
      var k := TrailingFailures(rs);
      if k <= 7 { PowMonotone(k, 7); }
    } else {
      SleepBound(rs[..|rs| - 1]);
    }
  }

  /** A streak of 59 errors sleeps exactly that long, and the 60th ends the loop without another sleep. */
  lemma SleepAttained()
    ensures var rs := Failures(59);
            && PullAll(rs).stop.Running? && Sum(PullAll(rs).streak) == 266_350
            && PullAll(Failures(60)).stop == Exhausted && PullAll(Failures(60)).streak == PullAll(rs).streak
  {
    var rs := Failures(59);
    assert Failures(60)[..59] == rs;
    OnlyFailures(59);
    LoopBehaviour(rs);
  }

  function Failures(n: nat): seq<StreamResult> { seq(n, _ => Failure(false, true)) }

  lemma {:induction false} OnlyFailures(n: nat)
    ensures TrailingFailures(Failures(n)) == n
    ensures n < MAX_CONSECUTIVE_ERRORS ==> PullAll(Failures(n)).stop.Running? && PullAll(Failures(n)).errors == n
  {
    if n > 0 {
      OnlyFailures(n - 1);
      assert Failures(n)[..n - 1] == Failures(n - 1);
    }
  }

  lemma {:induction false} PowMonotone(a: nat, b: nat)
    requires a <= b
    ensures Pow2(a) <= Pow2(b)
    decreases b
  {
    if a < b { PowMonotone(a, b - 1); }
  }
}
