/**
 The per-subscription buffer of the worker: one puller pushes, pollers drain,
 overflow drops the oldest, and two watermarks pause and resume the fetcher.

 The lock covers a push or a drain; the pause or resume check that follows runs
 after the unlock, on the readings taken under the lock. `Event` has one step for
 each of the four, so runs cover every interleaving of the puller and any number
 of pollers. `Sub` carries two history fields, `received` and `removed`.
 */
module ConsumerBuffer {
  import opened Basics
  import opened Layouts

  function HeaderBytes(hs: seq<Header>): nat {
    if hs == [] then 0 else |hs[0].name| + |hs[0].value| + HeaderBytes(hs[1..])
  }

  /** `message_bytes`: key, value and headers. */
  function MessageBytes(m: ConsumerMessage): nat {
    |m.key| + |m.value| + HeaderBytes(m.headers)
  }

  function TotalBytes(ms: seq<ConsumerMessage>): nat {
    if ms == [] then 0 else MessageBytes(ms[0]) + TotalBytes(ms[1..])
  }

  lemma {:induction false} TotalBytesConcat(a: seq<ConsumerMessage>, b: seq<ConsumerMessage>)
    ensures TotalBytes(a + b) == TotalBytes(a) + TotalBytes(b)
  {
    if a == [] {
      assert a + b == b;
    } else {
      TotalBytesConcat(a[1..], b);
      assert (a + b)[1..] == a[1..] + b;
    }
  }

  datatype Config = Config(
    capacity: nat, pauseAt: nat, resumeAt: nat,
    byteCapacity: nat, pauseAtBytes: nat, resumeAtBytes: nat)

  datatype Removal = Polled(m: ConsumerMessage) | Dropped(m: ConsumerMessage)

  datatype Sub = Sub(
    buffer: seq<ConsumerMessage>, bytes: int, dropped: nat,
    paused: bool, pauseTotal: nat, resumeTotal: nat,
    received: seq<ConsumerMessage>, removed: seq<Removal>)

  const FRESH := Sub([], 0, 0, false, 0, 0, [], [])

  /** Buffer length and byte count as read under the lock. */
  datatype Levels = Levels(len: nat, bytes: int)

  predicate Overflows(cfg: Config, s: Sub, m: ConsumerMessage) {
    || |s.buffer| >= cfg.capacity
    || (cfg.byteCapacity > 0 && s.bytes + MessageBytes(m) > cfg.byteCapacity)
  }

  function DropOldest(s: Sub): Sub {
    if s.buffer == [] then s
    else s.(buffer := s.buffer[1..], bytes := s.bytes - MessageBytes(s.buffer[0]), dropped := s.dropped + 1,
            removed := s.removed + [Dropped(s.buffer[0])])
  }

  /** The locked part of one message of `stream_loop`. */
  function Push(cfg: Config, s: Sub, m: ConsumerMessage): Sub {
    var t := if Overflows(cfg, s, m) then DropOldest(s) else s;
    t.(buffer := t.buffer + [m], bytes := t.bytes + MessageBytes(m), received := t.received + [m])
  }

  function PolledAll(ms: seq<ConsumerMessage>): (rs: seq<Removal>)
    ensures |rs| == |ms| && forall i :: 0 <= i < |ms| ==> rs[i] == Polled(ms[i])
  {
    seq(|ms|, i requires 0 <= i < |ms| => Polled(ms[i]))
  }

  function Taken(s: Sub, max: nat): nat { if max < |s.buffer| then max else |s.buffer| }

  /** The locked part of one `poll` iteration that finds the buffer non-empty. */
  function Drain(s: Sub, max: nat): Sub {
    var k := Taken(s, max);
    s.(buffer := s.buffer[k..], bytes := s.bytes - TotalBytes(s.buffer[..k]), removed := s.removed + PolledAll(s.buffer[..k]))
  }

  function Read(s: Sub): Levels { Levels(|s.buffer|, s.bytes) }

  predicate Trips(cfg: Config, l: Levels) {
    (cfg.pauseAt > 0 && l.len >= cfg.pauseAt) || (cfg.pauseAtBytes > 0 && l.bytes >= cfg.pauseAtBytes)
  }

  predicate Clears(cfg: Config, l: Levels) { l.len <= cfg.resumeAt && l.bytes <= cfg.resumeAtBytes }

  function MaybePause(cfg: Config, s: Sub, l: Levels): Sub {
    if Trips(cfg, l) && !s.paused then s.(paused := true, pauseTotal := s.pauseTotal + 1) else s
  }

  function MaybeResume(cfg: Config, s: Sub, l: Levels): Sub {
    if Clears(cfg, l) && s.paused then s.(paused := false, resumeTotal := s.resumeTotal + 1) else s
  }

  // ------------------------------------------------------------ accounting

  /** The messages behind the removals. */
  function Messages(rs: seq<Removal>): (ms: seq<ConsumerMessage>)
    ensures |ms| == |rs| && forall i :: 0 <= i < |rs| ==> ms[i] == rs[i].m
  {
    seq(|rs|, i requires 0 <= i < |rs| => rs[i].m)
  }

  function Drops(rs: seq<Removal>): nat {
    if rs == [] then 0 else Drops(rs[..|rs| - 1]) + (if rs[|rs| - 1].Dropped? then 1 else 0)
  }

  lemma {:induction false} DropsOfPolled(rs: seq<Removal>, ms: seq<ConsumerMessage>)
    ensures Drops(rs + PolledAll(ms)) == Drops(rs)
    decreases |ms|
  {
    var all := rs + PolledAll(ms);
    if ms == [] {
      assert all == rs;
    } else {
      DropsOfPolled(rs, ms[..|ms| - 1]);
      assert all[..|all| - 1] == rs + PolledAll(ms[..|ms| - 1]);
    }
  }

  function Max(a: int, b: int): int { if a < b then b else a }

  /** What holds whenever the lock is free, in every interleaving. */
  ghost predicate Accounted(cfg: Config, s: Sub) {
    && s.bytes == TotalBytes(s.buffer)
    && Messages(s.removed) + s.buffer == s.received
    && s.dropped == Drops(s.removed)
    && |s.buffer| <= Max(1, cfg.capacity)
    && s.pauseTotal == s.resumeTotal + (if s.paused then 1 else 0)
  }

  lemma PushAccounted(cfg: Config, s: Sub, m: ConsumerMessage)
    requires Accounted(cfg, s)
    ensures Accounted(cfg, Push(cfg, s, m))
    ensures Overflows(cfg, s, m) && s.buffer != [] ==> s.bytes >= MessageBytes(s.buffer[0])
  {
    hide TotalBytes, Drops;
    if Overflows(cfg, s, m) { DropAccounted(cfg, s); }
    var t := if Overflows(cfg, s, m) then DropOldest(s) else s;
    TotalBytesConcat(t.buffer, [m]);
    SingleBytes(m);
    assert Messages(t.removed) + (t.buffer + [m]) == t.received + [m];
  }

  lemma SingleBytes(m: ConsumerMessage)
    ensures TotalBytes([m]) == MessageBytes(m)
  {
  }

  lemma HeadBytes(ms: seq<ConsumerMessage>)
    requires ms != []
    ensures TotalBytes(ms) == MessageBytes(ms[0]) + TotalBytes(ms[1..])
  {
  }

  lemma OneMoreDrop(rs: seq<Removal>, m: ConsumerMessage)
    ensures Drops(rs + [Dropped(m)]) == Drops(rs) + 1
    ensures Messages(rs + [Dropped(m)]) == Messages(rs) + [m]
  {
    hide MessageBytes, TotalBytes;
    var all := rs + [Dropped(m)];
    assert all[..|all| - 1] == rs;
  }

  lemma DropAccounted(cfg: Config, s: Sub)
    requires Accounted(cfg, s)
    ensures Accounted(cfg, DropOldest(s))
    ensures s.buffer != [] ==> s.bytes >= MessageBytes(s.buffer[0])
  {
    hide TotalBytes, Drops, MessageBytes, Messages;
    if s.buffer != [] {
      HeadBytes(s.buffer);
      OneMoreDrop(s.removed, s.buffer[0]);
      assert s.buffer == [s.buffer[0]] + s.buffer[1..];
    }
  }

  lemma DrainAccounted(cfg: Config, s: Sub, max: nat)
    requires Accounted(cfg, s)
    ensures Accounted(cfg, Drain(s, max))
    ensures s.bytes >= TotalBytes(s.buffer[..Taken(s, max)])
  {
    hide TotalBytes, Drops;
    var k := Taken(s, max);
    assert s.buffer == s.buffer[..k] + s.buffer[k..];
    TotalBytesConcat(s.buffer[..k], s.buffer[k..]);
    DropsOfPolled(s.removed, s.buffer[..k]);
    assert Messages(s.removed + PolledAll(s.buffer[..k])) == Messages(s.removed) + s.buffer[..k];
  }

  // ------------------------------------------------------------------- runs

  /** The subscription, the puller's outstanding check, and the pollers' outstanding checks. */
  datatype System = System(sub: Sub, pausing: Option<Levels>, resuming: multiset<Levels>)

  datatype Event =
    | Arrive(m: ConsumerMessage)   // push under the lock
    | CheckPause                   // maybe_pause on the readings of the last push
    | Poll(max: nat)               // drain under the lock; an empty buffer leaves everything as it is
    | CheckResume(l: Levels)       // maybe_resume on the readings of some earlier drain

  predicate Enabled(w: System, e: Event) {
    match e
    case Arrive(_) => w.pausing.None?
    case CheckPause => w.pausing.Some?
    case Poll(_) => true
    case CheckResume(l) => l in w.resuming
  }

  function Next(cfg: Config, w: System, e: Event): System
    requires Enabled(w, e)
  {
    match e
    case Arrive(m) => var t := Push(cfg, w.sub, m); w.(sub := t, pausing := Some(Read(t)))
    case CheckPause => w.(sub := MaybePause(cfg, w.sub, w.pausing.value), pausing := None)
    case Poll(max) =>
      if w.sub.buffer == [] then w
      else var t := Drain(w.sub, max); w.(sub := t, resuming := w.resuming + multiset{Read(t)})
    case CheckResume(l) => w.(sub := MaybeResume(cfg, w.sub, l), resuming := w.resuming - multiset{l})
  }

  const START := System(FRESH, None, multiset{})

  ghost predicate Reaches(cfg: Config, w: System, es: seq<Event>, z: System)
    decreases |es|
  {
    if es == [] then z == w else Enabled(w, es[0]) && Reaches(cfg, Next(cfg, w, es[0]), es[1..], z)
  }

  lemma Stays(cfg: Config, w: System)
    ensures Reaches(cfg, w, [], w)
  {
  }

  lemma StepFirst(cfg: Config, w: System, e: Event, es: seq<Event>, z: System)
    requires Enabled(w, e) && Reaches(cfg, Next(cfg, w, e), es, z)
    ensures Reaches(cfg, w, [e] + es, z)
  {
    assert ([e] + es)[1..] == es;
  }

  lemma StepAccounted(cfg: Config, w: System, e: Event)
    requires Accounted(cfg, w.sub) && Enabled(w, e)
    ensures Accounted(cfg, Next(cfg, w, e).sub)
  {
    match e
    case Arrive(m) => PushAccounted(cfg, w.sub, m);
    case Poll(max) => DrainAccounted(cfg, w.sub, max);
    case CheckPause =>
    case CheckResume(_) =>
  }

  /** In every interleaving: exact byte count, no loss and no reordering, counted drops, bounded length, paired pauses. */
  lemma {:induction false} AlwaysAccounted(cfg: Config, w: System, es: seq<Event>, z: System)
    requires Accounted(cfg, w.sub) && Reaches(cfg, w, es, z)
    ensures Accounted(cfg, z.sub)
    decreases |es|
  {
    if es != [] {
      StepAccounted(cfg, w, es[0]);
      AlwaysAccounted(cfg, Next(cfg, w, es[0]), es[1..], z);
    }
  }

  lemma AccountedFromStart(cfg: Config, es: seq<Event>, z: System)
    requires Reaches(cfg, START, es, z)
    ensures Accounted(cfg, z.sub)
  {
    assert Messages([]) + [] == [];
    AlwaysAccounted(cfg, START, es, z);
  }

  // ------------------------------------------------------------- byte bound

  ghost predicate WeightsIn(lo: nat, hi: nat, ms: seq<ConsumerMessage>) {
    forall i :: 0 <= i < |ms| ==> lo <= MessageBytes(ms[i]) <= hi
  }

  lemma OneMore(n: int, x: int)
    ensures (n + 1) * x == n * x + x
  {
  }

  lemma ScaleUp(a: int, b: int, x: nat)
    requires a <= b
    ensures a * x <= b * x
  {
  }

  lemma AtMostQuotient(n: int, lo: int, cap: int)
    requires lo > 0 && n * lo <= cap
    ensures n <= cap / lo
  {
    if n > cap / lo { ScaleUp(cap / lo + 1, n, lo); }
  }

  lemma {:induction false} WeighedTotal(lo: nat, hi: nat, ms: seq<ConsumerMessage>)
    requires WeightsIn(lo, hi, ms)
    ensures |ms| * lo <= TotalBytes(ms) <= |ms| * hi
  {
    hide MessageBytes;
    if ms != [] {
      WeighedTotal(lo, hi, ms[1..]);
      OneMore(|ms| - 1, lo);
      OneMore(|ms| - 1, hi);
      assert lo <= MessageBytes(ms[0]) <= hi;
    }
  }

  /** A byte cap bounds the length when every message has at least `lo` bytes, and the bytes through the length. */
  ghost predicate ByteBounded(cfg: Config, lo: nat, hi: nat, s: Sub)
    requires lo > 0
  {
    && WeightsIn(lo, hi, s.buffer)
    && |s.buffer| <= Max(1, cfg.byteCapacity / lo)
    && TotalBytes(s.buffer) <= Max(1, cfg.byteCapacity / lo) * hi
  }

  lemma LengthBoundsBytes(cfg: Config, lo: nat, hi: nat, s: Sub)
    requires lo > 0 && WeightsIn(lo, hi, s.buffer) && |s.buffer| <= Max(1, cfg.byteCapacity / lo)
    ensures ByteBounded(cfg, lo, hi, s)
  {
    hide TotalBytes, MessageBytes;
    WeighedTotal(lo, hi, s.buffer);
    ScaleUp(|s.buffer|, Max(1, cfg.byteCapacity / lo), hi);
  }

  lemma PushByteBounded(cfg: Config, lo: nat, hi: nat, s: Sub, m: ConsumerMessage)
    requires lo > 0 && cfg.byteCapacity > 0 && lo <= MessageBytes(m) <= hi
    requires Accounted(cfg, s) && ByteBounded(cfg, lo, hi, s)
    ensures ByteBounded(cfg, lo, hi, Push(cfg, s, m))
  {
    hide TotalBytes, MessageBytes, Messages, Drops;
    var t := Push(cfg, s, m);
    PushAccounted(cfg, s, m);
    WeighedTotal(lo, hi, t.buffer);
    if !Overflows(cfg, s, m) { AtMostQuotient(|t.buffer|, lo, cfg.byteCapacity); }
    LengthBoundsBytes(cfg, lo, hi, t);
  }

  lemma {:induction false} AlwaysByteBounded(cfg: Config, lo: nat, hi: nat, w: System, es: seq<Event>, z: System)
    requires lo > 0 && cfg.byteCapacity > 0
    requires forall e <- es :: e.Arrive? ==> lo <= MessageBytes(e.m) <= hi
    requires Accounted(cfg, w.sub) && ByteBounded(cfg, lo, hi, w.sub) && Reaches(cfg, w, es, z)
    ensures ByteBounded(cfg, lo, hi, z.sub)
    decreases |es|
  {
    hide TotalBytes, MessageBytes, Messages, Drops;
    if es != [] {
      var e, x := es[0], Next(cfg, w, es[0]);
      StepAccounted(cfg, w, e);
      match e {
        case Arrive(m) => PushByteBounded(cfg, lo, hi, w.sub, m);
        case Poll(max) => LengthBoundsBytes(cfg, lo, hi, x.sub);
        case CheckPause =>
        case CheckResume(_) =>
      }
      AlwaysByteBounded(cfg, lo, hi, x, es[1..], z);
    }
  }

  // --------------------------------------------- when the byte cap is a bound

  /** As many messages as can be buffered at once when none weighs less than `lo`. */
  function MostMessages(cfg: Config, lo: nat): nat
    requires lo > 0
  {
    var byBytes := cfg.byteCapacity / lo;
    Max(1, if cfg.capacity < byBytes then cfg.capacity else byBytes)
  }

  ghost predicate ArrivalsIn(lo: nat, hi: nat, es: seq<Event>) {
    forall i :: 0 <= i < |es| && es[i].Arrive? ==> lo <= MessageBytes(es[i].m) <= hi
  }

  /** No run over messages of these weights buffers more than that many of the heaviest. */
  lemma BytesAtMost(cfg: Config, lo: nat, hi: nat, es: seq<Event>, z: System)
    requires lo > 0 && cfg.byteCapacity > 0 && ArrivalsIn(lo, hi, es) && Reaches(cfg, START, es, z)
    ensures z.sub.bytes <= MostMessages(cfg, lo) * hi
  {
    assert forall e <- es :: e.Arrive? ==> lo <= MessageBytes(e.m) <= hi;
    AccountedFromStart(cfg, es, z);
    assert Accounted(cfg, START.sub) by { assert Messages([]) + [] == []; }
    assert TotalBytes([]) == 0;
    ScaleUp(0, Max(1, cfg.byteCapacity / lo), hi);
    AlwaysByteBounded(cfg, lo, hi, START, es, z);
    WeighedTotal(lo, hi, z.sub.buffer);
    ScaleUp(|z.sub.buffer|, MostMessages(cfg, lo), hi);
  }

  /** A run so far: it has reached `w`, where no pause check is outstanding. */
  ghost predicate Settled(cfg: Config, lo: nat, hi: nat, es: seq<Event>, w: System) {
    Reaches(cfg, START, es, w) && w.pausing.None? && ArrivalsIn(lo, hi, es)
  }

  lemma {:induction false} Follow(cfg: Config, w: System, es: seq<Event>, x: System, e: Event)
    requires Reaches(cfg, w, es, x) && Enabled(x, e)
    ensures Reaches(cfg, w, es + [e], Next(cfg, x, e))
    decreases |es|
  {
    hide Next, Enabled;
    var z := Next(cfg, x, e);
    Stays(cfg, z);
    if es == [] {
      StepFirst(cfg, x, e, [], z);
      assert es + [e] == [e] + [];
    } else {
      Follow(cfg, Next(cfg, w, es[0]), es[1..], x, e);
      StepFirst(cfg, w, es[0], es[1..] + [e], z);
      assert es + [e] == [es[0]] + (es[1..] + [e]);
    }
  }

  /** One more message, with its check. */
  lemma DeliverOne(cfg: Config, lo: nat, hi: nat, es: seq<Event>, w: System, m: ConsumerMessage) returns (es': seq<Event>, w': System)
    requires Settled(cfg, lo, hi, es, w) && lo <= MessageBytes(m) <= hi
    ensures Settled(cfg, lo, hi, es', w') && w'.sub.buffer == Push(cfg, w.sub, m).buffer && es' == es + [Arrive(m)] + [CheckPause]
  {
    hide Reaches, MessageBytes;
    var x := Next(cfg, w, Arrive(m));
    Follow(cfg, START, es, w, Arrive(m));
    w' := Next(cfg, x, CheckPause);
    Follow(cfg, START, es + [Arrive(m)], x, CheckPause);
    es' := es + [Arrive(m)] + [CheckPause];
  }

  /** `n` of the lightest messages fit without a drop. */
  lemma {:induction false} FillLight(cfg: Config, lo: nat, hi: nat, n: nat) returns (es: seq<Event>, w: System)
    requires 0 < lo <= hi && cfg.byteCapacity > 0 && n <= MostMessages(cfg, lo)
    ensures Settled(cfg, lo, hi, es, w) && |w.sub.buffer| == n && WeightsIn(lo, lo, w.sub.buffer)
  {
    if n == 0 {
      es, w := [], START;
      Stays(cfg, START);
    } else {
      es, w := FillLight(cfg, lo, hi, n - 1);
      AccountedFromStart(cfg, es, w);
      WeighedTotal(lo, lo, w.sub.buffer);
      OneMore(n - 1, lo);
      LightFits(cfg, lo, n);
      var m := Weighing(lo);
      assert n == 1 || !Overflows(cfg, w.sub, m);
      hide Reaches, TotalBytes, MessageBytes;
      es, w := DeliverOne(cfg, lo, hi, es, w, m);
    }
  }

  lemma LightFits(cfg: Config, lo: nat, n: nat)
    requires lo > 0 && n <= MostMessages(cfg, lo)
    ensures n > 1 ==> n <= cfg.capacity && n * lo <= cfg.byteCapacity
  {
    if n > 1 { ScaleUp(n, cfg.byteCapacity / lo, lo); }
  }

  /** Once that many are buffered, every push drops exactly one. */
  lemma FullOverflows(cfg: Config, lo: nat, hi: nat, s: Sub, m: ConsumerMessage)
    requires lo > 0 && cfg.byteCapacity > 0 && Accounted(cfg, s) && WeightsIn(lo, hi, s.buffer)
    requires |s.buffer| == MostMessages(cfg, lo) && MessageBytes(m) >= lo
    ensures Overflows(cfg, s, m)
  {
    hide TotalBytes, MessageBytes, Messages, Drops;
    WeighedTotal(lo, hi, s.buffer);
    var n := |s.buffer|;
    OneMore(n, lo);
    if n >= cfg.byteCapacity / lo { ScaleUp(cfg.byteCapacity / lo + 1, n + 1, lo); }
  }

  /** So the heaviest messages replace the lightest one by one. */
  lemma {:induction false} ReplaceByHeavy(cfg: Config, lo: nat, hi: nat, k: nat) returns (es: seq<Event>, w: System)
    requires 0 < lo <= hi && cfg.byteCapacity > 0 && k <= MostMessages(cfg, lo)
    ensures Settled(cfg, lo, hi, es, w) && |w.sub.buffer| == MostMessages(cfg, lo)
    ensures WeightsIn(lo, hi, w.sub.buffer) && WeightsIn(hi, hi, w.sub.buffer[|w.sub.buffer| - k..])
  {
    var n := MostMessages(cfg, lo);
    if k == 0 {
      es, w := FillLight(cfg, lo, hi, n);
    } else {
      var es0, w0 := ReplaceByHeavy(cfg, lo, hi, k - 1);
      AccountedFromStart(cfg, es0, w0);
      var m := Weighing(hi);
      FullOverflows(cfg, lo, hi, w0.sub, m);
      hide Reaches, TotalBytes, MessageBytes, Accounted, Overflows, MostMessages;
      es, w := DeliverOne(cfg, lo, hi, es0, w0, m);
      assert w.sub.buffer == w0.sub.buffer[1..] + [m];
      assert w.sub.buffer[n - k..] == w0.sub.buffer[n - (k - 1)..] + [m];
    }
  }

  /** The bound is attained: that many of the heaviest can be buffered at once. */
  lemma BytesAttained(cfg: Config, lo: nat, hi: nat) returns (es: seq<Event>, z: System)
    requires 0 < lo <= hi && cfg.byteCapacity > 0
    ensures ArrivalsIn(lo, hi, es) && Reaches(cfg, START, es, z) && z.sub.bytes == MostMessages(cfg, lo) * hi
  {
    var n := MostMessages(cfg, lo);
    es, z := ReplaceByHeavy(cfg, lo, hi, n);
    assert z.sub.buffer[0..] == z.sub.buffer;
    AccountedFromStart(cfg, es, z);
    WeighedTotal(hi, hi, z.sub.buffer);
  }

  /**
   Every run over messages that weigh between `lo` and `hi` keeps the buffered bytes
   within the byte cap if and only if the cap has room for as many of the heaviest as
   the two caps allow of the lightest.
   */
  lemma ByteCapHoldsIff(cfg: Config, lo: nat, hi: nat)
    requires 0 < lo <= hi && cfg.byteCapacity > 0
    ensures (forall es, z :: Reaches(cfg, START, es, z) && ArrivalsIn(lo, hi, es) ==> z.sub.bytes <= cfg.byteCapacity)
            <==> MostMessages(cfg, lo) * hi <= cfg.byteCapacity
  {
    hide Reaches, MostMessages;
    if MostMessages(cfg, lo) * hi <= cfg.byteCapacity {
      forall es, z | Reaches(cfg, START, es, z) && ArrivalsIn(lo, hi, es)
        ensures z.sub.bytes <= cfg.byteCapacity
      {
        BytesAtMost(cfg, lo, hi, es, z);
      }
    } else {
      var es, z := BytesAttained(cfg, lo, hi);
    }
  }

  function Weighing(n: nat): (m: ConsumerMessage)
    ensures MessageBytes(m) == n
  {
    ConsumerMessage([], 0, 0, 0, seq(n, _ => 0), [], [])
  }

  /** Dropping one message per push does not keep the bytes under the cap: 3 bytes are buffered under a cap of 2. */
  lemma ByteCapIsNotABound() returns (cfg: Config, es: seq<Event>, z: System)
    ensures cfg.byteCapacity > 0 && Reaches(cfg, START, es, z) && z.sub.bytes > cfg.byteCapacity
    ensures forall e <- es :: e.Arrive? ==> MessageBytes(e.m) <= cfg.byteCapacity
  {
    cfg := Config(100, 0, 0, 2, 0, 0);
    var a, b := Weighing(1), Weighing(2);
    var w1 := Next(cfg, START, Arrive(a));
    var w2 := Next(cfg, w1, CheckPause);
    var w3 := Next(cfg, w2, Arrive(a));
    var w4 := Next(cfg, w3, CheckPause);
    z := Next(cfg, w4, Arrive(b));
    Stays(cfg, z);
    StepFirst(cfg, w4, Arrive(b), [], z);
    StepFirst(cfg, w3, CheckPause, [Arrive(b)], z);
    StepFirst(cfg, w2, Arrive(a), [CheckPause, Arrive(b)], z);
    StepFirst(cfg, w1, CheckPause, [Arrive(a), CheckPause, Arrive(b)], z);
    StepFirst(cfg, START, Arrive(a), [CheckPause, Arrive(a), CheckPause, Arrive(b)], z);
    es := [Arrive(a), CheckPause, Arrive(a), CheckPause, Arrive(b)];
  }
}
