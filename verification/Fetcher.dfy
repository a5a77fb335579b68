/**
 The automatic pause flag and the fetcher it stands for. A check flips the flag and
 spawns a task; the task calls the fetcher later, on a thread of its own, and may fail.
 Pushes and drains are whole steps here; so are the user's calls. A paused partition
 delivers nothing. An event that does not apply changes nothing.
 */
module Fetcher {
  import opened Basics
  import opened Layouts
  import opened ConsumerBuffer
  import B = Backpressure
  import F = FlowControl

  datatype Task = PauseTask | ResumeTask

  datatype Event =
    | Arrives(t: F.Tp, m: ConsumerMessage)
    | Drains(max: nat)
    | RunTask(i: nat, ok: bool)
    | UserPause(ps: set<F.Tp>)
    | UserResume(ps: set<F.Tp>)

  /** `last` is the last task that succeeded; `overridden` is what the user resumed since it paused. */
  datatype State = State(sub: Sub, flow: F.Flow, pending: seq<Task>, last: Option<Task>, overridden: set<F.Tp>)

  function Init(assignment: set<F.Tp>): State { State(FRESH, F.Flow(assignment, {}, {}), [], None, {}) }

  /** The flag flips at most once in a step, and each flip spawns its task. */
  function Spawned(s: Sub, t: Sub): seq<Task> {
    if s.paused == t.paused then [] else [if t.paused then PauseTask else ResumeTask]
  }

  function Step(cfg: Config, s: State, e: B.Whole): State {
    var t := B.Do(cfg, s.sub, e);
    s.(sub := t, pending := s.pending + Spawned(s.sub, t))
  }

  function Call(s: State, k: Task): State {
    match k
    case PauseTask => s.(flow := F.Do(s.flow, F.AutoPause), last := Some(k), overridden := {})
    case ResumeTask => s.(flow := F.Do(s.flow, F.AutoResume), last := Some(k))
  }

  function Do(cfg: Config, s: State, e: Event): State {
    match e
    case Arrives(t, m) =>
      if t in s.flow.assignment && t !in s.flow.fetcher then Step(cfg, s, B.WholePush(m)) else s
    case Drains(max) => Step(cfg, s, B.WholePoll(max))
    case RunTask(i, ok) =>
      if i >= |s.pending| then s
      else
        var s' := s.(pending := s.pending[..i] + s.pending[i + 1..]);
        if ok then Call(s', s.pending[i]) else s'
    case UserPause(ps) =>
      s.(flow := F.Do(s.flow, F.UserPause(ps)), overridden := s.overridden - F.Targets(s.flow, ps))
    case UserResume(ps) =>
      s.(flow := F.Do(s.flow, F.UserResume(ps)), overridden := s.overridden + F.Targets(s.flow, ps))
  }

  function Run(cfg: Config, s: State, es: seq<Event>): State {
    if es == [] then s else Do(cfg, Run(cfg, s, es[..|es| - 1]), es[|es| - 1])
  }

  // ------------------------------------------------------------ any order

  /** The fetcher is paused where a pause asks for it: all but what the user resumed, or only what the user paused. */
  predicate Shows(s: State, paused: bool) {
    forall t :: t in s.flow.assignment ==>
      (t in s.flow.fetcher <==> if paused then t !in s.overridden else t in s.flow.user)
  }

  predicate Follows(s: State) {
    s.flow.user <= s.flow.fetcher && s.flow.user !! s.overridden && Shows(s, s.last == Some(PauseTask))
  }

  lemma StepFollows(cfg: Config, s: State, e: Event)
    requires Follows(s)
    ensures Follows(Do(cfg, s, e)) && Do(cfg, s, e).flow.assignment == s.flow.assignment
  {
    hide B.Do;
  }

  /** Whatever runs when, and whatever fails, the fetcher shows what the last task that succeeded asked for. */
  lemma {:induction false} FetcherFollowsLastTask(cfg: Config, s: State, es: seq<Event>)
    requires Follows(s)
    ensures Follows(Run(cfg, s, es)) && Run(cfg, s, es).flow.assignment == s.flow.assignment
  {
    if es != [] {
      FetcherFollowsLastTask(cfg, s, es[..|es| - 1]);
      StepFollows(cfg, Run(cfg, s, es[..|es| - 1]), es[|es| - 1]);
      hide Do, Follows;
    }
  }

  /** So flag and fetcher agree exactly if that task is the one the flag last spawned. */
  lemma AgreesIff(s: State, t: F.Tp)
    requires Follows(s) && t in s.flow.assignment && t !in s.flow.user && t !in s.overridden
    ensures Shows(s, s.sub.paused) <==> (s.last == Some(PauseTask) <==> s.sub.paused)
  {
  }

  // ----------------------------------------------------------- spawn order

  /** Tasks run in the order they were spawned, and succeed. */
  predicate InSpawnOrder(es: seq<Event>) {
    forall i :: 0 <= i < |es| && es[i].RunTask? ==> es[i].i == 0 && es[i].ok
  }

  /** The youngest task asks for what the flag says; with none pending, the last one did. */
  predicate Queued(s: State) {
    if s.pending == [] then s.last == Some(PauseTask) <==> s.sub.paused
    else s.pending[|s.pending| - 1] == PauseTask <==> s.sub.paused
  }

  lemma StepQueued(cfg: Config, s: State, e: Event)
    requires Queued(s) && (e.RunTask? ==> e.i == 0 && e.ok)
    ensures Queued(Do(cfg, s, e))
  {
    hide B.Do, F.Do;
  }

  lemma {:induction false} AlwaysQueued(cfg: Config, assignment: set<F.Tp>, es: seq<Event>)
    requires InSpawnOrder(es)
    ensures Queued(Run(cfg, Init(assignment), es))
    decreases |es|
  {
    if es != [] {
      AlwaysQueued(cfg, assignment, es[..|es| - 1]);
      var s, e := Run(cfg, Init(assignment), es[..|es| - 1]), es[|es| - 1];
      assert e.RunTask? ==> e.i == 0 && e.ok;
      StepQueued(cfg, s, e);
      hide Do, Queued;
    }
  }

  /** In every run in spawn order, with no task pending, the fetcher shows what the flag says. */
  lemma FlagAndFetcherAgree(cfg: Config, assignment: set<F.Tp>, es: seq<Event>)
    requires InSpawnOrder(es) && Run(cfg, Init(assignment), es).pending == []
    ensures var s := Run(cfg, Init(assignment), es); Shows(s, s.sub.paused)
  {
    AlwaysQueued(cfg, assignment, es);
    FetcherFollowsLastTask(cfg, Init(assignment), es);
  }

  // -------------------------------------------------------- without either

  /** Everything assigned is paused, the flag is clear and no task is left: nothing automatic will resume it. */
  predicate Dead(s: State) {
    s.pending == [] && !s.sub.paused && s.flow.assignment <= s.flow.fetcher
  }

  /** Until the user resumes something, in every run no message arrives and nothing changes that. */
  lemma {:induction false} DeadForever(cfg: Config, s: State, es: seq<Event>)
    requires Dead(s) && forall i :: 0 <= i < |es| ==> !es[i].UserResume?
    ensures Dead(Run(cfg, s, es)) && Run(cfg, s, es).sub.received == s.sub.received
    decreases |es|
  {
    if es != [] {
      DeadForever(cfg, s, es[..|es| - 1]);
      var x, e := Run(cfg, s, es[..|es| - 1]), es[|es| - 1];
      assert !e.UserResume?;
    }
  }

  lemma Then(cfg: Config, s: State, es: seq<Event>, x: State, e: Event) returns (es': seq<Event>, z: State)
    requires x == Run(cfg, s, es)
    ensures es' == es + [e] && z == Do(cfg, x, e) == Run(cfg, s, es')
  {
    es', z := es + [e], Do(cfg, x, e);
    assert es'[..|es'| - 1] == es;
  }

  /** One message pauses, and polling it resumes: two tasks. */
  lemma OneMessage(t: F.Tp, m: ConsumerMessage) returns (cfg: Config, es: seq<Event>, s: State)
    ensures s == Run(cfg, Init({t}), es) && !s.sub.paused && s.pending == [PauseTask, ResumeTask]
    ensures s.flow == F.Flow({t}, {}, {}) && es == [Arrives(t, m), Drains(1)]
  {
    cfg := Config(10, 1, 0, 0, 0, 0);
    SingleBytes(m);
    es, s := [], Init({t});
    assert s == Run(cfg, Init({t}), es);
    hide Run, TotalBytes, MessageBytes;
    es, s := Then(cfg, Init({t}), es, s, Arrives(t, m));
    assert s.sub.buffer == [m] && s.sub.bytes == MessageBytes(m) && s.pending == [PauseTask];
    es, s := Then(cfg, Init({t}), es, s, Drains(1));
    assert [m][..1] == [m];
  }

  /** A resume that overtakes the pause before it kills the fetcher. */
  lemma SwappedTasksKillTheFetcher(t: F.Tp, m: ConsumerMessage) returns (cfg: Config, es: seq<Event>, s: State)
    ensures s == Run(cfg, Init({t}), es) && Dead(s)
    ensures forall i :: 0 <= i < |es| && es[i].RunTask? ==> es[i].ok
  {
    cfg, es, s := OneMessage(t, m);
    hide Run, Step, B.Do, MessageBytes, TotalBytes;
    es, s := Then(cfg, Init({t}), es, s, RunTask(1, true));
    assert s.pending == [PauseTask];
    es, s := Then(cfg, Init({t}), es, s, RunTask(0, true));
  }

  /** So does a resume that fails, in spawn order. */
  lemma FailedResumeKillsTheFetcher(t: F.Tp, m: ConsumerMessage) returns (cfg: Config, es: seq<Event>, s: State)
    ensures s == Run(cfg, Init({t}), es) && Dead(s)
    ensures forall i :: 0 <= i < |es| && es[i].RunTask? ==> es[i].i == 0
  {
    cfg, es, s := OneMessage(t, m);
    hide Run, Step, B.Do, MessageBytes, TotalBytes;
    es, s := Then(cfg, Init({t}), es, s, RunTask(0, true));
    assert s.pending == [ResumeTask];
    es, s := Then(cfg, Init({t}), es, s, RunTask(0, false));
  }
}
