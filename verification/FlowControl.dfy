/**
 Pausing by the user on top of automatic pausing. The fetcher's pause has no
 reference count, so automatic resume must leave out what the user paused.

 `Whole` takes each call or task as one step. `Event` splits a user call into its
 fetcher call and its record, and an automatic resume into its snapshot of the
 user's set and its fetcher call, which is where the source releases the lock.
 */
module FlowControl {

  type Tp = (string, int)

  datatype Flow = Flow(assignment: set<Tp>, fetcher: set<Tp>, user: set<Tp>)

  /** An empty list means the whole assignment. */
  function Targets(s: Flow, ps: set<Tp>): set<Tp> { if ps == {} then s.assignment else ps }

  datatype Whole = AutoPause | AutoResume | UserPause(ps: set<Tp>) | UserResume(ps: set<Tp>)

  function Do(s: Flow, e: Whole): Flow {
    match e
    case AutoPause => s.(fetcher := s.fetcher + s.assignment)
    case AutoResume => s.(fetcher := s.fetcher - (s.assignment - s.user))
    case UserPause(ps) => s.(fetcher := s.fetcher + Targets(s, ps), user := s.user + Targets(s, ps))
    case UserResume(ps) => s.(fetcher := s.fetcher - Targets(s, ps), user := s.user - Targets(s, ps))
  }

  function DoAll(s: Flow, es: seq<Whole>): Flow
    decreases |es|
  {
    if es == [] then s else DoAll(Do(s, es[0]), es[1..])
  }

  /** The user has paused `t` and not resumed it since: a property of the calls alone. */
  predicate UserWants(s: Flow, t: Tp, es: seq<Whole>)
    decreases |es|
  {
    if es == [] then t in s.user
    else match es[|es| - 1]
      case UserPause(ps) => t in Targets(s, ps) || UserWants(s, t, es[..|es| - 1])
      case UserResume(ps) => t !in Targets(s, ps) && UserWants(s, t, es[..|es| - 1])
      case _ => UserWants(s, t, es[..|es| - 1])
  }

  lemma {:induction false} DoAllLast(s: Flow, es: seq<Whole>)
    requires es != []
    ensures DoAll(s, es) == Do(DoAll(s, es[..|es| - 1]), es[|es| - 1])
    decreases |es|
  {
    if |es| > 1 {
      DoAllLast(Do(s, es[0]), es[1..]);
      assert es[1..][..|es| - 2] == es[..|es| - 1][1..];
    }
  }

  /** Whatever the automatic tasks do in between, a partition stays paused from the user's pause to the user's resume. */
  lemma {:induction false} UserPauseKept(s: Flow, es: seq<Whole>)
    requires s.user <= s.fetcher
    ensures var z := DoAll(s, es);
            && z.assignment == s.assignment && z.user <= z.fetcher
            && forall t :: t in z.user <==> UserWants(s, t, es)
    decreases |es|
  {
    if es != [] {
      DoAllLast(s, es);
      UserPauseKept(s, es[..|es| - 1]);
    }
  }

  // ------------------------------------------------------- the finer steps

  datatype System = System(flow: Flow, resuming: multiset<set<Tp>>, pausing: multiset<set<Tp>>, clearing: multiset<set<Tp>>)

  datatype Event =
    | PauseTask                    // auto-pause: one fetcher call
    | ResumeSnapshot               // auto-resume: assignment without the user's set, read under its lock
    | ResumeApply(ps: set<Tp>)     // auto-resume: the fetcher call on an earlier snapshot
    | PauseFetch(ps: set<Tp>)      // user pause: the fetcher call
    | PauseRecord(ps: set<Tp>)     // user pause: the record
    | ClearFetch(ps: set<Tp>)      // user resume: the fetcher call
    | ClearRecord(ps: set<Tp>)     // user resume: the record

  predicate Enabled(w: System, e: Event) {
    match e
    case ResumeApply(ps) => ps in w.resuming
    case PauseRecord(ps) => ps in w.pausing
    case ClearRecord(ps) => ps in w.clearing
    case _ => true
  }

  function Next(w: System, e: Event): System
    requires Enabled(w, e)
  {
    var s := w.flow;
    match e
    case PauseTask => w.(flow := s.(fetcher := s.fetcher + s.assignment))
    case ResumeSnapshot => w.(resuming := w.resuming + multiset{s.assignment - s.user})
    case ResumeApply(ps) => w.(flow := s.(fetcher := s.fetcher - ps), resuming := w.resuming - multiset{ps})
    case PauseFetch(ps) =>
      w.(flow := s.(fetcher := s.fetcher + Targets(s, ps)), pausing := w.pausing + multiset{Targets(s, ps)})
    case PauseRecord(ps) => w.(flow := s.(user := s.user + ps), pausing := w.pausing - multiset{ps})
    case ClearFetch(ps) =>
      w.(flow := s.(fetcher := s.fetcher - Targets(s, ps)), clearing := w.clearing + multiset{Targets(s, ps)})
    case ClearRecord(ps) => w.(flow := s.(user := s.user - ps), clearing := w.clearing - multiset{ps})
  }

  /** A resume call by the user that covers `t` is under way. */
  ghost predicate BeingCleared(w: System, t: Tp) {
    exists ps :: ps in w.clearing && t in ps
  }

  ghost predicate Kept(w: System) {
    forall t :: t in w.flow.user ==> t in w.flow.fetcher || BeingCleared(w, t)
  }

  /** What the next step takes from the fetcher, or records, against the user's wish. */
  ghost predicate Overrides(w: System, e: Event) {
    match e
    case ResumeApply(ps) => exists t :: t in ps && t in w.flow.user && !BeingCleared(w, t)
    case PauseRecord(ps) => exists t :: t in ps && t !in w.flow.fetcher && !BeingCleared(w, t)
    case _ => false
  }

  /** Exactly these steps lose a user pause: a resume whose snapshot has gone stale, and a record that comes after one. */
  lemma LostExactlyByStaleResume(w: System, e: Event)
    requires Kept(w) && Enabled(w, e)
    ensures Kept(Next(w, e)) <==> !Overrides(w, e)
  {
  }

  /** The race is real: the snapshot is taken between the two halves of a user pause, and applied after them. */
  lemma UserPauseCanBeLost(t: Tp) returns (es: seq<Event>, ws: seq<System>)
    ensures |ws| == |es| + 1 && ws[0] == System(Flow({t}, {}, {}), multiset{}, multiset{}, multiset{})
    ensures forall i :: 0 <= i < |es| ==> Enabled(ws[i], es[i]) && ws[i + 1] == Next(ws[i], es[i])
    ensures ws[|es|].flow == Flow({t}, {}, {t}) && ws[|es|].clearing == multiset{}
  {
    es := [PauseFetch({t}), ResumeSnapshot, PauseRecord({t}), ResumeApply({t})];
    var w0 := System(Flow({t}, {}, {}), multiset{}, multiset{}, multiset{});
    var w1 := Next(w0, es[0]);
    var w2 := Next(w1, es[1]);
    assert w2.resuming == multiset{{t}} by { assert {t} - {} == {t}; }
    var w3 := Next(w2, es[2]);
    var w4 := Next(w3, es[3]);
    ws := [w0, w1, w2, w3, w4];
  }

  // ------------------------------------------------------------------- runs

  ghost predicate Plays(w: System, es: seq<Event>, z: System)
    decreases |es|
  {
    if es == [] then z == w else Enabled(w, es[0]) && Plays(Next(w, es[0]), es[1..], z)
  }

  function Resting(s: Flow): System { System(s, multiset{}, multiset{}, multiset{}) }

  lemma PlaysTwo(w: System, e: Event, f: Event, z: System)
    requires Enabled(w, e) && Enabled(Next(w, e), f) && z == Next(Next(w, e), f)
    ensures Plays(w, [e, f], z)
  {
    PlaysOne(Next(w, e), f);
    assert [e, f][1..] == [f];
  }

  lemma PlaysOne(w: System, e: Event)
    requires Enabled(w, e)
    ensures Plays(w, [e], Next(w, e))
  {
    assert Plays(Next(w, e), [e][1..], Next(w, e));
  }

  /** A whole call or task is one or two of the finer steps. */
  lemma WholeStepsArePlays(s: Flow, e: Whole)
    ensures exists es :: Plays(Resting(s), es, Resting(Do(s, e)))
  {
    hide Plays, Targets;
    var w := Resting(s);
    match e
    case AutoPause =>
      PlaysOne(w, PauseTask);
      assert Next(w, PauseTask) == Resting(Do(s, e));
    case AutoResume =>
      var ps := s.assignment - s.user;
      Emptied(ps);
      PlaysTwo(w, ResumeSnapshot, ResumeApply(ps), Resting(Do(s, e)));
    case UserPause(ps) =>
      Emptied(Targets(s, ps));
      PlaysTwo(w, PauseFetch(ps), PauseRecord(Targets(s, ps)), Resting(Do(s, e)));
    case UserResume(ps) =>
      Emptied(Targets(s, ps));
      PlaysTwo(w, ClearFetch(ps), ClearRecord(Targets(s, ps)), Resting(Do(s, e)));
  }

  lemma Emptied(ps: set<Tp>)
    ensures multiset{} + multiset{ps} - multiset{ps} == multiset{}
  {
  }

  ghost predicate AlwaysKept(w: System, es: seq<Event>)
    decreases |es|
  {
    Kept(w) && (es == [] || (Enabled(w, es[0]) && AlwaysKept(Next(w, es[0]), es[1..])))
  }

  ghost predicate NeverOverridden(w: System, es: seq<Event>)
    decreases |es|
  {
    es == [] || (Enabled(w, es[0]) && !Overrides(w, es[0]) && NeverOverridden(Next(w, es[0]), es[1..]))
  }

  /** Over whole runs of the finer steps: user pauses are kept throughout exactly if no step overrides one. */
  lemma {:induction false} AlwaysKeptIff(w: System, es: seq<Event>, z: System)
    requires Kept(w) && Plays(w, es, z)
    ensures AlwaysKept(w, es) <==> NeverOverridden(w, es)
    decreases |es|
  {
    if es != [] {
      LostExactlyByStaleResume(w, es[0]);
      hide Kept, Overrides, Next;
      if Kept(Next(w, es[0])) { AlwaysKeptIff(Next(w, es[0]), es[1..], z); }
    }
  }

  /** No user pause is in progress together with an automatic resume or a user's own resume. */
  predicate Alone(w: System) {
    w.pausing != multiset{} ==> w.resuming == multiset{} && w.clearing == multiset{}
  }

  ghost predicate NeverOverlaps(w: System, es: seq<Event>)
    decreases |es|
  {
    Alone(w) && (es == [] || (Enabled(w, es[0]) && NeverOverlaps(Next(w, es[0]), es[1..])))
  }

  /** Pending snapshots hold nothing of the user's, and a pause to be recorded is in force. */
  ghost predicate Current(w: System) {
    && Kept(w)
    && (forall ps :: ps in w.resuming ==> ps !! w.flow.user)
    && (forall ps :: ps in w.pausing ==> ps <= w.flow.fetcher)
  }

  lemma StepStaysCurrent(w: System, e: Event)
    requires Current(w) && Enabled(w, e) && Alone(w) && Alone(Next(w, e))
    ensures Current(Next(w, e))
  {
    LostExactlyByStaleResume(w, e);
    hide Kept;
    if e.PauseRecord? { assert Next(w, e).resuming == multiset{}; }
  }

  /** In every run in which no user pause overlaps an automatic resume or a user resume, what the user paused stays paused. */
  lemma {:induction false} KeptWithoutOverlap(w: System, es: seq<Event>, z: System)
    requires Current(w) && Plays(w, es, z) && NeverOverlaps(w, es)
    ensures Current(z)
    decreases |es|
  {
    if es != [] {
      StepStaysCurrent(w, es[0]);
      hide Current, Next;
      KeptWithoutOverlap(Next(w, es[0]), es[1..], z);
    }
  }

  // ------------------------------------------------------------- the object

  class FlowState {
    var assignment: set<Tp>
    var fetcher: set<Tp>
    var userPaused: set<Tp>

    ghost function View(): Flow
      reads this
    {
      Flow(assignment, fetcher, userPaused)
    }

    /** Reading the assignment, if it is needed, or the fetcher call may fail; then nothing is recorded. */
    method FlowCall(partitions: seq<Tp>, pause: bool, assignmentRead: bool, fetcherCalled: bool) returns (ok: bool)
      modifies this
      ensures ok <==> (partitions != [] || assignmentRead) && fetcherCalled
      ensures var ps := set t | t in partitions;
              View() == if ok then Do(old(View()), if pause then UserPause(ps) else UserResume(ps)) else old(View())
      ensures var ts := if partitions == [] then old(assignment) else set t | t in partitions;
              && assignment == old(assignment)
              && fetcher == (if !ok then old(fetcher) else if pause then old(fetcher) + ts else old(fetcher) - ts)
              && userPaused == (if !ok then old(userPaused) else if pause then old(userPaused) + ts else old(userPaused) - ts)
    {
      ok := false;
      if partitions == [] && !assignmentRead { return; }
      var affected := if partitions == [] then assignment else set t | t in partitions;
      assert partitions != [] ==> partitions[0] in affected;
      if !fetcherCalled { return; }
      ok := true;
      if pause { fetcher := fetcher + affected; } else { fetcher := fetcher - affected; }
      Record(affected, pause);
    }

    /** The user's set after a call, partition by partition. */
    method Record(affected: set<Tp>, pause: bool)
      modifies this`userPaused
      ensures userPaused == if pause then old(userPaused) + affected else old(userPaused) - affected
    {
      var todo := affected;
      while todo != {}
        invariant todo <= affected
        invariant userPaused == if pause then old(userPaused) + (affected - todo) else old(userPaused) - (affected - todo)
        decreases |todo|
      {
        var t :| t in todo;
        userPaused := if pause then userPaused + {t} else userPaused - {t};
        todo := todo - {t};
      }
    }

    method NotUserPaused() returns (tpl: set<Tp>)
      ensures tpl == assignment - userPaused
    {
      tpl := {};
      var todo := assignment;
      while todo != {}
        invariant todo <= assignment && tpl == (assignment - todo) - userPaused
        decreases |todo|
      {
        var t :| t in todo;
        if t !in userPaused { tpl := tpl + {t}; }
        todo := todo - {t};
      }
    }

    /** A failure is only logged: the fetcher then stays as it was. */
    method ResumeTask(assignmentRead: bool, fetcherCalled: bool)
      modifies this
      ensures View() == if assignmentRead && fetcherCalled then Do(old(View()), AutoResume) else old(View())
    {
      if !assignmentRead { return; }
      var tpl := NotUserPaused();
      if tpl == {} { return; }
      if fetcherCalled { fetcher := fetcher - tpl; }
    }
  }
}
