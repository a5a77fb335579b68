/**
 That calls to the producer cache end with an entry, and why they fail when they do.
 */
module CacheCompletes {
  import opened Basics
  import opened ProducerCache

  /** A call fails only by a build that fails, or that finds no config registered. */
  lemma FailsOnlyBy(w: World, e: Event, c: nat)
    requires Enabled(w, e) && c in Next(w, e).callers && Next(w, e).callers[c].pc.Failed?
    ensures || (c in w.callers && w.callers[c].pc.Failed?)
            || e == BuildFail(c)
            || (e == BuildRead(c) && w.history == [])
  {
  }

  /** In every run: if no build fails and a config was registered before the first read of a call, it does not fail. */
  lemma {:induction false} FailsOnlyIn(w: World, es: seq<Event>, z: World, c: nat)
    requires Reaches(w, es, z) && w.history != [] && (c in w.callers ==> !w.callers[c].pc.Failed?)
    requires forall i :: 0 <= i < |es| ==> es[i] != BuildFail(c)
    ensures c in z.callers ==> !z.callers[c].pc.Failed?
    decreases |es|
  {
    if es != [] {
      var x := Next(w, es[0]);
      if c in x.callers && x.callers[c].pc.Failed? { FailsOnlyBy(w, es[0], c); }
      HistoryGrows(w, es[0]);
      hide Next, Enabled;
      FailsOnlyIn(x, es[1..], z, c);
    }
  }

  lemma HistoryGrows(w: World, e: Event)
    requires Enabled(w, e)
    ensures w.history <= Next(w, e).history
  {
  }

  /** An entry that is current at its check is returned, with the config the registry then has; any other is replaced. */
  lemma CheckDecides(w: World, c: nat)
    requires Enabled(w, Check(c))
    ensures var pc := Next(w, Check(c)).callers[c].pc;
            && (w.callers[c].pc.e.version == |w.history| <==> pc == Returned(w.callers[c].pc.e, w.history[|w.history| - 1]))
            && (w.callers[c].pc.e.version != |w.history| <==> pc == Replacing)
  {
  }

  /** What a call returns it keeps. */
  lemma {:induction false} ReturnedForGood(w: World, es: seq<Event>, z: World, c: nat)
    requires Reaches(w, es, z) && c in w.callers && w.callers[c].pc.Returned?
    ensures c in z.callers && z.callers[c] == w.callers[c]
    decreases |es|
  {
    if es != [] { ReturnedForGood(Next(w, es[0]), es[1..], z, c); }
  }

  /** The entry of the registry's last config. */
  function Latest(w: World): Entry
    requires w.history != []
  {
    Entry(w.history[|w.history| - 1], |w.history|)
  }

  ghost predicate Alone(es: seq<Event>, c: nat) { forall i :: 0 <= i < |es| ==> !es[i].Overwrite? && es[i].c == c }

  lemma Goes(start: World, es: seq<Event>, w: World, e: Event, c: nat) returns (es': seq<Event>, z: World)
    requires Reaches(start, es, w) && Enabled(w, e) && Alone(es, c) && !e.Overwrite? && e.c == c
    ensures z == Next(w, e) && Reaches(start, es', z) && Alone(es', c)
  {
    hide Next, Enabled;
    es', z := Then(start, es, w, e);
  }

  /** From an unbuilt cell that nobody is building, the call builds it and returns its entry. */
  lemma BuildsAndReturns(start: World, es0: seq<Event>, w: World, c: nat, k: nat) returns (es: seq<Event>, z: World)
    requires Reaches(start, es0, w) && Alone(es0, c) && w.history != []
    requires c in w.callers && w.callers[c].pc == Holding(k) && k < |w.cells| && w.cells[k].value.None? && w.cells[k].builder.None?
    ensures Reaches(start, es, z) && Alone(es, c) && z.history == w.history
    ensures c in z.callers && z.callers[c].pc == Returned(Latest(w), w.history[|w.history| - 1])
  {
    hide Reaches, Alone;
    es, z := Goes(start, es0, w, Init(c), c);
    es, z := Goes(start, es, z, BuildRead(c), c);
    es, z := Goes(start, es, z, BuildDone(c), c);
    es, z := Goes(start, es, z, Check(c), c);
  }

  /** With its entry found old, it replaces the cell and builds. */
  lemma ReplacesAndReturns(start: World, es0: seq<Event>, w: World, c: nat) returns (es: seq<Event>, z: World)
    requires Reaches(start, es0, w) && Alone(es0, c) && w.history != []
    requires c in w.callers && w.callers[c].pc.Replacing?
    ensures Reaches(start, es, z) && Alone(es, c) && z.history == w.history
    ensures c in z.callers && z.callers[c].pc == Returned(Latest(w), w.history[|w.history| - 1])
  {
    hide Reaches, Alone;
    es, z := Goes(start, es0, w, Replace(c), c);
    es, z := Goes(start, es, z, GetCell(c), c);
    es, z := BuildsAndReturns(start, es, z, c, |w.cells|);
  }

  /** From a built cell, it returns the entry if that is current, and otherwise replaces the cell and builds. */
  lemma ChecksAndReturns(start: World, es0: seq<Event>, w: World, c: nat, k: nat) returns (es: seq<Event>, z: World)
    requires Reaches(start, es0, w) && Alone(es0, c) && w.history != []
    requires c in w.callers && w.callers[c].pc == Holding(k) && k < |w.cells| && w.cells[k].value.Some? && CellOk(w, w.cells[k])
    ensures Reaches(start, es, z) && Alone(es, c) && z.history == w.history
    ensures c in z.callers && z.callers[c].pc == Returned(Latest(w), w.history[|w.history| - 1])
  {
    hide Reaches, Alone;
    es, z := Goes(start, es0, w, Init(c), c);
    es, z := Goes(start, es, z, Check(c), c);
    if z.callers[c].pc.Replacing? {
      es, z := ReplacesAndReturns(start, es, z, c);
    }
  }

  /**
   From any state in which a config is registered and nobody is building the current cell,
   a call left to itself returns an entry made from the registry's last config.
   */
  lemma LoneCallReturns(w: World, c: nat) returns (es: seq<Event>, z: World)
    requires Inv(w) && w.history != [] && c in w.callers && w.callers[c].pc.Ready?
    requires w.current.Some? ==> w.cells[w.current.value].builder.None?
    ensures Reaches(w, es, z) && Alone(es, c) && z.history == w.history
    ensures c in z.callers && z.callers[c].pc == Returned(Latest(w), w.history[|w.history| - 1])
  {
    Here(w);
    StepKeepsCells(w, GetCell(c));
    StepKeepsCallers(w, GetCell(c));
    hide Reaches, CellOk, CallerOk;
    es, z := Goes(w, [], w, GetCell(c), c);
    var k := z.callers[c].pc.k;
    if z.cells[k].value.Some? {
      es, z := ChecksAndReturns(w, es, z, c, k);
    } else {
      es, z := BuildsAndReturns(w, es, z, c, k);
    }
  }
}
