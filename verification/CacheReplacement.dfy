/**
 Which replacements of a cell let one version be built twice. The source replaces the
 current cell of a cluster without looking at it again, so it may throw away a cell that
 holds, or will come to hold, the version that the replacing caller builds next.
 */
module CacheReplacement {
  import opened Basics
  import opened ProducerCache

  /** A caller in this place may fill cell `k` with version `v` or a later one. */
  predicate MayBuild(pc: Pc, k: nat, v: nat) {
    pc == Holding(k) || (pc.Building? && pc.k == k && (pc.read.None? || pc.read.value.version == v))
  }

  /** The current cell holds an older version than the registry, or is unbuilt and nobody will build it from there. */
  predicate Spent(w: World) {
    w.current.Some? && w.current.value < |w.cells| ==>
      var k := w.current.value;
      if w.cells[k].value.Some? then w.cells[k].value.value.version < |w.history|
      else forall c :: c in w.callers ==> !MayBuild(w.callers[c].pc, k, |w.history|)
  }

  /** Every replacement in the run throws away a spent cell. */
  ghost predicate OnlySpentReplaced(w: World, es: seq<Event>)
    decreases |es|
  {
    es == [] || (
      && Enabled(w, es[0])
      && (es[0].Replace? ==> Spent(w))
      && OnlySpentReplaced(Next(w, es[0]), es[1..]))
  }

  /** Built versions strictly increase from cell to cell, so none is built twice. */
  predicate Increasing(w: World) {
    forall i, j :: 0 <= i < j < |w.cells| && w.cells[i].value.Some? && w.cells[j].value.Some? ==>
      w.cells[i].value.value.version < w.cells[j].value.value.version
  }

  // --------------------------------------------------------------- invariant

  /** What a caller holds or has read belongs to the last cell, or is older than any later cell. */
  predicate InPlace(w: World, pc: Pc) {
    match pc
    case Holding(k) => k == |w.cells| - 1 || (k < |w.cells| && w.cells[k].value.Some?)
    case Building(k, read) =>
      && k < |w.cells| && w.cells[k].value.None?
      && (read.None? ==> k == |w.cells| - 1)
      && (read.Some? ==> forall j :: k < j < |w.cells| ==> read.value.version < w.cells[j].born)
    case _ => true
  }

  ghost predicate InLine(w: World) {
    && w.current == (if w.cells == [] then None else Some(|w.cells| - 1))
    && (forall i, j :: 0 <= i < j < |w.cells| && w.cells[i].value.Some? ==> w.cells[i].value.value.version < w.cells[j].born)
    && (forall c :: c in w.callers ==> InPlace(w, w.callers[c].pc))
    && (forall k :: 0 <= k < |w.cells| && w.cells[k].builder.Some? ==> BuiltBy(w, k, w.cells[k].builder.value))
  }

  predicate BuiltBy(w: World, k: nat, c: nat) {
    c in w.callers && w.callers[c].pc.Building? && w.callers[c].pc.k == k
  }

  lemma ReplaceInLine(w: World, c: nat)
    requires Inv(w) && InLine(w) && Enabled(w, Replace(c)) && Spent(w)
    ensures InLine(Next(w, Replace(c)))
  {
    var z := Next(w, Replace(c));
    assert z.cells == w.cells + [NewCell(w)];
    BornAfterReplace(w);
    forall d | d in z.callers
      ensures InPlace(z, z.callers[d].pc)
    {
      if d != c { PlaceAfterReplace(w, d); }
      hide Inv, Spent;
    }
    forall k | 0 <= k < |z.cells| && z.cells[k].builder.Some?
      ensures BuiltBy(z, k, z.cells[k].builder.value)
    {
      assert BuiltBy(w, k, w.cells[k].builder.value);
      hide Inv, Spent, InPlace;
    }
    hide Inv, Spent, InPlace, BuiltBy;
  }

  lemma BornAfterReplace(w: World)
    requires Inv(w) && InLine(w) && Spent(w)
    ensures var cells := w.cells + [NewCell(w)];
            forall i, j :: 0 <= i < j < |cells| && cells[i].value.Some? ==> cells[i].value.value.version < cells[j].born
  {
    hide InPlace, CallerOk;
    forall i | 0 <= i < |w.cells| && w.cells[i].value.Some?
      ensures w.cells[i].value.value.version < |w.history|
    {
      if i < |w.cells| - 1 { assert CellOk(w, w.cells[|w.cells| - 1]); }
    }
  }

  lemma PlaceAfterReplace(w: World, d: nat)
    requires Inv(w) && InLine(w) && Spent(w) && d in w.callers
    ensures InPlace(World(w.history, w.cells + [NewCell(w)], Some(|w.cells|), w.callers), w.callers[d].pc)
  {
    assert CallerOk(w, d, w.callers[d]) && InPlace(w, w.callers[d].pc);
    if w.callers[d].pc.Building? && w.callers[d].pc.k < |w.cells| - 1 { assert CellOk(w, w.cells[|w.cells| - 1]); }
    hide Inv;
  }

  /** Apart from a replacement, only a build changes what a cell holds, and only a first look makes a cell. */
  lemma CellsKept(w: World, e: Event)
    requires Inv(w) && InLine(w) && Enabled(w, e) && !e.Replace?
    ensures var z := Next(w, e);
            && z.current == (if z.cells == [] then None else Some(|z.cells| - 1))
            && |w.cells| <= |z.cells| && (w.cells != [] ==> |z.cells| == |w.cells|) && |z.cells| <= |w.cells| + 1
            && (|z.cells| > |w.cells| ==> z.cells[|w.cells|].value.None? && z.cells[|w.cells|].builder.None?)
            && forall k :: 0 <= k < |w.cells| ==>
                 && z.cells[k].born == w.cells[k].born
                 && (z.cells[k].value == w.cells[k].value || Filled(w, e, k, z.cells[k].value))
  {
    if !e.Overwrite? && !e.Call? { assert InPlace(w, w.callers[e.c].pc); }
    hide Inv, CallerOk, CellOk;
  }

  predicate Filled(w: World, e: Event, k: nat, value: Option<Entry>) {
    e.BuildDone? && e.c in w.callers && w.callers[e.c].pc.Building? && w.callers[e.c].pc.k == k
    && w.callers[e.c].pc.read == value && value.Some?
  }

  lemma CallersKept(w: World, e: Event, c: nat)
    requires Enabled(w, e) && !Moves(e, c) && c in Next(w, e).callers
    ensures c in w.callers && Next(w, e).callers[c] == w.callers[c]
  {
  }

  lemma MoverInPlace(w: World, e: Event)
    requires Inv(w) && InLine(w) && Enabled(w, e) && !e.Replace? && !e.Overwrite?
    ensures var z := Next(w, e); e.c in z.callers && InPlace(z, z.callers[e.c].pc)
  {
    if !e.Call? { assert CallerOk(w, e.c, w.callers[e.c]) && InPlace(w, w.callers[e.c].pc); }
    hide Inv;
  }

  lemma BuildersKept(w: World, e: Event, k: nat)
    requires Inv(w) && InLine(w) && Enabled(w, e) && !e.Replace? && k < |Next(w, e).cells| && Next(w, e).cells[k].builder.Some?
    ensures BuiltBy(Next(w, e), k, Next(w, e).cells[k].builder.value)
  {
    if !e.Overwrite? && !e.Call? { assert CallerOk(w, e.c, w.callers[e.c]); }
    if k < |w.cells| && w.cells[k].builder.Some? { assert BuiltBy(w, k, w.cells[k].builder.value); }
    hide Inv;
  }

  lemma OtherInLine(w: World, e: Event)
    requires Inv(w) && InLine(w) && Enabled(w, e) && !e.Replace?
    ensures InLine(Next(w, e))
  {
    var z := Next(w, e);
    CellsKept(w, e);
    hide Next, Enabled;
    forall c | c in z.callers
      ensures InPlace(z, z.callers[c].pc)
    {
      if Moves(e, c) { MoverInPlace(w, e); }
      else {
        CallersKept(w, e, c);
        assert CallerOk(w, c, w.callers[c]) && InPlace(w, w.callers[c].pc);
        OtherInPlace(w, e, c);
      }
    }
    forall k | 0 <= k < |z.cells| && z.cells[k].builder.Some?
      ensures BuiltBy(z, k, z.cells[k].builder.value)
    {
      BuildersKept(w, e, k);
    }
    BornAfter(w, e);
    hide InPlace, BuiltBy, Inv;
  }

  /** A caller that does not move keeps its place: nobody else fills the cell it is building. */
  lemma OtherInPlace(w: World, e: Event, c: nat)
    requires Inv(w) && InLine(w) && Enabled(w, e) && !e.Replace? && !Moves(e, c) && c in w.callers
    ensures InPlace(Next(w, e), w.callers[c].pc)
  {
    CellsKept(w, e);
    assert CallerOk(w, c, w.callers[c]) && InPlace(w, w.callers[c].pc);
    if e.BuildDone? { assert CallerOk(w, e.c, w.callers[e.c]); }
    hide Next, Inv;
  }

  lemma BornAfter(w: World, e: Event)
    requires Inv(w) && InLine(w) && Enabled(w, e) && !e.Replace?
    ensures var z := Next(w, e);
            forall i, j :: 0 <= i < j < |z.cells| && z.cells[i].value.Some? ==> z.cells[i].value.value.version < z.cells[j].born
  {
    CellsKept(w, e);
    if e.BuildDone? { assert InPlace(w, w.callers[e.c].pc); }
    hide Next, Inv;
  }

  lemma {:induction false} AlwaysInLine(w: World, es: seq<Event>, z: World)
    requires Inv(w) && InLine(w) && Reaches(w, es, z) && OnlySpentReplaced(w, es)
    ensures Inv(z) && InLine(z)
    decreases |es|
  {
    if es != [] {
      StepKeepsCells(w, es[0]);
      StepKeepsCallers(w, es[0]);
      if es[0].Replace? { ReplaceInLine(w, es[0].c); } else { OtherInLine(w, es[0]); }
      hide InLine, Next, Enabled, Spent;
      AlwaysInLine(Next(w, es[0]), es[1..], z);
    }
  }

  lemma LineIncreases(w: World)
    requires Inv(w) && InLine(w)
    ensures Increasing(w)
  {
    forall i, j | 0 <= i < j < |w.cells| && w.cells[i].value.Some? && w.cells[j].value.Some?
      ensures w.cells[i].value.value.version < w.cells[j].value.value.version
    {
      assert CellOk(w, w.cells[j]);
    }
  }

  /** In every run in which only spent cells are replaced, no version is built twice. */
  lemma NoVersionBuiltTwice(es: seq<Event>, z: World)
    requires Reaches(EMPTY, es, z) && OnlySpentReplaced(EMPTY, es)
    ensures Increasing(z)
  {
    AlwaysInLine(EMPTY, es, z);
    LineIncreases(z);
  }

  // ---------------------------------------------------------------- converse

  /** A run without a replacement. */
  ghost predicate Leads(w: World, es: seq<Event>, z: World) {
    Reaches(w, es, z) && forall i :: 0 <= i < |es| ==> !es[i].Replace?
  }

  lemma Stay(w: World)
    ensures Leads(w, [], w)
  {
  }

  lemma Then(w: World, es: seq<Event>, x: World, e: Event) returns (es': seq<Event>, z: World)
    requires Leads(w, es, x) && Enabled(x, e) && !e.Replace?
    ensures Leads(w, es', z) && z == Next(x, e)
  {
    hide Next, Enabled;
    es', z := es + [e], Next(x, e);
    One(x, e);
    Chain(w, es, x, [e], z);
  }

  lemma {:induction false} LeadsIsSpent(w: World, es: seq<Event>, z: World)
    requires Leads(w, es, z)
    ensures OnlySpentReplaced(w, es)
    decreases |es|
  {
    hide Next, Enabled;
    if es != [] { LeadsIsSpent(Next(w, es[0]), es[1..], z); }
  }

  /** Caller `c` is about to look at the empty cell `n`, and another cell `k` may get the registry's version first. */
  predicate Poised(w: World, c: nat, n: nat) {
    && c in w.callers && w.callers[c].pc == Ready && n < |w.cells| && w.current == Some(n)
    && w.cells[n].value.None? && w.cells[n].builder.None?
  }

  predicate Doubled(w: World, c: nat, n: nat, k: nat) {
    Poised(w, c, n) && k < n && w.history != [] && OfVersion(w.cells[k], |w.history|)
  }

  lemma FinishRead(w0: World, es0: seq<Event>, w: World, c: nat, n: nat, k: nat, d: nat) returns (es: seq<Event>, z: World)
    requires Leads(w0, es0, w) && Poised(w, c, n) && k < n && w.history != []
    requires d != c && d in w.callers && w.callers[d].pc.Building? && w.callers[d].pc.k == k
    requires w.callers[d].pc.read.Some? && w.callers[d].pc.read.value.version == |w.history|
    ensures Leads(w0, es, z) && Doubled(z, c, n, k)
  {
    hide Leads;
    es, z := Then(w0, es0, w, BuildDone(d));
  }

  lemma FinishBuild(w0: World, es0: seq<Event>, w: World, c: nat, n: nat, k: nat, d: nat) returns (es: seq<Event>, z: World)
    requires Leads(w0, es0, w) && Poised(w, c, n) && k < n
    requires d != c && d in w.callers && w.callers[d].pc == Building(k, None)
    ensures Leads(w0, es, z) && Doubled(z, c, n, k)
  {
    hide Leads;
    es, z := es0, w;
    if z.history == [] { es, z := Then(w0, es, z, Overwrite(map[])); }
    es, z := Then(w0, es, z, BuildRead(d));
    es, z := FinishRead(w0, es, z, c, n, k, d);
  }

  lemma FinishHolding(w0: World, es0: seq<Event>, w: World, c: nat, n: nat, k: nat, d: nat) returns (es: seq<Event>, z: World)
    requires Leads(w0, es0, w) && Poised(w, c, n) && k < n && w.cells[k].value.None?
    requires d != c && d in w.callers && w.callers[d].pc == Holding(k)
    requires w.cells[k].builder.Some? ==> w.cells[k].builder.value != c && BuiltBy(w, k, w.cells[k].builder.value)
    ensures Leads(w0, es, z) && Doubled(z, c, n, k)
  {
    hide Leads;
    es, z := es0, w;
    if z.cells[k].builder.Some? { es, z := Then(w0, es, z, BuildFail(z.cells[k].builder.value)); }
    es, z := Then(w0, es, z, Init(d));
    es, z := FinishBuild(w0, es, z, c, n, k, d);
  }

  /** The replacing caller builds its own cell: the version is there twice. */
  lemma BuildAgain(w0: World, es0: seq<Event>, w: World, c: nat, n: nat, k: nat) returns (es: seq<Event>, z: World)
    requires Leads(w0, es0, w) && Doubled(w, c, n, k)
    ensures Leads(w0, es, z) && !Increasing(z)
  {
    hide Leads;
    es, z := Then(w0, es0, w, GetCell(c));
    es, z := Then(w0, es, z, Init(c));
    es, z := Then(w0, es, z, BuildRead(c));
    es, z := Then(w0, es, z, BuildDone(c));
    assert OfVersion(z.cells[k], |z.history|) && OfVersion(z.cells[n], |z.history|);
  }

  /** From a replacement of a cell that is not spent, some run builds a version twice. */
  lemma RepeatAfter(w: World, c: nat) returns (es: seq<Event>, z: World)
    requires Inv(w) && InLine(w) && Enabled(w, Replace(c)) && !Spent(w)
    ensures Leads(Next(w, Replace(c)), es, z) && !Increasing(z)
  {
    var x, k, n := Next(w, Replace(c)), w.current.value, |w.cells|;
    Stay(x);
    hide Leads, Increasing;
    es, z := [], x;
    assert Poised(x, c, n) && x.cells[k] == w.cells[k];
    if w.cells[k].value.Some? {
      assert CellOk(w, w.cells[k]);
    } else {
      var d :| d in w.callers && MayBuild(w.callers[d].pc, k, |w.history|);
      assert CallerOk(w, d, w.callers[d]) && d != c && x.callers[d] == w.callers[d];
      if w.callers[d].pc == Holding(k) {
        if w.cells[k].builder.Some? { assert BuiltBy(w, k, w.cells[k].builder.value); }
        es, z := FinishHolding(x, es, x, c, n, k, d);
      } else if w.callers[d].pc.read.None? {
        es, z := FinishBuild(x, es, x, c, n, k, d);
      } else {
        es, z := FinishRead(x, es, x, c, n, k, d);
      }
    }
    es, z := BuildAgain(x, es, z, c, n, k);
  }

  /**
   Exactly the spent cells may be replaced: a replacement is followed by runs that never
   build a version twice, as long as they too replace only spent cells, if and only if
   the cell it throws away is spent.
   */
  lemma ReplaceSafeIff(es0: seq<Event>, w: World, c: nat)
    requires Reaches(EMPTY, es0, w) && OnlySpentReplaced(EMPTY, es0) && Enabled(w, Replace(c))
    ensures (forall es, z :: Reaches(Next(w, Replace(c)), es, z) && OnlySpentReplaced(Next(w, Replace(c)), es) ==> Increasing(z))
            <==> Spent(w)
  {
    assert Inv(EMPTY) && InLine(EMPTY);
    hide InLine, Next, Spent, Increasing;
    AlwaysInLine(EMPTY, es0, w);
    var x := Next(w, Replace(c));
    if Spent(w) {
      forall es, z | Reaches(x, es, z) && OnlySpentReplaced(x, es)
        ensures Increasing(z)
      {
        SafeAfter(w, c, es, z);
      }
    } else {
      var es, z := RepeatAfter(w, c);
      LeadsIsSpent(x, es, z);
    }
  }

  lemma SafeAfter(w: World, c: nat, es: seq<Event>, z: World)
    requires Inv(w) && InLine(w) && Enabled(w, Replace(c)) && Spent(w)
    requires Reaches(Next(w, Replace(c)), es, z) && OnlySpentReplaced(Next(w, Replace(c)), es)
    ensures Increasing(z)
  {
    hide InLine, Next, Spent, Increasing;
    StepKeepsCells(w, Replace(c));
    StepKeepsCallers(w, Replace(c));
    ReplaceInLine(w, c);
    AlwaysInLine(Next(w, Replace(c)), es, z);
    LineIncreases(z);
  }
}
