/**
 The lazily built producer of one cluster: a once-only cell in a shared map,
 checked against the version of the registry after it is obtained, and replaced
 when the config was overwritten in the meantime.

 Callers run concurrently with each other and with overwrites; every point where
 the source awaits or takes a lock is a step of its own. The registry is its
 history: version `v` is the `v`-th config registered, so versions never wrap.
 Building a client is taken as a function of the config that may also fail.
 */
module ProducerCache {
  import opened Basics

  type Config = map<string, string>

  /** A built client: the config it was made from, and the version recorded with it. */
  datatype Entry = Entry(config: Config, version: nat)

  /** A once-only cell: `born` is the registry version at its creation, `builds` counts completed builds. */
  datatype Cell = Cell(born: nat, value: Option<Entry>, builder: Option<nat>, builds: nat)

  datatype Pc =
    | Ready                                 // top of the loop
    | Holding(k: nat)                       // has the cell, wants its entry
    | Building(k: nat, read: Option<Entry>) // is initialising the cell, before or after reading the registry
    | Checking(e: Entry)                    // has the entry, is about to compare versions
    | Replacing                             // found it stale, is about to insert a new cell
    | Returned(e: Entry, current: Config)   // the entry, and the config current at its version check
    | Failed

  /** `floor` is the version seen at the last stale check, `start` the version when the call began. */
  datatype Caller = Caller(pc: Pc, loops: nat, floor: nat, start: nat)

  datatype World = World(history: seq<Config>, cells: seq<Cell>, current: Option<nat>, callers: map<nat, Caller>)

  datatype Event =
    | Overwrite(config: Config)
    | Call(c: nat)
    | GetCell(c: nat)
    | Init(c: nat)
    | BuildRead(c: nat)
    | BuildDone(c: nat)
    | BuildFail(c: nat)
    | Check(c: nat)
    | Replace(c: nat)

  const EMPTY := World([], [], None, map[])

  predicate At(w: World, c: nat, pc: Pc -> bool) { c in w.callers && pc(w.callers[c].pc) }

  predicate Enabled(w: World, e: Event) {
    match e
    case Overwrite(_) => true
    case Call(c) => c !in w.callers
    case GetCell(c) => At(w, c, (pc: Pc) => pc.Ready?) && (w.current.Some? ==> w.current.value < |w.cells|)
    case Init(c) =>
      && At(w, c, (pc: Pc) => pc.Holding?) && w.callers[c].pc.k < |w.cells|
      && var cell := w.cells[w.callers[c].pc.k]; cell.value.Some? || cell.builder.None?
    case BuildRead(c) => At(w, c, (pc: Pc) => pc.Building? && pc.read.None?) && w.callers[c].pc.k < |w.cells|
    case BuildDone(c) => At(w, c, (pc: Pc) => pc.Building? && pc.read.Some?) && w.callers[c].pc.k < |w.cells|
    case BuildFail(c) => At(w, c, (pc: Pc) => pc.Building?) && w.callers[c].pc.k < |w.cells|
    case Check(c) => At(w, c, (pc: Pc) => pc.Checking?) && w.history != []
    case Replace(c) => At(w, c, (pc: Pc) => pc.Replacing?)
  }

  /** Caller `s` gone on to `pc`. */
  function To(s: Caller, pc: Pc): Caller { Caller(pc, s.loops, s.floor, s.start) }

  /** A new cell knows the registry's version at its creation. */
  function NewCell(w: World): Cell { Cell(|w.history|, None, None, 0) }

  function Next(w: World, e: Event): World
    requires Enabled(w, e)
  {
    match e
    case Overwrite(config) => w.(history := w.history + [config])
    case Call(c) => w.(callers := w.callers[c := Caller(Ready, 1, 0, |w.history|)])
    case GetCell(c) =>
      if w.current.Some? then w.(callers := w.callers[c := To(w.callers[c], Holding(w.current.value))])
      else w.(callers := w.callers[c := To(w.callers[c], Holding(|w.cells|))],
              cells := w.cells + [NewCell(w)], current := Some(|w.cells|))
    case Init(c) =>
      var k := w.callers[c].pc.k;
      var cell := w.cells[k];
      if cell.value.Some? then w.(callers := w.callers[c := To(w.callers[c], Checking(cell.value.value))])
      else w.(callers := w.callers[c := To(w.callers[c], Building(k, None))],
              cells := w.cells[k := Cell(cell.born, cell.value, Some(c), cell.builds)])
    case BuildRead(c) =>
      var k := w.callers[c].pc.k;
      var cell := w.cells[k];
      if w.history == [] then w.(callers := w.callers[c := To(w.callers[c], Failed)],
                                 cells := w.cells[k := Cell(cell.born, cell.value, None, cell.builds)])
      else w.(callers := w.callers[c := To(w.callers[c], Building(k, Some(Entry(w.history[|w.history| - 1], |w.history|))))])
    case BuildDone(c) =>
      var k, e := w.callers[c].pc.k, w.callers[c].pc.read.value;
      var cell := w.cells[k];
      w.(callers := w.callers[c := To(w.callers[c], Checking(e))],
         cells := w.cells[k := Cell(cell.born, Some(e), None, cell.builds + 1)])
    case BuildFail(c) =>
      var k := w.callers[c].pc.k;
      var cell := w.cells[k];
      w.(callers := w.callers[c := To(w.callers[c], Failed)],
         cells := w.cells[k := Cell(cell.born, cell.value, None, cell.builds)])
    case Check(c) =>
      var s, e := w.callers[c], w.callers[c].pc.e;
      if e.version == |w.history| then w.(callers := w.callers[c := To(s, Returned(e, w.history[|w.history| - 1]))])
      else w.(callers := w.callers[c := Caller(Replacing, s.loops, |w.history|, s.start)])
    case Replace(c) =>
      var s := w.callers[c];
      w.(callers := w.callers[c := Caller(Ready, s.loops + 1, s.floor, s.start)],
         cells := w.cells + [NewCell(w)], current := Some(|w.cells|))
  }

  // -------------------------------------------------------------- invariant

  /** An entry is what the registry held at its version. */
  predicate Genuine(w: World, e: Entry) {
    1 <= e.version <= |w.history| && e.config == w.history[e.version - 1]
  }

  predicate CellOk(w: World, cell: Cell) {
    && cell.born <= |w.history|
    && cell.builds == (if cell.value.Some? then 1 else 0)
    && (cell.value.Some? ==> cell.builder.None? && Genuine(w, cell.value.value) && cell.born <= cell.value.value.version)
  }

  /** A caller past its first loop has seen one overwrite for each loop but the first two. */
  predicate CallerOk(w: World, c: nat, s: Caller) {
    && s.start <= |w.history| && s.floor <= |w.history| && 1 <= s.loops
    && (s.loops == 1 && !s.pc.Replacing? ==> s.floor == 0)
    && (s.loops > 1 || s.pc.Replacing? ==> s.loops + (if s.pc.Replacing? then 1 else 0) <= 2 + s.floor - s.start)
    && match s.pc
       case Ready => s.loops > 1 ==> w.current.Some? && w.current.value < |w.cells| && s.floor <= w.cells[w.current.value].born
       case Holding(k) => k < |w.cells| && s.floor <= w.cells[k].born
       case Building(k, read) =>
         && k < |w.cells| && s.floor <= w.cells[k].born && w.cells[k].builder == Some(c) && w.cells[k].value.None?
         && (read.Some? ==> Genuine(w, read.value) && w.cells[k].born <= read.value.version)
       case Checking(e) => Genuine(w, e) && s.floor <= e.version
       case Returned(e, current) => Genuine(w, e) && e.config == current
       case _ => true
  }

  ghost predicate Inv(w: World) {
    && (w.current.Some? ==> w.current.value < |w.cells|)
    && (forall k :: 0 <= k < |w.cells| ==> CellOk(w, w.cells[k]))
    && (forall c :: c in w.callers ==> CallerOk(w, c, w.callers[c]))
  }

  lemma StepKeepsCells(w: World, e: Event)
    requires Inv(w) && Enabled(w, e)
    ensures var z := Next(w, e);
            (z.current.Some? ==> z.current.value < |z.cells|) && forall k :: 0 <= k < |z.cells| ==> CellOk(z, z.cells[k])
  {
    if !e.Overwrite? && !e.Call? { assert CallerOk(w, e.c, w.callers[e.c]); }
  }

  predicate Moves(e: Event, c: nat) { !e.Overwrite? && e.c == c }

  /** What a step leaves for the callers it does not move. */
  ghost predicate Grown(w: World, z: World, c: nat) {
    && w.history <= z.history && |w.cells| <= |z.cells|
    && (forall k :: 0 <= k < |w.cells| ==> z.cells[k].born == w.cells[k].born)
    && (forall k :: 0 <= k < |w.cells| && w.cells[k].builder == Some(c) ==> z.cells[k] == w.cells[k])
    && (z.current == w.current
        || (z.current.Some? && z.current.value < |z.cells| && z.cells[z.current.value].born == |w.history|))
    && (c in w.callers ==> c in z.callers && z.callers[c] == w.callers[c])
  }

  lemma StepGrows(w: World, e: Event, c: nat)
    requires Inv(w) && Enabled(w, e) && !Moves(e, c)
    ensures Grown(w, Next(w, e), c)
  {
    if !e.Overwrite? && !e.Call? { assert CallerOk(w, e.c, w.callers[e.c]); }
  }

  lemma OthersKept(w: World, e: Event, c: nat)
    requires Inv(w) && Enabled(w, e) && c in w.callers && !Moves(e, c)
    ensures c in Next(w, e).callers && CallerOk(Next(w, e), c, w.callers[c]) && Next(w, e).callers[c] == w.callers[c]
  {
    hide Next, CellOk;
    StepGrows(w, e, c);
    assert CallerOk(w, c, w.callers[c]);
  }

  lemma MoverKept(w: World, e: Event)
    requires Inv(w) && Enabled(w, e) && !e.Overwrite?
    ensures CallerOk(Next(w, e), e.c, Next(w, e).callers[e.c])
  {
    if !e.Call? { assert CallerOk(w, e.c, w.callers[e.c]); }
    if e.Init? { assert CellOk(w, w.cells[w.callers[e.c].pc.k]); }
    if e.GetCell? && w.current.Some? { assert CellOk(w, w.cells[w.current.value]); }
    hide Inv;
  }

  lemma StepKeepsCallers(w: World, e: Event)
    requires Inv(w) && Enabled(w, e)
    ensures var z := Next(w, e); forall c :: c in z.callers ==> CallerOk(z, c, z.callers[c])
  {
    hide CallerOk, CellOk;
    var z := Next(w, e);
    forall c | c in z.callers
      ensures CallerOk(z, c, z.callers[c])
    {
      if Moves(e, c) { MoverKept(w, e); } else { OthersKept(w, e, c); }
    }
  }

  ghost predicate Reaches(w: World, es: seq<Event>, z: World)
    decreases |es|
  {
    if es == [] then z == w else Enabled(w, es[0]) && Reaches(Next(w, es[0]), es[1..], z)
  }

  lemma {:induction false} InvAlways(w: World, es: seq<Event>, z: World)
    requires Inv(w) && Reaches(w, es, z)
    ensures Inv(z)
    decreases |es|
  {
    if es != [] {
      StepKeepsCells(w, es[0]);
      StepKeepsCallers(w, es[0]);
      InvAlways(Next(w, es[0]), es[1..], z);
    }
  }

  /** In every run: what a call returns was built from exactly the config current at its version check,
      no cell is built twice, and a call loops at most twice plus once per overwrite made during it. */
  lemma CacheAgreesWithRegistry(es: seq<Event>, z: World)
    requires Reaches(EMPTY, es, z)
    ensures forall c :: c in z.callers && z.callers[c].pc.Returned? ==>
              var r := z.callers[c].pc;
              r.e.config == r.current && 1 <= r.e.version <= |z.history| && r.current == z.history[r.e.version - 1]
    ensures forall k :: 0 <= k < |z.cells| ==> z.cells[k].builds <= 1
    ensures forall c :: c in z.callers ==> z.callers[c].loops <= 2 + (|z.history| - z.callers[c].start)
  {
    InvAlways(EMPTY, es, z);
    forall c | c in z.callers
      ensures CallerOk(z, c, z.callers[c])
    {
    }
    forall k | 0 <= k < |z.cells|
      ensures CellOk(z, z.cells[k])
    {
    }
  }

  lemma {:induction false} Chain(w: World, es: seq<Event>, x: World, fs: seq<Event>, z: World)
    requires Reaches(w, es, x) && Reaches(x, fs, z)
    ensures Reaches(w, es + fs, z)
    decreases |es|
  {
    if es == [] {
      assert es + fs == fs;
    } else {
      Chain(Next(w, es[0]), es[1..], x, fs, z);
      assert (es + fs)[1..] == es[1..] + fs;
    }
  }

  lemma One(w: World, e: Event)
    requires Enabled(w, e)
    ensures Reaches(w, [e], Next(w, e))
  {
    assert Reaches(Next(w, e), [e][1..], Next(w, e));
  }

  /** A caller that found its entry stale puts in a cell of its own and builds it, whatever cell is there by then. */
  lemma Rebuild(w: World, c: nat) returns (es: seq<Event>, z: World)
    requires c in w.callers && w.callers[c].pc.Replacing? && w.history != []
    ensures Reaches(w, es, z) && z.history == w.history && |es| > 0 && es[..1] == [Replace(c)]
    ensures z.cells == w.cells + [Cell(|w.history|, Some(Entry(w.history[|w.history| - 1], |w.history|)), None, 1)]
    ensures z.current == Some(|w.cells|)
    ensures forall d :: d in w.callers && d != c ==> d in z.callers && z.callers[d] == w.callers[d]
  {
    Here(w);
    hide Reaches;
    es, z := Then(w, [], w, Replace(c));
    es, z := Then(w, es, z, GetCell(c));
    es, z := Then(w, es, z, Init(c));
    es, z := Then(w, es, z, BuildRead(c));
    es, z := Then(w, es, z, BuildDone(c));
  }

  lemma Here(w: World)
    ensures Reaches(w, [], w)
  {
  }

  /** The cell in use holds an entry of the registry's version: any call that looks would return it. */
  predicate Good(w: World) {
    w.current.Some? && w.current.value < |w.cells| && OfVersion(w.cells[w.current.value], |w.history|)
  }

  predicate OfVersion(cell: Cell, v: nat) { cell.value.Some? && cell.value.value.version == v }

  lemma Then(start: World, es: seq<Event>, w: World, e: Event) returns (es': seq<Event>, z: World)
    requires Reaches(start, es, w) && Enabled(w, e)
    ensures es' == es + [e] && z == Next(w, e) && Reaches(start, es', z)
  {
    hide Next, Enabled;
    es', z := es + [e], Next(w, e);
    One(w, e);
    Chain(start, es, w, [e], z);
  }

  /** Two callers get the same cell before it is built. */
  lemma TwoGetACell(p: Config) returns (es: seq<Event>, w: World)
    ensures Reaches(EMPTY, es, w) && w.history == [p] && w.cells == [Cell(1, None, None, 0)]
    ensures 0 in w.callers && 1 in w.callers && w.callers[0].pc == w.callers[1].pc == Holding(0)
  {
    es, w := [], EMPTY;
    assert Reaches(EMPTY, [], EMPTY);
    hide Reaches;
    es, w := Then(EMPTY, es, w, Overwrite(p));
    es, w := Then(EMPTY, es, w, Call(0));
    es, w := Then(EMPTY, es, w, Call(1));
    es, w := Then(EMPTY, es, w, GetCell(0));
    es, w := Then(EMPTY, es, w, GetCell(1));
  }

  lemma TwoShareACell(p: Config) returns (es: seq<Event>, w: World)
    ensures Reaches(EMPTY, es, w) && w.history == [p]
    ensures 0 in w.callers && w.callers[0].pc == Checking(Entry(p, 1))
    ensures 1 in w.callers && w.callers[1].pc == Holding(0)
    ensures |w.cells| == 1 && w.cells[0].value == Some(Entry(p, 1))
  {
    es, w := TwoGetACell(p);
    hide Reaches;
    es, w := Then(EMPTY, es, w, Init(0));
    es, w := Then(EMPTY, es, w, BuildRead(0));
    es, w := Then(EMPTY, es, w, BuildDone(0));
  }

  /** Both find it stale after an overwrite. */
  lemma BothFindItStale(p: Config, q: Config) returns (es: seq<Event>, w: World)
    ensures Reaches(EMPTY, es, w) && w.history == [p, q]
    ensures 0 in w.callers && w.callers[0].pc.Replacing? && 1 in w.callers && w.callers[1].pc.Replacing?
  {
    es, w := TwoShareACell(p);
    hide Reaches;
    es, w := Then(EMPTY, es, w, Init(1));
    es, w := Then(EMPTY, es, w, Overwrite(q));
    es, w := Then(EMPTY, es, w, Check(0));
    es, w := Then(EMPTY, es, w, Check(1));
  }

  /**
   Once-only holds per cell, not per version: of two callers that both saw a stale entry,
   the second replaces a cell that the first has just built for the current version.
   */
  lemma OneVersionBuiltTwice(p: Config, q: Config) returns (es: seq<Event>, x: World, fs: seq<Event>, z: World)
    ensures Reaches(EMPTY, es, x) && Good(x) && Enabled(x, Replace(1)) && !Good(Next(x, Replace(1)))
    ensures Reaches(x, fs, z) && |fs| > 0 && fs[..1] == [Replace(1)] && z.history == x.history == [p, q]
    ensures exists i, j :: 0 <= i < j < |z.cells| && z.cells[i].value == Some(Entry(q, 2)) == z.cells[j].value
  {
    var es0, w := BothFindItStale(p, q);
    var gs;
    gs, x := Rebuild(w, 0);
    fs, z := Rebuild(x, 1);
    Chain(EMPTY, es0, w, gs, x);
    es := es0 + gs;
    var n := |w.cells|;
    assert z.cells[n].value == Some(Entry(q, 2)) == z.cells[n + 1].value;
  }
}
