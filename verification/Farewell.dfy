/**
 What a process does for every worker it used when it exits: it forgets its
 subscriptions there, unsubscribes each of them over a connection of its own and says
 Goodbye. Any write may fail part way; nothing is retried.
 */
module Farewell {
  import opened Basics
  import opened Wire
  import opened Layouts
  import opened Frames
  import opened Lifetime

  // ------------------------------------------------------------------------
  // The stream of a farewell
  // ------------------------------------------------------------------------

  const HELLO_FRAME := Frames.Frame(HELLO, 0, [1])
  const GOODBYE_FRAME := Frames.Frame(GOODBYE, 0, [])

  function UnsubscribeFrame(id: u64): Frames.Frame {
    Widths();
    Frames.Frame(UNSUBSCRIBE, 0, BigEndian(8, id))
  }

  function Unsubscribes(ids: seq<u64>): (fs: seq<Frames.Frame>)
    ensures |fs| == |ids|
  {
    if ids == [] then [] else [UnsubscribeFrame(ids[0])] + Unsubscribes(ids[1..])
  }

  function FarewellFrames(ids: seq<u64>): seq<Frames.Frame> {
    [HELLO_FRAME] + Unsubscribes(ids) + [GOODBYE_FRAME]
  }

  lemma {:induction false} SendableConcat(xs: seq<Frames.Frame>, ys: seq<Frames.Frame>)
    requires AllSendable(xs) && AllSendable(ys)
    ensures AllSendable(xs + ys)
  {
    if xs == [] {
      assert xs + ys == ys;
    } else {
      SendableConcat(xs[1..], ys);
      assert (xs + ys)[1..] == xs[1..] + ys;
    }
  }

  lemma {:induction false} WriteConcat(xs: seq<Frames.Frame>, ys: seq<Frames.Frame>)
    requires AllSendable(xs) && AllSendable(ys) && AllSendable(xs + ys)
    ensures WriteFrames(xs + ys) == WriteFrames(xs) + WriteFrames(ys)
  {
    hide EncodeFrame, Sendable;
    if xs == [] {
      assert xs + ys == ys;
    } else {
      assert (xs + ys)[0] == xs[0] && (xs + ys)[1..] == xs[1..] + ys;
      WriteConcat(xs[1..], ys);
    }
  }

  lemma {:induction false} UnsubscribesSendable(ids: seq<u64>)
    ensures AllSendable(Unsubscribes(ids))
  {
    if ids != [] {
      UnsubscribesSendable(ids[1..]);
      assert Unsubscribes(ids)[1..] == Unsubscribes(ids[1..]);
    }
  }

  lemma OpeningSendable(ids: seq<u64>)
    ensures AllSendable([HELLO_FRAME] + Unsubscribes(ids))
  {
  }

  lemma FarewellSendable(ids: seq<u64>)
    ensures AllSendable(FarewellFrames(ids))
  {
    OpeningSendable(ids);
    assert AllSendable([GOODBYE_FRAME]) by { assert [GOODBYE_FRAME][1..] == []; }
    SendableConcat([HELLO_FRAME] + Unsubscribes(ids), [GOODBYE_FRAME]);
  }

  function FarewellBytes(ids: seq<u64>): seq<byte> {
    FarewellSendable(ids);
    WriteFrames(FarewellFrames(ids))
  }

  // ------------------------------------------------------------------------
  // What the worker makes of it
  // ------------------------------------------------------------------------

  /** A frame as the lifetime model sees it, for the three types a farewell holds. */
  function MessageOf(f: Frames.Frame): Message {
    if f.kind == HELLO && f.payload != [] && f.payload[0] == 1 then Hello
    else if f.kind == UNSUBSCRIBE && |f.payload| >= 8 then Unsubscribe(FromBigEndian(f.payload[..8]))
    else if f.kind == GOODBYE then Goodbye
    else OtherRequest
  }

  /** The connection's handler, frame by frame. */
  function HandleAll(s: State, c: nat, fs: seq<Frames.Frame>): State
    decreases |fs|
  {
    if fs == [] then s else HandleAll(Handle(s, c, MessageOf(fs[0])), c, fs[1..])
  }

  function Without(subs: map<nat, nat>, ids: seq<u64>): map<nat, nat> {
    if ids == [] then subs else Without(subs - {ids[0]}, ids[1..])
  }

  lemma {:induction false} WithoutAll(subs: map<nat, nat>, ids: seq<u64>)
    ensures forall id :: id in Without(subs, ids) <==> id in subs && id !in ids
    ensures forall id :: id in Without(subs, ids) ==> Without(subs, ids)[id] == subs[id]
  {
    if ids != [] {
      WithoutAll(subs - {ids[0]}, ids[1..]);
      assert ids == [ids[0]] + ids[1..];
    }
  }

  lemma {:induction false} HandleUnsubscribes(s: State, c: nat, ids: seq<u64>, tail: seq<Frames.Frame>)
    requires c in s.live && c in s.greeted
    ensures HandleAll(s, c, Unsubscribes(ids) + tail) == HandleAll(s.(subs := Without(s.subs, ids)), c, tail)
    decreases |ids|
  {
    var fs := Unsubscribes(ids) + tail;
    if ids == [] {
      assert fs == tail;
    } else {
      var id := ids[0];
      Widths();
      FromBigEndianInverts(8, id);
      assert BigEndian(8, id)[..8] == BigEndian(8, id);
      assert MessageOf(fs[0]) == Unsubscribe(id);
      assert fs[1..] == Unsubscribes(ids[1..]) + tail;
      HandleUnsubscribes(s.(subs := s.subs - {id}), c, ids[1..], tail);
    }
  }

  lemma {:induction false} UnsubscribesPrefix(ids: seq<u64>, n: nat)
    requires n <= |ids|
    ensures Unsubscribes(ids)[..n] == Unsubscribes(ids[..n])
  {
    if n > 0 {
      UnsubscribesPrefix(ids[1..], n - 1);
      assert ids[..n][1..] == ids[1..][..n - 1];
    }
  }

  lemma LastFrame(s: State, c: nat)
    requires c in s.live && c in s.greeted
    ensures HandleAll(s, c, [GOODBYE_FRAME]) == s.(expedited := true)
  {
    assert [GOODBYE_FRAME][1..] == [];
    assert HandleAll(s, c, [GOODBYE_FRAME]) == HandleAll(Handle(s, c, Goodbye), c, []);
  }

  /** After the first `n` frames the handler has seen Hello and removed `n - 1` subscriptions, and Goodbye is the last. */
  lemma HandleFrames(s: State, c: nat, ids: seq<u64>, n: nat)
    requires c in s.live && c !in s.greeted && n <= |ids| + 2
    ensures var greeted := s.(greeted := s.greeted + {c});
            HandleAll(s, c, FarewellFrames(ids)[..n]) ==
            if n == 0 then s
            else if n < |ids| + 2 then greeted.(subs := Without(s.subs, ids[..n - 1]))
            else greeted.(subs := Without(s.subs, ids), expedited := true)
  {
    var fs, greeted := FarewellFrames(ids)[..n], s.(greeted := s.greeted + {c});
    hide Without, Unsubscribes, HandleAll, Handle, MessageOf;
    if n == 0 {
      NoFrame(s, c);
    } else if n < |ids| + 2 {
      UnsubscribesPrefix(ids, n - 1);
      assert fs == [HELLO_FRAME] + (Unsubscribes(ids[..n - 1]) + []);
      FirstFrame(s, c, Unsubscribes(ids[..n - 1]) + []);
      HandleUnsubscribes(greeted, c, ids[..n - 1], []);
      NoFrame(greeted.(subs := Without(s.subs, ids[..n - 1])), c);
    } else {
      assert fs == [HELLO_FRAME] + (Unsubscribes(ids) + [GOODBYE_FRAME]);
      FirstFrame(s, c, Unsubscribes(ids) + [GOODBYE_FRAME]);
      HandleUnsubscribes(greeted, c, ids, [GOODBYE_FRAME]);
      LastFrame(greeted.(subs := Without(s.subs, ids)), c);
    }
  }

  lemma NoFrame(s: State, c: nat)
    ensures HandleAll(s, c, []) == s
  {
  }

  lemma FirstFrame(s: State, c: nat, rest: seq<Frames.Frame>)
    requires c in s.live && c !in s.greeted
    ensures HandleAll(s, c, [HELLO_FRAME] + rest) == HandleAll(s.(greeted := s.greeted + {c}), c, rest)
  {
    assert ([HELLO_FRAME] + rest)[1..] == rest;
    assert Handle(s, c, MessageOf(HELLO_FRAME)) == s.(greeted := s.greeted + {c});
  }

  /**
   However much of a farewell arrives, the worker has removed every one of its
   subscriptions before this client tells it to hurry, has removed no others, and is
   told to hurry exactly if all of it arrives, or somebody had said Goodbye before.
   */
  lemma GoodbyeComesLast(s: State, c: nat, ids: seq<u64>, k: nat)
    requires c in s.live && c !in s.greeted && k <= |FarewellBytes(ids)|
    ensures var z := HandleAll(s, c, ReadFrames(FarewellBytes(ids)[..k]));
            && (k == |FarewellBytes(ids)| || (z.expedited && !s.expedited) ==> forall id :: id in ids ==> id !in z.subs)
            && (forall id :: id in s.subs && id !in ids ==> id in z.subs && z.subs[id] == s.subs[id])
            && z.subs.Keys <= s.subs.Keys
            && (z.expedited <==> s.expedited || k == |FarewellBytes(ids)|)
            && z.(subs := s.subs, expedited := s.expedited, greeted := s.greeted) == s
  {
    FarewellSendable(ids);
    assert |FarewellFrames(ids)| == |ids| + 2;
    assert FarewellBytes(ids) == WriteFrames(FarewellFrames(ids));
    hide *;
    ReadFramesOfPrefix(FarewellFrames(ids), k);
    var n := |ReadFrames(FarewellBytes(ids)[..k])|;
    assert ReadFrames(FarewellBytes(ids)[..k]) == FarewellFrames(ids)[..n];
    AfterFrames(s, c, ids, n);
  }

  /** The same, by the number of frames that have arrived. */
  lemma AfterFrames(s: State, c: nat, ids: seq<u64>, n: nat)
    requires c in s.live && c !in s.greeted && n <= |FarewellFrames(ids)| == |ids| + 2
    ensures var z := HandleAll(s, c, FarewellFrames(ids)[..n]);
            && (n == |ids| + 2 || (z.expedited && !s.expedited) ==> forall id :: id in ids ==> id !in z.subs)
            && (forall id :: id in s.subs && id !in ids ==> id in z.subs && z.subs[id] == s.subs[id])
            && z.subs.Keys <= s.subs.Keys
            && (z.expedited <==> s.expedited || n == |ids| + 2)
            && z.(subs := s.subs, expedited := s.expedited, greeted := s.greeted) == s
  {
    hide *;
    HandleFrames(s, c, ids, n);
    WithoutAll(s.subs, ids);
    if 0 < n < |ids| + 2 {
      WithoutAll(s.subs, ids[..n - 1]);
      assert forall id :: id in ids[..n - 1] ==> id in ids;
    }
  }

  /** A worker whose last user takes a complete leave, with nothing of anybody else's, ends as soon as it looks. */
  lemma FarewellEndsTheWorker(idleMs: nat, s: State, c: nat, ids: seq<u64>)
    requires idleMs > 0 && s.live == {c} && c !in s.greeted && !s.draining
    requires forall id :: id in s.subs ==> id in ids || !Active(s, id, idleMs)
    ensures Do(idleMs, End(HandleAll(s, c, ReadFrames(FarewellBytes(ids))), c), Join).draining
  {
    var k := |FarewellBytes(ids)|;
    assert FarewellBytes(ids)[..k] == FarewellBytes(ids);
    GoodbyeComesLast(s, c, ids, k);
    var z := HandleAll(s, c, ReadFrames(FarewellBytes(ids)));
    hide HandleAll, ReadFrames, FarewellBytes;
    var ended := End(z, c);
    assert forall id :: id in ended.subs ==> id in s.subs && id !in ids && ended.subs[id] == s.subs[id];
    assert NoneActive(ended, idleMs) by {
      forall id | id in ended.subs
        ensures !Active(ended, id, idleMs)
      {
        assert !Active(s, id, idleMs);
      }
    }
    assert c in ended.finished;
    PartingJoins(idleMs, ended);
    hide Do;
  }

  // ------------------------------------------------------------------------
  // The process
  // ------------------------------------------------------------------------

  datatype Entry = Entry(socket: string, realId: u64)

  /** What a connection to a worker will bear: whether it opens, how many bytes it takes, whether Hello is answered. */
  datatype Link = Link(opens: bool, capacity: nat, greets: bool)

  function Upto(b: seq<byte>, n: nat): seq<byte> { if n < |b| then b[..n] else b }

  /** What reaches the worker of a farewell for `ids`. */
  function Delivered(link: Link, ids: seq<u64>): (sent: seq<byte>)
    ensures link.opens && link.greets && link.capacity >= |FarewellBytes(ids)| ==> sent == FarewellBytes(ids)
  {
    if !link.opens then []
    else if !link.greets then Upto(EncodeFrame(HELLO_FRAME).value, link.capacity)
    else Upto(FarewellBytes(ids), link.capacity)
  }

  /** The bytes written after `n` unsubscribes. */
  function SentSoFar(ids: seq<u64>, n: nat): seq<byte>
    requires n <= |ids|
  {
    OpeningSendable(ids[..n]);
    WriteFrames([HELLO_FRAME] + Unsubscribes(ids[..n]))
  }

  lemma SentNext(ids: seq<u64>, n: nat)
    requires n < |ids|
    ensures SentSoFar(ids, n + 1) == SentSoFar(ids, n) + EncodeFrame(UnsubscribeFrame(ids[n])).value
  {
    var f := UnsubscribeFrame(ids[n]);
    UnsubscribesPrefix(ids, n);
    UnsubscribesPrefix(ids, n + 1);
    UnsubscribesAt(ids, n);
    var before := [HELLO_FRAME] + Unsubscribes(ids[..n]);
    assert [HELLO_FRAME] + Unsubscribes(ids[..n + 1]) == before + [f];
    Single(f);
    OpeningSendable(ids[..n]);
    OpeningSendable(ids[..n + 1]);
    hide WriteFrames, EncodeFrame, AllSendable;
    WriteConcat(before, [f]);
  }

  lemma {:induction false} UnsubscribesAt(ids: seq<u64>, n: nat)
    requires n < |ids|
    ensures Unsubscribes(ids)[n] == UnsubscribeFrame(ids[n])
  {
    if n > 0 { UnsubscribesAt(ids[1..], n - 1); }
  }

  lemma Single(f: Frames.Frame)
    requires Sendable(f)
    ensures AllSendable([f]) && WriteFrames([f]) == EncodeFrame(f).value
  {
  }

  lemma SentStart(ids: seq<u64>)
    ensures SentSoFar(ids, 0) == EncodeFrame(HELLO_FRAME).value
  {
    assert [HELLO_FRAME] + Unsubscribes(ids[..0]) == [HELLO_FRAME];
    Single(HELLO_FRAME);
  }

  lemma SentAll(ids: seq<u64>)
    ensures FarewellBytes(ids) == SentSoFar(ids, |ids|) + EncodeFrame(GOODBYE_FRAME).value
  {
    assert ids[..|ids|] == ids;
    var before := [HELLO_FRAME] + Unsubscribes(ids);
    Single(GOODBYE_FRAME);
    OpeningSendable(ids);
    FarewellSendable(ids);
    hide WriteFrames, EncodeFrame, AllSendable;
    WriteConcat(before, [GOODBYE_FRAME]);
  }

  lemma {:induction false} SentIsPrefix(ids: seq<u64>, n: nat)
    requires n <= |ids|
    ensures SentSoFar(ids, n) <= FarewellBytes(ids)
    decreases |ids| - n
  {
    if n == |ids| {
      SentAll(ids);
    } else {
      SentNext(ids, n);
      SentIsPrefix(ids, n + 1);
    }
    hide SentSoFar, FarewellBytes, EncodeFrame;
  }

  /** A write that the link cuts short leaves what it bears of the whole farewell. */
  lemma CutShort(ids: seq<u64>, n: nat, capacity: nat)
    requires n <= |ids|
    ensures |SentSoFar(ids, n)| > capacity ==> Upto(SentSoFar(ids, n), capacity) == Upto(FarewellBytes(ids), capacity)
  {
    SentIsPrefix(ids, n);
    hide SentSoFar, FarewellBytes;
  }

  /** What is delivered is a prefix of Hello, one Unsubscribe for each id, Goodbye. */
  lemma DeliveredIsPrefix(link: Link, ids: seq<u64>)
    ensures Delivered(link, ids) <= FarewellBytes(ids)
  {
  }

  /** And it is as long as the link bears: nothing, up to Hello, or up to all of it. */
  lemma DeliveredLength(link: Link, ids: seq<u64>)
    ensures var whole := if !link.opens then 0 else if !link.greets then 14 else |FarewellBytes(ids)|;
            |Delivered(link, ids)| == if link.capacity < whole then link.capacity else whole
  {
    hide FarewellBytes;
  }

  function On(registry: map<nat, Entry>, socket: string): set<nat> {
    set v | v in registry && registry[v].socket == socket
  }

  function Elsewhere(registry: map<nat, Entry>, socket: string): map<nat, Entry> {
    map v | v in registry && registry[v].socket != socket :: registry[v]
  }

  /** `ids` are the real ids of the entries on `socket` and then those its drivers registered. */
  ghost predicate Leaving(registry: map<nat, Entry>, drivers: map<string, set<u64>>, socket: string, ids: seq<u64>) {
    exists vids: seq<nat>, tracked: seq<u64> ::
      && Lists(vids, On(registry, socket))
      && Lists(tracked, if socket in drivers then drivers[socket] else {})
      && |ids| == |vids| + |tracked|
      && (forall i :: 0 <= i < |vids| ==> vids[i] in registry && ids[i] == registry[vids[i]].realId)
      && ids[|vids|..] == tracked
  }

  /** Whatever is left of the process belongs to `sockets`. */
  predicate OnlyOn(registry: map<nat, Entry>, drivers: map<string, set<u64>>, idle: map<string, seq<nat>>, sockets: set<string>) {
    && (forall v :: v in registry ==> registry[v].socket in sockets)
    && drivers.Keys <= sockets
    && (forall s :: s in idle ==> s in sockets || idle[s] == [])
  }

  lemma ClearedOne(registry: map<nat, Entry>, drivers: map<string, set<u64>>, idle: map<string, seq<nat>>, sockets: set<string>, socket: string)
    requires OnlyOn(registry, drivers, idle, sockets)
    ensures OnlyOn(Elsewhere(registry, socket), drivers - {socket},
                   if socket in idle then idle[socket := []] else idle, sockets - {socket})
  {
  }

  lemma NothingLeft(registry: map<nat, Entry>, drivers: map<string, set<u64>>, idle: map<string, seq<nat>>)
    requires OnlyOn(registry, drivers, idle, {})
    ensures registry == map[] && drivers == map[] && forall s :: s in idle ==> idle[s] == []
  {
    assert registry.Keys == {};
  }

  class Process {
    var registry: map<nat, Entry>
    var drivers: map<string, set<u64>>
    var idle: map<string, seq<nat>>
    var ensured: set<string>

    /** A socket without tracked subscriptions has no key. */
    ghost predicate Valid()
      reads this
    {
      forall s :: s in drivers ==> drivers[s] != {}
    }

    method Track(socket: string, id: u64)
      requires Valid()
      modifies this`drivers
      ensures Valid()
      ensures drivers == old(drivers)[socket := (if socket in old(drivers) then old(drivers)[socket] else {}) + {id}]
    {
      if socket !in drivers { drivers := drivers[socket := {}]; }
      drivers := drivers[socket := drivers[socket] + {id}];
    }

    method Untrack(socket: string, id: u64)
      requires Valid()
      modifies this`drivers
      ensures Valid()
      ensures drivers.Keys <= old(drivers).Keys
      ensures forall s :: s in drivers && s != socket ==> drivers[s] == old(drivers)[s]
      ensures forall s :: s in old(drivers) && s != socket ==> s in drivers
      ensures (if socket in drivers then drivers[socket] else {}) ==
              (if socket in old(drivers) then old(drivers)[socket] else {}) - {id}
    {
      if socket in drivers {
        drivers := drivers[socket := drivers[socket] - {id}];
        if drivers[socket] == {} { drivers := drivers - {socket}; }
      }
    }

    method DrainDrivers(socket: string) returns (ids: seq<u64>)
      requires Valid()
      modifies this`drivers
      ensures Valid() && drivers == old(drivers) - {socket}
      ensures Lists(ids, if socket in old(drivers) then old(drivers)[socket] else {})
    {
      ids := [];
      if socket in drivers {
        var tracked := drivers[socket];
        drivers := drivers - {socket};
        var todo := tracked;
        while todo != {}
          invariant todo <= tracked && Lists(ids, tracked - todo)
          decreases |todo|
        {
          var id :| id in todo;
          ids, todo := ids + [id], todo - {id};
        }
        assert tracked - todo == tracked;
      }
    }

    method DrainRegistry(socket: string) returns (ids: seq<u64>, ghost vids: seq<nat>)
      modifies this`registry
      ensures registry == Elsewhere(old(registry), socket)
      ensures Lists(vids, On(old(registry), socket)) && |ids| == |vids|
      ensures forall i :: 0 <= i < |vids| ==> vids[i] in old(registry) && ids[i] == old(registry)[vids[i]].realId
    {
      var matching := On(registry, socket);
      var todo := matching;
      ids, vids := [], [];
      while todo != {}
        invariant todo <= matching && Lists(vids, matching - todo) && |ids| == |vids|
        invariant registry == old(registry) - (matching - todo)
        invariant forall i :: 0 <= i < |vids| ==> vids[i] in old(registry) && ids[i] == old(registry)[vids[i]].realId
        decreases |todo|
      {
        var vid :| vid in todo;
        ids, vids := ids + [registry[vid].realId], vids + [vid];
        registry, todo := registry - {vid}, todo - {vid};
      }
      assert matching - todo == matching;
    }

    /** `cleanup_socket`: nothing of the socket is left behind, and the link gets all it will bear of the farewell. */
    method CleanupSocket(socket: string, link: Link) returns (sent: seq<byte>, ids: seq<u64>)
      requires Valid()
      modifies this`registry, this`drivers, this`idle
      ensures Valid()
      ensures registry == Elsewhere(old(registry), socket) && drivers == old(drivers) - {socket}
      ensures idle == if socket in old(idle) then old(idle)[socket := []] else old(idle)
      ensures Leaving(old(registry), old(drivers), socket, ids)
      ensures sent == Delivered(link, ids)
    {
      if socket in idle { idle := idle[socket := []]; }
      ghost var vids;
      ids, vids := DrainRegistry(socket);
      var tracked := DrainDrivers(socket);
      ids := ids + tracked;
      assert Leaving(old(registry), old(drivers), socket, ids) by {
        assert ids[|vids|..] == tracked;
      }
      sent := SayFarewell(link, ids);
    }

    /** The connected part: Hello, its answer, one Unsubscribe for each id, Goodbye; the first failure ends it. */
    method SayFarewell(link: Link, ids: seq<u64>) returns (sent: seq<byte>)
      ensures sent == Delivered(link, ids)
    {
      sent := [];
      if !link.opens { return; }
      SentStart(ids);
      CutShort(ids, 0, link.capacity);
      SentAll(ids);
      hide SentSoFar, FarewellBytes, EncodeFrame, Unsubscribes, UnsubscribeFrame, Upto;
      var ok;
      sent, ok := WriteAll(sent, EncodeFrame(HELLO_FRAME).value, link.capacity);
      if !ok || !link.greets { return; }
      sent, ok := SendUnsubscribes(link.capacity, ids, sent);
      if !ok { return; }
      sent, ok := WriteAll(sent, EncodeFrame(GOODBYE_FRAME).value, link.capacity);
    }

    method SendUnsubscribes(capacity: nat, ids: seq<u64>, hello: seq<byte>) returns (sent: seq<byte>, ok: bool)
      requires hello == SentSoFar(ids, 0) && |hello| <= capacity
      ensures ok ==> sent == SentSoFar(ids, |ids|) && |sent| <= capacity
      ensures !ok ==> sent == Upto(FarewellBytes(ids), capacity)
    {
      hide SentSoFar, FarewellBytes, EncodeFrame, Unsubscribes, Upto;
      sent, ok := hello, true;
      for i := 0 to |ids|
        invariant ok && sent == SentSoFar(ids, i) && |sent| <= capacity
      {
        SentNext(ids, i);
        CutShort(ids, i + 1, capacity);
        sent, ok := WriteAll(sent, EncodeFrame(UnsubscribeFrame(ids[i])).value, capacity);
        if !ok { return; }
      }
    }

    method WriteAll(sent: seq<byte>, buf: seq<byte>, capacity: nat) returns (sent': seq<byte>, ok: bool)
      requires |sent| <= capacity
      ensures sent' == Upto(sent + buf, capacity) && (ok <==> |sent + buf| <= capacity) && (ok ==> sent' == sent + buf)
    {
      ok := |sent| + |buf| <= capacity;
      sent' := if ok then sent + buf else sent + buf[..capacity - |sent|];
    }

    /** Every socket this process has had to do with. */
    method CollectSockets() returns (sockets: set<string>)
      ensures OnlyOn(registry, drivers, idle, sockets)
      ensures sockets == idle.Keys + ensured + drivers.Keys + (set v | v in registry :: registry[v].socket)
    {
      sockets := idle.Keys;
      sockets := sockets + (set v | v in registry :: registry[v].socket);
      sockets := sockets + ensured;
      sockets := sockets + drivers.Keys;
    }

    /** The module's shutdown: afterwards the process holds no subscription and no idle connection anywhere. */
    method OnModuleShutdown(links: string -> Link)
      requires Valid()
      modifies this`registry, this`drivers, this`idle
      ensures registry == map[] && drivers == map[]
      ensures idle.Keys == old(idle).Keys && forall s :: s in idle ==> idle[s] == []
    {
      var todo := CollectSockets();
      hide *;
      while todo != {}
        invariant Valid() && idle.Keys == old(idle).Keys && OnlyOn(registry, drivers, idle, todo)
        decreases |todo|
      {
        var socket :| socket in todo;
        ClearedOne(registry, drivers, idle, todo, socket);
        var sent, ids := CleanupSocket(socket, links(socket));
        todo := todo - {socket};
      }
      NothingLeft(registry, drivers, idle);
    }
  }
}
