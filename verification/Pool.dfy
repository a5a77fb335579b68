/**
 The connection pool as the program keeps it: a stack of idle streams and its
 counters, updated in place. `AcquireIsPops` ties its loop to the steps of the
 request protocol.
 */
module Pool {
  import opened Basics
  import opened PooledRpc

  /** How much of the stack is left under and including its topmost live stream; 0 if none is alive. */
  function UpToLive(idle: seq<nat>, alive: nat -> bool): (n: nat)
    ensures n <= |idle|
    ensures n > 0 ==> alive(idle[n - 1])
    ensures forall i :: n <= i < |idle| ==> !alive(idle[i])
  {
    if idle == [] then 0
    else if alive(idle[|idle| - 1]) then |idle|
    else UpToLive(idle[..|idle| - 1], alive)
  }

  class ConnectionPool {
    const maxIdle: nat
    var idle: seq<nat>
    var acquires: nat
    var hits: nat
    var misses: nat
    var closed: nat
    var poisoned: nat

    /** Every acquire was a hit or a miss, and the stack is bounded. */
    predicate Valid()
      reads this
    {
      |idle| <= maxIdle && acquires == hits + misses
    }

    constructor (maxIdle: nat)
      ensures Valid() && this.maxIdle == maxIdle && idle == [] && acquires == closed == poisoned == 0
    {
      this.maxIdle := maxIdle;
      idle, acquires, hits, misses, closed, poisoned := [], 0, 0, 0, 0, 0;
    }

    /** The topmost live stream, or else a new one if the dial and its handshake succeed. */
    method Acquire(alive: nat -> bool, dial: Option<nat>) returns (r: Option<nat>)
      requires Valid()
      modifies this
      ensures Valid() && acquires == old(acquires) + 1 && poisoned == old(poisoned)
      ensures var n := UpToLive(old(idle), alive);
              && closed == old(closed) + |old(idle)| - n
              && if n > 0
                 then r == Some(old(idle)[n - 1]) && idle == old(idle)[..n - 1] && hits == old(hits) + 1
                 else r == dial && idle == [] && misses == old(misses) + 1
    {
      acquires := acquires + 1;
      while idle != []
        invariant acquires == old(acquires) + 1 && hits == old(hits) && misses == old(misses) && poisoned == old(poisoned)
        invariant idle <= old(idle) && closed == old(closed) + |old(idle)| - |idle|
        invariant UpToLive(old(idle), alive) == UpToLive(idle, alive)
        decreases |idle|
      {
        var candidate := idle[|idle| - 1];
        idle := idle[..|idle| - 1];
        if alive(candidate) {
          hits := hits + 1;
          return Some(candidate);
        }
        closed := closed + 1;
      }
      misses := misses + 1;
      r := dial;
    }

    method Poison()
      requires Valid()
      modifies this`poisoned
      ensures Valid() && poisoned == old(poisoned) + 1
    {
      poisoned := poisoned + 1;
    }

    /** `Drop` of a pooled connection: put back unless it was poisoned or the stack is full. */
    method DropConn(stream: nat, wasPoisoned: bool)
      requires Valid()
      modifies this`idle
      ensures Valid()
      ensures idle == if !wasPoisoned && |old(idle)| < maxIdle then old(idle) + [stream] else old(idle)
    {
      if wasPoisoned { return; }
      if |idle| < maxIdle { idle := idle + [stream]; }
    }

    method ClearIdle()
      requires Valid()
      modifies this`idle
      ensures Valid() && idle == []
    {
      idle := [];
    }
  }

  function AliveIn(conns: seq<Conn>): nat -> bool { (c: nat) => c < |conns| && Alive(conns[c]) }

  /** `k` pops of caller `p`, as far as they apply. */
  function Pops(s: State, p: nat, maxIdle: nat, k: nat): State
    decreases k
  {
    if k == 0 then s else Pops(Do(s, Client(p, Pop), maxIdle), p, maxIdle, k - 1)
  }

  /** What `Acquire` leaves and returns is what the protocol's pops lead to, however many are tried. */
  lemma {:induction false} AcquireIsPops(s: State, p: nat, maxIdle: nat, k: nat)
    requires p < |s.callers| && s.callers[p].Acquiring? && |s.idle| <= k
    ensures var n := UpToLive(s.idle, AliveIn(s.conns));
            var (call, req) := (s.callers[p].call, s.callers[p].req);
            Pops(s, p, maxIdle, k) ==
            if n > 0
            then s.(idle := s.idle[..n - 1], callers := s.callers[p := Holding(call, req, s.idle[n - 1])])
            else s.(idle := [])
    decreases k
  {
    var alive := AliveIn(s.conns);
    if s.idle == [] {
      Stuck(s, p, maxIdle, k);
    } else {
      var next := Do(s, Client(p, Pop), maxIdle);
      var top, below := s.idle[|s.idle| - 1], s.idle[..|s.idle| - 1];
      PopStep(s, p, maxIdle);
      hide Do, AliveIn;
      if alive(top) {
        Stuck(next, p, maxIdle, k - 1);
      } else {
        AcquireIsPops(next, p, maxIdle, k - 1);
        var n := UpToLive(below, alive);
        assert UpToLive(s.idle, alive) == n && (n > 0 ==> below[..n - 1] == s.idle[..n - 1] && below[n - 1] == s.idle[n - 1]);
        hide UpToLive;
      }
    }
  }

  lemma PopStep(s: State, p: nat, maxIdle: nat)
    requires p < |s.callers| && s.callers[p].Acquiring? && s.idle != [] && (Has(s.callers[p]) ==> s.callers[p].conn < |s.conns|)
    ensures var top, below := s.idle[|s.idle| - 1], s.idle[..|s.idle| - 1];
            Do(s, Client(p, Pop), maxIdle) ==
            if AliveIn(s.conns)(top)
            then s.(idle := below, callers := s.callers[p := Holding(s.callers[p].call, s.callers[p].req, top)])
            else s.(idle := below)
  {
  }

  /** With nothing to pop, or a connection already in hand, popping changes nothing. */
  lemma {:induction false} Stuck(s: State, p: nat, maxIdle: nat, k: nat)
    requires p < |s.callers| && !(s.callers[p].Acquiring? && s.idle != [])
    ensures Pops(s, p, maxIdle, k) == s
  {
    if k > 0 { Stuck(s, p, maxIdle, k - 1); }
  }

  /** The worker has closed its end of `c`, or bytes are waiting on it. */
  predicate Unusable(c: Conn) { !c.open || c.toClient != [] }

  /**
   What an acquire hands out, told by the connections: one that the worker holds open and
   that has nothing to read, with every connection above it closed or with bytes waiting;
   the caller goes on without one, to dial, only if all of them were.
   */
  lemma AcquiredIsUsable(s: State, p: nat, maxIdle: nat, k: nat)
    requires p < |s.callers| && s.callers[p].Acquiring? && |s.idle| <= k
    requires forall i :: 0 <= i < |s.idle| ==> s.idle[i] < |s.conns|
    ensures var z := Pops(s, p, maxIdle, k);
            && z.conns == s.conns && |z.callers| == |s.callers|
            && (z.callers[p].Holding? || z.callers[p] == s.callers[p])
            && (z.callers[p].Holding? ==>
                  var n := |z.idle|;
                  && n < |s.idle| && z.idle == s.idle[..n] && z.callers[p].conn == s.idle[n]
                  && z.callers[p].req == s.callers[p].req && z.callers[p].call == s.callers[p].call
                  && s.conns[s.idle[n]].open && s.conns[s.idle[n]].toClient == []
                  && forall i :: n < i < |s.idle| ==> Unusable(s.conns[s.idle[i]]))
            && (!z.callers[p].Holding? ==> z.idle == [] && forall i :: 0 <= i < |s.idle| ==> Unusable(s.conns[s.idle[i]]))
  {
    AcquireIsPops(s, p, maxIdle, k);
    hide Pops;
    var n := UpToLive(s.idle, AliveIn(s.conns));
    forall i | n <= i < |s.idle|
      ensures Unusable(s.conns[s.idle[i]])
    {
      assert !AliveIn(s.conns)(s.idle[i]);
    }
  }
}
