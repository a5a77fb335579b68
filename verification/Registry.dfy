/**
 The worker's registry of clusters, updated in place: configs with a wrapping version,
 and token slots that outlive an overwrite. It is what `SelfHealing` takes a worker to
 hold, and its versions are what `ProducerCache` reads off a history.
 */
module Registry {
  import opened Basics
  import S = SelfHealing

  const VERSIONS := 0x1_0000_0000_0000_0000

  type Config = map<string, string>

  datatype Entry = Entry(config: Config, token: Option<S.Token>, version: nat)

  class ClusterRegistry {
    var clusters: map<string, Entry>
    /** Every config registered under a name, oldest first. */
    ghost var history: map<string, seq<Config>>

    ghost predicate Valid()
      reads this
    {
      && history.Keys == clusters.Keys
      && forall c :: c in clusters ==> Matches(clusters[c], history[c])
    }

    /** The registry without its versions. */
    function Held(): S.Clusters
      reads this
    {
      map c | c in clusters :: S.Stored(clusters[c].config, clusters[c].token)
    }

    constructor ()
      ensures Valid() && Held() == map[]
    {
      clusters, history := map[], map[];
    }

    /** Overwriting keeps the token and moves the version on. */
    method Register(name: string, config: Config) returns (added: bool)
      requires Valid()
      modifies this
      ensures Valid() && added == (name !in old(clusters)) && name in clusters && clusters[name].config == config
      ensures history == old(history)[name := (if added then [] else old(history)[name]) + [config]]
      ensures Held() == old(Held())[name := S.Stored(config, if added then None else old(Held())[name].token)]
    {
      hide Matches;
      ghost var before := if name in history then history[name] else [];
      added := name !in clusters;
      if added {
        FirstVersion(config);
        clusters := clusters[name := Entry(config, None, 1)];
      } else {
        NextVersion(clusters[name], before, config);
        var entry := clusters[name];
        clusters := clusters[name := entry.(config := config, version := (entry.version + 1) % VERSIONS)];
      }
      history := history[name := before + [config]];
    }

    method GetWithVersion(name: string) returns (r: Option<(Config, nat)>)
      requires Valid()
      ensures r.None? <==> name !in history
      ensures r.Some? ==> history[name] != [] && r.value == (history[name][|history[name]| - 1], |history[name]| % VERSIONS)
    {
      r := if name in clusters then Some((clusters[name].config, clusters[name].version)) else None;
    }

    method SetOAuthToken(name: string, token: S.Token) returns (ok: bool)
      requires Valid()
      modifies this`clusters
      ensures Valid() && ok == (name in old(clusters))
      ensures Held() == if ok then old(Held())[name := old(Held())[name].(token := Some(token))] else old(Held())
    {
      ok := name in clusters;
      if ok { clusters := clusters[name := clusters[name].(token := Some(token))]; }
    }

    /** The two request handlers: exactly what the client's model of a worker accepts and does. */
    method Handle(r: S.Request) returns (ok: bool)
      requires Valid()
      modifies this
      ensures Valid() && ok == S.Accepts(old(Held()), r)
      ensures Held() == if ok then S.Handle(old(Held()), r) else old(Held())
      ensures r.Register? ==>
                && (ok <==> exists i :: 0 <= i < |r.config| && r.config[i].0 == "bootstrap.servers")
                && (ok ==> r.cluster in clusters && forall i, k :: 0 <= i && S.LastOf(r.config, i, k) ==>
                                                      k in clusters[r.cluster].config && clusters[r.cluster].config[k] == r.config[i].1)
    {
      hide Matches;
      match r {
        case Register(c, pairs) =>
          var config := Collect(pairs);
          ok := "bootstrap.servers" in config;
          if ok { var added := Register(c, config); }
        case SetToken(c, t) =>
          ok := SetOAuthToken(c, t);
        case Other =>
          ok := true;
      }
    }
  }

  predicate Matches(e: Entry, configs: seq<Config>) {
    configs != [] && e.config == configs[|configs| - 1] && e.version == |configs| % VERSIONS
  }

  lemma FirstVersion(config: Config)
    ensures Matches(Entry(config, None, 1), [] + [config])
  {
  }

  lemma NextVersion(e: Entry, configs: seq<Config>, config: Config)
    requires Matches(e, configs)
    ensures Matches(e.(config := config, version := (e.version + 1) % VERSIONS), configs + [config])
  {
  }

  /** Pairs put into a hash map one after the other. */
  method Collect(pairs: seq<(string, string)>) returns (config: Config)
    ensures config == S.AsMap(pairs)
    ensures forall k :: k in config <==> exists i :: 0 <= i < |pairs| && pairs[i].0 == k
    ensures forall i, k :: 0 <= i && S.LastOf(pairs, i, k) ==> k in config && config[k] == pairs[i].1
  {
    S.LaterPairsWin(pairs);
    config := map[];
    for i := 0 to |pairs|
      invariant config == S.AsMap(pairs[..i])
    {
      assert pairs[..i + 1][..i] == pairs[..i];
      config := config[pairs[i].0 := pairs[i].1];
    }
    assert pairs[..|pairs|] == pairs;
  }

  /** Two readers who see the same version see the same config, unless the counter went all the way round in between. */
  lemma VersionNamesConfig(earlier: seq<Config>, later: seq<Config>)
    requires earlier <= later && |earlier| % VERSIONS == |later| % VERSIONS
    ensures earlier == later || |later| >= |earlier| + VERSIONS
  {
  }
}
