/** Balancing a whole set of streams or consumers (balancer/balancer.go): looks
    every entity up, groups them by cluster and leader, computes each cluster's
    share, and balances cluster by cluster. */
module Rebalance {
  import opened Text
  import opened B = Balancer

  function Values(looked: seq<Option<Found>>): seq<Found> {
    if looked == [] then []
    else
      var last := looked[|looked| - 1];
      Values(looked[..|looked| - 1]) + if last.Some? then [last.value] else []
  }

  predicate DistinctEntities(fs: seq<Found>) {
    forall i, j :: 0 <= i < j < |fs| ==> fs[i].entity != fs[j].entity
  }

  /** How many entities each server of a cluster leads. */
  function LedCounts(fs: seq<Found>, c: string): (f: map<string, int>)
    ensures f.Keys == Named(fs, c)
  {
    map s | s in Named(fs, c) :: |Led(fs, c, s)|
  }

  /** How many it leads above a share. */
  function LedSurplus(fs: seq<Found>, c: string, share: int): (f: map<string, int>)
    ensures f.Keys == Named(fs, c)
  {
    map s | s in Named(fs, c) :: Pos(|Led(fs, c, s)| - share)
  }

  ghost function Surplus(fs: seq<Found>, c: string, share: int): int {
    Sum(LedSurplus(fs, c, share), Named(fs, c))
  }

  ghost function LedTotal(fs: seq<Found>, c: string): int {
    Sum(LedCounts(fs, c), Named(fs, c))
  }

  /** The share of each server of a cluster. */
  ghost predicate IsShare(fs: seq<Found>, c: string, share: int) {
    LedTotal(fs, c) >= 0 && FitsShare(LedTotal(fs, c), |Named(fs, c)|, share)
  }

  /** What balancing a cluster never does: ask an entity twice, ask anyone but its
      leader, or move more than the servers lead above the share, each or in all. */
  ghost predicate Careful(fs: seq<Found>, c: string, share: int, log: seq<Request>) {
    && AskedOnce(log)
    && (forall i :: 0 <= i < |log| ==> log[i].from in Named(fs, c) && log[i].entity in Led(fs, c, log[i].from))
    && (forall s :: s in Named(fs, c) ==> Successes(log, s) <= Pos(|Led(fs, c, s)| - share))
    && Moves(log) <= Surplus(fs, c, share)
  }

  /** The cluster ends even: the whole surplus moved, no server above the share. */
  ghost predicate Even(fs: seq<Found>, c: string, share: int, log: seq<Request>) {
    && Moves(log) == Surplus(fs, c, share)
    && forall s :: s in Named(fs, c) ==> |Led(fs, c, s)| - Successes(log, s) + Received(log, s) <= share
  }

  /** Steady answers that agree with what was found, every entity led by someone and
      replicated on every other server of its cluster. */
  ghost predicate FullyReplicated(world: World, fs: seq<Found>) {
    && world.Steady?
    && forall i :: 0 <= i < |fs| ==>
         && world.info(fs[i].entity) == ClusterInfo(fs[i].leader, fs[i].replicas)
         && forall s :: s in Named(fs, fs[i].cluster) && s != fs[i].leader ==> s in fs[i].replicas
  }

  /* ---------- One cluster ---------- */

  /** A cluster as it was grouped. */
  ghost predicate GroupedAs(fs: seq<Found>, c: string, servers: Servers) {
    servers.Keys == Named(fs, c) && forall s :: s in servers ==> servers[s] == Peer(Led(fs, c, s), 0)
  }

  lemma GroupedCluster(r: Clusters, fs: seq<Found>, c: string)
    requires GroupedBy(r, fs) && c in r
    ensures GroupedAs(fs, c, r[c])
  {
    assert ServersOf(r, c) == r[c];
    forall s | s in r[c] ensures r[c][s] == Peer(Led(fs, c, s), 0) {
      assert PeerOf(ServersOf(r, c), s) == r[c][s];
    }
  }

  lemma ShareOf(fs: seq<Found>, c: string, servers: Servers, share: int)
    requires GroupedAs(fs, c, servers) && EntityTotal(servers) >= 0 && share == Distribution(EntityTotal(servers), |servers|)
    ensures IsShare(fs, c, share)
  {
    hide Distribution; hide FitsShare;
    SumAlike(Counts(servers), LedCounts(fs, c), servers.Keys);
    assert |servers| == |servers.Keys|;
    DistributionFits(EntityTotal(servers), |servers|);
  }

  lemma ClusterDistinct(fs: seq<Found>, c: string, servers: Servers, share: int)
    requires GroupedAs(fs, c, servers) && DistinctEntities(fs)
    ensures AllDistinct(Recalculated(servers, share))
  {
    GroupedDistinct(fs, c, Recalculated(servers, share));
  }

  lemma ClusterCareful(fs: seq<Found>, c: string, servers: Servers, share: int, after: Servers, log: seq<Request>)
    requires GroupedAs(fs, c, servers) && Safe(Recalculated(servers, share), share, after, log)
    ensures Careful(fs, c, share, log)
  {
    hide Successes; hide AskedOnce; hide Moves; hide Surplus;
    var init := Recalculated(servers, share);
    ClusterWithin(fs, c, servers, share, after, log);
    forall i | 0 <= i < |log| ensures log[i].from in Named(fs, c) && log[i].entity in Led(fs, c, log[i].from) {
      assert log[i].from in init && log[i].entity in init[log[i].from].entities;
    }
    forall s | s in Named(fs, c) ensures Successes(log, s) <= Pos(|Led(fs, c, s)| - share) {
      assert s in after.Keys && s in after;
    }
  }

  lemma ClusterWithin(fs: seq<Found>, c: string, servers: Servers, share: int, after: Servers, log: seq<Request>)
    requires GroupedAs(fs, c, servers) && Safe(Recalculated(servers, share), share, after, log)
    ensures Moves(log) <= Surplus(fs, c, share)
  {
    hide Moves; hide Safe;
    var init := Recalculated(servers, share);
    MovesWithinSurplus(init, share, after, log);
    SumAlike(Surpluses(init), LedSurplus(fs, c, share), init.Keys);
  }

  lemma ClusterEven(fs: seq<Found>, c: string, servers: Servers, share: int, log: seq<Request>)
    requires GroupedAs(fs, c, servers) && Settled(Recalculated(servers, share), share, log)
    ensures Even(fs, c, share, log)
  {
    hide Successes; hide Received; hide Moves;
    var init := Recalculated(servers, share);
    SumAlike(Surpluses(init), LedSurplus(fs, c, share), init.Keys);
  }

  /** In a fully replicated world the share makes the cluster flow. */
  lemma ClusterFlows(world: World, fs: seq<Found>, c: string, servers: Servers, share: int)
    requires GroupedAs(fs, c, servers) && FullyReplicated(world, fs) && servers != map[]
    requires EntityTotal(servers) >= 0 && share == Distribution(EntityTotal(servers), |servers|)
    ensures Flows(world, Recalculated(servers, share), share)
  {
    hide Distribution; hide Flows;
    var init := Recalculated(servers, share);
    ClusterMatches(world, fs, c, servers, share);
    SumAlike(Counts(init), Counts(servers), servers.Keys);
    assert |init.Keys| == |init| && |servers.Keys| == |servers|;
    assert exists k :: k in servers;
    ShareFlows(world, init, share);
  }

  lemma ClusterMatches(world: World, fs: seq<Found>, c: string, servers: Servers, share: int)
    requires GroupedAs(fs, c, servers) && FullyReplicated(world, fs)
    ensures Matches(world, Recalculated(servers, share))
  {
    var init := Recalculated(servers, share);
    forall s, e | s in init && e in init[s].entities
      ensures world.info(e).leader == s && forall ns :: ns in init && ns != s ==> ns in world.info(e).replicas
    {
      LedFound(fs, c, s, e);
      var i :| 0 <= i < |fs| && fs[i].entity == e && fs[i].cluster == c && fs[i].leader == s;
    }
  }

  /* ---------- All clusters ---------- */

  ghost function MovesOf(logs: map<string, seq<Request>>): (f: map<string, int>)
    ensures f.Keys == logs.Keys
  {
    map c | c in logs :: Moves(logs[c])
  }

  ghost function SurplusOf(fs: seq<Found>, shares: map<string, int>): (f: map<string, int>)
    ensures f.Keys == shares.Keys
  {
    map c | c in shares :: Surplus(fs, c, shares[c])
  }

  ghost predicate Balanced(world: World, fs: seq<Found>, shares: map<string, int>, logs: map<string, seq<Request>>) {
    && logs.Keys <= shares.Keys
    && forall c :: c in logs ==>
         && IsShare(fs, c, shares[c]) && Careful(fs, c, shares[c], logs[c])
         && (FullyReplicated(world, fs) ==> Even(fs, c, shares[c], logs[c]))
  }

  lemma BalancedWithin(world: World, fs: seq<Found>, shares: map<string, int>, logs: map<string, seq<Request>>)
    requires Balanced(world, fs, shares, logs) && logs.Keys == shares.Keys
    ensures Sum(MovesOf(logs), logs.Keys) <= Sum(SurplusOf(fs, shares), shares.Keys)
  {
    hide Even; hide IsShare; hide FullyReplicated; hide Successes; hide Moves; hide AskedOnce; hide Surplus;
    SumAtMost(MovesOf(logs), SurplusOf(fs, shares), shares.Keys);
  }

  lemma OneMore(world: World, fs: seq<Found>, shares: map<string, int>, logs: map<string, seq<Request>>, c: string, log: seq<Request>)
    requires Balanced(world, fs, shares, logs) && c in shares && c !in logs
    requires IsShare(fs, c, shares[c]) && Careful(fs, c, shares[c], log) && (FullyReplicated(world, fs) ==> Even(fs, c, shares[c], log))
    ensures Balanced(world, fs, shares, logs[c := log])
  {
    hide Careful; hide Even; hide IsShare; hide FullyReplicated;
  }

  lemma OneMoreSum(logs: map<string, seq<Request>>, c: string, log: seq<Request>)
    requires c !in logs
    ensures Sum(MovesOf(logs[c := log]), logs[c := log].Keys) == Sum(MovesOf(logs), logs.Keys) + Moves(log)
  {
    hide Moves;
    var more := logs[c := log];
    SumTake(MovesOf(more), more.Keys, c);
    assert more.Keys - {c} == logs.Keys;
    SumAlike(MovesOf(more), MovesOf(logs), logs.Keys);
  }

  /** A cluster that was balanced. */
  lemma ClusterDone(world: World, fs: seq<Found>, c: string, servers: Servers, share: int, after: Servers, log: seq<Request>)
    requires GroupedAs(fs, c, servers) && Mentions(fs, c) && EntityTotal(servers) >= 0 && share == Distribution(EntityTotal(servers), |servers|)
    requires Safe(Recalculated(servers, share), share, after, log)
    requires Flows(world, Recalculated(servers, share), share) ==> Settled(Recalculated(servers, share), share, log)
    ensures IsShare(fs, c, share) && Careful(fs, c, share, log) && (FullyReplicated(world, fs) ==> Even(fs, c, share, log))
  {
    hide Safe; hide Flows; hide Settled; hide Careful; hide Even; hide IsShare; hide FullyReplicated; hide Distribution; hide Moves;
    ShareOf(fs, c, servers, share);
    ClusterCareful(fs, c, servers, share, after, log);
    if FullyReplicated(world, fs) {
      if servers != map[] {
        ClusterFlows(world, fs, c, servers, share);
      } else {
        NobodyEven(fs, c, servers, share, after, log);
      }
      if servers != map[] {
        ClusterEven(fs, c, servers, share, log);
      }
    }
  }

  lemma CarefulWithin(fs: seq<Found>, c: string, share: int, log: seq<Request>)
    requires Careful(fs, c, share, log)
    ensures Moves(log) <= Surplus(fs, c, share)
  {
  }

  /** A cluster without servers has nothing to move. */
  lemma NobodyEven(fs: seq<Found>, c: string, servers: Servers, share: int, after: Servers, log: seq<Request>)
    requires GroupedAs(fs, c, servers) && servers == map[] && Safe(Recalculated(servers, share), share, after, log)
    ensures Even(fs, c, share, log)
  {
    NobodyAsked(log, Recalculated(servers, share).Keys);
  }

  lemma NobodyAsked(log: seq<Request>, names: set<string>)
    requires forall i :: 0 <= i < |log| ==> log[i].from in names
    ensures names == {} ==> log == []
  {
    if log != [] {
      assert log[0].from in names;
    }
  }

  /** The first loop: looks every entity up and groups it. */
  method GroupLooked(looked: seq<Option<Found>>) returns (r: Option<Clusters>)
    ensures r.None? <==> exists i :: 0 <= i < |looked| && looked[i].None?
    ensures r.Some? ==> GroupedBy(r.value, Values(looked))
  {
    hide GroupedBy; hide Filed;
    var clusters: Clusters := map[];
    GroupNone();
    for i := 0 to |looked|
      invariant GroupedBy(clusters, Values(looked[..i])) && forall k :: 0 <= k < i ==> looked[k].Some?
    {
      ValuesNext(looked, i);
      if looked[i].None? {
        return None;
      }
      ghost var before := clusters;
      clusters := Group(looked[i].value, clusters);
      GroupStep(looked[i].value, before, clusters, Values(looked[..i]));
    }
    assert looked[..|looked|] == looked;
    return Some(clusters);
  }

  /** The second loop: each cluster's share and offsets. */
  method ShareAll(clusters: Clusters) returns (ready: map<string, (Servers, int)>)
    ensures ready.Keys == clusters.Keys
    ensures forall c :: c in ready ==> Prepared(clusters[c], ready[c])
  {
    hide EntityTotal; hide Distribution;
    ready := map[];
    var todo := clusters.Keys;
    while todo != {}
      invariant todo <= clusters.Keys && ready.Keys == clusters.Keys - todo
      invariant forall c :: c in ready ==> Prepared(clusters[c], ready[c])
      decreases |todo|
    {
      var c :| c in todo;
      var share := CalcClusterDistribution(clusters[c]);
      ready := ready[c := (Recalculated(clusters[c], share), share)];
      todo := todo - {c};
    }
  }

  /** One cluster of the third loop. */
  method BalanceCluster(world: World, servers: Servers, share: int, ghost fs: seq<Found>, ghost c: string, ghost led: Servers)
      returns (n: nat, ghost log: seq<Request>)
    requires GroupedAs(fs, c, led) && Mentions(fs, c) && Prepared(led, (servers, share)) && DistinctEntities(fs)
    ensures n == Moves(log) <= Surplus(fs, c, share)
    ensures IsShare(fs, c, share) && Careful(fs, c, share, log) && (FullyReplicated(world, fs) ==> Even(fs, c, share, log))
  {
    hide Safe; hide Flows; hide Settled; hide Careful; hide Even; hide IsShare; hide FullyReplicated; hide Distribution; hide Moves;
    hide GroupedAs; hide Mentions; hide AllDistinct; hide EntityTotal; hide TotalSurplus; hide Surplus;
    ClusterDistinct(fs, c, led, share);
    var b := new B.Balancer(world, servers);
    ghost var first;
    n, first := b.Balance(share);
    log := b.log;
    ClusterDone(world, fs, c, led, share, b.servers, log);
    CarefulWithin(fs, c, share, log);
  }

  ghost function SharesOf(ready: map<string, (Servers, int)>): (shares: map<string, int>)
    ensures shares.Keys == ready.Keys && forall c :: c in ready ==> shares[c] == ready[c].1
  {
    map c | c in ready :: ready[c].1
  }

  /** The third loop: balances cluster by cluster, in any order. */
  method BalanceEach(world: World, ready: map<string, (Servers, int)>, ghost clusters: Clusters, ghost fs: seq<Found>)
      returns (balanced: nat, ghost logs: map<string, seq<Request>>)
    requires GroupedBy(clusters, fs) && DistinctEntities(fs) && ready.Keys == clusters.Keys
    requires forall c :: c in ready ==> Prepared(clusters[c], ready[c])
    ensures Balanced(world, fs, SharesOf(ready), logs) && logs.Keys == ready.Keys
    ensures balanced == Sum(MovesOf(logs), logs.Keys)
  {
    hide GroupedBy; hide Mentions; hide DistinctEntities; hide GroupedAs; hide Careful; hide Even; hide IsShare; hide FullyReplicated;
    hide Moves; hide Prepared; hide SharesOf; hide Progress; hide Surplus;
    ghost var shares := SharesOf(ready);
    balanced, logs := 0, map[];
    var todo := ready.Keys;
    ProgressNone(world, fs, shares);
    while todo != {}
      invariant todo <= ready.Keys && Progress(world, fs, shares, logs, ready.Keys, todo, balanced)
      decreases |todo|
    {
      var c :| c in todo;
      GroupedCluster(clusters, fs, c);
      MentionsOf(clusters, fs, c);
      ghost var log;
      var n;
      n, log := BalanceCluster(world, ready[c].0, ready[c].1, fs, c, clusters[c]);
      ProgressStep(world, fs, shares, logs, todo, balanced, c, log);
      logs, balanced, todo := logs[c := log], balanced + n, todo - {c};
    }
    ProgressAll(world, fs, shares, logs, balanced);
  }

  /** The clusters outside `todo` are balanced. */
  ghost predicate Progress(world: World, fs: seq<Found>, shares: map<string, int>, logs: map<string, seq<Request>>,
                           all: set<string>, todo: set<string>, balanced: nat) {
    Balanced(world, fs, shares, logs) && balanced == Sum(MovesOf(logs), logs.Keys) && logs.Keys == all - todo && shares.Keys == all
  }

  lemma ProgressNone(world: World, fs: seq<Found>, shares: map<string, int>)
    ensures Progress(world, fs, shares, map[], shares.Keys, shares.Keys, 0)
  {
    BalancedNone(world, fs, shares);
    var none: map<string, seq<Request>> := map[];
    assert none.Keys == {};
  }

  lemma ProgressStep(world: World, fs: seq<Found>, shares: map<string, int>, logs: map<string, seq<Request>>, todo: set<string>, balanced: nat,
                     c: string, log: seq<Request>)
    requires Progress(world, fs, shares, logs, shares.Keys, todo, balanced) && c in todo && todo <= shares.Keys
    requires IsShare(fs, c, shares[c]) && Careful(fs, c, shares[c], log) && (FullyReplicated(world, fs) ==> Even(fs, c, shares[c], log))
    ensures Progress(world, fs, shares, logs[c := log], shares.Keys, todo - {c}, balanced + Moves(log))
  {
    hide Balanced; hide IsShare; hide Careful; hide Even; hide FullyReplicated; hide Moves; hide Sum; hide MovesOf;
    assert c !in logs.Keys;
    OneMore(world, fs, shares, logs, c, log);
    OneMoreSum(logs, c, log);
    DoneStep(shares.Keys, todo, c);
    assert logs[c := log].Keys == logs.Keys + {c};
  }

  lemma ProgressAll(world: World, fs: seq<Found>, shares: map<string, int>, logs: map<string, seq<Request>>, balanced: nat)
    requires Progress(world, fs, shares, logs, shares.Keys, {}, balanced)
    ensures Balanced(world, fs, shares, logs) && balanced == Sum(MovesOf(logs), logs.Keys) && logs.Keys == shares.Keys
  {
    hide Balanced;
    assert shares.Keys - {} == shares.Keys;
  }

  /** BalanceStreams and BalanceConsumers. An entity that cannot be looked up ends
      the whole call before anyone is asked anything; nothing else fails. */
  method BalanceAll(world: World, looked: seq<Option<Found>>)
      returns (r: Result<nat>, ghost shares: map<string, int>, ghost logs: map<string, seq<Request>>)
    requires DistinctEntities(Values(looked))
    ensures r.Err? <==> exists i :: 0 <= i < |looked| && looked[i].None?
    ensures r.Err? ==> logs == map[]
    ensures r.Ok? ==> Balanced(world, Values(looked), shares, logs) && (forall c :: c in logs <==> Mentions(Values(looked), c))
    ensures r.Ok? ==> r.value == Sum(MovesOf(logs), logs.Keys) <= Sum(SurplusOf(Values(looked), shares), shares.Keys)
  {
    hide GroupedBy; hide Balanced; hide Mentions; hide DistinctEntities; hide Prepared; hide MovesOf; hide SurplusOf; hide SharesOf; hide Sum;
    shares, logs := map[], map[];
    var grouped := GroupLooked(looked);
    if grouped.None? {
      return Err("no cluster info"), shares, logs;
    }
    var ready := ShareAll(grouped.value);
    shares := SharesOf(ready);
    var balanced;
    balanced, logs := BalanceEach(world, ready, grouped.value, Values(looked));
    BalancedWithin(world, Values(looked), shares, logs);
    forall c ensures c in logs <==> Mentions(Values(looked), c) {
      MentionsOf(grouped.value, Values(looked), c);
      assert c in logs <==> c in logs.Keys;
    }
    return Ok(balanced), shares, logs;
  }

  lemma DoneStep(all: set<string>, todo: set<string>, c: string)
    requires c in todo && todo <= all
    ensures all - (todo - {c}) == (all - todo) + {c} && c !in all - todo && todo - {c} <= all
  {
  }

  ghost predicate Prepared(servers: Servers, r: (Servers, int)) {
    EntityTotal(servers) >= 0 && r.1 == Distribution(EntityTotal(servers), |servers|) && r.0 == Recalculated(servers, r.1)
  }

  lemma ValuesNext(looked: seq<Option<Found>>, i: nat)
    requires i < |looked|
    ensures Values(looked[..i + 1]) == Values(looked[..i]) + if looked[i].Some? then [looked[i].value] else []
  {
    assert looked[..i + 1][..i] == looked[..i];
  }

  lemma MentionsOf(r: Clusters, fs: seq<Found>, c: string)
    requires GroupedBy(r, fs)
    ensures c in r <==> Mentions(fs, c)
  {
  }

  lemma BalancedNone(world: World, fs: seq<Found>, shares: map<string, int>)
    ensures Balanced(world, fs, shares, map[]) && Sum(MovesOf(map[]), {}) == 0
  {
  }

  /** Over all clusters together every entity is asked to step down at most once. */
  lemma AskedOnceInAll(world: World, fs: seq<Found>, shares: map<string, int>, logs: map<string, seq<Request>>, c: string, d: string, i: nat, j: nat)
    requires DistinctEntities(fs) && Balanced(world, fs, shares, logs)
    requires c in logs && d in logs && i < |logs[c]| && j < |logs[d]| && logs[c][i].entity == logs[d][j].entity
    ensures c == d && i == j
  {
    hide Even; hide IsShare; hide FullyReplicated; hide Successes;
    var a, b := logs[c][i], logs[d][j];
    LedFound(fs, c, a.from, a.entity);
    LedFound(fs, d, b.from, b.entity);
    var x :| 0 <= x < |fs| && fs[x].entity == a.entity && fs[x].cluster == c && fs[x].leader == a.from;
    var y :| 0 <= y < |fs| && fs[y].entity == b.entity && fs[y].cluster == d && fs[y].leader == b.from;
    assert x == y;
  }
}
