/** Leader balancing (balancer/balancer.go). Every map iteration order, random
    pick and remote answer is left open: the methods are proved for all of them. */
module Balancer {
  import opened Text

  /* ---------- Distribution ---------- */

  /** Go's int(math.Ceil(x)). */
  function Ceil(x: real): int {
    if x == x.Floor as real then x.Floor else x.Floor + 1
  }

  /** calcClusterDistribution over the exact quotient. */
  function Distribution(entities: nat, servers: nat): int {
    if servers == 0 then 0
    else
      var even := entities as real / servers as real;
      if even == even.Floor as real then even.Floor else Ceil(even + 0.5)
  }

  lemma Scale(n: real, a: real, d: real, scaled: real, product: real)
    requires n > 0.0 && a <= d < a + 1.5 && scaled == a * n && product == d * n
    ensures scaled <= product && product - scaled < 1.5 * n
  {
    var gap := d - a;
    assert product - scaled == gap * n;
    assert 0.0 <= gap && gap < 1.5;
    GapScaled(gap, n);
  }

  lemma GapScaled(gap: real, n: real)
    requires n > 0.0 && 0.0 <= gap < 1.5
    ensures 0.0 <= gap * n && gap * n < 1.5 * n
  {
  }

  lemma IntegerBound(total: int, entities: int, servers: int)
    requires entities as real <= total as real < entities as real + 1.5 * servers as real
    ensures entities <= total && 2 * (total - entities) < 3 * servers
  {
    assert 2.0 * total as real == (2 * total) as real;
    assert 2.0 * entities as real == (2 * entities) as real;
    assert 3.0 * servers as real == (3 * servers) as real;
  }

  lemma DistributionNear(entities: nat, servers: nat)
    requires servers > 0
    ensures var even := entities as real / servers as real;
            var d := Distribution(entities, servers);
            d >= 0 && even <= d as real < even + 1.5
  {
  }

  lemma ScaledBound(d: int, entities: int, servers: int, even: real)
    requires servers > 0 && even * servers as real == entities as real
    requires even <= d as real < even + 1.5
    ensures entities <= d * servers && 2 * (d * servers - entities) < 3 * servers
  {
    var n, dr := servers as real, d as real;
    var scaled, product := even * n, dr * n;
    Scale(n, even, dr, scaled, product);
    var total := d * servers;
    ProductAsReal(d, servers);
    assert product == total as real && scaled == entities as real;
    IntegerBound(total, entities, servers);
  }

  lemma ProductAsReal(d: int, n: int)
    ensures d as real * n as real == (d * n) as real
  {
  }

  /** What the share of `n` servers is worth: exactly the entities where the servers
      divide them, else between half an entity and one and a half per server too many.
      Only one number is. */
  predicate FitsShare(entities: int, n: int, share: int) {
    if n <= 0 then share == 0
    else if entities % n == 0 then share * n == entities
    else n <= 2 * (share * n - entities) < 3 * n
  }

  lemma {:induction false} AtLeastOnce(k: int, n: int)
    requires n > 0 && k > 0
    ensures k * n >= n
    decreases k
  {
    if k > 1 {
      AtLeastOnce(k - 1, n);
      Distribute(k, 1, n);
    }
  }

  lemma Gap(k: int, n: int)
    requires n > 0 && k != 0
    ensures k * n >= n || k * n <= -n
  {
    if k > 0 {
      AtLeastOnce(k, n);
    } else {
      AtLeastOnce(-k, n);
      Distribute(0, -k, n);
    }
  }

  lemma OneShareFits(entities: int, n: int, a: int, b: int)
    requires FitsShare(entities, n, a) && FitsShare(entities, n, b)
    ensures a == b
  {
    if n > 0 && a != b {
      Gap(a - b, n);
      Distribute(a, b, n);
      TooFar(entities, n, a, b, a * n, b * n);
    }
  }

  lemma Distribute(a: int, b: int, n: int)
    ensures (a - b) * n == a * n - b * n
  {
  }

  lemma TooFar(entities: int, n: int, a: int, b: int, x: int, y: int)
    requires n > 0 && x == a * n && y == b * n && FitsShare(entities, n, a) && FitsShare(entities, n, b)
    ensures -n < x - y < n
  {
  }

  lemma DivisionIsExact(entities: nat, servers: nat)
    requires servers > 0
    ensures var even := entities as real / servers as real;
            even == even.Floor as real <==> entities % servers == 0
  {
    var even, q := entities as real / servers as real, entities / servers;
    assert even * servers as real == entities as real;
    if entities % servers == 0 {
      assert q * servers == entities;
      ProductAsReal(q, servers);
      assert q as real * servers as real == even * servers as real;
      assert q as real == even;
    }
    if even == even.Floor as real {
      ProductAsReal(even.Floor, servers);
      assert even.Floor * servers == entities;
      ModOfProduct(even.Floor, servers);
    }
  }

  lemma ModOfProduct(d: int, n: int)
    requires n > 0
    ensures d * n % n == 0
  {
    var m := d * n;
    var k := d - m / n;
    assert m == n * (m / n) + m % n;
    Distribute(d, m / n, n);
    if k != 0 {
      Gap(k, n);
    }
  }

  lemma DistributionHigh(entities: nat, servers: nat)
    requires servers > 0 && entities % servers != 0
    ensures var even := entities as real / servers as real; even + 0.5 <= Distribution(entities, servers) as real
  {
    DivisionIsExact(entities, servers);
  }

  lemma DistributionExact(entities: nat, servers: nat)
    requires servers > 0 && entities % servers == 0
    ensures Distribution(entities, servers) * servers == entities
  {
    DivisionIsExact(entities, servers);
    var even, d := entities as real / servers as real, Distribution(entities, servers);
    assert even * servers as real == entities as real && d as real == even;
    ProductAsReal(d, servers);
  }

  lemma HighBound(d: int, entities: int, servers: int, even: real)
    requires servers > 0 && even * servers as real == entities as real && even + 0.5 <= d as real
    ensures servers <= 2 * (d * servers - entities)
  {
    ProductAsReal(d, servers);
    var gap, n := d as real - even, servers as real;
    assert gap * n == (d * servers) as real - entities as real;
    HalfScaled(gap, n);
    assert (2 * (d * servers - entities)) as real == 2.0 * ((d * servers) as real - entities as real);
  }

  lemma HalfScaled(gap: real, n: real)
    requires n > 0.0 && gap >= 0.5
    ensures 2.0 * (gap * n) >= n
  {
  }

  /** The distribution is the share: no other number fits. */
  lemma DistributionBound(entities: nat, servers: nat)
    requires servers > 0
    ensures var d := Distribution(entities, servers);
            && d >= 0 && d * servers >= entities && 2 * (d * servers - entities) < 3 * servers
            && (entities % servers == 0 ==> d * servers == entities)
            && (entities % servers != 0 ==> servers <= 2 * (d * servers - entities))
  {
    hide Distribution;
    DistributionNear(entities, servers);
    var even, d := entities as real / servers as real, Distribution(entities, servers);
    ScaledBound(d, entities, servers, even);
    if entities % servers == 0 {
      DistributionExact(entities, servers);
    } else {
      DistributionHigh(entities, servers);
      HighBound(d, entities, servers, even);
    }
  }

  lemma DistributionFits(entities: nat, servers: nat)
    ensures FitsShare(entities, servers, Distribution(entities, servers))
  {
    if servers > 0 {
      hide Distribution;
      DistributionBound(entities, servers);
    }
  }

  /* ---------- Sums over the peers ---------- */

  /** The sum of `f` over a set of names. */
  ghost function Sum(f: map<string, int>, names: set<string>): int
    requires names <= f.Keys
  {
    if names == {} then 0
    else
      var k :| k in names;
      f[k] + Sum(f, names - {k})
  }

  /** Any member may be taken out first. */
  lemma {:induction false} SumTake(f: map<string, int>, names: set<string>, k: string)
    requires names <= f.Keys && k in names
    ensures Sum(f, names) == f[k] + Sum(f, names - {k})
    decreases |names|
  {
    var x :| x in names && Sum(f, names) == f[x] + Sum(f, names - {x});
    if x != k {
      SumTake(f, names - {x}, k);
      SumTake(f, names - {k}, x);
      assert names - {x} - {k} == names - {k} - {x};
    }
  }

  lemma {:induction false} SumAlike(f: map<string, int>, g: map<string, int>, names: set<string>)
    requires names <= f.Keys && names <= g.Keys && forall k :: k in names ==> f[k] == g[k]
    ensures Sum(f, names) == Sum(g, names)
    decreases |names|
  {
    if names != {} {
      var k :| k in names;
      SumTake(f, names, k);
      SumTake(g, names, k);
      SumAlike(f, g, names - {k});
    }
  }

  lemma SumUpdate(f: map<string, int>, k: string, v: int)
    requires k in f
    ensures Sum(f[k := v], f[k := v].Keys) == Sum(f, f.Keys) - f[k] + v
  {
    var g := f[k := v];
    assert g.Keys == f.Keys;
    SumTake(f, f.Keys, k);
    SumTake(g, g.Keys, k);
    SumAlike(f, g, f.Keys - {k});
  }

  lemma {:induction false} SumBelow(f: map<string, int>, names: set<string>)
    requires names <= f.Keys && forall k :: k in names ==> f[k] <= 0
    ensures Sum(f, names) <= 0
    ensures Sum(f, names) == 0 ==> forall k :: k in names ==> f[k] == 0
    decreases |names|
  {
    if names != {} {
      var k :| k in names;
      SumTake(f, names, k);
      SumBelow(f, names - {k});
    }
  }

  /* ---------- Peers ---------- */

  type Entity = string

  /** A server, the entities it leads and how many it has above its share. */
  datatype Peer = Peer(entities: seq<Entity>, offset: int)

  type Servers = map<string, Peer>

  function Offsets(servers: Servers): (f: map<string, int>)
    ensures f.Keys == servers.Keys
  {
    map k | k in servers :: servers[k].offset
  }

  ghost function OffsetSum(servers: Servers): int {
    Sum(Offsets(servers), servers.Keys)
  }

  /** calcLeaderOffset */
  function Recalculated(servers: Servers, distribution: int): (r: Servers)
    ensures r.Keys == servers.Keys
    ensures forall k :: k in r ==> r[k] == Peer(servers[k].entities, |servers[k].entities| - distribution)
  {
    map k | k in servers :: Peer(servers[k].entities, |servers[k].entities| - distribution)
  }

  function Delete(s: seq<Entity>, i: nat): (r: seq<Entity>)
    requires i < |s|
    ensures |r| == |s| - 1
  {
    s[..i] + s[i + 1..]
  }

  /** What a remote peer list says of an entity. */
  datatype ClusterInfo = ClusterInfo(leader: string, replicas: seq<string>)

  /** One step-down request: the entity, the server asked to give it up, the
      preferred new leader, and whether it succeeded. */
  datatype Request = Request(entity: Entity, from: string, to: string, ok: bool)

  function Successes(log: seq<Request>, from: string): nat {
    if log == [] then 0
    else Successes(log[..|log| - 1], from) + if log[|log| - 1].ok && log[|log| - 1].from == from then 1 else 0
  }

  function Moves(log: seq<Request>): nat {
    if log == [] then 0 else Moves(log[..|log| - 1]) + if log[|log| - 1].ok then 1 else 0
  }

  /** No entity is listed twice, on one server or on two. */
  predicate AllDistinct(servers: Servers) {
    && (forall k, i, j :: k in servers && 0 <= i < j < |servers[k].entities| ==> servers[k].entities[i] != servers[k].entities[j])
    && (forall k, l :: k in servers && l in servers && k != l ==> forall e :: e in servers[k].entities ==> e !in servers[l].entities)
  }

  predicate Listed(servers: Servers, e: Entity) {
    exists k :: k in servers && e in servers[k].entities
  }

  function Received(log: seq<Request>, to: string): nat {
    if log == [] then 0
    else Received(log[..|log| - 1], to) + if log[|log| - 1].ok && log[|log| - 1].to == to then 1 else 0
  }

  function Pos(x: int): nat {
    if x > 0 then x else 0
  }

  function Surpluses(servers: Servers): (f: map<string, int>)
    ensures f.Keys == servers.Keys
  {
    map k | k in servers :: Pos(servers[k].offset)
  }

  /** How many leaders the servers have above their shares, in all. */
  ghost function TotalSurplus(servers: Servers): int {
    Sum(Surpluses(servers), servers.Keys)
  }

  /* ---------- What every run keeps ---------- */

  /** Lists since the start: `init` is the grouping, `log` every request made. */
  ghost predicate Lists(init: Servers, servers: Servers, log: seq<Request>) {
    && servers.Keys == init.Keys && AllDistinct(servers)
    && AskedOnce(log) && (forall i :: 0 <= i < |log| ==> !Listed(servers, log[i].entity))
    && (forall i :: 0 <= i < |log| ==> log[i].from in init && log[i].entity in init[log[i].from].entities)
    && (forall k, e :: k in servers && e in servers[k].entities ==> e in init[k].entities)
  }

  /** Offsets since the start: what a server gave up and still has above its share
      never exceeds what it started with above it. */
  ghost predicate Budget(init: Servers, distribution: int, servers: Servers, log: seq<Request>) {
    && servers.Keys == init.Keys
    && (forall k :: k in servers ==> servers[k].offset >= |servers[k].entities| - distribution)
    && (forall k :: k in servers ==> Successes(log, k) + Pos(servers[k].offset) <= Pos(init[k].offset))
  }

  ghost predicate Safe(init: Servers, distribution: int, servers: Servers, log: seq<Request>) {
    Lists(init, servers, log) && Budget(init, distribution, servers, log)
  }

  /** Each entity is asked to step down at most once. */
  predicate AskedOnce(log: seq<Request>) {
    forall i, j :: 0 <= i < j < |log| ==> log[i].entity != log[j].entity
  }

  /** What a move does: the donor loses the entity and one of its offset, the
      receiver gains one of offset only. */
  function Moved(servers: Servers, s: string, i: nat, ns: string): Servers
    requires s in servers && ns in servers && i < |servers[s].entities|
  {
    servers[ns := servers[ns].(offset := servers[ns].offset + 1)]
           [s := Peer(Delete(servers[s].entities, i), servers[s].offset - 1)]
  }

  function Removed(servers: Servers, s: string, i: nat): Servers
    requires s in servers && i < |servers[s].entities|
  {
    servers[s := servers[s].(entities := Delete(servers[s].entities, i))]
  }

  lemma DeleteMembers(es: seq<Entity>, i: nat)
    requires i < |es| && forall a, b :: 0 <= a < b < |es| ==> es[a] != es[b]
    ensures es[i] !in Delete(es, i) && (forall e :: e in Delete(es, i) ==> e in es)
    ensures forall a, b :: 0 <= a < b < |es| - 1 ==> Delete(es, i)[a] != Delete(es, i)[b]
  {
    var d := Delete(es, i);
    assert forall a :: 0 <= a < |d| ==> d[a] == es[if a < i then a else a + 1];
  }

  /** Dropping an entity from a list keeps the lists distinct and forgets it. */
  lemma RemovedDistinct(servers: Servers, s: string, i: nat)
    requires s in servers && i < |servers[s].entities| && AllDistinct(servers)
    ensures AllDistinct(Removed(servers, s, i)) && !Listed(Removed(servers, s, i), servers[s].entities[i])
    ensures forall e :: Listed(Removed(servers, s, i), e) ==> Listed(servers, e)
    ensures forall k, e :: k in servers && e in Removed(servers, s, i)[k].entities ==> e in servers[k].entities
  {
    var es := servers[s].entities;
    DeleteMembers(es, i);
    assert es[i] in es;
    var r := Removed(servers, s, i);
    forall e | Listed(r, e) ensures Listed(servers, e) {
      var k :| k in r && e in r[k].entities;
      assert e in servers[k].entities;
    }
  }

  lemma RemoveSafe(init: Servers, distribution: int, servers: Servers, log: seq<Request>, s: string, i: nat)
    requires Safe(init, distribution, servers, log) && s in servers && i < |servers[s].entities|
    ensures Safe(init, distribution, Removed(servers, s, i), log)
  {
    RemovedDistinct(servers, s, i);
  }

  lemma SuccessesSnoc(log: seq<Request>, r: Request, k: string)
    ensures Successes(log + [r], k) == Successes(log, k) + if r.ok && r.from == k then 1 else 0
    ensures Received(log + [r], k) == Received(log, k) + if r.ok && r.to == k then 1 else 0
    ensures Moves(log + [r]) == Moves(log) + if r.ok then 1 else 0
  {
    assert (log + [r])[..|log|] == log;
  }

  lemma LogSnoc(log: seq<Request>, r: Request)
    requires AskedOnce(log) && forall i :: 0 <= i < |log| ==> log[i].entity != r.entity
    ensures AskedOnce(log + [r])
  {
  }

  /** A request takes its entity off the list, whether it succeeds or not. */
  lemma RequestLists(init: Servers, servers: Servers, log: seq<Request>, s: string, i: nat, r: Request)
    requires Lists(init, servers, log) && s in servers && i < |servers[s].entities|
    requires r.entity == servers[s].entities[i] && r.from == s
    ensures Lists(init, Removed(servers, s, i), log + [r])
  {
    var e := servers[s].entities[i];
    assert e in servers[s].entities && Listed(servers, e);
    RemovedDistinct(servers, s, i);
    LogSnoc(log, r);
  }

  lemma FailSafe(init: Servers, distribution: int, servers: Servers, log: seq<Request>, s: string, i: nat, ns: string)
    requires Safe(init, distribution, servers, log) && s in servers && i < |servers[s].entities|
    ensures Safe(init, distribution, Removed(servers, s, i), log + [Request(servers[s].entities[i], s, ns, false)])
  {
    hide Lists;
    var r := Request(servers[s].entities[i], s, ns, false);
    SameKeys(init, servers, log);
    RequestLists(init, servers, log, s, i, r);
    forall k | k in servers ensures Successes(log + [r], k) == Successes(log, k) {
      SuccessesSnoc(log, r, k);
    }
  }

  lemma SameKeys(init: Servers, servers: Servers, log: seq<Request>)
    requires Lists(init, servers, log)
    ensures servers.Keys == init.Keys
  {
  }

  lemma MoveSafe(init: Servers, distribution: int, servers: Servers, log: seq<Request>, s: string, i: nat, ns: string)
    requires Safe(init, distribution, servers, log) && s in servers && i < |servers[s].entities|
    requires ns in servers && servers[s].offset > 0 && servers[ns].offset < 0
    ensures Safe(init, distribution, Moved(servers, s, i, ns), log + [Request(servers[s].entities[i], s, ns, true)])
  {
    hide Lists;
    var r := Request(servers[s].entities[i], s, ns, true);
    SameKeys(init, servers, log);
    RequestLists(init, servers, log, s, i, r);
    MovedLists(init, servers, log + [r], s, i, ns);
    forall k | k in servers ensures Successes(log + [r], k) == Successes(log, k) + if k == s then 1 else 0 {
      SuccessesSnoc(log, r, k);
    }
  }

  /** A move leaves the lists as a removal does. */
  lemma MovedLists(init: Servers, servers: Servers, log: seq<Request>, s: string, i: nat, ns: string)
    requires s in servers && ns in servers && i < |servers[s].entities| && Lists(init, Removed(servers, s, i), log)
    ensures Lists(init, Moved(servers, s, i, ns), log)
  {
    hide Delete;
    SameLists(Removed(servers, s, i), Moved(servers, s, i, ns));
  }

  lemma SameLists(a: Servers, b: Servers)
    requires a.Keys == b.Keys && AllDistinct(a) && forall k :: k in a ==> a[k].entities == b[k].entities
    ensures AllDistinct(b) && forall e :: Listed(b, e) ==> Listed(a, e)
  {
    forall e | Listed(b, e) ensures Listed(a, e) {
      var k :| k in b && e in b[k].entities;
      assert k in a && e in a[k].entities;
    }
  }

  lemma RecalculateSafe(init: Servers, distribution: int, servers: Servers, log: seq<Request>)
    requires Safe(init, distribution, servers, log)
    ensures Safe(init, distribution, Recalculated(servers, distribution), log)
  {
    SameLists(servers, Recalculated(servers, distribution));
  }

  /* ---------- What holds within one run ---------- */

  /** `y` lies between `x` and zero. */
  predicate Toward(x: int, y: int) {
    if x >= 0 then 0 <= y <= x else x <= y <= 0
  }

  /** Since the run started at `start` and made the requests `log`: the offsets keep
      their sum, no donor fell below zero, no receiver rose above it, each offset
      accounts for the moves, and every move took one off the total surplus. */
  ghost predicate Running(start: Servers, servers: Servers, log: seq<Request>) {
    && SumsKept(start, servers, log)
    && (forall k :: k in servers ==> Toward(start[k].offset, servers[k].offset))
    && (forall k :: k in servers ==> servers[k].offset == start[k].offset - Successes(log, k) + Received(log, k))
  }

  ghost predicate SumsKept(start: Servers, servers: Servers, log: seq<Request>) {
    && servers.Keys == start.Keys
    && OffsetSum(servers) == OffsetSum(start)
    && Moves(log) + TotalSurplus(servers) == TotalSurplus(start)
  }

  lemma SameSums(a: Servers, b: Servers)
    requires a.Keys == b.Keys && forall k :: k in a ==> a[k].offset == b[k].offset
    ensures OffsetSum(a) == OffsetSum(b) && TotalSurplus(a) == TotalSurplus(b)
  {
    SumAlike(Offsets(a), Offsets(b), a.Keys);
    SumAlike(Surpluses(a), Surpluses(b), a.Keys);
  }

  lemma RemoveRunning(start: Servers, servers: Servers, log: seq<Request>, s: string, i: nat)
    requires Running(start, servers, log) && s in servers && i < |servers[s].entities|
    ensures Running(start, Removed(servers, s, i), log)
  {
    SameSums(servers, Removed(servers, s, i));
  }

  lemma FailRunning(start: Servers, servers: Servers, log: seq<Request>, s: string, i: nat, r: Request)
    requires Running(start, servers, log) && s in servers && i < |servers[s].entities| && !r.ok
    ensures Running(start, Removed(servers, s, i), log + [r])
  {
    RemoveRunning(start, servers, log, s, i);
    forall k ensures Successes(log + [r], k) == Successes(log, k) && Received(log + [r], k) == Received(log, k) {
      SuccessesSnoc(log, r, k);
    }
    SuccessesSnoc(log, r, s);
  }

  /** A move shifts one offset from the donor to the receiver. */
  lemma MoveSums(servers: Servers, s: string, i: nat, ns: string)
    requires s in servers && ns in servers && i < |servers[s].entities| && servers[s].offset > 0 && servers[ns].offset < 0
    ensures var m := Moved(servers, s, i, ns);
            m.Keys == servers.Keys && OffsetSum(m) == OffsetSum(servers) && TotalSurplus(m) == TotalSurplus(servers) - 1
  {
    hide Delete; hide Sum;
    var m := Moved(servers, s, i, ns);
    var f, g := Offsets(servers), Surpluses(servers);
    var f1 := f[ns := f[ns] + 1];
    SumUpdate(f, ns, f[ns] + 1);
    SumUpdate(f1, s, f[s] - 1);
    MovedOffsets(servers, s, i, ns);
    MovedSurpluses(servers, s, i, ns);
    SumUpdate(g, s, g[s] - 1);
  }

  lemma MovedOffsets(servers: Servers, s: string, i: nat, ns: string)
    requires s in servers && ns in servers && i < |servers[s].entities| && servers[s].offset > 0 && servers[ns].offset < 0
    ensures var m := Moved(servers, s, i, ns);
            var f := Offsets(servers);
            && m.Keys == servers.Keys
            && Offsets(m) == f[ns := f[ns] + 1][s := f[s] - 1]
            && f[ns := f[ns] + 1].Keys == f.Keys
  {
    hide Delete;
  }

  lemma MovedSurpluses(servers: Servers, s: string, i: nat, ns: string)
    requires s in servers && ns in servers && i < |servers[s].entities| && servers[s].offset > 0 && servers[ns].offset < 0
    ensures var g := Surpluses(servers);
            Surpluses(Moved(servers, s, i, ns)) == g[s := g[s] - 1] && g[s] == servers[s].offset
  {
    hide Delete;
  }

  lemma MoveRunning(start: Servers, servers: Servers, log: seq<Request>, s: string, i: nat, ns: string)
    requires Running(start, servers, log) && s in servers && i < |servers[s].entities|
    requires ns in servers && servers[s].offset > 0 && servers[ns].offset < 0
    ensures Running(start, Moved(servers, s, i, ns), log + [Request(servers[s].entities[i], s, ns, true)])
  {
    hide SumsKept; hide Delete; hide Successes; hide Received;
    var r := Request(servers[s].entities[i], s, ns, true);
    MoveSumsKept(start, servers, log, s, i, ns, r);
    SumsKeys(start, servers, log);
    SuccessCounts(log, r);
  }

  lemma SuccessCounts(log: seq<Request>, r: Request)
    requires r.ok
    ensures forall k :: Successes(log + [r], k) == Successes(log, k) + if k == r.from then 1 else 0
    ensures forall k :: Received(log + [r], k) == Received(log, k) + if k == r.to then 1 else 0
  {
    hide Successes; hide Received;
    forall k
      ensures Successes(log + [r], k) == Successes(log, k) + (if k == r.from then 1 else 0)
      ensures Received(log + [r], k) == Received(log, k) + if k == r.to then 1 else 0
    {
      SuccessesSnoc(log, r, k);
    }
  }

  lemma SumsKeys(start: Servers, servers: Servers, log: seq<Request>)
    requires SumsKept(start, servers, log)
    ensures servers.Keys == start.Keys
  {
  }

  lemma MoveSumsKept(start: Servers, servers: Servers, log: seq<Request>, s: string, i: nat, ns: string, r: Request)
    requires SumsKept(start, servers, log) && s in servers && i < |servers[s].entities|
    requires ns in servers && servers[s].offset > 0 && servers[ns].offset < 0 && r.ok
    ensures SumsKept(start, Moved(servers, s, i, ns), log + [r])
    ensures Moved(servers, s, i, ns).Keys == start.Keys
  {
    hide OffsetSum; hide TotalSurplus; hide Delete;
    MoveSums(servers, s, i, ns);
    SuccessesSnoc(log, r, s);
  }

  /** With no surplus in the sum, a donor always has someone to give to. */
  lemma SomeReceiver(servers: Servers, s: string)
    requires OffsetSum(servers) <= 0 && s in servers && servers[s].offset > 0
    ensures exists ns :: ns in servers && servers[ns].offset < 0
  {
    if forall ns :: ns in servers ==> servers[ns].offset >= 0 {
      var f := Offsets(servers);
      SumTake(f, servers.Keys, s);
      SumAtLeastZero(f, servers.Keys - {s});
    }
  }

  lemma {:induction false} SumAtLeastZero(f: map<string, int>, names: set<string>)
    requires names <= f.Keys && forall k :: k in names ==> f[k] >= 0
    ensures Sum(f, names) >= 0
    decreases |names|
  {
    if names != {} {
      var k :| k in names;
      SumTake(f, names, k);
      SumAtLeastZero(f, names - {k});
    }
  }

  /* ---------- Grouping ---------- */

  /** What the cluster says of one entity. */
  datatype Found = Found(entity: Entity, cluster: string, leader: string, replicas: seq<string>)

  type Clusters = map<string, Servers>

  function ServersOf(clusters: Clusters, name: string): Servers {
    if name in clusters then clusters[name] else map[]
  }

  function PeerOf(servers: Servers, name: string): Peer {
    if name in servers then servers[name] else Peer([], 0)
  }

  /** createClusterMappings: files the entity under its leader and makes every
      replica known. */
  method Group(f: Found, clusters: Clusters) returns (r: Clusters)
    ensures Filed(f, clusters, r)
  {
    var active := ServersOf(clusters, f.cluster);
    if f.leader != "" {
      active := active[f.leader := PeerOf(active, f.leader)];
      active := active[f.leader := active[f.leader].(entities := active[f.leader].entities + [f.entity])];
    }
    ghost var led := active;
    active := AddReplicas(active, f.replicas);
    r := clusters[f.cluster := active];
    assert active.Keys == ServersOf(clusters, f.cluster).Keys + Names(f);
    assert forall s :: PeerOf(active, s) == PeerOf(led, s);
    assert forall c :: ServersOf(r, c) == if c == f.cluster then active else ServersOf(clusters, c);
  }

  /** Replicas that lead nothing are servers all the same. */
  method AddReplicas(led: Servers, replicas: seq<string>) returns (active: Servers)
    ensures active.Keys == led.Keys + (set k | k in replicas)
    ensures forall s :: PeerOf(active, s) == PeerOf(led, s)
  {
    active := led;
    for i := 0 to |replicas|
      invariant active.Keys == led.Keys + (set k | k in replicas[..i])
      invariant forall s :: PeerOf(active, s) == PeerOf(led, s)
    {
      var name := replicas[i];
      assert replicas[..i + 1] == replicas[..i] + [name];
      if name !in active {
        active := active[name := Peer([], 0)];
      }
    }
    assert replicas[..|replicas|] == replicas;
  }

  function Names(f: Found): set<string> {
    (set k | k in f.replicas) + if f.leader == "" then {} else {f.leader}
  }

  /** The entities a server leads in a cluster, in the order they were found. */
  function Led(fs: seq<Found>, cluster: string, server: string): seq<Entity> {
    if fs == [] then []
    else
      var f := fs[|fs| - 1];
      Led(fs[..|fs| - 1], cluster, server) + if f.cluster == cluster && f.leader == server && server != "" then [f.entity] else []
  }

  /** The servers a cluster's entities name as leader or replica. */
  function Named(fs: seq<Found>, cluster: string): set<string> {
    if fs == [] then {}
    else Named(fs[..|fs| - 1], cluster) + if fs[|fs| - 1].cluster == cluster then Names(fs[|fs| - 1]) else {}
  }

  predicate Mentions(fs: seq<Found>, cluster: string) {
    exists i :: 0 <= i < |fs| && fs[i].cluster == cluster
  }

  /** `r` groups `fs`: every entity under its leader, once, and every server known. */
  ghost predicate GroupedBy(r: Clusters, fs: seq<Found>) {
    && (forall c :: c in r <==> Mentions(fs, c))
    && (forall c :: ServersOf(r, c).Keys == Named(fs, c))
    && (forall c, s :: PeerOf(ServersOf(r, c), s) == Peer(Led(fs, c, s), 0))
  }

  /** What filing `f` does to every server. */
  ghost predicate Filed(f: Found, a: Clusters, b: Clusters) {
    && (forall c :: c in b <==> c in a || c == f.cluster)
    && (forall c :: ServersOf(b, c).Keys == ServersOf(a, c).Keys + if c == f.cluster then Names(f) else {})
    && (forall c, s :: PeerOf(ServersOf(b, c), s) ==
          PeerOf(ServersOf(a, c), s).(entities := PeerOf(ServersOf(a, c), s).entities
                                        + if c == f.cluster && s == f.leader && s != "" then [f.entity] else []))
  }

  lemma GroupStep(f: Found, a: Clusters, b: Clusters, fs: seq<Found>)
    requires GroupedBy(a, fs) && Filed(f, a, b)
    ensures GroupedBy(b, fs + [f])
  {
    var all := fs + [f];
    assert all[|fs|] == f && all[..|fs|] == fs && forall i :: 0 <= i < |fs| ==> all[i] == fs[i];
    forall c ensures c in b <==> Mentions(all, c) {
      if Mentions(fs, c) {
        var i :| 0 <= i < |fs| && fs[i].cluster == c;
        assert all[i].cluster == c;
      }
    }
    forall c, s ensures PeerOf(ServersOf(b, c), s) == Peer(Led(all, c, s), 0) {
      LedSnoc(fs, f, c, s);
    }
  }

  method GroupAll(fs: seq<Found>) returns (r: Clusters)
    ensures GroupedBy(r, fs)
  {
    hide GroupedBy; hide Filed;
    r := map[];
    GroupNone();
    for i := 0 to |fs|
      invariant GroupedBy(r, fs[..i])
    {
      ghost var before := r;
      r := Group(fs[i], r);
      GroupStep(fs[i], before, r, fs[..i]);
      assert fs[..i + 1] == fs[..i] + [fs[i]];
    }
    assert fs[..|fs|] == fs;
  }

  lemma GroupNone()
    ensures GroupedBy(map[], [])
  {
  }

  lemma LedSnoc(fs: seq<Found>, f: Found, c: string, s: string)
    ensures Led(fs + [f], c, s) == Led(fs, c, s) + if f.cluster == c && f.leader == s && s != "" then [f.entity] else []
  {
    assert (fs + [f])[..|fs|] == fs;
  }

  lemma {:induction false} LedFound(fs: seq<Found>, c: string, s: string, e: Entity)
    ensures e in Led(fs, c, s) <==> s != "" && exists i :: 0 <= i < |fs| && fs[i].entity == e && fs[i].cluster == c && fs[i].leader == s
    decreases |fs|
  {
    if fs != [] {
      LedFound(fs[..|fs| - 1], c, s, e);
    }
  }

  lemma {:induction false} NamedFound(fs: seq<Found>, c: string, s: string)
    ensures s in Named(fs, c) <==>
            exists i :: 0 <= i < |fs| && fs[i].cluster == c && (s in fs[i].replicas || (s == fs[i].leader && s != ""))
    decreases |fs|
  {
    if fs != [] {
      NamedFound(fs[..|fs| - 1], c, s);
    }
  }

  lemma {:induction false} LedDistinct(fs: seq<Found>, c: string, s: string)
    requires forall i, j :: 0 <= i < j < |fs| ==> fs[i].entity != fs[j].entity
    ensures forall i, j :: 0 <= i < j < |Led(fs, c, s)| ==> Led(fs, c, s)[i] != Led(fs, c, s)[j]
    decreases |fs|
  {
    if fs != [] {
      var init := fs[..|fs| - 1];
      LedDistinct(init, c, s);
      LedFound(init, c, s, fs[|fs| - 1].entity);
    }
  }

  /** Distinct entities are grouped into distinct lists. */
  lemma GroupedDistinct(fs: seq<Found>, c: string, servers: Servers)
    requires forall i, j :: 0 <= i < j < |fs| ==> fs[i].entity != fs[j].entity
    requires forall s :: s in servers ==> servers[s].entities == Led(fs, c, s)
    ensures AllDistinct(servers)
  {
    forall s | s in servers
      ensures forall i, j :: 0 <= i < j < |servers[s].entities| ==> servers[s].entities[i] != servers[s].entities[j]
    {
      LedDistinct(fs, c, s);
    }
    forall k, l, e | k in servers && l in servers && k != l && e in servers[k].entities
      ensures e !in servers[l].entities
    {
      LedFound(fs, c, k, e);
      LedFound(fs, c, l, e);
    }
  }

  /* ---------- Balancing ---------- */

  /** How the cluster answers: in any way at all, or steadily, with the information
      it had at the start and every step-down succeeding. */
  datatype World = Open | Steady(info: Entity -> ClusterInfo)

  /** Under a steady world every entity is led by the server it is listed under and
      every other server is one of its replicas. */
  ghost predicate Matches(world: World, servers: Servers) {
    world.Steady? ==>
      forall s, e :: s in servers && e in servers[s].entities ==>
        world.info(e).leader == s && forall ns :: ns in servers && ns != s ==> ns in world.info(e).replicas
  }

  /** The offset is the number of entities above the distribution, for donors. */
  ghost predicate Exact(servers: Servers, distribution: int) {
    forall k :: k in servers && servers[k].offset > 0 ==> servers[k].offset == |servers[k].entities| - distribution
  }

  method IsInPeerGroup(info: ClusterInfo, candidate: string) returns (r: bool)
    ensures r <==> candidate in info.replicas
  {
    for i := 0 to |info.replicas|
      invariant candidate !in info.replicas[..i]
    {
      if info.replicas[i] == candidate {
        return true;
      }
      assert info.replicas[..i + 1] == info.replicas[..i] + [info.replicas[i]];
    }
    assert info.replicas[..|info.replicas|] == info.replicas;
    return false;
  }

  const BALANCE_RUNS := 5

  /** Where a run stands: the grouping at the start of all runs, the servers and
      the log at the start of this one, and the share of each server. */
  datatype Context = Context(init: Servers, distribution: int, start: Servers, base: seq<Request>)

  /** What a run keeps at every step. */
  ghost predicate Kept(cx: Context, servers: Servers, log: seq<Request>, runLog: seq<Request>) {
    Safe(cx.init, cx.distribution, servers, log) && Running(cx.start, servers, runLog) && log == cx.base + runLog
  }

  class Balancer {
    const world: World
    var servers: Servers
    ghost var log: seq<Request>
    ghost var runLog: seq<Request>

    constructor (world: World, servers: Servers)
      ensures this.world == world && this.servers == servers && log == [] && runLog == []
    {
      this.world, this.servers, log, runLog := world, servers, [], [];
    }

    /** The entity's ClusterInfo. */
    method Fetch(e: Entity) returns (r: Option<ClusterInfo>)
      ensures world.Steady? ==> r == Some(world.info(e))
    {
      r := *;
      if world.Steady? {
        r := Some(world.info(e));
      }
    }

    /** LeaderStepDown, and the entity taken off the donor's list as both outcomes do. */
    method StepDown(s: string, i: nat, ns: string, ghost cx: Context) returns (ok: bool)
      requires s in servers && ns in servers && i < |servers[s].entities| && servers[s].offset > 0 && servers[ns].offset < 0
      requires Kept(cx, servers, log, runLog)
      modifies this
      ensures world.Steady? ==> ok
      ensures servers == if ok then Moved(old(servers), s, i, ns) else Removed(old(servers), s, i)
      ensures log == old(log) + [Request(old(servers)[s].entities[i], s, ns, ok)]
      ensures Moves(log) == Moves(old(log)) + if ok then 1 else 0
      ensures Moves(runLog) == Moves(old(runLog)) + if ok then 1 else 0
      ensures Kept(cx, servers, log, runLog)
    {
      hide Safe; hide Running; hide Delete; hide Moves; hide Moved; hide Removed; hide Successes; hide Received;
      ok := *;
      if world.Steady? {
        ok := true;
      }
      ghost var r := Request(servers[s].entities[i], s, ns, ok);
      SuccessesSnoc(log, r, s);
      SuccessesSnoc(runLog, r, s);
      if ok {
        MoveSafe(cx.init, cx.distribution, servers, log, s, i, ns);
        MoveRunning(cx.start, servers, runLog, s, i, ns);
        servers := Moved(servers, s, i, ns);
      } else {
        FailSafe(cx.init, cx.distribution, servers, log, s, i, ns);
        FailRunning(cx.start, servers, runLog, s, i, r);
        servers := Removed(servers, s, i);
      }
      log, runLog := log + [r], runLog + [r];
    }

    /** The inner range over the servers: looks for one to take entity `i` of `s`. */
    method FindReceiver(s: string, i: nat, info: ClusterInfo, ghost cx: Context)
        returns (asked: bool, moved: bool)
      requires s in servers && i < |servers[s].entities| && servers[s].offset > 0
      requires Kept(cx, servers, log, runLog)
      modifies this
      ensures !asked ==> !moved && servers == old(servers) && log == old(log) && runLog == old(runLog)
      ensures !asked ==> forall ns :: !Takes(servers, info, ns)
      ensures asked && !moved ==> servers == Removed(old(servers), s, i)
      ensures moved ==> asked && exists ns :: ns in old(servers) && old(servers)[ns].offset < 0 && servers == Moved(old(servers), s, i, ns)
      ensures asked && world.Steady? ==> moved
      ensures Moves(log) == Moves(old(log)) + if moved then 1 else 0
      ensures Moves(runLog) == Moves(old(runLog)) + if moved then 1 else 0
      ensures Kept(cx, servers, log, runLog)
    {
      hide Kept; hide Moved; hide Removed; hide Moves;
      var todo := servers.Keys;
      while todo != {}
        invariant todo <= servers.Keys && servers == old(servers) && log == old(log) && runLog == old(runLog)
        invariant forall ns :: ns !in todo ==> !Takes(servers, info, ns)
        invariant Kept(cx, servers, log, runLog)
        decreases |todo|
      {
        var ns :| ns in todo;
        todo := todo - {ns};
        var inGroup := IsInPeerGroup(info, ns);
        if servers[ns].offset < 0 && inGroup {
          if info.leader == ns {
            continue;
          }
          moved := StepDown(s, i, ns, cx);
          return true, moved;
        }
      }
      return false, false;
    }

    /** Strikes entity `i` off the donor's list without asking anyone. */
    method Strike(s: string, i: nat, ghost cx: Context)
      requires s in servers && i < |servers[s].entities|
      requires Kept(cx, servers, log, runLog)
      modifies this`servers
      ensures servers == Removed(old(servers), s, i)
      ensures Kept(cx, servers, log, runLog)
    {
      hide Safe; hide Running; hide Delete;
      RemoveSafe(cx.init, cx.distribution, servers, log, s, i);
      RemoveRunning(cx.start, servers, runLog, s, i);
      servers := Removed(servers, s, i);
    }

    /** One entity of a donor's list, and what becomes of the list. A refused entity
        costs the donor the one behind it as well, unless it was the last. */
    method Round(s: string, i: nat, info: ClusterInfo, ghost cx: Context) returns (asked: bool, moved: bool)
      requires s in servers && i < |servers[s].entities| && servers[s].offset > 0
      requires Kept(cx, servers, log, runLog)
      modifies this
      ensures !asked ==> !moved && log == old(log) && runLog == old(runLog) && forall ns :: !Takes(old(servers), info, ns)
      ensures !asked ==> servers == Removed(old(servers), s, i)
      ensures asked && !moved ==>
                servers == if i + 1 < |old(servers)[s].entities| then Removed(Removed(old(servers), s, i), s, i) else Removed(old(servers), s, i)
      ensures moved ==> asked && exists ns :: ns in old(servers) && old(servers)[ns].offset < 0 && servers == Moved(old(servers), s, i, ns)
      ensures asked && world.Steady? ==> moved
      ensures Moves(log) == Moves(old(log)) + if moved then 1 else 0
      ensures Moves(runLog) == Moves(old(runLog)) + if moved then 1 else 0
      ensures Kept(cx, servers, log, runLog)
    {
      hide Kept; hide Moved; hide Moves;
      asked, moved := FindReceiver(s, i, info, cx);
      if !moved && i < |servers[s].entities| {
        Strike(s, i, cx);
      }
    }

    /** The loop over one donor: gives entities away until its offset is gone, its
        list is empty, or one finds no taker. `err` is the error return on a second
        failure in a row; it is never reached. */
    method Relieve(s: string, ghost cx: Context) returns (steppedDown: nat, err: bool)
      requires s in servers && Kept(cx, servers, log, runLog)
      modifies this
      ensures Kept(cx, servers, log, runLog)
      ensures !err && Moves(log) == Moves(old(log)) + steppedDown && Moves(runLog) == Moves(old(runLog)) + steppedDown
      ensures Gives(s, old(servers), servers)
      ensures old(servers)[s].offset <= 0 ==> servers == old(servers) && log == old(log) && runLog == old(runLog)
      ensures Flows(world, old(servers), cx.distribution) ==> Flows(world, servers, cx.distribution) && servers[s].offset <= 0
    {
      hide Kept; hide Flows; hide Gives; hide Moves; hide Moved; hide Removed; hide Listed; hide OffsetSum;
      steppedDown, err := 0, false;
      var retries := 0;
      ghost var stalled := false;
      GivesNothing(s, servers);
      while servers[s].offset > 0 && |servers[s].entities| > 0
        invariant s in servers && retries == 0 && !err
        invariant Kept(cx, servers, log, runLog)
        invariant Moves(log) == Moves(old(log)) + steppedDown && Moves(runLog) == Moves(old(runLog)) + steppedDown
        invariant Gives(s, old(servers), servers)
        invariant old(servers)[s].offset <= 0 ==> servers == old(servers) && log == old(log) && runLog == old(runLog)
        invariant Flows(world, old(servers), cx.distribution) ==> Flows(world, servers, cx.distribution)
        invariant !stalled
        decreases |servers[s].entities|
      {
        var i: nat := *;
        i := i % |servers[s].entities|;
        var entity := servers[s].entities[i];
        ghost var before := servers;
        RemovedFacts(before, s, i);
        var info := Fetch(entity);
        FlowFacts(world, servers, cx.distribution, s, i);
        if info.None? {
          Strike(s, i, cx);
          GivesRemoved(s, old(servers), before, i);
          continue;
        }
        var asked, moved := Round(s, i, info.value, cx);
        if moved {
          retries := 0;
          steppedDown := steppedDown + 1;
          ghost var ns :| ns in before && before[ns].offset < 0 && servers == Moved(before, s, i, ns);
          GivesMoved(s, old(servers), before, i, ns);
          MovedFacts(before, s, i, ns);
          FlowMoved(world, before, cx.distribution, s, i, ns);
        } else {
          if asked {
            err := retries > 0;
            retries := retries + 1;
          }
          stalled := true;
          GivesRemoved(s, old(servers), before, i);
          ghost var once := Removed(before, s, i);
          if i < |once[s].entities| {
            GivesRemoved(s, old(servers), once, i);
          }
          break;
        }
      }
      if !stalled {
        FlowEnd(world, servers, cx.distribution, s);
      }
    }

    /** One run over the servers, in any order, before the offsets are recalculated. */
    method Run(ghost init: Servers, distribution: int) returns (steppedDown: nat)
      requires Safe(init, distribution, servers, log)
      modifies this
      ensures Safe(init, distribution, servers, log) && Running(old(servers), servers, runLog) && log == old(log) + runLog
      ensures Moves(log) == Moves(old(log)) + steppedDown && Moves(runLog) == steppedDown
      ensures Flows(world, old(servers), distribution) ==> AtRest(servers)
      ensures AtRest(old(servers)) ==> servers == old(servers) && log == old(log)
    {
      hide Safe; hide Running; hide Flows; hide Moves; hide Gives; hide Toward; hide SumsKept;
      ghost var start := servers;
      ghost var cx := Context(init, distribution, start, log);
      RunStarts(servers);
      NoMoves();
      runLog := [];
      assert log + [] == log;
      steppedDown := 0;
      var todo := servers.Keys;
      while todo != {}
        invariant servers.Keys == start.Keys && todo <= servers.Keys
        invariant Kept(cx, servers, log, runLog)
        invariant Moves(log) == Moves(old(log)) + steppedDown && Moves(runLog) == steppedDown
        invariant Flows(world, start, distribution) ==> Flows(world, servers, distribution)
        invariant Flows(world, start, distribution) ==> forall k :: k in servers && k !in todo ==> servers[k].offset <= 0
        invariant AtRest(start) ==> servers == start && log == old(log)
        decreases |todo|
      {
        var s :| s in todo;
        todo := todo - {s};
        ghost var before := servers;
        var n, _ := Relieve(s, cx);
        GivesOthers(s, before, servers);
        steppedDown := steppedDown + n;
      }
    }

    /** balance: the runs, with the offsets recalculated after each. `first` is the
        log after the first run. */
    method Balance(distribution: int) returns (steppedDown: nat, ghost first: seq<Request>)
      requires AllDistinct(servers) && log == []
      requires forall k :: k in servers ==> servers[k].offset == |servers[k].entities| - distribution
      modifies this
      ensures Safe(old(servers), distribution, servers, log)
      ensures steppedDown == Moves(log) <= TotalSurplus(old(servers))
      ensures Flows(world, old(servers), distribution) ==> log == first && Settled(old(servers), distribution, log)
    {
      hide Safe; hide Running; hide Flows; hide Moves; hide Settled; hide AllDistinct; hide AtRest;
      ghost var init := servers;
      steppedDown, first := 0, [];
      BalanceStarts(init, distribution);
      NoMoves();
      for i := 1 to BALANCE_RUNS + 1
        invariant servers.Keys == init.Keys
        invariant Safe(init, distribution, servers, log) && steppedDown == Moves(log)
        invariant i == 1 ==> servers == init && log == []
        invariant i > 1 && Flows(world, init, distribution) ==> AtRest(servers) && log == first && Settled(init, distribution, first)
      {
        RestKeys(init, distribution, servers, log);
        var n := Run(init, distribution);
        steppedDown := steppedDown + n;
        RecalculateSafe(init, distribution, servers, log);
        if i == 1 {
          first := log;
          assert [] + runLog == runLog;
          Settles(world, init, servers, distribution, runLog);
        }
        RestsStill(init, distribution, servers, log);
        servers := Recalculated(servers, distribution);
      }
      MovesWithinSurplus(init, distribution, servers, log);
    }
  }

  /** No server is above its share. */
  predicate AtRest(servers: Servers) {
    forall k :: k in servers ==> servers[k].offset <= 0
  }

  /** Everything above the shares was moved and every server leads at most its share. */
  ghost predicate Settled(init: Servers, distribution: int, log: seq<Request>) {
    && Moves(log) == TotalSurplus(init)
    && forall k :: k in init ==> |init[k].entities| - Successes(log, k) + Received(log, k) <= distribution
  }

  /** The conditions under which moves never stall. */
  ghost predicate Flows(world: World, servers: Servers, distribution: int) {
    world.Steady? && Matches(world, servers) && Exact(servers, distribution) && OffsetSum(servers) <= 0 && distribution >= 0
  }

  lemma FlowEnd(world: World, servers: Servers, distribution: int, s: string)
    requires s in servers && (servers[s].offset > 0 ==> |servers[s].entities| == 0)
    ensures Flows(world, servers, distribution) ==> servers[s].offset <= 0
  {
  }

  predicate Takes(servers: Servers, info: ClusterInfo, ns: string) {
    ns in servers && servers[ns].offset < 0 && ns in info.replicas && info.leader != ns
  }

  /** In flow, the fetched information names a receiver. */
  lemma FlowFacts(world: World, servers: Servers, distribution: int, s: string, i: nat)
    requires s in servers && i < |servers[s].entities| && servers[s].offset > 0
    ensures Flows(world, servers, distribution) ==>
              world.Steady? && exists ns :: Takes(servers, world.info(servers[s].entities[i]), ns)
  {
    if Flows(world, servers, distribution) {
      SomeReceiver(servers, s);
      var ns :| ns in servers && servers[ns].offset < 0;
      assert servers[s].entities[i] in servers[s].entities;
      assert Takes(servers, world.info(servers[s].entities[i]), ns);
    }
  }

  /** A move keeps the flow. */
  lemma FlowMoved(world: World, before: Servers, distribution: int, s: string, i: nat, ns: string)
    requires s in before && ns in before && i < |before[s].entities| && before[s].offset > 0 && before[ns].offset < 0
    ensures Flows(world, before, distribution) ==> Flows(world, Moved(before, s, i, ns), distribution)
  {
    hide OffsetSum; hide TotalSurplus;
    MoveSums(before, s, i, ns);
    DeleteSubset(before[s].entities, i);
  }

  lemma RunStarts(servers: Servers)
    ensures Running(servers, servers, [])
  {
  }

  lemma NoMoves()
    ensures Moves([]) == 0
  {
  }

  lemma BalanceStarts(init: Servers, distribution: int)
    requires AllDistinct(init) && forall k :: k in init ==> init[k].offset == |init[k].entities| - distribution
    ensures Safe(init, distribution, init, [])
  {
  }

  lemma GivesOthers(s: string, a: Servers, b: Servers)
    requires Gives(s, a, b)
    ensures a.Keys == b.Keys && forall k :: k in a && k != s && a[k].offset <= 0 ==> b[k].offset <= 0
  {
  }

  lemma {:induction false} SumZero(f: map<string, int>, names: set<string>)
    requires names <= f.Keys && forall k :: k in names ==> f[k] == 0
    ensures Sum(f, names) == 0
    decreases |names|
  {
    if names != {} {
      var k :| k in names;
      SumTake(f, names, k);
      SumZero(f, names - {k});
    }
  }

  lemma {:induction false} SumAtMost(f: map<string, int>, g: map<string, int>, names: set<string>)
    requires names <= f.Keys && names <= g.Keys && forall k :: k in names ==> f[k] <= g[k]
    ensures Sum(f, names) <= Sum(g, names)
    decreases |names|
  {
    if names != {} {
      var k :| k in names;
      SumTake(f, names, k);
      SumTake(g, names, k);
      SumAtMost(f, g, names - {k});
    }
  }

  /** How many entities each server gave away. */
  function GivenAway(log: seq<Request>, names: set<string>): (f: map<string, int>)
    ensures f.Keys == names
  {
    map k | k in names :: Successes(log, k)
  }

  lemma {:induction false} MovesAreGiven(log: seq<Request>, names: set<string>)
    requires forall i :: 0 <= i < |log| ==> log[i].from in names
    ensures Moves(log) == Sum(GivenAway(log, names), names)
    decreases |log|
  {
    if log == [] {
      SumZero(GivenAway(log, names), names);
    } else {
      var before, last := log[..|log| - 1], log[|log| - 1];
      MovesAreGiven(before, names);
      assert log == before + [last];
      var g := GivenAway(before, names);
      var g' := g[last.from := Successes(log, last.from)];
      SumUpdate(g, last.from, Successes(log, last.from));
      assert g'.Keys == names;
      SumAlike(g', GivenAway(log, names), names);
    }
  }

  /** Over all runs no more is moved than the servers led above their shares at the
      start, however often offsets are recalculated and whatever is refused. */
  lemma MovesWithinSurplus(init: Servers, distribution: int, servers: Servers, log: seq<Request>)
    requires Safe(init, distribution, servers, log)
    ensures Moves(log) <= TotalSurplus(init)
  {
    hide Successes; hide Moves; hide AllDistinct; hide AskedOnce; hide Listed;
    MovesAreGiven(log, init.Keys);
    forall k | k in init ensures Successes(log, k) <= Pos(init[k].offset) {
      assert k in servers.Keys && k in servers;
    }
    SumAtMost(GivenAway(log, init.Keys), Surpluses(init), init.Keys);
  }

  /** A first run that ends at rest has moved the whole surplus. */
  lemma Settles(world: World, init: Servers, servers: Servers, distribution: int, log: seq<Request>)
    requires Running(init, servers, log)
    requires forall k :: k in init ==> init[k].offset == |init[k].entities| - distribution
    ensures AtRest(servers) ==> Settled(init, distribution, log)
  {
    if AtRest(servers) {
      SumZero(Surpluses(servers), servers.Keys);
    }
  }

  lemma RestKeys(init: Servers, distribution: int, servers: Servers, log: seq<Request>)
    requires Safe(init, distribution, servers, log)
    ensures servers.Keys == init.Keys
  {
  }

  /** Recalculating never lifts a server above its share again. */
  lemma RestsStill(init: Servers, distribution: int, servers: Servers, log: seq<Request>)
    requires Safe(init, distribution, servers, log)
    ensures servers.Keys == init.Keys
    ensures AtRest(servers) ==> AtRest(Recalculated(servers, distribution))
  {
  }

  lemma DeleteSubset(es: seq<Entity>, i: nat)
    requires i < |es|
    ensures forall e :: e in Delete(es, i) ==> e in es
  {
  }

  /** What relieving `s` does to the others: lists stay, offsets only rise, and
      only from below zero. */
  predicate Gives(s: string, a: Servers, b: Servers) {
    && a.Keys == b.Keys
    && (forall k :: k in a && k != s ==> b[k].entities == a[k].entities)
    && (forall k :: k in a && k != s ==> b[k].offset == a[k].offset || a[k].offset < b[k].offset <= 0)
  }

  lemma GivesNothing(s: string, a: Servers)
    ensures Gives(s, a, a)
  {
  }

  lemma GivesRemoved(s: string, a: Servers, b: Servers, i: nat)
    requires Gives(s, a, b) && s in b && i < |b[s].entities|
    ensures Gives(s, a, Removed(b, s, i))
  {
  }

  lemma GivesMoved(s: string, a: Servers, b: Servers, i: nat, ns: string)
    requires Gives(s, a, b) && s in b && ns in b && i < |b[s].entities| && b[ns].offset < 0 && b[s].offset > 0
    ensures Gives(s, a, Moved(b, s, i, ns))
  {
  }

  lemma RemovedFacts(a: Servers, s: string, i: nat)
    requires s in a && i < |a[s].entities|
    ensures var r := Removed(a, s, i); r.Keys == a.Keys && |r[s].entities| == |a[s].entities| - 1 && r[s].offset == a[s].offset
  {
  }

  lemma MovedFacts(a: Servers, s: string, i: nat, ns: string)
    requires s in a && ns in a && i < |a[s].entities| && s != ns
    ensures var r := Moved(a, s, i, ns); r.Keys == a.Keys && |r[s].entities| == |a[s].entities| - 1 && r[s].offset == a[s].offset - 1
  {
  }

  /* ---------- The share that is balanced to ---------- */

  function Counts(servers: Servers): (f: map<string, int>)
    ensures f.Keys == servers.Keys
  {
    map k | k in servers :: |servers[k].entities|
  }

  ghost function EntityTotal(servers: Servers): int {
    Sum(Counts(servers), servers.Keys)
  }

  lemma {:induction false} SumShifted(f: map<string, int>, g: map<string, int>, names: set<string>, d: int)
    requires names <= f.Keys && names <= g.Keys && forall k :: k in names ==> f[k] == g[k] - d
    ensures Sum(f, names) == Sum(g, names) - |names| * d
    decreases |names|
  {
    if names != {} {
      var k :| k in names;
      SumTake(f, names, k);
      SumTake(g, names, k);
      SumShifted(f, g, names - {k}, d);
      assert |names| * d == |names - {k}| * d + d;
    }
  }

  /** calcClusterDistribution: adds up the lists in any order. */
  method CalcClusterDistribution(servers: Servers) returns (d: int)
    ensures EntityTotal(servers) >= 0 && d == Distribution(EntityTotal(servers), |servers|)
    ensures FitsShare(EntityTotal(servers), |servers|, d)
  {
    hide Distribution; hide FitsShare;
    var total := 0;
    var todo := servers.Keys;
    while todo != {}
      invariant todo <= servers.Keys && total >= 0 && total + Sum(Counts(servers), todo) == EntityTotal(servers)
      decreases |todo|
    {
      var k :| k in todo;
      SumTake(Counts(servers), todo, k);
      total := total + |servers[k].entities|;
      todo := todo - {k};
    }
    assert |servers.Keys| == |servers|;
    d := Distribution(total, |servers|);
    DistributionFits(total, |servers|);
  }

  /** With the computed share the offsets never sum above zero, so in a steady world
      the moves never stall: the first run settles the cluster and later runs move
      nothing. */
  lemma ShareFlows(world: World, servers: Servers, distribution: int)
    requires world.Steady? && Matches(world, servers) && servers != map[]
    requires EntityTotal(servers) >= 0 && distribution == Distribution(EntityTotal(servers), |servers|)
    requires forall k :: k in servers ==> servers[k].offset == |servers[k].entities| - distribution
    ensures Flows(world, servers, distribution)
  {
    hide Distribution;
    var n := |servers|;
    assert n == |servers.Keys| && servers.Keys != {};
    DistributionBound(EntityTotal(servers), n);
    SumShifted(Offsets(servers), Counts(servers), servers.Keys, distribution);
    assert distribution * n == n * distribution;
  }
}
