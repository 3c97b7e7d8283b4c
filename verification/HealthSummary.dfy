/** The mesh-wide health summary of pkg/kiali/health_calculation.go. */
module HealthSummary {
  import opened HealthRequests
  import opened HealthEntities

  datatype Kind = AppKind | ServiceKind | WorkloadKind

  datatype Counts = Counts(total: int, healthy: int, degraded: int, unhealthy: int, notReady: int)

  const NO_COUNTS := Counts(0, 0, 0, 0, 0)

  function Plus(a: Counts, b: Counts): Counts
  {
    Counts(a.total + b.total, a.healthy + b.healthy, a.degraded + b.degraded, a.unhealthy + b.unhealthy,
           a.notReady + b.notReady)
  }

  /** The counts of the three kinds. */
  datatype EntityCounts = EntityCounts(apps: Counts, services: Counts, workloads: Counts)

  datatype UnhealthyEntity = UnhealthyEntity(kind: Kind, namespace: string, name: string, errorRate: real)

  datatype NamespaceSummary = NamespaceSummary(
    apps: Counts, services: Counts, workloads: Counts, errorRate: real, status: Status, availability: real)

  datatype Summary = Summary(
    overallStatus: Status, availability: real, totalErrorRate: real, namespaceCount: nat, entityCounts: EntityCounts,
    namespaces: map<string, NamespaceSummary>, topUnhealthy: seq<UnhealthyEntity>)

  /** The entities of one kind: namespace, then name. */
  type Mesh = map<string, map<string, Entity>>

  datatype Health = Health(apps: Mesh, services: Mesh, workloads: Mesh)

  // The ranking.

  ghost predicate Descending(s: seq<UnhealthyEntity>)
  {
    forall i, j :: 0 <= i < j < |s| ==> s[i].errorRate >= s[j].errorRate
  }

  /** The first `n` are in order, and nothing after them ranks higher. */
  ghost predicate Ranked(s: seq<UnhealthyEntity>, n: nat)
  {
    forall i, j :: 0 <= i < j < |s| && i < n ==> s[i].errorRate >= s[j].errorRate
  }

  ghost predicate Reordered(s: seq<UnhealthyEntity>, t: seq<UnhealthyEntity>)
  {
    multiset(s) == multiset(t)
  }

  /** Entry `i` ranks at least as high as those after it up to `j`. */
  ghost predicate Leads(s: seq<UnhealthyEntity>, i: nat, j: nat)
  {
    forall k :: i < k < j && k < |s| ==> s[i].errorRate >= s[k].errorRate
  }

  lemma SwapKeepsRanks(s: seq<UnhealthyEntity>, t: seq<UnhealthyEntity>, i: nat, j: nat)
    requires i < j < |s| && t == s[i := s[j]][j := s[i]]
    requires Ranked(s, i) && Leads(s, i, j) && s[j].errorRate > s[i].errorRate
    ensures Ranked(t, i) && Leads(t, i, j + 1) && Reordered(t, s)
  {
  }

  /** One turn of the outer loop: entry `i` is exchanged with every later one that ranks
      higher. */
  method Settle(a: array<UnhealthyEntity>, i: nat)
    requires i < a.Length && Ranked(a[..], i)
    modifies a
    ensures Ranked(a[..], i + 1) && Reordered(a[..], old(a[..]))
  {
    var j := i + 1;
    while j < a.Length
      invariant i < j <= a.Length
      invariant Ranked(a[..], i) && Leads(a[..], i, j) && Reordered(a[..], old(a[..]))
    {
      if a[j].errorRate > a[i].errorRate {
        ghost var before := a[..];
        a[i], a[j] := a[j], a[i];
        SwapKeepsRanks(before, a[..], i, j);
      }
      j := j + 1;
    }
  }

  method SortUnhealthyByImpact(a: array<UnhealthyEntity>)
    modifies a
    ensures Descending(a[..]) && Reordered(a[..], old(a[..]))
  {
    for i := 0 to a.Length
      invariant Ranked(a[..], i) && Reordered(a[..], old(a[..]))
    {
      Settle(a, i);
    }
  }

  // Counting.

  /** The entities among `keys` with a status. */
  ghost function With(m: map<string, Entity>, keys: set<string>, st: Status): set<string>
  {
    set n | n in keys && n in m && EntityStatus(m[n]) == st
  }

  ghost function Census(m: map<string, Entity>, keys: set<string>): Counts
  {
    Counts(|keys|, |With(m, keys, HEALTHY)|, |With(m, keys, DEGRADED)|, |With(m, keys, UNHEALTHY)|, |With(m, keys, NOT_READY)|)
  }

  /** One more entity; an unknown status goes into the total alone. */
  function Bump(c: Counts, st: Status): Counts
  {
    var d := c.(total := c.total + 1);
    match st
    case HEALTHY => d.(healthy := d.healthy + 1)
    case DEGRADED => d.(degraded := d.degraded + 1)
    case UNHEALTHY => d.(unhealthy := d.unhealthy + 1)
    case NOT_READY => d.(notReady := d.notReady + 1)
    case UNKNOWN => d
  }

  lemma WithStep(m: map<string, Entity>, keys: set<string>, k: string, st: Status)
    requires k in m && k !in keys
    ensures |With(m, keys + {k}, st)| == |With(m, keys, st)| + if EntityStatus(m[k]) == st then 1 else 0
  {
    var before, after := With(m, keys, st), With(m, keys + {k}, st);
    if EntityStatus(m[k]) == st {
      assert after == before + {k};
    } else {
      assert after == before;
    }
  }

  lemma CensusStep(m: map<string, Entity>, keys: set<string>, k: string)
    requires k in m && k !in keys
    ensures Census(m, keys + {k}) == Bump(Census(m, keys), EntityStatus(m[k]))
  {
    WithStep(m, keys, k, HEALTHY);
    WithStep(m, keys, k, DEGRADED);
    WithStep(m, keys, k, UNHEALTHY);
    WithStep(m, keys, k, NOT_READY);
  }

  /** Every entity is counted under one status, the unknown ones only in the total. */
  lemma {:induction false} CensusAdds(m: map<string, Entity>, keys: set<string>)
    requires keys <= m.Keys
    ensures var c := Census(m, keys);
            && c.healthy + c.degraded + c.unhealthy + c.notReady + |With(m, keys, UNKNOWN)| == c.total
            && c.healthy >= 0 && c.degraded >= 0 && c.unhealthy >= 0 && c.notReady >= 0
    decreases keys
  {
    if keys != {} {
      var k :| k in keys;
      assert keys - {k} + {k} == keys;
      CensusStep(m, keys - {k}, k);
      WithStep(m, keys - {k}, k, UNKNOWN);
      CensusAdds(m, keys - {k});
    }
  }

  ghost function RateSum(m: map<string, Entity>, keys: set<string>): real
    requires keys <= m.Keys
  {
    if keys == {} then 0.0
    else
      var k :| k in keys;
      ErrorRate(m[k].requests) + RateSum(m, keys - {k})
  }

  lemma {:induction false} RateSumStep(m: map<string, Entity>, keys: set<string>, k: string)
    requires keys <= m.Keys && k in keys
    ensures RateSum(m, keys) == ErrorRate(m[k].requests) + RateSum(m, keys - {k})
    decreases keys
  {
    var j :| j in keys && RateSum(m, keys) == ErrorRate(m[j].requests) + RateSum(m, keys - {j});
    if j != k {
      RateSumStep(m, keys - {j}, k);
      RateSumStep(m, keys - {k}, j);
      assert keys - {j} - {k} == keys - {k} - {j};
    }
  }

  /** The entries of the unhealthy list that stand for entities in `keys`. */
  ghost predicate Lists(e: UnhealthyEntity, kind: Kind, ns: string, m: map<string, Entity>, keys: set<string>)
  {
    && e.kind == kind && e.namespace == ns && e.name in keys && e.name in m
    && EntityStatus(m[e.name]) == UNHEALTHY && e.errorRate == ErrorRate(m[e.name].requests)
  }

  method Evaluate(e: Entity) returns (status: Status, errorRate: real)
    ensures status == EntityStatus(e) && errorRate == ErrorRate(e.requests)
  {
    errorRate := CalculateErrorRate(e.requests);
    match e
    case App(_, _) => status := EvaluateAppHealth(e);
    case Service(_) => status := EvaluateServiceHealth(e);
    case Workload(_, _) => status := EvaluateWorkloadHealth(e);
  }

  // What the loop over one kind of entity in one namespace has done when `done` is behind it.

  ghost predicate Counted(kind: Kind, ns: string, m: map<string, Entity>, done: set<string>,
                          counts: Counts, listed: seq<UnhealthyEntity>)
  {
    && counts == Census(m, done) && |listed| == counts.unhealthy
    && forall e :: e in listed <==> Lists(e, kind, ns, m, done)
  }

  function Entry(kind: Kind, ns: string, name: string, st: Status, rate: real): seq<UnhealthyEntity>
  {
    if st == UNHEALTHY then [UnhealthyEntity(kind, ns, name, rate)] else []
  }

  lemma CountedStep(kind: Kind, ns: string, m: map<string, Entity>, done: set<string>, counts: Counts,
                    listed: seq<UnhealthyEntity>, name: string, st: Status, rate: real)
    requires Counted(kind, ns, m, done, counts, listed) && name in m && name !in done
    requires st == EntityStatus(m[name]) && rate == ErrorRate(m[name].requests)
    ensures Counted(kind, ns, m, done + {name}, Bump(counts, st), listed + Entry(kind, ns, name, st, rate))
  {
    CensusStep(m, done, name);
    forall e
      ensures e in listed + Entry(kind, ns, name, st, rate) <==> Lists(e, kind, ns, m, done + {name})
    {
      assert Lists(e, kind, ns, m, done + {name}) <==> Lists(e, kind, ns, m, done) || e in Entry(kind, ns, name, st, rate);
    }
  }

  lemma Appends(a: seq<UnhealthyEntity>, b: seq<UnhealthyEntity>, c: seq<UnhealthyEntity>)
    ensures a + (b + c) == a + b + c
  {
  }

  lemma BumpBoth(mesh: Counts, counts: Counts, st: Status)
    ensures Bump(Plus(mesh, counts), st) == Plus(mesh, Bump(counts, st))
  {
  }

  /** What a pass over one kind of entity in one namespace has added to the mesh's counts, the
      namespace's error rate and the mesh's list. */
  datatype Pass = Pass(mesh: Counts, counts: Counts, rate: real, top: seq<UnhealthyEntity>)

  ghost predicate Underway(kind: Kind, ns: string, m: map<string, Entity>, todo: set<string>,
                           start: Pass, now: Pass, listed: seq<UnhealthyEntity>)
  {
    && todo <= m.Keys
    && Counted(kind, ns, m, m.Keys - todo, now.counts, listed)
    && now.mesh == Plus(start.mesh, now.counts) && now.top == start.top + listed
    && now.rate + RateSum(m, todo) == start.rate + RateSum(m, m.Keys)
  }

  lemma PassStep(kind: Kind, ns: string, m: map<string, Entity>, todo: set<string>,
                 start: Pass, now: Pass, listed: seq<UnhealthyEntity>, name: string, st: Status, rate: real)
    requires Underway(kind, ns, m, todo, start, now, listed) && name in todo
    requires st == EntityStatus(m[name]) && rate == ErrorRate(m[name].requests)
    ensures var entry := Entry(kind, ns, name, st, rate);
            Underway(kind, ns, m, todo - {name}, start,
                     Pass(Bump(now.mesh, st), Bump(now.counts, st), now.rate + rate, now.top + entry), listed + entry)
  {
    CountedStep(kind, ns, m, m.Keys - todo, now.counts, listed, name, st, rate);
    RateSumStep(m, todo, name);
    assert m.Keys - todo + {name} == m.Keys - (todo - {name});
    BumpBoth(start.mesh, now.counts, st);
    Appends(start.top, listed, Entry(kind, ns, name, st, rate));
  }

  /** The part of the summary loop that goes over one kind of entity in one namespace. */
  method Tally(kind: Kind, ns: string, m: map<string, Entity>, mesh: Counts, rate: real, top: seq<UnhealthyEntity>)
    returns (now: Pass, ghost listed: seq<UnhealthyEntity>)
    ensures now.mesh == Plus(mesh, now.counts) && now.top == top + listed
    ensures Counted(kind, ns, m, m.Keys, now.counts, listed)
    ensures now.rate == rate + RateSum(m, m.Keys)
  {
    now, listed := Pass(mesh, NO_COUNTS, rate, top), [];
    ghost var start := now;
    var todo := m.Keys;
    while todo != {}
      invariant Underway(kind, ns, m, todo, start, now, listed)
      decreases todo
    {
      var name :| name in todo;
      var status, errorRate := Evaluate(m[name]);
      PassStep(kind, ns, m, todo, start, now, listed, name, status, errorRate);
      var entry := Entry(kind, ns, name, status, errorRate);
      now := Pass(Bump(now.mesh, status), Bump(now.counts, status), now.rate + errorRate, now.top + entry);
      listed := listed + entry;
      todo := todo - {name};
    }
    assert m.Keys - todo == m.Keys;
  }

  // Statuses and availability.

  function All(n: NamespaceSummary): Counts
  {
    Plus(Plus(n.apps, n.services), n.workloads)
  }

  /** The status of a namespace with these counts and this error rate. */
  function NamespaceStatus(c: Counts, errorRate: real): Status
  {
    if c.total == 0 then UNKNOWN
    else if c.unhealthy == 0 && errorRate < 0.01 then HEALTHY
    else if c.unhealthy > c.total / 2 || errorRate > 0.05 then UNHEALTHY
    else DEGRADED
  }

  function OverallStatus(c: Counts): Status
  {
    if c.total == 0 then UNKNOWN
    else if c.unhealthy > 0 then if c.unhealthy > c.total / 2 then UNHEALTHY else DEGRADED
    else if c.degraded > 0 then DEGRADED
    else HEALTHY
  }

  function Availability(c: Counts): real
  {
    if c.total == 0 then 100.0
    else (c.healthy as real + c.degraded as real * 0.5) / c.total as real * 100.0
  }

  // The summary of one namespace.

  function In(mesh: Mesh, ns: string): map<string, Entity>
  {
    if ns in mesh then mesh[ns] else map[]
  }

  function MeshOf(h: Health, kind: Kind): Mesh
  {
    match kind
    case AppKind => h.apps
    case ServiceKind => h.services
    case WorkloadKind => h.workloads
  }

  ghost function CountsIn(h: Health, kind: Kind, ns: string): Counts
  {
    Census(In(MeshOf(h, kind), ns), In(MeshOf(h, kind), ns).Keys)
  }

  ghost function RateIn(h: Health, kind: Kind, ns: string): real
  {
    RateSum(In(MeshOf(h, kind), ns), In(MeshOf(h, kind), ns).Keys)
  }

  /** The counts and the error rate are those of the namespace's entities. */
  ghost predicate Tallied(h: Health, ns: string, n: NamespaceSummary)
  {
    && n.apps == CountsIn(h, AppKind, ns) && n.services == CountsIn(h, ServiceKind, ns)
    && n.workloads == CountsIn(h, WorkloadKind, ns)
    && n.errorRate == RateIn(h, AppKind, ns) + RateIn(h, ServiceKind, ns) + RateIn(h, WorkloadKind, ns)
  }

  ghost predicate Rated(n: NamespaceSummary)
  {
    n.status == NamespaceStatus(All(n), n.errorRate) && n.availability == Availability(All(n))
  }

  /** The entry stands for an unhealthy entity of its kind and namespace. */
  ghost predicate Listed(h: Health, e: UnhealthyEntity)
  {
    var m := In(MeshOf(h, e.kind), e.namespace);
    Lists(e, e.kind, e.namespace, m, m.Keys)
  }

  /** The list holds one entry for each of the `count` unhealthy entities of the kind. */
  ghost predicate ListsKind(h: Health, ns: string, kind: Kind, count: int, listed: seq<UnhealthyEntity>)
  {
    |listed| == count && forall e :: e in listed <==> e.kind == kind && e.namespace == ns && Listed(h, e)
  }

  ghost predicate ListsNamespace(h: Health, ns: string, count: int, listed: seq<UnhealthyEntity>)
  {
    |listed| == count && forall e :: e in listed <==> e.namespace == ns && Listed(h, e)
  }

  lemma ThreeKinds(h: Health, ns: string, c: (int, int, int), a: seq<UnhealthyEntity>, s: seq<UnhealthyEntity>, w: seq<UnhealthyEntity>)
    requires ListsKind(h, ns, AppKind, c.0, a) && ListsKind(h, ns, ServiceKind, c.1, s) && ListsKind(h, ns, WorkloadKind, c.2, w)
    ensures ListsNamespace(h, ns, c.0 + c.1 + c.2, a + s + w)
  {
  }

  /** `Tally` for one kind, which a namespace need not have. */
  method TallyKind(h: Health, kind: Kind, ns: string, mesh: Counts, rate: real, top: seq<UnhealthyEntity>)
    returns (now: Pass, ghost listed: seq<UnhealthyEntity>)
    ensures now.counts == CountsIn(h, kind, ns) && now.mesh == Plus(mesh, now.counts)
    ensures now.rate == rate + RateIn(h, kind, ns)
    ensures now.top == top + listed && ListsKind(h, ns, kind, now.counts.unhealthy, listed)
  {
    if ns in MeshOf(h, kind) {
      now, listed := Tally(kind, ns, MeshOf(h, kind)[ns], mesh, rate, top);
    } else {
      now, listed := Pass(mesh, NO_COUNTS, rate, top), [];
    }
  }

  function With3(t: EntityCounts, n: NamespaceSummary): EntityCounts
  {
    EntityCounts(Plus(t.apps, n.apps), Plus(t.services, n.services), Plus(t.workloads, n.workloads))
  }

  method SummariseNamespace(h: Health, ns: string, t: EntityCounts, top: seq<UnhealthyEntity>)
    returns (n: NamespaceSummary, t': EntityCounts, top': seq<UnhealthyEntity>, ghost listed: seq<UnhealthyEntity>)
    ensures Tallied(h, ns, n) && Rated(n) && t' == With3(t, n)
    ensures top' == top + listed && ListsNamespace(h, ns, All(n).unhealthy, listed)
  {
    ghost var l1, l2, l3;
    var apps, services, workloads;
    apps, l1 := TallyKind(h, AppKind, ns, t.apps, 0.0, top);
    services, l2 := TallyKind(h, ServiceKind, ns, t.services, apps.rate, apps.top);
    workloads, l3 := TallyKind(h, WorkloadKind, ns, t.workloads, services.rate, services.top);
    var all := Plus(Plus(apps.counts, services.counts), workloads.counts);
    n := NamespaceSummary(apps.counts, services.counts, workloads.counts, workloads.rate,
                          NamespaceStatus(all, workloads.rate), Availability(all));
    t', top', listed := EntityCounts(apps.mesh, services.mesh, workloads.mesh), workloads.top, l1 + l2 + l3;
    ThreeKinds(h, ns, (n.apps.unhealthy, n.services.unhealthy, n.workloads.unhealthy), l1, l2, l3);
    Appends(top, l1, l2);
    Appends(top, l1 + l2, l3);
  }

  // The whole mesh.

  function Namespaces(h: Health): set<string>
  {
    h.apps.Keys + h.services.Keys + h.workloads.Keys
  }

  ghost predicate AllTallied(h: Health, ns: map<string, NamespaceSummary>)
  {
    forall k {:trigger Tallied(h, k, ns[k])} :: k in ns ==> Tallied(h, k, ns[k])
  }

  ghost predicate AllRated(ns: map<string, NamespaceSummary>)
  {
    forall k {:trigger Rated(ns[k])} :: k in ns ==> Rated(ns[k])
  }

  lemma AllTalliedNext(h: Health, ns: map<string, NamespaceSummary>, k: string, n: NamespaceSummary)
    requires AllTallied(h, ns) && Tallied(h, k, n)
    ensures AllTallied(h, ns[k := n])
  {
    var next := ns[k := n];
    forall j | j in next ensures Tallied(h, j, next[j]) {
      assert j == k || Tallied(h, j, ns[j]);
    }
  }

  lemma AllRatedNext(ns: map<string, NamespaceSummary>, k: string, n: NamespaceSummary)
    requires AllRated(ns) && Rated(n)
    ensures AllRated(ns[k := n])
  {
    var next := ns[k := n];
    forall j | j in next ensures Rated(next[j]) {
      assert j == k || Rated(ns[j]);
    }
  }

  const NO_ENTITIES := EntityCounts(NO_COUNTS, NO_COUNTS, NO_COUNTS)

  /** The sum of the counts of some namespaces. */
  ghost function SumOver(ns: map<string, NamespaceSummary>, keys: set<string>): EntityCounts
    requires keys <= ns.Keys
  {
    if keys == {} then NO_ENTITIES
    else
      var k :| k in keys;
      With3(SumOver(ns, keys - {k}), ns[k])
  }

  lemma MoreSwaps(t: EntityCounts, m: NamespaceSummary, n: NamespaceSummary)
    ensures With3(With3(t, m), n) == With3(With3(t, n), m)
  {
  }

  lemma {:induction false} SumOverStep(ns: map<string, NamespaceSummary>, keys: set<string>, k: string)
    requires keys <= ns.Keys && k in keys
    ensures SumOver(ns, keys) == With3(SumOver(ns, keys - {k}), ns[k])
    decreases keys
  {
    var j :| j in keys && SumOver(ns, keys) == With3(SumOver(ns, keys - {j}), ns[j]);
    if j != k {
      SumOverStep(ns, keys - {j}, k);
      SumOverStep(ns, keys - {k}, j);
      assert keys - {j} - {k} == keys - {k} - {j};
      MoreSwaps(SumOver(ns, keys - {j} - {k}), ns[j], ns[k]);
    }
  }

  ghost function RatesOver(ns: map<string, NamespaceSummary>, keys: set<string>): real
    requires keys <= ns.Keys
  {
    if keys == {} then 0.0
    else
      var k :| k in keys;
      RatesOver(ns, keys - {k}) + ns[k].errorRate
  }

  lemma {:induction false} RatesOverStep(ns: map<string, NamespaceSummary>, keys: set<string>, k: string)
    requires keys <= ns.Keys && k in keys
    ensures RatesOver(ns, keys) == RatesOver(ns, keys - {k}) + ns[k].errorRate
    decreases keys
  {
    var j :| j in keys && RatesOver(ns, keys) == RatesOver(ns, keys - {j}) + ns[j].errorRate;
    if j != k {
      RatesOverStep(ns, keys - {j}, k);
      RatesOverStep(ns, keys - {k}, j);
      assert keys - {j} - {k} == keys - {k} - {j};
    }
  }

  method ComputeTotalErrorRate(ns: map<string, NamespaceSummary>) returns (total: real)
    ensures total == RatesOver(ns, ns.Keys)
  {
    total := 0.0;
    var todo := ns.Keys;
    while todo != {}
      invariant todo <= ns.Keys && total + RatesOver(ns, todo) == RatesOver(ns, ns.Keys)
      decreases todo
    {
      var k :| k in todo;
      RatesOverStep(ns, todo, k);
      total := total + ns[k].errorRate;
      todo := todo - {k};
    }
  }

  function Sum(t: EntityCounts): Counts
  {
    Plus(Plus(t.apps, t.services), t.workloads)
  }

  lemma {:induction false} SumOverLess(ns: map<string, NamespaceSummary>, keys: set<string>, k: string, n: NamespaceSummary)
    requires keys <= ns.Keys && k !in keys
    ensures SumOver(ns[k := n], keys) == SumOver(ns, keys)
    decreases keys
  {
    if keys != {} {
      var j :| j in keys;
      SumOverStep(ns, keys, j);
      SumOverStep(ns[k := n], keys, j);
      SumOverLess(ns, keys - {j}, k, n);
    }
  }

  lemma SumOverNext(ns: map<string, NamespaceSummary>, k: string, n: NamespaceSummary)
    requires k !in ns
    ensures ns[k := n].Keys == ns.Keys + {k}
    ensures SumOver(ns[k := n], ns[k := n].Keys) == With3(SumOver(ns, ns.Keys), n)
  {
    assert ns[k := n].Keys == ns.Keys + {k};
    SumOverStep(ns[k := n], ns.Keys + {k}, k);
    assert ns.Keys + {k} - {k} == ns.Keys;
    SumOverLess(ns, ns.Keys, k, n);
  }

  /** The list, before it is cut, holds one entry for each of the `count` unhealthy entities
      of these namespaces. */
  ghost predicate ListsMesh(h: Health, done: set<string>, count: int, listed: seq<UnhealthyEntity>)
  {
    |listed| == count && forall e :: e in listed <==> e.namespace in done && Listed(h, e)
  }

  lemma ListsMeshStep(h: Health, done: set<string>, count: int, top: seq<UnhealthyEntity>,
                      ns: string, more: int, listed: seq<UnhealthyEntity>)
    requires ListsMesh(h, done, count, top) && ListsNamespace(h, ns, more, listed)
    ensures ListsMesh(h, done + {ns}, count + more, top + listed)
  {
  }

  lemma SumOfMore(t: EntityCounts, n: NamespaceSummary)
    ensures Sum(With3(t, n)) == Plus(Sum(t), All(n))
  {
  }

  ghost predicate Accumulated(h: Health, ns: map<string, NamespaceSummary>, t: EntityCounts, top: seq<UnhealthyEntity>)
  {
    t == SumOver(ns, ns.Keys) && ListsMesh(h, ns.Keys, Sum(t).unhealthy, top)
  }

  lemma AccumulatedStep(h: Health, ns: map<string, NamespaceSummary>, t: EntityCounts, top: seq<UnhealthyEntity>,
                        k: string, n: NamespaceSummary, listed: seq<UnhealthyEntity>)
    requires Accumulated(h, ns, t, top) && k !in ns && ListsNamespace(h, k, All(n).unhealthy, listed)
    ensures Accumulated(h, ns[k := n], With3(t, n), top + listed)
  {
    SumOverNext(ns, k, n);
    ListsMeshStep(h, ns.Keys, Sum(t).unhealthy, top, k, All(n).unhealthy, listed);
    SumOfMore(t, n);
  }

  /** Where the loop over the namespaces stands. */
  ghost predicate Aggregated(h: Health, ns: map<string, NamespaceSummary>, t: EntityCounts, top: seq<UnhealthyEntity>)
  {
    AllTallied(h, ns) && AllRated(ns) && Accumulated(h, ns, t, top)
  }

  lemma AggregatedStep(h: Health, ns: map<string, NamespaceSummary>, t: EntityCounts, top: seq<UnhealthyEntity>,
                       k: string, n: NamespaceSummary, listed: seq<UnhealthyEntity>)
    requires Aggregated(h, ns, t, top) && k !in ns
    requires Tallied(h, k, n) && Rated(n) && ListsNamespace(h, k, All(n).unhealthy, listed)
    ensures Aggregated(h, ns[k := n], With3(t, n), top + listed)
  {
    AccumulatedStep(h, ns, t, top, k, n, listed);
    AllTalliedNext(h, ns, k, n);
    AllRatedNext(ns, k, n);
  }

  /** One turn of the loop over the namespaces. */
  method AddNamespace(h: Health, k: string, ns: map<string, NamespaceSummary>, t: EntityCounts, top: seq<UnhealthyEntity>)
    returns (ns': map<string, NamespaceSummary>, t': EntityCounts, top': seq<UnhealthyEntity>)
    requires Aggregated(h, ns, t, top) && k !in ns
    ensures ns'.Keys == ns.Keys + {k} && Aggregated(h, ns', t', top')
  {
    ghost var listed;
    var n;
    n, t', top', listed := SummariseNamespace(h, k, t, top);
    AggregatedStep(h, ns, t, top, k, n, listed);
    ns' := ns[k := n];
  }

  method AggregateNamespaces(h: Health)
    returns (ns: map<string, NamespaceSummary>, t: EntityCounts, top: seq<UnhealthyEntity>)
    ensures ns.Keys == Namespaces(h) && Aggregated(h, ns, t, top)
  {
    ns, t, top := map[], NO_ENTITIES, [];
    var todo := Namespaces(h);
    while todo != {}
      invariant todo + ns.Keys == Namespaces(h) && todo !! ns.Keys && Aggregated(h, ns, t, top)
      decreases todo
    {
      var k :| k in todo;
      ns, t, top := AddNamespace(h, k, ns, t, top);
      todo := todo - {k};
    }
  }

  /** The list as it is kept: at most ten entries, no entry left out above one kept. */
  ghost predicate TopOf(top: seq<UnhealthyEntity>, ranked: seq<UnhealthyEntity>)
  {
    Descending(ranked) && top <= ranked && |top| == if |ranked| > 10 then 10 else |ranked|
  }

  method RankUnhealthy(listed: seq<UnhealthyEntity>)
    returns (top: seq<UnhealthyEntity>, ghost ranked: seq<UnhealthyEntity>)
    ensures Reordered(ranked, listed) && TopOf(top, ranked)
  {
    var a := new UnhealthyEntity[|listed|](i requires 0 <= i < |listed| => listed[i]);
    assert a[..] == listed;
    SortUnhealthyByImpact(a);
    ranked := a[..];
    top := a[..];
    if |top| > 10 {
      top := top[..10];
    }
  }

  lemma ReorderedLists(h: Health, done: set<string>, count: int, s: seq<UnhealthyEntity>, t: seq<UnhealthyEntity>)
    requires ListsMesh(h, done, count, s) && Reordered(t, s)
    ensures ListsMesh(h, done, count, t)
  {
    assert |multiset(s)| == |s| && |multiset(t)| == |t|;
    forall e ensures e in t <==> e in s {
      assert e in t <==> e in multiset(t);
    }
  }

  /** What follows the loop over the namespaces. */
  method Conclude(ns: map<string, NamespaceSummary>, t: EntityCounts, listed: seq<UnhealthyEntity>)
    returns (s: Summary, ghost ranked: seq<UnhealthyEntity>)
    ensures s.namespaces == ns && s.entityCounts == t && s.namespaceCount == |ns|
    ensures s.totalErrorRate == RatesOver(ns, ns.Keys)
    ensures s.overallStatus == OverallStatus(Sum(t)) && s.availability == Availability(Sum(t))
    ensures Reordered(ranked, listed) && TopOf(s.topUnhealthy, ranked)
  {
    var rate := ComputeTotalErrorRate(ns);
    var kept;
    kept, ranked := RankUnhealthy(listed);
    s := Summary(OverallStatus(Sum(t)), Availability(Sum(t)), rate, |ns|, t, ns, kept);
  }

  method ComputeHealthSummary(h: Health) returns (s: Summary, ghost ranked: seq<UnhealthyEntity>)
    ensures s.namespaces.Keys == Namespaces(h) && s.namespaceCount == |s.namespaces|
    ensures AllTallied(h, s.namespaces) && AllRated(s.namespaces)
    ensures s.entityCounts == SumOver(s.namespaces, s.namespaces.Keys)
    ensures s.totalErrorRate == RatesOver(s.namespaces, s.namespaces.Keys)
    ensures s.overallStatus == OverallStatus(Sum(s.entityCounts))
    ensures s.availability == Availability(Sum(s.entityCounts))
    ensures ListsMesh(h, Namespaces(h), Sum(s.entityCounts).unhealthy, ranked) && TopOf(s.topUnhealthy, ranked)
  {
    var ns, t, top := AggregateNamespaces(h);
    s, ranked := Conclude(ns, t, top);
    ReorderedLists(h, ns.Keys, Sum(t).unhealthy, top, ranked);
  }

  // What the numbers mean.

  /** No count is negative and the statuses make up the total but for the unknown ones. */
  ghost predicate Adds(c: Counts, unknown: int)
  {
    && c.healthy >= 0 && c.degraded >= 0 && c.unhealthy >= 0 && c.notReady >= 0 && unknown >= 0
    && c.healthy + c.degraded + c.unhealthy + c.notReady + unknown == c.total
  }

  ghost function UnknownIn(h: Health, kind: Kind, ns: string): nat
  {
    |With(In(MeshOf(h, kind), ns), In(MeshOf(h, kind), ns).Keys, UNKNOWN)|
  }

  ghost function NamespaceUnknown(h: Health, ns: string): int
  {
    UnknownIn(h, AppKind, ns) + UnknownIn(h, ServiceKind, ns) + UnknownIn(h, WorkloadKind, ns)
  }

  lemma PlusAdds(c: Counts, u: int, d: Counts, v: int)
    requires Adds(c, u) && Adds(d, v)
    ensures Adds(Plus(c, d), u + v)
  {
  }

  lemma KindAdds(h: Health, kind: Kind, ns: string) returns (c: Counts, u: int)
    ensures c == CountsIn(h, kind, ns) && u == UnknownIn(h, kind, ns) && Adds(c, u)
  {
    var m := In(MeshOf(h, kind), ns);
    c, u := Census(m, m.Keys), |With(m, m.Keys, UNKNOWN)|;
    CensusAdds(m, m.Keys);
  }

  /** Conservation in one namespace: every entity is counted under one status, or is unknown. */
  lemma NamespaceAdds(h: Health, ns: string, n: NamespaceSummary)
    requires Tallied(h, ns, n)
    ensures Adds(All(n), NamespaceUnknown(h, ns))
  {
    var a, u := KindAdds(h, AppKind, ns);
    var b, v := KindAdds(h, ServiceKind, ns);
    var c, w := KindAdds(h, WorkloadKind, ns);
    PlusAdds(a, u, b, v);
    PlusAdds(Plus(a, b), u + v, c, w);
  }

  // The mesh, with the counts of each namespace over all kinds.

  ghost function AllCounts(ns: map<string, NamespaceSummary>): map<string, Counts>
  {
    map k | k in ns :: All(ns[k])
  }

  ghost function Unknowns(h: Health): map<string, int>
  {
    map k | k in Namespaces(h) :: NamespaceUnknown(h, k)
  }

  ghost function SumAll(c: map<string, Counts>, keys: set<string>): Counts
    requires keys <= c.Keys
  {
    if keys == {} then NO_COUNTS
    else
      var k :| k in keys;
      Plus(SumAll(c, keys - {k}), c[k])
  }

  lemma PlusSwaps(a: Counts, b: Counts, c: Counts)
    ensures Plus(Plus(a, b), c) == Plus(Plus(a, c), b)
  {
  }

  lemma {:induction false} SumAllStep(c: map<string, Counts>, keys: set<string>, k: string)
    requires keys <= c.Keys && k in keys
    ensures SumAll(c, keys) == Plus(SumAll(c, keys - {k}), c[k])
    decreases keys
  {
    var j :| j in keys && SumAll(c, keys) == Plus(SumAll(c, keys - {j}), c[j]);
    if j != k {
      SumAllStep(c, keys - {j}, k);
      SumAllStep(c, keys - {k}, j);
      assert keys - {j} - {k} == keys - {k} - {j};
      PlusSwaps(SumAll(c, keys - {j} - {k}), c[j], c[k]);
    }
  }

  /** Summing over kinds and then namespaces is summing over namespaces and then kinds. */
  lemma {:induction false} KindsThenNamespaces(ns: map<string, NamespaceSummary>, keys: set<string>)
    requires keys <= ns.Keys
    ensures Sum(SumOver(ns, keys)) == SumAll(AllCounts(ns), keys)
    decreases keys
  {
    if keys != {} {
      var k :| k in keys;
      SumAllStep(AllCounts(ns), keys, k);
      SumOverStep(ns, keys, k);
      SumOfMore(SumOver(ns, keys - {k}), ns[k]);
      KindsThenNamespaces(ns, keys - {k});
    }
  }

  ghost function UnknownOver(unknown: map<string, int>, keys: set<string>): int
    requires keys <= unknown.Keys
  {
    if keys == {} then 0
    else
      var k :| k in keys;
      UnknownOver(unknown, keys - {k}) + unknown[k]
  }

  ghost predicate AllAdd(c: map<string, Counts>, unknown: map<string, int>)
  {
    unknown.Keys == c.Keys && forall k {:trigger Adds(c[k], unknown[k])} :: k in c ==> Adds(c[k], unknown[k])
  }

  /** Conservation in the mesh. */
  lemma {:induction false} MeshAdds(c: map<string, Counts>, unknown: map<string, int>, keys: set<string>)
    requires AllAdd(c, unknown) && keys <= c.Keys
    ensures Adds(SumAll(c, keys), UnknownOver(unknown, keys))
    decreases keys
  {
    if keys != {} {
      var k :| k in keys && UnknownOver(unknown, keys) == UnknownOver(unknown, keys - {k}) + unknown[k];
      MeshAdds(c, unknown, keys - {k});
      SumAllStep(c, keys, k);
      assert Adds(c[k], unknown[k]);
      PlusAdds(SumAll(c, keys - {k}), UnknownOver(unknown, keys - {k}), c[k], unknown[k]);
    }
  }

  lemma SummariesAdd(h: Health, ns: map<string, NamespaceSummary>)
    requires ns.Keys == Namespaces(h) && AllTallied(h, ns)
    ensures AllAdd(AllCounts(ns), Unknowns(h))
  {
    forall k | k in AllCounts(ns) ensures Adds(AllCounts(ns)[k], Unknowns(h)[k]) {
      assert Tallied(h, k, ns[k]);
      NamespaceAdds(h, k, ns[k]);
    }
  }

  /** A healthy entity is worth 100 points, a degraded one 50. */
  ghost function Points(c: Counts): real
  {
    100.0 * c.healthy as real + 50.0 * c.degraded as real
  }

  lemma Percentage(part: real, whole: real)
    requires 0.0 <= part <= whole && whole > 0.0
    ensures part / whole * 100.0 * whole == part * 100.0
    ensures 0.0 <= part / whole * 100.0 <= 100.0
    ensures part / whole * 100.0 == 100.0 <==> part == whole
    ensures part / whole * 100.0 == 0.0 <==> part == 0.0
  {
    var q := part / whole;
    assert q * whole == part;
  }

  /** Availability is a percentage: all of it when every entity is healthy, none of it when
      no entity is healthy or degraded. */
  lemma AvailabilityIs(c: Counts, unknown: int)
    requires Adds(c, unknown)
    ensures Availability(c) * c.total as real == Points(c)
    ensures 0.0 <= Availability(c) <= 100.0
    ensures c.total > 0 ==> (Availability(c) == 100.0 <==> c.healthy == c.total)
    ensures c.total > 0 ==> (Availability(c) == 0.0 <==> c.healthy == 0 && c.degraded == 0)
  {
    if c.total > 0 {
      Percentage(c.healthy as real + c.degraded as real * 0.5, c.total as real);
    }
  }

  ghost function RealSum(w: map<string, real>, keys: set<string>): real
    requires keys <= w.Keys
  {
    if keys == {} then 0.0
    else
      var k :| k in keys;
      RealSum(w, keys - {k}) + w[k]
  }

  /** Availability weighted by the number of entities. */
  ghost function Weights(c: map<string, Counts>): map<string, real>
  {
    map k | k in c :: Availability(c[k]) * c[k].total as real
  }

  lemma PointsOfPlus(c: Counts, d: Counts)
    ensures Points(Plus(c, d)) == Points(c) + Points(d)
  {
  }

  lemma {:induction false} PointsAddUp(c: map<string, Counts>, w: map<string, real>, keys: set<string>)
    requires c.Keys == w.Keys && keys <= c.Keys && forall k :: k in w ==> w[k] == Points(c[k])
    ensures RealSum(w, keys) == Points(SumAll(c, keys))
    decreases keys
  {
    if keys != {} {
      var k :| k in keys && RealSum(w, keys) == RealSum(w, keys - {k}) + w[k];
      SumAllStep(c, keys, k);
      PointsOfPlus(SumAll(c, keys - {k}), c[k]);
      PointsAddUp(c, w, keys - {k});
    }
  }

  lemma WeightsArePoints(c: map<string, Counts>, unknown: map<string, int>)
    requires AllAdd(c, unknown)
    ensures forall k :: k in c ==> Weights(c)[k] == Points(c[k])
  {
    forall k | k in c ensures Availability(c[k]) * c[k].total as real == Points(c[k]) {
      assert Adds(c[k], unknown[k]);
      AvailabilityIs(c[k], unknown[k]);
    }
  }

  lemma WorthOf(all: Counts, unknown: int, points: real)
    requires Adds(all, unknown) && points == Points(all)
    ensures 0.0 <= Availability(all) <= 100.0 && Availability(all) * all.total as real == points
  {
    AvailabilityIs(all, unknown);
  }

  lemma WeightsAddUp(c: map<string, Counts>, unknown: map<string, int>) returns (u: int, points: real)
    requires AllAdd(c, unknown)
    ensures points == RealSum(Weights(c), c.Keys) == Points(SumAll(c, c.Keys)) && Adds(SumAll(c, c.Keys), u)
  {
    WeightsArePoints(c, unknown);
    PointsAddUp(c, Weights(c), c.Keys);
    MeshAdds(c, unknown, c.Keys);
    u, points := UnknownOver(unknown, c.Keys), RealSum(Weights(c), c.Keys);
  }

  /** Unhealthy means a strict majority of unhealthy entities or, for a namespace, an error rate
      above 5%; both statuses only get worse with more unhealthy and degraded entities and a
      higher error rate. */
  lemma StatusThresholds(c: Counts, u: int, d: Counts, v: int, r: real, q: real)
    requires Adds(c, u) && Adds(d, v) && c.total == d.total > 0
    ensures NamespaceStatus(c, r) == UNHEALTHY <==> 2 * c.unhealthy > c.total || r > 0.05
    ensures OverallStatus(c) == UNHEALTHY <==> 2 * c.unhealthy > c.total
    ensures c.unhealthy <= d.unhealthy && c.degraded <= d.degraded && r <= q ==>
              && Priority(NamespaceStatus(c, r)) <= Priority(NamespaceStatus(d, q))
              && Priority(OverallStatus(c)) <= Priority(OverallStatus(d))
  {
  }

  lemma MajorityOfPlus(c: Counts, u: int, d: Counts, v: int, errorRate: real)
    requires Adds(c, u) && Adds(d, v) && OverallStatus(Plus(c, d)) == UNHEALTHY
    ensures OverallStatus(c) == UNHEALTHY || NamespaceStatus(d, errorRate) == UNHEALTHY
  {
  }

  /** A mesh is reported unhealthy only when one of its namespaces is, whatever the error rates. */
  lemma {:induction false} UnhealthyMeshHasUnhealthyNamespace(
    c: map<string, Counts>, unknown: map<string, int>, keys: set<string>, errorRates: map<string, real>) returns (k: string)
    requires AllAdd(c, unknown) && keys <= c.Keys && keys <= errorRates.Keys && OverallStatus(SumAll(c, keys)) == UNHEALTHY
    ensures k in keys && NamespaceStatus(c[k], errorRates[k]) == UNHEALTHY
    decreases keys
  {
    k :| k in keys;
    var rest := SumAll(c, keys - {k});
    SumAllStep(c, keys, k);
    MeshAdds(c, unknown, keys - {k});
    assert Adds(c[k], unknown[k]);
    MajorityOfPlus(rest, UnknownOver(unknown, keys - {k}), c[k], unknown[k], errorRates[k]);
    if OverallStatus(rest) == UNHEALTHY {
      k := UnhealthyMeshHasUnhealthyNamespace(c, unknown, keys - {k}, errorRates);
    }
  }

  /** Every entity of the mesh is counted under one status in its namespace and in the mesh,
      or is one of the unknown. */
  lemma SummaryConserves(h: Health, ns: map<string, NamespaceSummary>)
    requires ns.Keys == Namespaces(h) && AllTallied(h, ns)
    ensures AllAdd(AllCounts(ns), Unknowns(h))
    ensures Adds(Sum(SumOver(ns, ns.Keys)), UnknownOver(Unknowns(h), ns.Keys))
  {
    SummariesAdd(h, ns);
    KindsThenNamespaces(ns, ns.Keys);
    MeshAdds(AllCounts(ns), Unknowns(h), ns.Keys);
  }

  lemma SummaryPoints(h: Health, ns: map<string, NamespaceSummary>, all: Counts) returns (u: int, points: real)
    requires ns.Keys == Namespaces(h) && AllTallied(h, ns) && all == Sum(SumOver(ns, ns.Keys))
    ensures points == RealSum(Weights(AllCounts(ns)), ns.Keys) == Points(all) && Adds(all, u)
  {
    assert AllCounts(ns).Keys == ns.Keys;
    SummariesAdd(h, ns);
    KindsThenNamespaces(ns, ns.Keys);
    u, points := WeightsAddUp(AllCounts(ns), Unknowns(h));
  }

  /** The mesh's availability is the mean of its namespaces' availability, weighted by their
      numbers of entities. */
  lemma AvailabilityIsWeightedMean(h: Health, ns: map<string, NamespaceSummary>, all: Counts)
    requires ns.Keys == Namespaces(h) && AllTallied(h, ns) && all == Sum(SumOver(ns, ns.Keys))
    ensures 0.0 <= Availability(all) <= 100.0
    ensures Availability(all) * all.total as real == RealSum(Weights(AllCounts(ns)), ns.Keys)
  {
    var u, points := SummaryPoints(h, ns, all);
    WorthOf(all, u, points);
  }

  lemma UnhealthySummary(h: Health, ns: map<string, NamespaceSummary>) returns (k: string)
    requires ns.Keys == Namespaces(h) && AllTallied(h, ns) && AllRated(ns) && OverallStatus(Sum(SumOver(ns, ns.Keys))) == UNHEALTHY
    ensures k in ns && ns[k].status == UNHEALTHY
  {
    var c := AllCounts(ns);
    assert c.Keys == ns.Keys;
    SummariesAdd(h, ns);
    KindsThenNamespaces(ns, ns.Keys);
    k := UnhealthyMeshHasUnhealthyNamespace(c, Unknowns(h), ns.Keys, map j | j in ns :: ns[j].errorRate);
    assert Rated(ns[k]);
  }

  /** When a namespace and the mesh have each status. */
  lemma StatusesExactly(c: Counts, unknown: int, errorRate: real)
    requires Adds(c, unknown)
    ensures var st := NamespaceStatus(c, errorRate);
            && (st == UNKNOWN <==> c.total == 0)
            && (st == HEALTHY <==> c.total > 0 && c.unhealthy == 0 && errorRate < 0.01)
            && (st == UNHEALTHY <==> c.total > 0 && (2 * c.unhealthy > c.total || errorRate > 0.05))
            && st != NOT_READY
    ensures var st := OverallStatus(c);
            && (st == UNKNOWN <==> c.total == 0)
            && (st == HEALTHY <==> c.total > 0 && c.unhealthy == 0 && c.degraded == 0)
            && (st == UNHEALTHY <==> 2 * c.unhealthy > c.total)
            && st != NOT_READY
  {
  }

  // The summary seen from the entities themselves.

  function CountOf(c: Counts, st: Status): int
  {
    match st
    case HEALTHY => c.healthy
    case DEGRADED => c.degraded
    case UNHEALTHY => c.unhealthy
    case NOT_READY => c.notReady
    case UNKNOWN => c.total - c.healthy - c.degraded - c.unhealthy - c.notReady
  }

  /** The entities of a namespace, in one of the three meshes, that have a status. */
  ghost function NumberOf(mesh: Mesh, ns: string, st: Status): nat
  {
    if ns in mesh then |set n | n in mesh[ns] && EntityStatus(mesh[ns][n]) == st| else 0
  }

  ghost predicate EntityOf(mesh: Mesh, ns: string, e: Entity)
  {
    ns in mesh && exists n :: n in mesh[ns] && mesh[ns][n] == e
  }

  ghost predicate EntityIn(h: Health, ns: string, e: Entity)
  {
    EntityOf(h.apps, ns, e) || EntityOf(h.services, ns, e) || EntityOf(h.workloads, ns, e)
  }

  ghost predicate SomeIn(h: Health, ns: string, st: Status)
  {
    exists e :: EntityIn(h, ns, e) && EntityStatus(e) == st
  }

  ghost predicate SomeWith(h: Health, st: Status)
  {
    exists ns :: SomeIn(h, ns, st)
  }

  lemma CensusCounts(mesh: Mesh, ns: string, st: Status)
    ensures CountOf(Census(In(mesh, ns), In(mesh, ns).Keys), st) == NumberOf(mesh, ns, st)
    ensures NumberOf(mesh, ns, st) > 0 <==> exists e :: EntityOf(mesh, ns, e) && EntityStatus(e) == st
  {
    var m := In(mesh, ns);
    CensusAdds(m, m.Keys);
    assert With(m, m.Keys, st) == set n | n in m && EntityStatus(m[n]) == st;
    if n :| n in With(m, m.Keys, st) {
      assert EntityOf(mesh, ns, m[n]);
    }
    if e :| EntityOf(mesh, ns, e) && EntityStatus(e) == st {
      var n :| n in mesh[ns] && mesh[ns][n] == e;
      assert n in With(m, m.Keys, st);
    }
  }

  /** The counts of a namespace by kind: how many of its apps, services and workloads have the status. */
  lemma KindCounts(h: Health, ns: string, n: NamespaceSummary, st: Status)
    requires Tallied(h, ns, n)
    ensures CountOf(n.apps, st) == NumberOf(h.apps, ns, st)
    ensures CountOf(n.services, st) == NumberOf(h.services, ns, st)
    ensures CountOf(n.workloads, st) == NumberOf(h.workloads, ns, st)
  {
    KindCount(h, AppKind, ns, n.apps, st);
    KindCount(h, ServiceKind, ns, n.services, st);
    KindCount(h, WorkloadKind, ns, n.workloads, st);
  }

  lemma KindCount(h: Health, kind: Kind, ns: string, c: Counts, st: Status)
    requires c == CountsIn(h, kind, ns)
    ensures CountOf(c, st) == NumberOf(MeshOf(h, kind), ns, st)
  {
    CensusCounts(MeshOf(h, kind), ns, st);
  }

  lemma PlusThree(a: Counts, b: Counts, c: Counts, st: Status)
    ensures CountOf(Plus(Plus(a, b), c), st) == CountOf(a, st) + CountOf(b, st) + CountOf(c, st)
  {
  }

  lemma NamespaceHas(h: Health, ns: string, n: NamespaceSummary, st: Status)
    requires Tallied(h, ns, n)
    ensures CountOf(All(n), st) >= 0
    ensures CountOf(All(n), st) > 0 <==> SomeIn(h, ns, st)
  {
    KindCounts(h, ns, n, st);
    PlusThree(n.apps, n.services, n.workloads, st);
    CensusCounts(h.apps, ns, st);
    CensusCounts(h.services, ns, st);
    CensusCounts(h.workloads, ns, st);
  }

  lemma PlusCounts(a: Counts, b: Counts, st: Status)
    ensures CountOf(Plus(a, b), st) == CountOf(a, st) + CountOf(b, st)
  {
  }

  lemma {:induction false} SumHas(c: map<string, Counts>, keys: set<string>, st: Status)
    requires keys <= c.Keys && forall k :: k in keys ==> CountOf(c[k], st) >= 0
    ensures CountOf(SumAll(c, keys), st) >= 0
    ensures CountOf(SumAll(c, keys), st) > 0 <==> exists k :: k in keys && CountOf(c[k], st) > 0
    decreases keys
  {
    if keys != {} {
      var k :| k in keys;
      SumAllStep(c, keys, k);
      PlusCounts(SumAll(c, keys - {k}), c[k], st);
      SumHas(c, keys - {k}, st);
    }
  }

  lemma MeshHas(h: Health, ns: map<string, NamespaceSummary>, st: Status)
    requires ns.Keys == Namespaces(h) && AllTallied(h, ns)
    ensures CountOf(Sum(SumOver(ns, ns.Keys)), st) >= 0
    ensures CountOf(Sum(SumOver(ns, ns.Keys)), st) > 0 <==> SomeWith(h, st)
  {
    NamespacesHave(h, ns, st);
    KindsThenNamespaces(ns, ns.Keys);
    SumHas(AllCounts(ns), ns.Keys, st);
  }

  lemma NamespacesHave(h: Health, ns: map<string, NamespaceSummary>, st: Status)
    requires ns.Keys == Namespaces(h) && AllTallied(h, ns)
    ensures forall k :: k in ns ==> CountOf(AllCounts(ns)[k], st) >= 0 && (CountOf(AllCounts(ns)[k], st) > 0 <==> SomeIn(h, k, st))
    ensures forall k :: SomeIn(h, k, st) ==> k in ns
  {
    forall k | k in ns
      ensures CountOf(AllCounts(ns)[k], st) >= 0 && (CountOf(AllCounts(ns)[k], st) > 0 <==> SomeIn(h, k, st))
    {
      assert Tallied(h, k, ns[k]);
      NamespaceHas(h, k, ns[k], st);
    }
  }

  lemma FiguresMean(c: Counts)
    requires forall st :: CountOf(c, st) >= 0
    ensures Adds(c, CountOf(c, UNKNOWN))
    ensures c.total == 0 <==> forall st :: CountOf(c, st) == 0
    ensures c.healthy == c.total <==> forall st :: st != HEALTHY ==> CountOf(c, st) == 0
  {
    assert CountOf(c, HEALTHY) >= 0 && CountOf(c, DEGRADED) >= 0 && CountOf(c, UNHEALTHY) >= 0 && CountOf(c, NOT_READY) >= 0
           && CountOf(c, UNKNOWN) >= 0;
    assert (forall st :: CountOf(c, st) == 0) ==>
        CountOf(c, HEALTHY) == 0 && CountOf(c, DEGRADED) == 0 && CountOf(c, UNHEALTHY) == 0 && CountOf(c, NOT_READY) == 0 && CountOf(c, UNKNOWN) == 0;
    assert (forall st :: st != HEALTHY ==> CountOf(c, st) == 0) ==>
        CountOf(c, DEGRADED) == 0 && CountOf(c, UNHEALTHY) == 0 && CountOf(c, NOT_READY) == 0 && CountOf(c, UNKNOWN) == 0;
  }

  /** Figures that say which statuses occur, and no more. */
  ghost predicate Reflects(c: Counts, occurs: Status -> bool)
  {
    forall st :: CountOf(c, st) >= 0 && (CountOf(c, st) > 0 <==> occurs(st))
  }

  lemma ReflectedFigures(c: Counts, occurs: Status -> bool, errorRate: real)
    requires Reflects(c, occurs)
    ensures (exists st :: occurs(st)) <==> c.total > 0
    ensures OverallStatus(c) == UNKNOWN <==> !exists st :: occurs(st)
    ensures OverallStatus(c) == HEALTHY <==> (exists st :: occurs(st)) && !occurs(UNHEALTHY) && !occurs(DEGRADED)
    ensures NamespaceStatus(c, errorRate) == UNKNOWN <==> !exists st :: occurs(st)
    ensures NamespaceStatus(c, errorRate) == HEALTHY <==> (exists st :: occurs(st)) && !occurs(UNHEALTHY) && errorRate < 0.01
    ensures Availability(c) == 100.0 <==> forall st :: occurs(st) ==> st == HEALTHY
    ensures Availability(c) == 0.0 <==> (exists st :: occurs(st)) && !occurs(HEALTHY) && !occurs(DEGRADED)
  {
    forall st ensures CountOf(c, st) >= 0 && (CountOf(c, st) > 0 <==> occurs(st)) {
    }
    FiguresMean(c);
    StatusesExactly(c, CountOf(c, UNKNOWN), errorRate);
    AvailabilityIs(c, CountOf(c, UNKNOWN));
    assert CountOf(c, HEALTHY) == c.healthy && CountOf(c, DEGRADED) == c.degraded && CountOf(c, UNHEALTHY) == c.unhealthy;
  }

  /** A namespace in its summary: unknown without entities; healthy when none of them is unhealthy and
      the error rate is below 1%; fully available when all are healthy, and not at all when none
      is healthy or degraded. */
  lemma NamespaceMeans(h: Health, ns: string, n: NamespaceSummary)
    requires Tallied(h, ns, n) && Rated(n)
    ensures n.status == UNKNOWN <==> !exists st :: SomeIn(h, ns, st)
    ensures n.status == HEALTHY <==> (exists st :: SomeIn(h, ns, st)) && !SomeIn(h, ns, UNHEALTHY) && n.errorRate < 0.01
    ensures n.availability == 100.0 <==> forall st :: SomeIn(h, ns, st) ==> st == HEALTHY
    ensures n.availability == 0.0 <==> (exists st :: SomeIn(h, ns, st)) && !SomeIn(h, ns, HEALTHY) && !SomeIn(h, ns, DEGRADED)
  {
    var occurs := (st: Status) => CountOf(All(n), st) > 0;
    forall st ensures CountOf(All(n), st) >= 0 && (occurs(st) <==> SomeIn(h, ns, st)) {
      NamespaceHas(h, ns, n, st);
    }
    ReflectedFigures(All(n), occurs, n.errorRate);
  }

  /** The mesh in its summary: unknown without entities, healthy when none of them is unhealthy or
      degraded, and its availability as for a namespace. */
  lemma MeshMeans(h: Health, ns: map<string, NamespaceSummary>, all: Counts)
    requires ns.Keys == Namespaces(h) && AllTallied(h, ns) && all == Sum(SumOver(ns, ns.Keys))
    ensures OverallStatus(all) == UNKNOWN <==> !exists st :: SomeWith(h, st)
    ensures OverallStatus(all) == HEALTHY <==> (exists st :: SomeWith(h, st)) && !SomeWith(h, UNHEALTHY) && !SomeWith(h, DEGRADED)
    ensures Availability(all) == 100.0 <==> forall st :: SomeWith(h, st) ==> st == HEALTHY
    ensures Availability(all) == 0.0 <==> (exists st :: SomeWith(h, st)) && !SomeWith(h, HEALTHY) && !SomeWith(h, DEGRADED)
  {
    var occurs := (st: Status) => CountOf(all, st) > 0;
    forall st ensures CountOf(all, st) >= 0 && (occurs(st) <==> SomeWith(h, st)) {
      MeshHas(h, ns, st);
    }
    ReflectedFigures(all, occurs, 0.0);
  }

  ghost predicate ErrorFree(req: Requests)
  {
    !HasErrors(req.inbound, req.inbound.Keys) && !HasErrors(req.outbound, req.outbound.Keys)
  }

  /** No count of an entity of the namespace is negative. */
  ghost predicate CountsSound(mesh: Mesh, ns: string)
  {
    forall e :: EntityOf(mesh, ns, e) ==> NonNegative(e.requests.inbound) && NonNegative(e.requests.outbound)
  }

  lemma {:induction false} RateSumVanishes(m: map<string, Entity>, keys: set<string>)
    requires keys <= m.Keys
    requires forall k :: k in keys ==> NonNegative(m[k].requests.inbound) && NonNegative(m[k].requests.outbound)
    ensures RateSum(m, keys) >= 0.0
    ensures RateSum(m, keys) == 0.0 <==> forall k :: k in keys ==> ErrorFree(m[k].requests)
    decreases keys
  {
    if keys != {} {
      var k :| k in keys;
      RateSumStep(m, keys, k);
      RateSumVanishes(m, keys - {k});
      ErrorRateVanishes(m[k].requests);
    }
  }

  lemma KindRateVanishes(mesh: Mesh, ns: string)
    requires CountsSound(mesh, ns)
    ensures RateSum(In(mesh, ns), In(mesh, ns).Keys) >= 0.0
    ensures RateSum(In(mesh, ns), In(mesh, ns).Keys) == 0.0 <==> forall e :: EntityOf(mesh, ns, e) ==> ErrorFree(e.requests)
  {
    var m := In(mesh, ns);
    forall k | k in m ensures EntityOf(mesh, ns, m[k]) {
    }
    RateSumVanishes(m, m.Keys);
    if e :| EntityOf(mesh, ns, e) && !ErrorFree(e.requests) {
      var n :| n in mesh[ns] && mesh[ns][n] == e;
      assert n in m.Keys;
    }
  }

  /** With counts that are not negative a namespace has no error rate exactly when none of its apps,
      services and workloads has an error. */
  lemma NamespaceRateVanishes(h: Health, ns: string, n: NamespaceSummary)
    requires Tallied(h, ns, n) && CountsSound(h.apps, ns) && CountsSound(h.services, ns) && CountsSound(h.workloads, ns)
    ensures n.errorRate >= 0.0
    ensures n.errorRate == 0.0 <==> forall e :: EntityIn(h, ns, e) ==> ErrorFree(e.requests)
  {
    KindRateVanishes(h.apps, ns);
    KindRateVanishes(h.services, ns);
    KindRateVanishes(h.workloads, ns);
  }

  /** The entries of the list before it is cut: the unhealthy entities, under their own kind. */
  lemma ListedExactly(h: Health, e: UnhealthyEntity)
    ensures Listed(h, e) <==>
            var mesh := match e.kind case AppKind => h.apps case ServiceKind => h.services case WorkloadKind => h.workloads;
            && e.namespace in mesh && e.name in mesh[e.namespace]
            && EntityStatus(mesh[e.namespace][e.name]) == UNHEALTHY
            && e.errorRate == ErrorRate(mesh[e.namespace][e.name].requests)
  {
  }
}
