/** Health of one app, service or workload, from pkg/kiali/health_calculation.go. */
module HealthEntities {
  import opened Options
  import opened HealthRequests

  datatype WorkloadStatus = WorkloadStatus(desired: int, available: int, syncedProxies: int)

  datatype Entity =
    | App(statuses: seq<WorkloadStatus>, requests: Requests)
    | Service(requests: Requests)
    | Workload(status: Option<WorkloadStatus>, requests: Requests)

  function Priority(s: Status): nat
  {
    match s
    case UNHEALTHY => 4
    case DEGRADED => 3
    case NOT_READY => 2
    case HEALTHY => 1
    case UNKNOWN => 0
  }

  function MergeHealthStatus(s1: Status, s2: Status): (r: Status)
    ensures r in {s1, s2} && Priority(r) >= Priority(s1) && Priority(r) >= Priority(s2)
  {
    if Priority(s1) > Priority(s2) then s1 else s2
  }

  /** The worse of two statuses, from unhealthy through degraded, not ready and healthy to unknown. */
  lemma MergeExactly(s1: Status, s2: Status)
    ensures MergeHealthStatus(s1, s2) ==
            if UNHEALTHY in {s1, s2} then UNHEALTHY
            else if DEGRADED in {s1, s2} then DEGRADED
            else if NOT_READY in {s1, s2} then NOT_READY
            else if HEALTHY in {s1, s2} then HEALTHY
            else UNKNOWN
  {
  }

  predicate Unsynced(ws: WorkloadStatus)
  {
    0 <= ws.syncedProxies < ws.available
  }

  /** The status of a workload on its own. */
  function WorkloadStatusOf(ws: WorkloadStatus): Status
  {
    if ws.desired == 0 then NOT_READY
    else if ws.available < ws.desired && ws.available == 0 then UNHEALTHY
    else if ws.available < ws.desired || Unsynced(ws) then DEGRADED
    else HEALTHY
  }

  /** A workload scaled to zero is not ready. Any other is unhealthy when replicas are asked for and
      none is available, healthy when all are and no known number of synced proxies falls short of
      them, and degraded in between. */
  lemma WorkloadStatusExactly(ws: WorkloadStatus)
    ensures var st := WorkloadStatusOf(ws);
            && (st == NOT_READY <==> ws.desired == 0)
            && (st == UNHEALTHY <==> ws.available == 0 < ws.desired)
            && (st == HEALTHY <==> ws.desired != 0 && ws.available >= ws.desired
                                   && (ws.syncedProxies < 0 || ws.syncedProxies >= ws.available))
            && st != UNKNOWN
  {
  }

  /** One turn of the loop over an app's workloads. */
  function AppStep(running: Status, ws: WorkloadStatus): Status
  {
    if ws.desired == 0 then NOT_READY
    else
      var s := if ws.available < ws.desired then
                 if ws.available == 0 then UNHEALTHY else if running != UNHEALTHY then DEGRADED else running
               else running;
      if Unsynced(ws) && s == HEALTHY then DEGRADED else s
  }

  function AppFold(running: Status, statuses: seq<WorkloadStatus>): Status
    decreases statuses
  {
    if statuses == [] then running else AppFold(AppStep(running, statuses[0]), statuses[1..])
  }

  /** The worst status of the workloads, and HEALTHY when there is none. */
  function WorstWorkload(statuses: seq<WorkloadStatus>): Status
  {
    if statuses == [] then HEALTHY
    else MergeHealthStatus(WorkloadStatusOf(statuses[0]), WorstWorkload(statuses[1..]))
  }

  // The running status is overwritten by a workload scaled to zero, so it is the worst one
  // only when what comes after the last of those makes up for what came before.

  predicate ShortOfReplicas(ws: WorkloadStatus)
  {
    ws.desired != 0 && ws.available < ws.desired
  }

  ghost predicate Has(statuses: seq<WorkloadStatus>, s: Status)
  {
    exists i :: 0 <= i < |statuses| && WorkloadStatusOf(statuses[i]) == s
  }

  ghost predicate SomeShort(statuses: seq<WorkloadStatus>)
  {
    exists i :: 0 <= i < |statuses| && ShortOfReplicas(statuses[i])
  }

  /** After every workload scaled to zero there is again one as bad as the worst. */
  ghost predicate NothingForgotten(statuses: seq<WorkloadStatus>)
  {
    forall k :: 0 <= k < |statuses| && statuses[k].desired == 0 ==>
      && (Has(statuses, UNHEALTHY) ==> Has(statuses[k + 1..], UNHEALTHY))
      && (Has(statuses, DEGRADED) && !Has(statuses, UNHEALTHY) ==> SomeShort(statuses[k + 1..]))
  }

  lemma SomeTail(statuses: seq<WorkloadStatus>, s: Status)
    requires statuses != []
    ensures Has(statuses, s) <==> WorkloadStatusOf(statuses[0]) == s || Has(statuses[1..], s)
    ensures SomeShort(statuses) <==> ShortOfReplicas(statuses[0]) || SomeShort(statuses[1..])
  {
    assert forall i :: 0 < i < |statuses| ==> statuses[i] == statuses[1..][i - 1];
    assert forall i :: 0 <= i < |statuses| - 1 ==> statuses[1..][i] == statuses[i + 1];
  }

  lemma {:induction false} WorstIs(statuses: seq<WorkloadStatus>)
    ensures WorstWorkload(statuses) == if Has(statuses, UNHEALTHY) then UNHEALTHY
                                       else if Has(statuses, DEGRADED) then DEGRADED
                                       else if Has(statuses, NOT_READY) then NOT_READY else HEALTHY
  {
    if statuses != [] {
      SomeTail(statuses, UNHEALTHY);
      SomeTail(statuses, DEGRADED);
      SomeTail(statuses, NOT_READY);
      WorstIs(statuses[1..]);
    }
  }

  lemma {:induction false} FoldWithoutZero(running: Status, statuses: seq<WorkloadStatus>)
    requires running != UNKNOWN && !Has(statuses, NOT_READY)
    ensures AppFold(running, statuses) ==
            if running == UNHEALTHY || Has(statuses, UNHEALTHY) then UNHEALTHY
            else if SomeShort(statuses) || (running == HEALTHY && Has(statuses, DEGRADED)) then DEGRADED
            else running
    decreases statuses
  {
    if statuses != [] {
      SomeTail(statuses, UNHEALTHY);
      SomeTail(statuses, DEGRADED);
      SomeTail(statuses, NOT_READY);
      FoldWithoutZero(AppStep(running, statuses[0]), statuses[1..]);
    }
  }

  lemma {:induction false} FoldRestarts(running: Status, statuses: seq<WorkloadStatus>, k: nat)
    requires k < |statuses| && statuses[k].desired == 0
    ensures AppFold(running, statuses) == AppFold(NOT_READY, statuses[k + 1..])
    decreases statuses
  {
    if k > 0 {
      FoldRestarts(AppStep(running, statuses[0]), statuses[1..], k - 1);
      assert statuses[1..][k..] == statuses[k + 1..];
    }
  }

  lemma {:induction false} LastZero(statuses: seq<WorkloadStatus>) returns (k: nat)
    requires Has(statuses, NOT_READY)
    ensures k < |statuses| && statuses[k].desired == 0 && !Has(statuses[k + 1..], NOT_READY)
  {
    SomeTail(statuses, NOT_READY);
    if Has(statuses[1..], NOT_READY) {
      var j := LastZero(statuses[1..]);
      k := j + 1;
      assert statuses[1..][j + 1..] == statuses[k + 1..];
    } else {
      k := 0;
    }
  }

  lemma SomeLater(statuses: seq<WorkloadStatus>, j: nat, k: nat, s: Status)
    requires j <= k <= |statuses|
    ensures Has(statuses[k..], s) ==> Has(statuses[j..], s)
    ensures SomeShort(statuses[k..]) ==> SomeShort(statuses[j..])
  {
    assert forall i :: 0 <= i < |statuses| - k ==> statuses[k..][i] == statuses[j..][i + (k - j)];
  }

  /** The loop computes the worst workload status exactly when nothing bad is forgotten;
      in particular whenever no workload is scaled to zero. */
  lemma WorstWinsExactly(statuses: seq<WorkloadStatus>)
    ensures AppFold(HEALTHY, statuses) == WorstWorkload(statuses) <==> NothingForgotten(statuses)
    ensures !Has(statuses, NOT_READY) ==> NothingForgotten(statuses)
  {
    WorstIs(statuses);
    if Has(statuses, NOT_READY) {
      var k := LastZero(statuses);
      FoldRestarts(HEALTHY, statuses, k);
      FoldWithoutZero(NOT_READY, statuses[k + 1..]);
      NotForgottenAtLast(statuses, k);
    } else {
      FoldWithoutZero(HEALTHY, statuses);
      ShortIsBad(statuses);
      assert forall j :: 0 <= j < |statuses| && statuses[j].desired == 0 ==> WorkloadStatusOf(statuses[j]) == NOT_READY;
    }
  }

  lemma ShortIsBad(statuses: seq<WorkloadStatus>)
    ensures SomeShort(statuses) ==> Has(statuses, UNHEALTHY) || Has(statuses, DEGRADED)
  {
  }

  lemma NotForgottenAtLast(statuses: seq<WorkloadStatus>, k: nat)
    requires k < |statuses| && statuses[k].desired == 0 && !Has(statuses[k + 1..], NOT_READY)
    ensures NothingForgotten(statuses) <==>
              && (Has(statuses, UNHEALTHY) ==> Has(statuses[k + 1..], UNHEALTHY))
              && (Has(statuses, DEGRADED) && !Has(statuses, UNHEALTHY) ==> SomeShort(statuses[k + 1..]))
    ensures Has(statuses[k + 1..], UNHEALTHY) ==> Has(statuses, UNHEALTHY)
    ensures SomeShort(statuses[k + 1..]) ==> Has(statuses, UNHEALTHY) || Has(statuses, DEGRADED)
    ensures Has(statuses, NOT_READY)
  {
    assert statuses[0..] == statuses;
    SomeLater(statuses, 0, k + 1, UNHEALTHY);
    ShortIsBad(statuses);
    forall j | k < j < |statuses| ensures statuses[j].desired != 0 {
      assert statuses[j] == statuses[k + 1..][j - k - 1];
    }
    forall j | 0 <= j <= k && statuses[j].desired == 0
      ensures Has(statuses[k + 1..], UNHEALTHY) ==> Has(statuses[j + 1..], UNHEALTHY)
      ensures SomeShort(statuses[k + 1..]) ==> SomeShort(statuses[j + 1..])
    {
      SomeLater(statuses, j + 1, k + 1, UNHEALTHY);
    }
    assert WorkloadStatusOf(statuses[k]) == NOT_READY;
  }

  /** What the loop computes from the last workload scaled to zero on: nothing before it counts. */
  lemma FoldAfterZero(statuses: seq<WorkloadStatus>, k: nat)
    requires k < |statuses| && statuses[k].desired == 0 && !Has(statuses[k + 1..], NOT_READY)
    ensures AppFold(HEALTHY, statuses) ==
            if Has(statuses[k + 1..], UNHEALTHY) then UNHEALTHY
            else if SomeShort(statuses[k + 1..]) then DEGRADED else NOT_READY
  {
    FoldRestarts(HEALTHY, statuses, k);
    FoldWithoutZero(NOT_READY, statuses[k + 1..]);
  }

  /** Two workloads whose order decides the app's status. */
  lemma OrderMatters() returns (down: WorkloadStatus, zero: WorkloadStatus)
    ensures AppFold(HEALTHY, [down, zero]) == NOT_READY && AppFold(HEALTHY, [zero, down]) == UNHEALTHY
  {
    down, zero := WorkloadStatus(1, 0, -1), WorkloadStatus(0, 0, -1);
    assert [down, zero][1..] == [zero] && [zero, down][1..] == [down];
    assert AppFold(UNHEALTHY, [zero]) == AppFold(NOT_READY, []);
    assert AppFold(NOT_READY, [down]) == AppFold(UNHEALTHY, []);
  }

  lemma SameContents(a: seq<WorkloadStatus>, b: seq<WorkloadStatus>, s: Status)
    requires multiset(a) == multiset(b)
    ensures Has(a, s) ==> Has(b, s)
    ensures SomeShort(a) ==> SomeShort(b)
  {
    forall i | 0 <= i < |a| ensures a[i] in b {
      assert a[i] in multiset(a);
    }
    if Has(a, s) {
      var i :| 0 <= i < |a| && WorkloadStatusOf(a[i]) == s;
      assert a[i] in b;
    }
    if SomeShort(a) {
      var i :| 0 <= i < |a| && ShortOfReplicas(a[i]);
      assert a[i] in b;
    }
  }

  /** What the loop computes, from what the list holds, when it holds a workload scaled to zero and
      none short of replicas, or none scaled to zero. */
  lemma FoldIs(statuses: seq<WorkloadStatus>)
    requires !(Has(statuses, NOT_READY) && SomeShort(statuses))
    ensures AppFold(HEALTHY, statuses) ==
            if Has(statuses, NOT_READY) then NOT_READY
            else if Has(statuses, UNHEALTHY) then UNHEALTHY
            else if Has(statuses, DEGRADED) then DEGRADED
            else HEALTHY
  {
    if Has(statuses, NOT_READY) {
      var k := LastZero(statuses);
      FoldRestarts(HEALTHY, statuses, k);
      SomeLater(statuses, 0, k + 1, UNHEALTHY);
      assert statuses[0..] == statuses;
      var tail := statuses[k + 1..];
      assert forall i :: 0 <= i < |tail| ==> !ShortOfReplicas(tail[i]);
      FoldWithoutZero(NOT_READY, tail);
    } else {
      FoldWithoutZero(HEALTHY, statuses);
      ShortIsBad(statuses);
    }
  }

  function Rest(statuses: seq<WorkloadStatus>, i: nat): seq<WorkloadStatus>
    requires i < |statuses|
  {
    statuses[..i] + statuses[i + 1..]
  }

  lemma OneOut(statuses: seq<WorkloadStatus>, i: nat)
    requires i < |statuses|
    ensures multiset(Rest(statuses, i)) + multiset{statuses[i]} == multiset(statuses)
  {
    assert statuses == statuses[..i] + ([statuses[i]] + statuses[i + 1..]);
  }

  /** The list without two of its workloads. */
  lemma TwoOut(statuses: seq<WorkloadStatus>, i: nat, j: nat) returns (others: seq<WorkloadStatus>)
    requires i < |statuses| && j < |statuses| && i != j
    ensures multiset(others) + multiset{statuses[i]} + multiset{statuses[j]} == multiset(statuses)
  {
    var less := Rest(statuses, i);
    var k := if j < i then j else j - 1;
    assert less[k] == statuses[j];
    OneOut(statuses, i);
    OneOut(less, k);
    others := Rest(less, k);
  }

  lemma TwoLast(others: seq<WorkloadStatus>, a: WorkloadStatus, b: WorkloadStatus)
    ensures multiset(others + [a, b]) == multiset(others) + multiset{a} + multiset{b}
  {
    assert others + [a, b] == others + [a] + [b];
  }

  /** The status of an app is the same for every order of its workloads exactly when there is not
      both one scaled to zero and one short of replicas. */
  lemma OrderMattersExactly(statuses: seq<WorkloadStatus>)
    ensures (forall other :: multiset(other) == multiset(statuses) ==> AppFold(HEALTHY, other) == AppFold(HEALTHY, statuses))
            <==> !(Has(statuses, NOT_READY) && SomeShort(statuses))
  {
    if Has(statuses, NOT_READY) && SomeShort(statuses) {
      var other := OrderShows(statuses);
    } else {
      FoldIs(statuses);
      forall other | multiset(other) == multiset(statuses) ensures AppFold(HEALTHY, other) == AppFold(HEALTHY, statuses) {
        SameAnyOrder(statuses, other);
      }
    }
  }

  lemma SameAnyOrder(statuses: seq<WorkloadStatus>, other: seq<WorkloadStatus>)
    requires multiset(other) == multiset(statuses) && !(Has(statuses, NOT_READY) && SomeShort(statuses))
    ensures AppFold(HEALTHY, other) == AppFold(HEALTHY, statuses)
  {
    SameContents(statuses, other, NOT_READY);
    SameContents(other, statuses, NOT_READY);
    SameContents(statuses, other, UNHEALTHY);
    SameContents(other, statuses, UNHEALTHY);
    SameContents(statuses, other, DEGRADED);
    SameContents(other, statuses, DEGRADED);
    FoldIs(statuses);
    FoldIs(other);
  }

  /** Putting the workload scaled to zero last, or the one short of replicas, gives two statuses. */
  lemma OrderShows(statuses: seq<WorkloadStatus>) returns (other: seq<WorkloadStatus>)
    requires Has(statuses, NOT_READY) && SomeShort(statuses)
    ensures multiset(other) == multiset(statuses) && AppFold(HEALTHY, other) != AppFold(HEALTHY, statuses)
  {
    var i :| 0 <= i < |statuses| && WorkloadStatusOf(statuses[i]) == NOT_READY;
    var j :| 0 <= j < |statuses| && ShortOfReplicas(statuses[j]);
    var others := TwoOut(statuses, i, j);
    TwoLast(others, statuses[i], statuses[j]);
    TwoLast(others, statuses[j], statuses[i]);
    var shortLast, zeroLast := others + [statuses[i], statuses[j]], others + [statuses[j], statuses[i]];
    LastTwo(others, statuses[i], statuses[j]);
    other := if AppFold(HEALTHY, statuses) == NOT_READY then shortLast else zeroLast;
  }

  lemma LastTwo(others: seq<WorkloadStatus>, zero: WorkloadStatus, short: WorkloadStatus)
    requires zero.desired == 0 && ShortOfReplicas(short)
    ensures AppFold(HEALTHY, others + [short, zero]) == NOT_READY != AppFold(HEALTHY, others + [zero, short])
  {
    var n := |others|;
    var zeroLast, shortLast := others + [short, zero], others + [zero, short];
    assert zeroLast[n + 1] == zero && zeroLast[n + 2..] == [];
    assert shortLast[n] == zero && shortLast[n + 1..] == [short];
    FoldRestarts(HEALTHY, zeroLast, n + 1);
    FoldRestarts(HEALTHY, shortLast, n);
    assert AppFold(NOT_READY, [short]) == AppFold(AppStep(NOT_READY, short), []);
  }

  // The evaluations.

  ghost function RequestStatus(req: Requests): Status
  {
    if exists s :: s in Samples(req) && SampleStatus(s) == UNHEALTHY then UNHEALTHY
    else if exists s :: s in Samples(req) && SampleStatus(s) == DEGRADED then DEGRADED
    else HEALTHY
  }

  lemma StatusIs(req: Requests, status: Status, worst: real)
    requires Judged(Samples(req), status, worst)
    ensures status == RequestStatus(req)
  {
  }

  ghost predicate AnyRequests(req: Requests)
  {
    || (exists p, c :: p in req.inbound && c in req.inbound[p] && req.inbound[p][c] > 0.0)
    || (exists p, c :: p in req.outbound && c in req.outbound[p] && req.outbound[p][c] > 0.0)
  }

  ghost function EntityStatus(e: Entity): Status
  {
    match e
    case App(statuses, req) =>
      if statuses == [] then UNKNOWN else MergeHealthStatus(AppFold(HEALTHY, statuses), RequestStatus(req))
    case Service(req) =>
      if AnyRequests(req) then RequestStatus(req) else UNKNOWN
    case Workload(ws, req) =>
      if !AnyRequests(req) && ws.None? then UNKNOWN
      else MergeHealthStatus(if ws.Some? then WorkloadStatusOf(ws.value) else HEALTHY, RequestStatus(req))
  }

  /** The status of an app with workloads is the worse of what the loop over them and the requests
      give; without any it is unknown. */
  lemma AppStatusIs(statuses: seq<WorkloadStatus>, req: Requests, st: Status, worst: real)
    requires Judged(Samples(req), st, worst)
    ensures var r := EntityStatus(App(statuses, req));
            && (statuses == [] ==> r == UNKNOWN)
            && (statuses != [] ==>
                  && r in {AppFold(HEALTHY, statuses), st}
                  && Priority(r) >= Priority(AppFold(HEALTHY, statuses)) && Priority(r) >= Priority(st))
  {
    StatusIs(req, st, worst);
  }

  lemma ServiceStatusIs(req: Requests, st: Status, worst: real)
    requires Judged(Samples(req), st, worst)
    ensures EntityStatus(Service(req)) == if AnyRequests(req) then st else UNKNOWN
  {
    StatusIs(req, st, worst);
  }

  /** A workload is unknown exactly without traffic and status, and otherwise as bad as the worse of
      its own status, if there is one, and its requests. */
  lemma WorkloadStatusIs(ws: Option<WorkloadStatus>, req: Requests, st: Status, worst: real)
    requires Judged(Samples(req), st, worst)
    ensures var r := EntityStatus(Workload(ws, req));
            && (r == UNKNOWN <==> ws.None? && !AnyRequests(req))
            && (ws.None? && AnyRequests(req) ==> r == st)
            && (ws.Some? ==>
                  && r in {WorkloadStatusOf(ws.value), st}
                  && Priority(r) >= Priority(WorkloadStatusOf(ws.value)) && Priority(r) >= Priority(st))
  {
    StatusIs(req, st, worst);
  }

  /** With a fifth of its requests failing with one code, an entity of any kind is unhealthy, unless
      it is an app without workloads, or has no traffic and, for a workload, no status either. */
  lemma FailingIsUnhealthy(e: Entity, st: Status, worst: real)
    requires Judged(Samples(e.requests), st, worst) && worst >= 0.2
    ensures EntityStatus(e) == UNHEALTHY <==>
            match e
            case App(statuses, _) => statuses != []
            case Service(req) => AnyRequests(req)
            case Workload(ws, req) => AnyRequests(req) || ws.Some?
  {
    FailingRequests(e.requests, st, worst);
    MergeUnhealthy(match e
                   case App(statuses, _) => AppFold(HEALTHY, statuses)
                   case Service(_) => UNHEALTHY
                   case Workload(ws, _) => if ws.Some? then WorkloadStatusOf(ws.value) else HEALTHY);
  }

  lemma MergeUnhealthy(s: Status)
    ensures MergeHealthStatus(s, UNHEALTHY) == UNHEALTHY
  {
  }

  lemma FailingRequests(req: Requests, st: Status, worst: real)
    requires Judged(Samples(req), st, worst) && worst >= 0.2
    ensures RequestStatus(req) == UNHEALTHY
  {
    WorstRatioDecides(req, st, worst);
    StatusIs(req, st, worst);
  }

  /** Counts that are not negative add up to nothing exactly when there is no traffic. */
  lemma TrafficExactly(req: Requests)
    requires NonNegative(req.inbound) && NonNegative(req.outbound)
    ensures AnyRequests(req) <==> All(req, false) != 0.0
  {
    TrafficOneWay(req.inbound, req.inbound.Keys);
    TrafficOneWay(req.outbound, req.outbound.Keys);
  }

  lemma {:induction false} TrafficInCodes(p: string, codes: Codes, keys: set<string>)
    requires keys <= codes.Keys && forall c :: c in codes ==> codes[c] >= 0.0
    ensures CodeSum(p, codes, keys, false) >= 0.0
    ensures CodeSum(p, codes, keys, false) != 0.0 <==> exists c :: c in keys && codes[c] > 0.0
    decreases keys
  {
    if keys != {} {
      var k :| k in keys;
      CodeSumStep(p, codes, keys, false, k);
      TrafficInCodes(p, codes, keys - {k});
    }
  }

  lemma {:induction false} TrafficOneWay(rs: Protocols, keys: set<string>)
    requires keys <= rs.Keys && NonNegative(rs)
    ensures ProtocolSum(rs, keys, false) >= 0.0
    ensures ProtocolSum(rs, keys, false) != 0.0 <==> exists p, c :: p in keys && c in rs[p] && rs[p][c] > 0.0
    decreases keys
  {
    if keys != {} {
      var p :| p in keys;
      ProtocolSumStep(rs, keys, false, p);
      TrafficInCodes(p, rs[p], rs[p].Keys);
      TrafficOneWay(rs, keys - {p});
    }
  }

  method HasAny(rs: Protocols) returns (any: bool)
    ensures any <==> exists p, c :: p in rs && c in rs[p] && rs[p][c] > 0.0
  {
    var protocols := rs.Keys;
    while protocols != {}
      invariant protocols <= rs.Keys
      invariant forall p, c :: p in rs && p !in protocols && c in rs[p] ==> rs[p][c] <= 0.0
      decreases protocols
    {
      var p :| p in protocols;
      protocols := protocols - {p};
      var codes := rs[p].Keys;
      while codes != {}
        invariant codes <= rs[p].Keys
        invariant forall c :: c in rs[p] && c !in codes ==> rs[p][c] <= 0.0
        decreases codes
      {
        var code :| code in codes;
        codes := codes - {code};
        if rs[p][code] > 0.0 {
          return true;
        }
      }
    }
    any := false;
  }

  method HasAnyRequests(req: Requests) returns (any: bool)
    ensures any <==> AnyRequests(req)
  {
    any := HasAny(req.inbound);
    if !any {
      any := HasAny(req.outbound);
    }
  }

  method EvaluateAppHealth(app: Entity) returns (status: Status)
    requires app.App?
    ensures status == EntityStatus(app)
  {
    if |app.statuses| == 0 {
      return UNKNOWN;
    }
    var workloadStatus := HEALTHY;
    var i := 0;
    while i < |app.statuses|
      invariant 0 <= i <= |app.statuses|
      invariant AppFold(workloadStatus, app.statuses[i..]) == AppFold(HEALTHY, app.statuses)
    {
      var ws := app.statuses[i];
      i := i + 1;
      if ws.desired == 0 {
        workloadStatus := NOT_READY;
        continue;
      }
      if ws.available < ws.desired {
        if ws.available == 0 {
          workloadStatus := UNHEALTHY;
        } else if workloadStatus != UNHEALTHY {
          workloadStatus := DEGRADED;
        }
      }
      if ws.syncedProxies >= 0 && ws.syncedProxies < ws.available {
        if workloadStatus == HEALTHY {
          workloadStatus := DEGRADED;
        }
      }
    }
    var requestStatus, worst := EvaluateRequestHealth(app.requests);
    status := MergeHealthStatus(workloadStatus, requestStatus);
  }

  method EvaluateServiceHealth(svc: Entity) returns (status: Status)
    requires svc.Service?
    ensures status == EntityStatus(svc)
  {
    var any := HasAnyRequests(svc.requests);
    if !any {
      return UNKNOWN;
    }
    var worst;
    status, worst := EvaluateRequestHealth(svc.requests);
  }

  /** The status of the workload itself. */
  method EvaluateWorkloadStatus(ws: WorkloadStatus) returns (status: Status)
    ensures status == WorkloadStatusOf(ws)
  {
    status := HEALTHY;
    if ws.desired == 0 {
      status := NOT_READY;
    } else if ws.available < ws.desired {
      status := if ws.available == 0 then UNHEALTHY else DEGRADED;
    }
    if ws.syncedProxies >= 0 && ws.syncedProxies < ws.available {
      if status == HEALTHY {
        status := DEGRADED;
      }
    }
  }

  method EvaluateWorkloadHealth(wl: Entity) returns (status: Status)
    requires wl.Workload?
    ensures status == EntityStatus(wl)
  {
    var workloadStatus := HEALTHY;
    if wl.status.Some? {
      workloadStatus := EvaluateWorkloadStatus(wl.status.value);
    }
    var requestStatus, worst := EvaluateRequestHealth(wl.requests);
    var any := HasAnyRequests(wl.requests);
    if !any && wl.status.None? {
      return UNKNOWN;
    }
    StatusIs(wl.requests, requestStatus, worst);
    status := MergeHealthStatus(workloadStatus, requestStatus);
  }
}
