/** Health of one entity's requests, from pkg/kiali/health_calculation.go. Counts and
    ratios are reals. Maps are visited in any order. */
module HealthRequests {

  datatype Status = UNKNOWN | HEALTHY | NOT_READY | DEGRADED | UNHEALTHY

  type Codes = map<string, real>        // response code to number of requests
  type Protocols = map<string, Codes>

  datatype Requests = Requests(inbound: Protocols, outbound: Protocols)

  predicate IsErrorCode(protocol: string, code: string)
  {
    if protocol == "http" then
      code == "-" || (|code| == 3 && code[0] == '4') || (|code| == 3 && code[0] == '5')
    else protocol == "grpc" && code != "0"
  }

  function StatusForCodeRatio(protocol: string, code: string, ratio: real): Status
  {
    var percentage := ratio * 100.0;
    if protocol == "http" then
      if code == "-" || (|code| == 3 && code[0] == '5') then
        if percentage >= 10.0 then UNHEALTHY else if percentage > 0.0 then DEGRADED else HEALTHY
      else if |code| == 3 && code[0] == '4' then
        if percentage >= 20.0 then UNHEALTHY else if percentage >= 10.0 then DEGRADED else HEALTHY
      else HEALTHY
    else if protocol == "grpc" && code != "0" then
      if percentage >= 10.0 then UNHEALTHY else if percentage > 0.0 then DEGRADED else HEALTHY
    else HEALTHY
  }

  // Sums over the keys of a map do not depend on the order they are taken in.

  /** The requests of the codes in `keys`; only the errors among them if `errors`. */
  ghost function CodeSum(protocol: string, codes: Codes, keys: set<string>, errors: bool): real
    requires keys <= codes.Keys
  {
    if keys == {} then 0.0
    else
      var k :| k in keys;
      Counted(protocol, codes, k, errors) + CodeSum(protocol, codes, keys - {k}, errors)
  }

  function Counted(protocol: string, codes: Codes, code: string, errors: bool): real
    requires code in codes
  {
    if errors && !IsErrorCode(protocol, code) then 0.0 else codes[code]
  }

  lemma {:induction false} CodeSumStep(protocol: string, codes: Codes, keys: set<string>, errors: bool, k: string)
    requires keys <= codes.Keys && k in keys
    ensures CodeSum(protocol, codes, keys, errors)
            == Counted(protocol, codes, k, errors) + CodeSum(protocol, codes, keys - {k}, errors)
    decreases keys
  {
    var j :| j in keys && CodeSum(protocol, codes, keys, errors)
                          == Counted(protocol, codes, j, errors) + CodeSum(protocol, codes, keys - {j}, errors);
    if j != k {
      CodeSumStep(protocol, codes, keys - {j}, errors, k);
      CodeSumStep(protocol, codes, keys - {k}, errors, j);
      assert keys - {j} - {k} == keys - {k} - {j};
    }
  }

  ghost function ProtocolSum(rs: Protocols, keys: set<string>, errors: bool): real
    requires keys <= rs.Keys
  {
    if keys == {} then 0.0
    else
      var p :| p in keys;
      CodeSum(p, rs[p], rs[p].Keys, errors) + ProtocolSum(rs, keys - {p}, errors)
  }

  lemma {:induction false} ProtocolSumStep(rs: Protocols, keys: set<string>, errors: bool, p: string)
    requires keys <= rs.Keys && p in keys
    ensures ProtocolSum(rs, keys, errors) == CodeSum(p, rs[p], rs[p].Keys, errors) + ProtocolSum(rs, keys - {p}, errors)
    decreases keys
  {
    var q :| q in keys && ProtocolSum(rs, keys, errors)
                          == CodeSum(q, rs[q], rs[q].Keys, errors) + ProtocolSum(rs, keys - {q}, errors);
    if q != p {
      ProtocolSumStep(rs, keys - {q}, errors, p);
      ProtocolSumStep(rs, keys - {p}, errors, q);
      assert keys - {q} - {p} == keys - {p} - {q};
    }
  }

  ghost function Total(protocol: string, codes: Codes): real
  {
    CodeSum(protocol, codes, codes.Keys, false)
  }

  ghost function All(req: Requests, errors: bool): real
  {
    ProtocolSum(req.inbound, req.inbound.Keys, errors) + ProtocolSum(req.outbound, req.outbound.Keys, errors)
  }

  ghost function ErrorRate(req: Requests): real
  {
    if All(req, false) == 0.0 then 0.0 else All(req, true) / All(req, false)
  }

  method CountRequests(rs: Protocols) returns (total: real, failed: real)
    ensures total == ProtocolSum(rs, rs.Keys, false) && failed == ProtocolSum(rs, rs.Keys, true)
  {
    total, failed := 0.0, 0.0;
    var protocols := rs.Keys;
    while protocols != {}
      invariant protocols <= rs.Keys
      invariant total + ProtocolSum(rs, protocols, false) == ProtocolSum(rs, rs.Keys, false)
      invariant failed + ProtocolSum(rs, protocols, true) == ProtocolSum(rs, rs.Keys, true)
      decreases protocols
    {
      var p :| p in protocols;
      ProtocolSumStep(rs, protocols, false, p);
      ProtocolSumStep(rs, protocols, true, p);
      protocols := protocols - {p};
      var codes := rs[p].Keys;
      while codes != {}
        invariant codes <= rs[p].Keys
        invariant total + CodeSum(p, rs[p], codes, false) + ProtocolSum(rs, protocols, false) == ProtocolSum(rs, rs.Keys, false)
        invariant failed + CodeSum(p, rs[p], codes, true) + ProtocolSum(rs, protocols, true) == ProtocolSum(rs, rs.Keys, true)
        decreases codes
      {
        var code :| code in codes;
        CodeSumStep(p, rs[p], codes, false, code);
        CodeSumStep(p, rs[p], codes, true, code);
        codes := codes - {code};
        total := total + rs[p][code];
        if IsErrorCode(p, code) {
          failed := failed + rs[p][code];
        }
      }
    }
  }

  method CalculateErrorRate(req: Requests) returns (rate: real)
    ensures rate == ErrorRate(req)
  {
    var total, failed := CountRequests(req.inbound);
    var total', failed' := CountRequests(req.outbound);
    total, failed := total + total', failed + failed';
    rate := if total == 0.0 then 0.0 else failed / total;
  }

  // Statuses.

  /** One error code of one protocol, with its share of the protocol's requests. */
  datatype Sample = Sample(protocol: string, code: string, ratio: real)

  ghost function CodeSamples(protocol: string, codes: Codes, keys: set<string>): set<Sample>
    requires keys <= codes.Keys && Total(protocol, codes) != 0.0
  {
    set c | c in keys && IsErrorCode(protocol, c) :: Sample(protocol, c, codes[c] / Total(protocol, codes))
  }

  ghost function ProtocolSamples(protocol: string, codes: Codes): set<Sample>
  {
    if Total(protocol, codes) == 0.0 then {} else CodeSamples(protocol, codes, codes.Keys)
  }

  ghost function SamplesOf(rs: Protocols, keys: set<string>): set<Sample>
    requires keys <= rs.Keys
  {
    set p, s | p in keys && s in ProtocolSamples(p, rs[p]) :: s
  }

  ghost function Samples(req: Requests): set<Sample>
  {
    SamplesOf(req.inbound, req.inbound.Keys) + SamplesOf(req.outbound, req.outbound.Keys)
  }

  function SampleStatus(s: Sample): Status
  {
    StatusForCodeRatio(s.protocol, s.code, s.ratio)
  }

  /** `status` is the worst status of the samples, and `worst` their highest ratio. */
  ghost predicate Judged(samples: set<Sample>, status: Status, worst: real)
  {
    && status in {HEALTHY, DEGRADED, UNHEALTHY}
    && (status == UNHEALTHY <==> exists s :: s in samples && SampleStatus(s) == UNHEALTHY)
    && (status == DEGRADED ==> exists s :: s in samples && SampleStatus(s) == DEGRADED)
    && (status == HEALTHY ==> forall s :: s in samples ==> SampleStatus(s) == HEALTHY)
    && worst >= 0.0
    && (forall s :: s in samples ==> s.ratio <= worst)
    && (worst == 0.0 || exists s :: s in samples && s.ratio == worst)
  }

  /** The judgement depends on the samples only, so not on the order of any map. */
  lemma JudgedOnce(samples: set<Sample>, st: Status, w: real, st': Status, w': real)
    requires Judged(samples, st, w) && Judged(samples, st', w')
    ensures st == st' && w == w'
  {
  }

  lemma CodeSamplesGrow(protocol: string, codes: Codes, todo: set<string>, c: string)
    requires todo <= codes.Keys && c in todo && Total(protocol, codes) != 0.0
    ensures CodeSamples(protocol, codes, codes.Keys - (todo - {c})) == CodeSamples(protocol, codes, codes.Keys - todo)
              + if IsErrorCode(protocol, c) then {Sample(protocol, c, codes[c] / Total(protocol, codes))} else {}
  {
    assert codes.Keys - (todo - {c}) == codes.Keys - todo + {c};
  }

  lemma SamplesGrow(rs: Protocols, todo: set<string>, p: string)
    requires todo <= rs.Keys && p in todo
    ensures SamplesOf(rs, rs.Keys - (todo - {p})) == SamplesOf(rs, rs.Keys - todo) + ProtocolSamples(p, rs[p])
  {
    assert rs.Keys - (todo - {p}) == rs.Keys - todo + {p};
  }

  method CodeTotal(protocol: string, codes: Codes) returns (total: real)
    ensures total == Total(protocol, codes)
  {
    total := 0.0;
    var todo := codes.Keys;
    while todo != {}
      invariant todo <= codes.Keys
      invariant total + CodeSum(protocol, codes, todo, false) == Total(protocol, codes)
      decreases todo
    {
      var code :| code in todo;
      CodeSumStep(protocol, codes, todo, false, code);
      todo := todo - {code};
      total := total + codes[code];
    }
  }

  method ProcessProtocol(protocol: string, codes: Codes, st: Status, w: real, ghost before: set<Sample>)
    returns (status: Status, worst: real)
    requires Judged(before, st, w)
    ensures Judged(before + ProtocolSamples(protocol, codes), status, worst)
  {
    var total := CodeTotal(protocol, codes);
    if total == 0.0 {
      assert before + ProtocolSamples(protocol, codes) == before;
      return st, w;
    }
    status, worst := ProcessCodes(protocol, codes, total, st, w, before);
  }

  method ProcessCodes(protocol: string, codes: Codes, total: real, st: Status, w: real, ghost before: set<Sample>)
    returns (status: Status, worst: real)
    requires total == Total(protocol, codes) != 0.0 && Judged(before, st, w)
    ensures Judged(before + CodeSamples(protocol, codes, codes.Keys), status, worst)
  {
    status, worst := st, w;
    var todo := codes.Keys;
    assert before + CodeSamples(protocol, codes, codes.Keys - todo) == before;
    while todo != {}
      invariant todo <= codes.Keys
      invariant Judged(before + CodeSamples(protocol, codes, codes.Keys - todo), status, worst)
      decreases todo
    {
      var code :| code in todo;
      status, worst := ProcessCode(protocol, codes, total, code, status, worst, before, todo);
      todo := todo - {code};
    }
    assert codes.Keys - todo == codes.Keys;
  }

  /** One turn of that loop. */
  method ProcessCode(protocol: string, codes: Codes, total: real, code: string, st: Status, w: real,
                     ghost before: set<Sample>, ghost todo: set<string>)
    returns (status: Status, worst: real)
    requires total == Total(protocol, codes) != 0.0 && todo <= codes.Keys && code in todo
    requires Judged(before + CodeSamples(protocol, codes, codes.Keys - todo), st, w)
    ensures Judged(before + CodeSamples(protocol, codes, codes.Keys - (todo - {code})), status, worst)
  {
    CodeSamplesGrow(protocol, codes, todo, code);
    ghost var seen := CodeSamples(protocol, codes, codes.Keys - todo);
    if IsErrorCode(protocol, code) {
      Grown(before, seen, {Sample(protocol, code, codes[code] / total)});
      status, worst := Worsen(protocol, code, codes[code] / total, st, w, before + seen);
    } else {
      status, worst := st, w;
      assert seen + {} == seen;
    }
  }

  method Worsen(protocol: string, code: string, ratio: real, st: Status, w: real, ghost seen: set<Sample>)
    returns (status: Status, worst: real)
    requires Judged(seen, st, w)
    ensures Judged(seen + {Sample(protocol, code, ratio)}, status, worst)
  {
    status, worst := st, w;
    ghost var s := Sample(protocol, code, ratio);
    if ratio > worst {
      worst := ratio;
    }
    var codeStatus := StatusForCodeRatio(protocol, code, ratio);
    assert SampleStatus(s) == codeStatus && s in seen + {s};
    if codeStatus == UNHEALTHY {
      status := UNHEALTHY;
    } else if codeStatus == DEGRADED && status == HEALTHY {
      status := DEGRADED;
    }
  }

  method ProcessRequests(rs: Protocols, st: Status, w: real, ghost before: set<Sample>)
    returns (status: Status, worst: real)
    requires Judged(before, st, w)
    ensures Judged(before + SamplesOf(rs, rs.Keys), status, worst)
  {
    status, worst := st, w;
    var todo := rs.Keys;
    ghost var seen := before;
    assert seen == before + SamplesOf(rs, rs.Keys - todo);
    while todo != {}
      invariant todo <= rs.Keys
      invariant seen == before + SamplesOf(rs, rs.Keys - todo)
      invariant Judged(seen, status, worst)
      decreases todo
    {
      var p :| p in todo;
      SamplesGrow(rs, todo, p);
      Grown(before, SamplesOf(rs, rs.Keys - todo), ProtocolSamples(p, rs[p]));
      status, worst := ProcessProtocol(p, rs[p], status, worst, seen);
      todo, seen := todo - {p}, seen + ProtocolSamples(p, rs[p]);
    }
    assert rs.Keys - todo == rs.Keys;
  }

  lemma Grown(a: set<Sample>, b: set<Sample>, c: set<Sample>)
    ensures a + (b + c) == a + b + c
  {
  }

  method EvaluateRequestHealth(req: Requests) returns (status: Status, worst: real)
    ensures Judged(Samples(req), status, worst)
  {
    status, worst := HEALTHY, 0.0;
    ghost var inbound := SamplesOf(req.inbound, req.inbound.Keys);
    status, worst := ProcessRequests(req.inbound, status, worst, {});
    assert {} + inbound == inbound;
    status, worst := ProcessRequests(req.outbound, status, worst, inbound);
  }

  /** The thresholds seen from the worst ratio. */
  lemma WorstRatioDecides(req: Requests, status: Status, worst: real)
    requires Judged(Samples(req), status, worst)
    ensures worst >= 0.2 ==> status == UNHEALTHY
    ensures status == UNHEALTHY ==> worst >= 0.1
    ensures worst == 0.0 ==> status == HEALTHY
    ensures status == HEALTHY ==> worst < 0.1
  {
    if worst > 0.0 {
      var s :| s in Samples(req) && s.ratio == worst;
      SampleIsError(req, s);
      RatioDecides(s);
    }
    forall s | s in Samples(req) ensures s.ratio < 0.1 ==> SampleStatus(s) != UNHEALTHY
                                 ensures s.ratio <= 0.0 ==> SampleStatus(s) == HEALTHY {
      SampleIsError(req, s);
      RatioDecides(s);
    }
  }

  /** The thresholds for one error code. */
  lemma RatioDecides(s: Sample)
    requires IsErrorCode(s.protocol, s.code)
    ensures s.ratio >= 0.2 ==> SampleStatus(s) == UNHEALTHY
    ensures s.ratio >= 0.1 ==> SampleStatus(s) != HEALTHY
    ensures s.ratio < 0.1 ==> SampleStatus(s) != UNHEALTHY
    ensures s.ratio <= 0.0 ==> SampleStatus(s) == HEALTHY
  {
  }

  ghost predicate ClientError(protocol: string, code: string)
  {
    protocol == "http" && exists a, b :: code == ['4', a, b]
  }

  /** Server errors, dropped connections, and what gRPC does not call OK. */
  ghost predicate ServerError(protocol: string, code: string)
  {
    (protocol == "http" && (code == "-" || exists a, b :: code == ['5', a, b])) || (protocol == "grpc" && code != "0")
  }

  lemma ThreeCharacters(code: string, first: char)
    ensures (exists a, b :: code == [first, a, b]) <==> |code| == 3 && code[0] == first
  {
    if |code| == 3 && code[0] == first {
      assert code == [first, code[1], code[2]];
    }
  }

  /** The two classes of errors and their thresholds; nothing else counts. */
  lemma ClassesExactly(protocol: string, code: string, ratio: real)
    ensures IsErrorCode(protocol, code) <==> ClientError(protocol, code) || ServerError(protocol, code)
    ensures StatusForCodeRatio(protocol, code, ratio) ==
            if ServerError(protocol, code) then if ratio >= 0.1 then UNHEALTHY else if ratio > 0.0 then DEGRADED else HEALTHY
            else if ClientError(protocol, code) then if ratio >= 0.2 then UNHEALTHY else if ratio >= 0.1 then DEGRADED else HEALTHY
            else HEALTHY
  {
    ThreeCharacters(code, '4');
    ThreeCharacters(code, '5');
  }

  /** What the samples are: the share of every error code in its protocol, of both directions. */
  lemma SamplesExactly(req: Requests, s: Sample)
    ensures s in Samples(req) <==>
            && (ClientError(s.protocol, s.code) || ServerError(s.protocol, s.code))
            && exists rs :: rs in {req.inbound, req.outbound} && SharesIn(rs, s)
  {
    ClassesExactly(s.protocol, s.code, s.ratio);
    SampledExactly(req.inbound, s);
    SampledExactly(req.outbound, s);
  }

  lemma SampledExactly(rs: Protocols, s: Sample)
    ensures s in SamplesOf(rs, rs.Keys) <==> IsErrorCode(s.protocol, s.code) && SharesIn(rs, s)
  {
    if IsErrorCode(s.protocol, s.code) && SharesIn(rs, s) {
      assert s in ProtocolSamples(s.protocol, rs[s.protocol]);
    }
  }

  ghost predicate SharesIn(rs: Protocols, s: Sample)
  {
    && s.protocol in rs && s.code in rs[s.protocol]
    && Total(s.protocol, rs[s.protocol]) != 0.0
    && s.ratio == rs[s.protocol][s.code] / Total(s.protocol, rs[s.protocol])
  }

  /** The status of the requests from the shares of their error codes: a tenth of server errors or
      a fifth of client errors of one code is unhealthy; healthy is no server error at all and less
      than a tenth of client errors. */
  lemma StatusExactly(req: Requests, status: Status, worst: real)
    requires Judged(Samples(req), status, worst)
    ensures status == UNHEALTHY <==> exists s :: s in Samples(req) && (s.ratio >= 0.2 || (s.ratio >= 0.1 && ServerError(s.protocol, s.code)))
    ensures status == HEALTHY <==> forall s :: s in Samples(req) ==> s.ratio <= 0.0 || (s.ratio < 0.1 && !ServerError(s.protocol, s.code))
    ensures status in {UNHEALTHY, DEGRADED, HEALTHY}
  {
    forall s | s in Samples(req)
      ensures SampleStatus(s) == UNHEALTHY <==> s.ratio >= 0.2 || (s.ratio >= 0.1 && ServerError(s.protocol, s.code))
      ensures SampleStatus(s) == HEALTHY <==> s.ratio <= 0.0 || (s.ratio < 0.1 && !ServerError(s.protocol, s.code))
      ensures SampleStatus(s) in {UNHEALTHY, DEGRADED, HEALTHY}
    {
      SampleIsError(req, s);
      ClassesExactly(s.protocol, s.code, s.ratio);
    }
  }

  lemma SampleIsError(req: Requests, s: Sample)
    requires s in Samples(req)
    ensures IsErrorCode(s.protocol, s.code)
  {
  }

  // The error rate, for counts that are not negative.

  ghost predicate NonNegative(rs: Protocols)
  {
    forall p, c :: p in rs && c in rs[p] ==> rs[p][c] >= 0.0
  }

  /** Some error code of the protocols was counted. */
  ghost predicate HasErrors(rs: Protocols, keys: set<string>)
    requires keys <= rs.Keys
  {
    exists p, c :: p in keys && c in rs[p] && IsErrorCode(p, c) && rs[p][c] > 0.0
  }

  lemma {:induction false} CodeSumBounds(p: string, codes: Codes, keys: set<string>)
    requires keys <= codes.Keys && forall c :: c in codes ==> codes[c] >= 0.0
    ensures 0.0 <= CodeSum(p, codes, keys, true) <= CodeSum(p, codes, keys, false)
    ensures CodeSum(p, codes, keys, true) == 0.0 <==> forall c :: c in keys && IsErrorCode(p, c) ==> codes[c] == 0.0
    ensures CodeSum(p, codes, keys, false) == 0.0 ==> forall c :: c in keys ==> codes[c] == 0.0
    decreases keys
  {
    if keys != {} {
      var k :| k in keys;
      CodeSumStep(p, codes, keys, true, k);
      CodeSumStep(p, codes, keys, false, k);
      CodeSumBounds(p, codes, keys - {k});
    }
  }

  lemma {:induction false} ProtocolSumBounds(rs: Protocols, keys: set<string>)
    requires keys <= rs.Keys && NonNegative(rs)
    ensures 0.0 <= ProtocolSum(rs, keys, true) <= ProtocolSum(rs, keys, false)
    ensures ProtocolSum(rs, keys, true) == 0.0 <==> !HasErrors(rs, keys)
    decreases keys
  {
    if keys != {} {
      var p :| p in keys;
      ProtocolSumStep(rs, keys, true, p);
      ProtocolSumStep(rs, keys, false, p);
      CodeSumBounds(p, rs[p], rs[p].Keys);
      ProtocolSumBounds(rs, keys - {p});
    }
  }

  lemma PositiveSample(rs: Protocols)
    requires NonNegative(rs)
    ensures HasErrors(rs, rs.Keys) <==> exists s :: s in SamplesOf(rs, rs.Keys) && s.ratio > 0.0
    ensures forall s :: s in SamplesOf(rs, rs.Keys) ==> s.ratio >= 0.0
  {
    forall p, c | p in rs && c in rs[p] && IsErrorCode(p, c)
      ensures rs[p][c] > 0.0 <==> Total(p, rs[p]) != 0.0 && rs[p][c] / Total(p, rs[p]) > 0.0
      ensures Total(p, rs[p]) != 0.0 ==> rs[p][c] / Total(p, rs[p]) >= 0.0
    {
      CodeSumBounds(p, rs[p], rs[p].Keys);
    }
    if HasErrors(rs, rs.Keys) {
      var p, c :| p in rs.Keys && c in rs[p] && IsErrorCode(p, c) && rs[p][c] > 0.0;
      var s := Sample(p, c, rs[p][c] / Total(p, rs[p]));
      assert s in ProtocolSamples(p, rs[p]);
      assert s in SamplesOf(rs, rs.Keys) && s.ratio > 0.0;
    }
  }

  lemma Proportion(part: real, whole: real)
    requires 0.0 <= part <= whole && whole > 0.0
    ensures 0.0 <= part / whole <= 1.0 && (part / whole == 0.0 <==> part == 0.0)
  {
    assert part / whole * whole == part;
  }

  lemma WorstIsPositive(req: Requests, status: Status, worst: real)
    requires NonNegative(req.inbound) && NonNegative(req.outbound)
    requires Judged(Samples(req), status, worst)
    ensures worst > 0.0 <==> HasErrors(req.inbound, req.inbound.Keys) || HasErrors(req.outbound, req.outbound.Keys)
  {
    PositiveSample(req.inbound);
    PositiveSample(req.outbound);
  }

  /** The overall error rate is a proportion, and it vanishes exactly when the worst ratio
      of a single code does. */
  lemma ErrorRateBounds(req: Requests, status: Status, worst: real)
    requires NonNegative(req.inbound) && NonNegative(req.outbound)
    requires Judged(Samples(req), status, worst)
    ensures 0.0 <= ErrorRate(req) <= 1.0
    ensures ErrorRate(req) == 0.0 <==> worst == 0.0
  {
    ProtocolSumBounds(req.inbound, req.inbound.Keys);
    ProtocolSumBounds(req.outbound, req.outbound.Keys);
    WorstIsPositive(req, status, worst);
    if All(req, false) != 0.0 {
      Proportion(All(req, true), All(req, false));
    }
  }

  /** For counts that are not negative there is an error rate exactly when some error was counted. */
  lemma ErrorRateVanishes(req: Requests)
    requires NonNegative(req.inbound) && NonNegative(req.outbound)
    ensures ErrorRate(req) >= 0.0
    ensures ErrorRate(req) == 0.0 <==> !HasErrors(req.inbound, req.inbound.Keys) && !HasErrors(req.outbound, req.outbound.Keys)
  {
    ProtocolSumBounds(req.inbound, req.inbound.Keys);
    ProtocolSumBounds(req.outbound, req.outbound.Keys);
    if All(req, false) != 0.0 {
      Proportion(All(req, true), All(req, false));
    }
  }

  ghost predicate OnlyErrors(rs: Protocols, keys: set<string>)
    requires keys <= rs.Keys
  {
    forall p, c :: p in keys && c in rs[p] && !IsErrorCode(p, c) ==> rs[p][c] == 0.0
  }

  lemma {:induction false} CodeSumFull(p: string, codes: Codes, keys: set<string>)
    requires keys <= codes.Keys && forall c :: c in codes ==> codes[c] >= 0.0
    ensures CodeSum(p, codes, keys, true) == CodeSum(p, codes, keys, false)
            <==> forall c :: c in keys && !IsErrorCode(p, c) ==> codes[c] == 0.0
    decreases keys
  {
    if keys != {} {
      var k :| k in keys;
      CodeSumStep(p, codes, keys, true, k);
      CodeSumStep(p, codes, keys, false, k);
      CodeSumBounds(p, codes, keys - {k});
      CodeSumFull(p, codes, keys - {k});
    }
  }

  lemma {:induction false} ProtocolSumFull(rs: Protocols, keys: set<string>)
    requires keys <= rs.Keys && NonNegative(rs)
    ensures ProtocolSum(rs, keys, true) == ProtocolSum(rs, keys, false) <==> OnlyErrors(rs, keys)
    decreases keys
  {
    if keys != {} {
      var p :| p in keys;
      ProtocolSumStep(rs, keys, true, p);
      ProtocolSumStep(rs, keys, false, p);
      CodeSumBounds(p, rs[p], rs[p].Keys);
      CodeSumFull(p, rs[p], rs[p].Keys);
      ProtocolSumBounds(rs, keys - {p});
      ProtocolSumFull(rs, keys - {p});
    }
  }

  lemma OnlyErrorsSum(req: Requests)
    requires NonNegative(req.inbound) && NonNegative(req.outbound)
    ensures All(req, true) == All(req, false)
            <==> OnlyErrors(req.inbound, req.inbound.Keys) && OnlyErrors(req.outbound, req.outbound.Keys)
  {
    ProtocolSumBounds(req.inbound, req.inbound.Keys);
    ProtocolSumBounds(req.outbound, req.outbound.Keys);
    ProtocolSumFull(req.inbound, req.inbound.Keys);
    ProtocolSumFull(req.outbound, req.outbound.Keys);
  }

  /** The error rate is the errors' part of all requests of both directions. */
  lemma ErrorRateIs(req: Requests)
    requires All(req, false) != 0.0
    ensures ErrorRate(req) * All(req, false) == All(req, true)
    ensures ErrorRate(req) == 1.0 <==> All(req, true) == All(req, false)
  {
    WholePart(All(req, true), All(req, false));
  }

  /** It is all of them exactly when nothing but errors was counted. */
  lemma ErrorRateExactly(req: Requests)
    requires NonNegative(req.inbound) && NonNegative(req.outbound) && All(req, false) != 0.0
    ensures ErrorRate(req) == 1.0 <==> OnlyErrors(req.inbound, req.inbound.Keys) && OnlyErrors(req.outbound, req.outbound.Keys)
  {
    ErrorRateIs(req);
    OnlyErrorsSum(req);
  }

  lemma WholePart(part: real, whole: real)
    requires whole != 0.0
    ensures part / whole * whole == part && (part / whole == 1.0 <==> part == whole)
  {
    var q := part / whole;
    assert q * whole == part;
  }
}
