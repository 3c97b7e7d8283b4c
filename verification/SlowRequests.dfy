/** How late a request may ask its limiter for a token. The run in this module uses up a session's
    burst, lets further requests find the limiter as early as the delay allows, and has the
    session, which by then looks idle, reaped just after the last of them asked. */
module SlowRequests {
  import opened TokenBucket
  import opened RateLimiterRace
  import opened RaceReaping
  import RateLimiter

  const SESSION := "s"

  /** `burst` requests at `start`, `n` more that ask one `tick` after the other, a reap at `back`, and
      `burst` requests again. A tick refills one token. */
  datatype Plan = Plan(limit: real, burst: nat, n: nat, tick: real, start: real, delay: real, back: real)

  function AskAt(p: Plan, i: nat): real
  {
    p.start + i as real * p.tick
  }

  /** When the further requests arrive. */
  function Early(p: Plan): real
  {
    AskAt(p, p.n) - p.delay
  }

  ghost predicate Fit(p: Plan)
  {
    && p.limit > 0.0 && p.burst >= 1 && p.n >= 1 && p.tick > 0.0 && p.limit * p.tick == 1.0
    && 0.0 <= p.start <= Early(p) <= AskAt(p, 1) && p.delay >= 0.0
    && p.back - Early(p) > STALE_AFTER && AskAt(p, p.n) <= p.back
    && p.limit * (p.back - AskAt(p, p.n)) < p.burst as real
  }

  // The worlds the run goes through.

  /** After `k` requests of the first burst. */
  function Spent(p: Plan, k: nat): World
  {
    if k == 0 then START
    else World(map[SESSION := Slot(0, p.start)], [Bucket(p.limit, p.burst, p.burst as real - k as real, p.start)],
               p.limit, p.burst, map[], k)
  }

  function Tickets(p: Plan, from: nat, until: nat): (m: map<nat, Ticket>)
    ensures forall q :: q in m <==> from <= q < until
    ensures forall q :: q in m ==> m[q] == Ticket(SESSION, 0, Early(p))
    decreases until - from
  {
    if from >= until then map[] else Tickets(p, from + 1, until)[from := Ticket(SESSION, 0, Early(p))]
  }

  /** `j` of the further requests have arrived and `i` have asked. */
  function Waiting(p: Plan, j: nat, i: nat): World
  {
    World(map[SESSION := Slot(0, Early(p))], [Bucket(p.limit, p.burst, 0.0, AskAt(p, i))], p.limit, p.burst,
          Tickets(p, p.burst + i, p.burst + j), p.burst + j)
  }

  function Arriving(p: Plan, j: nat): World
  {
    if j == 0 then Spent(p, p.burst) else Waiting(p, j, 0)
  }

  /** After the reap and `k` requests more. */
  function Again(p: Plan, k: nat): World
  {
    var spent := Bucket(p.limit, p.burst, 0.0, AskAt(p, p.n));
    if k == 0 then World(map[], [spent], p.limit, p.burst, map[], p.burst + p.n)
    else World(map[SESSION := Slot(1, p.back)], [spent, Bucket(p.limit, p.burst, p.burst as real - k as real, p.back)],
               p.limit, p.burst, map[], p.burst + p.n + k)
  }

  // Building the run from its end.

  /** The run passes `n` requests of the session, keeps to the plan's settings and delay, and reaps at
      `back` alone. */
  ghost predicate Witness(p: Plan, w: World, acts: seq<Action>, t: real, n: nat)
  {
    && Runs(w, acts) && Prompt(w, acts, t, p.delay)
    && Steady(acts, p.limit, p.burst) && Until(acts, p.back)
    && (forall i :: 0 <= i < |acts| && acts[i].Reap? ==> acts[i].at == p.back)
    && Passed(w, acts, SESSION, 0) == n
  }

  /** With a reaper from `w` and without one from `v`, the run is answered differently. */
  ghost predicate Diverges(w: World, v: World, acts: seq<Action>)
  {
    Answers(w, acts, true) != Answers(v, acts, false)
  }

  lemma Prepend(p: Plan, w: World, a: Action, w': World, rest: seq<Action>, t: real, n: nat)
    requires Enabled(w, a) && Next(w, a) == w' && t <= a.at <= p.back
    requires a.Ask? ==> a.at <= w.inFlight[a.request].at + p.delay
    requires a.Arrive? ==> a.limit == p.limit && a.burst == p.burst
    requires a.Reap? ==> a.at == p.back
    requires Witness(p, w', rest, a.at, n)
    ensures Witness(p, w, [a] + rest, t, n + if Counted(w, a, SESSION, 0) then 1 else 0)
    ensures Answers(w, [a] + rest, true) == (if a.Ask? then [LetThrough(w, a)] else []) + Answers(w', rest, true)
  {
    assert ([a] + rest)[1..] == rest;
  }

  lemma HeadsDiffer(a: bool, b: bool, s: seq<bool>, t: seq<bool>)
    ensures [a] + s == [b] + t <==> a == b && s == t
  {
    assert ([a] + s)[1..] == s && ([b] + t)[1..] == t && ([a] + s)[0] == a && ([b] + t)[0] == b;
  }

  /** An action other than a reap is taken alike with and without a reaper. */
  lemma DivergesLater(w: World, a: Action, w': World, rest: seq<Action>)
    requires Enabled(w, a) && !a.Reap? && Next(w, a) == w' && Diverges(w', w', rest)
    ensures Diverges(w, w, [a] + rest)
  {
    assert ([a] + rest)[1..] == rest;
    if a.Ask? {
      var answer := LetThrough(w, a);
      HeadsDiffer(answer, answer, Answers(w', rest, true), Answers(w', rest, false));
    } else {
      assert Answers(w, [a] + rest, true) == Answers(w', rest, true);
      assert Answers(w, [a] + rest, false) == Answers(w', rest, false);
    }
  }

  // The second burst.

  /** A world without a reaper, in which the session has too little left for the rest of the second
      burst. */
  ghost predicate Poor(p: Plan, k: nat, v: World)
  {
    && v.limit == p.limit && v.burst == p.burst && v.arrivals == p.burst + p.n + k
    && SESSION in v.table && v.table[SESSION].limiter < |v.limiters|
    && Sound(v.limiters[v.table[SESSION].limiter], p.back)
    && Level(v.limiters[v.table[SESSION].limiter], p.back) < p.burst as real - k as real
  }

  function Return(p: Plan): Action
  {
    Arrive(p.back, SESSION, p.limit, p.burst)
  }

  function AskAgain(p: Plan, k: nat): Action
  {
    Ask(p.back, p.burst + p.n + k)
  }

  lemma PoorStep(p: Plan, k: nat, v: World)
    requires Fit(p) && Poor(p, k, v) && k < p.burst
    ensures var v1 := Next(v, Return(p));
            && Enabled(v, Return(p)) && Enabled(v1, AskAgain(p, k))
            && (LetThrough(v1, AskAgain(p, k)) ==> k + 1 < p.burst && Poor(p, k + 1, Next(v1, AskAgain(p, k))))
  {
    TakeSound(v.limiters[v.table[SESSION].limiter], p.back);
  }

  lemma AgainStep(p: Plan, k: nat)
    requires Fit(p) && k < p.burst
    ensures var w1 := Next(Again(p, k), Return(p));
            && Enabled(w1, AskAgain(p, k)) && LetThrough(w1, AskAgain(p, k))
            && w1.inFlight[p.burst + p.n + k] == Ticket(SESSION, 1, p.back)
            && Next(w1, AskAgain(p, k)) == Again(p, k + 1)
  {
    var w1 := Next(Again(p, k), Return(p));
    assert w1.limiters[1].limit * (p.back - w1.limiters[1].last) == 0.0;
    var w2 := Next(w1, AskAgain(p, k));
    assert w2.inFlight == map[] && w2.table == Again(p, k + 1).table;
    assert |w2.limiters| == 2 && w2.limiters[0] == Again(p, k + 1).limiters[0];
    assert w2.limiters[1] == Again(p, k + 1).limiters[1];
  }

  lemma PoorDiverges(p: Plan, k: nat, next: nat, v: World, rest: seq<Action>)
    requires Fit(p) && Poor(p, k, v) && next == k + 1 <= p.burst
    requires forall u :: Poor(p, next, u) && next < p.burst ==> Diverges(Again(p, next), u, rest)
    ensures Diverges(Again(p, k), v, [Return(p)] + ([AskAgain(p, k)] + rest))
  {
    AgainStep(p, k);
    PoorStep(p, k, v);
    var tail := [AskAgain(p, k)] + rest;
    assert ([Return(p)] + tail)[1..] == tail && tail[1..] == rest;
    var w1, v1 := Next(Again(p, k), Return(p)), Next(v, Return(p));
    var v2 := Next(v1, AskAgain(p, k));
    assert Answers(Again(p, k), [Return(p)] + tail, true) == Answers(w1, tail, true);
    assert Answers(v, [Return(p)] + tail, false) == Answers(v1, tail, false);
    assert Answers(w1, tail, true) == [true] + Answers(Again(p, k + 1), rest, true);
    assert Answers(v1, tail, false) == [LetThrough(v1, AskAgain(p, k))] + Answers(v2, rest, false);
    if LetThrough(v1, AskAgain(p, k)) {
      HeadsDiffer(true, true, Answers(Again(p, k + 1), rest, true), Answers(v2, rest, false));
    } else {
      HeadsDiffer(true, false, Answers(Again(p, k + 1), rest, true), Answers(v2, rest, false));
    }
  }

  lemma {:induction false} FromAgain(p: Plan, k: nat) returns (acts: seq<Action>)
    requires Fit(p) && k <= p.burst
    ensures Witness(p, Again(p, k), acts, p.back, p.burst - k)
    ensures forall v :: Poor(p, k, v) && k < p.burst ==> Diverges(Again(p, k), v, acts)
    decreases p.burst - k
  {
    if k == p.burst {
      acts := [];
    } else {
      var rest := FromAgain(p, k + 1);
      AgainStep(p, k);
      var w1 := Next(Again(p, k), Return(p));
      Prepend(p, w1, AskAgain(p, k), Again(p, k + 1), rest, p.back, p.burst - k - 1);
      Prepend(p, Again(p, k), Return(p), w1, [AskAgain(p, k)] + rest, p.back, p.burst - k);
      acts := [Return(p)] + ([AskAgain(p, k)] + rest);
      forall v | Poor(p, k, v) ensures Diverges(Again(p, k), v, acts) {
        PoorDiverges(p, k, k + 1, v, rest);
      }
    }
  }

  // The reap.

  lemma ReapStep(p: Plan)
    requires Fit(p)
    ensures Next(Waiting(p, p.n, p.n), Action.Reap(p.back)) == Again(p, 0)
  {
    assert Tickets(p, p.burst + p.n, p.burst + p.n) == map[];
    assert Next(Waiting(p, p.n, p.n), Action.Reap(p.back)).table == map[];
  }

  lemma SpentIsPoor(p: Plan)
    requires Fit(p)
    ensures Poor(p, 0, Waiting(p, p.n, p.n))
  {
    var gap := p.back - AskAt(p, p.n);
    Product(p.limit, gap);
    var b := Bucket(p.limit, p.burst, 0.0, AskAt(p, p.n));
    assert Level(b, p.back) == Capped(p.burst, p.limit * gap);
    assert Waiting(p, p.n, p.n).limiters == [b];
  }

  lemma ReapDiverges(w: World, reap: Action, w': World, rest: seq<Action>)
    requires reap.Reap? && Next(w, reap) == w' && Diverges(w', w, rest)
    ensures Diverges(w, w, [reap] + rest)
  {
    var acts := [reap] + rest;
    assert acts[0] == reap && acts[1..] == rest;
    assert Answers(w, acts, true) == [] + Answers(w', rest, true) == Answers(w', rest, true);
    assert Answers(w, acts, false) == [] + Answers(w, rest, false) == Answers(w, rest, false);
  }

  lemma FromReap(p: Plan) returns (acts: seq<Action>)
    requires Fit(p)
    ensures Witness(p, Waiting(p, p.n, p.n), acts, AskAt(p, p.n), p.burst)
    ensures Diverges(Waiting(p, p.n, p.n), Waiting(p, p.n, p.n), acts)
  {
    var rest := FromAgain(p, 0);
    var w, reap := Waiting(p, p.n, p.n), Action.Reap(p.back);
    ReapStep(p);
    SpentIsPoor(p);
    Prepend(p, w, reap, Again(p, 0), rest, AskAt(p, p.n), p.burst);
    ReapDiverges(w, reap, Again(p, 0), rest);
    acts := [reap] + rest;
  }

  // The further requests.

  /** A token is there one tick after the last was taken. */
  lemma OneTick(p: Plan, i: nat)
    requires Fit(p)
    ensures var b := Bucket(p.limit, p.burst, 0.0, AskAt(p, i));
            Level(b, AskAt(p, i + 1)) == 1.0 && Take(b, AskAt(p, i + 1)) == b.(last := AskAt(p, i + 1))
  {
    assert AskAt(p, i + 1) - AskAt(p, i) == p.tick;
  }

  lemma AskStep(p: Plan, i: nat)
    requires Fit(p) && i < p.n
    ensures var w, ask := Waiting(p, p.n, i), Ask(AskAt(p, i + 1), p.burst + i);
            && Enabled(w, ask) && w.inFlight[p.burst + i] == Ticket(SESSION, 0, Early(p)) && LetThrough(w, ask)
            && Next(w, ask) == Waiting(p, p.n, i + 1)
  {
    var w, ask := Waiting(p, p.n, i), Ask(AskAt(p, i + 1), p.burst + i);
    OneTick(p, i);
    assert Tickets(p, p.burst + i, p.burst + p.n) - {p.burst + i} == Tickets(p, p.burst + i + 1, p.burst + p.n);
  }

  lemma AskTimes(p: Plan, i: nat)
    requires Fit(p) && i < p.n
    ensures AskAt(p, i) <= AskAt(p, i + 1) <= AskAt(p, p.n)
  {
    assert AskAt(p, i + 1) - AskAt(p, i) == p.tick;
    Product(p.tick, (p.n - (i + 1)) as real);
  }

  lemma {:induction false} FromWaiting(p: Plan, i: nat) returns (acts: seq<Action>)
    requires Fit(p) && i <= p.n
    ensures Witness(p, Waiting(p, p.n, i), acts, if i == 0 then Early(p) else AskAt(p, i), p.n - i + p.burst)
    ensures Diverges(Waiting(p, p.n, i), Waiting(p, p.n, i), acts)
    decreases p.n - i
  {
    if i == p.n {
      acts := FromReap(p);
    } else {
      var rest := FromWaiting(p, i + 1);
      var w, ask := Waiting(p, p.n, i), Ask(AskAt(p, i + 1), p.burst + i);
      AskStep(p, i);
      AskTimes(p, i);
      Prepend(p, w, ask, Waiting(p, p.n, i + 1), rest, if i == 0 then Early(p) else AskAt(p, i), p.n - (i + 1) + p.burst);
      DivergesLater(w, ask, Waiting(p, p.n, i + 1), rest);
      acts := [ask] + rest;
    }
  }

  lemma ArriveStep(p: Plan, j: nat)
    requires Fit(p) && j < p.n
    ensures Next(Arriving(p, j), Arrive(Early(p), SESSION, p.limit, p.burst)) == Arriving(p, j + 1)
  {
    var w := Next(Arriving(p, j), Arrive(Early(p), SESSION, p.limit, p.burst));
    assert AskAt(p, 0) == p.start;
    assert w.inFlight == Tickets(p, p.burst, p.burst + j + 1);
    assert w.table == map[SESSION := Slot(0, Early(p))];
  }

  lemma {:induction false} FromArriving(p: Plan, j: nat) returns (acts: seq<Action>)
    requires Fit(p) && j <= p.n
    ensures Witness(p, Arriving(p, j), acts, if j == 0 then p.start else Early(p), p.n + p.burst)
    ensures Diverges(Arriving(p, j), Arriving(p, j), acts)
    decreases p.n - j
  {
    if j == p.n {
      acts := FromWaiting(p, 0);
    } else {
      var rest := FromArriving(p, j + 1);
      var arrive := Arrive(Early(p), SESSION, p.limit, p.burst);
      ArriveStep(p, j);
      AskTimes(p, 0);
      Prepend(p, Arriving(p, j), arrive, Arriving(p, j + 1), rest, if j == 0 then p.start else Early(p), p.n + p.burst);
      DivergesLater(Arriving(p, j), arrive, Arriving(p, j + 1), rest);
      acts := [arrive] + rest;
    }
  }

  // The first burst.

  lemma SpendStep(p: Plan, k: nat)
    requires Fit(p) && k < p.burst
    ensures var arrive, ask := Arrive(p.start, SESSION, p.limit, p.burst), Ask(p.start, k);
            var w1 := Next(Spent(p, k), arrive);
            && Enabled(w1, ask) && LetThrough(w1, ask) && w1.inFlight[k] == Ticket(SESSION, 0, p.start)
            && Next(w1, ask) == Spent(p, k + 1)
  {
    var w1 := Next(Spent(p, k), Arrive(p.start, SESSION, p.limit, p.burst));
    assert w1.limiters[0].limit * (p.start - w1.limiters[0].last) == 0.0;
    var w2 := Next(w1, Ask(p.start, k));
    assert w2.inFlight == map[];
    assert w2.table == Spent(p, k + 1).table && w2.limiters == Spent(p, k + 1).limiters;
  }

  lemma {:induction false} FromStart(p: Plan, k: nat) returns (acts: seq<Action>)
    requires Fit(p) && k <= p.burst
    ensures Witness(p, Spent(p, k), acts, p.start, p.burst - k + p.n + p.burst)
    ensures Diverges(Spent(p, k), Spent(p, k), acts)
    decreases p.burst - k
  {
    if k == p.burst {
      acts := FromArriving(p, 0);
    } else {
      var rest := FromStart(p, k + 1);
      var arrive, ask := Arrive(p.start, SESSION, p.limit, p.burst), Ask(p.start, k);
      var w1 := Next(Spent(p, k), arrive);
      SpendStep(p, k);
      AskTimes(p, 0);
      Prepend(p, w1, ask, Spent(p, k + 1), rest, p.start, p.burst - k - 1 + p.n + p.burst);
      Prepend(p, Spent(p, k), arrive, w1, [ask] + rest, p.start, p.burst - k + p.n + p.burst);
      DivergesLater(w1, ask, Spent(p, k + 1), rest);
      DivergesLater(Spent(p, k), arrive, w1, [ask] + rest);
      acts := [arrive] + ([ask] + rest);
    }
  }

  // Fitting a plan to the limits.

  ghost predicate OnTick(at: real)
  {
    exists j :: at == TickAt(j)
  }

  function TickAt(j: nat): real
  {
    j as real * RateLimiter.REAP_EVERY
  }

  lemma MakePlan(limit: real, burst: nat, delay: real) returns (p: Plan)
    requires limit > 0.0 && burst >= 1 && 0.0 <= delay <= STALE_AFTER && limit * (STALE_AFTER - delay) < burst as real
    ensures Fit(p) && p.limit == limit && p.burst == burst && p.delay == delay && OnTick(p.back)
    ensures limit * (p.back - p.start) < (p.n + burst) as real
  {
    var tick := 1.0 / limit;
    assert limit * tick == 1.0;
    var n := (limit * delay).Floor + 1;
    Product(limit, delay);
    TicksCover(limit, tick, delay, n);
    var slack := burst as real - limit * (STALE_AFTER - delay);
    var over := slack * tick / 2.0;
    assert over > 0.0 && limit * over == slack / 2.0 by {
      assert limit * over == slack * (limit * tick) / 2.0;
    }
    var length := n as real * tick - delay + STALE_AFTER + over;
    var j := (length / RateLimiter.REAP_EVERY).Floor + 1;
    var back := TickAt(j);
    p := Plan(limit, burst, n, tick, back - length, delay, back);
    assert p.back - p.start == length;
    Lengths(limit, tick, delay, n, over, length);
    assert p.back - AskAt(p, n) == STALE_AFTER - delay + over;
  }

  lemma TicksCover(limit: real, tick: real, delay: real, n: int)
    requires limit > 0.0 && limit * tick == 1.0 && n == (limit * delay).Floor + 1
    ensures tick > 0.0 && 0.0 <= n as real * tick - delay <= tick
  {
    var x := limit * delay;
    assert x * tick == delay by {
      assert x * tick == (limit * tick) * delay;
    }
    var part := n as real - x;
    assert 0.0 <= part <= 1.0;
    ProductMono(tick, 0.0, part);
    ProductMono(tick, part, 1.0);
    assert tick * part == n as real * tick - x * tick;
    assert tick * 0.0 == 0.0 && tick * 1.0 == tick;
  }

  lemma Lengths(limit: real, tick: real, delay: real, n: int, over: real, length: real)
    requires limit * tick == 1.0 && length == n as real * tick - delay + STALE_AFTER + over
    ensures limit * length == n as real + limit * (STALE_AFTER - delay) + limit * over
    ensures limit * (STALE_AFTER - delay + over) == limit * (STALE_AFTER - delay) + limit * over
  {
    assert limit * (n as real * tick) == n as real * (limit * tick);
  }

  /** A run that lets more requests through than the bound on its window, and answers differently
      with and without the reaper, for every limit, burst and delay for which ten minutes less the
      delay do not refill the burst. It reaps once, on a tick of the reaper. */
  lemma SlowRequestBreaksBound(limit: real, burst: nat, delay: real) returns (p: Plan, acts: seq<Action>)
    requires limit > 0.0 && burst >= 1 && 0.0 <= delay <= STALE_AFTER && limit * (STALE_AFTER - delay) < burst as real
    ensures Fit(p) && p.limit == limit && p.burst == burst && p.delay == delay && OnTick(p.back)
    ensures Witness(p, START, acts, p.start, 2 * burst + p.n)
    ensures (2 * burst + p.n) as real > burst as real + limit * (p.back - p.start)
    ensures Diverges(START, START, acts)
  {
    p := MakePlan(limit, burst, delay);
    acts := FromStart(p, 0);
  }

  // The exact conditions.

  lemma {:induction false} PromptForLonger(w: World, acts: seq<Action>, t: real, u: real, delay: real, longer: real)
    requires Runs(w, acts) && Prompt(w, acts, t, delay) && delay <= longer && u <= t
    ensures Prompt(w, acts, u, longer)
    decreases acts
  {
    if acts != [] {
      PromptForLonger(Next(w, acts[0]), acts[1..], acts[0].at, acts[0].at, delay, longer);
    }
  }

  /** Some run up to `begin`, and a window after it in which the limit and burst do not change. */
  ghost predicate Admissible(past: seq<Action>, window: seq<Action>, begin: real, end: real,
                             limit: real, burst: int, delay: real)
  {
    && Runs(START, past) && Prompt(START, past, 0.0, delay) && Until(past, begin) && 0.0 <= begin <= end
    && Runs(Final(START, past), window) && Prompt(Final(START, past), window, begin, delay)
    && Steady(window, limit, burst) && Until(window, end)
  }

  ghost predicate WithinBound(past: seq<Action>, window: seq<Action>, x: string, begin: real, end: real, limit: real, burst: int)
    requires Runs(START, past) && Runs(Final(START, past), window)
  {
    Passed(Final(START, past), window, x, Final(START, past).arrivals) as real <= burst as real + limit * (end - begin)
  }

  ghost predicate BoundHolds(limit: real, burst: int, delay: real)
  {
    forall past, window, x, begin, end :: Admissible(past, window, begin, end, limit, burst, delay) ==>
      WithinBound(past, window, x, begin, end, limit, burst)
  }

  lemma SlowRun(limit: real, burst: nat, delay: real) returns (p: Plan, acts: seq<Action>)
    requires limit > 0.0 && burst >= 1 && delay >= 0.0 && limit * (STALE_AFTER - delay) < burst as real
    ensures Fit(p) && p.limit == limit && p.burst == burst && p.delay <= delay && p.start <= p.back
    ensures Witness(p, START, acts, p.start, 2 * burst + p.n)
    ensures (2 * burst + p.n) as real > burst as real + limit * (p.back - p.start)
    ensures Diverges(START, START, acts)
  {
    p, acts := SlowRequestBreaksBound(limit, burst, if delay <= STALE_AFTER then delay else STALE_AFTER);
    AskTimes(p, 0);
  }

  lemma SlowRunIsAdmissible(p: Plan, acts: seq<Action>, n: nat, delay: real)
    requires Fit(p) && p.start <= p.back && p.delay <= delay && Witness(p, START, acts, p.start, n)
    ensures Prompt(START, acts, 0.0, delay)
    ensures Admissible([], acts, p.start, p.back, p.limit, p.burst, delay)
  {
    PromptForLonger(START, acts, p.start, p.start, p.delay, delay);
    PromptForLonger(START, acts, p.start, 0.0, p.delay, delay);
  }

  lemma BoundFails(limit: real, burst: nat, delay: real)
    requires limit > 0.0 && burst >= 1 && delay >= 0.0 && limit * (STALE_AFTER - delay) < burst as real
    ensures !BoundHolds(limit, burst, delay)
  {
    var p, acts := SlowRun(limit, burst, delay);
    SlowRunIsAdmissible(p, acts, 2 * burst + p.n, delay);
    assert !WithinBound([], acts, SESSION, p.start, p.back, limit, burst);
  }

  /** A session is let through at most `burst + limit * length` times in every window with unchanged
      settings, over all runs whose requests ask at most `delay` after they arrived, if and only if
      ten minutes less that delay refill the burst. */
  lemma WindowBoundExactly(limit: real, burst: nat, delay: real)
    requires limit > 0.0 && burst >= 1 && delay >= 0.0
    ensures BoundHolds(limit, burst, delay) <==> burst as real <= limit * (600.0 - delay)
  {
    if burst as real <= limit * (STALE_AFTER - delay) {
      forall past, window, x, begin, end | Admissible(past, window, begin, end, limit, burst, delay)
        ensures WithinBound(past, window, x, begin, end, limit, burst)
      {
        WindowBound(past, window, x, begin, end, limit, burst, delay);
      }
    } else {
      BoundFails(limit, burst, delay);
    }
  }

  /** Every request is answered alike with and without the reaper, over all runs with these settings
      whose requests ask at most `delay` after they arrived, under exactly the same condition. */
  lemma ReapingInvisibleExactly(limit: real, burst: nat, delay: real)
    requires limit > 0.0 && burst >= 1 && delay >= 0.0
    ensures (forall acts :: Runs(START, acts) && Prompt(START, acts, 0.0, delay) && Steady(acts, limit, burst) ==>
               Answers(START, acts, true) == Answers(START, acts, false))
            <==> burst as real <= limit * (600.0 - delay)
  {
    if burst as real <= limit * (STALE_AFTER - delay) {
      DelayBelowStale(limit, burst, delay);
      forall acts | Runs(START, acts) && Prompt(START, acts, 0.0, delay) && Steady(acts, limit, burst)
        ensures Answers(START, acts, true) == Answers(START, acts, false)
      {
        ReapingInvisible(acts, delay);
      }
    } else {
      var p, acts := SlowRun(limit, burst, delay);
      SlowRunIsAdmissible(p, acts, 2 * burst + p.n, delay);
    }
  }
}
