/** Reaping with the two halves of a request apart: the machine of RateLimiterRace beside the
    same machine without a reaper. A session that is reaped goes on with a new limiter in the
    one and with its old one in the other. */
module RaceReaping {
  import opened TokenBucket
  import opened RateLimiterRace

  /** One action; with `forgets` off the reaper does nothing. */
  function Step(w: World, a: Action, forgets: bool): World
    requires Enabled(w, a)
  {
    if a.Reap? && !forgets then w else Next(w, a)
  }

  /** The answers of a run, in the order in which requests ask. */
  function Answers(w: World, acts: seq<Action>, forgets: bool): seq<bool>
    decreases acts
  {
    if acts == [] || !Enabled(w, acts[0]) then []
    else
      (if acts[0].Ask? then [LetThrough(w, acts[0])] else []) + Answers(Step(w, acts[0], forgets), acts[1..], forgets)
  }

  // Which limiter of the reaped machine stands for which of the other. The pairs are those in use:
  // of the table, and of requests that can still ask.

  ghost predicate Live(w: World, q: nat, t: real, delay: real)
    requires q in w.inFlight
  {
    t <= w.inFlight[q].at + delay
  }

  ghost predicate SameShape(r: World, k: World)
  {
    && r.limit == k.limit && r.burst == k.burst && r.arrivals == k.arrivals
    && r.inFlight.Keys == k.inFlight.Keys
    && forall q :: q in r.inFlight ==>
         r.inFlight[q].session == k.inFlight[q].session && r.inFlight[q].at == k.inFlight[q].at
  }

  /** The two limiters behave alike from `t` on. */
  ghost predicate Paired(r: World, k: World, a: nat, b: nat, t: real)
  {
    && a < |r.limiters| && b < |k.limiters|
    && r.limiters[a].limit == k.limiters[b].limit && r.limiters[a].burst == k.limiters[b].burst
    && Level(r.limiters[a], t) == Level(k.limiters[b], t)
  }

  ghost predicate Linked(link: map<nat, nat>, a: nat, b: nat)
  {
    a in link && link[a] == b
  }

  /** A session the reaped machine has forgotten: its limiter is full, and no one in the reaped
      machine has a limiter standing for it. */
  ghost predicate Full(k: World, link: map<nat, nat>, b: nat, t: real)
  {
    && b < |k.limiters| && k.limiters[b].limit == k.limit && k.limiters[b].burst == k.burst
    && Level(k.limiters[b], t) == k.burst as real
    && forall a :: a in link ==> link[a] != b
  }

  ghost predicate Injective(link: map<nat, nat>)
  {
    forall a, a' :: a in link && a' in link && link[a] == link[a'] ==> a == a'
  }

  ghost predicate AllPaired(r: World, k: World, link: map<nat, nat>, t: real)
  {
    forall a {:trigger Paired(r, k, a, link[a], t)} :: a in link ==> Paired(r, k, a, link[a], t)
  }

  ghost predicate LiveLinked(r: World, k: World, link: map<nat, nat>, t: real, delay: real)
    requires SameShape(r, k)
  {
    forall q :: q in r.inFlight && Live(r, q, t, delay) ==> Linked(link, r.inFlight[q].limiter, k.inFlight[q].limiter)
  }

  ghost predicate TableLinked(r: World, k: World, link: map<nat, nat>)
  {
    forall x :: x in r.table ==>
      x in k.table && r.table[x].lastSeen == k.table[x].lastSeen && Linked(link, r.table[x].limiter, k.table[x].limiter)
  }

  ghost predicate RestFull(r: World, k: World, link: map<nat, nat>, t: real)
  {
    forall x {:trigger Full(k, link, k.table[x].limiter, t)} :: x in k.table && x !in r.table ==>
      Full(k, link, k.table[x].limiter, t)
  }

  ghost predicate Alike(r: World, k: World, link: map<nat, nat>, t: real, delay: real)
  {
    && SameShape(r, k) && Injective(link) && AllPaired(r, k, link, t) && LiveLinked(r, k, link, t, delay)
    && TableLinked(r, k, link) && RestFull(r, k, link, t)
  }

  /** Ten minutes less the delay refill a burst under the settings in force. */
  ghost predicate Refilling(w: World, delay: real)
  {
    w.burst as real <= w.limit * (STALE_AFTER - delay)
  }

  lemma PairedLater(r: World, k: World, a: nat, b: nat, t: real, u: real)
    requires Paired(r, k, a, b, t) && Sound(r.limiters[a], t) && Sound(k.limiters[b], t) && t <= u
    ensures Paired(r, k, a, b, u)
  {
    LevelLater(r.limiters[a], t, u);
    LevelLater(k.limiters[b], t, u);
  }

  lemma FullLater(k: World, link: map<nat, nat>, b: nat, t: real, u: real)
    requires Full(k, link, b, t) && Sound(k.limiters[b], t) && t <= u
    ensures Full(k, link, b, u)
  {
    LevelLater(k.limiters[b], t, u);
    Product(k.limiters[b].limit, u - t);
  }

  lemma AlikeLater(r: World, k: World, link: map<nat, nat>, t: real, u: real, delay: real)
    requires Alike(r, k, link, t, delay) && Inv(r, t, delay) && Inv(k, t, delay) && t <= u
    ensures Alike(r, k, link, u, delay)
  {
    forall a | a in link ensures Paired(r, k, a, link[a], u) {
      PairedLater(r, k, a, link[a], t, u);
    }
    forall x | x in k.table && x !in r.table ensures Full(k, link, k.table[x].limiter, u) {
      FullLater(k, link, k.table[x].limiter, t, u);
    }
  }

  // An arrival.

  /** The pair of the limiters the session has after it arrived. */
  function LinkAfter(r: World, k: World, link: map<nat, nat>, a: Action): map<nat, nat>
    requires a.Arrive?
  {
    var r', k' := Arrived(r, a), Arrived(k, a);
    link[r'.table[a.session].limiter := k'.table[a.session].limiter]
  }

  /** The settings are those of the arrival already, and the session's table entry is still there. */
  predicate Keeps(w: World, a: Action)
    requires a.Arrive?
  {
    a.limit == w.limit && a.burst == w.burst && a.session in w.table
  }

  lemma NewPair(r: World, k: World, link: map<nat, nat>, a: Action, delay: real)
    requires Alike(r, k, link, a.at, delay) && Inv(k, a.at, delay) && a.Arrive? && !Keeps(r, a)
    ensures var r', k' := Arrived(r, a), Arrived(k, a);
            var n := k'.table[a.session].limiter;
            && r'.table[a.session].limiter == |r.limiters| && Paired(r', k', |r.limiters|, n, a.at)
            && forall b :: b in link ==> link[b] != n
  {
    NewIsFull(a.limit, a.burst, a.at);
    if Keeps(k, a) {
      assert Full(k, link, k.table[a.session].limiter, a.at);
    } else {
      forall b | b in link ensures link[b] != |k.limiters| {
        assert Paired(r, k, b, link[b], a.at);
      }
    }
  }

  lemma LinkInRange(r: World, k: World, link: map<nat, nat>, t: real)
    requires AllPaired(r, k, link, t)
    ensures forall a :: a in link ==> a < |r.limiters|
  {
    forall a | a in link ensures a < |r.limiters| {
      assert Paired(r, k, a, link[a], t);
    }
  }

  /** The session's two limiters after it arrived make a pair, and a new one at that unless the pair
      is an old one. */
  lemma ArrivedPair(r: World, k: World, link: map<nat, nat>, a: Action, delay: real)
    requires Alike(r, k, link, a.at, delay) && Inv(k, a.at, delay) && a.Arrive?
    ensures var r', k' := Arrived(r, a), Arrived(k, a);
            var m, n := r'.table[a.session].limiter, k'.table[a.session].limiter;
            && Paired(r', k', m, n, a.at)
            && (Linked(link, m, n) || (m !in link && forall b :: b in link ==> link[b] != n))
  {
    if Keeps(r, a) {
      assert Paired(r, k, r.table[a.session].limiter, link[r.table[a.session].limiter], a.at);
    } else {
      NewPair(r, k, link, a, delay);
      LinkInRange(r, k, link, a.at);
    }
  }

  lemma ArriveKeepsPairs(r: World, k: World, link: map<nat, nat>, a: Action, delay: real)
    requires Alike(r, k, link, a.at, delay) && Inv(k, a.at, delay) && a.Arrive?
    ensures Injective(LinkAfter(r, k, link, a))
    ensures AllPaired(Arrived(r, a), Arrived(k, a), LinkAfter(r, k, link, a), a.at)
  {
    ArrivedPair(r, k, link, a, delay);
    var r', k', link' := Arrived(r, a), Arrived(k, a), LinkAfter(r, k, link, a);
    forall b | b in link' ensures Paired(r', k', b, link'[b], a.at) {
      if b in link {
        assert Paired(r, k, b, link[b], a.at);
      }
    }
  }

  lemma ArriveKeepsLive(r: World, k: World, link: map<nat, nat>, a: Action, delay: real)
    requires Alike(r, k, link, a.at, delay) && Inv(k, a.at, delay) && a.Arrive?
    ensures SameShape(Arrived(r, a), Arrived(k, a))
    ensures LiveLinked(Arrived(r, a), Arrived(k, a), LinkAfter(r, k, link, a), a.at, delay)
  {
    ArrivedPair(r, k, link, a, delay);
    var r', k', link' := Arrived(r, a), Arrived(k, a), LinkAfter(r, k, link, a);
    forall q | q in r'.inFlight && Live(r', q, a.at, delay)
      ensures Linked(link', r'.inFlight[q].limiter, k'.inFlight[q].limiter)
    {
      assert q == r.arrivals || Linked(link, r.inFlight[q].limiter, k.inFlight[q].limiter);
    }
  }

  lemma ArriveKeepsTable(r: World, k: World, link: map<nat, nat>, a: Action, delay: real)
    requires Alike(r, k, link, a.at, delay) && Inv(k, a.at, delay) && a.Arrive?
    ensures TableLinked(Arrived(r, a), Arrived(k, a), LinkAfter(r, k, link, a))
  {
    ArrivedPair(r, k, link, a, delay);
  }

  lemma ArriveKeepsFull(r: World, k: World, link: map<nat, nat>, a: Action, delay: real)
    requires Alike(r, k, link, a.at, delay) && Inv(k, a.at, delay) && a.Arrive?
    ensures RestFull(Arrived(r, a), Arrived(k, a), LinkAfter(r, k, link, a), a.at)
  {
    ArrivedPair(r, k, link, a, delay);
    var r', k', link' := Arrived(r, a), Arrived(k, a), LinkAfter(r, k, link, a);
    forall x | x in k'.table && x !in r'.table ensures Full(k', link', k'.table[x].limiter, a.at) {
      assert x in k.table && x !in r.table && Full(k, link, k.table[x].limiter, a.at);
    }
  }

  lemma ArriveStaysAlike(r: World, k: World, link: map<nat, nat>, a: Action, delay: real)
    requires Alike(r, k, link, a.at, delay) && Inv(k, a.at, delay) && a.Arrive? && Enabled(r, a)
    ensures Alike(Next(r, a), Next(k, a), LinkAfter(r, k, link, a), a.at, delay)
  {
    ArriveKeepsPairs(r, k, link, a, delay);
    ArriveKeepsLive(r, k, link, a, delay);
    ArriveKeepsTable(r, k, link, a, delay);
    ArriveKeepsFull(r, k, link, a, delay);
  }

  // A request asks.

  lemma AskStaysAlike(r: World, k: World, link: map<nat, nat>, a: Action, delay: real)
    requires Alike(r, k, link, a.at, delay) && Inv(r, a.at, delay) && Inv(k, a.at, delay)
    requires a.Ask? && Enabled(r, a) && Live(r, a.request, a.at, delay)
    ensures Enabled(k, a) && LetThrough(r, a) == LetThrough(k, a)
    ensures Alike(Next(r, a), Next(k, a), link, a.at, delay)
  {
    var m, n := r.inFlight[a.request].limiter, k.inFlight[a.request].limiter;
    assert Linked(link, m, n) && Paired(r, k, m, n, a.at);
    TakeSound(r.limiters[m], a.at);
    TakeSound(k.limiters[n], a.at);
    var r', k' := Next(r, a), Next(k, a);
    forall b | b in link ensures Paired(r', k', b, link[b], a.at) {
      assert Paired(r, k, b, link[b], a.at);
    }
    forall x | x in k'.table && x !in r'.table ensures Full(k', link, k'.table[x].limiter, a.at) {
      assert Full(k, link, k.table[x].limiter, a.at);
    }
  }

  // The reaper.

  predicate Reaps(r: World, x: string, now: real)
    requires x in r.table
  {
    now - r.table[x].lastSeen > STALE_AFTER
  }

  ghost function Dropped(r: World, now: real): set<nat>
  {
    set x | x in r.table && Reaps(r, x, now) :: r.table[x].limiter
  }

  /** A limiter that is dropped is not held by a request that can still ask, nor by another session. */
  lemma DroppedUnused(r: World, k: World, link: map<nat, nat>, a: Action, delay: real)
    requires Alike(r, k, link, a.at, delay) && Inv(r, a.at, delay) && a.Reap? && delay <= STALE_AFTER
    ensures forall q :: q in r.inFlight && Live(r, q, a.at, delay) ==> r.inFlight[q].limiter !in Dropped(r, a.at)
    ensures forall x :: x in r.table && !Reaps(r, x, a.at) ==> r.table[x].limiter !in Dropped(r, a.at)
  {
  }

  /** The limiter of a stale session has refilled in the machine without a reaper. */
  lemma StaleIsFull(k: World, x: string, now: real, delay: real)
    requires Inv(k, now, delay) && Refilling(k, delay) && x in k.table && now - k.table[x].lastSeen > STALE_AFTER
    ensures Level(k.limiters[k.table[x].limiter], now) == k.burst as real
  {
    assert SlotInv(k, x, now, delay);
    Refilled(k.limiters[k.table[x].limiter], k.table[x].lastSeen + delay, now, STALE_AFTER - delay);
  }

  lemma ReapedIsFull(k: World, link: map<nat, nat>, dropped: set<nat>, a: nat, x: string, now: real, delay: real)
    requires Inv(k, now, delay) && Refilling(k, delay) && x in k.table && now - k.table[x].lastSeen > STALE_AFTER
    requires Injective(link) && Linked(link, a, k.table[x].limiter) && a in dropped
    ensures Full(k, link - dropped, k.table[x].limiter, now)
  {
    StaleIsFull(k, x, now, delay);
    assert SlotInv(k, x, now, delay);
    LessLinked(link, dropped, a, k.table[x].limiter);
  }

  lemma LessLinked(link: map<nat, nat>, dropped: set<nat>, a: nat, b: nat)
    requires Injective(link) && Linked(link, a, b) && a in dropped
    ensures forall c :: c in link - dropped ==> (link - dropped)[c] != b
  {
  }

  lemma FullLess(k: World, link: map<nat, nat>, dropped: set<nat>, b: nat, t: real)
    requires Full(k, link, b, t)
    ensures Full(k, link - dropped, b, t)
  {
  }

  lemma ForgottenIsFull(r: World, k: World, link: map<nat, nat>, a: Action, delay: real, x: string)
    requires Injective(link) && TableLinked(r, k, link) && RestFull(r, k, link, a.at)
    requires Inv(k, a.at, delay) && a.Reap? && Refilling(k, delay)
    requires x in k.table && (x in r.table ==> Reaps(r, x, a.at))
    ensures Full(k, link - Dropped(r, a.at), k.table[x].limiter, a.at)
  {
    if x in r.table {
      ReapedIsFull(k, link, Dropped(r, a.at), r.table[x].limiter, x, a.at, delay);
    } else {
      FullLess(k, link, Dropped(r, a.at), k.table[x].limiter, a.at);
    }
  }

  lemma ReapKeepsFull(r: World, k: World, link: map<nat, nat>, a: Action, delay: real)
    requires Alike(r, k, link, a.at, delay) && Inv(k, a.at, delay) && a.Reap? && Refilling(r, delay)
    ensures RestFull(Next(r, a), k, link - Dropped(r, a.at), a.at)
  {
    forall x | x in k.table && x !in Next(r, a).table ensures Full(k, link - Dropped(r, a.at), k.table[x].limiter, a.at) {
      ForgottenIsFull(r, k, link, a, delay, x);
    }
  }

  lemma ReapKeepsPairs(r: World, k: World, link: map<nat, nat>, a: Action, delay: real)
    requires Alike(r, k, link, a.at, delay) && a.Reap?
    ensures Injective(link - Dropped(r, a.at)) && AllPaired(Next(r, a), k, link - Dropped(r, a.at), a.at)
  {
    var r', link' := Next(r, a), link - Dropped(r, a.at);
    forall b | b in link' ensures Paired(r', k, b, link'[b], a.at) {
      assert Paired(r, k, b, link[b], a.at);
    }
  }

  lemma ReapKeepsLinks(r: World, k: World, link: map<nat, nat>, a: Action, delay: real)
    requires Alike(r, k, link, a.at, delay) && Inv(r, a.at, delay) && a.Reap? && delay <= STALE_AFTER
    ensures SameShape(Next(r, a), k) && LiveLinked(Next(r, a), k, link - Dropped(r, a.at), a.at, delay)
    ensures TableLinked(Next(r, a), k, link - Dropped(r, a.at))
  {
    DroppedUnused(r, k, link, a, delay);
  }

  lemma ReapStaysAlike(r: World, k: World, link: map<nat, nat>, a: Action, delay: real)
    requires Alike(r, k, link, a.at, delay) && Inv(r, a.at, delay) && Inv(k, a.at, delay)
    requires a.Reap? && Refilling(r, delay) && delay <= STALE_AFTER
    ensures Alike(Next(r, a), k, link - Dropped(r, a.at), a.at, delay)
  {
    ReapKeepsLinks(r, k, link, a, delay);
    ReapKeepsPairs(r, k, link, a, delay);
    ReapKeepsFull(r, k, link, a, delay);
  }

  /** Ten minutes less the delay refill a burst under every configuration of the run. */
  ghost predicate AllRefill(acts: seq<Action>, delay: real)
  {
    forall i :: 0 <= i < |acts| && acts[i].Arrive? ==> acts[i].burst as real <= acts[i].limit * (STALE_AFTER - delay)
  }

  lemma StepStaysAlike(r: World, k: World, link: map<nat, nat>, a: Action, delay: real) returns (link': map<nat, nat>)
    requires Alike(r, k, link, a.at, delay) && Inv(r, a.at, delay) && Inv(k, a.at, delay) && Refilling(r, delay)
    requires Enabled(r, a) && 0.0 <= delay <= STALE_AFTER
    requires a.Ask? ==> Live(r, a.request, a.at, delay)
    ensures Enabled(k, a) && (a.Ask? ==> LetThrough(r, a) == LetThrough(k, a))
    ensures Alike(Step(r, a, true), Step(k, a, false), link', a.at, delay)
  {
    link' := link;
    match a
    case Arrive(_, _, _, _) =>
      ArriveStaysAlike(r, k, link, a, delay);
      link' := LinkAfter(r, k, link, a);
    case Ask(_, _) =>
      AskStaysAlike(r, k, link, a, delay);
    case Reap(_) =>
      ReapStaysAlike(r, k, link, a, delay);
      link' := link - Dropped(r, a.at);
  }

  ghost predicate Together(r: World, k: World, link: map<nat, nat>, t: real, delay: real)
  {
    Alike(r, k, link, t, delay) && Inv(r, t, delay) && Inv(k, t, delay) && Refilling(r, delay)
  }

  lemma TogetherLater(r: World, k: World, link: map<nat, nat>, t: real, u: real, delay: real)
    requires Together(r, k, link, t, delay) && t <= u
    ensures Together(r, k, link, u, delay)
  {
    AlikeLater(r, k, link, t, u, delay);
    InvLater(r, t, u, delay);
    InvLater(k, t, u, delay);
  }

  lemma StepTogether(r: World, k: World, link: map<nat, nat>, a: Action, delay: real) returns (link': map<nat, nat>)
    requires Together(r, k, link, a.at, delay) && Enabled(r, a) && 0.0 <= delay <= STALE_AFTER
    requires a.Ask? ==> Live(r, a.request, a.at, delay)
    requires a.Arrive? ==> a.burst as real <= a.limit * (STALE_AFTER - delay)
    ensures Enabled(k, a) && (a.Ask? ==> LetThrough(r, a) == LetThrough(k, a))
    ensures Together(Step(r, a, true), Step(k, a, false), link', a.at, delay)
  {
    link' := StepStaysAlike(r, k, link, a, delay);
    BothKeepInv(r, k, a, delay);
    StaysRefilling(r, a, delay);
  }

  lemma StaysRefilling(r: World, a: Action, delay: real)
    requires Refilling(r, delay) && Enabled(r, a)
    requires a.Arrive? ==> a.burst as real <= a.limit * (STALE_AFTER - delay)
    ensures Refilling(Step(r, a, true), delay)
  {
  }

  lemma BothKeepInv(r: World, k: World, a: Action, delay: real)
    requires Inv(r, a.at, delay) && Inv(k, a.at, delay) && Enabled(r, a) && Enabled(k, a) && SameShape(r, k)
    requires 0.0 <= delay && (a.Ask? ==> Live(r, a.request, a.at, delay))
    ensures Inv(Step(r, a, true), a.at, delay) && Inv(Step(k, a, false), a.at, delay)
  {
    StepKeepsInv(r, a, a.at, delay);
    StepKeepsInv(k, a, a.at, delay);
  }

  lemma RefillTail(acts: seq<Action>, delay: real)
    requires acts != [] && AllRefill(acts, delay)
    ensures AllRefill(acts[1..], delay)
    ensures acts[0].Arrive? ==> acts[0].burst as real <= acts[0].limit * (STALE_AFTER - delay)
  {
  }

  lemma NextTogether(r: World, k: World, link: map<nat, nat>, a: Action, t: real, delay: real) returns (link': map<nat, nat>)
    requires Together(r, k, link, t, delay) && t <= a.at && Enabled(r, a) && 0.0 <= delay <= STALE_AFTER
    requires a.Ask? ==> Live(r, a.request, a.at, delay)
    requires a.Arrive? ==> a.burst as real <= a.limit * (STALE_AFTER - delay)
    ensures Enabled(k, a) && (a.Ask? ==> LetThrough(r, a) == LetThrough(k, a))
    ensures Together(Step(r, a, true), Step(k, a, false), link', a.at, delay)
  {
    TogetherLater(r, k, link, t, a.at, delay);
    link' := StepTogether(r, k, link, a, delay);
  }

  lemma {:induction false} SameAnswers(r: World, k: World, link: map<nat, nat>, acts: seq<Action>, t: real, delay: real)
    requires Together(r, k, link, t, delay) && 0.0 <= delay <= STALE_AFTER
    requires Runs(r, acts) && Prompt(r, acts, t, delay) && AllRefill(acts, delay)
    ensures Answers(r, acts, true) == Answers(k, acts, false)
    decreases acts
  {
    if acts != [] {
      RefillTail(acts, delay);
      var link' := NextTogether(r, k, link, acts[0], t, delay);
      SameAnswers(Step(r, acts[0], true), Step(k, acts[0], false), link', acts[1..], acts[0].at, delay);
    }
  }

  /** With requests that ask at most `delay` after they arrived, reaping cannot be observed when ten
      minutes less that delay refill a burst: every request of every run is answered alike with and
      without the reaper. */
  lemma ReapingInvisible(acts: seq<Action>, delay: real)
    requires Runs(START, acts) && Prompt(START, acts, 0.0, delay) && AllRefill(acts, delay) && 0.0 <= delay <= STALE_AFTER
    ensures Answers(START, acts, true) == Answers(START, acts, false)
  {
    SameAnswers(START, START, map[], acts, 0.0, delay);
  }
}
