/** The same rate limiter with its two halves apart: a request finds its limiter under the
    lock and asks it for a token later, after the lock is gone. In between the limiter can
    be reaped or discarded, and the request still holds it. */
module RateLimiterRace {
  import opened TokenBucket
  import RateLimiter

  const STALE_AFTER := RateLimiter.STALE_AFTER

  /** A table entry: which limiter, and when its session was last seen. */
  datatype Slot = Slot(limiter: nat, lastSeen: real)

  /** A request between its two halves. */
  datatype Ticket = Ticket(session: string, limiter: nat, at: real)

  /** Limiters are numbered as they are made and never disappear; the table and the
      requests in flight refer to them by number. */
  datatype World = World(
    table: map<string, Slot>,
    limiters: seq<Bucket>,
    limit: real,
    burst: int,
    inFlight: map<nat, Ticket>,
    arrivals: nat)

  const START := World(map[], [], 0.0, 0, map[], 0)

  datatype Action =
    | Arrive(at: real, session: string, limit: real, burst: int)
    | Ask(at: real, request: nat)
    | Reap(at: real)

  predicate Enabled(w: World, a: Action)
  {
    match a
    case Arrive(_, session, limit, _) => limit > 0.0 && session != ""
    case Ask(_, request) => request in w.inFlight && w.inFlight[request].limiter < |w.limiters|
    case Reap(_) => true
  }

  function Arrived(w: World, a: Action): World
    requires a.Arrive?
  {
    var w' := if a.limit != w.limit || a.burst != w.burst
              then w.(table := map[], limit := a.limit, burst := a.burst) else w;
    var known := a.session in w'.table;
    var n := if known then w'.table[a.session].limiter else |w'.limiters|;
    w'.(table := w'.table[a.session := Slot(n, a.at)],
        limiters := if known then w'.limiters else w'.limiters + [NewBucket(a.limit, a.burst, a.at)],
        inFlight := w'.inFlight[w'.arrivals := Ticket(a.session, n, a.at)],
        arrivals := w'.arrivals + 1)
  }

  predicate LetThrough(w: World, a: Action)
    requires a.Ask? && Enabled(w, a)
  {
    Allows(w.limiters[w.inFlight[a.request].limiter], a.at)
  }

  function Next(w: World, a: Action): World
    requires Enabled(w, a)
  {
    match a
    case Arrive(_, _, _, _) => Arrived(w, a)
    case Ask(at, request) =>
      var n := w.inFlight[request].limiter;
      w.(limiters := w.limiters[n := Take(w.limiters[n], at)], inFlight := w.inFlight - {request})
    case Reap(at) =>
      w.(table := map x | x in w.table && !(at - w.table[x].lastSeen > STALE_AFTER) :: w.table[x])
  }

  /** Requests of session `x` let through among those that arrived as number `from` or
      later. */
  function Passed(w: World, acts: seq<Action>, x: string, from: nat): nat
    requires Runs(w, acts)
    decreases acts
  {
    if acts == [] then 0
    else
      var a := acts[0];
      (if a.Ask? && a.request >= from && w.inFlight[a.request].session == x && LetThrough(w, a) then 1 else 0)
      + Passed(Next(w, a), acts[1..], x, from)
  }

  predicate Runs(w: World, acts: seq<Action>)
    decreases acts
  {
    acts != [] ==> Enabled(w, acts[0]) && Runs(Next(w, acts[0]), acts[1..])
  }

  function Final(w: World, acts: seq<Action>): World
    requires Runs(w, acts)
    decreases acts
  {
    if acts == [] then w else Final(Next(w, acts[0]), acts[1..])
  }

  /** Time does not go back, and no request asks later than `delay` after it arrived. */
  ghost predicate Prompt(w: World, acts: seq<Action>, t: real, delay: real)
    requires Runs(w, acts)
    decreases acts
  {
    acts != [] ==>
      var a := acts[0];
      && t <= a.at
      && (a.Ask? ==> a.at <= w.inFlight[a.request].at + delay)
      && Prompt(Next(w, a), acts[1..], a.at, delay)
  }

  predicate Steady(acts: seq<Action>, limit: real, burst: int)
  {
    forall i :: 0 <= i < |acts| && acts[i].Arrive? ==> acts[i].limit == limit && acts[i].burst == burst
  }

  predicate Until(acts: seq<Action>, end: real)
  {
    forall i :: 0 <= i < |acts| ==> acts[i].at <= end
  }

  ghost predicate Inv(w: World, t: real, delay: real)
  {
    && (forall n :: 0 <= n < |w.limiters| ==> Sound(w.limiters[n], t))
    && (forall x :: x in w.table ==> SlotInv(w, x, t, delay))
    && (forall x, y :: x in w.table && y in w.table && w.table[x].limiter == w.table[y].limiter ==> x == y)
    && TicketsInv(w, t)
  }

  ghost predicate TicketsInv(w: World, t: real)
  {
    && (forall r :: r in w.inFlight ==>
          && r < w.arrivals
          && w.inFlight[r].limiter < |w.limiters|
          && w.inFlight[r].at <= t)
    && (forall r, x :: r in w.inFlight && x in w.table && w.inFlight[r].limiter == w.table[x].limiter ==>
          w.inFlight[r].session == x && w.inFlight[r].at <= w.table[x].lastSeen)
  }

  /** The limiter in the table was made with the limit and burst in force. */
  ghost predicate SlotInv(w: World, x: string, t: real, delay: real)
    requires x in w.table
  {
    var s := w.table[x];
    && s.limiter < |w.limiters|
    && w.limiters[s.limiter].limit == w.limit
    && w.limiters[s.limiter].burst == w.burst
    && w.limiters[s.limiter].last <= s.lastSeen + delay
    && s.lastSeen <= t
  }

  lemma InvLater(w: World, t: real, u: real, delay: real)
    requires Inv(w, t, delay) && t <= u
    ensures Inv(w, u, delay)
  {
  }

  lemma ArriveKeepsInv(w: World, a: Action, delay: real)
    requires Inv(w, a.at, delay) && a.Arrive? && Enabled(w, a) && delay >= 0.0
    ensures Inv(Next(w, a), a.at, delay)
  {
    ArriveKeepsTickets(w, a, delay);
    var w' := Next(w, a);
    forall x | x in w'.table ensures SlotInv(w', x, a.at, delay) {
      if x != a.session || w'.limiters == w.limiters {
        assert SlotInv(w, x, a.at, delay);
      }
    }
  }

  lemma ArriveKeepsTickets(w: World, a: Action, delay: real)
    requires Inv(w, a.at, delay) && a.Arrive?
    ensures TicketsInv(Arrived(w, a), a.at)
  {
    forall x | x in w.table ensures w.table[x].limiter < |w.limiters| {
      assert SlotInv(w, x, a.at, delay);
    }
  }

  lemma AskKeepsInv(w: World, a: Action, delay: real)
    requires Inv(w, a.at, delay) && a.Ask? && Enabled(w, a) && a.at <= w.inFlight[a.request].at + delay
    ensures Inv(Next(w, a), a.at, delay)
  {
    var ticket := w.inFlight[a.request];
    TakeSound(w.limiters[ticket.limiter], a.at);
    var w' := Next(w, a);
    forall x | x in w'.table ensures SlotInv(w', x, a.at, delay) {
      assert SlotInv(w, x, a.at, delay);
    }
  }

  lemma StepKeepsInv(w: World, a: Action, t: real, delay: real)
    requires Inv(w, t, delay) && Enabled(w, a) && t <= a.at && delay >= 0.0
    requires a.Ask? ==> a.at <= w.inFlight[a.request].at + delay
    ensures Inv(Next(w, a), a.at, delay)
  {
    InvLater(w, t, a.at, delay);
    match a
    case Arrive(_, _, _, _) => ArriveKeepsInv(w, a, delay);
    case Ask(_, _) => AskKeepsInv(w, a, delay);
    case Reap(_) =>
  }

  lemma {:induction false} RunKeepsInv(w: World, acts: seq<Action>, t: real, end: real, delay: real)
    requires Runs(w, acts) && Inv(w, t, delay) && delay >= 0.0 && Prompt(w, acts, t, delay)
    requires Until(acts, end) && t <= end
    ensures Inv(Final(w, acts), end, delay)
    decreases acts
  {
    if acts == [] {
      InvLater(w, t, end, delay);
    } else {
      StepKeepsInv(w, acts[0], t, delay);
      RunKeepsInv(Next(w, acts[0]), acts[1..], acts[0].at, end, delay);
    }
  }

  // With its two halves back to back this is the limiter of RateLimiter.

  /** The table with the limiters themselves in it. */
  function View(w: World): RateLimiter.State
    requires forall x :: x in w.table ==> w.table[x].limiter < |w.limiters|
  {
    RateLimiter.State(map x | x in w.table :: RateLimiter.Entry(w.limiters[w.table[x].limiter], w.table[x].lastSeen),
                      w.limit, w.burst)
  }

  lemma Viewable(w: World, t: real, delay: real)
    requires Inv(w, t, delay)
    ensures forall x :: x in w.table ==> w.table[x].limiter < |w.limiters|
  {
    forall x | x in w.table ensures w.table[x].limiter < |w.limiters| {
      assert SlotInv(w, x, t, delay);
    }
  }

  lemma ArrivedIsLookedUp(w: World, a: Action)
    requires a.Arrive? && (forall x :: x in w.table ==> w.table[x].limiter < |w.limiters|)
    ensures forall x :: x in Arrived(w, a).table ==> Arrived(w, a).table[x].limiter < |Arrived(w, a).limiters|
    ensures View(Arrived(w, a)) == RateLimiter.Lookup(View(w), RateLimiter.Request(a.at, a.session, a.limit, a.burst))
  {
    var after, looked := View(Arrived(w, a)).limiters, RateLimiter.Lookup(View(w), RateLimiter.Request(a.at, a.session, a.limit, a.burst)).limiters;
    assert after.Keys == looked.Keys;
    forall x | x in after ensures after[x] == looked[x] {
    }
    assert after == looked;
  }

  lemma ViewAsked(w: World, a: Action, delay: real)
    requires Inv(w, a.at, delay) && a.Ask? && Enabled(w, a) && a.at <= w.inFlight[a.request].at + delay
    requires var ticket := w.inFlight[a.request]; ticket.session in w.table && w.table[ticket.session].limiter == ticket.limiter
    ensures (forall x :: x in w.table ==> w.table[x].limiter < |w.limiters|)
            && (forall x :: x in Next(w, a).table ==> Next(w, a).table[x].limiter < |Next(w, a).limiters|)
    ensures var x := w.inFlight[a.request].session;
            var held := View(w).limiters[x];
            && LetThrough(w, a) == Allows(held.bucket, a.at)
            && View(Next(w, a)) == View(w).(limiters := View(w).limiters[x := held.(bucket := Take(held.bucket, a.at))])
  {
    Viewable(w, a.at, delay);
    var x := w.inFlight[a.request].session;
    var held := View(w).limiters[x];
    var after, taken := View(Next(w, a)).limiters, View(w).limiters[x := held.(bucket := Take(held.bucket, a.at))];
    assert after.Keys == taken.Keys;
    forall y | y in after ensures after[y] == taken[y] {
      assert y == x || w.table[y].limiter != w.table[x].limiter;
    }
    assert after == taken;
  }

  /** A request whose halves follow one another at once is answered, and leaves the table, as the
      limiter that takes both as one step has it. */
  lemma BackToBack(w: World, at: real, session: string, limit: real, burst: int, delay: real)
    requires Inv(w, at, delay) && delay >= 0.0 && limit > 0.0 && session != ""
    ensures forall x :: x in w.table ==> w.table[x].limiter < |w.limiters|
    ensures var e := RateLimiter.Request(at, session, limit, burst);
            var arrived, ask := Next(w, Arrive(at, session, limit, burst)), Ask(at, w.arrivals);
            && Enabled(arrived, ask)
            && LetThrough(arrived, ask) == RateLimiter.Answer(View(w), e)
            && (forall x :: x in Next(arrived, ask).table ==> Next(arrived, ask).table[x].limiter < |Next(arrived, ask).limiters|)
            && View(Next(arrived, ask)) == RateLimiter.Serve(View(w), e)
  {
    var arrive, ask := Arrive(at, session, limit, burst), Ask(at, w.arrivals);
    Viewable(w, at, delay);
    ArriveKeepsInv(w, arrive, delay);
    ArrivedIsLookedUp(w, arrive);
    ViewAsked(Next(w, arrive), ask, delay);
  }

  lemma ReapAlike(w: World, at: real, delay: real)
    requires Inv(w, at, delay)
    ensures forall x :: x in w.table ==> w.table[x].limiter < |w.limiters|
    ensures View(Next(w, Reap(at))) == RateLimiter.Reaped(View(w), at)
  {
    Viewable(w, at, delay);
  }

  // The bound. From any reachable point on, as long as every arrival comes with the same
  // limit and burst, a session gets no more than a burst plus what its limiter refills.

  /** What session `x` can still be given at once under `limit` and `burst`. */
  function Held(w: World, x: string, t: real, limit: real, burst: int): real
    requires x in w.table ==> w.table[x].limiter < |w.limiters|
  {
    if w.limit == limit && w.burst == burst && x in w.table
    then Level(w.limiters[w.table[x].limiter], t)
    else burst as real
  }

  /** The requests being counted hold the limiter of the table, or have waited too long
      to ask. */
  ghost predicate Attached(w: World, x: string, from: nat, t: real, limit: real, burst: int, delay: real)
  {
    && from <= w.arrivals
    && forall r :: r in w.inFlight && r >= from && w.inFlight[r].session == x ==>
         && w.limit == limit && w.burst == burst
         && (|| (x in w.table && w.inFlight[r].limiter == w.table[x].limiter)
             || w.inFlight[r].at + delay < t)
  }

  lemma HeldLater(w: World, x: string, t: real, u: real, limit: real, burst: int, delay: real)
    requires Inv(w, t, delay) && t <= u && limit > 0.0
    ensures Held(w, x, u, limit, burst) <= Held(w, x, t, limit, burst) + limit * (u - t)
  {
    if w.limit == limit && w.burst == burst && x in w.table {
      assert SlotInv(w, x, t, delay);
      LevelLater(w.limiters[w.table[x].limiter], t, u);
    } else {
      Product(limit, u - t);
    }
  }

  ghost predicate Counted(w: World, a: Action, x: string, from: nat)
    requires Enabled(w, a)
  {
    a.Ask? && a.request >= from && w.inFlight[a.request].session == x && LetThrough(w, a)
  }

  lemma HeldArrive(w: World, a: Action, x: string, limit: real, burst: nat, delay: real)
    requires Inv(w, a.at, delay) && a.Arrive? && a.limit == limit > 0.0 && a.burst == burst && Enabled(w, a)
    requires Inv(Next(w, a), a.at, delay)
    ensures Held(Next(w, a), x, a.at, limit, burst) == Held(w, x, a.at, limit, burst)
  {
    var w' := Next(w, a);
    if x == a.session {
      NewIsFull(limit, burst, a.at);
      assert x in w'.table;
    } else {
      assert x in w'.table <==> x in w.table && w.limit == limit && w.burst == burst;
    }
  }

  lemma NewIsFull(limit: real, burst: int, now: real)
    ensures Level(NewBucket(limit, burst, now), now) == burst as real
  {
    assert NewBucket(limit, burst, now).limit * (now - now) == 0.0;
  }

  lemma HeldAsk(w: World, a: Action, x: string, from: nat, limit: real, burst: nat, delay: real)
    requires Inv(w, a.at, delay) && a.Ask? && Enabled(w, a) && a.at <= w.inFlight[a.request].at + delay
    requires Attached(w, x, from, a.at, limit, burst, delay)
    requires Inv(Next(w, a), a.at, delay)
    ensures Held(Next(w, a), x, a.at, limit, burst) + (if Counted(w, a, x, from) then 1.0 else 0.0)
            <= Held(w, x, a.at, limit, burst)
  {
    TakeSound(w.limiters[w.inFlight[a.request].limiter], a.at);
  }

  lemma HeldReap(w: World, a: Action, x: string, limit: real, burst: nat, delay: real)
    requires Inv(w, a.at, delay) && a.Reap?
    requires burst as real <= limit * (STALE_AFTER - delay)
    ensures Held(Next(w, a), x, a.at, limit, burst) == Held(w, x, a.at, limit, burst)
  {
    if w.limit == limit && w.burst == burst && x in w.table && a.at - w.table[x].lastSeen > STALE_AFTER {
      var s := w.table[x];
      Refilled(w.limiters[s.limiter], s.lastSeen + delay, a.at, STALE_AFTER - delay);
    }
  }

  lemma HeldStep(w: World, a: Action, x: string, from: nat, limit: real, burst: nat, delay: real)
    requires Inv(w, a.at, delay) && Enabled(w, a) && Attached(w, x, from, a.at, limit, burst, delay)
    requires limit > 0.0 && 0.0 <= delay && burst as real <= limit * (STALE_AFTER - delay)
    requires a.Arrive? ==> a.limit == limit && a.burst == burst
    requires a.Ask? ==> a.at <= w.inFlight[a.request].at + delay
    requires Inv(Next(w, a), a.at, delay)
    ensures Held(Next(w, a), x, a.at, limit, burst) + (if Counted(w, a, x, from) then 1.0 else 0.0)
            <= Held(w, x, a.at, limit, burst)
  {
    match a
    case Arrive(_, _, _, _) => HeldArrive(w, a, x, limit, burst, delay);
    case Ask(_, _) => HeldAsk(w, a, x, from, limit, burst, delay);
    case Reap(_) => HeldReap(w, a, x, limit, burst, delay);
  }

  lemma AttachedStep(w: World, a: Action, x: string, from: nat, limit: real, burst: nat, delay: real)
    requires Inv(w, a.at, delay) && Enabled(w, a) && Attached(w, x, from, a.at, limit, burst, delay)
    requires 0.0 <= delay <= STALE_AFTER
    requires a.Arrive? ==> a.limit == limit && a.burst == burst
    ensures Attached(Next(w, a), x, from, a.at, limit, burst, delay)
  {
  }

  /** What is left of the bound at time `t`: the credit at hand and the refill to come. */
  ghost function Budget(w: World, x: string, t: real, end: real, limit: real, burst: int): real
    requires x in w.table ==> w.table[x].limiter < |w.limiters|
  {
    Held(w, x, t, limit, burst) + limit * (end - t)
  }

  ghost predicate Good(w: World, x: string, from: nat, t: real, limit: real, burst: int, delay: real)
  {
    Inv(w, t, delay) && Attached(w, x, from, t, limit, burst, delay)
  }

  lemma BudgetLater(w: World, x: string, t: real, u: real, end: real, limit: real, burst: nat, delay: real)
    requires Inv(w, t, delay) && t <= u && limit > 0.0
    ensures Budget(w, x, u, end, limit, burst) <= Budget(w, x, t, end, limit, burst)
  {
    HeldLater(w, x, t, u, limit, burst, delay);
    assert limit * (u - t) + limit * (end - u) == limit * (end - t);
  }

  lemma GoodStep(w: World, a: Action, x: string, from: nat, t: real, limit: real, burst: nat, delay: real)
    requires Good(w, x, from, t, limit, burst, delay) && t <= a.at && Enabled(w, a)
    requires 0.0 <= delay <= STALE_AFTER
    requires a.Arrive? ==> a.limit == limit && a.burst == burst
    requires a.Ask? ==> a.at <= w.inFlight[a.request].at + delay
    ensures Good(w, x, from, a.at, limit, burst, delay)
    ensures Good(Next(w, a), x, from, a.at, limit, burst, delay)
  {
    InvLater(w, t, a.at, delay);
    StepKeepsInv(w, a, a.at, delay);
    AttachedStep(w, a, x, from, limit, burst, delay);
  }

  lemma BudgetStep(w: World, a: Action, x: string, from: nat, t: real, end: real, limit: real, burst: nat, delay: real)
    requires Good(w, x, from, t, limit, burst, delay) && t <= a.at && Enabled(w, a)
    requires limit > 0.0 && 0.0 <= delay && burst as real <= limit * (STALE_AFTER - delay)
    requires a.Arrive? ==> a.limit == limit && a.burst == burst
    requires a.Ask? ==> a.at <= w.inFlight[a.request].at + delay
    ensures Good(Next(w, a), x, from, a.at, limit, burst, delay)
    ensures Budget(Next(w, a), x, a.at, end, limit, burst) + (if Counted(w, a, x, from) then 1.0 else 0.0)
            <= Budget(w, x, t, end, limit, burst)
  {
    DelayBelowStale(limit, burst, delay);
    GoodStep(w, a, x, from, t, limit, burst, delay);
    BudgetLater(w, x, t, a.at, end, limit, burst, delay);
    HeldStep(w, a, x, from, limit, burst, delay);
  }

  lemma {:induction false} PassedBound(w: World, acts: seq<Action>, x: string, from: nat, t: real, end: real,
                                       limit: real, burst: nat, delay: real, budget: real)
    requires Runs(w, acts) && Prompt(w, acts, t, delay) && Steady(acts, limit, burst) && Until(acts, end) && t <= end
    requires Good(w, x, from, t, limit, burst, delay)
    requires limit > 0.0 && 0.0 <= delay && burst as real <= limit * (STALE_AFTER - delay)
    requires Budget(w, x, t, end, limit, burst) <= budget
    ensures Passed(w, acts, x, from) as real <= budget
    decreases acts
  {
    if acts == [] {
      BudgetLeft(w, x, t, end, limit, burst, delay);
    } else {
      var a := acts[0];
      BudgetStep(w, a, x, from, t, end, limit, burst, delay);
      var spent := if Counted(w, a, x, from) then 1.0 else 0.0;
      PassedBound(Next(w, a), acts[1..], x, from, a.at, end, limit, burst, delay, budget - spent);
    }
  }

  lemma BudgetLeft(w: World, x: string, t: real, end: real, limit: real, burst: nat, delay: real)
    requires Inv(w, t, delay) && limit > 0.0 && t <= end
    ensures Budget(w, x, t, end, limit, burst) >= 0.0
  {
    HeldSound(w, x, t, limit, burst, delay);
    WithRefill(Held(w, x, t, limit, burst), limit, end - t);
  }

  lemma WithRefill(held: real, limit: real, length: real)
    requires held >= 0.0 && limit >= 0.0 && length >= 0.0
    ensures held + limit * length >= 0.0
  {
    Product(limit, length);
  }

  lemma HeldSound(w: World, x: string, t: real, limit: real, burst: nat, delay: real)
    requires Inv(w, t, delay) && limit > 0.0
    ensures 0.0 <= Held(w, x, t, limit, burst) <= burst as real
  {
    if w.limit == limit && w.burst == burst && x in w.table {
      assert SlotInv(w, x, t, delay);
      LevelBounds(w.limiters[w.table[x].limiter], t);
    }
  }

  lemma DelayBelowStale(limit: real, burst: nat, delay: real)
    requires limit > 0.0 && burst as real <= limit * (STALE_AFTER - delay)
    ensures delay <= STALE_AFTER
  {
    ProductLess(limit, STALE_AFTER - delay, 0.0);
  }

  /** After any run, over any further window in which the limit and burst do not change,
      a session is let through at most `burst + limit * length` times, counting the
      requests that arrive in the window. */
  lemma WindowBound(past: seq<Action>, window: seq<Action>, x: string, begin: real, end: real,
                    limit: real, burst: nat, delay: real)
    requires Runs(START, past) && Prompt(START, past, 0.0, delay) && Until(past, begin) && 0.0 <= begin <= end
    requires var w := Final(START, past); Runs(w, window) && Prompt(w, window, begin, delay)
    requires Steady(window, limit, burst) && Until(window, end)
    requires limit > 0.0 && 0.0 <= delay && burst as real <= limit * (STALE_AFTER - delay)
    ensures var w := Final(START, past);
            Passed(w, window, x, w.arrivals) as real <= burst as real + limit * (end - begin)
  {
    var w := Final(START, past);
    RunKeepsInv(START, past, 0.0, begin, delay);
    HeldSound(w, x, begin, limit, burst, delay);
    PassedBound(w, window, x, w.arrivals, begin, end, limit, burst, delay, burst as real + limit * (end - begin));
  }
}
