/** The per-session rate limiter of pkg/mcp/middleware.go: a table of token buckets that
    is filled on demand, cleared when the configured limit changes and reaped when idle. */
module RateLimiter {
  import opened TokenBucket

  const STALE_AFTER := 600.0
  const REAP_EVERY := 300.0

  datatype Entry = Entry(bucket: Bucket, lastSeen: real)

  datatype State = State(limiters: map<string, Entry>, limit: real, burst: int)

  const INIT := State(map[], 0.0, 0)

  /** A request carries the limit and burst in force when it arrived. An empty session
      stands for a request without one. */
  datatype Event =
    | Request(at: real, session: string, limit: real, burst: int)
    | Reap(at: real)

  predicate Bypasses(e: Event)
    requires e.Request?
  {
    e.limit <= 0.0 || e.session == ""
  }

  /** The table after the locked part of a request. */
  function Lookup(s: State, e: Event): State
    requires e.Request?
  {
    var s' := if e.limit != s.limit || e.burst != s.burst then State(map[], e.limit, e.burst) else s;
    var bucket := if e.session in s'.limiters then s'.limiters[e.session].bucket
                  else NewBucket(e.limit, e.burst, e.at);
    s'.(limiters := s'.limiters[e.session := Entry(bucket, e.at)])
  }

  /** Whether the request is let through. */
  function Answer(s: State, e: Event): bool
    requires e.Request?
  {
    Bypasses(e) || Allows(Lookup(s, e).limiters[e.session].bucket, e.at)
  }

  function Serve(s: State, e: Event): State
    requires e.Request?
  {
    if Bypasses(e) then s
    else
      var s' := Lookup(s, e);
      var entry := s'.limiters[e.session];
      s'.(limiters := s'.limiters[e.session := entry.(bucket := Take(entry.bucket, e.at))])
  }

  predicate Stale(entry: Entry, now: real)
  {
    now - entry.lastSeen > STALE_AFTER
  }

  function Reaped(s: State, now: real): State
  {
    s.(limiters := map x | x in s.limiters && !Stale(s.limiters[x], now) :: s.limiters[x])
  }

  /** One event; with `forgets` off the reaper does nothing. */
  function Step(s: State, e: Event, forgets: bool): State
  {
    if e.Request? then Serve(s, e) else if forgets then Reaped(s, e.at) else s
  }

  function Answers(s: State, es: seq<Event>, forgets: bool): seq<bool>
    decreases es
  {
    if es == [] then []
    else
      (if es[0].Request? then [Answer(s, es[0])] else [])
      + Answers(Step(s, es[0], forgets), es[1..], forgets)
  }

  function Final(s: State, es: seq<Event>, forgets: bool): State
    decreases es
  {
    if es == [] then s else Final(Step(s, es[0], forgets), es[1..], forgets)
  }

  /** Times do not go back. */
  ghost predicate Timed(es: seq<Event>, t: real)
  {
    es != [] ==> t <= es[0].at && Timed(es[1..], es[0].at)
  }

  function EndTime(es: seq<Event>, t: real): real
  {
    if es == [] then t else EndTime(es[1..], es[0].at)
  }

  // What a session has left. A session without an entry has a full bucket to its
  // name, so forgetting a full bucket changes nothing.

  function Credit(s: State, x: string, t: real): real
  {
    if x in s.limiters then Level(s.limiters[x].bucket, t) else s.burst as real
  }

  /** Every limiter in the table was made with the limit and burst in force. */
  ghost predicate Inv(s: State, t: real)
  {
    forall x :: x in s.limiters ==>
      var e := s.limiters[x];
      && e.bucket.limit == s.limit && e.bucket.burst == s.burst
      && Sound(e.bucket, t)
      && e.bucket.last <= e.lastSeen <= t
  }

  lemma InvLater(s: State, t: real, u: real)
    requires Inv(s, t) && t <= u
    ensures Inv(s, u)
  {
  }

  lemma StepKeepsInv(s: State, e: Event, forgets: bool)
    requires Inv(s, e.at)
    ensures Inv(Step(s, e, forgets), e.at)
  {
    if e.Request? && !Bypasses(e) {
      var s' := Lookup(s, e);
      TakeSound(s'.limiters[e.session].bucket, e.at);
    }
  }

  lemma {:induction false} RunKeepsInv(s: State, es: seq<Event>, t: real, forgets: bool)
    requires Inv(s, t) && Timed(es, t)
    ensures Inv(Final(s, es, forgets), EndTime(es, t))
    decreases es
  {
    if es != [] {
      InvLater(s, t, es[0].at);
      StepKeepsInv(s, es[0], forgets);
      RunKeepsInv(Step(s, es[0], forgets), es[1..], es[0].at, forgets);
    }
  }

  /** The two tables, one of which may have forgotten entries, give every session the
      same credit. */
  ghost predicate SameCredit(r: State, k: State, t: real)
  {
    && r.limit == k.limit && r.burst == k.burst
    && forall x :: Credit(r, x, t) == Credit(k, x, t)
  }

  lemma CreditLater(s: State, x: string, t: real, u: real)
    requires Inv(s, t) && t <= u
    ensures Credit(s, x, u) == (if s.limit > 0.0 then Capped(s.burst, Credit(s, x, t) + s.limit * (u - t)) else s.burst as real)
  {
    if x in s.limiters {
      LevelLater(s.limiters[x].bucket, t, u);
    } else if s.limit > 0.0 {
      Product(s.limit, u - t);
    }
  }

  lemma OneCreditLater(r: State, k: State, x: string, t: real, u: real)
    requires Inv(r, t) && Inv(k, t) && r.limit == k.limit && r.burst == k.burst && t <= u
    requires Credit(r, x, t) == Credit(k, x, t)
    ensures Credit(r, x, u) == Credit(k, x, u)
  {
    CreditLater(r, x, t, u);
    CreditLater(k, x, t, u);
  }

  lemma SameCreditLater(r: State, k: State, t: real, u: real)
    requires Inv(r, t) && Inv(k, t) && SameCredit(r, k, t) && t <= u
    ensures SameCredit(r, k, u)
  {
    forall x ensures Credit(r, x, u) == Credit(k, x, u) {
      OneCreditLater(r, k, x, t, u);
    }
  }

  /** A request spends the credit of its own session and nothing else. */
  lemma ServeCredit(s: State, e: Event, x: string)
    requires e.Request? && e.limit > 0.0 && e.session != "" && Inv(s, e.at)
    ensures var held := if e.limit == s.limit && e.burst == s.burst then Credit(s, x, e.at) else e.burst as real;
            && (x != e.session ==> Credit(Serve(s, e), x, e.at) == held)
            && (x == e.session ==>
                  && Answer(s, e) == (held >= 1.0)
                  && Credit(Serve(s, e), x, e.at) == if held >= 1.0 then held - 1.0 else held)
  {
    var b := Lookup(s, e).limiters[e.session].bucket;
    LevelAtOnce(e.limit, e.burst, e.burst as real, e.at);
    TakeSound(b, e.at);
    assert Level(b, e.at) == if e.limit == s.limit && e.burst == s.burst then Credit(s, e.session, e.at) else e.burst as real;
  }

  /** What a request holds before it is answered: the credit of its session, or a whole burst when
      it is the first under a new limit or burst. */
  function HeldBy(s: State, e: Event): real
    requires e.Request?
  {
    if e.limit == s.limit && e.burst == s.burst then Credit(s, e.session, e.at) else e.burst as real
  }

  /** Without a positive limit or without a session a request goes through and leaves no trace; any
      other goes through exactly when it holds a whole token. Every request that is counted is
      also seen: its session's entry carries its time and the limit and burst it came with. */
  lemma AnswerExactly(s: State, e: Event)
    requires e.Request? && Inv(s, e.at)
    ensures Answer(s, e) <==> e.limit <= 0.0 || e.session == "" || HeldBy(s, e) >= 1.0
    ensures e.limit <= 0.0 || e.session == "" ==> Serve(s, e) == s
    ensures e.limit > 0.0 && e.session != "" ==>
              && e.session in Serve(s, e).limiters && Serve(s, e).limiters[e.session].lastSeen == e.at
              && Serve(s, e).limit == e.limit && Serve(s, e).burst == e.burst
              && forall x :: x in Serve(s, e).limiters && x != e.session ==>
                   x in s.limiters && Serve(s, e).limiters[x] == s.limiters[x]
  {
    if e.limit > 0.0 && e.session != "" {
      ServeCredit(s, e, e.session);
    }
  }

  /** With limiting off throughout, every request of every run goes through. */
  lemma {:induction false} NothingLimited(s: State, es: seq<Event>, forgets: bool)
    requires forall i :: 0 <= i < |es| && es[i].Request? ==> es[i].limit <= 0.0 || es[i].session == ""
    ensures forall i :: 0 <= i < |Answers(s, es, forgets)| ==> Answers(s, es, forgets)[i]
    decreases es
  {
    if es != [] {
      assert es[0].Request? ==> es[0].limit <= 0.0 || es[0].session == "";
      assert forall i :: 0 <= i < |es[1..]| ==> es[1..][i] == es[i + 1];
      NothingLimited(Step(s, es[0], forgets), es[1..], forgets);
    }
  }

  lemma ReapCredit(s: State, now: real, x: string)
    requires Inv(s, now) && s.burst as real <= s.limit * STALE_AFTER
    ensures Credit(Reaped(s, now), x, now) == Credit(s, x, now)
  {
    if x in s.limiters && Stale(s.limiters[x], now) {
      var e := s.limiters[x];
      Refilled(e.bucket, e.lastSeen, now, STALE_AFTER);
    }
  }

  /** Every configured limit refills a whole burst in the ten minutes before a reap. */
  ghost predicate Refills(limit: real, burst: int)
  {
    limit * STALE_AFTER >= burst as real
  }

  ghost predicate AllRefill(es: seq<Event>)
  {
    forall i :: 0 <= i < |es| && es[i].Request? && es[i].limit > 0.0 ==> Refills(es[i].limit, es[i].burst)
  }

  lemma {:induction false} SameAnswers(r: State, k: State, es: seq<Event>, t: real)
    requires Inv(r, t) && Inv(k, t) && SameCredit(r, k, t) && Refills(r.limit, r.burst)
    requires Timed(es, t) && AllRefill(es)
    ensures Answers(r, es, true) == Answers(k, es, false)
    decreases es
  {
    if es != [] {
      var e := es[0];
      InvLater(r, t, e.at);
      InvLater(k, t, e.at);
      SameCreditLater(r, k, t, e.at);
      var r', k' := Step(r, e, true), Step(k, e, false);
      StepKeepsInv(r, e, true);
      StepKeepsInv(k, e, false);
      forall x ensures Credit(r', x, e.at) == Credit(k', x, e.at) {
        if e.Reap? {
          ReapCredit(r, e.at, x);
        } else if !Bypasses(e) {
          ServeCredit(r, e, x);
          ServeCredit(k, e, x);
        }
      }
      if e.Request? && !Bypasses(e) {
        ServeCredit(r, e, e.session);
        ServeCredit(k, e, e.session);
      }
      SameAnswers(r', k', es[1..], e.at);
    }
  }

  /** Reaping cannot be observed: with and without it, every request of every run is
      answered alike. */
  lemma ReapingInvisible(es: seq<Event>)
    requires Timed(es, 0.0) && AllRefill(es)
    ensures Answers(INIT, es, true) == Answers(INIT, es, false)
  {
    SameAnswers(INIT, INIT, es, 0.0);
  }

  // The condition is needed: a limit that refills more slowly lets a session that
  // stays away just over ten minutes start again with a full burst.

  lemma {:induction false} FinalOfConcat(s: State, a: seq<Event>, b: seq<Event>, forgets: bool)
    ensures Final(s, a + b, forgets) == Final(Final(s, a, forgets), b, forgets)
    decreases a
  {
    if a == [] {
      assert a + b == b;
    } else {
      assert (a + b)[1..] == a[1..] + b;
      FinalOfConcat(Step(s, a[0], forgets), a[1..], b, forgets);
    }
  }

  lemma {:induction false} LastAnswer(s: State, es: seq<Event>, e: Event, forgets: bool)
    requires e.Request?
    ensures var r := Answers(s, es + [e], forgets);
            |r| > 0 && r[|r| - 1] == Answer(Final(s, es, forgets), e)
    decreases es
  {
    if es == [] {
      assert es + [e] == [e];
      assert Answers(Step(s, e, forgets), [], forgets) == [];
    } else {
      assert (es + [e])[1..] == es[1..] + [e];
      LastAnswer(Step(s, es[0], forgets), es[1..], e, forgets);
    }
  }

  /** `n` requests of one session at the same moment. */
  function Burst(n: nat, e: Event): seq<Event>
  {
    if n == 0 then [] else [e] + Burst(n - 1, e)
  }

  lemma {:induction false} BurstSpends(s: State, n: nat, e: Event, forgets: bool)
    requires e.Request? && !Bypasses(e) && Inv(s, e.at) && (n == 0 ==> s.limit == e.limit && s.burst == e.burst)
    ensures var s', held := Final(s, Burst(n, e), forgets),
                            if e.limit == s.limit && e.burst == s.burst then Credit(s, e.session, e.at) else e.burst as real;
            && Inv(s', e.at) && s'.limit == e.limit && s'.burst == e.burst
            && (held >= n as real ==> Credit(s', e.session, e.at) == held - n as real)
            && (held < n as real + 1.0 ==> Credit(s', e.session, e.at) < 1.0)
            && (n > 0 ==> e.session in s'.limiters && s'.limiters[e.session].lastSeen == e.at)
    decreases n
  {
    if n > 0 {
      var s1 := Serve(s, e);
      ServeCredit(s, e, e.session);
      StepKeepsInv(s, e, forgets);
      BurstSpends(s1, n - 1, e, forgets);
      assert Burst(n, e)[1..] == Burst(n - 1, e);
      if n == 1 {
        assert Final(s, Burst(1, e), forgets) == s1;
      }
    }
  }

  /** A session that spends its burst, stays away for `away` seconds and comes back right
      after a tick of the reaper. */
  function ComingBack(limit: real, burst: nat, away: real): seq<Event>
    requires burst > 0
  {
    Burst(burst, Request(3.0 * REAP_EVERY - away, "s", limit, burst))
    + [Reap(3.0 * REAP_EVERY)]
    + Burst(burst - 1, Request(3.0 * REAP_EVERY, "s", limit, burst))
  }

  /** With the reaper the burst is whole again; without it there is not enough left for
      all of the second round. */
  lemma ComingBackCredit(limit: real, burst: nat, away: real, forgets: bool)
    requires limit > 0.0 && burst > 0 && STALE_AFTER < away <= 3.0 * REAP_EVERY && limit * away < burst as real
    ensures var s := Final(INIT, ComingBack(limit, burst, away), forgets);
            && Inv(s, 3.0 * REAP_EVERY) && s.limit == limit && s.burst == burst
            && (Credit(s, "s", 3.0 * REAP_EVERY) >= 1.0 <==> forgets)
  {
    var back := 3.0 * REAP_EVERY;
    var first, second := Request(back - away, "s", limit, burst), Request(back, "s", limit, burst);
    var s1 := Final(INIT, Burst(burst, first), forgets);
    var s2 := Step(s1, Reap(back), forgets);
    AwayCredit(limit, burst, away, forgets);
    BurstSpends(s2, burst - 1, second, forgets);
    FinalOfConcat(INIT, Burst(burst, first), [Reap(back)], forgets);
    FinalOfConcat(INIT, Burst(burst, first) + [Reap(back)], Burst(burst - 1, second), forgets);
    assert Final(s1, [Reap(back)], forgets) == Final(s2, [], forgets);
  }

  lemma AwayCredit(limit: real, burst: nat, away: real, forgets: bool)
    requires limit > 0.0 && burst > 0 && STALE_AFTER < away <= 3.0 * REAP_EVERY && limit * away < burst as real
    ensures var back := 3.0 * REAP_EVERY;
            var s := Step(Final(INIT, Burst(burst, Request(back - away, "s", limit, burst)), forgets), Reap(back), forgets);
            && Inv(s, back) && s.limit == limit && s.burst == burst
            && (if forgets then Credit(s, "s", back) == burst as real else Credit(s, "s", back) < burst as real)
  {
    var back := 3.0 * REAP_EVERY;
    var first := Request(back - away, "s", limit, burst);
    BurstSpends(INIT, burst, first, forgets);
    var s1 := Final(INIT, Burst(burst, first), forgets);
    InvLater(s1, back - away, back);
    CreditLater(s1, "s", back - away, back);
    StepKeepsInv(s1, Reap(back), forgets);
  }

  lemma {:induction false} BurstTimed(n: nat, e: Event, t: real, rest: seq<Event>)
    requires t <= e.at && Timed(rest, e.at)
    ensures Timed(Burst(n, e) + rest, t)
    ensures forall i :: 0 <= i < |Burst(n, e)| ==> Burst(n, e)[i] == e
    decreases n
  {
    if n == 0 {
      assert Burst(n, e) + rest == rest;
    } else {
      BurstTimed(n - 1, e, e.at, rest);
      assert (Burst(n, e) + rest)[1..] == Burst(n - 1, e) + rest;
    }
  }

  ghost predicate OnlyConfig(es: seq<Event>, limit: real, burst: int)
  {
    forall i :: 0 <= i < |es| && es[i].Request? ==> es[i].limit == limit && es[i].burst == burst
  }

  /** For one limit and burst, reaping is unobservable on every run exactly when ten
      minutes refill a burst. */
  lemma ReapingInvisibleExactly(limit: real, burst: int)
    requires limit > 0.0
    ensures limit * 600.0 >= burst as real <==>
            forall es :: Timed(es, 0.0) && OnlyConfig(es, limit, burst) ==>
              Answers(INIT, es, true) == Answers(INIT, es, false)
  {
    if Refills(limit, burst) {
      forall es | Timed(es, 0.0) && OnlyConfig(es, limit, burst)
        ensures Answers(INIT, es, true) == Answers(INIT, es, false)
      {
        ReapingInvisible(es);
      }
    } else {
      var es := ReapingVisible(limit, burst);
    }
  }

  lemma ReapingVisible(limit: real, burst: int) returns (es: seq<Event>)
    requires limit > 0.0 && !Refills(limit, burst)
    ensures Timed(es, 0.0) && OnlyConfig(es, limit, burst)
    ensures forall i :: 0 <= i < |es| && es[i].Reap? ==> es[i].at == 3.0 * REAP_EVERY
    ensures Answers(INIT, es, true) != Answers(INIT, es, false)
  {
    Product(limit, STALE_AFTER);
    var away := SlowRefill(limit, burst);
    var last := Request(3.0 * REAP_EVERY, "s", limit, burst);
    es := ComingBack(limit, burst, away) + [last];
    ComingBackTimed(limit, burst, away, last);
    ComingBackShows(limit, burst, away, last);
  }

  lemma ComingBackTimed(limit: real, burst: nat, away: real, last: Event)
    requires burst > 0 && 0.0 <= away <= 3.0 * REAP_EVERY && last == Request(3.0 * REAP_EVERY, "s", limit, burst)
    ensures var es := ComingBack(limit, burst, away) + [last];
            && Timed(es, 0.0) && OnlyConfig(es, limit, burst)
            && forall i :: 0 <= i < |es| && es[i].Reap? ==> es[i].at == 3.0 * REAP_EVERY
  {
    var back := 3.0 * REAP_EVERY;
    var first := Request(back - away, "s", limit, burst);
    BurstTimed(burst - 1, last, back, [last]);
    var tail := [Reap(back)] + (Burst(burst - 1, last) + [last]);
    assert tail[1..] == Burst(burst - 1, last) + [last];
    BurstTimed(burst, first, 0.0, tail);
    assert ComingBack(limit, burst, away) + [last] == Burst(burst, first) + tail;
  }

  /** The last request of the second round shows whether there was a reap. */
  lemma ComingBackShows(limit: real, burst: nat, away: real, last: Event)
    requires limit > 0.0 && burst > 0 && STALE_AFTER < away <= 3.0 * REAP_EVERY && limit * away < burst as real
    requires last == Request(3.0 * REAP_EVERY, "s", limit, burst)
    ensures var es := ComingBack(limit, burst, away) + [last]; Answers(INIT, es, true) != Answers(INIT, es, false)
  {
    var before := ComingBack(limit, burst, away);
    LastIs(before, last, limit, burst, away, true);
    LastIs(before, last, limit, burst, away, false);
  }

  lemma LastIs(before: seq<Event>, last: Event, limit: real, burst: nat, away: real, forgets: bool)
    requires limit > 0.0 && burst > 0 && STALE_AFTER < away <= 3.0 * REAP_EVERY && limit * away < burst as real
    requires before == ComingBack(limit, burst, away) && last == Request(3.0 * REAP_EVERY, "s", limit, burst)
    ensures var r := Answers(INIT, before + [last], forgets); r != [] && r[|r| - 1] == forgets
  {
    ComingBackCredit(limit, burst, away, forgets);
    LastAnswer(INIT, before, last, forgets);
    ServeCredit(Final(INIT, before, forgets), last, "s");
  }

  /** An absence longer than the ten minutes and still too short to refill. */
  lemma SlowRefill(limit: real, burst: int) returns (away: real)
    requires limit > 0.0 && !Refills(limit, burst)
    ensures STALE_AFTER < away <= 3.0 * REAP_EVERY && limit * away < burst as real
  {
    var full := burst as real / limit;
    assert limit * full == burst as real;
    ProductLess(limit, STALE_AFTER, full);
    away := if full > 3.0 * REAP_EVERY then 2.0 * REAP_EVERY + 1.0 else (STALE_AFTER + full) / 2.0;
    ProductLess(limit, away, full);
  }
}
