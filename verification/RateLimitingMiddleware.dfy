/** The middleware's own objects: limiters and table entries on the heap, changed in place
    and proved against the table of values in RateLimiter. */
module RateLimitingMiddleware {
  import opened TokenBucket
  import opened RateLimiter

  class Limiter {
    const limit: real
    const burst: int
    var tokens: real
    var last: real

    constructor (limit: real, burst: int, now: real)
      ensures View() == NewBucket(limit, burst, now)
    {
      this.limit, this.burst := limit, burst;
      tokens, last := burst as real, now;
    }

    function View(): Bucket
      reads this
    {
      Bucket(limit, burst, tokens, last)
    }

    /** The allow decision; a denied request leaves the bucket alone. */
    method Allow(now: real) returns (ok: bool)
      modifies this
      ensures ok == Allows(old(View()), now)
      ensures View() == Take(old(View()), now)
    {
      var available := tokens + limit * (now - last);
      if available > burst as real {
        available := burst as real;
      }
      assert available == Level(View(), now);
      ok := available >= 1.0;
      if ok {
        tokens, last := available - 1.0, now;
      }
    }
  }

  class RateLimiterEntry {
    const limiter: Limiter
    var lastSeen: real

    constructor (limiter: Limiter, now: real)
      ensures this.limiter == limiter && lastSeen == now
    {
      this.limiter := limiter;
      lastSeen := now;
    }
  }

  class Middleware {
    var limiters: map<string, RateLimiterEntry>
    var currentLimit: real
    var currentBurst: int

    constructor ()
      ensures Valid() && View() == INIT
    {
      limiters := map[];
      currentLimit, currentBurst := 0.0, 0;
    }

    /** Two sessions share neither an entry nor a limiter. */
    ghost predicate Valid()
      reads this, limiters.Values
    {
      forall x, y :: x in limiters && y in limiters && x != y ==>
        limiters[x] != limiters[y] && limiters[x].limiter != limiters[y].limiter
    }

    ghost function Repr(): set<object>
      reads this
    {
      {this} + (set x | x in limiters :: limiters[x] as object) + (set x | x in limiters :: limiters[x].limiter as object)
    }

    ghost function View(): State
      reads this, limiters.Values, set x | x in limiters :: limiters[x].limiter
    {
      State(map x | x in limiters :: Entry(limiters[x].limiter.View(), limiters[x].lastSeen), currentLimit, currentBurst)
    }

    /** Drops every entry if the configured limit or burst changed. */
    method Adopt(limit: real, burst: int)
      requires Valid()
      modifies this
      ensures Valid() && Repr() <= old(Repr()) && limiters.Values <= old(limiters.Values)
      ensures View() == if limit != old(currentLimit) || burst != old(currentBurst) then State(map[], limit, burst)
                        else old(View())
    {
      if limit != currentLimit || burst != currentBurst {
        limiters := map[];
        currentLimit, currentBurst := limit, burst;
      }
    }

    /** Finds or makes the session's entry in the adopted table. */
    method Touch(session: string, now: real) returns (entry: RateLimiterEntry)
      requires Valid()
      modifies this`limiters, limiters.Values
      ensures Valid() && session in limiters && limiters[session] == entry
      ensures View() == Lookup(old(View()), Request(now, session, old(currentLimit), old(currentBurst)))
      ensures fresh(Repr() - old(Repr()))
    {
      if session !in limiters {
        var limiter := new Limiter(currentLimit, currentBurst, now);
        entry := new RateLimiterEntry(limiter, now);
        limiters := limiters[session := entry];
      } else {
        entry := limiters[session];
        entry.lastSeen := now;
      }
      assert View().limiters == Lookup(old(View()), Request(now, session, currentLimit, currentBurst)).limiters;
    }

    /** The locked part of a request. */
    method FindEntry(session: string, limit: real, burst: int, now: real) returns (entry: RateLimiterEntry)
      requires Valid()
      modifies this, limiters.Values
      ensures Valid() && session in limiters && limiters[session] == entry
      ensures View() == Lookup(old(View()), Request(now, session, limit, burst))
      ensures fresh(Repr() - old(Repr()))
    {
      Adopt(limit, burst);
      entry := Touch(session, now);
    }

    /** The unlocked part: asks the entry's limiter. */
    method Ask(ghost session: string, entry: RateLimiterEntry, now: real) returns (ok: bool)
      requires Valid() && session in limiters && limiters[session] == entry
      modifies entry.limiter
      ensures Valid()
      ensures var held := old(View()).limiters[session];
              && ok == Allows(held.bucket, now)
              && View() == old(View()).(limiters := old(View()).limiters[session := held.(bucket := Take(held.bucket, now))])
    {
      ok := entry.limiter.Allow(now);
      ghost var held := old(View()).limiters[session];
      assert View().limiters == old(View()).limiters[session := held.(bucket := Take(held.bucket, now))];
    }

    /** One request, with its two halves back to back. */
    method Handle(session: string, limit: real, burst: int, now: real) returns (forward: bool)
      requires Valid()
      modifies Repr()
      ensures Valid()
      ensures forward == Answer(old(View()), Request(now, session, limit, burst))
      ensures View() == Serve(old(View()), Request(now, session, limit, burst))
      ensures limit <= 0.0 || session == "" ==> forward && View() == old(View())
      ensures limit > 0.0 && session != "" ==> session in limiters && limiters[session].lastSeen == now
      ensures fresh(Repr() - old(Repr()))
    {
      if limit <= 0.0 || session == "" {
        return true;
      }
      var entry := FindEntry(session, limit, burst, now);
      forward := Ask(session, entry, now);
    }

    /** The reaper's loop: deletes the entries not seen for ten minutes. */
    method Sweep(now: real)
      modifies `limiters
      ensures limiters == map x | x in old(limiters) && !(now - old(limiters)[x].lastSeen > STALE_AFTER) :: old(limiters)[x]
    {
      var todo := limiters.Keys;
      ghost var was := limiters;
      while todo != {}
        invariant todo <= was.Keys
        invariant limiters == map x | x in was && (x in todo || !(now - was[x].lastSeen > STALE_AFTER)) :: was[x]
        decreases todo
      {
        var id :| id in todo;
        todo := todo - {id};
        if now - limiters[id].lastSeen > STALE_AFTER {
          limiters := limiters - {id};
        }
      }
    }

    /** One tick of the reaper. */
    method Reap(now: real)
      requires Valid()
      modifies `limiters
      ensures Valid() && View() == Reaped(old(View()), now)
      ensures Repr() <= old(Repr())
    {
      Sweep(now);
      assert View().limiters == Reaped(old(View()), now).limiters;
    }
  }
}
