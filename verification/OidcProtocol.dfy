/** Concurrent callers of `fetchOpenIDConfiguration` in pkg/http/wellknown.go, as a transition
    system. Each step is one region under a lock, the end of one upstream request, or an edit a
    caller makes to the map it was given. Go maps are cells of `heap`, named by position; the
    values under their keys are never changed in place. */
module OidcProtocol {
  import opened Options
  import opened OidcMetadata

  /** A map: what it holds, and the caller it was handed to, if any. */
  datatype Cell = Cell(doc: Document, owner: Option<nat>)

  /** An upstream request that brought a body, and when. */
  datatype Fetch = Fetch(url: string, body: Document, at: real)

  /** The map `ref`, which is to hold the body of a fetch. */
  datatype Shared = Shared(fetch: nat, ref: nat)

  /** A singleflight call. */
  datatype Stage =
    | Fetching
    | Fetched(doc: Shared)
    | Stored(doc: Shared)
    | Failed                                        // an error, or no document there
    | Closed(outcome: Option<Shared>, at: real)     // the waiters have their result

  datatype Flight = Flight(url: string, stage: Stage)

  datatype Cached = Cached(url: string, doc: Shared, storedAt: real)

  datatype Source =
    | FromCache(storedAt: real, lookedAt: real)
    | FromFlight(flight: nat, joinedAt: real)

  datatype Edit = Set(key: string, value: Value) | Delete(key: string)

  datatype Caller =
    | Missed(url: string)
    | Joined(url: string, flight: nat, joinedAt: real)
    | Holding(url: string, ref: nat, fetch: nat, source: Source, edits: seq<Edit>)
    | Empty(url: string)

  /** `open` is the singleflight table. */
  datatype State = State(
    now: real, heap: seq<Cell>, cache: Option<Cached>, flights: seq<Flight>, open: map<string, nat>,
    callers: seq<Caller>, fetches: seq<Fetch>)

  const INIT := State(0.0, [], None, [], map[], [], [])

  datatype Event =
    | Wait(dt: real)
    | Look(url: string)                             // a call begins
    | Join(c: nat)
    | Receive(f: nat, body: Option<Document>)       // the upstream request ends
    | Store(f: nat)
    | Finish(f: nat)
    | Take(c: nat)
    | Change(c: nat, edit: Edit)

  function StageOf(s: State, f: nat): Stage
  {
    if f < |s.flights| then s.flights[f].stage else Failed
  }

  predicate Enabled(s: State, e: Event)
  {
    match e
    case Wait(dt) => dt >= 0.0
    case Look(_) => true
    case Join(c) => c < |s.callers| && s.callers[c].Missed?
    case Receive(f, _) => f < |s.flights| && s.flights[f].stage.Fetching?
    case Store(f) => f < |s.flights| && s.flights[f].stage.Fetched?
    case Finish(f) => f < |s.flights| && (s.flights[f].stage.Stored? || s.flights[f].stage.Failed?)
    case Take(c) => c < |s.callers| && s.callers[c].Joined? && StageOf(s, s.callers[c].flight).Closed?
    case Change(c, _) => c < |s.callers| && s.callers[c].Holding? && s.callers[c].ref < |s.heap|
  }

  function Read(s: State, ref: nat): Document
  {
    if ref < |s.heap| then s.heap[ref].doc else map[]
  }

  function Edited(doc: Document, e: Edit): Document
  {
    match e
    case Set(k, v) => doc[k := v]
    case Delete(k) => doc - {k}
  }

  function EditedBy(doc: Document, edits: seq<Edit>): Document
  {
    if edits == [] then doc else Edited(EditedBy(doc, edits[..|edits| - 1]), edits[|edits| - 1])
  }

  /** The last edit of a key decides about it, and a key that is not edited stays. */
  lemma {:induction false} LastEditDecides(doc: Document, edits: seq<Edit>, i: nat, k: string)
    requires i <= |edits| && (i < |edits| ==> edits[i].key == k) && forall j :: i < j < |edits| ==> edits[j].key != k
    requires i == |edits| ==> forall j :: 0 <= j < |edits| ==> edits[j].key != k
    ensures var out := EditedBy(doc, edits);
            if i == |edits| then (k in out <==> k in doc) && (k in doc ==> out[k] == doc[k])
            else match edits[i]
                 case Set(_, v) => k in out && out[k] == v
                 case Delete(_) => k !in out
    decreases edits
  {
    if edits != [] && i != |edits| - 1 {
      LastEditDecides(doc, edits[..|edits| - 1], if i == |edits| then i - 1 else i, k);
    }
  }

  predicate Usable(s: State, url: string)
  {
    s.cache.Some? && s.cache.value.url == url && s.now - s.cache.value.storedAt < TTL
  }

  /** The caller's own copy of a shared map. */
  function HandOut(s: State, c: nat, url: string, doc: Shared, source: Source): State
    requires c <= |s.callers|
  {
    var caller := Holding(url, |s.heap|, doc.fetch, source, []);
    s.(heap := s.heap + [Cell(Read(s, doc.ref), Some(c))],
       callers := if c == |s.callers| then s.callers + [caller] else s.callers[c := caller])
  }

  function SetStage(s: State, f: nat, stage: Stage): State
    requires f < |s.flights|
  {
    s.(flights := s.flights[f := s.flights[f].(stage := stage)])
  }

  function Next(s: State, e: Event): State
    requires Enabled(s, e)
  {
    match e
    case Wait(dt) => s.(now := s.now + dt)
    case Look(url) =>
      if Usable(s, url) then
        HandOut(s, |s.callers|, url, s.cache.value.doc, FromCache(s.cache.value.storedAt, s.now))
      else s.(callers := s.callers + [Missed(url)])
    case Join(c) =>
      var url := s.callers[c].url;
      if url in s.open then s.(callers := s.callers[c := Joined(url, s.open[url], s.now)])
      else s.(flights := s.flights + [Flight(url, Fetching)], open := s.open[url := |s.flights|],
              callers := s.callers[c := Joined(url, |s.flights|, s.now)])
    case Receive(f, body) =>
      if body.None? then SetStage(s, f, Failed)
      else
        SetStage(s, f, Fetched(Shared(|s.fetches|, |s.heap|))).(
          heap := s.heap + [Cell(body.value, None)],
          fetches := s.fetches + [Fetch(s.flights[f].url, body.value, s.now)])
    case Store(f) =>
      var doc := s.flights[f].stage.doc;
      SetStage(s, f, Stored(doc)).(
        heap := s.heap + [Cell(Read(s, doc.ref), None)],
        cache := Some(Cached(s.flights[f].url, Shared(doc.fetch, |s.heap|), s.now)))
    case Finish(f) =>
      var stage := s.flights[f].stage;
      SetStage(s, f, Closed(if stage.Stored? then Some(stage.doc) else None, s.now)).(
        open := s.open - {s.flights[f].url})
    case Take(c) =>
      var caller := s.callers[c];
      var outcome := StageOf(s, caller.flight).outcome;
      if outcome.Some? then HandOut(s, c, caller.url, outcome.value, FromFlight(caller.flight, caller.joinedAt))
      else s.(callers := s.callers[c := Empty(caller.url)])
    case Change(c, edit) =>
      var caller := s.callers[c];
      var cell := s.heap[caller.ref];
      s.(heap := s.heap[caller.ref := cell.(doc := Edited(cell.doc, edit))],
         callers := s.callers[c := caller.(edits := caller.edits + [edit])])
  }

  predicate Runs(s: State, es: seq<Event>)
    decreases es
  {
    es != [] ==> Enabled(s, es[0]) && Runs(Next(s, es[0]), es[1..])
  }

  function Final(s: State, es: seq<Event>): State
    requires Runs(s, es)
    decreases es
  {
    if es == [] then s else Final(Next(s, es[0]), es[1..])
  }

  // The invariant.

  /** The shared map holds the body of a fetch of `url` done by `when`, and no caller has it. */
  ghost predicate DocOk(s: State, url: string, doc: Shared, when: real)
  {
    && doc.fetch < |s.fetches| && s.fetches[doc.fetch].url == url && s.fetches[doc.fetch].at <= when
    && doc.ref < |s.heap| && s.heap[doc.ref] == Cell(s.fetches[doc.fetch].body, None)
  }

  ghost predicate CacheOk(s: State)
  {
    s.cache.Some? ==>
      s.cache.value.storedAt <= s.now && DocOk(s, s.cache.value.url, s.cache.value.doc, s.cache.value.storedAt)
  }

  ghost predicate FlightOk(s: State, f: nat)
    requires f < |s.flights|
  {
    match s.flights[f].stage
    case Fetching => true
    case Failed => true
    case Fetched(doc) => DocOk(s, s.flights[f].url, doc, s.now)
    case Stored(doc) => DocOk(s, s.flights[f].url, doc, s.now)
    case Closed(outcome, at) => at <= s.now && (outcome.Some? ==> DocOk(s, s.flights[f].url, outcome.value, at))
  }

  ghost predicate FlightsOk(s: State)
  {
    forall f {:trigger FlightOk(s, f)} :: 0 <= f < |s.flights| ==> FlightOk(s, f)
  }

  /** Of each URL at most one flight is under way, and singleflight knows it. */
  ghost predicate OpenOk(s: State)
  {
    && (forall u :: u in s.open ==> s.open[u] < |s.flights| && s.flights[s.open[u]].url == u && !s.flights[s.open[u]].stage.Closed?)
    && forall f :: 0 <= f < |s.flights| && !s.flights[f].stage.Closed? ==>
         s.flights[f].url in s.open && s.open[s.flights[f].url] == f
  }

  /** The document was in the cache for less than five minutes when the call looked, or its
      flight was still under way when the call joined it. */
  ghost predicate SourceOk(s: State, url: string, fetch: nat, source: Source)
  {
    && fetch < |s.fetches| && s.fetches[fetch].url == url
    && match source
       case FromCache(storedAt, lookedAt) =>
         s.fetches[fetch].at <= storedAt <= lookedAt <= s.now && lookedAt - storedAt < 300.0
       case FromFlight(f, joinedAt) =>
         && f < |s.flights| && s.flights[f].url == url && s.flights[f].stage.Closed?
         && s.flights[f].stage.outcome.Some? && s.flights[f].stage.outcome.value.fetch == fetch
         && joinedAt <= s.flights[f].stage.at <= s.now && s.fetches[fetch].at <= s.flights[f].stage.at
  }

  ghost predicate CallerOk(s: State, c: nat)
    requires c < |s.callers|
  {
    match s.callers[c]
    case Missed(_) => true
    case Empty(_) => true
    case Joined(url, f, joinedAt) =>
      && f < |s.flights| && s.flights[f].url == url && joinedAt <= s.now
      && (s.flights[f].stage.Closed? ==> joinedAt <= s.flights[f].stage.at)
    case Holding(url, ref, fetch, source, edits) =>
      && SourceOk(s, url, fetch, source)
      && ref < |s.heap| && s.heap[ref] == Cell(EditedBy(s.fetches[fetch].body, edits), Some(c))
  }

  ghost predicate CallersOk(s: State)
  {
    forall c {:trigger CallerOk(s, c)} :: 0 <= c < |s.callers| ==> CallerOk(s, c)
  }

  ghost predicate Inv(s: State)
  {
    CacheOk(s) && FlightsOk(s) && OpenOk(s) && CallersOk(s)
  }

  // What every step leaves alone.

  ghost predicate HeapKept(s: State, t: State)
  {
    |s.heap| <= |t.heap| && forall r :: 0 <= r < |s.heap| && s.heap[r].owner.None? ==> t.heap[r] == s.heap[r]
  }

  ghost predicate FlightsKept(s: State, t: State)
  {
    && |s.flights| <= |t.flights|
    && forall f :: 0 <= f < |s.flights| ==>
         t.flights[f].url == s.flights[f].url && (s.flights[f].stage.Closed? ==> t.flights[f] == s.flights[f])
  }

  ghost predicate Kept(s: State, t: State)
  {
    s.now <= t.now && s.fetches <= t.fetches && HeapKept(s, t) && FlightsKept(s, t)
  }

  lemma DocKept(s: State, t: State, url: string, doc: Shared, when: real)
    requires DocOk(s, url, doc, when) && s.fetches <= t.fetches && HeapKept(s, t)
    ensures DocOk(t, url, doc, when)
  {
  }

  lemma SourceKept(s: State, t: State, url: string, fetch: nat, source: Source)
    requires SourceOk(s, url, fetch, source) && Kept(s, t)
    ensures SourceOk(t, url, fetch, source)
  {
  }

  lemma CacheKept(s: State, t: State)
    requires CacheOk(s) && Kept(s, t) && t.cache == s.cache
    ensures CacheOk(t)
  {
    if s.cache.Some? {
      DocKept(s, t, s.cache.value.url, s.cache.value.doc, s.cache.value.storedAt);
    }
  }

  lemma FlightKept(s: State, t: State, f: nat)
    requires f < |s.flights| && FlightOk(s, f) && Kept(s, t) && t.flights[f] == s.flights[f]
    ensures FlightOk(t, f)
  {
    match s.flights[f].stage
    case Fetching =>
    case Failed =>
    case Fetched(doc) => DocKept(s, t, s.flights[f].url, doc, s.now);
    case Stored(doc) => DocKept(s, t, s.flights[f].url, doc, s.now);
    case Closed(outcome, at) => if outcome.Some? { DocKept(s, t, s.flights[f].url, outcome.value, at); }
  }

  lemma CallerKept(s: State, t: State, c: nat)
    requires c < |s.callers| && CallerOk(s, c) && Kept(s, t) && c < |t.callers| && t.callers[c] == s.callers[c]
    requires s.callers[c].Holding? ==> t.heap[s.callers[c].ref] == s.heap[s.callers[c].ref]
    requires s.callers[c].Joined? && !s.flights[s.callers[c].flight].stage.Closed? ==>
               t.flights[s.callers[c].flight].stage.Closed? ==> s.now <= t.flights[s.callers[c].flight].stage.at
    ensures CallerOk(t, c)
  {
    if s.callers[c].Holding? {
      SourceKept(s, t, s.callers[c].url, s.callers[c].fetch, s.callers[c].source);
    }
  }

  /** All flights but `f`. */
  lemma OtherFlightsKept(s: State, t: State, f: nat)
    requires FlightsOk(s) && Kept(s, t) && |t.flights| == |s.flights|
    requires forall g :: 0 <= g < |s.flights| && g != f ==> t.flights[g] == s.flights[g]
    requires f < |t.flights| ==> FlightOk(t, f)
    ensures FlightsOk(t)
  {
    forall g | 0 <= g < |t.flights| ensures FlightOk(t, g) {
      if g != f {
        assert FlightOk(s, g);
        FlightKept(s, t, g);
      }
    }
  }

  /** All callers but `c`, when no flight is closed. */
  lemma OtherCallersKept(s: State, t: State, c: nat)
    requires CallersOk(s) && Kept(s, t) && |t.callers| >= |s.callers| && |t.callers| <= |s.callers| + 1
    requires forall d :: 0 <= d < |s.callers| && d != c ==> t.callers[d] == s.callers[d]
    requires |t.callers| > |s.callers| ==> c == |s.callers|
    requires forall r :: 0 <= r < |s.heap| && s.heap[r].owner != Some(c) ==> t.heap[r] == s.heap[r]
    requires forall f :: 0 <= f < |s.flights| && !s.flights[f].stage.Closed? && t.flights[f].stage.Closed? ==> s.now <= t.flights[f].stage.at
    requires c < |t.callers| ==> CallerOk(t, c)
    ensures CallersOk(t)
  {
    forall d | 0 <= d < |t.callers| ensures CallerOk(t, d) {
      if d != c {
        assert CallerOk(s, d);
        CallerKept(s, t, d);
      }
    }
  }

  // One lemma for each kind of step.

  lemma WaitKeepsInv(s: State, dt: real)
    requires Inv(s) && dt >= 0.0
    ensures Inv(Next(s, Wait(dt)))
  {
    var t := Next(s, Wait(dt));
    CacheKept(s, t);
    OtherFlightsKept(s, t, |s.flights|);
    OtherCallersKept(s, t, |s.callers|);
  }

  lemma HandOutKeepsInv(s: State, c: nat, url: string, doc: Shared, source: Source, when: real)
    requires Inv(s) && c <= |s.callers| && DocOk(s, url, doc, when) && SourceOk(s, url, doc.fetch, source)
    requires c < |s.callers| ==> s.callers[c].Joined?
    ensures Inv(HandOut(s, c, url, doc, source))
  {
    var t := HandOut(s, c, url, doc, source);
    CacheKept(s, t);
    OtherFlightsKept(s, t, |s.flights|);
    SourceKept(s, t, url, doc.fetch, source);
    assert EditedBy(s.fetches[doc.fetch].body, []) == s.fetches[doc.fetch].body;
    OtherCallersKept(s, t, c);
  }

  lemma LookKeepsInv(s: State, url: string)
    requires Inv(s)
    ensures Inv(Next(s, Look(url)))
  {
    var t := Next(s, Look(url));
    if Usable(s, url) {
      var cached := s.cache.value;
      HandOutKeepsInv(s, |s.callers|, url, cached.doc, FromCache(cached.storedAt, s.now), cached.storedAt);
    } else {
      CacheKept(s, t);
      OtherFlightsKept(s, t, |s.flights|);
      OtherCallersKept(s, t, |s.callers|);
    }
  }

  lemma JoinKeepsInv(s: State, c: nat)
    requires Inv(s) && Enabled(s, Join(c))
    ensures Inv(Next(s, Join(c)))
  {
    var t := Next(s, Join(c));
    var url := s.callers[c].url;
    CacheKept(s, t);
    OtherCallersKept(s, t, c);
    if url in s.open {
      OtherFlightsKept(s, t, |s.flights|);
    } else {
      forall g | 0 <= g < |t.flights| ensures FlightOk(t, g) {
        if g < |s.flights| {
          assert FlightOk(s, g);
          FlightKept(s, t, g);
        }
      }
    }
  }

  lemma ReceiveKeepsInv(s: State, f: nat, body: Option<Document>)
    requires Inv(s) && Enabled(s, Receive(f, body))
    ensures Inv(Next(s, Receive(f, body)))
  {
    var t := Next(s, Receive(f, body));
    CacheKept(s, t);
    OtherFlightsKept(s, t, f);
    OtherCallersKept(s, t, |s.callers|);
  }

  lemma StoreKeepsInv(s: State, f: nat)
    requires Inv(s) && Enabled(s, Store(f))
    ensures Inv(Next(s, Store(f)))
  {
    var t := Next(s, Store(f));
    assert FlightOk(s, f);
    DocKept(s, t, s.flights[f].url, s.flights[f].stage.doc, s.now);
    OtherFlightsKept(s, t, f);
    OtherCallersKept(s, t, |s.callers|);
  }

  lemma FinishKeepsInv(s: State, f: nat)
    requires Inv(s) && Enabled(s, Finish(f))
    ensures Inv(Next(s, Finish(f)))
  {
    var t := Next(s, Finish(f));
    assert FlightOk(s, f);
    CacheKept(s, t);
    OtherFlightsKept(s, t, f);
    OtherCallersKept(s, t, |s.callers|);
  }

  lemma TakeKeepsInv(s: State, c: nat)
    requires Inv(s) && Enabled(s, Take(c))
    ensures Inv(Next(s, Take(c)))
  {
    var t := Next(s, Take(c));
    var caller := s.callers[c];
    assert CallerOk(s, c) && FlightOk(s, caller.flight);
    var stage := s.flights[caller.flight].stage;
    if stage.outcome.Some? {
      HandOutKeepsInv(s, c, caller.url, stage.outcome.value, FromFlight(caller.flight, caller.joinedAt), stage.at);
    } else {
      CacheKept(s, t);
      OtherFlightsKept(s, t, |s.flights|);
      OtherCallersKept(s, t, c);
    }
  }

  lemma ChangeKeepsInv(s: State, c: nat, edit: Edit)
    requires Inv(s) && Enabled(s, Change(c, edit))
    ensures Inv(Next(s, Change(c, edit)))
  {
    var t := Next(s, Change(c, edit));
    var caller := s.callers[c];
    assert CallerOk(s, c);
    CacheKept(s, t);
    OtherFlightsKept(s, t, |s.flights|);
    SourceKept(s, t, caller.url, caller.fetch, caller.source);
    assert (caller.edits + [edit])[..|caller.edits|] == caller.edits;
    OtherCallersKept(s, t, c);
  }

  lemma StepKeepsInv(s: State, e: Event)
    requires Inv(s) && Enabled(s, e)
    ensures Inv(Next(s, e))
  {
    match e
    case Wait(dt) => WaitKeepsInv(s, dt);
    case Look(url) => LookKeepsInv(s, url);
    case Join(c) => JoinKeepsInv(s, c);
    case Receive(f, body) => ReceiveKeepsInv(s, f, body);
    case Store(f) => StoreKeepsInv(s, f);
    case Finish(f) => FinishKeepsInv(s, f);
    case Take(c) => TakeKeepsInv(s, c);
    case Change(c, edit) => ChangeKeepsInv(s, c, edit);
  }

  lemma {:induction false} RunKeepsInv(s: State, es: seq<Event>)
    requires Inv(s) && Runs(s, es)
    ensures Inv(Final(s, es))
    decreases es
  {
    if es != [] {
      StepKeepsInv(s, es[0]);
      RunKeepsInv(Next(s, es[0]), es[1..]);
    }
  }

  // What every run guarantees.

  /** A call for a URL is answered with the body of a fetch of that URL and nothing but the
      caller's own edits, from the cache within five minutes of its being stored, or from a
      flight that was still under way when the call joined it. */
  lemma AnswersAreFetched(es: seq<Event>, c: nat)
    requires Runs(INIT, es) && c < |Final(INIT, es).callers| && Final(INIT, es).callers[c].Holding?
    ensures var s := Final(INIT, es); var a := s.callers[c];
            && SourceOk(s, a.url, a.fetch, a.source)
            && Read(s, a.ref) == EditedBy(s.fetches[a.fetch].body, a.edits)
  {
    RunKeepsInv(INIT, es);
    assert CallerOk(Final(INIT, es), c);
  }

  /** Whatever callers do to their maps, the cache holds what was fetched for its URL. */
  lemma CacheHoldsWhatWasFetched(es: seq<Event>)
    requires Runs(INIT, es) && Final(INIT, es).cache.Some?
    ensures var s := Final(INIT, es); var k := s.cache.value;
            && k.doc.fetch < |s.fetches| && s.fetches[k.doc.fetch].url == k.url
            && Read(s, k.doc.ref) == s.fetches[k.doc.fetch].body
  {
    RunKeepsInv(INIT, es);
  }

  /** Two upstream requests for one URL are never under way together. */
  lemma OneFlightPerURL(es: seq<Event>, f: nat, g: nat)
    requires Runs(INIT, es) && f < |Final(INIT, es).flights| && g < |Final(INIT, es).flights|
    requires var s := Final(INIT, es);
             s.flights[f].url == s.flights[g].url && !s.flights[f].stage.Closed? && !s.flights[g].stage.Closed?
    ensures f == g
  {
    RunKeepsInv(INIT, es);
  }

  // How old an answer can be. Nothing in the code bounds the time between the end of a request and
  // its being stored and its flight closed, so the bound is one of the run.

  /** When the flight's document was received. */
  function ReceivedAt(s: State, doc: Shared): real
  {
    if doc.fetch < |s.fetches| then s.fetches[doc.fetch].at else s.now
  }

  /** Flights that store and close do so within `delay` of receiving their document. */
  ghost predicate Prompt(s: State, es: seq<Event>, delay: real)
    requires Runs(s, es)
    decreases es
  {
    es != [] ==>
      && (es[0].Store? ==> s.now <= ReceivedAt(s, s.flights[es[0].f].stage.doc) + delay)
      && (es[0].Finish? && s.flights[es[0].f].stage.Stored? ==>
            s.now <= ReceivedAt(s, s.flights[es[0].f].stage.doc) + delay)
      && Prompt(Next(s, es[0]), es[1..], delay)
  }

  ghost predicate FlightOnTime(s: State, f: nat, delay: real)
    requires f < |s.flights|
  {
    var stage := s.flights[f].stage;
    stage.Closed? && stage.outcome.Some? ==> stage.at <= ReceivedAt(s, stage.outcome.value) + delay
  }

  ghost predicate CallerOnTime(s: State, c: nat, delay: real)
    requires c < |s.callers|
  {
    s.callers[c].Holding? && s.callers[c].source.FromCache? && s.callers[c].fetch < |s.fetches| ==>
      s.callers[c].source.storedAt <= s.fetches[s.callers[c].fetch].at + delay
  }

  /** What was stored, closed and handed out so far was no older than `delay` when it was. */
  ghost predicate OnTime(s: State, delay: real)
  {
    && (s.cache.Some? ==> s.cache.value.storedAt <= ReceivedAt(s, s.cache.value.doc) + delay)
    && (forall f {:trigger FlightOnTime(s, f, delay)} :: 0 <= f < |s.flights| ==> FlightOnTime(s, f, delay))
    && (forall c {:trigger CallerOnTime(s, c, delay)} :: 0 <= c < |s.callers| ==> CallerOnTime(s, c, delay))
  }

  lemma FlightStaysOnTime(s: State, t: State, f: nat, delay: real)
    requires f < |s.flights| && FlightOk(s, f) && FlightOnTime(s, f, delay)
    requires s.fetches <= t.fetches && f < |t.flights| && t.flights[f] == s.flights[f]
    ensures FlightOnTime(t, f, delay)
  {
  }

  lemma CallerStaysOnTime(s: State, t: State, c: nat, delay: real)
    requires c < |s.callers| && CallerOk(s, c) && CallerOnTime(s, c, delay)
    requires s.fetches <= t.fetches && c < |t.callers|
    requires t.callers[c] == s.callers[c]
    ensures CallerOnTime(t, c, delay)
  {
  }

  /** The flight or caller a step is about; all others are as they were. */
  lemma FlightsStayOnTime(s: State, t: State, f: nat, delay: real)
    requires Inv(s) && OnTime(s, delay) && s.fetches <= t.fetches && |s.flights| <= |t.flights|
    requires forall g :: 0 <= g < |t.flights| && g != f ==> g < |s.flights| && t.flights[g] == s.flights[g]
    requires f < |t.flights| ==> FlightOnTime(t, f, delay)
    ensures forall g {:trigger FlightOnTime(t, g, delay)} :: 0 <= g < |t.flights| ==> FlightOnTime(t, g, delay)
  {
    forall g | 0 <= g < |t.flights| ensures FlightOnTime(t, g, delay) {
      if g != f {
        var same := t.flights[g];
        assert FlightOk(s, g) && FlightOnTime(s, g, delay);
        FlightStaysOnTime(s, t, g, delay);
      }
    }
  }

  lemma CallersStayOnTime(s: State, t: State, c: nat, delay: real)
    requires Inv(s) && OnTime(s, delay) && s.fetches <= t.fetches && |s.callers| <= |t.callers|
    requires forall d :: 0 <= d < |t.callers| && d != c ==> d < |s.callers| && t.callers[d] == s.callers[d]
    requires c < |t.callers| ==> CallerOnTime(t, c, delay)
    ensures forall d {:trigger CallerOnTime(t, d, delay)} :: 0 <= d < |t.callers| ==> CallerOnTime(t, d, delay)
  {
    forall d | 0 <= d < |t.callers| ensures CallerOnTime(t, d, delay) {
      if d != c {
        var same := t.callers[d];
        assert CallerOk(s, d) && CallerOnTime(s, d, delay);
        CallerStaysOnTime(s, t, d, delay);
      }
    }
  }

  /** The caller and the flight a step changes; the lengths stand for none. */
  function Touched(s: State, e: Event): (nat, nat)
  {
    match e
    case Wait(_) => (|s.callers|, |s.flights|)
    case Look(_) => (|s.callers|, |s.flights|)
    case Join(c) => (c, |s.flights|)
    case Receive(f, _) => (|s.callers|, f)
    case Store(f) => (|s.callers|, f)
    case Finish(f) => (|s.callers|, f)
    case Take(c) => (c, |s.flights|)
    case Change(c, _) => (c, |s.flights|)
  }

  lemma TouchedIsOnTime(s: State, e: Event, delay: real)
    requires Inv(s) && OnTime(s, delay) && Runs(s, [e]) && Prompt(s, [e], delay)
    ensures var t := Next(s, e); var (c, f) := Touched(s, e);
            && (f < |t.flights| ==> FlightOnTime(t, f, delay)) && (c < |t.callers| ==> CallerOnTime(t, c, delay))
            && (t.cache.Some? ==> t.cache.value.storedAt <= ReceivedAt(t, t.cache.value.doc) + delay)
  {
    var (c, f) := Touched(s, e);
    if f < |s.flights| {
      assert FlightOk(s, f) && FlightOnTime(s, f, delay);
    }
    if c < |s.callers| {
      assert CallerOk(s, c) && CallerOnTime(s, c, delay);
    }
  }

  lemma OthersUntouched(s: State, e: Event)
    requires Enabled(s, e)
    ensures var t := Next(s, e); var (c, f) := Touched(s, e);
            && s.fetches <= t.fetches && |s.flights| <= |t.flights| && |s.callers| <= |t.callers|
            && (forall g :: 0 <= g < |t.flights| && g != f ==> g < |s.flights| && t.flights[g] == s.flights[g])
            && (forall d :: 0 <= d < |t.callers| && d != c ==> d < |s.callers| && t.callers[d] == s.callers[d])
  {
  }

  lemma StepStaysOnTime(s: State, e: Event, delay: real)
    requires Inv(s) && OnTime(s, delay) && Runs(s, [e]) && Prompt(s, [e], delay)
    ensures OnTime(Next(s, e), delay)
  {
    var t := Next(s, e);
    var (c, f) := Touched(s, e);
    TouchedIsOnTime(s, e, delay);
    OthersUntouched(s, e);
    FlightsStayOnTime(s, t, f, delay);
    CallersStayOnTime(s, t, c, delay);
  }

  lemma {:induction false} RunStaysOnTime(s: State, es: seq<Event>, delay: real)
    requires Inv(s) && OnTime(s, delay) && Runs(s, es) && Prompt(s, es, delay)
    ensures Inv(Final(s, es)) && OnTime(Final(s, es), delay)
    decreases es
  {
    if es != [] {
      assert [es[0]][1..] == [];
      StepKeepsInv(s, es[0]);
      StepStaysOnTime(s, es[0], delay);
      RunStaysOnTime(Next(s, es[0]), es[1..], delay);
    }
  }

  /** A run of prompt flights from the beginning. */
  ghost predicate PromptRun(es: seq<Event>, delay: real)
  {
    Runs(INIT, es) && Prompt(INIT, es, delay)
  }

  /** An answer from the cache was fetched less than the cache's time and `slack` before the call
      looked. */
  ghost predicate CacheAnswersYoung(s: State, slack: real)
  {
    forall c :: 0 <= c < |s.callers| && s.callers[c].Holding? && s.callers[c].source.FromCache?
                && s.callers[c].fetch < |s.fetches| ==>
      s.fetches[s.callers[c].fetch].at > s.callers[c].source.lookedAt - 300.0 - slack
  }

  /** An answer from a flight was fetched no more than `slack` before the call joined it. */
  ghost predicate JoinedAnswersYoung(s: State, slack: real)
  {
    forall c :: 0 <= c < |s.callers| && s.callers[c].Holding? && s.callers[c].source.FromFlight?
                && s.callers[c].fetch < |s.fetches| ==>
      s.fetches[s.callers[c].fetch].at >= s.callers[c].source.joinedAt - slack
  }

  lemma PromptAnswersAreFresh(es: seq<Event>, delay: real)
    requires PromptRun(es, delay)
    ensures CacheAnswersYoung(Final(INIT, es), delay) && JoinedAnswersYoung(Final(INIT, es), delay)
  {
    RunStaysOnTime(INIT, es, delay);
    var s := Final(INIT, es);
    forall c | 0 <= c < |s.callers| && s.callers[c].Holding?
      ensures SourceOk(s, s.callers[c].url, s.callers[c].fetch, s.callers[c].source) && CallerOnTime(s, c, delay)
      ensures s.callers[c].source.FromFlight? ==> FlightOnTime(s, s.callers[c].source.flight, delay)
    {
      assert CallerOk(s, c);
    }
  }

  /** Over all runs in which flights store and close within `delay`, answers from the cache are
      younger than five minutes and `slack` when the call looks, if and only if `delay <= slack`;
      and answers from flights were fetched no more than `slack` before the call joined, if and
      only if `delay <= slack`. So with any delay at all an answer from the cache can be five
      minutes old or more. */
  lemma AnswersAreFresh(delay: real, slack: real)
    requires delay >= 0.0 && slack >= 0.0
    ensures (forall es :: PromptRun(es, delay) ==> CacheAnswersYoung(Final(INIT, es), slack)) <==> delay <= slack
    ensures (forall es :: PromptRun(es, delay) ==> JoinedAnswersYoung(Final(INIT, es), slack)) <==> delay <= slack
  {
    if delay <= slack {
      forall es | PromptRun(es, delay)
        ensures CacheAnswersYoung(Final(INIT, es), slack) && JoinedAnswersYoung(Final(INIT, es), slack)
      {
        PromptAnswersAreFresh(es, delay);
      }
    } else {
      var es := SlowStore("", map[], delay, slack);
      var js := SlowJoin("", map[], delay);
    }
  }

  /** The first call's flight has had its document since time 0, and has yet to store it. */
  function Pending(url: string, body: Document, now: real): State
  {
    State(now, [Cell(body, None)], None, [Flight(url, Fetched(Shared(0, 0)))], map[url := 0], [Joined(url, 0, 0.0)],
          [Fetch(url, body, 0.0)])
  }

  lemma FirstCall(url: string, body: Document, delay: real, rest: seq<Event>) returns (es: seq<Event>)
    requires delay >= 0.0 && Runs(Pending(url, body, delay), rest) && Prompt(Pending(url, body, delay), rest, delay)
    ensures PromptRun(es, delay) && Final(INIT, es) == Final(Pending(url, body, delay), rest)
  {
    var s1 := INIT.(callers := [Missed(url)]);
    var s2 := s1.(flights := [Flight(url, Fetching)], open := map[url := 0], callers := [Joined(url, 0, 0.0)]);
    assert Next(INIT, Look(url)) == s1;
    assert Next(s1, Join(0)) == s2;
    assert Next(s2, Receive(0, Some(body))) == Pending(url, body, 0.0);
    assert Next(Pending(url, body, 0.0), Wait(delay)) == Pending(url, body, delay);
    es := Prefixed(Pending(url, body, 0.0), Wait(delay), rest, delay);
    es := Prefixed(s2, Receive(0, Some(body)), es, delay);
    es := Prefixed(s1, Join(0), es, delay);
    es := Prefixed(INIT, Look(url), es, delay);
  }

  /** A document fetched at the start and stored `delay` later is still given out when it is five
      minutes and `slack` old. */
  lemma SlowStore(url: string, body: Document, delay: real, slack: real) returns (es: seq<Event>)
    requires 0.0 <= slack < delay
    ensures PromptRun(es, delay) && !CacheAnswersYoung(Final(INIT, es), slack)
  {
    var wait := if TTL + slack > delay then TTL + slack - delay else 0.0;
    var s4 := Pending(url, body, delay);
    var s5 := s4.(heap := [Cell(body, None), Cell(body, None)], flights := [Flight(url, Stored(Shared(0, 0)))],
                  cache := Some(Cached(url, Shared(0, 1), delay)));
    var s6 := s5.(now := delay + wait);
    var a := Holding(url, 2, 0, FromCache(delay, delay + wait), []);
    var s7 := s6.(heap := s6.heap + [Cell(body, Some(1))], callers := [Joined(url, 0, 0.0), a]);
    assert Next(s4, Store(0)) == s5;
    assert Next(s5, Wait(wait)) == s6;
    assert Next(s6, Look(url)) == s7;
    es := Prefixed(s6, Look(url), [], delay);
    es := Prefixed(s5, Wait(wait), es, delay);
    es := Prefixed(s4, Store(0), es, delay);
    es := FirstCall(url, body, delay, es);
    assert Final(INIT, es) == s7 && s7.callers[1] == a && s7.fetches[0].at == 0.0;
  }

  /** A call that comes while the body waits to be stored joins the flight and is given a document
      fetched `delay` before it came. */
  lemma SlowJoin(url: string, body: Document, delay: real) returns (es: seq<Event>)
    requires delay > 0.0
    ensures PromptRun(es, delay)
    ensures forall slack :: slack < delay ==> !JoinedAnswersYoung(Final(INIT, es), slack)
  {
    var s4 := Pending(url, body, delay);
    var s6 := s4.(callers := [Joined(url, 0, 0.0), Joined(url, 0, delay)]);
    var s7, s8 := LateFinish(s6, url, body, delay);
    var rest := LateTake(s8, url, body, delay);
    rest := Prefixed(s7, Finish(0), rest, delay);
    rest := Prefixed(s6, Store(0), rest, delay);
    var s5 := s4.(callers := [Joined(url, 0, 0.0), Missed(url)]);
    assert Next(s5, Join(1)) == s6;
    assert Next(s4, Look(url)) == s5;
    rest := Prefixed(s5, Join(1), rest, delay);
    rest := Prefixed(s4, Look(url), rest, delay);
    es := FirstCall(url, body, delay, rest);
    var s := Final(INIT, es);
    assert s.callers[1].source == FromFlight(0, delay) && s.callers[1].fetch == 0 && s.fetches[0].at == 0.0;
  }

  lemma LateFinish(s6: State, url: string, body: Document, delay: real) returns (s7: State, s8: State)
    requires s6 == Pending(url, body, delay).(callers := [Joined(url, 0, 0.0), Joined(url, 0, delay)])
    ensures Next(s6, Store(0)) == s7 && Enabled(s7, Finish(0)) && Next(s7, Finish(0)) == s8
    ensures s7 == s6.(heap := [Cell(body, None), Cell(body, None)], flights := [Flight(url, Stored(Shared(0, 0)))],
                      cache := Some(Cached(url, Shared(0, 1), delay)))
    ensures s8 == s7.(flights := [Flight(url, Closed(Some(Shared(0, 0)), delay))], open := map[])
  {
    s7 := Next(s6, Store(0));
    s8 := Next(s7, Finish(0));
  }

  lemma LateTake(s: State, url: string, body: Document, delay: real) returns (es: seq<Event>)
    requires s.flights == [Flight(url, Closed(Some(Shared(0, 0)), delay))] && s.fetches == [Fetch(url, body, 0.0)]
    requires s.callers == [Joined(url, 0, 0.0), Joined(url, 0, delay)]
    ensures Runs(s, es) && Prompt(s, es, delay)
    ensures var t := Final(s, es);
            && |t.callers| == 2 && t.callers[1].Holding? && t.callers[1].source == FromFlight(0, delay)
            && t.callers[1].fetch == 0 && t.fetches == s.fetches
  {
    es := Prefixed(s, Take(1), [], delay);
  }

  lemma Prefixed(s: State, e: Event, es: seq<Event>, delay: real) returns (all: seq<Event>)
    requires Enabled(s, e) && Runs(Next(s, e), es) && Prompt(Next(s, e), es, delay)
    requires e.Store? || (e.Finish? && s.flights[e.f].stage.Stored?) ==>
               s.now <= ReceivedAt(s, s.flights[e.f].stage.doc) + delay
    ensures Runs(s, all) && Prompt(s, all, delay) && Final(s, all) == Final(Next(s, e), es)
  {
    all := [e] + es;
    assert all[1..] == es;
  }
}
