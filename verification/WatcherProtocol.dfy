/** The watchers as a transition system. One machine covers
    pkg/kubernetes/watcher/cluster.go, pkg/kcp/workspace_watcher.go and
    pkg/kubernetes/watcher/kubeconfig.go: each step is one region under the mutex, or one
    action outside it, and the steps of all goroutines interleave freely.

    Channels, goroutines, timers and waiting calls of Close are numbered as they come
    about; a step names the one that takes it. */
module WatcherProtocol {

  import opened Options

  /** Where a background goroutine is. */
  datatype Poller =
    | Spawning                 // Watch has set `started`; the goroutine has not begun
    | AtSelect(stopped: nat)   // waiting; `stopped` is the channel its deferred close will close
    | Ticked(stopped: nat)     // took a tick and waits for the mutex
    | Leaving(stopped: nat)    // saw the stop request
    | Gone                     // returned, and its deferred close has run
    | NeverBegan               // Watch gave up before starting it

  /** Where a call of Close is that has to wait. */
  datatype Closer =
    | Unlocked                 // closed `stopCh` and let go of the mutex
    | Waiting(on: nat)
    | Woken
    | Finished

  /** A debounce timer and the callback it starts. */
  datatype Timer = Armed | Stopped | Running | Returned

  /** `S` is what a poll captures. `closes[c]` counts how often channel `c` was closed;
      closing one twice would panic. */
  datatype State<S> = State(
    started: bool,
    lastKnown: S,
    stopCh: nat,
    stoppedCh: nat,
    closes: seq<nat>,
    pollers: seq<Poller>,
    closers: seq<Closer>,
    timers: seq<Timer>,
    debounce: Option<nat>)

  datatype Event<S> =
    | Watch(captured: S)
    | Begin(p: nat)
    | GiveUp(p: nat)
    | Tick(p: nat)
    | Poll(p: nat, current: S)
    | SeeStop(p: nat)
    | Exit(p: nat)
    | Fire(t: nat)
    | Return(t: nat, ok: bool, captured: S)
    | CloseBegin
    | CloseWait(c: nat)
    | CloseWake(c: nat)
    | CloseEnd(c: nat)

  function Init<S>(blank: S): State<S>
  {
    State(false, blank, 0, 1, [0, 0], [], [], [], None)
  }

  predicate IsClosed<S>(s: State<S>, ch: nat)
  {
    ch < |s.closes| && s.closes[ch] > 0
  }

  predicate Enabled<S>(s: State<S>, e: Event<S>)
  {
    match e
    case Watch(_) => true
    case Begin(p) => p < |s.pollers| && s.pollers[p].Spawning?
    case GiveUp(p) => p < |s.pollers| && s.pollers[p].Spawning?
    case Tick(p) => p < |s.pollers| && s.pollers[p].AtSelect?
    case Poll(p, _) => p < |s.pollers| && s.pollers[p].Ticked?
    case SeeStop(p) => p < |s.pollers| && s.pollers[p].AtSelect? && IsClosed(s, s.stopCh)
    case Exit(p) => p < |s.pollers| && s.pollers[p].Leaving?
    case Fire(t) => t < |s.timers| && s.timers[t].Armed?
    case Return(t, _, _) => t < |s.timers| && s.timers[t].Running?
    case CloseBegin => true
    case CloseWait(c) => c < |s.closers| && s.closers[c].Unlocked?
    case CloseWake(c) => c < |s.closers| && s.closers[c].Waiting? && IsClosed(s, s.closers[c].on)
    case CloseEnd(c) => c < |s.closers| && s.closers[c].Woken?
  }

  function Close1<S>(s: State<S>, ch: nat): State<S>
  {
    if ch < |s.closes| then s.(closes := s.closes[ch := s.closes[ch] + 1]) else s
  }

  function StopTimer<S>(s: State<S>): State<S>
  {
    if s.debounce.Some? && s.debounce.value < |s.timers| && s.timers[s.debounce.value].Armed?
    then s.(timers := s.timers[s.debounce.value := Stopped]) else s
  }

  function Next<S(==)>(s: State<S>, e: Event<S>): State<S>
    requires Enabled(s, e)
  {
    match e
    case Watch(captured) =>
      if s.started then s else s.(started := true, lastKnown := captured, pollers := s.pollers + [Spawning])
    case Begin(p) => s.(pollers := s.pollers[p := AtSelect(s.stoppedCh)])
    case GiveUp(p) => s.(pollers := s.pollers[p := NeverBegan])
    case Tick(p) => s.(pollers := s.pollers[p := Ticked(s.pollers[p].stopped)])
    case Poll(p, current) =>
      var s' := s.(pollers := s.pollers[p := AtSelect(s.pollers[p].stopped)]);
      if current == s.lastKnown then s'
      else
        var q := StopTimer(s');
        q.(timers := q.timers + [Armed], debounce := Some(|q.timers|))
    case SeeStop(p) => s.(pollers := s.pollers[p := Leaving(s.pollers[p].stopped)])
    case Exit(p) => Close1(s.(pollers := s.pollers[p := Gone]), s.pollers[p].stopped)
    case Fire(t) => s.(timers := s.timers[t := Running])
    case Return(t, ok, captured) =>
      s.(timers := s.timers[t := Returned], lastKnown := if ok then captured else s.lastKnown)
    case CloseBegin =>
      var q := StopTimer(s);
      if !s.started || IsClosed(s, s.stopCh) then q
      else Close1(q, s.stopCh).(closers := s.closers + [Unlocked])
    case CloseWait(c) => s.(closers := s.closers[c := Waiting(s.stoppedCh)])
    case CloseWake(c) => s.(closers := s.closers[c := Woken])
    case CloseEnd(c) =>
      s.(closers := s.closers[c := Finished], started := false,
         stopCh := |s.closes|, stoppedCh := |s.closes| + 1, closes := s.closes + [0, 0])
  }

  predicate Runs<S(==)>(s: State<S>, es: seq<Event<S>>)
    decreases es
  {
    es != [] ==> Enabled(s, es[0]) && Runs(Next(s, es[0]), es[1..])
  }

  function Final<S(==)>(s: State<S>, es: seq<Event<S>>): State<S>
    requires Runs(s, es)
    decreases es
  {
    if es == [] then s else Final(Next(s, es[0]), es[1..])
  }

  // The invariant. Everything but the youngest goroutine and the youngest waiting Close
  // is over, and those two agree on the channels of the current generation.

  predicate Live(p: Poller)
  {
    !p.Gone? && !p.NeverBegan?
  }

  ghost predicate ChannelsInv<S>(s: State<S>)
  {
    && s.stopCh < |s.closes| && s.stoppedCh < |s.closes| && s.stopCh != s.stoppedCh
    && forall c :: 0 <= c < |s.closes| ==> s.closes[c] <= 1
  }

  ghost predicate TimersInv<S>(s: State<S>)
  {
    && (s.debounce.Some? ==> s.debounce.value < |s.timers|)
    && forall t :: 0 <= t < |s.timers| && s.timers[t].Armed? ==> s.debounce == Some(t)
  }

  ghost predicate OlderOver<S>(s: State<S>)
  {
    && (forall p :: 0 <= p < |s.pollers| - 1 ==> s.pollers[p].Gone?)
    && (forall c :: 0 <= c < |s.closers| - 1 ==> s.closers[c].Finished?)
  }

  /** The goroutine of the current generation. */
  ghost predicate PollerInv<S>(s: State<S>)
    requires ChannelsInv(s)
  {
    if !s.started then
      && (s.pollers == [] || s.pollers[|s.pollers| - 1].Gone?)
      && s.closes[s.stopCh] == 0 && s.closes[s.stoppedCh] == 0
    else
      && s.pollers != []
      && match s.pollers[|s.pollers| - 1]
         case Spawning => s.closes[s.stoppedCh] == 0
         case NeverBegan => s.closes[s.stoppedCh] == 0
         case AtSelect(d) => d == s.stoppedCh && s.closes[d] == 0
         case Ticked(d) => d == s.stoppedCh && s.closes[d] == 0
         case Leaving(d) => d == s.stoppedCh && s.closes[d] == 0 && s.closes[s.stopCh] == 1
         case Gone => s.closes[s.stoppedCh] == 1 && s.closes[s.stopCh] == 1
  }

  /** The waiting Close of the current generation. */
  ghost predicate CloserInv<S>(s: State<S>)
    requires ChannelsInv(s)
  {
    if s.closes[s.stopCh] == 0 then s.closers == [] || s.closers[|s.closers| - 1].Finished?
    else
      && s.started && s.closers != []
      && match s.closers[|s.closers| - 1]
         case Unlocked => true
         case Waiting(d) => d == s.stoppedCh
         case Woken => s.closes[s.stoppedCh] == 1
         case Finished => false
  }

  ghost predicate Inv<S>(s: State<S>)
  {
    ChannelsInv(s) && TimersInv(s) && OlderOver(s) && PollerInv(s) && CloserInv(s)
  }

  lemma PollerStepKeepsInv<S>(s: State<S>, e: Event<S>)
    requires Inv(s) && Enabled(s, e) && (e.Begin? || e.GiveUp? || e.Tick? || e.SeeStop? || e.Exit?)
    ensures Inv(Next(s, e))
  {
    var s' := Next(s, e);
    assert s'.timers == s.timers && s'.debounce == s.debounce && s'.closers == s.closers;
    assert e.p == |s.pollers| - 1;
  }

  lemma PollKeepsInv<S>(s: State<S>, e: Event<S>)
    requires Inv(s) && Enabled(s, e) && e.Poll?
    ensures Inv(Next(s, e))
  {
    var s' := Next(s, e);
    assert s'.closes == s.closes && s'.closers == s.closers;
    assert e.p == |s.pollers| - 1;
  }

  lemma TimerStepKeepsInv<S>(s: State<S>, e: Event<S>)
    requires Inv(s) && Enabled(s, e) && (e.Fire? || e.Return?)
    ensures Inv(Next(s, e))
  {
    var s' := Next(s, e);
    assert s' == s.(timers := s'.timers, lastKnown := s'.lastKnown);
  }

  lemma CloseBeginKeepsInv<S>(s: State<S>, e: Event<S>)
    requires Inv(s) && e.CloseBegin?
    ensures Inv(Next(s, e))
  {
    assert Next(s, e).pollers == s.pollers;
  }

  lemma CloseStepKeepsInv<S>(s: State<S>, e: Event<S>)
    requires Inv(s) && Enabled(s, e) && (e.CloseWait? || e.CloseWake? || e.CloseEnd?)
    ensures Inv(Next(s, e))
  {
    var s' := Next(s, e);
    assert s'.pollers == s.pollers && s'.timers == s.timers && s'.debounce == s.debounce;
    assert e.c == |s.closers| - 1;
  }

  lemma StepKeepsInv<S>(s: State<S>, e: Event<S>)
    requires Inv(s) && Enabled(s, e)
    ensures Inv(Next(s, e))
  {
    match e
    case Watch(_) =>
    case Begin(_) => PollerStepKeepsInv(s, e);
    case GiveUp(_) => PollerStepKeepsInv(s, e);
    case Tick(_) => PollerStepKeepsInv(s, e);
    case Poll(_, _) => PollKeepsInv(s, e);
    case SeeStop(_) => PollerStepKeepsInv(s, e);
    case Exit(_) => PollerStepKeepsInv(s, e);
    case Fire(_) => TimerStepKeepsInv(s, e);
    case Return(_, _, _) => TimerStepKeepsInv(s, e);
    case CloseBegin => CloseBeginKeepsInv(s, e);
    case CloseWait(_) => CloseStepKeepsInv(s, e);
    case CloseWake(_) => CloseStepKeepsInv(s, e);
    case CloseEnd(_) => CloseStepKeepsInv(s, e);
  }

  lemma {:induction false} RunKeepsInv<S>(s: State<S>, es: seq<Event<S>>)
    requires Inv(s) && Runs(s, es)
    ensures Inv(Final(s, es))
    decreases es
  {
    if es != [] {
      StepKeepsInv(s, es[0]);
      RunKeepsInv(Next(s, es[0]), es[1..]);
    }
  }

  // What the invariant gives in every interleaving.

  /** At most one live goroutine, at most one armed timer, at most one Close waiting, and
      no channel closed twice. */
  lemma Safety<S>(blank: S, es: seq<Event<S>>)
    requires Runs(Init(blank), es)
    ensures var s := Final(Init(blank), es);
            && (forall p, q :: 0 <= p < |s.pollers| && 0 <= q < |s.pollers| && Live(s.pollers[p]) && Live(s.pollers[q]) ==> p == q)
            && (forall t, u :: 0 <= t < |s.timers| && 0 <= u < |s.timers| && s.timers[t].Armed? && s.timers[u].Armed? ==> t == u)
            && (forall c, d :: 0 <= c < |s.closers| && 0 <= d < |s.closers| && !s.closers[c].Finished? && !s.closers[d].Finished? ==> c == d)
            && (forall c :: 0 <= c < |s.closes| ==> s.closes[c] <= 1)
  {
    RunKeepsInv(Init(blank), es);
  }

  // Which timer is armed.

  predicate IsArmed<S>(s: State<S>, t: nat)
  {
    t < |s.timers| && s.timers[t].Armed?
  }

  /** A poll that sees a difference. */
  predicate Arms<S(==)>(s: State<S>, e: Event<S>)
  {
    e.Poll? && e.current != s.lastKnown
  }

  /** The state before event `i` of a run. */
  function StateAt<S(==)>(s: State<S>, es: seq<Event<S>>, i: nat): State<S>
    requires Runs(s, es) && i <= |es|
    decreases es
  {
    if i == 0 then s else StateAt(Next(s, es[0]), es[1..], i - 1)
  }

  /** The event ends the wait of timer `t`: it fires, or Close or another poll stops it. */
  predicate Ends<S(==)>(s: State<S>, e: Event<S>, t: nat)
  {
    Arms(s, e) || e == CloseBegin || e == Fire(t)
  }

  ghost predicate Undisturbed<S>(s: State<S>, es: seq<Event<S>>, from: nat, t: nat)
    requires Runs(s, es)
  {
    forall j :: from <= j < |es| ==> !Ends(StateAt(s, es, j), es[j], t)
  }

  ghost predicate ArmedAt<S>(s: State<S>, es: seq<Event<S>>, i: nat, t: nat)
    requires Runs(s, es) && i < |es|
  {
    && Arms(StateAt(s, es, i), es[i]) && |StateAt(s, es, i).timers| == t
    && Undisturbed(s, es, i + 1, t)
  }

  /** The last poll of the run that saw a difference made timer `t`, and neither the firing of
      this timer nor a Close follows it. */
  ghost predicate ArmedSince<S>(s: State<S>, es: seq<Event<S>>, t: nat)
    requires Runs(s, es)
  {
    exists i :: 0 <= i < |es| && ArmedAt(s, es, i, t)
  }

  lemma ArmedStep<S>(s: State<S>, e: Event<S>, t: nat)
    requires TimersInv(s) && Enabled(s, e)
    ensures IsArmed(Next(s, e), t) <==> (Arms(s, e) && t == |s.timers|) || (IsArmed(s, t) && !Ends(s, e, t))
  {
  }

  /** What becomes of a timer in a step: it fires, its callback returns, or a poll that sees a
      difference or a Close stops it while it is armed; nothing else touches it. */
  lemma TimerMoves<S>(s: State<S>, e: Event<S>, t: nat)
    requires TimersInv(s) && Enabled(s, e) && t < |s.timers|
    ensures t < |Next(s, e).timers|
    ensures Next(s, e).timers[t] ==
            if e == Fire(t) then Running
            else if e.Return? && e.t == t then Returned
            else if s.timers[t].Armed? && (Arms(s, e) || e == CloseBegin) then Stopped
            else s.timers[t]
  {
  }

  lemma {:induction false} NeverFires<S>(s: State<S>, es: seq<Event<S>>, t: nat)
    requires Inv(s) && Runs(s, es) && t < |s.timers| && !s.timers[t].Armed?
    ensures forall j :: 0 <= j < |es| ==> es[j] != Fire(t)
    ensures !s.timers[t].Running? ==> forall j :: 0 <= j < |es| ==> !(es[j].Return? && es[j].t == t)
    decreases es
  {
    if es != [] {
      TimerMoves(s, es[0], t);
      StepKeepsInv(s, es[0]);
      NeverFires(Next(s, es[0]), es[1..], t);
      assert forall j :: 0 < j < |es| ==> es[j] == es[1..][j - 1];
    }
  }

  /** In every run each timer fires at most once, and its callback returns at most once and after
      it has fired. */
  lemma {:induction false} CallbackOnce<S>(s: State<S>, es: seq<Event<S>>, i: nat, j: nat, t: nat)
    requires Inv(s) && Runs(s, es) && i < j < |es|
    ensures es[i] == Fire(t) ==> es[j] != Fire(t)
    ensures es[i].Return? && es[i].t == t ==> es[j] != Fire(t) && !(es[j].Return? && es[j].t == t)
    decreases es
  {
    StepKeepsInv(s, es[0]);
    if i > 0 {
      CallbackOnce(Next(s, es[0]), es[1..], i - 1, j - 1, t);
    } else if es[0] == Fire(t) || (es[0].Return? && es[0].t == t) {
      TimerMoves(s, es[0], t);
      NeverFires(Next(s, es[0]), es[1..], t);
      assert es[j] == es[1..][j - 1];
    }
  }

  lemma UndisturbedLater<S>(s: State<S>, es: seq<Event<S>>, from: nat, t: nat)
    requires es != [] && Runs(s, es)
    ensures Undisturbed(s, es, from + 1, t) <==> Undisturbed(Next(s, es[0]), es[1..], from, t)
    ensures Undisturbed(s, es, 0, t) <==> !Ends(s, es[0], t) && Undisturbed(Next(s, es[0]), es[1..], 0, t)
  {
    var s', rest := Next(s, es[0]), es[1..];
    assert forall j :: 0 < j < |es| ==> es[j] == rest[j - 1] && StateAt(s, es, j) == StateAt(s', rest, j - 1);
    assert forall j :: 0 <= j < |rest| ==> rest[j] == es[j + 1] && StateAt(s', rest, j) == StateAt(s, es, j + 1);
    assert StateAt(s, es, 0) == s;
  }

  lemma ArmedSinceLater<S>(s: State<S>, es: seq<Event<S>>, t: nat)
    requires es != [] && Runs(s, es)
    ensures ArmedSince(s, es, t) <==>
              || (Arms(s, es[0]) && |s.timers| == t && Undisturbed(Next(s, es[0]), es[1..], 0, t))
              || ArmedSince(Next(s, es[0]), es[1..], t)
  {
    var s', rest := Next(s, es[0]), es[1..];
    UndisturbedLater(s, es, 0, t);
    forall i | 0 < i < |es| ensures ArmedAt(s, es, i, t) <==> ArmedAt(s', rest, i - 1, t) {
      UndisturbedLater(s, es, i, t);
    }
    forall i | 0 <= i < |rest| ensures ArmedAt(s', rest, i, t) <==> ArmedAt(s, es, i + 1, t) {
      UndisturbedLater(s, es, i + 1, t);
    }
    assert StateAt(s, es, 0) == s;
    assert ArmedAt(s, es, 0, t) <==> Arms(s, es[0]) && |s.timers| == t && Undisturbed(s', rest, 0, t);
  }

  lemma {:induction false} ArmedAfter<S>(s: State<S>, es: seq<Event<S>>, t: nat)
    requires Inv(s) && Runs(s, es)
    ensures IsArmed(Final(s, es), t) <==> ArmedSince(s, es, t) || (IsArmed(s, t) && Undisturbed(s, es, 0, t))
    decreases es
  {
    if es != [] {
      StepKeepsInv(s, es[0]);
      ArmedStep(s, es[0], t);
      ArmedAfter(Next(s, es[0]), es[1..], t);
      UndisturbedLater(s, es, 0, t);
      ArmedSinceLater(s, es, t);
    }
  }

  /** After Close has stopped the timer, whatever the goroutine was doing: a timer is armed exactly
      when the last poll since then that saw a difference made it, and neither its firing nor
      another Close follows. */
  lemma ArmedByPollExactly<S>(s: State<S>, es: seq<Event<S>>, t: nat)
    requires Inv(s) && Runs(s, [CloseBegin] + es)
    ensures ([CloseBegin] + es)[1..] == es
    ensures IsArmed(Final(s, [CloseBegin] + es), t) <==> ArmedSince(Next(s, CloseBegin), es, t)
  {
    var run := [CloseBegin] + es;
    assert run[1..] == es;
    StepKeepsInv(s, CloseBegin);
    ArmedStep(s, CloseBegin, t);
    ArmedAfter(Next(s, CloseBegin), es, t);
  }

  // A Close that waits. It can always get through, unless Watch gave up starting the
  // goroutine, which is what two early returns of the kubeconfig watcher do.

  /** The number of steps the goroutine and the waiting Close still need. */
  function StepsLeft<S>(s: State<S>): nat
    requires s.pollers != [] && s.closers != []
  {
    (match s.pollers[|s.pollers| - 1]
     case Spawning => 3
     case Ticked(_) => 3
     case AtSelect(_) => 2
     case Leaving(_) => 1
     case _ => 0)
    + (match s.closers[|s.closers| - 1]
       case Unlocked => 3
       case Waiting(_) => 2
       case Woken => 1
       case Finished => 0)
  }

  ghost predicate CloseWaits<S>(s: State<S>)
  {
    s.closers != [] && !s.closers[|s.closers| - 1].Finished?
  }

  /** The next step of the goroutine or of the waiting Close, whatever a poll captures. */
  function Advance<S>(s: State<S>, probe: S): Event<S>
    requires Inv(s) && CloseWaits(s)
  {
    var p, c := |s.pollers| - 1, |s.closers| - 1;
    if s.pollers[p].Spawning? then Begin(p)
    else if s.pollers[p].Ticked? then Poll(p, probe)
    else if s.pollers[p].AtSelect? then SeeStop(p)
    else if s.pollers[p].Leaving? then Exit(p)
    else if s.closers[c].Unlocked? then CloseWait(c)
    else if s.closers[c].Waiting? then CloseWake(c)
    else CloseEnd(c)
  }

  ghost predicate Abandoned<S>(s: State<S>)
  {
    s.pollers != [] && s.pollers[|s.pollers| - 1].NeverBegan?
  }

  lemma AdvanceHelps<S>(s: State<S>, probe: S)
    requires Inv(s) && CloseWaits(s) && !Abandoned(s)
    ensures var e := Advance(s, probe);
            && Enabled(s, e)
            && Inv(Next(s, e)) && !Abandoned(Next(s, e))
            && |Next(s, e).pollers| == |s.pollers| && |Next(s, e).closers| == |s.closers|
            && StepsLeft(Next(s, e)) < StepsLeft(s)
  {
    StepKeepsInv(s, Advance(s, probe));
  }

  /** `c` has come back from its wait. */
  ghost predicate CanFinish<S(!new)>(s: State<S>, c: nat)
  {
    exists es :: Runs(s, es) && var s' := Final(s, es); c < |s'.closers| && s'.closers[c].Finished?
  }

  lemma {:induction false} CloseGetsThrough<S(!new)>(s: State<S>, probe: S) returns (es: seq<Event<S>>)
    requires Inv(s) && CloseWaits(s) && !Abandoned(s)
    ensures |es| <= StepsLeft(s) <= 6 && Runs(s, es)
    ensures Final(s, es).closers == SetLast(s.closers, Finished) && !Final(s, es).started
    ensures es != [] && es[|es| - 1] == CloseEnd(|s.closers| - 1)
    ensures !s.pollers[|s.pollers| - 1].Spawning? && !s.pollers[|s.pollers| - 1].Ticked? ==> Final(s, es).timers == s.timers
    decreases StepsLeft(s)
  {
    var e := Advance(s, probe);
    AdvanceHelps(s, probe);
    var s' := Next(s, e);
    if CloseWaits(s') {
      var rest := CloseGetsThrough(s', probe);
      es := [e] + rest;
      assert es[1..] == rest;
    } else {
      es := [e];
      assert es[1..] == [];
      assert Final(s', []) == s';
    }
  }

  function SetLast<T>(s: seq<T>, x: T): seq<T>
    requires s != []
  {
    s[|s| - 1 := x]
  }

  lemma {:induction false} AbandonedForever<S>(s: State<S>, es: seq<Event<S>>)
    requires Inv(s) && Abandoned(s) && s.started && CloseWaits(s) && Runs(s, es)
    ensures Final(s, es).started && CloseWaits(Final(s, es)) && |Final(s, es).closers| == |s.closers|
    decreases es
  {
    if es != [] {
      StepKeepsInv(s, es[0]);
      AbandonedForever(Next(s, es[0]), es[1..]);
    }
  }

  /** Never stuck, exactly: in every reachable state a Close that waits can still get
      through if and only if the goroutine of its generation was not given up. */
  lemma CloseCanFinishExactly<S(0,!new)>(blank: S, past: seq<Event<S>>)
    requires Runs(Init(blank), past) && CloseWaits(Final(Init(blank), past))
    ensures var s := Final(Init(blank), past); CanFinish(s, |s.closers| - 1) <==> !Abandoned(s)
  {
    var s := Final(Init(blank), past);
    RunKeepsInv(Init(blank), past);
    if Abandoned(s) {
      forall es | Runs(s, es)
        ensures var s' := Final(s, es); |s'.closers| == |s.closers| && !s'.closers[|s.closers| - 1].Finished?
      {
        AbandonedForever(s, es);
      }
    } else {
      var es := CloseGetsThrough(s, blank);
    }
  }

  // A timer that outlives the Close.

  lemma {:induction false} RunConcat<S>(s: State<S>, a: seq<Event<S>>, b: seq<Event<S>>)
    ensures Runs(s, a + b) <==> Runs(s, a) && Runs(Final(s, a), b)
    ensures Runs(s, a + b) ==> Final(s, a + b) == Final(Final(s, a), b)
    decreases a
  {
    if a == [] {
      assert a + b == b;
    } else {
      assert (a + b)[0] == a[0] && (a + b)[1..] == a[1..] + b;
      if Enabled(s, a[0]) {
        RunConcat(Next(s, a[0]), a[1..], b);
      }
    }
  }

  /** A goroutine that has not seen the stop request can still poll, and arm a timer. */
  lemma {:induction false} PollsOnce<S>(s: State<S>, seen: S) returns (es: seq<Event<S>>)
    requires Inv(s) && s.pollers != [] && seen != s.lastKnown
    requires var p := s.pollers[|s.pollers| - 1]; p.Spawning? || p.AtSelect? || p.Ticked?
    ensures Runs(s, es)
    ensures var t := Final(s, es);
            && Inv(t) && t.closers == s.closers && IsArmed(t, |s.timers|)
            && t.pollers != [] && t.pollers[|t.pollers| - 1].AtSelect?
    decreases var p := s.pollers[|s.pollers| - 1]; if p.Spawning? then 2 else if p.AtSelect? then 1 else 0
  {
    var p := |s.pollers| - 1;
    if s.pollers[p].Ticked? {
      es := [Poll(p, seen)];
      StepKeepsInv(s, es[0]);
      assert es[1..] == [] && Final(Next(s, es[0]), []) == Next(s, es[0]);
    } else {
      var e := if s.pollers[p].Spawning? then Begin(p) else Tick(p);
      StepKeepsInv(s, e);
      var rest := PollsOnce(Next(s, e), seen);
      es := [e] + rest;
      assert es[1..] == rest;
    }
  }

  /** The Close that begins now can come back with a timer armed. */
  ghost predicate CloseCanLeaveTimer<S(!new)>(s: State<S>)
  {
    exists es, t :: LeavesTimer(s, es, t)
  }

  /** The run goes from the beginning of a Close to its end. */
  ghost predicate LeavesTimer<S>(s: State<S>, es: seq<Event<S>>, t: nat)
  {
    var run := [CloseBegin] + es + [CloseEnd(|s.closers|)];
    Runs(s, run) && IsArmed(Final(s, run), t)
  }

  lemma TimerLeft<S(!new)>(s: State<S>, seen: S) returns (es: seq<Event<S>>)
    requires Inv(s) && s.started && !IsClosed(s, s.stopCh) && !Abandoned(s) && seen != s.lastKnown
    ensures LeavesTimer(s, es, |s.timers|)
  {
    var c := Next(s, CloseBegin);
    StepKeepsInv(s, CloseBegin);
    var rest := TimerLeftByEnd(c, seen);
    es := rest[..|rest| - 1];
    assert ([CloseBegin] + es + [CloseEnd(|s.closers|)])[1..] == rest;
  }

  lemma TimerLeftByEnd<S(!new)>(c: State<S>, seen: S) returns (es: seq<Event<S>>)
    requires Inv(c) && CloseWaits(c) && c.pollers != [] && seen != c.lastKnown
    requires var p := c.pollers[|c.pollers| - 1]; p.Spawning? || p.AtSelect? || p.Ticked?
    ensures es != [] && es[|es| - 1] == CloseEnd(|c.closers| - 1)
    ensures Runs(c, es) && IsArmed(Final(c, es), |c.timers|)
  {
    var polls := PollsOnce(c, seen);
    var ends := CloseGetsThrough(Final(c, polls), seen);
    es := polls + ends;
    RunConcat(c, polls, ends);
  }

  lemma NothingLeft<S>(s: State<S>, es: seq<Event<S>>, t: nat)
    requires Inv(s) && s.started && !IsClosed(s, s.stopCh) && Abandoned(s)
    ensures !LeavesTimer(s, es, t)
  {
    var c := Next(s, CloseBegin);
    StepKeepsInv(s, CloseBegin);
    var run := [CloseBegin] + es + [CloseEnd(|s.closers|)];
    assert run[1..] == es + [CloseEnd(|s.closers|)];
    if Runs(s, run) {
      RunConcat(c, es, [CloseEnd(|s.closers|)]);
      AbandonedForever(c, es + [CloseEnd(|s.closers|)]);
    }
  }

  /** In every reachable state in which Close would have to wait, it can come back and leave a timer
      armed behind it if and only if it can come back at all, that is, if Watch did not give up
      starting the goroutine. */
  lemma CloseLeavesTimerExactly<S(0,!new)>(blank: S, a: S, b: S, past: seq<Event<S>>)
    requires a != b && Runs(Init(blank), past)
    requires var s := Final(Init(blank), past); s.started && !IsClosed(s, s.stopCh)
    ensures CloseCanLeaveTimer(Final(Init(blank), past)) <==> !Abandoned(Final(Init(blank), past))
  {
    var s := Final(Init(blank), past);
    RunKeepsInv(Init(blank), past);
    if Abandoned(s) {
      forall es, t ensures !LeavesTimer(s, es, t) {
        NothingLeft(s, es, t);
      }
    } else {
      var es := TimerLeft(s, if s.lastKnown != a then a else b);
    }
  }

  // What the watcher takes to be known.

  /** The end of a reload that succeeded, or a Watch that starts the watcher. */
  predicate Records<S>(s: State<S>, e: Event<S>)
  {
    (e.Return? && e.ok) || (e.Watch? && !s.started)
  }

  ghost predicate NoRecord<S>(s: State<S>, es: seq<Event<S>>, from: nat)
    requires Runs(s, es)
  {
    forall j :: from <= j < |es| ==> !Records(StateAt(s, es, j), es[j])
  }

  ghost predicate RecordedAt<S>(s: State<S>, es: seq<Event<S>>, i: nat, x: S)
    requires Runs(s, es)
  {
    i < |es| && Records(StateAt(s, es, i), es[i]) && NoRecord(s, es, i + 1) && es[i].captured == x
  }

  /** `x` is what the last of these events captured, or what was known before when there is none. */
  ghost predicate KnownBy<S>(s: State<S>, es: seq<Event<S>>, x: S)
    requires Runs(s, es)
  {
    (NoRecord(s, es, 0) && x == s.lastKnown) || exists i :: RecordedAt(s, es, i, x)
  }

  lemma NoRecordLater<S>(s: State<S>, es: seq<Event<S>>, from: nat)
    requires es != [] && Runs(s, es)
    ensures NoRecord(s, es, from + 1) <==> NoRecord(Next(s, es[0]), es[1..], from)
    ensures NoRecord(s, es, 0) <==> !Records(s, es[0]) && NoRecord(s, es, 1)
  {
    var s', rest := Next(s, es[0]), es[1..];
    assert forall j :: 0 < j < |es| ==> es[j] == rest[j - 1] && StateAt(s, es, j) == StateAt(s', rest, j - 1);
    assert forall j :: 0 <= j < |rest| ==> rest[j] == es[j + 1] && StateAt(s', rest, j) == StateAt(s, es, j + 1);
    assert StateAt(s, es, 0) == s;
  }

  lemma RecordedLater<S>(s: State<S>, es: seq<Event<S>>, i: nat, x: S)
    requires es != [] && Runs(s, es)
    ensures RecordedAt(s, es, i + 1, x) <==> RecordedAt(Next(s, es[0]), es[1..], i, x)
    ensures RecordedAt(s, es, 0, x) <==> Records(s, es[0]) && NoRecord(Next(s, es[0]), es[1..], 0) && es[0].captured == x
  {
    NoRecordLater(s, es, i + 1);
    NoRecordLater(s, es, 0);
  }

  lemma KnownStep<S>(s: State<S>, es: seq<Event<S>>, x: S)
    requires es != [] && Runs(s, es)
    ensures KnownBy(s, es, x) <==> KnownBy(Next(s, es[0]), es[1..], x)
  {
    var s', rest := Next(s, es[0]), es[1..];
    NoRecordLater(s, es, 0);
    RecordedLater(s, es, 0, x);
    assert s'.lastKnown == if Records(s, es[0]) then es[0].captured else s.lastKnown;
    if i: nat :| RecordedAt(s, es, i, x) {
      if i > 0 {
        RecordedLater(s, es, i - 1, x);
      }
    }
    if i: nat :| RecordedAt(s', rest, i, x) {
      RecordedLater(s, es, i, x);
    }
  }

  /** After every run the watcher knows what the last successful reload, or the Watch that started
      it if that came later, captured, and what it knew before when there was neither. */
  lemma {:induction false} KnownExactly<S>(s: State<S>, es: seq<Event<S>>, x: S)
    requires Runs(s, es)
    ensures x == Final(s, es).lastKnown <==> KnownBy(s, es, x)
    decreases es
  {
    if es != [] {
      KnownStep(s, es, x);
      KnownExactly(Next(s, es[0]), es[1..], x);
    }
  }

  /** After every run a poll arms a new timer exactly when it sees something other than what was
      last recorded. */
  lemma PollArmsExactly<S>(blank: S, past: seq<Event<S>>, p: nat, current: S)
    requires Runs(Init(blank), past) && Enabled(Final(Init(blank), past), Poll(p, current))
    ensures var s := Final(Init(blank), past);
            IsArmed(Next(s, Poll(p, current)), |s.timers|) <==> !KnownBy(Init(blank), past, current)
  {
    KnownExactly(Init(blank), past, current);
  }

  /** What a poll does after a reload, as long as nothing more was recorded since: a reload that
      failed left the difference standing, so a poll that still sees it arms a timer again; one
      that succeeded settled what it captured. */
  lemma ReloadRetriedExactly<S>(s: State<S>, t: nat, ok: bool, captured: S, es: seq<Event<S>>, p: nat, current: S)
    requires Enabled(s, Return(t, ok, captured)) && Runs(Next(s, Return(t, ok, captured)), es)
    requires NoRecord(Next(s, Return(t, ok, captured)), es, 0)
    requires Enabled(Final(Next(s, Return(t, ok, captured)), es), Poll(p, current))
    ensures var s' := Final(Next(s, Return(t, ok, captured)), es);
            IsArmed(Next(s', Poll(p, current)), |s'.timers|) <==> current != if ok then captured else s.lastKnown
  {
    KnownExactly(Next(s, Return(t, ok, captured)), es, if ok then captured else s.lastKnown);
  }

  // Whether a Watch leaves a goroutine at work.

  ghost predicate HasLive<S>(s: State<S>)
  {
    exists p :: 0 <= p < |s.pollers| && Live(s.pollers[p])
  }

  /** Neither a Close nor a Watch begins. */
  ghost predicate Calm<S>(es: seq<Event<S>>)
  {
    forall i :: 0 <= i < |es| ==> !es[i].CloseBegin? && !es[i].Watch?
  }

  /** Starting the goroutine is given up on the way. */
  ghost predicate GivesUp<S>(es: seq<Event<S>>)
  {
    exists i :: 0 <= i < |es| && es[i].GiveUp?
  }

  /** Started, and no Close has asked it to stop. */
  ghost predicate AtWork<S>(s: State<S>)
  {
    s.started && !CloseWaits(s) && !Abandoned(s)
  }

  lemma AtWorkIsLive<S>(s: State<S>)
    requires Inv(s)
    ensures AtWork(s) ==> HasLive(s)
    ensures !s.started || Abandoned(s) ==> !HasLive(s)
  {
    if AtWork(s) {
      assert s.closes[s.stopCh] == 0;
      assert Live(s.pollers[|s.pollers| - 1]);
    }
  }

  lemma AtWorkStep<S>(s: State<S>, e: Event<S>)
    requires Inv(s) && AtWork(s) && Enabled(s, e) && !e.CloseBegin? && !e.Watch?
    ensures Inv(Next(s, e)) && Next(s, e).started
    ensures if e.GiveUp? then Abandoned(Next(s, e)) else AtWork(Next(s, e))
  {
    StepKeepsInv(s, e);
  }

  lemma GivesUpLater<S>(es: seq<Event<S>>)
    requires es != []
    ensures GivesUp(es) <==> es[0].GiveUp? || GivesUp(es[1..])
  {
    assert forall i :: 1 <= i < |es| ==> es[i] == es[1..][i - 1];
  }

  /** Nothing but a Close or giving it up stops a goroutine at work. */
  lemma {:induction false} StaysAtWork<S>(s: State<S>, es: seq<Event<S>>)
    requires Inv(s) && AtWork(s) && Runs(s, es) && Calm(es)
    ensures Inv(Final(s, es))
    ensures if GivesUp(es) then Abandoned(Final(s, es)) else AtWork(Final(s, es))
    decreases es
  {
    if es != [] {
      assert !es[0].CloseBegin? && !es[0].Watch?;
      AtWorkStep(s, es[0]);
      GivesUpLater(es);
      if es[0].GiveUp? {
        StaysAbandoned(Next(s, es[0]), es[1..]);
      } else {
        StaysAtWork(Next(s, es[0]), es[1..]);
      }
    }
  }

  /** While a Close waits, or once it is over, nothing starts again by itself. */
  lemma {:induction false} StaysClosing<S>(s: State<S>, es: seq<Event<S>>)
    requires Inv(s) && (CloseWaits(s) || !s.started) && Runs(s, es) && Calm(es)
    ensures Inv(Final(s, es)) && (CloseWaits(Final(s, es)) || !Final(s, es).started)
    decreases es
  {
    if es != [] {
      assert !es[0].CloseBegin? && !es[0].Watch?;
      StepKeepsInv(s, es[0]);
      StaysClosing(Next(s, es[0]), es[1..]);
    }
  }

  lemma {:induction false} StaysAbandoned<S>(s: State<S>, es: seq<Event<S>>)
    requires Inv(s) && Abandoned(s) && s.started && Runs(s, es) && Calm(es)
    ensures Inv(Final(s, es)) && Abandoned(Final(s, es))
    decreases es
  {
    if es != [] {
      assert !es[0].CloseBegin? && !es[0].Watch?;
      StepKeepsInv(s, es[0]);
      StaysAbandoned(Next(s, es[0]), es[1..]);
    }
  }

  lemma WatchStep<S>(s: State<S>, captured: S)
    requires Inv(s)
    ensures Inv(Next(s, Watch(captured)))
    ensures !CloseWaits(s) && !(s.started && Abandoned(s)) ==> AtWork(Next(s, Watch(captured)))
    ensures CloseWaits(s) ==> Next(s, Watch(captured)) == s && s.started
  {
    StepKeepsInv(s, Watch(captured));
  }

  /** In every reachable state: when a Watch has been called and the Closes begun before it are over,
      and nothing else was called since, a goroutine is at work or about to be if and only if no Close
      was waiting when Watch was called, and neither the goroutine started before, if there was one,
      nor the one started then has been given up. */
  lemma WatchWorksExactly<S>(blank: S, past: seq<Event<S>>, captured: S, es: seq<Event<S>>)
    requires Runs(Init(blank), past)
    requires var s := Final(Init(blank), past); Runs(Next(s, Watch(captured)), es) && !CloseWaits(Final(Next(s, Watch(captured)), es))
    requires Calm(es)
    ensures var s := Final(Init(blank), past);
            HasLive(Final(Next(s, Watch(captured)), es)) <==> !CloseWaits(s) && !(s.started && Abandoned(s)) && !GivesUp(es)
  {
    var s := Final(Init(blank), past);
    var w := Next(s, Watch(captured));
    RunKeepsInv(Init(blank), past);
    WatchStep(s, captured);
    if CloseWaits(s) {
      StaysClosing(w, es);
    } else if s.started && Abandoned(s) {
      StaysAbandoned(w, es);
    } else {
      StaysAtWork(w, es);
    }
    AtWorkIsLive(Final(w, es));
  }

  // Tempting properties that the code does not have.

  lemma RunMore<S>(s: State<S>, es: seq<Event<S>>, e: Event<S>)
    requires Runs(s, es) && Enabled(Final(s, es), e)
    ensures Runs(s, es + [e]) && Final(s, es + [e]) == Next(Final(s, es), e)
    decreases es
  {
    if es == [] {
      assert Final(Next(s, e), []) == Next(s, e);
    } else {
      assert (es + [e])[1..] == es[1..] + [e];
      RunMore(Next(s, es[0]), es[1..], e);
    }
  }

  /** A watcher that has seen one difference and armed its first timer. */
  lemma FirstDifference() returns (es: seq<Event<bool>>)
    ensures Runs(Init(false), es)
    ensures Final(Init(false), es)
            == State(true, false, 0, 1, [0, 0], [AtSelect(1)], [], [Armed], Some(0))
  {
    es := [];
    RunMore(Init(false), es, Watch(false));
    es := es + [Watch(false)];
    RunMore(Init(false), es, Begin(0));
    es := es + [Begin(0)];
    RunMore(Init(false), es, Tick(0));
    es := es + [Tick(0)];
    RunMore(Init(false), es, Poll(0, true));
    es := es + [Poll(0, true)];
  }

  /** While a slow reload runs, the next poll still sees the difference and its timer
      starts a second reload beside the first. */
  lemma TwoReloadsAtOnce() returns (es: seq<Event<bool>>)
    ensures Runs(Init(false), es)
    ensures Final(Init(false), es).timers == [Running, Running]
  {
    es := FirstDifference();
    RunMore(Init(false), es, Fire(0));
    es := es + [Fire(0)];
    RunMore(Init(false), es, Tick(0));
    es := es + [Tick(0)];
    RunMore(Init(false), es, Poll(0, true));
    es := es + [Poll(0, true)];
    RunMore(Init(false), es, Fire(1));
    es := es + [Fire(1)];
  }

  lemma LatePoll() returns (es: seq<Event<bool>>)
    ensures Runs(Init(false), es)
    ensures Final(Init(false), es)
            == State(true, false, 0, 1, [1, 0], [AtSelect(1)], [Unlocked], [Stopped, Armed], Some(1))
  {
    es := FirstDifference();
    RunMore(Init(false), es, Tick(0));
    es := es + [Tick(0)];
    RunMore(Init(false), es, CloseBegin);
    es := es + [CloseBegin];
    RunMore(Init(false), es, Poll(0, true));
    es := es + [Poll(0, true)];
  }

  /** One way to leave a timer behind: a tick that waits for the mutex while Close stops the timer
      arms a new one when Close lets go. */
  lemma ArmedAfterClose() returns (es: seq<Event<bool>>)
    ensures Runs(Init(false), es)
    ensures var s := Final(Init(false), es); !s.started && s.closers == [Finished] && s.timers == [Stopped, Armed]
  {
    es := LatePoll();
    RunMore(Init(false), es, SeeStop(0));
    es := es + [SeeStop(0)];
    RunMore(Init(false), es, Exit(0));
    es := es + [Exit(0)];
    RunMore(Init(false), es, CloseWait(0));
    es := es + [CloseWait(0)];
    RunMore(Init(false), es, CloseWake(0));
    es := es + [CloseWake(0)];
    RunMore(Init(false), es, CloseEnd(0));
    es := es + [CloseEnd(0)];
  }

  /** A Close that finds another one waiting returns at once. A Watch after it finds the watcher still
      started and does nothing, and when the first Close is over no goroutine is left. */
  lemma WatchLost() returns (es: seq<Event<bool>>)
    ensures Runs(Init(false), es)
    ensures [Event.Watch(false), Begin(0), CloseBegin, CloseBegin, Event.Watch(false)] <= es
    ensures var s := Final(Init(false), es); !s.started && s.pollers == [Gone] && s.closers == [Finished]
  {
    es := SecondCloseReturns();
    RunMore(Init(false), es, SeeStop(0));
    es := es + [SeeStop(0)];
    RunMore(Init(false), es, Exit(0));
    es := es + [Exit(0)];
    RunMore(Init(false), es, CloseWait(0));
    es := es + [CloseWait(0)];
    RunMore(Init(false), es, CloseWake(0));
    es := es + [CloseWake(0)];
    RunMore(Init(false), es, CloseEnd(0));
    es := es + [CloseEnd(0)];
  }

  lemma SecondCloseReturns() returns (es: seq<Event<bool>>)
    ensures es == [Event.Watch(false), Begin(0), CloseBegin, CloseBegin, Event.Watch(false)]
    ensures Runs(Init(false), es)
    ensures Final(Init(false), es) == State(true, false, 0, 1, [1, 0], [AtSelect(1)], [Unlocked], [], None)
  {
    es := [];
    RunMore(Init(false), es, Event.Watch(false));
    es := es + [Event.Watch(false)];
    RunMore(Init(false), es, Begin(0));
    es := es + [Begin(0)];
    RunMore(Init(false), es, CloseBegin);
    es := es + [CloseBegin];
    RunMore(Init(false), es, CloseBegin);
    es := es + [CloseBegin];
    RunMore(Init(false), es, Event.Watch(false));
    es := es + [Event.Watch(false)];
  }
}
