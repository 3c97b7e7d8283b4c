/** When the polling watchers of pkg/kubernetes/watcher/cluster.go and
    pkg/kcp/workspace_watcher.go run their callback, on a clock that starts with the
    goroutine. Every reload takes the same time, and what the watcher knows changes at its
    end. */
module Debounce {
  import opened Options

  /** The two intervals, how long a reload takes, what a capture yields at each moment, and
      whether a reload started then succeeds. */
  datatype Env<S> = Env(poll: real, window: real, duration: real, cluster: real -> S, ok: real -> bool)

  ghost predicate Proper<S>(v: Env<S>)
  {
    && v.poll > 0.0 && v.window > 0.0 && v.duration >= 0.0
    && forall k: int :: TickTime(v, k) != v.window   // no tick meets the end of a window
  }

  function TickTime<S>(v: Env<S>, k: int): real
  {
    k as real * v.poll
  }

  /** When the armed timer fires, and when reloads were started so far. */
  datatype Watch = Watch(deadline: Option<real>, runs: seq<real>)

  /** Lets the timer fire if its window ends before `now`. */
  function Elapse(w: Watch, now: real): Watch
  {
    if w.deadline.Some? && w.deadline.value < now then Watch(None, w.runs + [w.deadline.value]) else w
  }

  /** The state the watcher has on record: the capture at the end of the last successful reload that
      is over, or the first one. */
  function Known<S>(v: Env<S>, runs: seq<real>, now: real): S
  {
    if runs == [] then v.cluster(0.0)
    else
      var t := runs[|runs| - 1];
      if v.ok(t) && t + v.duration <= now then v.cluster(t + v.duration) else Known(v, runs[..|runs| - 1], now)
  }

  /** Just before tick `k`, and just after it. */
  function Before<S(==)>(v: Env<S>, k: nat): Watch
    requires k > 0
    decreases k, 0
  {
    Elapse(After(v, k - 1), TickTime(v, k))
  }

  function After<S(==)>(v: Env<S>, k: nat): Watch
    decreases k, 2
  {
    if k == 0 then Watch(None, [])
    else if Saw(v, k) then Before(v, k).(deadline := Some(TickTime(v, k) + v.window))
    else Before(v, k)
  }

  /** Tick `k` found the cluster changed. */
  predicate Saw<S(==)>(v: Env<S>, k: nat)
    decreases k, 1
  {
    k > 0 && v.cluster(TickTime(v, k)) != Known(v, Before(v, k).runs, TickTime(v, k))
  }

  /** Tick `k` armed a timer and no later tick that saw a change came within its window. */
  ghost predicate Undisturbed<S>(v: Env<S>, k: nat)
  {
    Saw(v, k) && forall j: nat :: k < j && TickTime(v, j - k) < v.window ==> !Saw(v, j)
  }

  lemma TickTimes<S>(v: Env<S>, j: int, k: int)
    requires v.poll > 0.0
    ensures TickTime(v, k) - TickTime(v, j) == TickTime(v, k - j)
    ensures j < k <==> TickTime(v, j) < TickTime(v, k)
  {
  }

  /** Just after tick `n`, the armed timer is the one tick `k` set: no tick since has seen
      a change, and its window has not ended. */
  ghost predicate ArmedBy<S>(v: Env<S>, n: nat, k: nat)
  {
    && k <= n && Saw(v, k) && TickTime(v, n - k) < v.window
    && After(v, n).deadline == Some(TickTime(v, k) + v.window)
    && forall j: nat :: k < j <= n ==> !Saw(v, j)
  }

  lemma {:induction false} ArmedBySome<S>(v: Env<S>, n: nat)
    requires Proper(v)
    ensures After(v, n).deadline.Some? ==> exists k: nat :: ArmedBy(v, n, k)
  {
    if n > 0 {
      ArmedBySome(v, n - 1);
      if Saw(v, n) {
        assert ArmedBy(v, n, n);
      } else if After(v, n).deadline.Some? {
        assert After(v, n).deadline == After(v, n - 1).deadline;
        var k: nat :| ArmedBy(v, n - 1, k);
        TickTimes(v, k, n);
        assert TickTime(v, n - k) != v.window;
        assert ArmedBy(v, n, k);
      }
    }
  }

  ghost predicate RanAt<S(!new)>(v: Env<S>, t: real)
  {
    exists n: nat :: n > 0 && t in Before(v, n).runs
  }

  lemma {:induction false} RunsComeFrom<S>(v: Env<S>, n: nat, t: real) returns (k: nat)
    requires Proper(v) && n > 0 && t in Before(v, n).runs
    ensures t == TickTime(v, k) + v.window && Undisturbed(v, k)
  {
    var w := After(v, n - 1);
    if t in w.runs {
      assert n - 1 > 0;
      k := RunsComeFrom(v, n - 1, t);
    } else {
      ArmedBySome(v, n - 1);
      k :| ArmedBy(v, n - 1, k);
      forall j: nat | k < j && TickTime(v, j - k) < v.window ensures !Saw(v, j) {
        TickTimes(v, k, j);
        TickTimes(v, j, n);
      }
    }
  }

  lemma {:induction false} StaysArmed<S>(v: Env<S>, k: nat, m: nat)
    requires Proper(v) && Undisturbed(v, k) && TickTime(v, m) < v.window
    ensures ArmedBy(v, k + m, k)
  {
    if m > 0 {
      TickTimes(v, m - 1, m);
      StaysArmed(v, k, m - 1);
      TickTimes(v, k, k + m);
    }
  }

  lemma Scale(p: real, x: real, y: real)
    requires p > 0.0
    ensures x <= y ==> x * p <= y * p
    ensures x < y ==> x * p < y * p
  {
    var d := y - x;
    assert y * p == x * p + d * p;
    if d > 0.0 {
      assert d * p > 0.0;
    }
  }

  /** How many polls fit into one window. */
  lemma WholePolls<S>(v: Env<S>) returns (m: nat)
    requires Proper(v)
    ensures TickTime(v, m) < v.window < TickTime(v, m + 1)
  {
    var q := v.window / v.poll;
    m := q.Floor;
    assert q * v.poll == v.window;
    assert q < (m + 1) as real;
    Scale(v.poll, m as real, q);
    Scale(v.poll, q, (m + 1) as real);
    assert TickTime(v, m) != v.window;
  }

  /** The callback runs at a moment exactly when that moment ends the window of a tick that
      saw a change, and no tick within the window saw one. */
  lemma ReloadTimes<S(!new)>(v: Env<S>, t: real)
    requires Proper(v)
    ensures RanAt(v, t) <==> exists k: nat :: t == TickTime(v, k) + v.window && Undisturbed(v, k)
  {
    if RanAt(v, t) {
      var n: nat :| n > 0 && t in Before(v, n).runs;
      var k := RunsComeFrom(v, n, t);
    }
    if k: nat :| t == TickTime(v, k) + v.window && Undisturbed(v, k) {
      var m := WholePolls(v);
      StaysArmed(v, k, m);
      TickTimes(v, k, k + m + 1);
      assert t in Before(v, k + m + 1).runs;
    }
  }

  /** No reload is run twice, and they come in order. */
  lemma {:induction false} RunsInOrder<S>(v: Env<S>, n: nat)
    requires Proper(v)
    ensures var w := After(v, n);
            && (forall i, j :: 0 <= i < j < |w.runs| ==> w.runs[i] < w.runs[j])
            && (forall i :: 0 <= i < |w.runs| ==> w.runs[i] < TickTime(v, n))
            && (w.deadline.Some? ==> TickTime(v, n) <= w.deadline.value)
  {
    if n > 0 {
      RunsInOrder(v, n - 1);
      TickTimes(v, n - 1, n);
    }
  }

  lemma RunsBefore<S>(v: Env<S>, k: nat, i: nat)
    requires Proper(v) && k > 0 && i < |Before(v, k).runs|
    ensures Before(v, k).runs[i] < TickTime(v, k)
  {
    RunsInOrder(v, k - 1);
    TickTimes(v, k - 1, k);
  }

  // With polls further apart than the window, every difference is acted on at once.

  /** A difference seen by tick `k` starts a reload exactly one window later. */
  lemma PromptReload<S(!new)>(v: Env<S>, k: nat)
    requires Proper(v) && v.poll > v.window && Saw(v, k)
    ensures RanAt(v, TickTime(v, k) + v.window)
  {
    assert TickTime(v, 1) == v.poll;
    forall d: nat | d > 0 ensures TickTime(v, d) > v.window {
      TickTimes(v, 1, d);
    }
    assert Undisturbed(v, k);
    ReloadTimes(v, TickTime(v, k) + v.window);
  }

  /** With polls further apart than a window and a reload, every reload is over by the next tick. */
  lemma {:induction false} KnownSettles<S>(v: Env<S>, runs: seq<real>, now: real, later: real)
    requires forall i :: 0 <= i < |runs| ==> runs[i] + v.duration <= now
    requires now <= later
    ensures Known(v, runs, later) == Known(v, runs, now)
  {
    if runs != [] {
      KnownSettles(v, runs[..|runs| - 1], now, later);
    }
  }

  lemma EarlierReloadsOver<S>(v: Env<S>, k: nat)
    requires Proper(v) && v.poll > v.window + v.duration && k > 0
    ensures forall i :: 0 <= i < |Before(v, k).runs| ==> Before(v, k).runs[i] + v.duration <= TickTime(v, k)
  {
    forall i | 0 <= i < |Before(v, k).runs| ensures Before(v, k).runs[i] + v.duration <= TickTime(v, k) {
      var j := RunsComeFrom(v, k, Before(v, k).runs[i]);
      RunsBefore(v, k, i);
      TickTimes(v, j, k);
      TickTimes(v, j + 1, k);
      TickTimes(v, j, j + 1);
      assert TickTime(v, 1) == v.poll;
    }
  }

  /** What the watcher knows at the tick after a difference was seen. */
  lemma AfterReload<S>(v: Env<S>, k: nat)
    requires Proper(v) && v.poll > v.window + v.duration && Saw(v, k)
    ensures var t := TickTime(v, k) + v.window;
            Known(v, Before(v, k + 1).runs, TickTime(v, k + 1))
            == if v.ok(t) then v.cluster(t + v.duration) else Known(v, Before(v, k).runs, TickTime(v, k))
  {
    TickTimes(v, k, k + 1);
    assert TickTime(v, 1) == v.poll;
    EarlierReloadsOver(v, k);
    KnownSettles(v, Before(v, k).runs, TickTime(v, k), TickTime(v, k + 1));
    assert TickTime(v, k) + v.window + v.duration < TickTime(v, k + 1);
    var runs := Before(v, k).runs;
    assert After(v, k) == Watch(Some(TickTime(v, k) + v.window), runs);
    assert Before(v, k + 1) == Watch(None, runs + [TickTime(v, k) + v.window]);
    assert (runs + [TickTime(v, k) + v.window])[..|runs|] == runs;
  }

  /** A reload that fails is tried again by the next tick, and one that succeeds is not,
      as long as the cluster stays as it is. */
  lemma FailedReloadRetried<S(!new)>(v: Env<S>, k: nat)
    requires Proper(v) && v.poll > v.window + v.duration && Saw(v, k)
    requires v.cluster(TickTime(v, k + 1)) == v.cluster(TickTime(v, k) + v.window + v.duration) == v.cluster(TickTime(v, k))
    ensures RanAt(v, TickTime(v, k + 1) + v.window) <==> !v.ok(TickTime(v, k) + v.window)
  {
    AfterReload(v, k);
    if Saw(v, k + 1) {
      PromptReload(v, k + 1);
    } else {
      ReloadTimes(v, TickTime(v, k + 1) + v.window);
      if j: nat :| TickTime(v, k + 1) + v.window == TickTime(v, j) + v.window && Undisturbed(v, j) {
        TickTimes(v, k + 1, j);
        TickTimes(v, j, k + 1);
      }
    }
  }

  /** With a window longer than the poll interval, a difference that every tick sees keeps
      putting the reload off: none runs until one window after the last of these ticks. */
  lemma StarvedReload<S(!new)>(v: Env<S>, k: nat, n: nat, t: real)
    requires Proper(v) && v.window > v.poll && k <= n
    requires forall j: nat :: k <= j <= n ==> Saw(v, j)
    requires TickTime(v, k) < t < TickTime(v, n) + v.window
    ensures !RanAt(v, t)
  {
    ReloadTimes(v, t);
    if m: nat :| t == TickTime(v, m) + v.window && Undisturbed(v, m) {
      TickTimes(v, m, n);
      var j := if m < k then k else m + 1;
      TickTimes(v, m, j);
      assert TickTime(v, 1) == v.poll;
      assert !Saw(v, j);
    }
  }

  // Whether two reloads can run at once.

  /** Some reload starts while another is running. */
  ghost predicate Overlap<S(!new)>(v: Env<S>)
  {
    exists t, u :: RanAt(v, t) && RanAt(v, u) && t < u < t + v.duration
  }

  /** `m` whole polls fit into a window. */
  ghost predicate Fits<S>(v: Env<S>, m: nat)
  {
    TickTime(v, m) < v.window < TickTime(v, m + 1)
  }

  /** Reloads start at least `m + 1` polls apart. */
  lemma RunsApart<S(!new)>(v: Env<S>, m: nat, t: real, u: real)
    requires Proper(v) && Fits(v, m) && RanAt(v, t) && RanAt(v, u) && t < u
    ensures u - t >= TickTime(v, m + 1)
  {
    ReloadTimes(v, t);
    ReloadTimes(v, u);
    var j: nat :| t == TickTime(v, j) + v.window && Undisturbed(v, j);
    var k: nat :| u == TickTime(v, k) + v.window && Undisturbed(v, k);
    TickTimes(v, j, k);
    assert j < k && !(TickTime(v, k - j) < v.window);
    EnoughPolls(v, m, k - j);
  }

  /** Polls that cover the window are at least `m + 1`. */
  lemma EnoughPolls<S>(v: Env<S>, m: nat, d: nat)
    requires v.poll > 0.0 && Fits(v, m) && TickTime(v, d) >= v.window
    ensures TickTime(v, d) >= TickTime(v, m + 1)
  {
    TickTimes(v, m, d);
    TickTimes(v, d, m + 1);
  }

  /** A cluster that looks different at tick 1 and again at tick `m + 2`, and at no other moment. */
  function Flicker<S>(poll: real, m: nat, a: S, b: S): real -> S
  {
    t => if t == poll || t == (m + 2) as real * poll then b else a
  }

  lemma SameTick<S>(v: Env<S>, j: int, k: int)
    requires v.poll > 0.0
    ensures TickTime(v, j) == TickTime(v, k) <==> j == k
  {
    TickTimes(v, j, k);
    TickTimes(v, k, j);
  }

  lemma FlickerAt<S(!new)>(v: Env<S>, m: nat, a: S, b: S, k: nat)
    requires v.poll > 0.0 && v.cluster == Flicker(v.poll, m, a, b)
    ensures v.cluster(TickTime(v, k)) == if k == 1 || k == m + 2 then b else a
  {
    SameTick(v, k, 1);
    SameTick(v, k, m + 2);
    assert TickTime(v, 1) == v.poll;
  }

  /** Until the first reload is over the watcher knows the first state, so it sees the differences at
      the two ticks and at no tick within their windows. */
  lemma FlickerSeen<S(!new)>(v: Env<S>, m: nat, a: S, b: S, k: nat)
    requires Proper(v) && Fits(v, m) && a != b && v.cluster == Flicker(v.poll, m, a, b)
    requires v.duration > TickTime(v, m + 1)
    requires 0 < k && TickTime(v, k) < TickTime(v, m + 2) + v.window
    ensures Saw(v, k) <==> k == 1 || k == m + 2
  {
    NothingKnown(v, m, a, b, k);
    FlickerAt(v, m, a, b, k);
  }

  lemma NothingKnown<S(!new)>(v: Env<S>, m: nat, a: S, b: S, k: nat)
    requires Proper(v) && Fits(v, m) && a != b && v.cluster == Flicker(v.poll, m, a, b)
    requires v.duration > TickTime(v, m + 1)
    requires 0 < k && TickTime(v, k) < TickTime(v, m + 2) + v.window
    ensures Known(v, Before(v, k).runs, TickTime(v, k)) == a
  {
    forall i | 0 <= i < |Before(v, k).runs| ensures Before(v, k).runs[i] + v.duration > TickTime(v, k) {
      StillRunning(v, m, k, Before(v, k).runs[i]);
    }
    NoneOver(v, Before(v, k).runs, TickTime(v, k));
    FlickerAt(v, m, a, b, 0);
    assert TickTime(v, 0) == 0.0;
  }

  lemma StillRunning<S(!new)>(v: Env<S>, m: nat, k: nat, t: real)
    requires Proper(v) && v.duration > TickTime(v, m + 1)
    requires 0 < k && TickTime(v, k) < TickTime(v, m + 2) + v.window && t in Before(v, k).runs
    ensures t + v.duration > TickTime(v, k)
  {
    var j := RunsComeFrom(v, k, t);
    assert j >= 1;
    TickTimes(v, 1, j);
    TickTimes(v, j, 1);
    TickTimes(v, 1, m + 2);
  }

  lemma {:induction false} NoneOver<S>(v: Env<S>, runs: seq<real>, now: real)
    requires forall i :: 0 <= i < |runs| ==> runs[i] + v.duration > now
    ensures Known(v, runs, now) == v.cluster(0.0)
  {
    if runs != [] {
      NoneOver(v, runs[..|runs| - 1], now);
    }
  }

  /** Reloads that take longer than `m + 1` polls overlap in that history. */
  lemma FlickerOverlaps<S(!new)>(v: Env<S>, m: nat, a: S, b: S)
    requires Proper(v) && Fits(v, m) && a != b && v.cluster == Flicker(v.poll, m, a, b)
    requires v.duration > TickTime(v, m + 1)
    ensures Overlap(v)
  {
    var first, second := TickTime(v, 1) + v.window, TickTime(v, m + 2) + v.window;
    TickTimes(v, 1, m + 2);
    FlickerUndisturbed(v, m, a, b, 1);
    FlickerUndisturbed(v, m, a, b, m + 2);
    ReloadTimes(v, first);
    ReloadTimes(v, second);
  }

  lemma FlickerUndisturbed<S(!new)>(v: Env<S>, m: nat, a: S, b: S, k: nat)
    requires Proper(v) && Fits(v, m) && a != b && v.cluster == Flicker(v.poll, m, a, b)
    requires v.duration > TickTime(v, m + 1)
    requires k == 1 || k == m + 2
    ensures Undisturbed(v, k)
  {
    TickTimes(v, k, m + 2);
    FlickerSeen(v, m, a, b, k);
    forall j: nat | k < j && TickTime(v, j - k) < v.window ensures !Saw(v, j) {
      TickTimes(v, k, j);
      TickTimes(v, j - k, m + 1);
      TickTimes(v, m + 1, j - k);
      FlickerSeen(v, m, a, b, j);
    }
  }

  /** The timing of a watcher, whatever the cluster does. */
  ghost predicate Timed<S>(v: Env<S>, poll: real, window: real, duration: real)
  {
    v.poll == poll && v.window == window && v.duration == duration && Proper(v)
  }

  lemma ShortReloadsApart<S(!new)>(v: Env<S>, m: nat)
    requires Proper(v) && Fits(v, m) && v.duration <= TickTime(v, m + 1)
    ensures !Overlap(v)
  {
    forall t, u | RanAt(v, t) && RanAt(v, u) && t < u ensures u >= t + v.duration {
      RunsApart(v, m, t, u);
    }
  }

  lemma SameTiming<S>(v: Env<S>, w: Env<S>, m: nat)
    requires Proper(v) && Fits(v, m) && w.poll == v.poll && w.window == v.window && w.duration == v.duration
    ensures Proper(w) && Fits(w, m) && TickTime(w, m + 1) == TickTime(v, m + 1)
  {
    assert forall k: int :: TickTime(w, k) == TickTime(v, k);
  }

  /** No two reloads ever run at once, whatever happens to the cluster and whichever reloads fail, if
      and only if a reload takes no longer than the `m + 1` polls of which `m` fit into a window. */
  lemma NoOverlapExactly<S(!new)>(v: Env<S>, m: nat, a: S, b: S)
    requires Proper(v) && Fits(v, m) && a != b
    ensures (forall w: Env<S> :: Timed(w, v.poll, v.window, v.duration) ==> !Overlap(w))
            <==> v.duration <= TickTime(v, m + 1)
  {
    if v.duration <= TickTime(v, m + 1) {
      forall w: Env<S> | Timed(w, v.poll, v.window, v.duration) ensures !Overlap(w) {
        SameTiming(v, w, m);
        ShortReloadsApart(w, m);
      }
    } else {
      var w := v.(cluster := Flicker(v.poll, m, a, b));
      SameTiming(v, w, m);
      FlickerOverlaps(w, m, a, b);
      assert Timed(w, v.poll, v.window, v.duration);
    }
  }
}
