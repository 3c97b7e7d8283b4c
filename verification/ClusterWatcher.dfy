/** The cluster watcher's fields and the regions of code that run under its mutex, proved
    to take the steps of WatcherProtocol. */
module ClusterWatcher {
  import opened Options
  import opened WatcherProtocol

  /** What one look at the cluster yields: the sorted API groups, and whether it is
      OpenShift. */
  datatype Cluster = Cluster(apiGroups: seq<string>, isOpenShift: bool)

  /** The comparison a poll makes. */
  method Changed(current: Cluster, last: Cluster) returns (changed: bool)
    ensures changed <==> current != last
  {
    changed := current.isOpenShift != last.isOpenShift || |current.apiGroups| != |last.apiGroups|;
    if !changed {
      for i := 0 to |current.apiGroups|
        invariant !changed && current.apiGroups[..i] == last.apiGroups[..i]
      {
        if current.apiGroups[i] != last.apiGroups[i] {
          changed := true;
          break;
        }
        assert current.apiGroups[..i + 1] == current.apiGroups[..i] + [current.apiGroups[i]];
        assert last.apiGroups[..i + 1] == last.apiGroups[..i] + [last.apiGroups[i]];
      }
      assert !changed ==> current.apiGroups == current.apiGroups[..|current.apiGroups|]
                          && last.apiGroups == last.apiGroups[..|last.apiGroups|];
    }
  }

  class ClusterState {
    var started: bool
    var lastKnownState: Cluster
    var debounceTimer: Option<nat>
    var stopCh: nat
    var stoppedCh: nat

    // The runtime's side: channels, goroutines, blocked calls of Close, and timers.
    var closes: seq<nat>
    var pollers: seq<Poller>
    var closers: seq<Closer>
    var timers: seq<Timer>

    constructor (blank: Cluster)
      ensures View() == Init(blank) && Inv(View())
    {
      started, lastKnownState, debounceTimer := false, blank, None;
      stopCh, stoppedCh, closes := 0, 1, [0, 0];
      pollers, closers, timers := [], [], [];
    }

    function View(): State<Cluster>
      reads this
    {
      State(started, lastKnownState, stopCh, stoppedCh, closes, pollers, closers, timers, debounceTimer)
    }

    /** Watch, up to the point where it starts the goroutine. */
    method Watch(captured: Cluster)
      requires Inv(View())
      modifies this
      ensures View() == Next(old(View()), Event.Watch(captured)) && Inv(View())
      ensures started && lastKnownState == if old(started) then old(lastKnownState) else captured
    {
      StepKeepsInv(View(), Event.Watch(captured));
      if started {
        return;
      }
      started := true;
      lastKnownState := captured;
      pollers := pollers + [Spawning];
    }

    method StopDebounceTimer()
      requires Inv(View())
      modifies `timers
      ensures View() == StopTimer(old(View()))
    {
      if debounceTimer.Some? && timers[debounceTimer.value].Armed? {
        timers := timers[debounceTimer.value := Stopped];
      }
    }

    /** A tick, from taking the mutex to letting go of it. */
    method Poll(p: nat, current: Cluster)
      requires Inv(View()) && Enabled(View(), Event.Poll(p, current))
      modifies this
      ensures View() == Next(old(View()), Event.Poll(p, current)) && Inv(View())
      ensures IsArmed(View(), old(|timers|)) <==> current != old(lastKnownState)
    {
      StepKeepsInv(View(), Event.Poll(p, current));
      var changed := Changed(current, lastKnownState);
      if changed {
        StopDebounceTimer();
        timers := timers + [Armed];
        debounceTimer := Some(|timers| - 1);
      }
      pollers := pollers[p := AtSelect(pollers[p].stopped)];
    }

    /** The end of a reload. */
    method ReloadReturned(t: nat, ok: bool, captured: Cluster)
      requires Inv(View()) && Enabled(View(), Return(t, ok, captured))
      modifies this
      ensures View() == Next(old(View()), Return(t, ok, captured)) && Inv(View())
      ensures lastKnownState == if ok then captured else old(lastKnownState)
    {
      StepKeepsInv(View(), Return(t, ok, captured));
      timers := timers[t := Returned];
      if ok {
        lastKnownState := captured;
      }
    }

    /** Close, up to the point where it returns or lets go of the mutex to wait. */
    method CloseFirstHalf() returns (waits: bool)
      requires Inv(View())
      modifies this
      ensures View() == Next(old(View()), CloseBegin) && Inv(View())
      ensures forall t: nat :: !IsArmed(View(), t)
      ensures waits <==> old(started) && !IsClosed(old(View()), old(stopCh))
    {
      StepKeepsInv(View(), CloseBegin);
      StopDebounceTimer();
      if !started {
        return false;
      }
      if closes[stopCh] > 0 {
        return false;
      }
      closes := closes[stopCh := closes[stopCh] + 1];
      closers := closers + [Unlocked];
      return true;
    }

    /** Close after its wait, with the mutex taken again. */
    method CloseSecondHalf(c: nat)
      requires Inv(View()) && Enabled(View(), CloseEnd(c))
      modifies this
      ensures View() == Next(old(View()), CloseEnd(c)) && Inv(View())
      ensures !started && !IsClosed(View(), stopCh) && !IsClosed(View(), stoppedCh)
    {
      StepKeepsInv(View(), CloseEnd(c));
      closers := closers[c := Finished];
      started := false;
      stopCh, stoppedCh := |closes|, |closes| + 1;
      closes := closes + [0, 0];
    }
  }
}
