/** Refreshes always run to their end, so no wait on a channel is lost. */
module RefreshProgress {
  import opened Basics
  import opened CertCache
  import opened RefreshProtocol
  import opened RefreshInvariant
  import opened RefreshTheorems

  /** How many steps the refreshes have left to take, at most. */
  function Remaining(refreshes: seq<Refresh>): nat {
    if refreshes == [] then 0
    else Remaining(refreshes[..|refreshes| - 1]) + Closed.Rank() - refreshes[|refreshes| - 1].phase.Rank()
  }

  ghost predicate AllRefreshEvents(events: seq<Event>) {
    forall n :: 0 <= n < |events| ==> IsRefreshEvent(events[n])
  }

  ghost predicate Quiescent(s: State) {
    forall k :: 0 <= k < |s.refreshes| ==> s.refreshes[k].phase.Closed?
  }

  lemma {:induction false} RemainingAfterUpdate(refreshes: seq<Refresh>, k: nat, r: Refresh)
    requires k < |refreshes|
    ensures Remaining(refreshes[k := r]) == Remaining(refreshes) + refreshes[k].phase.Rank() - r.phase.Rank()
  {
    var last := |refreshes| - 1;
    if k == last {
      assert refreshes[k := r][..last] == refreshes[..last];
    } else {
      RemainingAfterUpdate(refreshes[..last], k, r);
      assert refreshes[k := r][..last] == refreshes[..last][k := r];
    }
  }

  /** Every step of a refresh goroutine brings the refreshes closer to their end. */
  lemma {:induction false} RefreshStepDecreases(s: State, e: Event)
    requires Enabled(s, e) && IsRefreshEvent(e)
    ensures Remaining(Step(s, e).refreshes) < Remaining(s.refreshes)
  {
    RemainingAfterUpdate(s.refreshes, e.k, Step(s, e).refreshes[e.k]);
  }

  /**
   * A refresh in flight can step, or it queues for the API lock and the holder can; a fetch can end
   * with any answer.
   */
  lemma {:induction false} SomeRefreshCanStep(s: State, k: nat) returns (e: Event)
    requires Inv(s) && InFlight(s, k)
    ensures IsRefreshEvent(e) && Enabled(s, e)
    ensures e.k == k || (s.refreshes[k].phase.Queued? && s.lockHolder == Some(e.k))
    ensures e.Fetch? ==> forall answer :: IsAnswer(e.k, answer) ==> Enabled(s, Fetch(e.k, answer))
  {
    assert RefreshOk(s, k);
    match s.refreshes[k].phase {
      case Queued =>
        if s.lockHolder.None? {
          e := Acquire(k);
        } else {
          assert RefreshOk(s, s.lockHolder.value);
          e := Fetch(s.lockHolder.value, Failed(""));
        }
      case Fetching => e := Fetch(k, Failed(""));
      case Ready => e := Commit(k);
      case Committed => e := Plan(k);
      case Finishing => e := Close(k);
    }
  }

  /** How many events of the run are steps of refresh k. */
  function OwnSteps(events: seq<Event>, k: nat): nat {
    if events == [] then 0
    else (if IsRefreshEvent(events[0]) && events[0].k == k then 1 else 0) + OwnSteps(events[1..], k)
  }

  lemma {:induction false} OwnStepAdvances(s: State, e: Event)
    requires Enabled(s, e) && IsRefreshEvent(e)
    ensures e.k < |s.refreshes| && s.refreshes[e.k].phase.Rank() < Step(s, e).refreshes[e.k].phase.Rank()
  {
  }

  /**
   * Whatever else happens in between, a refresh never falls back and every step of its own brings
   * it closer to closing its channel: at most five of them lead there.
   */
  lemma {:induction false} AwaitedRefreshAdvances(s: State, events: seq<Event>, k: nat)
    requires IsRun(s, events) && k < |s.refreshes|
    ensures k < |After(s, events).refreshes|
    ensures s.refreshes[k].phase.Rank() + OwnSteps(events, k) <= After(s, events).refreshes[k].phase.Rank()
    decreases |events|
  {
    if events != [] {
      StepGrows(s, events[0]);
      if IsRefreshEvent(events[0]) {
        OwnStepAdvances(s, events[0]);
      }
      assert RefreshGrows(s.refreshes[k], Step(s, events[0]).refreshes[k]);
      AwaitedRefreshAdvances(Step(s, events[0]), events[1..], k);
    }
  }

  /** However the refresh goroutines are scheduled, they take no more than the remaining steps. */
  lemma {:induction false} DrainIsBounded(s: State, events: seq<Event>)
    requires AllRefreshEvents(events) && IsRun(s, events)
    ensures |events| + Remaining(After(s, events).refreshes) <= Remaining(s.refreshes)
    decreases |events|
  {
    if events != [] {
      RefreshStepDecreases(s, events[0]);
      DrainIsBounded(Step(s, events[0]), events[1..]);
    }
  }

  /** No refresh can step. */
  ghost predicate Drained(s: State) {
    forall e :: IsRefreshEvent(e) ==> !Enabled(s, e)
  }

  lemma {:induction false} DrainedIsQuiescent(s: State)
    requires Inv(s) && Drained(s)
    ensures Quiescent(s)
  {
    forall k | 0 <= k < |s.refreshes|
      ensures s.refreshes[k].phase.Closed?
    {
      if !s.refreshes[k].phase.Closed? {
        var e := SomeRefreshCanStep(s, k);
        assert false;
      }
    }
  }

  /** Where the refreshes can go no further, every channel is closed. */
  lemma {:induction false} StuckMeansQuiescent(s: State)
    requires Reachable(s) && Drained(s)
    ensures Quiescent(s)
  {
    ReachableInv(s);
    DrainedIsQuiescent(s);
  }

  lemma {:induction false} Drain(s: State) returns (events: seq<Event>)
    requires Inv(s)
    ensures AllRefreshEvents(events) && IsRun(s, events) && Quiescent(After(s, events))
    decreases Remaining(s.refreshes)
  {
    if k :| 0 <= k < |s.refreshes| && !s.refreshes[k].phase.Closed? {
      var e := SomeRefreshCanStep(s, k);
      RefreshStepDecreases(s, e);
      StepInv(s, e);
      var rest := Drain(Step(s, e));
      events := [e] + rest;
      assert events[1..] == rest;
    } else {
      events := [];
    }
  }

  lemma {:induction false} RefreshEventFrame(s: State, e: Event)
    requires Enabled(s, e) && IsRefreshEvent(e)
    ensures |Step(s, e).refreshes| == |s.refreshes| && s.callers <= Step(s, e).callers
  {
  }

  lemma {:induction false} DrainFrame(s: State, events: seq<Event>)
    requires AllRefreshEvents(events) && IsRun(s, events)
    ensures |After(s, events).refreshes| == |s.refreshes| && s.callers <= After(s, events).callers
    decreases |events|
  {
    if events != [] {
      RefreshEventFrame(s, events[0]);
      DrainFrame(Step(s, events[0]), events[1..]);
    }
  }

  /**
   * A waiting caller is never stranded: in whatever order the refresh goroutines run on their own,
   * and whatever their fetches bring, once they can go no further the caller can receive.
   */
  lemma {:induction false} WaiterIsReleased(s: State, c: nat, events: seq<Event>)
    requires Reachable(s) && c < |s.callers| && s.callers[c].pc.Waiting?
    requires AllRefreshEvents(events) && IsRun(s, events) && Drained(After(s, events))
    ensures |events| <= Remaining(s.refreshes)
    ensures Enabled(After(s, events), Receive(c))
  {
    ReachableInv(s);
    NeverWaitsOnNil(s, c);
    RunInv(s, events);
    DrainIsBounded(s, events);
    DrainFrame(s, events);
    DrainedIsQuiescent(After(s, events));
  }

  /** Such a run exists from every reachable state. */
  lemma {:induction false} CanDrain(s: State) returns (events: seq<Event>)
    requires Reachable(s)
    ensures AllRefreshEvents(events) && IsRun(s, events) && Drained(After(s, events))
  {
    ReachableInv(s);
    events := Drain(s);
    var s' := After(s, events);
    forall e | IsRefreshEvent(e)
      ensures !Enabled(s', e)
    {
    }
  }
}
