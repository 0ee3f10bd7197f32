/** How often refreshes of one instance can start. */
module Throttle {
  import opened Basics
  import opened Durations
  import opened CertCache
  import opened RefreshProtocol
  import opened RefreshInvariant
  import opened RefreshTheorems

  /** Refresh k is one of this instance and started within [lo, hi]. */
  predicate StartedWithin(r: Refresh, instance: string, lo: int, hi: int) {
    r.instance == instance && lo <= r.startedAt <= hi
  }

  /** How many of the first n refreshes started for the instance within [lo, hi]. */
  function CountStarts(refreshes: seq<Refresh>, n: nat, instance: string, lo: int, hi: int): nat
    requires n <= |refreshes|
  {
    if n == 0 then 0
    else CountStarts(refreshes, n - 1, instance, lo, hi)
         + (if StartedWithin(refreshes[n - 1], instance, lo, hi) then 1 else 0)
  }

  /** Consecutive starts of an instance are at least one throttle period apart. */
  lemma {:induction false} StartsAreSpaced(s: State, j: nat, k: nat)
    requires Reachable(s) && j < k < |s.refreshes| && 0 < s.settings.Throttle()
    requires s.refreshes[j].instance == s.refreshes[k].instance
    ensures s.refreshes[k].startedAt - s.refreshes[j].startedAt >= s.settings.Throttle()
  {
    ReachableInv(s);
    assert Spaced(s, j, k);
  }

  /** All counted starts but the last fit into the time before any later start. */
  lemma {:induction false} CountFitsBefore(s: State, n: nat, instance: string, lo: int, hi: int)
    requires LimitersOk(s) && n <= |s.refreshes| && 0 < s.settings.Throttle()
    ensures forall k {:trigger s.refreshes[k]} ::
      n <= k < |s.refreshes| && StartedWithin(s.refreshes[k], instance, lo, hi) ==>
      CountStarts(s.refreshes, n, instance, lo, hi) * s.settings.Throttle() <= s.refreshes[k].startedAt - lo
  {
    if n > 0 {
      CountFitsBefore(s, n - 1, instance, lo, hi);
      forall k | n <= k < |s.refreshes| && StartedWithin(s.refreshes[k], instance, lo, hi)
        ensures CountStarts(s.refreshes, n, instance, lo, hi) * s.settings.Throttle() <= s.refreshes[k].startedAt - lo
      {
        assert Spaced(s, n - 1, k);
        if StartedWithin(s.refreshes[n - 1], instance, lo, hi) {
          var m := CountStarts(s.refreshes, n - 1, instance, lo, hi);
          assert (m + 1) * s.settings.Throttle() == m * s.settings.Throttle() + s.settings.Throttle();
        }
      }
    }
  }

  lemma {:induction false} CountFitsWindow(s: State, n: nat, instance: string, lo: int, hi: int)
    requires LimitersOk(s) && n <= |s.refreshes| && 0 < s.settings.Throttle() && lo <= hi
    ensures var m := CountStarts(s.refreshes, n, instance, lo, hi);
      m > 0 ==> (m - 1) * s.settings.Throttle() <= hi - lo
  {
    if n > 0 {
      CountFitsWindow(s, n - 1, instance, lo, hi);
      CountFitsBefore(s, n - 1, instance, lo, hi);
      assert s.refreshes[n - 1] == s.refreshes[n - 1];
    }
  }

  /** In any window of length W at most 1 + W / throttle refreshes of an instance start. */
  lemma {:induction false} ThrottleBound(s: State, instance: string, lo: int, window: nat)
    requires Reachable(s) && 0 < s.settings.Throttle()
    ensures CountStarts(s.refreshes, |s.refreshes|, instance, lo, lo + window) <= 1 + window / s.settings.Throttle()
  {
    ReachableInv(s);
    var m := CountStarts(s.refreshes, |s.refreshes|, instance, lo, lo + window);
    CountFitsWindow(s, |s.refreshes|, instance, lo, lo + window);
    QuotientBound(m, s.settings.Throttle(), window);
  }

  lemma {:induction false} ProductGrows(a: int, b: int, t: nat)
    requires a <= b
    ensures a * t <= b * t
  {
  }

  lemma {:induction false} QuotientBound(m: nat, t: int, window: nat)
    requires 0 < t && (m > 0 ==> (m - 1) * t <= window)
    ensures m <= 1 + window / t
  {
    var w := window / t;
    if w + 1 < m {
      ProductGrows(w + 1, m - 1, t);
      assert false;
    }
  }

  // ---------- When a refresh starts ----------

  ghost predicate StartedAt(s: State, instance: string, at: int) {
    exists k :: 0 <= k < |s.refreshes| && s.refreshes[k].instance == instance && s.refreshes[k].startedAt == at
  }

  /** A limiter remembers nothing but the start of a refresh. */
  ghost predicate TokensAreStarts(s: State) {
    forall i :: i in s.limiters && s.limiters[i].lastAllowed.Some? ==>
      StartedAt(s, i, s.limiters[i].lastAllowed.value)
  }

  lemma {:induction false} StartedAtGrows(s: State, s': State, instance: string, at: int)
    requires Grows(s, s') && StartedAt(s, instance, at)
    ensures StartedAt(s', instance, at)
  {
    var k :| 0 <= k < |s.refreshes| && s.refreshes[k].instance == instance && s.refreshes[k].startedAt == at;
    assert RefreshGrows(s.refreshes[k], s'.refreshes[k]);
  }

  /** The locked section spends a token only together with starting a refresh. */
  lemma {:induction false} RecheckTokens(s: State, c: nat, i: string)
    requires Enabled(s, Recheck(c)) && i in RecheckStep(s, c).limiters
    ensures var s' := RecheckStep(s, c);
      || s'.limiters[i].lastAllowed.None?
      || (i in s.limiters && s'.limiters[i].lastAllowed == s.limiters[i].lastAllowed)
      || (|s'.refreshes| == |s.refreshes| + 1 && s'.refreshes[|s.refreshes|].instance == i
          && s'.limiters[i].lastAllowed == Some(s'.refreshes[|s.refreshes|].startedAt))
  {
  }

  lemma {:induction false} TokensStep(s: State, e: Event)
    requires TokensAreStarts(s) && Enabled(s, e)
    ensures TokensAreStarts(Step(s, e))
  {
    var s' := Step(s, e);
    StepGrows(s, e);
    forall i | i in s'.limiters && s'.limiters[i].lastAllowed.Some?
      ensures StartedAt(s', i, s'.limiters[i].lastAllowed.value)
    {
      if e.Recheck? {
        RecheckTokens(s, e.c, i);
      } else {
        OnlyRecheckTakesTokens(s, e);
      }
      if i in s.limiters && s'.limiters[i].lastAllowed == s.limiters[i].lastAllowed {
        StartedAtGrows(s, s', i, s.limiters[i].lastAllowed.value);
      }
    }
  }

  lemma {:induction false} OnlyRecheckTakesTokens(s: State, e: Event)
    requires Enabled(s, e) && !e.Recheck?
    ensures Step(s, e).limiters == s.limiters
  {
  }

  lemma {:induction false} TokensRun(s: State, events: seq<Event>)
    requires TokensAreStarts(s) && IsRun(s, events)
    ensures TokensAreStarts(After(s, events))
    decreases |events|
  {
    if events != [] {
      TokensStep(s, events[0]);
      TokensRun(Step(s, events[0]), events[1..]);
    }
  }

  /** Refresh k of the instance started less than a throttle period ago. */
  predicate RecentStart(s: State, k: nat, instance: string) {
    && k < |s.refreshes|
    && s.refreshes[k].instance == instance
    && s.now < s.refreshes[k].startedAt + s.settings.Throttle()
  }

  /** The limiter refuses exactly while some start of the instance is less than a throttle period ago. */
  lemma {:induction false} ThrottledIffRecentStart(s: State, instance: string)
    requires Reachable(s)
    ensures LimiterOf(s, instance).Allows(s.now)
       <==> forall k :: 0 <= k < |s.refreshes| ==> !RecentStart(s, k, instance)
  {
    var settings, now, events :|
      IsRun(Init(settings, now), events) && After(Init(settings, now), events) == s;
    TokensRun(Init(settings, now), events);
    ReachableInv(s);
    forall k | 0 <= k < |s.refreshes| && RecentStart(s, k, instance)
      ensures !LimiterOf(s, instance).Allows(s.now)
    {
      assert LimiterOk(s, k);
    }
    if !LimiterOf(s, instance).Allows(s.now) {
      var at := s.limiters[instance].lastAllowed.value;
      assert StartedAt(s, instance, at);
      var k :| 0 <= k < |s.refreshes| && s.refreshes[k].instance == instance && s.refreshes[k].startedAt == at;
      assert RecentStart(s, k, instance);
    }
  }

  /** An instance that was never refreshed has no configuration; one that was has a channel. */
  lemma {:induction false} ChannelIffRefreshed(s: State, instance: string)
    requires Reachable(s)
    ensures var e := Lookup(s.cache, instance);
      && (e.done.Some? <==> exists k :: 0 <= k < |s.refreshes| && s.refreshes[k].instance == instance)
      && (e.cfg.Some? ==> e.done.Some?)
  {
    ReachableInv(s);
    StoredChannelIsOwn(s, |s.log|, instance);
    ConfigProvenance(s, |s.log|, instance);
    forall k | 0 <= k < |s.refreshes| && s.refreshes[k].instance == instance
      ensures Lookup(s.cache, instance).done.Some?
    {
      assert LimiterOk(s, k);
    }
  }

  ghost predicate NoneInFlight(s: State, instance: string) {
    forall k: nat :: InFlight(s, k) ==> s.refreshes[k].instance != instance
  }

  lemma {:induction false} ClosedIffNoneInFlight(s: State, instance: string)
    requires Reachable(s) && Lookup(s.cache, instance).done.Some?
    ensures IsClosed(s, Lookup(s.cache, instance).done.value)
       <==> NoneInFlight(s, instance)
  {
    ReachableInv(s);
    StoredChannelIsOwn(s, |s.log|, instance);
    forall k: nat | InFlight(s, k) && s.refreshes[k].instance == instance
      ensures !IsClosed(s, Lookup(s.cache, instance).done.value)
    {
      assert RefreshOk(s, k);
    }
  }

  /** The entry needs a refresh, once none is in flight. */
  lemma {:induction false} NeedsRefreshIff(s: State, instance: string)
    requires Reachable(s)
    ensures var e := Lookup(s.cache, instance);
      StillNeedsRefresh(s, e) <==>
        && NoneInFlight(s, instance)
        && (e.cfg.None? || e.err.Some? || Sub(e.cfg.value.notAfter, s.now) <= s.settings.Buffer())
  {
    ChannelIffRefreshed(s, instance);
    if Lookup(s.cache, instance).done.Some? {
      ClosedIffNoneInFlight(s, instance);
    }
  }

  lemma {:induction false} RecheckStarts(s: State, c: nat)
    requires Enabled(s, Recheck(c))
    ensures var s' := RecheckStep(s, c);
      var i := s.callers[c].instance;
      if StillNeedsRefresh(s, Lookup(s.cache, i)) && LimiterOf(s, i).Allows(s.now)
      then s'.refreshes == s.refreshes + [Refresh(i, s.now, Queued, Pending, 0)]
      else s'.refreshes == s.refreshes
  {
  }

  /**
   * The locked section of `cachedCfg` starts a refresh exactly when none of the instance is in
   * flight, none started less than a throttle period ago, and the instance has no usable
   * configuration or one that expires within the buffer.
   */
  lemma {:induction false} StartsIff(s: State, c: nat)
    requires Reachable(s) && Enabled(s, Recheck(c))
    ensures var i := s.callers[c].instance;
      var e := Lookup(s.cache, i);
      Step(s, Recheck(c)).refreshes ==
        if && NoneInFlight(s, i)
           && (forall k :: 0 <= k < |s.refreshes| ==> !RecentStart(s, k, i))
           && (e.cfg.None? || e.err.Some? || Sub(e.cfg.value.notAfter, s.now) <= s.settings.Buffer())
        then s.refreshes + [Refresh(i, s.now, Queued, Pending, 0)]
        else s.refreshes
  {
    var i := s.callers[c].instance;
    ThrottledIffRecentStart(s, i);
    NeedsRefreshIff(s, i);
    RecheckStarts(s, c);
  }
}
