/** What a failed handshake leaves behind once `invalidateCfg` has returned. */
module Invalidation {
  import opened Basics
  import opened CertCache
  import opened RefreshProtocol
  import opened RefreshInvariant
  import opened RefreshTheorems

  /** Once caller c has returned from `invalidateCfg`, its instance does not cache what it was handed. */
  predicate IsGone(s: State, c: nat)
    requires c < |s.callers|
  {
    s.callers[c].pc.Stopped? && s.callers[c].pc.handed.result.cfg.Some? ==>
    Lookup(s.cache, s.callers[c].instance).cfg != s.callers[c].pc.handed.result.cfg
  }

  ghost predicate AllGone(s: State) {
    forall c :: 0 <= c < |s.callers| ==> IsGone(s, c)
  }

  /** A step leaves the configuration of an instance, clears it, or commits the one its refresh built. */
  lemma {:induction false} CfgAfterStep(s: State, e: Event, instance: string)
    requires RefreshesOk(s) && Enabled(s, e)
    ensures var cfg := Lookup(Step(s, e).cache, instance).cfg;
      || cfg == Lookup(s.cache, instance).cfg
      || cfg.None?
      || (e.Commit? && cfg.value.id == e.k)
  {
    if e.Commit? {
      assert RefreshOk(s, e.k);
    } else if !Writes(e) {
      QuietStep(s, e);
    }
  }

  /** A handed configuration was committed before, so it is none that is still to be committed. */
  lemma {:induction false} HandedIsCommitted(s: State, c: Caller, handed: Handed)
    requires Inv(s) && HandedOk(s, c.instance, handed) && handed.result.cfg.Some?
    ensures IsOutputOf(s, c.instance, handed.result, handed.result.cfg.value.id)
  {
    ConfigProvenance(s, handed.at, c.instance);
  }

  lemma {:induction false} StoppedStaysGone(s: State, e: Event, c: nat)
    requires Inv(s) && Enabled(s, e) && c < |s.callers| && s.callers[c].pc.Stopped? && IsGone(s, c)
    ensures c < |Step(s, e).callers| && Step(s, e).callers[c] == s.callers[c] && IsGone(Step(s, e), c)
  {
    var Caller(instance, _, _, Stopped(handed)) := s.callers[c];
    StoppedStays(s, e, c);
    if handed.result.cfg.Some? {
      assert CallerOk(s, s.callers[c]);
      HandedIsCommitted(s, s.callers[c], handed);
      CfgAfterStep(s, e, instance);
    }
  }

  lemma {:induction false} StoppedStays(s: State, e: Event, c: nat)
    requires Enabled(s, e) && c < |s.callers| && s.callers[c].pc.Stopped?
    ensures c < |Step(s, e).callers| && Step(s, e).callers[c] == s.callers[c]
  {
  }

  /** Whoever returns from `invalidateCfg` has just compared, or dropped. */
  lemma {:induction false} NewlyStopped(s: State, e: Event)
    requires Enabled(s, e) && (e.Compare? || e.Drop?)
    ensures IsGone(Step(s, e), e.c)
  {
  }

  lemma {:induction false} OnlyInvalidateStops(s: State, e: Event, c: nat)
    requires Enabled(s, e) && c < |Step(s, e).callers| && Step(s, e).callers[c].pc.Stopped?
    ensures (c < |s.callers| && s.callers[c].pc.Stopped?) || ((e.Compare? || e.Drop?) && e.c == c)
  {
    if e.Recheck? {
      RecheckNeverStops(s, e.c);
    }
  }

  lemma {:induction false} RecheckNeverStops(s: State, c: nat)
    requires Enabled(s, Recheck(c))
    ensures !RecheckStep(s, c).callers[c].pc.Stopped?
  {
  }

  lemma {:induction false} AllGoneStep(s: State, e: Event)
    requires Inv(s) && AllGone(s) && Enabled(s, e)
    ensures AllGone(Step(s, e))
  {
    var s' := Step(s, e);
    forall c | 0 <= c < |s'.callers|
      ensures IsGone(s', c)
    {
      if s'.callers[c].pc.Stopped? {
        OnlyInvalidateStops(s, e, c);
        if c < |s.callers| && s.callers[c].pc.Stopped? {
          StoppedStaysGone(s, e, c);
        } else {
          NewlyStopped(s, e);
        }
      }
    }
  }

  lemma {:induction false} AllGoneRun(s: State, events: seq<Event>)
    requires Inv(s) && AllGone(s) && IsRun(s, events)
    ensures AllGone(After(s, events))
    decreases |events|
  {
    if events != [] {
      StepInv(s, events[0]);
      AllGoneStep(s, events[0]);
      AllGoneRun(Step(s, events[0]), events[1..]);
    }
  }

  /**
   * Once `invalidateCfg` has returned, the configuration whose handshake failed is not cached for
   * any instance, now or later, whoever else was writing meanwhile.
   */
  lemma {:induction false} FailedConfigIsGone(s: State, c: nat, instance: string)
    requires Reachable(s) && c < |s.callers| && s.callers[c].pc.Stopped?
    requires s.callers[c].pc.handed.result.cfg.Some?
    ensures Lookup(s.cache, instance).cfg != s.callers[c].pc.handed.result.cfg
  {
    var settings, now, events :|
      IsRun(Init(settings, now), events) && After(Init(settings, now), events) == s;
    InitInv(settings, now);
    AllGoneRun(Init(settings, now), events);
    assert IsGone(s, c);
    ReachableInv(s);
    assert CallerOk(s, s.callers[c]);
    HandedIsCommitted(s, s.callers[c], s.callers[c].pc.handed);
    ConfigProvenance(s, |s.log|, instance);
  }

  /**
   * A drop that still finds the handed configuration leaves none, no error and no address, with the
   * same channel; one that finds another entry leaves that alone.
   */
  lemma {:induction false} DropClearsIffSame(s: State, c: nat)
    requires Enabled(s, Drop(c))
    ensures var i := s.callers[c].instance;
      var before, after := Lookup(s.cache, i), Lookup(Step(s, Drop(c)).cache, i);
      && after.done == before.done
      && after.lastRefreshed == before.lastRefreshed
      && (if before.cfg == s.callers[c].pc.handed.result.cfg then after.Payload() == ("", None, "", None)
          else after == before)
  {
  }
}
