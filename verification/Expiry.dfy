/** When `cachedCfg` hands out a configuration that has expired, or is about to. */
module Expiry {
  import opened Basics
  import opened Durations
  import opened CertCache
  import opened RefreshProtocol
  import opened RefreshInvariant
  import opened RefreshTheorems

  /** The steps after which `cachedCfg` may return, without a wait or after one. */
  predicate MayReturn(e: Event) {
    e.Check? || e.Recheck? || e.Reread?
  }

  /** The step returns to its caller a configuration that is expired at that instant. */
  predicate ReturnsExpired(s: State, e: Event)
    requires Enabled(s, e) && MayReturn(e)
  {
    var pc := Step(s, e).callers[e.c].pc;
    pc.Returned? && pc.handed.result.cfg.Some? && IsExpired(pc.handed.result.cfg, s.now)
  }

  /** The entry on which the step decides. */
  function DecidesOn(s: State, e: Event): Entry
    requires Enabled(s, e) && MayReturn(e)
  {
    if e.Check? then s.callers[e.c].pc.seen else Lookup(s.cache, s.callers[e.c].instance)
  }

  predicate RefreshPending(s: State, done: Option<nat>) {
    done.Some? && InFlight(s, done.value)
  }

  /** The configuration expires within the buffer. */
  predicate NearExpiry(s: State, cfg: Config) {
    Sub(cfg.notAfter, s.now) <= s.settings.Buffer()
  }

  lemma {:induction false} DecidesOnOwnChannel(s: State, e: Event)
    requires Inv(s) && Enabled(s, e) && MayReturn(e)
    ensures var done := DecidesOn(s, e).done;
      done.Some? ==> OwnChannel(s, s.callers[e.c].instance, done)
  {
    if e.Check? {
      assert CallerOk(s, s.callers[e.c]);
      StoredChannelIsOwn(s, s.callers[e.c].pc.seenAt, s.callers[e.c].instance);
    } else {
      StoredChannelIsOwn(s, |s.log|, s.callers[e.c].instance);
    }
  }

  /**
   * Without a wait an expired configuration is returned exactly when the entry at hand is valid and
   * expired and, before the lock is taken, no new refresh is due: one is pending already, or a
   * negative buffer puts the renewal off. A valid entry is then returned at once.
   */
  lemma {:induction false} ReturnsExpiredIff(s: State, e: Event)
    requires Reachable(s) && Enabled(s, e) && (e.Check? || e.Recheck?)
    ensures var seen := DecidesOn(s, e);
      ReturnsExpired(s, e) <==>
        && IsValid(seen)
        && IsExpired(seen.cfg, s.now)
        && (e.Recheck? || RefreshPending(s, seen.done) || (seen.done.Some? && !NearExpiry(s, seen.cfg.value)))
  {
    ReachableInv(s);
    DecidesOnOwnChannel(s, e);
  }

  /**
   * Whoever gets, without a wait, a configuration that expires within the buffer gets it while its
   * renewal is in flight on the channel of the entry, or because the limiter forbids a new refresh.
   */
  lemma {:induction false} NearExpiryIsBeingRenewed(s: State, e: Event)
    requires Reachable(s) && Enabled(s, e) && (e.Check? || e.Recheck?)
    requires Step(s, e).callers[e.c].pc.Returned?
    requires NearExpiry(s, Step(s, e).callers[e.c].pc.handed.result.cfg.value)
    ensures var s' := Step(s, e);
      var instance := s.callers[e.c].instance;
      var done := s'.callers[e.c].pc.handed.result.done;
      || (RefreshPending(s', done) && Lookup(s'.cache, instance).done == done)
      || (e.Recheck? && !LimiterOf(s, instance).Allows(s.now))
  {
    ReachableInv(s);
    DecidesOnOwnChannel(s, e);
    var done := DecidesOn(s, e).done;
    if RefreshPending(s, done) {
      assert RefreshOk(s, done.value);
    }
  }

  lemma {:induction false} ConfigCommittedSince(s: State, a: nat, b: nat, instance: string)
    requires Inv(s) && a <= b <= |s.log| && EntryAt(s.log, a, instance).cfg.None?
    ensures var e := EntryAt(s.log, b, instance);
      e.cfg.Some? ==> e.cfg.value.id < |s.refreshes| && a <= s.refreshes[e.cfg.value.id].commitAt < b
    decreases b
  {
    if a < b {
      ConfigCommittedSince(s, a, b - 1, instance);
      assert WriteOk(s, b - 1);
      if s.log[b - 1].kind.CommittedBy? {
        assert RefreshOk(s, s.log[b - 1].kind.refresh);
      }
    }
  }

  /**
   * Whoever waited gets a configuration whose refresh committed after the wait began. So if it has
   * expired on return, its certificate ran out, or arrived expired, while the caller waited.
   */
  lemma {:induction false} WaiterGetsNewConfig(s: State, c: nat)
    requires Reachable(s) && c < |s.callers| && s.callers[c].pc.Returned?
    requires s.callers[c].pc.handed.waited.Some? && s.callers[c].pc.handed.result.cfg.Some?
    ensures var Handed(result, at, Some(wait)) := s.callers[c].pc.handed;
      var k := result.cfg.value.id;
      && IsOutputOf(s, s.callers[c].instance, result, k)
      && wait.since <= s.refreshes[k].commitAt < at <= |s.log|
      && s.log[s.refreshes[k].commitAt].kind == CommittedBy(k)
      && s.log[s.refreshes[k].commitAt].at <= s.now
  {
    ReachableInv(s);
    assert CallerOk(s, s.callers[c]);
    var Caller(instance, _, _, Returned(Handed(result, at, Some(wait)))) := s.callers[c];
    EntryShape(s, wait.since, instance);
    ConfigCommittedSince(s, wait.since, at, instance);
    ConfigProvenance(s, at, instance);
    assert RefreshOk(s, result.cfg.value.id);
  }
}
