/** The mutable client: its critical sections, proved against the steps of the refresh protocol. */
module CacheClient {
  import opened Basics
  import opened Durations
  import opened CertCache
  import opened RefreshProtocol
  import opened RefreshInvariant

  /** After the locked section a caller goes on with the entry that is now cached. */
  lemma {:induction false} RecheckSeesCache(s: State, c: nat)
    requires c < |s.callers|
    ensures var s' := RecheckStep(s, c);
      s'.callers[c].pc == AfterLookup(Lookup(s'.cache, s.callers[c].instance), |s'.log|)
  {
  }

  /**
   * The fields that the two locks protect, and the channels. `None` is a nil map. The goroutines
   * themselves (their program counters and locals) live in `model`, the protocol state this
   * object implements; a method takes the locals of the goroutine that runs it as arguments.
   */
  class Client {
    const settings: Settings
    var cfgCache: Option<Cache>
    var limiters: Option<map<string, Limiter>>
    var closed: seq<bool>
    ghost var model: State

    ghost predicate Valid()
      reads this
    {
      Inv(model) && Implements(model)
    }

    /** The fields hold what the protocol state says they hold. */
    ghost predicate Implements(s: State)
      reads this`cfgCache, this`limiters, this`closed
    {
      && s.settings == settings
      && s.cacheMade == cfgCache.Some? == limiters.Some?
      && s.cache == Entries()
      && s.limiters == Limiters()
      && ChannelsMatch(s)
    }

    /** A nil map reads like an empty one. */
    ghost function Entries(): Cache
      reads this`cfgCache
    {
      if cfgCache.Some? then cfgCache.value else map[]
    }

    ghost function Limiters(): map<string, Limiter>
      reads this`limiters
    {
      if limiters.Some? then limiters.value else map[]
    }

    ghost predicate ChannelsMatch(s: State)
      reads this`closed
    {
      && |closed| == |s.refreshes|
      && (forall d :: 0 <= d < |closed| ==> closed[d] == s.refreshes[d].phase.Closed?)
    }

    constructor (settings: Settings, ghost now: int)
      ensures Valid() && model == Init(settings, now)
    {
      this.settings := settings;
      cfgCache, limiters, closed := None, None, [];
      model := Init(settings, now);
      InitInv(settings, now);
    }

    /** Goroutines, timers and the clock move without touching the fields of the client. */
    ghost method Elsewhere(e: Event)
      requires Valid() && Enabled(model, e) && !Writes(e) && !e.Close?
      modifies this`model
      ensures Valid() && model == Step(old(model), e)
    {
      StepInv(model, e);
      QuietStep(model, e);
      model := Step(model, e);
    }

    /** A read of the possibly nil map. */
    method Get(instance: string) returns (e: Entry)
      ensures e == Lookup(Entries(), instance)
    {
      e := ZERO_ENTRY;
      if cfgCache.Some? && instance in cfgCache.value {
        e := cfgCache.value[instance];
      }
    }

    /** The first section of `cachedCfg`. */
    method Read(ghost c: nat, instance: string) returns (e: Entry)
      requires Valid() && Enabled(model, RefreshProtocol.Read(c)) && model.callers[c].instance == instance
      modifies this`model
      ensures Valid() && model == Step(old(model), RefreshProtocol.Read(c))
      ensures model.callers[c].pc == Checking(e, |model.log|)
    {
      e := Get(instance);
      Elsewhere(RefreshProtocol.Read(c));
    }

    /** `needsRefresh`, including the non-blocking receive. */
    method NeedsRefreshNow(ghost s: State, e: Entry, now: int) returns (needed: bool)
      requires ChannelsMatch(s) && s.settings == settings && now == s.now
      requires e.done.Some? ==> e.done.value < |closed|
      ensures needed == StillNeedsRefresh(s, e)
    {
      if e.done.None? {
        return true;
      }
      if e.err.Some? || e.cfg.None? || Sub(e.cfg.value.notAfter, now) <= settings.Buffer() {
        return closed[e.done.value];
      }
      return false;
    }

    /** The unlocked check: either go for the write lock, or go on with the entry that was read. */
    method Check(ghost c: nat, e: Entry, now: int) returns (lock: bool)
      requires Valid() && Enabled(model, RefreshProtocol.Check(c))
      requires model.callers[c].pc.seen == e && model.now == now
      modifies this`model
      ensures Valid() && model == Step(old(model), RefreshProtocol.Check(c))
      ensures lock ==> model.callers[c].pc == Locking
      ensures !lock ==> model.callers[c].pc == AfterLookup(e, old(model).callers[c].pc.seenAt)
    {
      assert CallerOk(model, model.callers[c]);
      StoredChannelIsOwn(model, model.callers[c].pc.seenAt, model.callers[c].instance);
      lock := NeedsRefreshNow(model, e, now);
      Elsewhere(RefreshProtocol.Check(c));
    }

    /** The last read of `cachedCfg`, after the wait. */
    method Reread(ghost c: nat, instance: string) returns (e: Entry)
      requires Valid() && Enabled(model, RefreshProtocol.Reread(c)) && model.callers[c].instance == instance
      modifies this`model
      ensures Valid() && model == Step(old(model), RefreshProtocol.Reread(c))
      ensures model.callers[c].pc == Returned(Handed(e, |model.log|, Some(old(model).callers[c].pc.wait)))
    {
      e := Get(instance);
      Elsewhere(RefreshProtocol.Reread(c));
    }

    /** Makes sure that both maps exist and that the instance has a limiter. */
    method EnsureLimiter(instance: string) returns (limiter: Limiter)
      modifies this`cfgCache, this`limiters
      ensures cfgCache == Some(old(Entries()))
      ensures limiters == Some(old(Limiters())[instance := limiter])
      ensures var before := old(Limiters());
        limiter == if instance in before then before[instance] else Limiter(settings.Throttle(), None)
    {
      if cfgCache.None? {
        cfgCache := Some(map[]);
      }
      if limiters.None? {
        limiters := Some(map[]);
      }
      if instance !in limiters.value {
        limiters := Some(limiters.value[instance := Limiter(settings.Throttle(), None)]);
      }
      limiter := limiters.value[instance];
      assert limiters.value == old(Limiters())[instance := limiter];
    }

    /** The body of the locked section of `cachedCfg`, on the fields alone. */
    method StartIfNeeded(ghost s: State, ghost c: nat, instance: string, now: int)
      returns (e: Entry, started: Option<nat>)
      requires Implements(s) && c < |s.callers| && s.callers[c].instance == instance && s.now == now
      requires var d := Lookup(s.cache, instance).done; d.Some? ==> d.value < |s.refreshes|
      modifies this`cfgCache, this`limiters, this`closed
      ensures Implements(RecheckStep(s, c))
      ensures e == Lookup(Entries(), instance)
      ensures closed == old(closed) + (if started.Some? then [false] else [])
      ensures started.Some? ==> e.done == started
    {
      var limiter := EnsureLimiter(instance);
      e := Get(instance);
      started := None;
      var needed := NeedsRefreshNow(s, e, now);
      assert e == Lookup(s.cache, instance) && limiter == LimiterOf(s, instance);
      if needed && limiter.Allows(now) {
        limiters := Some(limiters.value[instance := limiter.(lastAllowed := Some(now))]);
        started := Some(|closed|);
        closed := closed + [false];
        e := e.(done := started, lastRefreshed := now);
        cfgCache := Some(cfgCache.value[instance := e]);
      }
    }

    /** The locked section of `cachedCfg`; `started` is the channel of the refresh it kicked off. */
    method Recheck(ghost c: nat, instance: string, now: int) returns (e: Entry, started: Option<nat>)
      requires Valid() && Enabled(model, RefreshProtocol.Recheck(c))
      requires model.callers[c].instance == instance && model.now == now
      modifies this
      ensures Valid() && model == Step(old(model), RefreshProtocol.Recheck(c))
      ensures model.callers[c].pc == AfterLookup(e, |model.log|)
      ensures started.Some? <==> |model.refreshes| == |old(model).refreshes| + 1
      ensures started.Some? ==> e.done == started
    {
      StoredChannelIsOwn(model, |model.log|, instance);
      StepInv(model, RefreshProtocol.Recheck(c));
      RecheckSeesCache(model, c);
      e, started := StartIfNeeded(model, c, instance, now);
      model := Step(model, RefreshProtocol.Recheck(c));
    }

    /** The locked section of a refresh. Assigning to a nil map would panic; `Valid` rules it out. */
    method Commit(k: nat, instance: string, outcome: Outcome, now: int) returns (e: Entry)
      requires Valid() && Enabled(model, RefreshProtocol.Commit(k))
      requires model.refreshes[k].instance == instance && model.refreshes[k].outcome == outcome && model.now == now
      modifies this
      ensures Valid() && model == Step(old(model), RefreshProtocol.Commit(k))
      ensures model.log == old(model).log + [Write(instance, now, e, CommittedBy(k))]
    {
      StepInv(model, RefreshProtocol.Commit(k));
      var prior := Get(instance);
      var addr, cfg, version, err := "", None, "", None;
      match outcome {
        case Obtained(a, c, v) => addr, cfg, version := a, Some(c), v;
        case Failed(f) =>
          err := Some(f);
          if prior.cfg.Some? && now <= prior.cfg.value.notAfter {
            addr, cfg, version, err := prior.addr, prior.cfg, prior.version, prior.err;
          }
      }
      e := Entry(now, err, addr, version, cfg, Some(k));
      cfgCache := Some(cfgCache.value[instance := e]);
      model := Step(model, RefreshProtocol.Commit(k));
    }

    /** Plans the timer for the configuration of the committed entry; `wake` is when it fires. */
    method Plan(k: nat, cfg: Config, now: int) returns (wake: int)
      requires Valid() && Enabled(model, RefreshProtocol.Plan(k)) && model.now == now
      requires model.log[model.refreshes[k].commitAt].entry.cfg == Some(cfg)
      modifies this`model
      ensures Valid() && model == Step(old(model), RefreshProtocol.Plan(k))
      ensures var timer := Caller(model.refreshes[k].instance, true, false, Sleeping(wake, cfg, now));
        model.callers == old(model).callers + [timer]
    {
      var timeToRefresh := Minus(Sub(cfg.notAfter, now), settings.Buffer());
      if timeToRefresh <= 0 {
        timeToRefresh := Minus(Sub(cfg.notAfter, now), 5 * SECOND);
      }
      wake := if timeToRefresh <= 0 then now else now + timeToRefresh;
      Elsewhere(RefreshProtocol.Plan(k));
    }

    /** The deferred close. Closing twice would panic; the channel is proved to be open. */
    method CloseDone(k: nat)
      requires Valid() && Enabled(model, Close(k))
      modifies this
      ensures Valid() && model == Step(old(model), Close(k))
      ensures !old(closed[k]) && closed == old(closed)[k := true]
    {
      StepInv(model, Close(k));
      closed := closed[k := true];
      model := Step(model, Close(k));
    }

    /** The unlocked comparison of `invalidateCfg`. */
    method Compare(ghost c: nat, instance: string, cfg: Option<Config>) returns (same: bool)
      requires Valid() && Enabled(model, RefreshProtocol.Compare(c))
      requires model.callers[c].instance == instance && model.callers[c].pc.handed.result.cfg == cfg
      modifies this`model
      ensures Valid() && model == Step(old(model), RefreshProtocol.Compare(c))
      ensures same <==> model.callers[c].pc.Dropping?
    {
      var e := Get(instance);
      same := e.cfg == cfg;
      Elsewhere(RefreshProtocol.Compare(c));
    }

    /** The locked part of `invalidateCfg`. */
    method Drop(ghost c: nat, instance: string, cfg: Option<Config>) returns (dropped: bool)
      requires Valid() && Enabled(model, RefreshProtocol.Drop(c))
      requires model.callers[c].instance == instance && model.callers[c].pc.handed.result.cfg == cfg
      modifies this
      ensures Valid() && model == Step(old(model), RefreshProtocol.Drop(c))
      ensures dropped <==> Lookup(old(model).cache, instance).cfg == cfg
    {
      StepInv(model, RefreshProtocol.Drop(c));
      assert CallerOk(model, model.callers[c]);
      var e := Get(instance);
      dropped := e.cfg == cfg;
      if dropped {
        cfgCache := Some(cfgCache.value[instance := ZERO_ENTRY.(done := e.done, lastRefreshed := e.lastRefreshed)]);
      }
      model := Step(model, RefreshProtocol.Drop(c));
    }
  }
}
