/** What every run of the refresh protocol guarantees to the callers of `cachedCfg`. */
module RefreshTheorems {
  import opened Basics
  import opened Durations
  import opened CertCache
  import opened RefreshProtocol
  import opened RefreshInvariant

  /** Some interleaving of callers, timers, refreshes and invalidations leads to this state. */
  ghost predicate Reachable(s: State) {
    exists settings, now, events ::
      IsRun(Init(settings, now), events) && After(Init(settings, now), events) == s
  }

  lemma {:induction false} ReachableInv(s: State)
    requires Reachable(s)
    ensures Inv(s)
  {
    var settings, now, events :|
      IsRun(Init(settings, now), events) && After(Init(settings, now), events) == s;
    InitInv(settings, now);
    RunInv(Init(settings, now), events);
  }

  lemma {:induction false} RunExtends(s: State, events: seq<Event>, e: Event)
    requires IsRun(s, events) && Enabled(After(s, events), e)
    ensures IsRun(s, events + [e]) && After(s, events + [e]) == Step(After(s, events), e)
    decreases |events|
  {
    if events == [] {
      assert [e][1..] == [];
    } else {
      RunExtends(Step(s, events[0]), events[1..], e);
      assert (events + [e])[1..] == events[1..] + [e];
    }
  }

  lemma {:induction false} ReachableStep(s: State, e: Event)
    requires Reachable(s) && Enabled(s, e)
    ensures Reachable(Step(s, e))
  {
    var settings, now, events :|
      IsRun(Init(settings, now), events) && After(Init(settings, now), events) == s;
    RunExtends(Init(settings, now), events, e);
  }

  // ---------- Single flight ----------

  /** Refresh k has been started and has not closed its channel yet. */
  predicate InFlight(s: State, k: nat) {
    k < |s.refreshes| && !s.refreshes[k].phase.Closed?
  }

  /** An instance has at most one refresh in flight, and its channel is the cached one. */
  lemma {:induction false} SingleFlight(s: State, j: nat, k: nat)
    requires Reachable(s)
    requires InFlight(s, j) && InFlight(s, k) && s.refreshes[j].instance == s.refreshes[k].instance
    ensures j == k && Lookup(s.cache, s.refreshes[k].instance).done == Some(k)
  {
    ReachableInv(s);
    assert RefreshOk(s, j) && RefreshOk(s, k);
  }

  /** No step, not even the one that closes it, takes an open channel out of the cache. */
  lemma {:induction false} OpenChannelStaysCached(s: State, e: Event, k: nat)
    requires Reachable(s) && Enabled(s, e) && InFlight(s, k)
    ensures Lookup(Step(s, e).cache, s.refreshes[k].instance).done == Some(k)
  {
    ReachableInv(s);
    assert RefreshOk(s, k);
    if e == Close(k) {
      QuietStep(s, e);
    } else {
      RefreshesPreserved(s, e);
      StepGrows(s, e);
      assert RefreshOk(Step(s, e), k);
      StaysInFlight(s, e, k);
    }
  }

  lemma {:induction false} StaysInFlight(s: State, e: Event, k: nat)
    requires Enabled(s, e) && InFlight(s, k) && e != Close(k)
    ensures InFlight(Step(s, e), k)
  {
  }

  // ---------- No lost waits, no panics ----------

  /**
   * A waiting caller waits on a channel that a refresh of its own instance made, and only because
   * the entry it saw, which held that channel, was not usable.
   */
  lemma {:induction false} NeverWaitsOnNil(s: State, c: nat)
    requires Reachable(s) && c < |s.callers| && s.callers[c].pc.Waiting?
    ensures OwnChannel(s, s.callers[c].instance, s.callers[c].pc.done)
    ensures var Caller(instance, _, _, Waiting(done, at)) := s.callers[c];
      at <= |s.log| && !IsValid(EntryAt(s.log, at, instance)) && EntryAt(s.log, at, instance).done == done
  {
    ReachableInv(s);
    assert CallerOk(s, s.callers[c]);
  }

  /** A spent token comes with a channel to wait on. */
  lemma {:induction false} ThrottledMeansStarted(s: State, instance: string)
    requires Reachable(s) && !LimiterOf(s, instance).Allows(s.now)
    ensures Lookup(s.cache, instance).done.Some?
  {
    ReachableInv(s);
  }

  /** Both sections that store without first creating the map find it already created. */
  lemma {:induction false} NilMapNeverWritten(s: State, e: Event)
    requires Reachable(s) && Enabled(s, e) && (e.Commit? || e.Drop?)
    ensures s.cacheMade
  {
    ReachableInv(s);
    if e.Drop? {
      assert CallerOk(s, s.callers[e.c]);
    }
  }

  /** A caller keeps what it was called with. */
  lemma {:induction false} CallerKeepsItsCall(s: State, e: Event, c: nat)
    requires Enabled(s, e) && c < |s.callers|
    ensures c < |Step(s, e).callers|
    ensures Step(s, e).callers[c] == s.callers[c].(pc := Step(s, e).callers[c].pc)
  {
  }

  lemma {:induction false} CallIsKept(s: State, events: seq<Event>, c: nat)
    requires IsRun(s, events) && c < |s.callers|
    ensures c < |After(s, events).callers|
    ensures After(s, events).callers[c] == s.callers[c].(pc := After(s, events).callers[c].pc)
    decreases |events|
  {
    if events != [] {
      CallerKeepsItsCall(s, events[0], c);
      CallIsKept(Step(s, events[0]), events[1..], c);
    }
  }

  /** In every run, whoever arrives can give up exactly while it waits, unless its context never ends. */
  lemma {:induction false} CanGiveUpIff(s: State, instance: string, background: bool, dials: bool, events: seq<Event>)
    requires IsRun(Step(s, Arrive(instance, background, dials)), events)
    ensures var s', c := After(Step(s, Arrive(instance, background, dials)), events), |s.callers|;
      && c < |s'.callers|
      && s'.callers[c].instance == instance
      && s'.callers[c].dials == dials
      && (Enabled(s', Cancel(c)) <==> s'.callers[c].pc.Waiting? && !background)
  {
    CallIsKept(Step(s, Arrive(instance, background, dials)), events, |s.callers|);
  }

  /** A caller that gives up its wait is gone for good. */
  lemma {:induction false} CancelledStays(s: State, c: nat, events: seq<Event>)
    requires Enabled(s, Cancel(c)) && IsRun(Step(s, Cancel(c)), events)
    ensures c < |After(Step(s, Cancel(c)), events).callers|
    ensures After(Step(s, Cancel(c)), events).callers[c] == s.callers[c].(pc := Cancelled)
  {
    CancelledRun(Step(s, Cancel(c)), c, events);
  }

  lemma {:induction false} CancelledRun(s: State, c: nat, events: seq<Event>)
    requires c < |s.callers| && s.callers[c].pc.Cancelled? && IsRun(s, events)
    ensures c < |After(s, events).callers| && After(s, events).callers[c] == s.callers[c]
    decreases |events|
  {
    if events != [] {
      CancelledStep(s, events[0], c);
      CancelledRun(Step(s, events[0]), c, events[1..]);
    }
  }

  lemma {:induction false} CancelledStep(s: State, e: Event, c: nat)
    requires c < |s.callers| && s.callers[c].pc.Cancelled? && Enabled(s, e)
    ensures c < |Step(s, e).callers| && Step(s, e).callers[c] == s.callers[c]
  {
  }

  // ---------- No needless refreshes ----------

  /**
   * Every start finds either no earlier refresh of the instance, or one that has committed and
   * closed its channel while the entry is unusable or expires within the buffer.
   */
  lemma {:induction false} NoNeedlessRefresh(s: State, n: nat)
    requires Reachable(s) && n < |s.log| && s.log[n].kind.StartedBy?
    ensures var prior := EntryAt(s.log, n, s.log[n].instance);
      prior.done.Some? ==>
        && IsClosed(s, prior.done.value)
        && s.refreshes[prior.done.value].commitAt < n
        && (prior.cfg.None? || prior.err.Some? || Sub(prior.cfg.value.notAfter, s.log[n].at) <= s.settings.Buffer())
    ensures s.log[n].entry.Payload() == EntryAt(s.log, n, s.log[n].instance).Payload()
  {
    ReachableInv(s);
    assert WriteOk(s, n);
  }

  // ---------- Freshness ----------

  /**
   * A caller that received from a channel returns the cache as it stood after the commit of the
   * refresh that owns the channel, or after some later write.
   */
  lemma {:induction false} WaiterFreshness(s: State, c: nat)
    requires Reachable(s) && c < |s.callers|
    requires s.callers[c].pc.Returned? && s.callers[c].pc.handed.waited.Some?
    ensures var Caller(instance, _, _, Returned(Handed(result, at, Some(Wait(d, _))))) := s.callers[c];
      && IsClosed(s, d)
      && s.refreshes[d].instance == instance
      && s.refreshes[d].commitAt < at <= |s.log|
      && s.log[s.refreshes[d].commitAt].kind == CommittedBy(d)
      && s.log[s.refreshes[d].commitAt].instance == instance
      && result == EntryAt(s.log, at, instance)
  {
    ReachableInv(s);
    assert CallerOk(s, s.callers[c]);
    assert RefreshOk(s, s.callers[c].pc.handed.waited.value.done);
  }

  /** The caller's wait is over and it is about to read the cache again, or it was handed what it read. */
  predicate HandedAfter(pc: Pc, wait: Wait) {
    match pc
    case Rereading(w) => w == wait
    case Returned(handed) => handed.waited == Some(wait)
    case Comparing(handed) => handed.waited == Some(wait)
    case Dropping(handed) => handed.waited == Some(wait)
    case Stopped(handed) => handed.waited == Some(wait)
    case _ => false
  }

  lemma {:induction false} HandedAfterStep(s: State, e: Event, c: nat, wait: Wait)
    requires Enabled(s, e) && c < |s.callers| && HandedAfter(s.callers[c].pc, wait)
    ensures c < |Step(s, e).callers| && HandedAfter(Step(s, e).callers[c].pc, wait)
  {
  }

  lemma {:induction false} HandedAfterRun(s: State, events: seq<Event>, c: nat, wait: Wait)
    requires IsRun(s, events) && c < |s.callers| && HandedAfter(s.callers[c].pc, wait)
    ensures c < |After(s, events).callers| && HandedAfter(After(s, events).callers[c].pc, wait)
    decreases |events|
  {
    if events != [] {
      HandedAfterStep(s, events[0], c, wait);
      HandedAfterRun(Step(s, events[0]), events[1..], c, wait);
    }
  }

  /** In every run, whoever receives from its channel goes on to return what it then reads from the cache. */
  lemma {:induction false} ReceiverIsHanded(s: State, c: nat, events: seq<Event>)
    requires Enabled(s, Receive(c)) && IsRun(Step(s, Receive(c)), events)
    ensures c < |After(Step(s, Receive(c)), events).callers|
    ensures HandedAfter(After(Step(s, Receive(c)), events).callers[c].pc,
                        Wait(s.callers[c].pc.done.value, s.callers[c].pc.waitAt))
  {
    HandedAfterRun(Step(s, Receive(c)), events, c, Wait(s.callers[c].pc.done.value, s.callers[c].pc.waitAt));
  }

  // ---------- Result shape ----------

  /** The last write for the instance that settled its payload: a commit or an invalidation. */
  function LastSettled(log: seq<Write>, n: nat, instance: string): (m: Option<nat>)
    requires n <= |log|
    ensures m.Some? ==> m.value < n && log[m.value].instance == instance && !log[m.value].kind.StartedBy?
  {
    if n == 0 then None
    else if log[n - 1].instance == instance && !log[n - 1].kind.StartedBy? then Some(n - 1)
    else LastSettled(log, n - 1, instance)
  }

  predicate IsCommit(s: State, m: nat) {
    m < |s.log| && s.log[m].kind.CommittedBy?
  }

  /** A commit leaves exactly one of configuration and error; an invalidation leaves neither. */
  lemma {:induction false} EntryShape(s: State, n: nat, instance: string)
    requires Inv(s) && n <= |s.log|
    ensures var e := EntryAt(s.log, n, instance);
      match LastSettled(s.log, n, instance)
      case None => e.cfg.None? && e.err.None?
      case Some(m) =>
        && e.Payload() == s.log[m].entry.Payload()
        && (if IsCommit(s, m) then e.cfg.Some? <==> e.err.None? else e.cfg.None? && e.err.None?)
    ensures EntryAt(s.log, n, instance).cfg.Some? <==> EntryAt(s.log, n, instance).addr != ""
  {
    if n > 0 {
      EntryShape(s, n - 1, instance);
      assert WriteOk(s, n - 1);
      if s.log[n - 1].kind.CommittedBy? {
        assert RefreshOk(s, s.log[n - 1].kind.refresh);
      }
    }
  }

  lemma {:induction false} CommitSettles(s: State, m: nat, n: nat, instance: string)
    requires IsCommit(s, m) && m < n <= |s.log| && s.log[m].instance == instance
    ensures LastSettled(s.log, n, instance).Some?
    decreases n
  {
    if n - 1 != m {
      CommitSettles(s, m, n - 1, instance);
    }
  }

  predicate IsNeither(e: Entry) {
    e.cfg.None? && e.err.None?
  }

  /** Whether an invalidation hit the instance after its last commit among the first n writes. */
  predicate InvalidatedSinceCommit(s: State, n: nat, instance: string)
    requires n <= |s.log|
  {
    var m := LastSettled(s.log, n, instance);
    m.Some? && !IsCommit(s, m.value)
  }

  /** `cachedCfg` returns neither configuration nor error exactly when it saw an invalidated entry. */
  lemma {:induction false} ReturnsNeitherIffInvalidated(s: State, c: nat)
    requires Reachable(s) && c < |s.callers| && s.callers[c].pc.Returned?
    ensures s.callers[c].pc.handed.at <= |s.log|
    ensures IsNeither(s.callers[c].pc.handed.result)
       <==> InvalidatedSinceCommit(s, s.callers[c].pc.handed.at, s.callers[c].instance)
    ensures s.callers[c].pc.handed.result.cfg.None? || s.callers[c].pc.handed.result.err.None?
  {
    ReachableInv(s);
    var caller := s.callers[c];
    assert CallerOk(s, caller);
    EntryShape(s, caller.pc.handed.at, caller.instance);
    if caller.pc.handed.waited.Some? {
      WaiterFreshness(s, c);
      CommitSettles(s, s.refreshes[caller.pc.handed.waited.value.done].commitAt, caller.pc.handed.at, caller.instance);
    }
  }

  /** The step is the failure of a handshake for this instance. */
  predicate FailsFor(s: State, e: Event, instance: string) {
    e.HandshakeFails? && e.c < |s.callers| && s.callers[e.c].instance == instance
  }

  /** No handshake for the instance fails along the run. */
  ghost predicate HandshakesSucceed(s: State, events: seq<Event>, instance: string)
    requires IsRun(s, events)
    decreases |events|
  {
    events == [] ||
    (!FailsFor(s, events[0], instance) && HandshakesSucceed(Step(s, events[0]), events[1..], instance))
  }

  /** Caller c is inside `invalidateCfg`. */
  predicate Invalidating(s: State, c: nat) {
    c < |s.callers| && (s.callers[c].pc.Comparing? || s.callers[c].pc.Dropping?)
  }

  /** The instance was never invalidated, and nobody is about to. */
  ghost predicate Undisturbed(s: State, instance: string) {
    && (forall n :: 0 <= n < |s.log| && s.log[n].instance == instance ==> !s.log[n].kind.InvalidatedFor?)
    && (forall c :: 0 <= c < |s.callers| && s.callers[c].instance == instance ==> !Invalidating(s, c))
  }

  lemma {:induction false} NewcomersAreElsewhere(s: State, e: Event, c: nat)
    requires Enabled(s, e) && |s.callers| <= c
    ensures !Invalidating(Step(s, e), c)
  {
  }

  /** Nobody enters `invalidateCfg` but after a failed handshake. */
  lemma {:induction false} EntersAfterHandshake(s: State, e: Event)
    requires Enabled(s, e) && IsCallerEvent(e) && Invalidating(Step(s, e), e.c)
    ensures s.callers[e.c].instance == Step(s, e).callers[e.c].instance
    ensures e.HandshakeFails? || Invalidating(s, e.c)
  {
    if e.Recheck? {
      RecheckStaysInside(s, e.c);
    }
  }

  lemma {:induction false} RecheckStaysInside(s: State, c: nat)
    requires Enabled(s, Recheck(c))
    ensures !Invalidating(RecheckStep(s, c), c)
  {
  }

  lemma {:induction false} OnlyDropInvalidates(s: State, e: Event)
    requires Enabled(s, e) && |s.log| < |Step(s, e).log|
    ensures Step(s, e).log[|s.log|].kind.InvalidatedFor? ==>
      e.Drop? && s.callers[e.c].instance == Step(s, e).log[|s.log|].instance
  {
  }

  lemma {:induction false} UndisturbedStep(s: State, e: Event, instance: string)
    requires Undisturbed(s, instance) && Enabled(s, e) && !FailsFor(s, e, instance)
    ensures Undisturbed(Step(s, e), instance)
  {
    var s' := Step(s, e);
    AppendsNow(s, e);
    forall n | 0 <= n < |s'.log| && s'.log[n].instance == instance
      ensures !s'.log[n].kind.InvalidatedFor?
    {
      if n < |s.log| {
        assert s'.log[n] == s.log[n];
      } else {
        OnlyDropInvalidates(s, e);
      }
    }
    forall c | 0 <= c < |s'.callers| && s'.callers[c].instance == instance
      ensures !Invalidating(s', c)
    {
      if |s.callers| <= c {
        NewcomersAreElsewhere(s, e, c);
      } else if IsCallerEvent(e) && c == e.c {
        if Invalidating(s', c) {
          EntersAfterHandshake(s, e);
        }
      } else {
        OtherCallersStay(s, e, c);
      }
    }
  }

  lemma {:induction false} UndisturbedRun(s: State, events: seq<Event>, instance: string)
    requires Undisturbed(s, instance) && IsRun(s, events) && HandshakesSucceed(s, events, instance)
    ensures Undisturbed(After(s, events), instance)
    decreases |events|
  {
    if events != [] {
      UndisturbedStep(s, events[0], instance);
      UndisturbedRun(Step(s, events[0]), events[1..], instance);
    }
  }

  /** In a run without a failed handshake for the instance, a nil error comes with a configuration. */
  lemma {:induction false} NoFailedHandshakeNoSurprise(settings: Settings, now: int, events: seq<Event>, c: nat)
    requires IsRun(Init(settings, now), events)
    requires c < |After(Init(settings, now), events).callers|
    requires After(Init(settings, now), events).callers[c].pc.Returned?
    requires HandshakesSucceed(Init(settings, now), events, After(Init(settings, now), events).callers[c].instance)
    ensures var result := After(Init(settings, now), events).callers[c].pc.handed.result;
      result.err.None? <==> result.cfg.Some?
  {
    var s := After(Init(settings, now), events);
    UndisturbedRun(Init(settings, now), events, s.callers[c].instance);
    ReturnsNeitherIffInvalidated(s, c);
  }

  // ---------- Provenance ----------

  /** Refresh k of this instance succeeded with exactly this triple and has committed it. */
  predicate IsOutputOf(s: State, instance: string, e: Entry, k: nat) {
    && k < |s.refreshes|
    && s.refreshes[k].instance == instance
    && HasCommitted(s.refreshes[k])
    && e.cfg.Some?
    && s.refreshes[k].outcome == Obtained(e.addr, e.cfg.value, e.version)
  }

  lemma {:induction false} ConfigProvenance(s: State, n: nat, instance: string)
    requires Inv(s) && n <= |s.log|
    ensures var e := EntryAt(s.log, n, instance);
      e.cfg.Some? ==> IsOutputOf(s, instance, e, e.cfg.value.id) && s.refreshes[e.cfg.value.id].commitAt < n
  {
    if n > 0 {
      ConfigProvenance(s, n - 1, instance);
      assert WriteOk(s, n - 1);
      if s.log[n - 1].kind.CommittedBy? {
        assert RefreshOk(s, s.log[n - 1].kind.refresh);
      }
    }
  }

  /** A cached configuration is the unmixed output of one successful refresh of its instance. */
  lemma {:induction false} CachedProvenance(s: State, instance: string)
    requires Reachable(s) && Lookup(s.cache, instance).cfg.Some?
    ensures var e := Lookup(s.cache, instance); IsOutputOf(s, instance, e, e.cfg.value.id) && e.err.None?
  {
    ReachableInv(s);
    ConfigProvenance(s, |s.log|, instance);
    EntryShape(s, |s.log|, instance);
  }

  /** So is every returned one. */
  lemma {:induction false} ReturnedProvenance(s: State, c: nat)
    requires Reachable(s) && c < |s.callers| && s.callers[c].pc.Returned?
    requires s.callers[c].pc.handed.result.cfg.Some?
    ensures var e := s.callers[c].pc.handed.result; IsOutputOf(s, s.callers[c].instance, e, e.cfg.value.id)
  {
    ReachableInv(s);
    assert CallerOk(s, s.callers[c]);
    ConfigProvenance(s, s.callers[c].pc.handed.at, s.callers[c].instance);
  }

  /** A returned error is the one its instance's last committed refresh failed with. */
  lemma {:induction false} ReturnedErrorProvenance(s: State, c: nat)
    requires Reachable(s) && c < |s.callers| && s.callers[c].pc.Returned?
    requires s.callers[c].pc.handed.result.err.Some?
    ensures s.callers[c].pc.handed.at <= |s.log|
    ensures var m := LastSettled(s.log, s.callers[c].pc.handed.at, s.callers[c].instance);
      && m.Some?
      && IsCommit(s, m.value)
      && s.log[m.value].kind.refresh < |s.refreshes|
      && s.refreshes[s.log[m.value].kind.refresh].outcome == Failed(s.callers[c].pc.handed.result.err.value)
  {
    ReachableInv(s);
    var Caller(instance, _, _, pc) := s.callers[c];
    assert CallerOk(s, s.callers[c]);
    EntryShape(s, pc.handed.at, instance);
    var m := LastSettled(s.log, pc.handed.at, instance).value;
    assert WriteOk(s, m);
    EntryShape(s, m, instance);
  }

  // ---------- Invalidation ----------

  /**
   * An invalidation drops the configuration it was asked to drop, never a newer one, and that is
   * what `cachedCfg` had handed before to a dialing caller of the instance, whose handshake failed.
   */
  lemma {:induction false} InvalidationIsExact(s: State, m: nat)
    requires Reachable(s) && m < |s.log| && s.log[m].kind.InvalidatedFor?
    ensures EntryAt(s.log, m, s.log[m].instance).cfg == s.log[m].kind.cfg
    ensures s.log[m].entry.Payload() == ("", None, "", None)
    ensures s.log[m].entry.done == EntryAt(s.log, m, s.log[m].instance).done
    ensures var c := s.log[m].kind.caller;
      && c < |s.callers|
      && s.callers[c].pc.Stopped?
      && s.callers[c].instance == s.log[m].instance
      && s.callers[c].dials
      && var handed := s.callers[c].pc.handed;
         && handed.at <= m
         && handed.result == EntryAt(s.log, handed.at, s.log[m].instance)
         && handed.result.cfg == s.log[m].kind.cfg
         && handed.result.err.None?
  {
    ReachableInv(s);
    assert WriteOk(s, m);
    assert AskedFor(s, m, s.log[m].kind.caller);
    assert CallerOk(s, s.callers[s.log[m].kind.caller]);
  }

  /**
   * With a dialer that refuses the empty address an invalidation always drops a configuration; so
   * it never wipes out an error.
   */
  lemma {:induction false} DefaultDialerDropsOnlyConfigs(s: State, m: nat)
    requires Reachable(s) && m < |s.log| && s.log[m].kind.InvalidatedFor? && !s.settings.dialsAnyAddress
    ensures s.log[m].kind.cfg.Some? && EntryAt(s.log, m, s.log[m].instance).err.None?
  {
    ReachableInv(s);
    InvalidationIsExact(s, m);
    var c := s.log[m].kind.caller;
    assert CallerOk(s, s.callers[c]);
    EntryShape(s, s.callers[c].pc.handed.at, s.log[m].instance);
    EntryShape(s, m, s.log[m].instance);
  }

  lemma {:induction false} InvalidatedStaysOut(s: State, m: nat, n: nat, instance: string)
    requires Inv(s) && m < n <= |s.log|
    requires s.log[m].kind.InvalidatedFor? && s.log[m].kind.cfg.Some?
    ensures EntryAt(s.log, n, instance).cfg != s.log[m].kind.cfg
    decreases n
  {
    var c := s.log[m].kind.cfg.value;
    assert WriteOk(s, m) && WriteOk(s, n - 1);
    ConfigProvenance(s, m, s.log[m].instance);
    if n - 1 == m {
      ConfigProvenance(s, n, instance);
    } else {
      InvalidatedStaysOut(s, m, n - 1, instance);
      if s.log[n - 1].kind.CommittedBy? {
        assert RefreshOk(s, s.log[n - 1].kind.refresh);
      }
    }
  }

  /** Once invalidated, a configuration is never cached again for any instance. */
  lemma {:induction false} NoResurrection(s: State, m: nat, instance: string)
    requires Reachable(s) && m < |s.log| && s.log[m].kind.InvalidatedFor? && s.log[m].kind.cfg.Some?
    ensures forall n :: m < n <= |s.log| ==> EntryAt(s.log, n, instance).cfg != s.log[m].kind.cfg
    ensures Lookup(s.cache, instance).cfg != s.log[m].kind.cfg
  {
    ReachableInv(s);
    forall n | m < n <= |s.log|
      ensures EntryAt(s.log, n, instance).cfg != s.log[m].kind.cfg
    {
      InvalidatedStaysOut(s, m, n, instance);
    }
    assert Lookup(s.cache, instance) == EntryAt(s.log, |s.log|, instance);
  }

  // ---------- Failed refreshes ----------

  /** Write n is the commit of a failed refresh. */
  predicate IsFailedCommit(s: State, n: nat) {
    && IsCommit(s, n)
    && s.log[n].kind.refresh < |s.refreshes|
    && s.refreshes[s.log[n].kind.refresh].outcome.Failed?
  }

  /** A failure is stored exactly when no unexpired configuration was cached; otherwise all stays. */
  lemma {:induction false} FailureStoredIffNothingUsable(s: State, n: nat)
    requires Reachable(s) && IsFailedCommit(s, n)
    ensures var prior := EntryAt(s.log, n, s.log[n].instance);
      var failure := s.refreshes[s.log[n].kind.refresh].outcome.err;
      && (s.log[n].entry.Payload() == ("", None, "", Some(failure)) <==> IsExpired(prior.cfg, s.log[n].at))
      && (!IsExpired(prior.cfg, s.log[n].at) ==> s.log[n].entry.Payload() == prior.Payload())
  {
    ReachableInv(s);
    assert WriteOk(s, n);
  }

  /** Between positions a and b the instance saw only starts and failures over a live configuration. */
  ghost predicate OnlyHarmlessFailures(s: State, instance: string, a: nat, b: nat)
    requires b <= |s.log|
  {
    forall n :: a <= n < b && s.log[n].instance == instance ==>
      || s.log[n].kind.StartedBy?
      || (IsFailedCommit(s, n) && !IsExpired(EntryAt(s.log, n, instance).cfg, s.log[n].at))
  }

  /** Any number of such failures leaves address, configuration, version and error as they were. */
  lemma {:induction false} FailedRefreshesAreHarmless(s: State, instance: string, a: nat, b: nat)
    requires Reachable(s) && a <= b <= |s.log| && OnlyHarmlessFailures(s, instance, a, b)
    ensures EntryAt(s.log, b, instance).Payload() == EntryAt(s.log, a, instance).Payload()
    decreases b
  {
    ReachableInv(s);
    if a < b {
      FailedRefreshesAreHarmless(s, instance, a, b - 1);
      assert WriteOk(s, b - 1);
    }
  }

  // ---------- Refresh times ----------

  lemma {:induction false} LastRefreshedBounds(s: State, m: nat, n: nat, instance: string)
    requires Inv(s) && m < n <= |s.log| && s.log[m].instance == instance && !s.log[m].kind.InvalidatedFor?
    ensures var e := EntryAt(s.log, n, instance);
      e.done.Some? && s.log[m].at <= e.lastRefreshed <= s.log[n - 1].at
    decreases n
  {
    assert WriteOk(s, n - 1);
    if n - 1 != m {
      LastRefreshedBounds(s, m, n - 1, instance);
      assert s.log[n - 2].at <= s.log[n - 1].at && s.log[m].at <= s.log[n - 1].at;
    }
  }

  /** Every start and commit stamps the entry, and no later entry of the instance has an older stamp. */
  lemma {:induction false} LastRefreshedNeverGoesBack(s: State, m: nat, instance: string)
    requires Reachable(s) && m < |s.log| && s.log[m].instance == instance && !s.log[m].kind.InvalidatedFor?
    ensures s.log[m].entry.lastRefreshed == s.log[m].at
    ensures s.log[m].at <= Lookup(s.cache, instance).lastRefreshed <= s.now
  {
    ReachableInv(s);
    assert WriteOk(s, m);
    LastRefreshedBounds(s, m, |s.log|, instance);
  }
}
