/** How a renewed configuration gets into the cache, and how the background timer brings that about. */
module Renewal {
  import opened Basics
  import opened Durations
  import opened CertCache
  import opened RefreshProtocol
  import opened RefreshInvariant
  import opened RefreshTheorems
  import opened Throttle
  import Scheduler

  // ---------- What a commit stores ----------

  /** A refresh that succeeded stores what it obtained, whatever was cached before. */
  lemma {:induction false} SuccessIsStored(s: State, n: nat)
    requires Reachable(s) && IsCommit(s, n)
    ensures var k := s.log[n].kind.refresh;
      && k < |s.refreshes|
      && s.log[n].instance == s.refreshes[k].instance
      && s.log[n].entry.done == Some(k)
      && (s.refreshes[k].outcome.Obtained? ==>
            var Obtained(addr, cfg, version) := s.refreshes[k].outcome;
            s.log[n].entry.Payload() == (addr, Some(cfg), version, None))
  {
    ReachableInv(s);
    assert WriteOk(s, n);
  }

  /**
   * The answer to a fetch decides what its refresh commits, in every run: a configuration replaces
   * the cached one, and an error is stored only over a missing or expired one.
   */
  lemma {:induction false} AnswerIsCommitted(s: State, k: nat, answer: Outcome, events: seq<Event>)
    requires Reachable(s) && Enabled(s, Fetch(k, answer)) && IsRun(Step(s, Fetch(k, answer)), events)
    requires k < |After(Step(s, Fetch(k, answer)), events).refreshes|
    requires HasCommitted(After(Step(s, Fetch(k, answer)), events).refreshes[k])
    ensures var s' := After(Step(s, Fetch(k, answer)), events);
      var n := s'.refreshes[k].commitAt;
      && n < |s'.log|
      && s'.log[n].instance == s.refreshes[k].instance
      && s'.log[n].kind == CommittedBy(k)
      && var prior := EntryAt(s'.log, n, s'.log[n].instance);
         match answer
         case Obtained(addr, cfg, version) => s'.log[n].entry.Payload() == (addr, Some(cfg), version, None)
         case Failed(err) =>
           s'.log[n].entry.Payload()
           == if IsExpired(prior.cfg, s'.log[n].at) then ("", None, "", Some(err)) else prior.Payload()
  {
    var s1 := Step(s, Fetch(k, answer));
    ReachableInv(s);
    StepInv(s, Fetch(k, answer));
    RunInv(s1, events);
    var s' := After(s1, events);
    assert RefreshGrows(s1.refreshes[k], s'.refreshes[k]);
    assert RefreshOk(s', k);
    assert WriteOk(s', s'.refreshes[k].commitAt);
  }

  // ---------- The timer ----------

  /** After a commit a timer is due exactly when the stored entry is usable. */
  lemma {:induction false} UsableCommitWantsTimer(s: State, k: nat)
    requires Enabled(s, Commit(k))
    ensures var s' := Step(s, Commit(k));
      var e := Lookup(s'.cache, s.refreshes[k].instance);
      AtPhase(s', k, if e.cfg.Some? && e.err.None? then Committed else Finishing)
  {
  }

  /** The wake-up time asked for while the clock shows `now`, when no subtraction saturates or wraps. */
  function PlannedFor(cfg: Config, now: int, buffer: Duration): int {
    var left := cfg.notAfter - now;
    if buffer < left then cfg.notAfter - buffer else if 5 * SECOND < left then cfg.notAfter - 5 * SECOND else now
  }

  /**
   * A refresh for which a timer is due does not go on without planning one. It is for the committed
   * configuration, and can wake up from the planned time on and not before.
   */
  lemma {:induction false} TimerIsPlanned(s: State, e: Event, k: nat)
    requires Reachable(s) && AtPhase(s, k, Committed) && Enabled(s, e) && !AtPhase(Step(s, e), k, Committed)
    ensures s.refreshes[k].commitAt < |s.log| && IsValid(s.log[s.refreshes[k].commitAt].entry)
    ensures var s' := Step(s, e);
      var c, cfg := |s.callers|, s.log[s.refreshes[k].commitAt].entry.cfg.value;
      && |s'.callers| == c + 1
      && s'.callers[c].instance == s.refreshes[k].instance
      && s'.callers[c].background
      && !s'.callers[c].dials
      && s'.callers[c].pc.Sleeping?
      && s'.callers[c].pc.planned == cfg
      && s'.callers[c].pc.plannedAt == s.now
      && (Scheduler.StaysInRange(cfg.notAfter, s.now, s.settings.Buffer()) ==>
            forall t: nat :: Enabled(Step(s', Tick(t)), Wake(c))
              <==> PlannedFor(cfg, s.now, s.settings.Buffer()) <= s.now + t)
  {
    ReachableInv(s);
    assert RefreshOk(s, k);
    OnlyPlanLeavesCommitted(s, e, k);
    var cfg := s.log[s.refreshes[k].commitAt].entry.cfg.value;
    if Scheduler.StaysInRange(cfg.notAfter, s.now, s.settings.Buffer()) {
      Scheduler.WakeUpIsExact(cfg.notAfter, s.now, s.settings.Buffer());
    }
  }

  lemma {:induction false} OnlyPlanLeavesCommitted(s: State, e: Event, k: nat)
    requires AtPhase(s, k, Committed) && Enabled(s, e) && !AtPhase(Step(s, e), k, Committed)
    ensures e == Plan(k)
  {
  }

  /** The timer wakes while the entry still holds the configuration it was planned for, unrefreshed. */
  ghost predicate WakesToItsConfig(s: State, c: nat) {
    && Enabled(s, Wake(c))
    && s.settings.Buffer() > 0
    && s.callers[c].pc.planned.notAfter - s.callers[c].pc.plannedAt <= MAX_DURATION
    && Lookup(s.cache, s.callers[c].instance).cfg == Some(s.callers[c].pc.planned)
    && DoneClosed(s, Lookup(s.cache, s.callers[c].instance).done)
  }

  /**
   * A timer that wakes up, at whatever later instant, while the entry still holds the configuration
   * it was planned for and no refresh is in flight, finds the entry in need of a refresh. The
   * lifetime bound is the one of `Scheduler.WakeUpNeverTooEarly`.
   */
  lemma {:induction false} TimerFindsWork(s: State, c: nat)
    requires Reachable(s) && WakesToItsConfig(s, c)
    ensures StillNeedsRefresh(s, Lookup(s.cache, s.callers[c].instance))
  {
    ReachableInv(s);
    assert CallerOk(s, s.callers[c]);
    CachedProvenance(s, s.callers[c].instance);
    var e := Lookup(s.cache, s.callers[c].instance);
    Scheduler.WakeUpNeverTooEarly(e, s.callers[c].pc.plannedAt, s.settings.Buffer());
  }

  /** What the goroutine of a timer does once it wakes up, up to the end of the locked section. */
  function TimerRun(c: nat): seq<Event> {
    [Wake(c), Read(c), Check(c), Recheck(c)]
  }

  lemma {:induction false} TimerReachesLock(s: State, c: nat) returns (s': State)
    requires Enabled(s, Wake(c)) && StillNeedsRefresh(s, Lookup(s.cache, s.callers[c].instance))
    ensures s' == WithPc(s, c, Locking)
    ensures IsRun(s, TimerRun(c)) && After(s, TimerRun(c)) == RecheckStep(s', c)
  {
    var events := TimerRun(c);
    var s1 := Step(s, Wake(c));
    var s2 := Step(s1, Read(c));
    s' := Step(s2, Check(c));
    assert s'.callers == WithPc(s, c, Locking).callers;
    RunOfFour(s, events, s1, s2, s');
  }

  lemma {:induction false} RunOfFour(s: State, events: seq<Event>, s1: State, s2: State, s3: State)
    requires |events| == 4
    requires Enabled(s, events[0]) && s1 == Step(s, events[0])
    requires Enabled(s1, events[1]) && s2 == Step(s1, events[1])
    requires Enabled(s2, events[2]) && s3 == Step(s2, events[2])
    requires Enabled(s3, events[3])
    ensures IsRun(s, events) && After(s, events) == Step(s3, events[3])
  {
    var s4 := Step(s3, events[3]);
    assert IsRun(s4, events[4..]) && After(s4, events[4..]) == s4;
    assert events[3..][1..] == events[4..] && IsRun(s3, events[3..]) && After(s3, events[3..]) == s4;
    assert events[2..][1..] == events[3..] && IsRun(s2, events[2..]) && After(s2, events[2..]) == s4;
    assert events[1..][1..] == events[2..] && IsRun(s1, events[1..]) && After(s1, events[1..]) == s4;
  }

  /** Such a timer starts a refresh of its instance, unless one was started less than a throttle period ago. */
  lemma {:induction false} TimerRenews(s: State, c: nat)
    requires Reachable(s) && WakesToItsConfig(s, c)
    ensures IsRun(s, TimerRun(c))
    ensures var s' := After(s, TimerRun(c));
      var k := |s.refreshes|;
      if forall j :: 0 <= j < k ==> !RecentStart(s, j, s.callers[c].instance) then
        && |s'.refreshes| == k + 1
        && s'.refreshes[k].instance == s.callers[c].instance
        && s'.refreshes[k].startedAt == s.now
        && InFlight(s', k)
      else
        s'.refreshes == s.refreshes
  {
    TimerFindsWork(s, c);
    var s1 := TimerReachesLock(s, c);
    ThrottledIffRecentStart(s, s.callers[c].instance);
  }
}
