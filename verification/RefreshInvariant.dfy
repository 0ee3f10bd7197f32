/** The joint invariant of the refresh protocol and its preservation by every step. */
module RefreshInvariant {
  import opened Basics
  import opened Durations
  import opened CertCache
  import opened RefreshProtocol
  import Scheduler

  // ---------- What only grows ----------

  /** How one refresh may change: it keeps its identity, and what it has settled stays settled. */
  predicate RefreshGrows(r: Refresh, r': Refresh) {
    && r'.instance == r.instance
    && r'.startedAt == r.startedAt
    && r.phase.Rank() <= r'.phase.Rank()
    && (Ready.Rank() <= r.phase.Rank() ==> r'.outcome == r.outcome)
    && (Committed.Rank() <= r.phase.Rank() ==> r'.commitAt == r.commitAt)
  }

  ghost predicate Grows(s: State, s': State) {
    && s'.settings == s.settings
    && s.now <= s'.now
    && |s.refreshes| <= |s'.refreshes|
    && (forall k :: 0 <= k < |s.refreshes| ==> RefreshGrows(s.refreshes[k], s'.refreshes[k]))
    && s.log <= s'.log
  }

  lemma {:induction false} RecheckGrows(s: State, c: nat)
    requires c < |s.callers|
    ensures Grows(s, RecheckStep(s, c))
  {
  }

  lemma {:induction false} CommitGrows(s: State, k: nat)
    requires Enabled(s, Commit(k))
    ensures Grows(s, CommitStep(s, k))
  {
  }

  lemma {:induction false} StepGrows(s: State, e: Event)
    requires Enabled(s, e)
    ensures Grows(s, Step(s, e))
  {
    match e {
      case Recheck(c) => RecheckGrows(s, c);
      case Commit(k) => CommitGrows(s, k);
      case _ =>
    }
  }

  /** Earlier views of the log are not disturbed by later writes. */
  lemma {:induction false} EntryAtIsStable(log: seq<Write>, log': seq<Write>, n: nat, instance: string)
    requires n <= |log| && log <= log'
    ensures EntryAt(log', n, instance) == EntryAt(log, n, instance)
  {
    if n > 0 {
      EntryAtIsStable(log, log', n - 1, instance);
    }
  }

  // ---------- The invariant ----------

  /** Whether the refresh has written its result to the cache. */
  predicate HasCommitted(r: Refresh) {
    Committed.Rank() <= r.phase.Rank()
  }

  predicate RefreshOk(s: State, k: nat)
    requires k < |s.refreshes|
  {
    var r := s.refreshes[k];
    && (!r.phase.Closed? ==> Lookup(s.cache, r.instance).done == Some(k))
    && (r.outcome.Pending? <==> r.phase.Rank() < Ready.Rank())
    && (r.outcome.Obtained? ==> IsAnswer(k, r.outcome))
    && (s.lockHolder == Some(k) <==> r.phase.Fetching?)
    && (HasCommitted(r) ==>
          && r.commitAt < |s.log|
          && s.log[r.commitAt].instance == r.instance
          && s.log[r.commitAt].kind == CommittedBy(k))
    && (r.phase.Committed? ==> IsValid(s.log[r.commitAt].entry))
  }

  ghost predicate RefreshesOk(s: State) {
    && (s.lockHolder.Some? ==> s.lockHolder.value < |s.refreshes|)
    && (forall k :: 0 <= k < |s.refreshes| ==> RefreshOk(s, k))
  }

  /** The instance of every refresh has a limiter, which remembers a start no earlier than that one. */
  predicate LimiterOk(s: State, k: nat)
    requires k < |s.refreshes|
  {
    var r := s.refreshes[k];
    && r.instance in s.limiters
    && s.limiters[r.instance].lastAllowed.Some?
    && r.startedAt <= s.limiters[r.instance].lastAllowed.value
  }

  predicate Spaced(s: State, j: nat, k: nat)
    requires j < |s.refreshes| && k < |s.refreshes|
  {
    s.refreshes[j].instance == s.refreshes[k].instance && 0 < s.settings.Throttle()
    ==> s.refreshes[j].startedAt + s.settings.Throttle() <= s.refreshes[k].startedAt
  }

  ghost predicate LimitersOk(s: State) {
    && (forall i :: i in s.limiters ==>
          && Lookup(s.cache, i).done.Some?
          && s.limiters[i].period == s.settings.Throttle())
    && (forall k :: 0 <= k < |s.refreshes| ==> LimiterOk(s, k))
    && (forall j, k :: 0 <= j < k < |s.refreshes| ==> Spaced(s, j, k))
  }

  /** Each write follows from the entry it replaced and from the refresh or handshake behind it. */
  ghost predicate WriteOk(s: State, n: nat)
    requires n < |s.log|
  {
    var w := s.log[n];
    var prior := EntryAt(s.log, n, w.instance);
    match w.kind
    case StartedBy(k) =>
      && k < |s.refreshes|
      && s.refreshes[k].instance == w.instance
      && w.entry == prior.(done := Some(k), lastRefreshed := w.at)
      && NeedsRefresh(prior, s.settings.Buffer(), w.at, true)
      && (prior.done.Some? ==> IsClosed(s, prior.done.value) && s.refreshes[prior.done.value].commitAt < n)
    case CommittedBy(k) =>
      && k < |s.refreshes|
      && s.refreshes[k].instance == w.instance
      && HasCommitted(s.refreshes[k])
      && s.refreshes[k].commitAt == n
      && prior.done == Some(k)
      && !s.refreshes[k].outcome.Pending?
      && w.entry == CommitEntry(s.refreshes[k].outcome, prior, k, w.at)
    case InvalidatedFor(cfg, _) =>
      && prior.cfg == cfg
      && w.entry == ClearedEntry(prior)
  }

  ghost predicate LogOk(s: State) {
    forall n :: 0 <= n < |s.log| ==> WriteOk(s, n)
  }

  ghost predicate CacheOk(s: State) {
    && (forall i :: Lookup(s.cache, i) == EntryAt(s.log, |s.log|, i))
    && (s.cache != map[] || s.refreshes != [] || s.limiters != map[] ==> s.cacheMade)
  }

  /** The channel is one that a refresh of this instance made. */
  predicate OwnChannel(s: State, instance: string, done: Option<nat>) {
    done.Some? && done.value < |s.refreshes| && s.refreshes[done.value].instance == instance
  }

  ghost predicate CallerOk(s: State, c: Caller) {
    match c.pc
    case Sleeping(until, planned, plannedAt) =>
      until == Scheduler.WakeUp(planned.notAfter, plannedAt, s.settings.Buffer())
    case Checking(seen, seenAt) => seenAt <= |s.log| && seen == EntryAt(s.log, seenAt, c.instance)
    case Waiting(done, waitAt) =>
      && OwnChannel(s, c.instance, done)
      && waitAt <= |s.log|
      && !IsValid(EntryAt(s.log, waitAt, c.instance))
      && done == EntryAt(s.log, waitAt, c.instance).done
    case Rereading(wait) => WaitOk(s, c.instance, wait)
    case Returned(handed) => HandedOk(s, c.instance, handed)
    case Comparing(handed) => FailedOk(s, c, handed)
    case Dropping(handed) => FailedOk(s, c, handed)
    case Stopped(handed) => FailedOk(s, c, handed)
    case _ => true
  }

  /** The wait ended with its channel, and had begun with an entry that was not usable. */
  ghost predicate WaitOk(s: State, instance: string, wait: Wait) {
    && OwnChannel(s, instance, Some(wait.done))
    && IsClosed(s, wait.done)
    && wait.since <= |s.log|
    && !IsValid(EntryAt(s.log, wait.since, instance))
  }

  ghost predicate HandedOk(s: State, instance: string, handed: Handed) {
    && handed.at <= |s.log|
    && handed.result == EntryAt(s.log, handed.at, instance)
    && s.refreshes != []
    && (handed.waited.None? ==> IsValid(handed.result))
    && (handed.waited.Some? ==>
          && WaitOk(s, instance, handed.waited.value)
          && handed.waited.value.since <= handed.at
          && s.refreshes[handed.waited.value.done].commitAt < handed.at)
  }

  /** The handshake of a dialing caller failed with what it was handed. */
  ghost predicate FailedOk(s: State, c: Caller, handed: Handed) {
    HandedOk(s, c.instance, handed) && c.dials && ReachesHandshake(s, handed.result)
  }

  ghost predicate CallersOk(s: State) {
    forall c :: 0 <= c < |s.callers| ==> CallerOk(s, s.callers[c])
  }

  ghost predicate ClockOk(s: State) {
    && (forall i :: i in s.limiters && s.limiters[i].lastAllowed.Some? ==> s.limiters[i].lastAllowed.value <= s.now)
    && (forall n :: 0 <= n < |s.log| ==> s.log[n].at <= s.now)
  }

  ghost predicate LogOrdered(s: State) {
    forall m, n :: 0 <= m < n < |s.log| ==> s.log[m].at <= s.log[n].at
  }

  /** The caller has run `invalidateCfg` for this configuration, which it had been handed before. */
  predicate AskedFor(s: State, n: nat, caller: nat)
    requires n < |s.log| && s.log[n].kind.InvalidatedFor?
  {
    && caller < |s.callers|
    && s.callers[caller].pc.Stopped?
    && s.callers[caller].instance == s.log[n].instance
    && s.callers[caller].pc.handed.result.cfg == s.log[n].kind.cfg
    && s.callers[caller].pc.handed.at <= n
  }

  ghost predicate InvalidationsOk(s: State) {
    forall n :: 0 <= n < |s.log| && s.log[n].kind.InvalidatedFor? ==> AskedFor(s, n, s.log[n].kind.caller)
  }

  ghost predicate Inv(s: State) {
    && RefreshesOk(s) && LimitersOk(s) && LogOk(s) && CacheOk(s) && CallersOk(s)
    && ClockOk(s) && LogOrdered(s) && InvalidationsOk(s)
  }

  // ---------- Consequences used by the preservation proofs ----------

  /** Every channel ever stored for an instance was made by a refresh of that instance. */
  lemma {:induction false} StoredChannelIsOwn(s: State, n: nat, instance: string)
    requires LogOk(s) && n <= |s.log|
    ensures var e := EntryAt(s.log, n, instance);
      && (e.done.Some? ==> OwnChannel(s, instance, e.done))
      && (e.cfg.Some? ==> s.refreshes != [])
  {
    if n > 0 {
      StoredChannelIsOwn(s, n - 1, instance);
      assert WriteOk(s, n - 1);
    }
  }

  lemma {:induction false} WaitOkGrows(s: State, s': State, instance: string, wait: Wait)
    requires Grows(s, s') && WaitOk(s, instance, wait)
    ensures WaitOk(s', instance, wait)
  {
    EntryAtIsStable(s.log, s'.log, wait.since, instance);
  }

  lemma {:induction false} HandedOkGrows(s: State, s': State, instance: string, handed: Handed)
    requires Grows(s, s') && HandedOk(s, instance, handed)
    ensures HandedOk(s', instance, handed)
  {
    EntryAtIsStable(s.log, s'.log, handed.at, instance);
    if handed.waited.Some? {
      WaitOkGrows(s, s', instance, handed.waited.value);
    }
  }

  /** What is known of a caller survives everything that only grows. */
  lemma {:induction false} CallerOkGrows(s: State, s': State, c: Caller)
    requires Grows(s, s') && CallerOk(s, c)
    requires RefreshesOk(s)
    ensures CallerOk(s', c)
  {
    match c.pc {
      case Checking(_, seenAt) => EntryAtIsStable(s.log, s'.log, seenAt, c.instance);
      case Waiting(_, waitAt) => EntryAtIsStable(s.log, s'.log, waitAt, c.instance);
      case Rereading(wait) => WaitOkGrows(s, s', c.instance, wait);
      case Returned(handed) => HandedOkGrows(s, s', c.instance, handed);
      case Comparing(handed) => HandedOkGrows(s, s', c.instance, handed);
      case Dropping(handed) => HandedOkGrows(s, s', c.instance, handed);
      case Stopped(handed) => HandedOkGrows(s, s', c.instance, handed);
      case _ =>
    }
  }

  lemma {:induction false} WriteOkGrows(s: State, s': State, n: nat)
    requires n < |s.log| && Grows(s, s') && WriteOk(s, n) && RefreshesOk(s)
    ensures WriteOk(s', n)
  {
    EntryAtIsStable(s.log, s'.log, n, s.log[n].instance);
  }

  // ---------- Preservation ----------

  lemma {:induction false} InitInv(settings: Settings, now: int)
    ensures Inv(Init(settings, now))
  {
  }

  /** The three critical sections that may write to the cache or to the limiters. */
  predicate Writes(e: Event) {
    e.Recheck? || e.Commit? || e.Drop?
  }

  /** The steps of a refresh goroutine. */
  predicate IsRefreshEvent(e: Event) {
    e.Acquire? || e.Fetch? || e.Commit? || e.Plan? || e.Close?
  }

  lemma {:induction false} QuietStep(s: State, e: Event)
    requires Enabled(s, e) && !Writes(e)
    ensures var s' := Step(s, e);
      && s'.cache == s.cache && s'.log == s.log && s'.limiters == s.limiters
      && s'.cacheMade == s.cacheMade && s'.settings == s.settings
      && (!IsRefreshEvent(e) ==> s'.refreshes == s.refreshes && s'.lockHolder == s.lockHolder)
  {
  }

  lemma {:induction false} RefreshAfterCommit(s: State, j: nat, k: nat)
    requires Enabled(s, Commit(j)) && k < |s.refreshes| && RefreshOk(s, j) && RefreshOk(s, k)
    ensures RefreshOk(CommitStep(s, j), k)
  {
  }

  lemma {:induction false} RefreshAfterOwnStep(s: State, e: Event, k: nat)
    requires Enabled(s, e) && IsRefreshEvent(e) && !e.Commit?
    requires k < |s.refreshes| && RefreshOk(s, e.k) && RefreshOk(s, k)
    ensures RefreshOk(Step(s, e), k)
  {
  }

  lemma {:induction false} RefreshAfterRecheck(s: State, c: nat, k: nat)
    requires c < |s.callers| && k < |RecheckStep(s, c).refreshes|
    requires k < |s.refreshes| ==> RefreshOk(s, k)
    requires s.lockHolder.Some? ==> s.lockHolder.value < |s.refreshes|
    ensures RefreshOk(RecheckStep(s, c), k)
  {
  }

  lemma {:induction false} RefreshesAfterRecheck(s: State, c: nat)
    requires RefreshesOk(s) && c < |s.callers|
    ensures RefreshesOk(RecheckStep(s, c))
  {
    var s' := RecheckStep(s, c);
    forall k | 0 <= k < |s'.refreshes|
      ensures RefreshOk(s', k)
    {
      RefreshAfterRecheck(s, c, k);
    }
  }

  lemma {:induction false} RefreshesAfterDrop(s: State, c: nat)
    requires RefreshesOk(s) && Enabled(s, Drop(c))
    ensures RefreshesOk(DropStep(s, c))
  {
    var s' := DropStep(s, c);
    forall k | 0 <= k < |s'.refreshes|
      ensures RefreshOk(s', k)
    {
      assert RefreshOk(s, k);
    }
  }

  lemma {:induction false} RefreshesAfterRefreshEvent(s: State, e: Event)
    requires RefreshesOk(s) && Enabled(s, e) && IsRefreshEvent(e)
    ensures RefreshesOk(Step(s, e))
  {
    var s' := Step(s, e);
    forall k | 0 <= k < |s'.refreshes|
      ensures RefreshOk(s', k)
    {
      assert RefreshOk(s, e.k) && RefreshOk(s, k);
      if e.Commit? {
        RefreshAfterCommit(s, e.k, k);
      } else {
        RefreshAfterOwnStep(s, e, k);
      }
    }
  }

  lemma {:induction false} RefreshesUnmoved(s: State, s': State)
    requires RefreshesOk(s)
    requires s'.cache == s.cache && s'.log == s.log && s'.refreshes == s.refreshes && s'.lockHolder == s.lockHolder
    ensures RefreshesOk(s')
  {
    forall k | 0 <= k < |s'.refreshes|
      ensures RefreshOk(s', k)
    {
      assert RefreshOk(s, k);
    }
  }

  lemma {:induction false} RefreshesPreserved(s: State, e: Event)
    requires RefreshesOk(s) && Enabled(s, e)
    ensures RefreshesOk(Step(s, e))
  {
    if IsRefreshEvent(e) {
      RefreshesAfterRefreshEvent(s, e);
    } else if e.Recheck? {
      RefreshesAfterRecheck(s, e.c);
    } else if e.Drop? {
      RefreshesAfterDrop(s, e.c);
    } else {
      QuietStep(s, e);
      RefreshesUnmoved(s, Step(s, e));
    }
  }

  /** Nothing was started, so only the `done` fields matter to the limiters. */
  lemma {:induction false} LimitersUnmoved(s: State, s': State)
    requires LimitersOk(s) && Grows(s, s')
    requires |s'.refreshes| == |s.refreshes| && s'.limiters == s.limiters
    requires forall i :: Lookup(s.cache, i).done.Some? ==> Lookup(s'.cache, i).done.Some?
    ensures LimitersOk(s')
  {
    forall k | 0 <= k < |s'.refreshes|
      ensures LimiterOk(s', k)
    {
      assert LimiterOk(s, k);
    }
    forall j, k | 0 <= j < k < |s'.refreshes|
      ensures Spaced(s', j, k)
    {
      assert Spaced(s, j, k);
    }
  }

  lemma {:induction false} LimitersAfterRecheck(s: State, c: nat)
    requires LimitersOk(s) && ClockOk(s) && c < |s.callers|
    ensures LimitersOk(RecheckStep(s, c))
  {
    var s' := RecheckStep(s, c);
    forall k | 0 <= k < |s'.refreshes|
      ensures LimiterOk(s', k)
    {
      if k < |s.refreshes| {
        assert LimiterOk(s, k);
      }
    }
    forall j, k | 0 <= j < k < |s'.refreshes|
      ensures Spaced(s', j, k)
    {
      assert LimiterOk(s, j);
      if k < |s.refreshes| {
        assert Spaced(s, j, k);
      }
    }
  }

  lemma {:induction false} LimitersPreserved(s: State, e: Event)
    requires LimitersOk(s) && ClockOk(s) && Enabled(s, e)
    ensures LimitersOk(Step(s, e))
  {
    if e.Recheck? {
      LimitersAfterRecheck(s, e.c);
    } else {
      StepGrows(s, e);
      LimitersUnmoved(s, Step(s, e));
    }
  }

  lemma {:induction false} ClockPreserved(s: State, e: Event)
    requires ClockOk(s) && Enabled(s, e)
    ensures ClockOk(Step(s, e))
  {
  }

  /** A step appends at most one write, stamped with the present. */
  lemma {:induction false} AppendsNow(s: State, e: Event)
    requires Enabled(s, e)
    ensures var s' := Step(s, e);
      s'.log == s.log || (s'.log[..|s.log|] == s.log && |s'.log| == |s.log| + 1 && s'.log[|s.log|].at == s.now)
  {
  }

  lemma {:induction false} OrderPreserved(s: State, e: Event)
    requires ClockOk(s) && LogOrdered(s) && Enabled(s, e)
    ensures LogOrdered(Step(s, e))
  {
    var log := Step(s, e).log;
    AppendsNow(s, e);
    forall m, n | 0 <= m < n < |log|
      ensures log[m].at <= log[n].at
    {
      assert log[m] == s.log[m];
      assert n < |s.log| ==> log[n] == s.log[n];
    }
  }

  /** What a start finds: nothing yet, or a finished refresh whose result needs renewal. */
  lemma {:induction false} StartWriteOk(s: State, c: nat)
    requires RefreshesOk(s) && LogOk(s) && CacheOk(s) && c < |s.callers|
    requires |RecheckStep(s, c).log| == |s.log| + 1
    ensures WriteOk(RecheckStep(s, c), |s.log|)
  {
    var i := s.callers[c].instance;
    StoredChannelIsOwn(s, |s.log|, i);
    EntryAtIsStable(s.log, RecheckStep(s, c).log, |s.log|, i);
    var done := Lookup(s.cache, i).done;
    if done.Some? {
      assert RefreshOk(s, done.value);
    }
  }

  lemma {:induction false} CommitWriteOk(s: State, k: nat)
    requires RefreshesOk(s) && CacheOk(s) && Enabled(s, Commit(k))
    ensures WriteOk(CommitStep(s, k), |s.log|)
  {
    assert RefreshOk(s, k);
    EntryAtIsStable(s.log, CommitStep(s, k).log, |s.log|, s.refreshes[k].instance);
  }

  lemma {:induction false} DropWriteOk(s: State, c: nat)
    requires CacheOk(s) && Enabled(s, Drop(c)) && |DropStep(s, c).log| == |s.log| + 1
    ensures WriteOk(DropStep(s, c), |s.log|)
  {
    EntryAtIsStable(s.log, DropStep(s, c).log, |s.log|, s.callers[c].instance);
  }

  lemma {:induction false} LogPreserved(s: State, e: Event)
    requires RefreshesOk(s) && LogOk(s) && CacheOk(s) && Enabled(s, e)
    ensures LogOk(Step(s, e))
  {
    var s' := Step(s, e);
    StepGrows(s, e);
    AppendsNow(s, e);
    forall n | 0 <= n < |s'.log|
      ensures WriteOk(s', n)
    {
      if n < |s.log| {
        WriteOkGrows(s, s', n);
      } else if e.Commit? {
        CommitWriteOk(s, e.k);
      } else if e.Recheck? {
        StartWriteOk(s, e.c);
      } else if e.Drop? {
        DropWriteOk(s, e.c);
      }
    }
  }

  lemma {:induction false} StoreMatchesLog(s: State, instance: string, e: Entry, kind: WriteKind)
    requires forall i :: Lookup(s.cache, i) == EntryAt(s.log, |s.log|, i)
    ensures var s' := Store(s, instance, e, kind);
      forall i :: Lookup(s'.cache, i) == EntryAt(s'.log, |s'.log|, i)
  {
    var s' := Store(s, instance, e, kind);
    forall i
      ensures Lookup(s'.cache, i) == EntryAt(s'.log, |s'.log|, i)
    {
      EntryAtIsStable(s.log, s'.log, |s.log|, i);
    }
  }

  lemma {:induction false} CachePreserved(s: State, e: Event)
    requires CacheOk(s) && Enabled(s, e)
    requires e.Drop? ==> s.cacheMade
    ensures CacheOk(Step(s, e))
  {
    var s' := Step(s, e);
    if s'.log != s.log {
      var w := s'.log[|s.log|];
      StoreMatchesLog(s, w.instance, w.entry, w.kind);
      var stored := Store(s, w.instance, w.entry, w.kind);
      assert s'.cache == stored.cache && s'.log == stored.log;
    }
  }

  /** The steps of a goroutine inside `cachedCfg` or `invalidateCfg`. */
  predicate IsCallerEvent(e: Event) {
    !IsRefreshEvent(e) && !e.Tick? && !e.Arrive?
  }

  /** A step moves at most its own caller, and new callers start with nothing to answer for. */
  lemma {:induction false} OtherCallersStay(s: State, e: Event, c: nat)
    requires Enabled(s, e) && c < |Step(s, e).callers| && !(IsCallerEvent(e) && c == e.c)
    ensures |s.callers| <= |Step(s, e).callers|
    ensures c < |s.callers| ==> Step(s, e).callers[c] == s.callers[c]
    ensures |s.callers| <= c ==> CallerOk(Step(s, e), Step(s, e).callers[c])
  {
  }

  lemma {:induction false} CallersPreserved(s: State, e: Event)
    requires RefreshesOk(s) && LimitersOk(s) && LogOk(s) && CacheOk(s) && CallersOk(s) && Enabled(s, e)
    ensures CallersOk(Step(s, e))
  {
    var s' := Step(s, e);
    StepGrows(s, e);
    forall c | 0 <= c < |s'.callers|
      ensures CallerOk(s', s'.callers[c])
    {
      if IsCallerEvent(e) && c == e.c {
        MovedCallerOk(s, e, c);
      } else {
        OtherCallersStay(s, e, c);
        if c < |s.callers| {
          CallerOkGrows(s, s', s.callers[c]);
        }
      }
    }
  }

  lemma {:induction false} RecheckedCallerOk(s: State, c: nat)
    requires LimitersOk(s) && LogOk(s) && CacheOk(s)
    requires Enabled(s, Recheck(c))
    ensures CallerOk(RecheckStep(s, c), RecheckStep(s, c).callers[c])
  {
    var i := s.callers[c].instance;
    StoredChannelIsOwn(s, |s.log|, i);
    if StillNeedsRefresh(s, Lookup(s.cache, i)) && LimiterOf(s, i).Allows(s.now) {
      StartingCallerOk(s, c);
    }
  }

  lemma {:induction false} StartingCallerOk(s: State, c: nat)
    requires Enabled(s, Recheck(c)) && var i := s.callers[c].instance;
      StillNeedsRefresh(s, Lookup(s.cache, i)) && LimiterOf(s, i).Allows(s.now)
    ensures CallerOk(RecheckStep(s, c), RecheckStep(s, c).callers[c])
  {
  }

  lemma {:induction false} CheckedCallerOk(s: State, c: nat)
    requires LogOk(s) && Enabled(s, Check(c)) && CallerOk(s, s.callers[c])
    ensures CallerOk(s, Step(s, Check(c)).callers[c])
  {
    StoredChannelIsOwn(s, s.callers[c].pc.seenAt, s.callers[c].instance);
  }

  lemma {:induction false} RereadCallerOk(s: State, c: nat)
    requires RefreshesOk(s) && CacheOk(s) && Enabled(s, Reread(c)) && CallerOk(s, s.callers[c])
    ensures CallerOk(s, Step(s, Reread(c)).callers[c])
  {
    assert RefreshOk(s, s.callers[c].pc.wait.done);
  }

  /** The moves after which a caller has little to answer for. */
  lemma {:induction false} PlainMoveOk(s: State, e: Event)
    requires CacheOk(s) && Enabled(s, e) && IsCallerEvent(e) && CallerOk(s, s.callers[e.c])
    requires !e.Check? && !e.Recheck? && !e.Reread? && !e.Drop?
    ensures CallerOk(s, Step(s, e).callers[e.c])
  {
  }

  lemma {:induction false} CallerOkUnmoved(s: State, s': State, c: Caller)
    requires s'.refreshes == s.refreshes && s'.log == s.log && s'.settings == s.settings && CallerOk(s, c)
    ensures CallerOk(s', c)
  {
  }

  lemma {:induction false} DroppedCallerOk(s: State, c: nat)
    requires Enabled(s, Drop(c)) && CallerOk(s, s.callers[c]) && Grows(s, DropStep(s, c))
    ensures CallerOk(DropStep(s, c), DropStep(s, c).callers[c])
  {
    HandedOkGrows(s, DropStep(s, c), s.callers[c].instance, s.callers[c].pc.handed);
  }

  lemma {:induction false} MovedCallerOk(s: State, e: Event, c: nat)
    requires RefreshesOk(s) && LimitersOk(s) && LogOk(s) && CacheOk(s)
    requires Enabled(s, e) && IsCallerEvent(e) && c == e.c
    requires CallerOk(s, s.callers[c]) && Grows(s, Step(s, e))
    ensures CallerOk(Step(s, e), Step(s, e).callers[c])
  {
    if e.Recheck? {
      RecheckedCallerOk(s, c);
    } else if e.Drop? {
      DroppedCallerOk(s, c);
    } else {
      QuietMoveOk(s, e);
    }
  }

  lemma {:induction false} QuietMoveOk(s: State, e: Event)
    requires RefreshesOk(s) && LogOk(s) && CacheOk(s)
    requires Enabled(s, e) && IsCallerEvent(e) && !Writes(e) && CallerOk(s, s.callers[e.c])
    ensures CallerOk(Step(s, e), Step(s, e).callers[e.c])
  {
    if e.Check? {
      CheckedCallerOk(s, e.c);
    } else if e.Reread? {
      RereadCallerOk(s, e.c);
    } else {
      PlainMoveOk(s, e);
    }
    QuietStep(s, e);
    CallerOkUnmoved(s, Step(s, e), Step(s, e).callers[e.c]);
  }

  lemma {:induction false} InvalidationsPreserved(s: State, e: Event)
    requires InvalidationsOk(s) && Enabled(s, e)
    requires e.Drop? ==> s.callers[e.c].pc.handed.at <= |s.log|
    ensures InvalidationsOk(Step(s, e))
  {
    var s' := Step(s, e);
    AppendsNow(s, e);
    forall n | 0 <= n < |s'.log| && s'.log[n].kind.InvalidatedFor?
      ensures AskedFor(s', n, s'.log[n].kind.caller)
    {
      if n < |s.log| {
        var caller := s.log[n].kind.caller;
        assert s'.log[n] == s.log[n] && AskedFor(s, n, caller);
        OtherCallersStay(s, e, caller);
      }
    }
  }

  lemma {:induction false} StepInv(s: State, e: Event)
    requires Inv(s) && Enabled(s, e)
    ensures Inv(Step(s, e))
  {
    RefreshesPreserved(s, e);
    LimitersPreserved(s, e);
    ClockPreserved(s, e);
    OrderPreserved(s, e);
    LogPreserved(s, e);
    assert e.Drop? ==> CallerOk(s, s.callers[e.c]);
    CachePreserved(s, e);
    CallersPreserved(s, e);
    InvalidationsPreserved(s, e);
  }

  /** Every state of every run satisfies the invariant. */
  lemma {:induction false} RunInv(s: State, events: seq<Event>)
    requires Inv(s) && IsRun(s, events)
    ensures Inv(After(s, events)) && Grows(s, After(s, events))
    decreases |events|
  {
    if events != [] {
      StepInv(s, events[0]);
      StepGrows(s, events[0]);
      RunInv(Step(s, events[0]), events[1..]);
    }
  }
}
