/** Runs that show what the code does not promise. */
module RefreshWitnesses {
  import opened Basics
  import opened Durations
  import opened CertCache
  import opened RefreshProtocol
  import opened RefreshInvariant
  import opened RefreshTheorems
  import opened Expiry

  const DEFAULTS: Settings := Settings(0, 0, true)
  const I: string := "i"

  function Stored(notAfter: int): Entry {
    Entry(0, None, "a", "v", Some(Config(0, notAfter)), Some(0))
  }

  function Newcomer(pc: Pc): Caller {
    Caller(I, true, true, pc)
  }

  /** The cache after its first refresh, which took no time; `callers` are whoever is around. */
  predicate IsWarm(s: State, notAfter: int) {
    && s.settings == DEFAULTS
    && s.now == 0
    && s.cache == map[I := Stored(notAfter)]
    && s.limiters == map[I := Limiter(MINUTE, Some(0))]
    && |s.refreshes| == 1
    && s.refreshes[0].phase.Closed?
    && s.lockHolder.None?
    && |s.callers| == 2
    && s.callers[0] == Newcomer(Waiting(Some(0), 1))
  }

  /** A first caller starts a refresh and waits for it. */
  lemma {:induction false} FirstCaller() returns (s: State)
    ensures Reachable(s)
    ensures s == State(DEFAULTS, 0, true,
                       map[I := ZERO_ENTRY.(done := Some(0))],
                       map[I := Limiter(MINUTE, Some(0))],
                       None,
                       [Refresh(I, 0, Queued, Pending, 0)],
                       [Newcomer(Waiting(Some(0), 1))],
                       [Write(I, 0, ZERO_ENTRY.(done := Some(0)), StartedBy(0))])
  {
    var s0 := Init(DEFAULTS, 0);
    assert IsRun(s0, []) && After(s0, []) == s0;
    ReachableStep(s0, Arrive(I, true, true));
    var s1 := Step(s0, Arrive(I, true, true));
    ReachableStep(s1, Read(0));
    var s2 := Step(s1, Read(0));
    ReachableStep(s2, Check(0));
    var s3 := Step(s2, Check(0));
    ReachableStep(s3, Recheck(0));
    s := Step(s3, Recheck(0));
    assert s.callers == [Newcomer(Waiting(Some(0), 1))];
  }

  function ByRefresh(phase: Phase, notAfter: int, commitAt: nat): Refresh {
    Refresh(I, 0, phase, Obtained("a", Config(0, notAfter), "v"), commitAt)
  }

  /** The refresh gets its configuration. */
  lemma {:induction false} FirstFetch(notAfter: int) returns (s: State)
    ensures Reachable(s) && s.settings == DEFAULTS && s.now == 0 && s.lockHolder.None?
    ensures s.cache == map[I := ZERO_ENTRY.(done := Some(0))] && s.limiters == map[I := Limiter(MINUTE, Some(0))]
    ensures s.refreshes == [ByRefresh(Ready, notAfter, 0)] && |s.log| == 1
    ensures s.callers == [Newcomer(Waiting(Some(0), 1))]
  {
    var outcome := Obtained("a", Config(0, notAfter), "v");
    var s0 := FirstCaller();
    ReachableStep(s0, Acquire(0));
    var s1 := Step(s0, Acquire(0));
    ReachableStep(s1, Fetch(0, outcome));
    s := Step(s1, Fetch(0, outcome));
  }

  lemma {:induction false} FirstCommit(notAfter: int) returns (s: State)
    ensures Reachable(s) && s.settings == DEFAULTS && s.now == 0 && s.lockHolder.None?
    ensures s.cache == map[I := Stored(notAfter)] && s.limiters == map[I := Limiter(MINUTE, Some(0))]
    ensures s.refreshes == [ByRefresh(Committed, notAfter, 1)] && |s.log| == 2 && s.log[1].entry == Stored(notAfter)
    ensures s.callers == [Newcomer(Waiting(Some(0), 1))]
  {
    var s0 := FirstFetch(notAfter);
    ReachableStep(s0, Commit(0));
    s := Step(s0, Commit(0));
    assert s.cache == map[I := Stored(notAfter)];
  }

  /** It plans a timer and closes its channel. */
  lemma {:induction false} FirstRefresh(notAfter: int) returns (s: State)
    ensures Reachable(s) && IsWarm(s, notAfter)
  {
    var s0 := FirstCommit(notAfter);
    ReachableStep(s0, Plan(0));
    var s1 := Step(s0, Plan(0));
    ReachableStep(s1, Close(0));
    s := Step(s1, Close(0));
  }

  /** One more caller, who finds that a refresh is due and has yet to take the lock. */
  lemma {:induction false} CallerAtLock(s: State) returns (s': State)
    requires Reachable(s) && s.settings == DEFAULTS
    requires I in s.cache && s.cache[I].done == Some(0) && IsClosed(s, 0)
    requires IsValid(s.cache[I]) ==> Sub(s.cache[I].cfg.value.notAfter, s.now) <= 5 * MINUTE
    ensures Reachable(s') && s' == s.(callers := s.callers + [Newcomer(Locking)])
  {
    var c := |s.callers|;
    ReachableStep(s, Arrive(I, true, true));
    var s1 := Step(s, Arrive(I, true, true));
    ReachableStep(s1, Read(c));
    var s2 := Step(s1, Read(c));
    ReachableStep(s2, Check(c));
    s' := Step(s2, Check(c));
    assert s'.callers == s.callers + [Newcomer(Locking)];
  }

  /** That caller takes the lock while the limiter has no token. */
  lemma {:induction false} ThrottledCaller(s: State) returns (s': State)
    requires Reachable(s) && s.settings == DEFAULTS && s.now < MINUTE
    requires I in s.cache && s.cache[I].done == Some(0) && IsClosed(s, 0)
    requires IsValid(s.cache[I]) ==> Sub(s.cache[I].cfg.value.notAfter, s.now) <= 5 * MINUTE
    requires s.limiters == map[I := Limiter(MINUTE, Some(0))]
    ensures Reachable(s') && s'.now == s.now && s'.settings == s.settings
    ensures s'.cache == s.cache && s'.refreshes == s.refreshes && s'.log == s.log && s'.limiters == s.limiters
    ensures s'.lockHolder == s.lockHolder
    ensures s'.callers == s.callers + [Newcomer(AfterLookup(s.cache[I], |s.log|))]
  {
    var s1 := CallerAtLock(s);
    ReachableStep(s1, Recheck(|s.callers|));
    s' := Step(s1, Recheck(|s.callers|));
  }

  // ---------- An expired configuration ----------

  /** The step is possible and returns a configuration that is expired at that instant. */
  ghost predicate CanReturnExpired(s: State, e: Event) {
    Reachable(s) && Enabled(s, e) && MayReturn(e) && ReturnsExpired(s, e)
  }

  /** Once the certificate of the first refresh has run out, a refresh is due again. */
  lemma {:induction false} ExpiredAtLock(later: nat) returns (s: State)
    requires 2 <= later
    ensures Reachable(s) && s.settings == DEFAULTS && s.now == later
    ensures s.cache == map[I := Stored(1)] && s.limiters == map[I := Limiter(MINUTE, Some(0))]
    ensures |s.refreshes| == 1 && s.refreshes[0].phase.Closed?
    ensures |s.callers| == 3 && s.callers[2] == Newcomer(Locking)
  {
    var s0 := FirstRefresh(1);
    ReachableStep(s0, Tick(later));
    s := CallerAtLock(Step(s0, Tick(later)));
  }

  /** After a minute the refresh starts, and whoever comes next finds it pending. */
  lemma {:induction false} ExpiredWhilePending() returns (s: State)
    ensures CanReturnExpired(s, Check(3))
  {
    var s0 := ExpiredAtLock(MINUTE);
    ReachableStep(s0, Recheck(2));
    var s1 := Step(s0, Recheck(2));
    ReachableStep(s1, Arrive(I, true, true));
    var s2 := Step(s1, Arrive(I, true, true));
    ReachableStep(s2, Read(3));
    s := Step(s2, Read(3));
  }

  /** The fetched certificate may have run out by the time the caller's wait is over. */
  lemma {:induction false} ExpiredOnArrival() returns (s: State)
    ensures CanReturnExpired(s, Reread(0))
  {
    var s0 := FirstRefresh(-1);
    ReachableStep(s0, Receive(0));
    s := Step(s0, Receive(0));
  }

  /** A caller can be handed a configuration that has already expired, at each of the three returns. */
  lemma {:induction false} ExpiredConfigCanBeReturned()
    ensures exists s, c: nat :: CanReturnExpired(s, Check(c))
    ensures exists s, c: nat :: CanReturnExpired(s, Recheck(c)) && !LimiterOf(s, I).Allows(s.now)
    ensures exists s, c: nat :: CanReturnExpired(s, Reread(c))
  {
    var pending := ExpiredWhilePending();
    var throttled := ExpiredAtLock(2);
    assert CanReturnExpired(throttled, Recheck(2));
    var waited := ExpiredOnArrival();
  }

  // ---------- Neither configuration nor error ----------

  /** The first caller gets the configuration and fails its handshake. */
  lemma {:induction false} FailedHandshake(s: State) returns (s': State)
    requires Reachable(s) && IsWarm(s, 0)
    ensures Reachable(s') && s'.settings == DEFAULTS && s'.now == 0 && s'.lockHolder == s.lockHolder
    ensures s'.cache == s.cache && s'.limiters == s.limiters && s'.refreshes == s.refreshes
    ensures |s'.callers| == 2 && s'.callers[0].instance == I && s'.callers[0].pc.Comparing?
    ensures s'.callers[0].pc.handed.result.cfg == Some(Config(0, 0))
  {
    ReachableStep(s, Receive(0));
    var s1 := Step(s, Receive(0));
    ReachableStep(s1, Reread(0));
    var s2 := Step(s1, Reread(0));
    ReachableStep(s2, HandshakeFails(0));
    s' := Step(s2, HandshakeFails(0));
  }

  /** What is common to the states below, in which nothing is cached but a closed channel. */
  predicate IsEmptied(s: State) {
    && s.settings == DEFAULTS
    && s.now == 0
    && s.cache == map[I := ClearedEntry(Stored(0))]
    && s.limiters == map[I := Limiter(MINUTE, Some(0))]
    && s.lockHolder.None?
    && |s.refreshes| == 1
    && s.refreshes[0].phase.Closed?
  }

  /** Then it invalidates the configuration. */
  lemma {:induction false} DropAfterHandshake(s: State) returns (s': State)
    requires Reachable(s) && IsWarm(s, 0)
    ensures Reachable(s') && IsEmptied(s') && |s'.callers| == 2
  {
    var s1 := FailedHandshake(s);
    ReachableStep(s1, Compare(0));
    var s2 := Step(s1, Compare(0));
    ReachableStep(s2, Drop(0));
    s' := Step(s2, Drop(0));
    assert s'.cache == map[I := ClearedEntry(Stored(0))];
  }

  /** The next caller may not refresh, and its wait is over before it begins. */
  lemma {:induction false} HandedNothing() returns (s: State)
    ensures Reachable(s) && IsEmptied(s) && |s.callers| == 3
    ensures s.callers[2].instance == I && s.callers[2].dials && s.callers[2].pc.Returned?
    ensures IsNeither(s.callers[2].pc.handed.result)
  {
    var s0 := FirstRefresh(0);
    var s1 := DropAfterHandshake(s0);
    var s2 := ThrottledCaller(s1);
    ReachableStep(s2, Receive(2));
    var s3 := Step(s2, Receive(2));
    ReachableStep(s3, Reread(2));
    s := Step(s3, Reread(2));
  }

  /** Caller c has its result. */
  predicate HandedOut(s: State, c: nat) {
    c < |s.callers| && s.callers[c].pc.Returned?
  }

  /** A caller can be handed neither configuration nor error. */
  lemma {:induction false} NeitherCanBeReturned()
    ensures exists s, c: nat :: Reachable(s) && HandedOut(s, c) && IsNeither(s.callers[c].pc.handed.result)
  {
    var s := HandedNothing();
    assert HandedOut(s, 2) && IsNeither(s.callers[2].pc.handed.result);
  }

  // ---------- A cached error wiped out ----------

  /** Caller 2 is at the second comparison, having been handed no configuration. */
  predicate AboutToDropNothing(s: State) {
    && 2 < |s.callers|
    && s.callers[2].instance == I
    && s.callers[2].pc.Dropping?
    && s.callers[2].pc.handed.result.cfg.None?
  }

  /** With a dialer that ignores the address, that caller fails a handshake and reaches the second comparison. */
  lemma {:induction false} DroppingNothing() returns (s: State)
    ensures Reachable(s) && s.now == MINUTE && IsEmptied(s.(now := 0)) && |s.callers| == 3
    ensures AboutToDropNothing(s)
  {
    var s0 := HandedNothing();
    ReachableStep(s0, HandshakeFails(2));
    var s1 := Step(s0, HandshakeFails(2));
    ReachableStep(s1, Compare(2));
    var s2 := Step(s1, Compare(2));
    ReachableStep(s2, Tick(MINUTE));
    s := Step(s2, Tick(MINUTE));
  }

  /** A further caller starts a second refresh meanwhile. */
  lemma {:induction false} SecondStart() returns (s: State)
    ensures Reachable(s) && s.lockHolder.None? && |s.callers| == 4
    ensures AboutToDropNothing(s)
    ensures I in s.cache && s.cache[I].cfg.None?
    ensures |s.refreshes| == 2 && s.refreshes[1].instance == I && s.refreshes[1].phase.Queued?
  {
    var s0 := DroppingNothing();
    var s1 := CallerAtLock(s0);
    ReachableStep(s1, Recheck(3));
    s := Step(s1, Recheck(3));
  }

  lemma {:induction false} SecondFetchFails() returns (s: State)
    ensures Reachable(s) && AboutToDropNothing(s)
    ensures I in s.cache && s.cache[I].cfg.None?
    ensures |s.refreshes| == 2 && s.refreshes[1].instance == I
    ensures s.refreshes[1].phase.Ready? && s.refreshes[1].outcome == Failed("quota")
  {
    var s0 := SecondStart();
    ReachableStep(s0, Acquire(1));
    var s1 := Step(s0, Acquire(1));
    ReachableStep(s1, Fetch(1, Failed("quota")));
    s := Step(s1, Fetch(1, Failed("quota")));
  }

  /** Its error is stored before the other caller takes the lock. */
  lemma {:induction false} SecondRefreshFails() returns (s: State)
    ensures Reachable(s) && AboutToDropNothing(s)
    ensures Lookup(s.cache, I).cfg.None? && Lookup(s.cache, I).err == Some("quota")
  {
    var s0 := SecondFetchFails();
    ReachableStep(s0, Commit(1));
    s := Step(s0, Commit(1));
  }

  /** Write n is an invalidation, of no configuration, that wiped out an error. */
  predicate WipesError(s: State, n: nat) {
    && n < |s.log|
    && s.log[n].kind.InvalidatedFor?
    && s.log[n].kind.cfg.None?
    && EntryAt(s.log, n, s.log[n].instance).err.Some?
    && s.log[n].entry.err.None?
  }

  /** An invalidation asked to drop no configuration can wipe out a cached error. */
  lemma {:induction false} ErrorCanBeWipedOut()
    ensures exists s, n: nat :: Reachable(s) && WipesError(s, n)
  {
    var s0 := SecondRefreshFails();
    ReachableStep(s0, Drop(2));
    var s := Step(s0, Drop(2));
    var n := |s0.log|;
    ReachableInv(s0);
    EntryAtIsStable(s0.log, s.log, n, I);
    assert WipesError(s, n);
  }
}
