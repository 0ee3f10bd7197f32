/**
 * The configuration cache shared by any number of goroutines, as a transition system with one
 * atomic step per critical section.
 *
 * Refreshes are numbered in the order they start. Number k names the refresh, its `done` channel
 * and the configuration it builds. Every write to the cache is also appended to `log`, so that
 * statements about one state can speak about the run that led to it.
 */
module RefreshProtocol {
  import opened Basics
  import opened Durations
  import opened CertCache
  import Scheduler

  /**
   * The goroutine of one refresh: it queues for the API lock, holds it while it fetches, carries
   * its result to the cache, plans a timer if the stored entry is usable, and closes its channel.
   */
  datatype Phase = Queued | Fetching | Ready | Committed | Finishing | Closed {
    function Rank(): nat {
      match this
      case Queued => 0
      case Fetching => 1
      case Ready => 2
      case Committed => 3
      case Finishing => 4
      case Closed => 5
    }
  }

  /** `commitAt` is the position of the refresh's commit in the log, once there is one. */
  datatype Refresh = Refresh(instance: string, startedAt: int, phase: Phase, outcome: Outcome, commitAt: nat)

  /** An invalidation records the configuration it was asked to drop and the caller that asked. */
  datatype WriteKind =
    | StartedBy(refresh: nat)
    | CommittedBy(refresh: nat)
    | InvalidatedFor(cfg: Option<Config>, caller: nat)

  datatype Write = Write(instance: string, at: int, entry: Entry, kind: WriteKind)

  /** A wait that is over: the channel received from, and the length of the log when it began. */
  datatype Wait = Wait(done: nat, since: nat)

  /** What `cachedCfg` returned: the entry, the length of the log when it was read, and the wait before. */
  datatype Handed = Handed(result: Entry, at: nat, waited: Option<Wait>)

  /**
   * Where a goroutine is inside `cachedCfg`, or after it in `invalidateCfg`. `seenAt` and `waitAt`
   * are the length of the log when the entry at hand was read; a timer remembers the configuration
   * it was planned for, and when.
   */
  datatype Pc =
    | Sleeping(until: int, planned: Config, plannedAt: int)
    | Reading
    | Checking(seen: Entry, seenAt: nat)
    | Locking
    | Waiting(done: Option<nat>, waitAt: nat)
    | Rereading(wait: Wait)
    | Returned(handed: Handed)
    | Cancelled
    | Comparing(handed: Handed)
    | Dropping(handed: Handed)
    | Stopped(handed: Handed)

  /** `background` callers cannot be cancelled; only callers that `dials` go on to a handshake. */
  datatype Caller = Caller(instance: string, background: bool, dials: bool, pc: Pc)

  datatype State = State(
    settings: Settings,
    now: int,
    cacheMade: bool,
    cache: Cache,
    limiters: map<string, Limiter>,
    lockHolder: Option<nat>,
    refreshes: seq<Refresh>,
    callers: seq<Caller>,
    log: seq<Write>)

  function Init(settings: Settings, now: int): State {
    State(settings, now, false, map[], map[], None, [], [], [])
  }

  datatype Event =
    | Tick(nanoseconds: nat)
    | Arrive(instance: string, background: bool, dials: bool)
    | Wake(c: nat)
    | Read(c: nat)
    | Check(c: nat)
    | Recheck(c: nat)
    | Receive(c: nat)
    | Cancel(c: nat)
    | Reread(c: nat)
    | HandshakeFails(c: nat)
    | Compare(c: nat)
    | Drop(c: nat)
    | Acquire(k: nat)
    | Fetch(k: nat, outcome: Outcome)
    | Commit(k: nat)
    | Plan(k: nat)
    | Close(k: nat)

  // ---------- Observations ----------

  predicate IsClosed(s: State, d: nat) {
    d < |s.refreshes| && s.refreshes[d].phase.Closed?
  }

  /** A receive from a nil channel never succeeds. */
  predicate DoneClosed(s: State, done: Option<nat>) {
    done.Some? && IsClosed(s, done.value)
  }

  predicate StillNeedsRefresh(s: State, e: Entry) {
    NeedsRefresh(e, s.settings.Buffer(), s.now, DoneClosed(s, e.done))
  }

  /** The entry of an instance after the first n writes. */
  function EntryAt(log: seq<Write>, n: nat, instance: string): Entry
    requires n <= |log|
  {
    if n == 0 then ZERO_ENTRY
    else if log[n - 1].instance == instance then log[n - 1].entry
    else EntryAt(log, n - 1, instance)
  }

  // ---------- Steps ----------

  predicate AtPhase(s: State, k: nat, phase: Phase) {
    k < |s.refreshes| && s.refreshes[k].phase == phase
  }

  /** What a fetch can end with; the address is a host and a port, so it is never empty. */
  predicate IsAnswer(k: nat, outcome: Outcome) {
    outcome.Failed? || (outcome.Obtained? && outcome.cfg.id == k && outcome.addr != "")
  }

  /** Without an error the caller dials, and only a connection leads to a handshake. */
  predicate ReachesHandshake(s: State, e: Entry) {
    e.err.None? && (e.addr != "" || s.settings.dialsAnyAddress)
  }

  predicate Enabled(s: State, e: Event) {
    match e
    case Tick(_) => true
    case Arrive(_, _, _) => true
    case Wake(c) => c < |s.callers| && s.callers[c].pc.Sleeping? && s.callers[c].pc.until <= s.now
    case Read(c) => c < |s.callers| && s.callers[c].pc.Reading?
    case Check(c) => c < |s.callers| && s.callers[c].pc.Checking?
    case Recheck(c) => c < |s.callers| && s.callers[c].pc.Locking?
    case Receive(c) => c < |s.callers| && s.callers[c].pc.Waiting? && DoneClosed(s, s.callers[c].pc.done)
    case Cancel(c) => c < |s.callers| && s.callers[c].pc.Waiting? && !s.callers[c].background
    case Reread(c) => c < |s.callers| && s.callers[c].pc.Rereading?
    case HandshakeFails(c) =>
      && c < |s.callers|
      && s.callers[c].pc.Returned?
      && s.callers[c].dials
      && ReachesHandshake(s, s.callers[c].pc.handed.result)
    case Compare(c) => c < |s.callers| && s.callers[c].pc.Comparing?
    case Drop(c) => c < |s.callers| && s.callers[c].pc.Dropping?
    case Acquire(k) => AtPhase(s, k, Queued) && s.lockHolder.None?
    case Fetch(k, outcome) => AtPhase(s, k, Fetching) && IsAnswer(k, outcome)
    case Commit(k) => AtPhase(s, k, Ready) && !s.refreshes[k].outcome.Pending?
    case Plan(k) =>
      AtPhase(s, k, Committed) && s.refreshes[k].commitAt < |s.log| && s.log[s.refreshes[k].commitAt].entry.cfg.Some?
    case Close(k) => AtPhase(s, k, Finishing)
  }

  function WithPc(s: State, c: nat, pc: Pc): State
    requires c < |s.callers|
  {
    s.(callers := s.callers[c := s.callers[c].(pc := pc)])
  }

  function WithRefresh(s: State, k: nat, r: Refresh): State
    requires k < |s.refreshes|
  {
    s.(refreshes := s.refreshes[k := r])
  }

  /** Stores an entry and records the write. */
  function Store(s: State, instance: string, e: Entry, kind: WriteKind): State {
    s.(cache := s.cache[instance := e], log := s.log + [Write(instance, s.now, e, kind)])
  }

  /** After the lookup a usable entry is returned at once; otherwise the caller waits. */
  function AfterLookup(e: Entry, seenAt: nat): Pc {
    if IsValid(e) then Returned(Handed(e, seenAt, None)) else Waiting(e.done, seenAt)
  }

  function LimiterOf(s: State, instance: string): Limiter {
    if instance in s.limiters then s.limiters[instance] else Limiter(s.settings.Throttle(), None)
  }

  /** The locked section of `cachedCfg`: look again, and start a refresh if the limiter lets us. */
  function RecheckStep(s: State, c: nat): State
    requires c < |s.callers|
  {
    var i := s.callers[c].instance;
    var e := Lookup(s.cache, i);
    var limiter := LimiterOf(s, i);
    if StillNeedsRefresh(s, e) && limiter.Allows(s.now) then
      var k := |s.refreshes|;
      var started := e.(done := Some(k), lastRefreshed := s.now);
      var s' := s.(cacheMade := true,
                   limiters := s.limiters[i := limiter.(lastAllowed := Some(s.now))],
                   refreshes := s.refreshes + [Refresh(i, s.now, Queued, Pending, 0)]);
      WithPc(Store(s', i, started, StartedBy(k)), c, AfterLookup(started, |s.log| + 1))
    else
      var s' := s.(cacheMade := true, limiters := s.limiters[i := limiter]);
      WithPc(s', c, AfterLookup(e, |s.log|))
  }

  /** The locked section of a refresh. */
  function CommitStep(s: State, k: nat): State
    requires Enabled(s, Commit(k))
  {
    var r := s.refreshes[k];
    var e := CommitEntry(r.outcome, Lookup(s.cache, r.instance), k, s.now);
    var phase := if IsValid(e) then Committed else Finishing;
    WithRefresh(Store(s, r.instance, e, CommittedBy(k)), k, r.(phase := phase, commitAt := |s.log|))
  }

  /** The timer goroutine is one more caller, asleep until its wake-up time. */
  function PlanStep(s: State, k: nat): State
    requires Enabled(s, Plan(k))
  {
    var r := s.refreshes[k];
    var cfg := s.log[r.commitAt].entry.cfg.value;
    var until := Scheduler.WakeUp(cfg.notAfter, s.now, s.settings.Buffer());
    var timer := Caller(r.instance, true, false, Sleeping(until, cfg, s.now));
    WithRefresh(s.(callers := s.callers + [timer]), k, r.(phase := Finishing))
  }

  /** The second, locked comparison of `invalidateCfg`. */
  function DropStep(s: State, c: nat): State
    requires Enabled(s, Drop(c))
  {
    var i := s.callers[c].instance;
    var e := Lookup(s.cache, i);
    var handed := s.callers[c].pc.handed;
    var stale := handed.result.cfg;
    var s' := if e.cfg != stale then s else Store(s, i, ClearedEntry(e), InvalidatedFor(stale, c));
    WithPc(s', c, Stopped(handed))
  }

  function Step(s: State, e: Event): State
    requires Enabled(s, e)
  {
    match e
    case Tick(nanoseconds) => s.(now := s.now + nanoseconds)
    case Arrive(instance, background, dials) =>
      s.(callers := s.callers + [Caller(instance, background, dials, Reading)])
    case Wake(c) => WithPc(s, c, Reading)
    case Read(c) => WithPc(s, c, Checking(Lookup(s.cache, s.callers[c].instance), |s.log|))
    case Check(c) =>
      var pc := s.callers[c].pc;
      WithPc(s, c, if StillNeedsRefresh(s, pc.seen) then Locking else AfterLookup(pc.seen, pc.seenAt))
    case Recheck(c) => RecheckStep(s, c)
    case Receive(c) => WithPc(s, c, Rereading(Wait(s.callers[c].pc.done.value, s.callers[c].pc.waitAt)))
    case Cancel(c) => WithPc(s, c, Cancelled)
    case Reread(c) =>
      WithPc(s, c, Returned(Handed(Lookup(s.cache, s.callers[c].instance), |s.log|, Some(s.callers[c].pc.wait))))
    case HandshakeFails(c) => WithPc(s, c, Comparing(s.callers[c].pc.handed))
    case Compare(c) =>
      var handed := s.callers[c].pc.handed;
      var same := Lookup(s.cache, s.callers[c].instance).cfg == handed.result.cfg;
      WithPc(s, c, if same then Dropping(handed) else Stopped(handed))
    case Drop(c) => DropStep(s, c)
    case Acquire(k) => WithRefresh(s.(lockHolder := Some(k)), k, s.refreshes[k].(phase := Fetching))
    case Fetch(k, outcome) =>
      WithRefresh(s.(lockHolder := None), k, s.refreshes[k].(phase := Ready, outcome := outcome))
    case Commit(k) => CommitStep(s, k)
    case Plan(k) => PlanStep(s, k)
    case Close(k) => WithRefresh(s, k, s.refreshes[k].(phase := Closed))
  }

  // ---------- Runs ----------

  ghost predicate IsRun(s: State, events: seq<Event>)
    decreases |events|
  {
    events == [] || (Enabled(s, events[0]) && IsRun(Step(s, events[0]), events[1..]))
  }

  ghost function After(s: State, events: seq<Event>): State
    requires IsRun(s, events)
    decreases |events|
  {
    if events == [] then s else After(Step(s, events[0]), events[1..])
  }
}
