/**
 * The life of connection handlers: an atomic 64-bit counter with a limit, the set of tracked
 * connections, and a shutdown that watches the counter. Any number of handlers interleave.
 */
module Admission {
  import opened Basics
  import opened ConnSets

  type Uint64 = n: int | 0 <= n < TWO_TO_THE_64

  /** `atomic.AddUint64`. */
  function AddUint64(n: Uint64, delta: Uint64): Uint64 {
    (n + delta) % TWO_TO_THE_64
  }

  /** `^uint64(0)`. */
  const ALL_ONES: Uint64 := TWO_TO_THE_64 - 1

  /**
   * `Counted` holds the value its increment returned. A handler is `Leaving` when only its
   * deferred decrement is left.
   */
  datatype Pc = Spawned | Counted(active: Uint64) | Dialing | Dialed | Tracked | Leaving(admitted: bool) | Gone

  datatype Handler = Handler(id: string, conn: Conn, pc: Pc)

  datatype Shutdown = NotCalled | Polling | LastLook | Finished(active: Uint64)

  datatype State = State(
    maxConnections: Uint64,
    counter: Uint64,
    conns: ConnMap,
    handlers: seq<Handler>,
    shutdown: Shutdown)

  function Init(maxConnections: Uint64): State {
    State(maxConnections, 0, map[], [], NotCalled)
  }

  datatype Event =
    | Spawn(id: string, conn: Conn)
    | Increment(h: nat)
    | Decide(h: nat)
    | DialEnds(h: nat, ok: bool)
    | Track(h: nat)
    | Untrack(h: nat)
    | Decrement(h: nat)
    | CallShutdown
    | Poll
    | TimeOut
    | Look

  predicate At(s: State, h: nat, pc: Pc) {
    h < |s.handlers| && s.handlers[h].pc == pc
  }

  predicate Enabled(s: State, e: Event) {
    match e
    case Spawn(_, _) => true
    case Increment(h) => At(s, h, Spawned)
    case Decide(h) => h < |s.handlers| && s.handlers[h].pc.Counted?
    case DialEnds(h, _) => At(s, h, Dialing)
    case Track(h) => At(s, h, Dialed)
    case Untrack(h) => At(s, h, Tracked)
    case Decrement(h) => h < |s.handlers| && s.handlers[h].pc.Leaving?
    case CallShutdown => s.shutdown.NotCalled?
    case Poll => s.shutdown.Polling?
    case TimeOut => s.shutdown.Polling?
    case Look => s.shutdown.LastLook?
  }

  function WithPc(s: State, h: nat, pc: Pc): State
    requires h < |s.handlers|
  {
    s.(handlers := s.handlers[h := s.handlers[h].(pc := pc)])
  }

  function Step(s: State, e: Event): State
    requires Enabled(s, e)
  {
    match e
    case Spawn(id, conn) => s.(handlers := s.handlers + [Handler(id, conn, Spawned)])
    case Increment(h) =>
      var active := AddUint64(s.counter, 1);
      WithPc(s.(counter := active), h, Counted(active))
    case Decide(h) =>
      if s.maxConnections > 0 && s.handlers[h].pc.active > s.maxConnections
      then WithPc(s, h, Leaving(false))
      else WithPc(s, h, Dialing)
    case DialEnds(h, ok) => WithPc(s, h, if ok then Dialed else Leaving(true))
    case Track(h) => WithPc(s.(conns := Added(s.conns, s.handlers[h].id, s.handlers[h].conn)), h, Tracked)
    case Untrack(h) => WithPc(s.(conns := Removed(s.conns, s.handlers[h].id, s.handlers[h].conn)), h, Leaving(true))
    case Decrement(h) => WithPc(s.(counter := AddUint64(s.counter, ALL_ONES)), h, Gone)
    case CallShutdown => s.(shutdown := Polling)
    case Poll => if s.counter > 0 then s else s.(shutdown := LastLook)
    case TimeOut => s.(shutdown := LastLook)
    case Look => s.(shutdown := Finished(s.counter))
  }

  /** `AvailableConn`. */
  predicate AvailableConn(s: State) {
    s.maxConnections == 0 || s.counter < s.maxConnections
  }

  // ---------- What the handlers say ----------

  /** Between its increment and its deferred decrement. */
  predicate IsLive(h: Handler) {
    !h.pc.Spawned? && !h.pc.Gone?
  }

  /** Passed the check, or is bound to, and has not finished. */
  predicate HasSeat(h: Handler, max: Uint64) {
    match h.pc
    case Counted(active) => active <= max
    case Leaving(admitted) => admitted
    case _ => IsLive(h)
  }

  /** Passed the check and has not finished. */
  predicate IsAdmitted(h: Handler) {
    h.pc.Dialing? || h.pc.Dialed? || h.pc.Tracked? || h.pc == Leaving(true)
  }

  function Live(handlers: seq<Handler>): nat {
    if handlers == [] then 0
    else Live(handlers[..|handlers| - 1]) + (if IsLive(handlers[|handlers| - 1]) then 1 else 0)
  }

  function Seats(handlers: seq<Handler>, max: Uint64): nat {
    if handlers == [] then 0
    else Seats(handlers[..|handlers| - 1], max) + (if HasSeat(handlers[|handlers| - 1], max) then 1 else 0)
  }

  function Admitted(handlers: seq<Handler>): nat {
    if handlers == [] then 0
    else Admitted(handlers[..|handlers| - 1]) + (if IsAdmitted(handlers[|handlers| - 1]) then 1 else 0)
  }

  /** How often the connection is held under the id by handlers between their `Add` and `Remove`. */
  function TrackedCount(handlers: seq<Handler>, id: string, conn: Conn): nat {
    if handlers == [] then 0
    else
      TrackedCount(handlers[..|handlers| - 1], id, conn)
      + One(handlers[|handlers| - 1] == Handler(id, conn, Tracked))
  }

  /** Moving one handler changes the counts by that handler's contribution. */
  lemma {:induction false} CountsAfterUpdate(handlers: seq<Handler>, h: nat, moved: Handler, max: Uint64)
    requires h < |handlers|
    ensures Live(handlers[h := moved]) == Live(handlers) + One(IsLive(moved)) - One(IsLive(handlers[h]))
    ensures Seats(handlers[h := moved], max)
         == Seats(handlers, max) + One(HasSeat(moved, max)) - One(HasSeat(handlers[h], max))
  {
    var last := |handlers| - 1;
    if h == last {
      assert handlers[h := moved][..last] == handlers[..last];
    } else {
      CountsAfterUpdate(handlers[..last], h, moved, max);
      assert handlers[h := moved][..last] == handlers[..last][h := moved];
    }
  }

  lemma {:induction false} TrackedAfterUpdate(handlers: seq<Handler>, h: nat, moved: Handler, id: string, conn: Conn)
    requires h < |handlers|
    ensures var tracked := Handler(id, conn, Tracked);
      TrackedCount(handlers[h := moved], id, conn)
      == TrackedCount(handlers, id, conn) + One(moved == tracked) - One(handlers[h] == tracked)
  {
    var last := |handlers| - 1;
    if h == last {
      assert handlers[h := moved][..last] == handlers[..last];
    } else {
      TrackedAfterUpdate(handlers[..last], h, moved, id, conn);
      assert handlers[h := moved][..last] == handlers[..last][h := moved];
    }
  }

  lemma {:induction false} CountsAreOrdered(handlers: seq<Handler>, max: Uint64)
    ensures Admitted(handlers) <= Seats(handlers, max) <= Live(handlers) <= |handlers|
  {
    if handlers != [] {
      CountsAreOrdered(handlers[..|handlers| - 1], max);
    }
  }

  lemma {:induction false} TrackedCountWitness(handlers: seq<Handler>, id: string, conn: Conn)
    ensures TrackedCount(handlers, id, conn) > 0
       <==> exists h :: 0 <= h < |handlers| && handlers[h] == Handler(id, conn, Tracked)
  {
    if handlers != [] {
      var last := |handlers| - 1;
      TrackedCountWitness(handlers[..last], id, conn);
      if h :| 0 <= h < |handlers| && handlers[h] == Handler(id, conn, Tracked) {
        assert h < last ==> handlers[..last][h] == handlers[h];
      }
      if TrackedCount(handlers, id, conn) > 0 && handlers[last] != Handler(id, conn, Tracked) {
        var h :| 0 <= h < last && handlers[..last][h] == Handler(id, conn, Tracked);
        assert handlers[h] == Handler(id, conn, Tracked);
      }
    }
  }

  // ---------- Invariant ----------

  ghost predicate CounterOk(s: State) {
    s.counter == Live(s.handlers) % TWO_TO_THE_64
  }

  /** Kept only while the counter does not wrap around. */
  ghost predicate SeatsOk(s: State) {
    s.maxConnections > 0 ==> Seats(s.handlers, s.maxConnections) <= s.maxConnections
  }

  /** The set and the handlers agree on one connection under one id. */
  predicate CountAgrees(s: State, id: string, conn: Conn) {
    BagOf(s.conns, id)[conn] == TrackedCount(s.handlers, id, conn)
  }

  ghost predicate ConnsOk(s: State) {
    NoEmptySlice(s.conns) && forall id, conn :: CountAgrees(s, id, conn)
  }

  ghost predicate Inv(s: State) {
    CounterOk(s) && ConnsOk(s)
  }

  /** Adding all ones is an exact decrement, modulo 2^64. */
  lemma {:induction false} Decrements(n: nat)
    requires n > 0
    ensures AddUint64(n % TWO_TO_THE_64, ALL_ONES) == (n - 1) % TWO_TO_THE_64
  {
  }

  lemma {:induction false} LiveHandlerCounts(handlers: seq<Handler>, h: nat)
    requires h < |handlers| && IsLive(handlers[h])
    ensures Live(handlers) > 0
  {
    CountsAfterUpdate(handlers, h, handlers[h].(pc := Gone), 0);
  }

  predicate MovesHandler(e: Event) {
    e.Increment? || e.Decide? || e.DialEnds? || e.Track? || e.Untrack? || e.Decrement?
  }

  lemma {:induction false} Increments(n: nat)
    ensures AddUint64(n % TWO_TO_THE_64, 1) == (n + 1) % TWO_TO_THE_64
  {
  }

  lemma {:induction false} IncrementsExactly(n: nat)
    requires n + 1 < TWO_TO_THE_64
    ensures AddUint64(n % TWO_TO_THE_64, 1) == n + 1
  {
  }

  lemma {:induction false} CounterPreserved(s: State, e: Event)
    requires CounterOk(s) && Enabled(s, e)
    ensures CounterOk(Step(s, e))
  {
    var s' := Step(s, e);
    var live := Live(s.handlers);
    if e.Spawn? {
      assert s'.handlers[..|s.handlers|] == s.handlers;
    } else if MovesHandler(e) {
      CountsAfterUpdate(s.handlers, e.h, s'.handlers[e.h], s.maxConnections);
      if e.Increment? {
        Increments(live);
      }
      if e.Decrement? {
        LiveHandlerCounts(s.handlers, e.h);
        Decrements(live);
      }
    }
  }

  /** A seat is given only to a handler whose increment found few enough others alive. */
  lemma {:induction false} SeatsAfterIncrement(s: State, h: nat)
    requires CounterOk(s) && SeatsOk(s) && Enabled(s, Increment(h))
    requires Live(Step(s, Increment(h)).handlers) < TWO_TO_THE_64
    ensures SeatsOk(Step(s, Increment(h)))
  {
    var s' := Step(s, Increment(h));
    CountsAfterUpdate(s.handlers, h, s'.handlers[h], s.maxConnections);
    CountsAreOrdered(s.handlers, s.maxConnections);
    IncrementsExactly(Live(s.handlers));
    assert s'.handlers[h].pc == Counted(Live(s.handlers) + 1);
  }

  lemma {:induction false} SeatsPreserved(s: State, e: Event)
    requires CounterOk(s) && SeatsOk(s) && Enabled(s, e) && Live(Step(s, e).handlers) < TWO_TO_THE_64
    ensures SeatsOk(Step(s, e))
  {
    var s' := Step(s, e);
    if e.Spawn? {
      assert s'.handlers[..|s.handlers|] == s.handlers;
    } else if e.Increment? {
      SeatsAfterIncrement(s, e.h);
    } else if MovesHandler(e) {
      CountsAfterUpdate(s.handlers, e.h, s'.handlers[e.h], s.maxConnections);
    }
  }

  lemma {:induction false} AddedCount(m: ConnMap, id: string, conn: Conn, j: string, c: Conn)
    requires NoEmptySlice(m)
    ensures BagOf(Added(m, id, conn), j)[c] == BagOf(m, j)[c] + One(j == id && c == conn)
  {
    AddedRefinesBags(m, id, conn);
  }

  lemma {:induction false} RemovedCount(m: ConnMap, id: string, conn: Conn, j: string, c: Conn)
    requires NoEmptySlice(m) && BagOf(m, id)[conn] > 0
    ensures BagOf(Removed(m, id, conn), j)[c] == BagOf(m, j)[c] - One(j == id && c == conn)
  {
    RemovedRefinesBags(m, id, conn);
  }

  lemma {:induction false} CountAfterTrack(s: State, h: nat, id: string, conn: Conn)
    requires Enabled(s, Track(h)) && NoEmptySlice(s.conns) && CountAgrees(s, id, conn)
    ensures CountAgrees(Step(s, Track(h)), id, conn)
  {
    TrackedAfterUpdate(s.handlers, h, s.handlers[h].(pc := Tracked), id, conn);
    AddedCount(s.conns, s.handlers[h].id, s.handlers[h].conn, id, conn);
  }

  lemma {:induction false} CountAfterUntrack(s: State, h: nat, id: string, conn: Conn)
    requires Enabled(s, Untrack(h)) && NoEmptySlice(s.conns) && CountAgrees(s, id, conn)
    requires CountAgrees(s, s.handlers[h].id, s.handlers[h].conn)
    ensures CountAgrees(Step(s, Untrack(h)), id, conn)
  {
    TrackedAfterUpdate(s.handlers, h, s.handlers[h].(pc := Leaving(true)), id, conn);
    TrackedCountWitness(s.handlers, s.handlers[h].id, s.handlers[h].conn);
    RemovedCount(s.conns, s.handlers[h].id, s.handlers[h].conn, id, conn);
  }

  lemma {:induction false} CountPreserved(s: State, e: Event, id: string, conn: Conn)
    requires ConnsOk(s) && Enabled(s, e)
    ensures CountAgrees(Step(s, e), id, conn)
  {
    var s' := Step(s, e);
    assert CountAgrees(s, id, conn);
    if e.Spawn? {
      assert s'.handlers[..|s.handlers|] == s.handlers;
    } else if e.Track? {
      CountAfterTrack(s, e.h, id, conn);
    } else if e.Untrack? {
      assert CountAgrees(s, s.handlers[e.h].id, s.handlers[e.h].conn);
      CountAfterUntrack(s, e.h, id, conn);
    } else if MovesHandler(e) {
      TrackedAfterUpdate(s.handlers, e.h, s'.handlers[e.h], id, conn);
    }
  }

  lemma {:induction false} ConnsPreserved(s: State, e: Event)
    requires ConnsOk(s) && Enabled(s, e)
    ensures ConnsOk(Step(s, e))
  {
    forall id, conn
      ensures CountAgrees(Step(s, e), id, conn)
    {
      CountPreserved(s, e, id, conn);
    }
    if e.Track? {
      AddedRefinesBags(s.conns, s.handlers[e.h].id, s.handlers[e.h].conn);
    } else if e.Untrack? {
      RemovedRefinesBags(s.conns, s.handlers[e.h].id, s.handlers[e.h].conn);
    }
  }

  // ---------- Runs ----------

  ghost predicate IsRun(s: State, events: seq<Event>)
    decreases |events|
  {
    events == [] || (Enabled(s, events[0]) && IsRun(Step(s, events[0]), events[1..]))
  }

  ghost function After(s: State, events: seq<Event>): State
    requires IsRun(s, events)
    decreases |events|
  {
    if events == [] then s else After(Step(s, events[0]), events[1..])
  }

  ghost predicate Reachable(s: State) {
    exists max, events :: IsRun(Init(max), events) && After(Init(max), events) == s
  }

  lemma {:induction false} RunInv(s: State, events: seq<Event>)
    requires Inv(s) && IsRun(s, events)
    ensures Inv(After(s, events))
    decreases |events|
  {
    if events != [] {
      CounterPreserved(s, events[0]);
      ConnsPreserved(s, events[0]);
      RunInv(Step(s, events[0]), events[1..]);
    }
  }

  lemma {:induction false} ReachableInv(s: State)
    requires Reachable(s)
    ensures Inv(s)
  {
    var max, events :| IsRun(Init(max), events) && After(Init(max), events) == s;
    RunInv(Init(max), events);
  }

  // ---------- Theorems ----------

  /** The counter is the number of live handlers modulo 2^64, and exactly it while they are fewer. */
  lemma {:induction false} CounterExact(s: State)
    requires Reachable(s)
    ensures s.counter == Live(s.handlers) % TWO_TO_THE_64
    ensures s.counter == Live(s.handlers) <==> Live(s.handlers) < TWO_TO_THE_64
  {
    ReachableInv(s);
  }

  /** Fewer than 2^64 handlers are alive, now and at every later state of the run. */
  ghost predicate StaysBelow(s: State, events: seq<Event>)
    requires IsRun(s, events)
    decreases |events|
  {
    && Live(s.handlers) < TWO_TO_THE_64
    && (events == [] || StaysBelow(Step(s, events[0]), events[1..]))
  }

  ghost predicate ReachableBelow(s: State) {
    exists max, events ::
      IsRun(Init(max), events) && StaysBelow(Init(max), events) && After(Init(max), events) == s
  }

  lemma {:induction false} RunKeepsSeats(s: State, events: seq<Event>)
    requires CounterOk(s) && SeatsOk(s) && IsRun(s, events) && StaysBelow(s, events)
    ensures SeatsOk(After(s, events))
    decreases |events|
  {
    if events != [] {
      CounterPreserved(s, events[0]);
      SeatsPreserved(s, events[0]);
      RunKeepsSeats(Step(s, events[0]), events[1..]);
    }
  }

  /** While fewer than 2^64 handlers are alive, no more than the limit are ever past the check at once. */
  lemma {:induction false} AdmissionBound(s: State)
    requires ReachableBelow(s) && s.maxConnections > 0
    ensures Admitted(s.handlers) <= s.maxConnections
  {
    var max, events :|
      IsRun(Init(max), events) && StaysBelow(Init(max), events) && After(Init(max), events) == s;
    RunKeepsSeats(Init(max), events);
    CountsAreOrdered(s.handlers, s.maxConnections);
  }

  /**
   * The value a handler's increment returns, by which it is admitted or refused, is the number of
   * handlers alive right after it, itself included, exactly while these are fewer than 2^64.
   */
  lemma {:induction false} IncrementCountsLive(s: State, h: nat)
    requires Reachable(s) && Enabled(s, Increment(h))
    ensures var s' := Step(s, Increment(h));
      && s'.handlers[h].pc.Counted?
      && (s'.handlers[h].pc.active == Live(s'.handlers) <==> Live(s'.handlers) < TWO_TO_THE_64)
  {
    ReachableInv(s);
    CounterPreserved(s, Increment(h));
  }

  // ---------- Who is admitted, and who is tracked ----------

  /** What the value of its increment makes of a handler. */
  predicate FollowsFrom(pc: Pc, active: Uint64, max: Uint64) {
    match pc
    case Spawned => false
    case Counted(a) => a == active
    case Leaving(admitted) => admitted <==> max == 0 || active <= max
    case Gone => true
    case _ => max == 0 || active <= max
  }

  lemma {:induction false} FollowsStep(s: State, e: Event, h: nat, active: Uint64)
    requires Enabled(s, e) && h < |s.handlers| && FollowsFrom(s.handlers[h].pc, active, s.maxConnections)
    ensures var s' := Step(s, e);
      s'.maxConnections == s.maxConnections && h < |s'.handlers|
      && FollowsFrom(s'.handlers[h].pc, active, s.maxConnections)
  {
  }

  lemma {:induction false} FollowsRun(s: State, events: seq<Event>, h: nat, active: Uint64)
    requires IsRun(s, events) && h < |s.handlers| && FollowsFrom(s.handlers[h].pc, active, s.maxConnections)
    ensures h < |After(s, events).handlers|
    ensures FollowsFrom(After(s, events).handlers[h].pc, active, s.maxConnections)
    decreases |events|
  {
    if events != [] {
      FollowsStep(s, events[0], h, active);
      FollowsRun(Step(s, events[0]), events[1..], h, active);
    }
  }

  /** Turned away by the check. */
  predicate IsRefused(h: Handler) {
    h.pc == Leaving(false)
  }

  /**
   * Whether a handler gets past the check is settled by the handlers alive right after its
   * increment, whatever happens before it decides: it is refused if there is a limit and they
   * outnumber it, counted modulo 2^64, and admitted otherwise.
   */
  lemma {:induction false} AdmittedIffWithinLimit(s: State, h: nat, events: seq<Event>)
    requires Reachable(s) && Enabled(s, Increment(h)) && IsRun(Step(s, Increment(h)), events)
    ensures h < |After(Step(s, Increment(h)), events).handlers|
    ensures var live := Live(Step(s, Increment(h)).handlers) % TWO_TO_THE_64;
      var handler := After(Step(s, Increment(h)), events).handlers[h];
      && !handler.pc.Spawned?
      && (!handler.pc.Counted? && !handler.pc.Gone? ==>
            if 0 < s.maxConnections < live then IsRefused(handler) else IsAdmitted(handler))
  {
    ReachableInv(s);
    CounterPreserved(s, Increment(h));
    var s' := Step(s, Increment(h));
    FollowsRun(s', events, h, s'.counter);
  }

  /** Without a limit nobody is ever refused. */
  lemma {:induction false} NoLimitNoRefusal(s: State, h: nat)
    requires Reachable(s) && s.maxConnections == 0 && h < |s.handlers|
    ensures !IsRefused(s.handlers[h])
  {
    var max, events :| IsRun(Init(max), events) && After(Init(max), events) == s;
    NoRefusalRun(Init(max), events);
  }

  ghost predicate NobodyRefused(s: State) {
    s.maxConnections == 0 ==> forall h :: 0 <= h < |s.handlers| ==> !IsRefused(s.handlers[h])
  }

  lemma {:induction false} NoRefusalRun(s: State, events: seq<Event>)
    requires NobodyRefused(s) && IsRun(s, events)
    ensures After(s, events).maxConnections == s.maxConnections && NobodyRefused(After(s, events))
    decreases |events|
  {
    if events != [] {
      NoRefusalStep(s, events[0]);
      NoRefusalRun(Step(s, events[0]), events[1..]);
    }
  }

  lemma {:induction false} NoRefusalStep(s: State, e: Event)
    requires NobodyRefused(s) && Enabled(s, e)
    ensures Step(s, e).maxConnections == s.maxConnections && NobodyRefused(Step(s, e))
  {
  }

  /** Past the dial, without having been tracked. */
  predicate NeverTracked(pc: Pc) {
    pc == Leaving(true) || pc.Gone?
  }

  lemma {:induction false} UntrackedRun(s: State, events: seq<Event>, h: nat)
    requires IsRun(s, events) && h < |s.handlers| && NeverTracked(s.handlers[h].pc)
    ensures h < |After(s, events).handlers| && NeverTracked(After(s, events).handlers[h].pc) && Track(h) !in events
    decreases |events|
  {
    if events != [] {
      AfterDial(s, events[0], h);
      UntrackedRun(Step(s, events[0]), events[1..], h);
      assert events == [events[0]] + events[1..];
    }
  }

  /** A dialed handler moves only by being tracked, and one that never was stays so. */
  lemma {:induction false} AfterDial(s: State, e: Event, h: nat)
    requires Enabled(s, e) && h < |s.handlers|
    ensures h < |Step(s, e).handlers|
    ensures NeverTracked(s.handlers[h].pc) ==> NeverTracked(Step(s, e).handlers[h].pc) && e != Track(h)
    ensures s.handlers[h].pc.Dialed? ==> Step(s, e).handlers[h].pc == if e == Track(h) then Tracked else Dialed
    ensures s.handlers[h].pc.Tracked? ==>
      e != Track(h) && (Step(s, e).handlers[h].pc.Tracked? || NeverTracked(Step(s, e).handlers[h].pc))
  {
  }

  lemma {:induction false} TrackedRun(s: State, events: seq<Event>, h: nat)
    requires IsRun(s, events) && h < |s.handlers| && s.handlers[h].pc.Tracked?
    ensures h < |After(s, events).handlers| && !After(s, events).handlers[h].pc.Dialed? && Track(h) !in events
    decreases |events|
  {
    if events != [] {
      AfterDial(s, events[0], h);
      if Step(s, events[0]).handlers[h].pc.Tracked? {
        TrackedRun(Step(s, events[0]), events[1..], h);
      } else {
        UntrackedRun(Step(s, events[0]), events[1..], h);
      }
      assert events == [events[0]] + events[1..];
    }
  }

  lemma {:induction false} DialedRun(s: State, events: seq<Event>, h: nat)
    requires IsRun(s, events) && h < |s.handlers| && s.handlers[h].pc.Dialed?
    ensures h < |After(s, events).handlers|
    ensures Track(h) in events <==> !After(s, events).handlers[h].pc.Dialed?
    decreases |events|
  {
    if events != [] {
      AfterDial(s, events[0], h);
      if events[0] == Track(h) {
        TrackedRun(Step(s, events[0]), events[1..], h);
      } else {
        DialedRun(Step(s, events[0]), events[1..], h);
        assert events == [events[0]] + events[1..];
      }
    }
  }

  /** Exactly the handlers whose dial succeeded come to be tracked: they go nowhere else, and no other gets there. */
  lemma {:induction false} TrackedIffDialed(s: State, h: nat, ok: bool, events: seq<Event>)
    requires Enabled(s, DialEnds(h, ok)) && IsRun(Step(s, DialEnds(h, ok)), events)
    ensures h < |After(Step(s, DialEnds(h, ok)), events).handlers|
    ensures Track(h) in events <==> ok && !After(Step(s, DialEnds(h, ok)), events).handlers[h].pc.Dialed?
  {
    if ok {
      DialedRun(Step(s, DialEnds(h, ok)), events, h);
    } else {
      UntrackedRun(Step(s, DialEnds(h, ok)), events, h);
    }
  }

  // ---------- Availability and shutdown ----------

  /** `AvailableConn` says whether one more handler would be admitted, unless the counter wrapped below the limit. */
  lemma {:induction false} AvailableConnIsExact(s: State)
    requires Reachable(s)
    ensures var live, max := Live(s.handlers), s.maxConnections;
      var exact := AvailableConn(s) <==> max == 0 || live < max;
      exact <==> live < TWO_TO_THE_64 || max <= live % TWO_TO_THE_64
  {
    ReachableInv(s);
  }

  /** Shutdown succeeds exactly when it looks at an instant without live handlers, or with a multiple of 2^64. */
  lemma {:induction false} ShutdownIsHonest(s: State)
    requires Reachable(s) && Enabled(s, Look)
    ensures var idle := forall h :: 0 <= h < |s.handlers| ==> !IsLive(s.handlers[h]);
      var wrapped := TWO_TO_THE_64 <= Live(s.handlers) && Live(s.handlers) % TWO_TO_THE_64 == 0;
      Step(s, Look).shutdown == Finished(0) <==> idle || wrapped
    ensures Step(s, Look).shutdown == Finished(Live(s.handlers) % TWO_TO_THE_64)
  {
    ReachableInv(s);
    NoneLive(s.handlers);
  }

  /** Polling ends exactly at the timeout, or at a poll while no handler is live (or a multiple of 2^64 are). */
  lemma {:induction false} PollingEndsIff(s: State, e: Event)
    requires Reachable(s) && s.shutdown.Polling? && Enabled(s, e)
    ensures Step(s, e).shutdown ==
      if e.TimeOut? || (e.Poll? && Live(s.handlers) % TWO_TO_THE_64 == 0) then LastLook else Polling
  {
    ReachableInv(s);
  }

  /** Event n of the run is a poll that sees a zero counter. */
  ghost predicate SawZero(s: State, events: seq<Event>, n: nat)
    requires IsRun(s, events)
    decreases |events|
  {
    n < |events| &&
    if n == 0 then events[0].Poll? && s.counter == 0 else SawZero(Step(s, events[0]), events[1..], n - 1)
  }

  lemma {:induction false} WaitsForZero(s: State, events: seq<Event>)
    requires IsRun(s, events) && TimeOut !in events && (s.shutdown.NotCalled? || s.shutdown.Polling?)
    ensures var after := After(s, events).shutdown;
      after.LastLook? || after.Finished? ==> exists n: nat :: SawZero(s, events, n)
    decreases |events|
  {
    if events != [] {
      var s1 := Step(s, events[0]);
      if s1.shutdown.LastLook? {
        assert events[0] != TimeOut;
        assert SawZero(s, events, 0);
      } else {
        WaitsForZero(s1, events[1..]);
        if n: nat :| SawZero(s1, events[1..], n) {
          assert SawZero(s, events, n + 1);
        }
      }
    }
  }

  /** Without a timeout, `Shutdown` takes its last look only after a poll that saw a zero counter. */
  lemma {:induction false} ShutdownWaits(max: Uint64, events: seq<Event>)
    requires IsRun(Init(max), events) && TimeOut !in events
    ensures var after := After(Init(max), events).shutdown;
      after.LastLook? || after.Finished? ==> exists n: nat :: SawZero(Init(max), events, n)
  {
    WaitsForZero(Init(max), events);
  }

  lemma {:induction false} NoneLive(handlers: seq<Handler>)
    ensures Live(handlers) == 0 <==> forall h :: 0 <= h < |handlers| ==> !IsLive(handlers[h])
  {
    if h :| 0 <= h < |handlers| && IsLive(handlers[h]) {
      LiveHandlerCounts(handlers, h);
    } else if handlers != [] {
      NoneLive(handlers[..|handlers| - 1]);
      assert !IsLive(handlers[|handlers| - 1]);
    }
  }

  /** The set holds exactly the connections of the handlers between `Add` and `Remove`. */
  lemma {:induction false} ConnSetIsExact(s: State, id: string)
    requires Reachable(s)
    ensures forall conn :: CountAgrees(s, id, conn)
    ensures id in s.conns <==> exists h :: 0 <= h < |s.handlers| && s.handlers[h].pc.Tracked? && s.handlers[h].id == id
  {
    ReachableInv(s);
    if h :| 0 <= h < |s.handlers| && s.handlers[h].pc.Tracked? && s.handlers[h].id == id {
      TrackedCountWitness(s.handlers, id, s.handlers[h].conn);
      assert CountAgrees(s, id, s.handlers[h].conn);
      assert s.handlers[h].conn in BagOf(s.conns, id);
    } else if id in s.conns {
      var conn := s.conns[id][0];
      assert conn in BagOf(s.conns, id) && CountAgrees(s, id, conn);
      TrackedCountWitness(s.handlers, id, conn);
      assert false;
    }
  }

  /** A handler's `Remove` always finds the connection. */
  lemma {:induction false} RemoveNeverFails(s: State, h: nat)
    requires Reachable(s) && Enabled(s, Untrack(h))
    ensures s.handlers[h].conn in ListOf(s.conns, s.handlers[h].id)
  {
    ReachableInv(s);
    TrackedCountWitness(s.handlers, s.handlers[h].id, s.handlers[h].conn);
    assert CountAgrees(s, s.handlers[h].id, s.handlers[h].conn);
    assert s.handlers[h].conn in BagOf(s.conns, s.handlers[h].id);
  }

  // ---------- Where the bound ends ----------

  lemma {:induction false} RunExtends(s: State, events: seq<Event>, e: Event)
    requires IsRun(s, events) && Enabled(After(s, events), e)
    ensures IsRun(s, events + [e]) && After(s, events + [e]) == Step(After(s, events), e)
    decreases |events|
  {
    if events == [] {
      assert [e][1..] == [];
    } else {
      RunExtends(Step(s, events[0]), events[1..], e);
      assert (events + [e])[1..] == events[1..] + [e];
    }
  }

  lemma {:induction false} StaysBelowExtends(s: State, events: seq<Event>, e: Event)
    requires IsRun(s, events) && StaysBelow(s, events) && Enabled(After(s, events), e)
    requires Live(Step(After(s, events), e).handlers) < TWO_TO_THE_64
    ensures IsRun(s, events + [e]) && StaysBelow(s, events + [e])
    decreases |events|
  {
    RunExtends(s, events, e);
    if events == [] {
      assert [e][1..] == [];
    } else {
      StaysBelowExtends(Step(s, events[0]), events[1..], e);
      assert (events + [e])[1..] == events[1..] + [e];
    }
  }

  lemma {:induction false} ReachableBelowStep(s: State, e: Event)
    requires ReachableBelow(s) && Enabled(s, e) && Live(Step(s, e).handlers) < TWO_TO_THE_64
    ensures ReachableBelow(Step(s, e))
  {
    var max, events :|
      IsRun(Init(max), events) && StaysBelow(Init(max), events) && After(Init(max), events) == s;
    RunExtends(Init(max), events, e);
    StaysBelowExtends(Init(max), events, e);
  }

  /** The k-th of many handlers that count and decide one after the other, and then stay. */
  function FloodHandler(max: Uint64, k: int): Handler {
    Handler("", 0, if max > 0 && (k + 1) % TWO_TO_THE_64 > max then Leaving(false) else Dialing)
  }

  function Flooded(max: Uint64, n: nat): State {
    State(max, n % TWO_TO_THE_64, map[], seq(n, k => FloodHandler(max, k)), NotCalled)
  }

  lemma {:induction false} FloodLive(max: Uint64, n: nat)
    ensures Live(Flooded(max, n).handlers) == n
  {
    var handlers := Flooded(max, n).handlers;
    if n > 0 {
      FloodLive(max, n - 1);
      assert handlers[..n - 1] == Flooded(max, n - 1).handlers;
    }
  }

  /** One more handler arrives. */
  lemma {:induction false} FloodArrival(max: Uint64, n: nat)
    requires ReachableBelow(Flooded(max, n)) && n < TWO_TO_THE_64
    ensures var s := Step(Flooded(max, n), Spawn("", 0));
      && ReachableBelow(s)
      && Enabled(s, Increment(n))
      && Live(Step(s, Increment(n)).handlers) == n + 1
  {
    var s0 := Flooded(max, n);
    var s1 := Step(s0, Spawn("", 0));
    FloodLive(max, n);
    assert s1.handlers[..n] == s0.handlers;
    ReachableBelowStep(s0, Spawn("", 0));
    CountsAfterUpdate(s1.handlers, n, Step(s1, Increment(n)).handlers[n], max);
  }

  /** It counts and decides. */
  lemma {:induction false} FloodDecision(max: Uint64, n: nat)
    ensures var s := Step(Flooded(max, n), Spawn("", 0));
      && Enabled(s, Increment(n))
      && Enabled(Step(s, Increment(n)), Decide(n))
      && Step(Step(s, Increment(n)), Decide(n)) == Flooded(max, n + 1)
  {
    var s := Step(Flooded(max, n), Spawn("", 0));
    Increments(n);
    assert Step(Step(s, Increment(n)), Decide(n)).handlers == Flooded(max, n + 1).handlers;
  }

  lemma {:induction false} FloodIsReachable(max: Uint64, n: nat)
    requires n < TWO_TO_THE_64
    ensures ReachableBelow(Flooded(max, n))
  {
    if n == 0 {
      assert IsRun(Init(max), []) && After(Init(max), []) == Init(max);
      assert Flooded(max, 0) == Init(max);
      assert StaysBelow(Init(max), []);
    } else {
      FloodIsReachable(max, n - 1);
      FloodArrival(max, n - 1);
      FloodDecision(max, n - 1);
      FloodLive(max, n);
      var s := Step(Flooded(max, n - 1), Spawn("", 0));
      ReachableBelowStep(s, Increment(n - 1));
      ReachableBelowStep(Step(s, Increment(n - 1)), Decide(n - 1));
    }
  }

  /** Before the counter wraps, exactly the first handlers up to the limit are admitted. */
  lemma {:induction false} FloodHandlerAdmitted(max: Uint64, k: nat)
    requires 0 < max && k + 1 < TWO_TO_THE_64
    ensures IsAdmitted(FloodHandler(max, k)) <==> k < max
  {
  }

  lemma {:induction false} FloodAdmits(max: Uint64, n: nat)
    requires 0 < max && n < TWO_TO_THE_64
    ensures Admitted(Flooded(max, n).handlers) == if n < max then n else max
  {
    var handlers := Flooded(max, n).handlers;
    if n > 0 {
      FloodAdmits(max, n - 1);
      FloodHandlerAdmitted(max, n - 1);
      assert handlers[..n - 1] == Flooded(max, n - 1).handlers;
    }
  }

  /** The handler's increment and decision take the live handlers to 2^64, and the admitted ones past the limit. */
  predicate BreaksBound(s: State, h: nat) {
    && Enabled(s, Increment(h))
    && Live(Step(s, Increment(h)).handlers) == TWO_TO_THE_64
    && Enabled(Step(s, Increment(h)), Decide(h))
    && Admitted(Step(Step(s, Increment(h)), Decide(h)).handlers) > s.maxConnections
  }

  /** Whatever the limit, a handler that is the 2^64th alive makes the counter wrap around and gets past it. */
  lemma {:induction false} AdmissionBoundIsSharp(max: Uint64)
    requires max > 0
    ensures exists s, h: nat :: ReachableBelow(s) && s.maxConnections == max && BreaksBound(s, h)
  {
    var n := TWO_TO_THE_64 - 1;
    var s := Step(Flooded(max, n), Spawn("", 0));
    FloodIsReachable(max, n);
    FloodArrival(max, n);
    FloodDecision(max, n);
    FloodAdmits(max, n);
    assert Flooded(max, n + 1).handlers[..n] == Flooded(max, n).handlers;
    assert BreaksBound(s, n);
  }
}
