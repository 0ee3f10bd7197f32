/**
 * The connection channel of the FUSE root: senders hold the reader lock while they send, closers
 * hold the writer lock while they close the channel and clear the field.
 */
module FuseRoot {
  import opened Basics

  /** `Holding` has the reader lock and has seen whether `dst` was set. */
  datatype SenderPc = Arrived | Holding(sawDst: bool) | Releasing | SenderDone

  /** From `Locked` to `Unlocking` the closer has the writer lock. */
  datatype CloserPc = Called | Locked | Clearing | Unlocking | CloserDone

  datatype Action = Sent(conn: nat) | ClosedDst

  /**
   * `buffer` is the one-slot channel, `received` what its reader took out, and `history` every
   * send and close in order. The n-th sender sends connection n.
   */
  datatype State = State(
    dstSet: bool,
    closed: bool,
    buffer: seq<nat>,
    received: seq<nat>,
    senders: seq<SenderPc>,
    closers: seq<CloserPc>,
    history: seq<Action>,
    panicked: bool)

  const INIT: State := State(true, false, [], [], [], [], [], false)

  datatype Event =
    | NewConn
    | CallClose
    | RLock(n: nat)
    | Send(n: nat)
    | RUnlock(n: nat)
    | Lock(m: nat)
    | CloseIfSet(m: nat)
    | Clear(m: nat)
    | Unlock(m: nat)
    | Receive

  predicate HoldsReader(pc: SenderPc) { pc.Holding? || pc.Releasing? }
  predicate HoldsWriter(pc: CloserPc) { pc.Locked? || pc.Clearing? || pc.Unlocking? }

  predicate NoReader(s: State) { forall n :: 0 <= n < |s.senders| ==> !HoldsReader(s.senders[n]) }
  predicate NoWriter(s: State) { forall m :: 0 <= m < |s.closers| ==> !HoldsWriter(s.closers[m]) }

  /** A send waits for room, unless the channel is closed: then it panics. */
  predicate Enabled(s: State, e: Event) {
    match e
    case NewConn => true
    case CallClose => true
    case RLock(n) => n < |s.senders| && s.senders[n].Arrived? && NoWriter(s)
    case Send(n) => n < |s.senders| && s.senders[n].Holding? && (s.senders[n].sawDst ==> s.closed || s.buffer == [])
    case RUnlock(n) => n < |s.senders| && s.senders[n].Releasing?
    case Lock(m) => m < |s.closers| && s.closers[m].Called? && NoReader(s) && NoWriter(s)
    case CloseIfSet(m) => m < |s.closers| && s.closers[m].Locked?
    case Clear(m) => m < |s.closers| && s.closers[m].Clearing?
    case Unlock(m) => m < |s.closers| && s.closers[m].Unlocking?
    case Receive => s.buffer != []
  }

  function Step(s: State, e: Event): State
    requires Enabled(s, e)
  {
    match e
    case NewConn => s.(senders := s.senders + [Arrived])
    case CallClose => s.(closers := s.closers + [Called])
    case RLock(n) => s.(senders := s.senders[n := Holding(s.dstSet)])
    case Send(n) =>
      var s' := s.(senders := s.senders[n := Releasing]);
      if !s.senders[n].sawDst then s'
      else if s.closed then s'.(panicked := true)
      else s'.(buffer := s.buffer + [n], history := s.history + [Sent(n)])
    case RUnlock(n) => s.(senders := s.senders[n := SenderDone])
    case Lock(m) => s.(closers := s.closers[m := Locked])
    case CloseIfSet(m) =>
      if !s.dstSet then s.(closers := s.closers[m := Unlocking])
      else s.(closers := s.closers[m := Clearing], closed := true, panicked := s.panicked || s.closed,
              history := s.history + [ClosedDst])
    case Clear(m) => s.(closers := s.closers[m := Unlocking], dstSet := false)
    case Unlock(m) => s.(closers := s.closers[m := CloserDone])
    case Receive => s.(received := s.received + [s.buffer[0]], buffer := s.buffer[1..])
  }

  // ---------- Invariant ----------

  /** The connections sent, in order. */
  function SentConns(history: seq<Action>): seq<nat> {
    if history == [] then []
    else
      var last := history[|history| - 1];
      SentConns(history[..|history| - 1]) + (if last.Sent? then [last.conn] else [])
  }

  /** Readers and writers exclude each other, and so do writers. */
  ghost predicate Exclusive(s: State) {
    && (NoReader(s) || NoWriter(s))
    && (forall a, b :: 0 <= a < b < |s.closers| ==> !(HoldsWriter(s.closers[a]) && HoldsWriter(s.closers[b])))
  }

  /** Whoever holds the reader lock knows whether the field is set. */
  ghost predicate SeenOk(s: State) {
    forall n :: 0 <= n < |s.senders| && s.senders[n].Holding? ==> s.senders[n].sawDst == s.dstSet
  }

  /** The field is set and the channel closed exactly while a closer is about to clear the field. */
  ghost predicate FieldOk(s: State) {
    && (forall m :: 0 <= m < |s.closers| && s.closers[m].Clearing? ==> s.dstSet && s.closed)
    && (s.dstSet && s.closed ==> exists m :: 0 <= m < |s.closers| && s.closers[m].Clearing?)
    && (!s.dstSet ==> s.closed)
  }

  /** The channel is closed at most once, after all sends. */
  ghost predicate ClosedLast(history: seq<Action>, closed: bool) {
    && (closed <==> history != [] && history[|history| - 1].ClosedDst?)
    && (forall k :: 0 <= k < |history| - 1 ==> history[k].Sent?)
  }

  ghost predicate HistoryOk(s: State) {
    ClosedLast(s.history, s.closed) && s.received + s.buffer == SentConns(s.history)
  }

  ghost predicate Inv(s: State) {
    !s.panicked && Exclusive(s) && SeenOk(s) && FieldOk(s) && HistoryOk(s)
  }

  lemma {:induction false} ExclusivePreserved(s: State, e: Event)
    requires Exclusive(s) && Enabled(s, e)
    ensures Exclusive(Step(s, e))
  {
  }

  lemma {:induction false} FieldPreserved(s: State, e: Event)
    requires Exclusive(s) && FieldOk(s) && Enabled(s, e)
    ensures FieldOk(Step(s, e))
  {
    if s.dstSet && s.closed {
      var m :| 0 <= m < |s.closers| && s.closers[m].Clearing?;
      assert HoldsWriter(s.closers[m]);
      assert e != Clear(m) ==> Step(s, e).closers[m].Clearing?;
    } else if e.CloseIfSet? {
      assert s.dstSet ==> Step(s, e).closers[e.m].Clearing?;
    }
  }

  lemma {:induction false} SeenPreserved(s: State, e: Event)
    requires Exclusive(s) && SeenOk(s) && Enabled(s, e)
    ensures SeenOk(Step(s, e))
  {
  }

  /** Whoever holds the reader lock sees the channel open for as long as the field was set. */
  lemma {:induction false} SenderSeesOpen(s: State, n: nat)
    requires Exclusive(s) && SeenOk(s) && FieldOk(s) && n < |s.senders| && s.senders[n] == Holding(true)
    ensures !s.closed
  {
    assert HoldsReader(s.senders[n]);
  }

  /** Whoever takes the writer lock and finds the field set finds the channel open. */
  lemma {:induction false} CloserSeesOpen(s: State, m: nat)
    requires Exclusive(s) && FieldOk(s) && m < |s.closers| && s.closers[m].Locked? && s.dstSet
    ensures !s.closed
  {
    assert HoldsWriter(s.closers[m]);
  }

  lemma {:induction false} SentAfter(history: seq<Action>, a: Action)
    ensures SentConns(history + [a]) == SentConns(history) + (if a.Sent? then [a.conn] else [])
  {
    assert (history + [a])[..|history|] == history;
  }

  lemma {:induction false} ClosedLastExtends(history: seq<Action>, a: Action)
    requires ClosedLast(history, false)
    ensures ClosedLast(history + [a], a.ClosedDst?)
  {
  }

  lemma {:induction false} HistoryAfterSend(s: State, n: nat)
    requires Enabled(s, Send(n)) && HistoryOk(s) && (s.senders[n].sawDst ==> !s.closed)
    ensures HistoryOk(Step(s, Send(n)))
  {
    if s.senders[n].sawDst {
      SentAfter(s.history, Sent(n));
      ClosedLastExtends(s.history, Sent(n));
      assert s.received + (s.buffer + [n]) == s.received + s.buffer + [n];
    }
  }

  lemma {:induction false} HistoryAfterClose(s: State, m: nat)
    requires Enabled(s, CloseIfSet(m)) && HistoryOk(s) && (s.dstSet ==> !s.closed)
    ensures HistoryOk(Step(s, CloseIfSet(m)))
  {
    if s.dstSet {
      SentAfter(s.history, ClosedDst);
      ClosedLastExtends(s.history, ClosedDst);
    }
  }

  lemma {:induction false} HistoryPreserved(s: State, e: Event)
    requires Inv(s) && Enabled(s, e)
    ensures HistoryOk(Step(s, e)) && !Step(s, e).panicked
  {
    match e {
      case Send(n) =>
        if s.senders[n].sawDst {
          SenderSeesOpen(s, n);
        }
        HistoryAfterSend(s, n);
      case CloseIfSet(m) =>
        if s.dstSet {
          CloserSeesOpen(s, m);
        }
        HistoryAfterClose(s, m);
      case Receive =>
        assert Step(s, e).received + Step(s, e).buffer == s.received + s.buffer;
      case _ =>
    }
  }

  // ---------- Runs ----------

  ghost predicate IsRun(s: State, events: seq<Event>)
    decreases |events|
  {
    events == [] || (Enabled(s, events[0]) && IsRun(Step(s, events[0]), events[1..]))
  }

  ghost function After(s: State, events: seq<Event>): State
    requires IsRun(s, events)
    decreases |events|
  {
    if events == [] then s else After(Step(s, events[0]), events[1..])
  }

  lemma {:induction false} StepInv(s: State, e: Event)
    requires Inv(s) && Enabled(s, e)
    ensures Inv(Step(s, e))
  {
    ExclusivePreserved(s, e);
    SeenPreserved(s, e);
    FieldPreserved(s, e);
    HistoryPreserved(s, e);
  }

  lemma {:induction false} RunInv(s: State, events: seq<Event>)
    requires Inv(s) && IsRun(s, events)
    ensures Inv(After(s, events))
    decreases |events|
  {
    if events != [] {
      StepInv(s, events[0]);
      RunInv(Step(s, events[0]), events[1..]);
    }
  }

  /**
   * However many senders and closers interleave: nobody sends on or closes a closed channel, the
   * channel is closed at most once, nothing is sent after that, and the reader gets the
   * connections in the order they were sent, none lost.
   */
  lemma {:induction false} SendCloseSafety(events: seq<Event>)
    requires IsRun(INIT, events)
    ensures var s := After(INIT, events);
      && !s.panicked
      && (forall k :: 0 <= k < |s.history| && s.history[k].ClosedDst? ==> k == |s.history| - 1)
      && (!s.dstSet ==> s.closed)
      && s.received + s.buffer == SentConns(s.history)
  {
    RunInv(INIT, events);
  }

  /** Once `Close` has cleared the field, no run extends the history any more. */
  lemma {:induction false} NoSendAfterClear(events: seq<Event>, more: seq<Event>)
    requires IsRun(INIT, events) && !After(INIT, events).dstSet && IsRun(After(INIT, events), more)
    ensures After(After(INIT, events), more).history == After(INIT, events).history
  {
    RunInv(INIT, events);
    ClearedStays(After(INIT, events), more);
  }

  lemma {:induction false} ClearedStays(s: State, events: seq<Event>)
    requires Inv(s) && !s.dstSet && IsRun(s, events)
    ensures !After(s, events).dstSet && After(s, events).history == s.history
    decreases |events|
  {
    if events != [] {
      StepInv(s, events[0]);
      ClearedStays(Step(s, events[0]), events[1..]);
    }
  }

  // ---------- Every connection is sent, unless the field was cleared before ----------

  /** Has sent its connection, or was turned away. */
  predicate PastSend(pc: SenderPc) { pc.Releasing? || pc.SenderDone? }

  ghost predicate SendsOk(s: State) {
    && (forall n: nat :: Sent(n) in s.history ==> n < |s.senders| && PastSend(s.senders[n]))
    && (s.dstSet ==> forall n :: 0 <= n < |s.senders| && PastSend(s.senders[n]) ==> Sent(n) in s.history)
    && NoRepeats(SentConns(s.history))
  }

  lemma {:induction false} InSentConns(history: seq<Action>, n: nat)
    ensures n in SentConns(history) <==> Sent(n) in history
  {
    if history != [] {
      var last := |history| - 1;
      InSentConns(history[..last], n);
      assert history == history[..last] + [history[last]];
    }
  }

  lemma {:induction false} OtherSendersStay(s: State, e: Event, n: nat)
    requires Enabled(s, e) && n < |s.senders| && PastSend(s.senders[n])
    ensures n < |Step(s, e).senders| && PastSend(Step(s, e).senders[n])
  {
  }

  lemma {:induction false} NewlyPastSend(s: State, e: Event, n: nat)
    requires Enabled(s, e) && n < |Step(s, e).senders| && PastSend(Step(s, e).senders[n])
    ensures n < |s.senders| && (PastSend(s.senders[n]) || e == Send(n))
  {
  }

  /** Only a send adds a connection to the history: its own. */
  lemma {:induction false} HistoryStep(s: State, e: Event)
    requires Enabled(s, e)
    ensures Step(s, e).history ==
      if e.Send? && s.senders[e.n].sawDst && !s.closed then s.history + [Sent(e.n)]
      else if e.CloseIfSet? && s.dstSet then s.history + [ClosedDst]
      else s.history
    ensures Step(s, e).dstSet ==> s.dstSet
  {
  }

  lemma {:induction false} SendsPreserved(s: State, e: Event)
    requires Inv(s) && SendsOk(s) && Enabled(s, e)
    ensures SendsOk(Step(s, e))
  {
    var s' := Step(s, e);
    HistoryStep(s, e);
    forall n: nat | Sent(n) in s'.history
      ensures n < |s'.senders| && PastSend(s'.senders[n])
    {
      if Sent(n) in s.history {
        OtherSendersStay(s, e, n);
      }
    }
    if s'.dstSet {
      forall n | 0 <= n < |s'.senders| && PastSend(s'.senders[n])
        ensures Sent(n) in s'.history
      {
        NewlyPastSend(s, e, n);
        if !PastSend(s.senders[n]) {
          SenderSeesOpen(s, n);
        }
      }
    }
    SentOnceStep(s, e);
  }

  lemma {:induction false} SentOnceStep(s: State, e: Event)
    requires SendsOk(s) && Enabled(s, e)
    ensures NoRepeats(SentConns(Step(s, e).history))
  {
    HistoryStep(s, e);
    if e.Send? {
      SentAfter(s.history, Sent(e.n));
      InSentConns(s.history, e.n);
    } else {
      SentAfter(s.history, ClosedDst);
    }
  }

  lemma {:induction false} SendsRun(s: State, events: seq<Event>)
    requires Inv(s) && SendsOk(s) && IsRun(s, events)
    ensures SendsOk(After(s, events))
    decreases |events|
  {
    if events != [] {
      StepInv(s, events[0]);
      SendsPreserved(s, events[0]);
      SendsRun(Step(s, events[0]), events[1..]);
    }
  }

  /** While the field is set, whoever is done has sent its connection; and none is ever sent twice. */
  lemma {:induction false} EveryConnIsSent(events: seq<Event>, n: nat)
    requires IsRun(INIT, events)
    ensures var s := After(INIT, events);
      && NoRepeats(SentConns(s.history))
      && (s.dstSet && n < |s.senders| && PastSend(s.senders[n]) ==> n in SentConns(s.history))
  {
    SendsRun(INIT, events);
    InSentConns(After(INIT, events).history, n);
  }

  /** What the field's value at the time of its lock makes of a sender. */
  ghost predicate FateOf(s: State, n: nat, saw: bool) {
    && n < |s.senders|
    && (s.senders[n] == Holding(saw) || PastSend(s.senders[n]))
    && (Sent(n) in s.history <==> saw && PastSend(s.senders[n]))
  }

  lemma {:induction false} FateBegins(s: State, n: nat)
    requires SendsOk(s) && Enabled(s, RLock(n))
    ensures FateOf(Step(s, RLock(n)), n, s.dstSet)
  {
  }

  lemma {:induction false} FateStep(s: State, e: Event, n: nat, saw: bool)
    requires Inv(s) && FateOf(s, n, saw) && Enabled(s, e)
    ensures FateOf(Step(s, e), n, saw)
  {
    HistoryStep(s, e);
    if e == Send(n) && saw {
      SenderSeesOpen(s, n);
    }
    if PastSend(s.senders[n]) {
      OtherSendersStay(s, e, n);
    }
  }

  lemma {:induction false} FateRun(s: State, events: seq<Event>, n: nat, saw: bool)
    requires Inv(s) && FateOf(s, n, saw) && IsRun(s, events)
    ensures FateOf(After(s, events), n, saw)
    decreases |events|
  {
    if events != [] {
      StepInv(s, events[0]);
      FateStep(s, events[0], n, saw);
      FateRun(Step(s, events[0]), events[1..], n, saw);
    }
  }

  /**
   * A sender that is through has sent its connection exactly when the field was still set at the
   * time it got the reader lock. Those that get the lock later are turned away.
   */
  lemma {:induction false} SentIffFieldWasSet(events: seq<Event>, n: nat, more: seq<Event>)
    requires IsRun(INIT, events) && Enabled(After(INIT, events), RLock(n))
    requires IsRun(Step(After(INIT, events), RLock(n)), more)
    ensures var s, s' := After(INIT, events), After(Step(After(INIT, events), RLock(n)), more);
      && n < |s'.senders|
      && (s'.senders[n].Holding? || PastSend(s'.senders[n]))
      && (Sent(n) in s'.history <==> s.dstSet && PastSend(s'.senders[n]))
  {
    var s := After(INIT, events);
    RunInv(INIT, events);
    SendsRun(INIT, events);
    StepInv(s, RLock(n));
    FateBegins(s, n);
    FateRun(Step(s, RLock(n)), more, n, s.dstSet);
  }

  // ---------- Closing takes effect ----------

  ghost predicate ClosersOk(s: State) {
    forall m :: 0 <= m < |s.closers| && (s.closers[m].Unlocking? || s.closers[m].CloserDone?) ==> !s.dstSet
  }

  lemma {:induction false} ClosersStep(s: State, e: Event)
    requires ClosersOk(s) && Enabled(s, e)
    ensures ClosersOk(Step(s, e))
  {
    HistoryStep(s, e);
  }

  lemma {:induction false} ClosersRun(s: State, events: seq<Event>)
    requires ClosersOk(s) && IsRun(s, events)
    ensures ClosersOk(After(s, events))
    decreases |events|
  {
    if events != [] {
      ClosersStep(s, events[0]);
      ClosersRun(Step(s, events[0]), events[1..]);
    }
  }

  /** When a call of `Close` has given the lock back, the channel is closed and the field cleared. */
  lemma {:induction false} CloseTakesEffect(events: seq<Event>, m: nat)
    requires IsRun(INIT, events) && m < |After(INIT, events).closers| && After(INIT, events).closers[m].CloserDone?
    ensures var s := After(INIT, events);
      !s.dstSet && s.closed && s.history != [] && s.history[|s.history| - 1] == ClosedDst
  {
    ClosersRun(INIT, events);
    RunInv(INIT, events);
  }

  // ---------- Progress ----------

  predicate IsArrival(e: Event) { e.NewConn? || e.CallClose? }

  predicate AllDone(s: State) {
    && (forall n :: 0 <= n < |s.senders| ==> s.senders[n].SenderDone?)
    && (forall m :: 0 <= m < |s.closers| ==> s.closers[m].CloserDone?)
  }

  /** As long as somebody receives, no sender and no closer is stuck: some step is possible until all are done. */
  lemma {:induction false} NeverStuck(events: seq<Event>) returns (e: Event)
    requires IsRun(INIT, events) && !AllDone(After(INIT, events))
    ensures Enabled(After(INIT, events), e) && !IsArrival(e)
  {
    var s := After(INIT, events);
    if m :| 0 <= m < |s.closers| && HoldsWriter(s.closers[m]) {
      e := if s.closers[m].Locked? then CloseIfSet(m) else if s.closers[m].Clearing? then Clear(m) else Unlock(m);
    } else if n :| 0 <= n < |s.senders| && HoldsReader(s.senders[n]) {
      e := if s.senders[n].Releasing? then RUnlock(n) else if s.buffer == [] then Send(n) else Receive;
    } else if n :| 0 <= n < |s.senders| && !s.senders[n].SenderDone? {
      e := RLock(n);
    } else {
      var m :| 0 <= m < |s.closers| && !s.closers[m].CloserDone?;
      e := Lock(m);
    }
  }

  function SenderTodo(pc: SenderPc): nat {
    match pc
    case Arrived => 4
    case Holding(_) => 3
    case Releasing => 1
    case SenderDone => 0
  }

  function CloserTodo(pc: CloserPc): nat {
    match pc
    case Called => 4
    case Locked => 3
    case Clearing => 2
    case Unlocking => 1
    case CloserDone => 0
  }

  function SendersTodo(senders: seq<SenderPc>): nat {
    if senders == [] then 0 else SendersTodo(senders[..|senders| - 1]) + SenderTodo(senders[|senders| - 1])
  }

  function ClosersTodo(closers: seq<CloserPc>): nat {
    if closers == [] then 0 else ClosersTodo(closers[..|closers| - 1]) + CloserTodo(closers[|closers| - 1])
  }

  /** An upper bound on the steps still to come, if nobody else arrives. */
  function Remaining(s: State): nat {
    SendersTodo(s.senders) + ClosersTodo(s.closers) + |s.buffer|
  }

  lemma {:induction false} SendersTodoAfter(senders: seq<SenderPc>, n: nat, pc: SenderPc)
    requires n < |senders|
    ensures SendersTodo(senders[n := pc]) == SendersTodo(senders) + SenderTodo(pc) - SenderTodo(senders[n])
  {
    var last := |senders| - 1;
    if n == last {
      assert senders[n := pc][..last] == senders[..last];
    } else {
      SendersTodoAfter(senders[..last], n, pc);
      assert senders[n := pc][..last] == senders[..last][n := pc];
    }
  }

  lemma {:induction false} ClosersTodoAfter(closers: seq<CloserPc>, m: nat, pc: CloserPc)
    requires m < |closers|
    ensures ClosersTodo(closers[m := pc]) == ClosersTodo(closers) + CloserTodo(pc) - CloserTodo(closers[m])
  {
    var last := |closers| - 1;
    if m == last {
      assert closers[m := pc][..last] == closers[..last];
    } else {
      ClosersTodoAfter(closers[..last], m, pc);
      assert closers[m := pc][..last] == closers[..last][m := pc];
    }
  }

  lemma {:induction false} StepDecreases(s: State, e: Event)
    requires Enabled(s, e) && !IsArrival(e)
    ensures Remaining(Step(s, e)) < Remaining(s)
  {
    var s' := Step(s, e);
    if e.RLock? || e.Send? || e.RUnlock? {
      SendersTodoAfter(s.senders, e.n, s'.senders[e.n]);
    } else if !e.Receive? {
      ClosersTodoAfter(s.closers, e.m, s'.closers[e.m]);
    }
  }

  /** Without new arrivals no schedule takes more than the remaining steps. */
  lemma {:induction false} NeverEndless(s: State, events: seq<Event>)
    requires IsRun(s, events) && forall k :: 0 <= k < |events| ==> !IsArrival(events[k])
    ensures |events| + Remaining(After(s, events)) <= Remaining(s)
    decreases |events|
  {
    if events != [] {
      StepDecreases(s, events[0]);
      NeverEndless(Step(s, events[0]), events[1..]);
    }
  }
}
