/** Copying one direction of a connection, and the race between the two directions to close it. */
module Copier {
  import opened Basics

  type Byte = bv8
  type Error = string

  const BUFFER_SIZE := 4096

  /** What one `Read` gives: some bytes, and possibly an error (the end of the stream is one). */
  datatype ReadResult = ReadResult(data: seq<Byte>, err: Option<Error>)

  /** What the `Write` of a chunk does: how many of its bytes got through, and possibly an error. */
  datatype WriteResult = WriteResult(written: nat, err: Option<Error>)

  /** `Blocked` means that the copy still waits for the next read. */
  datatype Outcome = Blocked | Ended(readErr: bool, err: Error)

  /**
   * The environment of a copy: the inputs it will see and what would become of the write of each.
   * Readers do not overrun the buffer; writers report an error for every short write.
   */
  ghost predicate Lawful(inputs: seq<ReadResult>, writes: seq<WriteResult>) {
    && |inputs| == |writes|
    && (forall k :: 0 <= k < |inputs| ==>
          && |inputs[k].data| <= BUFFER_SIZE
          && writes[k].written <= |inputs[k].data|
          && (writes[k].written < |inputs[k].data| ==> writes[k].err.Some?))
  }

  /** Everything that was read, in order. */
  function BytesOf(inputs: seq<ReadResult>): seq<Byte> {
    if inputs == [] then [] else BytesOf(inputs[..|inputs| - 1]) + inputs[|inputs| - 1].data
  }

  /** The round that neither a read nor a write error ends; nothing read is not written. */
  predicate GoesOn(r: ReadResult, w: WriteResult) {
    r.err.None? && (r.data == [] || w.err.None?)
  }

  /** One read into the buffer, and the write of what was read; `out` is what got through. */
  method Relay(buf: array<Byte>, data: seq<Byte>, w: WriteResult) returns (out: seq<Byte>)
    requires |data| <= buf.Length && w.written <= |data|
    modifies buf
    ensures out == data[..w.written]
  {
    forall i | 0 <= i < |data| {
      buf[i] := data[i];
    }
    out := buf[..w.written];
  }

  /**
   * Copies until a read or a write fails; `taken` counts the reads. All chunks but the last are
   * delivered in full and in order; of the last one, the prefix that its write let through. The
   * error is that of the last read if it failed, since it happened first, and else that of the last
   * write.
   */
  method MyCopy(inputs: seq<ReadResult>, writes: seq<WriteResult>)
    returns (outcome: Outcome, delivered: seq<Byte>, taken: nat)
    requires Lawful(inputs, writes)
    ensures taken <= |inputs|
    ensures outcome.Blocked? ==> taken == |inputs| && delivered == BytesOf(inputs)
    ensures outcome.Blocked? <==>
      forall k :: 0 <= k < |inputs| ==> inputs[k].err.None? && (inputs[k].data == [] || writes[k].err.None?)
    ensures outcome.Ended? ==>
      && 0 < taken
      && (forall k :: 0 <= k < taken - 1 ==> GoesOn(inputs[k], writes[k]))
      && (outcome.readErr <==> inputs[taken - 1].err.Some?)
      && (outcome.readErr ==> inputs[taken - 1].err == Some(outcome.err))
      && (!outcome.readErr ==> inputs[taken - 1].data != [] && writes[taken - 1].err == Some(outcome.err))
      && delivered == BytesOf(inputs[..taken - 1]) + inputs[taken - 1].data[..writes[taken - 1].written]
    ensures delivered <= BytesOf(inputs[..taken])
  {
    var buf := new Byte[BUFFER_SIZE];
    taken, delivered := 0, [];
    while taken < |inputs|
      invariant taken <= |inputs|
      invariant forall k :: 0 <= k < taken ==> GoesOn(inputs[k], writes[k])
      invariant delivered == BytesOf(inputs[..taken])
    {
      var r, w := inputs[taken], writes[taken];
      taken := taken + 1;
      assert inputs[..taken][..taken - 1] == inputs[..taken - 1];
      if r.data != [] {
        var out := Relay(buf, r.data, w);
        delivered := delivered + out;
        if w.err.Some? {
          if r.err.None? {
            return Ended(false, w.err.value), delivered, taken;
          }
          return Ended(true, r.err.value), delivered, taken;
        }
      }
      if r.err.Some? {
        return Ended(true, r.err.value), delivered, taken;
      }
    }
    assert inputs[..taken] == inputs;
    outcome := Blocked;
  }

  // ---------- The race ----------

  /** The two goroutines of `copyThenClose`. `Main` is the one whose end makes the call return. */
  datatype Side = Helper | Main

  datatype End = Remote | Local

  /** `Won` and `HalfClosed` have put their error into the one-slot channel. */
  datatype Pc = Copying | Reporting | Won | HalfClosed | Finished(closedBoth: bool)

  datatype State = State(slotFull: bool, closes: seq<End>, helper: Pc, main: Pc) {
    function PcOf(side: Side): Pc {
      if side.Helper? then helper else main
    }
    function Move(side: Side, pc: Pc): State {
      if side.Helper? then this.(helper := pc) else this.(main := pc)
    }
  }

  const INIT: State := State(false, [], Copying, Copying)

  datatype Event = CopyEnds(side: Side) | Report(side: Side) | CloseRemote(side: Side) | CloseLocal(side: Side)

  predicate Enabled(s: State, e: Event) {
    match e
    case CopyEnds(side) => s.PcOf(side).Copying?
    case Report(side) => s.PcOf(side).Reporting?
    case CloseRemote(side) => s.PcOf(side).Won?
    case CloseLocal(side) => s.PcOf(side).HalfClosed?
  }

  function Step(s: State, e: Event): State
    requires Enabled(s, e)
  {
    match e
    case CopyEnds(side) => s.Move(side, Reporting)
    case Report(side) => if s.slotFull then s.Move(side, Finished(false)) else s.(slotFull := true).Move(side, Won)
    case CloseRemote(side) => s.(closes := s.closes + [Remote]).Move(side, HalfClosed)
    case CloseLocal(side) => s.(closes := s.closes + [Local]).Move(side, Finished(true))
  }

  predicate IsWinner(pc: Pc) {
    pc.Won? || pc.HalfClosed? || pc == Finished(true)
  }

  function ClosedBy(pc: Pc): seq<End> {
    match pc
    case HalfClosed => [Remote]
    case Finished(closedBoth) => if closedBoth then [Remote, Local] else []
    case _ => []
  }

  predicate Inv(s: State) {
    && (s.slotFull <==> IsWinner(s.helper) || IsWinner(s.main))
    && !(IsWinner(s.helper) && IsWinner(s.main))
    && s.closes == ClosedBy(s.helper) + ClosedBy(s.main)
    && (s.helper == Finished(false) ==> IsWinner(s.main))
    && (s.main == Finished(false) ==> IsWinner(s.helper))
  }

  ghost predicate IsRun(s: State, events: seq<Event>)
    decreases |events|
  {
    events == [] || (Enabled(s, events[0]) && IsRun(Step(s, events[0]), events[1..]))
  }

  ghost function After(s: State, events: seq<Event>): State
    requires IsRun(s, events)
    decreases |events|
  {
    if events == [] then s else After(Step(s, events[0]), events[1..])
  }

  lemma {:induction false} StepInv(s: State, e: Event)
    requires Inv(s) && Enabled(s, e)
    ensures Inv(Step(s, e))
  {
  }

  lemma {:induction false} RunInv(s: State, events: seq<Event>)
    requires Inv(s) && IsRun(s, events)
    ensures Inv(After(s, events))
    decreases |events|
  {
    if events != [] {
      StepInv(s, events[0]);
      RunInv(Step(s, events[0]), events[1..]);
    }
  }

  /**
   * In every interleaving no end is closed twice; whoever finds the slot taken leaves everything
   * to the other; and once both have finished, exactly one of them has closed both ends.
   */
  lemma {:induction false} RaceIsSafe(events: seq<Event>)
    requires IsRun(INIT, events)
    ensures var s := After(INIT, events);
      && s.closes <= [Remote, Local]
      && (s.helper.Finished? && s.main.Finished? ==>
            s.closes == [Remote, Local] && s.helper.closedBoth != s.main.closedBoth)
  {
    RunInv(INIT, events);
  }

  /**
   * When the call returns, both ends are closed exactly if the returning side won or the winner
   * has already finished; the other case does occur.
   */
  lemma {:induction false} ReturnDoesNotMeanClosed(events: seq<Event>) returns (early: seq<Event>)
    requires IsRun(INIT, events) && After(INIT, events).main.Finished?
    ensures var s := After(INIT, events);
      s.closes == [Remote, Local] <==> s.main.closedBoth || s.helper.Finished?
    ensures IsRun(INIT, early) && After(INIT, early).main.Finished? && After(INIT, early).closes == []
  {
    RunInv(INIT, events);
    early := [CopyEnds(Helper), Report(Helper), CopyEnds(Main), Report(Main)];
    assert early[1..] == [Report(Helper), CopyEnds(Main), Report(Main)];
    assert early[1..][1..] == [CopyEnds(Main), Report(Main)];
    assert early[1..][1..][1..] == [Report(Main)];
    assert early[1..][1..][1..][1..] == [];
  }
}
