/**
 * Listing the instances of several projects: one producer per project, an unbuffered channel, a
 * wait group whose waiter closes the channel, and one collecting consumer.
 */
module FanIn {
  import opened Basics

  /** One instance of a listing; only second-generation ones are reported. */
  datatype Item = Item(name: string, secondGen: bool)

  /** `next` is the position in the listing. A producer may leave early when a page fails. */
  datatype Producer = Producer(items: seq<Item>, next: nat, listing: bool, sent: seq<string>)

  datatype Consumer = Receiving | Returned(failed: bool)

  /** `panicked` records a send on a closed channel or a negative wait group. */
  datatype State = State(
    producers: seq<Producer>,
    waitGroup: int,
    closed: bool,
    consumer: Consumer,
    ret: seq<string>,
    panicked: bool)

  /** Without projects the call returns an empty result and no error at once. */
  function Init(projects: seq<seq<Item>>): State {
    State(seq(|projects|, p requires 0 <= p < |projects| => Producer(projects[p], 0, true, [])),
          |projects|,
          false,
          if projects == [] then Returned(false) else Receiving,
          [],
          false)
  }

  datatype Event = Skip(p: nat) | Send(p: nat) | Leave(p: nat) | Close | Return

  predicate AtItem(s: State, p: nat, secondGen: bool) {
    && p < |s.producers|
    && s.producers[p].listing
    && s.producers[p].next < |s.producers[p].items|
    && s.producers[p].items[s.producers[p].next].secondGen == secondGen
  }

  /** A send meets the receiver, or panics on a closed channel. Leaving is possible at any time. */
  predicate Enabled(s: State, e: Event) {
    match e
    case Skip(p) => AtItem(s, p, false)
    case Send(p) => AtItem(s, p, true) && (s.closed || s.consumer.Receiving?)
    case Leave(p) => p < |s.producers| && s.producers[p].listing
    case Close => !s.closed && s.waitGroup == 0
    case Return => s.closed && s.consumer.Receiving?
  }

  function WithProducer(s: State, p: nat, producer: Producer): State
    requires p < |s.producers|
  {
    s.(producers := s.producers[p := producer])
  }

  function Step(s: State, e: Event): State
    requires Enabled(s, e)
  {
    match e
    case Skip(p) => WithProducer(s, p, s.producers[p].(next := s.producers[p].next + 1))
    case Send(p) =>
      if s.closed then s.(panicked := true)
      else
        var producer := s.producers[p];
        var x := producer.items[producer.next].name;
        WithProducer(s.(ret := s.ret + [x]), p, producer.(next := producer.next + 1, sent := producer.sent + [x]))
    case Leave(p) =>
      WithProducer(s.(waitGroup := s.waitGroup - 1, panicked := s.panicked || s.waitGroup <= 0),
                   p, s.producers[p].(listing := false))
    case Close => s.(closed := true)
    case Return => s.(consumer := Returned(s.ret == []))
  }

  // ---------- Counting ----------

  function SecondGenNames(items: seq<Item>): seq<string> {
    if items == [] then []
    else
      var last := items[|items| - 1];
      SecondGenNames(items[..|items| - 1]) + (if last.secondGen then [last.name] else [])
  }

  function Listing(producers: seq<Producer>): nat {
    if producers == [] then 0
    else Listing(producers[..|producers| - 1]) + (if producers[|producers| - 1].listing then 1 else 0)
  }

  /** The multiset union of what the producers have emitted. */
  function Emitted(producers: seq<Producer>): multiset<string> {
    if producers == [] then multiset{}
    else Emitted(producers[..|producers| - 1]) + multiset(producers[|producers| - 1].sent)
  }

  /** An upper bound on the steps still to come. */
  function Todo(producers: seq<Producer>): int {
    if producers == [] then 0
    else
      var last := producers[|producers| - 1];
      Todo(producers[..|producers| - 1]) + (if last.listing then 1 + |last.items| - last.next else 0)
  }

  function Remaining(s: State): int {
    Todo(s.producers) + (if s.closed then 0 else 1) + (if s.consumer.Receiving? then 1 else 0)
  }

  function TodoOf(producer: Producer): int {
    if producer.listing then 1 + |producer.items| - producer.next else 0
  }

  lemma {:induction false} CountsAfterUpdate(producers: seq<Producer>, p: nat, producer: Producer)
    requires p < |producers|
    ensures Listing(producers[p := producer]) == Listing(producers) + One(producer.listing) - One(producers[p].listing)
    ensures Todo(producers[p := producer]) == Todo(producers) + TodoOf(producer) - TodoOf(producers[p])
  {
    var last := |producers| - 1;
    if p == last {
      assert producers[p := producer][..last] == producers[..last];
    } else {
      CountsAfterUpdate(producers[..last], p, producer);
      assert producers[p := producer][..last] == producers[..last][p := producer];
    }
  }

  lemma {:induction false} EmittedAfterUpdate(producers: seq<Producer>, p: nat, producer: Producer, more: seq<string>)
    requires p < |producers| && producer.sent == producers[p].sent + more
    ensures Emitted(producers[p := producer]) == Emitted(producers) + multiset(more)
  {
    var last := |producers| - 1;
    if p == last {
      assert producers[p := producer][..last] == producers[..last];
    } else {
      EmittedAfterUpdate(producers[..last], p, producer, more);
      assert producers[p := producer][..last] == producers[..last][p := producer];
    }
  }

  lemma {:induction false} SomeoneLists(producers: seq<Producer>)
    ensures Listing(producers) > 0 <==> exists p :: 0 <= p < |producers| && producers[p].listing
  {
    if producers != [] {
      var last := |producers| - 1;
      SomeoneLists(producers[..last]);
      if p :| 0 <= p < |producers| && producers[p].listing {
        assert p < last ==> producers[..last][p].listing;
      }
      if Listing(producers) > 0 && !producers[last].listing {
        var p :| 0 <= p < last && producers[..last][p].listing;
        assert producers[p].listing;
      }
    }
  }

  // ---------- Invariant ----------

  predicate ProducerOk(producer: Producer) {
    producer.next <= |producer.items| && producer.sent == SecondGenNames(producer.items[..producer.next])
  }

  ghost predicate Inv(s: State) {
    && !s.panicked
    && s.waitGroup == Listing(s.producers)
    && (s.closed ==> s.waitGroup == 0)
    && (forall p :: 0 <= p < |s.producers| ==> ProducerOk(s.producers[p]))
    && multiset(s.ret) == Emitted(s.producers)
    && (s.consumer.Returned? && s.producers != [] ==> s.closed && s.consumer.failed == (s.ret == []))
    && (s.producers == [] ==> s.consumer == Returned(false))
  }

  lemma {:induction false} InitCounts(projects: seq<seq<Item>>)
    ensures Listing(Init(projects).producers) == |projects| && Emitted(Init(projects).producers) == multiset{}
  {
    if projects != [] {
      var last := |projects| - 1;
      InitCounts(projects[..last]);
      assert Init(projects).producers[..last] == Init(projects[..last]).producers;
    }
  }

  lemma {:induction false} InitInv(projects: seq<seq<Item>>)
    ensures Inv(Init(projects))
  {
    InitCounts(projects);
  }

  lemma {:induction false} AdvanceOk(producer: Producer)
    requires ProducerOk(producer) && producer.next < |producer.items|
    ensures var x := producer.items[producer.next];
      ProducerOk(producer.(next := producer.next + 1, sent := producer.sent + (if x.secondGen then [x.name] else [])))
  {
    var n := producer.next;
    assert producer.items[..n + 1][..n] == producer.items[..n];
  }

  /** A producer that moves on, having sent `more`, keeps the invariant. */
  lemma {:induction false} MoveInv(s: State, p: nat, producer: Producer, more: seq<string>)
    requires Inv(s) && p < |s.producers| && s.producers[p].listing
    requires ProducerOk(producer) && producer.sent == s.producers[p].sent + more && s.consumer.Receiving?
    ensures Inv(WithProducer(s.(ret := s.ret + more, waitGroup := s.waitGroup - One(!producer.listing)), p, producer))
  {
    SomeoneLists(s.producers);
    CountsAfterUpdate(s.producers, p, producer);
    EmittedAfterUpdate(s.producers, p, producer, more);
    SomeoneLists(s.producers[p := producer]);
  }

  lemma {:induction false} StepInv(s: State, e: Event)
    requires Inv(s) && Enabled(s, e)
    ensures Inv(Step(s, e))
  {
    SomeoneLists(s.producers);
    if e.Skip? || e.Send? || e.Leave? {
      var before, after := s.producers[e.p], Step(s, e).producers[e.p];
      var more := if e.Send? then [before.items[before.next].name] else [];
      if !e.Leave? {
        AdvanceOk(before);
      }
      assert before.sent + [] == before.sent && s.ret + [] == s.ret;
      MoveInv(s, e.p, after, more);
    }
  }

  // ---------- Runs ----------

  ghost predicate IsRun(s: State, events: seq<Event>)
    decreases |events|
  {
    events == [] || (Enabled(s, events[0]) && IsRun(Step(s, events[0]), events[1..]))
  }

  ghost function After(s: State, events: seq<Event>): State
    requires IsRun(s, events)
    decreases |events|
  {
    if events == [] then s else After(Step(s, events[0]), events[1..])
  }

  lemma {:induction false} RunInv(s: State, events: seq<Event>)
    requires Inv(s) && IsRun(s, events)
    ensures Inv(After(s, events))
    ensures |events| + Remaining(After(s, events)) <= Remaining(s)
    ensures |After(s, events).producers| == |s.producers|
    ensures forall p :: 0 <= p < |s.producers| ==> After(s, events).producers[p].items == s.producers[p].items
    decreases |events|
  {
    if events != [] {
      StepInv(s, events[0]);
      StepDecreases(s, events[0]);
      RunInv(Step(s, events[0]), events[1..]);
    }
  }

  lemma {:induction false} StepDecreases(s: State, e: Event)
    requires Inv(s) && Enabled(s, e)
    ensures Remaining(Step(s, e)) < Remaining(s)
    ensures |Step(s, e).producers| == |s.producers|
    ensures forall p :: 0 <= p < |s.producers| ==> Step(s, e).producers[p].items == s.producers[p].items
  {
    SomeoneLists(s.producers);
    if e.Skip? || e.Send? || e.Leave? {
      CountsAfterUpdate(s.producers, e.p, Step(s, e).producers[e.p]);
    }
  }

  /** The names of all second-generation instances of all projects. */
  function AllNames(projects: seq<seq<Item>>): multiset<string> {
    if projects == [] then multiset{}
    else AllNames(projects[..|projects| - 1]) + multiset(SecondGenNames(projects[|projects| - 1]))
  }

  // ---------- Theorems ----------

  /** In no schedule is there a send on the closed channel or a negative wait group. */
  lemma {:induction false} NeverPanics(projects: seq<seq<Item>>, events: seq<Event>)
    requires IsRun(Init(projects), events)
    ensures !After(Init(projects), events).panicked
  {
    InitInv(projects);
    RunInv(Init(projects), events);
  }

  /**
   * The call returns exactly what the producers emitted, each of them the second-generation names
   * of the part of its listing it got through, and fails exactly when that is nothing although
   * there are projects.
   */
  lemma {:induction false} CollectsWhatWasEmitted(projects: seq<seq<Item>>, events: seq<Event>)
    requires IsRun(Init(projects), events) && After(Init(projects), events).consumer.Returned?
    ensures var s := After(Init(projects), events);
      && multiset(s.ret) == Emitted(s.producers)
      && |s.producers| == |projects|
      && (forall p :: 0 <= p < |projects| ==>
            && s.producers[p].next <= |projects[p]|
            && s.producers[p].sent == SecondGenNames(projects[p][..s.producers[p].next])
            && !s.producers[p].listing)
      && (s.consumer.failed <==> projects != [] && Emitted(s.producers) == multiset{})
  {
    InitInv(projects);
    RunInv(Init(projects), events);
    var s := After(Init(projects), events);
    SomeoneLists(s.producers);
    assert |multiset(s.ret)| == |s.ret|;
  }

  lemma {:induction false} CompleteListingsEmitAll(producers: seq<Producer>, projects: seq<seq<Item>>)
    requires |producers| == |projects|
    requires forall p :: 0 <= p < |projects| ==> producers[p].sent == SecondGenNames(projects[p])
    ensures Emitted(producers) == AllNames(projects)
  {
    if projects != [] {
      CompleteListingsEmitAll(producers[..|producers| - 1], projects[..|projects| - 1]);
    }
  }

  /** If no listing failed early, that is every second-generation instance of every project. */
  lemma {:induction false} CollectsEverything(projects: seq<seq<Item>>, events: seq<Event>)
    requires IsRun(Init(projects), events) && After(Init(projects), events).consumer.Returned?
    requires forall p :: 0 <= p < |After(Init(projects), events).producers| ==>
      After(Init(projects), events).producers[p].next == |After(Init(projects), events).producers[p].items|
    ensures multiset(After(Init(projects), events).ret) == AllNames(projects)
  {
    var s := After(Init(projects), events);
    InitInv(projects);
    RunInv(Init(projects), events);
    CollectsWhatWasEmitted(projects, events);
    forall p | 0 <= p < |projects|
      ensures s.producers[p].sent == SecondGenNames(projects[p])
    {
      assert projects[p][..s.producers[p].next] == projects[p];
    }
    CompleteListingsEmitAll(s.producers, projects);
  }

  /** The step of a producer whose listing fails. */
  predicate LeavesEarly(s: State, e: Event) {
    e.Leave? && e.p < |s.producers| && s.producers[e.p].next < |s.producers[e.p].items|
  }

  /** Until it has returned some goroutine can go on, and no schedule goes on forever. */
  lemma {:induction false} NeverStuck(projects: seq<seq<Item>>, events: seq<Event>)
    requires IsRun(Init(projects), events)
    ensures var s := After(Init(projects), events);
      && |events| + Remaining(s) <= Remaining(Init(projects))
      && (s.consumer.Returned? || exists e :: Enabled(s, e) && !LeavesEarly(s, e))
  {
    InitInv(projects);
    RunInv(Init(projects), events);
    var s := After(Init(projects), events);
    SomeoneLists(s.producers);
    if p :| 0 <= p < |s.producers| && s.producers[p].listing {
      var e := if AtItem(s, p, true) then Send(p) else if AtItem(s, p, false) then Skip(p) else Leave(p);
      assert s.consumer.Returned? || (Enabled(s, e) && !LeavesEarly(s, e));
    } else if !s.closed {
      assert Enabled(s, Close) && !LeavesEarly(s, Close);
    } else if s.consumer.Receiving? {
      assert Enabled(s, Return) && !LeavesEarly(s, Return);
    }
  }
}
