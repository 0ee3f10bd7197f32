/** Reconciling the open listeners with each update of the list of instances. */
module Listeners {
  import opened Basics

  /** Listeners are numbered in the order they are opened. */
  type Listener = nat

  type Sockets = map<string, Listener>

  /** One parsed instance of a list, and whether opening a listener for it would succeed. */
  datatype Request = Request(instance: string, opens: bool)

  datatype Update = Unparsable | Parsed(list: seq<Request>)

  /**
   * What the loop holds between two updates: the dynamic listeners, how many listeners were ever
   * opened, those the loop has closed, in order, and those it has lost track of.
   */
  datatype Snapshot = Snapshot(dynamic: Sockets, openings: nat, closed: seq<Listener>, lost: seq<Listener>)

  /** What it holds within one update: listeners move from `leftover` to `still`. */
  datatype Pass = Pass(leftover: Sockets, still: Sockets, openings: nat, lost: seq<Listener>)

  /** One request of an update. */
  function PassStep(statics: Sockets, p: Pass, r: Request): Pass {
    var i := r.instance;
    if i in statics then p
    else if i in p.leftover then p.(leftover := p.leftover - {i}, still := p.still[i := p.leftover[i]])
    else if !r.opens then p
    else p.(still := p.still[i := p.openings],
            openings := p.openings + 1,
            lost := p.lost + (if i in p.still then [p.still[i]] else []))
  }

  function Start(s: Snapshot): Pass {
    Pass(s.dynamic, map[], s.openings, s.lost)
  }

  /** The first n requests of an update. */
  function RunPass(statics: Sockets, s: Snapshot, list: seq<Request>, n: nat): Pass
    requires n <= |list|
  {
    if n == 0 then Start(s) else PassStep(statics, RunPass(statics, s, list, n - 1), list[n - 1])
  }

  ghost predicate Holds(m: Sockets, l: Listener) {
    exists name :: name in m && m[name] == l
  }

  ghost predicate Injective(m: Sockets) {
    forall a, b :: a in m && b in m && a != b ==> m[a] != m[b]
  }

  /** A list of the listeners of a map, each once. */
  ghost predicate Enumerates(ls: seq<Listener>, m: Sockets) {
    NoRepeats(ls) && forall l :: l in ls <==> Holds(m, l)
  }

  /** What an update does to the loop; the leftovers are closed in no particular order. */
  ghost predicate Reconciles(statics: Sockets, s: Snapshot, u: Update, s': Snapshot) {
    match u
    case Unparsable => s' == s
    case Parsed(list) =>
      var p := RunPass(statics, s, list, |list|);
      && s'.dynamic == p.still
      && s'.openings == p.openings
      && s'.lost == p.lost
      && s.closed <= s'.closed
      && Enumerates(s'.closed[|s.closed|..], p.leftover)
  }

  // ---------- The code ----------

  /** Closes the listeners of a map in the order Go happens to range over it. */
  method CloseAll(m: Sockets) returns (closed: seq<Listener>)
    requires Injective(m)
    ensures Enumerates(closed, m)
  {
    closed := [];
    var rest := m.Keys;
    ghost var done: set<string> := {};
    while rest != {}
      invariant rest <= m.Keys && done == m.Keys - rest
      invariant NoRepeats(closed)
      invariant forall l :: l in closed <==> exists name :: name in done && m[name] == l
      decreases rest
    {
      var name :| name in rest;
      assert m[name] !in closed;
      rest, done := rest - {name}, done + {name};
      closed := closed + [m[name]];
    }
  }

  /** The body of the loop for one parsed update. */
  method Reconcile(statics: Sockets, s: Snapshot, list: seq<Request>) returns (s': Snapshot)
    requires Injective(s.dynamic)
    ensures Reconciles(statics, s, Parsed(list), s')
  {
    var dynamicInstances, stillOpen, openings, lost := s.dynamic, map[], s.openings, s.lost;
    for n := 0 to |list|
      invariant Pass(dynamicInstances, stillOpen, openings, lost) == RunPass(statics, s, list, n)
      invariant Injective(dynamicInstances)
    {
      var instance := list[n].instance;
      if instance in statics {
        continue;
      }
      if instance in dynamicInstances {
        var l := dynamicInstances[instance];
        dynamicInstances := dynamicInstances - {instance};
        stillOpen := stillOpen[instance := l];
        continue;
      }
      if !list[n].opens {
        continue;
      }
      if instance in stillOpen {
        lost := lost + [stillOpen[instance]];
      }
      stillOpen := stillOpen[instance := openings];
      openings := openings + 1;
    }
    var closing := CloseAll(dynamicInstances);
    s' := Snapshot(stillOpen, openings, s.closed + closing, lost);
    assert s'.closed[|s.closed|..] == closing;
  }

  /**
   * The whole loop: `trace` holds the snapshot before each update and the last one, and `closed`
   * every close until the loop returns, the static listeners first and then the dynamic ones.
   */
  method WatchInstancesLoop(statics: Sockets, start: Snapshot, updates: seq<Update>)
    returns (trace: seq<Snapshot>, closed: seq<Listener>)
    requires start.dynamic == map[] && start.closed == [] && Accounted(statics, start)
    ensures IsTrace(statics, start, updates, trace)
    ensures ClosesTheRest(statics, trace[|updates|], closed)
  {
    var s := start;
    trace := [s];
    for k := 0 to |updates|
      invariant |trace| == k + 1 && trace[0] == start && trace[k] == s && Accounted(statics, s)
      invariant forall j :: 0 <= j < k ==> Reconciles(statics, trace[j], updates[j], trace[j + 1])
    {
      match updates[k] {
        case Unparsable =>
        case Parsed(list) =>
          var next := Reconcile(statics, s, list);
          ReconcileAccounts(statics, s, updates[k], next);
          s := next;
      }
      trace := trace + [s];
    }
    var first := CloseAll(statics);
    var second := CloseAll(s.dynamic);
    closed := s.closed + first + second;
    var n := |s.closed| + |first|;
    assert closed[|s.closed|..n] == first && closed[n..] == second;
    assert StaticsThenDynamics(statics, s, closed, n);
  }

  /** After the last update the static and then the remaining dynamic listeners are closed. */
  ghost predicate ClosesTheRest(statics: Sockets, last: Snapshot, closed: seq<Listener>) {
    && last.closed <= closed
    && exists n :: StaticsThenDynamics(statics, last, closed, n)
  }

  ghost predicate StaticsThenDynamics(statics: Sockets, last: Snapshot, closed: seq<Listener>, n: int) {
    && |last.closed| <= n <= |closed|
    && Enumerates(closed[|last.closed|..n], statics)
    && Enumerates(closed[n..], last.dynamic)
  }

  ghost predicate IsTrace(statics: Sockets, start: Snapshot, updates: seq<Update>, trace: seq<Snapshot>) {
    && |trace| == |updates| + 1
    && trace[0] == start
    && forall j :: 0 <= j < |updates| ==> Reconciles(statics, trace[j], updates[j], trace[j + 1])
  }

  /** Opens the static listeners; the first failure makes the whole call fail. */
  method WatchInstances(cfgs: seq<Request>) returns (sockets: Option<Sockets>, openings: nat)
    ensures sockets.Some? <==> forall k :: 0 <= k < |cfgs| ==> cfgs[k].opens
    ensures sockets.None? ==>
      openings < |cfgs| && !cfgs[openings].opens && forall k :: 0 <= k < openings ==> cfgs[k].opens
    ensures sockets.Some? ==> openings == |cfgs| && sockets.value == StaticSockets(cfgs, |cfgs|)
  {
    var m: Sockets := map[];
    openings := 0;
    while openings < |cfgs|
      invariant openings <= |cfgs|
      invariant forall k :: 0 <= k < openings ==> cfgs[k].opens
      invariant m == StaticSockets(cfgs, openings)
    {
      if !cfgs[openings].opens {
        return None, openings;
      }
      m := m[cfgs[openings].instance := openings];
      openings := openings + 1;
    }
    return Some(m), openings;
  }

  /** A later listener takes the place of an earlier one of the same name. */
  function StaticSockets(cfgs: seq<Request>, n: nat): Sockets
    requires n <= |cfgs|
  {
    if n == 0 then map[] else StaticSockets(cfgs, n - 1)[cfgs[n - 1].instance := n - 1]
  }

  // ---------- Conservation ----------

  /** In how many places a listener is: static, dynamic, closed by the loop, or lost. */
  ghost function Places(statics: Sockets, s: Snapshot, l: Listener): nat {
    One(Holds(statics, l)) + One(Holds(s.dynamic, l)) + One(l in s.closed) + One(l in s.lost)
  }

  /** Every opened listener is in exactly one place, and listed there once. */
  ghost predicate Accounted(statics: Sockets, s: Snapshot) {
    && Injective(statics) && Injective(s.dynamic)
    && statics.Keys !! s.dynamic.Keys
    && NoRepeats(s.closed)
    && forall l: Listener :: Places(statics, s, l) == One(l < s.openings)
  }

  ghost function PassPlaces(statics: Sockets, closed: seq<Listener>, p: Pass, l: Listener): nat {
    One(Holds(statics, l)) + One(Holds(p.leftover, l)) + One(Holds(p.still, l)) + One(l in closed) + One(l in p.lost)
  }

  ghost predicate PassAccounted(statics: Sockets, closed: seq<Listener>, p: Pass) {
    && Injective(p.leftover) && Injective(p.still)
    && statics.Keys !! p.leftover.Keys && statics.Keys !! p.still.Keys && p.leftover.Keys !! p.still.Keys
    && forall l: Listener :: PassPlaces(statics, closed, p, l) == One(l < p.openings)
  }

  lemma {:induction false} HoldsAfterPut(m: Sockets, name: string, x: Listener, l: Listener)
    requires Injective(m)
    ensures Holds(m[name := x], l) <==> l == x || (Holds(m, l) && !(name in m && l == m[name]))
  {
    var m' := m[name := x];
    assert name in m' && m'[name] == x;
    if Holds(m, l) && !(name in m && l == m[name]) {
      var a :| a in m && m[a] == l;
      assert a in m' && m'[a] == l;
    }
  }

  lemma {:induction false} HoldsAfterDelete(m: Sockets, name: string, l: Listener)
    requires Injective(m) && name in m
    ensures Holds(m - {name}, l) <==> Holds(m, l) && l != m[name]
  {
    if Holds(m, l) && l != m[name] {
      var a :| a in m && m[a] == l;
      assert a in m - {name} && (m - {name})[a] == l;
    }
  }

  /** Moving a listener from the old map to the new one. */
  lemma {:induction false} MoveAccounts(statics: Sockets, closed: seq<Listener>, p: Pass, i: string)
    requires PassAccounted(statics, closed, p) && i in p.leftover
    ensures PassAccounted(statics, closed, p.(leftover := p.leftover - {i}, still := p.still[i := p.leftover[i]]))
  {
    var l' := p.leftover[i];
    var p' := p.(leftover := p.leftover - {i}, still := p.still[i := l']);
    assert PassPlaces(statics, closed, p, l') == One(l' < p.openings);
    assert Holds(p.leftover, l');
    forall l: Listener
      ensures PassPlaces(statics, closed, p', l) == One(l < p'.openings)
    {
      assert PassPlaces(statics, closed, p, l) == One(l < p.openings);
      HoldsAfterDelete(p.leftover, i, l);
      HoldsAfterPut(p.still, i, l', l);
    }
    NotHeldStaysInjective(p.still, i, l');
  }

  lemma {:induction false} NotHeldStaysInjective(m: Sockets, name: string, x: Listener)
    requires Injective(m) && !Holds(m, x)
    ensures Injective(m[name := x])
  {
  }

  /** Opening a listener, and losing the one it takes the place of. */
  lemma {:induction false} OpenAccounts(statics: Sockets, closed: seq<Listener>, p: Pass, i: string)
    requires PassAccounted(statics, closed, p) && i !in statics && i !in p.leftover
    ensures PassAccounted(statics, closed, PassStep(statics, p, Request(i, true)))
  {
    var p' := PassStep(statics, p, Request(i, true));
    assert PassPlaces(statics, closed, p, p.openings) == 0;
    forall l: Listener
      ensures PassPlaces(statics, closed, p', l) == One(l < p'.openings)
    {
      assert PassPlaces(statics, closed, p, l) == One(l < p.openings);
      HoldsAfterPut(p.still, i, p.openings, l);
      assert i in p.still ==> Holds(p.still, p.still[i]);
    }
    NotHeldStaysInjective(p.still, i, p.openings);
  }

  lemma {:induction false} PassAccounts(statics: Sockets, s: Snapshot, list: seq<Request>, n: nat)
    requires Accounted(statics, s) && n <= |list|
    ensures PassAccounted(statics, s.closed, RunPass(statics, s, list, n))
  {
    if n == 0 {
      forall l: Listener
        ensures PassPlaces(statics, s.closed, Start(s), l) == One(l < s.openings)
      {
        assert Places(statics, s, l) == One(l < s.openings);
      }
    } else {
      PassAccounts(statics, s, list, n - 1);
      var p := RunPass(statics, s, list, n - 1);
      var i := list[n - 1].instance;
      if i !in statics {
        if i in p.leftover {
          MoveAccounts(statics, s.closed, p, i);
        } else if list[n - 1].opens {
          OpenAccounts(statics, s.closed, p, i);
        }
      }
    }
  }

  /** Every update keeps every opened listener in exactly one place. */
  lemma {:induction false} ReconcileAccounts(statics: Sockets, s: Snapshot, u: Update, s': Snapshot)
    requires Accounted(statics, s) && Reconciles(statics, s, u, s')
    ensures Accounted(statics, s')
  {
    if u.Parsed? {
      var p := RunPass(statics, s, u.list, |u.list|);
      PassAccounts(statics, s, u.list, |u.list|);
      var closing := s'.closed[|s.closed|..];
      assert s'.closed == s.closed + closing;
      forall l: Listener
        ensures Places(statics, s', l) == One(l < s'.openings)
        ensures l in s.closed ==> l !in closing
      {
        assert PassPlaces(statics, s.closed, p, l) == One(l < p.openings);
        assert l in closing <==> Holds(p.leftover, l);
      }
      forall i, j | 0 <= i < j < |s'.closed|
        ensures s'.closed[i] != s'.closed[j]
      {
        if i < |s.closed| <= j {
          assert s.closed[i] !in closing;
          assert s'.closed[j] == closing[j - |s.closed|];
        } else if |s.closed| <= i {
          assert s'.closed[i] == closing[i - |s.closed|] && s'.closed[j] == closing[j - |s.closed|];
        }
      }
    }
  }

  // ---------- Which names are open ----------

  /** The request, if it comes up for a non-static name, leaves that name open. */
  predicate Serves(statics: Sockets, s: Snapshot, r: Request, name: string) {
    r.instance == name && name !in statics && (name in s.dynamic || r.opens)
  }

  ghost predicate ServesSome(statics: Sockets, s: Snapshot, list: seq<Request>, name: string) {
    exists a :: 0 <= a < |list| && Serves(statics, s, list[a], name)
  }

  lemma {:induction false} PassNames(statics: Sockets, s: Snapshot, list: seq<Request>, n: nat, name: string)
    requires n <= |list| && statics.Keys !! s.dynamic.Keys
    ensures var p := RunPass(statics, s, list, n);
      && (name in p.still <==> exists a :: 0 <= a < n && Serves(statics, s, list[a], name))
      && (name in p.leftover <==> name in s.dynamic && forall a :: 0 <= a < n ==> list[a].instance != name)
  {
    if n > 0 {
      PassNames(statics, s, list, n - 1, name);
      if list[n - 1].instance != name {
        assert !Serves(statics, s, list[n - 1], name);
      }
      if Serves(statics, s, list[n - 1], name) {
        assert 0 <= n - 1 < n;
      }
    }
  }

  /**
   * After a parsed update the dynamic names are exactly the listed non-static names that were
   * open already or were opened by one of their requests.
   */
  lemma {:induction false} DynamicNames(statics: Sockets, s: Snapshot, list: seq<Request>, s': Snapshot, name: string)
    requires Accounted(statics, s) && Reconciles(statics, s, Parsed(list), s')
    ensures name in s'.dynamic <==> ServesSome(statics, s, list, name)
  {
    PassNames(statics, s, list, |list|, name);
  }

  /** Request b opens a second listener for a name that an earlier request of the list left open. */
  predicate Displaces(statics: Sockets, s: Snapshot, list: seq<Request>, a: nat, b: nat) {
    && a < b < |list|
    && list[b].opens && list[b].instance == list[a].instance
    && Serves(statics, s, list[a], list[a].instance)
  }

  lemma {:induction false} PassLoses(statics: Sockets, s: Snapshot, list: seq<Request>, n: nat)
    requires n <= |list| && statics.Keys !! s.dynamic.Keys
    ensures var p := RunPass(statics, s, list, n);
      && s.lost <= p.lost
      && (p.lost == s.lost <==> forall a, b :: 0 <= a < b < n ==> !Displaces(statics, s, list, a, b))
      && (p.lost == s.lost ==> forall name :: name in p.still && name in s.dynamic ==> p.still[name] == s.dynamic[name])
      && (forall name :: name in p.leftover ==> name in s.dynamic && p.leftover[name] == s.dynamic[name])
  {
    if n > 0 {
      PassLoses(statics, s, list, n - 1);
      var p := RunPass(statics, s, list, n - 1);
      var i := list[n - 1].instance;
      PassNames(statics, s, list, n - 1, i);
      if i in p.still && list[n - 1].opens {
        var a :| 0 <= a < n - 1 && Serves(statics, s, list[a], i);
        assert Displaces(statics, s, list, a, n - 1);
      } else {
        var b := n - 1;
        assert forall a :: 0 <= a < b ==> !Displaces(statics, s, list, a, b);
      }
    }
  }

  /**
   * An update loses track of a listener exactly when a later request of the list opens one for a
   * name that an earlier request had already kept or opened. Otherwise every retained instance
   * keeps its listener.
   */
  lemma {:induction false} LosesIffDisplaced(statics: Sockets, s: Snapshot, list: seq<Request>, s': Snapshot)
    requires Accounted(statics, s) && Reconciles(statics, s, Parsed(list), s')
    ensures s'.lost == s.lost <==> forall a, b :: 0 <= a < b < |list| ==> !Displaces(statics, s, list, a, b)
    ensures s'.lost == s.lost ==>
      forall name :: name in s'.dynamic && name in s.dynamic ==> s'.dynamic[name] == s.dynamic[name]
  {
    PassLoses(statics, s, list, |list|);
  }

  /** A later request opens a second listener for this name. */
  ghost predicate DisplacesName(statics: Sockets, s: Snapshot, list: seq<Request>, n: nat, name: string) {
    exists a, b :: 0 <= a < b < n && Displaces(statics, s, list, a, b) && list[a].instance == name
  }

  lemma {:induction false} PassRetains(statics: Sockets, s: Snapshot, list: seq<Request>, n: nat, name: string)
    requires n <= |list| && statics.Keys !! s.dynamic.Keys && name in s.dynamic && s.dynamic[name] < s.openings
    ensures var p := RunPass(statics, s, list, n);
      && s.openings <= p.openings
      && (name in p.leftover ==> p.leftover[name] == s.dynamic[name])
      && (name in p.still ==>
            (p.still[name] == s.dynamic[name] <==> !DisplacesName(statics, s, list, n, name)))
  {
    if n > 0 {
      PassRetains(statics, s, list, n - 1, name);
      PassNames(statics, s, list, n - 1, name);
      RetainStep(statics, s, list, n, name);
    }
  }

  /** Whether the n-th request makes the first n of them displace the listener of a name. */
  lemma {:induction false} RetainStep(statics: Sockets, s: Snapshot, list: seq<Request>, n: nat, name: string)
    requires 0 < n <= |list| && name in s.dynamic && name !in statics
    ensures DisplacesName(statics, s, list, n, name) <==>
      || DisplacesName(statics, s, list, n - 1, name)
      || (list[n - 1].opens && list[n - 1].instance == name
          && exists a :: 0 <= a < n - 1 && Serves(statics, s, list[a], name))
  {
    if a :| 0 <= a < n - 1 && Serves(statics, s, list[a], name) {
      if list[n - 1].opens && list[n - 1].instance == name {
        assert Displaces(statics, s, list, a, n - 1);
      }
    }
    if a, b :| 0 <= a < b < n - 1 && Displaces(statics, s, list, a, b) && list[a].instance == name {
      assert Displaces(statics, s, list, a, b);
    }
  }

  /** An instance that stays open keeps its listener exactly when no later request displaces it by a new one. */
  lemma {:induction false} RetainedIffNotDisplaced(
    statics: Sockets, s: Snapshot, list: seq<Request>, s': Snapshot, name: string)
    requires Accounted(statics, s) && Reconciles(statics, s, Parsed(list), s')
    requires name in s.dynamic && name in s'.dynamic
    ensures s'.dynamic[name] == s.dynamic[name] <==> !DisplacesName(statics, s, list, |list|, name)
  {
    assert Holds(s.dynamic, s.dynamic[name]);
    assert Places(statics, s, s.dynamic[name]) == One(s.dynamic[name] < s.openings);
    PassRetains(statics, s, list, |list|, name);
  }

  /** No instance is named twice. */
  predicate NamesOnce(list: seq<Request>) {
    forall a, b :: 0 <= a < b < |list| ==> list[a].instance != list[b].instance
  }

  // ---------- The static listeners ----------

  /** The static listeners whose place a later one of the same name has taken. */
  function StaticLost(cfgs: seq<Request>, n: nat): seq<Listener>
    requires n <= |cfgs|
  {
    if n == 0 then []
    else
      var m := StaticSockets(cfgs, n - 1);
      var i := cfgs[n - 1].instance;
      StaticLost(cfgs, n - 1) + (if i in m then [m[i]] else [])
  }

  function Opening(cfgs: seq<Request>, n: nat): Snapshot
    requires n <= |cfgs|
  {
    Snapshot(map[], n, [], StaticLost(cfgs, n))
  }

  /** The loop starts with every static listener accounted for. */
  lemma {:induction false} StaticsAccounted(cfgs: seq<Request>, n: nat)
    requires n <= |cfgs|
    ensures Accounted(StaticSockets(cfgs, n), Opening(cfgs, n))
  {
    if n > 0 {
      var m, i := StaticSockets(cfgs, n - 1), cfgs[n - 1].instance;
      StaticsAccounted(cfgs, n - 1);
      assert Places(m, Opening(cfgs, n - 1), n - 1) == 0;
      var m', after := m[i := n - 1], Opening(cfgs, n);
      forall l: Listener
        ensures Places(m', after, l) == One(l < n)
      {
        assert Places(m, Opening(cfgs, n - 1), l) == One(l < n - 1);
        HoldsAfterPut(m, i, n - 1, l);
        assert i in m ==> Holds(m, m[i]);
      }
      NotHeldStaysInjective(m, i, n - 1);
    }
  }

  lemma {:induction false} StaticNames(cfgs: seq<Request>, n: nat, name: string)
    requires n <= |cfgs|
    ensures name in StaticSockets(cfgs, n) <==> exists k :: 0 <= k < n && cfgs[k].instance == name
    ensures name in StaticSockets(cfgs, n) ==>
      var l := StaticSockets(cfgs, n)[name];
      l < n && cfgs[l].instance == name && forall k :: l < k < n ==> cfgs[k].instance != name
  {
    if n > 0 {
      StaticNames(cfgs, n - 1, name);
    }
  }

  /** No static listener is lost exactly when no configured name repeats. */
  lemma {:induction false} StaticLostIff(cfgs: seq<Request>, n: nat)
    requires n <= |cfgs|
    ensures StaticLost(cfgs, n) == [] <==> forall a, b :: 0 <= a < b < n ==> cfgs[a].instance != cfgs[b].instance
  {
    if n > 0 {
      StaticLostIff(cfgs, n - 1);
      StaticNames(cfgs, n - 1, cfgs[n - 1].instance);
    }
  }

  // ---------- Whole runs ----------

  lemma {:induction false} TraceAccounts(
    statics: Sockets, start: Snapshot, updates: seq<Update>, trace: seq<Snapshot>, k: nat)
    requires Accounted(statics, start) && IsTrace(statics, start, updates, trace) && k <= |updates|
    ensures Accounted(statics, trace[k])
    ensures (forall j :: 0 <= j < k && updates[j].Parsed? ==> NamesOnce(updates[j].list))
      ==> trace[k].lost == start.lost
  {
    if k > 0 {
      TraceAccounts(statics, start, updates, trace, k - 1);
      assert Reconciles(statics, trace[k - 1], updates[k - 1], trace[k]);
      ReconcileAccounts(statics, trace[k - 1], updates[k - 1], trace[k]);
      if updates[k - 1].Parsed? {
        LosesIffDisplaced(statics, trace[k - 1], updates[k - 1].list, trace[k]);
      }
    }
  }

  /** The last of the first k updates that could be parsed. */
  function LastParsed(updates: seq<Update>, k: nat): (j: Option<nat>)
    requires k <= |updates|
    ensures j.Some? ==> j.value < k && updates[j.value].Parsed?
  {
    if k == 0 then None else if updates[k - 1].Parsed? then Some(k - 1) else LastParsed(updates, k - 1)
  }

  /** An entry of the list names this instance. */
  ghost predicate Lists(list: seq<Request>, name: string) {
    exists a :: 0 <= a < |list| && list[a].instance == name
  }

  lemma {:induction false} NamesFromLastParsed(
    statics: Sockets, start: Snapshot, updates: seq<Update>, trace: seq<Snapshot>, k: nat, name: string)
    requires Accounted(statics, start) && start.dynamic == map[]
    requires IsTrace(statics, start, updates, trace) && k <= |updates|
    ensures var j := LastParsed(updates, k);
      name in trace[k].dynamic <==>
        j.Some? && ServesSome(statics, trace[j.value], updates[j.value].list, name)
  {
    if k > 0 {
      TraceAccounts(statics, start, updates, trace, k - 1);
      assert Reconciles(statics, trace[k - 1], updates[k - 1], trace[k]);
      if updates[k - 1].Parsed? {
        DynamicNames(statics, trace[k - 1], updates[k - 1].list, trace[k], name);
      } else {
        NamesFromLastParsed(statics, start, updates, trace, k - 1, name);
      }
    }
  }

  /**
   * The open names are the static ones and those of the most recent list that could be parsed,
   * except the names of that list that were neither open nor could be opened.
   */
  lemma {:induction false} OpenNamesAreUnion(
    statics: Sockets, start: Snapshot, updates: seq<Update>, trace: seq<Snapshot>, k: nat, name: string)
    requires Accounted(statics, start) && start.dynamic == map[]
    requires IsTrace(statics, start, updates, trace) && k <= |updates|
    ensures var j := LastParsed(updates, k);
      && (name in statics || name in trace[k].dynamic ==>
            name in statics || (j.Some? && Lists(updates[j.value].list, name)))
      && (j.Some? && Lists(updates[j.value].list, name) && name !in statics && name !in trace[k].dynamic ==>
            && name !in trace[j.value].dynamic
            && forall a :: 0 <= a < |updates[j.value].list| && updates[j.value].list[a].instance == name ==>
                 !updates[j.value].list[a].opens)
  {
    NamesFromLastParsed(statics, start, updates, trace, k, name);
    var j := LastParsed(updates, k);
    if j.Some? && name !in statics && name !in trace[k].dynamic {
      forall a | 0 <= a < |updates[j.value].list| && updates[j.value].list[a].instance == name
        ensures name !in trace[j.value].dynamic && !updates[j.value].list[a].opens
      {
        assert !Serves(statics, trace[j.value], updates[j.value].list[a], name);
      }
    }
  }

  /** Until `updates` closes, no static listener is closed or lost by the loop. */
  lemma {:induction false} StaticsStayOpen(
    statics: Sockets, start: Snapshot, updates: seq<Update>, trace: seq<Snapshot>, k: nat, name: string)
    requires Accounted(statics, start) && IsTrace(statics, start, updates, trace) && k <= |updates| && name in statics
    ensures var l := statics[name];
      l !in trace[k].closed && !Holds(trace[k].dynamic, l) && l !in trace[k].lost
  {
    TraceAccounts(statics, start, updates, trace, k);
    assert Holds(statics, statics[name]);
    assert Places(statics, trace[k], statics[name]) == One(statics[name] < trace[k].openings);
  }

  /**
   * When the loop has returned, every listener ever opened has been closed exactly once or was
   * lost; and the loop loses none when no update repeats a name.
   */
  lemma {:induction false} EverythingClosedAtExit(
    statics: Sockets, start: Snapshot, updates: seq<Update>, trace: seq<Snapshot>, closed: seq<Listener>)
    requires Accounted(statics, start) && IsTrace(statics, start, updates, trace)
    requires ClosesTheRest(statics, trace[|updates|], closed)
    ensures NoRepeats(closed)
    ensures var last := trace[|updates|];
      forall l: Listener :: One(l in closed) + One(l in last.lost) == One(l < last.openings)
    ensures (forall j :: 0 <= j < |updates| && updates[j].Parsed? ==> NamesOnce(updates[j].list))
      ==> trace[|updates|].lost == start.lost
  {
    var last := trace[|updates|];
    TraceAccounts(statics, start, updates, trace, |updates|);
    var n :| StaticsThenDynamics(statics, last, closed, n);
    ExitOrder(statics, last, closed, n);
  }

  /** The update opens no second listener for a name. */
  ghost predicate DisplacesNone(statics: Sockets, s: Snapshot, u: Update) {
    u.Parsed? ==> forall a, b :: 0 <= a < b < |u.list| ==> !Displaces(statics, s, u.list, a, b)
  }

  lemma {:induction false} TraceLosesIff(
    statics: Sockets, start: Snapshot, updates: seq<Update>, trace: seq<Snapshot>, k: nat)
    requires Accounted(statics, start) && IsTrace(statics, start, updates, trace) && k <= |updates|
    ensures start.lost <= trace[k].lost
    ensures trace[k].lost == start.lost <==> forall j :: 0 <= j < k ==> DisplacesNone(statics, trace[j], updates[j])
  {
    if k > 0 {
      TraceLosesIff(statics, start, updates, trace, k - 1);
      TraceAccounts(statics, start, updates, trace, k - 1);
      assert Reconciles(statics, trace[k - 1], updates[k - 1], trace[k]);
      UpdateLosesIff(statics, trace[k - 1], updates[k - 1], trace[k]);
    }
  }

  lemma {:induction false} UpdateLosesIff(statics: Sockets, s: Snapshot, u: Update, s': Snapshot)
    requires Accounted(statics, s) && Reconciles(statics, s, u, s')
    ensures s.lost <= s'.lost
    ensures s'.lost == s.lost <==> DisplacesNone(statics, s, u)
  {
    if u.Parsed? {
      PassLoses(statics, s, u.list, |u.list|);
    }
  }

  /** Every listener opened so far is among these. */
  ghost predicate AllAmong(openings: nat, closed: seq<Listener>) {
    forall l: Listener :: l < openings ==> l in closed
  }

  lemma {:induction false} AllAmongIffNoneLost(last: Snapshot, closed: seq<Listener>)
    requires forall l: Listener :: One(l in closed) + One(l in last.lost) == One(l < last.openings)
    ensures AllAmong(last.openings, closed) <==> last.lost == []
    ensures forall l: Listener :: l in closed ==> l < last.openings
  {
    if last.lost != [] {
      var l := last.lost[0];
      assert l in last.lost;
      assert One(l in closed) + One(l in last.lost) == One(l < last.openings);
    }
  }

  /**
   * `WatchInstances` together with the loop it starts, until the updates end. No listener is ever
   * closed twice, and every listener is closed in the end exactly when no configured name repeats
   * and no update opens a second listener for a name; updates that repeat no name never do.
   */
  method Watch(cfgs: seq<Request>, updates: seq<Update>)
    returns (started: bool, openings: nat, trace: seq<Snapshot>, closed: seq<Listener>)
    ensures started <==> forall k :: 0 <= k < |cfgs| ==> cfgs[k].opens
    ensures !started ==> openings < |cfgs| && !cfgs[openings].opens && closed == []
    ensures NoRepeats(closed) && forall l: Listener :: l in closed ==> l < openings
    ensures started ==>
      var statics := StaticSockets(cfgs, |cfgs|);
      && IsTrace(statics, Opening(cfgs, |cfgs|), updates, trace)
      && (AllAmong(openings, closed) <==>
            && NamesOnce(cfgs)
            && forall j :: 0 <= j < |updates| ==> DisplacesNone(statics, trace[j], updates[j]))
    ensures
      && started
      && NamesOnce(cfgs)
      && (forall j :: 0 <= j < |updates| && updates[j].Parsed? ==> NamesOnce(updates[j].list))
      ==> AllAmong(openings, closed)
  {
    var sockets;
    sockets, openings := WatchInstances(cfgs);
    if sockets.None? {
      return false, openings, [], [];
    }
    started := true;
    var start := Opening(cfgs, |cfgs|);
    StaticsAccounted(cfgs, |cfgs|);
    StaticLostIff(cfgs, |cfgs|);
    trace, closed := WatchInstancesLoop(sockets.value, start, updates);
    EverythingClosedAtExit(sockets.value, start, updates, trace, closed);
    TraceLosesIff(sockets.value, start, updates, trace, |updates|);
    openings := trace[|updates|].openings;
    AllAmongIffNoneLost(trace[|updates|], closed);
  }

  lemma {:induction false} ExitOrder(statics: Sockets, last: Snapshot, closed: seq<Listener>, n: nat)
    requires Accounted(statics, last) && last.closed <= closed && StaticsThenDynamics(statics, last, closed, n)
    ensures NoRepeats(closed)
    ensures forall l: Listener :: One(l in closed) + One(l in last.lost) == One(l < last.openings)
  {
    var a, b, c := last.closed, closed[|last.closed|..n], closed[n..];
    assert closed == a + b + c;
    forall l: Listener
      ensures One(l in closed) + One(l in last.lost) == One(l < last.openings)
      ensures l in a ==> l !in b && l !in c
      ensures l in b ==> l !in c
    {
      assert Places(statics, last, l) == One(l < last.openings);
      assert l in b <==> Holds(statics, l);
      assert l in c <==> Holds(last.dynamic, l);
    }
    DisjointPartsNoRepeats(a, b);
    DisjointPartsNoRepeats(a + b, c);
  }

  lemma {:induction false} DisjointPartsNoRepeats<T>(a: seq<T>, b: seq<T>)
    requires NoRepeats(a) && NoRepeats(b) && forall x :: x in a ==> x !in b
    ensures NoRepeats(a + b)
  {
    forall i, j | 0 <= i < j < |a + b|
      ensures (a + b)[i] != (a + b)[j]
    {
      if i < |a| <= j {
        assert a[i] !in b && (a + b)[j] == b[j - |a|];
      }
    }
  }
}
