/** The set of tracked connections: a map of slices that stands for a map of multisets. */
module ConnSets {
  import opened Basics

  /** A `net.Conn`, compared by identity. */
  type Conn = nat

  type ConnMap = map<string, seq<Conn>>

  /** A missing id reads as a nil slice. */
  function ListOf(m: ConnMap, id: string): seq<Conn> {
    if id in m then m[id] else []
  }

  function BagOf(m: ConnMap, id: string): multiset<Conn> {
    multiset(ListOf(m, id))
  }

  /** No id is kept for an empty slice. */
  ghost predicate NoEmptySlice(m: ConnMap) {
    forall id :: id in m ==> m[id] != []
  }

  function Added(m: ConnMap, id: string, conn: Conn): ConnMap {
    m[id := ListOf(m, id) + [conn]]
  }

  /** The slice without the first occurrence of the connection. */
  function WithoutFirst(conns: seq<Conn>, conn: Conn): seq<Conn> {
    if conns == [] then []
    else if conns[0] == conn then conns[1..]
    else [conns[0]] + WithoutFirst(conns[1..], conn)
  }

  function Removed(m: ConnMap, id: string, conn: Conn): ConnMap {
    if conn !in ListOf(m, id) then m
    else if |ListOf(m, id)| == 1 then m - {id}
    else m[id := WithoutFirst(ListOf(m, id), conn)]
  }

  lemma {:induction false} WithoutFirstIsSplice(conns: seq<Conn>, conn: Conn, pos: nat)
    requires pos < |conns| && conns[pos] == conn && conn !in conns[..pos]
    ensures WithoutFirst(conns, conn) == conns[..pos] + conns[pos + 1..]
  {
    if pos > 0 {
      assert conns[1..][..pos - 1] == conns[..pos][1..];
      WithoutFirstIsSplice(conns[1..], conn, pos - 1);
    }
  }

  lemma {:induction false} FirstIsCutOut(m: ConnMap, id: string, conn: Conn, pos: nat)
    requires id in m && pos < |m[id]| && m[id][pos] == conn && conn !in m[id][..pos] && |m[id]| > 1
    ensures Removed(m, id, conn) == m[id := m[id][..pos] + m[id][pos + 1..]]
  {
    WithoutFirstIsSplice(m[id], conn, pos);
  }

  lemma {:induction false} SameElsewhere(m: ConnMap, m': ConnMap, id: string, conns: seq<Conn>)
    requires m.Keys == m'.Keys
    requires forall j :: j in m && j != id ==> m[j] == m'[j]
    ensures m[id := conns] == m'[id := conns]
  {
  }

  lemma {:induction false} WithoutFirstDropsOne(conns: seq<Conn>, conn: Conn)
    requires conn in conns
    ensures multiset(WithoutFirst(conns, conn)) == multiset(conns) - multiset{conn}
    ensures |WithoutFirst(conns, conn)| == |conns| - 1
  {
    assert conns == [conns[0]] + conns[1..];
    if conns[0] != conn {
      WithoutFirstDropsOne(conns[1..], conn);
    }
  }

  lemma {:induction false} RemoveRestores(m: ConnMap, id: string, conn: Conn)
    requires NoEmptySlice(m) && conn !in ListOf(m, id)
    ensures Removed(Added(m, id, conn), id, conn) == m
  {
    var conns := ListOf(m, id);
    assert (conns + [conn])[..|conns|] == conns;
    WithoutFirstIsSplice(conns + [conn], conn, |conns|);
    if id in m {
      assert conns + [] == conns && m[id := conns] == m;
    }
  }

  /** On the abstract map of multisets, adding puts in exactly one occurrence. */
  lemma {:induction false} AddedRefinesBags(m: ConnMap, id: string, conn: Conn)
    requires NoEmptySlice(m)
    ensures NoEmptySlice(Added(m, id, conn))
    ensures ListOf(m, id) <= ListOf(Added(m, id, conn), id)
    ensures forall j :: BagOf(Added(m, id, conn), j) == if j == id then BagOf(m, id) + multiset{conn} else BagOf(m, j)
  {
  }

  /** Removing takes out exactly one, if there is one, and never leaves an empty slice behind. */
  lemma {:induction false} RemovedRefinesBags(m: ConnMap, id: string, conn: Conn)
    requires NoEmptySlice(m)
    ensures NoEmptySlice(Removed(m, id, conn))
    ensures forall j :: BagOf(Removed(m, id, conn), j) == if j == id then BagOf(m, id) - multiset{conn} else BagOf(m, j)
  {
    if conn in ListOf(m, id) {
      WithoutFirstDropsOne(m[id], conn);
      assert |m[id]| == 1 ==> m[id] == [conn];
    }
  }

  /** An id is present exactly while its multiset is not empty. */
  lemma {:induction false} KeyIffBag(m: ConnMap, id: string)
    requires NoEmptySlice(m)
    ensures id in m <==> BagOf(m, id) != multiset{}
  {
    assert |BagOf(m, id)| == |ListOf(m, id)|;
  }

  /**
   * `Remove` undoes `Add`: the multisets, and so the ids, are the ones from before; even the order
   * is, unless the connection was there already.
   */
  lemma {:induction false} RemoveUndoesAdd(m: ConnMap, id: string, conn: Conn, j: string)
    requires NoEmptySlice(m)
    ensures var m' := Removed(Added(m, id, conn), id, conn);
      && BagOf(m', j) == BagOf(m, j)
      && (j in m' <==> j in m)
      && (conn !in ListOf(m, id) ==> m' == m)
  {
    var added := Added(m, id, conn);
    if conn !in ListOf(m, id) {
      RemoveRestores(m, id, conn);
    }
    AddedRefinesBags(m, id, conn);
    RemovedRefinesBags(added, id, conn);
    assert BagOf(m, id) + multiset{conn} - multiset{conn} == BagOf(m, id);
    KeyIffBag(m, j);
    KeyIffBag(Removed(added, id, conn), j);
  }

  /** All slices laid end to end. */
  function Flatten(m: ConnMap, ids: seq<string>): seq<Conn> {
    if ids == [] then [] else Flatten(m, ids[..|ids| - 1]) + ListOf(m, ids[|ids| - 1])
  }

  /** Laying out the slices of one list of ids after another is laying out those of both. */
  lemma {:induction false} FlattenJoins(m: ConnMap, a: seq<string>, b: seq<string>)
    ensures Flatten(m, a + b) == Flatten(m, a) + Flatten(m, b)
    ensures |b| == 1 ==> Flatten(m, b) == ListOf(m, b[0])
  {
    if b != [] {
      var last := |b| - 1;
      FlattenJoins(m, a, b[..last]);
      assert (a + b)[..|a| + last] == a + b[..last];
    } else {
      assert a + b == a;
    }
  }

  lemma {:induction false} FlattenMore(m: ConnMap, ids: seq<string>, n: nat)
    requires n < |ids|
    ensures Flatten(m, ids[..n + 1]) == Flatten(m, ids[..n]) + ListOf(m, ids[n])
  {
    assert ids[..n + 1][..n] == ids[..n];
  }

  /** Moves what follows a position one place down, as `append` of two parts of one slice does. */
  method ShiftDown(a: array<Conn>, pos: nat, len: nat)
    requires pos < len <= a.Length
    modifies a
    ensures a[..len - 1] == old(a[..pos] + a[pos + 1..len])
    ensures a[len - 1..] == old(a[len - 1..])
  {
    for k := pos to len - 1
      invariant forall i :: 0 <= i < pos ==> a[i] == old(a[i])
      invariant forall i :: pos <= i < k ==> a[i] == old(a[i + 1])
      invariant forall i :: k <= i < a.Length ==> a[i] == old(a[i])
    {
      a[k] := a[k + 1];
    }
  }

  /** A new array with the same connections, one more, and some spare room. */
  method Grow(conns: seq<Conn>, conn: Conn, spare: nat) returns (grown: array<Conn>)
    ensures fresh(grown) && |conns| < grown.Length && grown[..|conns| + 1] == conns + [conn]
  {
    grown := new Conn[|conns| + 1 + spare](k requires 0 <= k => if k < |conns| then conns[k] else conn);
  }

  /** A slice from the start of its array, whose length is the capacity. */
  datatype Slice = Slice(buf: array<Conn>, len: nat)

  /** The arrays behind the slices. */
  ghost function BuffersOf(m: map<string, Slice>): set<array<Conn>> {
    set id | id in m :: m[id].buf
  }

  /** No id is kept for an empty slice, and no two slices share an array. */
  ghost predicate WellFormed(m: map<string, Slice>) {
    && (forall id :: id in m ==> 0 < m[id].len <= m[id].buf.Length)
    && (forall i, j :: i in m && j in m && i != j ==> m[i].buf != m[j].buf)
  }

  ghost function Shown(m: map<string, Slice>): (shown: ConnMap)
    requires WellFormed(m)
    reads BuffersOf(m)
    ensures NoEmptySlice(shown)
  {
    map id | id in m :: m[id].buf[..m[id].len]
  }

  /** A slice whose array no other id has can be stored. */
  lemma {:induction false} ShownAfterPut(m: map<string, Slice>, id: string, slice: Slice)
    requires WellFormed(m) && 0 < slice.len <= slice.buf.Length
    requires forall j :: j in m && j != id ==> m[j].buf != slice.buf
    ensures WellFormed(m[id := slice])
    ensures Shown(m[id := slice]) == Shown(m)[id := slice.buf[..slice.len]]
  {
  }

  lemma {:induction false} BuffersAfterPut(m: map<string, Slice>, id: string, slice: Slice)
    ensures BuffersOf(m[id := slice]) <= BuffersOf(m) + {slice.buf}
  {
  }

  class ConnSet {
    var m: map<string, Slice>
    /** Every call of a connection's `Close`, in order. */
    ghost var closes: seq<Conn>

    ghost function Buffers(): set<array<Conn>>
      reads this`m
    {
      BuffersOf(m)
    }

    ghost predicate Valid()
      reads this`m
    {
      WellFormed(m)
    }

    ghost function Contents(): ConnMap
      requires Valid()
      reads this`m, Buffers()
    {
      Shown(m)
    }

    constructor ()
      ensures Valid() && Contents() == map[] && closes == []
    {
      m, closes := map[], [];
    }

    /** What is stored under the id; a missing id reads as a nil slice. */
    function SliceAt(id: string): (conns: seq<Conn>)
      requires Valid()
      reads this`m, Buffers()
      ensures conns == ListOf(Contents(), id)
    {
      if id in m then m[id].buf[..m[id].len] else []
    }

    method Put(id: string, slice: Slice)
      requires Valid() && 0 < slice.len <= slice.buf.Length
      requires forall j :: j in m && j != id ==> m[j].buf != slice.buf
      modifies this`m
      ensures Valid() && Buffers() <= old(Buffers()) + {slice.buf}
      ensures Contents() == old(Contents())[id := slice.buf[..slice.len]]
    {
      ShownAfterPut(m, id, slice);
      BuffersAfterPut(m, id, slice);
      m := m[id := slice];
    }

    /** Appends within the capacity, or moves to a new array with some spare room. */
    method Add(id: string, conn: Conn, spare: nat)
      requires Valid()
      modifies this`m, Buffers()
      ensures Valid() && Contents() == Added(old(Contents()), id, conn)
      ensures fresh(Buffers() - old(Buffers()))
    {
      if id in m && m[id].len < m[id].buf.Length {
        AppendInPlace(id, conn);
      } else {
        var conns := SliceAt(id);
        var grown := Grow(conns, conn, spare);
        Put(id, Slice(grown, |conns| + 1));
      }
    }

    method AppendInPlace(id: string, conn: Conn)
      requires Valid() && id in m && m[id].len < m[id].buf.Length
      modifies this`m, m[id].buf
      ensures Valid() && Contents() == Added(old(Contents()), id, conn)
      ensures Buffers() <= old(Buffers())
    {
      WriteBeyond(id, conn);
      Put(id, Slice(m[id].buf, m[id].len + 1));
    }

    /** Writes after the end of the slice, which the contents do not show yet. */
    method WriteBeyond(id: string, conn: Conn)
      requires Valid() && id in m && m[id].len < m[id].buf.Length
      modifies m[id].buf
      ensures Contents() == old(Contents())
      ensures m[id].buf[..m[id].len + 1] == Contents()[id] + [conn]
    {
      m[id].buf[m[id].len] := conn;
    }

    /** Reports whether the connection was there; otherwise nothing changes. */
    method Remove(id: string, conn: Conn) returns (found: bool)
      requires Valid()
      modifies this`m, Buffers()
      ensures Valid() && Contents() == Removed(old(Contents()), id, conn)
      ensures found <==> conn in ListOf(old(Contents()), id)
      ensures Buffers() <= old(Buffers())
    {
      if id !in m {
        return false;
      }
      var Slice(buf, len) := m[id];
      var pos := 0;
      while pos < len && buf[pos] != conn
        invariant 0 <= pos <= len
        invariant conn !in buf[..pos]
      {
        pos := pos + 1;
      }
      if pos == len {
        return false;
      }
      assert buf[..len][pos] == conn;
      if len == 1 {
        m := m - {id};
      } else {
        CutOut(id, pos, conn);
      }
      return true;
    }

    /** Takes the first occurrence out of the slice, in place. */
    method CutOut(id: string, pos: nat, conn: Conn)
      requires Valid() && id in m && pos < m[id].len && 1 < m[id].len
      requires m[id].buf[pos] == conn && conn !in m[id].buf[..pos]
      modifies this`m, m[id].buf
      ensures Valid() && Buffers() <= old(Buffers())
      ensures Contents() == Removed(old(Contents()), id, conn)
    {
      var Slice(buf, len) := m[id];
      FirstIsCutOut(Contents(), id, conn, pos);
      Shift(id, pos);
      SameElsewhere(old(Contents()), Contents(), id, buf[..len - 1]);
      Put(id, Slice(buf, len - 1));
    }

    method Shift(id: string, pos: nat)
      requires Valid() && id in m && pos < m[id].len
      modifies m[id].buf
      ensures Contents().Keys == old(Contents()).Keys
      ensures forall j :: j in Contents() && j != id ==> Contents()[j] == old(Contents())[j]
      ensures var conns := old(Contents())[id];
        m[id].buf[..m[id].len - 1] == conns[..pos] + conns[pos + 1..]
    {
      ShiftDown(m[id].buf, pos, m[id].len);
    }

    /** Exactly the ids that still have a connection, each once. */
    method IDs() returns (ids: seq<string>)
      requires Valid()
      ensures NoRepeats(ids)
      ensures forall id :: id in ids <==> BagOf(Contents(), id) != multiset{}
    {
      ids := Keys();
      forall id
        ensures id in ids <==> BagOf(Contents(), id) != multiset{}
      {
        KeyIffBag(Contents(), id);
      }
    }

    /** Go ranges over a map in no particular order. */
    method Keys() returns (ids: seq<string>)
      ensures NoRepeats(ids)
      ensures forall id :: id in ids <==> id in m
    {
      ids := [];
      var rest := m.Keys;
      while rest != {}
        invariant NoRepeats(ids)
        invariant forall id :: id in m <==> id in ids || id in rest
        invariant forall id :: id in ids ==> id !in rest
        decreases rest
      {
        var id :| id in rest;
        rest := rest - {id};
        ids := ids + [id];
      }
    }

    method Conns(ids: seq<string>) returns (ret: seq<Conn>)
      requires Valid()
      ensures ret == Flatten(Contents(), ids)
    {
      ret := [];
      for n := 0 to |ids|
        invariant ret == Flatten(Contents(), ids[..n])
      {
        FlattenMore(Contents(), ids, n);
        ret := ret + SliceAt(ids[n]);
      }
      assert ids[..|ids|] == ids;
    }

    /** Closes the connections of one slice; `failing` are the connections whose close fails. */
    method CloseOne(id: string, failing: set<Conn>) returns (failed: bool)
      requires Valid()
      modifies this`closes
      ensures Contents() == old(Contents())
      ensures closes == old(closes) + ListOf(Contents(), id)
      ensures failed <==> Touches(ListOf(Contents(), id), failing)
    {
      var conns := SliceAt(id);
      failed := false;
      for k := 0 to |conns|
        invariant closes == old(closes) + conns[..k]
        invariant failed <==> Touches(conns[..k], failing)
      {
        assert conns[..k + 1] == conns[..k] + [conns[k]];
        TouchesEither(conns[..k], [conns[k]], failing);
        assert Touches([conns[k]], failing) <==> [conns[k]][0] in failing;
        closes := closes + [conns[k]];
        failed := failed || conns[k] in failing;
      }
      assert conns[..|conns|] == conns;
    }

    /**
     * Closes every connection once per occurrence, in some order of the ids; the set itself stays
     * as it is. Fails exactly when some slice holds a connection whose close fails.
     */
    method Close(failing: set<Conn>) returns (failed: bool, ghost order: seq<string>)
      requires Valid()
      modifies this`closes
      ensures NoRepeats(order) && (forall id :: id in order <==> id in Contents())
      ensures closes == old(closes) + Flatten(Contents(), order)
      ensures failed <==> Touches(Flatten(Contents(), order), failing)
    {
      var ids := Keys();
      failed := CloseUnder(ids, failing);
      order := ids;
    }

    method CloseUnder(ids: seq<string>, failing: set<Conn>) returns (failed: bool)
      requires Valid()
      modifies this`closes
      ensures closes == old(closes) + Flatten(Contents(), ids)
      ensures failed <==> Touches(Flatten(Contents(), ids), failing)
    {
      failed := false;
      ghost var all := Contents();
      ghost var done := [];
      for n := 0 to |ids|
        invariant Contents() == all && done == Flatten(all, ids[..n])
        invariant closes == old(closes) + done
        invariant failed <==> Touches(done, failing)
      {
        var failedHere := CloseOne(ids[n], failing);
        FlattenMore(all, ids, n);
        TouchesEither(done, ListOf(all, ids[n]), failing);
        done := done + ListOf(all, ids[n]);
        failed := failed || failedHere;
      }
      assert ids[..|ids|] == ids;
    }
  }

  /** Some connection of the list is one of the set. */
  ghost predicate Touches(conns: seq<Conn>, s: set<Conn>) {
    exists k :: 0 <= k < |conns| && conns[k] in s
  }

  lemma {:induction false} TouchesEither(a: seq<Conn>, b: seq<Conn>, s: set<Conn>)
    ensures Touches(a + b, s) <==> Touches(a, s) || Touches(b, s)
  {
    if k :| 0 <= k < |a| && a[k] in s {
      assert (a + b)[k] in s;
    } else if k :| 0 <= k < |b| && b[k] in s {
      assert (a + b)[|a| + k] in s;
    }
  }
}
