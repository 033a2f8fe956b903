/** The Move and BatchMove mapper stages (types/mapper/move.go, types/mapper/batchmove.go). */
module Moves {
  import opened Text
  import opened Values

  /** FromInternal of a Move from one path to the other; ToInternal is the same with the paths swapped. */
  function MoveValue(d: Object, from: seq<string>, to: seq<string>): Object {
    var v := GetValue(d, from);
    if v.Some? then PutValue(RemoveValue(d, from), v.value, to) else RemoveValue(d, from)
  }

  // ------------------------------------------------------- one path, put and removed

  /** PutValue gives up: something on the way is not a map. */
  predicate Blocked(m: Object, keys: seq<string>)
    decreases |keys|
  {
    |keys| > 1 && keys[0] in m && (!m[keys[0]].Map? || Blocked(m[keys[0]].fields, keys[1..]))
  }

  /** The map that holds the last key of the path is there. */
  predicate ParentIsMap(m: Object, keys: seq<string>)
    decreases |keys|
  {
    |keys| <= 1 || (keys[0] in m && m[keys[0]].Map? && ParentIsMap(m[keys[0]].fields, keys[1..]))
  }

  lemma {:induction false} RemoveAbsent(m: Object, keys: seq<string>)
    requires keys != [] && GetValue(m, keys).None?
    ensures RemoveValue(m, keys) == m
    decreases |keys|
  {
    if |keys| > 1 && keys[0] in m && m[keys[0]].Map? { RemoveAbsent(m[keys[0]].fields, keys[1..]); }
  }

  lemma {:induction false} RemovedIsAbsent(m: Object, keys: seq<string>)
    requires keys != []
    ensures GetValue(RemoveValue(m, keys), keys).None?
    decreases |keys|
  {
    if |keys| > 1 {
      if keys[0] in m && m[keys[0]].Map? { RemovedIsAbsent(m[keys[0]].fields, keys[1..]); }
      else { EmptyHasNothing(keys[1..]); }
    }
  }

  lemma {:induction false} GetAfterPut(m: Object, v: Value, keys: seq<string>)
    requires keys != [] && !Blocked(m, keys)
    ensures GetValue(PutValue(m, v, keys), keys) == Some(v)
    decreases |keys|
  {
    if |keys| > 1 { GetAfterPut(Sub(m, keys[0]), v, keys[1..]); }
  }

  lemma {:induction false} BlockedIsAbsent(m: Object, v: Value, keys: seq<string>)
    requires Blocked(m, keys)
    ensures GetValue(m, keys).None? && PutValue(m, v, keys) == m && !ParentIsMap(m, keys)
    decreases |keys|
  {
    if m[keys[0]].Map? { BlockedIsAbsent(m[keys[0]].fields, v, keys[1..]); }
    else { EmptyHasNothing(keys[1..]); }
  }

  lemma {:induction false} PutBack(m: Object, keys: seq<string>, v: Value)
    requires keys != [] && GetValue(m, keys) == Some(v)
    ensures PutValue(RemoveValue(m, keys), v, keys) == m
    ensures !Blocked(m, keys)
    decreases |keys|
  {
    if |keys| > 1 {
      EmptyHasNothing(keys[1..]);
      PutBack(m[keys[0]].fields, keys[1..], v);
    }
  }

  /** Putting and removing at a free path leaves the data alone exactly when the parent was there. */
  lemma {:induction false} PutThenRemove(m: Object, v: Value, keys: seq<string>)
    requires keys != [] && GetValue(m, keys).None? && !Blocked(m, keys)
    ensures RemoveValue(PutValue(m, v, keys), keys) == m <==> ParentIsMap(m, keys)
    decreases |keys|
  {
    if |keys| > 1 {
      var k := keys[0];
      PutThenRemove(Sub(m, k), v, keys[1..]);
      assert RemoveValue(PutValue(m, v, keys), keys)
          == m[k := Map(RemoveValue(PutValue(Sub(m, k), v, keys[1..]), keys[1..]))];
      if k in m { assert m == m[k := Map(m[k].fields)]; }
    }
  }

  // ------------------------------------------------------------- two paths

  /** The path functions read and write only the slot of their first key. */
  lemma Local(m: Object, n: Object, v: Value, keys: seq<string>)
    requires keys != [] && SameSlot(m, n, keys[0])
    ensures GetValue(m, keys) == GetValue(n, keys) && Blocked(m, keys) == Blocked(n, keys)
    ensures SameSlot(RemoveValue(m, keys), RemoveValue(n, keys), keys[0])
    ensures SameSlot(PutValue(m, v, keys), PutValue(n, v, keys), keys[0])
  {
  }

  lemma Elsewhere(m: Object, v: Value, keys: seq<string>, k: string)
    requires keys != [] && k != keys[0]
    ensures SameSlot(RemoveValue(m, keys), m, k) && SameSlot(PutValue(m, v, keys), m, k)
  {
  }

  /** Paths that part at the first key: there and back is a put and a remove at the destination. */
  lemma MoveApart(d: Object, from: seq<string>, to: seq<string>, v: Value)
    requires from != [] && to != [] && from[0] != to[0]
    requires GetValue(d, from) == Some(v) && !Blocked(d, to)
    ensures MoveValue(MoveValue(d, from, to), to, from) == RemoveValue(PutValue(d, v, to), to)
  {
    var d1 := RemoveValue(d, from);
    var d2 := PutValue(d1, v, to);
    var d3 := RemoveValue(d2, to);
    var d4 := PutValue(d3, v, from);
    Elsewhere(d, v, from, to[0]);
    Local(d1, d, v, to);
    GetAfterPut(d1, v, to);
    assert MoveValue(MoveValue(d, from, to), to, from) == d4;
    PutBack(d, from, v);
    var goal := RemoveValue(PutValue(d, v, to), to);
    forall k
      ensures SameSlot(d4, goal, k)
    {
      MoveApartAt(d, from, to, v, k);
    }
    SameObject(d4, goal);
  }

  lemma MoveApartAt(d: Object, from: seq<string>, to: seq<string>, v: Value, k: string)
    requires from != [] && to != [] && from[0] != to[0]
    requires GetValue(d, from) == Some(v)
    ensures var d2 := PutValue(RemoveValue(d, from), v, to);
            SameSlot(PutValue(RemoveValue(d2, to), v, from), RemoveValue(PutValue(d, v, to), to), k)
  {
    var d1 := RemoveValue(d, from);
    var d2 := PutValue(d1, v, to);
    var d3 := RemoveValue(d2, to);
    PutBack(d, from, v);
    if k == from[0] {
      Elsewhere(d1, v, to, k);
      Elsewhere(d2, v, to, k);
      Local(d3, d1, v, from);
      Elsewhere(d, v, to, k);
      Elsewhere(PutValue(d, v, to), v, to, k);
    } else {
      Elsewhere(d3, v, from, k);
      Elsewhere(d, v, from, k);
      if k == to[0] {
        Local(d1, d, v, to);
        Local(d2, PutValue(d, v, to), v, to);
      } else {
        Elsewhere(d1, v, to, k);
        Elsewhere(d2, v, to, k);
        Elsewhere(d, v, to, k);
        Elsewhere(PutValue(d, v, to), v, to, k);
      }
    }
  }

  /** Paths that start alike: the move happens inside the map they share. */
  lemma MoveInside(d: Object, from: seq<string>, to: seq<string>)
    requires |from| > 1 && |to| > 1 && from[0] == to[0]
    requires from[0] in d && d[from[0]].Map?
    ensures MoveValue(d, from, to) == d[from[0] := Map(MoveValue(d[from[0]].fields, from[1..], to[1..]))]
  {
  }

  /** The nested maps that hold just v at the end of the path. */
  function Chain(keys: seq<string>, v: Value): Value
    decreases |keys|
  {
    if keys == [] then v else Map(map[keys[0] := Chain(keys[1..], v)])
  }

  /** When a Move there and back gives the data again, as a caller can check it beforehand. */
  ghost predicate Reversible(d: Object, from: seq<string>, to: seq<string>) {
    var v := GetValue(d, from);
    if v.None? then GetValue(d, to).None?
    else if from <= to then true
    else if to <= from then GetValue(d, to) == Some(Chain(from[|to|..], v.value))
    else GetValue(d, to).None? && ParentIsMap(d, to)
  }

  lemma NothingToMove(d: Object, from: seq<string>, to: seq<string>)
    requires from != [] && to != [] && GetValue(d, from).None?
    ensures MoveValue(MoveValue(d, from, to), to, from) == d <==> GetValue(d, to).None?
  {
    RemoveAbsent(d, from);
    var w := GetValue(d, to);
    if w.None? { RemoveAbsent(d, to); }
    else {
      var rest := RemoveValue(d, to);
      RemovedIsAbsent(d, to);
      if Blocked(rest, from) { BlockedIsAbsent(rest, w.value, from); }
      else { GetAfterPut(rest, w.value, from); }
    }
  }

  lemma ApartRoundTrip(d: Object, from: seq<string>, to: seq<string>, v: Value)
    requires from != [] && to != [] && from[0] != to[0] && GetValue(d, from) == Some(v)
    ensures MoveValue(MoveValue(d, from, to), to, from) == d <==> GetValue(d, to).None? && ParentIsMap(d, to)
  {
    if Blocked(d, to) {
      var d1 := RemoveValue(d, from);
      BlockedIsAbsent(d, v, to);
      Elsewhere(d, v, from, to[0]);
      Local(d1, d, v, to);
      BlockedIsAbsent(d1, v, to);
      RemoveAbsent(d1, to);
      RemovedIsAbsent(d, from);
    } else {
      MoveApart(d, from, to, v);
      if GetValue(d, to).None? { PutThenRemove(d, v, to); }
      else { RemovedIsAbsent(PutValue(d, v, to), to); }
    }
  }

  /** From a top-level key to a path that starts with it. */
  lemma MoveBelow(d: Object, from: seq<string>, to: seq<string>, v: Value)
    requires |from| == 1 && to != [] && from[0] == to[0] && GetValue(d, from) == Some(v)
    ensures MoveValue(MoveValue(d, from, to), to, from) == d
  {
    var d1 := RemoveValue(d, from);
    var d2 := PutValue(d1, v, to);
    GetAfterPut(d1, v, to);
    assert MoveValue(d2, to, from) == PutValue(RemoveValue(d2, to), v, from);
    forall k
      ensures SameSlot(MoveValue(d2, to, from), d, k)
    {
      if k != to[0] {
        Elsewhere(d1, v, to, k);
        Elsewhere(d2, v, to, k);
      }
    }
    SameObject(MoveValue(d2, to, from), d);
  }

  lemma {:induction false} ChainIsPut(keys: seq<string>, v: Value)
    requires keys != []
    ensures Map(PutValue(map[], v, keys)) == Chain(keys, v)
    decreases |keys|
  {
    if |keys| > 1 {
      ChainIsPut(keys[1..], v);
    } else {
      assert Chain(keys[1..], v) == v;
    }
  }

  /** From a path to the top-level key it starts with: that key's map is overwritten. */
  lemma MoveAbove(d: Object, from: seq<string>, to: seq<string>, v: Value)
    requires |from| > 1 && |to| == 1 && from[0] == to[0] && GetValue(d, from) == Some(v)
    ensures to[0] in d
    ensures MoveValue(MoveValue(d, from, to), to, from) == d <==> d[to[0]] == Chain(from[1..], v)
  {
    EmptyHasNothing(from[1..]);
    var k := to[0];
    assert MoveValue(d, from, to) == d[k := v];
    var d3 := d[k := v] - {k};
    assert MoveValue(d[k := v], to, from) == PutValue(d3, v, from);
    ChainIsPut(from[1..], v);
    assert PutValue(d3, v, from) == d3[k := Chain(from[1..], v)];
    if d[k] == Chain(from[1..], v) { assert d3[k := d[k]] == d; }
  }

  lemma ReversibleInside(d: Object, from: seq<string>, to: seq<string>)
    requires |from| > 1 && |to| > 1 && from[0] == to[0]
    requires from[0] in d && d[from[0]].Map?
    ensures Reversible(d, from, to) <==> Reversible(d[from[0]].fields, from[1..], to[1..])
  {
    assert from == [from[0]] + from[1..];
    assert to == [to[0]] + to[1..];
    assert from <= to <==> from[1..] <= to[1..];
    assert to <= from <==> to[1..] <= from[1..];
    if to <= from { assert from[|to|..] == from[1..][|to[1..]|..]; }
  }

  lemma RoundTripInside(d: Object, from: seq<string>, to: seq<string>)
    requires |from| > 1 && |to| > 1 && from[0] == to[0]
    requires from[0] in d && d[from[0]].Map?
    ensures var sub := d[from[0]].fields;
            MoveValue(MoveValue(d, from, to), to, from) == d <==>
            MoveValue(MoveValue(sub, from[1..], to[1..]), to[1..], from[1..]) == sub
  {
    var k := from[0];
    var sub := d[k].fields;
    MoveInside(d, from, to);
    var d2 := MoveValue(d, from, to);
    MoveInside(d2, to, from);
    var back := MoveValue(MoveValue(sub, from[1..], to[1..]), to[1..], from[1..]);
    assert MoveValue(d2, to, from) == d2[k := Map(back)];
    assert d2[k := Map(back)] == d[k := Map(back)];
    assert d == d[k := Map(sub)];
    if d[k := Map(back)] == d { assert Map(back) == d[k := Map(back)][k]; }
  }

  /** A Move there and back gives the data again exactly when it was reversible. */
  lemma {:induction false} MoveRoundTrip(d: Object, from: seq<string>, to: seq<string>)
    requires from != [] && to != []
    ensures MoveValue(MoveValue(d, from, to), to, from) == d <==> Reversible(d, from, to)
    decreases |from|
  {
    var v := GetValue(d, from);
    if v.None? {
      NothingToMove(d, from, to);
    } else if from[0] != to[0] {
      ApartRoundTrip(d, from, to, v.value);
      assert !(from <= to) && !(to <= from);
    } else if |from| == 1 {
      MoveBelow(d, from, to, v.value);
      assert from <= to;
    } else if |to| == 1 {
      MoveAbove(d, from, to, v.value);
      assert to <= from && !(from <= to);
    } else {
      EmptyHasNothing(from[1..]);
      MoveRoundTrip(d[from[0]].fields, from[1..], to[1..]);
      RoundTripInside(d, from, to);
      ReversibleInside(d, from, to);
    }
  }

  /** Neither path is a prefix of the other. */
  predicate Apart(p: seq<string>, q: seq<string>) { !(p <= q) && !(q <= p) }

  lemma ApartTail(p: seq<string>, q: seq<string>)
    requires Apart(p, q) && p[0] == q[0]
    ensures |p| > 1 && |q| > 1 && Apart(p[1..], q[1..])
  {
    assert p == [p[0]] + p[1..];
    assert q == [q[0]] + q[1..];
  }

  /** With a free destination, all that a Move there and back leaves behind is the empty parents it made. */
  lemma {:induction false} MoveLeavesOnlyParents(d: Object, from: seq<string>, to: seq<string>, v: Value)
    requires Apart(from, to) && GetValue(d, from) == Some(v) && GetValue(d, to).None? && !Blocked(d, to)
    ensures MoveValue(MoveValue(d, from, to), to, from) == RemoveValue(PutValue(d, v, to), to)
    decreases |from|
  {
    if from[0] != to[0] {
      MoveApart(d, from, to, v);
    } else {
      ApartTail(from, to);
      EmptyHasNothing(from[1..]);
      var k := from[0];
      var sub := d[k].fields;
      MoveLeavesOnlyParents(sub, from[1..], to[1..], v);
      MoveInside(d, from, to);
      var d2 := MoveValue(d, from, to);
      MoveInside(d2, to, from);
      var back := MoveValue(MoveValue(sub, from[1..], to[1..]), to[1..], from[1..]);
      assert MoveValue(d2, to, from) == d[k := Map(back)];
    }
  }

  lemma {:induction false} RemoveElsewhere(m: Object, p: seq<string>, q: seq<string>)
    requires Apart(p, q)
    ensures GetValue(RemoveValue(m, q), p) == GetValue(m, p)
    ensures ParentIsMap(m, p) ==> ParentIsMap(RemoveValue(m, q), p)
    decreases |p|
  {
    if p[0] != q[0] {
      Elsewhere(m, Null, q, p[0]);
    } else {
      ApartTail(p, q);
      if q[0] in m && m[q[0]].Map? { RemoveElsewhere(m[q[0]].fields, p[1..], q[1..]); }
    }
  }

  lemma {:induction false} PutElsewhere(m: Object, v: Value, p: seq<string>, q: seq<string>)
    requires Apart(p, q)
    ensures GetValue(PutValue(m, v, q), p) == GetValue(m, p)
    ensures ParentIsMap(m, p) ==> ParentIsMap(PutValue(m, v, q), p)
    decreases |p|
  {
    if p[0] != q[0] {
      Elsewhere(m, v, q, p[0]);
    } else {
      ApartTail(p, q);
      PutElsewhere(Sub(m, q[0]), v, p[1..], q[1..]);
    }
  }

  lemma MoveElsewhere(d: Object, from: seq<string>, to: seq<string>, p: seq<string>)
    requires Apart(p, from) && Apart(p, to)
    ensures GetValue(MoveValue(d, from, to), p) == GetValue(d, p)
    ensures ParentIsMap(d, p) ==> ParentIsMap(MoveValue(d, from, to), p)
  {
    RemoveElsewhere(d, p, from);
    var v := GetValue(d, from);
    if v.Some? { PutElsewhere(RemoveValue(d, from), v.value, p, to); }
  }

  lemma {:induction false} BlockedElsewhere(m: Object, v: Value, p: seq<string>, q: seq<string>)
    requires Apart(p, q)
    ensures Blocked(RemoveValue(m, q), p) == Blocked(m, p) && Blocked(PutValue(m, v, q), p) == Blocked(m, p)
    decreases |p|
  {
    if p[0] != q[0] {
      Elsewhere(m, v, q, p[0]);
    } else {
      ApartTail(p, q);
      if q[0] in m && m[q[0]].Map? { BlockedElsewhere(m[q[0]].fields, v, p[1..], q[1..]); }
      else if q[0] !in m { BlockedElsewhere(map[], v, p[1..], q[1..]); }
    }
  }

  lemma MoveBlockedElsewhere(d: Object, from: seq<string>, to: seq<string>, p: seq<string>)
    requires Apart(p, from) && Apart(p, to)
    ensures Blocked(MoveValue(d, from, to), p) == Blocked(d, p)
  {
    BlockedElsewhere(d, Null, p, from);
    var v := GetValue(d, from);
    if v.Some? { BlockedElsewhere(RemoveValue(d, from), v.value, p, to); }
  }

  /** The value leaves its place and arrives at the destination, unless something on the way there is not a map. */
  lemma MoveArrives(d: Object, from: seq<string>, to: seq<string>)
    requires Apart(from, to)
    ensures GetValue(MoveValue(d, from, to), from).None?
    ensures GetValue(d, from).Some? && !Blocked(d, to) ==> GetValue(MoveValue(d, from, to), to) == GetValue(d, from)
    ensures GetValue(d, from).None? ==> MoveValue(d, from, to) == d
  {
    var v, d0 := GetValue(d, from), RemoveValue(d, from);
    RemovedIsAbsent(d, from);
    if v.Some? {
      PutElsewhere(d0, v.value, from, to);
      BlockedElsewhere(d, Null, to, from);
      if !Blocked(d, to) { GetAfterPut(d0, v.value, to); }
    } else {
      RemoveAbsent(d, from);
    }
  }

  // -------------------------------------------------------------- BatchMove

  datatype Moving = Moving(from: seq<string>, to: seq<string>)

  /** The moves of a BatchMove: each field goes below the base. */
  function BatchOf(fields: seq<seq<string>>, base: seq<string>): seq<Moving>
    decreases |fields|
  {
    if fields == [] then [] else [Moving(fields[0], base + fields[0])] + BatchOf(fields[1..], base)
  }

  function BatchFrom(d: Object, moves: seq<Moving>): Object
    decreases |moves|
  {
    if moves == [] then d else BatchFrom(MoveValue(d, moves[0].from, moves[0].to), moves[1..])
  }

  /** And back, the last move first. */
  function BatchTo(d: Object, moves: seq<Moving>): Object
    decreases |moves|
  {
    if moves == [] then d else MoveValue(BatchTo(d, moves[1..]), moves[0].to, moves[0].from)
  }

  predicate Untouched(p: seq<string>, m: Moving) { Apart(p, m.from) && Apart(p, m.to) }

  /** No path of a move touches another, its own included. */
  ghost predicate AllApart(moves: seq<Moving>)
    decreases |moves|
  {
    moves != [] ==>
      && Apart(moves[0].from, moves[0].to)
      && AllUntouched(moves[0].from, moves[1..]) && AllUntouched(moves[0].to, moves[1..])
      && AllApart(moves[1..])
  }

  ghost predicate AllUntouched(p: seq<string>, moves: seq<Moving>) {
    forall i :: 0 <= i < |moves| ==> Untouched(p, moves[i])
  }

  lemma {:induction false} BatchElsewhere(d: Object, moves: seq<Moving>, p: seq<string>)
    requires AllUntouched(p, moves)
    ensures var e := BatchTo(BatchFrom(d, moves), moves);
            && GetValue(e, p) == GetValue(d, p) && Blocked(e, p) == Blocked(d, p)
            && (ParentIsMap(d, p) ==> ParentIsMap(e, p))
    decreases |moves|
  {
    if moves != [] {
      var m, rest := moves[0], moves[1..];
      var d1 := MoveValue(d, m.from, m.to);
      assert Untouched(p, m);
      MoveElsewhere(d, m.from, m.to, p);
      MoveBlockedElsewhere(d, m.from, m.to, p);
      assert AllUntouched(p, rest);
      BatchElsewhere(d1, rest, p);
      var e1 := BatchTo(BatchFrom(d1, rest), rest);
      MoveElsewhere(e1, m.to, m.from, p);
      MoveBlockedElsewhere(e1, m.to, m.from, p);
    }
  }

  lemma {:induction false} BatchStays(d: Object, moves: seq<Moving>, p: seq<string>)
    requires AllUntouched(p, moves)
    ensures GetValue(BatchFrom(d, moves), p) == GetValue(d, p)
    decreases |moves|
  {
    if moves != [] {
      var m := moves[0];
      assert Untouched(p, m);
      MoveElsewhere(d, m.from, m.to, p);
      BatchStays(MoveValue(d, m.from, m.to), moves[1..], p);
    }
  }

  /** Each value of a batch leaves its place and arrives; nothing else moves. */
  lemma {:induction false} BatchArrives(d: Object, moves: seq<Moving>, i: nat)
    requires AllApart(moves) && i < |moves|
    ensures var e, m := BatchFrom(d, moves), moves[i];
            && GetValue(e, m.from).None?
            && (GetValue(d, m.from).Some? && !Blocked(d, m.to) ==> GetValue(e, m.to) == GetValue(d, m.from))
    decreases |moves|
  {
    var m0, rest := moves[0], moves[1..];
    var d1 := MoveValue(d, m0.from, m0.to);
    if i == 0 {
      MoveArrives(d, m0.from, m0.to);
      BatchStays(d1, rest, m0.from);
      BatchStays(d1, rest, m0.to);
    } else {
      var m := rest[i - 1];
      assert Untouched(m0.from, m) && Untouched(m0.to, m);
      MoveElsewhere(d, m0.from, m0.to, m.from);
      MoveElsewhere(d, m0.from, m0.to, m.to);
      MoveBlockedElsewhere(d, m0.from, m0.to, m.to);
      BatchArrives(d1, rest, i - 1);
    }
  }

  lemma {:induction false} PutMakesParent(m: Object, v: Value, keys: seq<string>)
    requires keys != [] && !Blocked(m, keys)
    ensures ParentIsMap(PutValue(m, v, keys), keys)
    decreases |keys|
  {
    if |keys| > 1 { PutMakesParent(Sub(m, keys[0]), v, keys[1..]); }
  }

  lemma {:induction false} RemoveKeepsParent(m: Object, keys: seq<string>)
    requires ParentIsMap(m, keys)
    ensures ParentIsMap(RemoveValue(m, keys), keys)
    decreases |keys|
  {
    if |keys| > 1 { RemoveKeepsParent(m[keys[0]].fields, keys[1..]); }
  }

  /** What a batch there and back leaves at the paths of one of its moves. */
  lemma {:induction false} FateOfMove(d: Object, moves: seq<Moving>, i: nat)
    requires AllApart(moves) && i < |moves|
    ensures Fate(d, BatchTo(BatchFrom(d, moves), moves), moves[i])
    decreases |moves|
  {
    var m0, rest := moves[0], moves[1..];
    var d1 := MoveValue(d, m0.from, m0.to);
    var e1 := BatchTo(BatchFrom(d1, rest), rest);
    if i == 0 {
      FateOfFirst(d, m0, e1, rest);
    } else {
      assert rest[i - 1] == moves[i];
      assert Untouched(m0.from, moves[i]) && Untouched(m0.to, moves[i]);
      FateOfMove(d1, rest, i - 1);
      FateStays(d, m0, e1, moves[i]);
    }
  }

  /** What m leaves at its paths, from d to e. */
  ghost predicate Fate(d: Object, e: Object, m: Moving) {
    && GetValue(e, m.to).None?
    && (GetValue(d, m.from).Some? && Blocked(d, m.to) ==> GetValue(e, m.from).None?)
    && (GetValue(d, m.from).Some? && !Blocked(d, m.to) ==> ParentIsMap(e, m.to))
  }

  lemma FateStays(d: Object, m0: Moving, e1: Object, m: Moving)
    requires Untouched(m0.from, m) && Untouched(m0.to, m) && Fate(MoveValue(d, m0.from, m0.to), e1, m)
    ensures Fate(d, MoveValue(e1, m0.to, m0.from), m)
  {
    MoveElsewhere(d, m0.from, m0.to, m.from);
    MoveElsewhere(d, m0.from, m0.to, m.to);
    MoveBlockedElsewhere(d, m0.from, m0.to, m.to);
    MoveElsewhere(e1, m0.to, m0.from, m.from);
    MoveElsewhere(e1, m0.to, m0.from, m.to);
  }

  lemma FateOfFirst(d: Object, m: Moving, e1: Object, rest: seq<Moving>)
    requires Apart(m.from, m.to) && AllUntouched(m.from, rest) && AllUntouched(m.to, rest)
    requires var d1 := MoveValue(d, m.from, m.to); e1 == BatchTo(BatchFrom(d1, rest), rest)
    ensures Fate(d, MoveValue(e1, m.to, m.from), m)
  {
    var d1 := MoveValue(d, m.from, m.to);
    BatchElsewhere(d1, rest, m.from);
    BatchElsewhere(d1, rest, m.to);
    RemovedIsAbsent(e1, m.to);
    var w := GetValue(e1, m.to);
    var e2 := RemoveValue(e1, m.to);
    if w.Some? { PutElsewhere(e2, w.value, m.to, m.from); }
    var v := GetValue(d, m.from);
    if v.Some? {
      var d0 := RemoveValue(d, m.from);
      BlockedElsewhere(d, Null, m.to, m.from);
      if Blocked(d, m.to) {
        BlockedIsAbsent(d0, v.value, m.to);
        RemovedIsAbsent(d, m.from);
        RemoveElsewhere(e1, m.from, m.to);
      } else {
        PutMakesParent(d0, v.value, m.to);
        RemoveKeepsParent(e1, m.to);
      }
    }
  }

  /** Each move can be undone on the data that reaches it. */
  ghost predicate BatchReversible(d: Object, moves: seq<Moving>)
    decreases |moves|
  {
    moves != [] ==>
      var m := moves[0];
      && m.from != [] && m.to != [] && Reversible(d, m.from, m.to)
      && BatchReversible(MoveValue(d, m.from, m.to), moves[1..])
  }

  lemma {:induction false} BatchBack(d: Object, moves: seq<Moving>)
    requires BatchReversible(d, moves)
    ensures BatchTo(BatchFrom(d, moves), moves) == d
    decreases |moves|
  {
    if moves != [] {
      var m := moves[0];
      BatchBack(MoveValue(d, m.from, m.to), moves[1..]);
      MoveRoundTrip(d, m.from, m.to);
    }
  }

  /** With paths apart, a batch there and back gives the data again exactly when each of its moves would. */
  lemma BatchRoundTrip(d: Object, moves: seq<Moving>)
    requires AllApart(moves)
    ensures BatchTo(BatchFrom(d, moves), moves) == d
       <==> forall i :: 0 <= i < |moves| ==> Reversible(d, moves[i].from, moves[i].to)
  {
    if forall i :: 0 <= i < |moves| ==> Reversible(d, moves[i].from, moves[i].to) {
      ApartIsReversible(d, moves);
      BatchBack(d, moves);
    }
    if BatchTo(BatchFrom(d, moves), moves) == d {
      forall i | 0 <= i < |moves|
        ensures Reversible(d, moves[i].from, moves[i].to)
      {
        FateOfMove(d, moves, i);
        ApartAt(moves, i);
        KeptIsReversible(d, moves[i]);
      }
    }
  }

  lemma KeptIsReversible(d: Object, m: Moving)
    requires Apart(m.from, m.to) && Fate(d, d, m)
    ensures Reversible(d, m.from, m.to)
  {
  }

  lemma {:induction false} ApartAt(moves: seq<Moving>, i: nat)
    requires AllApart(moves) && i < |moves|
    ensures Apart(moves[i].from, moves[i].to)
    decreases |moves|
  {
    if i > 0 { ApartAt(moves[1..], i - 1); }
  }

  lemma {:induction false} ApartIsReversible(d: Object, moves: seq<Moving>)
    requires AllApart(moves) && forall i :: 0 <= i < |moves| ==> Reversible(d, moves[i].from, moves[i].to)
    ensures BatchReversible(d, moves)
    decreases |moves|
  {
    if moves != [] {
      var m, rest := moves[0], moves[1..];
      var d1 := MoveValue(d, m.from, m.to);
      forall i | 0 <= i < |rest|
        ensures Reversible(d1, rest[i].from, rest[i].to)
      {
        var n := moves[i + 1];
        ApartAt(moves, i + 1);
        assert rest[i] == n;
        assert Reversible(d, n.from, n.to);
        assert Untouched(m.from, n) && Untouched(m.to, n);
        MoveElsewhere(d, m.from, m.to, n.from);
        MoveElsewhere(d, m.from, m.to, n.to);
      }
      ApartIsReversible(d1, rest);
    }
  }

  // the parents that are left behind

  /** The data with the maps on the way to a path made, where they are missing. */
  function MakeParents(m: Object, keys: seq<string>): Object
    decreases |keys|
  {
    if |keys| <= 1 || (keys[0] in m && !m[keys[0]].Map?) then m
    else m[keys[0] := Map(MakeParents(Sub(m, keys[0]), keys[1..]))]
  }

  lemma {:induction false} PutRemoveMakesParents(m: Object, v: Value, keys: seq<string>)
    requires keys != [] && GetValue(m, keys).None? && !Blocked(m, keys)
    ensures RemoveValue(PutValue(m, v, keys), keys) == MakeParents(m, keys)
    decreases |keys|
  {
    if |keys| > 1 { PutRemoveMakesParents(Sub(m, keys[0]), v, keys[1..]); }
  }

  /** Only missing maps are made, and they are empty but for each other. */
  lemma {:induction false} ParentsElsewhere(m: Object, p: seq<string>, keys: seq<string>)
    requires Apart(p, keys)
    ensures GetValue(MakeParents(m, keys), p) == GetValue(m, p)
    decreases |p|
  {
    if p[0] == keys[0] {
      ApartTail(p, keys);
      if keys[0] !in m || m[keys[0]].Map? { ParentsElsewhere(Sub(m, keys[0]), p[1..], keys[1..]); }
    }
  }

  lemma {:induction false} RemoveCommutes(m: Object, q: seq<string>, keys: seq<string>)
    requires Apart(q, keys)
    ensures RemoveValue(MakeParents(m, keys), q) == MakeParents(RemoveValue(m, q), keys)
    decreases |q|
  {
    if q[0] != keys[0] {
      RemoveBeside(m, q, keys);
    } else {
      ApartTail(q, keys);
      var k := q[0];
      if k in m && m[k].Map? {
        RemoveCommutes(m[k].fields, q[1..], keys[1..]);
        var sub := m[k].fields;
        assert RemoveValue(MakeParents(m, keys), q) == m[k := Map(RemoveValue(MakeParents(sub, keys[1..]), q[1..]))];
        assert MakeParents(RemoveValue(m, q), keys) == m[k := Map(MakeParents(RemoveValue(sub, q[1..]), keys[1..]))];
      } else if k !in m {
        RemoveCommutes(map[], q[1..], keys[1..]);
        EmptyHasNothing(q[1..]);
        RemoveAbsent(map[], q[1..]);
        assert RemoveValue(MakeParents(m, keys), q) == m[k := Map(RemoveValue(MakeParents(map[], keys[1..]), q[1..]))];
      }
    }
  }

  lemma RemoveBeside(m: Object, q: seq<string>, keys: seq<string>)
    requires q != [] && keys != [] && q[0] != keys[0]
    ensures RemoveValue(MakeParents(m, keys), q) == MakeParents(RemoveValue(m, q), keys)
  {
    var a, b := RemoveValue(MakeParents(m, keys), q), MakeParents(RemoveValue(m, q), keys);
    Elsewhere(m, Null, q, keys[0]);
    Local(MakeParents(m, keys), m, Null, q);
    forall k
      ensures SameSlot(a, b, k)
    {
      if k != q[0] {
        Elsewhere(m, Null, q, k);
        Elsewhere(MakeParents(m, keys), Null, q, k);
      }
    }
    SameObject(a, b);
  }

  lemma {:induction false} PutCommutes(m: Object, v: Value, q: seq<string>, keys: seq<string>)
    requires Apart(q, keys)
    ensures PutValue(MakeParents(m, keys), v, q) == MakeParents(PutValue(m, v, q), keys)
    decreases |q|
  {
    if q[0] != keys[0] {
      PutBeside(m, v, q, keys);
    } else {
      ApartTail(q, keys);
      var k := q[0];
      if k !in m || m[k].Map? {
        PutCommutes(Sub(m, k), v, q[1..], keys[1..]);
        PutInside(m, v, q, keys);
      }
    }
  }

  lemma PutInside(m: Object, v: Value, q: seq<string>, keys: seq<string>)
    requires |q| > 1 && |keys| > 1 && q[0] == keys[0] && (q[0] !in m || m[q[0]].Map?)
    ensures var k, sub := q[0], Sub(m, q[0]);
            && PutValue(MakeParents(m, keys), v, q) == m[k := Map(PutValue(MakeParents(sub, keys[1..]), v, q[1..]))]
            && MakeParents(PutValue(m, v, q), keys) == m[k := Map(MakeParents(PutValue(sub, v, q[1..]), keys[1..]))]
  {
    PutInto(m, MakeParents(Sub(m, q[0]), keys[1..]), v, q);
    ParentsInto(m, PutValue(Sub(m, q[0]), v, q[1..]), keys);
  }

  lemma PutInto(m: Object, x: Object, v: Value, q: seq<string>)
    requires |q| > 1
    ensures PutValue(m[q[0] := Map(x)], v, q) == m[q[0] := Map(PutValue(x, v, q[1..]))]
  {
    assert Sub(m[q[0] := Map(x)], q[0]) == x;
  }

  lemma ParentsInto(m: Object, x: Object, keys: seq<string>)
    requires |keys| > 1
    ensures MakeParents(m[keys[0] := Map(x)], keys) == m[keys[0] := Map(MakeParents(x, keys[1..]))]
  {
    assert Sub(m[keys[0] := Map(x)], keys[0]) == x;
  }

  lemma PutBeside(m: Object, v: Value, q: seq<string>, keys: seq<string>)
    requires q != [] && keys != [] && q[0] != keys[0]
    ensures PutValue(MakeParents(m, keys), v, q) == MakeParents(PutValue(m, v, q), keys)
  {
    var a, b := PutValue(MakeParents(m, keys), v, q), MakeParents(PutValue(m, v, q), keys);
    Elsewhere(m, v, q, keys[0]);
    Local(MakeParents(m, keys), m, v, q);
    forall k
      ensures SameSlot(a, b, k)
    {
      if k != q[0] {
        Elsewhere(m, v, q, k);
        Elsewhere(MakeParents(m, keys), v, q, k);
      }
    }
    SameObject(a, b);
  }

  lemma MoveCommutes(d: Object, from: seq<string>, to: seq<string>, keys: seq<string>)
    requires Apart(keys, from) && Apart(keys, to)
    ensures MoveValue(MakeParents(d, keys), from, to) == MakeParents(MoveValue(d, from, to), keys)
  {
    ParentsElsewhere(d, from, keys);
    RemoveCommutes(d, from, keys);
    var v := GetValue(d, from);
    if v.Some? { PutCommutes(RemoveValue(d, from), v.value, to, keys); }
  }

  /** The destinations of the fields that are there to be moved. */
  function Destinations(d: Object, moves: seq<Moving>): seq<seq<string>>
    decreases |moves|
  {
    if moves == [] then []
    else (if GetValue(d, moves[0].from).Some? then [moves[0].to] else []) + Destinations(d, moves[1..])
  }

  function Parents(d: Object, paths: seq<seq<string>>): Object
    decreases |paths|
  {
    if paths == [] then d else Parents(MakeParents(d, paths[0]), paths[1..])
  }

  lemma {:induction false} MoveCommutesAll(d: Object, m: Moving, paths: seq<seq<string>>)
    requires forall i :: 0 <= i < |paths| ==> Untouched(paths[i], m)
    ensures MoveValue(Parents(d, paths), m.to, m.from) == Parents(MoveValue(d, m.to, m.from), paths)
    decreases |paths|
  {
    if paths != [] {
      assert Untouched(paths[0], m);
      MoveCommutes(d, m.to, m.from, paths[0]);
      MoveCommutesAll(MakeParents(d, paths[0]), m, paths[1..]);
    }
  }

  lemma {:induction false} DestinationsStay(d: Object, moves: seq<Moving>, m: Moving)
    requires AllUntouched(m.from, moves) && AllUntouched(m.to, moves)
    ensures Destinations(MoveValue(d, m.from, m.to), moves) == Destinations(d, moves)
    ensures forall i :: 0 <= i < |Destinations(d, moves)| ==> Untouched(Destinations(d, moves)[i], m)
    decreases |moves|
  {
    if moves != [] {
      assert Untouched(m.from, moves[0]) && Untouched(m.to, moves[0]);
      MoveElsewhere(d, m.from, m.to, moves[0].from);
      DestinationsStay(d, moves[1..], m);
    }
  }

  ghost predicate Free(d: Object, m: Moving) { GetValue(d, m.to).None? && !Blocked(d, m.to) }

  /** With free destinations all that a batch there and back leaves behind is the empty parents that the
      moved fields needed. */
  lemma {:induction false} BatchLeavesOnlyParents(d: Object, moves: seq<Moving>)
    requires AllApart(moves) && forall i :: 0 <= i < |moves| ==> Free(d, moves[i])
    ensures BatchTo(BatchFrom(d, moves), moves) == Parents(d, Destinations(d, moves))
    decreases |moves|
  {
    if moves != [] {
      var m, rest := moves[0], moves[1..];
      var d1 := MoveValue(d, m.from, m.to);
      forall i | 0 <= i < |rest|
        ensures Free(d1, rest[i])
      {
        assert Free(d, moves[i + 1]) && Untouched(m.from, rest[i]) && Untouched(m.to, rest[i]);
        MoveElsewhere(d, m.from, m.to, rest[i].to);
        MoveBlockedElsewhere(d, m.from, m.to, rest[i].to);
      }
      BatchLeavesOnlyParents(d1, rest);
      DestinationsStay(d, rest, m);
      MoveCommutesAll(d1, m, Destinations(d, rest));
      assert Free(d, m);
      OneMoveLeaves(d, m);
      var ps := Destinations(d, rest);
      assert ([m.to] + ps)[1..] == ps && [] + ps == ps;
    }
  }

  lemma OneMoveLeaves(d: Object, m: Moving)
    requires Apart(m.from, m.to) && Free(d, m)
    ensures MoveValue(MoveValue(d, m.from, m.to), m.to, m.from)
         == if GetValue(d, m.from).Some? then MakeParents(d, m.to) else d
  {
    var v := GetValue(d, m.from);
    if v.Some? {
      MoveLeavesOnlyParents(d, m.from, m.to, v.value);
      PutRemoveMakesParents(d, v.value, m.to);
    } else {
      NothingToMove(d, m.from, m.to);
    }
  }

  // which batches are like that

  lemma {:induction false} WhereApart(p: seq<string>, q: seq<string>) returns (i: nat)
    requires Apart(p, q)
    ensures i < |p| && i < |q| && p[i] != q[i]
    decreases |p|
  {
    i := 0;
    if p[0] == q[0] {
      ApartTail(p, q);
      i := WhereApart(p[1..], q[1..]);
      i := i + 1;
    }
  }

  lemma ApartThere(p: seq<string>, q: seq<string>, i: nat)
    requires i < |p| && i < |q| && p[i] != q[i]
    ensures Apart(p, q)
  {
  }

  lemma ApartBelow(base: seq<string>, p: seq<string>, q: seq<string>)
    requires Apart(p, q)
    ensures Apart(base + p, base + q)
  {
    var i := WhereApart(p, q);
    ApartThere(base + p, base + q, |base| + i);
  }

  lemma ApartLonger(base: seq<string>, p: seq<string>, q: seq<string>)
    requires Apart(base, q)
    ensures Apart(base + p, q)
  {
    var i := WhereApart(base, q);
    ApartThere(base + p, q, i);
  }

  /** Fields that do not touch each other nor the base make moves that do not touch. */
  lemma {:induction false} BatchIsApart(fields: seq<seq<string>>, base: seq<string>)
    requires forall i :: 0 <= i < |fields| ==> Apart(base, fields[i])
    requires forall i, j :: 0 <= i < j < |fields| ==> Apart(fields[i], fields[j])
    ensures AllApart(BatchOf(fields, base))
    decreases |fields|
  {
    if fields != [] {
      var f, rest := fields[0], BatchOf(fields[1..], base);
      BatchIsApart(fields[1..], base);
      ApartLonger(base, f, f);
      forall i | 0 <= i < |rest|
        ensures Untouched(f, rest[i]) && Untouched(base + f, rest[i])
      {
        BatchAt(fields[1..], base, i);
        var g := fields[i + 1];
        ApartLonger(base, g, f);
        ApartLonger(base, f, g);
        ApartBelow(base, f, g);
      }
    }
  }

  lemma {:induction false} BatchAt(fields: seq<seq<string>>, base: seq<string>, i: nat)
    requires i < |BatchOf(fields, base)|
    ensures |BatchOf(fields, base)| == |fields| && BatchOf(fields, base)[i] == Moving(fields[i], base + fields[i])
    decreases |fields|
  {
    if i > 0 { BatchAt(fields[1..], base, i - 1); }
    else if |fields| > 1 { BatchAt(fields[1..], base, 0); }
  }
}
