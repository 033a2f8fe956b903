/** The SliceToMap mapper stage (types/mapper/slice_to_map.go): a list of named items and a map by name. */
module Slices {
  import opened Text
  import opened Values

  /** The type assertion to a string: anything else reads as the empty name. */
  function NameOf(item: Object, key: string): string {
    if key in item && item[key].Scalar? then item[key].text else ""
  }

  /** The map that FromInternal builds: items that are not maps are skipped, a later item replaces a namesake. */
  function Collect(items: seq<Value>, key: string): Object
    decreases |items|
  {
    if items == [] then map[]
    else
      var m := Collect(items[..|items| - 1], key);
      var x := items[|items| - 1];
      if x.Map? then m[NameOf(x.fields, key) := Map(x.fields - {key})] else m
  }

  function FromInternal(d: Object, field: string, key: string): Object {
    if field in d && d[field].List? && Collect(d[field].items, key) != map[]
    then d[field := Map(Collect(d[field].items, key))]
    else d
  }

  function Item(name: string, fields: Object, key: string): Value { Map(fields[key := Scalar(name)]) }

  /** The list that ToInternal builds when it meets the entries in this order. */
  function Restore(m: Object, order: seq<string>, key: string): seq<Value>
    decreases |order|
  {
    if order == [] then []
    else
      var rest := Restore(m, order[1..], key);
      if order[0] in m && m[order[0]].Map? then [Item(order[0], m[order[0]].fields, key)] + rest else rest
  }

  function ToInternal(d: Object, field: string, key: string, order: seq<string>): Object {
    if field in d && d[field].Map? then d[field := List(Restore(d[field].fields, order, key))] else d
  }

  /** ToInternal makes r of d when the order in which it ranges over the map is this one. */
  ghost predicate Ranged(d: Object, field: string, key: string, order: seq<string>, r: Object) {
    && (field in d && d[field].Map? ==> Enumerates(order, d[field].fields.Keys))
    && r == ToInternal(d, field, key, order)
  }

  // ------------------------------------------------------------ sequences

  lemma {:induction false} CountOnce<T>(s: seq<T>, x: T)
    requires NoRepeats(s)
    ensures multiset(s)[x] == if x in s then 1 else 0
  {
    if s != [] {
      var rest := s[1..];
      assert s == [s[0]] + rest;
      CountOnce(rest, x);
      assert multiset(s) == multiset{s[0]} + multiset(rest);
      if x == s[0] { assert x !in rest; }
    }
  }

  lemma SameElements<T>(s: seq<T>, t: seq<T>)
    requires NoRepeats(s) && NoRepeats(t)
    requires forall x :: x in s <==> x in t
    ensures multiset(s) == multiset(t)
  {
    forall x
      ensures multiset(s)[x] == multiset(t)[x]
    {
      CountOnce(s, x);
      CountOnce(t, x);
    }
  }

  // ------------------------------------------------------- the two loops' results

  lemma {:induction false} CollectEntries(items: seq<Value>, key: string)
    ensures forall n :: n in Collect(items, key) ==> Collect(items, key)[n].Map?
    ensures forall i :: 0 <= i < |items| && items[i].Map? ==> NameOf(items[i].fields, key) in Collect(items, key)
    ensures |Collect(items, key)| <= |items|
    ensures |Collect(items, key)| == |items| ==>
              (forall i :: 0 <= i < |items| ==> items[i].Map?)
    decreases |items|
  {
    if items != [] {
      var init := items[..|items| - 1];
      CollectEntries(init, key);
      assert forall i :: 0 <= i < |init| ==> init[i] == items[i];
      if items[|items| - 1].Map? { Grows(Collect(init, key), items[|items| - 1], key); }
    }
  }

  lemma Grows(m: Object, x: Value, key: string)
    requires x.Map?
    ensures var n := NameOf(x.fields, key);
            |m[n := Map(x.fields - {key})]| == if n in m then |m| else |m| + 1
  {
    var n := NameOf(x.fields, key);
    var m' := m[n := Map(x.fields - {key})];
    assert m'.Keys == m.Keys + {n};
  }

  predicate NamedItem(x: Value, key: string) { x.Map? && key in x.fields && x.fields[key].Scalar? }

  /** Every item is a map with a name of its own. */
  predicate AllNamed(items: seq<Value>, key: string) {
    && (forall i :: 0 <= i < |items| ==> NamedItem(items[i], key))
    && (forall i, j :: 0 <= i < j < |items| ==> NameOf(items[i].fields, key) != NameOf(items[j].fields, key))
  }

  /** No item was lost on the way, so no two of them had the same name. */
  lemma {:induction false} NoneLost(items: seq<Value>, key: string, i: nat, j: nat)
    requires |Collect(items, key)| == |items| && i < j < |items|
    ensures items[i].Map? && items[j].Map? && NameOf(items[i].fields, key) != NameOf(items[j].fields, key)
    decreases |items|
  {
    var init := items[..|items| - 1];
    CollectEntries(items, key);
    CollectEntries(init, key);
    Grows(Collect(init, key), items[|items| - 1], key);
    if j < |init| { NoneLost(init, key, i, j); }
    else { assert init[i] == items[i]; }
  }

  lemma {:induction false} CollectNamed(items: seq<Value>, key: string)
    requires AllNamed(items, key)
    ensures forall i :: 0 <= i < |items| ==>
              var n := NameOf(items[i].fields, key);
              n in Collect(items, key) && Collect(items, key)[n] == Map(items[i].fields - {key})
    decreases |items|
  {
    if items != [] {
      var init := items[..|items| - 1];
      assert forall i :: 0 <= i < |init| ==> init[i] == items[i];
      CollectNamed(init, key);
    }
  }

  lemma {:induction false} CollectOnly(items: seq<Value>, key: string, n: string) returns (i: nat)
    requires AllNamed(items, key) && n in Collect(items, key)
    ensures i < |items| && NameOf(items[i].fields, key) == n
    decreases |items|
  {
    var init := items[..|items| - 1];
    assert forall i :: 0 <= i < |init| ==> init[i] == items[i];
    if n in Collect(init, key) { i := CollectOnly(init, key, n); } else { i := |init|; }
  }

  ghost predicate IsEntry(m: Object, n: string, x: Value, key: string) {
    n in m && m[n].Map? && x == Item(n, m[n].fields, key)
  }

  lemma {:induction false} RestoreEntries(m: Object, order: seq<string>, key: string)
    requires NoRepeats(order)
    ensures forall x :: x in Restore(m, order, key) <==> exists n :: n in order && IsEntry(m, n, x, key)
    ensures NoRepeats(Restore(m, order, key))
    ensures (forall n :: n in order ==> n in m && m[n].Map?) ==> |Restore(m, order, key)| == |order|
    decreases |order|
  {
    if order != [] {
      var rest := order[1..];
      assert order == [order[0]] + rest;
      RestoreEntries(m, rest, key);
      forall x
        ensures x in Restore(m, order, key) <==> exists n :: n in order && IsEntry(m, n, x, key)
      {
        if x in Restore(m, rest, key) {
          var n :| n in rest && IsEntry(m, n, x, key);
          assert n in order;
        } else if x in Restore(m, order, key) {
          assert order[0] in order && IsEntry(m, order[0], x, key);
        }
        if n :| n in order && IsEntry(m, n, x, key) {
          assert n == order[0] || n in rest;
        }
      }
      if order[0] in m && m[order[0]].Map? {
        var first := Item(order[0], m[order[0]].fields, key);
        assert first.fields[key] == Scalar(order[0]);
        assert order[0] !in rest;
        forall n | n in rest
          ensures !IsEntry(m, n, first, key)
        {
          if n in m && m[n].Map? { assert Item(n, m[n].fields, key).fields[key] == Scalar(n); }
        }
        assert first !in Restore(m, rest, key);
        Prepended(first, Restore(m, rest, key));
      }
    }
  }

  lemma {:induction false} RestoreOne(m: Object, order: seq<string>, n: string, key: string)
    requires n in m
    ensures Restore(m, order + [n], key) ==
              Restore(m, order, key) + if m[n].Map? then [Item(n, m[n].fields, key)] else []
    decreases |order|
  {
    if order == [] {
      assert [n][1..] == [] && [] + [n] == [n];
    } else {
      assert (order + [n])[1..] == order[1..] + [n];
      RestoreOne(m, order[1..], n, key);
    }
  }

  /** The order in which the map is met decides the order of the list and nothing else. */
  lemma AnyOrder(m: Object, p: seq<string>, q: seq<string>, key: string)
    requires Enumerates(p, m.Keys) && Enumerates(q, m.Keys)
    ensures multiset(Restore(m, p, key)) == multiset(Restore(m, q, key))
  {
    RestoreEntries(m, p, key);
    RestoreEntries(m, q, key);
    Enumerated(p, m.Keys);
    Enumerated(q, m.Keys);
    SameElements(Restore(m, p, key), Restore(m, q, key));
  }

  // ------------------------------------------------------------- round trip

  /** The names and the rest of each item are all that is needed: the same items come back, in any order. */
  lemma ItemsComeBack(items: seq<Value>, key: string, order: seq<string>)
    requires AllNamed(items, key) && Enumerates(order, Collect(items, key).Keys)
    ensures multiset(Restore(Collect(items, key), order, key)) == multiset(items)
  {
    var m := Collect(items, key);
    CollectNamed(items, key);
    RestoreEntries(m, order, key);
    forall x
      ensures x in Restore(m, order, key) <==> x in items
    {
      if x in Restore(m, order, key) {
        var n :| n in order && IsEntry(m, n, x, key);
        var i := CollectOnly(items, key, n);
        WholeItem(items[i], key);
        assert x == items[i];
      }
      if x in items {
        var i :| 0 <= i < |items| && items[i] == x;
        WholeItem(x, key);
        assert IsEntry(m, NameOf(x.fields, key), x, key);
      }
    }
    SameElements(Restore(m, order, key), items);
  }

  lemma WholeItem(x: Value, key: string)
    requires NamedItem(x, key)
    ensures Item(NameOf(x.fields, key), x.fields - {key}, key) == x
  {
    assert (x.fields - {key})[key := x.fields[key]] == x.fields;
  }

  lemma OnlyNamedComeBack(items: seq<Value>, key: string, order: seq<string>)
    requires Enumerates(order, Collect(items, key).Keys)
    requires multiset(Restore(Collect(items, key), order, key)) == multiset(items)
    ensures AllNamed(items, key)
  {
    var m := Collect(items, key);
    var back := Restore(m, order, key);
    CollectEntries(items, key);
    RestoreEntries(m, order, key);
    HowMany(order, m.Keys);
    assert |back| == |multiset(back)| == |multiset(items)| == |items|;
    forall i | 0 <= i < |items|
      ensures NamedItem(items[i], key)
    {
      assert items[i] in multiset(items);
      assert items[i] in multiset(back);
      assert items[i] in back;
    }
    forall i, j | 0 <= i < j < |items|
      ensures NameOf(items[i].fields, key) != NameOf(items[j].fields, key)
    {
      NoneLost(items, key, i, j);
    }
  }

  /** Equal apart from the order of the list in one field. */
  ghost predicate SameUpToOrder(d: Object, e: Object, field: string) {
    && d.Keys == e.Keys
    && (forall k :: k in d && k != field ==> d[k] == e[k])
    && (field in d ==>
          || d[field] == e[field]
          || (d[field].List? && e[field].List? && multiset(d[field].items) == multiset(e[field].items)))
  }

  ghost predicate Nameable(d: Object, field: string, key: string) {
    field in d ==>
      && !d[field].Map?
      && (d[field].List? ==>
            (forall i :: 0 <= i < |d[field].items| ==> !d[field].items[i].Map?) || AllNamed(d[field].items, key))
  }

  lemma {:induction false} NothingCollected(items: seq<Value>, key: string)
    ensures Collect(items, key) == map[] <==> forall i :: 0 <= i < |items| ==> !items[i].Map?
    decreases |items|
  {
    if items != [] {
      var init := items[..|items| - 1];
      NothingCollected(init, key);
      var x := items[|items| - 1];
      assert items == init + [x];
      if x.Map? { assert NameOf(x.fields, key) in Collect(items, key); }
    }
  }

  /** A list goes to a map and comes back, whatever the iteration order, exactly when its items are named. */
  lemma SliceRoundTrip(d: Object, field: string, key: string, order: seq<string>)
    requires var e := FromInternal(d, field, key);
             field in e && e[field].Map? ==> Enumerates(order, e[field].fields.Keys)
    ensures SameUpToOrder(ToInternal(FromInternal(d, field, key), field, key, order), d, field)
        <==> Nameable(d, field, key)
  {
    if field in d && d[field].List? {
      var items := d[field].items;
      NothingCollected(items, key);
      if Collect(items, key) != map[] {
        var back := Restore(Collect(items, key), order, key);
        assert ToInternal(FromInternal(d, field, key), field, key, order)[field] == List(back);
        if multiset(back) == multiset(items) { OnlyNamedComeBack(items, key, order); }
        if AllNamed(items, key) { ItemsComeBack(items, key, order); }
      }
    }
  }
}
