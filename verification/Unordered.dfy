/** Nested data up to the order of lists, at every depth: what a round trip through Go maps can promise. */
module Unordered {
  import opened Text
  import opened Values

  predicate IsPerm(p: seq<nat>, n: nat) { |p| == n && NoRepeats(p) && forall i :: 0 <= i < n ==> p[i] < n }

  ghost predicate Same(v: Value, w: Value)
    decreases v, 1
  {
    match v
    case Map(m) => w.Map? && m.Keys == w.fields.Keys && forall k :: k in m ==> Same(m[k], w.fields[k])
    case List(_) => w.List? && exists p :: Matched(v, w, p)
    case _ => v == w
  }

  /** The items of v are those of w in the order p. */
  ghost predicate Matched(v: Value, w: Value, p: seq<nat>)
    requires v.List? && w.List?
    decreases v, 0
  {
    && IsPerm(p, |v.items|) && |w.items| == |v.items|
    && forall i :: 0 <= i < |v.items| ==> Same(v.items[i], w.items[p[i]])
  }

  ghost predicate SameObj(m: Object, n: Object) { m.Keys == n.Keys && forall k :: k in m ==> Same(m[k], n[k]) }

  // ----------------------------------------------------------- an equivalence

  function Identity(n: nat): seq<nat> { seq(n, i => i) }

  lemma {:induction false} SameSelf(v: Value)
    ensures Same(v, v)
    decreases v
  {
    match v
    case Map(m) =>
      forall k | k in m
        ensures Same(m[k], m[k])
      {
        SameSelf(m[k]);
      }
    case List(items) =>
      forall i | 0 <= i < |items|
        ensures Same(items[i], items[i])
      {
        SameSelf(items[i]);
      }
      assert Matched(v, v, Identity(|items|));
    case _ =>
  }

  lemma SameObjSelf(m: Object)
    ensures SameObj(m, m)
  {
    forall k | k in m
      ensures Same(m[k], m[k])
    {
      SameSelf(m[k]);
    }
  }

  /** First p, then q. */
  function Then(p: seq<nat>, q: seq<nat>): seq<nat>
    requires |p| == |q| && IsPerm(p, |q|)
  {
    seq(|p|, i requires 0 <= i < |p| => q[p[i]])
  }

  lemma {:induction false} SameTrans(u: Value, v: Value, w: Value)
    requires Same(u, v) && Same(v, w)
    ensures Same(u, w)
    decreases u
  {
    match u
    case Map(m) =>
      forall k | k in m
        ensures Same(m[k], w.fields[k])
      {
        SameTrans(m[k], v.fields[k], w.fields[k]);
      }
    case List(items) =>
      var p :| Matched(u, v, p);
      var q :| Matched(v, w, q);
      var r := Then(p, q);
      forall i | 0 <= i < |items|
        ensures Same(items[i], w.items[r[i]])
      {
        SameTrans(items[i], v.items[p[i]], w.items[r[i]]);
      }
      assert Matched(u, w, r);
    case _ =>
  }

  lemma SameObjTrans(l: Object, m: Object, n: Object)
    requires SameObj(l, m) && SameObj(m, n)
    ensures SameObj(l, n)
  {
    forall k | k in l
      ensures Same(l[k], n[k])
    {
      SameTrans(l[k], m[k], n[k]);
    }
  }

  // ---------------------------------------------- from counting to a permutation

  function Shift(p: seq<nat>, j: nat): seq<nat> {
    seq(|p|, i requires 0 <= i < |p| => if p[i] < j then p[i] else p[i] + 1)
  }

  function Without<T>(b: seq<T>, j: nat): seq<T>
    requires j < |b|
  {
    b[..j] + b[j + 1..]
  }

  lemma Counted<T>(b: seq<T>, j: nat)
    requires j < |b|
    ensures multiset(Without(b, j)) == multiset(b) - multiset{b[j]}
  {
    assert b == b[..j] + [b[j]] + b[j + 1..];
    assert multiset(b) == multiset(b[..j]) + multiset{b[j]} + multiset(b[j + 1..]);
  }

  lemma Shifted(q: seq<nat>, j: nat)
    requires IsPerm(q, |q|) && j <= |q|
    ensures IsPerm([j] + Shift(q, j), |q| + 1)
  {
    var p := [j] + Shift(q, j);
    forall i, k | 0 <= i < k < |p|
      ensures p[i] != p[k]
    {
      if i > 0 { assert q[i - 1] != q[k - 1]; }
    }
  }

  lemma {:induction false} Rearranged<T>(a: seq<T>, b: seq<T>) returns (p: seq<nat>)
    requires multiset(a) == multiset(b)
    ensures |a| == |b| && IsPerm(p, |a|) && forall i :: 0 <= i < |a| ==> a[i] == b[p[i]]
    decreases |a|
  {
    SameLength(a, b);
    if a == [] {
      p := [];
    } else {
      var j := Somewhere(a[0], b, a);
      Counted(a, 0);
      Counted(b, j);
      assert Without(a, 0) == a[1..];
      var q := Rearranged(a[1..], Without(b, j));
      p := [j] + Shift(q, j);
      Placed(a, b, j, q);
    }
  }

  lemma SameLength<T>(a: seq<T>, b: seq<T>)
    requires multiset(a) == multiset(b)
    ensures |a| == |b|
  {
    assert |a| == |multiset(a)| == |multiset(b)| == |b|;
  }

  lemma Placed<T>(a: seq<T>, b: seq<T>, j: nat, q: seq<nat>)
    requires 0 < |a| == |b| && j < |b| && a[0] == b[j] && IsPerm(q, |a| - 1)
    requires forall i :: 0 <= i < |a| - 1 ==> a[1..][i] == Without(b, j)[q[i]]
    ensures var p := [j] + Shift(q, j);
            IsPerm(p, |a|) && forall i :: 0 <= i < |a| ==> a[i] == b[p[i]]
  {
    var p := [j] + Shift(q, j);
    Shifted(q, j);
    forall i | 0 <= i < |a|
      ensures a[i] == b[p[i]]
    {
      if i > 0 { assert a[i] == a[1..][i - 1] == Without(b, j)[q[i - 1]]; }
    }
  }

  lemma Somewhere<T>(x: T, b: seq<T>, a: seq<T>) returns (j: nat)
    requires x in a && multiset(a) == multiset(b)
    ensures j < |b| && b[j] == x
  {
    assert x in multiset(a);
    assert x in multiset(b);
    j :| 0 <= j < |b| && b[j] == x;
  }

  lemma SameItems(a: seq<Value>, b: seq<Value>)
    requires multiset(a) == multiset(b)
    ensures Same(List(a), List(b))
  {
    var p := Rearranged(a, b);
    forall i | 0 <= i < |a|
      ensures Same(a[i], b[p[i]])
    {
      SameSelf(a[i]);
    }
    assert Matched(List(a), List(b), p);
  }

  // ------------------------------------------------------- paths respect it

  /** Both nothing, or the same thing. */
  ghost predicate SameOption(v: Option<Value>, w: Option<Value>) {
    (v.None? && w.None?) || (v.Some? && w.Some? && Same(v.value, w.value))
  }

  lemma SameSub(m: Object, n: Object, k: string)
    requires SameObj(m, n)
    ensures SameObj(Sub(m, k), Sub(n, k))
  {
    if k in m { assert Same(m[k], n[k]); }
  }

  lemma {:induction false} SameGet(m: Object, n: Object, keys: seq<string>)
    requires SameObj(m, n)
    ensures SameOption(GetValue(m, keys), GetValue(n, keys))
    decreases |keys|
  {
    if |keys| > 1 {
      SameSub(m, n, keys[0]);
      SameGet(Sub(m, keys[0]), Sub(n, keys[0]), keys[1..]);
    }
  }

  lemma {:induction false} SamePut(m: Object, n: Object, v: Value, w: Value, keys: seq<string>)
    requires SameObj(m, n) && Same(v, w)
    ensures SameObj(PutValue(m, v, keys), PutValue(n, w, keys))
    decreases |keys|
  {
    if |keys| > 1 {
      var k := keys[0];
      if k in m { assert Same(m[k], n[k]); }
      SameSub(m, n, k);
      SamePut(Sub(m, k), Sub(n, k), v, w, keys[1..]);
    }
  }

  lemma {:induction false} SameRemove(m: Object, n: Object, keys: seq<string>)
    requires SameObj(m, n)
    ensures SameObj(RemoveValue(m, keys), RemoveValue(n, keys))
    decreases |keys|
  {
    if |keys| > 1 {
      var k := keys[0];
      if k in m { assert Same(m[k], n[k]); }
      if k in m && m[k].Map? { SameRemove(m[k].fields, n[k].fields, keys[1..]); }
    }
  }
}
