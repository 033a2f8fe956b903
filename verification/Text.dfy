/** Sequence search and splitting, shared by every component that parses keys, addresses or types. */
module Text {

  datatype Option<+T> = None | Some(value: T)

  newtype byte = b: int | 0 <= b < 256

  type Bytes = seq<byte>

  // '/' and ':' as bytes: Go strings are byte sequences
  const SLASH: byte := 47
  const COLON: byte := 58

  predicate NoRepeats<T(==)>(s: seq<T>) { forall i, j :: 0 <= i < j < |s| ==> s[i] != s[j] }

  function Elements<T(==)>(s: seq<T>): set<T> { set x | x in s }

  /** s holds each of these elements once: an order in which a Go map may be ranged over. */
  ghost predicate Enumerates<T(!new)>(s: seq<T>, keys: set<T>) { NoRepeats(s) && Elements(s) == keys }

  lemma Enumerated<T(!new)>(s: seq<T>, keys: set<T>)
    requires Enumerates(s, keys)
    ensures forall x :: x in s <==> x in keys
  {
    assert forall x :: x in Elements(s) <==> x in s;
  }

  lemma {:induction false} HowMany<T(!new)>(s: seq<T>, keys: set<T>)
    requires Enumerates(s, keys)
    ensures |s| == |keys|
  {
    if s != [] {
      var rest := s[1..];
      assert s == [s[0]] + rest;
      assert s[0] !in rest;
      HowMany(rest, keys - {s[0]});
    }
  }

  lemma Prepended<T>(x: T, s: seq<T>)
    requires NoRepeats(s) && x !in s
    ensures NoRepeats([x] + s)
  {
    forall i, j | 0 <= i < j < |[x] + s|
      ensures ([x] + s)[i] != ([x] + s)[j]
    {
      assert ([x] + s)[j] == s[j - 1] && s[j - 1] in s;
    }
  }

  lemma Appended<T(!new)>(s: seq<T>, keys: set<T>, x: T)
    requires Enumerates(s, keys) && x !in keys
    ensures Enumerates(s + [x], keys + {x})
  {
    assert x !in s;
    forall i, j | 0 <= i < j < |s + [x]|
      ensures (s + [x])[i] != (s + [x])[j]
    {
      if j == |s| { assert s[i] in s; }
    }
  }

  lemma {:induction false} AnOrder<T(!new)>(keys: set<T>) returns (s: seq<T>)
    ensures Enumerates(s, keys)
  {
    s := [];
    if keys != {} {
      var x :| x in keys;
      s := AnOrder(keys - {x});
      Appended(s, keys - {x}, x);
      s := s + [x];
    }
  }

  /** The elements that are not to be dropped, in their order. */
  function Except<T>(s: seq<T>, drop: T -> bool): seq<T> {
    if s == [] then []
    else if drop(s[0]) then Except(s[1..], drop)
    else [s[0]] + Except(s[1..], drop)
  }

  function Equal<T(==)>(x: T): T -> bool { y => y == x }

  lemma {:induction false} ExceptElements<T>(s: seq<T>, drop: T -> bool)
    ensures forall x :: x in Except(s, drop) <==> x in s && !drop(x)
    ensures NoRepeats(s) ==> NoRepeats(Except(s, drop))
  {
    if s != [] {
      assert s == [s[0]] + s[1..];
      ExceptElements(s[1..], drop);
      if NoRepeats(s) { assert s[0] !in s[1..]; }
    }
  }

  lemma {:induction false} ExceptAppend<T>(s: seq<T>, x: T, drop: T -> bool)
    ensures Except(s + [x], drop) == Except(s, drop) + if drop(x) then [] else [x]
  {
    if s == [] {
      assert (s + [x])[1..] == [];
    } else {
      assert (s + [x])[1..] == s[1..] + [x];
      ExceptAppend(s[1..], x, drop);
    }
  }

  /** One more round of a loop that filters. */
  lemma ExceptOneMore<T>(s: seq<T>, i: nat, drop: T -> bool)
    requires i < |s|
    ensures Except(s[..i + 1], drop) == Except(s[..i], drop) + if drop(s[i]) then [] else [s[i]]
  {
    assert s[..i + 1] == s[..i] + [s[i]];
    ExceptAppend(s[..i], s[i], drop);
  }

  predicate At<T(==)>(s: seq<T>, sep: seq<T>, i: nat) {
    i + |sep| <= |s| && s[i..i + |sep|] == sep
  }

  /** The first position at or after `from` where `sep` occurs (strings.Index). */
  function IndexFrom<T(==)>(s: seq<T>, sep: seq<T>, from: nat): (r: Option<nat>)
    requires from <= |s|
    ensures r.Some? ==> from <= r.value && At(s, sep, r.value)
    ensures r.Some? ==> forall j: nat :: from <= j < r.value ==> !At(s, sep, j)
    ensures r.None? ==> forall j: nat :: from <= j ==> !At(s, sep, j)
    decreases |s| - from
  {
    if At(s, sep, from) then Some(from)
    else if from == |s| then None
    else IndexFrom(s, sep, from + 1)
  }

  predicate Contains<T(==)>(s: seq<T>, sep: seq<T>) {
    IndexFrom(s, sep, 0).Some?
  }

  /** strings.SplitN(s, sep, 2) when it yields two parts; None when `sep` does not occur. */
  function Cut<T(==)>(s: seq<T>, sep: seq<T>): (r: Option<(seq<T>, seq<T>)>)
    ensures r.Some? ==> s == r.value.0 + sep + r.value.1
    ensures r.None? ==> forall j: nat :: !At(s, sep, j)
  {
    match IndexFrom(s, sep, 0)
    case None => None
    case Some(i) => Some((s[..i], s[i + |sep|..]))
  }

  /** Cutting undoes joining exactly when the separator does not already start inside the left part. */
  lemma CutJoin<T>(a: seq<T>, sep: seq<T>, b: seq<T>)
    requires sep != []
    ensures Cut(a + sep + b, sep) == Some((a, b)) <==> forall j: nat :: j < |a| ==> !At(a + sep, sep, j)
  {
    var s := a + sep + b;
    assert s[|a|..|a| + |sep|] == sep;
    assert At(s, sep, |a|);
    forall j: nat | j < |a|
      ensures At(s, sep, j) <==> At(a + sep, sep, j)
    {
      assert s[j..j + |sep|] == (a + sep)[j..j + |sep|];
    }
    var r := Cut(s, sep);
    var i := IndexFrom(s, sep, 0).value;
    assert i <= |a|;
    if i == |a| {
      assert s[..i] == a && s[i + |sep|..] == b;
    } else {
      assert |r.value.0| == i;
    }
  }

  /** For a one-element separator: exactly when the left part does not contain it. */
  lemma CutJoinOne<T>(a: seq<T>, c: T, b: seq<T>)
    ensures Cut(a + [c] + b, [c]) == Some((a, b)) <==> c !in a
  {
    CutJoin(a, [c], b);
    forall j: nat | j < |a|
      ensures At(a + [c], [c], j) <==> a[j] == c
    {
      assert (a + [c])[j..j + 1] == [a[j]];
    }
  }

  lemma AtTwice<T>(s: seq<T>, c: T, j: nat)
    ensures At(s, [c, c], j) <==> j + 1 < |s| && s[j] == c && s[j + 1] == c
  {
    if j + 1 < |s| {
      assert s[j..j + 2] == [s[j], s[j + 1]];
    }
  }

  /** For a doubled separator such as "::": no occurrence inside, and no half of one at the end. */
  lemma CutJoinTwice<T>(a: seq<T>, c: T, b: seq<T>)
    ensures Cut(a + [c, c] + b, [c, c]) == Some((a, b))
       <==> !Contains(a, [c, c]) && (a == [] || a[|a| - 1] != c)
  {
    var sep := [c, c];
    CutJoin(a, sep, b);
    if a != [] && a[|a| - 1] == c {
      AtTwice(a + sep, c, |a| - 1);
    } else if Contains(a, sep) {
      var i := IndexFrom(a, sep, 0).value;
      AtTwice(a, c, i);
      AtTwice(a + sep, c, i);
    } else {
      forall j: nat | j < |a|
        ensures !At(a + sep, sep, j)
      {
        AtTwice(a, c, j);
        AtTwice(a + sep, c, j);
      }
    }
  }
}
