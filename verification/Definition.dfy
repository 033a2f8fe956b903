/** Field type strings such as "array[map[pod]]" (types/definition/definition.go). */
module Definition {
  import opened Text

  predicate HasPrefix(s: string, p: string) { p <= s }

  predicate HasSuffix(s: string, p: string) { |p| <= |s| && s[|s| - |p|..] == p }

  predicate IsMapType(t: string) { HasPrefix(t, "map[") && HasSuffix(t, "]") }

  predicate IsArrayType(t: string) { HasPrefix(t, "array[") && HasSuffix(t, "]") }

  predicate IsReferenceType(t: string) { HasPrefix(t, "reference[") && HasSuffix(t, "]") }

  function SubType(t: string): (r: string)
    ensures r == t || |r| < |t|
  {
    match IndexFrom(t, "[", 0)
    case None => t
    case Some(i) => if i <= 0 || i >= |t| - 1 then t else t[i + 1..|t| - 1]
  }

  predicate NoBracket(t: string) { '[' !in t }

  /** What is in a list, a map or a reference. */
  lemma UnwrapOne(w: string, t: string)
    requires w != "" && NoBracket(w)
    ensures SubType(w + "[" + t + "]") == t
  {
    var s := w + "[" + t + "]";
    assert s[|w|..|w| + 1] == "[";
    assert At(s, "[", |w|);
    forall j: nat | j < |w|
      ensures !At(s, "[", j)
    {
      assert s[j..j + 1] == [w[j]];
    }
    assert IndexFrom(s, "[", 0) == Some(|w|);
    assert s[|w| + 1..|s| - 1] == t;
  }

  lemma NotWrapped(t: string)
    requires NoBracket(t)
    ensures SubType(t) == t
  {
    forall j: nat
      ensures !At(t, "[", j)
    {
      if j + 1 <= |t| { assert t[j..j + 1] == [t[j]]; }
    }
  }
}
