/** The schema registry (types/schemas.go): schemas by version path and ID, back references, embedding. */
module Registry {
  import opened Text
  import Definition

  datatype Field = Field(type_: string, dynamic: bool)

  /** A schema with its defaults filled in; an embed schema lends its fields to the schema it names. */
  datatype Schema = Schema(id: string, path: string, pluralName: string, fields: map<string, Field>,
                           embed: bool, embedType: string)

  datatype BackReference = BackReference(field: string, schema: Schema)

  type Catalog = map<string, map<string, Schema>>

  type Index = map<string, seq<BackReference>>

  const SCHEMAS := "/schemas/"

  // ----------------------------------------------------------- back references

  /** convert.ToFullReference. */
  function FullReference(path: string, id: string): string { "reference[" + path + SCHEMAS + id + "]" }

  predicate IsReference(s: Schema, f: string) { f in s.fields && Definition.IsReferenceType(s.fields[f].type_) }

  function Referred(s: Schema, f: string): string
    requires f in s.fields
  {
    Definition.SubType(s.fields[f].type_)
  }

  /** The key under which a reference field is indexed: a full path stays as it is. */
  function KeyOf(s: Schema, f: string): string
    requires f in s.fields
  {
    var t := Referred(s, f);
    if Definition.HasPrefix(t, "/") then t else FullReference(s.path, t)
  }

  predicate Refers(b: BackReference, key: string) {
    !b.schema.embed && IsReference(b.schema, b.field) && KeyOf(b.schema, b.field) == key
  }

  predicate Registered(c: Catalog, s: Schema) { s.path in c && s.id in c[s.path] && c[s.path][s.id] == s }

  /** Every schema stands under its own path and ID. */
  ghost predicate Keyed(c: Catalog) {
    forall p, i :: p in c && i in c[p] ==> c[p][i].path == p && c[p][i].id == i
  }

  function Listed(refs: Index, key: string): seq<BackReference> { if key in refs then refs[key] else [] }

  /** The index lists each reference field of each registered schema that is not an embed schema, once. */
  ghost predicate IndexOk(c: Catalog, refs: Index) {
    forall key :: KeyOk(c, refs, key)
  }

  ghost predicate KeyOk(c: Catalog, refs: Index, key: string) {
    && NoRepeats(Listed(refs, key))
    && forall b :: b in Listed(refs, key) <==> Registered(c, b.schema) && Refers(b, key)
  }

  // ------------------------------------------------------------ adding, removing

  function Drop(c: Catalog, path: string, id: string): Catalog {
    if path in c then c[path := c[path] - {id}] else c
  }

  function Put(c: Catalog, s: Schema): Catalog {
    c[s.path := (if s.path in c then c[s.path] else map[])[s.id := s]]
  }

  predicate Is(b: BackReference, path: string, id: string) { b.schema.id == id && b.schema.path == path }

  function Of(path: string, id: string): BackReference -> bool { b => Is(b, path, id) }

  /** removeReferences: what it leaves. */
  ghost predicate Removed(refs: Index, refs': Index, path: string, id: string) {
    forall key :: Listed(refs', key) == Except(Listed(refs, key), Of(path, id))
  }

  /** addReferences: what it appends, in whatever order it meets the fields. */
  ghost predicate Added(refs: Index, refs': Index, s: Schema) {
    forall key :: AddedAt(refs, refs', s, s.fields.Keys, key)
  }

  ghost predicate AddedAt(refs: Index, refs': Index, s: Schema, fields: set<string>, key: string) {
    var before, after := Listed(refs, key), Listed(refs', key);
    && before <= after
    && NoRepeats(after[|before|..])
    && forall b :: b in after[|before|..] <==>
                   b.schema == s && b.field in fields && IsReference(s, b.field) && KeyOf(s, b.field) == key
  }

  lemma DropKeeps(c: Catalog, refs: Index, refs': Index, path: string, id: string)
    requires Keyed(c) && IndexOk(c, refs) && Removed(refs, refs', path, id)
    ensures Keyed(Drop(c, path, id)) && IndexOk(Drop(c, path, id), refs')
  {
    forall key
      ensures KeyOk(Drop(c, path, id), refs', key)
    {
      assert KeyOk(c, refs, key);
      ExceptElements(Listed(refs, key), Of(path, id));
    }
  }

  /** A schema whose ID was free. */
  lemma PutKeeps(c: Catalog, refs: Index, refs': Index, s: Schema)
    requires Keyed(c) && IndexOk(c, refs) && !(s.path in c && s.id in c[s.path])
    requires if s.embed then refs' == refs else Added(refs, refs', s)
    ensures Keyed(Put(c, s)) && IndexOk(Put(c, s), refs')
  {
    forall key
      ensures KeyOk(Put(c, s), refs', key)
    {
      assert KeyOk(c, refs, key);
      PutKeepsKey(c, refs, refs', s, key);
    }
  }

  lemma PutKeepsKey(c: Catalog, refs: Index, refs': Index, s: Schema, key: string)
    requires Keyed(c) && KeyOk(c, refs, key) && !(s.path in c && s.id in c[s.path])
    requires if s.embed then refs' == refs else AddedAt(refs, refs', s, s.fields.Keys, key)
    ensures KeyOk(Put(c, s), refs', key)
  {
    var before, after := Listed(refs, key), Listed(refs', key);
    assert !Registered(c, s);
    assert forall t :: Registered(Put(c, s), t) <==> t == s || Registered(c, t);
    if !s.embed {
      assert after == before + after[|before|..];
    }
  }

  /** References: what a lookup by schema finds. */
  function Found(refs: Index, t: Schema): seq<BackReference> { Listed(refs, FullReference(t.path, t.id)) }

  lemma FullReferenceParts(p: string, i: string, q: string, j: string)
    ensures FullReference(p, i) == FullReference(q, j) <==> p + SCHEMAS + i == q + SCHEMAS + j
  {
    var a, b := FullReference(p, i), FullReference(q, j);
    assert a[10..|a| - 1] == p + SCHEMAS + i;
    assert b[10..|b| - 1] == q + SCHEMAS + j;
  }

  /** A path in which "/schemas/" does not already start. */
  ghost predicate Plain(path: string) { forall k: nat :: k < |path| ==> !At(path + SCHEMAS, SCHEMAS, k) }

  /**
   The back references found for a schema are the reference fields that name it by its bare ID from its
   own version. One that gives the full path is indexed under another key, and is never found.
   */
  lemma ReferencesFound(c: Catalog, refs: Index, t: Schema, b: BackReference)
    requires IndexOk(c, refs) && Plain(t.path) && Plain(b.schema.path)
    ensures b in Found(refs, t)
        <==> && Registered(c, b.schema) && !b.schema.embed && IsReference(b.schema, b.field)
             && b.schema.path == t.path && Referred(b.schema, b.field) == t.id
             && !Definition.HasPrefix(t.id, "/")
  {
    var key := FullReference(t.path, t.id);
    assert KeyOk(c, refs, key);
    if IsReference(b.schema, b.field) {
      var r := Referred(b.schema, b.field);
      FullReferenceParts(b.schema.path, r, t.path, t.id);
      CutJoin(b.schema.path, SCHEMAS, r);
      CutJoin(t.path, SCHEMAS, t.id);
      assert key[0] == 'r';
      if Definition.HasPrefix(r, "/") { assert r[0] == '/'; }
    }
  }

  // ------------------------------------------------------------------ embedding

  /** embed: the target without its dynamic fields, under the fields of the embed schema. */
  function Embedded(t: Schema, e: Schema): Schema {
    t.(fields := (map k | k in t.fields && !t.fields[k].dynamic :: t.fields[k]) + e.fields)
  }

  /** removeEmbed: the target without the names of the embed schema's fields. */
  function Unembedded(t: Schema, e: Schema): Schema { t.(fields := t.fields - e.fields.Keys) }

  lemma UnembedUndoes(t: Schema, e: Schema)
    ensures Unembedded(Embedded(t, e), e) == t
        <==> (forall k :: k in t.fields ==> !t.fields[k].dynamic && k !in e.fields)
  {
    var back := Unembedded(Embedded(t, e), e).fields;
    if forall k :: k in t.fields ==> !t.fields[k].dynamic && k !in e.fields {
      assert back == t.fields;
    } else {
      var k :| k in t.fields && (t.fields[k].dynamic || k in e.fields);
      assert k !in back;
    }
  }

  /** A later embed schema leaves nothing of an earlier one behind, exactly when what it does not
      overwrite was dynamic and hid nothing of the target, or was in the target anyway. */
  lemma EmbedReplaces(t: Schema, e1: Schema, e2: Schema)
    ensures Embedded(Embedded(t, e1), e2) == Embedded(t, e2)
        <==> (forall k :: k in e1.fields && k !in e2.fields ==>
                if e1.fields[k].dynamic then k in t.fields ==> t.fields[k].dynamic
                else k in t.fields && t.fields[k] == e1.fields[k])
  {
    var one, two := Embedded(Embedded(t, e1), e2).fields, Embedded(t, e2).fields;
    if forall k :: k in e1.fields && k !in e2.fields ==>
                     if e1.fields[k].dynamic then k in t.fields ==> t.fields[k].dynamic
                     else k in t.fields && t.fields[k] == e1.fields[k]
    {
      assert one.Keys == two.Keys;
      assert one == two;
    } else {
      var k :| k in e1.fields && k !in e2.fields &&
               !(if e1.fields[k].dynamic then k in t.fields ==> t.fields[k].dynamic
                 else k in t.fields && t.fields[k] == e1.fields[k]);
      assert !(k in one <==> k in two) || one[k] != two[k];
    }
  }

  // -------------------------------------------------------------------- lookup

  function Lower(c: char): char { if 'A' <= c <= 'Z' then (c as int + 32) as char else c }

  predicate EqualFold(s: string, t: string) { |s| == |t| && forall i :: 0 <= i < |s| ==> Lower(s[i]) == Lower(t[i]) }

  predicate Matches(s: Schema, name: string) { EqualFold(s.id, name) || EqualFold(s.pluralName, name) }

  /** doSchema: a name may carry its own path. */
  function Where(path: string, name: string): (string, string) {
    match Cut(name, SCHEMAS)
    case Some(parts) => parts
    case None => (path, name)
  }

  /** A name with a path of its own is looked up there, from whatever version; exactly if "/schemas/" does not
      start in that path already. */
  lemma WhereUndoes(q: string, path: string, id: string)
    ensures Where(q, path + "/schemas/" + id) == (path, id) <==> Plain(path)
  {
    assert SCHEMAS == "/schemas/";
    var name := path + SCHEMAS + id;
    assert name[|path|..|path| + |SCHEMAS|] == SCHEMAS;
    assert At(name, SCHEMAS, |path|);
    CutJoin(path, SCHEMAS, id);
  }

  /** Any other name is looked up in the version that asks. */
  lemma WhereBare(q: string, name: string)
    requires forall i: nat :: !At(name, "/schemas/", i)
    ensures Where(q, name) == (q, name)
  {
    assert SCHEMAS == "/schemas/";
    assert IndexFrom(name, SCHEMAS, 0).None?;
  }

  /** The exact ID wins; among schemas that only match loosely, any may be taken. */
  ghost predicate Finds(c: Catalog, path: string, name: string, r: Option<Schema>) {
    var (p, n) := Where(path, name);
    if p !in c then r == None
    else if n in c[p] then r == Some(c[p][n])
    else if r.None? then forall i :: i in c[p] ==> !Matches(c[p][i], n)
    else exists i :: i in c[p] && r.value == c[p][i] && Matches(c[p][i], n)
  }

  /** s and t differ in the case of letters at most. */
  ghost predicate SameLetters(s: string, t: string) {
    |s| == |t| && forall i :: 0 <= i < |s| ==>
      || s[i] == t[i]
      || ('a' <= s[i] <= 'z' && t[i] as int == s[i] as int - 32)
      || ('A' <= s[i] <= 'Z' && t[i] as int == s[i] as int + 32)
  }

  lemma FoldIsSameLetters(s: string, t: string)
    ensures EqualFold(s, t) <==> SameLetters(s, t)
  {
    if EqualFold(s, t) {
      forall i | 0 <= i < |s|
        ensures || s[i] == t[i]
                || ('a' <= s[i] <= 'z' && t[i] as int == s[i] as int - 32)
                || ('A' <= s[i] <= 'Z' && t[i] as int == s[i] as int + 32)
      {
        assert Lower(s[i]) == Lower(t[i]);
      }
    }
  }

  /** A lookup from a version that has this schema: it is found by its ID, and by its ID or its plural in any
      case unless another schema is; what is found has the name. */
  lemma LookupFinds(c: Catalog, s: Schema, name: string, r: Option<Schema>)
    requires Keyed(c) && Registered(c, s) && Finds(c, s.path, name, r) && forall i: nat :: !At(name, "/schemas/", i)
    ensures name == s.id ==> r == Some(s)
    ensures SameLetters(s.id, name) || SameLetters(s.pluralName, name) ==> r.Some?
    ensures r.Some? ==> Registered(c, r.value) && r.value.path == s.path
    ensures r.Some? ==> SameLetters(r.value.id, name) || SameLetters(r.value.pluralName, name)
  {
    WhereBare(s.path, name);
    FoldIsSameLetters(s.id, name);
    FoldIsSameLetters(s.pluralName, name);
    if r.Some? {
      FoldIsSameLetters(r.value.id, name);
      FoldIsSameLetters(r.value.pluralName, name);
    }
  }

  function PutIfFree(c: Catalog, s: Schema): Catalog {
    if s.path in c && s.id in c[s.path] then c else Put(c, s)
  }

  /** The catalog after what e was to change in its target. */
  ghost predicate Retargeted(c: Catalog, c': Catalog, e: Schema, adding: bool) {
    exists r :: Finds(c, e.path, e.embedType, r) &&
                c' == if r.None? then c
                      else if adding then Put(c, Embedded(r.value, e))
                      else Put(c, Unembedded(r.value, e))
  }

  /** What became of the schema that e names: adding, it has all fields of e and keeps its other fields that
      are not dynamic; removing, it has lost the names of e's fields. Nothing else changed. */
  lemma TargetAfter(c: Catalog, c': Catalog, e: Schema, adding: bool) returns (r: Option<Schema>)
    requires Keyed(c) && Retargeted(c, c', e, adding)
    ensures Finds(c, e.path, e.embedType, r)
    ensures r.None? ==> c' == c
    ensures r.Some? ==> Registered(c, r.value) && r.value.path in c' && r.value.id in c'[r.value.path]
    ensures r.Some? ==>
              var now := c'[r.value.path][r.value.id].fields;
              && c' == Put(c, r.value.(fields := now))
              && (forall f :: f in now <==> if f in e.fields then adding
                                            else f in r.value.fields && (adding ==> !r.value.fields[f].dynamic))
              && (forall f :: f in now ==> now[f] == if f in e.fields then e.fields[f] else r.value.fields[f])
  {
    r :| Finds(c, e.path, e.embedType, r) &&
         c' == if r.None? then c
               else if adding then Put(c, Embedded(r.value, e))
               else Put(c, Unembedded(r.value, e));
    if r.Some? { FoundIsRegistered(c, e.path, e.embedType, r.value); }
  }

  /** The schema to be changed is not an embed schema itself. */
  ghost predicate TargetsPlain(c: Catalog, e: Schema) {
    forall r :: Finds(c, e.path, e.embedType, Some(r)) ==> !r.embed
  }

  lemma FoundIsRegistered(c: Catalog, path: string, name: string, r: Schema)
    requires Keyed(c) && Finds(c, path, name, Some(r))
    ensures Registered(c, r)
  {
  }

  // ------------------------------------------------------------- the registry

  method WithoutLoop(list: seq<BackReference>, path: string, id: string) returns (modified: seq<BackReference>)
    ensures modified == Except(list, Of(path, id))
  {
    modified := [];
    for i := 0 to |list|
      invariant modified == Except(list[..i], Of(path, id))
    {
      ExceptOneMore(list, i, Of(path, id));
      if !Is(list[i], path, id) { modified := modified + [list[i]]; }
    }
    assert list[..|list|] == list;
  }

  class Schemas {
    var catalog: Catalog
    var references: Index
    var versions: seq<string>

    ghost predicate Valid()
      reads this
    {
      && Keyed(catalog) && IndexOk(catalog, references)
      && NoRepeats(versions) && forall p :: p in versions <==> p in catalog
    }

    constructor ()
      ensures Valid() && catalog == map[]
    {
      catalog, references, versions := map[], map[], [];
    }

    method RemoveReferences(path: string, id: string)
      modifies this`references
      ensures Removed(old(references), references, path, id)
    {
      var todo := references.Keys;
      while todo != {}
        invariant todo <= references.Keys == old(references).Keys
        invariant forall key :: Listed(references, key) ==
                    if key in todo then Listed(old(references), key)
                    else Except(Listed(old(references), key), Of(path, id))
        decreases todo
      {
        var key :| key in todo;
        var modified := WithoutLoop(references[key], path, id);
        references := references[key := modified];
        todo := todo - {key};
      }
    }

    method AddReferences(s: Schema)
      modifies this`references
      ensures Added(old(references), references, s)
    {
      var todo := s.fields.Keys;
      while todo != {}
        invariant todo <= s.fields.Keys
        invariant forall key :: AddedAt(old(references), references, s, s.fields.Keys - todo, key)
        decreases todo
      {
        var f :| f in todo;
        ghost var before := references;
        if Definition.IsReferenceType(s.fields[f].type_) {
          var key := KeyOf(s, f);
          references := references[key := Listed(references, key) + [BackReference(f, s)]];
        }
        forall key
          ensures AddedAt(old(references), references, s, s.fields.Keys - (todo - {f}), key)
        {
          assert AddedAt(old(references), before, s, s.fields.Keys - todo, key);
          OneMore(old(references), before, references, s, s.fields.Keys - todo, f, key);
        }
        todo := todo - {f};
      }
      assert s.fields.Keys - todo == s.fields.Keys;
    }

    /** doSchema. */
    method DoSchema(path: string, name: string) returns (r: Option<Schema>)
      ensures Finds(catalog, path, name, r)
    {
      var (p, n) := Where(path, name);
      if p !in catalog { return None; }
      if n in catalog[p] { return Some(catalog[p][n]); }
      var todo := catalog[p].Keys;
      while todo != {}
        invariant todo <= catalog[p].Keys
        invariant forall i :: i in catalog[p].Keys - todo ==> !Matches(catalog[p][i], n)
        decreases todo
      {
        var i :| i in todo;
        if Matches(catalog[p][i], n) { return Some(catalog[p][i]); }
        todo := todo - {i};
      }
      return None;
    }

    /** doRemoveSchema: the schema that has this path and ID goes, whatever else the argument says. */
    method DoRemoveSchema(s: Schema)
      requires Valid()
      requires s.embed ==> TargetsPlain(Drop(catalog, s.path, s.id), s)
      modifies this
      ensures Valid() && versions == old(versions)
      ensures !s.embed ==> catalog == Drop(old(catalog), s.path, s.id)
      ensures s.embed ==> Retargeted(Drop(old(catalog), s.path, s.id), catalog, s, false)
      decreases if s.embed then 1 else 0, 1
    {
      RemoveReferences(s.path, s.id);
      DropKeeps(catalog, old(references), references, s.path, s.id);
      catalog := Drop(catalog, s.path, s.id);
      if s.embed { Retarget(s, false); }
    }

    /** doAddSchema without replacing: a registered ID stays as it is. */
    method DoAddSchema(s: Schema)
      requires Valid()
      requires s.embed ==> TargetsPlain(PutIfFree(catalog, s), s)
      modifies this
      ensures Valid()
      ensures versions == old(versions) + if s.path in old(catalog) then [] else [s.path]
      ensures !s.embed ==> catalog == PutIfFree(old(catalog), s)
      ensures s.embed ==> Retargeted(PutIfFree(old(catalog), s), catalog, s, true)
      decreases if s.embed then 1 else 0, 1
    {
      if !(s.path in catalog && s.id in catalog[s.path]) {
        if s.path !in catalog { versions := versions + [s.path]; }
        if !s.embed { AddReferences(s); }
        PutKeeps(catalog, old(references), references, s);
        catalog := Put(catalog, s);
      }
      if s.embed { Retarget(s, true); }
    }

    /** embed and removeEmbed: the target goes and comes back with other fields. */
    method Retarget(e: Schema, adding: bool)
      requires Valid() && e.embed && TargetsPlain(catalog, e)
      modifies this
      ensures Valid() && versions == old(versions)
      ensures Retargeted(old(catalog), catalog, e, adding)
      decreases 1, 0
    {
      var r := DoSchema(e.path, e.embedType);
      if r.None? { return; }
      var target := r.value;
      FoundIsRegistered(catalog, e.path, e.embedType, target);
      var changed := if adding then Embedded(target, e) else Unembedded(target, e);
      DoRemoveSchema(target);
      DoAddSchema(changed);
      PutOverDrop(old(catalog), changed);
    }
  }

  lemma PutOverDrop(c: Catalog, s: Schema)
    requires s.path in c
    ensures PutIfFree(Drop(c, s.path, s.id), s) == Put(c, s)
  {
    assert (c[s.path] - {s.id})[s.id := s] == c[s.path][s.id := s];
  }

  lemma OneMore(was: Index, before: Index, after: Index, s: Schema, done: set<string>, f: string, key: string)
    requires f in s.fields && f !in done && AddedAt(was, before, s, done, key)
    requires after == if IsReference(s, f)
                      then before[KeyOf(s, f) := Listed(before, KeyOf(s, f)) + [BackReference(f, s)]]
                      else before
    ensures AddedAt(was, after, s, done + {f}, key)
  {
    var n := |Listed(was, key)|;
    var old_, new_ := Listed(before, key), Listed(after, key);
    if IsReference(s, f) && KeyOf(s, f) == key {
      assert new_ == old_ + [BackReference(f, s)];
      assert new_[n..] == old_[n..] + [BackReference(f, s)];
    }
  }
}
