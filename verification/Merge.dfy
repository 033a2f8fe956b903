/** The schema-directed merge of an update into a stored object (types/convert/merge/merge.go). */
module Merge {
  import opened Text
  import opened Values
  import opened Definition

  datatype Field = Field(kind: string, update: bool)

  datatype Schema = Schema(version: string, fields: map<string, Field>, internal: Option<Schema>)

  /** What Schemas.Schema resolves: a version path and a type name to a schema. */
  type Registry = map<(string, string), Schema>

  datatype Env = Env(registry: Registry, replace: bool)

  /** The schema arguments threaded through the recursion. */
  datatype Context = Context(fieldType: string, parent: Option<Schema>, schema: Option<Schema>)

  function FieldOf(s: Schema, k: string): Field { if k in s.fields then s.fields[k] else Field("", false) }

  function Lookup(r: Registry, version: string, name: string): Option<Schema> {
    if (version, name) in r then Some(r[(version, name)]) else None
  }

  function Internal(s: Option<Schema>): Option<Schema> {
    if s.Some? && s.value.internal.Some? then s.value.internal else s
  }

  /** isMap: a map field whose values have no schema is replaced as a whole. */
  predicate IsPlainMap(e: Env, c: Context, k: string) {
    && c.schema.Some?
    && IsMapType(FieldOf(c.schema.value, k).kind)
    && Lookup(e.registry, c.schema.value.version, SubType(FieldOf(c.schema.value, k).kind)).None?
  }

  /** getSchema, as the context of the nested merge. */
  function Child(e: Env, c: Context, k: string): Context {
    if c.schema.None? then
      if IsMapType(c.fieldType) && c.parent.Some? then
        var sub := SubType(c.fieldType);
        Context(sub, c.schema, Internal(Lookup(e.registry, c.parent.value.version, sub)))
      else Context("", c.schema, None)
    else
      var kind := FieldOf(c.schema.value, k).kind;
      Context(kind, c.schema, Internal(Lookup(e.registry, c.schema.value.version, kind)))
  }

  /** copyMapReplace drops the updatable fields when replacing. */
  predicate Dropped(e: Env, c: Context, k: string) {
    e.replace && c.schema.Some? && FieldOf(c.schema.value, k).update
  }

  function MergeMaps(e: Env, c: Context, dest: Object, src: Value): (r: Object)
    requires src.Map?
    decreases src, 0
  {
    map k | k in dest.Keys + src.fields.Keys && (k in src.fields || !Dropped(e, c, k)) ::
      if k in src.fields then MergeValue(e, c, k, Get(dest, k), src.fields[k]) else dest[k]
  }

  function MergeValue(e: Env, c: Context, k: string, dest: Value, src: Value): Value
    decreases src, 1
  {
    if IsPlainMap(e, c, k) || !src.Map? || !dest.Map? then src
    else Map(MergeMaps(e, Child(e, c, k), dest.fields, src))
  }

  function UpdateMerge(e: Env, schema: Option<Schema>, dest: Object, src: Object): Object {
    MergeMaps(e, Context("", None, schema), dest, Map(src))
  }

  // --------------------------------------------------------------- metadata

  predicate IsField(k: string) { HasPrefix(k, "field.cattle.io/") }

  predicate IsProtected(k: string) {
    Contains(k, "cattle.io/") && (!IsField(k) || k == "field.cattle.io/creatorId")
  }

  predicate Taken(src: Object, k: string) { k in src && !IsProtected(k) }

  predicate Retained(dest: Object, k: string) { k in dest && (IsProtected(k) || IsField(k)) }

  function MergeProtected(dest: Option<Object>, src: Option<Object>): Option<Object> {
    if src.None? then dest
    else
      var d, s := Entries(dest), src.value;
      Some(map k | k in d.Keys + s.Keys && (Taken(s, k) || Retained(d, k)) :: if Taken(s, k) then s[k] else d[k])
  }

  function MergeMetadata(dest: Object, src: Object): Object {
    dest["labels" := FromMap(MergeProtected(AsMap(Get(dest, "labels")), AsMap(Get(src, "labels"))))]
        ["annotations" := FromMap(MergeProtected(AsMap(Get(dest, "annotations")), AsMap(Get(src, "annotations"))))]
  }

  function APIUpdateMerge(e: Env, schema: Option<Schema>, dest: Object, src: Object): Object {
    var r := UpdateMerge(e, schema, dest, src);
    var r1 := if "status" in dest then r["status" := dest["status"]] else r;
    if "metadata" in dest then
      r1["metadata" := Map(MergeMetadata(Sub(dest, "metadata"), Sub(src, "metadata")))]
    else r1
  }

  // ------------------------------------------------ identity and idempotence

  /** Merging a map with itself is the identity, at every depth and with or without replace. */
  lemma {:induction false} MergeWithItself(e: Env, c: Context, v: Value)
    requires v.Map?
    ensures MergeMaps(e, c, v.fields, v) == v.fields
    decreases v
  {
    forall k | k in v.fields && v.fields[k].Map? && !IsPlainMap(e, c, k)
      ensures MergeMaps(e, Child(e, c, k), v.fields[k].fields, v.fields[k]) == v.fields[k].fields
    {
      MergeWithItself(e, Child(e, c, k), v.fields[k]);
    }
  }

  /** Applying the same update twice is applying it once. */
  lemma {:induction false} MergeTwice(e: Env, c: Context, dest: Object, src: Value)
    requires src.Map?
    ensures MergeMaps(e, c, MergeMaps(e, c, dest, src), src) == MergeMaps(e, c, dest, src)
    decreases src
  {
    var r := MergeMaps(e, c, dest, src);
    forall k | k in src.fields
      ensures MergeValue(e, c, k, r[k], src.fields[k]) == r[k]
    {
      var s, c' := src.fields[k], Child(e, c, k);
      assert r[k] == MergeValue(e, c, k, Get(dest, k), s);
      if !IsPlainMap(e, c, k) && s.Map? {
        if Get(dest, k).Map? {
          assert r[k] == Map(MergeMaps(e, c', Get(dest, k).fields, s));
          MergeTwice(e, c', Get(dest, k).fields, s);
        } else {
          MergeWithItself(e, Child(e, c, k), s);
        }
      }
    }
  }

  lemma MergeProtectedTwice(dest: Option<Object>, src: Option<Object>)
    ensures MergeProtected(MergeProtected(dest, src), src) == MergeProtected(dest, src)
  {
    if src.Some? {
      var m, m2 := MergeProtected(dest, src).value, MergeProtected(MergeProtected(dest, src), src).value;
      assert forall k :: k in m2 <==> k in m;
      assert m2 == m;
    }
  }

  lemma MergeProtectedWithItself(m: Option<Object>)
    ensures MergeProtected(m, m) == m
  {
    if m.Some? {
      assert MergeProtected(m, m).value == m.value;
    }
  }

  lemma MergeMetadataTwice(dest: Object, src: Object)
    ensures MergeMetadata(MergeMetadata(dest, src), src) == MergeMetadata(dest, src)
  {
    MergeProtectedTwice(AsMap(Get(dest, "labels")), AsMap(Get(src, "labels")));
    MergeProtectedTwice(AsMap(Get(dest, "annotations")), AsMap(Get(src, "annotations")));
  }

  /** Metadata that merging with itself leaves alone: a map that has labels and annotations, each a map or nil. */
  predicate FullMetadata(v: Value) {
    && v.Map?
    && "labels" in v.fields && (v.fields["labels"].Map? || v.fields["labels"].Null?)
    && "annotations" in v.fields && (v.fields["annotations"].Map? || v.fields["annotations"].Null?)
  }

  lemma MergeMetadataWithItself(v: Value)
    ensures Map(MergeMetadata(Entries(AsMap(v)), Entries(AsMap(v)))) == v <==> FullMetadata(v)
  {
    var m := Entries(AsMap(v));
    if FullMetadata(v) {
      MergeProtectedWithItself(AsMap(m["labels"]));
      MergeProtectedWithItself(AsMap(m["annotations"]));
      assert MergeMetadata(m, m) == m;
    }
  }

  lemma MergeIsLocal(e: Env, c: Context, dest: Object, dest': Object, src: Value, k: string)
    requires src.Map? && SameSlot(dest, dest', k)
    ensures SameSlot(MergeMaps(e, c, dest, src), MergeMaps(e, c, dest', src), k)
  {}

  /** Apart from metadata and status an API update is the recursive merge. */
  lemma UpdateIsMerge(e: Env, schema: Option<Schema>, dest: Object, src: Object, k: string)
    requires k != "metadata" && k != "status"
    ensures SameSlot(APIUpdateMerge(e, schema, dest, src), MergeMaps(e, Context("", None, schema), dest, Map(src)), k)
  {
  }

  lemma UpdateTwiceAt(e: Env, schema: Option<Schema>, dest: Object, src: Object, k: string)
    requires k != "metadata"
    ensures SameSlot(APIUpdateMerge(e, schema, APIUpdateMerge(e, schema, dest, src), src),
                   APIUpdateMerge(e, schema, dest, src), k)
  {
    var c := Context("", None, schema);
    var m, r := MergeMaps(e, c, dest, Map(src)), APIUpdateMerge(e, schema, dest, src);
    if k != "status" {
      UpdateIsMerge(e, schema, dest, src, k);
      UpdateIsMerge(e, schema, r, src, k);
      MergeIsLocal(e, c, r, m, Map(src), k);
      MergeTwice(e, c, dest, Map(src));
    }
  }

  lemma UpdateTwiceMetadata(e: Env, schema: Option<Schema>, dest: Object, src: Object)
    ensures SameSlot(APIUpdateMerge(e, schema, APIUpdateMerge(e, schema, dest, src), src),
                   APIUpdateMerge(e, schema, dest, src), "metadata")
       <==> "metadata" in dest || "metadata" !in src || FullMetadata(src["metadata"])
  {
    var r := APIUpdateMerge(e, schema, dest, src);
    if "metadata" in dest {
      MergeMetadataTwice(Sub(dest, "metadata"), Sub(src, "metadata"));
    } else if "metadata" in src {
      var m := MergeMaps(e, Context("", None, schema), dest, Map(src));
      assert m["metadata"] == MergeValue(e, Context("", None, schema), "metadata", Null, Map(src).fields["metadata"]);
      assert r["metadata"] == src["metadata"];
      MergeMetadataWithItself(src["metadata"]);
    }
  }

  /**
   An API update applied twice is the update applied once, exactly when the stored object has
   metadata, the update brings none, or brings metadata that is already in full form.
   */
  lemma UpdateTwice(e: Env, schema: Option<Schema>, dest: Object, src: Object)
    ensures APIUpdateMerge(e, schema, APIUpdateMerge(e, schema, dest, src), src) == APIUpdateMerge(e, schema, dest, src)
       <==> "metadata" in dest || "metadata" !in src || FullMetadata(src["metadata"])
  {
    var r := APIUpdateMerge(e, schema, dest, src);
    var r2 := APIUpdateMerge(e, schema, r, src);
    forall k | k != "metadata"
      ensures SameSlot(r2, r, k)
    {
      UpdateTwiceAt(e, schema, dest, src, k);
    }
    UpdateTwiceMetadata(e, schema, dest, src);
    SameEverywhere(r2, r);
  }

  lemma SameEverywhere(m: Object, m': Object)
    requires forall k :: k != "metadata" ==> SameSlot(m, m', k)
    ensures m == m' <==> SameSlot(m, m', "metadata")
  {
    if SameSlot(m, m', "metadata") {
      forall k
        ensures k in m <==> k in m'
        ensures k in m ==> m[k] == m'[k]
      {
        assert SameSlot(m, m', k);
      }
      assert m.Keys == m'.Keys;
    }
  }

  // ------------------------------------------------------- what is retained

  predicate HasPath(v: Value, p: seq<string>) {
    p == [] || (v.Map? && p[0] in v.fields && HasPath(v.fields[p[0]], p[1..]))
  }

  /** The update replaces some part of the path as a whole, and the replacement does not have the rest. */
  predicate Overwritten(e: Env, c: Context, src: Value, p: seq<string>)
    decreases |p|
  {
    src.Map? && |p| > 1 && p[0] in src.fields &&
    (if IsPlainMap(e, c, p[0]) || !src.fields[p[0]].Map? then !HasPath(src.fields[p[0]], p[1..])
     else Overwritten(e, Child(e, c, p[0]), src.fields[p[0]], p[1..]))
  }

  /** Without replace, a stored path survives a merge exactly when the update does not overwrite it. */
  lemma {:induction false} PathSurvives(e: Env, c: Context, dest: Object, src: Value, p: seq<string>)
    requires !e.replace && src.Map? && HasPath(Map(dest), p)
    ensures HasPath(Map(MergeMaps(e, c, dest, src)), p) <==> !Overwritten(e, c, src, p)
    decreases |p|
  {
    if p != [] {
      var k, r := p[0], MergeMaps(e, c, dest, src);
      assert k in r;
      if |p| > 1 && k in src.fields && !IsPlainMap(e, c, k) && src.fields[k].Map? {
        assert HasPath(dest[k], p[1..]) && dest[k].Map?;
        assert r[k] == MergeValue(e, c, k, Get(dest, k), src.fields[k]);
        assert r[k] == Map(MergeMaps(e, Child(e, c, k), dest[k].fields, src.fields[k]));
        PathSurvives(e, Child(e, c, k), dest[k].fields, src.fields[k], p[1..]);
      }
    }
  }

  /** A stored label or annotation that is left out, or a value inside one that is replaced. */
  predicate LabelLost(src: Object, p: seq<string>)
    requires |p| >= 3
  {
    var s := AsMap(Get(Sub(src, "metadata"), p[1]));
    && (p[1] == "labels" || p[1] == "annotations") && s.Some?
    && if Taken(s.value, p[2]) then !HasPath(s.value[p[2]], p[3..]) else !IsProtected(p[2]) && !IsField(p[2])
  }

  /** What an API update without replace takes away: not the status, of the metadata only labels and
      annotations that may be dropped, and elsewhere what it overwrites. */
  predicate Lost(e: Env, schema: Option<Schema>, src: Object, p: seq<string>) {
    if p == [] || p[0] == "status" then false
    else if p[0] == "metadata" then |p| >= 3 && LabelLost(src, p)
    else Overwritten(e, Context("", None, schema), Map(src), p)
  }

  /** Without replace, a stored path survives an API update exactly when the update does not take it away. */
  lemma PathSurvivesUpdate(e: Env, schema: Option<Schema>, dest: Object, src: Object, p: seq<string>)
    requires !e.replace && HasPath(Map(dest), p)
    ensures HasPath(Map(APIUpdateMerge(e, schema, dest, src)), p) <==> !Lost(e, schema, src, p)
  {
    var r := APIUpdateMerge(e, schema, dest, src);
    if p != [] && p[0] == "metadata" {
      MetadataSurvives(e, schema, dest, src, p);
    } else if p != [] && p[0] != "status" {
      PathSurvives(e, Context("", None, schema), dest, Map(src), p);
      assert SameSlot(r, UpdateMerge(e, schema, dest, src), p[0]);
    }
  }

  lemma MetadataSurvives(e: Env, schema: Option<Schema>, dest: Object, src: Object, p: seq<string>)
    requires HasPath(Map(dest), p) && p != [] && p[0] == "metadata"
    ensures HasPath(Map(APIUpdateMerge(e, schema, dest, src)), p) <==> !(|p| >= 3 && LabelLost(src, p))
  {
    var d, s := Sub(dest, "metadata"), Sub(src, "metadata");
    var m := MergeMetadata(d, s);
    assert APIUpdateMerge(e, schema, dest, src)["metadata"] == Map(m);
    if |p| >= 2 {
      assert HasPath(dest["metadata"], p[1..]) && dest["metadata"] == Map(d);
      var q := p[1..];
      if q[0] != "labels" && q[0] != "annotations" {
        assert SameSlot(m, d, q[0]);
      } else if |q| >= 2 {
        assert HasPath(d[q[0]], q[1..]) && d[q[0]].Map?;
        GroupSurvives(AsMap(Get(d, q[0])), AsMap(Get(s, q[0])), q[1..]);
        assert q[1..][1..] == p[3..];
      } else {
        assert q[1..] == [] && HasPath(m[q[0]], []);
      }
    }
  }

  lemma GroupSurvives(dest: Option<Object>, src: Option<Object>, p: seq<string>)
    requires p != [] && dest.Some? && HasPath(Map(dest.value), p)
    ensures HasPath(FromMap(MergeProtected(dest, src)), p)
       <==> src.None? || if Taken(src.value, p[0]) then HasPath(src.value[p[0]], p[1..])
                         else IsProtected(p[0]) || IsField(p[0])
  {
  }

  /** Of the stored top-level keys exactly the updatable ones that the update leaves out are dropped, and
      only when replacing. */
  lemma StoredKeys(e: Env, schema: Option<Schema>, dest: Object, src: Object, k: string)
    requires k in dest && k != "status" && k != "metadata"
    ensures k in APIUpdateMerge(e, schema, dest, src)
       <==> k in src || !(e.replace && schema.Some? && FieldOf(schema.value, k).update)
  {}

  // ------------------------------------------------------ what the values are

  /** Whatever is stored and whatever the schemas say, a value of the update that is not a map arrives. */
  lemma {:induction false} ValueArrives(e: Env, c: Context, dest: Object, src: Value, p: seq<string>, v: Value)
    requires src.Map? && GetValue(src.fields, p) == Some(v) && !v.Map?
    ensures GetValue(MergeMaps(e, c, dest, src), p) == Some(v)
    decreases |p|
  {
    var k, r := p[0], MergeMaps(e, c, dest, src);
    if k in src.fields {
      assert r[k] == MergeValue(e, c, k, Get(dest, k), src.fields[k]);
      if |p| > 1 && src.fields[k].Map? && Get(dest, k).Map? && !IsPlainMap(e, c, k) {
        ValueArrives(e, Child(e, c, k), Get(dest, k).fields, src.fields[k], p[1..], v);
      }
    } else {
      EmptyHasNothing(p[1..]);
    }
  }

  /** A map of the update arrives as it is where nothing, or something else than a map, is stored. */
  lemma {:induction false} MapArrives(e: Env, c: Context, dest: Object, src: Value, p: seq<string>, v: Value)
    requires src.Map? && GetValue(src.fields, p) == Some(v)
    requires GetValue(dest, p).None? || !GetValue(dest, p).value.Map?
    ensures GetValue(MergeMaps(e, c, dest, src), p) == Some(v)
    decreases |p|
  {
    var k, r := p[0], MergeMaps(e, c, dest, src);
    if k in src.fields {
      assert r[k] == MergeValue(e, c, k, Get(dest, k), src.fields[k]);
      if |p| > 1 && src.fields[k].Map? && Get(dest, k).Map? && !IsPlainMap(e, c, k) {
        MapArrives(e, Child(e, c, k), Get(dest, k).fields, src.fields[k], p[1..], v);
      }
    } else {
      EmptyHasNothing(p[1..]);
    }
  }

  /** The update leaves the path alone: it has maps down to some key that it does not mention, none of which
      is replaced as a whole, and replacing does not drop that key. */
  predicate LeftAlone(e: Env, c: Context, src: Value, p: seq<string>)
    decreases |p|
  {
    && src.Map? && p != []
    && (if p[0] !in src.fields then !Dropped(e, c, p[0])
        else |p| > 1 && !IsPlainMap(e, c, p[0]) && LeftAlone(e, Child(e, c, p[0]), src.fields[p[0]], p[1..]))
  }

  /** What the update leaves alone keeps its stored value. */
  lemma {:induction false} ValueStays(e: Env, c: Context, dest: Object, src: Value, p: seq<string>, v: Value)
    requires GetValue(dest, p) == Some(v) && LeftAlone(e, c, src, p)
    ensures GetValue(MergeMaps(e, c, dest, src), p) == Some(v)
    decreases |p|
  {
    var k, r := p[0], MergeMaps(e, c, dest, src);
    if |p| > 1 {
      if k in dest && dest[k].Map? {
        if k in src.fields {
          assert r[k] == MergeValue(e, c, k, Get(dest, k), src.fields[k]);
          ValueStays(e, Child(e, c, k), dest[k].fields, src.fields[k], p[1..], v);
        }
      } else {
        EmptyHasNothing(p[1..]);
      }
    }
  }

  /** The three together for an API update, outside status and metadata. */
  lemma UpdateArrives(e: Env, schema: Option<Schema>, dest: Object, src: Object, p: seq<string>, v: Value)
    requires p != [] && p[0] != "status" && p[0] != "metadata"
    ensures GetValue(src, p) == Some(v) && !v.Map? ==> GetValue(APIUpdateMerge(e, schema, dest, src), p) == Some(v)
    ensures GetValue(src, p) == Some(v) && (GetValue(dest, p).None? || !GetValue(dest, p).value.Map?) ==>
              GetValue(APIUpdateMerge(e, schema, dest, src), p) == Some(v)
    ensures GetValue(dest, p) == Some(v) && LeftAlone(e, Context("", None, schema), Map(src), p) ==>
              GetValue(APIUpdateMerge(e, schema, dest, src), p) == Some(v)
  {
    var c := Context("", None, schema);
    UpdateIsMerge(e, schema, dest, src, p[0]);
    assert GetValue(APIUpdateMerge(e, schema, dest, src), p) == GetValue(MergeMaps(e, c, dest, Map(src)), p);
    if GetValue(src, p) == Some(v) {
      if !v.Map? { ValueArrives(e, c, dest, Map(src), p, v); }
      if GetValue(dest, p).None? || !GetValue(dest, p).value.Map? { MapArrives(e, c, dest, Map(src), p, v); }
    }
    if GetValue(dest, p) == Some(v) && LeftAlone(e, c, Map(src), p) { ValueStays(e, c, dest, Map(src), p, v); }
  }

  /** Of labels and annotations the update's unprotected ones arrive with their values; the others are as
      stored, if they are protected or field entries or the update has no such group, and gone otherwise. */
  lemma LabelsAfter(e: Env, schema: Option<Schema>, dest: Object, src: Object, g: string, k: string)
    requires "metadata" in dest && (g == "labels" || g == "annotations")
    ensures var stored, sent, r := Group(dest, g), Group(src, g), Group(APIUpdateMerge(e, schema, dest, src), g);
            && (k in sent && !IsProtected(k) ==> k in r && r[k] == sent[k])
            && (k !in sent || IsProtected(k) ==>
                  if IsProtected(k) || IsField(k) || !Get(Sub(src, "metadata"), g).Map? then SameSlot(r, stored, k)
                  else k !in r)
  {
    GroupAfter(e, schema, dest, src, g);
  }

  /** The rest of the metadata, and the status, are as stored. */
  lemma RestAsStored(e: Env, schema: Option<Schema>, dest: Object, src: Object, k: string)
    ensures var r := APIUpdateMerge(e, schema, dest, src);
            && ("status" in dest ==> SameSlot(r, dest, "status"))
            && ("metadata" in dest && k != "labels" && k != "annotations" ==>
                  SameSlot(Sub(r, "metadata"), Sub(dest, "metadata"), k))
  {
  }

  /** Which keys are protected: those with cattle.io/ anywhere, field entries excepted, the creator ID not. */
  lemma ProtectedKeys(a: string, b: string)
    ensures var k := a + "cattle.io/" + b;
            IsProtected(k) <==> !("field.cattle.io/" <= k) || k == "field.cattle.io/creatorId"
    ensures IsProtected(a) ==> exists i: nat :: At(a, "cattle.io/", i)
  {
    var k := a + "cattle.io/" + b;
    assert k[|a|..|a| + 10] == "cattle.io/";
    assert At(k, "cattle.io/", |a|);
    if IsProtected(a) {
      var i := IndexFrom(a, "cattle.io/", 0).value;
      assert At(a, "cattle.io/", i);
    }
  }

  function Typed(e: Env, version: string, kind: string): Option<Schema> {
    if (version, kind) !in e.registry then None
    else if e.registry[(version, kind)].internal.Some? then e.registry[(version, kind)].internal
    else Some(e.registry[(version, kind)])
  }

  predicate Updatable(s: Option<Schema>, f: string) { s.Some? && f in s.value.fields && s.value.fields[f].update }

  /** Replacing reaches below: inside a field of a registered type the stored entries that the update leaves
      out are dropped exactly when that type, taken from the version of the schema, says they are updatable. */
  lemma ReplacedInField(e: Env, s: Schema, dest: Object, src: Object, k: string, f: string)
    requires k != "status" && k != "metadata" && k in s.fields && k in dest && k in src
    requires dest[k].Map? && src[k].Map? && f in dest[k].fields && f !in src[k].fields
    requires !IsMapType(s.fields[k].kind)
    ensures var r := APIUpdateMerge(e, Some(s), dest, src);
            && k in r && r[k].Map?
            && (f in r[k].fields <==> !(e.replace && Updatable(Typed(e, s.version, s.fields[k].kind), f)))
            && (f in r[k].fields ==> r[k].fields[f] == dest[k].fields[f])
  {
    var c := Context("", None, Some(s));
    UpdateIsMerge(e, Some(s), dest, src, k);
    var m := MergeMaps(e, c, dest, Map(src));
    assert m[k] == MergeValue(e, c, k, dest[k], Map(src).fields[k]);
    assert m[k] == Map(MergeMaps(e, Child(e, c, k), dest[k].fields, src[k]));
  }

  /** The same inside an entry of a field that is a map of a registered type. */
  lemma ReplacedInEntry(e: Env, s: Schema, dest: Object, src: Object, k: string, n: string, f: string)
    requires k != "status" && k != "metadata" && k in s.fields && k in dest && k in src
    requires dest[k].Map? && src[k].Map? && n in dest[k].fields && n in src[k].fields
    requires dest[k].fields[n].Map? && src[k].fields[n].Map?
    requires f in dest[k].fields[n].fields && f !in src[k].fields[n].fields
    requires IsMapType(s.fields[k].kind) && (s.version, s.fields[k].kind) !in e.registry
    requires (s.version, SubType(s.fields[k].kind)) in e.registry
    ensures var r := APIUpdateMerge(e, Some(s), dest, src);
            && k in r && r[k].Map? && n in r[k].fields && r[k].fields[n].Map?
            && (f in r[k].fields[n].fields <==>
                !(e.replace && Updatable(Typed(e, s.version, SubType(s.fields[k].kind)), f)))
  {
    var c := Context("", None, Some(s));
    UpdateIsMerge(e, Some(s), dest, src, k);
    var m := MergeMaps(e, c, dest, Map(src));
    var c1 := Child(e, c, k);
    assert m[k] == MergeValue(e, c, k, dest[k], Map(src).fields[k]);
    var m1 := MergeMaps(e, c1, dest[k].fields, src[k]);
    assert m[k] == Map(m1);
    assert m1[n] == MergeValue(e, c1, n, dest[k].fields[n], src[k].fields[n]);
    assert m1[n] == Map(MergeMaps(e, Child(e, c1, n), dest[k].fields[n].fields, src[k].fields[n]));
  }

  // -------------------------------------------------------- many API updates

  datatype Request = Request(env: Env, schema: Option<Schema>, src: Object)

  function UpdateAll(d: Object, requests: seq<Request>): Object {
    if requests == [] then d
    else
      var q := requests[|requests| - 1];
      APIUpdateMerge(q.env, q.schema, UpdateAll(d, requests[..|requests| - 1]), q.src)
  }

  function Group(d: Object, name: string): Object { Sub(Sub(d, "metadata"), name) }

  /** d' has d's status and metadata, apart from unprotected labels and annotations. */
  ghost predicate Guarded(d: Object, d': Object) {
    && "status" in d' && d'["status"] == Get(d, "status")
    && "metadata" in d'
    && (forall k :: k != "labels" && k != "annotations" ==> SameSlot(Sub(d, "metadata"), Sub(d', "metadata"), k))
    && (forall g, k :: g in {"labels", "annotations"} && IsProtected(k) ==> SameSlot(Group(d, g), Group(d', g), k))
    && (forall g, k :: g in {"labels", "annotations"} && IsField(k) && k in Group(d, g) ==> k in Group(d', g))
  }

  lemma ProtectedStays(dest: Option<Object>, src: Option<Object>, k: string)
    ensures IsProtected(k) ==> SameSlot(Entries(dest), Entries(MergeProtected(dest, src)), k)
    ensures IsField(k) && k in Entries(dest) ==> k in Entries(MergeProtected(dest, src))
  {}

  lemma GroupAfter(e: Env, schema: Option<Schema>, d: Object, src: Object, g: string)
    requires "metadata" in d && (g == "labels" || g == "annotations")
    ensures Group(APIUpdateMerge(e, schema, d, src), g)
         == Entries(MergeProtected(AsMap(Get(Sub(d, "metadata"), g)), AsMap(Get(Sub(src, "metadata"), g))))
  {}

  lemma UpdateGuards(d0: Object, d: Object, q: Request)
    requires Guarded(d0, d)
    ensures Guarded(d0, APIUpdateMerge(q.env, q.schema, d, q.src))
  {
    var d' := APIUpdateMerge(q.env, q.schema, d, q.src);
    forall k | k != "labels" && k != "annotations"
      ensures SameSlot(Sub(d0, "metadata"), Sub(d', "metadata"), k)
    {
      assert SameSlot(Sub(d0, "metadata"), Sub(d, "metadata"), k);
    }
    forall g, k | g in {"labels", "annotations"}
      ensures IsProtected(k) ==> SameSlot(Group(d0, g), Group(d', g), k)
      ensures IsField(k) && k in Group(d0, g) ==> k in Group(d', g)
    {
      GroupAfter(q.env, q.schema, d, q.src, g);
      ProtectedStays(AsMap(Get(Sub(d, "metadata"), g)), AsMap(Get(Sub(q.src, "metadata"), g)), k);
      assert IsProtected(k) ==> SameSlot(Group(d0, g), Group(d, g), k);
    }
  }

  /**
   Over any sequence of API updates to an object that has status and metadata: status, metadata other
   than labels and annotations, and every protected label or annotation are never added, changed or
   removed, and field.cattle.io/ entries are never removed.
   */
  lemma {:induction false} UpdatesGuard(d: Object, requests: seq<Request>)
    requires "status" in d && "metadata" in d
    ensures Guarded(d, UpdateAll(d, requests))
  {
    if requests != [] {
      var init := requests[..|requests| - 1];
      UpdatesGuard(d, init);
      UpdateGuards(d, UpdateAll(d, init), requests[|requests| - 1]);
    }
  }

  /** A field declared as a plain map loses stored keys that the update leaves out, even without replace. */
  lemma PlainMapLosesKeys()
    ensures var schema := Schema("v1", map["data" := Field("map[string]", true)], None);
            var e := Env(map[], false);
            var dest := map["data" := Map(map["a" := Scalar("1")])];
            var src := map["data" := Map(map[])];
            && HasPath(Map(dest), ["data", "a"])
            && !HasPath(Map(APIUpdateMerge(e, Some(schema), dest, src)), ["data", "a"])
  {
    var schema := Schema("v1", map["data" := Field("map[string]", true)], None);
    var e, c := Env(map[], false), Context("", None, Some(schema));
    var dest: Object := map["data" := Map(map["a" := Scalar("1")])];
    var src: Object := map["data" := Map(map[])];
    assert HasPath(Scalar("1"), []);
    assert ["data", "a"][1..] == ["a"] && ["a"][1..] == [];
    assert HasPath(dest["data"], ["a"]);
    assert HasSuffix("map[string]", "]") by { assert "map[string]"[10..] == "]"; }
    assert IsPlainMap(e, c, "data");
    assert APIUpdateMerge(e, Some(schema), dest, src)["data"] == src["data"];
    assert !HasPath(src["data"], ["a"]);
  }

  // -------------------------------------------------------------- the loops

  /** copyMap */
  method CopyMap(src: Object) returns (result: Object)
    ensures result == src
  {
    result := map[];
    var todo := src.Keys;
    while todo != {}
      invariant todo <= src.Keys && result.Keys == src.Keys - todo
      invariant forall k :: k in result ==> result[k] == src[k]
      decreases |todo|
    {
      var k :| k in todo;
      result := result[k := src[k]];
      todo := todo - {k};
    }
  }

  /** copyMapReplace */
  method CopyMapReplace(e: Env, c: Context, src: Object) returns (result: Object)
    ensures result == map k | k in src && !Dropped(e, c, k) :: src[k]
  {
    result := map[];
    var todo := src.Keys;
    while todo != {}
      invariant todo <= src.Keys
      invariant forall k :: k in result <==> k in src && k !in todo && !Dropped(e, c, k)
      invariant forall k :: k in result ==> result[k] == src[k]
      decreases |todo|
    {
      var k :| k in todo;
      if !(e.replace && c.schema.Some? && FieldOf(c.schema.value, k).update) {
        result := result[k := src[k]];
      }
      todo := todo - {k};
    }
  }

  lemma CopyMatches(e: Env, c: Context, dest: Object, src: Value, k: string)
    requires src.Map? && k !in src.fields
    ensures SameSlot(map j | j in dest && !Dropped(e, c, j) :: dest[j], MergeMaps(e, c, dest, src), k)
  {}

  /** mergeMaps: the copied destination, then every entry of the update merged in. */
  method MergeMapsInto(e: Env, c: Context, dest: Object, src: Value) returns (result: Object)
    requires src.Map?
    ensures result == MergeMaps(e, c, dest, src)
    decreases src, 1
  {
    var copy := CopyMapReplace(e, c, dest);
    forall k | k !in src.fields
      ensures SameSlot(copy, MergeMaps(e, c, dest, src), k)
    {
      CopyMatches(e, c, dest, src, k);
    }
    result := MergeEntries(e, c, dest, src, copy, MergeMaps(e, c, dest, src));
  }

  /** The loop over the update's entries, in any order. */
  method MergeEntries(e: Env, c: Context, dest: Object, src: Value, copy: Object, ghost goal: Object)
      returns (result: Object)
    requires src.Map? && forall k :: k !in src.fields ==> SameSlot(copy, goal, k)
    requires forall k :: k in src.fields ==> k in goal && goal[k] == MergeValue(e, c, k, Get(dest, k), src.fields[k])
    ensures result == goal
    decreases src, 0
  {
    result := copy;
    var todo := src.fields.Keys;
    while todo != {}
      invariant todo <= src.fields.Keys
      invariant forall k :: k !in todo ==> SameSlot(result, goal, k)
      decreases |todo|
    {
      var k :| k in todo;
      var v := MergeValueInto(e, c, k, if k in dest then dest[k] else Null, src.fields[k]);
      result := result[k := v];
      todo := todo - {k};
    }
    SameObject(result, goal);
  }

  /** merge */
  method MergeValueInto(e: Env, c: Context, k: string, dest: Value, src: Value) returns (v: Value)
    ensures v == MergeValue(e, c, k, dest, src)
    decreases src, 2
  {
    v := src;
    if !IsPlainMap(e, c, k) && src.Map? && dest.Map? {
      var sub := MergeMapsInto(e, Child(e, c, k), dest.fields, src);
      v := Map(sub);
    }
  }

  ghost function Overlay(d: Object, s: Object): Object {
    map k | k in d.Keys + s.Keys && (k in d || Taken(s, k)) :: if Taken(s, k) then s[k] else d[k]
  }

  method OverlayInto(d: Object, s: Object) returns (r: Object)
    ensures r == Overlay(d, s)
  {
    r := CopyMap(d);
    var todo := s.Keys;
    while todo != {}
      invariant todo <= s.Keys
      invariant forall k :: k !in todo ==> SameSlot(r, Overlay(d, s), k)
      invariant forall k :: k in todo ==> SameSlot(r, d, k)
      decreases |todo|
    {
      var k :| k in todo;
      if !IsProtected(k) { r := r[k := s[k]]; }
      todo := todo - {k};
    }
    SameObject(r, Overlay(d, s));
  }

  predicate Stale(s: Object, k: string) { !IsProtected(k) && !IsField(k) && k !in s }

  /** The second loop of mergeProtected: stored entries that the update leaves out are removed. */
  method Prune(d: Object, s: Object, overlay: Object) returns (r: Object)
    ensures r == map k | k in overlay && !(k in d && Stale(s, k)) :: overlay[k]
  {
    r := overlay;
    var todo := d.Keys;
    while todo != {}
      invariant todo <= d.Keys
      invariant forall k :: k in r <==> k in overlay && !(k in d && k !in todo && Stale(s, k))
      invariant forall k :: k in r ==> r[k] == overlay[k]
      decreases |todo|
    {
      var k :| k in todo;
      if !IsProtected(k) && !IsField(k) && k !in s { r := r - {k}; }
      todo := todo - {k};
    }
  }

  /** mergeProtected: the update's unprotected entries over the stored ones, then stale stored entries removed. */
  method MergeProtectedInto(dest: Option<Object>, src: Option<Object>) returns (result: Option<Object>)
    ensures result == MergeProtected(dest, src)
  {
    if src.None? { return dest; }
    var d, s := Entries(dest), src.value;
    var overlay := OverlayInto(d, s);
    var r := Prune(d, s, overlay);
    assert r == MergeProtected(dest, src).value;
    result := Some(r);
  }
}
