/** The recursive type mapper (types/mapper.go, typeMapper) over a registry that Import built. */
module TypeMapper {
  import opened Text
  import opened Values
  import opened Import
  import opened Unordered
  import Pipeline
  import ProxyStore
  import Registry

  function StringOf(v: Option<Value>): string { if v.Some? && v.value.Scalar? then v.value.text else "" }

  // --------------------------------------------------------------- FromInternal

  /** What the type mapper does to one object; the recursion goes to schemas registered earlier. */
  ghost function FromObject(reg: seq<Entry>, i: nat, path: string, m: Object): Object
    requires Ordered(reg) && i < |reg|
    decreases i, 2
  {
    var d1 := FieldsFrom(reg, i, path, m);
    var d2 := WithType(d1, path, reg[i].id);
    var d3 := Pipeline.FromAll(reg[i].stages, d2);
    Finished(reg[i], path, d3, m)
  }

  /** What is done after the pipeline: the ID of a root object, and a type for whatever has an ID. */
  function Finished(e: Entry, path: string, d: Object, original: Object): Object {
    var d' := if e.root then WithId(d, original) else d;
    if "id" in d' then WithType(d', path, e.id) else d'
  }

  function WithType(d: Object, path: string, id: string): Object {
    if "type" in d then d else d["type" := Scalar(path + "/schemas/" + id)]
  }

  /** The ID that a root object is given: its namespace and its own ID, or else its name; None if it stays. */
  function NewId(d: Object, original: Object): Option<string> {
    var name := StringOf(GetValue(original, ["metadata", "name"]));
    var namespace := StringOf(GetValue(original, ["metadata", "namespace"]));
    if "id" in d then (if namespace != "" then Some(namespace + ":" + StringOf(Some(d["id"]))) else None)
    else if name != "" then Some(if namespace == "" then name else namespace + ":" + name)
    else None
  }

  function WithId(d: Object, original: Object): Object {
    var id := NewId(d, original);
    if id.Some? then d["id" := Scalar(id.value)] else d
  }

  /** The ID that a root object gets is split by the store into its namespace and name again, exactly when
      the part before the name has no colon. */
  lemma RootIdSplitsBack(e: Entry, path: string, d: Object, original: Object)
    requires e.root && "id" !in d && StringOf(GetValue(original, ["metadata", "name"])) != ""
    ensures var out := Finished(e, path, d, original);
            var name := StringOf(GetValue(original, ["metadata", "name"]));
            var namespace := StringOf(GetValue(original, ["metadata", "namespace"]));
            && "id" in out && out["id"].Scalar?
            && (ProxyStore.SplitID(out["id"].text) == (namespace, name) <==>
                ':' !in if namespace == "" then name else namespace)
  {
    var name := StringOf(GetValue(original, ["metadata", "name"]));
    var namespace := StringOf(GetValue(original, ["metadata", "namespace"]));
    if namespace == "" {
      NoColon(name);
    } else {
      ProxyStore.SplitIDUndoesJoin(namespace, name);
    }
  }

  /** An ID that the object has already gets the namespace in front, and is split so again. */
  lemma OwnIdSplitsBack(e: Entry, path: string, d: Object, original: Object)
    requires e.root && "id" in d && d["id"].Scalar?
    ensures var out := Finished(e, path, d, original);
            var namespace := StringOf(GetValue(original, ["metadata", "namespace"]));
            && "id" in out
            && (namespace == "" ==> out["id"] == d["id"])
            && (namespace != "" ==> out["id"].Scalar?)
            && (namespace != "" ==>
                  (ProxyStore.SplitID(out["id"].text) == (namespace, d["id"].text) <==> ':' !in namespace))
  {
    ProxyStore.SplitIDUndoesJoin(StringOf(GetValue(original, ["metadata", "namespace"])), d["id"].text);
  }

  lemma NoColon(s: string)
    ensures Cut(s, ":").None? <==> ':' !in s
  {
    if ':' in s {
      var i :| 0 <= i < |s| && s[i] == ':';
      assert s[i..i + 1] == ":";
      assert At(s, ":", i);
    }
    if Cut(s, ":").Some? {
      var parts := Cut(s, ":").value;
      assert s[|parts.0|] == ':';
    }
  }

  ghost function FieldsFrom(reg: seq<Entry>, i: nat, path: string, m: Object): Object
    requires Ordered(reg) && i < |reg|
    decreases i, 2, 0
  {
    map k | k in m :: FromField(reg, i, path, k, m[k])
  }

  ghost function FromField(reg: seq<Entry>, i: nat, path: string, k: string, v: Value): Value
    requires Ordered(reg) && i < |reg|
    decreases i, 1
  {
    var v1 := if k in reg[i].subs then FromValue(reg, reg[i].subs[k], path, v) else v;
    var v2 := if k in reg[i].maps && v1.Map? then Map(FromEach(reg, reg[i].maps[k], path, v1.fields)) else v1;
    if k in reg[i].arrays && v2.List? then List(FromItems(reg, reg[i].arrays[k], path, v2.items)) else v2
  }

  ghost function FromEach(reg: seq<Entry>, j: nat, path: string, m: Object): Object
    requires Ordered(reg) && j < |reg|
    decreases j, 4
  {
    map n | n in m :: FromValue(reg, j, path, m[n])
  }

  ghost function FromItems(reg: seq<Entry>, j: nat, path: string, items: seq<Value>): seq<Value>
    requires Ordered(reg) && j < |reg|
    decreases j, 4
  {
    seq(|items|, x requires 0 <= x < |items| => FromValue(reg, j, path, items[x]))
  }

  ghost function FromValue(reg: seq<Entry>, j: nat, path: string, v: Value): Value
    requires Ordered(reg) && j < |reg|
    decreases j, 3
  {
    if v.Map? then Map(FromObject(reg, j, path, v.fields)) else v
  }

  // ------------------------------------------------------- what FromInternal gives

  /** A text that names this schema, whichever version looks it up. */
  ghost predicate NamesSchema(v: Value, path: string, id: string) {
    v.Scalar? && forall q :: Registry.Where(q, v.text) == (path, id)
  }

  /** At every level that the mappers know, an object that came without a type has got one that names the
      schema it was mapped by, a field that no stage touches is where it was, and a field that no table
      knows is as it was. */
  ghost predicate TypesNamed(reg: seq<Entry>, i: nat, path: string, m: Object, out: Object)
    requires Ordered(reg) && i < |reg|
    decreases i, 2
  {
    && (Pipeline.AllIdle(reg[i].stages, "type") ==>
          "type" in out && if "type" in m then FieldNamed(reg, i, path, "type", m["type"], out["type"])
                           else NamesSchema(out["type"], path, reg[i].id))
    && (forall k :: k in m && k != "type" && k != "id" && Pipeline.AllIdle(reg[i].stages, k) ==>
                      k in out && FieldNamed(reg, i, path, k, m[k], out[k]))
  }

  ghost predicate FieldNamed(reg: seq<Entry>, i: nat, path: string, k: string, v: Value, w: Value)
    requires Ordered(reg) && i < |reg|
    decreases i, 1
  {
    if k in reg[i].subs then ValueNamed(reg, reg[i].subs[k], path, v, w)
    else if k in reg[i].maps && v.Map? then
      && w.Map? && w.fields.Keys == v.fields.Keys
      && forall n :: n in v.fields ==> ValueNamed(reg, reg[i].maps[k], path, v.fields[n], w.fields[n])
    else if k in reg[i].arrays && v.List? then
      && w.List? && |w.items| == |v.items|
      && forall x :: 0 <= x < |v.items| ==> ValueNamed(reg, reg[i].arrays[k], path, v.items[x], w.items[x])
    else w == v
  }

  ghost predicate ValueNamed(reg: seq<Entry>, j: nat, path: string, v: Value, w: Value)
    requires Ordered(reg) && j < |reg|
    decreases j, 3
  {
    if v.Map? then w.Map? && TypesNamed(reg, j, path, v.fields, w.fields) else w == v
  }

  lemma {:induction false} TypesAreNamed(reg: seq<Entry>, i: nat, path: string, m: Object)
    requires Ordered(reg) && i < |reg| && (forall e :: e in reg ==> Exclusive(e)) && Registry.Plain(path)
    ensures TypesNamed(reg, i, path, m, FromObject(reg, i, path, m))
    decreases i, 2
  {
    var e, out := reg[i], FromObject(reg, i, path, m);
    var d2 := WithType(FieldsFrom(reg, i, path, m), path, e.id);
    forall k | k in m
      ensures FieldNamed(reg, i, path, k, m[k], FromField(reg, i, path, k, m[k]))
    {
      FieldIsNamed(reg, i, path, k, m[k]);
    }
    if Pipeline.AllIdle(e.stages, "type") {
      Pipeline.IdleFromAll(e.stages, d2, "type");
      if "type" !in m { TypeNames(path, e.id); }
    }
    forall k | k in m && k != "type" && k != "id" && Pipeline.AllIdle(e.stages, k)
      ensures k in out && out[k] == FromField(reg, i, path, k, m[k])
    {
      Pipeline.IdleFromAll(e.stages, d2, k);
    }
  }

  lemma TypeNames(path: string, id: string)
    requires Registry.Plain(path)
    ensures "type" in WithType(map[], path, id) && NamesSchema(WithType(map[], path, id)["type"], path, id)
  {
    forall q
      ensures Registry.Where(q, WithType(map[], path, id)["type"].text) == (path, id)
    {
      Registry.WhereUndoes(q, path, id);
    }
  }

  lemma {:induction false} FieldIsNamed(reg: seq<Entry>, i: nat, path: string, k: string, v: Value)
    requires Ordered(reg) && i < |reg| && (forall e :: e in reg ==> Exclusive(e)) && Registry.Plain(path)
    ensures FieldNamed(reg, i, path, k, v, FromField(reg, i, path, k, v))
    decreases i, 1
  {
    var e := reg[i];
    assert Exclusive(e);
    if k in e.subs {
      ValueIsNamed(reg, e.subs[k], path, v);
    } else if k in e.maps && v.Map? {
      forall n | n in v.fields
        ensures ValueNamed(reg, e.maps[k], path, v.fields[n], FromValue(reg, e.maps[k], path, v.fields[n]))
      {
        ValueIsNamed(reg, e.maps[k], path, v.fields[n]);
      }
    } else if k in e.arrays && v.List? {
      forall x | 0 <= x < |v.items|
        ensures ValueNamed(reg, e.arrays[k], path, v.items[x], FromValue(reg, e.arrays[k], path, v.items[x]))
      {
        ValueIsNamed(reg, e.arrays[k], path, v.items[x]);
      }
    }
  }

  lemma {:induction false} ValueIsNamed(reg: seq<Entry>, j: nat, path: string, v: Value)
    requires Ordered(reg) && j < |reg| && (forall e :: e in reg ==> Exclusive(e)) && Registry.Plain(path)
    ensures ValueNamed(reg, j, path, v, FromValue(reg, j, path, v))
    decreases j, 3
  {
    if v.Map? { TypesAreNamed(reg, j, path, v.fields); }
  }

  /** Of a type without sub-objects, everything but ID and type is what its stages make of the object. */
  lemma StagesAreRun(reg: seq<Entry>, i: nat, path: string, m: Object, k: string)
    requires Ordered(reg) && i < |reg| && reg[i].subs == map[] && reg[i].maps == map[] && reg[i].arrays == map[]
    requires "type" in m && k != "id" && k != "type"
    ensures SameSlot(FromObject(reg, i, path, m), Pipeline.FromAll(reg[i].stages, m), k)
  {
    assert FieldsFrom(reg, i, path, m) == m;
  }

  // ----------------------------------------------------------------- ToInternal

  /** What ToInternal may make of one object, given that each range over a Go map has an order of its own. */
  ghost predicate ToObject(reg: seq<Entry>, i: nat, m: Object, r: Object)
    requires Ordered(reg) && i < |reg|
    decreases i, 2
  {
    exists d :: Pipeline.ToAll(reg[i].stages, m, d) && FieldsTo(reg, i, d, r)
  }

  ghost predicate FieldsTo(reg: seq<Entry>, i: nat, m: Object, r: Object)
    requires Ordered(reg) && i < |reg|
    decreases i, 2, 0
  {
    r.Keys == m.Keys && forall k :: k in m ==> ToField(reg, i, k, m[k], r[k])
  }

  /** First the lists of objects, then the maps of objects, then the sub-objects. */
  ghost predicate ToField(reg: seq<Entry>, i: nat, k: string, v: Value, w: Value)
    requires Ordered(reg) && i < |reg|
    decreases i, 1
  {
    exists v1, v2 :: ArrayTo(reg, i, k, v, v1) && MapTo(reg, i, k, v1, v2) && SubTo(reg, i, k, v2, w)
  }

  ghost predicate ArrayTo(reg: seq<Entry>, i: nat, k: string, v: Value, w: Value)
    requires Ordered(reg) && i < |reg|
    decreases i, 0
  {
    if k in reg[i].arrays && v.List? then w.List? && ItemsTo(reg, reg[i].arrays[k], v.items, w.items) else w == v
  }

  ghost predicate MapTo(reg: seq<Entry>, i: nat, k: string, v: Value, w: Value)
    requires Ordered(reg) && i < |reg|
    decreases i, 0
  {
    if k in reg[i].maps && v.Map? then w.Map? && EachTo(reg, reg[i].maps[k], v.fields, w.fields) else w == v
  }

  ghost predicate SubTo(reg: seq<Entry>, i: nat, k: string, v: Value, w: Value)
    requires Ordered(reg) && i < |reg|
    decreases i, 0
  {
    if k in reg[i].subs then ToValue(reg, reg[i].subs[k], v, w) else w == v
  }

  ghost predicate EachTo(reg: seq<Entry>, j: nat, m: Object, r: Object)
    requires Ordered(reg) && j < |reg|
    decreases j, 4
  {
    r.Keys == m.Keys && forall n :: n in m ==> ToValue(reg, j, m[n], r[n])
  }

  ghost predicate ItemsTo(reg: seq<Entry>, j: nat, items: seq<Value>, r: seq<Value>)
    requires Ordered(reg) && j < |reg|
    decreases j, 4
  {
    |r| == |items| && forall x :: 0 <= x < |items| ==> ToValue(reg, j, items[x], r[x])
  }

  ghost predicate ToValue(reg: seq<Entry>, j: nat, v: Value, w: Value)
    requires Ordered(reg) && j < |reg|
    decreases j, 3
  {
    if v.Map? then w.Map? && ToObject(reg, j, v.fields, w.fields) else w == v
  }

  /** Of a type without sub-objects, ToInternal is what its stages make of the object. */
  lemma StagesAreUndone(reg: seq<Entry>, i: nat, m: Object, r: Object)
    requires Ordered(reg) && i < |reg| && reg[i].subs == map[] && reg[i].maps == map[] && reg[i].arrays == map[]
    ensures ToObject(reg, i, m, r) <==> Pipeline.ToAll(reg[i].stages, m, r)
  {
    forall d
      ensures FieldsTo(reg, i, d, r) <==> d == r
    {
      if d == r {
        forall k | k in d
          ensures ToField(reg, i, k, d[k], r[k])
        {
          assert ArrayTo(reg, i, k, d[k], d[k]) && MapTo(reg, i, k, d[k], d[k]) && SubTo(reg, i, k, d[k], r[k]);
        }
      } else if FieldsTo(reg, i, d, r) {
        var k :| k in d && d[k] != r[k];
        assert ToField(reg, i, k, d[k], r[k]);
      }
    }
  }

  // --------------------------------------------------------- later registrations

  lemma {:induction false} FromObjectStable(reg: seq<Entry>, more: seq<Entry>, i: nat, path: string, m: Object)
    requires Ordered(reg) && Ordered(reg + more) && i < |reg|
    ensures FromObject(reg + more, i, path, m) == FromObject(reg, i, path, m)
    decreases i, 2
  {
    assert (reg + more)[i] == reg[i];
    forall k | k in m
      ensures FromField(reg + more, i, path, k, m[k]) == FromField(reg, i, path, k, m[k])
    {
      FromFieldStable(reg, more, i, path, k, m[k]);
    }
    assert FieldsFrom(reg + more, i, path, m) == FieldsFrom(reg, i, path, m);
  }

  lemma {:induction false} FromFieldStable(reg: seq<Entry>, more: seq<Entry>, i: nat, path: string, k: string, v: Value)
    requires Ordered(reg) && Ordered(reg + more) && i < |reg|
    ensures FromField(reg + more, i, path, k, v) == FromField(reg, i, path, k, v)
    decreases i, 1
  {
    assert (reg + more)[i] == reg[i];
    if k in reg[i].subs { FromValueStable(reg, more, reg[i].subs[k], path, v); }
    var v1 := if k in reg[i].subs then FromValue(reg, reg[i].subs[k], path, v) else v;
    if k in reg[i].maps && v1.Map? { FromEachStable(reg, more, reg[i].maps[k], path, v1.fields); }
    var v2 := if k in reg[i].maps && v1.Map? then Map(FromEach(reg, reg[i].maps[k], path, v1.fields)) else v1;
    if k in reg[i].arrays && v2.List? { FromItemsStable(reg, more, reg[i].arrays[k], path, v2.items); }
  }

  lemma {:induction false} FromEachStable(reg: seq<Entry>, more: seq<Entry>, j: nat, path: string, m: Object)
    requires Ordered(reg) && Ordered(reg + more) && j < |reg|
    ensures FromEach(reg + more, j, path, m) == FromEach(reg, j, path, m)
    decreases j, 4
  {
    forall n | n in m
      ensures FromValue(reg + more, j, path, m[n]) == FromValue(reg, j, path, m[n])
    {
      FromValueStable(reg, more, j, path, m[n]);
    }
  }

  lemma {:induction false} FromItemsStable(reg: seq<Entry>, more: seq<Entry>, j: nat, path: string, items: seq<Value>)
    requires Ordered(reg) && Ordered(reg + more) && j < |reg|
    ensures FromItems(reg + more, j, path, items) == FromItems(reg, j, path, items)
    decreases j, 4
  {
    forall x | 0 <= x < |items|
      ensures FromValue(reg + more, j, path, items[x]) == FromValue(reg, j, path, items[x])
    {
      FromValueStable(reg, more, j, path, items[x]);
    }
  }

  lemma {:induction false} FromValueStable(reg: seq<Entry>, more: seq<Entry>, j: nat, path: string, v: Value)
    requires Ordered(reg) && Ordered(reg + more) && j < |reg|
    ensures FromValue(reg + more, j, path, v) == FromValue(reg, j, path, v)
    decreases j, 3
  {
    if v.Map? { FromObjectStable(reg, more, j, path, v.fields); }
  }

  lemma {:induction false} ToObjectStable(reg: seq<Entry>, more: seq<Entry>, i: nat, m: Object, r: Object)
    requires Ordered(reg) && Ordered(reg + more) && i < |reg|
    ensures ToObject(reg + more, i, m, r) <==> ToObject(reg, i, m, r)
    decreases i, 2
  {
    assert (reg + more)[i] == reg[i];
    forall d
      ensures FieldsTo(reg + more, i, d, r) <==> FieldsTo(reg, i, d, r)
    {
      FieldsToStable(reg, more, i, d, r);
    }
  }

  lemma {:induction false} FieldsToStable(reg: seq<Entry>, more: seq<Entry>, i: nat, d: Object, r: Object)
    requires Ordered(reg) && Ordered(reg + more) && i < |reg|
    ensures FieldsTo(reg + more, i, d, r) <==> FieldsTo(reg, i, d, r)
    decreases i, 1, 1
  {
    if d.Keys == r.Keys {
      forall k | k in d
        ensures ToField(reg + more, i, k, d[k], r[k]) <==> ToField(reg, i, k, d[k], r[k])
      {
        ToFieldStable(reg, more, i, k, d[k], r[k]);
      }
    }
  }

  lemma {:induction false} ToFieldStable(reg: seq<Entry>, more: seq<Entry>, i: nat, k: string, v: Value, w: Value)
    requires Ordered(reg) && Ordered(reg + more) && i < |reg|
    ensures ToField(reg + more, i, k, v, w) <==> ToField(reg, i, k, v, w)
    decreases i, 1, 0
  {
    forall v1
      ensures ArrayTo(reg + more, i, k, v, v1) <==> ArrayTo(reg, i, k, v, v1)
    {
      TablesStable(reg, more, i, k, v, v1);
    }
    forall v1, v2
      ensures MapTo(reg + more, i, k, v1, v2) <==> MapTo(reg, i, k, v1, v2)
    {
      TablesStable(reg, more, i, k, v1, v2);
    }
    forall v2
      ensures SubTo(reg + more, i, k, v2, w) <==> SubTo(reg, i, k, v2, w)
    {
      TablesStable(reg, more, i, k, v2, w);
    }
  }

  lemma {:induction false} TablesStable(reg: seq<Entry>, more: seq<Entry>, i: nat, k: string, v: Value, w: Value)
    requires Ordered(reg) && Ordered(reg + more) && i < |reg|
    ensures ArrayTo(reg + more, i, k, v, w) <==> ArrayTo(reg, i, k, v, w)
    ensures MapTo(reg + more, i, k, v, w) <==> MapTo(reg, i, k, v, w)
    ensures SubTo(reg + more, i, k, v, w) <==> SubTo(reg, i, k, v, w)
    decreases i, 0
  {
    var e := reg[i];
    assert (reg + more)[i] == e;
    if k in e.subs { ToValueStable(reg, more, e.subs[k], v, w); }
    if k in e.maps && v.Map? && w.Map? { EachToStable(reg, more, e.maps[k], v.fields, w.fields); }
    if k in e.arrays && v.List? && w.List? { ItemsToStable(reg, more, e.arrays[k], v.items, w.items); }
  }

  lemma {:induction false} EachToStable(reg: seq<Entry>, more: seq<Entry>, j: nat, m: Object, r: Object)
    requires Ordered(reg) && Ordered(reg + more) && j < |reg|
    ensures EachTo(reg + more, j, m, r) <==> EachTo(reg, j, m, r)
    decreases j, 4
  {
    if m.Keys == r.Keys {
      forall n | n in m
        ensures ToValue(reg + more, j, m[n], r[n]) <==> ToValue(reg, j, m[n], r[n])
      {
        ToValueStable(reg, more, j, m[n], r[n]);
      }
    }
  }

  lemma {:induction false} ItemsToStable(reg: seq<Entry>, more: seq<Entry>, j: nat, items: seq<Value>, r: seq<Value>)
    requires Ordered(reg) && Ordered(reg + more) && j < |reg|
    ensures ItemsTo(reg + more, j, items, r) <==> ItemsTo(reg, j, items, r)
    decreases j, 4
  {
    if |items| == |r| {
      forall x | 0 <= x < |items|
        ensures ToValue(reg + more, j, items[x], r[x]) <==> ToValue(reg, j, items[x], r[x])
      {
        ToValueStable(reg, more, j, items[x], r[x]);
      }
    }
  }

  lemma {:induction false} ToValueStable(reg: seq<Entry>, more: seq<Entry>, j: nat, v: Value, w: Value)
    requires Ordered(reg) && Ordered(reg + more) && j < |reg|
    ensures ToValue(reg + more, j, v, w) <==> ToValue(reg, j, v, w)
    decreases j, 3
  {
    if v.Map? && w.Map? { ToObjectStable(reg, more, j, v.fields, w.fields); }
  }

  // ------------------------------------------- ToInternal and the order of lists

  /** Any two results of ToInternal, on data that agree up to the order of lists, agree up to it. */
  lemma {:induction false} SameToObject(reg: seq<Entry>, i: nat, d: Object, e: Object, r: Object, s: Object)
    requires Ordered(reg) && i < |reg| && SameObj(d, e)
    requires ToObject(reg, i, d, r) && ToObject(reg, i, e, s)
    ensures SameObj(r, s)
    decreases i, 2
  {
    var d1 :| Pipeline.ToAll(reg[i].stages, d, d1) && FieldsTo(reg, i, d1, r);
    var e1 :| Pipeline.ToAll(reg[i].stages, e, e1) && FieldsTo(reg, i, e1, s);
    Pipeline.SameToAll(reg[i].stages, d, e, d1, e1);
    forall k | k in r
      ensures Same(r[k], s[k])
    {
      SameToField(reg, i, k, d1[k], e1[k], r[k], s[k]);
    }
  }

  lemma {:induction false} SameToField(reg: seq<Entry>, i: nat, k: string, v: Value, w: Value, r: Value, s: Value)
    requires Ordered(reg) && i < |reg| && Same(v, w)
    requires ToField(reg, i, k, v, r) && ToField(reg, i, k, w, s)
    ensures Same(r, s)
    decreases i, 1
  {
    var v1, v2 :| ArrayTo(reg, i, k, v, v1) && MapTo(reg, i, k, v1, v2) && SubTo(reg, i, k, v2, r);
    var w1, w2 :| ArrayTo(reg, i, k, w, w1) && MapTo(reg, i, k, w1, w2) && SubTo(reg, i, k, w2, s);
    if k in reg[i].arrays && v.List? { SameToItems(reg, reg[i].arrays[k], v, w, v1, w1); }
    if k in reg[i].maps && v1.Map? { SameToEach(reg, reg[i].maps[k], v1, w1, v2, w2); }
    if k in reg[i].subs { SameToValue(reg, reg[i].subs[k], v2, w2, r, s); }
  }

  lemma {:induction false} SameToItems(reg: seq<Entry>, j: nat, v: Value, w: Value, r: Value, s: Value)
    requires Ordered(reg) && j < |reg| && v.List? && r.List? && s.List? && Same(v, w)
    requires ItemsTo(reg, j, v.items, r.items) && ItemsTo(reg, j, w.items, s.items)
    ensures Same(r, s)
    decreases j, 4
  {
    var p :| Matched(v, w, p);
    forall x | 0 <= x < |r.items|
      ensures Same(r.items[x], s.items[p[x]])
    {
      SameToValue(reg, j, v.items[x], w.items[p[x]], r.items[x], s.items[p[x]]);
    }
    assert Matched(r, s, p);
  }

  lemma {:induction false} SameToEach(reg: seq<Entry>, j: nat, v: Value, w: Value, r: Value, s: Value)
    requires Ordered(reg) && j < |reg| && v.Map? && r.Map? && s.Map? && Same(v, w)
    requires EachTo(reg, j, v.fields, r.fields) && EachTo(reg, j, w.fields, s.fields)
    ensures Same(r, s)
    decreases j, 4
  {
    forall n | n in r.fields
      ensures Same(r.fields[n], s.fields[n])
    {
      SameToValue(reg, j, v.fields[n], w.fields[n], r.fields[n], s.fields[n]);
    }
  }

  lemma {:induction false} SameToValue(reg: seq<Entry>, j: nat, v: Value, w: Value, r: Value, s: Value)
    requires Ordered(reg) && j < |reg| && Same(v, w)
    requires ToValue(reg, j, v, r) && ToValue(reg, j, w, s)
    ensures Same(r, s)
    decreases j, 3
  {
    if v.Map? {
      assert SameObj(v.fields, w.fields);
      SameToObject(reg, j, v.fields, w.fields, r.fields, s.fields);
    }
  }

  // ------------------------------------------------------------ there and back

  /** No stage of the type touches the ID or the type of an object. */
  predicate LeavesIds(e: Entry) { Pipeline.AllIdle(e.stages, "id") && Pipeline.AllIdle(e.stages, "type") }

  /** m with the type filled in, and the ID where a root type gives one, at every level the mappers know. */
  ghost function Tagged(reg: seq<Entry>, i: nat, path: string, m: Object): Object
    requires Ordered(reg) && i < |reg|
    decreases i, 2
  {
    var d := Typed(reg, i, path, m);
    if reg[i].root && LeavesIds(reg[i]) then WithId(d, m) else d
  }

  ghost function Typed(reg: seq<Entry>, i: nat, path: string, m: Object): Object
    requires Ordered(reg) && i < |reg|
    decreases i, 1, 1
  {
    WithType(map k | k in m :: TagField(reg, i, path, k, m[k]), path, reg[i].id)
  }

  ghost function TagField(reg: seq<Entry>, i: nat, path: string, k: string, v: Value): Value
    requires Ordered(reg) && i < |reg|
    decreases i, 1, 0
  {
    if k in reg[i].subs then TagValue(reg, reg[i].subs[k], path, v)
    else if k in reg[i].maps && v.Map? then
      Map(map n | n in v.fields :: TagValue(reg, reg[i].maps[k], path, v.fields[n]))
    else if k in reg[i].arrays && v.List? then
      List(seq(|v.items|, x requires 0 <= x < |v.items| => TagValue(reg, reg[i].arrays[k], path, v.items[x])))
    else v
  }

  ghost function TagValue(reg: seq<Entry>, j: nat, path: string, v: Value): Value
    requires Ordered(reg) && j < |reg|
    decreases j, 3
  {
    if v.Map? then Map(Tagged(reg, j, path, v.fields)) else v
  }

  /** Every pipeline can be undone on the data that reaches it; what is added after it is an ID that no
      stage touches, or nothing. */
  ghost predicate Undoable(reg: seq<Entry>, i: nat, path: string, m: Object)
    requires Ordered(reg) && i < |reg|
    decreases i, 2
  {
    var d2 := WithType(FieldsFrom(reg, i, path, m), path, reg[i].id);
    var d3 := Pipeline.FromAll(reg[i].stages, d2);
    && (forall k :: k in m ==> FieldUndoable(reg, i, path, k, m[k]))
    && Pipeline.AllReversible(reg[i].stages, d2)
    && (LeavesIds(reg[i]) || Finished(reg[i], path, d3, m) == d3)
  }

  ghost predicate FieldUndoable(reg: seq<Entry>, i: nat, path: string, k: string, v: Value)
    requires Ordered(reg) && i < |reg|
    decreases i, 1
  {
    && (k in reg[i].subs ==> ValueUndoable(reg, reg[i].subs[k], path, v))
    && (k in reg[i].maps && v.Map? ==>
          forall n :: n in v.fields ==> ValueUndoable(reg, reg[i].maps[k], path, v.fields[n]))
    && (k in reg[i].arrays && v.List? ==>
          forall x :: 0 <= x < |v.items| ==> ValueUndoable(reg, reg[i].arrays[k], path, v.items[x]))
  }

  ghost predicate ValueUndoable(reg: seq<Entry>, j: nat, path: string, v: Value)
    requires Ordered(reg) && j < |reg|
    decreases j, 3
  {
    v.Map? ==> Undoable(reg, j, path, v.fields)
  }

  /** Mapped there and back, an object is what it was up to the order of lists, with its types filled in
      and, for a root type, the ID it was given; even if the lists of the mapped object were rearranged. */
  lemma {:induction false} TypeRoundTrip(reg: seq<Entry>, i: nat, path: string, m: Object, d: Object, r: Object)
    requires Ordered(reg) && i < |reg| && (forall e :: e in reg ==> Exclusive(e))
    requires Undoable(reg, i, path, m)
    requires SameObj(d, FromObject(reg, i, path, m)) && ToObject(reg, i, d, r)
    ensures SameObj(r, Tagged(reg, i, path, m))
    decreases i, 2
  {
    var e := reg[i];
    var d2 := WithType(FieldsFrom(reg, i, path, m), path, e.id);
    var d3 := Pipeline.FromAll(e.stages, d2);
    var back :| Pipeline.ToAll(e.stages, d, back) && FieldsTo(reg, i, back, r);
    if LeavesIds(e) { IdStays(reg, i, path, m, d3); }
    if LeavesIds(e) && e.root && NewId(d3, m).Some? {
      var id := Scalar(NewId(d3, m).value);
      var rest := IdComesBack(e.stages, d2, d, id, back);
      FieldsAndId(reg, i, path, m, rest, id, r);
    } else {
      Pipeline.PipelineRoundTrip(e.stages, d2, d, back);
      FieldsBack(reg, i, path, m, back, r);
    }
  }

  /** The fields alone. */
  lemma {:induction false} FieldsBack(reg: seq<Entry>, i: nat, path: string, m: Object, d: Object, r: Object)
    requires Ordered(reg) && i < |reg| && (forall e :: e in reg ==> Exclusive(e))
    requires forall k :: k in m ==> FieldUndoable(reg, i, path, k, m[k])
    requires SameObj(d, WithType(FieldsFrom(reg, i, path, m), path, reg[i].id)) && FieldsTo(reg, i, d, r)
    ensures SameObj(r, Typed(reg, i, path, m))
    decreases i, 1, 2
  {
    forall k | k in r
      ensures Same(r[k], Typed(reg, i, path, m)[k])
    {
      FieldBack(reg, i, path, m, k, d[k], r[k]);
    }
  }

  lemma {:induction false} FieldBack(reg: seq<Entry>, i: nat, path: string, m: Object, k: string, x: Value, w: Value)
    requires Ordered(reg) && i < |reg| && (forall e :: e in reg ==> Exclusive(e))
    requires forall k :: k in m ==> FieldUndoable(reg, i, path, k, m[k])
    requires var d2 := WithType(FieldsFrom(reg, i, path, m), path, reg[i].id);
             k in d2 && Same(x, d2[k])
    requires ToField(reg, i, k, x, w)
    ensures k in Typed(reg, i, path, m) && Same(w, Typed(reg, i, path, m)[k])
    decreases i, 1, 1
  {
    if k in m {
      FieldRoundTrip(reg, i, path, k, m[k], x, w);
    } else {
      assert k == "type" && x.Scalar?;
      TextComesBack(reg, i, k, x, w);
    }
  }

  lemma TextComesBack(reg: seq<Entry>, i: nat, k: string, x: Value, w: Value)
    requires Ordered(reg) && i < |reg| && x.Scalar? && ToField(reg, i, k, x, w)
    ensures w == x
  {
    var v1, v2 :| ArrayTo(reg, i, k, x, v1) && MapTo(reg, i, k, v1, v2) && SubTo(reg, i, k, v2, w);
    if k in reg[i].subs { assert ToValue(reg, reg[i].subs[k], v2, w); }
  }

  lemma {:induction false} FieldRoundTrip(reg: seq<Entry>, i: nat, path: string, k: string, v: Value, x: Value,
                                          w: Value)
    requires Ordered(reg) && i < |reg| && (forall e :: e in reg ==> Exclusive(e))
    requires FieldUndoable(reg, i, path, k, v)
    requires Same(x, FromField(reg, i, path, k, v)) && ToField(reg, i, k, x, w)
    ensures Same(w, TagField(reg, i, path, k, v))
    decreases i, 1, 0
  {
    var e := reg[i];
    assert Exclusive(e);
    var v1, v2 :| ArrayTo(reg, i, k, x, v1) && MapTo(reg, i, k, v1, v2) && SubTo(reg, i, k, v2, w);
    if k in e.subs {
      ValueRoundTrip(reg, e.subs[k], path, v, x, w);
    } else if k in e.maps && v.Map? {
      EachRoundTrip(reg, e.maps[k], path, v.fields, x, w);
    } else if k in e.arrays && v.List? {
      ItemsRoundTrip(reg, e.arrays[k], path, v.items, x, w);
    }
  }

  lemma {:induction false} EachRoundTrip(reg: seq<Entry>, j: nat, path: string, m: Object, x: Value, w: Value)
    requires Ordered(reg) && j < |reg| && (forall e :: e in reg ==> Exclusive(e))
    requires forall n :: n in m ==> ValueUndoable(reg, j, path, m[n])
    requires x.Map? && w.Map?
    requires Same(x, Map(FromEach(reg, j, path, m))) && EachTo(reg, j, x.fields, w.fields)
    ensures Same(w, Map(map n | n in m :: TagValue(reg, j, path, m[n])))
    decreases j, 4
  {
    forall n | n in m
      ensures Same(w.fields[n], TagValue(reg, j, path, m[n]))
    {
      ValueRoundTrip(reg, j, path, m[n], x.fields[n], w.fields[n]);
    }
  }

  lemma {:induction false} ItemsRoundTrip(reg: seq<Entry>, j: nat, path: string, items: seq<Value>, x: Value, w: Value)
    requires Ordered(reg) && j < |reg| && (forall e :: e in reg ==> Exclusive(e))
    requires forall n :: 0 <= n < |items| ==> ValueUndoable(reg, j, path, items[n])
    requires x.List? && w.List?
    requires Same(x, List(FromItems(reg, j, path, items))) && ItemsTo(reg, j, x.items, w.items)
    ensures Same(w, List(seq(|items|, n requires 0 <= n < |items| => TagValue(reg, j, path, items[n]))))
    decreases j, 4
  {
    var p :| Matched(x, List(FromItems(reg, j, path, items)), p);
    var b := seq(|items|, n requires 0 <= n < |items| => TagValue(reg, j, path, items[n]));
    forall n | 0 <= n < |w.items|
      ensures Same(w.items[n], b[p[n]])
    {
      ValueRoundTrip(reg, j, path, items[p[n]], x.items[n], w.items[n]);
    }
    assert Matched(w, List(b), p);
  }

  lemma {:induction false} ValueRoundTrip(reg: seq<Entry>, j: nat, path: string, v: Value, x: Value, w: Value)
    requires Ordered(reg) && j < |reg| && (forall e :: e in reg ==> Exclusive(e))
    requires ValueUndoable(reg, j, path, v)
    requires Same(x, FromValue(reg, j, path, v)) && ToValue(reg, j, x, w)
    ensures Same(w, TagValue(reg, j, path, v))
    decreases j, 3
  {
    if v.Map? {
      assert SameObj(x.fields, FromObject(reg, j, path, v.fields));
      TypeRoundTrip(reg, j, path, v.fields, x.fields, w.fields);
    }
  }

  /** A field that holds a text holds the same text after mapping and in the tagged object; no other does. */
  lemma TextStays(reg: seq<Entry>, i: nat, path: string, k: string, v: Value)
    requires Ordered(reg) && i < |reg|
    ensures StringOf(Some(FromField(reg, i, path, k, v))) == StringOf(Some(v))
    ensures StringOf(Some(TagField(reg, i, path, k, v))) == StringOf(Some(v))
  {
  }

  /** When no stage touches it, the ID that is given is that of the tagged object. */
  lemma IdStays(reg: seq<Entry>, i: nat, path: string, m: Object, d3: Object)
    requires Ordered(reg) && i < |reg| && LeavesIds(reg[i])
    requires d3 == Pipeline.FromAll(reg[i].stages, WithType(FieldsFrom(reg, i, path, m), path, reg[i].id))
    ensures NewId(d3, m) == NewId(Typed(reg, i, path, m), m)
    ensures Finished(reg[i], path, d3, m) == if reg[i].root then WithId(d3, m) else d3
  {
    var d2 := WithType(FieldsFrom(reg, i, path, m), path, reg[i].id);
    Pipeline.IdleFromAll(reg[i].stages, d2, "id");
    Pipeline.IdleFromAll(reg[i].stages, d2, "type");
    if "id" in m { TextStays(reg, i, path, "id", m["id"]); }
  }

  /** The pipeline takes the ID back with it and undoes itself on the rest. */
  lemma IdComesBack(stages: seq<Pipeline.Stage>, d2: Object, d: Object, id: Value, back: Object) returns (rest: Object)
    requires Pipeline.AllReversible(stages, d2) && Pipeline.AllIdle(stages, "id")
    requires SameObj(d, Pipeline.FromAll(stages, d2)["id" := id]) && id.Scalar?
    requires Pipeline.ToAll(stages, d, back)
    ensures SameObj(rest, d2) && back == rest["id" := id]
  {
    var d3 := Pipeline.FromAll(stages, d2);
    var plain := if "id" in d3 then d["id" := d3["id"]] else d - {"id"};
    assert Same(d["id"], id);
    assert plain["id" := id] == d;
    if "id" in d3 { SameSelf(d3["id"]); }
    assert SameObj(plain, d3);
    rest := Pipeline.IdleToAll(stages, plain, "id", id, back);
    Pipeline.PipelineRoundTrip(stages, d2, plain, rest);
  }

  lemma {:induction false} FieldsAndId(reg: seq<Entry>, i: nat, path: string, m: Object, rest: Object, id: Value,
                                       r: Object)
    requires Ordered(reg) && i < |reg| && (forall e :: e in reg ==> Exclusive(e))
    requires forall k :: k in m ==> FieldUndoable(reg, i, path, k, m[k])
    requires SameObj(rest, WithType(FieldsFrom(reg, i, path, m), path, reg[i].id)) && id.Scalar?
    requires FieldsTo(reg, i, rest["id" := id], r)
    ensures SameObj(r, Typed(reg, i, path, m)["id" := id])
    decreases i, 1, 2
  {
    forall k | k in r
      ensures Same(r[k], Typed(reg, i, path, m)["id" := id][k])
    {
      if k == "id" { TextComesBack(reg, i, k, id, r[k]); } else { FieldBack(reg, i, path, m, k, rest[k], r[k]); }
    }
  }

  // ------------------------------------------------------------------- the loops

  /** The loop over the sub-objects; a field that is not there is visited as a nil map. */
  method FromSubs(reg: seq<Entry>, i: nat, path: string, m: Object) returns (r: Object)
    requires Ordered(reg) && i < |reg|
    ensures r.Keys == m.Keys
    ensures forall k :: k in m ==> r[k] == if k in reg[i].subs then FromValue(reg, reg[i].subs[k], path, m[k]) else m[k]
    decreases i, 0
  {
    var subs := reg[i].subs;
    var todo := subs.Keys;
    r := m;
    while todo != {}
      invariant todo <= subs.Keys && r.Keys == m.Keys
      invariant forall k :: k in m ==>
                  r[k] == if k in subs && k !in todo then FromValue(reg, subs[k], path, m[k]) else m[k]
      decreases todo
    {
      var f :| f in todo;
      var sub := FromInternal(reg, subs[f], path, AsMap(Get(r, f)));
      if sub.Some? { r := r[f := Map(sub.value)]; }
      todo := todo - {f};
    }
  }

  /** The loop over the maps of objects. */
  method FromMaps(reg: seq<Entry>, i: nat, path: string, m: Object) returns (r: Object)
    requires Ordered(reg) && i < |reg|
    ensures r.Keys == m.Keys
    ensures forall k :: k in m ==>
              r[k] == if k in reg[i].maps && m[k].Map?
                      then Map(FromEach(reg, reg[i].maps[k], path, m[k].fields)) else m[k]
    decreases i, 0
  {
    var maps := reg[i].maps;
    var todo := maps.Keys;
    r := m;
    while todo != {}
      invariant todo <= maps.Keys && r.Keys == m.Keys
      invariant forall k :: k in m ==>
                  r[k] == if k in maps && k !in todo && m[k].Map?
                          then Map(FromEach(reg, maps[k], path, m[k].fields)) else m[k]
      decreases todo
    {
      var f :| f in todo;
      if f in r && r[f].Map? {
        var each := FromEntries(reg, maps[f], path, r[f].fields);
        r := r[f := Map(each)];
      }
      todo := todo - {f};
    }
  }

  method FromEntries(reg: seq<Entry>, j: nat, path: string, m: Object) returns (r: Object)
    requires Ordered(reg) && j < |reg|
    ensures r == FromEach(reg, j, path, m)
    decreases j, 4
  {
    var todo := m.Keys;
    r := m;
    while todo != {}
      invariant todo <= m.Keys && r.Keys == m.Keys
      invariant forall n :: n in m ==> r[n] == if n in todo then m[n] else FromValue(reg, j, path, m[n])
      decreases todo
    {
      var n :| n in todo;
      var sub := FromInternal(reg, j, path, AsMap(r[n]));
      if sub.Some? { r := r[n := Map(sub.value)]; }
      todo := todo - {n};
    }
  }

  /** The loop over the lists of objects. */
  method FromArrays(reg: seq<Entry>, i: nat, path: string, m: Object) returns (r: Object)
    requires Ordered(reg) && i < |reg|
    ensures r.Keys == m.Keys
    ensures forall k :: k in m ==>
              r[k] == if k in reg[i].arrays && m[k].List?
                      then List(FromItems(reg, reg[i].arrays[k], path, m[k].items)) else m[k]
    decreases i, 0
  {
    var arrays := reg[i].arrays;
    var todo := arrays.Keys;
    r := m;
    while todo != {}
      invariant todo <= arrays.Keys && r.Keys == m.Keys
      invariant forall k :: k in m ==>
                  r[k] == if k in arrays && k !in todo && m[k].List?
                          then List(FromItems(reg, arrays[k], path, m[k].items)) else m[k]
      decreases todo
    {
      var f :| f in todo;
      if f in r && r[f].List? {
        var items := FromList(reg, arrays[f], path, r[f].items);
        r := r[f := List(items)];
      }
      todo := todo - {f};
    }
  }

  method FromList(reg: seq<Entry>, j: nat, path: string, items: seq<Value>) returns (r: seq<Value>)
    requires Ordered(reg) && j < |reg|
    ensures r == FromItems(reg, j, path, items)
    decreases j, 4
  {
    r := [];
    for x := 0 to |items|
      invariant |r| == x && forall y :: 0 <= y < x ==> r[y] == FromValue(reg, j, path, items[y])
    {
      var sub := FromInternal(reg, j, path, AsMap(items[x]));
      r := r + [if sub.Some? then Map(sub.value) else items[x]];
    }
  }

  /** typeMapper.FromInternal: it goes through its sub-schemas for nil data too, and comes to an end. */
  method FromInternal(reg: seq<Entry>, i: nat, path: string, data: Option<Object>) returns (r: Option<Object>)
    requires Ordered(reg) && i < |reg|
    ensures r == if data.None? then None else Some(FromObject(reg, i, path, data.value))
    decreases i, 2
  {
    var m := Entries(data);
    var m3 := FromParts(reg, i, path, m);
    if data.None? { return None; }
    var d := new Pipeline.Data(WithType(m3, path, reg[i].id));
    Pipeline.FromInternal(reg[i].stages, d);
    r := Some(Finished(reg[i], path, d.fields, m));
  }

  method FromParts(reg: seq<Entry>, i: nat, path: string, m: Object) returns (r: Object)
    requires Ordered(reg) && i < |reg|
    ensures r == FieldsFrom(reg, i, path, m)
    decreases i, 1, 0
  {
    var m1 := FromSubs(reg, i, path, m);
    var m2 := FromMaps(reg, i, path, m1);
    r := FromArrays(reg, i, path, m2);
    forall k | k in m
      ensures r[k] == FromField(reg, i, path, k, m[k])
    {
    }
  }

  /** The loop over the sub-objects; a field that is not there is visited as a nil map. */
  method ToSubs(reg: seq<Entry>, i: nat, m: Object) returns (r: Object)
    requires Ordered(reg) && i < |reg|
    ensures r.Keys == m.Keys && forall k :: k in m ==> SubTo(reg, i, k, m[k], r[k])
    decreases i, 0
  {
    var subs := reg[i].subs;
    var todo := subs.Keys;
    r := m;
    while todo != {}
      invariant todo <= subs.Keys && r.Keys == m.Keys
      invariant forall k :: k in m ==> if k in todo then r[k] == m[k] else SubTo(reg, i, k, m[k], r[k])
      decreases todo
    {
      var f :| f in todo;
      var sub := ToInternal(reg, subs[f], AsMap(Get(r, f)));
      if sub.Some? { r := r[f := Map(sub.value)]; }
      todo := todo - {f};
    }
  }

  /** The loop over the maps of objects. */
  method ToMaps(reg: seq<Entry>, i: nat, m: Object) returns (r: Object)
    requires Ordered(reg) && i < |reg|
    ensures r.Keys == m.Keys && forall k :: k in m ==> MapTo(reg, i, k, m[k], r[k])
    decreases i, 0
  {
    var maps := reg[i].maps;
    var todo := maps.Keys;
    r := m;
    while todo != {}
      invariant todo <= maps.Keys && r.Keys == m.Keys
      invariant forall k :: k in m ==> if k in todo then r[k] == m[k] else MapTo(reg, i, k, m[k], r[k])
      decreases todo
    {
      var f :| f in todo;
      if f in r && r[f].Map? {
        var each := ToEntries(reg, maps[f], r[f].fields);
        r := r[f := Map(each)];
      }
      todo := todo - {f};
    }
  }

  method ToEntries(reg: seq<Entry>, j: nat, m: Object) returns (r: Object)
    requires Ordered(reg) && j < |reg|
    ensures EachTo(reg, j, m, r)
    decreases j, 4
  {
    var todo := m.Keys;
    r := m;
    while todo != {}
      invariant todo <= m.Keys && r.Keys == m.Keys
      invariant forall n :: n in m ==> if n in todo then r[n] == m[n] else ToValue(reg, j, m[n], r[n])
      decreases todo
    {
      var n :| n in todo;
      var sub := ToInternal(reg, j, AsMap(r[n]));
      if sub.Some? { r := r[n := Map(sub.value)]; }
      todo := todo - {n};
    }
  }

  /** The loop over the lists of objects. */
  method ToArrays(reg: seq<Entry>, i: nat, m: Object) returns (r: Object)
    requires Ordered(reg) && i < |reg|
    ensures r.Keys == m.Keys && forall k :: k in m ==> ArrayTo(reg, i, k, m[k], r[k])
    decreases i, 0
  {
    var arrays := reg[i].arrays;
    var todo := arrays.Keys;
    r := m;
    while todo != {}
      invariant todo <= arrays.Keys && r.Keys == m.Keys
      invariant forall k :: k in m ==> if k in todo then r[k] == m[k] else ArrayTo(reg, i, k, m[k], r[k])
      decreases todo
    {
      var f :| f in todo;
      if f in r && r[f].List? {
        var items := ToList(reg, arrays[f], r[f].items);
        r := r[f := List(items)];
      }
      todo := todo - {f};
    }
  }

  method ToList(reg: seq<Entry>, j: nat, items: seq<Value>) returns (r: seq<Value>)
    requires Ordered(reg) && j < |reg|
    ensures ItemsTo(reg, j, items, r)
    decreases j, 4
  {
    r := [];
    for x := 0 to |items|
      invariant |r| == x && forall y :: 0 <= y < x ==> ToValue(reg, j, items[y], r[y])
    {
      var sub := ToInternal(reg, j, AsMap(items[x]));
      r := r + [if sub.Some? then Map(sub.value) else items[x]];
    }
  }

  /** typeMapper.ToInternal; each map on the way is ranged over in any order. */
  method ToInternal(reg: seq<Entry>, i: nat, data: Option<Object>) returns (r: Option<Object>)
    requires Ordered(reg) && i < |reg|
    ensures r.Some? <==> data.Some?
    ensures data.Some? ==> ToObject(reg, i, data.value, r.value)
    decreases i, 2
  {
    var d := new Pipeline.Data(Entries(data));
    if data.Some? { Pipeline.ToInternal(reg[i].stages, d); }
    var m3 := ToParts(reg, i, d.fields);
    r := if data.None? then None else Some(m3);
  }

  method ToParts(reg: seq<Entry>, i: nat, m: Object) returns (r: Object)
    requires Ordered(reg) && i < |reg|
    ensures FieldsTo(reg, i, m, r)
    decreases i, 1, 0
  {
    var m1 := ToArrays(reg, i, m);
    var m2 := ToMaps(reg, i, m1);
    r := ToSubs(reg, i, m2);
    forall k | k in m
      ensures ToField(reg, i, k, m[k], r[k])
    {
      assert ArrayTo(reg, i, k, m[k], m1[k]) && MapTo(reg, i, k, m1[k], m2[k]) && SubTo(reg, i, k, m2[k], r[k]);
    }
  }
}
