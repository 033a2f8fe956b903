/** Importing a possibly cyclic graph of Go types into the registry (types/reflection.go), for one API version. */
module Import {
  import opened Text
  import Definition
  import Registry
  import Pipeline

  /** What reflection sees of a field's type. Basic is every kind, or tag, that has a fixed type name. */
  datatype Kind = Basic(name: string) | MapOf(elem: Kind) | SliceOf(elem: Kind) | Struct(id: int) | Unknown

  datatype Type = Type(name: string, plural: string, fields: map<string, Kind>, listable: bool)

  /** A registered schema with the type and the overrides it came from, the type names of the fields that its
      mapper looks at, and the type mapper: the sub-schemas are given by their place in the registration order. */
  datatype Entry = Entry(id: string, plural: string, type_: int, overrides: seq<int>, fields: map<string, string>,
                         subs: map<string, nat>, arrays: map<string, nat>, maps: map<string, nat>,
                         stages: seq<Pipeline.Stage>, root: bool)

  ghost predicate Below(m: map<string, nat>, n: nat) { forall f :: f in m ==> m[f] < n }

  /** Each type mapper points only to schemas that were registered strictly earlier. */
  ghost predicate Ordered(reg: seq<Entry>) {
    forall i :: 0 <= i < |reg| ==> Below(reg[i].subs, i) && Below(reg[i].arrays, i) && Below(reg[i].maps, i)
  }

  /** A field is a sub-object, a list or a map of them, never two of these. */
  ghost predicate Exclusive(e: Entry) {
    e.subs.Keys !! e.arrays.Keys && e.subs.Keys !! e.maps.Keys && e.arrays.Keys !! e.maps.Keys
  }

  predicate Matches(e: Entry, name: string) { Registry.EqualFold(e.id, name) || Registry.EqualFold(e.plural, name) }

  ghost predicate IsRegistered(reg: seq<Entry>, id: string) { exists i :: 0 <= i < |reg| && reg[i].id == id }

  /** A lookup by this name would take the entry: it has the ID, or matches loosely. */
  predicate Hit(e: Entry, name: string) { e.id == name || Matches(e, name) }

  // ------------------------------------------------------- the tables of a mapper

  datatype Sort = Subs | Arrays | Maps

  function SortOf(type_: string): Sort {
    if Definition.IsArrayType(type_) then Arrays else if Definition.IsMapType(type_) then Maps else Subs
  }

  /** The type that is looked up: of a list or a map, what is in it. */
  function TargetOf(type_: string): string { if SortOf(type_).Subs? then type_ else Definition.SubType(type_) }

  /** A list of structs goes to the arrays, a map of them to the maps, a struct to the sub-objects, each to be
      looked up by the ID of the struct. */
  lemma SortOfKind(t: int, leaf: string)
    requires Definition.NoBracket(leaf) && leaf != "byte"
    ensures var list, dict := TypeName(SliceOf(Struct(t)), leaf), TypeName(MapOf(Struct(t)), leaf);
            && SortOf(list) == Arrays && TargetOf(list) == leaf
            && SortOf(dict) == Maps && TargetOf(dict) == leaf
            && SortOf(TypeName(Struct(t), leaf)) == Subs && TargetOf(TypeName(Struct(t), leaf)) == leaf
  {
    var list, dict := "array" + "[" + leaf + "]", "map" + "[" + leaf + "]";
    assert TypeName(SliceOf(Struct(t)), leaf) == list && TypeName(MapOf(Struct(t)), leaf) == dict;
    assert list[..6] == "array[" && list[|list| - 1..] == "]";
    assert dict[..4] == "map[" && dict[|dict| - 1..] == "]" && dict[0] == 'm';
    Definition.UnwrapOne("array", leaf);
    Definition.UnwrapOne("map", leaf);
    assert "array["[5] == '[' && "map["[3] == '[';
  }

  datatype Tables = Tables(subs: map<string, nat>, arrays: map<string, nat>, maps: map<string, nat>)

  function Table(t: Tables, sort: Sort): map<string, nat> {
    match sort
    case Subs => t.subs
    case Arrays => t.arrays
    case Maps => t.maps
  }

  predicate Empty(t: Tables, f: string) { f !in t.subs && f !in t.arrays && f !in t.maps }

  ghost predicate SomeHit(reg: seq<Entry>, name: string) { exists i :: 0 <= i < |reg| && Hit(reg[i], name) }

  /** A field stands in the table of its sort, with an entry that its type hits, exactly when there is one;
      and in no other table. */
  ghost predicate Sorted(reg: seq<Entry>, t: Tables, f: string, fields: map<string, string>) {
    forall sort :: SortedIn(reg, t, f, fields, sort)
  }

  ghost predicate SortedIn(reg: seq<Entry>, t: Tables, f: string, fields: map<string, string>, sort: Sort) {
    var table := Table(t, sort);
    && (f in table <==> f in fields && sort == SortOf(fields[f]) && SomeHit(reg, TargetOf(fields[f])))
    && (f in table ==> table[f] < |reg| && Hit(reg[table[f]], TargetOf(fields[f])))
  }

  /** Tables whose fields are all sorted are in order and exclusive. */
  lemma SortedTables(reg: seq<Entry>, t: Tables, fields: map<string, string>)
    requires forall f :: Sorted(reg, t, f, fields)
    ensures Below(t.subs, |reg|) && Below(t.arrays, |reg|) && Below(t.maps, |reg|)
    ensures t.subs.Keys !! t.arrays.Keys && t.subs.Keys !! t.maps.Keys && t.arrays.Keys !! t.maps.Keys
  {
    forall f
      ensures f in t.subs ==> t.subs[f] < |reg| && f !in t.arrays && f !in t.maps
      ensures f in t.arrays ==> t.arrays[f] < |reg| && f !in t.maps
      ensures f in t.maps ==> t.maps[f] < |reg|
    {
      assert Sorted(reg, t, f, fields);
      assert SortedIn(reg, t, f, fields, Subs);
      assert SortedIn(reg, t, f, fields, Arrays) && SortedIn(reg, t, f, fields, Maps);
    }
  }

  lemma OneSorted(reg: seq<Entry>, t: Tables, t': Tables, f: string, fields: map<string, string>, found: Option<nat>)
    requires f in fields && Empty(t, f)
    requires found.Some? ==> found.value < |reg| && Hit(reg[found.value], TargetOf(fields[f]))
    requires found.None? ==> forall i :: 0 <= i < |reg| ==> !Hit(reg[i], TargetOf(fields[f]))
    requires forall sort :: Table(t', sort) ==
               if found.Some? && sort == SortOf(fields[f]) then Table(t, sort)[f := found.value] else Table(t, sort)
    ensures Sorted(reg, t', f, fields)
    ensures forall g :: g != f && Sorted(reg, t, g, fields) ==> Sorted(reg, t', g, fields)
    ensures forall g :: g != f && Empty(t, g) ==> Empty(t', g)
  {
    forall sort
      ensures SortedIn(reg, t', f, fields, sort)
    {
    }
    forall g | g != f && Sorted(reg, t, g, fields)
      ensures Sorted(reg, t', g, fields)
    {
      forall sort
        ensures SortedIn(reg, t', g, fields, sort)
      {
        assert SortedIn(reg, t, g, fields, sort);
      }
    }
    assert t'.subs == Table(t', Subs) && t'.arrays == Table(t', Arrays) && t'.maps == Table(t', Maps);
  }

  // ----------------------------------------------------------- the graph of types

  type Types = map<int, Type>

  /** The struct inside a kind, if there is one. */
  function Leaf(k: Kind): Option<int> {
    match k
    case Struct(t) => Some(t)
    case MapOf(e) => Leaf(e)
    case SliceOf(e) => Leaf(e)
    case _ => None
  }

  predicate Supported(k: Kind) {
    match k
    case MapOf(e) => Supported(e)
    case SliceOf(e) => Supported(e)
    case Unknown => false
    case _ => true
  }

  /** The type name of a kind whose struct, if any, is known as leaf. */
  function TypeName(k: Kind, leaf: string): string {
    match k
    case Basic(name) => name
    case MapOf(e) => "map[" + TypeName(e, leaf) + "]"
    case SliceOf(e) => if TypeName(e, leaf) == "byte" then "base64" else "array[" + TypeName(e, leaf) + "]"
    case Struct(_) => leaf
    case Unknown => ""
  }

  /** The structs that the fields of t mention. */
  ghost function Mentions(types: Types, t: int): set<int>
    requires t in types
  {
    set f | f in types[t].fields && Leaf(types[t].fields[f]).Some? :: Leaf(types[t].fields[f]).value
  }

  /** Every mentioned struct is a type of the graph. */
  ghost predicate WholeGraph(types: Types) {
    forall t, f :: t in types && f in types[t].fields && Leaf(types[t].fields[f]).Some? ==>
                     Leaf(types[t].fields[f]).value in types
  }

  ghost predicate AllSupported(types: Types) {
    forall t, f :: t in types && f in types[t].fields ==> Supported(types[t].fields[f])
  }

  ghost predicate Findable(types: Types, reg: seq<Entry>, t: int)
    requires t in types
  {
    exists i :: 0 <= i < |reg| && Hit(reg[i], types[t].name)
  }

  /** What a registered type mentions can be found, or is still being built. */
  ghost predicate Covered(types: Types, reg: seq<Entry>, building: set<int>)
    requires WholeGraph(types) && forall e :: e in reg ==> e.type_ in types
  {
    forall e, t :: e in reg && t in Mentions(types, e.type_) ==> Findable(types, reg, t) || t in building
  }

  lemma CoveredWithout(types: Types, reg: seq<Entry>, building: set<int>, t: int)
    requires WholeGraph(types) && (forall e :: e in reg ==> e.type_ in types)
    requires t in types && Covered(types, reg, building + {t}) && Findable(types, reg, t)
    ensures Covered(types, reg, building)
  {
  }

  lemma CoveredMore(types: Types, reg: seq<Entry>, building: set<int>, e: Entry)
    requires WholeGraph(types) && (forall x :: x in reg ==> x.type_ in types) && e.type_ in types
    requires Covered(types, reg, building)
    requires forall u :: u in Mentions(types, e.type_) ==> Findable(types, reg, u) || u in building
    ensures Covered(types, reg + [e], building)
  {
    forall x, t | x in reg + [e] && t in Mentions(types, x.type_)
      ensures Findable(types, reg + [e], t) || t in building
    {
      assert Findable(types, reg, t) || t in building;
      if t !in building {
        var i :| 0 <= i < |reg| && Hit(reg[i], types[t].name);
        assert Hit((reg + [e])[i], types[t].name);
      }
    }
  }

  // ------------------------------------------------------- what an entry says of its type

  type Mappers = map<string, seq<Pipeline.Stage>>

  /** The ID stands for the type: it is its name, or that of an entry that a lookup by its name takes. */
  ghost predicate StandsFor(types: Types, reg: seq<Entry>, id: string, t: int) {
    && t in types
    && (id == types[t].name || exists i :: 0 <= i < |reg| && reg[i].id == id && Hit(reg[i], types[t].name))
  }

  /** The name is that of the kind, with an ID for the struct inside that stands for it. */
  ghost predicate Describes(types: Types, reg: seq<Entry>, name: string, k: Kind) {
    exists leaf :: name == TypeName(k, leaf) && (Leaf(k).Some? ==> StandsFor(types, reg, leaf, Leaf(k).value))
  }

  /** Field f was read from type t. */
  ghost predicate ReadFrom(types: Types, reg: seq<Entry>, fields: map<string, string>, f: string, t: int) {
    t in types && f in types[t].fields && f in fields && Describes(types, reg, fields[f], types[t].fields[f])
  }

  /** Every field was read from the type or, of an entry without stages, from one of the overrides. */
  ghost predicate AllRead(types: Types, reg: seq<Entry>, fields: map<string, string>, t: int, overrides: seq<int>) {
    && t in types && types[t].fields.Keys <= fields.Keys
    && forall f :: f in fields ==> ReadFromAny(types, reg, fields, f, t, overrides)
  }

  ghost predicate ReadFromAny(types: Types, reg: seq<Entry>, fields: map<string, string>, f: string, t: int,
                              overrides: seq<int>)
  {
    ReadFrom(types, reg, fields, f, t) || exists o :: o in overrides && ReadFrom(types, reg, fields, f, o)
  }

  /** An entry is made of its type: name, plural, stages, fields, and whether it is a root. */
  ghost predicate MadeOf(types: Types, mappers: Mappers, reg: seq<Entry>, e: Entry) {
    && e.type_ in types && e.id == types[e.type_].name && e.plural == types[e.type_].plural
    && e.root == types[e.type_].listable
    && e.stages == (if e.id in mappers then mappers[e.id] else [])
    && AllRead(types, reg, e.fields, e.type_, if e.stages == [] then e.overrides else [])
  }

  /** Its tables are those of its fields, as far as their schemas were registered before. */
  ghost predicate Tabled(reg: seq<Entry>, i: nat)
    requires i < |reg|
  {
    forall f :: Sorted(reg[..i], Tables(reg[i].subs, reg[i].arrays, reg[i].maps), f, reg[i].fields)
  }

  ghost predicate AllMade(types: Types, mappers: Mappers, reg: seq<Entry>) {
    && (forall i :: 0 <= i < |reg| ==> MadeOf(types, mappers, reg, reg[i]))
    && (forall i :: 0 <= i < |reg| ==> Tabled(reg, i))
  }

  lemma DescribesMore(types: Types, reg: seq<Entry>, more: seq<Entry>, name: string, k: Kind)
    requires reg <= more && Describes(types, reg, name, k)
    ensures Describes(types, more, name, k)
  {
    var leaf :| name == TypeName(k, leaf) && (Leaf(k).Some? ==> StandsFor(types, reg, leaf, Leaf(k).value));
    if Leaf(k).Some? && leaf != types[Leaf(k).value].name {
      var i :| 0 <= i < |reg| && reg[i].id == leaf && Hit(reg[i], types[Leaf(k).value].name);
      assert more[i] == reg[i];
    }
    assert Leaf(k).Some? ==> StandsFor(types, more, leaf, Leaf(k).value);
  }

  /** What was read stays so. */
  lemma ReadMore(types: Types, reg: seq<Entry>, more: seq<Entry>, fields: map<string, string>, names: set<string>,
                 t: int)
    requires reg <= more && forall f :: f in names ==> ReadFrom(types, reg, fields, f, t)
    ensures forall f :: f in names ==> ReadFrom(types, more, fields, f, t)
  {
    forall f | f in names
      ensures ReadFrom(types, more, fields, f, t)
    {
      DescribesMore(types, reg, more, fields[f], types[t].fields[f]);
    }
  }

  lemma AllReadMore(types: Types, reg: seq<Entry>, more: seq<Entry>, fields: map<string, string>, t: int,
                    overrides: seq<int>)
    requires reg <= more && AllRead(types, reg, fields, t, overrides)
    ensures AllRead(types, more, fields, t, overrides)
  {
    forall f | f in fields
      ensures ReadFromAny(types, more, fields, f, t, overrides)
    {
      assert ReadFromAny(types, reg, fields, f, t, overrides);
      if ReadFrom(types, reg, fields, f, t) {
        DescribesMore(types, reg, more, fields[f], types[t].fields[f]);
      } else {
        var o :| o in overrides && ReadFrom(types, reg, fields, f, o);
        DescribesMore(types, reg, more, fields[f], types[o].fields[f]);
        assert ReadFrom(types, more, fields, f, o);
      }
    }
  }

  lemma JustRead(types: Types, reg: seq<Entry>, fields: map<string, string>, t: int)
    requires t in types && fields.Keys == types[t].fields.Keys
    requires forall f :: f in types[t].fields ==> ReadFrom(types, reg, fields, f, t)
    ensures AllRead(types, reg, fields, t, [])
  {
  }

  lemma ReadAnyway(types: Types, reg: seq<Entry>, fields: map<string, string>, t: int, overrides: seq<int>)
    requires AllRead(types, reg, fields, t, [])
    ensures AllRead(types, reg, fields, t, overrides)
  {
    forall f | f in fields
      ensures ReadFromAny(types, reg, fields, f, t, overrides)
    {
      assert ReadFromAny(types, reg, fields, f, t, []);
    }
  }

  /** An override was read over the fields. */
  lemma ReadOver(types: Types, reg: seq<Entry>, was: map<string, string>, now: map<string, string>, t: int,
                 overrides: seq<int>, i: nat)
    requires i < |overrides| && overrides[i] in types && AllRead(types, reg, was, t, overrides)
    requires now.Keys == was.Keys + types[overrides[i]].fields.Keys
    requires forall f :: f in types[overrides[i]].fields ==> ReadFrom(types, reg, now, f, overrides[i])
    requires forall f :: f in was && f !in types[overrides[i]].fields ==> now[f] == was[f]
    ensures AllRead(types, reg, now, t, overrides)
  {
    forall f | f in now
      ensures ReadFromAny(types, reg, now, f, t, overrides)
    {
      if f in types[overrides[i]].fields {
        assert ReadFrom(types, reg, now, f, overrides[i]);
      } else {
        assert ReadFromAny(types, reg, was, f, t, overrides);
        if ReadFrom(types, reg, was, f, t) {
          assert ReadFrom(types, reg, now, f, t);
        } else {
          var o :| o in overrides && ReadFrom(types, reg, was, f, o);
          assert ReadFrom(types, reg, now, f, o);
        }
      }
    }
  }

  lemma OneMoreMade(types: Types, mappers: Mappers, reg: seq<Entry>, e: Entry)
    requires AllMade(types, mappers, reg) && MadeOf(types, mappers, reg, e)
    requires forall f :: Sorted(reg, Tables(e.subs, e.arrays, e.maps), f, e.fields)
    ensures AllMade(types, mappers, reg + [e])
  {
    var more := reg + [e];
    forall i | 0 <= i < |more|
      ensures MadeOf(types, mappers, more, more[i]) && Tabled(more, i)
    {
      var x := more[i];
      assert MadeOf(types, mappers, reg, x);
      AllReadMore(types, reg, more, x.fields, x.type_, if x.stages == [] then x.overrides else []);
      if i < |reg| {
        assert Tabled(reg, i);
        assert more[..i] == reg[..i];
      } else {
        assert more[..i] == reg;
      }
    }
  }

  /** Following mentioned structs from one type to another. */
  ghost predicate IsChain(types: Types, p: seq<int>) {
    p != [] && p[0] in types && forall i :: 0 <= i < |p| - 1 ==> p[i] in types && p[i + 1] in Mentions(types, p[i])
  }

  /** No two types can be taken for each other. */
  ghost predicate Unambiguous(types: Types, reg: seq<Entry>) {
    forall e, t :: e in reg && t in types && Hit(e, types[t].name) ==> e.type_ == t
  }

  ghost predicate HasEntry(reg: seq<Entry>, t: int) { exists e :: e in reg && e.type_ == t }

  /** When nothing is being built any more, every type reachable from a registered one is registered. */
  lemma {:induction false} WholeClosureRegistered(types: Types, reg: seq<Entry>, p: seq<int>)
    requires WholeGraph(types) && (forall e :: e in reg ==> e.type_ in types)
    requires Covered(types, reg, {}) && Unambiguous(types, reg)
    requires IsChain(types, p) && HasEntry(reg, p[0])
    ensures HasEntry(reg, p[|p| - 1])
    decreases |p|
  {
    if |p| > 1 {
      var e :| e in reg && e.type_ == p[0];
      assert p[1] in Mentions(types, p[0]);
      assert Findable(types, reg, p[1]);
      var i :| 0 <= i < |reg| && Hit(reg[i], types[p[1]].name);
      assert reg[i] in reg && reg[i].type_ == p[1];
      var q := p[1..];
      forall j | 0 <= j < |q| - 1
        ensures q[j] in types && q[j + 1] in Mentions(types, q[j])
      {
        assert p[j + 1] in types && p[j + 2] in Mentions(types, p[j + 1]);
      }
      WholeClosureRegistered(types, reg, q);
    }
  }

  class Importer {
    const types: Types
    const mappers: Mappers
    var registered: seq<Entry>
    var processing: set<int>
    ghost var building: set<int>
    ghost var failed: bool

    constructor (types: Types, mappers: Mappers)
      requires WholeGraph(types)
      ensures this.types == types && this.mappers == mappers && Valid()
      ensures registered == [] && processing == {} && building == {} && !failed
    {
      this.types, this.mappers, this.registered, this.processing := types, mappers, [], {};
      this.building, this.failed := {}, false;
    }

    ghost predicate Valid()
      reads this
    {
      && WholeGraph(types)
      && Ordered(registered)
      && (forall e :: e in registered ==> Exclusive(e) && e.type_ in types)
      && (forall i, j :: 0 <= i < j < |registered| ==> registered[i].id != registered[j].id)
      && AllMade(types, mappers, registered)
      && processing <= building <= types.Keys
      && (!failed ==> Covered(types, registered, building))
    }

    /** The type is known under this ID: registered, or half built. */
    ghost predicate KnownAs(t: int, id: string)
      requires t in types
      reads this
    {
      || (exists i :: 0 <= i < |registered| && registered[i].id == id && Hit(registered[i], types[t].name))
      || (t in processing && id == types[t].name)
    }

    /** doSchema. */
    method Lookup(name: string) returns (r: Option<nat>)
      ensures r.Some? ==> r.value < |registered| && Hit(registered[r.value], name)
      ensures IsRegistered(registered, name) ==> r.Some? && registered[r.value].id == name
      ensures r.None? ==> forall i :: 0 <= i < |registered| ==> !Hit(registered[i], name)
    {
      for i := 0 to |registered|
        invariant forall j :: 0 <= j < i ==> registered[j].id != name
      {
        if registered[i].id == name { return Some(i); }
      }
      for i := 0 to |registered|
        invariant forall j :: 0 <= j < i ==> !Hit(registered[j], name)
      {
        if Matches(registered[i], name) { return Some(i); }
      }
      return None;
    }

    /** Only registrations are added, and an error is remembered. */
    twostate predicate Grew()
      reads this
    {
      && processing == old(processing) && building == old(building)
      && old(registered) <= registered && (old(failed) ==> failed)
    }

    /** determineSchemaType; None is an error. leaf is the ID of the struct inside. */
    method DetermineType(k: Kind) returns (r: Option<string>, ghost leaf: string)
      requires Valid() && (Leaf(k).Some? ==> Leaf(k).value in types)
      modifies this
      ensures Valid() && Grew()
      ensures r.Some? ==> r.value == TypeName(k, leaf) && (Leaf(k).Some? ==> KnownAs(Leaf(k).value, leaf))
      ensures r.None? ==> failed
      ensures AllSupported(types) && Supported(k) ==> r.Some?
      decreases 0, types.Keys - processing, 5, k
    {
      leaf := "";
      match k
      case Basic(name) => r := Some(name);
      case MapOf(e) =>
        r, leaf := DetermineType(e);
        if r.Some? { r := Some("map[" + r.value + "]"); }
      case SliceOf(e) =>
        r, leaf := DetermineType(e);
        if r.Some? { r := Some(if r.value == "byte" then "base64" else "array[" + r.value + "]"); }
      case Struct(t) =>
        r := ImportType(t, []);
        if r.Some? { leaf := r.value; }
      case Unknown =>
        r, failed := None, true;
    }

    /** readFields: the type names of the fields, over those already read; None is an error. */
    method ReadFields(t: int, before: map<string, string>) returns (r: Option<map<string, string>>)
      requires Valid() && t in types
      modifies this
      ensures Valid() && Grew()
      ensures r.Some? ==> r.value.Keys == before.Keys + types[t].fields.Keys
      ensures r.Some? ==> forall f :: f in types[t].fields ==> ReadFrom(types, registered, r.value, f, t)
      ensures r.Some? ==> forall f :: f in before && f !in types[t].fields ==> r.value[f] == before[f]
      ensures r.Some? ==> forall u :: u in Mentions(types, t) ==> Findable(types, registered, u) || u in building
      ensures r.None? ==> failed
      ensures AllSupported(types) ==> r.Some?
      decreases 0, types.Keys - processing, 6
    {
      var fields := before;
      var todo := types[t].fields.Keys;
      while todo != {}
        invariant Valid() && Grew()
        invariant todo <= types[t].fields.Keys
        invariant fields.Keys == before.Keys + (types[t].fields.Keys - todo)
        invariant forall f :: f in types[t].fields && f !in todo ==> Met(types[t].fields[f])
        invariant forall f :: f in types[t].fields && f !in todo ==> ReadFrom(types, registered, fields, f, t)
        invariant forall f :: f in before && f !in types[t].fields ==> fields[f] == before[f]
        decreases todo
      {
        var f :| f in todo;
        ghost var reg := registered;
        label Before:
        var name, leaf := DetermineType(types[t].fields[f]);
        if name.None? { return None; }
        MetStays@Before();
        ReadMore(types, reg, registered, fields, types[t].fields.Keys - todo, t);
        assert Describes(types, registered, name.value, types[t].fields[f]) by {
          assert name.value == TypeName(types[t].fields[f], leaf);
        }
        fields := fields[f := name.value];
        todo := todo - {f};
      }
      r := Some(fields);
    }

    ghost predicate Met(k: Kind)
      requires WholeGraph(types)
      reads this
    {
      Leaf(k).Some? && Leaf(k).value in types ==>
        Findable(types, registered, Leaf(k).value) || Leaf(k).value in building
    }

    /** What was found stays found. */
    twostate lemma MetStays()
      requires WholeGraph(types) && Grew()
      ensures forall k :: old(Met(k)) ==> Met(k)
    {
      forall k | old(Met(k))
        ensures Met(k)
      {
        if Leaf(k).Some? && Leaf(k).value in types && Leaf(k).value !in building {
          var name := types[Leaf(k).value].name;
          var i :| 0 <= i < |old(registered)| && Hit(old(registered)[i], name);
          assert Hit(registered[i], name);
        }
      }
    }

    /** newSchemaFromType: the type is being processed while its fields are read, and no longer. */
    method NewSchema(t: int) returns (r: Option<map<string, string>>)
      requires Valid() && t in building && t !in processing
      modifies this
      ensures Valid() && Grew()
      ensures r.Some? ==> r.value.Keys == types[t].fields.Keys && AllRead(types, registered, r.value, t, [])
      ensures r.Some? ==> forall u :: u in Mentions(types, t) ==> Findable(types, registered, u) || u in building
      ensures r.None? ==> failed
      ensures AllSupported(types) ==> r.Some?
      decreases 0, types.Keys - processing, 3
    {
      processing := processing + {t};
      r := ReadFields(t, map[]);
      processing := processing - {t};
      if r.Some? { JustRead(types, registered, r.value, t); }
    }

    /** typeMapper.ModifySchema: the sub-schemas that can be found by now, in the table for their sort. */
    method FindSubs(fields: map<string, string>) returns (t: Tables)
      ensures forall f :: Sorted(registered, t, f, fields)
    {
      t := Tables(map[], map[], map[]);
      var todo := fields.Keys;
      while todo != {}
        invariant todo <= fields.Keys
        invariant forall f :: f !in todo ==> Sorted(registered, t, f, fields)
        invariant forall f :: f in todo ==> Empty(t, f)
        decreases todo
      {
        var f :| f in todo;
        var sort := SortOf(fields[f]);
        var found := Lookup(TargetOf(fields[f]));
        ghost var before := t;
        if found.Some? {
          t := match sort
            case Arrays => t.(arrays := t.arrays[f := found.value])
            case Maps => t.(maps := t.maps[f := found.value])
            case Subs => t.(subs := t.subs[f := found.value]);
        }
        todo := todo - {f};
        OneSorted(registered, before, t, f, fields, found);
      }
    }

    /** The fields the type mapper looks at: those of an unmodified copy when there are mappers. */
    method MapperFields(t: int, overrides: seq<int>, mapped: bool) returns (r: Option<map<string, string>>)
      requires Valid() && t in building && t !in processing
      requires forall o :: o in overrides ==> o in types
      modifies this
      ensures Valid() && Grew()
      ensures r.Some? ==> types[t].fields.Keys <= r.value.Keys
      ensures r.Some? && (mapped || overrides == []) ==> r.value.Keys == types[t].fields.Keys
      ensures r.Some? ==> AllRead(types, registered, r.value, t, if mapped then [] else overrides)
      ensures r.Some? ==> forall u :: u in Mentions(types, t) ==> Findable(types, registered, u) || u in building
      ensures r.None? ==> failed
      ensures AllSupported(types) ==> r.Some?
      decreases if overrides == [] then 0 else 1, types.Keys - processing, 4, 0
    {
      r := NewSchema(t);
      if r.None? { return; }
      var copy := r;
      if mapped {
        ghost var reg := registered;
        copy := NewSchema(t);
        if copy.None? { return None; }
        AllReadMore(types, reg, registered, r.value, t, []);
      }
      ReadAnyway(types, registered, r.value, t, overrides);
      for i := 0 to |overrides|
        invariant Valid() && Grew()
        invariant r.Some? && types[t].fields.Keys <= r.value.Keys
        invariant AllRead(types, registered, r.value, t, overrides)
        invariant mapped ==> copy.Some? && AllRead(types, registered, copy.value, t, [])
        invariant mapped ==> copy.value.Keys == types[t].fields.Keys
        invariant i == 0 ==> r.value.Keys == types[t].fields.Keys
        invariant forall u :: u in Mentions(types, t) ==> Findable(types, registered, u) || u in building
      {
        label Before:
        ghost var was, reg := r.value, registered;
        r := ReadFields(overrides[i], r.value);
        if r.None? { return; }
        FoundStays@Before(Mentions(types, t));
        AllReadMore(types, reg, registered, was, t, overrides);
        if mapped { AllReadMore(types, reg, registered, copy.value, t, []); }
        ReadOver(types, registered, was, r.value, t, overrides, i);
      }
      if mapped { r := copy; }
    }

    twostate lemma FoundStays(us: set<int>)
      requires WholeGraph(types) && Grew() && us <= types.Keys
      requires forall u :: u in us ==> Findable(types, old(registered), u) || u in building
      ensures forall u :: u in us ==> Findable(types, registered, u) || u in building
    {
      forall u | u in us && u !in building
        ensures Findable(types, registered, u)
      {
        var i :| 0 <= i < |old(registered)| && Hit(old(registered)[i], types[u].name);
        assert Hit(registered[i], types[u].name);
      }
    }

    /** importType: the ID under which the type is known from now on, or None for an error. */
    method ImportType(t: int, overrides: seq<int>) returns (r: Option<string>)
      requires Valid() && t in types
      requires forall o :: o in overrides ==> o in types
      modifies this
      ensures Valid() && Grew()
      ensures r.Some? ==> KnownAs(t, r.value)
      ensures r.None? ==> failed
      ensures AllSupported(types) ==> r.Some?
      decreases if overrides == [] then 0 else 1, types.Keys - processing, 4, 1
    {
      var name := types[t].name;
      var existing := Lookup(name);
      if existing.Some? { return Some(registered[existing.value].id); }
      if t in processing { return Some(name); }
      var stages := if name in mappers then mappers[name] else [];
      building := building + {t};
      var fields := MapperFields(t, overrides, stages != []);
      if fields.Some? { Finish(t, overrides, fields.value, stages, old(building)); }
      building := old(building);
      r := if fields.Some? then Some(name) else None;
    }

    /** The end of importType: the type mapper is made and the schema registered, unless its ID is taken. */
    method Finish(t: int, overrides: seq<int>, fields: map<string, string>, stages: seq<Pipeline.Stage>,
                  ghost outer: set<int>)
      requires Valid() && building == outer + {t}
      requires stages == if types[t].name in mappers then mappers[types[t].name] else []
      requires AllRead(types, registered, fields, t, if stages == [] then overrides else [])
      requires forall u :: u in Mentions(types, t) ==> Findable(types, registered, u) || u in building
      modifies this`registered
      ensures Valid() && old(registered) <= registered
      ensures KnownAs(t, types[t].name)
      ensures !failed ==> Covered(types, registered, outer)
    {
      var name := types[t].name;
      var tables := FindSubs(fields);
      SortedTables(registered, tables, fields);
      var known := Lookup(name);
      if known.None? || registered[known.value].id != name {
        Register(Entry(name, types[t].plural, t, overrides, fields, tables.subs, tables.arrays, tables.maps, stages,
                       types[t].listable));
      }
      ghost var i :| 0 <= i < |registered| && registered[i].id == name;
      assert Hit(registered[i], name);
      if !failed { CoveredWithout(types, registered, outer, t); }
    }

    /** AddSchema of an ID that is free. */
    method Register(e: Entry)
      requires Valid() && Exclusive(e) && e.type_ in types && !IsRegistered(registered, e.id)
      requires Below(e.subs, |registered|) && Below(e.arrays, |registered|) && Below(e.maps, |registered|)
      requires forall u :: u in Mentions(types, e.type_) ==> Findable(types, registered, u) || u in building
      requires MadeOf(types, mappers, registered, e)
      requires forall f :: Sorted(registered, Tables(e.subs, e.arrays, e.maps), f, e.fields)
      modifies this`registered
      ensures Valid() && registered == old(registered) + [e] && IsRegistered(registered, e.id)
    {
      if !failed { CoveredMore(types, registered, building, e); }
      OneMoreMade(types, mappers, registered, e);
      registered := registered + [e];
      assert registered[|registered| - 1].id == e.id;
    }
  }
}
