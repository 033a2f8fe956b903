/** Desired sets of objects and how they are applied to a cluster (pkg/objectset). */
module ObjectSet {
  import opened Text

  datatype Key = Key(namespace: string, name: string)

  type Labels = map<string, string>

  datatype Item = Item(kind: string, key: Key, labels: Labels, body: string)

  type Wanted = map<string, map<Key, Item>>

  function Of<V>(m: map<string, map<Key, V>>, kind: string): map<Key, V> { if kind in m then m[kind] else map[] }

  // -------------------------------------------------------------- building a set

  /** objectCollection.add, one object after the other. */
  function Collected(items: seq<Item>): Wanted
    decreases |items|
  {
    if items == [] then map[]
    else
      var w := Collected(items[..|items| - 1]);
      var x := items[|items| - 1];
      w[x.kind := Of(w, x.kind)[x.key := x]]
  }

  lemma {:induction false} CollectedHolds(items: seq<Item>, kind: string, key: Key)
    ensures key in Of(Collected(items), kind)
       <==> exists i :: 0 <= i < |items| && items[i].kind == kind && items[i].key == key
    ensures kind in Collected(items) <==> exists i :: 0 <= i < |items| && items[i].kind == kind
    ensures key in Of(Collected(items), kind) ==>
              Of(Collected(items), kind)[key].kind == kind && Of(Collected(items), kind)[key].key == key
    decreases |items|
  {
    if items != [] {
      var init := items[..|items| - 1];
      CollectedHolds(init, kind, key);
      assert items == init + [items[|items| - 1]];
    }
  }

  /** Of several objects with one kind and key the last counts. */
  lemma {:induction false} CollectedIsLast(items: seq<Item>, i: nat)
    requires i < |items|
    requires forall j :: i < j < |items| ==> !(items[j].kind == items[i].kind && items[j].key == items[i].key)
    ensures items[i].key in Of(Collected(items), items[i].kind)
    ensures Of(Collected(items), items[i].kind)[items[i].key] == items[i]
    decreases |items|
  {
    var init := items[..|items| - 1];
    if i < |init| {
      assert init[i] == items[i];
      CollectedIsLast(init, i);
    }
  }

  class Set {
    var namespaced: map<string, bool>
    var objects: Wanted
    var order: seq<Item>
    var errors: nat

    /** Named objects only, and each kind either always or never in a namespace. */
    ghost predicate Valid()
      reads this
    {
      && objects == Collected(order)
      && (forall x :: x in order ==> x.key.name != "")
      && (forall x :: x in order ==> x.kind in namespaced && namespaced[x.kind] == (x.key.namespace != ""))
    }

    constructor ()
      ensures Valid() && order == [] && errors == 0
    {
      namespaced, objects, order, errors := map[], map[], [], 0;
    }

    /** Whether Add takes the object. */
    ghost predicate Fits(x: Item)
      reads this
    {
      x.key.name != "" && (x.kind in namespaced ==> namespaced[x.kind] == (x.key.namespace != ""))
    }

    method Add(x: Item)
      requires Valid()
      modifies this
      ensures Valid()
      ensures order == old(order) + if old(Fits(x)) then [x] else []
      ensures errors == old(errors) + if old(Fits(x)) then 0 else 1
    {
      if x.key.name == "" {
        errors := errors + 1;
        return;
      }
      if x.kind in namespaced && namespaced[x.kind] != (x.key.namespace != "") {
        errors := errors + 1;
        return;
      }
      namespaced := namespaced[x.kind := x.key.namespace != ""];
      objects := objects[x.kind := Of(objects, x.kind)[x.key := x]];
      order := order + [x];
      assert order[..|order| - 1] == old(order);
    }
  }

  /** What a set holds never mixes objects of one kind in a namespace and out of one. */
  lemma NeverMixed(order: seq<Item>, namespaced: map<string, bool>, kind: string, a: Key, b: Key)
    requires forall x :: x in order ==> x.kind in namespaced && namespaced[x.kind] == (x.key.namespace != "")
    requires a in Of(Collected(order), kind) && b in Of(Collected(order), kind)
    ensures (a.namespace == "") == (b.namespace == "")
  {
    CollectedHolds(order, kind, a);
    CollectedHolds(order, kind, b);
    var i :| 0 <= i < |order| && order[i].kind == kind && order[i].key == a;
    var j :| 0 <= j < |order| && order[j].kind == kind && order[j].key == b;
    assert order[i] in order && order[j] in order;
  }

  // ------------------------------------------------------------- order of kinds

  /** The kinds of the objects, each where it first occurs. */
  function Firsts(order: seq<Item>): (r: seq<string>)
    decreases |order|
  {
    if order == [] then []
    else
      var r := Firsts(order[..|order| - 1]);
      var k := order[|order| - 1].kind;
      if k in r then r else r + [k]
  }

  lemma {:induction false} FirstsKinds(order: seq<Item>)
    ensures NoRepeats(Firsts(order))
    ensures forall k :: k in Firsts(order) <==> exists i :: 0 <= i < |order| && order[i].kind == k
    decreases |order|
  {
    if order != [] {
      var init := order[..|order| - 1];
      FirstsKinds(init);
      assert order == init + [order[|order| - 1]];
      forall k
        ensures k in Firsts(order) <==> exists i :: 0 <= i < |order| && order[i].kind == k
      {
        if k in Firsts(init) {
          var i :| 0 <= i < |init| && init[i].kind == k;
          assert order[i].kind == k;
        }
        if i :| 0 <= i < |order| && order[i].kind == k {
          if i < |init| { assert init[i].kind == k; }
        }
        assert order[|order| - 1].kind in Firsts(order);
      }
    }
  }

  /** gvkOrder: first the kinds of the set in their order, then the other kinds there are clients for. */
  method KindOrder(order: seq<Item>, clients: set<string>) returns (r: seq<string>)
    ensures NoRepeats(r) && Firsts(order) <= r
    ensures forall k :: k in r <==> k in Firsts(order) || k in clients
  {
    r := [];
    for i := 0 to |order|
      invariant r == Firsts(order[..i])
    {
      assert order[..i + 1][..i] == order[..i];
      if order[i].kind !in r { r := r + [order[i].kind]; }
    }
    assert order[..|order|] == order;
    FirstsKinds(order);
    var todo := clients;
    while todo != {}
      invariant todo <= clients && NoRepeats(r) && Firsts(order) <= r
      invariant forall k :: k in r <==> k in Firsts(order) || k in clients - todo
      decreases todo
    {
      var k :| k in todo;
      if k !in r { r := r + [k]; }
      todo := todo - {k};
    }
  }

  // --------------------------------------------------------------- labels

  const LABEL_HASH := "objectset.rio.cattle.io/hash"

  predicate Carries(labels: Labels, hash: string) { LABEL_HASH in labels && labels[LABEL_HASH] == hash }

  /** setLabels with the label of the set. */
  function Labelled(x: Item, hash: string): Item { x.(labels := x.labels[LABEL_HASH := hash]) }

  function AllLabelled(m: map<Key, Item>, hash: string): map<Key, Item> { map k | k in m :: Labelled(m[k], hash) }

  /** The label is all that changes. */
  lemma LabelledKeeps(m: map<Key, Item>, hash: string, k: Key)
    requires k in m
    ensures AllLabelled(m, hash).Keys == m.Keys
    ensures var x, y := m[k], AllLabelled(m, hash)[k];
            && y == Item(x.kind, x.key, y.labels, x.body)
            && Carries(y.labels, hash) && y.labels.Keys == x.labels.Keys + {LABEL_HASH}
            && forall l :: l in x.labels && l != LABEL_HASH ==> y.labels[l] == x.labels[l]
  {
  }

  /** The collection stands under the kinds and keys of its objects. */
  ghost predicate WellKeyed(w: Wanted) {
    forall kind, k :: kind in w && k in w[kind] ==> w[kind][k].kind == kind && w[kind][k].key == k
  }

  lemma CollectedOneMore(list: seq<Item>, x: Item)
    ensures Collected(list + [x]) == Collected(list)[x.kind := Of(Collected(list), x.kind)[x.key := x]]
  {
    assert (list + [x])[..|list|] == list;
  }

  lemma LabelledOneMore(m: map<Key, Item>, todo: set<Key>, k: Key, hash: string)
    requires k in m && k in todo
    ensures AllLabelled(m - (todo - {k}), hash) == AllLabelled(m - todo, hash)[k := Labelled(m[k], hash)]
  {
  }

  /** injectLabelsAndAnnotations: every object of the set once, with the label, in any order. */
  method InjectLabels(w: Wanted, hash: string) returns (list: seq<Item>)
    requires WellKeyed(w)
    ensures forall kind :: Of(Collected(list), kind) == AllLabelled(Of(w, kind), hash)
  {
    list := [];
    var kinds := w.Keys;
    while kinds != {}
      invariant kinds <= w.Keys
      invariant forall kind ::
                  Of(Collected(list), kind) == if kind in kinds then map[] else AllLabelled(Of(w, kind), hash)
      decreases kinds
    {
      var kind :| kind in kinds;
      list := InjectKind(list, kind, w[kind], hash);
      kinds := kinds - {kind};
    }
  }

  method InjectKind(before: seq<Item>, kind: string, m: map<Key, Item>, hash: string) returns (list: seq<Item>)
    requires Of(Collected(before), kind) == map[]
    requires forall k :: k in m ==> m[k].kind == kind && m[k].key == k
    ensures forall other :: other != kind ==> Of(Collected(list), other) == Of(Collected(before), other)
    ensures Of(Collected(list), kind) == AllLabelled(m, hash)
  {
    list := before;
    var todo := m.Keys;
    while todo != {}
      invariant todo <= m.Keys
      invariant forall other :: other != kind ==> Of(Collected(list), other) == Of(Collected(before), other)
      invariant Of(Collected(list), kind) == AllLabelled(m - todo, hash)
      decreases todo
    {
      var k :| k in todo;
      var x := Labelled(m[k], hash);
      CollectedOneMore(list, x);
      LabelledOneMore(m, todo, k, hash);
      list := list + [x];
      todo := todo - {k};
    }
    assert m - todo == m;
  }

  // ------------------------------------------------------------ one kind applied

  /** What the cluster holds of an object. */
  datatype Stored = Stored(labels: Labels, body: string)

  type Objects = map<Key, Stored>

  function Owned(c: Objects, hash: string): set<Key> { set k | k in c && Carries(c[k].labels, hash) }

  /** A three-way patch of what is there towards what is wanted. */
  type Patch = (Stored, Item) -> Stored

  /** A patch gives an object the labels that are wanted of it, whatever else it does. */
  ghost predicate Establishes(patch: Patch) {
    forall s: Stored, x: Item, l :: l in x.labels ==> l in patch(s, x).labels && patch(s, x).labels[l] == x.labels[l]
  }

  function Result(c: Objects, x: Item, patch: Patch, k: Key): Stored {
    if k in c then patch(c[k], x) else Stored(x.labels, x.body)
  }

  /** The objects of a kind after the set was applied. */
  function Applied(c: Objects, hash: string, wanted: map<Key, Item>, patch: Patch): Objects {
    (map k | k in c && (!Carries(c[k].labels, hash) || k in wanted) :: c[k])
    + (map k | k in wanted :: Result(c, wanted[k], patch, k))
  }

  /** Key by key: what is wanted and not there is created as it is wanted, what is wanted and there is patched,
      what is the set's and not wanted is gone, and nothing else changes. */
  lemma AppliedAt(c: Objects, hash: string, wanted: map<Key, Item>, patch: Patch, k: Key)
    ensures var a := Applied(c, hash, wanted, patch);
            && (k in wanted && k !in c ==> k in a && a[k].labels == wanted[k].labels && a[k].body == wanted[k].body)
            && (k in wanted && k in c ==> k in a && a[k] == patch(c[k], wanted[k]))
            && (k !in wanted && k in c && Carries(c[k].labels, hash) ==> k !in a)
            && (k !in wanted && !(k in c && Carries(c[k].labels, hash)) ==>
                  (k in a <==> k in c) && (k in c ==> a[k] == c[k]))
  {
  }

  ghost predicate HasLabels(wanted: map<Key, Item>, hash: string) {
    forall k :: k in wanted ==> Carries(wanted[k].labels, hash)
  }

  /** After it, the set's label is on wanted objects only. */
  lemma OwnsOnlyTheWanted(c: Objects, hash: string, wanted: map<Key, Item>, patch: Patch)
    ensures Owned(Applied(c, hash, wanted, patch), hash) <= wanted.Keys
  {
  }

  /** Whether x ends up with the label: it came with it, or it came with none and the patch left it on. */
  ghost predicate Marked(c: Objects, hash: string, x: Item, patch: Patch, k: Key) {
    if LABEL_HASH in x.labels then x.labels[LABEL_HASH] == hash else k in c && Carries(patch(c[k], x).labels, hash)
  }

  /** After it, the set's label is on exactly the wanted objects that are marked. */
  lemma OwnsTheMarked(c: Objects, hash: string, wanted: map<Key, Item>, patch: Patch)
    requires Establishes(patch)
    ensures Owned(Applied(c, hash, wanted, patch), hash) == set k | k in wanted && Marked(c, hash, wanted[k], patch, k)
  {
    OwnsOnlyTheWanted(c, hash, wanted, patch);
    var a := Applied(c, hash, wanted, patch);
    forall k | k in wanted
      ensures k in Owned(a, hash) <==> Marked(c, hash, wanted[k], patch, k)
    {
      assert a[k] == Result(c, wanted[k], patch, k);
    }
  }

  /** It is on all of them if they were labelled. */
  lemma OwnsTheWanted(c: Objects, hash: string, wanted: map<Key, Item>, patch: Patch)
    requires Establishes(patch) && HasLabels(wanted, hash)
    ensures Owned(Applied(c, hash, wanted, patch), hash) == wanted.Keys
  {
    OwnsTheMarked(c, hash, wanted, patch);
  }

  /** A patch makes up no label: what is there afterwards was wanted or there before. */
  ghost predicate AddsNone(patch: Patch) {
    forall s: Stored, x: Item, l ::
      l in patch(s, x).labels && l !in x.labels ==> l in s.labels && s.labels[l] == patch(s, x).labels[l]
  }

  /**
   An object that comes without the label, created or patched, is not the set's unless it was before. So it
   is never deleted: it stays when a later Apply does not want it any more.
   */
  lemma UnlabelledIsLeftBehind(c: Objects, hash: string, wanted: map<Key, Item>, later: map<Key, Item>, patch: Patch,
                               k: Key)
    requires Establishes(patch) && AddsNone(patch)
    requires k in wanted && !Carries(wanted[k].labels, hash) && k !in Owned(c, hash) && k !in later
    ensures var a := Applied(c, hash, wanted, patch);
            k !in Owned(a, hash) && k in Applied(a, hash, later, patch) && Applied(a, hash, later, patch)[k] == a[k]
  {
    OwnsTheMarked(c, hash, wanted, patch);
  }

  /** Applying again changes nothing exactly when patching each object again changes nothing. */
  lemma AppliedTwice(c: Objects, hash: string, wanted: map<Key, Item>, patch: Patch)
    ensures var a := Applied(c, hash, wanted, patch);
            (Applied(a, hash, wanted, patch) == a <==> forall k :: k in wanted ==> patch(a[k], wanted[k]) == a[k])
  {
    var a := Applied(c, hash, wanted, patch);
    var b := Applied(a, hash, wanted, patch);
    OwnsOnlyTheWanted(c, hash, wanted, patch);
    assert forall k :: k in wanted ==> k in a && b[k] == patch(a[k], wanted[k]);
    forall k | k in a && k !in wanted
      ensures k in b && b[k] == a[k]
    {
      assert k !in Owned(a, hash);
    }
    assert b.Keys == a.Keys;
    if forall k :: k in wanted ==> patch(a[k], wanted[k]) == a[k] {
      forall k | k in a
        ensures b[k] == a[k]
      {
      }
    }
  }

  /** The sorting of the three lists is left open. */
  method CompareSets(existing: set<Key>, wanted: set<Key>)
    returns (toCreate: seq<Key>, toDelete: seq<Key>, toUpdate: seq<Key>)
    ensures Enumerates(toCreate, wanted - existing)
    ensures Enumerates(toDelete, existing - wanted)
    ensures Enumerates(toUpdate, existing * wanted)
  {
    toCreate, toDelete, toUpdate := [], [], [];
    var todo := wanted;
    while todo != {}
      invariant todo <= wanted
      invariant Enumerates(toCreate, (wanted - todo) - existing) && Enumerates(toUpdate, existing * (wanted - todo))
      decreases todo
    {
      var k :| k in todo;
      if k in existing {
        Appended(toUpdate, existing * (wanted - todo), k);
        assert existing * (wanted - (todo - {k})) == existing * (wanted - todo) + {k};
        assert (wanted - (todo - {k})) - existing == (wanted - todo) - existing;
        toUpdate := toUpdate + [k];
      } else {
        Appended(toCreate, (wanted - todo) - existing, k);
        assert (wanted - (todo - {k})) - existing == (wanted - todo) - existing + {k};
        assert existing * (wanted - (todo - {k})) == existing * (wanted - todo);
        toCreate := toCreate + [k];
      }
      todo := todo - {k};
    }
    assert wanted - todo == wanted;
    todo := existing;
    while todo != {}
      invariant todo <= existing
      invariant Enumerates(toDelete, (existing - todo) - wanted)
      decreases todo
    {
      var k :| k in todo;
      if k !in wanted {
        Appended(toDelete, (existing - todo) - wanted, k);
        assert (existing - (todo - {k})) - wanted == (existing - todo) - wanted + {k};
        toDelete := toDelete + [k];
      } else {
        assert (existing - (todo - {k})) - wanted == (existing - todo) - wanted;
      }
      todo := todo - {k};
    }
    assert existing - todo == existing;
  }

  /** Which calls to the server fail. */
  datatype Faults = Faults(create: set<Key>, get: set<Key>, patch: set<Key>, delete: set<Key>)

  /** Nothing but wanted objects and objects that carry the label was touched. */
  ghost predicate Contained(c: Objects, c': Objects, hash: string, wanted: set<Key>) {
    forall k :: ContainedAt(c, c', hash, wanted, k)
  }

  ghost predicate ContainedAt(c: Objects, c': Objects, hash: string, wanted: set<Key>, k: Key) {
    || ((k in c' <==> k in c) && (k in c ==> c'[k] == c[k]))
    || (k in wanted && k in c')
    || (k !in wanted && k in c && Carries(c[k].labels, hash) && k !in c')
  }

  ghost predicate Creations(c: Objects, c': Objects, wanted: map<Key, Item>, updates: seq<Key>, created: set<Key>,
                            failed: bool)
  {
    && c'.Keys == c.Keys + created && created !! c.Keys && created <= wanted.Keys
    && (forall k :: k in c' ==> c'[k] == if k in c then c[k] else Stored(wanted[k].labels, wanted[k].body))
    && NoRepeats(updates) && (forall k :: k in updates ==> k in c && k in wanted)
    && (!failed ==> c'.Keys == c.Keys + wanted.Keys && forall k :: k in c && k in wanted ==> k in updates)
  }

  ghost predicate Patches(c: Objects, c': Objects, wanted: map<Key, Item>, patch: Patch, updates: seq<Key>,
                          faults: Faults)
  {
    && c'.Keys == c.Keys
    && (forall k :: k in updates ==> k in c && k in wanted)
    && (forall k :: k in c && (k !in updates || k in faults.patch) ==> c'[k] == c[k])
    && (forall k :: k in updates && k !in faults.patch ==> c'[k] == patch(c[k], wanted[k]))
  }

  /** The creations: an object that is there but not ours goes over to the updates. */
  method CreateAll(c: Objects, hash: string, wanted: map<Key, Item>, toCreate: seq<Key>, toUpdate: seq<Key>,
                   faults: Faults)
    returns (c': Objects, updates: seq<Key>, created: set<Key>, failed: bool)
    requires Enumerates(toCreate, wanted.Keys - Owned(c, hash)) && Enumerates(toUpdate, Owned(c, hash) * wanted.Keys)
    ensures Creations(c, c', wanted, updates, created, failed)
  {
    c', updates, created, failed := c, toUpdate, {}, false;
    Enumerated(toCreate, wanted.Keys - Owned(c, hash));
    Enumerated(toUpdate, Owned(c, hash) * wanted.Keys);
    for i := 0 to |toCreate|
      invariant c'.Keys == c.Keys + created && created !! c.Keys && created <= wanted.Keys
      invariant forall k :: k in c' ==> c'[k] == if k in c then c[k] else Stored(wanted[k].labels, wanted[k].body)
      invariant forall k :: k in updates <==> k in toUpdate || (k in c && k in updates && k in toCreate[..i])
      invariant NoRepeats(updates) && forall k :: k in updates ==> k in c && k in wanted
      invariant forall k :: k in created ==> k in toCreate[..i]
      invariant !failed ==> forall k :: k in toCreate[..i] ==> if k in c then k in updates else k in c'
    {
      var k := toCreate[i];
      assert toCreate[..i + 1] == toCreate[..i] + [k];
      assert k in toCreate && k !in toCreate[..i] && k in wanted && k !in Owned(c, hash);
      if k in faults.create {
        failed := true;
      } else if k in c' {
        if k in faults.get { failed := true; } else { updates := updates + [k]; }
      } else {
        c', created := c'[k := Stored(wanted[k].labels, wanted[k].body)], created + {k};
      }
    }
    assert toCreate[..|toCreate|] == toCreate;
  }

  method PatchAll(c: Objects, wanted: map<Key, Item>, patch: Patch, updates: seq<Key>, faults: Faults)
    returns (c': Objects, failed: bool)
    requires NoRepeats(updates) && forall k :: k in updates ==> k in c && k in wanted
    ensures Patches(c, c', wanted, patch, updates, faults)
    ensures failed <==> exists k :: k in updates && k in faults.patch
  {
    c', failed := c, false;
    for i := 0 to |updates|
      invariant c'.Keys == c.Keys
      invariant forall k :: k in c && (k !in updates[..i] || k in faults.patch) ==> c'[k] == c[k]
      invariant forall k :: k in updates[..i] && k !in faults.patch ==> c'[k] == patch(c[k], wanted[k])
      invariant failed <==> exists k :: k in updates[..i] && k in faults.patch
    {
      var k := updates[i];
      assert updates[..i + 1] == updates[..i] + [k];
      assert k !in updates[..i];
      if k in faults.patch { failed := true; } else { c' := c'[k := patch(c'[k], wanted[k])]; }
    }
    assert updates[..|updates|] == updates;
  }

  method DeleteAll(c: Objects, toDelete: seq<Key>, faults: Faults) returns (c': Objects, failed: bool)
    ensures c' == map k | k in c && (k !in toDelete || k in faults.delete) :: c[k]
    ensures failed <==> exists k :: k in toDelete && k in faults.delete
  {
    c', failed := c, false;
    for i := 0 to |toDelete|
      invariant c' == map k | k in c && (k !in toDelete[..i] || k in faults.delete) :: c[k]
      invariant failed <==> exists k :: k in toDelete[..i] && k in faults.delete
    {
      assert toDelete[..i + 1] == toDelete[..i] + [toDelete[i]];
      if toDelete[i] in faults.delete { failed := true; } else { c' := c' - {toDelete[i]}; }
    }
    assert toDelete[..|toDelete|] == toDelete;
  }

  /** What a round did: the objects it created, and those it asked to delete. */
  datatype Done = Done(created: set<Key>, deleted: set<Key>)

  /** One round as the three loops leave it. */
  datatype Round = Round(c1: Objects, c2: Objects, c3: Objects, updates: seq<Key>, done: Done)

  ghost predicate IsRound(c: Objects, hash: string, wanted: map<Key, Item>, patch: Patch, faults: Faults, r: Round,
                          failed: bool)
  {
    && Creations(c, r.c1, wanted, r.updates, r.done.created, failed)
    && Patches(r.c1, r.c2, wanted, patch, r.updates, faults)
    && r.done.deleted == Owned(c, hash) - wanted.Keys
    && r.c3 == (map k | k in r.c2 && (k !in r.done.deleted || k in faults.delete) :: r.c2[k])
    && (!failed ==> (forall k :: k in r.updates ==> k !in faults.patch)
                    && (forall k :: k in r.done.deleted ==> k !in faults.delete))
  }

  lemma RoundContained(c: Objects, hash: string, wanted: map<Key, Item>, patch: Patch, faults: Faults, r: Round,
                       failed: bool)
    requires IsRound(c, hash, wanted, patch, faults, r, failed)
    ensures Contained(c, r.c3, hash, wanted.Keys)
    ensures r.done.created == r.c3.Keys - c.Keys && c.Keys - r.c3.Keys <= r.done.deleted
  {
    forall k
      ensures ContainedAt(c, r.c3, hash, wanted.Keys, k)
    {
    }
  }

  lemma RoundApplies(c: Objects, hash: string, wanted: map<Key, Item>, patch: Patch, faults: Faults, r: Round)
    requires IsRound(c, hash, wanted, patch, faults, r, false)
    ensures r.c3 == Applied(c, hash, wanted, patch)
  {
    var goal := Applied(c, hash, wanted, patch);
    forall k
      ensures k in r.c3 <==> k in goal
      ensures k in r.c3 ==> r.c3[k] == goal[k]
    {
      if k in wanted && k in c { assert k in r.updates; }
    }
    assert r.c3.Keys == goal.Keys;
  }

  /** process: the objects of one kind. Every failure is reported, and the other objects are still served. */
  method Process(c: Objects, hash: string, wanted: map<Key, Item>, patch: Patch, faults: Faults)
    returns (c': Objects, done: Done, failed: bool)
    ensures !failed ==> c' == Applied(c, hash, wanted, patch)
    ensures Contained(c, c', hash, wanted.Keys)
    ensures done.created == c'.Keys - c.Keys && c.Keys - c'.Keys <= done.deleted
    ensures done.created <= wanted.Keys && done.deleted == Owned(c, hash) - wanted.Keys
  {
    var toCreate, toDelete, toUpdate := CompareSets(Owned(c, hash), wanted.Keys);
    var c1, updates, created, f1 := CreateAll(c, hash, wanted, toCreate, toUpdate, faults);
    var c2, f2 := PatchAll(c1, wanted, patch, updates, faults);
    var f3;
    c', f3 := DeleteAll(c2, toDelete, faults);
    failed, done := f1 || f2 || f3, Done(created, Elements(toDelete));
    ghost var r := Round(c1, c2, c', updates, done);
    assert done.deleted == Owned(c, hash) - wanted.Keys;
    assert IsRound(c, hash, wanted, patch, faults, r, failed);
    RoundContained(c, hash, wanted, patch, faults, r, failed);
    if !failed { RoundApplies(c, hash, wanted, patch, faults, r); }
  }

  // ------------------------------------------------------------------- all kinds

  type Cluster = map<string, Objects>

  method Collect(items: seq<Item>) returns (w: Wanted)
    ensures w == Collected(items)
  {
    w := map[];
    for i := 0 to |items|
      invariant w == Collected(items[..i])
    {
      assert items[..i + 1][..i] == items[..i];
      w := w[items[i].kind := Of(w, items[i].kind)[items[i].key := items[i]]];
    }
    assert items[..|items|] == items;
  }

  /** The set as it is, and what its surroundings decide: the injectors (None is an error), the kinds there
      are clients for or that can be discovered, the rate limit. */
  datatype Request = Request(hash: string, order: seq<Item>, errors: nat, inject: seq<Item> -> Option<seq<Item>>,
                             clients: set<string>, served: set<string>, accepted: bool)

  /** The kinds Apply goes through: those of the set, and those there are clients for. */
  function Visited(r: Request): set<string> { Elements(Firsts(r.order)) + r.clients }

  /** The labelled objects of the set, in some order, went through the injectors. */
  ghost predicate IsWanted(r: Request, list: seq<Item>, wanted: Wanted) {
    && (forall kind :: Of(Collected(list), kind) == AllLabelled(Of(Collected(r.order), kind), r.hash))
    && r.inject(list).Some? && wanted == Collected(r.inject(list).value)
  }

  lemma {:induction false} CollectedIsWellKeyed(items: seq<Item>)
    ensures WellKeyed(Collected(items))
    decreases |items|
  {
    if items != [] { CollectedIsWellKeyed(items[..|items| - 1]); }
  }

  function DoneTo(done: map<string, Done>, kind: string): Done { if kind in done then done[kind] else Done({}, {}) }

  /** What became of each kind when these were visited: no object that is neither wanted nor labelled is
      touched, no other kind at all, what was created was wanted, what was deleted labelled and not wanted. */
  ghost predicate Served(c: Cluster, c': Cluster, hash: string, wanted: Wanted, visited: set<string>,
                         done: map<string, Done>)
  {
    forall kind :: ServedKind(Of(c, kind), Of(c', kind), hash, Of(wanted, kind), kind in visited, DoneTo(done, kind))
  }

  ghost predicate ServedKind(c: Objects, c': Objects, hash: string, wanted: map<Key, Item>, visited: bool, done: Done) {
    && Contained(c, c', hash, wanted.Keys)
    && (!visited ==> c' == c && done == Done({}, {}))
    && done.created == c'.Keys - c.Keys && c.Keys - c'.Keys <= done.deleted
    && done.created <= wanted.Keys && done.deleted <= Owned(c, hash) - wanted.Keys
  }

  lemma NothingServed(c: Cluster, hash: string, wanted: Wanted, visited: set<string>)
    ensures Served(c, c, hash, wanted, visited, map[])
  {
  }

  lemma OneMoreServed(c: Cluster, c': Cluster, hash: string, wanted: Wanted, visited: set<string>,
                      done: map<string, Done>, kind: string, after: Objects, d: Done)
    requires Served(c, c', hash, wanted, visited, done)
    requires ServedKind(Of(c, kind), after, hash, Of(wanted, kind), true, d)
    ensures Served(c, c'[kind := after], hash, wanted, visited + {kind}, done[kind := d])
  {
    forall k
      ensures ServedKind(Of(c, k), Of(c'[kind := after], k), hash, Of(wanted, k), k in visited + {kind},
                         DoneTo(done[kind := d], k))
    {
      assert ServedKind(Of(c, k), Of(c', k), hash, Of(wanted, k), k in visited, DoneTo(done, k));
    }
  }

  /** The loop over the kinds; one that no client serves is an error. */
  method ApplyKinds(c: Cluster, hash: string, kinds: seq<string>, served: set<string>, wanted: Wanted, patch: Patch,
                    faults: string -> Faults)
    returns (c': Cluster, done: map<string, Done>, failed: bool)
    requires NoRepeats(kinds)
    ensures Served(c, c', hash, wanted, Elements(kinds), done)
    ensures !failed ==> forall kind :: kind in kinds ==>
              Of(c', kind) == Applied(Of(c, kind), hash, Of(wanted, kind), patch)
  {
    c', done, failed := c, map[], false;
    NothingServed(c, hash, wanted, {});
    for i := 0 to |kinds|
      invariant Served(c, c', hash, wanted, Elements(kinds[..i]), done)
      invariant forall kind :: kind !in kinds[..i] ==> Of(c', kind) == Of(c, kind)
      invariant !failed ==> forall kind :: kind in kinds[..i] ==>
                  Of(c', kind) == Applied(Of(c, kind), hash, Of(wanted, kind), patch)
    {
      var kind := kinds[i];
      ghost var visited := Elements(kinds[..i]);
      assert kinds[..i + 1] == kinds[..i] + [kind];
      assert Elements(kinds[..i + 1]) == visited + {kind};
      var after, d, f := Of(c', kind), Done({}, {}), true;
      if kind in served { after, d, f := Process(Of(c', kind), hash, Of(wanted, kind), patch, faults(kind)); }
      OneMoreServed(c, c', hash, wanted, visited, done, kind, after, d);
      c', done, failed := c'[kind := after], done[kind := d], failed || f;
    }
    assert kinds[..|kinds|] == kinds;
  }

  /** Apply. Without an error every visited kind is applied; with or without, only what may be touched was. */
  method Apply(c: Cluster, r: Request, patch: Patch, faults: string -> Faults)
    returns (c': Cluster, done: map<string, Done>, failed: bool, ghost list: seq<Item>, ghost wanted: Wanted)
    ensures IsWanted(r, list, wanted) || (failed && c' == c && done == map[])
    ensures !failed ==> forall kind :: kind in Visited(r) ==>
              Of(c', kind) == Applied(Of(c, kind), r.hash, Of(wanted, kind), patch)
    ensures Served(c, c', r.hash, wanted, Visited(r), done)
    ensures r.errors > 0 || !r.accepted ==> failed && c' == c
  {
    c', done, failed, list, wanted := c, map[], true, [], map[];
    NothingServed(c, r.hash, wanted, Visited(r));
    if r.errors > 0 || !r.accepted { return; }
    CollectedIsWellKeyed(r.order);
    var objects := Collect(r.order);
    var labelled := InjectLabels(objects, r.hash);
    var injected := r.inject(labelled);
    if injected.None? { return; }
    var all := Collect(injected.value);
    list, wanted := labelled, all;
    var kinds := KindOrder(r.order, r.clients);
    assert Elements(kinds) == Visited(r);
    c', done, failed := ApplyKinds(c, r.hash, kinds, r.served, all, patch, faults);
  }

  // ------------------------------------------------------------ what it amounts to

  ghost predicate NoInjectors(r: Request) { forall list :: r.inject(list) == Some(list) }

  /** Without injectors what is wanted are the objects of the set, labelled. */
  lemma WantedIsTheSet(r: Request, list: seq<Item>, wanted: Wanted, kind: string)
    requires NoInjectors(r) && IsWanted(r, list, wanted)
    ensures Of(wanted, kind) == AllLabelled(Of(Collected(r.order), kind), r.hash)
    ensures HasLabels(Of(wanted, kind), r.hash) && Of(wanted, kind).Keys == Of(Collected(r.order), kind).Keys
  {
  }

  /** After an Apply without errors the set's label is on exactly the wanted objects of every visited kind,
      as long as the injectors left it on them. */
  lemma ApplyOwnsTheWanted(c: Cluster, c': Cluster, r: Request, patch: Patch, wanted: Wanted, kind: string)
    requires Establishes(patch) && HasLabels(Of(wanted, kind), r.hash)
    requires Of(c', kind) == Applied(Of(c, kind), r.hash, Of(wanted, kind), patch)
    ensures Owned(Of(c', kind), r.hash) == Of(wanted, kind).Keys
  {
    OwnsTheWanted(Of(c, kind), r.hash, Of(wanted, kind), patch);
  }

  /** Without injectors, after an Apply without errors each object of the set that was not there is there, with
      its body, its labels and that of the set; of several with one kind and key the last. */
  lemma ApplyCreates(c: Cluster, c': Cluster, r: Request, patch: Patch, list: seq<Item>, wanted: Wanted, i: nat)
    requires NoInjectors(r) && IsWanted(r, list, wanted) && i < |r.order|
    requires forall j :: i < j < |r.order| ==> !(r.order[j].kind == r.order[i].kind && r.order[j].key == r.order[i].key)
    requires var kind := r.order[i].kind; Of(c', kind) == Applied(Of(c, kind), r.hash, Of(wanted, kind), patch)
    requires r.order[i].key !in Of(c, r.order[i].kind)
    ensures var x, now := r.order[i], Of(c', r.order[i].kind);
            && x.key in now && now[x.key].body == x.body && Carries(now[x.key].labels, r.hash)
            && forall l :: l in x.labels && l != LABEL_HASH ==>
                 l in now[x.key].labels && now[x.key].labels[l] == x.labels[l]
  {
    var x := r.order[i];
    CollectedIsLast(r.order, i);
    WantedIsTheSet(r, list, wanted, x.kind);
    LabelledKeeps(Of(Collected(r.order), x.kind), r.hash, x.key);
    AppliedAt(Of(c, x.kind), r.hash, Of(wanted, x.kind), patch, x.key);
  }

  /** A round on a kind of which the set already owns exactly what it wants creates and deletes nothing. */
  lemma SecondRoundIsIdle(c: Objects, c': Objects, hash: string, wanted: map<Key, Item>, visited: bool, done: Done)
    requires ServedKind(c, c', hash, wanted, visited, done)
    requires visited ==> Owned(c, hash) == wanted.Keys
    ensures done == Done({}, {}) && c'.Keys == c.Keys
  {
    if visited {
      forall k
        ensures k in c' <==> k in c
      {
        assert k in c'.Keys - c.Keys <==> k in done.created;
        assert k in c.Keys - c'.Keys ==> k in done.deleted;
      }
    }
  }

  /** Two rounds: after the first without errors the set owns exactly its objects, and the second creates
      and deletes nothing, whatever fails in it. */
  method ApplyTwice(c: Cluster, r: Request, patch: Patch, faults: string -> Faults, again: string -> Faults)
    returns (c1: Cluster, failed: bool, c2: Cluster, done: map<string, Done>)
    requires Establishes(patch) && NoInjectors(r)
    ensures !failed ==> forall kind :: kind in Visited(r) ==>
              Owned(Of(c1, kind), r.hash) == Of(Collected(r.order), kind).Keys
    ensures !failed ==> forall kind :: DoneTo(done, kind) == Done({}, {}) && Of(c2, kind).Keys == Of(c1, kind).Keys
  {
    var d1, f2;
    ghost var list1, wanted1, list2, wanted2;
    c1, d1, failed, list1, wanted1 := Apply(c, r, patch, faults);
    c2, done, f2, list2, wanted2 := Apply(c1, r, patch, again);
    if !failed {
      forall kind | kind in Visited(r)
        ensures Owned(Of(c1, kind), r.hash) == Of(Collected(r.order), kind).Keys
      {
        WantedIsTheSet(r, list1, wanted1, kind);
        ApplyOwnsTheWanted(c, c1, r, patch, wanted1, kind);
      }
      forall kind
        ensures DoneTo(done, kind) == Done({}, {}) && Of(c2, kind).Keys == Of(c1, kind).Keys
      {
        if IsWanted(r, list2, wanted2) {
          WantedIsTheSet(r, list2, wanted2, kind);
          SecondRoundIsIdle(Of(c1, kind), Of(c2, kind), r.hash, Of(wanted2, kind), kind in Visited(r),
                            DoneTo(done, kind));
        }
      }
    }
  }
}
