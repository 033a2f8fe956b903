/** The Embed stage (types/mapper/embed.go) and the pipeline of stages (types/mapper.go, Mappers). */
module Pipeline {
  import opened Text
  import opened Values
  import opened Moves
  import opened Unordered
  import Slices

  // ------------------------------------------------------------------ Embed

  function Restrict(m: Object, keys: set<string>): Object { map k | k in m && k in keys :: m[k] }

  /** FromInternal: the embedded fields go up, over what is there, and the field itself is dropped. */
  function EmbedFrom(d: Object, field: string, embedded: set<string>): Object {
    (d + Restrict(Sub(d, field), embedded)) - {field}
  }

  /** ToInternal: the embedded fields go down again. */
  function EmbedTo(d: Object, field: string, embedded: set<string>, emptyOk: bool): Object {
    var sub := Restrict(d, embedded);
    var rest := d - embedded;
    if sub == map[] then (if emptyOk then rest[field := Null] else rest) else rest[field := Map(sub)]
  }

  /** When Embed there and back gives the data again, as a caller can check it beforehand. */
  ghost predicate Embeddable(d: Object, field: string, embedded: set<string>, emptyOk: bool) {
    var names := embedded - {field};
    && d.Keys !! names
    && (if field in d && d[field].Map? && !(d[field].fields.Keys !! names) then d[field].fields.Keys <= names
        else if emptyOk then field in d && d[field] == Null
        else field !in d)
  }

  lemma EmbedRoundTrip(d: Object, field: string, embedded: set<string>, emptyOk: bool)
    ensures EmbedTo(EmbedFrom(d, field, embedded), field, embedded, emptyOk) == d
        <==> Embeddable(d, field, embedded, emptyOk)
  {
    var names := embedded - {field};
    var e := EmbedFrom(d, field, embedded);
    var back := EmbedTo(e, field, embedded, emptyOk);
    if !(d.Keys !! names) {
      var k :| k in d && k in names;
      assert k !in back;
    } else {
      EmbedGathers(d, field, embedded, emptyOk);
    }
  }

  /** With no name taken, what comes back under the field is the embedded part of what was there. */
  lemma EmbedGathers(d: Object, field: string, embedded: set<string>, emptyOk: bool)
    requires d.Keys !! embedded - {field}
    ensures EmbedTo(EmbedFrom(d, field, embedded), field, embedded, emptyOk) == d
        <==> Embeddable(d, field, embedded, emptyOk)
  {
    var names := embedded - {field};
    var sub := Restrict(Sub(d, field), names);
    var e := EmbedFrom(d, field, embedded);
    assert Restrict(e, embedded) == sub;
    assert e - embedded == d - {field};
    var back := EmbedTo(e, field, embedded, emptyOk);
    FieldOf(d, field, names, sub);
    if back == d {
      if sub != map[] { assert back[field] == Map(sub); }
    } else if field in d {
      assert (d - {field})[field := d[field]] == d;
    } else {
      assert d - {field} == d;
    }
  }

  lemma FieldOf(d: Object, field: string, names: set<string>, sub: Object)
    requires sub == Restrict(Sub(d, field), names)
    ensures sub == map[] <==> !(field in d && d[field].Map? && !(d[field].fields.Keys !! names))
    ensures sub != map[] ==> (d[field] == Map(sub) <==> d[field].fields.Keys <= names)
  {
    if field in d && d[field].Map? && !(d[field].fields.Keys !! names) {
      var k :| k in d[field].fields && k in names;
      assert k in sub;
    }
    if sub != map[] {
      var k :| k in sub;
      assert k in d[field].fields && k in names;
      if d[field].fields.Keys <= names { assert sub == d[field].fields; }
    }
  }

  // ----------------------------------------------------------------- stages

  datatype Stage = Move(from: seq<string>, to: seq<string>)
                 | Batch(moves: seq<Moving>)
                 | Embed(field: string, embedded: seq<string>, emptyOk: bool)
                 | SliceToMap(field: string, key: string)

  function From(stage: Stage, d: Object): Object {
    match stage
    case Move(from, to) => MoveValue(d, from, to)
    case Batch(moves) => BatchFrom(d, moves)
    case Embed(field, embedded, _) => EmbedFrom(d, field, Elements(embedded))
    case SliceToMap(field, key) => Slices.FromInternal(d, field, key)
  }

  /** ToInternal may make r of d: each time SliceToMap ranges over a map, it meets the entries in any order. */
  ghost predicate To(stage: Stage, d: Object, r: Object) {
    match stage
    case Move(from, to) => r == MoveValue(d, to, from)
    case Batch(moves) => r == BatchTo(d, moves)
    case Embed(field, embedded, emptyOk) => r == EmbedTo(d, field, Elements(embedded), emptyOk)
    case SliceToMap(field, key) => exists order :: Slices.Ranged(d, field, key, order, r)
  }

  function FromAll(stages: seq<Stage>, d: Object): Object
    decreases |stages|
  {
    if stages == [] then d else FromAll(stages[1..], From(stages[0], d))
  }

  /** The last stage is undone first. */
  ghost predicate ToAll(stages: seq<Stage>, d: Object, r: Object)
    decreases |stages|
  {
    if stages == [] then r == d else exists e :: ToAll(stages[1..], d, e) && To(stages[0], e, r)
  }

  /** ToInternal always comes to some result. */
  lemma Ends(stage: Stage, d: Object) returns (r: Object)
    ensures To(stage, d, r)
  {
    match stage
    case Move(from, to) => r := MoveValue(d, to, from);
    case Batch(moves) => r := BatchTo(d, moves);
    case Embed(field, embedded, emptyOk) => r := EmbedTo(d, field, Elements(embedded), emptyOk);
    case SliceToMap(field, key) =>
      var order := AnOrder(if field in d && d[field].Map? then d[field].fields.Keys else {});
      r := Slices.ToInternal(d, field, key, order);
      assert Slices.Ranged(d, field, key, order, r);
  }

  // -------------------------------------------------------------- what the stages do

  /** Move there: a value that can move is found at its destination and not where it was. */
  lemma MovesUp(from: seq<string>, to: seq<string>, d: Object)
    requires Apart(from, to)
    ensures var r := From(Move(from, to), d);
            && GetValue(r, from).None?
            && (GetValue(d, from).Some? && !Blocked(d, to) ==> GetValue(r, to) == GetValue(d, from))
  {
    MoveArrives(d, from, to);
  }

  /** BatchMove there: the same for each of its moves. */
  lemma BatchesUp(moves: seq<Moving>, i: nat, d: Object)
    requires AllApart(moves) && i < |moves|
    ensures var r, m := From(Batch(moves), d), moves[i];
            && GetValue(r, m.from).None?
            && (GetValue(d, m.from).Some? && !Blocked(d, m.to) ==> GetValue(r, m.to) == GetValue(d, m.from))
  {
    BatchArrives(d, moves, i);
  }

  /** Move back: the same the other way. */
  lemma MovesDown(from: seq<string>, to: seq<string>, d: Object, r: Object)
    requires Apart(from, to) && To(Move(from, to), d, r)
    ensures GetValue(r, to).None?
    ensures GetValue(d, to).Some? && !Blocked(d, from) ==> GetValue(r, from) == GetValue(d, to)
  {
    MoveArrives(d, to, from);
  }

  /** Embed there: the field is gone, its embedded entries are up, everything else is as it was. */
  lemma EmbedsUp(d: Object, field: string, embedded: seq<string>, emptyOk: bool, k: string)
    ensures var r := From(Embed(field, embedded, emptyOk), d);
            if k == field then k !in r
            else if k in embedded && field in d && d[field].Map? && k in d[field].fields
            then k in r && r[k] == d[field].fields[k]
            else SameSlot(r, d, k)
  {
  }

  /** Embed back: the embedded entries are down in the field, and only they; without any the field is nil, if
      that is wanted, or left as it is. */
  lemma EmbedsDown(d: Object, field: string, embedded: seq<string>, emptyOk: bool, r: Object, k: string)
    requires To(Embed(field, embedded, emptyOk), d, r) && field !in embedded
    ensures k in embedded ==> k !in r
    ensures k !in embedded && k != field ==> SameSlot(r, d, k)
    ensures (exists n :: n in embedded && n in d) ==>
              && field in r && r[field].Map?
              && (k in r[field].fields <==> k in embedded && k in d)
              && (k in r[field].fields ==> r[field].fields[k] == d[k])
    ensures (forall n :: n in embedded ==> n !in d) ==>
              if emptyOk then field in r && r[field] == Null else SameSlot(r, d, field)
  {
    var sub := Restrict(d, Elements(embedded));
    if n :| n in embedded && n in d {
      assert n in sub;
    } else {
      assert sub == map[];
    }
  }

  /** SliceToMap there: each named item is found under its name, without it. */
  lemma SlicesUp(d: Object, field: string, key: string, i: nat)
    requires field in d && d[field].List? && i < |d[field].items| && Slices.AllNamed(d[field].items, key)
    ensures var r, item := From(SliceToMap(field, key), d), d[field].items[i].fields;
            && field in r && r[field].Map?
            && item[key].text in r[field].fields && r[field].fields[item[key].text] == Map(item - {key})
    ensures forall k :: k != field ==> SameSlot(From(SliceToMap(field, key), d), d, k)
  {
    Slices.CollectNamed(d[field].items, key);
    var item := d[field].items[i].fields;
    assert Slices.NameOf(item, key) == item[key].text;
    assert item[key].text in Slices.Collect(d[field].items, key);
  }

  /** SliceToMap back: the items are the entries that are maps, each once and with its name. */
  lemma SlicesDown(d: Object, field: string, key: string, r: Object)
    requires To(SliceToMap(field, key), d, r)
    ensures field in d && d[field].Map? ==>
              && field in r && r[field].List? && NoRepeats(r[field].items)
              && forall x :: x in r[field].items <==>
                             exists n :: n in d[field].fields && Slices.IsEntry(d[field].fields, n, x, key)
    ensures forall n, x :: field in d && d[field].Map? && Slices.IsEntry(d[field].fields, n, x, key) ==>
              x == Map(d[field].fields[n].fields[key := Scalar(n)])
    ensures !(field in d && d[field].Map?) ==> r == d
    ensures forall k :: k != field ==> SameSlot(r, d, k)
  {
    var order :| Slices.Ranged(d, field, key, order, r);
    if field in d && d[field].Map? {
      Enumerated(order, d[field].fields.Keys);
      Slices.RestoreEntries(d[field].fields, order, key);
    }
  }

  /** A pipeline is its stages one after the other. */
  lemma {:induction false} FromInTurn(a: seq<Stage>, b: seq<Stage>, d: Object, s: Stage)
    ensures FromAll([], d) == d && FromAll([s], d) == From(s, d)
    ensures FromAll(a + b, d) == FromAll(b, FromAll(a, d))
    decreases |a|
  {
    assert [s][1..] == [];
    if a == [] {
      assert a + b == b;
    } else {
      assert (a + b)[1..] == a[1..] + b;
      FromInTurn(a[1..], b, From(a[0], d), s);
    }
  }

  /** And back, the last ones first. */
  lemma {:induction false} ToInTurn(a: seq<Stage>, b: seq<Stage>, d: Object, r: Object, s: Stage)
    ensures (ToAll([], d, r) <==> r == d) && (ToAll([s], d, r) <==> To(s, d, r))
    ensures ToAll(a + b, d, r) <==> exists e :: ToAll(b, d, e) && ToAll(a, e, r)
    decreases |a|
  {
    assert [s][1..] == [] && ToAll([], d, d);
    if a == [] {
      assert a + b == b;
      assert ToAll(a, r, r);
    } else {
      assert (a + b)[1..] == a[1..] + b;
      if ToAll(a + b, d, r) {
        var x :| ToAll(a[1..] + b, d, x) && To(a[0], x, r);
        ToInTurn(a[1..], b, d, x, s);
        var e :| ToAll(b, d, e) && ToAll(a[1..], e, x);
        assert ToAll(a, e, r);
      }
      if e :| ToAll(b, d, e) && ToAll(a, e, r) {
        var x :| ToAll(a[1..], e, x) && To(a[0], x, r);
        ToInTurn(a[1..], b, d, x, s);
        assert ToAll(b, d, e) && ToAll(a[1..], e, x);
        assert ToAll(a[1..] + b, d, x);
        assert (a + b)[0] == a[0] && To((a + b)[0], x, r);
      }
    }
  }

  // ----------------------------------------------- stages respect the order of lists

  lemma SameMove(d: Object, e: Object, from: seq<string>, to: seq<string>)
    requires SameObj(d, e)
    ensures SameObj(MoveValue(d, from, to), MoveValue(e, from, to))
  {
    SameGet(d, e, from);
    SameRemove(d, e, from);
    var v, w := GetValue(d, from), GetValue(e, from);
    if v.Some? { SamePut(RemoveValue(d, from), RemoveValue(e, from), v.value, w.value, to); }
  }

  lemma {:induction false} SameBatch(d: Object, e: Object, moves: seq<Moving>)
    requires SameObj(d, e)
    ensures SameObj(BatchTo(d, moves), BatchTo(e, moves))
    decreases |moves|
  {
    if moves != [] {
      SameBatch(d, e, moves[1..]);
      SameMove(BatchTo(d, moves[1..]), BatchTo(e, moves[1..]), moves[0].to, moves[0].from);
    }
  }

  lemma SameEmbed(d: Object, e: Object, field: string, embedded: set<string>, emptyOk: bool)
    requires SameObj(d, e)
    ensures SameObj(EmbedTo(d, field, embedded, emptyOk), EmbedTo(e, field, embedded, emptyOk))
  {
    var a, b := Restrict(d, embedded), Restrict(e, embedded);
    assert a.Keys == b.Keys;
    assert a == map[] <==> a.Keys == {};
    assert b == map[] <==> b.Keys == {};
    assert Same(Map(a), Map(b));
  }

  lemma {:induction false} SameRestore(m: Object, n: Object, order: seq<string>, key: string)
    requires SameObj(m, n)
    ensures var a, b := Slices.Restore(m, order, key), Slices.Restore(n, order, key);
            |a| == |b| && forall i :: 0 <= i < |a| ==> Same(a[i], b[i])
    decreases |order|
  {
    if order != [] {
      SameRestore(m, n, order[1..], key);
      var k := order[0];
      if k in m { assert Same(m[k], n[k]); }
      if k in m && m[k].Map? {
        assert Same(Slices.Item(k, m[k].fields, key), Slices.Item(k, n[k].fields, key));
      }
    }
  }

  /** Two orders of the same map give the same list up to its order. */
  lemma SameOrders(m: Object, p: seq<string>, q: seq<string>, key: string)
    requires Enumerates(p, m.Keys) && Enumerates(q, m.Keys)
    ensures Same(List(Slices.Restore(m, p, key)), List(Slices.Restore(m, q, key)))
  {
    Slices.AnyOrder(m, p, q, key);
    SameItems(Slices.Restore(m, p, key), Slices.Restore(m, q, key));
  }

  lemma SameRestored(m: Object, n: Object, p: seq<string>, q: seq<string>, key: string)
    requires SameObj(m, n) && Enumerates(p, m.Keys) && Enumerates(q, n.Keys)
    ensures Same(List(Slices.Restore(m, p, key)), List(Slices.Restore(n, q, key)))
  {
    var a, b, c := Slices.Restore(m, p, key), Slices.Restore(n, p, key), Slices.Restore(n, q, key);
    SameRestore(m, n, p, key);
    assert Matched(List(a), List(b), Identity(|a|));
    SameOrders(n, p, q, key);
    SameTrans(List(a), List(b), List(c));
  }

  lemma SameSlice(d: Object, e: Object, field: string, key: string, p: seq<string>, q: seq<string>, r: Object,
                  s: Object)
    requires SameObj(d, e) && Slices.Ranged(d, field, key, p, r) && Slices.Ranged(e, field, key, q, s)
    ensures SameObj(r, s)
  {
    if field in d { assert Same(d[field], e[field]); }
    if field in d && d[field].Map? { SameRestored(d[field].fields, e[field].fields, p, q, key); }
  }

  /** Whatever orders are met, data that agree up to the order of lists stay so. */
  lemma SameTo(stage: Stage, d: Object, e: Object, r: Object, s: Object)
    requires SameObj(d, e) && To(stage, d, r) && To(stage, e, s)
    ensures SameObj(r, s)
  {
    match stage
    case Move(from, to) => SameMove(d, e, to, from);
    case Batch(moves) => SameBatch(d, e, moves);
    case Embed(field, embedded, emptyOk) => SameEmbed(d, e, field, Elements(embedded), emptyOk);
    case SliceToMap(field, key) =>
      var p :| Slices.Ranged(d, field, key, p, r);
      var q :| Slices.Ranged(e, field, key, q, s);
      SameSlice(d, e, field, key, p, q, r, s);
  }

  lemma {:induction false} SameToAll(stages: seq<Stage>, d: Object, e: Object, r: Object, s: Object)
    requires SameObj(d, e) && ToAll(stages, d, r) && ToAll(stages, e, s)
    ensures SameObj(r, s)
    decreases |stages|
  {
    if stages != [] {
      var d1 :| ToAll(stages[1..], d, d1) && To(stages[0], d1, r);
      var e1 :| ToAll(stages[1..], e, e1) && To(stages[0], e1, s);
      SameToAll(stages[1..], d, e, d1, e1);
      SameTo(stages[0], d1, e1, r, s);
    }
  }

  // -------------------------------------------------------------- there and back

  /** What a single stage demands of its data. */
  ghost predicate StageReversible(stage: Stage, d: Object) {
    match stage
    case Move(from, to) => from != [] && to != [] && Reversible(d, from, to)
    case Batch(moves) => BatchReversible(d, moves)
    case Embed(field, embedded, emptyOk) => Embeddable(d, field, Elements(embedded), emptyOk)
    case SliceToMap(field, key) => Slices.Nameable(d, field, key)
  }

  /** Each stage can be undone on the data that reaches it. */
  ghost predicate AllReversible(stages: seq<Stage>, d: Object)
    decreases |stages|
  {
    stages != [] ==> StageReversible(stages[0], d) && AllReversible(stages[1..], From(stages[0], d))
  }

  /** Run backwards, a pipeline undoes itself up to the order of lists, even if lists were rearranged. */
  lemma {:induction false} PipelineRoundTrip(stages: seq<Stage>, d: Object, e: Object, r: Object)
    requires AllReversible(stages, d) && SameObj(e, FromAll(stages, d)) && ToAll(stages, e, r)
    ensures SameObj(r, d)
    decreases |stages|
  {
    if stages != [] {
      var back :| ToAll(stages[1..], e, back) && To(stages[0], back, r);
      PipelineRoundTrip(stages[1..], From(stages[0], d), e, back);
      StageRoundTrip(stages[0], d, back, r);
    }
  }

  lemma StageRoundTrip(stage: Stage, d: Object, e: Object, r: Object)
    requires StageReversible(stage, d) && SameObj(e, From(stage, d)) && To(stage, e, r)
    ensures SameObj(r, d)
  {
    var s := Ends(stage, From(stage, d));
    SameTo(stage, e, From(stage, d), r, s);
    StageBack(stage, d, s);
    SameObjTrans(r, s, d);
  }

  lemma StageBack(stage: Stage, d: Object, r: Object)
    requires StageReversible(stage, d) && To(stage, From(stage, d), r)
    ensures SameObj(r, d)
  {
    SameObjSelf(d);
    match stage
    case Move(from, to) => MoveRoundTrip(d, from, to);
    case Batch(moves) => BatchBack(d, moves);
    case Embed(field, embedded, emptyOk) => EmbedRoundTrip(d, field, Elements(embedded), emptyOk);
    case SliceToMap(field, key) =>
      var order :| Slices.Ranged(From(stage, d), field, key, order, r);
      Slices.SliceRoundTrip(d, field, key, order);
      UpToOrder(r, d, field);
  }

  lemma UpToOrder(d: Object, e: Object, field: string)
    requires Slices.SameUpToOrder(d, e, field)
    ensures SameObj(d, e)
  {
    forall k | k in d
      ensures Same(d[k], e[k])
    {
      if d[k] == e[k] { SameSelf(d[k]); } else { SameItems(d[k].items, e[k].items); }
    }
  }

  // ---------------------------------------------------- keys no stage touches

  predicate MovesIdle(m: Moving, k: string) { m.from != [] && m.to != [] && m.from[0] != k && m.to[0] != k }

  /** The stage neither reads nor writes the top-level key. */
  predicate Idle(stage: Stage, k: string) {
    match stage
    case Move(from, to) => MovesIdle(Moving(from, to), k)
    case Batch(moves) => forall i :: 0 <= i < |moves| ==> MovesIdle(moves[i], k)
    case Embed(field, embedded, _) => field != k && k !in embedded
    case SliceToMap(field, _) => field != k
  }

  predicate AllIdle(stages: seq<Stage>, k: string) { forall i :: 0 <= i < |stages| ==> Idle(stages[i], k) }

  lemma IdleMove(d: Object, m: Moving, k: string, v: Value)
    requires MovesIdle(m, k)
    ensures SameSlot(MoveValue(d, m.from, m.to), d, k)
    ensures MoveValue(d[k := v], m.from, m.to) == MoveValue(d, m.from, m.to)[k := v]
  {
    var e := d[k := v];
    Local(e, d, v, m.from);
    Elsewhere(d, v, m.from, k);
    Elsewhere(e, v, m.from, k);
    var x := GetValue(d, m.from);
    var d1, e1 := RemoveValue(d, m.from), RemoveValue(e, m.from);
    if x.Some? { Elsewhere(d1, x.value, m.to, k); }
    var a, b := MoveValue(e, m.from, m.to), MoveValue(d, m.from, m.to)[k := v];
    forall j
      ensures SameSlot(a, b, j)
    {
      IdleMoveAt(d, m, k, v, j);
    }
    SameObject(a, b);
  }

  lemma IdleMoveAt(d: Object, m: Moving, k: string, v: Value, j: string)
    requires MovesIdle(m, k)
    ensures SameSlot(MoveValue(d[k := v], m.from, m.to), MoveValue(d, m.from, m.to)[k := v], j)
  {
    var e := d[k := v];
    Local(e, d, v, m.from);
    var x := GetValue(d, m.from);
    var d1, e1 := RemoveValue(d, m.from), RemoveValue(e, m.from);
    if j != m.from[0] {
      Elsewhere(d, v, m.from, j);
      Elsewhere(e, v, m.from, j);
    }
    assert j != k ==> SameSlot(e1, d1, j);
    if x.Some? {
      if j != m.to[0] {
        Elsewhere(d1, x.value, m.to, j);
        Elsewhere(e1, x.value, m.to, j);
      } else {
        if m.to[0] != m.from[0] {
          Elsewhere(d, v, m.from, j);
          Elsewhere(e, v, m.from, j);
        }
        Local(e1, d1, x.value, m.to);
      }
    }
  }

  lemma {:induction false} IdleBatch(d: Object, moves: seq<Moving>, k: string, v: Value)
    requires forall i :: 0 <= i < |moves| ==> MovesIdle(moves[i], k)
    ensures SameSlot(BatchFrom(d, moves), d, k)
    ensures BatchTo(d[k := v], moves) == BatchTo(d, moves)[k := v]
    decreases |moves|
  {
    if moves != [] {
      var m := moves[0];
      assert MovesIdle(m, k);
      IdleMove(d, m, k, v);
      IdleBatch(MoveValue(d, m.from, m.to), moves[1..], k, v);
      IdleBatch(d, moves[1..], k, v);
      IdleMove(BatchTo(d, moves[1..]), Moving(m.to, m.from), k, v);
    }
  }

  lemma IdleEmbed(d: Object, field: string, embedded: set<string>, emptyOk: bool, k: string, v: Value)
    requires field != k && k !in embedded
    ensures SameSlot(EmbedFrom(d, field, embedded), d, k)
    ensures EmbedTo(d[k := v], field, embedded, emptyOk) == EmbedTo(d, field, embedded, emptyOk)[k := v]
  {
    assert Restrict(d[k := v], embedded) == Restrict(d, embedded);
    assert d[k := v] - embedded == (d - embedded)[k := v];
  }

  lemma IdleFrom(stage: Stage, d: Object, k: string)
    requires Idle(stage, k)
    ensures SameSlot(From(stage, d), d, k)
  {
    match stage
    case Move(from, to) => IdleMove(d, Moving(from, to), k, Null);
    case Batch(moves) => IdleBatch(d, moves, k, Null);
    case Embed(field, embedded, emptyOk) => IdleEmbed(d, field, Elements(embedded), emptyOk, k, Null);
    case SliceToMap(_, _) =>
  }

  lemma IdleTo(stage: Stage, d: Object, k: string, v: Value, r: Object) returns (s: Object)
    requires Idle(stage, k) && To(stage, d[k := v], r)
    ensures To(stage, d, s) && r == s[k := v]
  {
    match stage
    case Move(from, to) =>
      IdleMove(d, Moving(to, from), k, v);
      s := MoveValue(d, to, from);
    case Batch(moves) =>
      IdleBatch(d, moves, k, v);
      s := BatchTo(d, moves);
    case Embed(field, embedded, emptyOk) =>
      IdleEmbed(d, field, Elements(embedded), emptyOk, k, v);
      s := EmbedTo(d, field, Elements(embedded), emptyOk);
    case SliceToMap(field, key) =>
      var order :| Slices.Ranged(d[k := v], field, key, order, r);
      s := Slices.ToInternal(d, field, key, order);
      assert Slices.Ranged(d, field, key, order, s);
  }

  lemma {:induction false} IdleFromAll(stages: seq<Stage>, d: Object, k: string)
    requires AllIdle(stages, k)
    ensures SameSlot(FromAll(stages, d), d, k)
    decreases |stages|
  {
    if stages != [] {
      IdleFrom(stages[0], d, k);
      IdleFromAll(stages[1..], From(stages[0], d), k);
    }
  }

  /** A key that no stage touches is carried through on the way back. */
  lemma {:induction false} IdleToAll(stages: seq<Stage>, d: Object, k: string, v: Value, r: Object) returns (s: Object)
    requires AllIdle(stages, k) && ToAll(stages, d[k := v], r)
    ensures ToAll(stages, d, s) && r == s[k := v]
    decreases |stages|
  {
    if stages == [] {
      s := d;
    } else {
      var e :| ToAll(stages[1..], d[k := v], e) && To(stages[0], e, r);
      var e' := IdleToAll(stages[1..], d, k, v, e);
      s := IdleTo(stages[0], e', k, v, r);
    }
  }

  // ------------------------------------------------------------ in place

  /** The data map that the stages update in place; a nil map is null. */
  class Data {
    var fields: Object

    constructor (m: Object)
      ensures fields == m
    {
      fields := m;
    }
  }

  lemma OneMore(list: seq<string>, i: nat)
    requires i < |list|
    ensures Elements(list[..i + 1]) == Elements(list[..i]) + {list[i]}
  {
    assert list[..i + 1] == list[..i] + [list[i]];
  }

  method EmbedUp(data: Data, field: string, embedded: seq<string>)
    modifies data
    ensures data.fields == EmbedFrom(old(data.fields), field, Elements(embedded))
  {
    var sub := Sub(data.fields, field);
    ghost var was := data.fields;
    for i := 0 to |embedded|
      invariant data.fields == was + Restrict(sub, Elements(embedded[..i]))
    {
      OneMore(embedded, i);
      if embedded[i] in sub { data.fields := data.fields[embedded[i] := sub[embedded[i]]]; }
      else { assert Restrict(sub, Elements(embedded[..i + 1])) == Restrict(sub, Elements(embedded[..i])); }
    }
    assert embedded[..|embedded|] == embedded;
    data.fields := data.fields - {field};
  }

  method EmbedDown(data: Data, field: string, embedded: seq<string>, emptyOk: bool)
    modifies data
    ensures data.fields == EmbedTo(old(data.fields), field, Elements(embedded), emptyOk)
  {
    var sub: Object := map[];
    ghost var was := data.fields;
    for i := 0 to |embedded|
      invariant sub == Restrict(was, Elements(embedded[..i]))
      invariant data.fields == was - Elements(embedded[..i])
    {
      OneMore(embedded, i);
      if embedded[i] in data.fields { sub := sub[embedded[i] := data.fields[embedded[i]]]; }
      data.fields := data.fields - {embedded[i]};
    }
    assert embedded[..|embedded|] == embedded;
    if sub == map[] {
      if emptyOk { data.fields := data.fields[field := Null]; }
      return;
    }
    data.fields := data.fields[field := Map(sub)];
  }

  method SliceUp(data: Data, field: string, key: string)
    modifies data
    ensures data.fields == Slices.FromInternal(old(data.fields), field, key)
  {
    var items := if field in data.fields && data.fields[field].List? then data.fields[field].items else [];
    var result: Object := map[];
    for i := 0 to |items|
      invariant result == Slices.Collect(items[..i], key)
    {
      assert items[..i + 1][..i] == items[..i];
      if items[i].Map? {
        result := result[Slices.NameOf(items[i].fields, key) := Map(items[i].fields - {key})];
      }
    }
    assert items[..|items|] == items;
    if result != map[] { data.fields := data.fields[field := Map(result)]; }
  }

  method SliceDown(data: Data, field: string, key: string)
    modifies data
    ensures exists order :: Slices.Ranged(old(data.fields), field, key, order, data.fields)
  {
    ghost var order: seq<string> := [];
    if field !in data.fields || !data.fields[field].Map? {
      assert Slices.Ranged(data.fields, field, key, order, data.fields);
      return;
    }
    var datas := data.fields[field].fields;
    var result: seq<Value> := [];
    var todo := datas.Keys;
    while todo != {}
      invariant data.fields == old(data.fields)
      invariant todo <= datas.Keys && Enumerates(order, datas.Keys - todo)
      invariant result == Slices.Restore(datas, order, key)
    {
      var name :| name in todo;
      Appended(order, datas.Keys - todo, name);
      Slices.RestoreOne(datas, order, name, key);
      if datas[name].Map? { result := result + [Slices.Item(name, datas[name].fields, key)]; }
      order := order + [name];
      assert datas.Keys - todo + {name} == datas.Keys - (todo - {name});
      todo := todo - {name};
    }
    assert datas.Keys - todo == datas.Keys;
    data.fields := data.fields[field := List(result)];
    assert Slices.Ranged(old(data.fields), field, key, order, data.fields);
  }

  method BatchDown(data: Data, moves: seq<Moving>)
    modifies data
    ensures data.fields == BatchFrom(old(data.fields), moves)
  {
    for i := 0 to |moves|
      invariant BatchFrom(data.fields, moves[i..]) == BatchFrom(old(data.fields), moves)
    {
      assert moves[i..][1..] == moves[i + 1..];
      data.fields := MoveValue(data.fields, moves[i].from, moves[i].to);
    }
  }

  lemma {:induction false} BatchToFromTheEnd(moves: seq<Moving>, last: Moving, d: Object)
    ensures BatchTo(d, moves + [last]) == BatchTo(MoveValue(d, last.to, last.from), moves)
    decreases |moves|
  {
    var all := moves + [last];
    if moves == [] {
      assert all[1..] == [];
    } else {
      assert all[1..] == moves[1..] + [last];
      BatchToFromTheEnd(moves[1..], last, d);
    }
  }

  method BatchUp(data: Data, moves: seq<Moving>)
    modifies data
    ensures data.fields == BatchTo(old(data.fields), moves)
  {
    var i := |moves|;
    assert moves[..i] == moves;
    while i > 0
      invariant 0 <= i <= |moves|
      invariant BatchTo(data.fields, moves[..i]) == BatchTo(old(data.fields), moves)
    {
      i := i - 1;
      assert moves[..i + 1] == moves[..i] + [moves[i]];
      BatchToFromTheEnd(moves[..i], moves[i], data.fields);
      data.fields := MoveValue(data.fields, moves[i].to, moves[i].from);
    }
  }

  method StageUp(stage: Stage, data: Data?)
    modifies data
    ensures data != null ==> data.fields == From(stage, old(data.fields))
  {
    if data == null { return; }
    match stage
    case Move(from, to) => data.fields := MoveValue(data.fields, from, to);
    case Batch(moves) => BatchDown(data, moves);
    case Embed(field, embedded, _) => EmbedUp(data, field, embedded);
    case SliceToMap(field, key) => SliceUp(data, field, key);
  }

  method StageDown(stage: Stage, data: Data?)
    modifies data
    ensures data != null ==> To(stage, old(data.fields), data.fields)
  {
    if data == null { return; }
    match stage
    case Move(from, to) => data.fields := MoveValue(data.fields, to, from);
    case Batch(moves) => BatchUp(data, moves);
    case Embed(field, embedded, emptyOk) => EmbedDown(data, field, embedded, emptyOk);
    case SliceToMap(field, key) => SliceDown(data, field, key);
  }

  /** Mappers.FromInternal. */
  method FromInternal(stages: seq<Stage>, data: Data?)
    modifies data
    ensures data != null ==> data.fields == FromAll(stages, old(data.fields))
  {
    for i := 0 to |stages|
      invariant data != null ==> FromAll(stages[i..], data.fields) == FromAll(stages, old(data.fields))
    {
      assert stages[i..][1..] == stages[i + 1..];
      StageUp(stages[i], data);
    }
  }

  lemma {:induction false} ToAllFromTheEnd(stages: seq<Stage>, last: Stage, d: Object, e: Object, r: Object)
    requires To(last, d, e) && ToAll(stages, e, r)
    ensures ToAll(stages + [last], d, r)
    decreases |stages|
  {
    var all := stages + [last];
    if stages == [] {
      assert all[1..] == [] && ToAll([], d, d);
    } else {
      assert all[1..] == stages[1..] + [last];
      var x :| ToAll(stages[1..], e, x) && To(stages[0], x, r);
      ToAllFromTheEnd(stages[1..], last, d, e, x);
    }
  }

  /** Mappers.ToInternal, from the last stage to the first. */
  method ToInternal(stages: seq<Stage>, data: Data?)
    modifies data
    ensures data != null ==> ToAll(stages, old(data.fields), data.fields)
  {
    var i := |stages|;
    assert stages[..i] == stages;
    while i > 0
      invariant 0 <= i <= |stages|
      invariant data != null ==> forall r :: ToAll(stages[..i], data.fields, r) ==> ToAll(stages, old(data.fields), r)
    {
      i := i - 1;
      assert stages[..i + 1] == stages[..i] + [stages[i]];
      ghost var was := if data == null then map[] else data.fields;
      StageDown(stages[i], data);
      if data != null { LastUndone(stages[..i], stages[i], was, data.fields); }
    }
    assert data != null ==> ToAll([], data.fields, data.fields);
  }

  lemma LastUndone(stages: seq<Stage>, last: Stage, d: Object, e: Object)
    requires To(last, d, e)
    ensures forall r :: ToAll(stages, e, r) ==> ToAll(stages + [last], d, r)
  {
    forall r | ToAll(stages, e, r)
      ensures ToAll(stages + [last], d, r)
    {
      ToAllFromTheEnd(stages, last, d, e, r);
    }
  }
}
