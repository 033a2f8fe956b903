/** The schema listing of one API version (store/schema/schema_store.go). */
module Listing {
  import opened Text
  import Definition

  datatype Action = Action(input: string, output: string)

  /** The field types and the actions of a schema, by name; its ID is its key in the registry. */
  datatype Schema = Schema(fields: map<string, string>, resourceActions: map<string, Action>,
                           collectionActions: map<string, Action>)

  type Graph = map<string, Schema>

  /** The innermost type: array[map[x]] is about x. */
  function Peel(t: string): (r: string)
    ensures Definition.SubType(r) == r
    decreases |t|
  {
    if Definition.SubType(t) == t then t else Peel(Definition.SubType(t))
  }

  /** A type wrapped in arrays, maps and the like. */
  function Wrapped(wraps: seq<string>, t: string): string
    decreases |wraps|
  {
    if wraps == [] then t else wraps[0] + "[" + Wrapped(wraps[1..], t) + "]"
  }

  /** However often a type is wrapped, it is found inside. */
  lemma {:induction false} PeelUnwraps(wraps: seq<string>, t: string)
    requires Definition.NoBracket(t)
    requires forall i :: 0 <= i < |wraps| ==> wraps[i] != "" && Definition.NoBracket(wraps[i])
    ensures Peel(Wrapped(wraps, t)) == t
    decreases |wraps|
  {
    if wraps == [] {
      Definition.NotWrapped(t);
    } else {
      Definition.UnwrapOne(wraps[0], Wrapped(wraps[1..], t));
      PeelUnwraps(wraps[1..], t);
    }
  }

  method PeelLoop(t0: string) returns (t: string)
    ensures t == Peel(t0)
  {
    t := "";
    var subType := t0;
    while subType != t
      invariant Peel(subType) == Peel(t0)
      invariant subType == t ==> Definition.SubType(t) == t
      decreases |subType|, if subType == t then 0 else 1
    {
      t := subType;
      subType := Definition.SubType(t);
    }
  }

  function TypesOf(a: Action): set<string> { {a.output, a.input} - {""} }

  function ActionTypes(actions: map<string, Action>): set<string> {
    set a, t | a in actions && t in TypesOf(actions[a]) :: t
  }

  /** The types a schema mentions: of its fields, and of the inputs and outputs of its actions. */
  function Mentions(s: Schema): set<string> {
    (set f | f in s.fields :: Peel(s.fields[f])) + ActionTypes(s.resourceActions) + ActionTypes(s.collectionActions)
  }

  predicate Edge(g: Graph, a: string, b: string) { a in g && b in g && b in Mentions(g[a]) }

  ghost predicate IsPath(g: Graph, p: seq<string>) {
    p != [] && p[0] in g && forall i :: 0 <= i < |p| - 1 ==> Edge(g, p[i], p[i + 1])
  }

  /** b can be reached from a by following mentioned types. */
  ghost predicate Reaches(g: Graph, a: string, b: string) {
    exists p :: IsPath(g, p) && p[0] == a && p[|p| - 1] == b
  }

  lemma ReachesItself(g: Graph, a: string)
    requires a in g
    ensures Reaches(g, a, a)
  {
    assert IsPath(g, [a]);
  }

  lemma ReachesFurther(g: Graph, a: string, b: string, c: string)
    requires Edge(g, a, b) && Reaches(g, b, c)
    ensures Reaches(g, a, c)
  {
    var p :| IsPath(g, p) && p[0] == b && p[|p| - 1] == c;
    var q := [a] + p;
    forall i | 0 <= i < |q| - 1
      ensures Edge(g, q[i], q[i + 1])
    {
      if i > 0 { assert Edge(g, p[i - 1], p[i]); }
    }
    assert IsPath(g, q) && q[|q| - 1] == c;
  }

  lemma ReachesNext(g: Graph, a: string, b: string, c: string)
    requires Reaches(g, a, b) && Edge(g, b, c)
    ensures Reaches(g, a, c)
  {
    var p :| IsPath(g, p) && p[0] == a && p[|p| - 1] == b;
    var q := p + [c];
    forall i | 0 <= i < |q| - 1
      ensures Edge(g, q[i], q[i + 1])
    {
      if i < |p| - 1 { assert Edge(g, p[i], p[i + 1]); }
    }
    assert IsPath(g, q) && q[|q| - 1] == c;
  }

  /** What is listed brings with it the schemas of its fields, however their types are wrapped, and those of the
      inputs and outputs of its actions. */
  lemma ListedBrings(g: Graph, visible: set<string>, x: string, b: string)
    requires FromVisible(g, visible, x) && b in g
    requires || (exists f, wraps :: HoldsField(g, x, f, wraps, b))
             || (exists a :: HoldsAction(g, x, a, b))
    ensures FromVisible(g, visible, b)
  {
    var r :| r in visible && Reaches(g, r, x);
    var p :| IsPath(g, p) && p[0] == r && p[|p| - 1] == x;
    assert x in g by { if |p| > 1 { assert Edge(g, p[|p| - 2], p[|p| - 1]); } }
    if f, wraps :| HoldsField(g, x, f, wraps, b) {
      PeelUnwraps(wraps, b);
      assert b in Mentions(g[x]);
    } else {
      var a :| HoldsAction(g, x, a, b);
      assert b in Mentions(g[x]) by {
        if a in g[x].resourceActions && b in TypesOf(g[x].resourceActions[a]) {
          assert b in ActionTypes(g[x].resourceActions);
        } else {
          assert b in TypesOf(g[x].collectionActions[a]);
          assert b in ActionTypes(g[x].collectionActions);
        }
      }
    }
    ReachesNext(g, r, x, b);
  }

  ghost predicate HoldsField(g: Graph, x: string, f: string, wraps: seq<string>, b: string) {
    && x in g && f in g[x].fields && g[x].fields[f] == Wrapped(wraps, b) && Definition.NoBracket(b)
    && forall i :: 0 <= i < |wraps| ==> wraps[i] != "" && Definition.NoBracket(wraps[i])
  }

  ghost predicate HoldsAction(g: Graph, x: string, a: string, b: string) {
    && x in g && b != ""
    && (|| (a in g[x].resourceActions && (b == g[x].resourceActions[a].input || b == g[x].resourceActions[a].output))
        || (a in g[x].collectionActions
            && (b == g[x].collectionActions[a].input || b == g[x].collectionActions[a].output)))
  }

  /** Nothing outside a closed set can be reached from inside it. */
  lemma {:induction false} StaysInside(g: Graph, inside: set<string>, p: seq<string>)
    requires IsPath(g, p) && p[0] in inside
    requires forall x :: x in inside ==> Closed(g, inside, x)
    ensures p[|p| - 1] in inside
    decreases |p|
  {
    if |p| > 1 {
      assert Edge(g, p[0], p[1]);
      assert Closed(g, inside, p[0]);
      var q := p[1..];
      forall i | 0 <= i < |q| - 1
        ensures Edge(g, q[i], q[i + 1])
      {
        assert Edge(g, p[i + 1], p[i + 2]);
      }
      StaysInside(g, inside, q);
    }
  }

  ghost predicate Closed(g: Graph, inside: set<string>, x: string) {
    forall y :: Edge(g, x, y) ==> y in inside
  }

  /** The visited IDs and the list so far. */
  datatype Progress = Progress(included: set<string>, listed: seq<string>)

  /** From b to a, everything new was reached from id, is closed, and was listed once. */
  ghost predicate Grown(g: Graph, b: Progress, a: Progress, id: string) {
    && b.included <= a.included <= g.Keys
    && (forall x :: x in a.included - b.included ==> Closed(g, a.included, x) && Reaches(g, id, x))
    && b.listed <= a.listed
    && NoRepeats(a.listed[|b.listed|..])
    && (forall x :: x in a.listed[|b.listed|..] <==> x in a.included - b.included)
  }

  lemma Joined(s: seq<string>, t: seq<string>)
    requires NoRepeats(s) && NoRepeats(t) && forall x :: x in s ==> x !in t
    ensures NoRepeats(s + t)
  {
    forall i, j | 0 <= i < j < |s + t|
      ensures (s + t)[i] != (s + t)[j]
    {
      if i < |s| <= j { assert s[i] in s && t[j - |s|] in t; }
    }
  }

  /** Once everything id leads to has been visited, listing id completes its visit. */
  lemma Finish(g: Graph, id: string, before: Progress, done: Progress)
    requires before.included <= g.Keys && id in g && id !in before.included
    requires Grown(g, Progress(before.included + {id}, before.listed), done, id)
    requires Closed(g, done.included, id)
    ensures Grown(g, before, Progress(done.included, done.listed + [id]), id)
  {
    ReachesItself(g, id);
    var added := done.listed[|before.listed|..];
    assert (done.listed + [id])[|before.listed|..] == added + [id];
    Joined(added, [id]);
  }

  lemma GrownTwice(g: Graph, b: Progress, m: Progress, a: Progress, id: string)
    requires Grown(g, b, m, id) && Grown(g, m, a, id)
    ensures Grown(g, b, a, id)
  {
    var one, two := m.listed[|b.listed|..], a.listed[|m.listed|..];
    assert a.listed[|b.listed|..] == one + two;
    Joined(one, two);
    forall x | x in a.included - b.included
      ensures Closed(g, a.included, x) && Reaches(g, id, x)
    {
      if x in m.included { assert Closed(g, m.included, x); }
    }
  }

  lemma GrownFurther(g: Graph, b: Progress, a: Progress, id: string, t: string)
    requires Grown(g, b, a, t) && Edge(g, id, t)
    ensures Grown(g, b, a, id)
  {
    forall x | x in a.included - b.included
      ensures Reaches(g, id, x)
    {
      ReachesFurther(g, id, t, x);
    }
  }

  /** Between two visits of the outer loop. */
  ghost predicate Settled(g: Graph, visible: set<string>, p: Progress) {
    && p.included <= g.Keys
    && NoRepeats(p.listed)
    && (forall x :: x in p.listed <==> x in p.included)
    && (forall x :: x in p.included ==> Closed(g, p.included, x) && FromVisible(g, visible, x))
  }

  ghost predicate FromVisible(g: Graph, visible: set<string>, x: string) {
    exists r :: r in visible && Reaches(g, r, x)
  }

  lemma SettledAgain(g: Graph, visible: set<string>, b: Progress, a: Progress, id: string)
    requires Settled(g, visible, b) && Grown(g, b, a, id) && id in visible
    ensures Settled(g, visible, a)
  {
    var added := a.listed[|b.listed|..];
    assert a.listed == b.listed + added;
    Joined(b.listed, added);
    forall x | x in a.included
      ensures Closed(g, a.included, x) && FromVisible(g, visible, x)
    {
      if x in b.included { assert Closed(g, b.included, x); }
    }
  }

  /** A closed, visited set with all visible schemas holds all that can be reached from them. */
  lemma AllListed(g: Graph, visible: set<string>, p: Progress, x: string)
    requires Settled(g, visible, p) && g.Keys * visible <= p.included
    ensures x in p.listed <==> FromVisible(g, visible, x)
  {
    if FromVisible(g, visible, x) {
      var r :| r in visible && Reaches(g, r, x);
      var path :| IsPath(g, path) && path[0] == r && path[|path| - 1] == x;
      StaysInside(g, p.included, path);
    }
  }

  /** One request for the listing: the schemas it walks, what it has visited, what it has listed. */
  class Lister {
    const graph: Graph
    var included: set<string>
    var listed: seq<string>

    constructor (g: Graph)
      ensures graph == g && included == {} && listed == []
    {
      graph, included, listed := g, {}, [];
    }

    ghost function View(): Progress
      reads this
    {
      Progress(included, listed)
    }

    /** One mentioned type of a schema that is being traversed. */
    method Visit(id: string, t: string)
      requires included <= graph.Keys && id in graph && t in Mentions(graph[id])
      modifies this
      ensures Grown(graph, old(View()), View(), id)
      ensures t in graph ==> t in included
      decreases graph.Keys - included, 1
    {
      if t in graph && t !in included {
        AddSchema(t);
        GrownFurther(graph, old(View()), View(), id, t);
      }
    }

    /** addSchema: visited first, listed after everything it leads to. */
    method AddSchema(id: string)
      requires included <= graph.Keys && id in graph && id !in included
      modifies this
      ensures Grown(graph, old(View()), View(), id)
      ensures id in included
      decreases graph.Keys - included, 0
    {
      included := included + {id};
      ghost var start := View();
      AddFields(id);
      ghost var fields := View();
      AddActions(id, graph[id].resourceActions);
      ghost var actions := View();
      AddActions(id, graph[id].collectionActions);
      GrownTwice(graph, start, fields, actions, id);
      GrownTwice(graph, start, actions, View(), id);
      Finish(graph, id, old(View()), View());
      listed := listed + [id];
    }

    method AddFields(id: string)
      requires included <= graph.Keys && id in included
      modifies this
      ensures Grown(graph, old(View()), View(), id)
      ensures forall f :: f in graph[id].fields && Peel(graph[id].fields[f]) in graph ==>
                Peel(graph[id].fields[f]) in included
      decreases graph.Keys - included, 3
    {
      var fields := graph[id].fields;
      var todo := fields.Keys;
      while todo != {}
        invariant todo <= fields.Keys
        invariant Grown(graph, old(View()), View(), id)
        invariant forall f :: f in fields.Keys - todo && Peel(fields[f]) in graph ==> Peel(fields[f]) in included
        decreases todo
      {
        var f :| f in todo;
        ghost var before := View();
        var t := PeelLoop(fields[f]);
        Visit(id, t);
        GrownTwice(graph, old(View()), before, View(), id);
        todo := todo - {f};
      }
    }

    method AddActions(id: string, actions: map<string, Action>)
      requires included <= graph.Keys && id in included
      requires ActionTypes(actions) <= Mentions(graph[id])
      modifies this
      ensures Grown(graph, old(View()), View(), id)
      ensures forall t :: t in ActionTypes(actions) && t in graph ==> t in included
      decreases graph.Keys - included, 3
    {
      var todo := actions.Keys;
      while todo != {}
        invariant todo <= actions.Keys
        invariant Grown(graph, old(View()), View(), id)
        invariant forall a :: a in actions.Keys - todo ==> ActionDone(actions[a])
        decreases todo
      {
        var a :| a in todo;
        ghost var before := View();
        assert forall t :: t in TypesOf(actions[a]) ==> t in ActionTypes(actions);
        AddAction(id, actions[a]);
        GrownTwice(graph, old(View()), before, View(), id);
        todo := todo - {a};
      }
    }

    method AddAction(id: string, a: Action)
      requires included <= graph.Keys && id in included && TypesOf(a) <= Mentions(graph[id])
      modifies this
      ensures Grown(graph, old(View()), View(), id)
      ensures ActionDone(a)
      decreases graph.Keys - included, 2
    {
      if a.output != "" { Visit(id, a.output); }
      ghost var between := View();
      if a.input != "" { Visit(id, a.input); }
      GrownTwice(graph, old(View()), between, View(), id);
    }

    ghost predicate ActionDone(a: Action)
      reads this
    {
      forall t :: t in TypesOf(a) && t in graph ==> t in included
    }

    /** The whole listing: whatever order the maps are walked in, each schema that is visible, or
        mentioned from a visible one however far, exactly once, and no other. */
    method List(visible: set<string>)
      requires included == {} && listed == []
      modifies this
      ensures NoRepeats(listed)
      ensures forall x :: x in listed <==> FromVisible(graph, visible, x)
    {
      var todo := graph.Keys;
      while todo != {}
        invariant todo <= graph.Keys && Settled(graph, visible, View())
        invariant (graph.Keys - todo) * visible <= included
        decreases todo
      {
        var id :| id in todo;
        ghost var before := View();
        if id in visible && id !in included {
          AddSchema(id);
          SettledAgain(graph, visible, before, View(), id);
        }
        todo := todo - {id};
      }
      forall x
        ensures x in listed <==> FromVisible(graph, visible, x)
      {
        AllListed(graph, visible, View(), x);
      }
    }
  }
}
