/** The broadcaster (pkg/broadcast): one input stream shared by any number of subscribers. */
module Broadcast {
  import opened Text

  type Item = string

  const CAPACITY := 100

  /** A subscriber's channel, and what its reader has taken out of it so far. */
  datatype Chan = Chan(buffer: seq<Item>, closed: bool, taken: seq<Item>)

  /** `pending`: subscriptions about to be undone, cancelled or too slow. `panicked`: a send on, or a
      close of, a closed channel. */
  datatype State = State(running: bool, streams: nat, subs: set<int>, chans: map<int, Chan>, pending: set<int>,
                         panicked: bool)

  // --------------------------------------------------------------- the operations

  function Send(c: Chan, x: Item): Chan { if |c.buffer| < CAPACITY then c.(buffer := c.buffer + [x]) else c }

  /** One item for some subscribers; whoever is full misses it and is about to be dropped. */
  function SentTo(s: State, x: Item, to: set<int>): State {
    s.(chans := map i | i in s.chans :: if i in to then Send(s.chans[i], x) else s.chans[i],
       pending := s.pending + (set i | i in to && i in s.chans && |s.chans[i].buffer| >= CAPACITY),
       panicked := s.panicked || exists i :: i in to && i in s.chans && s.chans[i].closed)
  }

  /** One item for everybody. */
  function Broadcasted(s: State, x: Item): State { SentTo(s, x, s.subs) }

  function ClosedFor(s: State, these: set<int>): State {
    s.(subs := s.subs - these,
       chans := map i | i in s.chans :: if i in these then s.chans[i].(closed := true) else s.chans[i],
       panicked := s.panicked || exists i :: i in these && i in s.chans && s.chans[i].closed)
  }

  function Unsubscribed(s: State, i: int): State {
    if i in s.subs && i in s.chans then
      s.(subs := s.subs - {i}, chans := s.chans[i := s.chans[i].(closed := true)],
         panicked := s.panicked || s.chans[i].closed)
    else s
  }

  /** The input ended. */
  function Ended(s: State): State {
    ClosedFor(s, s.subs).(running := false, streams := if s.streams > 0 then s.streams - 1 else 0)
  }

  function Subscribed(s: State, i: int, connects: bool): State {
    if !s.running && !connects then s
    else
      s.(running := true, streams := if s.running then s.streams else s.streams + 1,
         subs := s.subs + {i}, chans := s.chans[i := Chan([], false, [])])
  }

  // ------------------------------------------------------------------------ runs

  datatype Step = Subscribe(i: int, connects: bool) | Cancel(i: int) | Unsub(i: int) | Stream(x: Item) | End
                | Take(i: int)

  /** The state with its history: all items streamed, where each subscription began and ended in them,
      and who ever missed one. */
  datatype World = World(now: State, log: seq<Item>, from: map<int, nat>, until: map<int, nat>, missed: set<int>)

  const INIT := World(State(false, 0, {}, map[], {}, false), [], map[], map[], {})

  predicate Enabled(w: World, step: Step) {
    match step
    case Subscribe(i, _) => i !in w.now.chans
    case Cancel(i) => i in w.now.chans
    case Unsub(i) => i in w.now.pending
    case Stream(_) => w.now.streams > 0
    case End => w.now.streams > 0
    case Take(i) => i in w.now.chans && w.now.chans[i].buffer != []
  }

  function Next(w: World, step: Step): World {
    var s := w.now;
    match step
    case Subscribe(i, connects) =>
      if !s.running && !connects then w else w.(now := Subscribed(s, i, connects), from := w.from[i := |w.log|])
    case Cancel(i) => w.(now := s.(pending := s.pending + {i}))
    case Unsub(i) =>
      w.(now := Unsubscribed(s, i).(pending := s.pending - {i}),
         until := if i in s.subs then w.until[i := |w.log|] else w.until)
    case Stream(x) =>
      w.(now := Broadcasted(s, x), log := w.log + [x],
         missed := w.missed + (set i | i in s.subs && i in s.chans && |s.chans[i].buffer| >= CAPACITY))
    case End => w.(now := Ended(s), until := w.until + (map i | i in s.subs :: |w.log|))
    case Take(i) =>
      if i in s.chans && s.chans[i].buffer != [] then
        var c := s.chans[i];
        w.(now := s.(chans := s.chans[i := c.(buffer := c.buffer[1..], taken := c.taken + [c.buffer[0]])]))
      else w
  }

  function Delivered(c: Chan): seq<Item> { c.taken + c.buffer }

  /** a is b with some items left out. */
  predicate Within(a: seq<Item>, b: seq<Item>)
    decreases |b|
  {
    if b == [] then a == []
    else (a != [] && a[|a| - 1] == b[|b| - 1] && Within(a[..|a| - 1], b[..|b| - 1])) || Within(a, b[..|b| - 1])
  }

  lemma WithinMore(a: seq<Item>, b: seq<Item>, x: Item)
    requires Within(a, b)
    ensures Within(a, b + [x]) && Within(a + [x], b + [x])
  {
    assert (b + [x])[..|b|] == b && (a + [x])[..|a|] == a;
  }

  /** The items streamed while the subscription lasted. */
  function Slice(w: World, i: int): seq<Item>
    requires i in w.from && w.from[i] <= |w.log|
    requires i in w.until ==> w.from[i] <= w.until[i] <= |w.log|
  {
    if i in w.until then w.log[w.from[i]..w.until[i]] else w.log[w.from[i]..]
  }

  ghost predicate ChanOk(w: World, i: int)
    requires i in w.now.chans
  {
    && i in w.from && w.from[i] <= |w.log|
    && (i in w.until ==> w.from[i] <= w.until[i] <= |w.log|)
    && (i in w.now.subs <==> !w.now.chans[i].closed)
    && (i in w.now.subs <==> i !in w.until)
    && |w.now.chans[i].buffer| <= CAPACITY
    && Within(Delivered(w.now.chans[i]), Slice(w, i))
    && (i !in w.missed ==> Delivered(w.now.chans[i]) == Slice(w, i))
  }

  ghost predicate Inv(w: World) {
    && !w.now.panicked
    && w.now.streams == (if w.now.running then 1 else 0)
    && (!w.now.running ==> w.now.subs == {})
    && w.now.subs <= w.now.chans.Keys
    && w.until.Keys <= w.now.chans.Keys
    && (forall i :: i in w.now.chans ==> ChanOk(w, i))
  }

  lemma StreamKeeps(w: World, x: Item, i: int)
    requires Inv(w) && i in w.now.chans
    ensures ChanOk(Next(w, Stream(x)), i)
  {
    var v := Next(w, Stream(x));
    var c := w.now.chans[i];
    assert ChanOk(w, i);
    if i in w.now.subs {
      assert Slice(v, i) == Slice(w, i) + [x];
      WithinMore(Delivered(c), Slice(w, i), x);
      if |c.buffer| < CAPACITY { assert Delivered(v.now.chans[i]) == Delivered(c) + [x]; }
    } else {
      assert Slice(v, i) == Slice(w, i);
    }
  }

  lemma EndKeeps(w: World, i: int)
    requires Inv(w) && i in w.now.chans
    ensures ChanOk(Next(w, End), i)
  {
    assert ChanOk(w, i);
    assert w.log[..|w.log|] == w.log;
    assert Slice(Next(w, End), i) == Slice(w, i);
  }

  lemma TakeKeeps(w: World, j: int, i: int)
    requires Inv(w) && Enabled(w, Take(j)) && i in w.now.chans
    ensures ChanOk(Next(w, Take(j)), i)
  {
    assert ChanOk(w, i);
    assert Slice(Next(w, Take(j)), i) == Slice(w, i);
    var c := w.now.chans[j];
    assert c.taken + [c.buffer[0]] + c.buffer[1..] == c.taken + c.buffer;
  }

  lemma UnsubKeeps(w: World, j: int, i: int)
    requires Inv(w) && i in w.now.chans
    ensures ChanOk(Next(w, Unsub(j)), i)
  {
    assert ChanOk(w, i);
    assert w.log[..|w.log|] == w.log;
    assert Slice(Next(w, Unsub(j)), i) == Slice(w, i);
  }

  lemma SubscribeKeeps(w: World, j: int, connects: bool, i: int)
    requires Inv(w) && j !in w.now.chans && i in Next(w, Subscribe(j, connects)).now.chans
    ensures ChanOk(Next(w, Subscribe(j, connects)), i)
  {
    var v := Next(w, Subscribe(j, connects));
    if i == j { assert Slice(v, i) == []; }
    else {
      assert ChanOk(w, i);
      assert Slice(v, i) == Slice(w, i);
    }
  }

  lemma StepKeeps(w: World, step: Step)
    requires Inv(w) && Enabled(w, step)
    ensures Inv(Next(w, step))
  {
    var v := Next(w, step);
    forall i | i in v.now.chans
      ensures ChanOk(v, i)
    {
      if step.Stream? { StreamKeeps(w, step.x, i); }
      else if step.End? { EndKeeps(w, i); }
      else if step.Take? { TakeKeeps(w, step.i, i); }
      else if step.Unsub? { UnsubKeeps(w, step.i, i); }
      else if step.Subscribe? { SubscribeKeeps(w, step.i, step.connects, i); }
      else { assert ChanOk(w, i) && Slice(v, i) == Slice(w, i); }
    }
    forall i | i in w.now.chans
      ensures ChanOk(w, i)
    {
    }
  }

  ghost predicate Runs(w: World, steps: seq<Step>, v: World)
    decreases |steps|
  {
    if steps == [] then w == v else Enabled(w, steps[0]) && Runs(Next(w, steps[0]), steps[1..], v)
  }

  lemma {:induction false} RunKeeps(w: World, steps: seq<Step>, v: World)
    requires Inv(w) && Runs(w, steps, v)
    ensures Inv(v)
    decreases |steps|
  {
    if steps != [] {
      StepKeeps(w, steps[0]);
      RunKeeps(Next(w, steps[0]), steps[1..], v);
    }
  }

  /** No run sends on or closes a closed channel, has two streams, or keeps a subscriber without one. */
  lemma BroadcastSafety(steps: seq<Step>, w: World)
    requires Runs(INIT, steps, w)
    ensures !w.now.panicked
    ensures w.now.streams <= 1
    ensures w.now.streams == 0 ==> w.now.subs == {} && forall i :: i in w.now.chans ==> w.now.chans[i].closed
  {
    RunKeeps(INIT, steps, w);
    forall i | i in w.now.chans && w.now.streams == 0
      ensures w.now.chans[i].closed
    {
      assert ChanOk(w, i);
    }
  }

  /** A subscriber gets the items of its time in their order: all of them if it was never full. */
  lemma EverythingInOrder(steps: seq<Step>, w: World, i: int)
    requires Runs(INIT, steps, w) && i in w.now.chans
    ensures i in w.from && w.from[i] <= |w.log| && (i in w.until ==> w.from[i] <= w.until[i] <= |w.log|)
    ensures Within(Delivered(w.now.chans[i]), Slice(w, i))
    ensures i !in w.missed ==> Delivered(w.now.chans[i]) == Slice(w, i)
    ensures i in w.until <==> w.now.chans[i].closed
  {
    RunKeeps(INIT, steps, w);
    assert ChanOk(w, i);
  }

  // --------------------------------------------------------------------- the loops

  /** A new, open and empty channel for subscriber i; a stream runs. */
  ghost predicate Joined(s: State, s': State, i: int) {
    && i in s'.subs && i in s'.chans && s'.chans[i].buffer == [] && s'.chans[i].taken == [] && !s'.chans[i].closed
    && s'.running && s'.streams == s.streams + (if s.running then 0 else 1)
    && s'.subs == s.subs + {i} && s'.chans.Keys == s.chans.Keys + {i}
    && forall j :: j in s.chans && j != i ==> s'.chans[j] == s.chans[j]
  }

  /** Channel j got the item, or had no room and is about to be dropped. */
  predicate Offered(s: State, s': State, x: Item, j: int)
    requires j in s.chans && j in s'.chans
  {
    if |s.chans[j].buffer| < CAPACITY
    then s'.chans[j] == s.chans[j].(buffer := s.chans[j].buffer + [x])
    else s'.chans[j] == s.chans[j] && j in s'.pending
  }

  class Broadcaster {
    var state: State

    constructor ()
      ensures state == INIT.now
    {
      state := State(false, 0, {}, map[], {}, false);
    }

    method Subscribe(i: int, connects: bool) returns (ok: bool)
      requires i !in state.chans
      modifies this
      ensures state == Subscribed(old(state), i, connects)
      ensures ok <==> old(state).running || connects
      ensures if ok then Joined(old(state), state, i) else state == old(state)
    {
      if !state.running {
        if !connects { return false; }
        state := state.(streams := state.streams + 1, running := true);
      }
      state := state.(subs := state.subs + {i}, chans := state.chans[i := Chan([], false, [])]);
      ok := true;
    }

    method Unsub(i: int)
      requires state.subs <= state.chans.Keys
      modifies this
      ensures state == Unsubscribed(old(state), i)
      ensures i in old(state).subs ==>
                && state.subs == old(state).subs - {i} && i in state.chans && state.chans[i].closed
                && state.chans[i].buffer == old(state).chans[i].buffer
      ensures i !in old(state).subs ==> state == old(state)
      ensures forall j :: j in old(state).chans && j != i ==> j in state.chans && state.chans[j] == old(state).chans[j]
    {
      if i in state.subs {
        var c := state.chans[i];
        state := state.(subs := state.subs - {i}, chans := state.chans[i := c.(closed := true)],
                        panicked := state.panicked || c.closed);
      }
    }

    /** One round of the stream's loop, in any order of the subscribers. */
    method StreamItem(x: Item, order: seq<int>)
      requires state.subs <= state.chans.Keys && Enumerates(order, state.subs)
      modifies this
      ensures state == Broadcasted(old(state), x)
      ensures state.chans.Keys == old(state).chans.Keys && state.subs == old(state).subs
      ensures forall j :: j in old(state).subs ==> Offered(old(state), state, x, j)
      ensures forall j :: j in old(state).chans && j !in old(state).subs ==> state.chans[j] == old(state).chans[j]
    {
      ghost var was := state;
      SentToNone(was, x);
      for n := 0 to |order|
        invariant state == SentTo(was, x, Elements(order[..n]))
      {
        var i := order[n];
        Visit(order, was.subs, n);
        SentToOneMore(was, x, Elements(order[..n]), i);
        var c := state.chans[i];
        state := state.(panicked := state.panicked || c.closed); // a send on a closed channel, full or not
        if |c.buffer| < CAPACITY {
          state := state.(chans := state.chans[i := c.(buffer := c.buffer + [x])]);
        } else {
          state := state.(pending := state.pending + {i});
        }
      }
      AllVisited(order, was.subs);
    }

    /** The end of the stream. */
    method StreamEnd(order: seq<int>)
      requires state.subs <= state.chans.Keys && Enumerates(order, state.subs)
      modifies this
      ensures state == Ended(old(state))
      ensures state.subs == {} && !state.running && state.chans.Keys == old(state).chans.Keys
      ensures forall j :: j in state.chans ==>
                state.chans[j] == old(state).chans[j].(closed := old(state).chans[j].closed || j in old(state).subs)
    {
      ghost var was := state;
      ClosedForNone(was);
      for n := 0 to |order|
        invariant state == ClosedFor(was, Elements(order[..n]))
      {
        Visit(order, was.subs, n);
        ClosedForOneMore(was, Elements(order[..n]), order[n]);
        Unsub(order[n]);
      }
      AllVisited(order, was.subs);
      state := state.(running := false, streams := if state.streams > 0 then state.streams - 1 else 0);
    }
  }

  lemma Visit(order: seq<int>, keys: set<int>, n: nat)
    requires Enumerates(order, keys) && n < |order|
    ensures order[n] in keys && order[n] !in Elements(order[..n])
    ensures Elements(order[..n + 1]) == Elements(order[..n]) + {order[n]}
  {
    assert order[n] in Elements(order);
    assert order[..n + 1] == order[..n] + [order[n]];
  }

  lemma AllVisited(order: seq<int>, keys: set<int>)
    requires Enumerates(order, keys)
    ensures Elements(order[..|order|]) == keys
  {
    assert order[..|order|] == order;
  }

  lemma SentToNone(s: State, x: Item)
    ensures SentTo(s, x, {}) == s
  {
    assert SentTo(s, x, {}).chans == s.chans;
  }

  lemma SentToOneMore(s: State, x: Item, done: set<int>, i: int)
    requires i in s.chans && i !in done
    ensures var t, u := SentTo(s, x, done), SentTo(s, x, done + {i});
            var c := s.chans[i];
            && i in t.chans && t.chans[i] == c
            && u == if |c.buffer| < CAPACITY
                    then t.(chans := t.chans[i := Send(c, x)], panicked := t.panicked || c.closed)
                    else t.(pending := t.pending + {i}, panicked := t.panicked || c.closed)
  {
    var t, u := SentTo(s, x, done), SentTo(s, x, done + {i});
    assert u.chans == t.chans[i := Send(s.chans[i], x)];
    if |s.chans[i].buffer| >= CAPACITY { assert u.chans == t.chans; }
    else { assert u.pending == t.pending; }
  }

  lemma ClosedForNone(s: State)
    ensures ClosedFor(s, {}) == s
  {
    assert ClosedFor(s, {}).chans == s.chans;
  }

  lemma ClosedForOneMore(s: State, done: set<int>, i: int)
    requires i in s.subs && i in s.chans && i !in done
    ensures ClosedFor(s, done + {i}) == Unsubscribed(ClosedFor(s, done), i)
    ensures ClosedFor(s, done).chans.Keys == s.chans.Keys
  {
    var t, u := ClosedFor(s, done), ClosedFor(s, done + {i});
    assert u.chans == t.chans[i := s.chans[i].(closed := true)];
    assert u.subs == t.subs - {i};
  }
}
