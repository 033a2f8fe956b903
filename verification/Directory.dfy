/**
 The session directory and its mirror at a peer (pkg/remotedialer/session_manager.go, and
 addRemoteClient/removeRemoteClient of session.go).
 */
module Directory {
  import opened Text
  import opened Wire

  // ------------------------------------------------------ session addresses

  function Decimal(n: nat): (r: Bytes)
    ensures |r| >= 1
  {
    if n < 10 then [(48 + n) as byte] else Decimal(n / 10) + [(48 + n % 10) as byte]
  }

  /** The digits of a number, the highest first, without a zero in front. */
  lemma {:induction false} DecimalDigits(n: nat)
    ensures var d := Decimal(n);
            && (forall i :: 0 <= i < |d| ==> 48 <= d[i] <= 57) && (n > 0 ==> d[0] != 48)
            && Base10(d) == n
    decreases n
  {
    if n >= 10 {
      DecimalDigits(n / 10);
      assert Decimal(n)[..|Decimal(n)| - 1] == Decimal(n / 10);
    } else {
      assert Decimal(n)[..0] == [];
    }
  }

  /** The number that digits stand for. */
  function Base10(d: Bytes): int { if d == [] then 0 else 10 * Base10(d[..|d| - 1]) + d[|d| - 1] as int - 48 }

  predicate IsDigit(b: byte) { 48 <= b <= 57 }

  function ParseDigits(s: Bytes): Option<nat> {
    if s == [] then Some(0)
    else if !IsDigit(s[|s| - 1]) then None
    else
      match ParseDigits(s[..|s| - 1])
      case None => None
      case Some(v) => Some(10 * v + (s[|s| - 1] as nat - 48))
  }

  /** strconv.Atoi on a 64-bit platform. */
  function Atoi(s: Bytes): Option<int> {
    var signed := s != [] && (s[0] == 43 || s[0] == 45);
    var digits := if signed then s[1..] else s;
    if digits == [] then None
    else
      match ParseDigits(digits)
      case None => None
      case Some(v) =>
        var x: int := if signed && s[0] == 45 then -(v as int) else v;
        if Int64(x) then Some(x) else None
  }

  lemma {:induction false} ParseDecimal(n: nat)
    ensures ParseDigits(Decimal(n)) == Some(n) && IsDigit(Decimal(n)[0])
  {
    if n < 10 {
      assert ParseDigits([]) == Some(0);
    } else {
      ParseDecimal(n / 10);
      assert Decimal(n)[..|Decimal(n)| - 1] == Decimal(n / 10);
    }
  }

  lemma {:induction false} ParsedIsShort(s: Bytes, v: nat)
    requires s != [] && ParseDigits(s) == Some(v)
    ensures |Decimal(v)| <= |s|
  {
    if v >= 10 {
      var init := s[..|s| - 1];
      assert init != [] by { assert init == [] ==> ParseDigits(init) == Some(0); }
      ParsedIsShort(init, ParseDigits(init).value);
    }
  }

  /** sessionAdded and sessionRemoved write "%s/%d". */
  function Address(key: Bytes, id: nat): Bytes { key + [SLASH] + Decimal(id) }

  function ParseAddress(text: Bytes): Option<(Bytes, int)> {
    match Cut(text, [SLASH])
    case None => None
    case Some((key, number)) =>
      match Atoi(number)
      case None => None
      case Some(id) => Some((key, id))
  }

  /**
   A session address survives the wire exactly when its client key has no slash and the text fits
   in the 100 bytes the decoder reads; a longer one is cut and names another session or none.
   */
  lemma AddressRoundTrip(key: Bytes, id: nat)
    requires Int64(id)
    ensures ParseAddress(Limit(Address(key, id))) == Some((key, id))
       <==> SLASH !in key && |Address(key, id)| <= TEXT_LIMIT
  {
    var text, d := Address(key, id), Decimal(id);
    ParseDecimal(id);
    if |text| <= TEXT_LIMIT {
      CutJoinOne(key, SLASH, d);
    } else if |key| + 1 <= TEXT_LIMIT {
      var short := d[..TEXT_LIMIT - |key| - 1];
      assert Limit(text) == key + [SLASH] + short;
      CutJoinOne(key, SLASH, short);
      if SLASH !in key && short != [] && ParseDigits(short).Some? {
        ParsedIsShort(short, ParseDigits(short).value);
      }
    } else {
      assert Limit(text) == key[..TEXT_LIMIT];
      var r := Cut(Limit(text), [SLASH]);
      assert r.Some? ==> |r.value.0| < TEXT_LIMIT;
    }
  }

  // ----------------------------------------------------------- peer's table

  datatype Note = Added(key: Bytes, id: int) | Removed(key: Bytes, id: int)

  /** Session.remoteClientKeys: for each client key the session keys known at the other server. */
  type Table = map<Bytes, set<int>>

  function Known(t: Table, key: Bytes): set<int> { if key in t then t[key] else {} }

  function AddRemote(t: Table, key: Bytes, id: int): Table { t[key := Known(t, key) + {id}] }

  function RemoveRemote(t: Table, key: Bytes, id: int): Table {
    var keys := Known(t, key) - {id};
    if keys == {} then t - {key} else t[key := keys]
  }

  function Process(t: Table, n: Note): Table {
    if n.Added? then AddRemote(t, n.key, n.id) else RemoveRemote(t, n.key, n.id)
  }

  function Fold(notes: seq<Note>): Table {
    if notes == [] then map[] else Process(Fold(notes[..|notes| - 1]), notes[|notes| - 1])
  }

  /** What a session does with a decoded AddClient or RemoveClient message; None ends Serve. */
  function ProcessReceived(t: Table, r: Received): Option<Table> {
    match ParseAddress(r.address)
    case None => None
    case Some((key, id)) =>
      if r.kind == ADD_CLIENT then Some(AddRemote(t, key, id)) else Some(RemoveRemote(t, key, id))
  }

  function Notify(mid: int, n: Note): Message
    requires n.id >= 0
  {
    if n.Added? then NewAddClient(mid, Address(n.key, n.id)) else NewRemoveClient(mid, Address(n.key, n.id))
  }

  predicate Sendable(n: Note) { 0 <= n.id < TWO63 && SLASH !in n.key && |Address(n.key, n.id)| <= TEXT_LIMIT }

  /** A notification written by one server and read by the other has the effect that Fold gives it. */
  lemma NotificationArrives(t: Table, mid: int, n: Note)
    requires Int64(mid) && Sendable(n)
    ensures var r := Decode(Encode(Notify(mid, n)));
            r.Some? && ProcessReceived(t, r.value) == Some(Process(t, n))
  {
    AddressRoundTrip(n.key, n.id);
    if n.Added? {
      AddClientRoundTrip(mid, Address(n.key, n.id));
    } else {
      RemoveClientRoundTrip(mid, Address(n.key, n.id));
    }
  }

  // -------------------------------------------------------------- directory

  /** Sessions by client key; each session is known by its session key. */
  type Store = map<Bytes, seq<int>>

  function Sessions(s: Store, key: Bytes): seq<int> { if key in s then s[key] else [] }

  function Ids(list: seq<int>): set<int> { set i | i in list }

  /** What one listener was told since it was last added; `burst` of it by addListener itself. */
  datatype Log = Log(notes: seq<Note>, burst: nat)

  datatype Dir = Dir(clients: Store, peers: Store, listeners: map<int, Log>)

  const EMPTY := Dir(map[], map[], map[])

  /** The live (client key, session key) pairs. */
  function Live(d: Dir): Table {
    map key | key in d.clients.Keys + d.peers.Keys ::
      Ids(Sessions(d.clients, key)) + Ids(Sessions(d.peers, key))
  }

  function Tell(listeners: map<int, Log>, n: Note): map<int, Log> {
    map l | l in listeners :: listeners[l].(notes := listeners[l].notes + [n])
  }

  function Append(s: Store, key: Bytes, id: int): Store { s[key := Sessions(s, key) + [id]] }

  function Delete(s: Store, key: Bytes, id: int): Store {
    var rest := Except(Sessions(s, key), Equal(id));
    if rest == [] then s - {key} else s[key := rest]
  }

  function AddSession(d: Dir, key: Bytes, id: int, peer: bool): Dir {
    Dir(if peer then d.clients else Append(d.clients, key, id),
        if peer then Append(d.peers, key, id) else d.peers,
        Tell(d.listeners, Added(key, id)))
  }

  function RemoveSession(d: Dir, key: Bytes, id: int): Dir {
    Dir(Delete(d.clients, key, id), Delete(d.peers, key, id), Tell(d.listeners, Removed(key, id)))
  }

  function Announce(key: Bytes, ids: seq<int>): seq<Note> {
    seq(|ids|, i requires 0 <= i < |ids| => Added(key, ids[i]))
  }

  /** One pass over a store, in the given order of its keys. */
  function Burst(s: Store, order: seq<Bytes>): seq<Note> {
    if order == [] then []
    else Burst(s, order[..|order| - 1]) + Announce(order[|order| - 1], Sessions(s, order[|order| - 1]))
  }

  function WithListener(d: Dir, l: int, order1: seq<Bytes>, order2: seq<Bytes>): Dir {
    var burst := Burst(d.clients, order1) + Burst(d.peers, order2);
    d.(listeners := d.listeners[l := Log(burst, |burst|)])
  }

  function WithoutListener(d: Dir, l: int): Dir { d.(listeners := d.listeners - {l}) }

  datatype Op = Add(key: Bytes, id: int, peer: bool) | Remove(key: Bytes, id: int)
              | Listen(l: int, order1: seq<Bytes>, order2: seq<Bytes>) | Unlisten(l: int)

  ghost predicate Legal(d: Dir, op: Op) {
    op.Listen? ==> Enumerates(op.order1, d.clients.Keys) && Enumerates(op.order2, d.peers.Keys)
  }

  function Apply(d: Dir, op: Op): Dir {
    match op
    case Add(key, id, peer) => AddSession(d, key, id, peer)
    case Remove(key, id) => RemoveSession(d, key, id)
    case Listen(l, order1, order2) => WithListener(d, l, order1, order2)
    case Unlisten(l) => WithoutListener(d, l)
  }

  function Exec(ops: seq<Op>): Dir {
    if ops == [] then EMPTY else Apply(Exec(ops[..|ops| - 1]), ops[|ops| - 1])
  }

  ghost predicate IsRun(ops: seq<Op>) { forall i :: 0 <= i < |ops| ==> Legal(Exec(ops[..i]), ops[i]) }

  // ------------------------------------------------------------------ proof

  ghost predicate NoEmpty(s: Store) { forall key :: key in s ==> s[key] != [] }

  ghost predicate NoEmptyEntry(t: Table) { forall key :: key in t ==> t[key] != {} }

  lemma SameTable(t: Table, t': Table)
    requires NoEmptyEntry(t) && NoEmptyEntry(t') && forall key :: Known(t, key) == Known(t', key)
    ensures t == t'
  {
    forall key
      ensures key in t <==> key in t'
      ensures key in t ==> t[key] == t'[key]
    {
      assert Known(t, key) == Known(t', key);
    }
  }

  lemma IdsAppend(a: seq<int>, b: seq<int>)
    ensures Ids(a + b) == Ids(a) + Ids(b)
  {}

  lemma WithoutId(list: seq<int>, id: int)
    ensures Ids(Except(list, Equal(id))) == Ids(list) - {id}
  {
    ExceptElements(list, Equal(id));
  }

  lemma LiveAt(d: Dir, key: Bytes)
    ensures Known(Live(d), key) == Ids(Sessions(d.clients, key)) + Ids(Sessions(d.peers, key))
  {}

  lemma LiveHasNoEmptyEntry(d: Dir)
    requires NoEmpty(d.clients) && NoEmpty(d.peers)
    ensures NoEmptyEntry(Live(d))
  {
    forall key | key in Live(d)
      ensures Live(d)[key] != {}
    {
      if key in d.clients {
        assert d.clients[key][0] in Live(d)[key];
      } else {
        assert d.peers[key][0] in Live(d)[key];
      }
    }
  }

  lemma ProcessKeepsEntries(t: Table, n: Note)
    requires NoEmptyEntry(t)
    ensures NoEmptyEntry(Process(t, n))
    ensures forall key :: Known(Process(t, n), key) ==
              if key != n.key then Known(t, key)
              else if n.Added? then Known(t, key) + {n.id} else Known(t, key) - {n.id}
  {
    assert n.id in Known(t, n.key) + {n.id};
  }

  lemma StoresAfter(d: Dir, op: Op)
    requires NoEmpty(d.clients) && NoEmpty(d.peers)
    ensures NoEmpty(Apply(d, op).clients) && NoEmpty(Apply(d, op).peers)
  {}

  lemma IdsAfter(s: Store, key0: Bytes, id: int, key: Bytes)
    ensures Ids(Sessions(Append(s, key0, id), key)) == Ids(Sessions(s, key)) + if key == key0 then {id} else {}
    ensures Ids(Sessions(Delete(s, key0, id), key)) == Ids(Sessions(s, key)) - if key == key0 then {id} else {}
  {
    IdsAppend(Sessions(s, key), [id]);
    WithoutId(Sessions(s, key), id);
  }

  function NoteOf(op: Op): Note
    requires op.Add? || op.Remove?
  {
    if op.Add? then Added(op.key, op.id) else Removed(op.key, op.id)
  }

  lemma LiveAfterAdd(d: Dir, key0: Bytes, id: int, peer: bool, key: Bytes)
    ensures Known(Live(AddSession(d, key0, id, peer)), key) == Known(Live(d), key) + if key == key0 then {id} else {}
  {
    var d' := AddSession(d, key0, id, peer);
    LiveAt(d, key);
    LiveAt(d', key);
    IdsAfter(if peer then d.peers else d.clients, key0, id, key);
  }

  lemma LiveAfterRemove(d: Dir, key0: Bytes, id: int, key: Bytes)
    ensures Known(Live(RemoveSession(d, key0, id)), key) == Known(Live(d), key) - if key == key0 then {id} else {}
  {
    var d' := RemoveSession(d, key0, id);
    LiveAt(d, key);
    LiveAt(d', key);
    IdsAfter(d.clients, key0, id, key);
    IdsAfter(d.peers, key0, id, key);
  }

  lemma LiveFollowsAt(d: Dir, op: Op, key: Bytes)
    requires (op.Add? || op.Remove?) && NoEmptyEntry(Live(d))
    ensures Known(Live(Apply(d, op)), key) == Known(Process(Live(d), NoteOf(op)), key)
  {
    ProcessKeepsEntries(Live(d), NoteOf(op));
    if op.Add? {
      LiveAfterAdd(d, op.key, op.id, op.peer, key);
    } else {
      LiveAfterRemove(d, op.key, op.id, key);
    }
  }

  /** Adding or removing a session changes the live pairs as its notification changes a table. */
  lemma LiveFollows(d: Dir, op: Op)
    requires NoEmpty(d.clients) && NoEmpty(d.peers) && (op.Add? || op.Remove?)
    ensures Live(Apply(d, op)) == Process(Live(d), NoteOf(op))
  {
    StoresAfter(d, op);
    LiveHasNoEmptyEntry(d);
    LiveHasNoEmptyEntry(Apply(d, op));
    ProcessKeepsEntries(Live(d), NoteOf(op));
    forall key
      ensures Known(Live(Apply(d, op)), key) == Known(Process(Live(d), NoteOf(op)), key)
    {
      LiveFollowsAt(d, op, key);
    }
    SameTable(Live(Apply(d, op)), Process(Live(d), NoteOf(op)));
  }

  // addListener's burst

  lemma {:induction false} FoldIsClean(notes: seq<Note>)
    ensures NoEmptyEntry(Fold(notes))
  {
    if notes != [] {
      FoldIsClean(notes[..|notes| - 1]);
      ProcessKeepsEntries(Fold(notes[..|notes| - 1]), notes[|notes| - 1]);
    }
  }

  /** Folding additions only: a pair is there exactly when some note added it. */
  lemma {:induction false} FoldAdded(notes: seq<Note>, key: Bytes, id: int)
    requires forall i :: 0 <= i < |notes| ==> notes[i].Added?
    ensures id in Known(Fold(notes), key) <==> Added(key, id) in notes
  {
    if notes != [] {
      var init, last := notes[..|notes| - 1], notes[|notes| - 1];
      FoldAdded(init, key, id);
      FoldIsClean(init);
      ProcessKeepsEntries(Fold(init), last);
      assert notes == init + [last];
    }
  }

  lemma {:induction false} BurstAdds(s: Store, order: seq<Bytes>, key: Bytes, id: int)
    ensures forall i :: 0 <= i < |Burst(s, order)| ==> Burst(s, order)[i].Added?
    ensures Added(key, id) in Burst(s, order) <==> key in order && id in Sessions(s, key)
  {
    if order != [] {
      var init, last := order[..|order| - 1], order[|order| - 1];
      BurstAdds(s, init, key, id);
      assert order == init + [last];
      var ids := Sessions(s, last);
      var tail := Announce(last, ids);
      assert forall i :: 0 <= i < |ids| ==> tail[i] == Added(last, ids[i]);
      assert Added(key, id) in tail <==> key == last && id in ids;
    }
  }

  /** The burst of addListener folds to the live pairs, and every part of it to some of them. */
  lemma BurstMirrors(d: Dir, l: int, order1: seq<Bytes>, order2: seq<Bytes>)
    requires NoEmpty(d.clients) && NoEmpty(d.peers)
    requires Enumerates(order1, d.clients.Keys) && Enumerates(order2, d.peers.Keys)
    ensures Fold(WithListener(d, l, order1, order2).listeners[l].notes) == Live(d)
  {
    var b1, b2 := Burst(d.clients, order1), Burst(d.peers, order2);
    forall key
      ensures Known(Fold(b1 + b2), key) == Known(Live(d), key)
    {
      LiveAt(d, key);
      forall id
        ensures id in Known(Fold(b1 + b2), key) <==> id in Known(Live(d), key)
      {
        BurstAdds(d.clients, order1, key, id);
        BurstAdds(d.peers, order2, key, id);
        FoldAdded(b1 + b2, key, id);
      }
    }
    FoldIsClean(b1 + b2);
    LiveHasNoEmptyEntry(d);
    SameTable(Fold(b1 + b2), Live(d));
  }

  // whole runs

  ghost predicate DirOk(d: Dir) {
    && NoEmpty(d.clients) && NoEmpty(d.peers)
    && forall l :: l in d.listeners ==>
         d.listeners[l].burst <= |d.listeners[l].notes| && Fold(d.listeners[l].notes) == Live(d)
  }

  lemma ApplyKeeps(d: Dir, op: Op)
    requires DirOk(d) && Legal(d, op)
    ensures DirOk(Apply(d, op))
  {
    StoresAfter(d, op);
    if op.Listen? {
      BurstMirrors(d, op.l, op.order1, op.order2);
      assert Live(Apply(d, op)) == Live(d);
    } else if op.Unlisten? {
      assert Live(Apply(d, op)) == Live(d);
    } else {
      var n := NoteOf(op);
      LiveFollows(d, op);
      forall l | l in d.listeners
        ensures Fold(d.listeners[l].notes + [n]) == Process(Fold(d.listeners[l].notes), n)
      {
        var notes := d.listeners[l].notes;
        assert (notes + [n])[..|notes|] == notes;
      }
    }
  }

  lemma {:induction false} RunKeeps(ops: seq<Op>)
    requires IsRun(ops)
    ensures DirOk(Exec(ops))
  {
    if ops != [] {
      var init := ops[..|ops| - 1];
      assert forall i :: 0 <= i < |init| ==> init[..i] == ops[..i];
      RunKeeps(init);
      ApplyKeeps(Exec(init), ops[|ops| - 1]);
    }
  }

  /**
   At every point of every run, what a listener was told since it was last added folds to exactly
   the live (client key, session key) pairs, with no empty entry.
   */
  lemma ListenerMirrors(ops: seq<Op>, l: int)
    requires IsRun(ops) && l in Exec(ops).listeners
    ensures Fold(Exec(ops).listeners[l].notes) == Live(Exec(ops))
    ensures NoEmptyEntry(Live(Exec(ops)))
  {
    RunKeeps(ops);
    LiveHasNoEmptyEntry(Exec(ops));
  }

  /**
   A peer that has processed any prefix of its notifications, addListener's burst included, holds
   the directory as it was after some prefix of the run.
   */
  lemma {:induction false} PeerHoldsASnapshot(ops: seq<Op>, l: int, n: nat) returns (j: nat)
    requires IsRun(ops) && l in Exec(ops).listeners
    requires Exec(ops).listeners[l].burst <= n <= |Exec(ops).listeners[l].notes|
    ensures j <= |ops| && Fold(Exec(ops).listeners[l].notes[..n]) == Live(Exec(ops[..j]))
  {
    var notes := Exec(ops).listeners[l].notes;
    if n == |notes| {
      ListenerMirrors(ops, l);
      assert notes[..n] == notes && ops[..|ops|] == ops;
      j := |ops|;
    } else {
      var init := ops[..|ops| - 1];
      assert forall i :: 0 <= i < |init| ==> init[..i] == ops[..i];
      RunKeeps(init);
      var notes0 := Exec(init).listeners[l].notes;
      assert notes[..n] == notes0[..n];
      j := PeerHoldsASnapshot(init, l, n);
      assert init[..j] == ops[..j];
    }
  }

  /** Inside the burst the peer holds part of the directory as it was at registration, and nothing else. */
  lemma {:induction false} PartOfBurst(ops: seq<Op>, l: int, order1: seq<Bytes>, order2: seq<Bytes>, n: nat, key: Bytes)
    requires IsRun(ops + [Listen(l, order1, order2)])
    requires n <= Exec(ops + [Listen(l, order1, order2)]).listeners[l].burst
    ensures Known(Fold(Exec(ops + [Listen(l, order1, order2)]).listeners[l].notes[..n]), key)
         <= Known(Live(Exec(ops)), key)
  {
    var run := ops + [Listen(l, order1, order2)];
    assert run[..|ops|] == ops;
    var notes := Exec(run).listeners[l].notes;
    ListenerMirrors(run, l);
    assert Live(Exec(run)) == Live(Exec(ops));
    forall id | id in Known(Fold(notes[..n]), key)
      ensures id in Known(Fold(notes), key)
    {
      BurstAdds(Exec(ops).clients, order1, key, id);
      BurstAdds(Exec(ops).peers, order2, key, id);
      FoldAdded(notes[..n], key, id);
      FoldAdded(notes, key, id);
    }
  }

  /** So it routes a client key exactly when that snapshot had a session for it. */
  lemma PeerRoutesLikeTheSnapshot(ops: seq<Op>, l: int, n: nat, key: Bytes) returns (j: nat)
    requires IsRun(ops) && l in Exec(ops).listeners
    requires Exec(ops).listeners[l].burst <= n <= |Exec(ops).listeners[l].notes|
    ensures j <= |ops|
    ensures Known(Fold(Exec(ops).listeners[l].notes[..n]), key) != {}
       <==> Sessions(Exec(ops[..j]).clients, key) != [] || Sessions(Exec(ops[..j]).peers, key) != []
  {
    j := PeerHoldsASnapshot(ops, l, n);
    assert forall i :: 0 <= i < j ==> ops[..j][..i] == ops[..i];
    RunKeeps(ops[..j]);
    RoutesIffSession(Exec(ops[..j]), key);
  }

  // and over the wire

  /** What a peer's table becomes when it reads this message; None if it cannot be read. */
  function Receives(t: Table, message: Bytes): Option<Table> {
    var r := Decode(message);
    if r.Some? then ProcessReceived(t, r.value) else None
  }

  /** The table that a peer builds from what it reads. */
  function Built(wire: seq<Bytes>): Option<Table>
    decreases |wire|
  {
    if wire == [] then Some(map[])
    else
      var t := Built(wire[..|wire| - 1]);
      if t.Some? then Receives(t.value, wire[|wire| - 1]) else None
  }

  /** The message has the effect of the note. */
  ghost predicate Carries(message: Bytes, n: Note) { forall t :: Receives(t, message) == Some(Process(t, n)) }

  lemma EncodedCarries(n: Note, id: int)
    requires Sendable(n) && Int64(id)
    ensures Carries(Encode(Notify(id, n)), n)
  {
    forall t
      ensures Receives(t, Encode(Notify(id, n))) == Some(Process(t, n))
    {
      NotificationArrives(t, id, n);
    }
  }

  lemma {:induction false} BuiltIsFolded(wire: seq<Bytes>, notes: seq<Note>)
    requires |wire| == |notes| && forall i :: 0 <= i < |wire| ==> Carries(wire[i], notes[i])
    ensures Built(wire) == Some(Fold(notes))
    decreases |wire|
  {
    if wire != [] {
      var n := |wire| - 1;
      BuiltIsFolded(wire[..n], notes[..n]);
      assert Carries(wire[n], notes[n]);
      assert Receives(Fold(notes[..n]), wire[n]) == Some(Process(Fold(notes[..n]), notes[n]));
    }
  }

  /** The wire holds these notes, each as a message with some ID. */
  ghost predicate IsWritten(wire: seq<Bytes>, notes: seq<Note>, ids: seq<int>) {
    |wire| == |notes| == |ids| && forall i :: 0 <= i < |wire| ==> Written(wire[i], notes[i], ids[i])
  }

  predicate Written(message: Bytes, n: Note, id: int) { Sendable(n) && Int64(id) && message == Encode(Notify(id, n)) }

  /**
   A peer that has read any prefix of what was written to it since it was added, the burst included, has
   built the directory as it was after some prefix of the run, when every note can be sent.
   */
  lemma PeerBuildsASnapshot(ops: seq<Op>, l: int, wire: seq<Bytes>, ids: seq<int>) returns (j: nat)
    requires IsRun(ops) && l in Exec(ops).listeners
    requires Exec(ops).listeners[l].burst <= |wire| <= |Exec(ops).listeners[l].notes|
    requires IsWritten(wire, Exec(ops).listeners[l].notes[..|wire|], ids)
    ensures j <= |ops| && Built(wire) == Some(Live(Exec(ops[..j])))
  {
    var notes := Exec(ops).listeners[l].notes[..|wire|];
    forall i | 0 <= i < |wire|
      ensures Carries(wire[i], notes[i])
    {
      assert Written(wire[i], notes[i], ids[i]);
      EncodedCarries(notes[i], ids[i]);
    }
    BuiltIsFolded(wire, notes);
    j := PeerHoldsASnapshot(ops, l, |wire|);
  }

  lemma RoutesIffSession(d: Dir, key: Bytes)
    requires NoEmpty(d.clients) && NoEmpty(d.peers)
    ensures Known(Live(d), key) != {} <==> Sessions(d.clients, key) != [] || Sessions(d.peers, key) != []
  {
    LiveHasNoEmptyEntry(d);
    LiveAt(d, key);
  }

  // ------------------------------------------------- what the operations come down to

  /** Every listener, and nobody else, was told this once more. */
  ghost predicate AllTold(before: map<int, Log>, after: map<int, Log>, n: Note) {
    && after.Keys == before.Keys
    && forall l :: l in before ==> after[l].notes == before[l].notes + [n] && after[l].burst == before[l].burst
  }

  ghost predicate SameButFor(s: Store, s': Store, key: Bytes) {
    forall k :: k != key ==> (k in s' <==> k in s) && (k in s ==> s'[k] == s[k])
  }

  /** The session is now the last of its key, among the clients or the peers, and everybody was told. */
  ghost predicate Gained(d: Dir, d': Dir, key: Bytes, id: int, peer: bool) {
    var s, s' := if peer then d.peers else d.clients, if peer then d'.peers else d'.clients;
    && key in s' && s'[key] == (if key in s then s[key] else []) + [id] && SameButFor(s, s', key)
    && (if peer then d'.clients == d.clients else d'.peers == d.peers)
    && AllTold(d.listeners, d'.listeners, Added(key, id))
  }

  /** The session is in no list of its key any more, the others are; a key without sessions is gone. */
  ghost predicate GoneFrom(s: Store, s': Store, key: Bytes, id: int) {
    && SameButFor(s, s', key)
    && (forall x :: x in Sessions(s', key) <==> x in Sessions(s, key) && x != id)
    && (key in s' <==> exists x :: x in Sessions(s, key) && x != id)
  }

  ghost predicate Forgot(d: Dir, d': Dir, key: Bytes, id: int) {
    && GoneFrom(d.clients, d'.clients, key, id) && GoneFrom(d.peers, d'.peers, key, id)
    && AllTold(d.listeners, d'.listeners, Removed(key, id))
  }

  lemma AddGains(d: Dir, key: Bytes, id: int, peer: bool)
    ensures Gained(d, AddSession(d, key, id, peer), key, id, peer)
  {
  }

  lemma DeleteForgets(s: Store, key: Bytes, id: int)
    ensures GoneFrom(s, Delete(s, key, id), key, id)
  {
    var rest := Except(Sessions(s, key), Equal(id));
    ExceptElements(Sessions(s, key), Equal(id));
    assert forall x :: Equal(id)(x) <==> x == id;
    if rest != [] { assert rest[0] in rest; }
  }

  lemma RemoveForgets(d: Dir, key: Bytes, id: int)
    ensures Forgot(d, RemoveSession(d, key, id), key, id)
  {
    DeleteForgets(d.clients, key, id);
    DeleteForgets(d.peers, key, id);
  }

  lemma {:induction false} BurstNames(s: Store, order: seq<Bytes>, n: Note)
    ensures n in Burst(s, order) <==> n.Added? && n.key in order && n.id in Sessions(s, n.key)
    decreases |order|
  {
    if order != [] {
      var init, key := order[..|order| - 1], order[|order| - 1];
      BurstNames(s, init, n);
      assert order == init + [key];
      var ids := Sessions(s, key);
      if n in Announce(key, ids) { var i :| 0 <= i < |ids| && n == Added(key, ids[i]); }
      if n.Added? && n.key == key && n.id in ids {
        var i :| 0 <= i < |ids| && ids[i] == n.id;
        assert Announce(key, ids)[i] == n;
      }
    }
  }

  /** The new listener is told of every session there is, and of nothing else; nothing but its log changes. */
  ghost predicate Heard(d: Dir, d': Dir, l: int) {
    && d'.clients == d.clients && d'.peers == d.peers && d'.listeners.Keys == d.listeners.Keys + {l}
    && (forall j :: j in d.listeners && j != l ==> d'.listeners[j] == d.listeners[j])
    && forall n :: n in d'.listeners[l].notes <==>
                   n.Added? && (n.id in Sessions(d.clients, n.key) || n.id in Sessions(d.peers, n.key))
  }

  lemma ListenHears(d: Dir, l: int, order1: seq<Bytes>, order2: seq<Bytes>)
    requires Enumerates(order1, d.clients.Keys) && Enumerates(order2, d.peers.Keys)
    ensures Heard(d, WithListener(d, l, order1, order2), l)
  {
    Enumerated(order1, d.clients.Keys);
    Enumerated(order2, d.peers.Keys);
    forall n
      ensures n in Burst(d.clients, order1) + Burst(d.peers, order2) <==>
                n.Added? && (n.id in Sessions(d.clients, n.key) || n.id in Sessions(d.peers, n.key))
    {
      BurstNames(d.clients, order1, n);
      BurstNames(d.peers, order2, n);
    }
  }

  // ------------------------------------------------------------- the object

  /** getDialer's answer: a session of this server, a peer's session with the key as prefix, or an error. */
  datatype Route = Local(id: int) | ViaPeer(id: int, prefix: Bytes) | NotFound

  predicate Knows(remotes: map<int, Table>, id: int, key: Bytes) { id in remotes && Known(remotes[id], key) != {} }

  class SessionManager {
    var clients: Store
    var peers: Store
    var listeners: map<int, Log>

    ghost function View(): Dir
      reads this
    {
      Dir(clients, peers, listeners)
    }

    constructor ()
      ensures View() == EMPTY
    {
      clients, peers, listeners := map[], map[], map[];
    }

    /** One call of sessionAdded or sessionRemoved per listener, in the order the Go map gives them. */
    method TellAll(n: Note, order: seq<int>)
      requires Enumerates(order, listeners.Keys)
      modifies this`listeners
      ensures listeners == Tell(old(listeners), n)
    {
      ghost var before := listeners;
      for i := 0 to |order|
        invariant listeners.Keys == before.Keys
        invariant forall j :: 0 <= j < i ==> listeners[order[j]] == Tell(before, n)[order[j]]
        invariant forall j :: i <= j < |order| ==> listeners[order[j]] == before[order[j]]
      {
        var log := listeners[order[i]];
        listeners := listeners[order[i] := Log(log.notes + [n], log.burst)];
      }
      forall l | l in before
        ensures listeners[l] == Tell(before, n)[l]
      {
        assert l in order;
      }
    }

    method Add(key: Bytes, id: int, peer: bool, order: seq<int>)
      requires Enumerates(order, listeners.Keys)
      modifies this
      ensures View() == AddSession(old(View()), key, id, peer)
      ensures Gained(old(View()), View(), key, id, peer)
    {
      AddGains(View(), key, id, peer);
      if peer {
        peers := peers[key := (if key in peers then peers[key] else []) + [id]];
      } else {
        clients := clients[key := (if key in clients then clients[key] else []) + [id]];
      }
      TellAll(Added(key, id), order);
    }

    static method Filter(store: Store, key: Bytes, id: int) returns (r: Store)
      ensures r == Delete(store, key, id)
    {
      var list, rest: seq<int> := if key in store then store[key] else [], [];
      for i := 0 to |list|
        invariant rest == Except(list[..i], Equal(id))
      {
        ExceptOneMore(list, i, Equal(id));
        if list[i] != id { rest := rest + [list[i]]; }
      }
      assert list[..|list|] == list;
      r := if rest == [] then store - {key} else store[key := rest];
    }

    method Remove(key: Bytes, id: int, order: seq<int>)
      requires Enumerates(order, listeners.Keys)
      modifies this
      ensures View() == RemoveSession(old(View()), key, id)
      ensures Forgot(old(View()), View(), key, id)
    {
      RemoveForgets(View(), key, id);
      clients := Filter(clients, key, id);
      peers := Filter(peers, key, id);
      TellAll(Removed(key, id), order);
    }

    static method Replay(store: Store, order: seq<Bytes>) returns (notes: seq<Note>)
      ensures notes == Burst(store, order)
    {
      notes := [];
      for i := 0 to |order|
        invariant notes == Burst(store, order[..i])
      {
        var ids := if order[i] in store then store[order[i]] else [];
        ghost var before := notes;
        for j := 0 to |ids|
          invariant notes == before + Announce(order[i], ids[..j])
        {
          notes := notes + [Note.Added(order[i], ids[j])];
        }
        assert ids[..|ids|] == ids && order[..i + 1][..i] == order[..i];
      }
      assert order[..|order|] == order;
    }

    method AddListener(l: int, order1: seq<Bytes>, order2: seq<Bytes>)
      requires Enumerates(order1, clients.Keys) && Enumerates(order2, peers.Keys)
      modifies this`listeners
      ensures View() == WithListener(old(View()), l, order1, order2)
      ensures Heard(old(View()), View(), l)
    {
      ListenHears(View(), l, order1, order2);
      var first := Replay(clients, order1);
      var second := Replay(peers, order2);
      listeners := listeners[l := Log(first + second, |first + second|)];
    }

    method RemoveListener(l: int)
      modifies this`listeners
      ensures View() == WithoutListener(old(View()), l)
    {
      listeners := listeners - {l};
    }

    method GetDialer(key: Bytes, remotes: map<int, Table>) returns (r: Route)
      ensures Sessions(clients, key) != [] ==> r == Local(Sessions(clients, key)[0])
      ensures r.ViaPeer? ==> r.prefix == key && Knows(remotes, r.id, key) && exists p :: p in peers && r.id in peers[p]
      ensures r.NotFound? ==> forall p, i :: p in peers && 0 <= i < |peers[p]| ==> !Knows(remotes, peers[p][i], key)
      ensures r.Local? ==> Sessions(clients, key) != []
    {
      var sessions := if key in clients then clients[key] else [];
      if |sessions| > 0 { return Local(sessions[0]); }
      var todo := peers.Keys;
      while todo != {}
        invariant todo <= peers.Keys
        invariant forall p, i :: p in peers.Keys - todo && 0 <= i < |peers[p]| ==> !Knows(remotes, peers[p][i], key)
        decreases |todo|
      {
        var p :| p in todo;
        for i := 0 to |peers[p]|
          invariant forall j :: 0 <= j < i ==> !Knows(remotes, peers[p][j], key)
        {
          if Knows(remotes, peers[p][i], key) { return ViaPeer(peers[p][i], key); }
        }
        todo := todo - {p};
      }
      r := NotFound;
    }
  }
}
