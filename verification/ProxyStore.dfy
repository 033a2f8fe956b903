/** The optimistic update loop against the Kubernetes API server (store/proxy/proxy_store.go). */
module ProxyStore {
  import opened Text
  import opened Values
  import opened Merge

  // ----------------------------------------------------------- the API server

  /** A namespace and a name. */
  type Key = (string, string)

  datatype Entry = Entry(version: string, obj: Object)

  /** `log` remembers every version ever stored; versions are handed out once. */
  datatype Server = Server(entries: map<Key, Entry>, log: map<(Key, string), Object>, used: set<string>)

  const VERSION_PATH := ["metadata", "resourceVersion"]

  function Stamp(obj: Object, version: string): Object { PutValue(obj, Scalar(version), VERSION_PATH) }

  predicate Storable(obj: Object) { "metadata" in obj ==> obj["metadata"].Map? }

  /** The server accepts an object as the new state of a key, under a version never used before. */
  function Commit(s: Server, key: Key, obj: Object, version: string): Server {
    var stored := Stamp(obj, version);
    Server(s.entries[key := Entry(version, stored)], s.log[(key, version) := stored], s.used + {version})
  }

  /** What other clients do. */
  datatype Write = Put(key: Key, obj: Object, version: string) | Delete(key: Key)

  predicate NewVersion(s: Server, version: string) { version != "" && version !in s.used }

  /** A write of another client; the server never accepts one under a used version or with broken metadata. */
  function ApplyWrite(s: Server, w: Write): Server {
    match w
    case Put(key, obj, version) =>
      if NewVersion(s, version) && Storable(obj) then Commit(s, key, obj, version) else s
    case Delete(key) => s.(entries := s.entries - {key})
  }

  function ApplyWrites(s: Server, ws: seq<Write>): Server
    decreases |ws|
  {
    if ws == [] then s else ApplyWrites(ApplyWrite(s, ws[0]), ws[1..])
  }

  datatype Problem = NotFound | Conflict | Other(text: string)

  /** The server's optimistic check: a body with a resource version only replaces that version. */
  function Check(s: Server, key: Key, body: Object): Option<Problem> {
    if key !in s.entries then Some(NotFound)
    else
      match GetValue(body, VERSION_PATH)
      case Some(Scalar(v)) => if v == "" || v == s.entries[key].version then None else Some(Conflict)
      case _ => None
  }

  // ----------------------------------------------------------------- Update

  /** splitID */
  function SplitID(id: string): (string, string) {
    match Cut(id, ":")
    case None => ("", id)
    case Some((namespace, name)) => (namespace, name)
  }

  lemma SplitIDUndoesJoin(namespace: string, name: string)
    ensures SplitID(namespace + ":" + name) == (namespace, name) <==> ':' !in namespace
  {
    CutJoinOne(namespace, ':', name);
  }

  datatype Call = Call(env: Env, schema: Option<Schema>, data: Object, key: Key)

  function Forced(m: Object, version: string, key: Key): Object {
    PutValue(PutValue(PutValue(m, Scalar(version), VERSION_PATH),
                      Scalar(key.0), ["metadata", "namespace"]),
             Scalar(key.1), ["metadata", "name"])
  }

  /** The object Update puts in place of an entry it has read. */
  function Replacement(c: Call, read: Entry): Object {
    Forced(APIUpdateMerge(c.env, c.schema, read.obj, c.data), read.version, c.key)
  }

  /** What goes wrong in a round besides the server's own check; a lost reply hides a PUT that was committed. */
  datatype Fault = NoFault | GetFails(problem: Problem) | PutRefused(problem: Problem) | ReplyLost

  /**
   One round of the loop as the world sees it: what others do before the GET and between GET and
   PUT, the fault if any, and the version the server would assign to the PUT.
   */
  datatype Round = Round(before: seq<Write>, between: seq<Write>, fault: Fault, version: string)

  function Others(rounds: seq<Round>, n: nat): seq<Write>
    requires n <= |rounds|
  {
    if n == 0 then [] else Others(rounds, n - 1) + (rounds[n - 1].before + rounds[n - 1].between)
  }

  datatype Result = Ok(obj: Object) | Failed(problem: Problem)

  // -------------------------------------------------------------- invariant

  ghost predicate ServerOk(s: Server) {
    && (forall key :: key in s.entries ==>
          && (key, s.entries[key].version) in s.log
          && s.log[(key, s.entries[key].version)] == s.entries[key].obj
          && s.entries[key].version != ""
          && "metadata" in s.entries[key].obj)
    && (forall key, v :: (key, v) in s.log ==> v in s.used)
  }

  ghost predicate Extends(s: Server, t: Server) {
    && s.used <= t.used
    && (forall kv :: kv in s.log ==> kv in t.log && t.log[kv] == s.log[kv])
  }

  lemma CommitOk(s: Server, key: Key, obj: Object, version: string)
    requires ServerOk(s) && NewVersion(s, version) && Storable(obj)
    ensures ServerOk(Commit(s, key, obj, version)) && Extends(s, Commit(s, key, obj, version))
  {
    assert VERSION_PATH[1..] == ["resourceVersion"];
    assert "metadata" in Stamp(obj, version);
  }

  lemma {:induction false} WritesOk(s: Server, ws: seq<Write>)
    requires ServerOk(s)
    ensures ServerOk(ApplyWrites(s, ws)) && Extends(s, ApplyWrites(s, ws))
    decreases |ws|
  {
    if ws != [] {
      if ws[0].Put? && NewVersion(s, ws[0].version) && Storable(ws[0].obj) {
        CommitOk(s, ws[0].key, ws[0].obj, ws[0].version);
      }
      WritesOk(ApplyWrite(s, ws[0]), ws[1..]);
    }
  }

  lemma {:induction false} WritesCompose(s: Server, a: seq<Write>, b: seq<Write>)
    ensures ApplyWrites(s, a + b) == ApplyWrites(ApplyWrites(s, a), b)
    decreases |a|
  {
    if a == [] {
      assert a + b == b;
    } else {
      assert (a + b)[1..] == a[1..] + b;
      WritesCompose(ApplyWrite(s, a[0]), a[1..], b);
    }
  }

  /** A version names one object: whatever others did in between, an entry that still has the version read
      is the entry read. */
  lemma SameVersionSameObject(s: Server, ws: seq<Write>, key: Key)
    requires ServerOk(s) && key in s.entries
    ensures var t := ApplyWrites(s, ws);
            key in t.entries && t.entries[key].version == s.entries[key].version ==> t.entries[key] == s.entries[key]
  {
    WritesOk(s, ws);
  }

  /** What Update sends carries the version it read, so the server replaces that version or refuses. */
  lemma ReplacementCarriesVersion(c: Call, read: Entry)
    requires "metadata" in read.obj
    ensures GetValue(Replacement(c, read), VERSION_PATH) == Some(Scalar(read.version))
    ensures GetValue(Replacement(c, read), ["metadata", "namespace"]) == Some(Scalar(c.key.0))
    ensures GetValue(Replacement(c, read), ["metadata", "name"]) == Some(Scalar(c.key.1))
    ensures Storable(Replacement(c, read))
  {
    var m := APIUpdateMerge(c.env, c.schema, read.obj, c.data);
    assert m["metadata"].Map?;
    assert VERSION_PATH[1..] == ["resourceVersion"];
    assert ["metadata", "namespace"][1..] == ["namespace"] && ["metadata", "name"][1..] == ["name"];
    var m1 := PutValue(m, Scalar(read.version), VERSION_PATH);
    assert m1["metadata"].fields["resourceVersion"] == Scalar(read.version);
  }

  /** Why the server does not accept the PUT, if it does not. */
  function Refusal(c: Call, s: Server, read: Entry, round: Round): Option<Problem> {
    if round.fault.PutRefused? then Some(round.fault.problem)
    else if Check(s, c.key, Replacement(c, read)).Some? then Check(s, c.key, Replacement(c, read))
    else if !NewVersion(s, round.version) then Some(Other("no new version"))
    else None
  }

  /** `s` is what was there, or, if `wrote`, what the one write of this call made of it. */
  ghost predicate Explains(c: Call, seen: Server, wrote: bool, version: string, s: Server) {
    if !wrote then s == seen
    else
      && c.key in seen.entries && NewVersion(seen, version)
      && s == Commit(seen, c.key, Replacement(c, seen.entries[c.key]), version)
  }

  /** One of the three paths that Update and the server set themselves. */
  predicate Set(k: string) { k == "resourceVersion" || k == "namespace" || k == "name" }

  /**
   What a successful write of the request leaves in place of an object: the merge of the two, with the new
   version, the namespace and the name in its metadata. Every value of the request that is not a map is
   there, outside status and metadata.
   */
  ghost predicate Writes(c: Call, was: Object, version: string, now: Object) {
    var merged := APIUpdateMerge(c.env, c.schema, was, c.data);
    && (forall k :: k != "metadata" ==> SameSlot(now, merged, k))
    && "metadata" in now && now["metadata"].Map?
    && (forall k :: !Set(k) ==> SameSlot(Sub(now, "metadata"), Sub(merged, "metadata"), k))
    && Get(Sub(now, "metadata"), "resourceVersion") == Scalar(version)
    && Get(Sub(now, "metadata"), "namespace") == Scalar(c.key.0)
    && Get(Sub(now, "metadata"), "name") == Scalar(c.key.1)
    && (forall p, v :: Sends(c.data, p, v) ==> GetValue(now, p) == Some(v))
  }

  /** The server after that write: the one entry is replaced, and no other is touched. */
  ghost predicate Written(c: Call, seen: Server, version: string, s: Server) {
    && c.key in seen.entries && s.entries.Keys == seen.entries.Keys && s.entries[c.key].version == version
    && (forall key :: key in seen.entries && key != c.key ==> s.entries[key] == seen.entries[key])
    && Writes(c, seen.entries[c.key].obj, version, s.entries[c.key].obj)
  }

  predicate Sends(data: Object, p: seq<string>, v: Value) {
    p != [] && p[0] != "status" && p[0] != "metadata" && GetValue(data, p) == Some(v) && !v.Map?
  }

  /** An object with a value put into its metadata. */
  lemma PutMetadata(m: Object, k: string, v: Value)
    requires "metadata" in m && m["metadata"].Map?
    ensures PutValue(m, v, ["metadata", k]) == m["metadata" := Map(m["metadata"].fields[k := v])]
  {
    assert ["metadata", k][1..] == [k];
  }

  lemma ForcedIs(m: Object, version: string, key: Key)
    requires "metadata" in m && m["metadata"].Map?
    ensures Forced(m, version, key) ==
              m["metadata" := Map(m["metadata"].fields["resourceVersion" := Scalar(version)]
                                                      ["namespace" := Scalar(key.0)]["name" := Scalar(key.1)])]
  {
    var f := m["metadata"].fields;
    PutMetadata(m, "resourceVersion", Scalar(version));
    var m1 := m["metadata" := Map(f["resourceVersion" := Scalar(version)])];
    PutMetadata(m1, "namespace", Scalar(key.0));
    var m2 := m1["metadata" := Map(m1["metadata"].fields["namespace" := Scalar(key.0)])];
    PutMetadata(m2, "name", Scalar(key.1));
  }

  lemma ReplacementWrites(c: Call, read: Entry, version: string)
    requires "metadata" in read.obj
    ensures Writes(c, read.obj, version, Stamp(Replacement(c, read), version))
  {
    var merged := APIUpdateMerge(c.env, c.schema, read.obj, c.data);
    var now := Stamp(Replacement(c, read), version);
    ForcedIs(merged, read.version, c.key);
    PutMetadata(Replacement(c, read), "resourceVersion", Scalar(version));
    forall p, v | Sends(c.data, p, v)
      ensures GetValue(now, p) == Some(v)
    {
      UpdateArrives(c.env, c.schema, read.obj, c.data, p, v);
      assert SameSlot(now, merged, p[0]);
    }
  }

  /** Nothing fails in the round, the object is there and nobody writes between GET and PUT. */
  ghost predicate Undisturbed(c: Call, s: Server, round: Round) {
    var seen := ApplyWrites(s, round.before);
    round.fault.NoFault? && round.between == [] && c.key in seen.entries && NewVersion(seen, round.version)
  }

  lemma CommitWrites(c: Call, s: Server, version: string)
    requires ServerOk(s) && c.key in s.entries
    ensures Written(c, s, version, Commit(s, c.key, Replacement(c, s.entries[c.key]), version))
  {
    ReplacementWrites(c, s.entries[c.key], version);
  }

  lemma AcceptedIsRead(c: Call, s: Server, read: Entry, round: Round)
    requires "metadata" in read.obj && read.version != "" && Refusal(c, s, read, round).None?
    ensures c.key in s.entries && s.entries[c.key].version == read.version && NewVersion(s, round.version)
    ensures Storable(Replacement(c, read))
  {
    ReplacementCarriesVersion(c, read);
  }

  /** The second half of a round: the PUT of the merge with an entry that was read. */
  method Send(c: Call, s: Server, read: Entry, round: Round)
      returns (r: Option<Result>, s': Server, ghost wrote: bool)
    requires ServerOk(s) && "metadata" in read.obj && read.version != "" && !round.fault.GetFails?
    requires c.key in s.entries && s.entries[c.key].version == read.version ==> s.entries[c.key] == read
    ensures ServerOk(s') && Explains(c, s, wrote, round.version, s')
    ensures r.None? ==> !wrote
    ensures r.Some? && r.value.Ok? ==> wrote && r.value.obj == s'.entries[c.key].obj
    ensures r.Some? && r.value.Failed? && wrote ==> round.fault.ReplyLost?
    ensures r != Some(Failed(Conflict))
    ensures r.None? <==> round.fault == PutRefused(Conflict) ||
                         (!round.fault.PutRefused? && c.key in s.entries && s.entries[c.key].version != read.version)
    ensures round.fault.NoFault? && NewVersion(s, round.version) && c.key in s.entries && r.Some? ==> r.value.Ok?
  {
    ReplacementCarriesVersion(c, read);
    s', wrote := s, false;
    var problem := Refusal(c, s, read, round);
    if problem.Some? {
      r := if problem.value == Conflict then None else Some(Failed(problem.value));
      return;
    }
    AcceptedIsRead(c, s, read, round);
    CommitOk(s, c.key, Replacement(c, read), round.version);
    s', wrote := Commit(s, c.key, Replacement(c, read), round.version), true;
    r := Some(if round.fault.ReplyLost? then Failed(Other("no reply")) else Ok(s'.entries[c.key].obj));
  }

  /** One round of Update: GET, merge, PUT. None means: conflict, go round again. */
  method Attempt(c: Call, s0: Server, round: Round)
      returns (r: Option<Result>, s: Server, ghost wrote: bool, ghost others: seq<Write>, ghost seen: Server)
    requires ServerOk(s0)
    ensures ServerOk(s) && seen == ApplyWrites(s0, others) && Explains(c, seen, wrote, round.version, s)
    ensures others == round.before || others == round.before + round.between
    ensures r.None? ==> !wrote && others == round.before + round.between
    ensures r.Some? && r.value.Ok? ==> wrote && r.value.obj == s.entries[c.key].obj
    ensures r.Some? && r.value.Failed? && wrote ==> round.fault.ReplyLost?
    ensures r == Some(Failed(Conflict)) ==> !wrote && round.fault == GetFails(Conflict)
    ensures Undisturbed(c, s0, round) ==> r.Some? && r.value.Ok?
    ensures !round.fault.GetFails? && c.key !in ApplyWrites(s0, round.before).entries ==> r == Some(Failed(NotFound))
  {
    WritesOk(s0, round.before);
    s, wrote, others := ApplyWrites(s0, round.before), false, round.before;
    seen := s;
    if round.fault.GetFails? { return Some(Failed(round.fault.problem)), s, wrote, others, seen; }
    if c.key !in s.entries { return Some(Failed(NotFound)), s, wrote, others, seen; }
    var read := s.entries[c.key];
    SameVersionSameObject(s, round.between, c.key);
    WritesOk(s, round.between);
    WritesCompose(s0, round.before, round.between);
    s, others := ApplyWrites(s, round.between), round.before + round.between;
    seen := s;
    r, s, wrote := Send(c, s, read, round);
  }

  /** The loop of Store.Update. */
  method Rounds(c: Call, s0: Server, rounds: seq<Round>)
      returns (r: Result, s: Server, ghost wrote: bool, ghost others: seq<Write>, ghost seen: Server, ghost n: nat)
    requires ServerOk(s0) && |rounds| == 5
    ensures 1 <= n <= 5 && ServerOk(s)
    ensures others == Others(rounds, n) || others == Others(rounds, n - 1) + rounds[n - 1].before
    ensures seen == ApplyWrites(s0, others) && Explains(c, seen, wrote, rounds[n - 1].version, s)
    ensures r.Ok? ==> wrote && r.obj == s.entries[c.key].obj
    ensures r.Failed? && wrote ==> rounds[n - 1].fault.ReplyLost?
    ensures r == Failed(Conflict) ==> !wrote && (n == 5 || rounds[n - 1].fault == GetFails(Conflict))
    ensures Undisturbed(c, s0, rounds[0]) ==> r.Ok? && n == 1
  {
    s, r, n, wrote, others, seen := s0, Failed(Conflict), 0, false, [], s0;
    ghost var quick := Undisturbed(c, s0, rounds[0]);
    for i := 0 to 5
      invariant n == i && ServerOk(s) && others == Others(rounds, i) && s == seen == ApplyWrites(s0, others)
      invariant !wrote && r == Failed(Conflict) && (if i == 0 then s == s0 else !quick)
    {
      n := i + 1;
      ghost var more;
      var done;
      done, s, wrote, more, seen := Attempt(c, s, rounds[i]);
      WritesCompose(s0, others, more);
      others := others + more;
      if done.Some? {
        r := done.value;
        return;
      }
    }
  }

  /**
   Store.Update. Whatever others do and however calls fail, at most one write is made. If one is, it
   puts in place of an entry the merge of exactly that entry with the request, so nothing others
   wrote is lost; an Update that ends in a conflict or a refusal has written nothing. An undisturbed
   one succeeds at once.
   */
  method Update(c: Call, s0: Server, rounds: seq<Round>)
      returns (r: Result, s: Server, ghost wrote: bool, ghost others: seq<Write>, ghost seen: Server, ghost n: nat)
    requires ServerOk(s0) && |rounds| == 5
    ensures 1 <= n <= 5 && ServerOk(s)
    ensures others == Others(rounds, n) || others == Others(rounds, n - 1) + rounds[n - 1].before
    ensures seen == ApplyWrites(s0, others)
    ensures if wrote then Written(c, seen, rounds[n - 1].version, s) else s == seen
    ensures r.Ok? ==> wrote && r.obj == s.entries[c.key].obj
    ensures r.Failed? && wrote ==> rounds[n - 1].fault.ReplyLost?
    ensures r == Failed(Conflict) ==> !wrote && (n == 5 || rounds[n - 1].fault == GetFails(Conflict))
    ensures Undisturbed(c, s0, rounds[0]) ==> r.Ok? && n == 1
  {
    r, s, wrote, others, seen, n := Rounds(c, s0, rounds);
    WritesOk(s0, others);
    if wrote { CommitWrites(c, seen, rounds[n - 1].version); }
  }
}
