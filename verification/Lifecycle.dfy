/**
 The finalizer and annotation protocol of an object lifecycle (lifecycle/object.go), run by any
 number of workers on possibly stale cached objects, beside other clients of the API server.
 */
module Lifecycle {
  import opened Text

  datatype Obj = Obj(name: string, uid: int, version: int, finalizers: seq<string>, deleting: bool,
                     annotations: map<string, string>, data: string)

  /** The adapter: its finalizer key, its annotation key, and which handlers the lifecycle has. */
  datatype Config = Config(key: string, createKey: string, hasFinalize: bool, hasCreate: bool)

  // ----------------------------------------------------------- the API server

  /** `history` is every state that a write led to, which is what a stale cache or a reply may still hold. */
  datatype Api = Api(store: map<string, Obj>, history: set<Obj>, next: int)

  /** A stored state gets a new version; an object being deleted goes away with its last finalizer. */
  function Save(a: Api, o: Obj): Api {
    var o' := o.(version := a.next);
    Api(if o.deleting && o.finalizers == [] then a.store - {o.name} else a.store[o.name := o'],
        a.history + {o'}, a.next + 1)
  }

  datatype Fault = NoFault | Rejected | ReplyLost

  /** The optimistic check of a PUT; finalizers cannot be added to an object being deleted. */
  predicate Accepts(a: Api, o: Obj, f: Fault) {
    && !f.Rejected?
    && o.name in a.store && a.store[o.name].uid == o.uid && a.store[o.name].version == o.version
    && (a.store[o.name].deleting ==> forall x :: x in o.finalizers ==> x in a.store[o.name].finalizers)
  }

  function Body(a: Api, o: Obj): Obj
    requires o.name in a.store
  {
    o.(deleting := a.store[o.name].deleting)
  }

  function Update(a: Api, o: Obj, f: Fault): Api { if Accepts(a, o, f) then Save(a, Body(a, o)) else a }

  /** The object in the reply; None is an error. */
  function Reply(a: Api, o: Obj, f: Fault): Option<Obj> {
    if Accepts(a, o, f) && f.NoFault? then Some(Body(a, o).(version := a.next)) else None
  }

  // ---------------------------------------------------------------- workers

  /**
   Where a worker stands in sync, between two calls to the server or to a handler. `edited` marks an
   object that the Finalize handler changed in the copy it was given while returning nil.
   */
  datatype PC = AddFinalizer(o: Obj) | CallCreate(o: Obj) | WriteCreated(o: Obj, failed: bool) | SetInitialized(o: Obj)
              | CallFinalize(o: Obj) | WriteFinalized(o: Obj, failed: bool)
              | RemoveFinalizer(o: Obj, tries: nat, edited: bool)
              | Refetch(name: string, tries: nat) | CallUpdated(o: Obj) | WriteUpdated(o: Obj) | Done

  /** What a handler returned, an object or nil and whether an error, and what it left in the copy it got. */
  datatype Handler = Handler(obj: Option<Obj>, copy: Obj, failed: bool)

  predicate Initialized(c: Config, o: Obj) { c.createKey in o.annotations && o.annotations[c.createKey] == "true" }

  function AfterAdd(c: Config, o: Obj): PC { if c.hasCreate then CallCreate(o) else CallUpdated(o) }

  /** sync on a cached object, up to its first call. */
  function Decide(c: Config, o: Obj): PC {
    if c.hasFinalize && o.deleting then (if c.key in o.finalizers then CallFinalize(o) else Done)
    else if Initialized(c, o) then CallUpdated(o)
    else if c.hasFinalize && c.key !in o.finalizers then AddFinalizer(o)
    else AfterAdd(c, o)
  }

  /** record: whether the handler's object is different and has to be written. */
  predicate Writes(o: Obj, h: Handler) { h.obj.Some? && h.obj.value != o }

  /** record: the object it goes on with when it wrote nothing; after a nil that is the handler's copy. */
  function Kept(o: Obj, h: Handler): Obj { if h.obj.None? then h.copy else o }

  /** The object a worker is about to send. */
  function Outgoing(c: Config, pc: PC): Obj
    requires pc.AddFinalizer? || pc.SetInitialized? || pc.RemoveFinalizer? || IsHandlerWrite(pc)
  {
    match pc
    case AddFinalizer(o) => o.(finalizers := o.finalizers + [c.key])
    case SetInitialized(o) => o.(annotations := o.annotations[c.createKey := "true"])
    case RemoveFinalizer(o, _, _) => o.(finalizers := Except(o.finalizers, Equal(c.key)))
    case _ => pc.o
  }

  predicate IsHandlerWrite(pc: PC) { pc.WriteCreated? || pc.WriteFinalized? || pc.WriteUpdated? }

  predicate IsWrite(pc: PC) { pc.AddFinalizer? || pc.SetInitialized? || pc.RemoveFinalizer? || IsHandlerWrite(pc) }

  /** Where the worker goes after a write, given the reply. */
  function AfterWrite(c: Config, pc: PC, reply: Option<Obj>): PC
    requires IsWrite(pc)
  {
    match pc
    case AddFinalizer(_) => if reply.Some? then AfterAdd(c, reply.value) else Done
    case WriteCreated(_, failed) => if !failed && reply.Some? then SetInitialized(reply.value) else Done
    case WriteFinalized(_, failed) => if !failed && reply.Some? then RemoveFinalizer(reply.value, 0, false) else Done
    case RemoveFinalizer(o, tries, _) => if reply.Some? then Done else Refetch(o.name, tries)
    case _ => Done
  }

  function AfterHandler(pc: PC, h: Handler): PC
    requires pc.CallCreate? || pc.CallFinalize? || pc.CallUpdated?
  {
    match pc
    case CallCreate(o) =>
      if Writes(o, h) then WriteCreated(h.obj.value, h.failed)
      else if h.failed then Done
      else SetInitialized(Kept(o, h))
    case CallFinalize(o) =>
      if Writes(o, h) then WriteFinalized(h.obj.value, h.failed)
      else if h.failed then Done
      else RemoveFinalizer(Kept(o, h), 0, Kept(o, h) != o)
    case CallUpdated(o) => if Writes(o, h) then WriteUpdated(h.obj.value) else Done
  }

  const RETRIES := 3

  function AfterRefetch(a: Api, pc: PC, f: Fault): PC
    requires pc.Refetch?
  {
    if pc.name in a.store && f.NoFault? && pc.tries + 1 < RETRIES
    then RemoveFinalizer(a.store[pc.name], pc.tries + 1, false)
    else Done
  }

  // ------------------------------------------------------------- the system

  /** `created`: Create was invoked on the object; `completed`: it returned without error for it; `finalized`:
      Finalize did. */
  datatype Sys = Sys(api: Api, workers: map<int, PC>, created: set<int>, completed: set<int>, finalized: set<int>)

  datatype Step = Create(o: Obj) | Write(o: Obj) | Delete(name: string)
                | Sync(t: int, o: Obj) | Proceed(t: int, h: Handler, f: Fault)

  const INIT := Sys(Api(map[], {}, 0), map[], {}, {}, {})

  /** Other writers and the handlers do not take this adapter's finalizer off. */
  predicate LeavesAlone(c: Config, before: Obj, after: Obj) {
    && after.name == before.name && after.uid == before.uid && after.version == before.version
    && (c.key in before.finalizers ==> c.key in after.finalizers)
  }

  /** A handler may go on from any state the object ever had, such as the reply to a write of its own. */
  ghost predicate Behaves(c: Config, a: Api, o: Obj, h: Handler) {
    MadeFrom(c, a, o, h.copy) && (h.obj.Some? ==> MadeFrom(c, a, o, h.obj.value))
  }

  ghost predicate MadeFrom(c: Config, a: Api, o: Obj, x: Obj) {
    exists b :: b in a.history && b.name == o.name && b.uid == o.uid && LeavesAlone(c, b, x)
  }

  ghost predicate Enabled(c: Config, s: Sys, step: Step) {
    match step
    case Create(o) =>
      // names are not reused, UIDs never are
      && (forall h :: h in s.api.history ==> h.name != o.name && h.uid != o.uid)
      && !o.deleting
    case Write(o) => o.name in s.api.store && LeavesAlone(c, s.api.store[o.name], o)
    case Delete(name) => name in s.api.store
    case Sync(t, o) => o in s.api.history && (t in s.workers ==> s.workers[t].Done?)
    case Proceed(t, h, _) =>
      && t in s.workers && !s.workers[t].Done?
      && (IsCall(s.workers[t]) ==> Behaves(c, s.api, s.workers[t].o, h))
  }

  predicate IsCall(pc: PC) { pc.CallCreate? || pc.CallFinalize? || pc.CallUpdated? }

  function Next(c: Config, s: Sys, step: Step): Sys {
    match step
    case Create(o) => s.(api := Save(s.api, o))
    case Write(o) => s.(api := Update(s.api, o, NoFault))
    case Delete(name) =>
      if name in s.api.store then s.(api := Save(s.api, s.api.store[name].(deleting := true))) else s
    case Sync(t, o) => s.(workers := s.workers[t := Decide(c, o)])
    case Proceed(t, h, f) => if t in s.workers then Run(c, s, t, s.workers[t], h, f) else s
  }

  function Run(c: Config, s: Sys, t: int, pc: PC, h: Handler, f: Fault): Sys {
    if IsWrite(pc) then
      var o := Outgoing(c, pc);
      s.(api := Update(s.api, o, f), workers := s.workers[t := AfterWrite(c, pc, Reply(s.api, o, f))])
    else if IsCall(pc) then
      s.(workers := s.workers[t := AfterHandler(pc, h)],
         created := if pc.CallCreate? then s.created + {pc.o.uid} else s.created,
         completed := if pc.CallCreate? && !h.failed then s.completed + {pc.o.uid} else s.completed,
         finalized := if pc.CallFinalize? && !h.failed then s.finalized + {pc.o.uid} else s.finalized)
    else if pc.Refetch? then s.(workers := s.workers[t := AfterRefetch(s.api, pc, f)])
    else s
  }

  // -------------------------------------------------------------- invariant

  ghost predicate ApiOk(a: Api) {
    && (forall n :: n in a.store ==> a.store[n] in a.history && a.store[n].name == n)
    && (forall o :: o in a.history ==> o.version < a.next)
    && (forall o, p :: o in a.history && p in a.history && o.version == p.version ==> o == p)
    && (forall o, p :: o in a.history && p in a.history && o.name == p.name ==> o.uid == p.uid)
  }

  /** Some stored state of this object carried the adapter's finalizer. */
  ghost predicate Marked(c: Config, a: Api, uid: int) {
    exists o :: o in a.history && o.uid == uid && c.key in o.finalizers
  }

  /** o goes back to the stored state of its version, and does not drop the adapter's finalizer from it. */
  ghost predicate Based(c: Config, a: Api, o: Obj) {
    exists h :: h in a.history && LeavesAlone(c, h, o)
  }

  ghost predicate WorkerOk(c: Config, s: Sys, pc: PC) {
    match pc
    case AddFinalizer(o) => o in s.api.history
    case CallCreate(o) => o in s.api.history && c.key in o.finalizers
    case WriteCreated(o, failed) => Based(c, s.api, o) && (!failed ==> o.uid in s.completed)
    case SetInitialized(o) => Based(c, s.api, o) && o.uid in s.completed
    case CallFinalize(o) => o in s.api.history
    case WriteFinalized(o, failed) => Based(c, s.api, o) && (!failed ==> o.uid in s.finalized)
    case RemoveFinalizer(o, tries, edited) =>
      && Based(c, s.api, o) && o.uid in s.finalized
      && (edited ==> tries == 0)
      && (!edited ==> o in s.api.history)
    case Refetch(name, _) => exists o :: o in s.api.history && o.name == name && o.uid in s.finalized
    case CallUpdated(o) => o in s.api.history
    case WriteUpdated(o) => Based(c, s.api, o)
    case Done => true
  }

  /** A finalizer once set stays until Finalize has succeeded. */
  ghost predicate Held(c: Config, s: Sys, o: Obj) {
    c.key in o.finalizers ==>
      (o.name in s.api.store && c.key in s.api.store[o.name].finalizers) || o.uid in s.finalized
  }

  ghost predicate Inv(c: Config, s: Sys) {
    && ApiOk(s.api)
    && (forall o :: o in s.api.history ==> Held(c, s, o))
    && (forall u :: u in s.created ==> Marked(c, s.api, u))
    && (forall t :: t in s.workers ==> WorkerOk(c, s, s.workers[t]))
  }

  // ----------------------------------------------------- every step keeps it

  /** o is a state of a known object, or the first state of a new one. */
  ghost predicate Belongs(a: Api, o: Obj) {
    && (forall h :: h in a.history && h.name == o.name ==> h.uid == o.uid)
    && (o.name !in a.store ==> forall h :: h in a.history ==> h.name != o.name)
  }

  lemma SaveOrdered(a: Api, o: Obj)
    requires ApiOk(a) && Belongs(a, o)
    ensures ApiOk(Save(a, o))
  {
  }

  /** What a worker relies on only grows. */
  lemma SaveKeepsWorker(c: Config, s: Sys, o: Obj, pc: PC)
    requires WorkerOk(c, s, pc)
    ensures WorkerOk(c, s.(api := Save(s.api, o)), pc)
  {
    assert s.api.history <= Save(s.api, o).history;
  }

  lemma SaveKeepsHeld(c: Config, s: Sys, o: Obj, h: Obj)
    requires ApiOk(s.api) && Belongs(s.api, o) && Held(c, s, h)
    requires h in s.api.history
    requires o.name in s.api.store && c.key in s.api.store[o.name].finalizers ==>
               c.key in o.finalizers || o.uid in s.finalized
    ensures Held(c, s.(api := Save(s.api, o)), h)
  {
  }

  /** Storing a state of an object, without taking the finalizer of an unfinalized one. */
  lemma SaveKeeps(c: Config, s: Sys, o: Obj)
    requires Inv(c, s) && Belongs(s.api, o)
    requires o.name in s.api.store && c.key in s.api.store[o.name].finalizers ==>
               c.key in o.finalizers || o.uid in s.finalized
    ensures Inv(c, s.(api := Save(s.api, o)))
  {
    var t := s.(api := Save(s.api, o));
    SaveOrdered(s.api, o);
    forall h | h in t.api.history
      ensures Held(c, t, h)
    {
      if h in s.api.history { SaveKeepsHeld(c, s, o, h); }
    }
    forall w | w in t.workers
      ensures WorkerOk(c, t, t.workers[w])
    {
      SaveKeepsWorker(c, s, o, s.workers[w]);
    }
    forall u | u in t.created
      ensures Marked(c, t.api, u)
    {
      var m :| m in s.api.history && m.uid == u && c.key in m.finalizers;
      assert m in t.api.history;
    }
  }

  lemma WorkerKeeps(c: Config, s: Sys, t: int, pc: PC)
    requires Inv(c, s) && WorkerOk(c, s, pc)
    ensures Inv(c, s.(workers := s.workers[t := pc]))
  {
  }

  /** What a worker sends agrees with the stored state it replaces, the adapter's own finalizer apart. */
  lemma OutgoingFits(c: Config, s: Sys, pc: PC)
    requires Inv(c, s) && WorkerOk(c, s, pc) && IsWrite(pc)
    ensures var o := Outgoing(c, pc);
            && (forall h :: h in s.api.history && h.name == o.name ==> h.uid == o.uid)
            && (exists h :: h in s.api.history && h.name == o.name && h.uid == o.uid)
            && (o.name in s.api.store && s.api.store[o.name].version == o.version ==>
                  c.key in s.api.store[o.name].finalizers ==> c.key in o.finalizers || o.uid in s.finalized)
  {
  }

  /** One call of a worker to the server. */
  lemma WriteKeeps(c: Config, s: Sys, t: int, pc: PC, h: Handler, f: Fault)
    requires c.hasFinalize && Inv(c, s) && WorkerOk(c, s, pc) && IsWrite(pc)
    ensures Inv(c, Run(c, s, t, pc, h, f))
  {
    var o := Outgoing(c, pc);
    OutgoingFits(c, s, pc);
    var mid := s.(api := Update(s.api, o, f));
    if Accepts(s.api, o, f) { SaveKeeps(c, s, Body(s.api, o)); }
    var reply := Reply(s.api, o, f);
    ReplyFits(c, s, pc, f);
    WorkerKeeps(c, mid, t, AfterWrite(c, pc, reply));
    assert Run(c, s, t, pc, h, f) == mid.(workers := mid.workers[t := AfterWrite(c, pc, reply)]);
  }

  lemma ReplyFits(c: Config, s: Sys, pc: PC, f: Fault)
    requires c.hasFinalize && Inv(c, s) && WorkerOk(c, s, pc) && IsWrite(pc)
    ensures var o := Outgoing(c, pc);
            WorkerOk(c, s.(api := Update(s.api, o, f)), AfterWrite(c, pc, Reply(s.api, o, f)))
  {
    var o := Outgoing(c, pc);
    OutgoingFits(c, s, pc);
  }

  lemma CallKeeps(c: Config, s: Sys, t: int, pc: PC, h: Handler)
    requires Inv(c, s) && WorkerOk(c, s, pc) && IsCall(pc)
    requires Behaves(c, s.api, pc.o, h)
    ensures Inv(c, Run(c, s, t, pc, h, NoFault))
  {
    var after := Run(c, s, t, pc, h, NoFault);
    assert WorkerOk(c, after, AfterHandler(pc, h));
    forall w | w in after.workers
      ensures WorkerOk(c, after, after.workers[w])
    {
      if w != t { assert WorkerOk(c, s, s.workers[w]); }
    }
  }

  lemma StepKeeps(c: Config, s: Sys, step: Step)
    requires c.hasFinalize && Inv(c, s) && Enabled(c, s, step)
    ensures Inv(c, Next(c, s, step))
  {
    match step
    case Create(o) => SaveKeeps(c, s, o);
    case Write(o) => if Accepts(s.api, o, NoFault) { SaveKeeps(c, s, Body(s.api, o)); }
    case Delete(name) => SaveKeeps(c, s, s.api.store[name].(deleting := true));
    case Sync(t, o) => WorkerKeeps(c, s, t, Decide(c, o));
    case Proceed(t, h, f) =>
      var pc := s.workers[t];
      if IsWrite(pc) { WriteKeeps(c, s, t, pc, h, f); }
      else if IsCall(pc) { CallKeeps(c, s, t, pc, h); }
      else if pc.Refetch? { WorkerKeeps(c, s, t, AfterRefetch(s.api, pc, f)); }
  }

  // ------------------------------------------------------------------ runs

  ghost predicate Runs(c: Config, s: Sys, steps: seq<Step>, t: Sys)
    decreases |steps|
  {
    if steps == [] then s == t
    else Enabled(c, s, steps[0]) && Runs(c, Next(c, s, steps[0]), steps[1..], t)
  }

  lemma {:induction false} RunKeeps(c: Config, s: Sys, steps: seq<Step>, t: Sys)
    requires c.hasFinalize && Inv(c, s) && Runs(c, s, steps, t)
    ensures Inv(c, t)
    decreases |steps|
  {
    if steps != [] {
      StepKeeps(c, s, steps[0]);
      RunKeeps(c, Next(c, s, steps[0]), steps[1..], t);
    }
  }

  /** An object on which Create was invoked and which is gone had Finalize return without error for it. */
  lemma CreatedThenGoneWasFinalized(c: Config, steps: seq<Step>, s: Sys, uid: int)
    requires c.hasFinalize && Runs(c, INIT, steps, s)
    requires uid in s.created
    requires forall n :: n in s.api.store ==> s.api.store[n].uid != uid
    ensures uid in s.finalized
  {
    RunKeeps(c, INIT, steps, s);
    assert Marked(c, s.api, uid);
    var o :| o in s.api.history && o.uid == uid && c.key in o.finalizers;
    assert Held(c, s, o);
  }

  /** The finalizer itself is never lost before that, whoever else writes. */
  lemma FinalizerHeld(c: Config, steps: seq<Step>, s: Sys, uid: int)
    requires c.hasFinalize && Runs(c, INIT, steps, s)
    requires uid in s.created && uid !in s.finalized
    ensures exists n :: n in s.api.store && s.api.store[n].uid == uid && c.key in s.api.store[n].finalizers
  {
    RunKeeps(c, INIT, steps, s);
    var o :| o in s.api.history && o.uid == uid && c.key in o.finalizers;
    assert Held(c, s, o);
    assert s.api.store[o.name].uid == uid;
  }

  /** No worker marks an object as created for which Create did not return without error. */
  lemma OnlyCreatedIsMarked(c: Config, steps: seq<Step>, s: Sys, t: int)
    requires c.hasFinalize && Runs(c, INIT, steps, s) && t in s.workers && s.workers[t].SetInitialized?
    ensures s.workers[t].o.uid in s.completed
  {
    RunKeeps(c, INIT, steps, s);
    assert WorkerOk(c, s, s.workers[t]);
  }

  /** The state a removal is based on: the stored one, or the copy that the handler changed while returning nil. */
  function Base(a: Api, pc: PC): Obj
    requires pc.RemoveFinalizer? && pc.o.name in a.store
  {
    if pc.edited then Body(a, pc.o) else a.store[pc.o.name]
  }

  lemma RemovalBase(c: Config, s: Sys, pc: PC, f: Fault)
    requires Inv(c, s) && pc.RemoveFinalizer? && WorkerOk(c, s, pc)
    requires Accepts(s.api, Outgoing(c, pc), f)
    ensures s.api.store[pc.o.name].uid in s.finalized
    ensures var base := Base(s.api, pc);
            Body(s.api, Outgoing(c, pc)) == base.(finalizers := Except(base.finalizers, Equal(c.key)))
  {
    if !pc.edited { assert pc.o == s.api.store[pc.o.name]; }
  }

  lemma RemovalCommits(c: Config, s: Sys, t: int, pc: PC, h: Handler, f: Fault)
    requires Inv(c, s) && pc.RemoveFinalizer? && WorkerOk(c, s, pc)
    requires Accepts(s.api, Outgoing(c, pc), f)
    ensures s.api.store[pc.o.name].uid in s.finalized && (pc.edited ==> pc.tries == 0)
    ensures var base := Base(s.api, pc);
            Run(c, s, t, pc, h, f).api == Save(s.api, base.(finalizers := Except(base.finalizers, Equal(c.key))))
  {
    RemovalBase(c, s, pc, f);
  }

  /**
   A finalizer removal that reaches the store takes this adapter's key out of the finalizers stored at
   that moment and changes nothing else, unless the Finalize handler changed its copy and returned nil:
   then the first try commits that copy too. Later tries never do.
   */
  lemma RemovalIsExact(c: Config, steps: seq<Step>, s: Sys, t: int, h: Handler, f: Fault)
    requires c.hasFinalize && Runs(c, INIT, steps, s)
    requires t in s.workers && s.workers[t].RemoveFinalizer?
    requires Accepts(s.api, Outgoing(c, s.workers[t]), f)
    ensures var pc := s.workers[t];
            var base := Base(s.api, pc);
            && s.api.store[pc.o.name].uid in s.finalized
            && (pc.edited ==> pc.tries == 0)
            && Run(c, s, t, pc, h, f).api == Save(s.api, base.(finalizers := Except(base.finalizers, Equal(c.key))))
  {
    RunKeeps(c, INIT, steps, s);
    RemovalCommits(c, s, t, s.workers[t], h, f);
  }

  // ------------------------------------------------------- what the writes store

  /** o is based on the stored state of its name, which is not being deleted. */
  predicate Current(a: Api, o: Obj) {
    && o.name in a.store && a.store[o.name].uid == o.uid && a.store[o.name].version == o.version
    && !a.store[o.name].deleting
  }

  /** b is a with other annotations only, of which this one is "true" and the others are a's. */
  ghost predicate Annotated(a: Obj, b: Obj, key: string) {
    && b == a.(annotations := b.annotations, version := b.version, deleting := b.deleting)
    && key in b.annotations && b.annotations[key] == "true"
    && b.annotations.Keys == a.annotations.Keys + {key}
    && forall k :: k in a.annotations && k != key ==> b.annotations[k] == a.annotations[k]
  }

  lemma CurrentIsStored(a: Api, o: Obj, f: Fault)
    requires Current(a, o) && !f.Rejected?
    ensures Update(a, o, f).store == a.store[o.name := o.(version := a.next, deleting := false)]
  {
  }

  /** What the write of a worker comes down to, case by case. */
  ghost predicate Stores(c: Config, a: Api, pc: PC, now: Obj)
    requires IsWrite(pc) && !pc.RemoveFinalizer? && pc.o.name in a.store
  {
    var was := a.store[pc.o.name];
    && (pc.AddFinalizer? ==> now == was.(finalizers := was.finalizers + [c.key], version := a.next))
    && (pc.SetInitialized? ==> Annotated(pc.o, now, c.createKey))
    && (IsHandlerWrite(pc) ==> now == pc.o.(version := a.next, deleting := false))
  }

  /**
   What a write of a worker stores in any run, if it is based on the stored state and nothing refuses it:
   the finalizer behind those already there and nothing else, the annotation and nothing else, or the
   object that the handler returned. No other object changes.
   */
  lemma WriteIsExact(c: Config, steps: seq<Step>, s: Sys, t: int, h: Handler, f: Fault) returns (now: Obj)
    requires c.hasFinalize && Runs(c, INIT, steps, s)
    requires t in s.workers && IsWrite(s.workers[t]) && !s.workers[t].RemoveFinalizer?
    requires Current(s.api, s.workers[t].o) && !f.Rejected?
    ensures Run(c, s, t, s.workers[t], h, f).api.store == s.api.store[s.workers[t].o.name := now]
    ensures now.version == s.api.next && !now.deleting && Stores(c, s.api, s.workers[t], now)
  {
    RunKeeps(c, INIT, steps, s);
    now := WriteStores(c, s, t, s.workers[t], h, f);
  }

  lemma WriteStores(c: Config, s: Sys, t: int, pc: PC, h: Handler, f: Fault) returns (now: Obj)
    requires ApiOk(s.api) && IsWrite(pc) && !pc.RemoveFinalizer? && WorkerOk(c, s, pc)
    requires Current(s.api, pc.o) && !f.Rejected?
    ensures Run(c, s, t, pc, h, f).api.store == s.api.store[pc.o.name := now]
    ensures now.version == s.api.next && !now.deleting && Stores(c, s.api, pc, now)
  {
    var out := Outgoing(c, pc);
    CurrentIsStored(s.api, out, f);
    now := out.(version := s.api.next, deleting := false);
    if pc.AddFinalizer? { assert pc.o == s.api.store[pc.o.name]; }
  }

  // ---------------------------------------------------- a sync that is left alone

  /** The object a worker has in hand. */
  function InHand(pc: PC): Obj { if pc.Refetch? || pc.Done? then Obj("", 0, 0, [], false, map[], "") else pc.o }

  /** The worker's next call, which does not fail; a handler returns nil and leaves its copy alone. */
  function Plainly(s: Sys, t: int): Step
    requires t in s.workers
  {
    Proceed(t, Handler(None, InHand(s.workers[t]), false), NoFault)
  }

  /** n such calls, one after the other, with nobody else in between. */
  ghost predicate Goes(c: Config, s: Sys, t: int, n: nat, s': Sys)
    decreases n
  {
    if n == 0 then s == s'
    else t in s.workers && Enabled(c, s, Plainly(s, t)) && Goes(c, Next(c, s, Plainly(s, t)), t, n - 1, s')
  }

  /** The cache of worker t has the stored state of the object. */
  ghost predicate Ready(s: Sys, t: int, o: Obj) {
    && o.name in s.api.store && s.api.store[o.name] == o && o in s.api.history
    && (t in s.workers ==> s.workers[t].Done?)
  }

  lemma GoesOn(c: Config, s: Sys, t: int, s': Sys, n: nat, s'': Sys)
    requires t in s.workers && Enabled(c, s, Plainly(s, t)) && Next(c, s, Plainly(s, t)) == s'
    requires Goes(c, s', t, n, s'')
    ensures Goes(c, s, t, n + 1, s'')
  {
  }

  /** A call of a handler, left alone. */
  lemma CallGoes(c: Config, s: Sys, t: int)
    requires t in s.workers && IsCall(s.workers[t]) && s.workers[t].o in s.api.history
    ensures var pc := s.workers[t];
            var h := Handler(None, pc.o, false);
            && Enabled(c, s, Plainly(s, t))
            && Next(c, s, Plainly(s, t)) ==
                 s.(workers := s.workers[t := AfterHandler(pc, h)],
                    created := if pc.CallCreate? then s.created + {pc.o.uid} else s.created,
                    completed := if pc.CallCreate? then s.completed + {pc.o.uid} else s.completed,
                    finalized := if pc.CallFinalize? then s.finalized + {pc.o.uid} else s.finalized)
  {
    assert LeavesAlone(c, s.workers[t].o, s.workers[t].o);
  }

  /** A write, left alone, of what is based on the stored state. */
  lemma WriteGoes(c: Config, s: Sys, t: int)
    requires t in s.workers && IsWrite(s.workers[t])
    requires var out := Outgoing(c, s.workers[t]); Accepts(s.api, out, NoFault) && Body(s.api, out) == out
    ensures var pc := s.workers[t];
            var out := Outgoing(c, pc);
            && Enabled(c, s, Plainly(s, t))
            && Next(c, s, Plainly(s, t)) ==
                 s.(api := Save(s.api, out),
                    workers := s.workers[t := AfterWrite(c, pc, Some(out.(version := s.api.next)))])
  {
  }

  /** A new object gets the finalizer, Create is called, and the object is marked as created. */
  lemma NewObjectIsCreated(c: Config, s: Sys, t: int, o: Obj) returns (s': Sys)
    requires c.hasFinalize && c.hasCreate && Ready(s, t, o) && !o.deleting
    requires c.key !in o.finalizers && c.createKey !in o.annotations
    ensures Enabled(c, s, Sync(t, o)) && Goes(c, Next(c, s, Sync(t, o)), t, 3, s')
    ensures s'.workers == s.workers[t := Done] && s'.created == s.created + {o.uid} && s'.finalized == s.finalized
    ensures s'.api.store == s.api.store[o.name := o.(finalizers := o.finalizers + [c.key], version := s.api.next + 1,
                                                     annotations := o.annotations[c.createKey := "true"])]
  {
    var s1 := s.(workers := s.workers[t := AddFinalizer(o)]);
    assert Next(c, s, Sync(t, o)) == s1;
    WriteGoes(c, s1, t);
    var o2 := o.(finalizers := o.finalizers + [c.key], version := s.api.next);
    var s2 := s.(api := Api(s.api.store[o.name := o2], s.api.history + {o2}, s.api.next + 1),
                 workers := s1.workers[t := CallCreate(o2)]);
    assert Next(c, s1, Plainly(s1, t)) == s2;
    CallGoes(c, s2, t);
    var s3 := s2.(workers := s2.workers[t := SetInitialized(o2)], created := s.created + {o.uid},
                  completed := s.completed + {o.uid});
    assert Next(c, s2, Plainly(s2, t)) == s3;
    s' := MarkGoes(c, s3, t, o2);
    GoesOn(c, s2, t, s3, 1, s');
    GoesOn(c, s1, t, s2, 2, s');
    assert s'.workers == s.workers[t := Done];
  }

  lemma MarkGoes(c: Config, s: Sys, t: int, o: Obj) returns (s': Sys)
    requires t in s.workers && s.workers[t] == SetInitialized(o)
    requires o.name in s.api.store && s.api.store[o.name] == o && !o.deleting
    ensures Goes(c, s, t, 1, s') && s'.created == s.created && s'.finalized == s.finalized
    ensures s'.workers == s.workers[t := Done]
    ensures s'.api.store == s.api.store[o.name := o.(version := s.api.next,
                                                     annotations := o.annotations[c.createKey := "true"])]
  {
    WriteGoes(c, s, t);
    s' := Next(c, s, Plainly(s, t));
    assert Goes(c, s', t, 0, s');
    GoesOn(c, s, t, s', 0, s');
  }

  /** Of a deleted object that carries the finalizer Finalize is called and the finalizer removed; the object
      is gone with its last one. */
  lemma DeletedObjectIsFinalized(c: Config, s: Sys, t: int, o: Obj) returns (s': Sys)
    requires c.hasFinalize && Ready(s, t, o) && o.deleting && c.key in o.finalizers
    ensures Enabled(c, s, Sync(t, o)) && Goes(c, Next(c, s, Sync(t, o)), t, 2, s')
    ensures s'.workers == s.workers[t := Done] && s'.created == s.created && s'.finalized == s.finalized + {o.uid}
    ensures var left := Except(o.finalizers, Equal(c.key));
            s'.api.store == if left == [] then s.api.store - {o.name}
                            else s.api.store[o.name := o.(finalizers := left, version := s.api.next)]
  {
    var s1 := s.(workers := s.workers[t := CallFinalize(o)]);
    assert Next(c, s, Sync(t, o)) == s1;
    CallGoes(c, s1, t);
    var s2 := s1.(workers := s1.workers[t := RemoveFinalizer(o, 0, false)], finalized := s.finalized + {o.uid});
    assert Next(c, s1, Plainly(s1, t)) == s2;
    ExceptElements(o.finalizers, Equal(c.key));
    WriteGoes(c, s2, t);
    s' := Next(c, s2, Plainly(s2, t));
    assert Goes(c, s', t, 0, s');
    GoesOn(c, s2, t, s', 0, s');
    GoesOn(c, s1, t, s2, 1, s');
    assert s'.workers == s.workers[t := Done];
  }

  /** Of an object marked as created Updated is called, and what it returns is stored. */
  lemma CreatedObjectIsUpdated(c: Config, s: Sys, t: int, o: Obj, x: Obj) returns (s': Sys)
    requires c.hasFinalize && Ready(s, t, o) && !o.deleting && x != o && LeavesAlone(c, o, x)
    requires c.createKey in o.annotations && o.annotations[c.createKey] == "true"
    ensures var s1 := Next(c, s, Sync(t, o));
            var call := Proceed(t, Handler(Some(x), x, false), NoFault);
            && Enabled(c, s, Sync(t, o)) && Enabled(c, s1, call) && Goes(c, Next(c, s1, call), t, 1, s')
    ensures s'.workers == s.workers[t := Done] && s'.created == s.created && s'.finalized == s.finalized
    ensures s'.api.store == s.api.store[o.name := x.(version := s.api.next, deleting := false)]
  {
    var s1 := s.(workers := s.workers[t := CallUpdated(o)]);
    assert Next(c, s, Sync(t, o)) == s1;
    var call := Proceed(t, Handler(Some(x), x, false), NoFault);
    assert Enabled(c, s1, call);
    var s2 := s1.(workers := s1.workers[t := WriteUpdated(x)]);
    assert Next(c, s1, call) == s2;
    s' := Next(c, s2, Plainly(s2, t));
    assert Goes(c, s', t, 0, s');
    GoesOn(c, s2, t, s', 0, s');
    assert s'.workers == s.workers[t := Done];
  }

  predicate Updating(pc: PC) { pc.CallUpdated? || pc.WriteUpdated? || pc.Done? }

  lemma {:induction false} StaysUpdating(c: Config, s: Sys, steps: seq<Step>, t: int, s': Sys)
    requires t in s.workers && Updating(s.workers[t])
    requires Runs(c, s, steps, s') && forall i :: 0 <= i < |steps| ==> !(steps[i].Sync? && steps[i].t == t)
    ensures t in s'.workers && Updating(s'.workers[t])
    decreases |steps|
  {
    if steps != [] {
      var step := steps[0];
      assert !(step.Sync? && step.t == t);
      StaysUpdating(c, Next(c, s, step), steps[1..], t, s');
    }
  }

  /** A worker that takes an initialized object, not being deleted, calls Updated with it first; in no run does
      it get to call Create or Finalize until it takes another object. */
  lemma InitializedIsUpdated(c: Config, s: Sys, t: int, o: Obj, steps: seq<Step>, s': Sys)
    requires !o.deleting && c.createKey in o.annotations && o.annotations[c.createKey] == "true"
    requires Runs(c, Next(c, s, Sync(t, o)), steps, s')
    requires forall i :: 0 <= i < |steps| ==> !(steps[i].Sync? && steps[i].t == t)
    ensures Next(c, s, Sync(t, o)) == s.(workers := s.workers[t := CallUpdated(o)])
    ensures t in s'.workers && Updating(s'.workers[t])
  {
    StaysUpdating(c, Next(c, s, Sync(t, o)), steps, t, s');
  }

  // ----------------------------------------------------- the removal loop itself

  method StripLoop(list: seq<string>, key: string) returns (out: seq<string>)
    ensures out == Except(list, Equal(key))
  {
    out := [];
    for i := 0 to |list|
      invariant out == Except(list[..i], Equal(key))
    {
      ExceptOneMore(list, i, Equal(key));
      if list[i] != key { out := out + [list[i]]; }
    }
    assert list[..|list|] == list;
  }

  /** The server as one try meets it: at its PUT and, when that is refused, at its GET. */
  datatype View = View(put: Api, putFault: Fault, get: Api, getFault: Fault)

  /** The server keeps an object under its own name. */
  predicate Named(a: Api) { forall n :: n in a.store ==> a.store[n].name == n }

  /** Where the worker of the system above stands after n tries against these views. */
  ghost function After(c: Config, o: Obj, views: seq<View>, n: nat): PC
    requires n <= |views|
  {
    if n == 0 then RemoveFinalizer(o, 0, false)
    else
      var pc := After(c, o, views, n - 1);
      if !pc.RemoveFinalizer? then pc
      else
        var v := views[n - 1];
        var next := AfterWrite(c, pc, Reply(v.put, Outgoing(c, pc), v.putFault));
        if next.Refetch? then AfterRefetch(v.get, next, v.getFault) else next
  }

  /** The reply to a removal from o. */
  ghost function Answer(c: Config, o: Obj, v: View): Option<Obj> {
    Reply(v.put, o.(finalizers := Except(o.finalizers, Equal(c.key))), v.putFault)
  }

  /** The object of the try after n others, if it comes to that. */
  ghost function Tried(c: Config, o: Obj, views: seq<View>, n: nat): Option<Obj>
    requires n <= |views|
  {
    var pc := After(c, o, views, n);
    if pc.RemoveFinalizer? then Some(pc.o) else None
  }

  lemma AfterTry(c: Config, o: Obj, views: seq<View>, n: nat, current: Obj)
    requires n < |views| == RETRIES && After(c, o, views, n) == RemoveFinalizer(current, n, false)
    ensures var v := views[n];
            After(c, o, views, n + 1) ==
              if Answer(c, current, v).None? && current.name in v.get.store && v.getFault.NoFault? && n + 1 < RETRIES
              then RemoveFinalizer(v.get.store[current.name], n + 1, false) else Done
  {
  }

  /** One try: the PUT and, when that is refused, the GET. */
  method Try(c: Config, o: Obj, v: View) returns (result: Option<Obj>, next: Option<Obj>)
    ensures result == Answer(c, o, v)
    ensures result.Some? ==> c.key !in result.value.finalizers
    ensures next == if result.None? && o.name in v.get.store && v.getFault.NoFault? then Some(v.get.store[o.name])
                    else None
  {
    var list := StripLoop(o.finalizers, c.key);
    result, next := Reply(v.put, o.(finalizers := list), v.putFault), None;
    ExceptElements(o.finalizers, Equal(c.key));
    if result.None? && o.name in v.get.store && v.getFault.NoFault? { next := Some(v.get.store[o.name]); }
  }

  /**
   The three-step loop, whatever happens at the server between its calls: it walks exactly the path of
   a worker that is removing its finalizer, and it succeeds with the state that the server stored.
   */
  method RemoveFinalizerLoop(c: Config, o: Obj, views: seq<View>) returns (result: Option<Obj>, tries: nat)
    requires |views| == 3
    requires forall v :: v in views ==> Named(v.get)
    ensures tries <= 3 && After(c, o, views, 3).Done?
    ensures result.Some? ==> 0 < tries && c.key !in result.value.finalizers
    ensures forall i :: 0 <= i < tries ==> Tried(c, o, views, i).Some?
    ensures forall i :: 0 <= i < tries ==>
              Answer(c, Tried(c, o, views, i).value, views[i]) == if i == tries - 1 then result else None
    ensures result.None? && tries < 3 ==>
              0 < tries && (o.name !in views[tries - 1].get.store || !views[tries - 1].getFault.NoFault?)
  {
    var current := o;
    tries := 0;
    result := None;
    while tries < RETRIES
      invariant tries <= RETRIES && result.None? && current.name == o.name
      invariant After(c, o, views, tries) == if tries < RETRIES then RemoveFinalizer(current, tries, false) else Done
      invariant forall i :: 0 <= i < tries ==> Tried(c, o, views, i).Some?
      invariant forall i :: 0 <= i < tries ==> Answer(c, Tried(c, o, views, i).value, views[i]).None?
    {
      var next;
      result, next := Try(c, current, views[tries]);
      AfterTry(c, o, views, tries, current);
      tries := tries + 1;
      if next.None? {
        StaysDone(c, o, views, tries);
        return;
      }
      assert Named(views[tries - 1].get);
      current := next.value;
    }
  }

  lemma {:induction false} StaysDone(c: Config, o: Obj, views: seq<View>, n: nat)
    requires n <= |views| && After(c, o, views, n).Done?
    ensures After(c, o, views, |views|).Done?
    decreases |views| - n
  {
    if n < |views| { StaysDone(c, o, views, n + 1); }
  }

  // ------------------------------------------------------- where it would fail

  /** As Enabled; with reuse a name that is free again may be taken by a new object. */
  ghost predicate May(c: Config, reuse: bool, s: Sys, step: Step) {
    if reuse && step.Create? then
      && (forall h :: h in s.api.history ==> h.uid != step.o.uid)
      && step.o.name !in s.api.store && !step.o.deleting
    else Enabled(c, s, step)
  }

  ghost predicate Plays(c: Config, reuse: bool, s: Sys, steps: seq<Step>, t: Sys)
    decreases |steps|
  {
    if steps == [] then s == t
    else May(c, reuse, s, steps[0]) && Plays(c, reuse, Next(c, s, steps[0]), steps[1..], t)
  }

  ghost predicate Reached(c: Config, reuse: bool, t: Sys) { exists steps :: Plays(c, reuse, INIT, steps, t) }

  lemma {:induction false} PlaysRuns(c: Config, s: Sys, steps: seq<Step>, t: Sys)
    requires Plays(c, false, s, steps, t)
    ensures Runs(c, s, steps, t)
    decreases |steps|
  {
    if steps != [] { PlaysRuns(c, Next(c, s, steps[0]), steps[1..], t); }
  }

  lemma {:induction false} PlaysOn(c: Config, reuse: bool, s: Sys, steps: seq<Step>, t: Sys, step: Step)
    requires Plays(c, reuse, s, steps, t) && May(c, reuse, t, step)
    ensures Plays(c, reuse, s, steps + [step], Next(c, t, step))
    decreases |steps|
  {
    var all := steps + [step];
    if steps == [] {
      assert all[1..] == [];
    } else {
      PlaysOn(c, reuse, Next(c, s, steps[0]), steps[1..], t, step);
      assert all[1..] == steps[1..] + [step];
    }
  }

  lemma ReachedOn(c: Config, reuse: bool, t: Sys, step: Step)
    requires Reached(c, reuse, t) && May(c, reuse, t, step)
    ensures Reached(c, reuse, Next(c, t, step))
  {
    var steps :| Plays(c, reuse, INIT, steps, t);
    PlaysOn(c, reuse, INIT, steps, t, step);
  }

  lemma CreateOn(c: Config, reuse: bool, s: Sys, o: Obj)
    requires Reached(c, reuse, s) && o.name !in s.api.store && !o.deleting
    requires forall h :: h in s.api.history ==> h.uid != o.uid && (reuse || h.name != o.name)
    ensures Reached(c, reuse, s.(api := Save(s.api, o)))
  {
    ReachedOn(c, reuse, s, Create(o));
  }

  lemma DeleteOn(c: Config, reuse: bool, s: Sys, name: string)
    requires Reached(c, reuse, s) && name in s.api.store
    ensures Reached(c, reuse, s.(api := Save(s.api, s.api.store[name].(deleting := true))))
  {
    ReachedOn(c, reuse, s, Delete(name));
  }

  lemma SyncOn(c: Config, reuse: bool, s: Sys, t: int, o: Obj)
    requires Reached(c, reuse, s) && o in s.api.history && t !in s.workers
    ensures Reached(c, reuse, s.(workers := s.workers[t := Decide(c, o)]))
  {
    ReachedOn(c, reuse, s, Sync(t, o));
  }

  lemma WriteOn(c: Config, reuse: bool, s: Sys, t: int)
    requires Reached(c, reuse, s) && t in s.workers && IsWrite(s.workers[t])
    ensures var pc := s.workers[t];
            var o := Outgoing(c, pc);
            Reached(c, reuse, s.(api := Update(s.api, o, NoFault),
                          workers := s.workers[t := AfterWrite(c, pc, Reply(s.api, o, NoFault))]))
  {
    ReachedOn(c, reuse, s, Proceed(t, Handler(None, s.workers[t].o, false), NoFault));
  }

  /** A call of a handler that returns nil and leaves its copy alone. */
  lemma CallOn(c: Config, reuse: bool, s: Sys, t: int, failed: bool)
    requires Reached(c, reuse, s) && t in s.workers && IsCall(s.workers[t]) && s.workers[t].o in s.api.history
    ensures Reached(c, reuse, Run(c, s, t, s.workers[t], Handler(None, s.workers[t].o, failed), NoFault))
  {
    var o := s.workers[t].o;
    assert LeavesAlone(c, o, o);
    ReachedOn(c, reuse, s, Proceed(t, Handler(None, o, failed), NoFault));
  }

  lemma RefetchOn(c: Config, reuse: bool, s: Sys, t: int)
    requires Reached(c, reuse, s) && t in s.workers && s.workers[t].Refetch?
    ensures Reached(c, reuse, s.(workers := s.workers[t := AfterRefetch(s.api, s.workers[t], NoFault)]))
  {
    var o := Obj("", 0, 0, [], false, map[], "");
    ReachedOn(c, reuse, s, Proceed(t, Handler(None, o, false), NoFault));
  }

  /** A worker puts the finalizer on the object as it is stored. */
  lemma AddOn(c: Config, reuse: bool, s: Sys, t: int, o: Obj) returns (s': Sys)
    requires Reached(c, reuse, s) && t in s.workers && s.workers[t] == AddFinalizer(o)
    requires o.name in s.api.store && s.api.store[o.name] == o && !o.deleting
    ensures var o' := o.(finalizers := o.finalizers + [c.key], version := s.api.next);
            && s' == s.(api := Api(s.api.store[o.name := o'], s.api.history + {o'}, s.api.next + 1),
                        workers := s.workers[t := AfterAdd(c, o')])
            && Reached(c, reuse, s')
  {
    WriteOn(c, reuse, s, t);
    var out := Outgoing(c, AddFinalizer(o));
    assert Accepts(s.api, out, NoFault) && Body(s.api, out) == out;
    s' := s.(api := Save(s.api, out), workers := s.workers[t := AfterAdd(c, out.(version := s.api.next))]);
  }

  /** An object is created, a worker puts the finalizer on it and is about to call Create. */
  lemma Adopted(c: Config, reuse: bool, s: Sys, o: Obj, t: int) returns (s': Sys)
    requires c.hasFinalize && c.hasCreate && Reached(c, reuse, s) && o.name !in s.api.store && t !in s.workers
    requires c.key !in o.finalizers && !o.deleting && c.createKey !in o.annotations
    requires forall h :: h in s.api.history ==> h.uid != o.uid && (reuse || h.name != o.name)
    ensures Reached(c, reuse, s')
    ensures var o0 := o.(version := s.api.next);
            var o' := o.(finalizers := o.finalizers + [c.key], version := s.api.next + 1);
            s' == s.(api := Api(s.api.store[o.name := o'], s.api.history + {o0, o'}, s.api.next + 2),
                     workers := s.workers[t := CallCreate(o')])
  {
    var o0 := o.(version := s.api.next);
    CreateOn(c, reuse, s, o);
    var s1 := s.(api := Api(s.api.store[o.name := o0], s.api.history + {o0}, s.api.next + 1));
    assert s1 == s.(api := Save(s.api, o));
    SyncOn(c, reuse, s1, t, o0);
    var s2 := s1.(workers := s1.workers[t := AddFinalizer(o0)]);
    s' := AddOn(c, reuse, s2, t, o0);
    var o' := o.(finalizers := o.finalizers + [c.key], version := s.api.next + 1);
    assert s'.api.store == s.api.store[o.name := o'];
    assert s'.api.history == s.api.history + {o0, o'};
    assert s'.workers == s.workers[t := CallCreate(o')];
  }

  /** A worker removes the finalizer of the object as it is stored; without others the object goes if deleted. */
  lemma RemoveOn(c: Config, reuse: bool, s: Sys, t: int, o: Obj) returns (s': Sys)
    requires Reached(c, reuse, s) && t in s.workers && s.workers[t].RemoveFinalizer? && s.workers[t].o == o
    requires o.name in s.api.store && s.api.store[o.name] == o && o.finalizers == [c.key]
    ensures var o' := o.(finalizers := [], version := s.api.next);
            && s' == s.(api := Api(if o.deleting then s.api.store - {o.name} else s.api.store[o.name := o'],
                                   s.api.history + {o'}, s.api.next + 1),
                        workers := s.workers[t := Done])
            && Reached(c, reuse, s')
  {
    WriteOn(c, reuse, s, t);
    var out := Outgoing(c, s.workers[t]);
    assert Except(o.finalizers, Equal(c.key)) == Except(o.finalizers[1..], Equal(c.key)) == [];
    assert out == o.(finalizers := []);
    assert Accepts(s.api, out, NoFault) && Body(s.api, out) == out;
    s' := s.(api := Save(s.api, out), workers := s.workers[t := Done]);
  }

  /** A worker takes a deleted object from its cache and Finalize returns without error. */
  lemma FinalizeOn(c: Config, reuse: bool, s: Sys, t: int, o: Obj) returns (s': Sys)
    requires c.hasFinalize && Reached(c, reuse, s) && o in s.api.history && t !in s.workers
    requires o.deleting && c.key in o.finalizers
    ensures s' == s.(workers := s.workers[t := RemoveFinalizer(o, 0, false)], finalized := s.finalized + {o.uid})
    ensures Reached(c, reuse, s')
  {
    SyncOn(c, reuse, s, t, o);
    var s1 := s.(workers := s.workers[t := CallFinalize(o)]);
    CallOn(c, reuse, s1, t, false);
    s' := Run(c, s1, t, CallFinalize(o), Handler(None, o, false), NoFault);
    assert s'.workers == s.workers[t := RemoveFinalizer(o, 0, false)];
  }

  /** A removal that was meant for one object finds another under its name. */
  lemma MeetsNamesake(c: Config, reuse: bool, s: Sys, t: int, o: Obj, b: Obj) returns (s': Sys)
    requires Reached(c, reuse, s) && t in s.workers && s.workers[t] == RemoveFinalizer(o, 0, false)
    requires o.name in s.api.store && s.api.store[o.name] == b && b.name == o.name && b.uid != o.uid
    ensures s' == s.(workers := s.workers[t := RemoveFinalizer(b, 1, false)]) && Reached(c, reuse, s')
  {
    WriteOn(c, reuse, s, t);
    var s1 := s.(workers := s.workers[t := Refetch(o.name, 0)]);
    RefetchOn(c, reuse, s1, t);
    s' := s1.(workers := s1.workers[t := RemoveFinalizer(b, 1, false)]);
    assert s'.workers == s.workers[t := RemoveFinalizer(b, 1, false)];
  }

  const EXAMPLE := Config("k", "c", true, true)

  function Example(uid: int): Obj { Obj("n", uid, 0, [], false, map[], "") }

  /** The first object of a run, with the finalizer on it, is deleted. */
  lemma Condemned(reuse: bool, o: Obj) returns (s: Sys, a: Obj)
    requires o == Example(1).(finalizers := o.finalizers) && "k" !in o.finalizers
    ensures Reached(EXAMPLE, reuse, s) && s.workers.Keys == {1} && s.created == {} && s.finalized == {}
    ensures a == o.(finalizers := o.finalizers + ["k"], deleting := true, version := 2)
    ensures s.api.store == map["n" := a] && a in s.api.history && forall h :: h in s.api.history ==> h.uid == 1
  {
    var c := EXAMPLE;
    assert Plays(c, reuse, INIT, [], INIT);
    s := Adopted(c, reuse, INIT, o, 1);
    DeleteOn(c, reuse, s, "n");
    s := s.(api := Save(s.api, s.api.store["n"].(deleting := true)));
    a := s.api.store["n"];
  }

  /** Two workers have finalized the first object; one of them has removed it, the other is about to. */
  lemma FirstIsGone() returns (s: Sys, a: Obj)
    ensures Reached(EXAMPLE, true, s) && s.api.store == map[] && s.created == {} && s.finalized == {1}
    ensures 3 in s.workers && s.workers[3] == RemoveFinalizer(a, 0, false) && 4 !in s.workers
    ensures a.name == "n" && a.uid == 1 && forall h :: h in s.api.history ==> h.uid == 1
  {
    s, a := Condemned(true, Example(1));
    assert a.finalizers == ["k"];
    s := FinalizeOn(EXAMPLE, true, s, 2, a);
    s := FinalizeOn(EXAMPLE, true, s, 3, a);
    s := RemoveOn(EXAMPLE, true, s, 2, a);
  }

  /**
   Why names must not be reused: with reuse there is a run in which Create was invoked on an object, the
   object is gone, and Finalize never returned for it. A worker that was late in removing the finalizer
   of an earlier object of that name took this one's.
   */
  lemma ReuseLosesAFinalizer() returns (s: Sys)
    ensures Reached(EXAMPLE, true, s)
    ensures 2 in s.created && 2 !in s.finalized && s.api.store == map[]
  {
    var c, reuse := EXAMPLE, true;
    var a;
    s, a := FirstIsGone();
    s := Adopted(c, reuse, s, Example(2), 4);
    CallOn(c, reuse, s, 4, true);
    var b := s.workers[4].o;
    s := Run(c, s, 4, s.workers[4], Handler(None, b, true), NoFault);
    assert s.created == {2} && s.api.store == map["n" := b];
    s := MeetsNamesake(c, reuse, s, 3, a, b);
    s := RemoveOn(c, reuse, s, 3, b);
    DeleteOn(c, reuse, s, "n");
    s := s.(api := Save(s.api, s.api.store["n"].(deleting := true)));
  }

  /**
   Why the copy matters: there is a run without reuse in which the Finalize handler drops another
   finalizer from its copy and returns nil. The removal then leaves the store without the object, though
   the current finalizers minus the adapter's own were not empty.
   */
  lemma EditedCopyIsCommitted() returns (steps: seq<Step>, s: Sys, t: int)
    ensures Runs(EXAMPLE, INIT, steps, s)
    ensures t in s.workers && s.workers[t].RemoveFinalizer? && s.workers[t].edited && "n" in s.api.store
    ensures Except(s.api.store["n"].finalizers, Equal(EXAMPLE.key)) == ["x"]
    ensures forall h :: Run(EXAMPLE, s, t, s.workers[t], h, NoFault).api.store == map[]
  {
    var c, reuse := EXAMPLE, false;
    var a;
    s, a := Condemned(reuse, Example(1).(finalizers := ["x"]));
    assert a.finalizers == ["x", "k"];
    SyncOn(c, reuse, s, 2, a);
    s := s.(workers := s.workers[2 := CallFinalize(a)]);
    var copy := a.(finalizers := ["k"]);
    s := EditOn(c, reuse, s, 2, a, copy);
    t := 2;
    steps :| Plays(c, reuse, INIT, steps, s);
    PlaysRuns(c, INIT, steps, s);
    CommitsTheCopy(s, a, copy);
  }

  /** Finalize returns nil without error and has changed its copy. */
  lemma EditOn(c: Config, reuse: bool, s: Sys, t: int, o: Obj, copy: Obj) returns (s': Sys)
    requires Reached(c, reuse, s) && t in s.workers && s.workers[t] == CallFinalize(o) && o in s.api.history
    requires LeavesAlone(c, o, copy) && copy != o
    ensures s' == s.(workers := s.workers[t := RemoveFinalizer(copy, 0, true)], finalized := s.finalized + {o.uid})
    ensures Reached(c, reuse, s')
  {
    ReachedOn(c, reuse, s, Proceed(t, Handler(None, copy, false), NoFault));
    s' := Next(c, s, Proceed(t, Handler(None, copy, false), NoFault));
  }

  lemma CommitsTheCopy(s: Sys, a: Obj, copy: Obj)
    requires s.api.store == map["n" := a] && a.name == "n" && a.finalizers == ["x", "k"] && a.deleting
    requires copy == a.(finalizers := ["k"])
    ensures Except(a.finalizers, Equal(EXAMPLE.key)) == ["x"]
    ensures forall h :: Run(EXAMPLE, s, 2, RemoveFinalizer(copy, 0, true), h, NoFault).api.store == map[]
  {
    assert a.finalizers[1..] == ["k"] && ["k"][1..] == [];
    assert Except(["k"], Equal("k")) == Except(["k"][1..], Equal("k")) == [];
    assert Except(a.finalizers, Equal("k")) == ["x"] + Except(a.finalizers[1..], Equal("k"));
    var out := Outgoing(EXAMPLE, RemoveFinalizer(copy, 0, true));
    assert Accepts(s.api, out, NoFault) && Body(s.api, out) == out;
  }
}
