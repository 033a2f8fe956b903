/** Status conditions and their protection against flapping (condition/condition.go). */
module Condition {
  import opened Text

  datatype Cond = Cond(status: string, reason: string, message: string, updated: string)

  // ------------------------------------------------------- getters and setters

  function Status(c: Option<Cond>): string { if c.Some? then c.value.status else "" }

  function Reason(c: Option<Cond>): string { if c.Some? then c.value.reason else "" }

  function Message(c: Option<Cond>): string { if c.Some? then c.value.message else "" }

  function Updated(c: Option<Cond>): string { if c.Some? then c.value.updated else "" }

  /** findOrCreateCond. */
  function Made(c: Option<Cond>): Cond { if c.Some? then c.value else Cond("Unknown", "", "", "") }

  function WithStatus(c: Option<Cond>, v: string, now: string): Option<Cond> {
    Some(if Made(c).status == v then Made(c) else Made(c).(status := v, updated := now))
  }

  function WithMessage(c: Option<Cond>, v: string, now: string): Option<Cond> {
    Some(if Made(c).message == v then Made(c) else Made(c).(message := v, updated := now))
  }

  function WithReason(c: Option<Cond>, v: string, now: string): Option<Cond> {
    Some(if Made(c).reason == v then Made(c) else Made(c).(reason := v, updated := now))
  }

  // ----------------------------------------------------------------- redaction

  const TEMP := "/tmp/"
  const REDACTED := "file_path_redacted"

  predicate NameChar(c: char) { c == '-' || c == '_' || 'a' <= c <= 'z' || 'A' <= c <= 'Z' || '0' <= c <= '9' }

  /** How many name characters come first. */
  function NameLength(s: string): (n: nat)
    ensures n <= |s|
  {
    if s == [] || !NameChar(s[0]) then 0 else 1 + NameLength(s[1..])
  }

  /** Every temporary path, as long as it goes, becomes one fixed word. */
  function Redact(s: string): string
    decreases |s|
  {
    if s == [] then []
    else if TEMP <= s && NameLength(s[|TEMP|..]) > 0 then REDACTED + Redact(s[|TEMP| + NameLength(s[|TEMP|..])..])
    else [s[0]] + Redact(s[1..])
  }

  lemma {:induction false} NameEnds(name: string, rest: string)
    requires (forall i :: 0 <= i < |name| ==> NameChar(name[i])) && (rest == [] || !NameChar(rest[0]))
    ensures NameLength(name + rest) == |name|
    decreases |name|
  {
    if name == [] {
      assert name + rest == rest;
    } else {
      assert (name + rest)[1..] == name[1..] + rest;
      NameEnds(name[1..], rest);
    }
  }

  /** A path in the temporary directory becomes one word, up to where its name ends. */
  lemma RedactPath(name: string, rest: string)
    requires name != [] && (forall i :: 0 <= i < |name| ==> NameChar(name[i])) && (rest == [] || !NameChar(rest[0]))
    ensures Redact(TEMP + name + rest) == REDACTED + Redact(rest)
  {
    var s, n := TEMP + name + rest, |TEMP|;
    assert s[n..] == name + rest && TEMP <= s && s != [];
    assert NameLength(s[n..]) == |name| by { NameEnds(name, rest); }
    assert s[n + |name|..] == rest;
    assert Redact(s) == REDACTED + Redact(s[n + NameLength(s[n..])..]);
  }

  /** Any other character stays. */
  lemma RedactOther(c: char, rest: string)
    requires c != '/'
    ensures Redact([c] + rest) == [c] + Redact(rest)
  {
    var s := [c] + rest;
    assert TEMP[0] == '/' && s[0] == c;
    assert s[1..] == rest;
  }

  // ---------------------------------------------------------------- one call

  /** How the guarded function ended: without an error, with a conflict, with an error that says not to
      retry, or with another error; the reason that goes with it is "Error" unless it has its own. */
  datatype Outcome = Success | Conflict(text: string) | Forget(text: string, reason: string)
                   | Failure(text: string, reason: string)

  /** Which condition the outcome is put on. Inside: that of the object itself, or of a copy that the function
      took and returned; Before: that of a copy taken earlier; Foreign: any other one, be it that of another
      object it returned or one that it set itself. */
  datatype Origin = Inside | Before | Foreign(cond: Option<Cond>)

  datatype Call = Call(outcome: Outcome, origin: Origin, now: string)

  /** The condition the outcome is put on: in the object itself it is Unknown by then, unless it was False. */
  function Start(c: Option<Cond>, call: Call): Option<Cond> {
    match call.origin
    case Inside => if Status(c) != "False" then WithStatus(c, "Unknown", call.now) else c
    case Before => c
    case Foreign(x) => x
  }

  /** doInternal, on the condition that is looked at afterwards. */
  function Internal(c: Option<Cond>, call: Call): Option<Cond> {
    var start, now := Start(c, call), call.now;
    match call.outcome
    case Success =>
      WithMessage(Some(Made(WithStatus(start, "True", now)).(reason := "")), "", now)
    case Conflict(_) => WithStatus(start, "False", now)
    case Forget(text, reason) =>
      if Message(start) == "" then WithReason(WithMessage(start, text, now), reason, now) else start
    case Failure(text, reason) =>
      WithReason(WithMessage(WithStatus(start, "False", now), text, now), reason, now)
  }

  /** The end of do2: what only repeats itself keeps its time. */
  function Settled(before: Option<Cond>, after: Option<Cond>, now: string): Option<Cond> {
    if Status(before) == Status(after) && Reason(before) == Reason(after) then
      var calm := if Message(before) != Message(after) then WithMessage(after, Redact(Message(after)), now) else after;
      if Message(before) == Message(calm) then Some(Made(calm).(updated := Updated(before))) else calm
    else after
  }

  function Do(c: Option<Cond>, call: Call): Option<Cond> { Settled(c, Internal(c, call), call.now) }

  predicate Changed(before: Option<Cond>, after: Option<Cond>) {
    || Status(before) != Status(after) || Updated(before) != Updated(after)
    || Reason(before) != Reason(after) || Message(before) != Message(after)
  }

  /** What the report of a change comes down to. */
  predicate Differs(before: Option<Cond>, after: Option<Cond>) {
    || Status(before) != Status(after) || Reason(before) != Reason(after)
    || (Message(before) != Message(after) && Message(before) != Redact(Message(after)))
  }

  lemma SettledDiffers(c: Option<Cond>, a: Option<Cond>, now: string)
    requires a.Some?
    ensures Changed(c, Settled(c, a, now)) <==> Differs(c, a)
  {
  }

  /** Status, reason and message that doInternal leaves on a condition it starts from. */
  function Texts(start: Option<Cond>, o: Outcome): (string, string, string) {
    match o
    case Success => ("True", "", "")
    case Conflict(_) => ("False", Reason(start), Message(start))
    case Forget(text, reason) =>
      if Message(start) == "" then (Made(start).status, reason, text)
      else (Status(start), Reason(start), Message(start))
    case Failure(text, reason) => ("False", reason, text)
  }

  lemma InternalTexts(c: Option<Cond>, call: Call)
    ensures var a := Internal(c, call);
            a.Some? && (Status(a), Reason(a), Message(a)) == Texts(Start(c, call), call.outcome)
  {
    match call.outcome
    case Success =>
    case Conflict(_) =>
    case Forget(_, _) =>
    case Failure(_, _) =>
  }

  lemma StartTexts(c: Option<Cond>, call: Call, later: string)
    ensures var a, b := Start(c, call), Start(c, call.(now := later));
            Made(a).(updated := "") == Made(b).(updated := "") && a.None? == b.None?
  {
  }

  /** Whether a call reports a change does not depend on the clock. */
  lemma ClockDoesNotMatter(c: Option<Cond>, call: Call, later: string)
    ensures Changed(c, Do(c, call)) == Changed(c, Do(c, call.(now := later)))
  {
    var other := call.(now := later);
    var a, b := Internal(c, call), Internal(c, other);
    StartTexts(c, call, later);
    InternalTexts(c, call);
    InternalTexts(c, other);
    SettledDiffers(c, a, call.now);
    SettledDiffers(c, b, later);
    assert Differs(c, a) == Differs(c, b);
  }

  lemma InternalTime(c: Option<Cond>, call: Call)
    requires !call.origin.Foreign? && c.Some?
    ensures var a := Internal(c, call);
            a.Some? && (Status(a) != Status(c) || Message(a) != Message(c) ==> Updated(a) == call.now)
  {
    match call.outcome
    case Success =>
    case Conflict(_) =>
    case Forget(_, _) =>
    case Failure(_, _) =>
  }

  lemma SettledTime(c: Option<Cond>, a: Option<Cond>, now: string)
    requires a.Some?
    ensures var d := Settled(c, a, now);
            && (Message(d) != Message(a) ==> Updated(d) == now || Message(d) == Message(c))
            && (Status(d) == Status(a) && Reason(d) == Reason(a))
            && (Message(d) == Message(a) && Message(a) != Message(c) ==> Updated(d) == Updated(a))
            && (Status(d) != Status(c) ==> d == a)
            && (Status(d) == Status(c) && Reason(d) == Reason(c) && Message(d) == Message(c) ==>
                  Updated(d) == Updated(c))
  {
  }

  /** The time tells: put on the object or a copy of it, a new status or message is stamped with the time of the
      call, and a condition that reads as before keeps its time. */
  lemma TimeTells(c: Option<Cond>, call: Call)
    requires !call.origin.Foreign? && c.Some?
    ensures var d := Do(c, call);
            && (Status(d) != Status(c) || Message(d) != Message(c) ==> Updated(d) == call.now)
            && (Status(d) == Status(c) && Reason(d) == Reason(c) && Message(d) == Message(c) ==>
                  Updated(d) == Updated(c))
  {
    InternalTime(c, call);
    SettledTime(c, Internal(c, call), call.now);
  }

  // --------------------------------------------------------------- many calls

  /** The same outcome, up to temporary paths in the error. */
  predicate Alike(o: Outcome, p: Outcome) {
    match o
    case Success => p.Success?
    case Conflict(_) => p.Conflict?
    case Forget(text, reason) => p.Forget? && p.reason == reason && Redact(p.text) == Redact(text)
    case Failure(text, reason) => p.Failure? && p.reason == reason && Redact(p.text) == Redact(text)
  }

  /** A success or a failure replaces all texts. The other outcomes keep texts of the condition they are put on. */
  predicate Overrides(o: Outcome) { o.Success? || o.Failure? }

  predicate EndsLike(call: Call, o: Outcome) { Alike(o, call.outcome) && (call.origin.Foreign? ==> Overrides(o)) }

  /** No call that ends like o changes c any more. */
  predicate Quiet(c: Option<Cond>, o: Outcome) {
    && Half(c, o)
    && (o.Forget? ==> c.value.status == "False" || c.value.status == "Unknown")
    && (o.Failure? ==> c.value.message == Redact(o.text))
  }

  /** At most one call that ends like o still changes c: the error text may have to be redacted, or the
      status to become Unknown. */
  predicate Half(c: Option<Cond>, o: Outcome) {
    && c.Some?
    && match o
       case Success => c.value.status == "True" && c.value.reason == "" && c.value.message == ""
       case Conflict(_) => c.value.status == "False"
       case Forget(text, reason) => c.value.message != "" || (text == "" && c.value.reason == reason)
       case Failure(text, reason) =>
         && c.value.status == "False" && c.value.reason == reason
         && (c.value.message == Redact(text) || Redact(c.value.message) == Redact(text))
  }

  lemma EmptyRedacts(s: string, t: string)
    requires Redact(s) == Redact(t)
    ensures s == "" <==> t == ""
  {
  }

  lemma RedactEmpty(s: string)
    ensures Redact(s) == "" <==> s == ""
  {
  }

  lemma HalfAlike(c: Option<Cond>, o: Outcome, p: Outcome)
    requires Alike(o, p)
    ensures Half(c, o) == Half(c, p) && Quiet(c, o) == Quiet(c, p)
  {
    if o.Forget? { EmptyRedacts(o.text, p.text); }
  }

  lemma QuietStays(c: Option<Cond>, o: Outcome, call: Call)
    requires EndsLike(call, o) && Quiet(c, o)
    ensures Do(c, call) == c
  {
    HalfAlike(c, o, call.outcome);
  }

  lemma OneForget(c: Option<Cond>, call: Call)
    requires call.outcome.Forget?
    ensures Half(Do(c, call), call.outcome)
  {
    var d := Internal(c, call);
    var e := Settled(c, d, call.now);
    InternalTexts(c, call);
    assert e.Some? && e.value.reason == Reason(d);
    assert Message(e) == Message(d) || (Message(d) != "" && Message(e) == Redact(Message(d)));
    RedactEmpty(Message(d));
  }

  lemma OneFailure(c: Option<Cond>, call: Call)
    requires call.outcome.Failure?
    ensures Half(Do(c, call), call.outcome)
  {
    InternalTexts(c, call);
    var e := Do(c, call);
    assert Message(e) == call.outcome.text || Message(e) == Redact(call.outcome.text);
  }

  /** After one call c is halfway quiet. */
  lemma OneCall(c: Option<Cond>, call: Call)
    ensures Half(Do(c, call), call.outcome)
  {
    InternalTexts(c, call);
    match call.outcome
    case Success =>
    case Conflict(_) =>
    case Forget(_, _) => OneForget(c, call);
    case Failure(_, _) => OneFailure(c, call);
  }

  /** A call that ends like the last one leaves c as it is, or quiet. */
  lemma AnotherCall(c: Option<Cond>, o: Outcome, call: Call)
    requires EndsLike(call, o) && Half(c, o)
    ensures Do(c, call) == c || Quiet(Do(c, call), call.outcome)
  {
    HalfAlike(c, o, call.outcome);
    InternalTexts(c, call);
  }

  function Last(c: Option<Cond>, calls: seq<Call>): Option<Cond>
    decreases |calls|
  {
    if calls == [] then c else Last(Do(c, calls[0]), calls[1..])
  }

  /** How many of the calls report a change. */
  function Changes(c: Option<Cond>, calls: seq<Call>): nat
    decreases |calls|
  {
    if calls == [] then 0
    else (if Changed(c, Do(c, calls[0])) then 1 else 0) + Changes(Do(c, calls[0]), calls[1..])
  }

  ghost predicate AllAlike(calls: seq<Call>, o: Outcome) { forall i :: 0 <= i < |calls| ==> EndsLike(calls[i], o) }

  lemma {:induction false} QuietForever(c: Option<Cond>, calls: seq<Call>, o: Outcome)
    requires AllAlike(calls, o) && Quiet(c, o)
    ensures Changes(c, calls) == 0 && Last(c, calls) == c
    decreases |calls|
  {
    if calls != [] {
      QuietStays(c, o, calls[0]);
      QuietForever(c, calls[1..], o);
    }
  }

  lemma {:induction false} OnceMore(c: Option<Cond>, calls: seq<Call>, o: Outcome)
    requires AllAlike(calls, o) && Half(c, o)
    ensures Changes(c, calls) <= 1
    decreases |calls|
  {
    if calls != [] {
      var d := Do(c, calls[0]);
      AnotherCall(c, o, calls[0]);
      if d == c {
        OnceMore(c, calls[1..], o);
      } else {
        HalfAlike(d, o, calls[0].outcome);
        QuietForever(d, calls[1..], o);
      }
    }
  }

  /** However often a function ends alike, whichever object it returns each time, at most two of the calls
      report a change of its condition. */
  lemma AtMostTwoChanges(c: Option<Cond>, calls: seq<Call>, o: Outcome)
    requires AllAlike(calls, o)
    ensures Changes(c, calls) <= 2
  {
    if calls != [] {
      var d := Do(c, calls[0]);
      OneCall(c, calls[0]);
      HalfAlike(d, o, calls[0].outcome);
      OnceMore(d, calls[1..], o);
    }
  }

  lemma ChangesOfTwo(c: Option<Cond>, a: Call, b: Call)
    ensures Changes(c, [a, b]) == (if Changed(c, Do(c, a)) then 1 else 0)
                                + (if Changed(Do(c, a), Do(Do(c, a), b)) then 1 else 0)
  {
    assert [a, b][1..] == [b] && [b][1..] == [];
    assert Changes(Do(c, a), [b]) == if Changed(Do(c, a), Do(Do(c, a), b)) then 1 else 0;
  }

  /** A call that fails with this error text. */
  function Failing(text: string, now: string): Call { Call(Failure(text, "Error"), Inside, now) }

  lemma FirstChange(text: string, now: string)
    ensures Do(None, Failing(text, now)) == Some(Cond("False", "Error", text, now))
  {
  }

  lemma SecondChange(c: Cond, text: string, now: string)
    requires c.status == "False" && c.reason == "Error" && c.message != Redact(text) && c.message != text
    ensures Changed(Some(c), Do(Some(c), Failing(text, now)))
  {
    InternalTexts(Some(c), Failing(text, now));
  }

  /** Two it can be: the first error is kept as it is, the second one is redacted. */
  lemma TwoChangesHappen()
    ensures var calls := [Failing("/tmp/a", "1"), Failing("/tmp/b", "2")];
            AllAlike(calls, calls[0].outcome) && Changes(None, calls) == 2
  {
    OnePath('a');
    OnePath('b');
    FirstChange("/tmp/a", "1");
    SecondChange(Cond("False", "Error", "/tmp/a", "1"), "/tmp/b", "2");
    ChangesOfTwo(None, Failing("/tmp/a", "1"), Failing("/tmp/b", "2"));
  }

  /** Otherwise the texts of a foreign condition come through, and with changing reasons every call changes. */
  lemma {:induction false} ForeignTextsFlap(calls: seq<Call>, c: Option<Cond>)
    requires forall i :: 0 <= i < |calls| ==> !Overrides(calls[i].outcome)
    requires forall i :: 0 <= i < |calls| ==> calls[i].origin.Foreign? && Message(calls[i].origin.cond) != ""
    requires forall i :: 0 < i < |calls| ==> Reason(calls[i].origin.cond) != Reason(calls[i - 1].origin.cond)
    requires calls != [] ==> Reason(calls[0].origin.cond) != Reason(c)
    ensures Changes(c, calls) == |calls|
    decreases |calls|
  {
    if calls != [] {
      var d := Do(c, calls[0]);
      InternalTexts(c, calls[0]);
      assert Reason(d) == Reason(calls[0].origin.cond);
      ForeignTextsFlap(calls[1..], d);
    }
  }

  /** Calls that end like o; whether any of them may be put on a foreign condition. */
  ghost predicate Repeats(calls: seq<Call>, o: Outcome, foreign: bool) {
    forall i :: 0 <= i < |calls| ==> Alike(o, calls[i].outcome) && (calls[i].origin.Foreign? ==> foreign)
  }

  /** The bound holds for every run exactly if the outcome replaces all texts or no condition is foreign. */
  lemma TwoChangesExactly(o: Outcome, foreign: bool)
    ensures (forall c, calls :: Repeats(calls, o, foreign) ==> Changes(c, calls) <= 2) <==> !foreign || Overrides(o)
  {
    if !foreign || Overrides(o) {
      forall c, calls | Repeats(calls, o, foreign)
        ensures Changes(c, calls) <= 2
      {
        AtMostTwoChanges(c, calls, o);
      }
    } else {
      var a := Call(o, Foreign(Some(Cond("", "a", "x", ""))), "");
      var b := Call(o, Foreign(Some(Cond("", "b", "x", ""))), "");
      ForeignTextsFlap([a, b, a], None);
      assert Repeats([a, b, a], o, foreign);
    }
  }

  lemma OnePath(c: char)
    requires NameChar(c)
    ensures Redact(TEMP + [c]) == REDACTED
  {
    var s := TEMP + [c];
    assert s[|TEMP|..] == [c];
    assert NameLength([c]) == 1;
    assert s[|TEMP| + 1..] == [];
    assert REDACTED + [] == REDACTED;
  }

  // ------------------------------------------------------------------- in place

  /** An object's entry for one condition. */
  class Entry {
    var cond: Option<Cond>

    constructor (c: Option<Cond>)
      ensures cond == c
    {
      cond := c;
    }

    method SetStatus(v: string, now: string)
      modifies this
      ensures cond == WithStatus(old(cond), v, now)
    {
      Create();
      if cond.value.status != v { cond := Some(cond.value.(status := v, updated := now)); }
    }

    method SetMessage(v: string, now: string)
      modifies this
      ensures cond == WithMessage(old(cond), v, now)
    {
      Create();
      if cond.value.message != v { cond := Some(cond.value.(message := v, updated := now)); }
    }

    method Create()
      modifies this
      ensures cond == Some(Made(old(cond)))
    {
      if cond.None? { cond := Some(Cond("Unknown", "", "", "")); }
    }

    method SetFromError(text: string, reason: string, now: string)
      modifies this
      ensures cond == WithReason(WithMessage(old(cond), text, now), reason, now)
    {
      SetMessage(text, now);
      if cond.value.reason != reason { cond := Some(cond.value.(reason := reason, updated := now)); }
    }
  }

  /** Where the outcome goes: to the object that the function returned, if that is to be set, or else to the
      object itself, whose condition the function may have set meanwhile. */
  function OriginOf(copy: Option<Option<Cond>>, meanwhile: Option<Option<Cond>>): Origin {
    if copy.Some? then Foreign(copy.value) else if meanwhile.Some? then Foreign(meanwhile.value) else Inside
  }

  /** doInternal; copy is the object that the function returned, if it is to be set instead. */
  method DoInternal(obj: Entry, copy: Entry?, meanwhile: Option<Option<Cond>>, o: Outcome, now: string)
    returns (check: Entry)
    requires copy != obj
    modifies obj, copy
    ensures check == if copy == null then obj else copy
    ensures var origin := OriginOf(if copy == null then None else Some(old(copy.cond)), meanwhile);
            check.cond == Internal(old(obj.cond), Call(o, origin, now))
  {
    if Status(obj.cond) != "False" { obj.SetStatus("Unknown", now); }
    if meanwhile.Some? { obj.cond := meanwhile.value; }
    check := if copy == null then obj else copy;
    match o
    case Success =>
      check.SetStatus("True", now);
      check.cond := Some(check.cond.value.(reason := ""));
      check.SetMessage("", now);
    case Conflict(_) => check.SetStatus("False", now);
    case Forget(text, reason) => if Message(check.cond) == "" { check.SetFromError(text, reason, now); }
    case Failure(text, reason) =>
      check.SetStatus("False", now);
      check.SetFromError(text, reason, now);
  }

  /** do2. */
  method DoMethod(obj: Entry, copy: Entry?, meanwhile: Option<Option<Cond>>, o: Outcome, now: string)
    returns (check: Entry, changed: bool)
    requires copy != obj
    modifies obj, copy
    ensures check == if copy == null then obj else copy
    ensures var origin := OriginOf(if copy == null then None else Some(old(copy.cond)), meanwhile);
            check.cond == Do(old(obj.cond), Call(o, origin, now))
    ensures changed == Changed(old(obj.cond), check.cond)
  {
    var before := obj.cond;
    check := DoInternal(obj, copy, meanwhile, o, now);
    if Status(before) == Status(check.cond) && Reason(before) == Reason(check.cond) {
      if Message(before) != Message(check.cond) { check.SetMessage(Redact(Message(check.cond)), now); }
      if Message(before) == Message(check.cond) {
        check.Create();
        check.cond := Some(check.cond.value.(updated := Updated(before)));
      }
    }
    changed := Changed(before, check.cond);
  }
}
