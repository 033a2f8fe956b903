/**
 The connection and the session as objects (pkg/remotedialer/connection.go and session.go). Each
 method is proved to be the corresponding sections of the step relation in Tunnel, taken in order.
 */
module Session {
  import opened Text
  import opened Wire
  import opened Tunnel

  class Connection {
    const connID: int
    var err: Option<Error>
    var buf: seq<Bytes>
    var closed: bool
    var readBuf: Bytes
    ghost var read: Bytes

    ghost function View(): Conn
      reads this
    {
      Conn(err, buf, closed, readBuf, read, false)
    }

    ghost predicate Valid()
      reads this
    {
      ConnOk(View())
    }

    constructor (connID: int)
      ensures Valid() && View() == FRESH_CONN && this.connID == connID
    {
      this.connID := connID;
      err, buf, closed, readBuf, read := None, [], false, [], [];
    }

    method DoTunnelClose(cause: Option<Error>)
      requires Valid()
      modifies this
      ensures Valid() && View() == Tunnel.DoTunnelClose(old(View()), cause)
    {
      if err.Some? { return; }
      err := Some(if cause.Some? then cause.value else CLOSED_PIPE);
      assert !closed; // close(c.buf) would panic otherwise
      closed := true;
    }

    /** chanWriter.Write, at the end of its wait: there is room, perhaps because a reader made it, or it
        timed out. */
    method ChanWrite(chunk: Bytes, timedOut: bool) returns (ok: bool)
      requires Valid() && (timedOut || err.Some? || |buf| < BUFFER_CAP)
      modifies this
      ensures Valid()
      ensures (View(), ok) == Tunnel.ChanWrite(old(View()), chunk, timedOut)
    {
      if err.Some? || timedOut { return false; }
      assert !closed; // sending on c.buf would panic otherwise
      buf := buf + [chunk];
      ok := true;
    }

    method CopyData(b: array<byte>) returns (n: nat)
      requires Valid()
      modifies this, b
      ensures Valid() && View() == Tunnel.CopyData(old(View()), b.Length)
      ensures n == CopyCount(old(readBuf), b.Length)
      ensures b[..n] == old(readBuf)[..n] && b[n..] == old(b[n..])
    {
      n := if b.Length <= |readBuf| then b.Length else |readBuf|;
      forall i | 0 <= i < n { b[i] := readBuf[i]; }
      read := read + readBuf[..n];
      readBuf := readBuf[n..];
    }

    /** Read, when it does not block: hands out the next bytes, and an error only once all are handed out. */
    method Read(b: array<byte>) returns (n: nat, e: Option<Error>)
      requires Valid() && CanRead(View(), b.Length)
      modifies this, b
      ensures Valid() && View() == Tunnel.Read(old(View()), b.Length)
      ensures n <= b.Length && read == old(read) + b[..n]
      ensures e.Some? <==> b.Length > 0 && old(readBuf == [] && buf == [])
      ensures e.Some? ==> n == 0 && e == err
    {
      if b.Length == 0 { return 0, None; }
      n := CopyData(b);
      if n > 0 { return n, None; }
      if buf == [] { return 0, err; }
      readBuf, buf := buf[0], buf[1..];
      n := CopyData(b);
      e := None;
    }

    /** What the reader does while a chunk waits. */
    method ReadMeanwhile(sizes: seq<nat>)
      requires Valid()
      modifies this
      ensures Valid() && View() == Reading(old(View()), sizes)
    {
      for i := 0 to |sizes|
        invariant Valid() && Reading(View(), sizes[i..]) == Reading(old(View()), sizes)
      {
        assert sizes[i..][1..] == sizes[i + 1..];
        if sizes[i] == 0 || readBuf != [] || buf != [] || closed {
          var b := new byte[sizes[i]];
          var _, _ := Read(b);
        }
      }
    }
  }

  const COPY_SIZE := 32768

  // "backed up reader"
  const BACKED_UP := Failure([98, 97, 99, 107, 101, 100, 32, 117, 112, 32, 114, 101, 97, 100, 101, 114])

  // ------------------------------------------- what a session does with one message

  ghost function CloseEffect(e: End, k: int, err: Error): End {
    if k in e.hub.live then
      e.(hub := CloseConn(e.hub.(live := e.hub.live - {k}), k, Some(err)), link := Send(e.link, Err(k, err)))
    else e
  }

  // "tunnel disconnect"
  const DISCONNECT := Failure([116, 117, 110, 110, 101, 108, 32, 100, 105, 115, 99, 111, 110, 110, 101, 99, 116])

  ghost function SendErrors(l: Link, order: seq<int>, err: Error): Link {
    if order == [] then l else Send(SendErrors(l, order[..|order| - 1], err), Err(order[|order| - 1], err))
  }

  ghost function SetConn(e: End, k: int, c: Conn): End { e.(hub := e.hub.(conns := e.hub.conns[k := c])) }

  ghost function ChunkSize(rest: Bytes): nat { if |rest| < COPY_SIZE then |rest| else COPY_SIZE }

  /** What happens while a chunk waits: the reader's calls of Read, by size, and whether the write gives up
      in the end although there is room by then. */
  datatype Wait = Wait(sizes: seq<nat>, late: bool)

  /** A Read that would block does not come back meanwhile. */
  ghost function Reading(c: Conn, sizes: seq<nat>): (r: Conn)
    ensures |r.buf| <= |c.buf|
    decreases |sizes|
  {
    if sizes == [] then c else Reading(if CanRead(c, sizes[0]) then Read(c, sizes[0]) else c, sizes[1..])
  }

  /** Only a write that found the buffer full times out. */
  predicate TimesOut(before: nat, after: nat, w: Wait) { before >= BUFFER_CAP && (w.late || after >= BUFFER_CAP) }

  ghost function ChunkEffect(c: Conn, chunk: Bytes, w: Wait): (Conn, bool) {
    ChanWrite(Reading(c, w.sizes), chunk, TimesOut(|c.buf|, |Reading(c, w.sizes).buf|, w))
  }

  ghost function CopyEffect(e: End, k: int, rest: Bytes, waits: nat -> Wait, i: nat): End
    requires k in e.hub.conns
    decreases |rest|
  {
    if rest == [] then e
    else
      var n := ChunkSize(rest);
      var (c, ok) := ChunkEffect(e.hub.conns[k], rest[..n], waits(i));
      if ok then CopyEffect(SetConn(e, k, c), k, rest[n..], waits, i + 1)
      else CloseEffect(SetConn(e, k, c), k, if c.err.Some? then c.err.value else BACKED_UP)
  }

  ghost function ServeEffect(e: End, m: Msg, authorized: bool, notFound: Error, waits: nat -> Wait): End
    requires e.hub.live <= e.hub.conns.Keys
  {
    match m
    case Data(k, bytes) =>
      if k in e.hub.live then CopyEffect(e, k, bytes, waits, 0) else Receive(e, m, authorized, notFound)
    case Err(k, err) => if k in e.hub.live then CloseEffect(e, k, err) else e
    case Connect(_) => Receive(e, m, authorized, notFound)
  }

  // ... is what the step relation does when only the reader of the connection takes steps besides

  datatype Choice = Choice(n: nat, timedOut: bool, backedUp: Error) | Reader(k: int, n: nat)

  ghost predicate Can(e: End, c: Choice) {
    match c
    case Choice(n, timedOut, _) => CanWork(e.hub, n, timedOut)
    case Reader(k, n) => CanAct(e, DoRead(k, n))
  }

  ghost function Step(e: End, c: Choice): End
    requires Can(e, c)
  {
    match c
    case Choice(n, timedOut, backedUp) => Advance(e, n, timedOut, backedUp)
    case Reader(k, n) => Perform(e, DoRead(k, n))
  }

  /** From e, the message loop and the readers alone can reach t. */
  ghost predicate Drives(e: End, cs: seq<Choice>, t: End)
    decreases |cs|
  {
    if cs == [] then e == t else Can(e, cs[0]) && Drives(Step(e, cs[0]), cs[1..], t)
  }

  ghost function At(e: End, loop: Loop): End { e.(hub := e.hub.(loop := loop)) }

  lemma DrivesOne(e: End, c: Choice, cs: seq<Choice>, t: End)
    requires Can(e, c) && Drives(Step(e, c), cs, t)
    ensures Drives(e, [c] + cs, t)
  {
    assert ([c] + cs)[1..] == cs;
  }

  /** The reader's calls come first. */
  lemma {:induction false} ReadsAreSteps(e: End, k: int, sizes: seq<nat>, more: seq<Choice>, t: End)
      returns (cs: seq<Choice>)
    requires k in e.hub.conns && Drives(SetConn(e, k, Reading(e.hub.conns[k], sizes)), more, t)
    ensures Drives(e, cs, t)
    decreases |sizes|
  {
    var c := e.hub.conns[k];
    if sizes == [] {
      assert SetConn(e, k, c) == e;
      cs := more;
    } else if CanRead(c, sizes[0]) {
      var e' := SetConn(e, k, Read(c, sizes[0]));
      assert Step(e, Reader(k, sizes[0])) == e';
      assert SetConn(e', k, Reading(Read(c, sizes[0]), sizes[1..])) == SetConn(e, k, Reading(c, sizes));
      cs := ReadsAreSteps(e', k, sizes[1..], more, t);
      DrivesOne(e, Reader(k, sizes[0]), cs, t);
      cs := [Reader(k, sizes[0])] + cs;
    } else {
      cs := ReadsAreSteps(e, k, sizes[1..], more, t);
    }
  }

  lemma CloseIsSteps(e: End, k: int, err: Error) returns (cs: seq<Choice>)
    requires e.hub.loop.Idle? && e.hub.live <= e.hub.conns.Keys
    ensures Drives(At(e, Removing(k, err)), cs, CloseEffect(e, k, err))
  {
    var c := Choice(0, false, err);
    var e1 := Step(At(e, Removing(k, err)), c);
    if k in e.hub.live {
      var e2 := Step(e1, c);
      assert Step(e2, c) == CloseEffect(e, k, err);
      assert Drives(CloseEffect(e, k, err), [], CloseEffect(e, k, err));
      DrivesOne(e2, c, [], CloseEffect(e, k, err));
      DrivesOne(e1, c, [c] + [], CloseEffect(e, k, err));
      DrivesOne(At(e, Removing(k, err)), c, [c] + ([c] + []), CloseEffect(e, k, err));
      cs := [c] + ([c] + ([c] + []));
    } else {
      assert e1 == CloseEffect(e, k, err);
      DrivesOne(At(e, Removing(k, err)), c, [], e1);
      cs := [c] + [];
    }
  }

  /** The same by another goroutine, such as an application that calls Close. */
  lemma CloseIsActs(e: End, k: int, err: Error)
    requires k in e.hub.live && k in e.hub.conns
    ensures var e1 := Perform(e, Remove(k));
            var e2 := Perform(e1, SendError(k, err));
            && CanAct(e2, Act.TunnelClose(k, Some(err)))
            && Perform(e2, Act.TunnelClose(k, Some(err))) == CloseEffect(e, k, err)
  {
  }

  lemma {:induction false} ReadingKeeps(c: Conn, sizes: seq<nat>)
    requires ConnOk(c)
    ensures ConnOk(Reading(c, sizes))
    decreases |sizes|
  {
    if sizes != [] {
      if CanRead(c, sizes[0]) { ReadKeeps(c, sizes[0]); }
      ReadingKeeps(if CanRead(c, sizes[0]) then Read(c, sizes[0]) else c, sizes[1..]);
    }
  }

  lemma {:induction false} CopyIsSteps(e: End, k: int, rest: Bytes, waits: nat -> Wait, i: nat)
      returns (cs: seq<Choice>)
    requires e.hub.loop.Idle? && e.hub.live <= e.hub.conns.Keys && k in e.hub.conns
    requires ConnOk(e.hub.conns[k])
    ensures Drives(At(e, Copying(k, rest)), cs, CopyEffect(e, k, rest, waits, i))
    decreases |rest|
  {
    var at := At(e, Copying(k, rest));
    if rest == [] {
      var c := Choice(0, false, BACKED_UP);
      assert Step(at, c) == e;
      DrivesOne(at, c, [], e);
      cs := [c] + [];
    } else {
      var conn := e.hub.conns[k];
      ReadingKeeps(conn, waits(i).sizes);
      cs := ChunkIsSteps(e, k, rest, waits, i);
      assert At(SetConn(e, k, Reading(conn, waits(i).sizes)), Copying(k, rest))
          == SetConn(at, k, Reading(conn, waits(i).sizes));
      cs := ReadsAreSteps(at, k, waits(i).sizes, cs, CopyEffect(e, k, rest, waits, i));
    }
  }

  /** One chunk, once the reader has done what it does meanwhile. */
  lemma {:induction false} ChunkIsSteps(e: End, k: int, rest: Bytes, waits: nat -> Wait, i: nat)
      returns (cs: seq<Choice>)
    requires e.hub.loop.Idle? && e.hub.live <= e.hub.conns.Keys && k in e.hub.conns && rest != []
    requires ConnOk(Reading(e.hub.conns[k], waits(i).sizes))
    ensures Drives(At(SetConn(e, k, Reading(e.hub.conns[k], waits(i).sizes)), Copying(k, rest)), cs,
                   CopyEffect(e, k, rest, waits, i))
    decreases |rest|, 0
  {
    var conn := Reading(e.hub.conns[k], waits(i).sizes);
    var at := At(SetConn(e, k, conn), Copying(k, rest));
    var n := ChunkSize(rest);
    var c := Choice(n, TimesOut(|e.hub.conns[k].buf|, |conn.buf|, waits(i)), BACKED_UP);
    var (c', ok) := ChanWrite(conn, rest[..n], c.timedOut);
    WriteKeeps(conn, rest[..n], c.timedOut);
    var e' := SetConn(e, k, c');
    var more;
    if ok {
      assert Step(at, c) == At(e', Copying(k, rest[n..]));
      more := CopyIsSteps(e', k, rest[n..], waits, i + 1);
    } else {
      var err := if c'.err.Some? then c'.err.value else BACKED_UP;
      assert Step(at, c) == At(e', Removing(k, err));
      more := CloseIsSteps(e', k, err);
    }
    DrivesOne(at, c, more, CopyEffect(e, k, rest, waits, i));
    cs := [c] + more;
  }

  /** Serving one message is receiving it and then letting the message loop run until it is idle, while the
      reader of the connection reads as it likes. */
  lemma ServeIsSteps(e: End, m: Msg, authorized: bool, notFound: Error, waits: nat -> Wait) returns (cs: seq<Choice>)
    requires e.hub.loop.Idle? && HubOk(e.hub)
    ensures Drives(Receive(e, m, authorized, notFound), cs, ServeEffect(e, m, authorized, notFound, waits))
    ensures ServeEffect(e, m, authorized, notFound, waits).hub.loop.Idle?
  {
    cs := [];
    if m.Data? && m.k in e.hub.live {
      assert Receive(e, m, authorized, notFound) == At(e, Copying(m.k, m.bytes));
      cs := CopyIsSteps(e, m.k, m.bytes, waits, 0);
      CopyEndsIdle(e, m.k, m.bytes, waits, 0);
    } else if m.Err? && m.k in e.hub.live {
      assert Receive(e, m, authorized, notFound) == At(e, Removing(m.k, m.err));
      cs := CloseIsSteps(e, m.k, m.err);
    }
  }

  lemma {:induction false} CopyEndsIdle(e: End, k: int, rest: Bytes, waits: nat -> Wait, i: nat)
    requires e.hub.loop.Idle? && k in e.hub.conns
    ensures CopyEffect(e, k, rest, waits, i).hub.loop.Idle?
    decreases |rest|
  {
    if rest != [] {
      var n := ChunkSize(rest);
      var (c, ok) := ChunkEffect(e.hub.conns[k], rest[..n], waits(i));
      if ok { CopyEndsIdle(SetConn(e, k, c), k, rest[n..], waits, i + 1); }
    }
  }

  // ------------------------------------------------------------- what that means

  /** A websocket write went out, unless the transport is broken. */
  predicate Told(l: Link, l': Link, m: Msg) {
    l'.broken == l.broken && l'.sent == l.sent && l'.out == if l.broken then l.out else l.out + [m]
  }

  /** Only connection k of the two ends may differ. */
  ghost predicate OnlyAt(e: End, e': End, k: int) {
    && k in e.hub.conns && e'.hub.conns.Keys == e.hub.conns.Keys
    && (forall j :: j in e.hub.conns && j != k ==> e'.hub.conns[j] == e.hub.conns[j])
    && e'.hub.loop == e.hub.loop && e'.writes == e.writes && e'.halted == e.halted
  }

  /** Connection k was taken out of the map, the other side told, and the buffer closed with the error that the
      connection had or else this one; what is buffered can still be read. */
  ghost predicate Shut(e: End, e': End, k: int, err: Error) {
    && OnlyAt(e, e', k) && e'.hub.live == e.hub.live - {k} && Told(e.link, e'.link, Err(k, err))
    && var c := e.hub.conns[k];
       e'.hub.conns[k] == c.(closed := true, err := if c.err.Some? then c.err else Some(err))
  }

  /** Connection k took these bytes, perhaps while its reader read. */
  ghost predicate Fed(e: End, e': End, k: int, bytes: Bytes) {
    && OnlyAt(e, e', k) && e'.hub.live == e.hub.live && e'.link == e.link
    && var c, c' := e.hub.conns[k], e'.hub.conns[k];
       ConnOk(c') && c'.err == c.err && Accepted(c') == Accepted(c) + bytes && c.read <= c'.read
  }

  /** A payload is taken as a whole by an open connection; or the first part of it, and then the connection is
      shut: with the error it has, or because its reader does not keep up. */
  ghost predicate Took(e: End, e': End, k: int, bytes: Bytes) {
    || Fed(e, e', k, bytes)
    || exists mid, n: nat :: TookPart(e, mid, e', k, bytes, n)
  }

  ghost predicate TookPart(e: End, mid: End, e': End, k: int, bytes: Bytes, n: nat) {
    && n < |bytes| && Fed(e, mid, k, bytes[..n])
    && (e.hub.conns[k].err.Some? ==> n == 0)
    && Shut(mid, e', k, if e.hub.conns[k].err.Some? then e.hub.conns[k].err.value else BACKED_UP)
  }

  /** serveMessage, message by message. */
  ghost predicate Served(e: End, e': End, m: Msg, authorized: bool, notFound: Error) {
    match m
    case Err(k, err) => if k in e.hub.live then Shut(e, e', k, err) else e' == e
    case Data(k, bytes) =>
      if k in e.hub.live then Took(e, e', k, bytes)
      else e' == e.(link := e'.link) && Told(e.link, e'.link, Err(k, notFound))
    case Connect(k) =>
      if !authorized then e' == e.(halted := true)
      else
        && e' == e.(hub := e'.hub) && e'.hub.loop == e.hub.loop && e'.hub.live == e.hub.live + {k}
        && e'.hub.conns.Keys == e.hub.conns.Keys + {k}
        && e'.hub.conns[k] == Conn(None, [], false, [], [], false)
        && forall j :: j in e.hub.conns && j != k ==> e'.hub.conns[j] == e.hub.conns[j]
  }

  lemma CloseShuts(e: End, k: int, err: Error)
    requires k in e.hub.live && k in e.hub.conns && ConnOk(e.hub.conns[k])
    ensures Shut(e, CloseEffect(e, k, err), k, err)
  {
    CloseKeeps(e.hub.conns[k], Some(err));
  }

  lemma {:induction false} ReadingAccepts(c: Conn, sizes: seq<nat>)
    requires ConnOk(c)
    ensures var r := Reading(c, sizes);
            ConnOk(r) && r.err == c.err && Accepted(r) == Accepted(c) && c.read <= r.read
    decreases |sizes|
  {
    if sizes != [] {
      if CanRead(c, sizes[0]) { ReadKeeps(c, sizes[0]); }
      ReadingAccepts(if CanRead(c, sizes[0]) then Read(c, sizes[0]) else c, sizes[1..]);
    }
  }

  lemma FedMore(e: End, mid: End, e': End, k: int, a: Bytes, b: Bytes)
    requires Fed(e, mid, k, a) && Fed(mid, e', k, b)
    ensures Fed(e, e', k, a + b)
  {
    var c := e.hub.conns[k];
    assert Accepted(c) + a + b == Accepted(c) + (a + b);
  }

  lemma {:induction false} CopyTakes(e: End, k: int, rest: Bytes, waits: nat -> Wait, i: nat)
    requires k in e.hub.live && k in e.hub.conns && ConnOk(e.hub.conns[k])
    ensures Took(e, CopyEffect(e, k, rest, waits, i), k, rest)
    decreases |rest|
  {
    if rest == [] {
      assert Fed(e, e, k, rest);
    } else {
      var n := ChunkSize(rest);
      var (c, ok) := ChunkEffect(e.hub.conns[k], rest[..n], waits(i));
      var e1 := SetConn(e, k, c);
      ChunkTakes(e, k, rest[..n], waits(i));
      if ok {
        CopyTakes(e1, k, rest[n..], waits, i + 1);
        TookMore(e, e1, CopyEffect(e1, k, rest[n..], waits, i + 1), k, rest, n);
      } else {
        assert rest[..0] == [];
        CloseShuts(e1, k, if c.err.Some? then c.err.value else BACKED_UP);
        assert TookPart(e, e1, CopyEffect(e, k, rest, waits, i), k, rest, 0);
      }
    }
  }

  lemma ChunkTakes(e: End, k: int, chunk: Bytes, w: Wait)
    requires k in e.hub.conns && ConnOk(e.hub.conns[k])
    ensures var (c, ok) := ChunkEffect(e.hub.conns[k], chunk, w);
            && Fed(e, SetConn(e, k, c), k, if ok then chunk else [])
            && (ok ==> e.hub.conns[k].err.None?)
  {
    var c := e.hub.conns[k];
    ReadingAccepts(c, w.sizes);
    var r := Reading(c, w.sizes);
    WriteKeeps(r, chunk, TimesOut(|c.buf|, |r.buf|, w));
  }

  lemma TookMore(e: End, e1: End, e': End, k: int, bytes: Bytes, n: nat)
    requires n <= |bytes| && Fed(e, e1, k, bytes[..n]) && Took(e1, e', k, bytes[n..]) && e.hub.conns[k].err.None?
    ensures Took(e, e', k, bytes)
  {
    if Fed(e1, e', k, bytes[n..]) {
      FedMore(e, e1, e', k, bytes[..n], bytes[n..]);
      assert bytes[..n] + bytes[n..] == bytes;
    } else {
      var mid, m: nat :| TookPart(e1, mid, e', k, bytes[n..], m);
      FedMore(e, e1, mid, k, bytes[..n], bytes[n..][..m]);
      assert bytes[..n] + bytes[n..][..m] == bytes[..n + m];
      assert TookPart(e, mid, e', k, bytes, n + m);
    }
  }

  lemma ServeServes(e: End, m: Msg, authorized: bool, notFound: Error, waits: nat -> Wait)
    requires e.hub.live <= e.hub.conns.Keys && forall k :: k in e.hub.conns ==> ConnOk(e.hub.conns[k])
    ensures Served(e, ServeEffect(e, m, authorized, notFound, waits), m, authorized, notFound)
  {
    match m
    case Err(k, err) => if k in e.hub.live { CloseShuts(e, k, err); }
    case Data(k, bytes) => if k in e.hub.live { CopyTakes(e, k, bytes, waits, 0); }
    case Connect(_) =>
  }

  /** A closed connection hands out all that was accepted, in reads of any sizes, and after that its error. */
  lemma {:induction false} ReadsToTheEnd(c: Conn, n: nat) returns (sizes: seq<nat>)
    requires ConnOk(c) && c.closed && n > 0
    ensures forall i :: 0 <= i < |sizes| ==> sizes[i] == n
    ensures Reading(c, sizes) == c.(read := Accepted(c), readBuf := [], buf := [])
    decreases Left(c)
  {
    if c.readBuf == [] && c.buf == [] {
      sizes := [];
      assert Accepted(c) == c.read;
    } else {
      ReadKeeps(c, n);
      var rest := ReadsToTheEnd(Read(c, n), n);
      sizes := [n] + rest;
      assert sizes[1..] == rest;
    }
  }

  class Session {
    var nextConnID: int
    var conns: map<int, Connection>
    var link: Link
    var halted: bool
    ghost var all: map<int, Connection>

    ghost predicate Valid()
      reads this`conns, this`all, all.Values
    {
      && conns.Keys <= all.Keys
      && (forall k :: k in conns ==> conns[k] == all[k])
      && (forall k :: k in all ==> all[k].Valid() && all[k].connID == k)
    }

    ghost function Conns(): (m: map<int, Conn>)
      reads this`all, all.Values
      ensures m.Keys == all.Keys && forall k :: k in all ==> m[k] == all[k].View()
    {
      map k | k in all :: all[k].View()
    }

    ghost function View(): (e: End)
      reads this, all.Values
      ensures Valid() ==> e.hub.live <= e.hub.conns.Keys
    {
      End(Hub(Conns(), conns.Keys, Idle), link, [], halted)
    }

    twostate lemma OneChanged(k: int)
      requires all == old(all) && k in all
      requires forall j :: j in all && j != k ==> all[j].View() == old(all[j].View())
      ensures Conns() == old(Conns())[k := all[k].View()]
    {
      var m, m' := old(Conns())[k := all[k].View()], Conns();
      assert m.Keys == m'.Keys;
      assert forall j :: j in m' ==> m'[j] == m[j];
    }

    method WriteMessage(m: Msg)
      requires Valid()
      modifies this`link
      ensures Valid() && link == Send(old(link), m)
      ensures Conns() == old(Conns())
    {
      if !link.broken {
        link := Link(link.out + [m], false,
                     if m.Data? then link.sent[m.k := (if m.k in link.sent then link.sent[m.k] else []) + m.bytes]
                     else link.sent);
      }
    }

    /** newConnection entered into the session's map; a connection that had the ID is forgotten. */
    method Register(k: int) returns (c: Connection)
      requires Valid()
      modifies this`conns, this`all
      ensures Valid() && fresh(c) && c.connID == k && all == old(all)[k := c]
      ensures Conns() == old(Conns())[k := FRESH_CONN] && conns == old(conns)[k := c]
      ensures View() == old(View()).(hub := AddConn(old(View()).hub, k))
    {
      c := new Connection(k);
      conns := conns[k := c];
      all := all[k := c];
      assert Conns() == old(Conns())[k := FRESH_CONN];
    }

    /** connection.tunnelClose; the connection may have left the map already. */
    method TunnelClose(c: Connection, err: Error)
      requires Valid() && c.connID in all && all[c.connID] == c
      modifies this`link, c
      ensures Valid() && link == Send(old(link), Err(c.connID, err))
      ensures Conns() == old(Conns())[c.connID := Tunnel.DoTunnelClose(old(Conns())[c.connID], Some(err))]
    {
      WriteMessage(Err(c.connID, err));
      c.DoTunnelClose(Some(err));
      OneChanged(c.connID);
    }

    method CloseLive(k: int, err: Error)
      requires Valid() && k in conns
      modifies this`conns, this`link, conns[k]
      ensures Valid() && conns == old(conns) - {k} && link == Send(old(link), Err(k, err))
      ensures Conns() == old(Conns())[k := Tunnel.DoTunnelClose(old(Conns())[k], Some(err))]
    {
      var conn := conns[k];
      conns := conns - {k};
      TunnelClose(conn, err);
    }

    /** closeConnection: out of the map, an Error to the other end, then the buffer closed. */
    method CloseConnection(k: int, err: Error)
      requires Valid()
      modifies this`conns, this`link, if k in conns then {conns[k]} else {}
      ensures Valid() && all == old(all) && conns == old(conns) - {k}
      ensures View() == CloseEffect(old(View()), k, err)
      ensures k in old(conns) ==> Shut(old(View()), View(), k, err)
    {
      if k in conns {
        CloseShuts(View(), k, err);
        CloseLive(k, err);
        assert conns.Keys == old(conns.Keys) - {k};
      } else {
        assert conns - {k} == conns;
      }
    }

    /** The first half of serverConnect: the next ID, the connection, and its announcement on the wire. */
    method Announce() returns (k: int, c: Connection)
      requires Valid() && forall j :: j in all ==> j <= nextConnID
      modifies this`nextConnID, this`conns, this`all, this`link
      ensures Valid() && fresh(c) && k == nextConnID == old(nextConnID) + 1 && all == old(all)[k := c]
      ensures conns == old(conns)[k := c] && link == Send(old(link), Connect(k))
      ensures Conns() == old(Conns())[k := FRESH_CONN]
    {
      nextConnID := nextConnID + 1;
      k := nextConnID;
      c := Register(k);
      WriteMessage(Connect(k));
    }

    /** serverConnect: a dial; when its announcement fails, with this error, it is closed again. */
    method ServerConnect(err: Error) returns (k: int, c: Option<Connection>)
      requires Valid() && forall j :: j in all ==> j <= nextConnID
      modifies this`nextConnID, this`conns, this`all, this`link
      ensures Valid() && k == nextConnID == old(nextConnID) + 1
      ensures forall j :: j in all ==> j <= nextConnID
      ensures var dialed := old(View()).(hub := AddConn(old(View()).hub, k), link := Send(old(link), Connect(k)));
              View() == if old(link.broken) then CloseEffect(dialed, k, err) else dialed
      ensures c.None? <==> old(link.broken)
      ensures c.Some? ==> conns == old(conns)[k := c.value] && link.out == old(link.out) + [Connect(k)]
    {
      ghost var before := View();
      var conn;
      k, conn := Announce();
      assert View() == before.(hub := AddConn(before.hub, k), link := link) by {
        assert conns.Keys == old(conns.Keys) + {k};
      }
      c := Some(conn);
      if link.broken {
        CloseConnection(k, err);
        c := None;
      }
    }

    method WriteChunk(k: int, chunk: Bytes, w: Wait) returns (ok: bool)
      requires Valid() && k in conns
      modifies all.Values
      ensures Valid()
      ensures var (c, success) := ChunkEffect(old(Conns())[k], chunk, w);
              ok == success && Conns() == old(Conns())[k := c]
    {
      var conn := conns[k];
      var before := |conn.buf|;
      conn.ReadMeanwhile(w.sizes);
      ok := conn.ChanWrite(chunk, TimesOut(before, |conn.buf|, w));
      OneChanged(k);
    }

    /** One round of io.Copy; closeConnection when the write fails. */
    method CopyChunk(k: int, chunk: Bytes, w: Wait) returns (ok: bool)
      requires Valid() && k in conns
      modifies this`conns, this`link, all.Values
      ensures Valid() && (ok ==> conns == old(conns) && link == old(link))
      ensures var (c, success) := ChunkEffect(old(Conns())[k], chunk, w);
              var e := SetConn(old(View()), k, c);
              && ok == success
              && View() == if ok then e else CloseEffect(e, k, if c.err.Some? then c.err.value else BACKED_UP)
    {
      ok := WriteChunk(k, chunk, w);
      if !ok { CloseConnection(k, if conns[k].err.Some? then conns[k].err.value else BACKED_UP); }
    }

    /** io.Copy of a Data payload into the connection, and closeConnection when a write fails. */
    method CopyInto(k: int, bytes: Bytes, waits: nat -> Wait)
      requires Valid() && k in conns
      modifies this`conns, this`link, all.Values
      ensures Valid() && all == old(all)
      ensures View() == CopyEffect(old(View()), k, bytes, waits, 0)
    {
      var rest, i: nat := bytes, 0;
      while rest != []
        invariant Valid() && all == old(all) && conns == old(conns) && link == old(link)
        invariant CopyEffect(old(View()), k, bytes, waits, 0) == CopyEffect(View(), k, rest, waits, i)
        decreases |rest|
      {
        var n := if |rest| < COPY_SIZE then |rest| else COPY_SIZE;
        var ok := CopyChunk(k, rest[..n], waits(i));
        if !ok { return; }
        rest, i := rest[n..], i + 1;
      }
    }

    method ServeConnect(k: int, authorized: bool, notFound: Error) returns (ok: bool)
      requires Valid()
      modifies this`conns, this`all, this`halted
      ensures Valid() && View() == Receive(old(View()), Connect(k), authorized, notFound)
      ensures ok == authorized
    {
      ok := authorized;
      if authorized {
        var _ := Register(k);
      } else {
        halted := true;
      }
    }

    /** The switch of serveMessage. */
    method Dispatch(m: Msg, authorized: bool, notFound: Error, waits: nat -> Wait) returns (ok: bool)
      requires Valid()
      modifies this, all.Values
      ensures Valid() && nextConnID == old(nextConnID)
      ensures View() == ServeEffect(old(View()), m, authorized, notFound, waits)
      ensures ok <==> !(m.Connect? && !authorized)
    {
      ok := true;
      match m
      case Connect(k) => ok := ServeConnect(k, authorized, notFound);
      case Data(k, bytes) =>
        if k in conns {
          CopyInto(k, bytes, waits);
        } else {
          WriteMessage(Err(k, notFound));
        }
      case Err(k, err) =>
        if k in conns { CloseConnection(k, err); }
    }

    /** serveMessage for Connect, Data and Error; false when Serve has to end. */
    method ServeMessage(m: Msg, authorized: bool, notFound: Error, waits: nat -> Wait) returns (ok: bool)
      requires Valid()
      modifies this, all.Values
      ensures Valid() && nextConnID == old(nextConnID)
      ensures View() == ServeEffect(old(View()), m, authorized, notFound, waits)
      ensures Served(old(View()), View(), m, authorized, notFound)
      ensures ok <==> !(m.Connect? && !authorized)
    {
      ServeServes(View(), m, authorized, notFound, waits);
      ok := Dispatch(m, authorized, notFound, waits);
    }

    method Disconnect(k: int)
      requires Valid() && k in conns
      modifies this`link, all.Values
      ensures Valid() && link == Send(old(link), Err(k, DISCONNECT))
      ensures Conns() == old(Conns())[k := Tunnel.DoTunnelClose(old(Conns())[k], Some(DISCONNECT))]
    {
      assert all[k].connID == k;
      TunnelClose(conns[k], DISCONNECT);
    }

    method TunnelCloseAll(order: seq<int>)
      requires Valid() && forall i :: 0 <= i < |order| ==> order[i] in conns
      modifies this`link, all.Values
      ensures Valid()
      ensures link == SendErrors(old(link), order, DISCONNECT)
      ensures Conns() == ClosedAll(old(Conns()), order)
    {
      for i := 0 to |order|
        invariant Valid()
        invariant link == SendErrors(old(link), order[..i], DISCONNECT)
        invariant Conns() == ClosedAll(old(Conns()), order[..i])
      {
        Disconnect(order[i]);
        CloseMore(old(Conns()), old(link), order, i);
      }
      assert order[..|order|] == order;
    }

    /** Session.Close: every live connection is told and closed, in map order; none stays in the map. */
    method Close(order: seq<int>)
      requires Valid() && forall i :: 0 <= i < |order| ==> order[i] in conns
      requires forall k :: k in conns ==> k in order
      modifies this`conns, this`link, all.Values
      ensures Valid() && conns == map[]
      ensures link == SendErrors(old(link), order, DISCONNECT)
      ensures !old(link.broken) ==> link.out == old(link.out) + Disconnects(order)
      ensures Conns() == ClosedAll(old(Conns()), order)
    {
      ghost var closed := ClosedAll(Conns(), order);
      TunnelCloseAll(order);
      conns := map[];
      assert Conns() == closed;
      ErrorsSent(old(link), order);
    }
  }

  lemma CloseMore(m: map<int, Conn>, l: Link, order: seq<int>, i: nat)
    requires i < |order| && order[i] in ClosedAll(m, order[..i])
    ensures var k, r := order[i], ClosedAll(m, order[..i]);
            ClosedAll(m, order[..i + 1]) == r[k := DoTunnelClose(r[k], Some(DISCONNECT))]
    ensures SendErrors(l, order[..i + 1], DISCONNECT)
         == Send(SendErrors(l, order[..i], DISCONNECT), Err(order[i], DISCONNECT))
  {
    assert order[..i + 1][..i] == order[..i];
  }

  /** One Error message for each connection. */
  function Disconnects(order: seq<int>): seq<Msg> {
    seq(|order|, i requires 0 <= i < |order| => Err(order[i], DISCONNECT))
  }

  lemma {:induction false} ErrorsSent(l: Link, order: seq<int>)
    ensures var l' := SendErrors(l, order, DISCONNECT);
            l'.broken == l.broken && (!l.broken ==> l'.out == l.out + Disconnects(order))
  {
    if order != [] {
      ErrorsSent(l, order[..|order| - 1]);
      assert Disconnects(order) == Disconnects(order[..|order| - 1]) + [Err(order[|order| - 1], DISCONNECT)];
    }
  }

  ghost function ClosedAll(m: map<int, Conn>, order: seq<int>): map<int, Conn> {
    if order == [] then m
    else
      var k, r := order[|order| - 1], ClosedAll(m, order[..|order| - 1]);
      if k in r then r[k := DoTunnelClose(r[k], Some(DISCONNECT))] else r
  }

  lemma {:induction false} ClosedAllAt(m: map<int, Conn>, order: seq<int>)
    ensures ClosedAll(m, order).Keys == m.Keys
    ensures forall k :: k in m ==>
              ClosedAll(m, order)[k] == if k in order then DoTunnelClose(m[k], Some(DISCONNECT)) else m[k]
  {
    if order != [] {
      ClosedAllAt(m, order[..|order| - 1]);
      assert order == order[..|order| - 1] + [order[|order| - 1]];
    }
  }
}
