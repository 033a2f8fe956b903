/**
 Two tunnel sessions joined by two FIFO channels (pkg/remotedialer/session.go and connection.go)
 as a step relation. Every step is one section that the source runs under a lock, or one
 websocket write; any goroutine may take any such step on any connection at any time.
 */
module Tunnel {
  import opened Text
  import opened Wire

  // ------------------------------------------------------------ connections

  const BUFFER_CAP := 1024

  /**
   One end of a connection. `buf`/`closed` are the Go channel; `readBuf` is the tail of the chunk
   being read; `read` is everything Read has returned so far; `panicked` records a send on, or a
   close of, a closed channel.
   */
  datatype Conn = Conn(err: Option<Error>, buf: seq<Bytes>, closed: bool, readBuf: Bytes,
                       read: Bytes, panicked: bool)

  const FRESH_CONN := Conn(None, [], false, [], [], false)

  // the text of io.ErrClosedPipe
  const CLOSED_PIPE := Failure([105, 111, 58, 32, 114, 101, 97, 100, 47, 119, 114, 105, 116, 101, 32, 111, 110,
                                32, 99, 108, 111, 115, 101, 100, 32, 112, 105, 112, 101])

  /** connection.doTunnelClose */
  function DoTunnelClose(c: Conn, err: Option<Error>): Conn {
    if c.err.Some? then c
    else if c.closed then c.(panicked := true)
    else c.(err := Some(if err.Some? then err.value else CLOSED_PIPE), closed := true)
  }

  /** chanWriter.Write; `timedOut` is the "backed up reader" outcome. The flag says whether it succeeded. */
  function ChanWrite(c: Conn, chunk: Bytes, timedOut: bool): (Conn, bool) {
    if c.err.Some? || timedOut then (c, false)
    else if c.closed then (c.(panicked := true), false)
    else (c.(buf := c.buf + [chunk]), true)
  }

  /** connection.copyData into a slice of length n: how many bytes are copied. */
  function CopyCount(readBuf: Bytes, n: nat): nat { if n <= |readBuf| then n else |readBuf| }

  function CopyData(c: Conn, n: nat): Conn {
    var m := CopyCount(c.readBuf, n);
    c.(read := c.read + c.readBuf[..m], readBuf := c.readBuf[m..])
  }

  predicate CanRead(c: Conn, n: nat) { n == 0 || c.readBuf != [] || c.buf != [] || c.closed }

  /** connection.Read with a slice of length n, when it does not block. */
  function Read(c: Conn, n: nat): Conn
    requires CanRead(c, n)
  {
    if n == 0 then c
    else if c.readBuf != [] then CopyData(c, n)
    else if c.buf != [] then CopyData(c.(readBuf := c.buf[0], buf := c.buf[1..]), n)
    else c
  }

  function Flat(chunks: seq<Bytes>): Bytes {
    if chunks == [] then [] else chunks[0] + Flat(chunks[1..])
  }

  /** The bytes this end has accepted from the tunnel, read or still buffered. */
  function Accepted(c: Conn): Bytes { c.read + c.readBuf + Flat(c.buf) }

  predicate ConnOk(c: Conn) { !c.panicked && (c.closed <==> c.err.Some?) }

  lemma {:induction false} FlatAppend(chunks: seq<Bytes>, chunk: Bytes)
    ensures Flat(chunks + [chunk]) == Flat(chunks) + chunk
  {
    if chunks == [] {
      assert (chunks + [chunk])[1..] == [];
    } else {
      assert (chunks + [chunk])[1..] == chunks[1..] + [chunk];
      FlatAppend(chunks[1..], chunk);
    }
  }

  /** Closing sets the error, unless there is one, and the buffer closed; everything buffered stays readable. */
  lemma CloseKeeps(c: Conn, err: Option<Error>)
    requires ConnOk(c)
    ensures ConnOk(DoTunnelClose(c, err)) && Accepted(DoTunnelClose(c, err)) == Accepted(c)
    ensures DoTunnelClose(c, err) ==
              c.(closed := true, err := if c.err.Some? then c.err else if err.Some? then err else Some(CLOSED_PIPE))
  {}

  /** A chunk write appends the chunk to an open connection, or it timed out and changes nothing at all. */
  lemma WriteKeeps(c: Conn, chunk: Bytes, timedOut: bool)
    requires ConnOk(c)
    ensures var (c', ok) := ChanWrite(c, chunk, timedOut);
            && ConnOk(c') && c'.err == c.err && (ok <==> c.err.None? && !timedOut)
            && (ok ==> c.err.None? && Accepted(c') == Accepted(c) + chunk)
            && (!ok ==> c' == c)
  {
    FlatAppend(c.buf, chunk);
  }

  /** What is left in the buffers, counted so that every Read of something lowers it. */
  function Left(c: Conn): nat { |c.readBuf| + |Flat(c.buf)| + |c.buf| }

  /** Reading moves bytes from the buffers to the reader; it neither loses nor reorders any, and it moves
      something on unless there is nothing. */
  lemma ReadKeeps(c: Conn, n: nat)
    requires ConnOk(c) && CanRead(c, n)
    ensures ConnOk(Read(c, n)) && Read(c, n).err == c.err
    ensures Accepted(Read(c, n)) == Accepted(c) && c.read <= Read(c, n).read
    ensures n > 0 && Left(c) > 0 ==> Left(Read(c, n)) < Left(c)
  {
    if n > 0 && c.readBuf == [] && c.buf != [] {
      assert Accepted(c.(readBuf := c.buf[0], buf := c.buf[1..])) == Accepted(c);
    }
  }

  // --------------------------------------------------------------- sessions

  datatype Msg = Connect(k: int) | Data(k: int, bytes: Bytes) | Err(k: int, err: Error)

  /** Where the session's message loop stands: copying a Data payload, or inside closeConnection. */
  datatype Loop = Idle | Copying(k: int, rest: Bytes) | Removing(k: int, err: Error)
                | Sending(k: int, err: Error) | Closing(k: int, err: Error)

  /** The receiving half: every connection object ever made, the IDs still in the session's map, the loop. */
  datatype Hub = Hub(conns: map<int, Conn>, live: set<int>, loop: Loop)

  /** The sending half: the outgoing channel, and what Write has put on it for each connection. */
  datatype Link = Link(out: seq<Msg>, broken: bool, sent: map<int, Bytes>)

  /** One session; `writes` are Write calls past their error check, `halted` that Serve has returned. */
  datatype End = End(hub: Hub, link: Link, writes: seq<(int, Bytes)>, halted: bool)

  const FRESH_END := End(Hub(map[], {}, Idle), Link([], false, map[]), [], false)

  function Sent(l: Link, k: int): Bytes { if k in l.sent then l.sent[k] else [] }

  /** One websocket write; it fails once the transport is broken. */
  function Send(l: Link, m: Msg): Link {
    if l.broken then l
    else Link(l.out + [m], false, if m.Data? then l.sent[m.k := Sent(l, m.k) + m.bytes] else l.sent)
  }

  function AddConn(h: Hub, k: int): Hub { h.(conns := h.conns[k := FRESH_CONN], live := h.live + {k}) }

  function CloseConn(h: Hub, k: int, cause: Option<Error>): Hub {
    if k in h.conns then h.(conns := h.conns[k := DoTunnelClose(h.conns[k], cause)]) else h
  }

  // serveMessage, up to the point where a message needs more than a lookup

  function Accept(h: Hub, m: Msg, authorized: bool): Hub {
    match m
    case Connect(k) => if authorized then AddConn(h, k) else h
    case Data(k, bytes) => if k in h.live then h.(loop := Copying(k, bytes)) else h
    case Err(k, err) => if k in h.live then h.(loop := Removing(k, err)) else h
  }

  function Reply(l: Link, h: Hub, m: Msg, notFound: Error): Link {
    if m.Data? && m.k !in h.live then Send(l, Err(m.k, notFound)) else l
  }

  function Receive(e: End, m: Msg, authorized: bool, notFound: Error): End {
    End(Accept(e.hub, m, authorized), Reply(e.link, e.hub, m, notFound), e.writes,
        e.halted || (m.Connect? && !authorized))
  }

  // the message loop's next section: another chunk of io.Copy, or closeConnection's next part

  function CopyChunk(h: Hub, k: int, rest: Bytes, n: nat, timedOut: bool, backedUp: Error): Hub {
    if k !in h.conns || n == 0 || n > |rest| then h.(loop := Idle)
    else
      var (c, ok) := ChanWrite(h.conns[k], rest[..n], timedOut);
      Hub(h.conns[k := c], h.live,
          if ok then Copying(k, rest[n..])
          else Removing(k, if c.err.Some? then c.err.value else backedUp))
  }

  function Work(h: Hub, n: nat, timedOut: bool, backedUp: Error): Hub {
    match h.loop
    case Idle => h
    case Copying(k, rest) => CopyChunk(h, k, rest, n, timedOut, backedUp)
    case Removing(k, err) =>
      if k in h.live then h.(live := h.live - {k}, loop := Sending(k, err)) else h.(loop := Idle)
    case Sending(k, err) => h.(loop := Closing(k, err))
    case Closing(k, err) => CloseConn(h, k, Some(err)).(loop := Idle)
  }

  function Report(l: Link, loop: Loop): Link { if loop.Sending? then Send(l, Err(loop.k, loop.err)) else l }

  function Advance(e: End, n: nat, timedOut: bool, backedUp: Error): End {
    e.(hub := Work(e.hub, n, timedOut, backedUp), link := Report(e.link, e.hub.loop))
  }

  predicate CanWork(h: Hub, n: nat, timedOut: bool) {
    && !h.loop.Idle?
    && (h.loop.Copying? && h.loop.rest != [] ==>
          && 0 < n <= |h.loop.rest|
          && h.loop.k in h.conns
          && (timedOut || h.conns[h.loop.k].err.Some? || |h.conns[h.loop.k].buf| < BUFFER_CAP))
  }

  /** What application goroutines do, each one lock-protected section or one websocket write. */
  datatype Act = CheckWrite(k: int, bytes: Bytes) | DoWrite(i: nat) | DoRead(k: int, n: nat)
               | SendError(k: int, err: Error) | Remove(k: int) | TunnelClose(k: int, cause: Option<Error>)
               | Reset

  predicate CanAct(e: End, a: Act) {
    match a
    case CheckWrite(k, _) => k in e.hub.conns && e.hub.conns[k].err.None?
    case DoWrite(i) => i < |e.writes|
    case DoRead(k, n) => k in e.hub.conns && CanRead(e.hub.conns[k], n)
    case TunnelClose(k, _) => k in e.hub.conns
    case SendError(_, _) => true
    case Remove(_) => true
    case Reset => true
  }

  function ActHub(e: End, a: Act): Hub
    requires CanAct(e, a)
  {
    match a
    case DoRead(k, n) => e.hub.(conns := e.hub.conns[k := Read(e.hub.conns[k], n)])
    case TunnelClose(k, cause) => CloseConn(e.hub, k, cause)
    case Remove(k) => e.hub.(live := e.hub.live - {k})
    case Reset => e.hub.(live := {})
    case _ => e.hub
  }

  function ActLink(e: End, a: Act): Link
    requires CanAct(e, a)
  {
    match a
    case DoWrite(i) => Send(e.link, Data(e.writes[i].0, e.writes[i].1))
    case SendError(k, err) => Send(e.link, Err(k, err))
    case _ => e.link
  }

  function ActWrites(e: End, a: Act): seq<(int, Bytes)>
    requires CanAct(e, a)
  {
    match a
    case CheckWrite(k, bytes) => e.writes + [(k, bytes)]
    case DoWrite(i) => e.writes[..i] + e.writes[i + 1..]
    case _ => e.writes
  }

  function Perform(e: End, a: Act): End
    requires CanAct(e, a)
  {
    End(ActHub(e, a), ActLink(e, a), ActWrites(e, a), e.halted)
  }

  // ----------------------------------------------------------- the two ends

  /** `nextID` and `dialing` belong to the server end: IDs handed out, and those not yet announced. */
  datatype Sys = Sys(server: End, client: End, nextID: int, dialing: set<int>)

  datatype Side = Server | Client

  datatype Step = Dial | Announce(k: int)
                | App(side: Side, act: Act)
                | Deliver(to: Side, authorized: bool, notFound: Error)
                | Proceed(at: Side, n: nat, timedOut: bool, backedUp: Error)
                | Break(of: Side, keep: nat)

  const INIT := Sys(FRESH_END, FRESH_END, 1, {})

  function EndOf(s: Sys, side: Side): End { if side.Server? then s.server else s.client }

  function SetEnd(s: Sys, side: Side, e: End): Sys {
    if side.Server? then s.(server := e) else s.(client := e)
  }

  function Other(side: Side): Side { if side.Server? then Client else Server }

  predicate Enabled(s: Sys, step: Step) {
    match step
    case Dial => s.nextID < TWO63 - 1
    case Announce(k) => k in s.dialing
    case App(side, a) =>
      CanAct(EndOf(s, side), a) && !(side.Server? && a.CheckWrite? && a.k in s.dialing)
    case Deliver(to, authorized, _) =>
      && !EndOf(s, to).halted && EndOf(s, to).hub.loop.Idle? && EndOf(s, Other(to)).link.out != []
      && (authorized ==> to.Client?)
    case Proceed(at, n, timedOut, _) => !EndOf(s, at).halted && CanWork(EndOf(s, at).hub, n, timedOut)
    case Break(of, keep) => keep <= |EndOf(s, of).link.out|
  }

  function Pop(l: Link): Link
    requires l.out != []
  {
    l.(out := l.out[1..])
  }

  function Cutoff(l: Link, keep: nat): Link
    requires keep <= |l.out|
  {
    Link(l.out[..keep], true, l.sent)
  }

  function Next(s: Sys, step: Step): Sys
    requires Enabled(s, step)
  {
    match step
    case Dial =>
      var k := s.nextID + 1;
      Sys(s.server.(hub := AddConn(s.server.hub, k)), s.client, k, s.dialing + {k})
    case Announce(k) =>
      Sys(s.server.(link := Send(s.server.link, Connect(k))), s.client, s.nextID, s.dialing - {k})
    case App(side, a) => SetEnd(s, side, Perform(EndOf(s, side), a))
    case Deliver(to, authorized, notFound) =>
      var from := EndOf(s, Other(to));
      SetEnd(SetEnd(s, Other(to), from.(link := Pop(from.link))), to,
             Receive(EndOf(s, to), from.link.out[0], authorized, notFound))
    case Proceed(at, n, timedOut, backedUp) => SetEnd(s, at, Advance(EndOf(s, at), n, timedOut, backedUp))
    case Break(of, keep) => SetEnd(s, of, EndOf(s, of).(link := Cutoff(EndOf(s, of).link, keep)))
  }

  // -------------------------------------------------------------- invariant

  function Payload(m: Msg, k: int): Bytes { if m.Data? && m.k == k then m.bytes else [] }

  /** The bytes of connection k still on the channel. */
  function Flying(out: seq<Msg>, k: int): Bytes {
    if out == [] then [] else Payload(out[0], k) + Flying(out[1..], k)
  }

  function AcceptedOf(h: Hub, k: int): Bytes { if k in h.conns then Accepted(h.conns[k]) else [] }

  predicate IsCopying(h: Hub, k: int) { h.loop.Copying? && h.loop.k == k }

  function PendingOf(h: Hub, k: int): Bytes { if IsCopying(h, k) then h.loop.rest else [] }

  predicate Open(h: Hub, k: int) { k in h.conns && h.conns[k].err.None? }

  /** Payloads of connection k still reach it: it is in the session's map and not about to leave it. */
  predicate Delivering(h: Hub, k: int) { Open(h, k) && k in h.live && !(h.loop.Removing? && h.loop.k == k) }

  /** What one direction of a connection keeps: accepted ++ pending ++ flying is what was sent. */
  ghost predicate Kept(sent: Bytes, got: Bytes, pending: Bytes, flying: Bytes,
                       copying: bool, delivering: bool, whole: bool) {
    && got <= sent
    && (copying ==> got + pending <= sent)
    && (delivering ==> got + pending + flying <= sent)
    && (delivering && whole ==> got + pending + flying == sent)
  }

  ghost predicate Stream(from: Link, to: Hub, k: int) {
    Kept(Sent(from, k), AcceptedOf(to, k), PendingOf(to, k), Flying(from.out, k),
         Open(to, k) && IsCopying(to, k), Delivering(to, k), !from.broken)
  }

  ghost predicate HubOk(h: Hub) {
    && h.live <= h.conns.Keys
    && (!h.loop.Idle? ==> h.loop.k in h.conns)
    && forall k :: k in h.conns ==> ConnOk(h.conns[k])
  }

  ghost predicate LinkOk(l: Link, ids: set<int>) {
    forall k :: k !in ids ==> Sent(l, k) == [] && Flying(l.out, k) == []
  }

  ghost predicate WritesOk(writes: seq<(int, Bytes)>, ids: set<int>) {
    forall i :: 0 <= i < |writes| ==> writes[i].0 in ids
  }

  ghost predicate EndOk(e: End) {
    HubOk(e.hub) && LinkOk(e.link, e.hub.conns.Keys) && WritesOk(e.writes, e.hub.conns.Keys)
  }

  ghost predicate Announced(out: seq<Msg>, k: int, j: nat) { j < |out| && out[j] == Connect(k) }

  ghost predicate Unannounced(out: seq<Msg>, k: int) { forall j: nat :: !Announced(out, k, j) }

  /**
   The server's channel, for connection k: nothing about an ID not yet announced; an announcement in
   flight is the only one, its connection does not exist at the client, and it precedes all data.
   */
  ghost predicate Ordered(l: Link, k: int, accepted: bool, unused: bool) {
    && (unused ==> Sent(l, k) == [] && Flying(l.out, k) == [] && Unannounced(l.out, k))
    && (forall j: nat :: Announced(l.out, k, j) ==> !accepted && Lone(l, k, j))
  }

  ghost predicate Lone(l: Link, k: int, j: nat) {
    && (forall i: nat :: Announced(l.out, k, i) ==> i == j)
    && j <= |l.out| && Flying(l.out[..j], k) == []
    && Flying(l.out, k) <= Sent(l, k)
    && (!l.broken ==> Flying(l.out, k) == Sent(l, k))
  }

  ghost predicate NotWriting(writes: seq<(int, Bytes)>, k: int) {
    forall i :: 0 <= i < |writes| ==> writes[i].0 != k
  }

  predicate Unused(s: Sys, k: int) { k in s.dialing || k !in s.server.hub.conns }

  /** Connection IDs are used once. */
  ghost predicate Handshake(s: Sys, k: int) {
    && (k in s.client.hub.conns ==> !Unused(s, k))
    && (k in s.server.hub.conns ==> k <= s.nextID)
    && (Unused(s, k) ==> NotWriting(s.server.writes, k))
    && Ordered(s.server.link, k, k in s.client.hub.conns, Unused(s, k))
    && Unannounced(s.client.link.out, k)
  }

  ghost predicate Linked(s: Sys, k: int) {
    Stream(s.server.link, s.client.hub, k) && Stream(s.client.link, s.server.hub, k) && Handshake(s, k)
  }

  ghost predicate Inv(s: Sys) {
    && EndOk(s.server) && EndOk(s.client)
    && s.dialing <= s.server.hub.conns.Keys
    && forall k :: Linked(s, k)
  }

  // ------------------------------------------------------- proof: one stream

  lemma {:induction false} FlyingAppend(out: seq<Msg>, m: Msg, k: int)
    ensures Flying(out + [m], k) == Flying(out, k) + Payload(m, k)
  {
    if out == [] {
      assert (out + [m])[1..] == [];
    } else {
      assert (out + [m])[1..] == out[1..] + [m];
      FlyingAppend(out[1..], m, k);
    }
  }

  lemma {:induction false} FlyingPrefix(out: seq<Msg>, n: nat, k: int)
    requires n <= |out|
    ensures Flying(out[..n], k) <= Flying(out, k)
  {
    if n > 0 {
      assert out[..n][1..] == out[1..][..n - 1];
      FlyingPrefix(out[1..], n - 1, k);
    }
  }

  lemma FlyingPop(out: seq<Msg>, k: int)
    requires out != []
    ensures Flying(out, k) == Payload(out[0], k) + Flying(out[1..], k)
    ensures Payload(out[0], k) == [] ==> Flying(out, k) == Flying(out[1..], k)
  {}

  /** What a websocket write adds to the channel is what it adds to `sent`. */
  lemma SendEffect(l: Link, m: Msg, k: int)
    requires !l.broken
    ensures Sent(Send(l, m), k) == Sent(l, k) + Payload(m, k)
    ensures Flying(Send(l, m).out, k) == Flying(l.out, k) + Payload(m, k)
  {
    FlyingAppend(l.out, m, k);
  }

  lemma KeptSend(sent: Bytes, got: Bytes, pending: Bytes, flying: Bytes,
                 copying: bool, delivering: bool, more: Bytes)
    requires Kept(sent, got, pending, flying, copying, delivering, true)
    ensures Kept(sent + more, got, pending, flying + more, copying, delivering, true)
  {
    assert got + pending + (flying + more) == got + pending + flying + more;
  }

  lemma KeptChunk(sent: Bytes, got: Bytes, pending: Bytes, flying: Bytes, delivering: bool, whole: bool, n: nat)
    requires n <= |pending| && Kept(sent, got, pending, flying, true, delivering, whole)
    ensures Kept(sent, got + pending[..n], pending[n..], flying, true, delivering, whole)
  {
    assert pending == pending[..n] + pending[n..];
    assert got + pending == got + pending[..n] + pending[n..];
  }

  lemma KeptPop(sent: Bytes, got: Bytes, bytes: Bytes, flying: Bytes, open: bool, live: bool, whole: bool)
    requires Kept(sent, got, [], bytes + flying, false, open && live, whole)
    ensures Kept(sent, got, if live then bytes else [], flying, open && live, open && live, whole)
  {
    assert got + [] + (bytes + flying) == got + bytes + flying;
  }

  lemma KeptLoss(sent: Bytes, got: Bytes, pending: Bytes, flying: Bytes, less: Bytes,
                 copying: bool, delivering: bool, whole: bool)
    requires Kept(sent, got, pending, flying, copying, delivering, whole) && less <= flying
    ensures Kept(sent, got, pending, less, copying, delivering, false)
  {
    assert got + pending + less <= got + pending + flying;
  }

  lemma KeptStart(sent: Bytes, flying: Bytes, whole: bool)
    requires flying <= sent && (whole ==> flying == sent)
    ensures Kept(sent, [], [], flying, false, true, whole)
  {
    assert [] + [] + flying == flying;
  }

  /** Sending keeps every stream. */
  lemma SendStream(l: Link, m: Msg, to: Hub, k: int)
    requires Stream(l, to, k)
    ensures Stream(Send(l, m), to, k)
  {
    if !l.broken {
      SendEffect(l, m, k);
      KeptSend(Sent(l, k), AcceptedOf(to, k), PendingOf(to, k), Flying(l.out, k),
               Open(to, k) && IsCopying(to, k), Delivering(to, k), Payload(m, k));
    }
  }

  lemma CutoffStream(l: Link, keep: nat, to: Hub, k: int)
    requires keep <= |l.out| && Stream(l, to, k)
    ensures Stream(Cutoff(l, keep), to, k)
  {
    FlyingPrefix(l.out, keep, k);
    KeptLoss(Sent(l, k), AcceptedOf(to, k), PendingOf(to, k), Flying(l.out, k), Flying(l.out[..keep], k),
             Open(to, k) && IsCopying(to, k), Delivering(to, k), !l.broken);
  }

  lemma ActStream(from: Link, e: End, a: Act, k: int)
    requires HubOk(e.hub) && CanAct(e, a) && Stream(from, e.hub, k)
    ensures Stream(from, ActHub(e, a), k)
  {
    if a.DoRead? {
      ReadKeeps(e.hub.conns[a.k], a.n);
    } else if a.TunnelClose? {
      CloseKeeps(e.hub.conns[a.k], a.cause);
    }
  }

  lemma CopyStream(from: Link, h: Hub, n: nat, timedOut: bool, backedUp: Error, k: int)
    requires HubOk(h) && h.loop.Copying? && CanWork(h, n, timedOut) && Stream(from, h, k)
    ensures Stream(from, CopyChunk(h, h.loop.k, h.loop.rest, n, timedOut, backedUp), k)
  {
    var rest := h.loop.rest;
    if rest != [] {
      WriteKeeps(h.conns[h.loop.k], rest[..n], timedOut);
      if k == h.loop.k && Open(h, k) {
        KeptChunk(Sent(from, k), AcceptedOf(h, k), rest, Flying(from.out, k), Delivering(h, k), !from.broken, n);
      }
    }
  }

  lemma WorkStream(from: Link, h: Hub, n: nat, timedOut: bool, backedUp: Error, k: int)
    requires HubOk(h) && CanWork(h, n, timedOut) && Stream(from, h, k)
    ensures Stream(from, Work(h, n, timedOut, backedUp), k)
  {
    match h.loop
    case Copying(_, _) => CopyStream(from, h, n, timedOut, backedUp, k);
    case Closing(k', err) => CloseKeeps(h.conns[k'], Some(err));
    case _ =>
  }

  /** A new connection starts with everything sent to it still ahead, on the channel. */
  lemma AcceptConnect(from: Link, h: Hub, k: int)
    requires from.out != [] && from.out[0] == Connect(k) && h.loop.Idle?
    requires Flying(from.out, k) <= Sent(from, k) && (!from.broken ==> Flying(from.out, k) == Sent(from, k))
    ensures Stream(Pop(from), AddConn(h, k), k)
  {
    FlyingPop(from.out, k);
    assert Accepted(FRESH_CONN) == [];
    KeptStart(Sent(from, k), Flying(from.out, k), !from.broken);
  }

  lemma AcceptData(from: Link, h: Hub)
    requires from.out != [] && from.out[0].Data? && h.loop.Idle? && Stream(from, h, from.out[0].k)
    ensures Stream(Pop(from), Accept(h, from.out[0], false), from.out[0].k)
  {
    var m, k := from.out[0], from.out[0].k;
    FlyingPop(from.out, k);
    KeptPop(Sent(from, k), AcceptedOf(h, k), m.bytes, Flying(from.out[1..], k), Open(h, k), k in h.live, !from.broken);
  }

  lemma AcceptOther(from: Link, h: Hub, authorized: bool, k: int)
    requires from.out != [] && h.loop.Idle? && Stream(from, h, k)
    requires from.out[0].k != k || from.out[0].Err? || (from.out[0].Connect? && !authorized)
    ensures Stream(Pop(from), Accept(h, from.out[0], authorized), k)
  {
    FlyingPop(from.out, k);
  }

  /** Delivering the head of the channel keeps the stream. */
  lemma AcceptStream(from: Link, h: Hub, authorized: bool, k: int)
    requires from.out != [] && h.loop.Idle? && Stream(from, h, k)
    requires from.out[0] == Connect(k) && authorized ==>
               Flying(from.out, k) <= Sent(from, k) && (!from.broken ==> Flying(from.out, k) == Sent(from, k))
    ensures Stream(Pop(from), Accept(h, from.out[0], authorized), k)
  {
    var m := from.out[0];
    if m == Connect(k) && authorized {
      AcceptConnect(from, h, k);
    } else if m.Data? && m.k == k {
      AcceptData(from, h);
    } else {
      AcceptOther(from, h, authorized, k);
    }
  }

  // --------------------------------------------------------- proof: one end

  lemma SendLinkOk(l: Link, m: Msg, ids: set<int>)
    requires LinkOk(l, ids) && (m.Data? ==> m.k in ids)
    ensures LinkOk(Send(l, m), ids)
  {
    forall k | k !in ids
      ensures Sent(Send(l, m), k) == [] && Flying(Send(l, m).out, k) == []
    {
      FlyingAppend(l.out, m, k);
    }
  }

  lemma PopLinkOk(l: Link, ids: set<int>)
    requires LinkOk(l, ids) && l.out != []
    ensures LinkOk(Pop(l), ids)
  {
    forall k | k !in ids
      ensures Sent(Pop(l), k) == [] && Flying(Pop(l).out, k) == []
    {
      FlyingPop(l.out, k);
    }
  }

  lemma CutoffLinkOk(l: Link, keep: nat, ids: set<int>)
    requires LinkOk(l, ids) && keep <= |l.out|
    ensures LinkOk(Cutoff(l, keep), ids)
  {
    forall k | k !in ids
      ensures Sent(Cutoff(l, keep), k) == [] && Flying(Cutoff(l, keep).out, k) == []
    {
      FlyingPrefix(l.out, keep, k);
    }
  }

  lemma ActOk(e: End, a: Act)
    requires EndOk(e) && CanAct(e, a)
    ensures EndOk(Perform(e, a)) && Perform(e, a).hub.conns.Keys == e.hub.conns.Keys
  {
    match a
    case DoWrite(i) => SendLinkOk(e.link, Data(e.writes[i].0, e.writes[i].1), e.hub.conns.Keys);
    case SendError(k, err) => SendLinkOk(e.link, Err(k, err), e.hub.conns.Keys);
    case DoRead(k, n) => ReadKeeps(e.hub.conns[k], n);
    case TunnelClose(k, cause) => CloseKeeps(e.hub.conns[k], cause);
    case _ =>
  }

  lemma WorkOk(h: Hub, n: nat, timedOut: bool, backedUp: Error)
    requires HubOk(h)
    ensures HubOk(Work(h, n, timedOut, backedUp)) && Work(h, n, timedOut, backedUp).conns.Keys == h.conns.Keys
  {
    match h.loop
    case Copying(k, rest) => if 0 < n <= |rest| { WriteKeeps(h.conns[k], rest[..n], timedOut); }
    case Closing(k, err) => CloseKeeps(h.conns[k], Some(err));
    case _ =>
  }

  lemma AdvanceOk(e: End, n: nat, timedOut: bool, backedUp: Error)
    requires EndOk(e)
    ensures EndOk(Advance(e, n, timedOut, backedUp))
    ensures Advance(e, n, timedOut, backedUp).hub.conns.Keys == e.hub.conns.Keys
  {
    WorkOk(e.hub, n, timedOut, backedUp);
    if e.hub.loop.Sending? {
      SendLinkOk(e.link, Err(e.hub.loop.k, e.hub.loop.err), e.hub.conns.Keys);
    }
  }

  lemma ReceiveOk(e: End, m: Msg, authorized: bool, notFound: Error)
    requires EndOk(e)
    ensures EndOk(Receive(e, m, authorized, notFound))
  {
    if m.Data? && m.k !in e.hub.live {
      SendLinkOk(e.link, Err(m.k, notFound), e.hub.conns.Keys);
    }
  }

  // ---------------------------------------------------- proof: the handshake

  lemma UnannouncedSend(l: Link, m: Msg, k: int)
    requires Unannounced(l.out, k) && m != Connect(k)
    ensures Unannounced(Send(l, m).out, k)
  {
    forall j: nat
      ensures !Announced(l.out + [m], k, j)
    {
      assert !Announced(l.out, k, j);
    }
  }

  lemma UnannouncedPop(out: seq<Msg>, k: int)
    requires Unannounced(out, k) && out != []
    ensures out[0] != Connect(k) && Unannounced(out[1..], k)
  {
    assert !Announced(out, k, 0);
    assert forall j: nat :: Announced(out[1..], k, j) ==> Announced(out, k, j + 1);
  }

  lemma OrderedSend(l: Link, m: Msg, k: int, accepted: bool, unused: bool)
    requires Ordered(l, k, accepted, unused) && m != Connect(k)
    requires unused && m.Data? ==> m.k != k
    ensures Ordered(Send(l, m), k, accepted, unused)
  {
    if !l.broken {
      SendEffect(l, m, k);
      if unused {
        UnannouncedSend(l, m, k);
      }
      var out := l.out + [m];
      forall j: nat | Announced(out, k, j)
        ensures !accepted && Lone(Send(l, m), k, j)
      {
        assert Announced(l.out, k, j) && Lone(l, k, j);
        assert out[..j] == l.out[..j];
        assert forall i: nat :: Announced(out, k, i) ==> Announced(l.out, k, i);
      }
    }
  }

  lemma AnnouncedFirst(l: Link, k: int, accepted: bool, unused: bool)
    requires Ordered(l, k, accepted, unused) && l.out != [] && l.out[0] == Connect(k)
    ensures !accepted && !unused
    ensures Flying(l.out, k) <= Sent(l, k) && (!l.broken ==> Flying(l.out, k) == Sent(l, k))
  {
    assert Announced(l.out, k, 0);
  }

  lemma OrderedAnnounce(l: Link, k: int)
    requires Ordered(l, k, false, true)
    ensures Ordered(Send(l, Connect(k)), k, false, false)
  {
    if !l.broken {
      SendEffect(l, Connect(k), k);
      var out := l.out + [Connect(k)];
      forall j: nat
        ensures Announced(out, k, j) ==> j == |l.out|
      {
        assert !Announced(l.out, k, j);
      }
      assert out[..|l.out|] == l.out;
    }
  }

  lemma OrderedPop(l: Link, k: int, accepted: bool, unused: bool)
    requires l.out != [] && Ordered(l, k, accepted, unused)
    ensures Ordered(Pop(l), k, accepted || l.out[0] == Connect(k), unused)
  {
    var out, rest := l.out, l.out[1..];
    FlyingPop(out, k);
    assert out[0] == Connect(k) ==> Announced(out, k, 0);
    assert forall i: nat :: Announced(rest, k, i) ==> Announced(out, k, i + 1);
    forall j: nat | Announced(rest, k, j)
      ensures !accepted && out[0] != Connect(k) && Lone(Pop(l), k, j)
    {
      assert Announced(out, k, j + 1) && Lone(l, k, j + 1);
      assert out[..j + 1][1..] == rest[..j];
      FlyingPop(out[..j + 1], k);
    }
  }

  lemma OrderedCutoff(l: Link, keep: nat, k: int, accepted: bool, unused: bool)
    requires keep <= |l.out| && Ordered(l, k, accepted, unused)
    ensures Ordered(Cutoff(l, keep), k, accepted, unused)
  {
    FlyingPrefix(l.out, keep, k);
    var out := l.out[..keep];
    assert forall j: nat :: Announced(out, k, j) ==> Announced(l.out, k, j) && out[..j] == l.out[..j];
    forall j: nat | Announced(out, k, j)
      ensures !accepted && Lone(Cutoff(l, keep), k, j)
    {
      assert Lone(l, k, j);
    }
  }

  // ------------------------------------------- proof: every step, connection k

  lemma DialLinks(s: Sys, k: int)
    requires Enabled(s, Dial) && Linked(s, k) && HubOk(s.server.hub)
    requires LinkOk(s.client.link, s.client.hub.conns.Keys)
    ensures Linked(Next(s, Dial), k)
  {
    assert Accepted(FRESH_CONN) == [];
  }

  lemma AnnounceLinks(s: Sys, k0: int, k: int)
    requires Enabled(s, Announce(k0)) && Linked(s, k) && k0 in s.server.hub.conns
    ensures Linked(Next(s, Announce(k0)), k)
  {
    SendStream(s.server.link, Connect(k0), s.client.hub, k);
    if k == k0 {
      OrderedAnnounce(s.server.link, k);
    } else {
      OrderedSend(s.server.link, Connect(k0), k, k in s.client.hub.conns, Unused(s, k));
    }
  }

  lemma ActLinkStream(e: End, a: Act, to: Hub, k: int)
    requires CanAct(e, a) && Stream(e.link, to, k)
    ensures Stream(ActLink(e, a), to, k)
  {
    match a
    case DoWrite(i) => SendStream(e.link, Data(e.writes[i].0, e.writes[i].1), to, k);
    case SendError(k', err) => SendStream(e.link, Err(k', err), to, k);
    case _ =>
  }

  lemma ActHandshake(s: Sys, side: Side, a: Act, k: int)
    requires Handshake(s, k) && Enabled(s, App(side, a))
    requires ActHub(EndOf(s, side), a).conns.Keys == EndOf(s, side).hub.conns.Keys
    ensures Handshake(Next(s, App(side, a)), k)
  {
    var e, accepted, unused := EndOf(s, side), k in s.client.hub.conns, Unused(s, k);
    if a.DoWrite? || a.SendError? {
      var m := if a.DoWrite? then Data(e.writes[a.i].0, e.writes[a.i].1) else Err(a.k, a.err);
      if side.Server? { OrderedSend(e.link, m, k, accepted, unused); } else { UnannouncedSend(e.link, m, k); }
    }
  }

  lemma ActLinks(s: Sys, side: Side, a: Act, k: int)
    requires Enabled(s, App(side, a)) && Linked(s, k) && EndOk(EndOf(s, side))
    ensures Linked(Next(s, App(side, a)), k)
  {
    var e, other := EndOf(s, side), EndOf(s, Other(side));
    ActOk(e, a);
    ActStream(other.link, e, a, k);
    ActLinkStream(e, a, other.hub, k);
    ActHandshake(s, side, a, k);
  }

  lemma ProceedLinks(s: Sys, at: Side, n: nat, timedOut: bool, backedUp: Error, k: int)
    requires Enabled(s, Proceed(at, n, timedOut, backedUp)) && Linked(s, k) && EndOk(EndOf(s, at))
    ensures Linked(Next(s, Proceed(at, n, timedOut, backedUp)), k)
  {
    var e, other := EndOf(s, at), EndOf(s, Other(at));
    WorkOk(e.hub, n, timedOut, backedUp);
    WorkStream(other.link, e.hub, n, timedOut, backedUp, k);
    if e.hub.loop.Sending? {
      var m := Err(e.hub.loop.k, e.hub.loop.err);
      SendStream(e.link, m, other.hub, k);
      if at.Server? {
        OrderedSend(e.link, m, k, k in s.client.hub.conns, Unused(s, k));
      } else {
        UnannouncedSend(e.link, m, k);
      }
    }
  }

  lemma StreamsToClient(s: Sys, authorized: bool, notFound: Error, k: int)
    requires Enabled(s, Deliver(Client, authorized, notFound)) && Linked(s, k)
    ensures var t := Next(s, Deliver(Client, authorized, notFound));
            Stream(t.server.link, t.client.hub, k) && Stream(t.client.link, t.server.hub, k)
  {
    var l, m := s.server.link, s.server.link.out[0];
    if m == Connect(k) {
      AnnouncedFirst(l, k, k in s.client.hub.conns, Unused(s, k));
    }
    AcceptStream(l, s.client.hub, authorized, k);
    SendStream(s.client.link, Err(m.k, notFound), s.server.hub, k);
  }

  lemma HandshakeToClient(s: Sys, authorized: bool, notFound: Error, k: int)
    requires Enabled(s, Deliver(Client, authorized, notFound)) && Handshake(s, k)
    ensures Handshake(Next(s, Deliver(Client, authorized, notFound)), k)
  {
    var l, m := s.server.link, s.server.link.out[0];
    if m == Connect(k) {
      AnnouncedFirst(l, k, k in s.client.hub.conns, Unused(s, k));
    }
    OrderedPop(l, k, k in s.client.hub.conns, Unused(s, k));
    UnannouncedSend(s.client.link, Err(m.k, notFound), k);
  }

  lemma StreamsToServer(s: Sys, notFound: Error, k: int)
    requires Enabled(s, Deliver(Server, false, notFound)) && Linked(s, k)
    ensures var t := Next(s, Deliver(Server, false, notFound));
            Stream(t.server.link, t.client.hub, k) && Stream(t.client.link, t.server.hub, k)
  {
    var m := s.client.link.out[0];
    AcceptStream(s.client.link, s.server.hub, false, k);
    UnannouncedPop(s.client.link.out, k);
    SendStream(s.server.link, Err(m.k, notFound), s.client.hub, k);
  }

  lemma HandshakeToServer(s: Sys, notFound: Error, k: int)
    requires Enabled(s, Deliver(Server, false, notFound)) && Handshake(s, k)
    ensures Handshake(Next(s, Deliver(Server, false, notFound)), k)
  {
    var m := s.client.link.out[0];
    UnannouncedPop(s.client.link.out, k);
    OrderedSend(s.server.link, Err(m.k, notFound), k, k in s.client.hub.conns, Unused(s, k));
  }

  lemma BreakLinks(s: Sys, of: Side, keep: nat, k: int)
    requires Enabled(s, Break(of, keep)) && Linked(s, k)
    ensures Linked(Next(s, Break(of, keep)), k)
  {
    var l := EndOf(s, of).link;
    CutoffStream(l, keep, EndOf(s, Other(of)).hub, k);
    if of.Server? {
      OrderedCutoff(l, keep, k, k in s.client.hub.conns, Unused(s, k));
    } else {
      assert forall j: nat :: Announced(l.out[..keep], k, j) ==> Announced(l.out, k, j);
    }
  }

  lemma StepLinks(s: Sys, step: Step, k: int)
    requires Inv(s) && Enabled(s, step)
    ensures Linked(Next(s, step), k)
  {
    assert Linked(s, k);
    match step
    case Dial => DialLinks(s, k);
    case Announce(k0) => AnnounceLinks(s, k0, k);
    case App(side, a) => ActLinks(s, side, a, k);
    case Deliver(to, authorized, notFound) =>
      if to.Client? {
        StreamsToClient(s, authorized, notFound, k);
        HandshakeToClient(s, authorized, notFound, k);
      } else {
        StreamsToServer(s, notFound, k);
        HandshakeToServer(s, notFound, k);
      }
    case Proceed(at, n, timedOut, backedUp) => ProceedLinks(s, at, n, timedOut, backedUp, k);
    case Break(of, keep) => BreakLinks(s, of, keep, k);
  }

  lemma StepEnds(s: Sys, step: Step)
    requires EndOk(s.server) && EndOk(s.client) && s.dialing <= s.server.hub.conns.Keys && Enabled(s, step)
    ensures var t := Next(s, step); EndOk(t.server) && EndOk(t.client) && t.dialing <= t.server.hub.conns.Keys
  {
    match step
    case Dial =>
    case Announce(k) => SendLinkOk(s.server.link, Connect(k), s.server.hub.conns.Keys);
    case App(side, a) => ActOk(EndOf(s, side), a);
    case Deliver(to, authorized, notFound) =>
      var from := EndOf(s, Other(to));
      PopLinkOk(from.link, from.hub.conns.Keys);
      ReceiveOk(EndOf(s, to), from.link.out[0], authorized, notFound);
    case Proceed(at, n, timedOut, backedUp) => AdvanceOk(EndOf(s, at), n, timedOut, backedUp);
    case Break(of, keep) => CutoffLinkOk(EndOf(s, of).link, keep, EndOf(s, of).hub.conns.Keys);
  }

  lemma StepKeeps(s: Sys, step: Step)
    requires Inv(s) && Enabled(s, step)
    ensures Inv(Next(s, step))
  {
    StepEnds(s, step);
    forall k
      ensures Linked(Next(s, step), k)
    {
      StepLinks(s, step, k);
    }
  }

  // ------------------------------------------------------------- whole runs

  ghost predicate Runs(s: Sys, steps: seq<Step>, t: Sys)
    decreases |steps|
  {
    if steps == [] then s == t
    else Enabled(s, steps[0]) && Runs(Next(s, steps[0]), steps[1..], t)
  }

  lemma {:induction false} RunKeeps(s: Sys, steps: seq<Step>, t: Sys)
    requires Inv(s) && Runs(s, steps, t)
    ensures Inv(t)
    decreases |steps|
  {
    if steps != [] {
      StepKeeps(s, steps[0]);
      RunKeeps(Next(s, steps[0]), steps[1..], t);
    }
  }

  lemma ReachableIsOk(steps: seq<Step>, t: Sys)
    requires Runs(INIT, steps, t)
    ensures Inv(t)
  {
    assert forall k :: Linked(INIT, k);
    RunKeeps(INIT, steps, t);
  }

  /**
   In every interleaving, what Read has returned on one end of connection k is a prefix of what
   Write has sent on the other end of k, and no closed buffer was ever sent on or closed again.
   */
  lemma TunnelSafety(steps: seq<Step>, t: Sys, side: Side, k: int)
    requires Runs(INIT, steps, t) && k in EndOf(t, side).hub.conns
    ensures EndOf(t, side).hub.conns[k].read <= Sent(EndOf(t, Other(side)).link, k)
    ensures !EndOf(t, side).hub.conns[k].panicked
  {
    ReachableIsOk(steps, t);
    assert Linked(t, k);
    var c := EndOf(t, side).hub.conns[k];
    assert c.read <= Accepted(c);
  }

  /** While a connection is open and its transport whole, nothing sent is missing: it is read, buffered or under way. */
  lemma NothingIsLost(steps: seq<Step>, t: Sys, side: Side, k: int)
    requires Runs(INIT, steps, t)
    requires Delivering(EndOf(t, side).hub, k) && !EndOf(t, Other(side)).link.broken
    ensures var h, l := EndOf(t, side).hub, EndOf(t, Other(side)).link;
            AcceptedOf(h, k) + PendingOf(h, k) + Flying(l.out, k) == Sent(l, k)
  {
    ReachableIsOk(steps, t);
    assert Linked(t, k);
  }

  /** Connection k of h is still there in h', with what it had read and accepted, and perhaps more. */
  ghost predicate Grows(h: Hub, h': Hub, k: int) {
    k in h.conns ==>
      && k in h'.conns
      && h.conns[k].read <= h'.conns[k].read
      && Accepted(h.conns[k]) <= Accepted(h'.conns[k])
  }

  lemma ActGrows(e: End, a: Act, k: int)
    requires HubOk(e.hub) && CanAct(e, a)
    ensures Grows(e.hub, ActHub(e, a), k)
  {
    if a.DoRead? {
      ReadKeeps(e.hub.conns[a.k], a.n);
    } else if a.TunnelClose? {
      CloseKeeps(e.hub.conns[a.k], a.cause);
    }
  }

  lemma WorkGrows(h: Hub, n: nat, timedOut: bool, backedUp: Error, k: int)
    requires HubOk(h)
    ensures Grows(h, Work(h, n, timedOut, backedUp), k)
  {
    match h.loop
    case Copying(k', rest) => if 0 < n <= |rest| { WriteKeeps(h.conns[k'], rest[..n], timedOut); }
    case Closing(k', err) => CloseKeeps(h.conns[k'], Some(err));
    case _ =>
  }

  lemma DeliverGrows(s: Sys, step: Step, side: Side, k: int)
    requires Handshake(s, k) && step.Deliver? && Enabled(s, step)
    ensures Grows(EndOf(s, side).hub, EndOf(Next(s, step), side).hub, k)
  {
    if step.to.Client? && s.server.link.out[0] == Connect(k) {
      AnnouncedFirst(s.server.link, k, k in s.client.hub.conns, Unused(s, k));
    }
  }

  lemma StepGrows(s: Sys, step: Step, side: Side, k: int)
    requires HubOk(s.server.hub) && HubOk(s.client.hub) && Enabled(s, step)
    requires Handshake(s, k) && Handshake(s, s.nextID + 1)
    ensures Grows(EndOf(s, side).hub, EndOf(Next(s, step), side).hub, k)
  {
    match step
    case App(at, a) => ActGrows(EndOf(s, at), a, k);
    case Proceed(at, n, timedOut, backedUp) => WorkGrows(EndOf(s, at).hub, n, timedOut, backedUp, k);
    case Deliver(_, _, _) => DeliverGrows(s, step, side, k);
    case _ =>
  }

  /** Connection IDs are never reused: no step replaces a connection, and a dial takes an ID unknown to both ends. */
  lemma ConnectionsAreNeverReplaced(steps: seq<Step>, t: Sys, step: Step, side: Side, k: int)
    requires Runs(INIT, steps, t) && Enabled(t, step)
    ensures Grows(EndOf(t, side).hub, EndOf(Next(t, step), side).hub, k)
    ensures step.Dial? ==> t.nextID + 1 !in t.server.hub.conns && t.nextID + 1 !in t.client.hub.conns
  {
    ReachableIsOk(steps, t);
    assert Linked(t, k) && Linked(t, t.nextID + 1);
    StepGrows(t, step, side, k);
  }

  // -------------------------------------------------- what goes through when left alone

  /** The transport to this side is whole and empty, and its message loop is waiting. */
  predicate Waiting(s: Sys, to: Side) {
    && !EndOf(s, to).halted && EndOf(s, to).hub.loop.Idle?
    && !EndOf(s, Other(to)).link.broken && EndOf(s, Other(to)).link.out == []
  }

  lemma OneStep(s: Sys, step: Step, s1: Sys, steps: seq<Step>, t: Sys)
    requires Enabled(s, step) && Next(s, step) == s1 && Runs(s1, steps, t)
    ensures Runs(s, [step] + steps, t)
  {
    assert ([step] + steps)[1..] == steps;
  }

  /** A dial that the client accepts gives both ends an open connection, with nothing read or buffered. */
  lemma DialArrives(s: Sys, notFound: Error) returns (steps: seq<Step>, t: Sys, k: int)
    requires Waiting(s, Client) && s.nextID < TWO63 - 1
    ensures Runs(s, steps, t) && |steps| == 3 && k == s.nextID + 1
    ensures k in t.server.hub.live && k in t.server.hub.conns && t.server.hub.conns[k] == FRESH_CONN
    ensures k in t.client.hub.live && k in t.client.hub.conns && t.client.hub.conns[k] == FRESH_CONN
    ensures Waiting(t, Client) && k !in t.dialing
  {
    k := s.nextID + 1;
    var s1 := Next(s, Dial);
    var s2 := Next(s1, Announce(k));
    var arrival := Deliver(Client, true, notFound);
    assert s2.server.link.out == [Connect(k)];
    t := Next(s2, arrival);
    assert Runs(t, [], t);
    OneStep(s2, arrival, t, [], t);
    OneStep(s1, Announce(k), s2, [arrival] + [], t);
    OneStep(s, Dial, s1, [Announce(k)] + ([arrival] + []), t);
    steps := [Dial] + ([Announce(k)] + ([arrival] + []));
  }

  /** Connection k can take one more chunk on this side, and Write is possible on the other. */
  predicate Usable(s: Sys, to: Side, k: int) {
    var from, h := EndOf(s, Other(to)), EndOf(s, to).hub;
    && k in from.hub.conns && from.hub.conns[k].err.None? && !(Other(to).Server? && k in s.dialing)
    && k in h.live && k in h.conns && ConnOk(h.conns[k]) && h.conns[k].err.None? && |h.conns[k].buf| < BUFFER_CAP
  }

  /** A Write arrives whole behind what was there. */
  lemma WriteArrives(s: Sys, to: Side, k: int, bytes: Bytes, notFound: Error) returns (steps: seq<Step>, t: Sys)
    requires Waiting(s, to) && Usable(s, to, k) && bytes != []
    ensures Runs(s, steps, t) && |steps| == 5 && Waiting(t, to)
    ensures k in EndOf(t, to).hub.conns && k in EndOf(t, to).hub.live
    ensures Accepted(EndOf(t, to).hub.conns[k]) == Accepted(EndOf(s, to).hub.conns[k]) + bytes
    ensures Sent(EndOf(t, Other(to)).link, k) == Sent(EndOf(s, Other(to)).link, k) + bytes
  {
    var from := Other(to);
    var check, write := App(from, CheckWrite(k, bytes)), App(from, DoWrite(|EndOf(s, from).writes|));
    var s1 := Next(s, check);
    assert EndOf(s1, from).writes == EndOf(s, from).writes + [(k, bytes)];
    var s2 := Next(s1, write);
    assert EndOf(s2, from).link.out == [Data(k, bytes)];
    var more;
    more, t := DataArrives(s2, to, k, bytes, notFound);
    OneStep(s1, write, s2, more, t);
    OneStep(s, check, s1, [write] + more, t);
    steps := [check] + ([write] + more);
  }

  lemma DataArrives(s: Sys, to: Side, k: int, bytes: Bytes, notFound: Error) returns (steps: seq<Step>, t: Sys)
    requires !EndOf(s, to).halted && EndOf(s, to).hub.loop.Idle? && bytes != []
    requires !EndOf(s, Other(to)).link.broken && EndOf(s, Other(to)).link.out == [Data(k, bytes)]
    requires Usable(s, to, k)
    ensures Runs(s, steps, t) && |steps| == 3 && Waiting(t, to)
    ensures k in EndOf(t, to).hub.conns && k in EndOf(t, to).hub.live
    ensures Accepted(EndOf(t, to).hub.conns[k]) == Accepted(EndOf(s, to).hub.conns[k]) + bytes
    ensures EndOf(t, Other(to)).link.sent == EndOf(s, Other(to)).link.sent
  {
    var arrival := Deliver(to, false, notFound);
    var copy := Proceed(to, |bytes|, false, notFound);
    var s1 := Next(s, arrival);
    assert EndOf(s1, to).hub.loop == Copying(k, bytes);
    WriteKeeps(EndOf(s, to).hub.conns[k], bytes, false);
    assert bytes[..|bytes|] == bytes && bytes[|bytes|..] == [];
    var s2 := Next(s1, copy);
    assert EndOf(s2, to).hub.loop == Copying(k, []);
    t := Next(s2, copy);
    assert Runs(t, [], t);
    OneStep(s2, copy, t, [], t);
    OneStep(s1, copy, s2, [copy] + [], t);
    OneStep(s, arrival, s1, [copy] + ([copy] + []), t);
    steps := [arrival] + ([copy] + ([copy] + []));
  }

  // ------------------------------------------------------------ how it ends

  /** Connection k is on its way out of the session's map, or out of it. */
  predicate Leaving(h: Hub, k: int) { k in h.conns && ((h.loop.Removing? && h.loop.k == k) || k !in h.live) }

  lemma LeavingStays(s: Sys, step: Step, side: Side, k: int)
    requires Handshake(s, k) && Enabled(s, step) && Leaving(EndOf(s, side).hub, k)
    ensures Leaving(EndOf(Next(s, step), side).hub, k)
  {
    match step
    case Deliver(to, _, _) =>
      if to.Client? && s.server.link.out[0] == Connect(k) {
        AnnouncedFirst(s.server.link, k, k in s.client.hub.conns, Unused(s, k));
      }
    case _ =>
  }

  /** The message loop is closing connection k, which will have this error then, or has closed it. */
  predicate Ending(h: Hub, k: int, err: Error, final: Error) {
    && k in h.conns && (h.conns[k].err.Some? ==> h.conns[k].err == Some(final))
    && (h.conns[k].err.None? ==> final == err)
    && (|| (h.loop == Removing(k, err) && k in h.live)
        || (k !in h.live && (h.loop == Sending(k, err) || h.loop == Closing(k, err) || h.conns[k].err.Some?)))
  }

  /** Nobody else on this side takes the connection out of the map, or closes it. */
  predicate Spares(step: Step, side: Side, k: int) {
    step.App? && step.side == side ==>
      step.act != Remove(k) && !step.act.Reset? && !(step.act.TunnelClose? && step.act.k == k)
  }

  lemma EndingStays(s: Sys, step: Step, side: Side, k: int, err: Error, final: Error)
    requires Handshake(s, k) && HubOk(s.server.hub) && HubOk(s.client.hub)
    requires Enabled(s, step) && Spares(step, side, k) && Ending(EndOf(s, side).hub, k, err, final)
    ensures Ending(EndOf(Next(s, step), side).hub, k, err, final)
  {
    match step
    case App(at, a) => if at == side { ActEnds(EndOf(s, side), a, k, err, final); }
    case Deliver(to, _, _) =>
      if to.Client? && s.server.link.out[0] == Connect(k) {
        AnnouncedFirst(s.server.link, k, k in s.client.hub.conns, Unused(s, k));
      }
    case Proceed(at, n, timedOut, backedUp) =>
      if at == side { WorkEnds(EndOf(s, side).hub, n, timedOut, backedUp, k, err, final); }
    case _ =>
  }

  lemma ActEnds(e: End, a: Act, k: int, err: Error, final: Error)
    requires HubOk(e.hub) && CanAct(e, a) && Ending(e.hub, k, err, final)
    requires a != Remove(k) && !a.Reset? && !(a.TunnelClose? && a.k == k)
    ensures Ending(ActHub(e, a), k, err, final)
  {
    if a.DoRead? { ReadKeeps(e.hub.conns[a.k], a.n); }
  }

  lemma WorkEnds(h: Hub, n: nat, timedOut: bool, backedUp: Error, k: int, err: Error, final: Error)
    requires HubOk(h) && Ending(h, k, err, final)
    ensures Ending(Work(h, n, timedOut, backedUp), k, err, final)
  {
    match h.loop
    case Copying(k', rest) => if 0 < n <= |rest| { WriteKeeps(h.conns[k'], rest[..n], timedOut); }
    case Closing(k', err') => CloseKeeps(h.conns[k'], Some(err'));
    case _ =>
  }

  lemma {:induction false} EndingRuns(s: Sys, steps: seq<Step>, t: Sys, side: Side, k: int, err: Error, final: Error)
    requires Inv(s) && Runs(s, steps, t) && Ending(EndOf(s, side).hub, k, err, final)
    requires forall i :: 0 <= i < |steps| ==> Spares(steps[i], side, k)
    ensures Ending(EndOf(t, side).hub, k, err, final)
    decreases |steps|
  {
    if steps != [] {
      StepKeeps(s, steps[0]);
      assert Linked(s, k);
      EndingStays(s, steps[0], side, k, err, final);
      EndingRuns(Next(s, steps[0]), steps[1..], t, side, k, err, final);
    }
  }

  lemma {:induction false} LeavingRuns(s: Sys, steps: seq<Step>, t: Sys, side: Side, k: int)
    requires Inv(s) && Runs(s, steps, t) && Leaving(EndOf(s, side).hub, k)
    ensures Leaving(EndOf(t, side).hub, k)
    decreases |steps|
  {
    if steps != [] {
      StepKeeps(s, steps[0]);
      assert Linked(s, k);
      LeavingStays(s, steps[0], side, k);
      LeavingRuns(Next(s, steps[0]), steps[1..], t, side, k);
    }
  }

  /**
   In every run, once an Error for a live connection was delivered and the message loop is idle again, the
   connection is not in the map any more, whatever anybody does meanwhile, and it never comes back. If
   nobody else takes it out or closes it, it is closed, with the error it had or else the one delivered.
   */
  lemma ErrorEndsTheConnection(before: seq<Step>, s: Sys, to: Side, authorized: bool, notFound: Error, k: int,
                               err: Error, steps: seq<Step>, t: Sys)
    requires Runs(INIT, before, s) && Enabled(s, Deliver(to, authorized, notFound))
    requires EndOf(s, Other(to)).link.out[0] == Err(k, err) && k in EndOf(s, to).hub.live
    requires Runs(Next(s, Deliver(to, authorized, notFound)), steps, t) && EndOf(t, to).hub.loop.Idle?
    ensures k in EndOf(s, to).hub.conns && k in EndOf(t, to).hub.conns && k !in EndOf(t, to).hub.live
    ensures (forall i :: 0 <= i < |steps| ==> Spares(steps[i], to, k)) ==>
              var was, now := EndOf(s, to).hub.conns[k], EndOf(t, to).hub.conns[k];
              now.closed && now.err == if was.err.Some? then was.err else Some(err)
  {
    ReachableIsOk(before, s);
    var step := Deliver(to, authorized, notFound);
    StepKeeps(s, step);
    var s1 := Next(s, step);
    LeavingRuns(s1, steps, t, to, k);
    if forall i :: 0 <= i < |steps| ==> Spares(steps[i], to, k) {
      var was := EndOf(s, to).hub.conns[k];
      EndingRuns(s1, steps, t, to, k, err, if was.err.Some? then was.err.value else err);
      RunKeeps(s1, steps, t);
    }
  }

  // ------------------------------------------------------------ termination

  function Weight(m: Msg): nat {
    match m
    case Connect(_) => 5
    case Data(_, bytes) => 3 + |bytes|
    case Err(_, _) => 2
  }

  function Weights(out: seq<Msg>): nat { if out == [] then 0 else Weight(out[0]) + Weights(out[1..]) }

  function LoopWeight(loop: Loop): nat {
    match loop
    case Idle => 0
    case Copying(_, rest) => 2 + |rest|
    case Removing(_, _) => 1
    case Sending(_, _) => 4
    case Closing(_, _) => 1
  }

  function EndPotential(e: End): nat { 4 * |e.hub.live| + LoopWeight(e.hub.loop) + Weights(e.link.out) }

  /** Live connections on both sides, plus what is in flight and being worked on. */
  function Potential(s: Sys): nat { EndPotential(s.server) + EndPotential(s.client) }

  predicate IsDelivery(step: Step) { step.Deliver? || step.Proceed? }

  lemma {:induction false} WeightsAppend(out: seq<Msg>, m: Msg)
    ensures Weights(out + [m]) == Weights(out) + Weight(m)
  {
    if out == [] {
      assert (out + [m])[1..] == [];
    } else {
      assert (out + [m])[1..] == out[1..] + [m];
      WeightsAppend(out[1..], m);
    }
  }

  lemma AdvanceLowers(e: End, n: nat, timedOut: bool, backedUp: Error)
    requires !e.hub.loop.Idle?
    ensures EndPotential(Advance(e, n, timedOut, backedUp)) < EndPotential(e)
  {
    var loop := e.hub.loop;
    if loop.Sending? {
      WeightsAppend(e.link.out, Err(loop.k, loop.err));
    } else if loop.Removing? && loop.k in e.hub.live {
      assert |e.hub.live - {loop.k}| == |e.hub.live| - 1;
    }
  }

  lemma ReceiveLowers(e: End, m: Msg, authorized: bool, notFound: Error)
    requires e.hub.loop.Idle?
    ensures EndPotential(Receive(e, m, authorized, notFound)) < EndPotential(e) + Weight(m)
  {
    match m
    case Connect(k) => assert |e.hub.live + {k}| <= |e.hub.live| + 1;
    case Data(k, _) => if k !in e.hub.live { WeightsAppend(e.link.out, Err(k, notFound)); }
    case Err(_, _) =>
  }

  /** Every delivery and every section of the message loops lowers the potential. */
  lemma DeliveryLowers(s: Sys, step: Step)
    requires Enabled(s, step) && IsDelivery(step)
    ensures Potential(Next(s, step)) < Potential(s)
  {
    match step
    case Proceed(at, n, timedOut, backedUp) => AdvanceLowers(EndOf(s, at), n, timedOut, backedUp);
    case Deliver(to, authorized, notFound) =>
      ReceiveLowers(EndOf(s, to), EndOf(s, Other(to)).link.out[0], authorized, notFound);
  }

  /** Once applications stop, the two ends cannot exchange messages forever: at most Potential(s) steps remain. */
  lemma {:induction false} DeliveryTerminates(s: Sys, steps: seq<Step>, t: Sys)
    requires Runs(s, steps, t) && forall i :: 0 <= i < |steps| ==> IsDelivery(steps[i])
    ensures |steps| + Potential(t) <= Potential(s)
    decreases |steps|
  {
    if steps != [] {
      DeliveryLowers(s, steps[0]);
      DeliveryTerminates(Next(s, steps[0]), steps[1..], t);
    }
  }

  /** ... and they do not get stuck before that: work that is left can always be taken one step further. */
  lemma DeliveryProgress(steps: seq<Step>, t: Sys, side: Side)
    requires Runs(INIT, steps, t) && !EndOf(t, side).halted
    requires !EndOf(t, side).hub.loop.Idle? || EndOf(t, Other(side)).link.out != []
    ensures exists step :: IsDelivery(step) && Enabled(t, step)
  {
    ReachableIsOk(steps, t);
    if EndOf(t, side).hub.loop.Idle? {
      assert Enabled(t, Deliver(side, false, EOF));
    } else {
      assert Enabled(t, Proceed(side, 1, true, EOF));
    }
  }
}
