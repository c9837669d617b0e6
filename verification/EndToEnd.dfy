/** The whole way of a connection: accepted, peeked at, handed to its service, and read there. */
module EndToEnd {
  import opened Bytes
  import opened Child
  import opened Forward
  import opened Pools
  import opened Streams
  import Dispatch
  import Registry

  /** The two processes share no buffer and the connection is new to the child. */
  ghost predicate Apart(px: Proxy, rc: Receiver, c: Stream)
    reads px, px.httpPool, px.tlsPool, rc, rc.pool, rc.conns
  {
    && rc.pool != px.httpPool && rc.pool != px.tlsPool && rc.pool.size == HTTP_BUFFER
    && (forall b :: b in px.httpPool.free + px.tlsPool.free ==>
          b != rc.buf && b !in rc.pool.free && forall d :: d in rc.conns ==> d.buf != b)
    && (forall d :: d in rc.conns ==> d.inner != c)
  }

  /** A service gets the connection: the stream asks for a name that an open Port of its listener
      accepts. */
  ghost predicate Wanted(px: Proxy, l: Registry.Listener, data: seq<byte>)
    reads px.registry
  {
    Demands(data).Ask? && exists q :: q in px.registry.live && px.registry.Fits(l, q, Dispatch.Host(Demands(data).name))
  }

  /** Proxy to child: the connection that comes out of the child's loop holds the client's whole
      stream, whatever the proxy had to read of it first, and one does come out whenever a service
      was chosen, the message was sent, and the child has a channel for the port. The bytes always
      fit the child's buffer. Unless a read fails before the stream has decided, that is whenever the
      stream asks for a name that is served. */
  method ToChild(px: Proxy, rc: Receiver, l: Registry.Listener, c: Stream, sent: bool) returns (conn: Conn?, p: Passed)
    requires px.Valid() && !px.down && rc.Valid() && Apart(px, rc, c)
    requires l in px.registry.cells && c.Valid() && c.Unread()
    modifies px`down, c`pos, c`last, c`fails, px.httpPool`free, px.tlsPool`free, px.httpPool.free, px.tlsPool.free
    modifies rc, rc.buf, rc.pool`free
    ensures px.Valid() && rc.Valid() && c.Valid() && px.down == p.OutOfRange?
    ensures Served(px.registry, l, c.data, c.fails, c.last, p)
    ensures NoneEarly(c.data, c.fails) ==> (p.Chosen? <==> Wanted(px, l, c.data))
    ensures (conn != null) == (p.Chosen? && sent && l.port in rc.sockets) && rc.sockets == old(rc.sockets)
    ensures conn != null ==> fresh(conn) && conn.buf == old(rc.buf) && conn.Waiting()
    ensures conn != null ==> conn in rc.conns && conn.Valid() && conn.pool == rc.pool && conn.inner == c && conn.Contents() == c.data
  {
    hide Registry.Listeners.Valid, Served, Wanted, NoneEarly, Demands;
    p := px.Transfer(l, c);
    if NoneEarly(c.data, c.fails) { ChosenIfWanted(px, l, c.data, c.fails, c.last, p); }
    conn := null;
    if p.Chosen? && sent {
      var e := rc.Message(p.prefix, Some(c), l.port);
      if e.Queued? {
        conn := e.conn;
      }
    }
  }

  /** The same, read to the child's liking: in any sequence of reads the child gets the client's
      bytes in order, none lost, added or repeated, until a read of the connection fails; and all
      of them, if it reads often enough and none does. */
  method ServedByChild(px: Proxy, rc: Receiver, l: Registry.Listener, c: Stream, sent: bool, sizes: seq<nat>)
    returns (got: seq<byte>, conn: Conn?, p: Passed, failed: bool, ghost fails: seq<nat>, ghost last: nat)
    requires px.Valid() && !px.down && rc.Valid() && Apart(px, rc, c)
    requires l in px.registry.cells && c.Valid() && c.Unread()
    modifies px`down, c`pos, c`last, c`fails, px.httpPool`free, px.tlsPool`free, px.httpPool.free, px.tlsPool.free
    modifies rc, rc.buf, rc.pool`free
    ensures Served(px.registry, l, c.data, fails, last, p) && fails <= c.fails
    ensures NoneEarly(c.data, fails) ==> (p.Chosen? <==> Wanted(px, l, c.data))
    ensures (conn != null) == (p.Chosen? && sent && l.port in old(rc.sockets))
    ensures conn != null ==> conn.Valid() && conn.inner == c && got + conn.Contents() == c.data
    ensures conn == null ==> got == [] && !failed && c.fails == fails && c.last == last
    ensures c.fails == if failed then fails + [c.last] else fails
    ensures conn != null && !failed ==> |got| >= Positive(sizes) && (Positive(sizes) >= |c.data| ==> got == c.data)
  {
    hide Registry.Listeners.Valid, Registry.Listeners.Fits, Receiver.Valid, Apart, Served, Wanted, NoneEarly, Demands, Conn.Waiting, Pool.Valid;
    conn, p := ToChild(px, rc, l, c, sent);
    fails, last := c.fails, c.last;
    got, failed := [], false;
    if conn != null {
      PoolOf(rc, conn);
      got, failed := ReadAll(conn, sizes);
    }
  }

  lemma ChosenIfWanted(px: Proxy, l: Registry.Listener, data: seq<byte>, fails: seq<nat>, last: nat, p: Passed)
    requires Served(px.registry, l, data, fails, last, p) && NoneEarly(data, fails)
    ensures p.Chosen? <==> Wanted(px, l, data)
  {
    ServedExactly(px.registry, l, data, fails, last, p);
  }

  lemma PoolOf(rc: Receiver, conn: Conn)
    requires rc.Valid() && conn in rc.conns
    ensures conn.Valid() && conn.pool.Valid()
  {
  }

  /** io.Copy from one end to the other: whatever is read is written, in order, until a read or a
      write fails. */
  method CopyConn(c: Stream, w: Sink)
    requires c.Valid()
    modifies c`pos, c`last, c`fails, w
    ensures c.Valid() && w.fails >= old(w.fails)
    ensures c.fails == old(c.fails) || c.fails == old(c.fails) + [c.last]
    ensures c.fails == old(c.fails) ==> w.fails > old(w.fails)
    ensures old(w.written) <= w.written <= old(w.written + c.Rest())
    ensures w.fails == old(w.fails) ==> w.written + c.Rest() == old(w.written + c.Rest())
  {
    ghost var all := w.written + c.Rest();
    var readFailed, writeFailed := false, false;
    var buf := new byte[0x8000](_ => 0);
    while !readFailed && !writeFailed
      invariant c.Valid() && w.fails >= old(w.fails)
      invariant c.fails == if readFailed then old(c.fails) + [c.last] else old(c.fails)
      invariant writeFailed == (w.fails > old(w.fails))
      invariant old(w.written) <= w.written <= all && (!writeFailed ==> w.written + c.Rest() == all)
      decreases |c.data| - c.pos, !readFailed, !writeFailed
    {
      ghost var before, rest := w.written, c.Rest();
      var m, k;
      m, readFailed := c.Read(buf, 0, buf.Length);
      assert buf[..m] == buf[0..m] == rest[..m];
      if m > 0 {
        k, writeFailed := w.Write(buf[..m]);
        assert before + rest == (before + rest[..k]) + rest[k..];
        assert rest[..m][..k] == rest[..k];
      }
    }
  }

  /** Proxy to another address: the prefix is written first and the rest copied after it, so the
      backend sees the beginning of the client's stream, and as long as no write to it failed, all
      that was read, up to a read that failed. It sees it whenever a service was chosen and could
      be dialled. */
  method ToAddress(px: Proxy, l: Registry.Listener, c: Stream, dialled: bool)
    returns (w: Sink?, p: Passed, ghost fails: seq<nat>, ghost last: nat)
    requires px.Valid() && !px.down && l in px.registry.cells && c.Valid() && c.Unread()
    modifies px`down, c`pos, c`last, c`fails, px.httpPool`free, px.tlsPool`free, px.httpPool.free, px.tlsPool.free
    ensures px.Valid() && c.Valid() && px.down == p.OutOfRange?
    ensures Served(px.registry, l, c.data, fails, last, p) && fails <= c.fails
    ensures NoneEarly(c.data, fails) ==> (p.Chosen? <==> Wanted(px, l, c.data))
    ensures w == null ==> c.fails == fails && c.last == last
    ensures (w != null) == (p.Chosen? && dialled)
    ensures w != null ==> fresh(w) && w.written <= c.data
    ensures w != null && w.fails == 0 ==> p.prefix <= w.written && w.written + c.Rest() == c.data && c.fails == fails + [c.last]
  {
    hide Registry.Listeners.Valid, Served, Wanted, NoneEarly, Demands;
    p := px.Transfer(l, c);
    if NoneEarly(c.data, c.fails) { ChosenIfWanted(px, l, c.data, c.fails, c.last, p); }
    fails, last := c.fails, c.last;
    w := null;
    if p.Chosen? && dialled {
      w := new Sink();
      var k, failed := w.Write(p.prefix);
      if !failed {
        CopyConn(c, w);
      }
    }
  }
}
