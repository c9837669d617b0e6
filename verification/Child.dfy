/** The child's half: unixconn.go. Its reading loop and the replaying connection. */
module Child {
  import opened Bytes
  import opened Pools
  import opened Streams
  import Toggle

  /** A connection whose first bytes were read by the proxy and came beside it. */
  class Conn {
    const inner: Stream
    const pool: Pool
    var buf: array?<byte>
    var pos: nat
    var length: nat

    constructor (inner: Stream, pool: Pool, buf: array<byte>, length: nat)
      ensures this.inner == inner && this.pool == pool && this.buf == buf && pos == 0 && this.length == length
    {
      this.inner, this.pool, this.buf, pos, this.length := inner, pool, buf, 0, length;
    }

    /** The buffer, while there is one, is this connection's alone and zero beyond the bytes received. */
    ghost predicate Valid()
      reads this, inner, pool, buf
    {
      && inner.Valid()
      && (buf != null ==>
            && pos <= length <= buf.Length == pool.size && buf !in pool.free
            && AllZero(buf[length..]))
    }

    /** The bytes still to be read. */
    ghost function Contents(): seq<byte>
      requires Valid()
      reads this, inner, pool, buf
    {
      (if buf == null then [] else buf[pos..length]) + inner.Rest()
    }

    /** A buffer that is held has bytes to serve: false only before the first read of a
        connection that came with none. */
    ghost predicate Waiting()
      reads this
    {
      buf != null ==> pos < length
    }

    method ClearBuffer()
      requires Valid() && pool.Valid() && buf != null
      modifies this`buf, buf, pool`free
      ensures Valid() && pool.Valid() && buf == null && pool.free == old(pool.free) + {old(buf)}
    {
      Clear(buf, length);
      pool.Put(buf);
      buf := null;
    }

    /** The part of Read that serves the bytes received; the buffer goes back once it is drained. */
    method Replay(b: array<byte>) returns (n: nat)
      requires Valid() && pool.Valid() && buf != null && b != buf && b !in pool.free
      modifies this`buf, this`pos, b, buf, pool`free
      ensures Valid() && pool.Valid() && n <= b.Length
      ensures old(Contents()) == b[..n] + Contents() && b[n..] == old(b[n..])
      ensures b.Length > 0 && old(pos < length) ==> n > 0
      ensures Waiting()
      ensures buf == old(buf) ==> pool.free == old(pool.free)
      ensures buf != old(buf) ==> buf == null && pool.free == old(pool.free) + {old(buf)}
    {
      n := if b.Length < length - pos then b.Length else length - pos;
      ghost var held := buf[pos..length];
      forall i | 0 <= i < n {
        b[i] := buf[pos + i];
      }
      assert held == b[..n] + buf[pos + n..length];
      assert held + inner.Rest() == b[..n] + (buf[pos + n..length] + inner.Rest());
      pos := pos + n;
      if pos == length {
        ClearBuffer();
        assert held == b[..n];
      }
    }

    /** The bytes received are served without a failure and without touching the connection. */
    method Read(b: array<byte>) returns (n: nat, failed: bool)
      requires Valid() && pool.Valid() && b != buf && b !in pool.free
      modifies this`buf, this`pos, inner`pos, inner`last, inner`fails, b, buf, pool`free
      ensures inner.fails == if failed then old(inner.fails) + [inner.last] else old(inner.fails)
      ensures old(buf) != null ==> !failed && inner.pos == old(inner.pos)
      ensures Valid() && pool.Valid() && n <= b.Length
      ensures old(Contents()) == b[..n] + Contents() && b[n..] == old(b[n..])
      ensures b.Length > 0 && !failed && old(Waiting()) ==> n > 0
      ensures old(Waiting()) ==> Waiting()
      ensures buf == old(buf) ==> pool.free == old(pool.free)
      ensures buf != old(buf) ==> buf == null && pool.free == old(pool.free) + {old(buf)}
    {
      if buf != null {
        n := Replay(b);
        return n, false;
      }
      n, failed := inner.Read(b, 0, b.Length);
      assert b[0..n] == b[..n];
    }

    method Close()
      requires Valid() && pool.Valid()
      modifies this`buf, buf, pool`free
      ensures Valid() && pool.Valid() && buf == null
      ensures pool.free == if old(buf) == null then old(pool.free) else old(pool.free) + {old(buf)}
    {
      if buf != null {
        ClearBuffer();
      }
    }
  }

  /** One read into a new buffer of the reader's. */
  method ReadSome(c: Conn, size: nat) returns (got: seq<byte>, failed: bool)
    requires c.Valid() && c.pool.Valid()
    modifies c`buf, c`pos, c.inner`pos, c.inner`last, c.inner`fails, c.buf, c.pool`free
    ensures c.Valid() && c.pool.Valid() && (c.buf == old(c.buf) || c.buf == null)
    ensures |got| <= size && got + c.Contents() == old(c.Contents())
    ensures c.inner.fails == if failed then old(c.inner.fails) + [c.inner.last] else old(c.inner.fails)
    ensures old(c.Waiting()) ==> c.Waiting() && (size > 0 && !failed ==> |got| > 0)
  {
    var b := new byte[size](_ => 0);
    var n;
    n, failed := c.Read(b);
    got := b[..n];
  }

  /** How many of the reads have room for a byte. */
  function Positive(sizes: seq<nat>): nat {
    if |sizes| == 0 then 0 else Positive(sizes[..|sizes| - 1]) + if sizes[|sizes| - 1] > 0 then 1 else 0
  }

  /** Reads with any sequence of buffer sizes, up to the first that fails: the bytes come out in
      order, none lost or added, and at least one for every read that has room. */
  method ReadAll(c: Conn, sizes: seq<nat>) returns (got: seq<byte>, failed: bool)
    requires c.Valid() && c.pool.Valid()
    modifies c`buf, c`pos, c.inner`pos, c.inner`last, c.inner`fails, c.buf, c.pool`free
    ensures c.Valid() && c.pool.Valid() && got + c.Contents() == old(c.Contents())
    ensures c.inner.fails == if failed then old(c.inner.fails) + [c.inner.last] else old(c.inner.fails)
    ensures old(c.Waiting()) && !failed ==> |got| >= Positive(sizes)
  {
    hide Conn.Valid, Pool.Valid, Conn.Contents, Conn.Waiting;
    got, failed := [], false;
    assert got + c.Contents() == c.Contents();
    for i := 0 to |sizes|
      invariant c.Valid() && c.pool.Valid() && (c.buf == old(c.buf) || c.buf == null)
      invariant got + c.Contents() == old(c.Contents())
      invariant !failed && c.inner.fails == old(c.inner.fails)
      invariant old(c.Waiting()) ==> c.Waiting() && |got| >= Positive(sizes[..i])
    {
      ghost var left := c.Contents();
      var more;
      more, failed := ReadSome(c, sizes[i]);
      assert got + (more + c.Contents()) == (got + more) + c.Contents();
      assert sizes[..i + 1][..i] == sizes[..i];
      got := got + more;
      if failed {
        return;
      }
    }
    assert sizes[..|sizes|] == sizes;
  }

  datatype Event =
    | Nothing
    | NewSocket(port: uint16, chan: nat)
    | Error(text: seq<byte>)
    | ChannelClosed(port: uint16)
    | Queued(chan: nat, conn: Conn)

  /** What the loop does about a control message: its tables, and what it passes on. */
  ghost predicate Handled(c: Toggle.Control, before: Toggle.Table, after: Toggle.Table, e: Event) {
    match c
    case Acked(p) =>
      && after == Toggle.OnAck(before, p)
      && e == if p in before.sockets then ChannelClosed(p) else NewSocket(p, before.chans)
    case Denied(text) => after == before && e == Error(text)
    case Short => after == before && e == Nothing
  }

  /** The globals of the package and the locals of runListenLoop. */
  class Receiver {
    const pool: Pool
    var buf: array<byte>
    var sockets: map<uint16, nat>
    var listening: set<uint16>
    var chans: nat
    ghost var conns: set<Conn>

    constructor (pool: Pool)
      requires pool.Valid()
      modifies pool`free
      ensures Valid() && this.pool == pool && sockets == map[] && listening == {} && conns == {}
    {
      this.pool := pool;
      sockets, listening, chans, conns := map[], {}, 0, {};
      buf := new byte[0];
      new;
      buf := pool.Get();
    }

    ghost function Table(): Toggle.Table
      reads this
    {
      Toggle.Table(sockets, listening, chans)
    }

    /** Each buffer has one owner: the pool, this loop, or one connection. All that no
        connection holds are zero. */
    ghost predicate Valid()
      reads this, buf, pool, pool.free, conns, set c: Conn | c in conns :: c.inner, set c: Conn | c in conns && c.buf != null :: c.buf
    {
      && pool.Valid()
      && buf !in pool.free && buf.Length == pool.size && AllZero(buf[..])
      && (forall c :: c in conns ==> c.pool == pool && c.Valid() && c.buf != buf)
      && (forall c, d :: c in conns && d in conns && c != d ==> c.inner != d.inner && (c.buf == null || c.buf != d.buf))
    }

    /** A message with no connection beside it: an acknowledgement, or an error text. */
    method Control(n: nat) returns (e: Event)
      requires n <= buf.Length
      modifies this`sockets, this`listening, this`chans
      ensures Handled(Toggle.ReadControl(buf[..n]), old(Table()), Table(), e)
    {
      e := Nothing;
      if n == 2 {
        var p := Toggle.Decode(buf[..2]);
        if p in sockets {
          sockets, listening := sockets - {p}, listening - {p};
          e := ChannelClosed(p);
        } else {
          listening := listening + {p};
          sockets := sockets[p := chans];
          e := NewSocket(p, chans);
          chans := chans + 1;
        }
      } else if n > 2 {
        e := Error(buf[..n][2..]);
      }
    }

    /** The buffer becomes the new connection's, and the loop takes another. */
    method Adopt(n: nat, inner: Stream) returns (c: Conn)
      requires pool.Valid() && buf !in pool.free && n <= buf.Length == pool.size && AllZero(buf[n..])
      requires inner.Valid() && forall d :: d in conns ==> d.pool == pool && d.Valid() && d.buf != buf && d.inner != inner
      requires forall d, e :: d in conns && e in conns && d != e ==> d.inner != e.inner && (d.buf == null || d.buf != e.buf)
      modifies this`buf, this`conns, pool`free
      ensures Valid() && fresh(c) && conns == old(conns) + {c} && c.buf == old(buf)
      ensures c.inner == inner && c.Valid() && c.Contents() == old(buf[..n]) + inner.Rest() && (n > 0 ==> c.Waiting())
    {
      c := new Conn(inner, pool, buf, n);
      buf := pool.Get();
      conns := conns + {c};
    }

    /** One message of the loop: its bytes, and the connection that came beside them, if any,
        with the local port of that connection. */
    method Message(data: seq<byte>, rights: Option<Stream>, port: uint16) returns (e: Event)
      requires Valid() && |data| <= pool.size
      requires rights.Some? ==> rights.value.Valid() && forall c :: c in conns ==> c.inner != rights.value
      modifies this, buf, pool`free
      ensures Valid()
      ensures rights.None? ==> Handled(Toggle.ReadControl(data), old(Table()), Table(), e)
      ensures rights.Some? ==> Table() == old(Table())
      ensures rights.Some? && port !in sockets ==> e == Nothing
      ensures rights.Some? && port in sockets ==>
        && e.Queued? && e.chan == sockets[port] && fresh(e.conn) && conns == old(conns) + {e.conn}
        && e.conn.buf == old(buf) && (|data| > 0 ==> e.conn.Waiting())
        && e.conn.inner == rights.value && e.conn.pool == pool && e.conn.Valid() && e.conn.Contents() == data + rights.value.Rest()
      ensures !e.Queued? ==> conns == old(conns)
    {
      var n := |data|;
      forall i | 0 <= i < n {
        buf[i] := data[i];
      }
      assert AllZero(buf[n..]) && buf[..n] == data;
      if rights.Some? && port in sockets {
        var c := Adopt(n, rights.value);
        return Queued(sockets[port], c);
      }
      if rights.None? {
        e := Control(n);
      } else {
        e := Nothing;
      }
      Clear(buf, n);
    }

    /** A connection reads; every other connection keeps what it holds. */
    method ConnRead(c: Conn, b: array<byte>) returns (n: nat, failed: bool)
      requires Valid() && c in conns && b != buf && b !in pool.free && forall d :: d in conns ==> d.buf != b
      modifies c`buf, c`pos, c.inner`pos, c.inner`last, c.inner`fails, b, c.buf, pool`free
      ensures Valid() && n <= b.Length && old(c.Contents()) == b[..n] + c.Contents()
      ensures c.inner.fails == if failed then old(c.inner.fails) + [c.inner.last] else old(c.inner.fails)
      ensures b.Length > 0 && !failed && old(c.Waiting()) ==> n > 0
      ensures old(c.Waiting()) ==> c.Waiting()
      ensures forall d :: d in conns && d != c ==> d.Valid() && d.Contents() == old(d.Contents())
    {
      n, failed := c.Read(b);
    }

    method ConnClose(c: Conn)
      requires Valid() && c in conns
      modifies c`buf, c.buf, pool`free
      ensures Valid() && c.buf == null
      ensures forall d :: d in conns && d != c ==> d.Valid() && d.Contents() == old(d.Contents())
    {
      c.Close();
    }
  }
}
