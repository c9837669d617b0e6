/** The Forwarded header that cmd/httpsproxy inserts (section 4 of RFC 7239). */
module Forwarded {
  import opened Bytes
  import opened Pools
  import opened Streams
  import EndToEnd

  const FORWARD: seq<byte> := [13, 10, 70, 111, 114, 119, 97, 114, 100, 101, 100, 58, 32, 102, 111, 114, 61]

  /** The stream with the header line put before its first line end. */
  function Insert(s: seq<byte>, addr: seq<byte>): seq<byte>
    requires Index(s, EOL) >= 0
  {
    s[..Index(s, EOL)] + FORWARD + addr + s[Index(s, EOL)..]
  }

  /** Taking `k` bytes out at the first line end. */
  function Remove(t: seq<byte>, k: nat): seq<byte>
    requires Index(t, EOL) >= 0 && Index(t, EOL) + k <= |t|
  {
    t[..Index(t, EOL)] + t[Index(t, EOL) + k..]
  }

  /** The first line end of the result is where the header begins, and taking the header out
      there gives the stream back. */
  lemma InsertThenRemove(s: seq<byte>, addr: seq<byte>)
    requires Index(s, EOL) >= 0
    ensures var t, k := Insert(s, addr), |FORWARD| + |addr|;
      && Index(t, EOL) == Index(s, EOL) && |t| == |s| + k && Remove(t, k) == s
  {
    var t, l := Insert(s, addr), Index(s, EOL);
    IndexIsFirst(s, EOL, l);
    assert t[l..l + 2] == EOL;
    forall j | 0 <= j < l ensures !At(t, EOL, j) {
      assert s[l..l + 2][0] == 13;
      assert j + 1 < l ==> t[j..j + 2] == s[j..j + 2];
      assert j + 1 == l ==> t[j..j + 2][1] == 13;
      assert !At(s, EOL, j);
    }
    IndexIsFirst(t, EOL, l);
  }

  /** What stands between the first line and its end, in characters. */
  lemma HeaderText(s: seq<byte>, addr: seq<byte>)
    requires Index(s, EOL) >= 0
    ensures Insert(s, addr) == s[..Index(s, EOL)] + Ascii("\r\nForwarded: for=") + addr + s[Index(s, EOL)..]
    ensures EOL == Ascii("\r\n")
  {
    assert FORWARD == Ascii("\r\nForwarded: for=");
  }

  /** The first line end of what has been read is the first of the whole stream, so the pieces
      written and the rest of the stream make up the stream with the header in it. */
  lemma Assembled(s: seq<byte>, n: nat, l: nat, addr: seq<byte>)
    requires n <= |s| && Index(s[..n], EOL) == l
    ensures Index(s, EOL) == l <= n && s[..n][..l] + FORWARD + addr + s[..n][l..] + s[n..] == Insert(s, addr)
  {
    IndexStable(s[..n], s[n..], EOL);
    assert s[..n] + s[n..] == s;
    assert s[l..] == s[..n][l..] + s[n..];
  }

  /** `a` is what is left of `b` when some bytes are taken out. */
  ghost predicate Left(a: seq<byte>, b: seq<byte>)
    decreases |b|
  {
    |a| == 0 || (|b| > 0 && ((a[0] == b[0] && Left(a[1..], b[1..])) || Left(a, b[1..])))
  }

  lemma {:induction false} LeftPrefix(b: seq<byte>, k: nat)
    requires k <= |b|
    ensures Left(b[..k], b)
    decreases k
  {
    if k > 0 {
      LeftPrefix(b[1..], k - 1);
      assert b[..k][1..] == b[1..][..k - 1];
    }
  }

  lemma {:induction false} LeftJoins(a: seq<byte>, b: seq<byte>, c: seq<byte>, d: seq<byte>)
    requires Left(a, b) && Left(c, d)
    ensures Left(a + c, b + d)
    decreases |b|
  {
    if |b| == 0 {
      assert a + c == c && b + d == d;
    } else {
      assert (b + d)[1..] == b[1..] + d;
      if |a| > 0 && a[0] == b[0] && Left(a[1..], b[1..]) {
        LeftJoins(a[1..], b[1..], c, d);
        assert (a + c)[1..] == a[1..] + c;
      } else {
        LeftJoins(a, b[1..], c, d);
      }
    }
  }

  lemma {:induction false} LeftAgain(a: seq<byte>, b: seq<byte>, c: seq<byte>)
    requires Left(a, b) && Left(b, c)
    ensures Left(a, c)
    decreases |c|
  {
    if |a| > 0 && |b| > 0 {
      if b[0] == c[0] && Left(b[1..], c[1..]) {
        if a[0] == b[0] && Left(a[1..], b[1..]) {
          LeftAgain(a[1..], b[1..], c[1..]);
        } else {
          LeftAgain(a, b[1..], c[1..]);
        }
      } else {
        LeftAgain(a, b, c[1..]);
      }
    }
  }

  /** The part of the stream that fits a buffer of `cap` bytes has a line end. */
  ghost predicate LineFits(s: seq<byte>, cap: nat) {
    Index(s[..if |s| < cap then |s| else cap], EOL) >= 0
  }

  /** What becomes of a connection: `GaveUp` when a read fails before a line end, `Hung` when a full
      buffer has none and is read into for ever. */
  datatype Outcome = Copied | NotDialled | GaveUp | Hung

  /** The reading loop: until what was read of stream `s` has a line end. The last read is the one
      that completes it: what was there before has none. */
  method ReadLine(c: Stream, buf: array<byte>, ghost s: seq<byte>) returns (r: Outcome, k: nat, l: int)
    requires c.Valid() && s == c.Rest()
    modifies c`pos, c`last, c`fails, buf
    ensures c.Valid() && k <= buf.Length && c.pos == old(c.pos) + k && Holds(s, k, buf[..], old(buf[..]), c.Rest())
    ensures l == Index(s[..k], EOL) && r.Copied? == (l >= 0) && !r.NotDialled?
    ensures old(c.pos) <= c.last <= c.pos && Index(s[..c.last - old(c.pos)], EOL) == -1
    ensures c.fails == old(c.fails) || c.fails == old(c.fails) + [c.last]
    ensures r.GaveUp? ==> c.fails == old(c.fails) + [c.last]
    ensures r.Hung? ==> k == buf.Length
  {
    k, l := 0, -1;
    ghost var was := buf[..];
    while true
      invariant c.Valid() && c.fails == old(c.fails) && k <= buf.Length && Holds(s, k, buf[..], was, c.Rest())
      invariant c.pos == old(c.pos) + k && l == Index(s[..k], EOL) == -1
      decreases buf.Length - k
    {
      ghost var seen := buf[..];
      var m, failed := c.Read(buf, k, buf.Length);
      Received(s, seen, buf[..], was, k, m);
      k := k + m;
      assert buf[..k] == s[..k];
      l := Index(buf[..k], EOL);
      if l >= 0 {
        return Copied, k, l;
      }
      if failed || m == 0 {
        return if failed then GaveUp else Hung, k, l;
      }
    }
  }

  /** Four writes, whose errors nobody looks at. */
  method WriteParts(w: Sink, a: seq<byte>, b: seq<byte>, c: seq<byte>, d: seq<byte>) returns (ghost t: seq<byte>)
    modifies w
    ensures w.fails >= old(w.fails)
    ensures w.fails == old(w.fails) ==> t == a + b + c + d
    ensures w.written == old(w.written) + t && Left(t, a + b + c + d)
  {
    var i, _ := w.Write(a);
    var j, _ := w.Write(b);
    var k, _ := w.Write(c);
    var l, _ := w.Write(d);
    LeftPrefix(a, i);
    LeftPrefix(b, j);
    LeftPrefix(c, k);
    LeftPrefix(d, l);
    LeftJoins(a[..i], a, b[..j], b);
    LeftJoins(a[..i] + b[..j], a + b, c[..k], c);
    LeftJoins(a[..i] + b[..j] + c[..k], a + b + c, d[..l], d);
    t := a[..i] + b[..j] + c[..k] + d[..l];
  }

  /** What proxyConn writes before it starts to copy. */
  method InsertHeader(c: Stream, w: Sink, buf: array<byte>, addr: seq<byte>) returns (r: Outcome)
    requires c.Valid() && AllZero(buf[..]) && w.written == []
    modifies c`pos, c`last, c`fails, w, buf
    ensures c.Valid() && w.fails >= old(w.fails) && !r.NotDialled?
    ensures var s := old(c.Rest());
      && old(c.pos) <= c.last <= c.pos && Index(s[..c.last - old(c.pos)], EOL) == -1
      && match r
         case Copied =>
           && AllZero(buf[..]) && LineFits(s, buf.Length) && Index(s, EOL) >= 0
           && (w.fails == old(w.fails) ==> w.written + c.Rest() == Insert(s, addr))
           && Left(w.written + c.Rest(), Insert(s, addr))
         case GaveUp => w.written == [] && c.fails == old(c.fails) + [c.last] && Index(s[..c.pos - old(c.pos)], EOL) == -1
         case Hung => |s| >= buf.Length && !LineFits(s, buf.Length) && w.written == []
         case NotDialled => false
  {
    ghost var s, was := c.Rest(), buf[..];
    var k, l;
    r, k, l := ReadLine(c, buf, s);
    if !r.Copied? {
      return;
    }
    Assembled(s, k, l, addr);
    LineKept(s, k, buf.Length);
    assert buf[..l] == s[..k][..l] && buf[l..k] == s[..k][l..];
    var t := WriteParts(w, buf[..l], FORWARD, addr, buf[l..k]);
    assert w.written == t;
    LeftPrefix(c.Rest(), |c.Rest()|);
    assert c.Rest()[..|c.Rest()|] == c.Rest();
    LeftJoins(w.written, buf[..l] + FORWARD + addr + buf[l..k], c.Rest(), c.Rest());
    assert AllZero(was[k..]);
    Clear(buf, k);
  }

  lemma LineKept(s: seq<byte>, k: nat, cap: nat)
    requires k <= |s| && k <= cap && Index(s[..k], EOL) >= 0
    ensures LineFits(s, cap)
  {
    var fits := s[..if |s| < cap then |s| else cap];
    assert fits == s[..k] + fits[k..];
    IndexStable(s[..k], fits[k..], EOL);
  }

  /** proxyConn with the header switched on. However the reads fall, the backend gets the client's
      stream with the header in it, up to a read that fails; it gets nothing only if a read fails
      before the first line end has come, or the buffer is full without one. If a write fails it may
      miss some of that, but gets nothing else and nothing out of order. The buffer goes back zeroed,
      or, when the connection came to nothing, not at all. */
  method ProxyConn(c: Stream, pool: Pool, addr: seq<byte>, dialled: bool) returns (w: Sink?, r: Outcome)
    requires c.Valid() && pool.Valid()
    modifies c`pos, c`last, c`fails, pool`free, pool.free
    ensures c.Valid() && pool.Valid() && (w == null <==> !dialled) && (r.NotDialled? <==> !dialled)
    ensures w != null ==> fresh(w)
    ensures var s := old(c.Rest());
      match r
      case Copied =>
        && LineFits(s, pool.size) && Index(s, EOL) >= 0 && Left(w.written, Insert(s, addr))
        && (w.fails == 0 ==> w.written + c.Rest() == Insert(s, addr) && c.fails != [] && c.fails[|c.fails| - 1] == c.last)
      case GaveUp =>
        && w.written == [] && old(c.pos) <= c.pos && c.fails == old(c.fails) + [c.last] && Index(s[..c.pos - old(c.pos)], EOL) == -1
      case Hung => |s| >= pool.size && !LineFits(s, pool.size) && w.written == []
      case NotDialled => c.pos == old(c.pos)
  {
    if !dialled {
      return null, NotDialled;
    }
    ghost var s := c.Rest();
    w := new Sink();
    var buf := pool.Get();
    r := InsertHeader(c, w, buf, addr);
    if r.Copied? {
      pool.Put(buf);
      ghost var head, rest := w.written, c.Rest();
      EndToEnd.CopyConn(c, w);
      LeftPrefix(head + rest, |w.written|);
      assert (head + rest)[..|w.written|] == w.written;
      LeftAgain(w.written, head + rest, Insert(s, addr));
    }
  }
}
