/** From an accepted connection to the service that gets it: listener.transfer of proxy.go, and
    the two kinds of Transfer. */
module Forward {
  import opened Bytes
  import opened Dispatch
  import opened Pools
  import opened Registry
  import opened Streams
  import Http
  import Tls

  const HTTP_BUFFER: nat := 0x10_0000
  const TLS_BUFFER: nat := 5 + 0x1_0000
  const HANDSHAKE: byte := 22

  /** What a client's stream calls for: a name to look up, a refusal, or more than it has. An HTTP
      header may also overflow the buffer without a decision, and a record make the TLS reader
      slice out of range. */
  datatype Demand = Incomplete | Ask(name: seq<byte>) | Refuse | Overflow | OutOfBounds

  /** From all the bytes a client ever sends. */
  ghost function Demands(data: seq<byte>): Demand {
    if |data| == 0 then Incomplete
    else if data[0] == HANDSHAKE then
      if |data| < 5 || |data| < 5 + Tls.U16(data[3..]) then Incomplete
      else
        match Tls.ParseBody(data[5..5 + Tls.U16(data[3..])])
        case Name(name) => Ask(name)
        case OutOfRange => OutOfBounds
        case _ => Refuse
    else
      var fits := data[..if |data| < HTTP_BUFFER then |data| else HTTP_BUFFER];
      match Http.Scan(fits)
      case Found(h, l) => Ask(data[h..][..l])
      case NoHeader => Refuse
      case Undecided => if |data| < HTTP_BUFFER then Incomplete else Overflow
  }

  /** A request with a Host line after its first line asks for what stands on that line, exactly
      if the line and its end lie within the buffer; otherwise the buffer overflows. */
  lemma HostRequested(line: seq<byte>, name: seq<byte>, more: seq<byte>)
    requires |line| > 0 && line[0] != HANDSHAKE
    requires var s := line + Http.HOST + name + EOL + more;
      && (forall j :: 0 <= j < |line| ==> !At(s, Http.HOST, j))
      && (forall j :: 0 <= j < |line| + |Http.HOST| ==> !At(s, Http.EOH, j))
      && (forall j :: |line| + |Http.HOST| <= j < |line| + |Http.HOST| + |name| ==> !At(s, EOL, j))
    ensures Demands(line + Http.HOST + name + EOL + more) ==
      if |line + Http.HOST + name + EOL| <= HTTP_BUFFER then Ask(name) else Overflow
  {
    var s := line + Http.HOST + name + EOL + more;
    var h, l := |line| + |Http.HOST|, |name|;
    HostSpan(line, name, more);
    hide Http.NameSpan, Http.Scan, At;
    Http.FoundMeaning(s, h, l);
    assert s[h..][..l] == name;
    var fits := s[..if |s| < HTTP_BUFFER then |s| else HTTP_BUFFER];
    assert fits + s[|fits|..] == s;
    if !Http.Scan(fits).Undecided? {
      Http.ScanStable(fits, s[|fits|..]);
    } else if h + l + 2 <= |fits| {
      SpanInPrefix(s, |fits|, h, l);
      Http.FoundMeaning(fits, h, l);
    }
  }

  lemma HostSpan(line: seq<byte>, name: seq<byte>, more: seq<byte>)
    requires var s := line + Http.HOST + name + EOL + more;
      && |line| > 0
      && (forall j :: 0 <= j < |line| ==> !At(s, Http.HOST, j))
      && (forall j :: 0 <= j < |line| + |Http.HOST| ==> !At(s, Http.EOH, j))
      && (forall j :: |line| + |Http.HOST| <= j < |line| + |Http.HOST| + |name| ==> !At(s, EOL, j))
    ensures Http.NameSpan(line + Http.HOST + name + EOL + more, |line| + |Http.HOST|, |name|)
  {
    var s := line + Http.HOST + name + EOL + more;
    var h, l := |line| + |Http.HOST|, |name|;
    assert s[|line|..h] == Http.HOST && s[h + l..h + l + 2] == EOL;
  }

  lemma SpanInPrefix(s: seq<byte>, k: nat, h: nat, l: nat)
    requires k <= |s| && h + l + 2 <= k && Http.NameSpan(s, h, l)
    ensures Http.NameSpan(s[..k], h, l)
  {
    assert s[..k] + s[k..] == s;
    forall p: seq<byte>, j | 0 <= j && j + |p| <= k ensures At(s[..k], p, j) == At(s, p, j) { AtExtends(s[..k], s[k..], p, j); }
  }

  /** A ClientHello in one record asks for the first name of its first server_name extension. */
  lemma HelloRequested(h: Tls.Hello, major: byte, minor: byte, more: seq<byte>)
    requires Tls.HelloOk(h) && 34 + |Tls.WriteFields(h)| < 0x1_0000 - 4
    requires h.exts.Some? && Tls.Wanted(h.exts.value).Name?
    ensures var b := Tls.WriteBody(h);
      Demands([22, major, minor] + Tls.Put16(|b|) + b + more) == Ask(Tls.Wanted(h.exts.value).name)
  {
    Tls.RecordAnswered(h, [HANDSHAKE, major, minor], more);
  }

  /** Exactly which streams take the TLS reader out of range. */
  lemma OutOfBoundsMeaning(data: seq<byte>)
    ensures Demands(data).OutOfBounds? <==>
      && |data| >= 5 && data[0] == HANDSHAKE && |data| >= 5 + Tls.U16(data[3..])
      && var b := data[5..5 + Tls.U16(data[3..])];
      && Tls.U8(b) == 1 && Tls.U24(Tls.Drop(b, 1)) == (|b| + 0x1_0000_0000 - 4) % 0x1_0000_0000
      && (|b| < 38 || (Tls.FieldsOk(b) && exists xs :: Tls.BreaksOff(Tls.BlockOf(b), xs)))
  {
    if |data| >= 5 && |data| >= 5 + Tls.U16(data[3..]) {
      Tls.BodyRange(data[5..5 + Tls.U16(data[3..])]);
    }
  }

  /** A TLS record, whose first byte is 22 and whose length is its fourth and fifth, with a ClientHello
      that names `n`. */
  ghost predicate HelloNames(data: seq<byte>, n: seq<byte>) {
    && |data| >= 5 && data[0] == 22
    && var length := 256 * (data[3] as int) + data[4] as int;
    && |data| >= 5 + length
    && var b := data[5..5 + length];
    && Tls.HeadOk(b) && Tls.FieldsOk(b)
    && exists xs, t, k, kind, rest :: Tls.NamedBy(Tls.BlockOf(b), n, xs, t, k, kind, rest)
  }

  /** An HTTP header that has `n` on its Host line, within the first 2^20 bytes. */
  ghost predicate HostLineNames(data: seq<byte>, n: seq<byte>) {
    && |data| > 0 && data[0] != 22
    && var fits := data[..if |data| < 1048576 then |data| else 1048576];
    exists h: nat, l: nat :: SpanNames(fits, n, h, l)
  }

  ghost predicate SpanNames(s: seq<byte>, n: seq<byte>, h: nat, l: nat) {
    h + l <= |s| && Http.NameSpan(s, h, l) && n == s[h..h + l]
  }

  lemma HeaderAsks(data: seq<byte>, n: seq<byte>)
    requires |data| > 0 && data[0] != 22
    ensures Demands(data) == Ask(n) <==> HostLineNames(data, n)
  {
    var fits := data[..if |data| < 1048576 then |data| else 1048576];
    if HostLineNames(data, n) {
      var h: nat, l: nat :| SpanNames(fits, n, h, l);
      assert SpanNames(fits, n, h, l) && h + l <= |fits|;
      Http.FoundMeaning(fits, h, l);
      assert data[h..][..l] == fits[h..h + l];
    }
    if Demands(data) == Ask(n) {
      assert Http.Scan(fits).Found?;
      var v := Http.Scan(fits);
      Http.FoundMeaning(fits, v.h, v.l);
      assert data[v.h..][..v.l] == fits[v.h..v.h + v.l];
      assert SpanNames(fits, n, v.h, v.l);
      assert HostLineNames(data, n);
    }
  }

  lemma RecordAsks(data: seq<byte>, n: seq<byte>)
    requires |data| > 0 && data[0] == 22
    ensures Demands(data) == Ask(n) <==> HelloNames(data, n)
  {
    if |data| >= 5 {
      var length := 256 * (data[3] as int) + data[4] as int;
      assert Tls.U16(data[3..]) == length;
      if |data| >= 5 + length { Tls.BodyNamed(data[5..5 + length], n); }
    }
  }

  /** Exactly which streams ask for the name `n`, said without reference to the readers. */
  lemma AskedExactly(data: seq<byte>, n: seq<byte>)
    ensures Demands(data) == Ask(n) <==> HelloNames(data, n) || HostLineNames(data, n)
  {
    if |data| > 0 && data[0] == 22 {
      RecordAsks(data, n);
    } else if |data| > 0 {
      HeaderAsks(data, n);
    }
  }

  /** Exactly which HTTP streams are refused: there is a blank line within the first 2^20 bytes and no
      name before it. */
  lemma RefusedExactly(data: seq<byte>)
    requires |data| > 0 && data[0] != 22
    ensures Demands(data).Refuse? <==>
      var fits := data[..if |data| < 1048576 then |data| else 1048576];
      (exists e :: At(fits, Http.EOH, e)) && forall h, l :: !Http.NameSpan(fits, h, l)
  {
    var fits := data[..if |data| < HTTP_BUFFER then |data| else HTTP_BUFFER];
    Http.NoHeaderMeaning(fits);
    IndexIsFirst(fits, Http.EOH, Index(fits, Http.EOH));
  }

  /** The patterns of both scanners, in characters. */
  lemma PatternsMeaning()
    ensures EOL == Ascii("\r\n") && Http.EOH == Ascii("\r\n\r\n") && Http.HOST == Ascii("\r\nHost: ")
  {
  }

  /** A plain host is looked up alike whether it comes with a port or without one, in a Host line
      or in a server_name extension: the choice is made on Host(name) alone. */
  lemma SelectsAlike(m: Matcher, name: seq<byte>, port: seq<byte>, http: seq<byte>, withPort: seq<byte>, tls: seq<byte>)
    requires Plain(name) && Plain(port)
    requires Demands(http) == Ask(name) && Demands(withPort) == Ask(name + [COLON] + port) && Demands(tls) == Ask(name)
    ensures MatchService(m, Host(Demands(http).name)) == MatchService(m, Host(Demands(withPort).name))
    ensures MatchService(m, Host(Demands(http).name)) == MatchService(m, Host(Demands(tls).name)) == MatchService(m, name)
  {
    PortDoesNotMatter(name, port);
  }

  /** What one accepted connection comes to. `Hung` is the HTTP loop on a full buffer, which is
      never given back; `OutOfRange` is the TLS reader's slice, which ends the process. */
  datatype Passed = Chosen(port: Port, prefix: seq<byte>) | Unmatched | Closed | Hung | OutOfRange

  lemma RecordStable(data: seq<byte>, k: nat)
    requires k <= |data| && !Demands(data[..k]).Incomplete? && data[0] == HANDSHAKE
    ensures Demands(data) == Demands(data[..k])
  {
    var pre := data[..k];
    assert pre[3..][0] == data[3..][0] && pre[3..][1] == data[3..][1];
    assert Tls.U16(data[3..]) == Tls.U16(pre[3..]);
    var n := Tls.U16(pre[3..]);
    assert pre[5..5 + n] == data[5..5 + n];
  }

  lemma HeaderStable(data: seq<byte>, k: nat)
    requires k <= |data| && !Demands(data[..k]).Incomplete? && data[0] != HANDSHAKE
    ensures Demands(data) == Demands(data[..k])
  {
    var pre := data[..k];
    var fits := data[..if |data| < HTTP_BUFFER then |data| else HTTP_BUFFER];
    var was := pre[..if k < HTTP_BUFFER then k else HTTP_BUFFER];
    assert was + fits[|was|..] == fits;
    hide Http.Scan;
    if !Http.Scan(was).Undecided? { Http.ScanStable(was, fits[|was|..]); }
    if Http.Scan(was).Found? {
      var v := Http.Scan(was);
      assert pre[v.h..][..v.l] == data[v.h..][..v.l];
    } else if Http.Scan(was).Undecided? {
      assert was == fits;
    }
  }

  /** What has been decided stays decided, whatever is sent after it. */
  lemma DemandStable(data: seq<byte>, k: nat)
    requires k <= |data| && !Demands(data[..k]).Incomplete?
    ensures Demands(data) == Demands(data[..k])
  {
    if data[0] == HANDSHAKE { RecordStable(data, k); } else { HeaderStable(data, k); }
  }

  /** What becomes of a connection that listener `l` accepted and that sends `data`: `fails` is where
      the reads that failed began, and `last` where the last read did. Whatever the answer, it is
      given by the read that completes it: what had been read before decided nothing. It is closed
      without a refusal only if that read failed. */
  ghost predicate Served(r: Listeners, l: Listener, data: seq<byte>, fails: seq<nat>, last: nat, p: Passed)
    reads r
  {
    var d := Demands(data);
    && (p.Hung? || (last <= |data| && Demands(data[..last]).Incomplete?))
    && match p
       case Chosen(port, _) => d.Ask? && r.Fits(l, port, Host(d.name))
       case Unmatched => d.Ask? && forall q :: q in r.live ==> !r.Fits(l, q, Host(d.name))
       case Closed => d.Refuse? || (fails != [] && fails[|fails| - 1] == last)
       case Hung => d.Overflow?
       case OutOfRange => d.OutOfBounds?
  }

  /** Port `q` alone may have the connection. */
  ghost predicate OnlyFit(r: Listeners, l: Listener, data: seq<byte>, q: Port)
    reads r
  {
    var d := Demands(data);
    d.Ask? && r.Fits(l, q, Host(d.name)) && forall o :: o in r.live && r.Fits(l, o, Host(d.name)) ==> o == q
  }

  /** The stream and the registry settle what becomes of the connection: a service is chosen exactly
      when a name is asked for that some open Port of the listener accepts; one that alone accepts it
      is the one; and the connection is closed exactly when it is refused. */
  ghost predicate Settled(r: Listeners, l: Listener, data: seq<byte>, p: Passed)
    reads r
  {
    var d := Demands(data);
    && !d.Incomplete?
    && (p.Chosen? <==> d.Ask? && exists q :: q in r.live && r.Fits(l, q, Host(d.name)))
    && (p.Unmatched? <==> d.Ask? && forall q :: q in r.live ==> !r.Fits(l, q, Host(d.name)))
    && (p.Closed? <==> d.Refuse?) && (p.Hung? <==> d.Overflow?) && (p.OutOfRange? <==> d.OutOfBounds?)
    && forall q :: q in r.live && OnlyFit(r, l, data, q) ==> p.Chosen? && p.port == q
  }

  /** No read failed that began before the stream had decided. */
  ghost predicate NoneEarly(data: seq<byte>, fails: seq<nat>) {
    forall x :: x in fails && x <= |data| ==> !Demands(data[..x]).Incomplete?
  }

  /** So it is settled, unless a read failed too early. */
  lemma ServedExactly(r: Listeners, l: Listener, data: seq<byte>, fails: seq<nat>, last: nat, p: Passed)
    requires Served(r, l, data, fails, last, p) && NoneEarly(data, fails)
    ensures Settled(r, l, data, p)
  {
    assert fails != [] ==> fails[|fails| - 1] in fails;
  }

  /** If the first `k` bytes ask for a name, and no read fails that begins before they have come, the
      connection is served: whatever follows them and whatever fails later. */
  lemma ServedInTime(r: Listeners, l: Listener, data: seq<byte>, fails: seq<nat>, last: nat, p: Passed, k: nat)
    requires Served(r, l, data, fails, last, p) && k <= |data|
    requires Demands(data[..k]).Ask? && forall x :: x in fails ==> k <= x
    ensures var name := Host(Demands(data[..k]).name);
      && (p.Chosen? <==> exists q :: q in r.live && r.Fits(l, q, name))
      && (p.Unmatched? <==> forall q :: q in r.live ==> !r.Fits(l, q, name))
  {
    DemandStable(data, k);
    forall x | x in fails && x <= |data| ensures !Demands(data[..x]).Incomplete? {
      assert data[..x][..k] == data[..k];
      DemandStable(data[..x], k);
    }
    ServedExactly(r, l, data, fails, last, p);
  }

  /** What the name reader leaves: the name and how many bytes it came out of, or how it failed. */
  datatype Named = Name(name: seq<byte>, used: nat) | Failed | Stuck | Broken

  /** What the name reader's result says of the stream. */
  ghost predicate Reads(data: seq<byte>, fails: seq<nat>, last: nat, r: Named) {
    && (r.Stuck? || (last <= |data| && Demands(data[..last]).Incomplete?))
    && match r
       case Name(name, _) => Demands(data) == Ask(name)
       case Failed => Demands(data).Refuse? || (fails != [] && fails[|fails| - 1] == last)
       case Stuck => Demands(data).Overflow?
       case Broken => Demands(data).OutOfBounds?
  }

  /** Reads the name with the reader that the first byte calls for. */
  method ReadName(c: Stream, buf: array<byte>, tls: bool) returns (r: Named, ghost n: nat)
    requires c.Valid() && |c.data| > 0 && c.pos == 1 && buf.Length > 0 && buf[0] == c.data[0]
    requires tls == (buf[0] == HANDSHAKE) && buf.Length == if tls then TLS_BUFFER else HTTP_BUFFER
    modifies c`pos, c`last, c`fails, buf
    ensures c.Valid() && n > 0 && Holds(c.data, n, buf[..], old(buf[..]), c.Rest())
    ensures Reads(c.data, c.fails, c.last, r) && (r.Name? ==> r.used == n)
  {
    hide Http.Scan, Http.Answers, Tls.ParseBody, Demands;
    assert [buf[0]] + c.Rest() == c.data;
    if tls {
      var o;
      o, n := Tls.ReadServerName(c, buf);
      r := match o
           case Read(Name(name), used) => Name(name, used)
           case Read(OutOfRange, _) => Broken
           case _ => Failed;
      RecordDemanded(o, c.data, c.fails, c.last, n, r);
    } else {
      var o;
      ghost var before;
      o, n, before := Http.ReadServerName(c, buf);
      r := match o
           case Name(name, used) => Name(name, used)
           case Stalled => Stuck
           case _ => Failed;
      AnswerDemanded(o, c.data, c.fails, c.last, n, r);
    }
  }

  /** The TLS reader's answer, as a demand. */
  lemma RecordDemanded(o: Tls.Outcome, data: seq<byte>, fails: seq<nat>, last: nat, n: nat, r: Named)
    requires |data| > 0 && data[0] == HANDSHAKE && n <= |data| && Tls.Unfinished(data, last)
    requires match o
      case ReadFailed => fails != [] && fails[|fails| - 1] == last
      case ShortBuffer => false
      case Read(answer, used) => used == n >= 5 && n == 5 + Tls.U16(data[3..]) && answer == Tls.ParseBody(data[5..n])
    requires r == match o
      case Read(Name(name), used) => Name(name, used)
      case Read(OutOfRange, _) => Broken
      case _ => Failed
    ensures Reads(data, fails, last, r)
  {
    var pre := data[..last];
    if last >= 5 {
      assert pre[3..][0] == data[3..][0] && pre[3..][1] == data[3..][1];
      assert Tls.U16(pre[3..]) == Tls.U16(data[3..]);
    }
  }

  /** The scanner's answer, as a demand. */
  lemma AnswerDemanded(o: Http.Outcome, data: seq<byte>, fails: seq<nat>, last: nat, n: nat, r: Named)
    requires |data| > 0 && data[0] != HANDSHAKE && 1 <= last && Http.Answers(o, data, n, last, HTTP_BUFFER)
    requires o.ReadFailed? ==> fails != [] && fails[|fails| - 1] == last
    requires r == match o
      case Name(name, used) => Name(name, used)
      case Stalled => Stuck
      case _ => Failed
    ensures n > 0 && Reads(data, fails, last, r) && (r.Name? ==> r.used == n)
  {
    if !o.ReadFailed? { Http.AnswerSettled(o, data, n, last, HTTP_BUFFER); }
    if last == HTTP_BUFFER { assert last == n; }
    assert data[..last][..last] == data[..last];
  }

  /** The one byte that tells TLS from HTTP. */
  method ReadFirst(c: Stream) returns (first: Option<byte>)
    requires c.Valid() && c.Unread()
    modifies c`pos, c`last, c`fails
    ensures c.Valid()
    ensures first.None? ==> c.fails == [0] && c.last == 0
    ensures first.Some? ==> c.pos == 1 && |c.data| > 0 && first.value == c.data[0]
  {
    var buf := new byte[1](_ => 0);
    var m, failed := ReadFull(c, buf, 0, 1);
    assert !failed ==> buf[0..1] == c.data[..1];
    return if failed then None else Some(buf[0]);
  }

  lemma ClosedUnread(r: Listeners, l: Listener, data: seq<byte>)
    ensures Served(r, l, data, [0], 0, Closed)
  {
  }

  /** A buffer of the pool's with the first byte in it. */
  method Begin(pool: Pool, first: byte) returns (buf: array<byte>)
    requires pool.Valid() && pool.size > 0
    modifies pool`free, pool.free
    ensures pool.Valid() && buf !in pool.free && buf.Length == pool.size && pool.free <= old(pool.free)
    ensures buf in old(pool.free) || fresh(buf)
    ensures buf[0] == first && AllZero(buf[1..])
  {
    buf := pool.Get();
    buf[0] := first;
  }

  /** What the reader gives back covers every byte it wrote. */
  lemma Covered(was: seq<byte>, now: seq<byte>, n: nat, wipe: nat)
    requires 0 < n <= |now| == |was| && AllZero(was[1..]) && now[n..] == was[n..] && (wipe == n || wipe == |now|)
    ensures AllZero(now[wipe..])
  {
    assert was[n..] == was[1..][n - 1..];
  }

  /** The proxy's own state that a transfer uses. */
  class Proxy {
    const registry: Listeners
    const httpPool: Pool
    const tlsPool: Pool
    var down: bool // a panic in any goroutine ends the process

    constructor (registry: Listeners)
      requires registry.Valid()
      ensures Valid() && this.registry == registry && !down
    {
      this.registry, down := registry, false;
      httpPool := new Pool(HTTP_BUFFER);
      tlsPool := new Pool(TLS_BUFFER);
    }

    ghost predicate Valid()
      reads this, registry, registry.cells, registry.all, httpPool, httpPool.free, tlsPool, tlsPool.free
    {
      && registry.Valid() && httpPool.Valid() && tlsPool.Valid()
      && httpPool != tlsPool && httpPool.free !! tlsPool.free
      && httpPool.size == HTTP_BUFFER && tlsPool.size == TLS_BUFFER
    }

    /** The transfer from the first byte on, with the pool that byte calls for. What the reader
        gives back covers every byte written, so that wiping it makes the buffer fit for the pool. */
    method Serve(l: Listener, c: Stream, pool: Pool, first: byte) returns (p: Passed)
      requires registry.Valid() && pool.Valid() && l in registry.cells
      requires c.Valid() && c.pos == 1 && |c.data| > 0 && first == c.data[0]
      requires pool.size == if first == HANDSHAKE then TLS_BUFFER else HTTP_BUFFER
      modifies c`pos, c`last, c`fails, pool`free, pool.free
      ensures pool.Valid() && c.Valid() && fresh(pool.free - old(pool.free))
      ensures Served(registry, l, c.data, c.fails, c.last, p)
      ensures p.Chosen? ==> p.prefix + c.Rest() == c.data && 0 < |p.prefix| <= HTTP_BUFFER
    {
      hide Listeners.Valid, Demands, Served, Reads, Pool.Valid, AllZero;
      var buf := Begin(pool, first);
      ghost var was := buf[..];
      var r;
      ghost var k;
      r, k := ReadName(c, buf, first == HANDSHAKE);
      var wipe;
      p, wipe := Decide(l, buf, r, c.data, c.fails, c.last);
      if p.Hung? || p.OutOfRange? {
        return;
      }
      Covered(was, buf[..], k, wipe);
      Clear(buf, wipe);
      pool.Put(buf);
    }

    /** What to do with what the name reader left, and how much of the buffer is to be wiped. */
    method Decide(l: Listener, buf: array<byte>, r: Named, ghost data: seq<byte>, ghost fails: seq<nat>, ghost last: nat)
      returns (p: Passed, wipe: nat)
      requires registry.Valid() && l in registry.cells && Reads(data, fails, last, r) && (r.Name? ==> r.used <= buf.Length)
      ensures Served(registry, l, data, fails, last, p)
      ensures wipe == if r.Name? then r.used else buf.Length
      ensures p.Chosen? ==> r.Name? && p.prefix == buf[..wipe]
    {
      wipe := if r.Name? then r.used else buf.Length;
      match r {
        case Stuck => p := Hung;
        case Broken => p := OutOfRange;
        case Failed => p := Closed;
        case Name(name, used) =>
          var port := registry.Pick(l, Host(name));
          p := match port
               case Some(q) => Chosen(q, buf[..used])
               case None => Unmatched;
      }
    }

    /** One connection accepted by listener `l`, which may have been closed while its name was
        read. The service gets exactly the bytes read so far, and the rest of the stream follows
        them; whichever way it ends, the pools hold only zeroed buffers. */
    method Transfer(l: Listener, c: Stream) returns (p: Passed)
      requires Valid() && !down && l in registry.cells && c.Valid() && c.Unread()
      modifies this`down, c`pos, c`last, c`fails, httpPool`free, tlsPool`free, httpPool.free, tlsPool.free
      ensures Valid() && c.Valid() && down == p.OutOfRange?
      ensures fresh(httpPool.free - old(httpPool.free)) && fresh(tlsPool.free - old(tlsPool.free))
      ensures Served(registry, l, c.data, c.fails, c.last, p)
      ensures p.Chosen? ==> p.prefix + c.Rest() == c.data && 0 < |p.prefix| <= HTTP_BUFFER
    {
      hide Listeners.Valid, Demands, MatchService, Host, Listeners.Fits, Served;
      var first := ReadFirst(c);
      if first.None? {
        ClosedUnread(registry, l, c.data);
        return Closed;
      }
      p := Serve(l, c, if first.value == HANDSHAKE then tlsPool else httpPool, first.value);
      down := p.OutOfRange?;
    }
  }
}
