/** The Host line scanner of http.go. */
module Http {
  import opened Bytes
  import opened Streams

  const EOH: seq<byte> := [13, 10, 13, 10]
  const HOST: seq<byte> := [13, 10, 72, 111, 115, 116, 58, 32]

  /** What the bytes read so far decide. `Found(h, l)`: the name is the `l` bytes from `h`. */
  datatype Verdict = Undecided | NoHeader | Found(h: nat, l: nat)

  /** The name stands after the first Host line that is not at the very start and comes before
      the first blank line, and it runs to the next line end. */
  function Scan(s: seq<byte>): (v: Verdict)
    ensures v.Found? ==> |HOST| < v.h <= v.h + v.l + |EOL| <= |s|
  {
    var h := Index(s, HOST);
    var e := Index(s, EOH);
    if h > 0 && (e > h || e == -1) then
      var l := Index(s[h + |HOST|..], EOL);
      if l >= 0 then Found(h + |HOST|, l) else Undecided
    else if e >= 0 then NoHeader
    else Undecided
  }

  lemma HostBytes(s: seq<byte>, h: int)
    requires At(s, HOST, h)
    ensures s[h] == 13 && s[h + 1] == 10 && s[h + 2] == 72 && s[h + 3] == 111
    ensures s[h + 4] == 115 && s[h + 5] == 116 && s[h + 6] == 58 && s[h + 7] == 32
  {
    var t := s[h..h + |HOST|];
    assert t[0] == 13 && t[1] == 10 && t[2] == 72 && t[3] == 111;
    assert t[4] == 115 && t[5] == 116 && t[6] == 58 && t[7] == 32;
  }

  lemma BlankBytes(s: seq<byte>, e: int)
    requires At(s, EOH, e)
    ensures s[e] == 13 && s[e + 1] == 10 && s[e + 2] == 13 && s[e + 3] == 10
  {
    var t := s[e..e + |EOH|];
    assert t[0] == 13 && t[1] == 10 && t[2] == 13 && t[3] == 10;
  }

  /** A blank line cannot begin just before a Host line so as to run into it, nor inside one. */
  lemma NoOverlap(s: seq<byte>, h: int, e: int)
    requires At(s, HOST, h) && At(s, EOH, e)
    ensures e + 2 <= h || h + |HOST| <= e
  {
    HostBytes(s, h);
    BlankBytes(s, e);
  }

  /** Bytes that arrive later never change a decision. */
  lemma ScanStable(s: seq<byte>, t: seq<byte>)
    requires !Scan(s).Undecided?
    ensures Scan(s + t) == Scan(s)
  {
    IndexStable(s, t, HOST);
    IndexStable(s, t, EOH);
    var h, e := Index(s, HOST), Index(s, EOH);
    var h', e' := Index(s + t, HOST), Index(s + t, EOH);
    IndexIsFirst(s + t, HOST, h');
    IndexIsFirst(s + t, EOH, e');
    if Scan(s).Found? {
      IndexStable(s[h + |HOST|..], t, EOL);
      assert (s + t)[h + |HOST|..] == s[h + |HOST|..] + t;
    } else if h == -1 && h' >= 0 {
      NoOverlap(s + t, h', e');
    }
  }

  /** A complete blank line always decides: a Host line before it has its line end by then. */
  lemma BlankLineDecides(s: seq<byte>)
    requires Index(s, EOH) >= 0
    ensures !Scan(s).Undecided?
  {
    var h, e := Index(s, HOST), Index(s, EOH);
    IndexIsFirst(s, HOST, h);
    IndexIsFirst(s, EOH, e);
    if h > 0 && e > h {
      NoOverlap(s, h, e);
      var tail := s[h + |HOST|..];
      var k := e - (h + |HOST|);
      assert tail[k..k + 2] == s[e..e + 4][..2] == EOL;
      assert At(tail, EOL, k);
      IndexIsFirst(tail, EOL, -1);
    }
  }

  /** The `l` bytes at `h` are the name, said without reference to the scanner: the first
      "\r\nHost: " ends at `h`, is not at the very start, no blank line begins before `h`, and
      the first line end from `h` on is at `h + l`. */
  ghost predicate NameSpan(s: seq<byte>, h: nat, l: nat) {
    && h > |HOST| && At(s, HOST, h - |HOST|) && At(s, EOL, h + l)
    && (forall j :: 0 <= j < h - |HOST| ==> !At(s, HOST, j))
    && (forall j :: 0 <= j < h ==> !At(s, EOH, j))
    && (forall j :: h <= j < h + l ==> !At(s, EOL, j))
  }

  lemma AtInTail(s: seq<byte>, p: seq<byte>, h: nat, j: int)
    requires h <= |s| && 0 <= j
    ensures At(s[h..], p, j) == At(s, p, h + j)
  {
    if h + j + |p| <= |s| {
      assert s[h..][j..j + |p|] == s[h + j..h + j + |p|];
    }
  }

  /** The scanner's decision is the declarative one, both ways. */
  lemma FoundMeaning(s: seq<byte>, h: nat, l: nat)
    ensures Scan(s) == Found(h, l) <==> NameSpan(s, h, l)
  {
    var h0, e := Index(s, HOST), Index(s, EOH);
    IndexIsFirst(s, HOST, h0);
    IndexIsFirst(s, EOH, e);
    IndexIsFirst(s, HOST, h - |HOST|);
    if h > |HOST| && h0 == h - |HOST| {
      forall j | 0 <= j ensures At(s[h..], EOL, j) == At(s, EOL, h + j) { AtInTail(s, EOL, h, j); }
      forall j | h <= j ensures At(s, EOL, j) == At(s[h..], EOL, j - h) { AtInTail(s, EOL, h, j - h); }
      IndexIsFirst(s[h..], EOL, l);
      if e >= 0 { NoOverlap(s, h0, e); }
    }
  }

  /** Refusal means a blank line came and no name stands before it. */
  lemma NoHeaderMeaning(s: seq<byte>)
    ensures Scan(s) == NoHeader <==> Index(s, EOH) >= 0 && forall h, l :: !NameSpan(s, h, l)
  {
    if Index(s, EOH) >= 0 { BlankLineDecides(s); }
    forall h, l ensures NameSpan(s, h, l) == (Scan(s) == Found(h, l)) { FoundMeaning(s, h, l); }
    if Scan(s).Found? { FoundMeaning(s, Scan(s).h, Scan(s).l); }
  }

  datatype Outcome =
    | Name(name: seq<byte>, used: nat)
    | NoServerHeader
    | ReadFailed
    | Stalled   // the buffer is full and undecided: the loop then reads nothing for ever

  /** One byte decides nothing: the scanner starts undecided. */
  lemma OneByteUndecided(s: seq<byte>)
    requires |s| == 1
    ensures Scan(s).Undecided? && Index(s, EOH) == -1
  {
    assert !At(s, HOST, 0) && !At(s, EOH, 0);
  }

  /** What an answer says of the client's whole stream `s`, when `n` bytes were read into a buffer
      of `cap` bytes and `before` of them were there when the last read began. */
  ghost predicate Answers(res: Outcome, s: seq<byte>, n: nat, before: nat, cap: nat) {
    && 1 <= before <= n <= |s| && n <= cap
    && Scan(s[..before]).Undecided? && Index(s[..before], EOH) == -1
    && match res
       case Name(name, used) =>
         && used == n && !Scan(s[..n]).Undecided?
         && Scan(s).Found? && name == s[Scan(s).h..][..Scan(s).l]
       case NoServerHeader => Scan(s) == NoHeader && !Scan(s[..n]).Undecided?
       case ReadFailed => Scan(s[..n]) != NoHeader && before < cap
       case Stalled => n == cap && Scan(s[..n]).Undecided?
  }

  /** One read of the scanning loop. */
  method ReadMore(r: Stream, buf: array<byte>, k: nat, ghost s: seq<byte>, ghost was: seq<byte>)
    returns (m: nat, failed: bool)
    requires r.Valid() && k <= buf.Length && Holds(s, k, buf[..], was, r.Rest())
    modifies r`pos, r`last, r`fails, buf
    ensures r.Valid() && k + m <= buf.Length && Holds(s, k + m, buf[..], was, r.Rest())
    ensures r.pos == old(r.pos) + m && r.last == old(r.pos)
    ensures r.fails == if failed then old(r.fails) + [old(r.pos)] else old(r.fails)
    ensures m == 0 && !failed ==> k == buf.Length
    ensures failed ==> k < buf.Length
  {
    ghost var seen := buf[..];
    m, failed := r.Read(buf, k, buf.Length);
    Received(s, seen, buf[..], was, k, m);
  }

  lemma NameIn(s: seq<byte>, now: seq<byte>, n: nat, h: nat, l: nat)
    requires h + l <= n <= |s| && n <= |now| && now[..n] == s[..n]
    ensures now[h..h + l] == s[h..][..l]
  {
    assert now[h..h + l] == now[..n][h..h + l];
  }

  /** The scanning loop. `s` below is all the client ever sends, starting with the byte already
      peeked into the buffer. The last read is the one that decides: what was there before it
      decided nothing and had no blank line. */
  method ReadServerName(r: Stream, buf: array<byte>) returns (res: Outcome, ghost n: nat, ghost before: nat)
    requires r.Valid() && buf.Length > 0
    modifies r`pos, r`last, r`fails, buf
    ensures r.Valid() && old(r.pos) <= r.last && before == 1 + (r.last - old(r.pos))
    ensures r.fails == old(r.fails) || (r.fails == old(r.fails) + [r.last] && (res.ReadFailed? || res.NoServerHeader?))
    ensures res.ReadFailed? ==> r.fails == old(r.fails) + [r.last]
    ensures var s := [old(buf[0])] + old(r.Rest());
      Answers(res, s, n, before, buf.Length) && Holds(s, n, buf[..], old(buf[..]), r.Rest())
  {
    hide Index, Answers;
    var k, h, l := 1, -1, -1;
    ghost var s := [buf[0]] + r.Rest();
    ghost var was := buf[..];
    n, before := 1, 1;
    OneByteUndecided(s[..1]);
    while l < 0
      invariant r.Valid() && 1 <= before <= n == k <= buf.Length && r.fails == old(r.fails)
      invariant r.pos == old(r.pos) + n - 1 && (l >= 0 ==> old(r.pos) <= r.last && before == 1 + (r.last - old(r.pos)))
      invariant Holds(s, n, buf[..], was, r.Rest())
      invariant Scan(s[..before]).Undecided?
      invariant if l < 0 then Scan(s[..n]).Undecided? else h >= 0 && Scan(s[..n]) == Found(h, l)
      decreases buf.Length - n, l < 0
    {
      before := n;
      var m, failed := ReadMore(r, buf, k, s, was);
      k := k + m;
      n := k;
      var got := buf[..k];
      assert got == s[..n];
      h := Index(got, HOST);
      var e := Index(got, EOH);
      if h > 0 && (e > h || e == -1) {
        h := h + |HOST|;
        l := Index(got[h..], EOL);
      } else if e >= 0 {
        Answered(NoServerHeader, s, n, before, buf.Length);
        return NoServerHeader, n, before;
      }
      if failed || m == 0 {
        res := if failed then ReadFailed else Stalled;
        Answered(res, s, n, before, buf.Length);
        return;
      }
    }
    NameIn(s, buf[..], n, h, l);
    res := Name(buf[h..h + l], k);
    Answered(res, s, n, before, buf.Length);
  }

  /** The answer for a prefix is the answer for the whole stream. */
  lemma Answered(res: Outcome, s: seq<byte>, n: nat, before: nat, cap: nat)
    requires 1 <= before <= n <= |s| && n <= cap && Scan(s[..before]).Undecided?
    requires match res
      case Name(name, used) => used == n && Scan(s[..n]).Found? && name == s[Scan(s[..n]).h..][..Scan(s[..n]).l]
      case NoServerHeader => Scan(s[..n]) == NoHeader
      case ReadFailed => Scan(s[..n]) != NoHeader && before < cap
      case Stalled => n == cap && Scan(s[..n]).Undecided?
    ensures Answers(res, s, n, before, cap)
  {
    Decided(s, before, n);
  }

  /** Unless a read failed, the answer is settled by the stream and the size of the buffer alone:
      it is what the scanner makes of the part of the stream that fits, and the loop stalls
      exactly when that part fills the buffer and decides nothing. */
  lemma AnswerSettled(res: Outcome, s: seq<byte>, n: nat, before: nat, cap: nat)
    requires Answers(res, s, n, before, cap) && !res.ReadFailed?
    ensures var fits := s[..if |s| < cap then |s| else cap];
      && (res.Name? <==> Scan(fits).Found?)
      && (res.NoServerHeader? <==> Scan(fits) == NoHeader)
      && (res.Stalled? <==> cap <= |s| && Scan(fits).Undecided?)
      && (Scan(fits).Found? ==> Scan(s) == Scan(fits))
  {
    hide Scan;
    var fits := s[..if |s| < cap then |s| else cap];
    assert fits[..n] == s[..n] && s[..n] + fits[n..] == fits && fits + s[|fits|..] == s;
    if !res.Stalled? { ScanStable(s[..n], fits[n..]); }
    if !Scan(fits).Undecided? { ScanStable(fits, s[|fits|..]); }
  }

  /** What a prefix decides is what the whole stream decides. */
  lemma Decided(s: seq<byte>, before: nat, n: nat)
    requires before <= n <= |s| && Scan(s[..before]).Undecided?
    ensures Index(s[..before], EOH) == -1
    ensures !Scan(s[..n]).Undecided? ==> Scan(s) == Scan(s[..n])
  {
    if Index(s[..before], EOH) >= 0 { BlankLineDecides(s[..before]); }
    if !Scan(s[..n]).Undecided? {
      ScanStable(s[..n], s[n..]);
      assert s[..n] + s[n..] == s;
    }
  }
}
