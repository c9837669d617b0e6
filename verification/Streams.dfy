/** The connections the readers work on: a byte stream delivered in pieces of any size. */
module Streams {
  import opened Bytes

  /** What one peer sends, and how much of it has been read. The pieces in which it arrives, and
      whether and when a read fails, are left open; at the end of the data every read does. The
      history has where the last read began, and where each of those that failed did. */
  class Stream {
    const data: seq<byte>
    var pos: nat
    ghost var last: nat
    ghost var fails: seq<nat>

    constructor (data: seq<byte>)
      ensures Valid() && this.data == data && Unread()
    {
      this.data := data;
      pos, last, fails := 0, 0, [];
    }

    ghost predicate Valid()
      reads this
    {
      pos <= |data|
    }

    /** As it is when it has been accepted. */
    ghost predicate Unread()
      reads this
    {
      pos == 0 && fails == []
    }

    ghost function Rest(): (r: seq<byte>)
      requires Valid()
      reads this
    {
      data[pos..]
    }

    /** One read into buf[lo..hi]. A read of a non-empty window yields a byte or fails, or both;
        a read of an empty window yields nothing and does not fail. */
    method Read(buf: array<byte>, lo: nat, hi: nat) returns (m: nat, failed: bool)
      requires Valid() && lo <= hi <= buf.Length
      modifies this`pos, this`last, this`fails, buf
      ensures Valid() && m <= hi - lo && pos == old(pos) + m
      ensures last == old(pos) && fails == if failed then old(fails) + [old(pos)] else old(fails)
      ensures buf[..lo] == old(buf[..lo]) && buf[lo + m..] == old(buf[lo + m..])
      ensures buf[lo..lo + m] == old(Rest())[..m] && Rest() == old(Rest())[m..]
      ensures lo < hi && !failed ==> m > 0
      ensures lo == hi ==> !failed
    {
      last := pos;
      if lo == hi {
        return 0, false;
      }
      var most := if |data| - pos < hi - lo then |data| - pos else hi - lo;
      m :| 0 <= m <= most;
      failed := *;
      if m == 0 { failed := true; }
      if failed { fails := fails + [pos]; }
      forall i | 0 <= i < m {
        buf[lo + i] := data[pos + i];
      }
      pos := pos + m;
    }
  }

  /** One read behind the `m` bytes there are from `lo` on. */
  method ReadPart(c: Stream, buf: array<byte>, lo: nat, m: nat, hi: nat, ghost was: seq<byte>, ghost rest: seq<byte>)
    returns (k: nat, failed: bool)
    requires c.Valid() && lo + m < hi <= buf.Length == |was| && m <= |rest|
    requires buf[..lo] == was[..lo] && buf[lo + m..] == was[lo + m..]
    requires buf[lo..lo + m] == rest[..m] && c.Rest() == rest[m..]
    modifies c`pos, c`last, c`fails, buf
    ensures c.Valid() && m + k <= hi - lo && m + k <= |rest| && (k == 0 ==> failed)
    ensures buf[..lo] == was[..lo] && buf[lo + m + k..] == was[lo + m + k..]
    ensures buf[lo..lo + m + k] == rest[..m + k] && c.Rest() == rest[m + k..]
    ensures c.pos == old(c.pos) + k && c.last == old(c.pos) && c.fails == if failed then old(c.fails) + [c.last] else old(c.fails)
  {
    ghost var before := buf[..];
    k, failed := c.Read(buf, lo + m, hi);
    Extended(was, before, buf[..], lo, m, k, rest);
  }

  /** io.ReadFull: reads until buf[lo..hi] is full or a read fails; the last read begins while it is
      not full. */
  method ReadFull(c: Stream, buf: array<byte>, lo: nat, hi: nat) returns (m: nat, failed: bool)
    requires c.Valid() && lo <= hi <= buf.Length
    modifies c`pos, c`last, c`fails, buf
    ensures c.Valid() && m <= hi - lo && m <= |old(c.Rest())| && failed == (m < hi - lo)
    ensures if lo == hi then c.last == old(c.last) else old(c.pos) <= c.last < old(c.pos) + (hi - lo) && c.last <= c.pos
    ensures c.fails == old(c.fails) || (lo < hi && c.fails == old(c.fails) + [c.last])
    ensures failed ==> c.fails == old(c.fails) + [c.last]
    ensures buf[..lo] == old(buf[..lo]) && buf[lo + m..] == old(buf[lo + m..])
    ensures buf[lo..lo + m] == old(c.Rest())[..m] && c.Rest() == old(c.Rest())[m..]
  {
    m, failed := 0, false;
    ghost var was := buf[..];
    ghost var rest := c.Rest();
    while m < hi - lo && !failed
      invariant c.Valid() && m <= hi - lo && m <= |rest|
      invariant buf[..lo] == was[..lo] && buf[lo + m..] == was[lo + m..]
      invariant buf[lo..lo + m] == rest[..m] && c.Rest() == rest[m..]
      invariant c.pos == old(c.pos) + m
      invariant if m == 0 && !failed then c.last == old(c.last) else old(c.pos) <= c.last < old(c.pos) + (hi - lo) && c.last <= c.pos
      invariant c.fails == if failed then old(c.fails) + [c.last] else old(c.fails)
      decreases hi - lo - m, !failed
    {
      var k, f := ReadPart(c, buf, lo, m, hi, was, rest);
      m, failed := m + k, f;
    }
    failed := m < hi - lo;
  }

  /** Another `k` bytes behind the `m` there are from `lo` on. */
  lemma Extended(was: seq<byte>, before: seq<byte>, now: seq<byte>, lo: nat, m: nat, k: nat, rest: seq<byte>)
    requires |was| == |before| == |now| && lo + m + k <= |now| && m + k <= |rest|
    requires before[..lo] == was[..lo] && before[lo..lo + m] == rest[..m] && before[lo + m..] == was[lo + m..]
    requires now[..lo + m] == before[..lo + m] && now[lo + m + k..] == before[lo + m + k..]
    requires now[lo + m..lo + m + k] == rest[m..][..k]
    ensures now[..lo] == was[..lo] && now[lo..lo + m + k] == rest[..m + k] && now[lo + m + k..] == was[lo + m + k..]
    ensures rest[m..][k..] == rest[m + k..]
  {
    assert now[..lo] == now[..lo + m][..lo] == before[..lo + m][..lo] == before[..lo];
    assert now[lo..lo + m] == now[..lo + m][lo..] == before[..lo + m][lo..] == rest[..m];
    assert now[lo..lo + m + k] == now[lo..lo + m] + now[lo + m..lo + m + k];
    assert rest[..m + k] == rest[..m] + rest[m..][..k];
    assert before[lo + m + k..] == before[lo + m..][k..] && was[lo + m..][k..] == was[lo + m + k..];
  }

  /** The buffer and the connection after `n` bytes of stream `s`: a prefix of it is in the buffer,
      which is as it was beyond, and the rest is still to come. */
  ghost predicate Holds(s: seq<byte>, n: nat, now: seq<byte>, was: seq<byte>, rest: seq<byte>) {
    && n <= |s| && n <= |now| == |was|
    && now[..n] == s[..n] && now[n..] == was[n..] && rest == s[n..]
  }

  /** The buffer after a read of `m` bytes at `k` still holds a prefix of the stream. */
  lemma Received(s: seq<byte>, seen: seq<byte>, now: seq<byte>, was: seq<byte>, k: nat, m: nat)
    requires |seen| == |now| == |was| && k + m <= |now| && k + m <= |s|
    requires seen[..k] == s[..k] && now[..k] == seen[..k] && now[k..k + m] == s[k..][..m]
    requires now[k + m..] == seen[k + m..] && seen[k..] == was[k..]
    ensures now[..k + m] == s[..k + m] && now[k + m..] == was[k + m..] && s[k..][m..] == s[k + m..]
  {
    assert now[..k + m] == now[..k] + now[k..k + m];
    assert s[..k + m] == s[..k] + s[k..][..m];
    assert seen[k + m..] == seen[k..][m..] && was[k + m..] == was[k..][m..];
  }

  /** The other end of a connection: what has been written to it, and how many writes failed. */
  class Sink {
    var written: seq<byte>
    var fails: nat

    constructor ()
      ensures written == [] && fails == 0
    {
      written, fails := [], 0;
    }

    /** A write takes all the bytes, or fails having taken some of them. */
    method Write(b: seq<byte>) returns (k: nat, failed: bool)
      modifies this
      ensures k <= |b| && written == old(written) + b[..k] && (k < |b| ==> failed)
      ensures fails == old(fails) + if failed then 1 else 0
    {
      k :| k <= |b|;
      failed := *;
      if k < |b| { failed := true; }
      if failed { fails := fails + 1; }
      written := written + b[..k];
    }
  }
}
