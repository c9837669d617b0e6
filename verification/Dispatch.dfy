/** How a server name selects a service: service.go, and the matchers of servers.go. */
module Dispatch {
  import opened Bytes

  datatype Matcher =
    | HostName(name: seq<byte>)
    | HostNameSuffix(suffix: seq<byte>)
    | Hosts(list: seq<Matcher>)
    | Nobody

  function HasSuffix(s: seq<byte>, t: seq<byte>): bool {
    |t| <= |s| && s[|s| - |t|..] == t
  }

  function MatchService(m: Matcher, name: seq<byte>): bool {
    match m
    case HostName(h) => h == name
    case HostNameSuffix(t) => HasSuffix(name, t)
    case Hosts(list) => MatchAny(list, name)
    case Nobody => false
  }

  function MatchAny(list: seq<Matcher>, name: seq<byte>): bool {
    |list| > 0 && (MatchService(list[0], name) || MatchAny(list[1..], name))
  }

  /** One line of the configuration's match list. */
  datatype Match = Match(isSuffix: bool, name: seq<byte>)

  function Single(m: Match): Matcher {
    if m.isSuffix then HostNameSuffix(m.name) else HostName(m.name)
  }

  /** What a line is for: the names that end in its text, or that are its text. */
  ghost predicate Accepts(m: Match, name: seq<byte>) {
    if m.isSuffix then exists front :: name == front + m.name else name == m.name
  }

  lemma SuffixMeaning(s: seq<byte>, t: seq<byte>)
    ensures HasSuffix(s, t) <==> exists front :: s == front + t
  {
    if HasSuffix(s, t) {
      assert s == s[..|s| - |t|] + t;
    }
    if front :| s == front + t {
      assert s[|s| - |t|..] == t;
    }
  }

  lemma SingleMeaning(m: Match, name: seq<byte>)
    ensures MatchService(Single(m), name) <==> Accepts(m, name)
  {
    SuffixMeaning(name, m.name);
  }

  function MakeMatchService(ms: seq<Match>): Matcher {
    if |ms| == 0 then Nobody
    else if |ms| == 1 then Single(ms[0])
    else Hosts(seq(|ms|, i requires 0 <= i < |ms| => Single(ms[i])))
  }

  /** The loop that fills the list of matchers. */
  method BuildMatchService(ms: seq<Match>) returns (m: Matcher)
    ensures m == MakeMatchService(ms)
  {
    if |ms| == 0 {
      return Nobody;
    } else if |ms| == 1 {
      return Single(ms[0]);
    }
    var list := [];
    for n := 0 to |ms|
      invariant |list| == n && forall i :: 0 <= i < n ==> list[i] == Single(ms[i])
    {
      list := list + [Single(ms[n])];
    }
    return Hosts(list);
  }

  lemma {:induction false} MatchAnyMeaning(list: seq<Matcher>, name: seq<byte>)
    ensures MatchAny(list, name) <==> exists i :: 0 <= i < |list| && MatchService(list[i], name)
  {
    if |list| > 0 {
      MatchAnyMeaning(list[1..], name);
      if MatchAny(list[1..], name) {
        var i :| 0 <= i < |list[1..]| && MatchService(list[1..][i], name);
        assert list[i + 1] == list[1..][i];
      }
      if i :| 0 <= i < |list| && MatchService(list[i], name) {
        assert i == 0 || list[1..][i - 1] == list[i];
      }
    }
  }

  /** A match list accepts exactly the names that one of its lines accepts. */
  lemma MatchListMeaning(ms: seq<Match>, name: seq<byte>)
    ensures MatchService(MakeMatchService(ms), name) <==> exists i :: 0 <= i < |ms| && Accepts(ms[i], name)
  {
    forall i | 0 <= i < |ms| ensures MatchService(Single(ms[i]), name) == Accepts(ms[i], name) { SingleMeaning(ms[i], name); }
    hide Accepts;
    if |ms| > 1 {
      var list := MakeMatchService(ms).list;
      MatchAnyMeaning(list, name);
      assert forall i :: 0 <= i < |ms| ==> MatchService(list[i], name) == Accepts(ms[i], name);
    }
  }

  // ---------- host names with a port ----------

  const COLON: byte := 58
  const OPEN: byte := 91
  const CLOSE: byte := 93

  function LastIndex(s: seq<byte>, c: byte): (i: int)
    ensures -1 <= i < |s|
    ensures i >= 0 ==> s[i] == c
    ensures forall j :: i < j < |s| ==> s[j] != c
  {
    if |s| == 0 then -1
    else if s[|s| - 1] == c then |s| - 1
    else LastIndex(s[..|s| - 1], c)
  }

  function FirstIndex(s: seq<byte>, c: byte): (i: int)
    ensures -1 <= i < |s|
    ensures i >= 0 ==> s[i] == c
    ensures i == -1 ==> c !in s
  {
    if |s| == 0 then -1
    else if s[0] == c then 0
    else
      var i := FirstIndex(s[1..], c);
      if i == -1 then -1 else i + 1
  }

  /** The host part that net.SplitHostPort finds, or None where it reports an error. */
  function SplitHost(s: seq<byte>): Option<seq<byte>> {
    var i := LastIndex(s, COLON);
    if i < 0 then None
    else if s[0] == OPEN then
      var end := FirstIndex(s, CLOSE);
      if end < 0 || end + 1 != i then None
      else if OPEN in s[1..] || CLOSE in s[end + 1..] then None
      else Some(s[1..end])
    else if COLON in s[..i] || OPEN in s || CLOSE in s then None
    else Some(s[..i])
  }

  /** The name that listener.transfer matches on. */
  function Host(name: seq<byte>): seq<byte> {
    match SplitHost(name)
    case Some(host) => host
    case None => name
  }

  predicate Plain(s: seq<byte>) {
    COLON !in s && OPEN !in s && CLOSE !in s
  }

  /** A plain name, with or without a port, is matched as the plain name. */
  lemma PortDoesNotMatter(name: seq<byte>, port: seq<byte>)
    requires Plain(name) && Plain(port)
    ensures Host(name) == name && Host(name + [COLON] + port) == name
  {
    var s := name + [COLON] + port;
    assert s[|name|] == COLON;
    assert forall j :: |name| < j < |s| ==> s[j] == port[j - |name| - 1];
    assert LastIndex(s, COLON) == |name|;
    assert s[..|name|] == name;
    assert forall j :: 0 <= j < |name| ==> s[j] == name[j];
    assert s[0] != OPEN;
  }

  lemma LastAt(s: seq<byte>, c: byte, i: nat)
    requires i < |s| && s[i] == c && c !in s[i + 1..]
    ensures LastIndex(s, c) == i
  {
    assert forall k :: i < k < |s| ==> s[k] == s[i + 1..][k - i - 1];
  }

  lemma FirstAt(s: seq<byte>, c: byte, i: nat)
    requires i < |s| && s[i] == c && c !in s[..i]
    ensures FirstIndex(s, c) == i
    decreases i
  {
    if i > 0 {
      assert s[..i][0] == s[0];
      assert s[..i] == [s[0]] + s[1..][..i - 1];
      FirstAt(s[1..], c, i - 1);
    }
  }

  /** A host and a port behind the one colon, or behind a host in brackets, which may have colons. */
  ghost predicate HostAndPort(s: seq<byte>, host: seq<byte>, port: seq<byte>) {
    Plain(port) && (
      || (s == host + [COLON] + port && Plain(host))
      || (s == [OPEN] + host + [CLOSE, COLON] + port && OPEN !in host && CLOSE !in host))
  }

  /** Exactly what is taken apart, and into what. */
  lemma SplitHostMeaning(s: seq<byte>, host: seq<byte>)
    ensures SplitHost(s) == Some(host) <==> exists port :: HostAndPort(s, host, port)
  {
    if port :| HostAndPort(s, host, port) {
      if s == host + [COLON] + port && Plain(host) {
        PlainSplit(host, port);
      } else {
        BracketsSplit(host, port);
      }
    }
    if SplitHost(s) == Some(host) {
      var port := SplitMade(s, host);
    }
  }

  lemma PlainSplit(host: seq<byte>, port: seq<byte>)
    requires Plain(host) && Plain(port)
    ensures SplitHost(host + [COLON] + port) == Some(host)
  {
    var s := host + [COLON] + port;
    assert s[|host| + 1..] == port && s[..|host|] == host;
    LastAt(s, COLON, |host|);
    assert s[0] == if |host| > 0 then host[0] else COLON;
  }

  lemma BracketsSplit(host: seq<byte>, port: seq<byte>)
    requires OPEN !in host && CLOSE !in host && Plain(port)
    ensures SplitHost([OPEN] + host + [CLOSE, COLON] + port) == Some(host)
  {
    var s := [OPEN] + host + [CLOSE, COLON] + port;
    var end := 1 + |host|;
    assert s[end + 2..] == port && s[..end] == [OPEN] + host && s[1..end] == host;
    LastAt(s, COLON, end + 1);
    FirstAt(s, CLOSE, end);
    assert s[1..] == host + [CLOSE, COLON] + port && s[end + 1..] == [COLON] + port;
  }

  lemma SplitMade(s: seq<byte>, host: seq<byte>) returns (port: seq<byte>)
    requires SplitHost(s) == Some(host)
    ensures HostAndPort(s, host, port)
  {
    var i := LastIndex(s, COLON);
    port := s[i + 1..];
    assert COLON !in port;
    if s[0] == OPEN {
      var end := FirstIndex(s, CLOSE);
      FirstBefore(s, CLOSE);
      assert s == [OPEN] + s[1..end] + [CLOSE, COLON] + port;
      assert forall k :: 0 <= k < |port| ==> port[k] == s[1..][i + k] && port[k] == s[end + 1..][k + 1];
      assert forall k :: 0 <= k < |host| ==> host[k] == s[1..][k] && host[k] == s[..end][k + 1];
    } else {
      assert s == s[..i] + [COLON] + port;
      assert forall k :: 0 <= k < |port| ==> port[k] == s[i + 1 + k];
      assert forall k :: 0 <= k < |host| ==> host[k] == s[k];
    }
  }

  lemma {:induction false} FirstBefore(s: seq<byte>, c: byte)
    ensures FirstIndex(s, c) >= 0 ==> c !in s[..FirstIndex(s, c)]
    decreases |s|
  {
    if |s| > 0 && s[0] != c {
      FirstBefore(s[1..], c);
      var i := FirstIndex(s[1..], c);
      if i >= 0 { assert s[..i + 1] == [s[0]] + s[1..][..i]; }
    }
  }

  /** A host in brackets, such as an IPv6 address, with a port, is matched as the host. */
  lemma BracketsComeOff(host: seq<byte>, port: seq<byte>)
    requires OPEN !in host && CLOSE !in host && Plain(port)
    ensures Host([OPEN] + host + [CLOSE, COLON] + port) == host
  {
    BracketsSplit(host, port);
  }
}
