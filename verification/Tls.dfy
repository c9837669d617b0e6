/** The ClientHello reader of tls.go. */
module Tls {
  import opened Bytes
  import opened Streams

  datatype Part = Body | SessionId | CipherSuites | Compressions | Extensions | Extension
                | ServerNameExtension | ServerName

  /** How a record is answered. `OutOfRange` is the slice expression that Go refuses at run time. */
  datatype Answer =
    | Name(name: seq<byte>)
    | NoClientHello
    | InvalidLength(part: Part)
    | NoName
    | OutOfRange

  // ---------- the grammar ----------

  function Drop(s: seq<byte>, k: nat): (r: seq<byte>)
    ensures |r| <= |s| && (|s| > 0 && k > 0 ==> |r| < |s|)
  {
    if k <= |s| then s[k..] else []
  }

  function Word(high: int, low: int): int { high * 0x100 + low }

  function U8(s: seq<byte>): (x: nat)
    ensures x < 0x100
  { if |s| < 1 then 0 else s[0] }

  function U16(s: seq<byte>): (x: nat)
    ensures x < 0x1_0000
  { if |s| < 2 then 0 else Word(s[0], s[1]) }

  function U24(s: seq<byte>): (x: nat)
    ensures x < 0x100_0000
  { if |s| < 3 then 0 else Word(Word(s[0], s[1]), s[2]) }

  /** The body of one handshake record. */
  function ParseBody(b: seq<byte>): Answer {
    if U8(b) != 1 then NoClientHello
    else if U24(Drop(b, 1)) != (|b| + 0x1_0000_0000 - 4) % 0x1_0000_0000 then InvalidLength(Body)
    else if |Drop(b, 4)| < 34 then OutOfRange
    else ParseSession(b[38..])
  }

  function ParseSession(m: seq<byte>): Answer {
    var k, m := U8(m), Drop(m, 1);
    if k > 32 || |m| < k then InvalidLength(SessionId) else ParseSuites(m[k..])
  }

  function ParseSuites(m: seq<byte>): Answer {
    var k, m := U16(m), Drop(m, 2);
    if k == 0 || |m| < k then InvalidLength(CipherSuites) else ParseCompressions(m[k..])
  }

  function ParseCompressions(m: seq<byte>): Answer {
    var k, m := U8(m), Drop(m, 1);
    if k < 1 || |m| < k then InvalidLength(Compressions) else ParseExtensions(m[k..])
  }

  function ParseExtensions(m: seq<byte>): Answer {
    var k, m := U16(m), Drop(m, 2);
    if |m| < k then InvalidLength(Extensions) else ParseEach(m[..k])
  }

  function ParseEach(m: seq<byte>): Answer
    decreases |m|
  {
    if |m| == 0 then NoName
    else
      var kind, m1 := U16(m), Drop(m, 2);
      var k, m2 := U16(m1), Drop(m1, 2);
      if |m2| < k then InvalidLength(Extension)
      else if kind == 0 then ParseServerName(m2, k)
      else ParseEach(m2[k..])
  }

  function ParseServerName(m: seq<byte>, extLength: nat): Answer {
    var l, m1 := U16(m), Drop(m, 2);
    if l != (extLength + 0x1_0000 - 2) % 0x1_0000 then InvalidLength(ServerNameExtension)
    else if m1 == [] then OutOfRange
    else
      var k, m2 := U16(m1[1..]), Drop(m1[1..], 2);
      if |m2| < k then InvalidLength(ServerName) else Name(m2[..k])
  }

  // ---------- well-formed hellos ----------

  datatype Entry = Entry(kind: byte, name: seq<byte>)

  datatype Ext = ServerNames(entries: seq<Entry>) | Other(kind: uint16, data: seq<byte>)

  /** The fields of a ClientHello; the extension block may be absent. */
  datatype Hello = Hello(version: seq<byte>, time: seq<byte>, random: seq<byte>, session: seq<byte>,
                         suites: seq<byte>, compressions: seq<byte>, exts: Option<seq<Ext>>)

  function Put16(x: nat): (r: seq<byte>)
    requires x < 0x1_0000
    ensures |r| == 2
  { [x / 0x100, x % 0x100] }

  predicate EntryOk(e: Entry) { |e.name| < 0x1_0000 }

  function WriteEntries(es: seq<Entry>): seq<byte>
    requires forall i :: 0 <= i < |es| ==> EntryOk(es[i])
  {
    if |es| == 0 then []
    else
      assert EntryOk(es[0]);
      [es[0].kind] + Put16(|es[0].name|) + es[0].name + WriteEntries(es[1..])
  }

  predicate ExtOk(e: Ext) {
    match e
    case ServerNames(es) =>
      |es| > 0 && (forall i :: 0 <= i < |es| ==> EntryOk(es[i])) && |WriteEntries(es)| + 2 < 0x1_0000
    case Other(kind, data) => kind != 0 && |data| < 0x1_0000
  }

  function ExtKind(e: Ext): uint16 { if e.ServerNames? then 0 else e.kind }

  function ExtData(e: Ext): (r: seq<byte>)
    requires ExtOk(e)
    ensures |r| < 0x1_0000
  {
    match e
    case ServerNames(es) => Put16(|WriteEntries(es)|) + WriteEntries(es)
    case Other(_, data) => data
  }

  function WriteExts(xs: seq<Ext>): seq<byte>
    requires forall i :: 0 <= i < |xs| ==> ExtOk(xs[i])
  {
    if |xs| == 0 then []
    else Put16(ExtKind(xs[0])) + Put16(|ExtData(xs[0])|) + ExtData(xs[0]) + WriteExts(xs[1..])
  }

  predicate HelloOk(h: Hello) {
    && |h.version| == 2 && |h.time| == 4 && |h.random| == 28 && |h.session| <= 32
    && 0 < |h.suites| < 0x1_0000 && 0 < |h.compressions| < 0x100
    && (h.exts.Some? ==> (forall i :: 0 <= i < |h.exts.value| ==> ExtOk(h.exts.value[i])) && |WriteExts(h.exts.value)| < 0x1_0000)
  }

  function WriteBlock(h: Hello): seq<byte>
    requires HelloOk(h)
  {
    if h.exts.None? then [] else Put16(|WriteExts(h.exts.value)|) + WriteExts(h.exts.value)
  }

  function WriteFields(h: Hello): seq<byte>
    requires HelloOk(h)
  {
    [|h.session|] + (h.session + (Put16(|h.suites|) + (h.suites +
    ([|h.compressions|] + (h.compressions + WriteBlock(h))))))
  }

  /** Handshake type 1, a 24-bit length, and the hello itself. */
  function WithHead(fixed: seq<byte>, fields: seq<byte>): seq<byte>
    requires |fixed| == 34 && 34 + |fields| < 0x1_0000 - 4
  {
    [1, 0] + Put16(34 + |fields|) + fixed + fields
  }

  /** The handshake message that one record carries. */
  function WriteBody(h: Hello): (b: seq<byte>)
    requires HelloOk(h) && 34 + |WriteFields(h)| < 0x1_0000 - 4
  {
    WithHead(h.version + h.time + h.random, WriteFields(h))
  }

  /** The name a client asks for: the first entry of its first server_name extension. */
  function Wanted(xs: seq<Ext>): Answer
    requires forall i :: 0 <= i < |xs| ==> ExtOk(xs[i])
  {
    if |xs| == 0 then NoName
    else
      assert ExtOk(xs[0]);
      if xs[0].ServerNames? then Name(xs[0].entries[0].name)
      else Wanted(xs[1..])
  }

  lemma Taken16(x: nat, rest: seq<byte>)
    requires x < 0x1_0000
    ensures U16(Put16(x) + rest) == x && Drop(Put16(x) + rest, 2) == rest
  {
  }

  lemma ServerNameWritten(e: Ext, rest: seq<byte>)
    requires e.ServerNames? && ExtOk(e)
    ensures ParseServerName(ExtData(e) + rest, |ExtData(e)|) == Name(e.entries[0].name)
  {
    hide U16, Put16;
    var list := WriteEntries(e.entries);
    var first := e.entries[0];
    var more := WriteEntries(e.entries[1..]) + rest;
    assert ExtData(e) + rest == Put16(|list|) + (list + rest);
    Taken16(|list|, list + rest);
    assert (list + rest)[1..] == Put16(|first.name|) + (first.name + more);
    Taken16(|first.name|, first.name + more);
  }

  lemma EachStep(kind: uint16, data: seq<byte>, rest: seq<byte>)
    requires |data| < 0x1_0000
    ensures ParseEach(Put16(kind) + (Put16(|data|) + (data + rest))) ==
      if kind == 0 then ParseServerName(data + rest, |data|) else ParseEach(rest)
  {
    var m2 := data + rest;
    var m1 := Put16(|data|) + m2;
    Taken16(kind, m1);
    Taken16(|data|, m2);
    assert m2[|data|..] == rest;
  }

  lemma {:induction false} ExtsWritten(xs: seq<Ext>)
    requires forall i :: 0 <= i < |xs| ==> ExtOk(xs[i])
    ensures ParseEach(WriteExts(xs)) == Wanted(xs)
  {
    if |xs| > 0 {
      var e, rest := xs[0], WriteExts(xs[1..]);
      assert WriteExts(xs) == Put16(ExtKind(e)) + (Put16(|ExtData(e)|) + (ExtData(e) + rest));
      EachStep(ExtKind(e), ExtData(e), rest);
      if e.ServerNames? {
        ServerNameWritten(e, rest);
      } else {
        ExtsWritten(xs[1..]);
      }
    }
  }

  lemma SessionWritten(session: seq<byte>, rest: seq<byte>)
    requires |session| <= 32
    ensures ParseSession([|session|] + (session + rest)) == ParseSuites(rest)
  {
    assert (session + rest)[|session|..] == rest;
  }

  lemma SuitesWritten(suites: seq<byte>, rest: seq<byte>)
    requires 0 < |suites| < 0x1_0000
    ensures ParseSuites(Put16(|suites|) + (suites + rest)) == ParseCompressions(rest)
  {
    Taken16(|suites|, suites + rest);
    assert (suites + rest)[|suites|..] == rest;
  }

  lemma CompressionsWritten(compressions: seq<byte>, rest: seq<byte>)
    requires 0 < |compressions| < 0x100
    ensures ParseCompressions([|compressions|] + (compressions + rest)) == ParseExtensions(rest)
  {
    assert (compressions + rest)[|compressions|..] == rest;
  }

  lemma BlockWritten(h: Hello)
    requires HelloOk(h)
    ensures ParseExtensions(WriteBlock(h)) == if h.exts.None? then NoName else Wanted(h.exts.value)
  {
    if h.exts.Some? {
      var exts := WriteExts(h.exts.value);
      Taken16(|exts|, exts);
      assert exts[..|exts|] == exts;
      ExtsWritten(h.exts.value);
    }
  }

  lemma FieldsWritten(h: Hello)
    requires HelloOk(h)
    ensures ParseSession(WriteFields(h)) == ParseExtensions(WriteBlock(h))
  {
    var compressions := [|h.compressions|] + (h.compressions + WriteBlock(h));
    var suites := Put16(|h.suites|) + (h.suites + compressions);
    SessionWritten(h.session, suites);
    SuitesWritten(h.suites, compressions);
    CompressionsWritten(h.compressions, WriteBlock(h));
  }

  lemma Taken24(x: nat, rest: seq<byte>)
    requires x < 0x1_0000
    ensures U24([0] + Put16(x) + rest) == x
  {
  }

  lemma HeadWritten(fixed: seq<byte>, fields: seq<byte>)
    requires |fixed| == 34 && 34 + |fields| < 0x1_0000 - 4
    ensures ParseBody(WithHead(fixed, fields)) == ParseSession(fields)
  {
    hide ParseSession, Put16, U24;
    var l := 34 + |fields|;
    var b := WithHead(fixed, fields);
    Taken24(l, fixed + fields);
    assert Drop(b, 1) == [0] + Put16(l) + (fixed + fields);
    assert b[38..] == fields;
  }

  /** Every well-formed hello that fits one record is answered with exactly the name it asks for. */
  lemma WrittenThenParsed(h: Hello)
    requires HelloOk(h) && 34 + |WriteFields(h)| < 0x1_0000 - 4
    ensures ParseBody(WriteBody(h)) == if h.exts.None? then NoName else Wanted(h.exts.value)
  {
    HeadWritten(h.version + h.time + h.random, WriteFields(h));
    FieldsWritten(h);
    BlockWritten(h);
  }

  /** A stream that begins with that record: what the reader is to take from it. */
  lemma RecordAnswered(h: Hello, head: seq<byte>, more: seq<byte>)
    requires HelloOk(h) && 34 + |WriteFields(h)| < 0x1_0000 - 4 && |head| == 3
    ensures var b := WriteBody(h);
      var s := head + Put16(|b|) + b + more;
      && U16(s[3..]) == |b| && |s| >= 5 + |b|
      && ParseBody(s[5..5 + |b|]) == if h.exts.None? then NoName else Wanted(h.exts.value)
  {
    var b := WriteBody(h);
    var s := head + Put16(|b|) + b + more;
    assert s[3..] == Put16(|b|) + (b + more);
    Taken16(|b|, b + more);
    assert s[5..5 + |b|] == b;
    WrittenThenParsed(h);
  }

  // ---------- where the reader leaves its window ----------

  /** Six bytes that end an extension block: a server_name extension of length 0, 1 or 2 with two
      bytes left in the block that are its length less two, in 16 bits. */
  predicate BadTail(t: seq<byte>) {
    |t| == 6 && t[..3] == [0, 0, 0] && t[3] <= 2 && U16(t[4..]) == (U8(t[3..]) + 0x1_0000 - 2) % 0x1_0000
  }

  lemma EmptyTail(m: seq<byte>, k: nat)
    requires k <= |m| && ParseServerName(m, k).OutOfRange?
    ensures |m| == 2 && k <= 2 && U16(m) == (k + 0x1_0000 - 2) % 0x1_0000
  {
  }

  lemma EachUnfolds(m: seq<byte>)
    requires |m| > 0
    ensures |m| < 4 && U16(m) != 0 ==> ParseEach(m) == NoName
    ensures var m1 := Drop(m, 2);
      var k, m2 := U16(m1), Drop(m1, 2);
      var turn :=
        if |m2| < k then InvalidLength(Extension)
        else if U16(m) == 0 then ParseServerName(m2, k)
        else ParseEach(m2[k..]);
      ParseEach(m) == turn
  {
    if 2 <= |m| < 4 {
      assert Drop(Drop(m, 2), 2)[0..] == [];
    }
  }

  /** One turn of the extension loop on its way out of the window. */
  lemma EachNext(m: seq<byte>)
    requires |m| > 0 && ParseEach(m).OutOfRange?
    ensures |m| >= 4 && var k := U16(m[2..]);
      || BadTail(m)
      || (U16(m) != 0 && 4 + k <= |m| && ParseEach(m[4 + k..]).OutOfRange?)
  {
    hide ParseEach, ParseServerName;
    var m1 := Drop(m, 2);
    var k, m2 := U16(m1), Drop(m1, 2);
    EachUnfolds(m);
    if U16(m) == 0 {
      EmptyTail(m2, k);
      assert m2 == m[4..];
    } else {
      assert m2[k..] == m[4 + k..];
    }
  }

  /** The block is a row of extensions other than server_name, and then six bytes that break off. */
  ghost predicate BreaksOff(m: seq<byte>, xs: seq<Ext>) {
    && (forall i :: 0 <= i < |xs| ==> xs[i].Other? && ExtOk(xs[i]))
    && |m| >= 6 && m[..|m| - 6] == WriteExts(xs) && BadTail(m[|m| - 6..])
  }

  lemma TailBreaksOff(t: seq<byte>)
    requires BadTail(t)
    ensures ParseEach(t).OutOfRange?
  {
    assert Drop(Drop(t, 2), 2) == t[4..];
    assert U16(Drop(t, 2)) == t[3];
  }

  lemma {:induction false} BreaksOffLeaves(m: seq<byte>, xs: seq<Ext>)
    requires BreaksOff(m, xs)
    ensures ParseEach(m).OutOfRange?
    decreases |xs|
  {
    hide BadTail;
    var tail := m[|m| - 6..];
    if |xs| == 0 {
      assert m == tail;
      TailBreaksOff(m);
    } else {
      var rest := WriteExts(xs[1..]) + tail;
      var e := xs[0];
      assert ExtOk(e);
      assert m == m[..|m| - 6] + tail;
      assert m == Put16(e.kind) + (Put16(|e.data|) + (e.data + rest));
      assert rest[..|rest| - 6] == WriteExts(xs[1..]) && rest[|rest| - 6..] == tail;
      BreaksOffLeaves(rest, xs[1..]);
      EachStep(e.kind, e.data, rest);
    }
  }

  lemma Cut(m: seq<byte>, k: nat)
    requires |m| >= 4 && k == U16(m[2..]) && 4 + k <= |m|
    ensures m == Put16(U16(m)) + Put16(k) + m[4..4 + k] + m[4 + k..]
  {
    PutWord(m[0], m[1]);
    PutWord(m[2], m[3]);
    hide Put16;
    assert m == [m[0], m[1]] + [m[2], m[3]] + m[4..4 + k] + m[4 + k..];
  }

  lemma PutWord(a: byte, b: byte)
    ensures Put16(Word(a, b)) == [a, b]
  {
  }

  lemma BreaksOffBehind(m: seq<byte>, k: nat, more: seq<Ext>)
    requires |m| >= 4 && k == U16(m[2..]) && U16(m) != 0 && 4 + k <= |m| && BreaksOff(m[4 + k..], more)
    ensures BreaksOff(m, [Other(U16(m), m[4..4 + k])] + more)
  {
    hide BadTail;
    var e, rest := Other(U16(m), m[4..4 + k]), m[4 + k..];
    var xs := [e] + more;
    assert xs[1..] == more;
    assert forall i :: 0 <= i < |xs| ==> xs[i].Other? && ExtOk(xs[i]);
    assert m[|m| - 6..] == rest[|rest| - 6..];
    Cut(m, k);
    hide U16, Put16;
    assert WriteExts(xs) == Put16(e.kind) + Put16(|e.data|) + e.data + rest[..|rest| - 6];
    assert m[..|m| - 6] == (Put16(e.kind) + Put16(k) + e.data + rest)[..|m| - 6];
  }

  lemma {:induction false} LeavesBreaksOff(m: seq<byte>) returns (xs: seq<Ext>)
    requires ParseEach(m).OutOfRange?
    ensures BreaksOff(m, xs)
    decreases |m|
  {
    NotEmpty(m);
    EachNext(m);
    hide ParseEach;
    if BadTail(m) {
      assert m[0..] == m;
      return [];
    }
    hide BadTail, BreaksOff;
    var k := U16(m[2..]);
    var more := LeavesBreaksOff(m[4 + k..]);
    BreaksOffBehind(m, k, more);
    xs := [Other(U16(m), m[4..4 + k])] + more;
  }

  lemma NotEmpty(m: seq<byte>)
    requires ParseEach(m).OutOfRange?
    ensures |m| > 0
  {
  }

  // ---------- what is answered with a name, and what with none ----------

  /** A row of extensions other than server_name. */
  ghost predicate Row(xs: seq<Ext>) {
    forall i :: 0 <= i < |xs| ==> xs[i].Other? && ExtOk(xs[i])
  }

  lemma {:induction false} RowBefore(xs: seq<Ext>, t: seq<byte>)
    requires Row(xs)
    ensures ParseEach(WriteExts(xs) + t) == ParseEach(t)
    decreases |xs|
  {
    if |xs| == 0 {
      assert WriteExts(xs) + t == t;
    } else {
      var e, rest := xs[0], WriteExts(xs[1..]) + t;
      assert ExtOk(e);
      assert WriteExts(xs) + t == Put16(e.kind) + (Put16(|e.data|) + (e.data + rest));
      EachStep(e.kind, e.data, rest);
      RowBefore(xs[1..], t);
    }
  }

  /** The loop looks no further: at the end, at a part of a header, at server_name, or at an
      extension that is cut short. */
  predicate Stops(t: seq<byte>) {
    |t| < 4 || U16(t) == 0 || U16(t[2..]) > |t| - 4
  }

  lemma RowGrows(m: seq<byte>, k: nat, more: seq<Ext>, t: seq<byte>)
    requires |m| >= 4 && k == U16(m[2..]) && U16(m) != 0 && 4 + k <= |m|
    requires Row(more) && m[4 + k..] == WriteExts(more) + t
    ensures var xs := [Other(U16(m), m[4..4 + k])] + more; Row(xs) && m == WriteExts(xs) + t
  {
    var e := Other(U16(m), m[4..4 + k]);
    var xs := [e] + more;
    assert xs[1..] == more;
    assert Row(xs);
    Cut(m, k);
    hide U16, Put16;
    assert WriteExts(xs) == Put16(e.kind) + Put16(|e.data|) + e.data + WriteExts(more);
    assert m == Put16(e.kind) + Put16(k) + e.data + (WriteExts(more) + t);
  }

  /** Every block is such a row and something behind it that the loop stops at. */
  lemma {:induction false} RowAndTail(m: seq<byte>) returns (xs: seq<Ext>, t: seq<byte>)
    ensures Row(xs) && m == WriteExts(xs) + t && Stops(t) && ParseEach(m) == ParseEach(t)
    decreases |m|
  {
    if Stops(m) {
      assert m == WriteExts([]) + m;
      return [], m;
    }
    var k := U16(m[2..]);
    var more;
    more, t := RowAndTail(m[4 + k..]);
    xs := [Other(U16(m), m[4..4 + k])] + more;
    RowGrows(m, k, more, t);
    hide U16, ParseEach, Stops;
    RowBefore(xs, t);
  }

  /** The length of a list in an extension of length `k`, in 16 bits. */
  function LessTwo(k: uint16): uint16 { (k + 0x1_0000 - 2) % 0x1_0000 }

  /** A server_name extension that is answered with `n`: of a length that is there, with a list whose
      length is that of the extension less two, in 16 bits, and whose first entry is `n`; `rest` may
      be anything. The entry may also be cut short behind its type, and then it is empty. */
  predicate Names(t: seq<byte>, n: seq<byte>, k: uint16, kind: byte, rest: seq<byte>) {
    && |t| >= 4 + k && |n| < 0x1_0000
    && (|| t == [0, 0] + Put16(k) + Put16(LessTwo(k)) + [kind] + Put16(|n|) + n + rest
        || (n == [] && |rest| < 2 && t == [0, 0] + Put16(k) + Put16(LessTwo(k)) + [kind] + rest))
  }

  lemma ShortTail(t: seq<byte>)
    requires 0 < |t| < 4
    ensures ParseEach(t) == if U16(t) != 0 then NoName else InvalidLength(ServerNameExtension)
  {
    EachUnfolds(t);
    assert |Drop(t, 2)| <= 1 && Drop(Drop(t, 2), 2) == [];
  }

  /** What the loop answers where it stops. */
  lemma StopAnswer(t: seq<byte>)
    requires Stops(t) && |t| >= 4
    ensures ParseEach(t) == if |t| - 4 < U16(t[2..]) then InvalidLength(Extension) else ParseServerName(t[4..], U16(t[2..]))
  {
    EachUnfolds(t);
    assert Drop(t, 2) == t[2..] && Drop(Drop(t, 2), 2) == t[4..];
  }

  lemma ServerNameAnswer(d: seq<byte>, k: nat)
    ensures ParseServerName(d, k) != NoName && ParseServerName(d, k) != NoClientHello
  {
  }

  lemma ServerNameNames(d: seq<byte>, k: uint16, n: seq<byte>)
    requires k <= |d|
    ensures ParseServerName(d, k) == Name(n) <==>
      |d| >= 3 && U16(d) == LessTwo(k)
      && if |d| < 5 then n == [] else |d| - 5 >= U16(d[3..]) && n == d[5..5 + U16(d[3..])]
  {
    hide Word;
    if |d| >= 3 {
      var m1 := d[2..];
      assert m1[1..] == d[3..];
      if |d| >= 5 { assert d[3..][2..] == d[5..]; }
    }
  }

  lemma TailNames(t: seq<byte>, n: seq<byte>, k: uint16, kind: byte, rest: seq<byte>)
    requires Names(t, n, k, kind, rest)
    ensures ParseEach(t) == Name(n)
  {
    NamesNumbers(t, n, k, kind, rest);
    hide Put16, Names, ParseEach, ParseServerName, Word, LessTwo;
    StopAnswer(t);
    ServerNameNames(t[4..], k, n);
  }

  lemma NamesBytes(t: seq<byte>, n: seq<byte>, k: uint16, kind: byte, rest: seq<byte>)
    requires Names(t, n, k, kind, rest)
    ensures var d := t[4..];
      && t[..2] == [0, 0] && t[2..4] == Put16(k) && |d| >= 3 && d[..2] == Put16(LessTwo(k))
      && if |d| < 5 then n == [] else d[3..5] == Put16(|n|) && |d| >= 5 + |n| && d[5..5 + |n|] == n
  {
    hide Put16, LessTwo;
  }

  lemma NamesNumbers(t: seq<byte>, n: seq<byte>, k: uint16, kind: byte, rest: seq<byte>)
    requires Names(t, n, k, kind, rest)
    ensures U16(t) == 0 && U16(t[2..]) == k
    ensures var d := t[4..];
      && |d| >= 3 && U16(d) == LessTwo(k)
      && if |d| < 5 then n == [] else U16(d[3..]) == |n| && |d| >= 5 + |n| && d[5..5 + |n|] == n
  {
    NamesBytes(t, n, k, kind, rest);
    var d := t[4..];
    assert t[0] == t[..2][0] && t[1] == t[..2][1];
    WordOf(t, 2, k);
    WordOf(d, 0, LessTwo(k));
    assert d[0..] == d;
    if |d| >= 5 { WordOf(d, 3, |n|); }
  }

  lemma WordOf(s: seq<byte>, i: nat, x: nat)
    requires i + 2 <= |s| && x < 0x1_0000 && s[i..i + 2] == Put16(x)
    ensures U16(s[i..]) == x
  {
    assert s[i] == s[i..i + 2][0] && s[i + 1] == s[i..i + 2][1];
  }

  lemma NamesTail(t: seq<byte>, n: seq<byte>) returns (k: uint16, kind: byte, rest: seq<byte>)
    requires Stops(t) && ParseEach(t) == Name(n)
    ensures Names(t, n, k, kind, rest)
  {
    hide Put16, U16, Word, ParseServerName, LessTwo, Names;
    if 0 < |t| < 4 { ShortTail(t); }
    if t == [] { NothingThere(); }
    StopAnswer(t);
    hide ParseEach;
    k := U16(t[2..]);
    var d := t[4..];
    ServerNameNames(d, k, n);
    kind := d[2];
    rest := if |d| < 5 then d[3..] else d[5 + |n|..];
    ZeroBytes(t);
    PutU16(t, 2);
    PutU16(d, 0);
    if |d| >= 5 { PutU16(d, 3); }
    assert d[0..] == d;
    Reassembled(t, n, k, kind, rest);
  }

  lemma NothingThere()
    ensures ParseEach([]) == NoName
  {
  }

  lemma ZeroBytes(t: seq<byte>)
    requires |t| >= 2 && U16(t) == 0
    ensures t[0] == 0 && t[1] == 0
  {
  }

  lemma PutU16(s: seq<byte>, i: nat)
    requires i + 2 <= |s|
    ensures s[i..i + 2] == Put16(U16(s[i..]))
  {
    PutWord(s[i], s[i + 1]);
  }

  lemma Reassembled(t: seq<byte>, n: seq<byte>, k: uint16, kind: byte, rest: seq<byte>)
    requires |t| >= 7 && |t| >= 4 + k && |n| < 0x1_0000 && t[0] == 0 && t[1] == 0 && t[2..4] == Put16(k)
    requires var d := t[4..];
      && d[..2] == Put16(LessTwo(k)) && kind == d[2]
      && if |d| < 5 then n == [] && rest == d[3..]
         else d[3..5] == Put16(|n|) && |d| >= 5 + |n| && n == d[5..5 + |n|] && rest == d[5 + |n|..]
    ensures Names(t, n, k, kind, rest)
  {
    hide Put16, LessTwo;
    var d := t[4..];
    assert t == [0, 0] + t[2..4] + d[..2] + [kind] + d[3..];
    if |d| >= 5 { assert d[3..] == d[3..5] + n + rest; }
  }

  /** A block that is answered with `n`: such an extension behind such a row. */
  ghost predicate NamedBy(m: seq<byte>, n: seq<byte>, xs: seq<Ext>, t: seq<byte>, k: uint16, kind: byte, rest: seq<byte>) {
    Row(xs) && m == WriteExts(xs) + t && Names(t, n, k, kind, rest)
  }

  /** A block that names nobody: such a row, and at most three bytes behind it, the first two of which
      are not those of server_name. */
  ghost predicate NamelessBy(m: seq<byte>, xs: seq<Ext>, t: seq<byte>) {
    Row(xs) && m == WriteExts(xs) + t && (t == [] || (2 <= |t| < 4 && t[..2] != [0, 0]))
  }

  /** Exactly which extension blocks are answered with the name `n`. */
  lemma NamedExactly(m: seq<byte>, n: seq<byte>)
    ensures ParseEach(m) == Name(n) <==> exists xs, t, k, kind, rest :: NamedBy(m, n, xs, t, k, kind, rest)
  {
    hide ParseEach, Names, Stops;
    if xs, t, k, kind, rest :| NamedBy(m, n, xs, t, k, kind, rest) {
      RowBefore(xs, t);
      TailNames(t, n, k, kind, rest);
    }
    if ParseEach(m) == Name(n) {
      var xs, t := RowAndTail(m);
      var k, kind, rest := NamesTail(t, n);
      assert NamedBy(m, n, xs, t, k, kind, rest);
    }
  }

  /** And exactly which with no name. */
  lemma NamelessExactly(m: seq<byte>)
    ensures ParseEach(m) == NoName <==> exists xs, t :: NamelessBy(m, xs, t)
  {
    if xs, t :| NamelessBy(m, xs, t) {
      RowBefore(xs, t);
      TailNameless(t);
    }
    if ParseEach(m) == NoName {
      var xs, t := RowAndTail(m);
      TailNameless(t);
      hide ParseEach;
      assert NamelessBy(m, xs, t);
    }
  }

  lemma TailNameless(t: seq<byte>)
    requires Stops(t)
    ensures ParseEach(t) == NoName <==> t == [] || (2 <= |t| < 4 && t[..2] != [0, 0])
  {
    if 0 < |t| < 4 {
      ShortTail(t);
    } else if |t| >= 4 {
      StopAnswer(t);
      ServerNameAnswer(t[4..], U16(t[2..]));
    }
  }

  lemma NotHello(m: seq<byte>)
    ensures ParseEach(m) != NoClientHello
  {
    var xs, t := RowAndTail(m);
    if 0 < |t| < 4 {
      ShortTail(t);
    } else if |t| >= 4 {
      StopAnswer(t);
      ServerNameAnswer(t[4..], U16(t[2..]));
    }
  }

  /** Every field before the extension block is in place, and the block too. */
  predicate FieldsOk(b: seq<byte>) {
    |b| >= 38 &&
    var m := b[38..];
    var session := U8(m);
    session <= 32 && session <= |Drop(m, 1)| &&
    var suites := Drop(m, 1)[session..];
    0 < U16(suites) <= |Drop(suites, 2)| &&
    var compressions := Drop(suites, 2)[U16(suites)..];
    0 < U8(compressions) <= |Drop(compressions, 1)| &&
    var exts := Drop(compressions, 1)[U8(compressions)..];
    U16(exts) <= |Drop(exts, 2)|
  }

  /** The extension block of a body, when every field before it is in place. */
  function BlockOf(b: seq<byte>): (r: seq<byte>)
    requires FieldsOk(b)
  {
    var m := b[38..];
    var suites := Drop(m, 1)[U8(m)..];
    var compressions := Drop(suites, 2)[U16(suites)..];
    var exts := Drop(compressions, 1)[U8(compressions)..];
    Drop(exts, 2)[..U16(exts)]
  }

  lemma ReachesBlock(b: seq<byte>)
    requires |b| >= 38
    ensures if FieldsOk(b) then ParseSession(b[38..]) == ParseEach(BlockOf(b)) else ParseSession(b[38..]).InvalidLength?
  {
    hide ParseEach;
    var m := b[38..];
    if U8(m) <= 32 && U8(m) <= |Drop(m, 1)| {
      var suites := Drop(m, 1)[U8(m)..];
      assert ParseSession(m) == ParseSuites(suites);
      if 0 < U16(suites) <= |Drop(suites, 2)| {
        var compressions := Drop(suites, 2)[U16(suites)..];
        assert ParseSuites(suites) == ParseCompressions(compressions);
      }
    }
  }

  /** Exactly when the reader steps outside a record's body: it is a ClientHello of the right length
      whose fixed fields are cut short, or whose extension block breaks off. */
  lemma BodyRange(b: seq<byte>)
    ensures ParseBody(b).OutOfRange? <==>
      && U8(b) == 1 && U24(Drop(b, 1)) == (|b| + 0x1_0000_0000 - 4) % 0x1_0000_0000
      && (|b| < 38 || (FieldsOk(b) && exists xs :: BreaksOff(BlockOf(b), xs)))
  {
    if |b| >= 38 {
      ReachesBlock(b);
      if FieldsOk(b) {
        if ParseEach(BlockOf(b)).OutOfRange? {
          var xs := LeavesBreaksOff(BlockOf(b));
        }
        if xs :| BreaksOff(BlockOf(b), xs) {
          BreaksOffLeaves(BlockOf(b), xs);
        }
      }
    }
  }

  /** The message is a ClientHello whose 24-bit length is that of the record, and it has its fixed
      fields. */
  predicate HeadOk(b: seq<byte>) {
    |b| >= 38 && b[0] == 1 && Word(Word(b[1], b[2]), b[3]) == (|b| + 0x1_0000_0000 - 4) % 0x1_0000_0000
  }

  lemma HeadMeaning(b: seq<byte>)
    ensures HeadOk(b) <==> |b| >= 38 && U8(b) == 1 && U24(Drop(b, 1)) == (|b| + 0x1_0000_0000 - 4) % 0x1_0000_0000
    ensures HeadOk(b) && |b| < 0x1_0000 ==> b[..4] == [1, 0] + Put16(|b| - 4)
    ensures ParseBody(b) == if HeadOk(b) then ParseSession(b[38..])
      else if U8(b) != 1 then NoClientHello
      else if U24(Drop(b, 1)) != (|b| + 0x1_0000_0000 - 4) % 0x1_0000_0000 then InvalidLength(Body) else OutOfRange
  {
    if HeadOk(b) && |b| < 0x1_0000 { assert b[..4] == [b[0], b[1], b[2], b[3]]; }
  }

  /** The fields before the extension block, written out: a session id, cipher suites, compression
      methods, and the block, or less than the two bytes of its length. `rest` may be anything. */
  predicate FieldsAre(b: seq<byte>, session: seq<byte>, suites: seq<byte>, compressions: seq<byte>, block: seq<byte>, rest: seq<byte>) {
    && |b| >= 38 && |session| <= 32 && 0 < |suites| < 0x1_0000 && 0 < |compressions| < 0x100 && |block| < 0x1_0000
    && var front := [|session|] + (session + (Put16(|suites|) + (suites + ([|compressions|] + compressions))));
    && (b[38..] == front + (Put16(|block|) + (block + rest)) || (block == [] && |rest| < 2 && b[38..] == front + rest))
  }

  lemma BlockAt(exts: seq<byte>)
    requires U16(exts) <= |Drop(exts, 2)|
    ensures var block := Drop(exts, 2)[..U16(exts)];
      if |exts| < 2 then block == []
      else exts == Put16(|block|) + (block + Drop(exts, 2)[U16(exts)..])
  {
    if |exts| >= 2 { WordAt(exts); }
  }

  lemma Regroup(m: seq<byte>, a: seq<byte>, b: seq<byte>, s: seq<byte>, c: seq<byte>, d: seq<byte>, x: seq<byte>, e: seq<byte>, f: seq<byte>, y: seq<byte>)
    requires s == c + (d + x) && x == e + (f + y)
    ensures m == a + (b + s) <==> m == (a + (b + (c + (d + (e + f))))) + y
  {
    assert a + (b + s) == (a + (b + (c + (d + (e + f))))) + y;
  }

  lemma FieldsWrittenOut(b: seq<byte>) returns (session: seq<byte>, suites: seq<byte>, compressions: seq<byte>, rest: seq<byte>)
    requires FieldsOk(b)
    ensures FieldsAre(b, session, suites, compressions, BlockOf(b), rest)
  {
    var m := b[38..];
    session := Drop(m, 1)[..U8(m)];
    var s := Drop(m, 1)[U8(m)..];
    suites := Drop(s, 2)[..U16(s)];
    var c := Drop(s, 2)[U16(s)..];
    compressions := Drop(c, 1)[..U8(c)];
    var exts := Drop(c, 1)[U8(c)..];
    BlockAt(exts);
    ByteAt(m);
    ByteAt(c);
    WordAt(s);
    rest := if |exts| < 2 then exts else Drop(exts, 2)[U16(exts)..];
    Regroup(m, [|session|], session, s, Put16(|suites|), suites, c, [|compressions|], compressions, exts);
  }

  lemma ByteAt(m: seq<byte>)
    requires 0 < |m| && U8(m) <= |Drop(m, 1)|
    ensures m == [U8(m)] + (Drop(m, 1)[..U8(m)] + Drop(m, 1)[U8(m)..])
  {
  }

  lemma WordAt(s: seq<byte>)
    requires 2 <= |s| && U16(s) <= |Drop(s, 2)|
    ensures s == Put16(U16(s)) + (Drop(s, 2)[..U16(s)] + Drop(s, 2)[U16(s)..])
  {
    PutWord(s[0], s[1]);
    hide Put16, Word;
    assert s == [s[0], s[1]] + s[2..];
  }

  lemma SessionTaken(m: seq<byte>, x: seq<byte>, s: seq<byte>)
    requires m == [|x|] + (x + s) && |x| < 0x100
    ensures U8(m) == |x| <= |Drop(m, 1)| && Drop(m, 1)[|x|..] == s
  {
    assert Drop(m, 1) == x + s;
  }

  lemma SuitesTaken(m: seq<byte>, x: seq<byte>, s: seq<byte>)
    requires |x| < 0x1_0000 && m == Put16(|x|) + (x + s)
    ensures U16(m) == |x| <= |Drop(m, 2)| && Drop(m, 2)[|x|..] == s && Drop(m, 2)[..|x|] == x
  {
    Taken16(|x|, x + s);
  }

  lemma WrittenOutFields(b: seq<byte>, session: seq<byte>, suites: seq<byte>, compressions: seq<byte>, block: seq<byte>, rest: seq<byte>)
    requires FieldsAre(b, session, suites, compressions, block, rest)
    ensures FieldsOk(b) && BlockOf(b) == block
  {
    var exts := if block == [] && |rest| < 2 && b[38..] == [|session|] + (session + (Put16(|suites|) + (suites + ([|compressions|] + compressions)))) + rest
                then rest else Put16(|block|) + (block + rest);
    var c := [|compressions|] + (compressions + exts);
    var s := Put16(|suites|) + (suites + c);
    var m := b[38..];
    Regroup(m, [|session|], session, s, Put16(|suites|), suites, c, [|compressions|], compressions, exts);
    SessionTaken(m, session, s);
    SuitesTaken(s, suites, c);
    SessionTaken(c, compressions, exts);
    if |exts| >= 2 { SuitesTaken(exts, block, rest); }
    hide Put16, U16, U8, Drop, FieldsAre;
    ShortBlock(exts);
  }

  lemma ShortBlock(exts: seq<byte>)
    ensures |exts| < 2 ==> U16(exts) == 0 && Drop(exts, 2) == []
  {
  }

  /** Where the fields are in place, said without reference to the reader, and what the block then is. */
  lemma FieldsMeaning(b: seq<byte>, block: seq<byte>)
    ensures FieldsOk(b) && BlockOf(b) == block <==>
      exists session, suites, compressions, rest :: FieldsAre(b, session, suites, compressions, block, rest)
  {
    if FieldsOk(b) && BlockOf(b) == block {
      var session, suites, compressions, rest := FieldsWrittenOut(b);
    }
    if session, suites, compressions, rest :| FieldsAre(b, session, suites, compressions, block, rest) {
      WrittenOutFields(b, session, suites, compressions, block, rest);
    }
  }

  /** Exactly which record bodies are answered with the name `n`, and which with no name. All others
      but those of BodyRange are refused for a length, or for not being a ClientHello. */
  lemma BodyNamed(b: seq<byte>, n: seq<byte>)
    ensures ParseBody(b) == Name(n) <==> HeadOk(b) && FieldsOk(b) && exists xs, t, k, kind, rest :: NamedBy(BlockOf(b), n, xs, t, k, kind, rest)
    ensures ParseBody(b) == NoName <==> HeadOk(b) && FieldsOk(b) && exists xs, t :: NamelessBy(BlockOf(b), xs, t)
    ensures ParseBody(b) == NoClientHello <==> |b| == 0 || b[0] != 1
  {
    HeadMeaning(b);
    if HeadOk(b) {
      ReachesBlock(b);
      hide ParseEach, NamedBy, NamelessBy, HeadOk, ParseBody, ParseSession;
      if FieldsOk(b) {
        hide FieldsOk, BlockOf;
        NamedExactly(BlockOf(b), n);
        NamelessExactly(BlockOf(b));
        NotHello(BlockOf(b));
      }
    }
  }

  // ---------- the reader ----------

  /** A memory buffer read through the sticky big-endian reader: buf[lo..hi] is the window, and
      after a short read every number is 0. */
  class Cursor {
    const buf: array<byte>
    var lo: nat
    var hi: nat
    var err: bool

    constructor (buf: array<byte>, lo: nat, hi: nat)
      requires lo <= hi <= buf.Length
      ensures Valid() && this.buf == buf && this.lo == lo && this.hi == hi && !err
    {
      this.buf, this.lo, this.hi, err := buf, lo, hi, false;
    }

    ghost predicate Valid()
      reads this
    {
      lo <= hi <= buf.Length && (err ==> lo == hi)
    }

    ghost function Window(): (w: seq<byte>)
      requires Valid()
      reads this, buf
    {
      buf[lo..hi]
    }

    method ReadUint8() returns (x: nat)
      requires Valid()
      modifies this
      ensures Valid() && hi == old(hi)
      ensures x == U8(old(Window())) && Window() == Drop(old(Window()), 1)
      ensures err == (old(err) || |old(Window())| < 1)
    {
      if err || hi - lo < 1 {
        lo, err := hi, true;
        return 0;
      }
      x, lo := buf[lo], lo + 1;
    }

    method ReadUint16() returns (x: nat)
      requires Valid()
      modifies this
      ensures Valid() && hi == old(hi)
      ensures x == U16(old(Window())) && Window() == Drop(old(Window()), 2)
      ensures err == (old(err) || |old(Window())| < 2)
    {
      if err || hi - lo < 2 {
        lo, err := hi, true;
        return 0;
      }
      x, lo := Word(buf[lo], buf[lo + 1]), lo + 2;
    }

    method ReadUint24() returns (x: nat)
      requires Valid()
      modifies this
      ensures Valid() && hi == old(hi)
      ensures x == U24(old(Window())) && Window() == Drop(old(Window()), 3)
      ensures err == (old(err) || |old(Window())| < 3)
    {
      if err || hi - lo < 3 {
        lo, err := hi, true;
        return 0;
      }
      x, lo := Word(Word(buf[lo], buf[lo + 1]), buf[lo + 2]), lo + 3;
    }

    /** mbuf = mbuf[k:] */
    method Skip(k: nat)
      requires Valid() && k <= hi - lo
      modifies this
      ensures Valid() && hi == old(hi)
      ensures Window() == old(Window())[k..]
    {
      lo := lo + k;
    }

    /** mbuf = mbuf[:k], within the window */
    method Truncate(k: nat)
      requires Valid() && k <= hi - lo
      modifies this
      ensures Valid() && Window() == old(Window())[..k]
    {
      hi := lo + k;
    }

    /** Everything after the record header has been read and the fixed fields begin. */
    method ParseHello() returns (a: Answer)
      requires Valid()
      modifies this
      ensures a == ParseBody(old(Window()))
    {
      hide ParseSession;
      var length := hi - lo;
      ghost var b := Window();
      var kind := ReadUint8();
      if kind != 1 {
        return NoClientHello;
      }
      var l := ReadUint24();
      if l != (length + 0x1_0000_0000 - 4) % 0x1_0000_0000 {
        return InvalidLength(Body);
      }
      assert Window() == Drop(b, 4);
      if hi - lo < 34 {
        return OutOfRange;
      }
      Skip(1);
      Skip(1);
      Skip(4);
      Skip(28);
      assert Window() == b[38..];
      a := SkipFields();
    }

    /** The session id, and what follows it. */
    method SkipFields() returns (a: Answer)
      requires Valid()
      modifies this
      ensures a == ParseSession(old(Window()))
    {
      ghost var b := Window();
      var sessionLength := ReadUint8();
      if sessionLength > 32 || hi - lo < sessionLength {
        return InvalidLength(SessionId);
      }
      Skip(sessionLength);
      assert ParseSuites(Window()) == ParseSession(b);
      a := SkipSuites();
    }

    /** Cipher suites and compression methods, and what follows them. */
    method SkipSuites() returns (a: Answer)
      requires Valid()
      modifies this
      ensures a == ParseSuites(old(Window()))
    {
      ghost var b := Window();
      var suiteLength := ReadUint16();
      if suiteLength == 0 || hi - lo < suiteLength {
        return InvalidLength(CipherSuites);
      }
      Skip(suiteLength);
      assert ParseCompressions(Window()) == ParseSuites(b);
      ghost var d := Window();
      var compressionLength := ReadUint8();
      if compressionLength < 1 || hi - lo < compressionLength {
        return InvalidLength(Compressions);
      }
      Skip(compressionLength);
      assert ParseExtensions(Window()) == ParseCompressions(d);
      a := SearchExtensions();
    }

    /** The extension block is the rest of the window, cut at its own length. */
    method SearchExtensions() returns (a: Answer)
      requires Valid()
      modifies this
      ensures a == ParseExtensions(old(Window()))
    {
      var extsLength := ReadUint16();
      if hi - lo < extsLength {
        return InvalidLength(Extensions);
      }
      Truncate(extsLength);
      a := FindServerName();
    }

    method FindServerName() returns (a: Answer)
      requires Valid()
      modifies this
      ensures a == ParseEach(old(Window()))
    {
      ghost var m := Window();
      while hi - lo > 0
        invariant Valid() && ParseEach(Window()) == ParseEach(m)
        decreases hi - lo
      {
        ghost var w := Window();
        var extType := ReadUint16();
        var extLength := ReadUint16();
        if hi - lo < extLength {
          return InvalidLength(Extension);
        }
        if extType == 0 {
          a := ServerNameIn(extLength);
          return;
        }
        Skip(extLength);
      }
      return NoName;
    }

    method ServerNameIn(extLength: nat) returns (a: Answer)
      requires Valid() && extLength < 0x1_0000
      modifies this
      ensures a == ParseServerName(old(Window()), extLength)
    {
      var l := ReadUint16();
      if l != (extLength + 0x1_0000 - 2) % 0x1_0000 {
        return InvalidLength(ServerNameExtension);
      }
      if hi - lo < 1 {
        return OutOfRange;
      }
      Skip(1);
      var nameLength := ReadUint16();
      if hi - lo < nameLength {
        return InvalidLength(ServerName);
      }
      return Name(buf[lo..lo + nameLength]);
    }
  }

  datatype Outcome = ReadFailed | ShortBuffer | Read(answer: Answer, used: nat)

  /** The rest of the record's header: how long its body is. */
  method ReadLength(c: Stream, buf: array<byte>, ghost s: seq<byte>) returns (length: Option<nat>, ghost n: nat)
    requires c.Valid() && buf.Length >= 5 && s == [buf[0]] + c.Rest()
    modifies c`pos, c`last, c`fails, buf
    ensures c.Valid() && old(c.pos) <= c.last < old(c.pos) + 4 && c.last <= c.pos
    ensures c.fails == old(c.fails) || c.fails == old(c.fails) + [c.last]
    ensures length.None? ==> c.fails == old(c.fails) + [c.last]
    ensures 1 <= n <= 5 && Holds(s, n, buf[..], old(buf[..]), c.Rest())
    ensures length.None? <==> n < 5
    ensures length.Some? ==> length.value == U16(s[3..])
  {
    ghost var was := buf[..];
    var m, failed := ReadFull(c, buf, 1, 5);
    n := 1 + m;
    Received(s, was, buf[..], was, 1, m);
    if failed {
      return None, n;
    }
    var r := new Cursor(buf, 1, 5);
    r.Skip(1);
    r.Skip(1);
    assert r.Window() == [s[3], s[4]];
    var l := r.ReadUint16();
    return Some(l), n;
  }

  /** The first `k` bytes of a stream are not a whole record. */
  ghost predicate Unfinished(s: seq<byte>, k: nat) {
    k <= |s| && (k < 5 || k < 5 + U16(s[3..]))
  }

  /** Reads one whole record and answers it. `s` is all the client ever sends. The last read is the
      one that completes the record, or that fails short of it. */
  method ReadServerName(c: Stream, buf: array<byte>) returns (res: Outcome, ghost n: nat)
    requires c.Valid() && buf.Length >= 5
    modifies c`pos, c`last, c`fails, buf
    ensures c.Valid() && old(c.fails) <= c.fails
    ensures res.ReadFailed? ==> |c.fails| > |old(c.fails)| && c.fails[|c.fails| - 1] == c.last
    ensures var s := [old(buf[0])] + old(c.Rest());
      && old(c.pos) <= c.last && Unfinished(s, 1 + (c.last - old(c.pos)))
      && 1 <= n && Holds(s, n, buf[..], old(buf[..]), c.Rest())
      && match res
         case ReadFailed => n < 5 || n < 5 + U16(s[3..])
         case ShortBuffer => n == 5 && buf.Length - 5 < U16(s[3..])
         case Read(answer, used) =>
           used == n && n >= 5 && n == 5 + U16(s[3..]) && answer == ParseBody(s[5..n])
  {
    hide ParseBody, U16, Word;
    ghost var s := [buf[0]] + c.Rest();
    ghost var was := buf[..];
    var length;
    length, n := ReadLength(c, buf, s);
    if length.None? {
      return ReadFailed, n;
    }
    if buf.Length - 5 < length.value {
      return ShortBuffer, n;
    }
    ghost var seen := buf[..];
    var m, failed := ReadFull(c, buf, 5, 5 + length.value);
    n := 5 + m;
    Received(s, seen, buf[..], was, 5, m);
    if failed {
      return ReadFailed, n;
    }
    var r := new Cursor(buf, 5, 5 + length.value);
    assert r.Window() == buf[..n][5..] == s[5..n];
    var answer := r.ParseHello();
    return Read(answer, 5 + m), n;
  }
}
