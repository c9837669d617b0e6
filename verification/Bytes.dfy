/** Byte strings, the search used by both scanners, and big- and little-endian numbers. */
module Bytes {

  type byte = x: int | 0 <= x < 0x100
  type uint16 = x: int | 0 <= x < 0x1_0000

  datatype Option<+T> = None | Some(value: T)

  /** A line end, for both scanners. */
  const EOL: seq<byte> := [13, 10]

  /** Pattern `p` stands in `s` at index `i`. */
  predicate At(s: seq<byte>, p: seq<byte>, i: int) {
    0 <= i && i + |p| <= |s| && s[i..i + |p|] == p
  }

  /** Go's bytes.Index: the first index at which `p` stands, or -1. */
  function Index(s: seq<byte>, p: seq<byte>): (i: int)
    ensures i == -1 || 0 <= i <= i + |p| <= |s|
  {
    IndexFrom(s, p, 0)
  }

  function IndexFrom(s: seq<byte>, p: seq<byte>, from: nat): (i: int)
    ensures i == -1 || from <= i <= i + |p| <= |s|
    decreases |s| - from
  {
    if At(s, p, from) then from
    else if from + |p| >= |s| then -1
    else IndexFrom(s, p, from + 1)
  }

  lemma {:induction false} IndexFromIsFirst(s: seq<byte>, p: seq<byte>, from: nat)
    ensures var i := IndexFrom(s, p, from);
      && (i >= 0 ==> At(s, p, i))
      && forall j :: from <= j && (i == -1 || j < i) ==> !At(s, p, j)
    decreases |s| - from
  {
    if !At(s, p, from) && from + |p| < |s| {
      IndexFromIsFirst(s, p, from + 1);
    }
  }

  /** Index is the first match and nothing else is. */
  lemma IndexIsFirst(s: seq<byte>, p: seq<byte>, i: int)
    ensures i == Index(s, p) <==>
      (i == -1 || At(s, p, i)) && forall j :: 0 <= j && (i == -1 || j < i) ==> !At(s, p, j)
  {
    IndexFromIsFirst(s, p, 0);
  }

  lemma AtExtends(s: seq<byte>, t: seq<byte>, p: seq<byte>, i: int)
    requires 0 <= i && i + |p| <= |s|
    ensures At(s + t, p, i) == At(s, p, i)
  {
    assert (s + t)[i..i + |p|] == s[i..i + |p|];
  }

  /** The first match never moves as the buffer grows; a new first match ends in the new bytes. */
  lemma IndexStable(s: seq<byte>, t: seq<byte>, p: seq<byte>)
    ensures Index(s, p) >= 0 ==> Index(s + t, p) == Index(s, p)
    ensures Index(s, p) == -1 ==> Index(s + t, p) == -1 || Index(s + t, p) + |p| > |s|
  {
    var i, i' := Index(s, p), Index(s + t, p);
    IndexIsFirst(s, p, i);
    IndexIsFirst(s + t, p, i');
    if i >= 0 {
      AtExtends(s, t, p, i);
    }
    if 0 <= i' && i' + |p| <= |s| {
      AtExtends(s, t, p, i');
    }
  }

  /** A text as bytes; it is for ASCII. */
  function Ascii(s: string): seq<byte> {
    seq(|s|, i requires 0 <= i < |s| => if s[i] < 128 as char then s[i] as int else 0)
  }

  /** An array slice, in the form the specifications use. */
  ghost predicate AllZero(s: seq<byte>) {
    forall i :: 0 <= i < |s| ==> s[i] == 0
  }
}
