/** The password hash in the configuration file: hash.MarshalJSON and hash.UnmarshalJSON of
    cmd/reverseproxy/main.go. */
module HashCodec {
  import opened Bytes

  type Byte = bv8

  const SIZE: nat := 32
  const QUOTE: Byte := 34

  function Digit(t: Byte): Byte { if t > 9 then 55 + t else 48 + t }

  predicate IsHex(b: Byte) { 48 <= b <= 57 || 65 <= b <= 70 || 97 <= b <= 102 }

  function Value(b: Byte): Byte {
    if 48 <= b <= 57 then b - 48 else if 65 <= b <= 70 then b - 55 else b - 87
  }

  function Join(high: Byte, low: Byte): Byte { (high << 4) | low }

  function Upper(b: Byte): Byte { if 97 <= b <= 102 then b - 32 else b }

  /** The digits, by their characters: 0 to 9 and A to F are printed; a to f are read too. */
  lemma DigitMeaning(d: Byte)
    requires d < 16
    ensures d < 10 ==> Digit(d) == '0' as Byte + d && Value('0' as Byte + d) == d
    ensures d >= 10 ==> Digit(d) == 'A' as Byte + (d - 10) && Value('A' as Byte + (d - 10)) == Value('a' as Byte + (d - 10)) == d
    ensures IsHex(Digit(d)) && Upper(Digit(d)) == Digit(d)
  {
  }

  /** And there are no others. */
  lemma HexMeaning(b: Byte)
    ensures IsHex(b) <==> '0' as Byte <= b <= '9' as Byte || 'A' as Byte <= b <= 'F' as Byte || 'a' as Byte <= b <= 'f' as Byte
    ensures IsHex(b) ==> Value(b) < 16
  {
  }

  /** Two digits are a number to the base of sixteen, the first one the higher. */
  lemma JoinMeaning(high: Byte, low: Byte)
    requires high < 16 && low < 16
    ensures Join(high, low) as int == 16 * high as int + low as int
  {
    assert (high << 4) & low == 0;
    assert (high << 4) | low == (high << 4) + low;
    assert high << 4 == high * 16;
  }

  /** What a nibble is printed as is read back, and the other way round but for case. */
  lemma DigitRoundTrip(b: Byte)
    ensures Join(Value(Digit(b >> 4)), Value(Digit(b & 15))) == b
    ensures IsHex(Digit(b >> 4)) && IsHex(Digit(b & 15))
  {
  }

  lemma ValueRoundTrip(x: Byte, y: Byte)
    requires IsHex(x) && IsHex(y)
    ensures var b := Join(Value(x), Value(y)); Digit(b >> 4) == Upper(x) && Digit(b & 15) == Upper(y)
  {
  }

  /** `text` spells `h`: quotes, and two digits to the byte. */
  ghost predicate Spells(text: seq<Byte>, h: seq<Byte>) {
    && |text| == 2 * |h| + 2 && text[0] == QUOTE && text[2 * |h| + 1] == QUOTE
    && forall i :: 0 <= i < |h| ==> SpellsAt(text, h, i)
  }

  ghost predicate SpellsAt(text: seq<Byte>, h: seq<Byte>, i: nat)
    requires i < |h| && |text| == 2 * |h| + 2
  {
    IsHex(text[2 * i + 1]) && IsHex(text[2 * i + 2]) && h[i] == Join(Value(text[2 * i + 1]), Value(text[2 * i + 2]))
  }

  ghost predicate WellFormed(text: seq<Byte>) {
    && |text| == 2 * SIZE + 2 && text[0] == QUOTE && text[2 * SIZE + 1] == QUOTE
    && forall i :: 1 <= i <= 2 * SIZE ==> IsHex(text[i])
  }

  method MarshalJSON(h: array<Byte>) returns (r: array<Byte>)
    requires h.Length == SIZE
    ensures fresh(r) && r.Length == 2 * SIZE + 2
    ensures Spells(r[..], h[..]) && forall i :: 0 <= i < r.Length ==> Upper(r[i]) == r[i]
  {
    r := new Byte[2 * SIZE + 2](_ => 0);
    r[0] := QUOTE;
    r[2 * SIZE + 1] := QUOTE;
    for n := 0 to SIZE
      invariant r[0] == QUOTE && r[2 * SIZE + 1] == QUOTE
      invariant forall i :: 0 <= i < n ==> SpellsAt(r[..], h[..], i)
      invariant forall i :: 0 <= i <= 2 * n ==> Upper(r[i]) == r[i]
    {
      ghost var before := r[..];
      var b := h[n];
      DigitRoundTrip(b);
      r[2 * n + 1] := Digit(b >> 4);
      r[2 * n + 2] := Digit(b & 15);
      forall i | 0 <= i < n ensures SpellsAt(r[..], h[..], i) {
        assert SpellsAt(before, h[..], i);
      }
    }
  }

  /** On success every byte of the hash is set; the data is refused exactly when it is not
      well-formed. */
  method UnmarshalJSON(h: array<Byte>, data: seq<Byte>) returns (ok: bool)
    requires h.Length == SIZE
    modifies h
    ensures ok == WellFormed(data)
    ensures ok ==> Spells(data, h[..])
  {
    if |data| != 2 * SIZE + 2 || data[0] != QUOTE || data[2 * SIZE + 1] != QUOTE {
      return false;
    }
    for n := 0 to 2 * SIZE
      invariant forall i :: 1 <= i <= n ==> IsHex(data[i])
      invariant forall i :: 0 <= i < n / 2 ==> SpellsAt(data, h[..], i)
      invariant n % 2 == 1 ==> h[n / 2] == Value(data[n]) << 4
    {
      ghost var before := h[..];
      var b := data[n + 1];
      if !IsHex(b) {
        return false;
      }
      var v := Value(b);
      if n % 2 == 0 {
        h[n / 2] := v << 4;
      } else {
        h[n / 2] := h[n / 2] | v;
      }
      forall i | 0 <= i < n / 2 ensures SpellsAt(data, h[..], i) {
        assert SpellsAt(data, before, i);
      }
    }
    return true;
  }

  /** At most one hash is spelled by a text, and the text printed for it is the text read, with
      its digits in upper case. */
  lemma SpellingUnique(text: seq<Byte>, h: seq<Byte>, g: seq<Byte>)
    requires Spells(text, h) && Spells(text, g)
    ensures h == g
  {
    forall i | 0 <= i < |h| ensures h[i] == g[i] {
      assert SpellsAt(text, h, i) && SpellsAt(text, g, i);
    }
  }

  lemma PrintAfterParse(text: seq<Byte>, h: seq<Byte>, printed: seq<Byte>)
    requires Spells(text, h) && Spells(printed, h)
    ensures |printed| == |text| && forall i :: 0 <= i < |text| ==> Upper(printed[i]) == Upper(text[i])
  {
    forall i | 0 <= i < |text| ensures Upper(printed[i]) == Upper(text[i]) {
      if 0 < i < |text| - 1 {
        var k := (i - 1) / 2;
        assert SpellsAt(text, h, k) && SpellsAt(printed, h, k);
        ValueRoundTrip(text[2 * k + 1], text[2 * k + 2]);
        ValueRoundTrip(printed[2 * k + 1], printed[2 * k + 2]);
      }
    }
  }

  /** Print, then parse: the hash that was there. */
  method RoundTrip(h: array<Byte>) returns (g: array<Byte>)
    requires h.Length == SIZE
    ensures g[..] == h[..] && fresh(g)
  {
    var r := MarshalJSON(h);
    g := new Byte[SIZE](_ => 0);
    forall i | 1 <= i <= 2 * SIZE ensures IsHex(r[i]) {
      assert SpellsAt(r[..], h[..], (i - 1) / 2);
    }
    var ok := UnmarshalJSON(g, r[..]);
    SpellingUnique(r[..], h[..], g[..]);
  }

  /** Parse, then print: the same text in upper case. */
  method Canonical(data: seq<Byte>) returns (r: Option<seq<Byte>>)
    ensures r.Some? == WellFormed(data)
    ensures r.Some? ==> |r.value| == |data| && forall i :: 0 <= i < |data| ==> r.value[i] == Upper(data[i])
  {
    var h := new Byte[SIZE](_ => 0);
    var ok := UnmarshalJSON(h, data);
    if !ok {
      return None;
    }
    var printed := MarshalJSON(h);
    PrintAfterParse(data, h[..], printed[..]);
    return Some(printed[..]);
  }
}
