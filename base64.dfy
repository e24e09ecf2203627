/**
 * Base64 as PHP's `base64_encode` and `base64_decode` (non-strict) compute it, over the
 * alphabet of table 1 in section 4 of RFC 4648.
 *
 * The encoder emits four alphabet characters per three bytes and pads the final group
 * with '='. The non-strict decoder skips '=' and every character outside the alphabet,
 * then packs the remaining 6-bit values into bytes; a final lone 6-bit value yields nothing.
 */
module Base64 {
  import opened Wrappers

  type Byte = x: int | 0 <= x < 256
  type Bytes = seq<Byte>
  type Sextet = x: int | 0 <= x < 64

  /** Table 1 of RFC 4648: value to character. */
  function SextetChar(x: Sextet): char {
    if x < 26 then 'A' + x as char
    else if x < 52 then 'a' + (x - 26) as char
    else if x < 62 then '0' + (x - 52) as char
    else if x == 62 then '+'
    else '/'
  }

  /** Table 1 of RFC 4648 read backwards; None for '=' and any character outside the alphabet. */
  function CharSextet(c: char): (r: Option<Sextet>)
    ensures r.Some? ==> SextetChar(r.value) == c
  {
    if 'A' <= c <= 'Z' then Some((c - 'A') as int)
    else if 'a' <= c <= 'z' then Some((c - 'a') as int + 26)
    else if '0' <= c <= '9' then Some((c - '0') as int + 52)
    else if c == '+' then Some(62)
    else if c == '/' then Some(63)
    else None
  }

  lemma CharSextetOfSextetChar(x: Sextet)
    ensures CharSextet(SextetChar(x)) == Some(x)
  {
  }

  /** The 6-bit groups of `d`, most significant bits first, the last group zero-filled. */
  function EncodeSextets(d: Bytes): (q: seq<Sextet>)
    ensures |q| == (4 * |d| + 2) / 3
    decreases |d|
  {
    if |d| == 0 then []
    else if |d| == 1 then
      [d[0] / 4, (d[0] % 4) * 16]
    else if |d| == 2 then
      [d[0] / 4, (d[0] % 4) * 16 + d[1] / 16, (d[1] % 16) * 4]
    else
      [d[0] / 4, (d[0] % 4) * 16 + d[1] / 16, (d[1] % 16) * 4 + d[2] / 64, d[2] % 64]
      + EncodeSextets(d[3..])
  }

  function Chars(q: seq<Sextet>): (s: string)
    ensures |s| == |q|
  {
    if q == [] then [] else [SextetChar(q[0])] + Chars(q[1..])
  }

  /** The '=' characters that complete the final group of four. */
  function Padding(n: nat): string {
    if n % 3 == 1 then "==" else if n % 3 == 2 then "=" else ""
  }

  /** The sextets and the padding fill whole groups of four characters. */
  lemma EncodedLength(n: nat)
    ensures (4 * n + 2) / 3 + |Padding(n)| == 4 * ((n + 2) / 3)
  {
    var k := n / 3;
    if n % 3 == 0 {
      assert 4 * n + 2 == 3 * (4 * k) + 2;
      assert n + 2 == 3 * k + 2;
    } else if n % 3 == 1 {
      assert 4 * n + 2 == 3 * (4 * k + 2);
      assert n + 2 == 3 * (k + 1);
    } else {
      assert 4 * n + 2 == 3 * (4 * k + 3) + 1;
      assert n + 2 == 3 * (k + 1) + 1;
    }
  }

  /** PHP's `base64_encode`. */
  function Encode(d: Bytes): (s: string)
    ensures |s| == 4 * ((|d| + 2) / 3)
  {
    EncodedLength(|d|);
    Chars(EncodeSextets(d)) + Padding(|d|)
  }

  /** The alphabet characters of `s` as 6-bit values, every other character skipped. */
  function Sextets(s: string): (q: seq<Sextet>)
    ensures |q| <= |s|
  {
    if s == [] then []
    else match CharSextet(s[0])
      case Some(x) => [x] + Sextets(s[1..])
      case None => Sextets(s[1..])
  }

  /** Packs 6-bit values into bytes; a trailing lone 6-bit value yields no byte. */
  function DecodeSextets(q: seq<Sextet>): (d: Bytes)
    ensures |d| == 3 * |q| / 4
    decreases |q|
  {
    if |q| < 2 then []
    else
      var b0 := q[0] as int * 4 + q[1] as int / 16;
      if |q| == 2 then [b0]
      else
        var b1 := (q[1] as int % 16) * 16 + q[2] as int / 4;
        if |q| == 3 then [b0, b1]
        else [b0, b1, (q[2] as int % 4) * 64 + q[3] as int] + DecodeSextets(q[4..])
  }

  /** PHP's `base64_decode` in its default, non-strict mode. */
  function Decode(s: string): (d: Bytes)
    ensures |d| <= 3 * |s| / 4
  {
    DecodeSextets(Sextets(s))
  }

  lemma {:induction false} SextetsAppend(a: string, b: string)
    ensures Sextets(a + b) == Sextets(a) + Sextets(b)
  {
    if a == [] {
      assert a + b == b;
    } else {
      assert (a + b)[0] == a[0];
      assert (a + b)[1..] == a[1..] + b;
      SextetsAppend(a[1..], b);
    }
  }

  lemma {:induction false} SextetsOfChars(q: seq<Sextet>)
    ensures Sextets(Chars(q)) == q
  {
    if q != [] {
      CharSextetOfSextetChar(q[0]);
      SextetsAppend([SextetChar(q[0])], Chars(q[1..]));
      SextetsOfChars(q[1..]);
    }
  }

  lemma SextetsOfPadding(n: nat)
    ensures Sextets(Padding(n)) == []
  {
    assert CharSextet('=') == None;
    var p := Padding(n);
    if p == "==" {
      assert p[1..] == "=";
      assert Sextets(p) == Sextets("=");
    }
  }

  lemma DecodeOneByte(b0: Byte)
    ensures DecodeSextets([b0 / 4, (b0 % 4) * 16]) == [b0]
  {
    assert ((b0 % 4) * 16) / 16 == b0 % 4;
  }

  lemma DecodeTwoBytes(b0: Byte, b1: Byte)
    ensures DecodeSextets([b0 / 4, (b0 % 4) * 16 + b1 / 16, (b1 % 16) * 4]) == [b0, b1]
  {
    var c1 := (b0 % 4) * 16 + b1 / 16;
    assert c1 / 16 == b0 % 4 && c1 % 16 == b1 / 16;
    assert ((b1 % 16) * 4) / 4 == b1 % 16;
  }

  lemma DecodeFullGroup(b0: Byte, b1: Byte, b2: Byte)
    ensures DecodeSextets([b0 / 4, (b0 % 4) * 16 + b1 / 16, (b1 % 16) * 4 + b2 / 64, b2 % 64])
         == [b0, b1, b2]
  {
    var c1 := (b0 % 4) * 16 + b1 / 16;
    var c2 := (b1 % 16) * 4 + b2 / 64;
    assert c1 / 16 == b0 % 4 && c1 % 16 == b1 / 16;
    assert c2 / 4 == b1 % 16 && c2 % 4 == b2 / 64;
  }

  /** Decoding works group by group. */
  lemma DecodeGroupThenRest(g: seq<Sextet>, rest: seq<Sextet>)
    requires |g| == 4
    ensures DecodeSextets(g + rest) == DecodeSextets(g) + DecodeSextets(rest)
  {
    assert (g + rest)[4..] == rest;
    assert g[4..] == [];
  }

  lemma {:induction false} DecodeEncodeSextets(d: Bytes)
    ensures DecodeSextets(EncodeSextets(d)) == d
    decreases |d|
  {
    if |d| == 1 {
      DecodeOneByte(d[0]);
    } else if |d| == 2 {
      DecodeTwoBytes(d[0], d[1]);
    } else if |d| >= 3 {
      var g := [d[0] / 4, (d[0] % 4) * 16 + d[1] / 16, (d[1] % 16) * 4 + d[2] / 64, d[2] % 64];
      assert EncodeSextets(d) == g + EncodeSextets(d[3..]);
      DecodeGroupThenRest(g, EncodeSextets(d[3..]));
      DecodeFullGroup(d[0], d[1], d[2]);
      DecodeEncodeSextets(d[3..]);
      assert d == d[..3] + d[3..];
    }
  }

  /** Decoding what `Encode` produced gives back the bytes. */
  lemma {:induction false} DecodeEncode(d: Bytes)
    ensures Decode(Encode(d)) == d
  {
    var q := EncodeSextets(d);
    SextetsAppend(Chars(q), Padding(|d|));
    SextetsOfChars(q);
    SextetsOfPadding(|d|);
    assert Sextets(Encode(d)) == q;
    DecodeEncodeSextets(d);
  }

  /** A base64 text that `Encode` produces re-encodes to itself after decoding. */
  lemma EncodeDecodeOfEncoded(d: Bytes)
    ensures Encode(Decode(Encode(d))) == Encode(d)
  {
    DecodeEncode(d);
  }

  /** Unpadded text decodes, but encoding it again adds the padding: "aGk" comes back as "aGk=". */
  lemma UnpaddedTextComesBackPadded()
    ensures Decode("aGk") == [104, 105]
    ensures Encode(Decode("aGk")) == "aGk="
  {
  }
}
