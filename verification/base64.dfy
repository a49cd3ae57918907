/** Base 64 encoding as RFC 4648 defines it and as Go's encoding/base64
    package implements it: section 4 (standard alphabet) and section 5 (URL
    and filename safe alphabet), each with or without '=' padding.

    `Encode` is the encoder (`EncodeToString`) of the four predefined Go
    encodings.  `Decode` is the canonical decoder of section 3.5: it accepts
    exactly the strings `Encode` produces, so the two are inverse in both
    directions. */
module Base64 {
  import opened Wrappers

  type byte = bv8

  /** A 6-bit group: the index of one alphabet character. */
  type sextet = x: bv8 | x < 64

  /** One of Go's predefined encodings: StdEncoding, URLEncoding,
      RawStdEncoding or RawURLEncoding. */
  datatype Encoding = Encoding(urlSafe: bool, padded: bool)

  const StdEncoding := Encoding(false, true)
  const URLEncoding := Encoding(true, true)
  const RawStdEncoding := Encoding(false, false)
  const RawURLEncoding := Encoding(true, false)

  const PadChar := '='

  /** The position of `c` in the alphabet of `e`, or -1 for a character
      outside it (RFC 4648 tables 1 and 2). */
  function Index(e: Encoding, c: char): (i: int)
    ensures -1 <= i < 64
  {
    if 'A' <= c <= 'Z' then c as int - 'A' as int
    else if 'a' <= c <= 'z' then c as int - 'a' as int + 26
    else if '0' <= c <= '9' then c as int - '0' as int + 52
    else if c == (if e.urlSafe then '-' else '+') then 62
    else if c == (if e.urlSafe then '_' else '/') then 63
    else -1
  }

  predicate InAlphabet(e: Encoding, c: char)
  {
    0 <= Index(e, c)
  }

  /** The alphabet character for the 6-bit value `x`. */
  function Char(e: Encoding, x: sextet): (c: char)
    ensures Index(e, c) == x as int
  {
    if x < 26 then ('A' as int + x as int) as char
    else if x < 52 then ('a' as int + (x as int - 26)) as char
    else if x < 62 then ('0' as int + (x as int - 52)) as char
    else if x == 62 then (if e.urlSafe then '-' else '+')
    else (if e.urlSafe then '_' else '/')
  }

  /** The 6-bit value of an alphabet character. */
  function Value(e: Encoding, c: char): (x: sextet)
    requires InAlphabet(e, c)
    ensures Char(e, x) == c
  {
    Index(e, c) as bv8
  }

  // The four 6-bit groups of the 24-bit group b0 b1 b2, most significant first.
  function Hi0(b0: byte): (x: sextet) { b0 >> 2 }
  function Hi1(b0: byte, b1: byte): (x: sextet) { ((b0 & 3) << 4) | (b1 >> 4) }
  function Hi2(b1: byte, b2: byte): (x: sextet) { ((b1 & 15) << 2) | (b2 >> 6) }
  function Hi3(b2: byte): (x: sextet) { b2 & 63 }

  // The three bytes that consecutive 6-bit groups spell out.
  function Lo0(s0: sextet, s1: sextet): (b: byte) { (s0 << 2) | (s1 >> 4) }
  function Lo1(s1: sextet, s2: sextet): (b: byte) { (s1 << 4) | (s2 >> 2) }
  function Lo2(s2: sextet, s3: sextet): (b: byte) { (s2 << 6) | s3 }

  /** Splitting a 24-bit group and joining the pieces again gives it back,
      and a 6-bit group whose unused low bits are zero comes back too. */
  lemma GroupRoundTrip(b0: byte, b1: byte, b2: byte)
    ensures Lo0(Hi0(b0), Hi1(b0, b1)) == b0
    ensures Lo1(Hi1(b0, b1), Hi2(b1, b2)) == b1
    ensures Lo2(Hi2(b1, b2), Hi3(b2)) == b2
    ensures Hi1(b0, 0) & 15 == 0 && Hi2(b1, 0) & 3 == 0
  {
  }

  lemma SextetRoundTrip(s0: sextet, s1: sextet, s2: sextet, s3: sextet)
    ensures Hi0(Lo0(s0, s1)) == s0
    ensures Hi1(Lo0(s0, s1), Lo1(s1, s2)) == s1
    ensures Hi2(Lo1(s1, s2), Lo2(s2, s3)) == s2
    ensures Hi3(Lo2(s2, s3)) == s3
    ensures s1 & 15 == 0 ==> Hi1(Lo0(s0, s1), 0) == s1
    ensures s2 & 3 == 0 ==> Hi2(Lo1(s1, s2), 0) == s2
  {
  }

  /** The |b| + 1 alphabet characters that one group of one to three bytes
      spells; a short group is filled with zero bits. */
  function EncodeGroup(e: Encoding, b: seq<byte>): (g: string)
    requires 1 <= |b| <= 3
    ensures |g| == |b| + 1
    ensures forall i :: 0 <= i < |g| ==> InAlphabet(e, g[i])
  {
    var b1: byte := if |b| > 1 then b[1] else 0;
    var b2: byte := if |b| > 2 then b[2] else 0;
    [Char(e, Hi0(b[0])), Char(e, Hi1(b[0], b1)), Char(e, Hi2(b1, b2)), Char(e, Hi3(b2))][..|b| + 1]
  }

  /** The output for one group: its characters, then '=' up to four
      characters when the encoding pads. */
  function EncodeQuantum(e: Encoding, b: seq<byte>): (q: string)
    requires 1 <= |b| <= 3
    ensures |q| == if e.padded then 4 else |b| + 1
    ensures forall i :: 0 <= i < |q| ==> InAlphabet(e, q[i]) || (e.padded && q[i] == PadChar)
  {
    EncodeGroup(e, b) + (if e.padded then seq(3 - |b|, _ => PadChar) else [])
  }

  /** EncodeToString: the input is taken three bytes at a time from the front. */
  function Encode(e: Encoding, src: seq<byte>): (dst: string)
    // padded: 4 * ceil(n / 3) characters
    ensures e.padded ==> |dst| == 4 * ((|src| + 2) / 3)
    // unpadded: ceil(4 * n / 3) characters
    ensures !e.padded ==> |dst| == (4 * |src| + 2) / 3
    ensures forall i :: 0 <= i < |dst| ==> InAlphabet(e, dst[i]) || (e.padded && dst[i] == PadChar)
    decreases |src|
  {
    if |src| == 0 then ""
    else
      var n := if |src| < 3 then |src| else 3;
      EncodeQuantum(e, src[..n]) + Encode(e, src[n..])
  }

  /** The bytes that two to four alphabet characters spell; None for a
      character outside the alphabet, a single character, or unused low bits
      that are not zero. */
  function DecodeGroup(e: Encoding, g: string): (r: Option<seq<byte>>)
    requires 1 <= |g| <= 4
  {
    if |g| == 1 || exists i :: 0 <= i < |g| && !InAlphabet(e, g[i]) then None
    else
      var s0, s1 := Value(e, g[0]), Value(e, g[1]);
      if |g| == 2 then
        if s1 & 15 != 0 then None else Some([Lo0(s0, s1)])
      else
        var s2 := Value(e, g[2]);
        if |g| == 3 then
          if s2 & 3 != 0 then None else Some([Lo0(s0, s1), Lo1(s1, s2)])
        else
          var s3 := Value(e, g[3]);
          Some([Lo0(s0, s1), Lo1(s1, s2), Lo2(s2, s3)])
  }

  /** The number of characters of a four-character quantum that are not
      padding: '=' may only stand at the end of the final quantum. */
  function QuantumChars(e: Encoding, q: string, final: bool): (n: nat)
    requires |q| == 4
  {
    if e.padded && final && q[2] == PadChar && q[3] == PadChar then 2
    else if e.padded && final && q[3] == PadChar then 3
    else 4
  }

  /** The bytes one quantum spells; `final` says whether it ends the input.
      A padded encoding only has four-character quanta. */
  function DecodeQuantum(e: Encoding, q: string, final: bool): (r: Option<seq<byte>>)
    requires 1 <= |q| <= 4
  {
    if |q| < 4 then (if e.padded then None else DecodeGroup(e, q))
    else DecodeGroup(e, q[..QuantumChars(e, q, final)])
  }

  /** Canonical decoding (RFC 4648 section 3.5): None for a character
      outside the alphabet, a misplaced or missing '=', a length no encoding
      has, or non-zero unused bits. */
  function Decode(e: Encoding, s: string): (r: Option<seq<byte>>)
    decreases |s|
  {
    if |s| == 0 then Some([])
    else
      var n := if |s| < 4 then |s| else 4;
      match DecodeQuantum(e, s[..n], n == |s|)
      case None => None
      case Some(b) =>
        if n == |s| then Some(b)
        else
          match Decode(e, s[n..])
          case None => None
          case Some(rest) => Some(b + rest)
  }

  lemma GroupDecodesBack(e: Encoding, b: seq<byte>)
    requires 1 <= |b| <= 3
    ensures DecodeGroup(e, EncodeGroup(e, b)) == Some(b)
  {
    var b1: byte := if |b| > 1 then b[1] else 0;
    var b2: byte := if |b| > 2 then b[2] else 0;
    GroupRoundTrip(b[0], b1, b2);
    var g := EncodeGroup(e, b);
    assert forall i :: 0 <= i < |g| ==> InAlphabet(e, g[i]);
    if |b| == 1 {
      assert [b[0]] == b;
    } else if |b| == 2 {
      assert [b[0], b[1]] == b;
    } else {
      assert [b[0], b[1], b[2]] == b;
    }
  }

  lemma GroupEncodesBack(e: Encoding, g: string)
    requires 1 <= |g| <= 4
    requires DecodeGroup(e, g).Some?
    ensures var b := DecodeGroup(e, g).value;
      1 <= |b| <= 3 && |g| == |b| + 1 && EncodeGroup(e, b) == g
  {
    var s0, s1 := Value(e, g[0]), Value(e, g[1]);
    if |g| == 2 {
      SextetRoundTrip(s0, s1, 0, 0);
      assert EncodeGroup(e, [Lo0(s0, s1)]) == [Char(e, s0), Char(e, s1)] == g;
    } else {
      var s2 := Value(e, g[2]);
      if |g| == 3 {
        SextetRoundTrip(s0, s1, s2, 0);
        assert EncodeGroup(e, [Lo0(s0, s1), Lo1(s1, s2)]) == [Char(e, s0), Char(e, s1), Char(e, s2)] == g;
      } else {
        var s3 := Value(e, g[3]);
        SextetRoundTrip(s0, s1, s2, s3);
        assert EncodeGroup(e, [Lo0(s0, s1), Lo1(s1, s2), Lo2(s2, s3)])
          == [Char(e, s0), Char(e, s1), Char(e, s2), Char(e, s3)] == g;
      }
    }
  }

  lemma {:induction false} QuantumRoundTrip(e: Encoding, b: seq<byte>, final: bool)
    requires 1 <= |b| <= 3
    requires |b| < 3 ==> final
    ensures DecodeQuantum(e, EncodeQuantum(e, b), final) == Some(b)
  {
    var g, q := EncodeGroup(e, b), EncodeQuantum(e, b);
    GroupDecodesBack(e, b);
    if e.padded {
      assert q[..|b| + 1] == g;
      assert q[3] == PadChar <==> |b| < 3;
      assert q[2] == PadChar <==> |b| < 2;
    }
  }

  lemma {:induction false} QuantumInverse(e: Encoding, q: string, final: bool)
    requires 1 <= |q| <= 4
    requires |q| < 4 ==> final
    requires DecodeQuantum(e, q, final).Some?
    ensures var b := DecodeQuantum(e, q, final).value;
      && 1 <= |b| <= 3
      && (|b| < 3 ==> final)
      && EncodeQuantum(e, b) == q
  {
    if |q| < 4 {
      GroupEncodesBack(e, q);
    } else {
      var n := QuantumChars(e, q, final);
      GroupEncodesBack(e, q[..n]);
      var b := DecodeQuantum(e, q, final).value;
      if e.padded {
        assert q == q[..n] + q[n..];
        assert q[n..] == seq(3 - |b|, _ => PadChar);
      }
    }
  }

  /** Decoding what was encoded gives back the input bytes. */
  lemma {:induction false} DecodeEncode(e: Encoding, src: seq<byte>)
    ensures Decode(e, Encode(e, src)) == Some(src)
    decreases |src|
  {
    if |src| > 0 {
      var n := if |src| < 3 then |src| else 3;
      var q, rest := EncodeQuantum(e, src[..n]), Encode(e, src[n..]);
      var s := Encode(e, src);
      assert s == q + rest;
      if |src| <= 3 {
        QuantumRoundTrip(e, src[..n], true);
        assert rest == "" && s == q;
        assert s[..|s|] == q;
        assert src[..n] == src;
      } else {
        QuantumRoundTrip(e, src[..n], false);
        assert |q| == 4 && |rest| >= 2;
        assert s[..4] == q;
        assert s[4..] == rest;
        DecodeEncode(e, src[n..]);
        assert src[..n] + src[n..] == src;
      }
    }
  }

  /** Every string the decoder accepts is the encoding of what it decodes to:
      the decoder accepts no non-canonical string (no non-zero unused bits,
      no misplaced or missing padding). */
  lemma {:induction false} EncodeDecode(e: Encoding, s: string)
    requires Decode(e, s).Some?
    ensures Encode(e, Decode(e, s).value) == s
    decreases |s|
  {
    if |s| > 0 {
      var n := if |s| < 4 then |s| else 4;
      var b := DecodeQuantum(e, s[..n], n == |s|).value;
      QuantumInverse(e, s[..n], n == |s|);
      if n == |s| {
        assert s[..n] == s;
        assert b[..|b|] == b;
      } else {
        var rest := Decode(e, s[n..]).value;
        EncodeDecode(e, s[n..]);
        var src := b + rest;
        assert |b| == 3 && src[..3] == b && src[3..] == rest;
        assert Encode(e, src) == EncodeQuantum(e, b) + Encode(e, rest);
        assert s[..n] + s[n..] == s;
      }
    }
  }

  /** Decoding and encoding are inverse in both directions. */
  lemma DecodeIffEncode(e: Encoding, s: string, src: seq<byte>)
    ensures Decode(e, s) == Some(src) <==> Encode(e, src) == s
  {
    if Decode(e, s) == Some(src) {
      EncodeDecode(e, s);
    }
    if Encode(e, src) == s {
      DecodeEncode(e, src);
    }
  }

  /** A string the decoder accepts holds only characters of the alphabet,
      and '=' only when the encoding pads. */
  lemma DecodedInAlphabet(e: Encoding, s: string)
    requires Decode(e, s).Some?
    ensures forall i :: 0 <= i < |s| ==> InAlphabet(e, s[i]) || (e.padded && s[i] == PadChar)
  {
    EncodeDecode(e, s);
  }

  /** The first character of an encoding spells the top six bits of the
      first byte. */
  lemma EncodeHead(e: Encoding, src: seq<byte>)
    requires |src| >= 1
    ensures |Encode(e, src)| >= 2 && Encode(e, src)[0] == Char(e, Hi0(src[0]))
  {
    var n := if |src| < 3 then |src| else 3;
    var g := EncodeGroup(e, src[..n]);
    assert src[..n][0] == src[0];
    assert g[0] == Char(e, Hi0(src[0]));
    var q := EncodeQuantum(e, src[..n]);
    assert q[0] == g[0];
    assert Encode(e, src) == q + Encode(e, src[n..]);
  }

  /** A single byte encodes as two characters, then "==" when padding. */
  lemma EncodeOneByte(e: Encoding, b: byte)
    ensures Encode(e, [b]) == [Char(e, Hi0(b)), Char(e, Hi1(b, 0))] + (if e.padded then "==" else "")
  {
    assert [b][..1] == [b] && [b][1..] == [];
    assert Encode(e, [b]) == EncodeQuantum(e, [b]) + Encode(e, []);
  }

  /** A string holding a character the encoding never writes is rejected. */
  lemma RejectsForeignChar(e: Encoding, s: string, i: int)
    requires 0 <= i < |s| && !InAlphabet(e, s[i]) && !(e.padded && s[i] == PadChar)
    ensures Decode(e, s) == None
  {
    if Decode(e, s).Some? {
      DecodedInAlphabet(e, s);
    }
  }

  /** The test vectors of section 10 of RFC 4648 for "f", "fo" and "foobar",
      with and without padding, in both directions. */
  lemma Rfc4648TestVectors()
    ensures Encode(StdEncoding, [0x66]) == "Zg=="
    ensures Encode(StdEncoding, [0x66, 0x6F]) == "Zm8="
    ensures Encode(StdEncoding, [0x66, 0x6F, 0x6F, 0x62, 0x61, 0x72]) == "Zm9vYmFy"
    ensures Encode(RawStdEncoding, [0x66]) == "Zg"
    ensures Encode(RawStdEncoding, [0x66, 0x6F]) == "Zm8"
    ensures Decode(StdEncoding, "Zm8=") == Some([0x66, 0x6F])
    ensures Decode(RawStdEncoding, "Zg") == Some([0x66])
  {
    EncodeOneByte(StdEncoding, 0x66);
    EncodeOneByte(RawStdEncoding, 0x66);
    EncodeFo(StdEncoding);
    EncodeFo(RawStdEncoding);
    EncodeFoobar();
    DecodeEncode(StdEncoding, [0x66, 0x6F]);
    DecodeEncode(RawStdEncoding, [0x66]);
  }

  /** "fo" is one short group: three characters, then '=' when padding. */
  lemma EncodeFo(e: Encoding)
    requires !e.urlSafe
    ensures Encode(e, [0x66, 0x6F]) == "Zm8" + (if e.padded then "=" else "")
  {
    var fo: seq<byte> := [0x66, 0x6F];
    assert fo[..2] == fo && fo[2..] == [];
    assert Encode(e, fo) == EncodeQuantum(e, fo) + Encode(e, []);
  }

  /** "foobar" is two full groups, "foo" and "bar". */
  lemma EncodeFoobar()
    ensures Encode(StdEncoding, [0x66, 0x6F, 0x6F, 0x62, 0x61, 0x72]) == "Zm9vYmFy"
  {
    var foo, bar: seq<byte> := [0x66, 0x6F, 0x6F], [0x62, 0x61, 0x72];
    assert (foo + bar)[..3] == foo && (foo + bar)[3..] == bar;
    assert bar[..3] == bar && bar[3..] == [];
    assert Encode(StdEncoding, foo + bar) == EncodeQuantum(StdEncoding, foo) + Encode(StdEncoding, bar);
    assert Encode(StdEncoding, bar) == EncodeQuantum(StdEncoding, bar) + Encode(StdEncoding, []);
  }
}
