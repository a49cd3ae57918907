/** The self-signed JWT of the TPM token source: the two JSON structures it
    signs, the signing input built from them (google/tpm.go:114) and the
    three-segment compact token (google/tpm.go:125).

    The first two segments are padded base64url (section 5 of RFC 4648); the
    signature segment uses the standard alphabet without padding (section 4,
    '=' left out).  This is what the code writes; sections 2 and 7.1 of RFC 7515
    would have all three segments in unpadded base64url. */
module Jwt {
  import opened Wrappers
  import opened Base64

  /** The fields of golang.org/x/oauth2/jws.Header that the token source sets. */
  datatype Header = Header(algorithm: string, typ: string, keyId: string)

  /** The fields of jws.ClaimSet that the token source sets; `iat` and `exp`
      are Unix times in whole seconds. */
  datatype ClaimSet = ClaimSet(iss: string, sub: string, aud: string, iat: int, exp: int)

  const Separator := '.'

  predicate IsAscii(s: string)
  {
    forall i :: 0 <= i < |s| ==> s[i] as int < 128
  }

  /** Go's []byte(s) for a string of ASCII characters: one byte per character. */
  function AsciiBytes(s: string): (b: seq<byte>)
    requires IsAscii(s)
  {
    seq(|s|, i requires 0 <= i < |s| => s[i] as int as bv8)
  }

  /** strings.Split(s, string(sep)): the pieces between the separators, in
      order; a string without separator is one piece. */
  function Split(s: string, sep: char): (parts: seq<string>)
    ensures |parts| >= 1
    decreases |s|
  {
    if |s| == 0 then [""]
    else
      var rest := Split(s[1..], sep);
      if s[0] == sep then [""] + rest else [[s[0]] + rest[0]] + rest[1..]
  }

  lemma {:induction false} SplitWithoutSeparator(a: string, sep: char)
    requires sep !in a
    ensures Split(a, sep) == [a]
    decreases |a|
  {
    if |a| > 0 {
      SplitWithoutSeparator(a[1..], sep);
      assert [a[0]] + a[1..] == a;
    }
  }

  /** A piece without separator followed by the separator is split off first. */
  lemma {:induction false} SplitAfterPiece(a: string, sep: char, b: string)
    requires sep !in a
    ensures Split(a + [sep] + b, sep) == [a] + Split(b, sep)
    decreases |a|
  {
    var s := a + [sep] + b;
    if |a| == 0 {
      assert s[1..] == b;
    } else {
      assert s[1..] == a[1..] + [sep] + b;
      SplitAfterPiece(a[1..], sep, b);
      assert [a[0]] + a[1..] == a;
    }
  }

  /** No base64 alphabet, padded or not, holds the separator or a non-ASCII
      character. */
  lemma EncodingIsSeparatorFree(e: Encoding, src: seq<byte>)
    ensures Separator !in Encode(e, src)
    ensures IsAscii(Encode(e, src))
  {
    var s := Encode(e, src);
    assert forall i :: 0 <= i < |s| ==> InAlphabet(e, s[i]) || s[i] == PadChar;
  }

  /** The signing input: base64.URLEncoding of the header JSON, a dot, and
      base64.URLEncoding of the claim-set JSON. */
  function SigningInput(hdr: seq<byte>, cs: seq<byte>): (j: string)
    ensures IsAscii(j)
    ensures Split(j, Separator) == [Encode(URLEncoding, hdr), Encode(URLEncoding, cs)]
  {
    EncodingIsSeparatorFree(URLEncoding, hdr);
    EncodingIsSeparatorFree(URLEncoding, cs);
    JoinTwo(Encode(URLEncoding, hdr), Encode(URLEncoding, cs));
    Encode(URLEncoding, hdr) + [Separator] + Encode(URLEncoding, cs)
  }

  /** Two ASCII pieces without separator, joined by one, split back into
      exactly those two. */
  lemma JoinTwo(h: string, c: string)
    requires IsAscii(h) && IsAscii(c) && Separator !in h && Separator !in c
    ensures IsAscii(h + [Separator] + c)
    ensures Split(h + [Separator] + c, Separator) == [h, c]
  {
    SplitAfterPiece(h, Separator, c);
    SplitWithoutSeparator(c, Separator);
  }

  /** The compact token: the signing input, a dot, and
      base64.RawStdEncoding of the signature. */
  function CompactToken(j: string, sig: seq<byte>): (msg: string)
    requires IsAscii(j)
    ensures IsAscii(msg) && |j| < |msg| && msg[..|j|] == j
    ensures Split(msg, Separator) == Split(j, Separator) + [Encode(RawStdEncoding, sig)]
  {
    var s := Encode(RawStdEncoding, sig);
    EncodingIsSeparatorFree(RawStdEncoding, sig);
    SplitOnLast(j, s);
    var msg := j + [Separator] + s;
    assert msg[..|j|] == j;
    msg
  }

  /** Appending a separator and a separator-free piece adds one piece. */
  lemma {:induction false} SplitOnLast(j: string, s: string)
    requires Separator !in s
    ensures Split(j + [Separator] + s, Separator) == Split(j, Separator) + [s]
    decreases |j|
  {
    var msg := j + [Separator] + s;
    if |j| == 0 {
      SplitAfterPiece("", Separator, s);
      SplitWithoutSeparator(s, Separator);
      assert msg == "" + [Separator] + s;
    } else {
      SplitOnLast(j[1..], s);
      assert msg[1..] == j[1..] + [Separator] + s;
    }
  }

  /** The token splits at its dots into exactly three segments; the first two
      are the signing input's and decode under base64url with padding to the
      header and claim-set bytes, the third decodes under the unpadded
      standard alphabet to the signature.  The first two have 4 * ceil(n / 3)
      characters, the third ceil(4 * n / 3) and no '='. */
  lemma TokenSegments(hdr: seq<byte>, cs: seq<byte>, sig: seq<byte>)
    ensures var j := SigningInput(hdr, cs);
      var segs := Split(CompactToken(j, sig), Separator);
      && |segs| == 3
      && j == segs[0] + [Separator] + segs[1]
      && Decode(URLEncoding, segs[0]) == Some(hdr)
      && Decode(URLEncoding, segs[1]) == Some(cs)
      && Decode(RawStdEncoding, segs[2]) == Some(sig)
      && |segs[0]| == 4 * ((|hdr| + 2) / 3)
      && |segs[1]| == 4 * ((|cs| + 2) / 3)
      && |segs[2]| == (4 * |sig| + 2) / 3
      && PadChar !in segs[2]
      && (forall i :: 0 <= i < |segs[0]| ==> InAlphabet(URLEncoding, segs[0][i]) || segs[0][i] == PadChar)
      && (forall i :: 0 <= i < |segs[1]| ==> InAlphabet(URLEncoding, segs[1][i]) || segs[1][i] == PadChar)
      && (forall i :: 0 <= i < |segs[2]| ==> InAlphabet(RawStdEncoding, segs[2][i]))
  {
    TokenSplit(hdr, cs, sig);
    SegmentContents(hdr, cs, sig);
  }

  /** What each of the three encodings holds, decodes to and looks like. */
  lemma SegmentContents(hdr: seq<byte>, cs: seq<byte>, sig: seq<byte>)
    ensures var h, c, s := Encode(URLEncoding, hdr), Encode(URLEncoding, cs), Encode(RawStdEncoding, sig);
      && Decode(URLEncoding, h) == Some(hdr)
      && Decode(URLEncoding, c) == Some(cs)
      && Decode(RawStdEncoding, s) == Some(sig)
      && PadChar !in s
      && (forall i :: 0 <= i < |s| ==> InAlphabet(RawStdEncoding, s[i]))
  {
    DecodeEncode(URLEncoding, hdr);
    DecodeEncode(URLEncoding, cs);
    DecodeEncode(RawStdEncoding, sig);
    var s := Encode(RawStdEncoding, sig);
    assert forall i :: 0 <= i < |s| ==> InAlphabet(RawStdEncoding, s[i]);
    assert !InAlphabet(RawStdEncoding, PadChar);
  }

  /** The token's pieces are the three encodings, in order. */
  lemma TokenSplit(hdr: seq<byte>, cs: seq<byte>, sig: seq<byte>)
    ensures var j := SigningInput(hdr, cs);
      && j == Encode(URLEncoding, hdr) + [Separator] + Encode(URLEncoding, cs)
      && Split(CompactToken(j, sig), Separator)
         == [Encode(URLEncoding, hdr), Encode(URLEncoding, cs), Encode(RawStdEncoding, sig)]
  {
  }

  /** The segments are not the unpadded base64url that sections 2 and 7.1 of
      RFC 7515 ask for: every one-byte header or claim set gets "==" padding,
      and every signature whose first byte is 0xFB starts with '+', a
      character outside the URL-safe alphabet.  An unpadded base64url decoder
      rejects both. */
  lemma SegmentsDifferFromRfc7515(b: byte, sig: seq<byte>)
    requires |sig| >= 1 && sig[0] == 0xFB
    ensures |Encode(URLEncoding, [b])| == 4 && Encode(URLEncoding, [b])[2..] == "=="
    ensures Decode(RawURLEncoding, Encode(URLEncoding, [b])) == None
    ensures Encode(RawStdEncoding, sig)[0] == '+'
    ensures Decode(RawURLEncoding, Encode(RawStdEncoding, sig)) == None
    ensures Encode(URLEncoding, [0x7B]) == "ew==" && Encode(RawStdEncoding, [0xFB]) == "+w"
  {
    OneByteSegmentPadded(b);
    SignatureStartsWithPlus(sig);
    EncodeOneByte(URLEncoding, 0x7B);
    EncodeOneByte(RawStdEncoding, 0xFB);
    assert Hi0(0x7B) == 30 && Hi1(0x7B, 0) == 48 && Hi0(0xFB) == 62 && Hi1(0xFB, 0) == 48;
  }

  /** A one-byte piece under padded base64url ends in "==", which no
      unpadded base64url decoder accepts. */
  lemma OneByteSegmentPadded(b: byte)
    ensures |Encode(URLEncoding, [b])| == 4 && Encode(URLEncoding, [b])[2..] == "=="
    ensures Decode(RawURLEncoding, Encode(URLEncoding, [b])) == None
  {
    var h := Encode(URLEncoding, [b]);
    EncodeOneByte(URLEncoding, b);
    assert h[2] == PadChar && !InAlphabet(RawURLEncoding, h[2]);
    RejectsForeignChar(RawURLEncoding, h, 2);
  }

  /** A signature whose first byte is 0xFB starts with '+', which is not in
      the URL-safe alphabet. */
  lemma SignatureStartsWithPlus(sig: seq<byte>)
    requires |sig| >= 1 && sig[0] == 0xFB
    ensures Encode(RawStdEncoding, sig)[0] == '+'
    ensures Decode(RawURLEncoding, Encode(RawStdEncoding, sig)) == None
  {
    var s := Encode(RawStdEncoding, sig);
    EncodeHead(RawStdEncoding, sig);
    assert Hi0(0xFB) == 62;
    assert s[0] == '+' && !InAlphabet(RawURLEncoding, s[0]);
    RejectsForeignChar(RawURLEncoding, s, 0);
  }
}
