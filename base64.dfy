/** `base64.b64encode`: the standard alphabet of RFC 4648, section 4, with `=` padding, and a
    decoder that inverts it. The encoder's output is `bytes`, as in Python. */
module Base64 {
  import opened Wrappers
  import opened Bytes

  /** The ASCII code of `=`. */
  const Pad: byte := 61

  /** The byte of the alphabet letter for a 6-bit value: A-Z, a-z, 0-9, `+`, `/`. */
  function Letter(v: int): (b: byte)
    requires 0 <= v < 64
    ensures b != Pad
  {
    if v < 26 then 65 + v
    else if v < 52 then 97 + (v - 26)
    else if v < 62 then 48 + (v - 52)
    else if v == 62 then 43
    else 47
  }

  /** The 6-bit value an alphabet byte stands for, or None for a byte outside the alphabet. */
  function Value(b: byte): (r: Option<int>)
    ensures r.Some? ==> 0 <= r.value < 64
  {
    if 65 <= b <= 90 then Some(b - 65)
    else if 97 <= b <= 122 then Some(b - 97 + 26)
    else if 48 <= b <= 57 then Some(b - 48 + 52)
    else if b == 43 then Some(62)
    else if b == 47 then Some(63)
    else None
  }

  predicate InAlphabet(b: byte) {
    Value(b).Some?
  }

  lemma ValueLetter(v: int)
    requires 0 <= v < 64
    ensures Value(Letter(v)) == Some(v)
  {
  }

  /** Three bytes as four letters. */
  function Quad(b0: byte, b1: byte, b2: byte): seq<byte> {
    [Letter(b0 / 4), Letter((b0 % 4) * 16 + b1 / 16), Letter((b1 % 16) * 4 + b2 / 64), Letter(b2 % 64)]
  }

  /** The final two bytes: three letters and one pad. */
  function Quad2(b0: byte, b1: byte): seq<byte> {
    [Letter(b0 / 4), Letter((b0 % 4) * 16 + b1 / 16), Letter((b1 % 16) * 4), Pad]
  }

  /** The final single byte: two letters and two pads. */
  function Quad1(b0: byte): seq<byte> {
    [Letter(b0 / 4), Letter((b0 % 4) * 16), Pad, Pad]
  }

  /** `base64.b64encode(s)`. */
  function Encode(s: seq<byte>): (r: seq<byte>)
    ensures |r| == 4 * ((|s| + 2) / 3)
    decreases |s|
  {
    if |s| == 0 then []
    else if |s| == 1 then Quad1(s[0])
    else if |s| == 2 then Quad2(s[0], s[1])
    else
      assert (|s| - 3 + 2) / 3 + 1 == (|s| + 2) / 3;
      Quad(s[0], s[1], s[2]) + Encode(s[3..])
  }

  /** The bytes behind four 6-bit values. */
  function Triple(v0: int, v1: int, v2: int, v3: int): seq<byte>
    requires 0 <= v0 < 64 && 0 <= v1 < 64 && 0 <= v2 < 64 && 0 <= v3 < 64
  {
    [v0 * 4 + v1 / 16, (v1 % 16) * 16 + v2 / 4, (v2 % 4) * 64 + v3]
  }

  /** Decodes one unpadded group of four letters. */
  function DecodeQuad(q: seq<byte>): (r: Option<seq<byte>>)
    requires |q| == 4
  {
    match (Value(q[0]), Value(q[1]), Value(q[2]), Value(q[3]))
    case (Some(v0), Some(v1), Some(v2), Some(v3)) => Some(Triple(v0, v1, v2, v3))
    case _ => None
  }

  /** Decodes the last group, which may end in one or two pads. */
  function DecodeLast(q: seq<byte>): (r: Option<seq<byte>>)
    requires |q| == 4
  {
    if q[2] == Pad && q[3] == Pad then
      match (Value(q[0]), Value(q[1]))
      case (Some(v0), Some(v1)) => if v1 % 16 == 0 then Some(Triple(v0, v1, 0, 0)[..1]) else None
      case _ => None
    else if q[3] == Pad then
      match (Value(q[0]), Value(q[1]), Value(q[2]))
      case (Some(v0), Some(v1), Some(v2)) => if v2 % 4 == 0 then Some(Triple(v0, v1, v2, 0)[..2]) else None
      case _ => None
    else DecodeQuad(q)
  }

  /** Base64 decoding of canonical, padded input (the reference inverse of `Encode`). */
  function Decode(r: seq<byte>): Option<seq<byte>>
    decreases |r|
  {
    if |r| == 0 then Some([])
    else if |r| < 4 then None
    else if |r| == 4 then DecodeLast(r)
    else match (DecodeQuad(r[..4]), Decode(r[4..]))
      case (Some(h), Some(t)) => Some(h + t)
      case _ => None
  }

  lemma DecodeQuadRoundTrip(b0: byte, b1: byte, b2: byte)
    ensures DecodeQuad(Quad(b0, b1, b2)) == Some([b0, b1, b2])
    ensures DecodeLast(Quad(b0, b1, b2)) == Some([b0, b1, b2])
  {
    var v0, v1, v2, v3 := b0 / 4, (b0 % 4) * 16 + b1 / 16, (b1 % 16) * 4 + b2 / 64, b2 % 64;
    ValueLetter(v0); ValueLetter(v1); ValueLetter(v2); ValueLetter(v3);
    assert v1 / 16 == b0 % 4 && v1 % 16 == b1 / 16;
    assert v2 / 4 == b1 % 16 && v2 % 4 == b2 / 64;
    assert Triple(v0, v1, v2, v3) == [b0, b1, b2];
  }

  lemma DecodeQuad2RoundTrip(b0: byte, b1: byte)
    ensures DecodeLast(Quad2(b0, b1)) == Some([b0, b1])
  {
    var v0, v1, v2 := b0 / 4, (b0 % 4) * 16 + b1 / 16, (b1 % 16) * 4;
    ValueLetter(v0); ValueLetter(v1); ValueLetter(v2);
    assert v1 / 16 == b0 % 4 && v1 % 16 == b1 / 16;
    assert v2 / 4 == b1 % 16 && v2 % 4 == 0;
    assert Triple(v0, v1, v2, 0)[..2] == [b0, b1];
  }

  lemma DecodeQuad1RoundTrip(b0: byte)
    ensures DecodeLast(Quad1(b0)) == Some([b0])
  {
    var v0, v1 := b0 / 4, (b0 % 4) * 16;
    ValueLetter(v0); ValueLetter(v1);
    assert v1 / 16 == b0 % 4 && v1 % 16 == 0;
    assert Triple(v0, v1, 0, 0)[..1] == [b0];
  }

  lemma DecodeAppend(q: seq<byte>, t: seq<byte>, h: seq<byte>, u: seq<byte>)
    requires |q| == 4 && |t| >= 4 && DecodeQuad(q) == Some(h) && Decode(t) == Some(u)
    ensures Decode(q + t) == Some(h + u)
  {
    var r := q + t;
    assert r[..4] == q;
    assert r[4..] == t;
  }

  lemma EncodeSplit(s: seq<byte>)
    requires |s| > 3
    ensures Encode(s) == Quad(s[0], s[1], s[2]) + Encode(s[3..])
    ensures |Encode(s[3..])| >= 4
  {
    assert |s[3..]| >= 1;
    assert (|s[3..]| + 2) / 3 >= 1;
  }

  lemma DecodeEncodeGroup(s: seq<byte>, q: seq<byte>, t: seq<byte>, h: seq<byte>)
    requires |s| > 3 && Decode(t) == Some(s[3..])
    requires Encode(s) == q + t && |t| >= 4 && |q| == 4
    requires DecodeQuad(q) == Some(h) && h == [s[0], s[1], s[2]]
    ensures Decode(Encode(s)) == Some(s)
  {
    DecodeAppend(q, t, h, s[3..]);
    assert h + s[3..] == s;
  }

  lemma DecodeEncodeStep(s: seq<byte>)
    requires |s| > 3 && Decode(Encode(s[3..])) == Some(s[3..])
    ensures Decode(Encode(s)) == Some(s)
  {
    EncodeSplit(s);
    DecodeQuadRoundTrip(s[0], s[1], s[2]);
    DecodeEncodeGroup(s, Quad(s[0], s[1], s[2]), Encode(s[3..]), [s[0], s[1], s[2]]);
  }

  /** Every byte string survives Base64: decoding the encoding gives it back. */
  lemma {:induction false} DecodeEncode(s: seq<byte>)
    ensures Decode(Encode(s)) == Some(s)
    decreases |s|
  {
    if |s| == 1 {
      DecodeQuad1RoundTrip(s[0]);
      assert [s[0]] == s;
    } else if |s| == 2 {
      DecodeQuad2RoundTrip(s[0], s[1]);
      assert [s[0], s[1]] == s;
    } else if |s| == 3 {
      DecodeQuadRoundTrip(s[0], s[1], s[2]);
      assert Encode(s) == Quad(s[0], s[1], s[2]) + [];
      assert [s[0], s[1], s[2]] == s;
    } else if |s| > 3 {
      DecodeEncode(s[3..]);
      DecodeEncodeStep(s);
    }
  }

  /** The pad is not a letter of the alphabet. */
  lemma PadNotInAlphabet()
    ensures !InAlphabet(Pad)
  {
  }

  predicate LettersThenPads(r: seq<byte>, pads: int) {
    forall k :: 0 <= k < |r| ==> if k < |r| - pads then InAlphabet(r[k]) else r[k] == Pad
  }

  /** Two bytes left over after the last full group give exactly one pad. */
  lemma EncodeOnePad(s: seq<byte>)
    requires |s| % 3 == 2
    ensures var r := Encode(s); |r| >= 4 && r[|r| - 1] == Pad && r[|r| - 2] != Pad
  {
    var r := Encode(s);
    EncodeAlphabet(s);
    assert LettersThenPads(r, 1);
    assert InAlphabet(r[|r| - 2]) && r[|r| - 1] == Pad;
    PadNotInAlphabet();
  }

  lemma QuadLetters(b0: byte, b1: byte, b2: byte)
    ensures LettersThenPads(Quad(b0, b1, b2), 0)
    ensures LettersThenPads(Quad2(b0, b1), 1)
    ensures LettersThenPads(Quad1(b0), 2)
  {
    ValueLetter(b0 / 4); ValueLetter((b0 % 4) * 16 + b1 / 16);
    ValueLetter((b1 % 16) * 4 + b2 / 64); ValueLetter(b2 % 64);
    ValueLetter((b0 % 4) * 16); ValueLetter((b1 % 16) * 4);
  }

  lemma LettersThenPadsAppend(q: seq<byte>, t: seq<byte>, pads: int)
    requires LettersThenPads(q, 0) && LettersThenPads(t, pads) && 0 <= pads <= |t|
    ensures LettersThenPads(q + t, pads)
  {
    forall k | 0 <= k < |q + t|
      ensures if k < |q + t| - pads then InAlphabet((q + t)[k]) else (q + t)[k] == Pad
    {
      if k >= |q| {
        assert (q + t)[k] == t[k - |q|];
      }
    }
  }

  /** Every byte of an encoding is an alphabet letter or `=`; the pads are exactly the last
      `(3 - |s| % 3) % 3` bytes. */
  lemma {:induction false} EncodeAlphabet(s: seq<byte>)
    ensures LettersThenPads(Encode(s), (3 - |s| % 3) % 3)
    decreases |s|
  {
    if |s| == 1 {
      QuadLetters(s[0], 0, 0);
    } else if |s| == 2 {
      QuadLetters(s[0], s[1], 0);
    } else if |s| >= 3 {
      QuadLetters(s[0], s[1], s[2]);
      EncodeAlphabet(s[3..]);
      assert |s[3..]| % 3 == |s| % 3;
      var pads := (3 - |s| % 3) % 3;
      assert pads <= |Encode(s[3..])|;
      LettersThenPadsAppend(Quad(s[0], s[1], s[2]), Encode(s[3..]), pads);
    }
  }

  /** An encoding holds no space, and ends in a pad when the input length is 2 modulo 3. */
  lemma EncodeNoSpace(s: seq<byte>)
    ensures 32 !in Encode(s)
    ensures |s| % 3 == 2 ==> Encode(s)[|Encode(s)| - 1] == Pad
  {
    var r := Encode(s);
    EncodeAlphabet(s);
    assert !InAlphabet(32);
    forall k | 0 <= k < |r| ensures r[k] != 32 {
      assert InAlphabet(r[k]) || r[k] == Pad;
    }
  }
}
