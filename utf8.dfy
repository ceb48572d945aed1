/** `str.encode("utf-8")`, which turns the secret and the string to sign into the bytes the
    HMAC is computed over, and a strict decoder that inverts it. */
module Utf8 {
  import opened Wrappers
  import opened Bytes

  /** The UTF-8 bytes of one Unicode scalar value (RFC 3629, section 3). */
  function EncodeChar(c: char): (r: seq<byte>)
    ensures 1 <= |r| <= 4
    ensures |r| == 1 <==> c as int < 0x80
    ensures |r| == 1 ==> r[0] == c as int
  {
    var n := c as int;
    if n < 0x80 then [n]
    else if n < 0x800 then [0xC0 + n / 64, 0x80 + n % 64]
    else if n < 0x10000 then [0xE0 + n / 4096, 0x80 + (n / 64) % 64, 0x80 + n % 64]
    else [0xF0 + n / 262144, 0x80 + (n / 4096) % 64, 0x80 + (n / 64) % 64, 0x80 + n % 64]
  }

  /** The UTF-8 encoding of a string. */
  function Encode(s: string): (r: seq<byte>)
    ensures |s| <= |r| <= 4 * |s|
    decreases |s|
  {
    if s == [] then [] else EncodeChar(s[0]) + Encode(s[1..])
  }

  /** Encoding distributes over concatenation, so `"{timestamp}\n{secret}"` encodes piece by piece. */
  lemma {:induction false} EncodeAppend(a: string, b: string)
    ensures Encode(a + b) == Encode(a) + Encode(b)
    decreases |a|
  {
    if a == [] {
      assert a + b == b;
    } else {
      var ab := a + b;
      assert ab[0] == a[0];
      assert ab[1..] == a[1..] + b;
      assert Encode(ab) == EncodeChar(a[0]) + Encode(a[1..] + b);
      EncodeAppend(a[1..], b);
      assert Encode(a) == EncodeChar(a[0]) + Encode(a[1..]);
    }
  }

  predicate IsAscii(s: string) {
    forall k :: 0 <= k < |s| ==> s[k] as int < 0x80
  }

  /** An ASCII string encodes to one byte per character, each equal to its code point. */
  lemma {:induction false} EncodeAscii(s: string)
    requires IsAscii(s)
    ensures |Encode(s)| == |s|
    ensures forall k :: 0 <= k < |s| ==> Encode(s)[k] == s[k] as int
    decreases |s|
  {
    if s != [] {
      EncodeAscii(s[1..]);
    }
  }

  predicate IsContinuation(b: byte) {
    0x80 <= b < 0xC0
  }

  predicate IsScalar(n: int) {
    0 <= n < 0xD800 || 0xE000 <= n < 0x110000
  }

  /** The first scalar value encoded at the front of `bs` and the number of bytes it took, or
      None when the front is not a well-formed, shortest-form sequence. */
  function DecodeFirst(bs: seq<byte>): (r: Option<(char, nat)>)
    requires bs != []
    ensures r.Some? ==> 1 <= r.value.1 <= |bs|
  {
    var b0: int := bs[0];
    if b0 < 0x80 then Some((b0 as char, 1))
    else if 0xC2 <= b0 < 0xE0 && |bs| >= 2 && IsContinuation(bs[1]) then
      var n: int := (b0 - 0xC0) * 64 + (bs[1] as int - 0x80);
      Some((n as char, 2))
    else if 0xE0 <= b0 < 0xF0 && |bs| >= 3 && IsContinuation(bs[1]) && IsContinuation(bs[2]) then
      var n: int := (b0 - 0xE0) * 4096 + (bs[1] as int - 0x80) * 64 + (bs[2] as int - 0x80);
      if 0x800 <= n && IsScalar(n) then Some((n as char, 3)) else None
    else if 0xF0 <= b0 < 0xF5 && |bs| >= 4 && IsContinuation(bs[1]) && IsContinuation(bs[2])
            && IsContinuation(bs[3]) then
      var n: int := (b0 - 0xF0) * 262144 + (bs[1] as int - 0x80) * 4096 + (bs[2] as int - 0x80) * 64 + (bs[3] as int - 0x80);
      if 0x10000 <= n && IsScalar(n) then Some((n as char, 4)) else None
    else None
  }

  /** Strict UTF-8 decoding (the reference inverse of `Encode`). */
  function Decode(bs: seq<byte>): Option<string>
    decreases |bs|
  {
    if bs == [] then Some([])
    else match DecodeFirst(bs)
      case None => None
      case Some((c, len)) =>
        match Decode(bs[len..])
        case None => None
        case Some(rest) => Some([c] + rest)
  }

  lemma Split2(n: int)
    requires 0x80 <= n < 0x800
    ensures 0xC2 <= 0xC0 + n / 64 < 0xE0 && (n / 64) * 64 + n % 64 == n
  {
  }

  lemma Split3(n: int)
    requires 0x800 <= n < 0x10000
    ensures 0xE0 <= 0xE0 + n / 4096 < 0xF0
    ensures (n / 4096) * 4096 + ((n / 64) % 64) * 64 + n % 64 == n
  {
    assert n / 64 == (n / 4096) * 64 + (n / 64) % 64;
    assert n == (n / 64) * 64 + n % 64;
  }

  lemma Split4(n: int)
    requires 0x10000 <= n < 0x110000
    ensures 0xF0 <= 0xF0 + n / 262144 < 0xF5
    ensures (n / 262144) * 262144 + ((n / 4096) % 64) * 4096 + ((n / 64) % 64) * 64 + n % 64 == n
  {
    assert n / 4096 == (n / 262144) * 64 + (n / 4096) % 64;
    assert n / 64 == (n / 4096) * 64 + (n / 64) % 64;
    assert n == (n / 64) * 64 + n % 64;
  }

  lemma DecodeFirst2(c: char, bs: seq<byte>)
    requires 0x80 <= c as int < 0x800 && |bs| >= 2
    requires bs[..2] == EncodeChar(c)
    ensures DecodeFirst(bs) == Some((c, 2))
  {
    var n := c as int;
    assert bs[0] == 0xC0 + n / 64 && bs[1] == 0x80 + n % 64;
    Split2(n);
  }

  lemma DecodeFirst3(c: char, bs: seq<byte>)
    requires 0x800 <= c as int < 0x10000 && |bs| >= 3
    requires bs[..3] == EncodeChar(c)
    ensures DecodeFirst(bs) == Some((c, 3))
  {
    var n := c as int;
    assert bs[0] == 0xE0 + n / 4096 && bs[1] == 0x80 + (n / 64) % 64 && bs[2] == 0x80 + n % 64;
    Split3(n);
  }

  lemma DecodeFirst4(c: char, bs: seq<byte>)
    requires 0x10000 <= c as int && |bs| >= 4
    requires bs[..4] == EncodeChar(c)
    ensures DecodeFirst(bs) == Some((c, 4))
  {
    var n := c as int;
    assert bs[0] == 0xF0 + n / 262144 && bs[1] == 0x80 + (n / 4096) % 64
      && bs[2] == 0x80 + (n / 64) % 64 && bs[3] == 0x80 + n % 64;
    Split4(n);
  }

  /** Decoding the front of a character's encoding gives that character back, whatever follows. */
  lemma DecodeFirstEncodeChar(c: char, tail: seq<byte>)
    ensures DecodeFirst(EncodeChar(c) + tail) == Some((c, |EncodeChar(c)|))
  {
    var n := c as int;
    var e := EncodeChar(c);
    var bs := e + tail;
    assert bs[..|e|] == e;
    if n < 0x80 {
    } else if n < 0x800 {
      DecodeFirst2(c, bs);
    } else if n < 0x10000 {
      DecodeFirst3(c, bs);
    } else {
      DecodeFirst4(c, bs);
    }
  }

  /** Every string survives UTF-8 encoding: decoding the bytes gives it back. */
  lemma {:induction false} DecodeEncode(s: string)
    ensures Decode(Encode(s)) == Some(s)
    decreases |s|
  {
    if s != [] {
      var e := EncodeChar(s[0]);
      var bs := Encode(s);
      DecodeFirstEncodeChar(s[0], Encode(s[1..]));
      assert bs[|e|..] == Encode(s[1..]);
      DecodeEncode(s[1..]);
      assert [s[0]] + s[1..] == s;
    }
  }

  /** Consequently distinct strings have distinct encodings. */
  lemma EncodeInjective(s: string, t: string)
    requires s != t
    ensures Encode(s) != Encode(t)
  {
    DecodeEncode(s);
    DecodeEncode(t);
  }
}
