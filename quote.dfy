/** `urllib.parse.quote_plus` applied to a `bytes` value with its default `safe=''`, which is
    how the signature is made safe for a query string, and an unquoting that inverts it. */
module Quote {
  import opened Wrappers
  import opened Bytes

  /** The bytes never quoted: ASCII letters, digits and `_.-~`. */
  predicate AlwaysSafe(b: byte) {
    65 <= b <= 90 || 97 <= b <= 122 || 48 <= b <= 57 || b == 95 || b == 46 || b == 45 || b == 126
  }

  /** An upper-case hexadecimal digit, as `'%{:02X}'` writes it. */
  function HexDigit(d: int): (c: char)
    requires 0 <= d < 16
    ensures '0' <= c <= '9' || 'A' <= c <= 'F'
  {
    if d < 10 then ('0' as int + d) as char else ('A' as int + d - 10) as char
  }

  /** The value of a hexadecimal digit of either case, or None. */
  function HexValue(c: char): (r: Option<int>)
    ensures r.Some? ==> 0 <= r.value < 16
  {
    if '0' <= c <= '9' then Some(c as int - '0' as int)
    else if 'A' <= c <= 'F' then Some(c as int - 'A' as int + 10)
    else if 'a' <= c <= 'f' then Some(c as int - 'a' as int + 10)
    else None
  }

  lemma HexValueDigit(d: int)
    requires 0 <= d < 16
    ensures HexValue(HexDigit(d)) == Some(d)
  {
  }

  /** How one byte is written: itself when always safe, `+` for a space, `%XX` otherwise. */
  function QuoteByte(b: byte): (r: string)
    ensures 1 <= |r| <= 3
  {
    if AlwaysSafe(b) then [ByteChar(b)]
    else if b == 32 then "+"
    else ['%', HexDigit(b / 16), HexDigit(b % 16)]
  }

  /** `quote_plus(bs)`. */
  function QuotePlus(bs: seq<byte>): (r: string)
    ensures |bs| <= |r| <= 3 * |bs|
    decreases |bs|
  {
    if bs == [] then "" else QuoteByte(bs[0]) + QuotePlus(bs[1..])
  }

  /** `unquote_to_bytes` after turning `+` into space, for well-formed input: `%XX` is the byte
      XX, `+` a space, any other ASCII character its own byte (the reference inverse of
      `QuotePlus`). */
  function UnquotePlus(s: string): Option<seq<byte>>
    decreases |s|
  {
    if s == [] then Some([])
    else if s[0] == '%' then
      if |s| >= 3 && HexValue(s[1]).Some? && HexValue(s[2]).Some? then
        match UnquotePlus(s[3..])
        case None => None
        case Some(rest) => Some([HexValue(s[1]).value * 16 + HexValue(s[2]).value] + rest)
      else None
    else if s[0] == '+' then
      match UnquotePlus(s[1..])
      case None => None
      case Some(rest) => Some([32] + rest)
    else if s[0] as int < 128 then
      match UnquotePlus(s[1..])
      case None => None
      case Some(rest) => Some([AsciiByte(s[0])] + rest)
    else None
  }

  lemma UnquoteByte(b: byte, tail: string, rest: seq<byte>)
    requires UnquotePlus(tail) == Some(rest)
    ensures UnquotePlus(QuoteByte(b) + tail) == Some([b] + rest)
  {
    var q := QuoteByte(b);
    var s := q + tail;
    assert s[|q|..] == tail;
    if !AlwaysSafe(b) && b != 32 {
      HexValueDigit(b / 16);
      HexValueDigit(b % 16);
    }
  }

  /** Quoting loses nothing: unquoting gives the bytes back. */
  lemma {:induction false} UnquoteQuote(bs: seq<byte>)
    ensures UnquotePlus(QuotePlus(bs)) == Some(bs)
    decreases |bs|
  {
    if bs != [] {
      UnquoteQuote(bs[1..]);
      UnquoteByte(bs[0], QuotePlus(bs[1..]), bs[1..]);
      assert [bs[0]] + bs[1..] == bs;
    }
  }

  /** The characters a quoted string is made of: letters, digits, `_.-~`, `%` and `+`. */
  predicate IsQuotedChar(c: char) {
    'A' <= c <= 'Z' || 'a' <= c <= 'z' || '0' <= c <= '9' || c == '_' || c == '.' || c == '-'
    || c == '~' || c == '%' || c == '+'
  }

  /** The output contains only quoted-alphabet characters, and a `+` only where the input has a
      space; so `/`, `=` and `&` never appear raw. */
  lemma {:induction false} QuotePlusAlphabet(bs: seq<byte>)
    ensures var r := QuotePlus(bs); forall k :: 0 <= k < |r| ==> IsQuotedChar(r[k])
    ensures 32 !in bs ==> '+' !in QuotePlus(bs)
    decreases |bs|
  {
    if bs != [] {
      QuotePlusAlphabet(bs[1..]);
      var q := QuoteByte(bs[0]);
      var r := QuotePlus(bs);
      assert r == q + QuotePlus(bs[1..]);
      forall k | 0 <= k < |r| ensures IsQuotedChar(r[k]) {
        if k >= |q| {
          assert r[k] == QuotePlus(bs[1..])[k - |q|];
        }
      }
      if 32 !in bs {
        assert 32 !in bs[1..];
        assert '+' !in q;
      }
    }
  }

  /** Quoting a byte string that ends in `=` ends in `%3D`. */
  lemma {:induction false} QuotePlusEndsInPad(bs: seq<byte>)
    requires bs != [] && bs[|bs| - 1] == 61
    ensures var r := QuotePlus(bs); |r| >= 3 && r[|r| - 3..] == "%3D"
    decreases |bs|
  {
    if |bs| > 1 {
      QuotePlusEndsInPad(bs[1..]);
      var r := QuotePlus(bs);
      var t := QuotePlus(bs[1..]);
      assert r == QuoteByte(bs[0]) + t;
      assert r[|r| - 3..] == t[|t| - 3..];
    }
  }
}
