/** `encodeURIComponent` and `decodeURIComponent` (ECMA-262, section 19.2.6):
    the server percent-encodes the title into the `X-Filename` header and the
    client decodes it again. Strings are sequences of Unicode scalar values, so
    the lone-surrogate error of `encodeURIComponent` cannot arise. */
module UriComponent {
  import opened Wrappers

  /** Characters `encodeURIComponent` leaves as they are. */
  predicate Unreserved(c: char) {
    ('a' <= c <= 'z') || ('A' <= c <= 'Z') || ('0' <= c <= '9') ||
    c == '-' || c == '_' || c == '.' || c == '!' || c == '~' || c == '*' ||
    c == '\'' || c == '(' || c == ')'
  }

  predicate IsByte(b: int) { 0 <= b < 256 }

  /** The UTF-8 bytes of one scalar value. */
  function Utf8(c: char): (bs: seq<int>)
    ensures 1 <= |bs| <= 4
    ensures forall i :: 0 <= i < |bs| ==> IsByte(bs[i])
  {
    var cp := c as int;
    if cp < 0x80 then [cp]
    else if cp < 0x800 then [0xC0 + cp / 64, 0x80 + cp % 64]
    else if cp < 0x10000 then [0xE0 + cp / 64 / 64, 0x80 + cp / 64 % 64, 0x80 + cp % 64]
    else [0xF0 + cp / 64 / 64 / 64, 0x80 + cp / 64 / 64 % 64, 0x80 + cp / 64 % 64, 0x80 + cp % 64]
  }

  /** Upper-case hexadecimal digit, as `encodeURIComponent` writes it. */
  function HexDigit(d: int): char
    requires 0 <= d < 16
  {
    "0123456789ABCDEF"[d]
  }

  /** Value of a hexadecimal digit of either case. */
  function HexValue(c: char): (v: Option<int>)
    ensures v.Some? ==> 0 <= v.value < 16
  {
    if '0' <= c <= '9' then Some(c as int - '0' as int)
    else if 'A' <= c <= 'F' then Some(c as int - 'A' as int + 10)
    else if 'a' <= c <= 'f' then Some(c as int - 'a' as int + 10)
    else None
  }

  /** `%XX` for each byte. */
  function EscapeBytes(bs: seq<int>): (r: string)
    requires forall i :: 0 <= i < |bs| ==> IsByte(bs[i])
    ensures |r| == 3 * |bs|
  {
    if bs == [] then []
    else
      assert IsByte(bs[0]);
      ['%', HexDigit(bs[0] / 16), HexDigit(bs[0] % 16)] + EscapeBytes(bs[1..])
  }

  function EncodeChar(c: char): string {
    if Unreserved(c) then [c] else EscapeBytes(Utf8(c))
  }

  /** `encodeURIComponent`. */
  function Encode(s: string): string {
    if s == [] then [] else EncodeChar(s[0]) + Encode(s[1..])
  }

  /** The byte written as `%XX` at position `p` of `s`, if there is one. */
  function EscapedByte(s: string, p: nat): (b: Option<int>)
    ensures b.Some? ==> IsByte(b.value)
  {
    if p + 3 <= |s| && s[p] == '%' && HexValue(s[p + 1]).Some? && HexValue(s[p + 2]).Some? then
      Some(HexValue(s[p + 1]).value * 16 + HexValue(s[p + 2]).value)
    else None
  }

  /** The six payload bits of an escaped UTF-8 continuation byte `10xxxxxx`. */
  function Continuation(s: string, p: nat): (v: Option<int>)
    ensures v.Some? ==> 0 <= v.value < 64
  {
    match EscapedByte(s, p)
    case Some(b) => if 0x80 <= b < 0xC0 then Some(b - 0x80) else None
    case None => None
  }

  /** Number of bytes announced by a UTF-8 lead byte; 0 for a byte that cannot
      start a sequence (a continuation byte, or five or more leading one bits). */
  function SequenceLength(b: int): nat {
    if b < 0x80 then 1
    else if b < 0xC0 then 0
    else if b < 0xE0 then 2
    else if b < 0xF0 then 3
    else if b < 0xF8 then 4
    else 0
  }

  predicate IsScalar(cp: int) {
    (0 <= cp < 0xD800) || (0xE000 <= cp < 0x110000)
  }

  /** Decodes the escape sequence starting at `s[0] == '%'`: the character it
      stands for and the number of input characters it takes. `None` is the
      `URIError` of `decodeURIComponent`: a malformed escape, a truncated or
      badly continued sequence, an overlong encoding, a surrogate or a code point
      above U+10FFFF. */
  function DecodeEscape(s: string): (r: Option<(char, nat)>)
    ensures r.Some? ==> 3 <= r.value.1 <= |s|
  {
    match EscapedByte(s, 0)
    case None => None
    case Some(b) =>
      var n := SequenceLength(b);
      if n == 1 then Some((b as char, 3))
      else if n == 2 then
        match Continuation(s, 3)
        case None => None
        case Some(c1) =>
          var cp := (b - 0xC0) * 64 + c1;
          if 0x80 <= cp then Some((cp as char, 6)) else None
      else if n == 3 then
        match (Continuation(s, 3), Continuation(s, 6))
        case (Some(c1), Some(c2)) =>
          var cp := ((b - 0xE0) * 64 + c1) * 64 + c2;
          if 0x800 <= cp && IsScalar(cp) then Some((cp as char, 9)) else None
        case _ => None
      else if n == 4 then
        match (Continuation(s, 3), Continuation(s, 6), Continuation(s, 9))
        case (Some(c1), Some(c2), Some(c3)) =>
          var cp := (((b - 0xF0) * 64 + c1) * 64 + c2) * 64 + c3;
          if 0x10000 <= cp < 0x110000 then Some((cp as char, 12)) else None
        case _ => None
      else None
  }

  /** `decodeURIComponent`; `None` where it throws `URIError`. */
  function Decode(s: string): Option<string>
    decreases |s|
  {
    if s == [] then Some([])
    else if s[0] != '%' then
      match Decode(s[1..])
      case Some(t) => Some([s[0]] + t)
      case None => None
    else
      match DecodeEscape(s)
      case None => None
      case Some((c, n)) =>
        match Decode(s[n..])
        case Some(t) => Some([c] + t)
        case None => None
  }

  /** A character that `encodeURIComponent` can write: what it keeps, `%`, or an
      upper-case hexadecimal digit. Every such character is a legal HTTP header
      value character. */
  predicate EncodedChar(c: char) {
    Unreserved(c) || c == '%' || ('0' <= c <= '9') || ('A' <= c <= 'F')
  }

  lemma {:induction false} EscapeBytesChars(bs: seq<int>)
    requires forall i :: 0 <= i < |bs| ==> IsByte(bs[i])
    ensures forall i :: 0 <= i < |EscapeBytes(bs)| ==> EncodedChar(EscapeBytes(bs)[i])
  {
    if bs != [] {
      EscapeBytesChars(bs[1..]);
      var r := EscapeBytes(bs[1..]);
      forall i | 0 <= i < |EscapeBytes(bs)| ensures EncodedChar(EscapeBytes(bs)[i]) {
        if i >= 3 { assert EscapeBytes(bs)[i] == r[i - 3]; }
      }
    }
  }

  /** The output of `encodeURIComponent` is plain ASCII drawn from the unreserved
      characters, `%` and upper-case hexadecimal digits. */
  lemma {:induction false} EncodeChars(s: string)
    ensures forall i :: 0 <= i < |Encode(s)| ==> EncodedChar(Encode(s)[i])
  {
    if s != [] {
      EncodeChars(s[1..]);
      if !Unreserved(s[0]) { EscapeBytesChars(Utf8(s[0])); }
      ConcatEncoded(EncodeChar(s[0]), Encode(s[1..]));
    }
  }

  lemma ConcatEncoded(a: string, b: string)
    requires forall i :: 0 <= i < |a| ==> EncodedChar(a[i])
    requires forall i :: 0 <= i < |b| ==> EncodedChar(b[i])
    ensures forall i :: 0 <= i < |a + b| ==> EncodedChar((a + b)[i])
  {
    forall i | 0 <= i < |a + b| ensures EncodedChar((a + b)[i]) {
      if i >= |a| { assert (a + b)[i] == b[i - |a|]; }
    }
  }

  /** A string of unreserved characters encodes to itself. */
  lemma {:induction false} EncodeUnreservedOnly(s: string)
    requires forall i :: 0 <= i < |s| ==> Unreserved(s[i])
    ensures Encode(s) == s
  {
    if s != [] {
      assert forall i :: 0 <= i < |s[1..]| ==> s[1..][i] == s[i + 1];
      EncodeUnreservedOnly(s[1..]);
      assert [s[0]] + s[1..] == s;
    }
  }

  /** The empty string, and only it, encodes to the empty string. */
  lemma EncodeEmpty(s: string)
    ensures (Encode(s) == []) <==> (s == [])
  {
    if s != [] {
      assert |EncodeChar(s[0])| >= 1;
    }
  }

  lemma HexRoundTrip(b: int)
    requires IsByte(b)
    ensures HexValue(HexDigit(b / 16)) == Some(b / 16)
    ensures HexValue(HexDigit(b % 16)) == Some(b % 16)
  {
  }

  /** The `k`-th escape of `EscapeBytes(bs)` is `%` and the two digits of `bs[k]`. */
  lemma {:induction false} EscapeBytesAt(bs: seq<int>, k: nat)
    requires forall i :: 0 <= i < |bs| ==> IsByte(bs[i])
    requires k < |bs|
    ensures EscapeBytes(bs)[3 * k] == '%'
    ensures EscapeBytes(bs)[3 * k + 1] == HexDigit(bs[k] / 16)
    ensures EscapeBytes(bs)[3 * k + 2] == HexDigit(bs[k] % 16)
  {
    if k > 0 {
      EscapeBytesAt(bs[1..], k - 1);
      var t := EscapeBytes(bs[1..]);
      assert EscapeBytes(bs)[3 * k] == t[3 * (k - 1)];
      assert EscapeBytes(bs)[3 * k + 1] == t[3 * (k - 1) + 1];
      assert EscapeBytes(bs)[3 * k + 2] == t[3 * (k - 1) + 2];
    }
  }

  /** Reading back the `k`-th escape of `EscapeBytes(bs) + rest`. */
  lemma EscapedByteAt(bs: seq<int>, rest: string, k: nat)
    requires forall i :: 0 <= i < |bs| ==> IsByte(bs[i])
    requires k < |bs|
    ensures EscapedByte(EscapeBytes(bs) + rest, 3 * k) == Some(bs[k])
  {
    var e := EscapeBytes(bs);
    var s := e + rest;
    var p := 3 * k;
    EscapeBytesAt(bs, k);
    assert s[p] == e[p] && s[p + 1] == e[p + 1] && s[p + 2] == e[p + 2];
    EscapeRead(s, p, bs[k]);
  }

  /** `%` and the two digits of a byte read back as that byte. */
  lemma EscapeRead(s: string, p: nat, b: int)
    requires IsByte(b) && p + 3 <= |s|
    requires s[p] == '%' && s[p + 1] == HexDigit(b / 16) && s[p + 2] == HexDigit(b % 16)
    ensures EscapedByte(s, p) == Some(b)
  {
    HexRoundTrip(b);
  }

  /** One escaped character decodes back to itself, taking all of its escapes;
      one lemma per length of its UTF-8 encoding. */
  lemma DecodeEscapedChar(c: char, rest: string)
    requires !Unreserved(c)
    ensures DecodeEscape(EncodeChar(c) + rest) == Some((c, |EncodeChar(c)|))
  {
    var cp := c as int;
    if cp < 0x80 { DecodeOneByte(c, rest); }
    else if cp < 0x800 { DecodeTwoBytes(c, rest); }
    else if cp < 0x10000 { DecodeThreeBytes(c, rest); }
    else { DecodeFourBytes(c, rest); }
  }

  lemma DecodeOneByte(c: char, rest: string)
    requires !Unreserved(c) && c as int < 0x80
    ensures DecodeEscape(EncodeChar(c) + rest) == Some((c, 3))
  {
    EscapedByteAt(Utf8(c), rest, 0);
  }

  lemma DecodeTwoBytes(c: char, rest: string)
    requires 0x80 <= c as int < 0x800
    ensures DecodeEscape(EncodeChar(c) + rest) == Some((c, 6))
  {
    var cp := c as int;
    var bs := Utf8(c);
    assert bs == [0xC0 + cp / 64, 0x80 + cp % 64];
    EscapedByteAt(bs, rest, 0);
    EscapedByteAt(bs, rest, 1);
    assert (cp / 64) * 64 + cp % 64 == cp;
    ReadTwo(EncodeChar(c) + rest, cp / 64, cp % 64);
  }

  /** Two escapes `110aaaaa 10bbbbbb` decode to one character. */
  lemma ReadTwo(s: string, a: int, b: int)
    requires 2 <= a < 32 && 0 <= b < 64
    requires EscapedByte(s, 0) == Some(0xC0 + a) && EscapedByte(s, 3) == Some(0x80 + b)
    ensures DecodeEscape(s) == Some(((a * 64 + b) as char, 6))
  {
    assert Continuation(s, 3) == Some(b);
    assert SequenceLength(0xC0 + a) == 2;
  }

  lemma DecodeThreeBytes(c: char, rest: string)
    requires 0x800 <= c as int < 0x10000
    ensures DecodeEscape(EncodeChar(c) + rest) == Some((c, 9))
  {
    var bs := Utf8(c);
    Utf8ThreeBytes(c);
    assert EncodeChar(c) == EscapeBytes(bs);
    EscapedByteAt(bs, rest, 0);
    EscapedByteAt(bs, rest, 1);
    EscapedByteAt(bs, rest, 2);
    ReadThree(EncodeChar(c) + rest, bs[0] - 0xE0, bs[1] - 0x80, bs[2] - 0x80);
  }

  /** The three bytes carry 4, 6 and 6 bits of the code point. */
  lemma Utf8ThreeBytes(c: char)
    requires 0x800 <= c as int < 0x10000
    ensures var bs := Utf8(c);
            |bs| == 3 && 0xE0 <= bs[0] < 0xF0 && 0x80 <= bs[1] < 0xC0 && 0x80 <= bs[2] < 0xC0 &&
            ((bs[0] - 0xE0) * 64 + (bs[1] - 0x80)) * 64 + (bs[2] - 0x80) == c as int
  {
    ThreeByteSplit(c as int);
  }

  /** Three escapes `1110aaaa 10bbbbbb 10dddddd` decode to one character. */
  lemma ReadThree(s: string, a: int, b: int, d: int)
    requires 0 <= a < 16 && 0 <= b < 64 && 0 <= d < 64
    requires EscapedByte(s, 0) == Some(0xE0 + a)
    requires EscapedByte(s, 3) == Some(0x80 + b) && EscapedByte(s, 6) == Some(0x80 + d)
    requires 0x800 <= (a * 64 + b) * 64 + d && IsScalar((a * 64 + b) * 64 + d)
    ensures DecodeEscape(s) == Some((((a * 64 + b) * 64 + d) as char, 9))
  {
    assert Continuation(s, 3) == Some(b);
    assert Continuation(s, 6) == Some(d);
    assert SequenceLength(0xE0 + a) == 3;
  }

  lemma ThreeByteSplit(cp: int)
    requires 0x800 <= cp < 0x10000
    ensures 0 <= cp / 64 / 64 < 16
    ensures (cp / 64 / 64 * 64 + cp / 64 % 64) * 64 + cp % 64 == cp
  {
    var q := cp / 64;
    assert q * 64 + cp % 64 == cp;
    assert (q / 64) * 64 + q % 64 == q;
  }

  lemma DecodeFourBytes(c: char, rest: string)
    requires 0x10000 <= c as int
    ensures DecodeEscape(EncodeChar(c) + rest) == Some((c, 12))
  {
    var bs := Utf8(c);
    Utf8FourBytes(c);
    assert EncodeChar(c) == EscapeBytes(bs);
    EscapedByteAt(bs, rest, 0);
    EscapedByteAt(bs, rest, 1);
    EscapedByteAt(bs, rest, 2);
    EscapedByteAt(bs, rest, 3);
    ReadFour(EncodeChar(c) + rest, bs[0] - 0xF0, bs[1] - 0x80, bs[2] - 0x80, bs[3] - 0x80);
  }

  /** The four bytes carry 3, 6, 6 and 6 bits of the code point. */
  lemma Utf8FourBytes(c: char)
    requires 0x10000 <= c as int
    ensures var bs := Utf8(c);
            |bs| == 4 && 0xF0 <= bs[0] < 0xF5 && 0x80 <= bs[1] < 0xC0 && 0x80 <= bs[2] < 0xC0 &&
            0x80 <= bs[3] < 0xC0 &&
            (((bs[0] - 0xF0) * 64 + (bs[1] - 0x80)) * 64 + (bs[2] - 0x80)) * 64 + (bs[3] - 0x80) == c as int
  {
    FourByteSplit(c as int);
  }

  /** Four escapes `11110aaa 10bbbbbb 10dddddd 10eeeeee` decode to one character. */
  lemma ReadFour(s: string, a: int, b: int, d: int, e: int)
    requires 0 <= a < 5 && 0 <= b < 64 && 0 <= d < 64 && 0 <= e < 64
    requires EscapedByte(s, 0) == Some(0xF0 + a) && EscapedByte(s, 3) == Some(0x80 + b)
    requires EscapedByte(s, 6) == Some(0x80 + d) && EscapedByte(s, 9) == Some(0x80 + e)
    requires 0x10000 <= ((a * 64 + b) * 64 + d) * 64 + e < 0x110000
    ensures DecodeEscape(s) == Some(((((a * 64 + b) * 64 + d) * 64 + e) as char, 12))
  {
    assert Continuation(s, 3) == Some(b);
    assert Continuation(s, 6) == Some(d);
    assert Continuation(s, 9) == Some(e);
    assert SequenceLength(0xF0 + a) == 4;
  }

  lemma FourByteSplit(cp: int)
    requires 0x10000 <= cp < 0x110000
    ensures 0 <= cp / 64 / 64 / 64 < 5
    ensures ((cp / 64 / 64 / 64 * 64 + cp / 64 / 64 % 64) * 64 + cp / 64 % 64) * 64 + cp % 64 == cp
  {
    var q := cp / 64;
    var q2 := q / 64;
    assert q * 64 + cp % 64 == cp;
    assert q2 * 64 + q % 64 == q;
    assert (q2 / 64) * 64 + q2 % 64 == q2;
  }

  /** `decodeURIComponent(encodeURIComponent(s)) == s` for every string. */
  lemma {:induction false} DecodeEncode(s: string)
    ensures Decode(Encode(s)) == Some(s)
  {
    if s != [] {
      DecodeEncode(s[1..]);
      var e := EncodeChar(s[0]);
      var all := Encode(s);
      assert all == e + Encode(s[1..]);
      if Unreserved(s[0]) {
        assert all[0] == s[0] && all[0] != '%' && all[1..] == Encode(s[1..]);
        assert [s[0]] + s[1..] == s;
      } else {
        DecodeEscapedChar(s[0], Encode(s[1..]));
        assert DecodeEscape(all) == Some((s[0], |e|));
        assert all[0] == '%';
        assert all[|e|..] == Encode(s[1..]);
        assert [s[0]] + s[1..] == s;
      }
    }
  }
}
