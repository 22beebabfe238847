/** Strings as the broker handles them: UTF-8, percent-encoding (sections 2.1
    and 2.3 of RFC 3986), decimal numbers and slash-separated IRI paths.
    A Dafny `char` is a Unicode scalar value, as a Rust `char` is. */
module Text {

  datatype Option<+T> = None | Some(value: T)

  type byte = b: int | 0 <= b < 256

  // ----- UTF-8 -----

  function Utf8Char(c: char): (bytes: seq<byte>)
    ensures 1 <= |bytes| <= 4
  {
    var n := c as int;
    if n < 0x80 then [n]
    else if n < 0x800 then [0xC0 + n / 64, 0x80 + n % 64]
    else if n < 0x10000 then [0xE0 + n / 4096, 0x80 + n / 64 % 64, 0x80 + n % 64]
    else [0xF0 + n / 262144, 0x80 + n / 4096 % 64, 0x80 + n / 64 % 64, 0x80 + n % 64]
  }

  function Utf8(s: string): (bytes: seq<byte>)
  {
    if s == "" then [] else Utf8Char(s[0]) + Utf8(s[1..])
  }

  predicate IsScalar(n: int) {
    0 <= n < 0xD800 || 0xE000 <= n < 0x110000
  }

  predicate IsContinuation(b: byte) {
    0x80 <= b < 0xC0
  }

  /** The bits a continuation byte adds. */
  function Tail(b: byte): (bits: int) {
    b as int - 0x80
  }

  /** The scalar value a non-empty byte string starts with and the bytes it
      takes; overlong forms and surrogates are refused. */
  function FirstChar(bytes: seq<byte>): (r: Option<(char, nat)>)
    requires bytes != []
    ensures r.Some? ==> 1 <= r.value.1 <= |bytes|
  {
    var b: int := bytes[0];
    if b < 0x80 then Some((b as char, 1))
    else if 0xC2 <= b < 0xE0 && |bytes| >= 2 && IsContinuation(bytes[1]) then
      Some((((b - 0xC0) * 64 + Tail(bytes[1])) as char, 2))
    else if 0xE0 <= b < 0xF0 && |bytes| >= 3 && IsContinuation(bytes[1]) && IsContinuation(bytes[2]) then
      var n := (b - 0xE0) * 4096 + Tail(bytes[1]) * 64 + Tail(bytes[2]);
      if n >= 0x800 && IsScalar(n) then Some((n as char, 3)) else None
    else if 0xF0 <= b < 0xF5 && |bytes| >= 4 && IsContinuation(bytes[1]) && IsContinuation(bytes[2]) && IsContinuation(bytes[3]) then
      var n := (b - 0xF0) * 262144 + Tail(bytes[1]) * 4096 + Tail(bytes[2]) * 64 + Tail(bytes[3]);
      if n >= 0x10000 && IsScalar(n) then Some((n as char, 4)) else None
    else None
  }

  function FromUtf8(bytes: seq<byte>): (r: Option<string>)
    decreases |bytes|
  {
    if bytes == [] then Some("")
    else
      match FirstChar(bytes)
      case None => None
      case Some((c, used)) =>
        match FromUtf8(bytes[used..])
        case None => None
        case Some(rest) => Some([c] + rest)
  }

  lemma FirstCharOfUtf8(c: char, rest: seq<byte>)
    ensures FirstChar(Utf8Char(c) + rest) == Some((c, |Utf8Char(c)|))
  {
    var n := c as int;
    assert IsScalar(n);
    assert n / 64 == n / 4096 * 64 + n / 64 % 64;
    assert n / 4096 == n / 262144 * 64 + n / 4096 % 64;
  }

  lemma {:induction false} FromUtf8OfUtf8(s: string)
    ensures FromUtf8(Utf8(s)) == Some(s)
  {
    if s != "" {
      var head, tail := Utf8Char(s[0]), Utf8(s[1..]);
      FirstCharOfUtf8(s[0], tail);
      assert (head + tail)[|head|..] == tail;
      FromUtf8OfUtf8(s[1..]);
      assert [s[0]] + s[1..] == s;
    }
  }

  // ----- Percent-encoding -----

  /** Letters, digits and `-`, `.`, `_`, `~` are kept as they are. */
  predicate Unreserved(b: byte) {
    || 0x30 <= b < 0x3A || 0x41 <= b < 0x5B || 0x61 <= b < 0x7B
    || b == 0x2D || b == 0x2E || b == 0x5F || b == 0x7E
  }

  function HexDigit(v: int): (c: char)
    requires 0 <= v < 16
    ensures HexValue(c) == Some(v) && c != '/'
  {
    if v < 10 then (0x30 + v) as char else (0x41 + v - 10) as char
  }

  function HexValue(c: char): (v: Option<int>)
    ensures v.Some? ==> 0 <= v.value < 16
  {
    if '0' <= c <= '9' then Some(c as int - 0x30)
    else if 'A' <= c <= 'F' then Some(c as int - 0x41 + 10)
    else if 'a' <= c <= 'f' then Some(c as int - 0x61 + 10)
    else None
  }

  function EncodeByte(b: byte): (s: string) {
    if Unreserved(b) then [b as char] else ['%', HexDigit(b / 16), HexDigit(b % 16)]
  }

  function EncodeBytes(bytes: seq<byte>): (s: string) {
    if bytes == [] then "" else EncodeByte(bytes[0]) + EncodeBytes(bytes[1..])
  }

  function Encode(s: string): (r: string) {
    EncodeBytes(Utf8(s))
  }

  /** The bytes a percent-encoded text stands for; a `%` not followed by two
      hexadecimal digits stands for itself. */
  function Unescape(s: string): (bytes: seq<byte>) {
    if s == "" then []
    else if s[0] == '%' && |s| >= 3 && HexValue(s[1]).Some? && HexValue(s[2]).Some? then
      [HexValue(s[1]).value * 16 + HexValue(s[2]).value] + Unescape(s[3..])
    else Utf8Char(s[0]) + Unescape(s[1..])
  }

  /** `None` when the bytes are not valid UTF-8. */
  function Decode(s: string): (r: Option<string>) {
    FromUtf8(Unescape(s))
  }

  lemma {:induction false} UnescapeOfEncodeBytes(bytes: seq<byte>)
    ensures Unescape(EncodeBytes(bytes)) == bytes
  {
    if bytes != [] {
      var head, tail := EncodeByte(bytes[0]), EncodeBytes(bytes[1..]);
      assert (head + tail)[|head|..] == tail;
      UnescapeOfEncodeBytes(bytes[1..]);
      assert Unescape(head + tail) == [bytes[0]] + Unescape(tail);
    }
  }

  lemma DecodeOfEncode(s: string)
    ensures Decode(Encode(s)) == Some(s)
  {
    UnescapeOfEncodeBytes(Utf8(s));
    FromUtf8OfUtf8(s);
  }

  lemma EncodeInjective(a: string, b: string)
    requires Encode(a) == Encode(b)
    ensures a == b
  {
    DecodeOfEncode(a);
    DecodeOfEncode(b);
  }

  predicate SlashFree(s: string) {
    '/' !in s
  }

  lemma {:induction false} EncodeBytesSlashFree(bytes: seq<byte>)
    ensures SlashFree(EncodeBytes(bytes))
  {
    if bytes != [] {
      EncodeBytesSlashFree(bytes[1..]);
    }
  }

  lemma EncodeSlashFree(s: string)
    ensures SlashFree(Encode(s))
  {
    EncodeBytesSlashFree(Utf8(s));
  }

  // ----- Decimal numbers -----

  function Decimal(n: nat): (s: string)
    ensures s != "" && SlashFree(s) && forall c :: c in s ==> '0' <= c <= '9'
  {
    var last := (0x30 + n % 10) as char;
    if n < 10 then [last] else Decimal(n / 10) + [last]
  }

  function DigitsValue(s: string): (r: Option<nat>) {
    if s == "" then Some(0)
    else
      var last := s[|s| - 1];
      match DigitsValue(s[..|s| - 1])
      case Some(rest) => if '0' <= last <= '9' then Some(rest * 10 + (last as int - 0x30)) else None
      case None => None
  }

  /** Rust's `str::parse` for an unsigned integer, without its upper bound:
      one optional `+`, then at least one digit. */
  function ParseNat(s: string): (r: Option<nat>) {
    var digits := if s != "" && s[0] == '+' then s[1..] else s;
    if digits == "" then None else DigitsValue(digits)
  }

  lemma {:induction false} DigitsValueOfDecimal(n: nat)
    ensures DigitsValue(Decimal(n)) == Some(n)
  {
    if n < 10 {
      assert Decimal(n)[..0] == "";
    } else {
      DigitsValueOfDecimal(n / 10);
      var s := Decimal(n);
      assert s[..|s| - 1] == Decimal(n / 10);
    }
  }

  lemma ParseOfDecimal(n: nat)
    ensures ParseNat(Decimal(n)) == Some(n)
  {
    DigitsValueOfDecimal(n);
    assert Decimal(n)[0] in Decimal(n);
  }

  lemma DecimalInjective(m: nat, n: nat)
    requires Decimal(m) == Decimal(n)
    ensures m == n
  {
    DigitsValueOfDecimal(m);
    DigitsValueOfDecimal(n);
  }

  // ----- Paths -----

  /** Whether `iri` is `node` or minted below it. */
  predicate Under(node: string, iri: string) {
    iri == node || node + "/" <= iri
  }

  /** Two slash-free segments after one prefix lead to disjoint subtrees. */
  lemma SegmentUnique(prefix: string, a: string, b: string, iri: string)
    requires SlashFree(a) && SlashFree(b)
    requires Under(prefix + a, iri) && Under(prefix + b, iri)
    ensures a == b
  {
    assert |iri| > |prefix + a| ==> iri[|prefix + a|] == '/';
    assert |iri| > |prefix + b| ==> iri[|prefix + b|] == '/';
    assert forall i :: 0 <= i < |a| ==> iri[|prefix| + i] == (prefix + a)[|prefix| + i] == a[i];
    assert forall i :: 0 <= i < |b| ==> iri[|prefix| + i] == (prefix + b)[|prefix| + i] == b[i];
    assert |a| == |b|;
  }

  lemma UnderTransitive(a: string, b: string, c: string)
    requires Under(a, b) && Under(b, c)
    ensures Under(a, c)
  {
  }
}
