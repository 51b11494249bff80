/**
 * Byte encodings used by the login check: lower-case hex (the `hex` crate),
 * UTF-8 (`str::as_bytes`) and HMAC as defined in section 2 of RFC 2104.
 * SHA-256 itself is library code and is passed in as a function, so every
 * statement here holds for whatever hash is supplied.
 */
module Crypto {
  import opened Wrappers

  type Bytes = seq<bv8>

  /** A hash function such as SHA-256, taken as a parameter. */
  type Hash = Bytes -> Bytes

  /** The lower-case hex digit for `n`. */
  function HexDigit(n: nat): (c: char)
    requires n < 16
    ensures IsLowerHexDigit(c)
  {
    if n < 10 then ('0' as int + n) as char else ('a' as int + n - 10) as char
  }

  predicate IsLowerHexDigit(c: char) {
    '0' <= c <= '9' || 'a' <= c <= 'f'
  }

  /** The value of a hex digit of either case (`Uuid::parse_str` accepts both). */
  function HexValue(c: char): Option<nat>
  {
    if '0' <= c <= '9' then Some(c as int - '0' as int)
    else if 'a' <= c <= 'f' then Some(c as int - 'a' as int + 10)
    else if 'A' <= c <= 'F' then Some(c as int - 'A' as int + 10)
    else None
  }

  /** `hex::encode`: two lower-case digits per byte, high nibble first. */
  function HexEncode(bytes: Bytes): (r: string)
    ensures |r| == 2 * |bytes|
    ensures forall i :: 0 <= i < |r| ==> IsLowerHexDigit(r[i])
  {
    if |bytes| == 0 then ""
    else [HexDigit(bytes[0] as int / 16), HexDigit(bytes[0] as int % 16)] + HexEncode(bytes[1..])
  }

  /** Reads pairs of hex digits back into bytes; `None` on an odd length or a non-digit. */
  function HexDecode(s: string): (r: Option<Bytes>)
    ensures r.Some? ==> 2 * |r.value| == |s|
    decreases |s|
  {
    if |s| == 0 then Some([])
    else if |s| == 1 then None
    else match (HexValue(s[0]), HexValue(s[1]), HexDecode(s[2..]))
      case (Some(hi), Some(lo), Some(rest)) =>
        assert hi < 16 && lo < 16;
        Some([(hi * 16 + lo) as bv8] + rest)
      case _ => None
  }

  lemma HexValueOfDigit(n: nat)
    requires n < 16
    ensures HexValue(HexDigit(n)) == Some(n)
  {
  }

  /** Hex encoding loses nothing: decoding gives back the bytes. */
  lemma {:induction false} HexRoundTrip(bytes: Bytes)
    ensures HexDecode(HexEncode(bytes)) == Some(bytes)
  {
    if |bytes| > 0 {
      var s := HexEncode(bytes);
      var b := bytes[0] as int;
      HexValueOfDigit(b / 16);
      HexValueOfDigit(b % 16);
      assert s[2..] == HexEncode(bytes[1..]);
      HexRoundTrip(bytes[1..]);
      assert ((b / 16) * 16 + b % 16) as bv8 == bytes[0];
      assert [bytes[0]] + bytes[1..] == bytes;
    }
  }

  /** Different digests never share a hex encoding. */
  lemma HexInjective(a: Bytes, b: Bytes)
    requires HexEncode(a) == HexEncode(b)
    ensures a == b
  {
    HexRoundTrip(a);
    HexRoundTrip(b);
  }

  predicate IsBase64UrlDigit(c: char) {
    'A' <= c <= 'Z' || 'a' <= c <= 'z' || '0' <= c <= '9' || c == '-' || c == '_'
  }

  /** The digit for `n` in the URL-safe alphabet of section 5 of RFC 4648. */
  function Base64UrlDigit(n: nat): (c: char)
    requires n < 64
    ensures IsBase64UrlDigit(c)
  {
    if n < 26 then ('A' as int + n) as char
    else if n < 52 then ('a' as int + n - 26) as char
    else if n < 62 then ('0' as int + n - 52) as char
    else if n == 62 then '-'
    else '_'
  }

  /**
   * URL-safe base64 without padding: every three bytes become four digits, and
   * a trailing one or two bytes become two or three digits.
   */
  function Base64UrlNoPad(b: Bytes): (r: string)
    ensures |r| == (4 * |b| + 2) / 3
    ensures forall i :: 0 <= i < |r| ==> IsBase64UrlDigit(r[i])
    decreases |b|
  {
    if |b| == 0 then ""
    else if |b| == 1 then
      var n := b[0] as int;
      [Base64UrlDigit(n / 4), Base64UrlDigit((n % 4) * 16)]
    else if |b| == 2 then
      var n := b[0] as int * 256 + b[1] as int;
      assert n / 1024 < 64;
      [Base64UrlDigit(n / 1024), Base64UrlDigit((n / 16) % 64), Base64UrlDigit((n % 16) * 4)]
    else
      var n := b[0] as int * 65536 + b[1] as int * 256 + b[2] as int;
      assert n / 262144 < 64;
      [Base64UrlDigit(n / 262144), Base64UrlDigit((n / 4096) % 64),
       Base64UrlDigit((n / 64) % 64), Base64UrlDigit(n % 64)] + Base64UrlNoPad(b[3..])
  }

  /** The UTF-8 encoding of one Unicode scalar value. */
  function Utf8Char(c: char): (r: Bytes)
    ensures 1 <= |r| <= 4
  {
    var n := c as int;
    if n < 0x80 then [n as bv8]
    else if n < 0x800 then [(0xC0 + n / 0x40) as bv8, (0x80 + n % 0x40) as bv8]
    else if n < 0x1_0000 then
      [(0xE0 + n / 0x1000) as bv8, (0x80 + (n / 0x40) % 0x40) as bv8, (0x80 + n % 0x40) as bv8]
    else if n < 0x11_0000 then
      [(0xF0 + n / 0x4_0000) as bv8, (0x80 + (n / 0x1000) % 0x40) as bv8,
       (0x80 + (n / 0x40) % 0x40) as bv8, (0x80 + n % 0x40) as bv8]
    else [0]
  }

  /** `str::as_bytes` */
  function Utf8(s: string): Bytes
  {
    if |s| == 0 then [] else Utf8Char(s[0]) + Utf8(s[1..])
  }

  /** The block size B of SHA-256, in bytes. */
  const BLOCK_SIZE: nat := 64
  const IPAD: bv8 := 0x36
  const OPAD: bv8 := 0x5c

  function Xor(k: Bytes, pad: bv8): (r: Bytes)
    ensures |r| == |k|
  {
    seq(|k|, i requires 0 <= i < |k| => k[i] ^ pad)
  }

  /** The key used in the pads: a key longer than B is hashed first, then zeros fill it up to B bytes. */
  function BlockKey(hash: Hash, key: Bytes): Bytes
  {
    var k := if |key| > BLOCK_SIZE then hash(key) else key;
    if |k| < BLOCK_SIZE then k + seq(BLOCK_SIZE - |k|, _ => 0 as bv8) else k
  }

  /** HMAC(K, text) = H(K0 xor opad, H(K0 xor ipad, text)), section 2 of RFC 2104. */
  function Hmac(hash: Hash, key: Bytes, text: Bytes): Bytes
  {
    var k0 := BlockKey(hash, key);
    hash(Xor(k0, OPAD) + hash(Xor(k0, IPAD) + text))
  }

  /** A short key is only padded: the first bytes of the block key are the key itself. */
  lemma BlockKeyShort(hash: Hash, key: Bytes)
    requires |key| <= BLOCK_SIZE
    ensures |BlockKey(hash, key)| == BLOCK_SIZE
    ensures BlockKey(hash, key)[..|key|] == key
    ensures forall i :: |key| <= i < BLOCK_SIZE ==> BlockKey(hash, key)[i] == 0
  {
  }
}
