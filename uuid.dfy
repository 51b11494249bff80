/**
 * The two faces of a UUID the core uses: `as_simple().to_string()` (32 lower-case
 * hex digits, the form of every generated id and token) and `Uuid::parse_str`
 * (the admin uid header). Generating a UUID v7 is left to the caller: a fresh
 * UUID is always a parameter.
 */
module Uuid {
  import opened Wrappers
  import Crypto

  datatype Uuid = Uuid(bytes: Crypto.Bytes)

  predicate WellFormed(u: Uuid) { |u.bytes| == 16 }

  /** `as_simple().to_string()` */
  function Simple(u: Uuid): (r: string)
    ensures |r| == 2 * |u.bytes|
  {
    Crypto.HexEncode(u.bytes)
  }

  /** `Display` of a UUID: the 8-4-4-4-12 hyphenated form. */
  function Hyphenated(u: Uuid): (r: string)
    requires WellFormed(u)
    ensures |r| == 36 && Unhyphenate(r) == Some(Simple(u))
  {
    var h := Simple(u);
    var r := h[..8] + "-" + h[8..12] + "-" + h[12..16] + "-" + h[16..20] + "-" + h[20..];
    assert r[..8] == h[..8] && r[9..13] == h[8..12] && r[14..18] == h[12..16];
    assert r[19..23] == h[16..20] && r[24..] == h[20..];
    assert h[..8] + h[8..12] + h[12..16] + h[16..20] + h[20..] == h;
    r
  }

  /** How a UUID is displayed in messages: the hyphenated form (every UUID of the model has sixteen bytes). */
  function Display(u: Uuid): string {
    if WellFormed(u) then Hyphenated(u) else Simple(u)
  }

  /** The 8-4-4-4-12 hyphenated form with its hyphens removed, if the hyphens are where they belong. */
  function Unhyphenate(s: string): Option<string>
  {
    if |s| == 36 && s[8] == '-' && s[13] == '-' && s[18] == '-' && s[23] == '-' then
      Some(s[..8] + s[9..13] + s[14..18] + s[19..23] + s[24..])
    else None
  }

  /** The hex digits of one of the accepted textual forms: simple, hyphenated, braced or URN. */
  function HexOfForm(s: string): Option<string>
  {
    if |s| == 32 then Some(s)
    else if |s| == 36 then Unhyphenate(s)
    else if |s| == 38 && s[0] == '{' && s[37] == '}' then Unhyphenate(s[1..37])
    else if |s| == 45 && s[..9] == "urn:uuid:" then Unhyphenate(s[9..])
    else None
  }

  /** `Uuid::parse_str`: a successful parse always gives sixteen bytes. */
  function Parse(s: string): (r: Option<Uuid>)
    ensures r.Some? ==> WellFormed(r.value)
    ensures |s| != 32 && |s| != 36 && |s| != 38 && |s| != 45 ==> r.None?
  {
    match HexOfForm(s)
    case None => None
    case Some(hex) =>
      match Crypto.HexDecode(hex)
      case None => None
      case Some(bytes) => if |bytes| == 16 then Some(Uuid(bytes)) else None
  }

  /** Every generated id parses back to the UUID it was printed from. */
  lemma ParseSimple(u: Uuid)
    requires WellFormed(u)
    ensures Parse(Simple(u)) == Some(u)
  {
    Crypto.HexRoundTrip(u.bytes);
  }

  /** The hyphenated form parses back too. */
  lemma ParseHyphenated(u: Uuid)
    requires WellFormed(u)
    ensures Parse(Hyphenated(u)) == Some(u)
  {
    Crypto.HexRoundTrip(u.bytes);
  }

  /** Two well-formed UUIDs print the same exactly when they are equal. */
  lemma SimpleInjective(u: Uuid, v: Uuid)
    requires Simple(u) == Simple(v)
    ensures u == v
  {
    Crypto.HexInjective(u.bytes, v.bytes);
  }
}
