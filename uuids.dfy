/**
 * java.util.UUID as the server uses it: an opaque 128-bit value compared by equality,
 * written by `toString` as 32 lower-case hexadecimal digits grouped 8-4-4-4-12.
 */
module Uuids {
  import opened Wrappers

  function Pow16(k: nat): (r: nat)
    ensures r > 0
  {
    if k == 0 then 1 else 16 * Pow16(k - 1)
  }

  const UuidLimit: nat := Pow16(32)

  /** A UUID is its 128-bit value. */
  type Uuid = n: nat | n < UuidLimit

  predicate IsHexDigit(ch: char) {
    '0' <= ch <= '9' || 'a' <= ch <= 'f'
  }

  predicate AllHex(s: string) {
    forall i :: 0 <= i < |s| ==> IsHexDigit(s[i])
  }

  function HexDigit(d: nat): (ch: char)
    requires d < 16
    ensures IsHexDigit(ch)
  {
    if d < 10 then ('0' as int + d) as char else ('a' as int + d - 10) as char
  }

  function HexDigitValue(ch: char): (d: nat)
    requires IsHexDigit(ch)
    ensures d < 16
  {
    if '0' <= ch <= '9' then ch as int - '0' as int else ch as int - 'a' as int + 10
  }

  /** The lowest `width` hexadecimal digits of `n`, most significant first. */
  function Hex(n: nat, width: nat): (s: string)
    ensures |s| == width && AllHex(s)
  {
    if width == 0 then "" else Hex(n / 16, width - 1) + [HexDigit(n % 16)]
  }

  /** The value of a string of hexadecimal digits, most significant first. */
  function HexValue(s: string): nat
    requires AllHex(s)
  {
    if s == [] then 0 else HexValue(s[..|s| - 1]) * 16 + HexDigitValue(s[|s| - 1])
  }

  /** `UUID.toString()`: 8-4-4-4-12 groups of lower-case hexadecimal digits. */
  function UuidText(u: Uuid): (s: string)
    ensures |s| == 36 && s[8] == '-' && s[13] == '-' && s[18] == '-' && s[23] == '-'
  {
    var h := Hex(u, 32);
    h[..8] + "-" + h[8..12] + "-" + h[12..16] + "-" + h[16..20] + "-" + h[20..]
  }

  /** Reads the canonical 36-character form only: the inverse of UuidText. */
  function ParseUuidText(s: string): Option<Uuid> {
    if |s| == 36 && s[8] == '-' && s[13] == '-' && s[18] == '-' && s[23] == '-' then
      var digits := s[..8] + s[9..13] + s[14..18] + s[19..23] + s[24..];
      if AllHex(digits) then
        HexValueBound(digits);
        Some(HexValue(digits))
      else
        None
    else
      None
  }

  lemma {:induction false} HexValueBound(s: string)
    requires AllHex(s)
    ensures HexValue(s) < Pow16(|s|)
  {
    if s != [] {
      var init := s[..|s| - 1];
      HexValueBound(init);
      assert HexValue(init) + 1 <= Pow16(|s| - 1);
      assert (HexValue(init) + 1) * 16 <= Pow16(|s| - 1) * 16;
    }
  }

  lemma {:induction false} HexRoundTrip(n: nat, width: nat)
    requires n < Pow16(width)
    ensures HexValue(Hex(n, width)) == n
  {
    if width > 0 {
      var s := Hex(n, width);
      assert s[..|s| - 1] == Hex(n / 16, width - 1);
      assert n / 16 < Pow16(width - 1);
      HexRoundTrip(n / 16, width - 1);
    }
  }

  /** Parsing the text of a UUID gives the UUID back, so distinct UUIDs print differently. */
  lemma UuidTextRoundTrip(u: Uuid)
    ensures ParseUuidText(UuidText(u)) == Some(u)
  {
    var h := Hex(u, 32);
    var s := UuidText(u);
    assert s[..8] == h[..8] && s[9..13] == h[8..12] && s[14..18] == h[12..16];
    assert s[19..23] == h[16..20] && s[24..] == h[20..];
    assert h[..8] + h[8..12] + h[12..16] + h[16..20] + h[20..] == h;
    HexRoundTrip(u, 32);
  }

  /** The text of a UUID is one word: hexadecimal digits and dashes only. */
  lemma UuidTextIsWord(u: Uuid)
    ensures forall i :: 0 <= i < 36 ==> UuidText(u)[i] == '-' || IsHexDigit(UuidText(u)[i])
    ensures ' ' !in UuidText(u)
  {
    var h := Hex(u, 32);
    var s := UuidText(u);
    assert s == h[..8] + "-" + h[8..12] + "-" + h[12..16] + "-" + h[16..20] + "-" + h[20..];
    forall i | 0 <= i < 36
      ensures s[i] == '-' || IsHexDigit(s[i])
    {
      if i < 8 { assert s[i] == h[i]; }
      else if 8 < i < 13 { assert s[i] == h[i - 1]; }
      else if 13 < i < 18 { assert s[i] == h[i - 2]; }
      else if 18 < i < 23 { assert s[i] == h[i - 3]; }
      else if 23 < i { assert s[i] == h[i - 4]; }
    }
  }
}
