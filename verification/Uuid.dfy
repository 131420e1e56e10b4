/** The text form of a UUID, printed and parsed, as `Uuid::to_string` and `Uuid::parse_str` do. */
module UuidText {
  import opened Text

  /** The 128 bits, most significant first, so that comparing numbers compares bytes. */
  type Uuid = n: nat | n < 0x1_0000_0000_0000_0000_0000_0000_0000_0000

  function LowerHexDigit(n: nat): (c: char)
    requires n < 16
    ensures '0' <= c <= '9' || 'a' <= c <= 'f'
  {
    if n < 10 then (n + '0' as int) as char else (n - 10 + 'a' as int) as char
  }

  /** The last `k` hex digits of `n`. */
  function Hex(n: nat, k: nat): (s: string)
    ensures |s| == k && forall i | 0 <= i < k :: '0' <= s[i] <= '9' || 'a' <= s[i] <= 'f'
  {
    if k == 0 then [] else Hex(n / 16, k - 1) + [LowerHexDigit(n % 16)]
  }

  function Power16(k: nat): nat {
    if k == 0 then 1 else 16 * Power16(k - 1)
  }

  function ReadHex(s: string): Option<nat> {
    if s == [] then Some(0)
    else
      match (ReadHex(s[..|s| - 1]), HexValue(s[|s| - 1]))
      case (Some(high), Some(low)) => Some(high * 16 + low)
      case _ => None
  }

  lemma ReadHexSnoc(front: string, last: char, high: nat, low: nat)
    requires ReadHex(front) == Some(high) && HexValue(last) == Some(low)
    ensures ReadHex(front + [last]) == Some(high * 16 + low)
  {
    assert (front + [last])[..|front|] == front;
  }

  lemma DigitReadsBack(d: nat)
    requires d < 16
    ensures HexValue(LowerHexDigit(d)) == Some(d)
  {
  }

  lemma LastDigitReads(front: string, n: nat)
    requires ReadHex(front) == Some(n / 16)
    ensures ReadHex(front + [LowerHexDigit(n % 16)]) == Some(n)
  {
    DigitReadsBack(n % 16);
    ReadHexSnoc(front, LowerHexDigit(n % 16), n / 16, n % 16);
  }

  lemma OneDigitFewer(n: nat, k: nat)
    requires k > 0 && n < Power16(k)
    ensures n / 16 < Power16(k - 1)
  {
  }

  lemma {:induction false} ReadHexOfHex(n: nat, k: nat)
    requires n < Power16(k)
    ensures ReadHex(Hex(n, k)) == Some(n)
  {
    if k > 0 {
      OneDigitFewer(n, k);
      ReadHexOfHex(n / 16, k - 1);
      LastDigitReads(Hex(n / 16, k - 1), n);
    }
  }

  /** Hyphens after the 8th, 12th, 16th and 20th digit. */
  function Hyphenated(h: string): (s: string)
    requires |h| == 32
    ensures |s| == 36
  {
    h[..8] + "-" + h[8..12] + "-" + h[12..16] + "-" + h[16..20] + "-" + h[20..]
  }

  function Format(id: Uuid): (s: string)
    ensures |s| == 36
  {
    Hyphenated(Hex(id, 32))
  }

  function ParseHyphenated(s: string): Option<Uuid>
    requires |s| == 36
  {
    if s[8] != '-' || s[13] != '-' || s[18] != '-' || s[23] != '-' then None
    else ParseSimple(s[..8] + s[9..13] + s[14..18] + s[19..23] + s[24..])
  }

  function ParseSimple(s: string): Option<Uuid>
    requires |s| == 32
  {
    match ReadHex(s)
    case Some(n) => if n < 0x1_0000_0000_0000_0000_0000_0000_0000_0000 then Some(n) else None
    case None => None
  }

  const URN: string := "urn:uuid:"

  function Parse(s: string): Option<Uuid> {
    if |s| == 32 then ParseSimple(s)
    else if |s| == 36 then ParseHyphenated(s)
    else if |s| == 38 && s[0] == '{' && s[37] == '}' then ParseHyphenated(s[1..37])
    else if |s| == 45 && URN <= s then ParseHyphenated(s[9..])
    else None
  }

  lemma Power16Of32()
    ensures Power16(32) == 0x1_0000_0000_0000_0000_0000_0000_0000_0000
  {
    assert Power16(8) == 0x1_0000_0000 by { assert Power16(4) == 0x1_0000; }
    assert Power16(12) == 0x1_0000_0000_0000;
    assert Power16(16) == 0x1_0000_0000_0000_0000;
    assert Power16(20) == 0x1_0000_0000_0000_0000_0000;
    assert Power16(24) == 0x1_0000_0000_0000_0000_0000_0000;
    assert Power16(28) == 0x1_0000_0000_0000_0000_0000_0000_0000;
  }

  lemma ParseFormat(id: Uuid)
    ensures Parse(Format(id)) == Some(id)
  {
    var h := Hex(id, 32);
    var s := Format(id);
    assert s[..8] == h[..8] && s[8] == '-' && s[9..13] == h[8..12] && s[13] == '-';
    assert s[14..18] == h[12..16] && s[18] == '-' && s[19..23] == h[16..20] && s[23] == '-' && s[24..] == h[20..];
    assert s[..8] + s[9..13] + s[14..18] + s[19..23] + s[24..] == h;
    Power16Of32();
    ReadHexOfHex(id, 32);
  }

  lemma FormatIsPlain(id: Uuid)
    ensures forall k | 0 <= k < 36 :: '0' <= Format(id)[k] <= '9' || 'a' <= Format(id)[k] <= 'f' || Format(id)[k] == '-'
  {
  }
}
