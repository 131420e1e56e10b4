/** UTF-8, the encoding behind `str::as_bytes`, `str::len` and `String::from_utf8`. */
module Utf8 {
  import opened Text

  type byte = n: int | 0 <= n < 256
  type Bytes = seq<byte>

  function EncodeChar(c: char): (b: Bytes)
    ensures 1 <= |b| <= 4
  {
    var n := c as int;
    if n < 0x80 then [n]
    else if n < 0x800 then [0xC0 + n / 0x40, 0x80 + n % 0x40]
    else if n < 0x10000 then [0xE0 + n / 0x1000, 0x80 + n / 0x40 % 0x40, 0x80 + n % 0x40]
    else [0xF0 + n / 0x40000, 0x80 + n / 0x1000 % 0x40, 0x80 + n / 0x40 % 0x40, 0x80 + n % 0x40]
  }

  function Encode(s: string): (b: Bytes)
    ensures |b| >= |s|
  {
    if s == [] then [] else EncodeChar(s[0]) + Encode(s[1..])
  }

  predicate Continues(b: byte) {
    0x80 <= b < 0xC0
  }

  function Scalar(n: nat): Option<char> {
    if n < 0xD800 || 0xE000 <= n < 0x110000 then Some(n as char) else None
  }

  /** The number a two, three or four byte form stands for. */
  function Number2(a: int, b: int): int {
    (a - 0xC0) * 0x40 + (b - 0x80)
  }

  function Number3(a: int, b: int, c: int): int {
    (a - 0xE0) * 0x1000 + (b - 0x80) * 0x40 + (c - 0x80)
  }

  function Number4(a: int, b: int, c: int, d: int): int {
    (a - 0xF0) * 0x40000 + (b - 0x80) * 0x1000 + (c - 0x80) * 0x40 + (d - 0x80)
  }

  /** The scalar value at the head of `b`: shortest form only, no surrogates. */
  function DecodeHead(b: Bytes): Option<char> {
    if b == [] then None
    else if b[0] < 0x80 then Some(b[0] as char)
    else if b[0] < 0xC2 then None
    else if b[0] < 0xE0 then
      if |b| >= 2 && Continues(b[1]) then Scalar(Number2(b[0], b[1])) else None
    else if b[0] < 0xF0 then
      if |b| >= 3 && Continues(b[1]) && Continues(b[2]) && Number3(b[0], b[1], b[2]) >= 0x800 then
        Scalar(Number3(b[0], b[1], b[2]))
      else None
    else if b[0] < 0xF5 then
      if |b| >= 4 && Continues(b[1]) && Continues(b[2]) && Continues(b[3]) &&
         Number4(b[0], b[1], b[2], b[3]) >= 0x10000 then
        Scalar(Number4(b[0], b[1], b[2], b[3]))
      else None
    else None
  }

  lemma NumbersOfEncoded(n: nat)
    ensures n < 0x800 ==> Number2(0xC0 + n / 0x40, 0x80 + n % 0x40) == n
    ensures Number3(0xE0 + n / 0x1000, 0x80 + n / 0x40 % 0x40, 0x80 + n % 0x40) == n
    ensures Number4(0xF0 + n / 0x40000, 0x80 + n / 0x1000 % 0x40, 0x80 + n / 0x40 % 0x40, 0x80 + n % 0x40) == n
  {
    assert n / 0x1000 == n / 0x40 / 0x40;
    assert n / 0x40000 == n / 0x1000 / 0x40;
  }

  lemma DecodeHeadOfEncoded(c: char, rest: Bytes)
    ensures DecodeHead(EncodeChar(c) + rest) == Some(c)
  {
    var n, b := c as int, EncodeChar(c) + rest;
    NumbersOfEncoded(n);
    if n < 0x80 {
      assert b[0] == n;
    } else if n < 0x800 {
      assert b[0] == 0xC0 + n / 0x40 && b[1] == 0x80 + n % 0x40;
    } else if n < 0x10000 {
      assert b[0] == 0xE0 + n / 0x1000 && b[1] == 0x80 + n / 0x40 % 0x40 && b[2] == 0x80 + n % 0x40;
    } else {
      assert b[0] == 0xF0 + n / 0x40000 && b[1] == 0x80 + n / 0x1000 % 0x40;
      assert b[2] == 0x80 + n / 0x40 % 0x40 && b[3] == 0x80 + n % 0x40;
    }
  }

  lemma EncodedHead(b: Bytes)
    requires DecodeHead(b).Some?
    ensures EncodeChar(DecodeHead(b).value) <= b
  {
    var n := DecodeHead(b).value as int;
    var b0: int := b[0];
    if b0 < 0x80 {
    } else if b0 < 0xE0 {
      Split(n, b0 - 0xC0, b[1] - 0x80);
    } else if b0 < 0xF0 {
      var high: int := b[1] - 0x80;
      Split(n, (b0 - 0xE0) * 0x40 + high, b[2] - 0x80);
      Split(n / 0x40, b0 - 0xE0, high);
    } else {
      var high: int, middle: int := b[1] - 0x80, b[2] - 0x80;
      Split(n, (b0 - 0xF0) * 0x1000 + high * 0x40 + middle, b[3] - 0x80);
      Split(n / 0x40, (b0 - 0xF0) * 0x40 + high, middle);
      Split(n / 0x1000, b0 - 0xF0, high);
    }
  }

  lemma Split(n: int, high: int, low: int)
    requires n == high * 0x40 + low && 0 <= low < 0x40
    ensures n / 0x40 == high && n % 0x40 == low
  {
  }

  /** `String::from_utf8`. */
  function Decode(b: Bytes): Option<string>
    decreases |b|
  {
    if b == [] then Some([])
    else
      match DecodeHead(b)
      case None => None
      case Some(c) =>
        EncodedHead(b);
        match Decode(b[|EncodeChar(c)|..])
        case None => None
        case Some(rest) => Some([c] + rest)
  }

  lemma {:induction false} DecodeEncode(s: string)
    ensures Decode(Encode(s)) == Some(s)
  {
    if s != [] {
      var head, tail := EncodeChar(s[0]), Encode(s[1..]);
      DecodeHeadOfEncoded(s[0], tail);
      assert (head + tail)[|head|..] == tail;
      DecodeEncode(s[1..]);
      assert [s[0]] + s[1..] == s;
    }
  }

  /** Text made of ASCII encodes to as many bytes as it has characters. */
  lemma {:induction false} EncodeAscii(s: string)
    requires forall k | 0 <= k < |s| :: s[k] as int < 0x80
    ensures |Encode(s)| == |s| && forall k | 0 <= k < |s| :: Encode(s)[k] == s[k] as int
  {
    if s != [] {
      EncodeAscii(s[1..]);
    }
  }
}
