/** Appending parameters to a redirect URI that is not a base URL, and what a client reads back
    (src/authserver/routes.rs `append_query`, `urlencode`; sections 2.1 and 2.3 of RFC 3986). */
module RedirectQuery {
  import opened Text
  import opened Utf8

  // ---- percent-encoding ----

  predicate Unreserved(b: byte) {
    || 'A' as int <= b <= 'Z' as int || 'a' as int <= b <= 'z' as int || '0' as int <= b <= '9' as int
    || b == '-' as int || b == '.' as int || b == '_' as int || b == '~' as int
  }

  function HexDigit(n: nat): (c: char)
    requires n < 16
    ensures '0' <= c <= '9' || 'A' <= c <= 'F'
  {
    if n < 10 then (n + '0' as int) as char else (n - 10 + 'A' as int) as char
  }

  function EncodeByte(b: byte): (s: string)
    ensures 0 < |s| <= 3
  {
    if Unreserved(b) then [b as char] else ['%', HexDigit(b / 16), HexDigit(b % 16)]
  }

  function EncodeBytes(b: Bytes): string {
    if b == [] then [] else EncodeByte(b[0]) + EncodeBytes(b[1..])
  }

  lemma {:induction false} EncodeBytesSnoc(b: Bytes, last: byte)
    ensures EncodeBytes(b + [last]) == EncodeBytes(b) + EncodeByte(last)
  {
    if b == [] {
      assert (b + [last])[1..] == [];
    } else {
      assert (b + [last])[1..] == b[1..] + [last];
      EncodeBytesSnoc(b[1..], last);
    }
  }

  method UrlEncode(value: string) returns (out: string)
    ensures out == EncodeBytes(Encode(value))
  {
    var bytes := Encode(value);
    out := [];
    assert bytes[..0] == [];
    for i := 0 to |bytes|
      invariant out == EncodeBytes(bytes[..i])
    {
      assert bytes[..i + 1] == bytes[..i] + [bytes[i]];
      EncodeBytesSnoc(bytes[..i], bytes[i]);
      if Unreserved(bytes[i]) {
        out := out + [bytes[i] as char];
      } else {
        out := out + "%" + [HexDigit(bytes[i] / 16), HexDigit(bytes[i] % 16)];
      }
    }
    assert bytes[..|bytes|] == bytes;
  }

  /** A percent sign and two hex digits are one byte; every other character is its own bytes. */
  function PercentDecode(s: string): Bytes {
    if s == [] then []
    else if s[0] == '%' && |s| >= 3 && HexValue(s[1]).Some? && HexValue(s[2]).Some? then
      [HexValue(s[1]).value % 16 * 16 + HexValue(s[2]).value % 16] + PercentDecode(s[3..])
    else EncodeChar(s[0]) + PercentDecode(s[1..])
  }

  lemma HexReadsBack(d: nat)
    requires d < 16
    ensures HexValue(HexDigit(d)) == Some(d)
  {
  }

  lemma EscapeReadsBack(b: byte, rest: string)
    ensures PercentDecode(['%', HexDigit(b / 16), HexDigit(b % 16)] + rest) == [b] + PercentDecode(rest)
  {
    var high, low := HexDigit(b / 16), HexDigit(b % 16);
    HexReadsBack(b / 16);
    HexReadsBack(b % 16);
    var s := ['%', high, low] + rest;
    assert s[0] == '%' && s[1] == high && s[2] == low && s[3..] == rest;
  }

  lemma PlainByteReadsBack(b: byte, rest: string)
    requires Unreserved(b)
    ensures PercentDecode([b as char] + rest) == [b] + PercentDecode(rest)
  {
    var s := [b as char] + rest;
    assert s[0] == b as char && s[1..] == rest;
  }

  lemma DecodesOneByte(b: byte, rest: string)
    ensures PercentDecode(EncodeByte(b) + rest) == [b] + PercentDecode(rest)
  {
    if Unreserved(b) {
      PlainByteReadsBack(b, rest);
    } else {
      EscapeReadsBack(b, rest);
    }
  }

  lemma {:induction false} PercentDecodeEncoded(b: Bytes)
    ensures PercentDecode(EncodeBytes(b)) == b
  {
    if b != [] {
      DecodesOneByte(b[0], EncodeBytes(b[1..]));
      PercentDecodeEncoded(b[1..]);
      assert [b[0]] + b[1..] == b;
    }
  }

  /** A letter, a digit, one of the four marks, or the escape itself. */
  predicate Plain(c: char) {
    'a' <= c <= 'z' || 'A' <= c <= 'Z' || '0' <= c <= '9' || c in ['-', '.', '_', '~', '%']
  }

  lemma {:induction false} EncodedIsPlain(b: Bytes)
    ensures forall c | c in EncodeBytes(b) :: Plain(c)
  {
    if b != [] {
      EncodedIsPlain(b[1..]);
    }
  }

  predicate UnreservedKey(key: string) {
    key != [] && forall k | 0 <= k < |key| :: key[k] as int < 0x80 && Unreserved(key[k] as int)
  }

  lemma {:induction false} UnreservedDecodesToItself(key: string)
    requires forall k | 0 <= k < |key| :: key[k] as int < 0x80 && Unreserved(key[k] as int)
    ensures PercentDecode(key) == Encode(key)
  {
    if key != [] {
      assert key[0] != '%';
      UnreservedDecodesToItself(key[1..]);
    }
  }

  // ---- appending ----

  type Pair = (string, string)

  function Segment(p: Pair): string {
    p.0 + "=" + EncodeBytes(Encode(p.1))
  }

  function AppendOne(uri: string, p: Pair): string {
    uri + [if '?' in uri then '&' else '?'] + Segment(p)
  }

  function Appended(uri: string, pairs: seq<Pair>): string {
    if pairs == [] then uri else AppendOne(Appended(uri, pairs[..|pairs| - 1]), pairs[|pairs| - 1])
  }

  /** The string arm of `append_query`. */
  method AppendQuery(uri: string, pairs: seq<Pair>) returns (out: string)
    ensures out == Appended(uri, pairs)
  {
    out := uri;
    for i := 0 to |pairs|
      invariant out == Appended(uri, pairs[..i])
    {
      assert pairs[..i + 1][..i] == pairs[..i];
      var (key, value) := pairs[i];
      out := out + [if '?' in out then '&' else '?'];
      out := out + key;
      out := out + "=";
      var encoded := UrlEncode(value);
      out := out + encoded;
    }
    assert pairs[..|pairs|] == pairs;
  }

  // ---- reading ----

  function DecodeSegment(s: string): (Bytes, Bytes) {
    match SplitOnce(s, '=')
    case Some((key, value)) => (PercentDecode(key), PercentDecode(value))
    case None => (PercentDecode(s), [])
  }

  /** An empty segment is no pair. */
  function DecodeOne(segment: string): seq<(Bytes, Bytes)> {
    if segment == [] then [] else [DecodeSegment(segment)]
  }

  function DecodeSegments(segments: seq<string>): seq<(Bytes, Bytes)> {
    if segments == [] then [] else DecodeOne(segments[0]) + DecodeSegments(segments[1..])
  }

  /** The pairs of everything after the first question mark. */
  function QueryPairs(uri: string): seq<(Bytes, Bytes)> {
    match SplitOnce(uri, '?')
    case None => []
    case Some((_, query)) => DecodeSegments(SplitOn(query, {'&'}))
  }

  function AsBytes(pairs: seq<Pair>): seq<(Bytes, Bytes)> {
    if pairs == [] then []
    else AsBytes(pairs[..|pairs| - 1]) + [(Encode(pairs[|pairs| - 1].0), Encode(pairs[|pairs| - 1].1))]
  }

  lemma {:induction false} DecodeSegmentsConcat(a: seq<string>, b: seq<string>)
    ensures DecodeSegments(a + b) == DecodeSegments(a) + DecodeSegments(b)
  {
    if a == [] {
      assert a + b == b;
    } else {
      assert (a + b)[0] == a[0] && (a + b)[1..] == a[1..] + b;
      DecodeSegmentsConcat(a[1..], b);
      Regrouped(DecodeOne(a[0]), DecodeSegments(a[1..]), DecodeSegments(b));
    }
  }

  lemma Regrouped<T>(a: seq<T>, b: seq<T>, c: seq<T>)
    ensures a + (b + c) == (a + b) + c
  {
  }

  lemma SegmentIsFree(p: Pair)
    requires UnreservedKey(p.0)
    ensures Free(Segment(p), {'&'}) && Segment(p) != []
  {
    var encoded := EncodeBytes(Encode(p.1));
    EncodedIsPlain(Encode(p.1));
    assert forall k | 0 <= k < |encoded| :: Plain(encoded[k]);
  }

  lemma SegmentReadsBack(p: Pair)
    requires UnreservedKey(p.0)
    ensures DecodeSegment(Segment(p)) == (Encode(p.0), Encode(p.1))
  {
    var encoded := EncodeBytes(Encode(p.1));
    assert '=' !in p.0;
    assert Segment(p) == p.0 + ['='] + encoded;
    SplitOnceAt(p.0, '=', encoded);
    UnreservedDecodesToItself(p.0);
    PercentDecodeEncoded(Encode(p.1));
  }

  lemma OneSegment(p: Pair)
    requires UnreservedKey(p.0)
    ensures DecodeSegments(SplitOn(Segment(p), {'&'})) == [(Encode(p.0), Encode(p.1))]
  {
    SegmentIsFree(p);
    SegmentReadsBack(p);
    SplitFree(Segment(p), {'&'});
    assert [Segment(p)][1..] == [];
  }

  lemma AppendOneReadsBack(uri: string, p: Pair)
    requires UnreservedKey(p.0)
    ensures QueryPairs(AppendOne(uri, p)) == QueryPairs(uri) + [(Encode(p.0), Encode(p.1))]
  {
    OneSegment(p);
    match SplitOnce(uri, '?')
    case None =>
      SplitOnceAt(uri, '?', Segment(p));
    case Some((base, query)) =>
      var longer := query + ['&'] + Segment(p);
      assert uri + ['&'] + Segment(p) == base + ['?'] + longer;
      SplitOnceAt(base, '?', longer);
      SplitCuts(query, '&', Segment(p), {'&'});
      DecodeSegmentsConcat(SplitOn(query, {'&'}), SplitOn(Segment(p), {'&'}));
  }

  /** The reader finds the URI's own pairs, then exactly the new ones, whatever bytes their values hold. */
  lemma {:induction false} AppendedReadsBack(uri: string, pairs: seq<Pair>)
    requires forall p | p in pairs :: UnreservedKey(p.0)
    ensures QueryPairs(Appended(uri, pairs)) == QueryPairs(uri) + AsBytes(pairs)
  {
    if pairs != [] {
      var front, last := pairs[..|pairs| - 1], pairs[|pairs| - 1];
      assert forall p | p in front :: UnreservedKey(p.0) by {
        assert forall p | p in front :: p in pairs;
      }
      AppendedReadsBack(uri, front);
      AppendOneReadsBack(Appended(uri, front), last);
      Regrouped(QueryPairs(uri), AsBytes(front), [(Encode(last.0), Encode(last.1))]);
    }
  }

  /** And nothing it appends can start a fragment: the text after the URI holds no number sign. */
  lemma {:induction false} AppendsNoFragment(uri: string, pairs: seq<Pair>)
    requires '#' !in uri && forall p | p in pairs :: UnreservedKey(p.0)
    ensures uri <= Appended(uri, pairs) && '#' !in Appended(uri, pairs)
  {
    if pairs != [] {
      var front, last := pairs[..|pairs| - 1], pairs[|pairs| - 1];
      AppendsNoFragment(uri, front);
      EncodedIsPlain(Encode(last.1));
      assert '#' !in last.0;
      assert last in pairs;
      assert '#' !in Segment(last);
    }
  }

  // ---- the two redirects the consent screen sends ----

  function WithState(pairs: seq<Pair>, state: Option<string>): seq<Pair> {
    if state.Some? && state.value != [] then pairs + [("state", state.value)] else pairs
  }

  lemma StateIsUnreserved()
    ensures UnreservedKey("state")
  {
  }

  lemma CodeIsUnreserved()
    ensures UnreservedKey("code")
  {
  }

  lemma OneMoreReadsBack(uri: string, pairs: seq<Pair>, last: Pair)
    requires UnreservedKey(last.0) && forall p | p in pairs :: UnreservedKey(p.0)
    ensures QueryPairs(Appended(uri, pairs + [last])) ==
            QueryPairs(uri) + AsBytes(pairs) + [(Encode(last.0), Encode(last.1))]
  {
    var all, own, base := pairs + [last], AsBytes(pairs), QueryPairs(uri);
    AppendedReadsBack(uri, pairs);
    assert all[..|pairs|] == pairs;
    AppendOneReadsBack(Appended(uri, pairs), last);
  }

  /** A client that reads either redirect back finds what was sent, then its own state, and none when it sent none. */
  lemma StateReadsBack(uri: string, pairs: seq<Pair>, state: Option<string>)
    requires forall p | p in pairs :: UnreservedKey(p.0)
    ensures QueryPairs(Appended(uri, WithState(pairs, state))) ==
            QueryPairs(uri) + AsBytes(pairs)
            + (if state.Some? && state.value != [] then [(Encode("state"), Encode(state.value))] else [])
  {
    if state.Some? && state.value != [] {
      StateIsUnreserved();
      OneMoreReadsBack(uri, pairs, ("state", state.value));
    } else {
      AppendedReadsBack(uri, pairs);
    }
  }

  /** The Allow's redirect: the URI's own pairs, the code, and the client's state when it sent one. */
  lemma AllowReadsBack(uri: string, code: string, state: Option<string>)
    ensures QueryPairs(Appended(uri, WithState([("code", code)], state))) ==
            QueryPairs(uri) + [(Encode("code"), Encode(code))]
            + (if state.Some? && state.value != [] then [(Encode("state"), Encode(state.value))] else [])
  {
    CodeIsUnreserved();
    StateReadsBack(uri, [("code", code)], state);
    assert AsBytes([("code", code)]) == [(Encode("code"), Encode(code))] by {
      assert [("code", code)][..0] == [] && [("code", code)][1..] == [];
    }
  }
}
