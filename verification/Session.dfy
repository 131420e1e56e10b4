/** The signed owner cookie and the CSRF tokens bound to it (src/authserver/session.rs). */
module Session {
  import opened Text
  import opened Utf8
  import Decimal

  const COOKIE_NAME: string := "lumberroom_owner"
  const SESSION: string := "session"
  const CSRF: string := "csrf"
  const CSRF_CONSOLE: string := "csrf-console"

  // ---- what the MAC is computed over ----

  /** `k` little-endian bytes of `n`; eight of them are `(n as u64).to_le_bytes()`. */
  function LeBytes(n: nat, k: nat): (b: Bytes)
    ensures |b| == k
  {
    if k == 0 then [] else [n % 256] + LeBytes(n / 256, k - 1)
  }

  function LeNumber(b: Bytes): nat {
    if b == [] then 0 else b[0] + 256 * LeNumber(b[1..])
  }

  function Power256(k: nat): nat {
    if k == 0 then 1 else 256 * Power256(k - 1)
  }

  lemma {:induction false} LeRoundTrip(n: nat, k: nat)
    requires n < Power256(k)
    ensures LeNumber(LeBytes(n, k)) == n
  {
    if k > 0 {
      assert n / 256 < Power256(k - 1);
      LeRoundTrip(n / 256, k - 1);
      assert LeBytes(n, k)[1..] == LeBytes(n / 256, k - 1);
    }
  }

  /** A Rust string is shorter than 2^64 bytes. */
  predicate Fits(field: string) {
    |Encode(field)| < Power256(8)
  }

  function FieldBytes(field: string): Bytes {
    LeBytes(|Encode(field)|, 8) + Encode(field)
  }

  function FieldsBytes(fields: seq<string>): Bytes {
    if fields == [] then [] else FieldBytes(fields[0]) + FieldsBytes(fields[1..])
  }

  function SignInput(context: string, fields: seq<string>): Bytes {
    Encode(context) + FieldsBytes(fields)
  }

  lemma {:induction false} FieldsBytesSnoc(fields: seq<string>, last: string)
    ensures FieldsBytes(fields + [last]) == FieldsBytes(fields) + FieldBytes(last)
  {
    var all := fields + [last];
    if fields == [] {
      assert all[1..] == [];
    } else {
      assert all[1..] == fields[1..] + [last];
      FieldsBytesSnoc(fields[1..], last);
    }
  }

  lemma SignInputSnoc(context: string, fields: seq<string>, last: string)
    ensures SignInput(context, fields + [last]) ==
            SignInput(context, fields) + LeBytes(|Encode(last)|, 8) + Encode(last)
  {
    FieldsBytesSnoc(fields, last);
    Regroup(Encode(context), FieldsBytes(fields), LeBytes(|Encode(last)|, 8), Encode(last));
  }

  lemma Regroup(a: Bytes, b: Bytes, c: Bytes, d: Bytes)
    ensures a + (b + (c + d)) == a + b + c + d
  {
  }

  /** The bytes `sign` feeds the MAC, in the order it feeds them. */
  method Feed(context: string, fields: seq<string>) returns (fed: Bytes)
    ensures fed == SignInput(context, fields)
  {
    fed := Encode(context);
    assert fields[..0] == [];
    for i := 0 to |fields|
      invariant fed == SignInput(context, fields[..i])
    {
      var field := fields[i];
      assert fields[..i + 1] == fields[..i] + [field];
      SignInputSnoc(context, fields[..i], field);
      fed := fed + LeBytes(|Encode(field)|, 8);
      fed := fed + Encode(field);
    }
    assert fields[..|fields|] == fields;
  }

  // ---- reading it back ----

  function ReadFields(b: Bytes): Option<seq<string>>
    decreases |b|
  {
    if b == [] then Some([])
    else if |b| < 8 then None
    else
      var n := LeNumber(b[..8]);
      if |b| < 8 + n then None
      else
        match (Decode(b[8..8 + n]), ReadFields(b[8 + n..]))
        case (Some(field), Some(rest)) => Some([field] + rest)
        case _ => None
  }

  lemma {:induction false} ReadFieldsBack(fields: seq<string>)
    requires forall f | f in fields :: Fits(f)
    ensures ReadFields(FieldsBytes(fields)) == Some(fields)
  {
    if fields != [] {
      assert Fits(fields[0]);
      var e, rest := Encode(fields[0]), FieldsBytes(fields[1..]);
      var b := FieldsBytes(fields);
      assert b == LeBytes(|e|, 8) + e + rest;
      LeRoundTrip(|e|, 8);
      assert b[..8] == LeBytes(|e|, 8) && b[8..8 + |e|] == e && b[8 + |e|..] == rest;
      DecodeEncode(fields[0]);
      ReadFieldsBack(fields[1..]);
      assert [fields[0]] + fields[1..] == fields;
    }
  }

  /** The label is read off the front, the longer of the two that share a prefix before the shorter. */
  function ContextOf(b: Bytes): string {
    PickContext(b, Encode(SESSION), Encode(CSRF_CONSOLE))
  }

  function ReadInput(b: Bytes): Option<(string, seq<string>)> {
    var context := ContextOf(b);
    if !(Encode(context) <= b) then None
    else
      match ReadFields(b[|Encode(context)|..])
      case None => None
      case Some(fields) => Some((context, fields))
  }

  predicate Admissible(context: string, fields: seq<string>) {
    && (context == SESSION || context == CSRF || context == CSRF_CONSOLE)
    && (forall f | f in fields :: Fits(f))
    && (context != SESSION ==> fields != [] && |Encode(fields[0])| == 64)
  }

  lemma FirstByte(context: string, c: char)
    requires context != [] && context[0] == c && forall k | 0 <= k < |context| :: context[k] as int < 0x80
    ensures |Encode(context)| == |context| && Encode(context)[0] == c as int
  {
    EncodeAscii(context);
  }

  lemma FifthByte(context: string, c: char)
    requires |context| > 4 && context[4] == c && forall k | 0 <= k < |context| :: context[k] as int < 0x80
    ensures |Encode(context)| == |context| && Encode(context)[4] == c as int
  {
    EncodeAscii(context);
  }

  lemma SessionBytes()
    ensures |Encode(SESSION)| == 7 && Encode(SESSION)[0] == 's' as int
  {
    FirstByte(SESSION, 's');
  }

  lemma CsrfBytes()
    ensures |Encode(CSRF)| == 4 && Encode(CSRF)[0] == 'c' as int
  {
    FirstByte(CSRF, 'c');
  }

  lemma ConsoleBytes()
    ensures |Encode(CSRF_CONSOLE)| == 12
    ensures Encode(CSRF_CONSOLE)[0] == 'c' as int && Encode(CSRF_CONSOLE)[4] == '-' as int
  {
    FirstByte(CSRF_CONSOLE, 'c');
    FifthByte(CSRF_CONSOLE, '-');
  }

  lemma DiffersAt(prefix: Bytes, b: Bytes, k: nat)
    requires k < |prefix| && k < |b| && prefix[k] != b[k]
    ensures !(prefix <= b)
  {
  }

  lemma FirstFieldByte(fields: seq<string>)
    requires fields != [] && |Encode(fields[0])| == 64
    ensures |FieldsBytes(fields)| > 0 && FieldsBytes(fields)[0] == 64
  {
    assert FieldBytes(fields[0])[0] == LeBytes(64, 8)[0] == 64;
  }

  function PickContext(b: Bytes, session: Bytes, console: Bytes): string {
    if session <= b then SESSION else if console <= b then CSRF_CONSOLE else CSRF
  }

  lemma ConsoleIsPicked(session: Bytes, console: Bytes, body: Bytes)
    requires session != [] && console != [] && session[0] != console[0]
    ensures PickContext(console + body, session, console) == CSRF_CONSOLE
  {
    DiffersAt(session, console + body, 0);
    assert console <= console + body;
  }

  /** The eight length bytes keep a `csrf` input from starting like a `csrf-console` one. */
  lemma CsrfIsPicked(session: Bytes, console: Bytes, own: Bytes, body: Bytes)
    requires session != [] && |own| == 4 && session[0] != own[0]
    requires |console| > 4 && body != [] && console[4] != body[0]
    ensures PickContext(own + body, session, console) == CSRF
  {
    var b := own + body;
    DiffersAt(session, b, 0);
    assert b[4] == body[0];
    DiffersAt(console, b, 4);
  }

  lemma ConsoleIsFound(body: Bytes)
    ensures ContextOf(Encode(CSRF_CONSOLE) + body) == CSRF_CONSOLE
  {
    SessionBytes();
    ConsoleBytes();
    ConsoleIsPicked(Encode(SESSION), Encode(CSRF_CONSOLE), body);
  }

  lemma CsrfIsFound(body: Bytes)
    requires body != [] && body[0] == 64
    ensures ContextOf(Encode(CSRF) + body) == CSRF
  {
    SessionBytes();
    ConsoleBytes();
    CsrfBytes();
    CsrfIsPicked(Encode(SESSION), Encode(CSRF_CONSOLE), Encode(CSRF), body);
  }

  lemma SessionIsFound(body: Bytes)
    ensures ContextOf(Encode(SESSION) + body) == SESSION
  {
    assert Encode(SESSION) <= Encode(SESSION) + body;
  }

  lemma ContextIsFound(context: string, fields: seq<string>)
    requires Admissible(context, fields)
    ensures ContextOf(Encode(context) + FieldsBytes(fields)) == context
  {
    var body := FieldsBytes(fields);
    if context == SESSION {
      SessionIsFound(body);
    } else if context == CSRF_CONSOLE {
      ConsoleIsFound(body);
    } else {
      FirstFieldByte(fields);
      CsrfIsFound(body);
    }
  }

  lemma FrontComesOff(front: Bytes, body: Bytes)
    ensures front <= front + body && (front + body)[|front|..] == body
  {
  }

  /** One parser reads every signed input back, so no two of them are the same bytes. */
  lemma InputReadsBack(context: string, fields: seq<string>)
    requires Admissible(context, fields)
    ensures ReadInput(SignInput(context, fields)) == Some((context, fields))
  {
    ContextIsFound(context, fields);
    ReadFieldsBack(fields);
    FrontComesOff(Encode(context), FieldsBytes(fields));
  }

  lemma InputInjective(context1: string, fields1: seq<string>, context2: string, fields2: seq<string>)
    requires Admissible(context1, fields1) && Admissible(context2, fields2)
    requires SignInput(context1, fields1) == SignInput(context2, fields2)
    ensures context1 == context2 && fields1 == fields2
  {
    InputReadsBack(context1, fields1);
    InputReadsBack(context2, fields2);
  }

  // ---- the cookie ----

  predicate IsTag(s: string) {
    |s| == 64 && forall k | 0 <= k < 64 :: '0' <= s[k] <= '9' || 'a' <= s[k] <= 'f'
  }

  datatype OwnerSession = OwnerSession(expiresAt: int, signature: string)

  /** `mac` is HMAC-SHA256 under the cookie secret, hex encoded. */
  datatype Sessions = Sessions(ttl: int, mac: Bytes -> string) {

    ghost predicate Hexes() {
      forall b :: IsTag(mac(b))
    }

    function Sign(context: string, fields: seq<string>): string {
      mac(SignInput(context, fields))
    }

    function Issue(now: int): string {
      "v1." + Decimal.ToString(now + ttl) + "." + Sign(SESSION, [Decimal.ToString(now + ttl)])
    }

    /** Signature first, then expiry. */
    function Open(value: string, now: int): Option<OwnerSession> {
      var parts := SplitOn(value, {'.'});
      if parts[0] != "v1" || |parts| != 3 then None
      else if Sign(SESSION, [parts[1]]) != parts[2] then None
      else
        match Decimal.Parse(parts[1])
        case None => None
        case Some(expiresAt) => if expiresAt <= now then None else Some(OwnerSession(expiresAt, parts[2]))
    }

    function Csrf(session: OwnerSession, clientId: string, redirectUri: string, challenge: string,
                  state: string): string
    {
      Sign(CSRF, [session.signature, clientId, redirectUri, challenge, state])
    }

    predicate CsrfOk(session: OwnerSession, clientId: string, redirectUri: string, challenge: string, state: string,
                     presented: string)
    {
      Csrf(session, clientId, redirectUri, challenge, state) == presented
    }

    function ConsoleCsrf(session: OwnerSession, action: string, id: string): string {
      Sign(CSRF_CONSOLE, [session.signature, action, id])
    }

    predicate ConsoleCsrfOk(session: OwnerSession, action: string, id: string, presented: string) {
      ConsoleCsrf(session, action, id) == presented
    }

    /** The first candidate that opens. */
    function FirstOpen(values: seq<string>, now: int): Option<OwnerSession> {
      if values == [] then None
      else if Open(Trim(values[0]), now).Some? then Open(Trim(values[0]), now)
      else FirstOpen(values[1..], now)
    }

    function Verify(headers: seq<Option<string>>, now: int): Option<OwnerSession> {
      FirstOpen(Candidates(headers), now)
    }
  }

  /** The values of the cookie's name in one header's pairs. */
  function Named(pairs: seq<string>): seq<string> {
    if pairs == [] then []
    else
      match SplitOnce(Trim(pairs[0]), '=')
      case Some((name, value)) => (if name == COOKIE_NAME then [value] else []) + Named(pairs[1..])
      case None => Named(pairs[1..])
  }

  /** Every value of that name, over every Cookie header that is text. */
  function Candidates(headers: seq<Option<string>>): seq<string> {
    if headers == [] then []
    else
      (match headers[0]
       case Some(h) => Named(SplitOn(h, {';'}))
       case None => [])
      + Candidates(headers[1..])
  }

  lemma ThreeParts(a: string, b: string, c: string)
    requires Free(a, {'.'}) && Free(b, {'.'}) && Free(c, {'.'})
    ensures SplitOn(a + "." + b + "." + c, {'.'}) == [a, b, c]
  {
    var rest := b + ['.'] + c;
    assert a + "." + b + "." + c == a + ['.'] + rest;
    SplitCuts(a, '.', rest, {'.'});
    SplitCuts(b, '.', c, {'.'});
    SplitFree(a, {'.'});
    SplitFree(b, {'.'});
    SplitFree(c, {'.'});
  }

  lemma IssueSplits(s: Sessions, t: int)
    requires s.Hexes()
    ensures var raw := Decimal.ToString(t + s.ttl);
            SplitOn(s.Issue(t), {'.'}) == ["v1", raw, s.Sign(SESSION, [raw])]
  {
    var raw := Decimal.ToString(t + s.ttl);
    var tag := s.Sign(SESSION, [raw]);
    assert IsTag(tag) by { assert IsTag(s.mac(SignInput(SESSION, [raw]))); }
    assert s.Issue(t) == "v1" + "." + raw + "." + tag;
    ThreeParts("v1", raw, tag);
  }

  /** A cookie opens exactly while the clock is short of its expiry, and reports that expiry. */
  lemma OpensUntilExpiry(s: Sessions, t: int, now: int)
    requires s.Hexes() && Decimal.IsI64(t + s.ttl)
    ensures var e := t + s.ttl;
            s.Open(s.Issue(t), now) ==
            if now < e then Some(SessionUntil(s, e)) else None
  {
    IssueSplits(s, t);
    Decimal.ParseToString(t + s.ttl);
  }

  /** A value that opens under an issued cookie's signature is that cookie, byte for byte. */
  lemma OpensOnlyAsIssued(s: Sessions, value: string, now: int, t: int)
    requires s.Hexes() && Decimal.IsI64(t + s.ttl)
    requires s.Open(value, now).Some?
    requires s.Open(value, now).value.signature == s.Sign(SESSION, [Decimal.ToString(t + s.ttl)])
    requires var raw := SplitOn(value, {'.'})[1];
             var mine, theirs := SignInput(SESSION, [raw]), SignInput(SESSION, [Decimal.ToString(t + s.ttl)]);
             Fits(raw) && (s.mac(mine) == s.mac(theirs) ==> mine == theirs)
    ensures value == s.Issue(t) && s.Open(value, now).value.expiresAt == t + s.ttl > now
  {
    var parts := SplitOn(value, {'.'});
    var raw := Decimal.ToString(t + s.ttl);
    NumeralFits(t + s.ttl);
    InputInjective(SESSION, [parts[1]], SESSION, [raw]);
    assert parts[1] == [parts[1]][0] == raw;
    IssueSplits(s, t);
    JoinSplit(value, '.');
    JoinSplit(s.Issue(t), '.');
    assert parts == SplitOn(s.Issue(t), {'.'});
    Decimal.ParseToString(t + s.ttl);
  }

  lemma {:induction false} DigitsAreFew(n: nat)
    ensures |Decimal.Digits(n)| <= n + 1
  {
    if n >= 10 {
      DigitsAreFew(n / 10);
    }
  }

  lemma EightBytes()
    ensures Power256(8) == 0x1_0000_0000_0000_0000
  {
    assert Power256(4) == 0x1_0000_0000 by { assert Power256(2) == 0x1_0000; }
    assert Power256(6) == 0x1_0000_0000_0000;
  }

  lemma NumeralFits(n: int)
    requires Decimal.IsI64(n)
    ensures Fits(Decimal.ToString(n))
  {
    DigitsAreFew(if n < 0 then -n else n);
    EncodeAscii(Decimal.ToString(n));
    EightBytes();
  }

  // ---- verifying over whatever headers arrive ----

  /** Some pair of some text header carries this value under the cookie's name. */
  ghost predicate Carries(headers: seq<Option<string>>, value: string) {
    exists i, j :: CarriedAt(headers, i, j, value)
  }

  ghost predicate CarriedAt(headers: seq<Option<string>>, i: int, j: int, value: string) {
    && 0 <= i < |headers| && headers[i].Some?
    && var pairs := SplitOn(headers[i].value, {';'});
    && 0 <= j < |pairs|
    && SplitOnce(Trim(pairs[j]), '=') == Some((COOKIE_NAME, value))
  }

  lemma {:induction false} NamedHolds(pairs: seq<string>, value: string)
    ensures value in Named(pairs) <==>
            exists j :: 0 <= j < |pairs| && SplitOnce(Trim(pairs[j]), '=') == Some((COOKIE_NAME, value))
  {
    if pairs != [] {
      NamedHolds(pairs[1..], value);
      forall j | 0 < j < |pairs| ensures pairs[j] == pairs[1..][j - 1] {}
    }
  }

  ghost predicate CarriedFirst(headers: seq<Option<string>>, value: string) {
    exists j :: CarriedAt(headers, 0, j, value)
  }

  lemma NamedIsCarriedFirst(headers: seq<Option<string>>, value: string)
    requires headers != []
    ensures CarriedFirst(headers, value) <==>
            headers[0].Some? && value in Named(SplitOn(headers[0].value, {';'}))
  {
    if headers[0].Some? {
      var pairs := SplitOn(headers[0].value, {';'});
      NamedHolds(pairs, value);
      if j :| 0 <= j < |pairs| && SplitOnce(Trim(pairs[j]), '=') == Some((COOKIE_NAME, value)) {
        assert CarriedAt(headers, 0, j, value);
      }
    }
  }

  lemma CarriesSplits(headers: seq<Option<string>>, value: string)
    requires headers != []
    ensures Carries(headers, value) <==> CarriedFirst(headers, value) || Carries(headers[1..], value)
  {
    var rest := headers[1..];
    if i, j :| CarriedAt(headers, i, j, value) {
      if i > 0 {
        assert CarriedAt(rest, i - 1, j, value);
      }
    }
    if i, j :| CarriedAt(rest, i, j, value) {
      assert CarriedAt(headers, i + 1, j, value);
    }
  }

  lemma {:induction false} CandidatesAreCarried(headers: seq<Option<string>>, value: string)
    ensures value in Candidates(headers) <==> Carries(headers, value)
  {
    if headers != [] {
      CandidatesAreCarried(headers[1..], value);
      CarriesSplits(headers, value);
      NamedIsCarriedFirst(headers, value);
    }
  }

  lemma {:induction false} FirstOpenFinds(s: Sessions, values: seq<string>, now: int)
    ensures s.FirstOpen(values, now).Some? <==> exists v :: v in values && s.Open(Trim(v), now).Some?
    ensures s.FirstOpen(values, now).Some? ==>
              exists v :: v in values && s.Open(Trim(v), now) == s.FirstOpen(values, now)
  {
    if values != [] {
      FirstOpenFinds(s, values[1..], now);
      assert forall v :: v in values <==> v == values[0] || v in values[1..];
    }
  }

  /** Verification succeeds exactly when some pair of the right name opens, and its answer is one that does. */
  lemma VerifiesWhenSomePairOpens(s: Sessions, headers: seq<Option<string>>, now: int)
    ensures s.Verify(headers, now).Some? <==> exists v :: Carries(headers, v) && s.Open(Trim(v), now).Some?
    ensures s.Verify(headers, now).Some? ==>
              exists v :: Carries(headers, v) && s.Open(Trim(v), now) == s.Verify(headers, now)
  {
    FirstOpenFinds(s, Candidates(headers), now);
    forall v ensures v in Candidates(headers) <==> Carries(headers, v) {
      CandidatesAreCarried(headers, v);
    }
  }

  /** And it is the first that opens, in the order of the headers and of the pairs within each. */
  lemma {:induction false} FirstOpenIsTheFirst(s: Sessions, values: seq<string>, now: int)
    ensures s.FirstOpen(values, now).Some? ==>
              exists k :: 0 <= k < |values| && s.Open(Trim(values[k]), now) == s.FirstOpen(values, now)
                          && forall i | 0 <= i < k :: s.Open(Trim(values[i]), now) == None
  {
    if values != [] && s.Open(Trim(values[0]), now).None? && s.FirstOpen(values, now).Some? {
      FirstOpenIsTheFirst(s, values[1..], now);
      var k :| 0 <= k < |values[1..]| && s.Open(Trim(values[1..][k]), now) == s.FirstOpen(values[1..], now)
               && forall i | 0 <= i < k :: s.Open(Trim(values[1..][i]), now) == None;
      assert values[k + 1] == values[1..][k];
      forall i | 0 < i < k + 1 ensures s.Open(Trim(values[i]), now) == None {
        assert values[i] == values[1..][i - 1];
      }
    }
  }

  lemma PieceBefore(piece: string, right: string, sep: char)
    requires Free(piece, {sep})
    requires right == [] || right[0] == sep
    ensures SplitOn(piece + right, {sep})[0] == piece
  {
    SplitFree(piece, {sep});
    if right == [] {
      assert piece + right == piece;
    } else {
      var rest := right[1..];
      assert piece + right == piece + [sep] + rest;
      SplitCuts(piece, sep, rest, {sep});
    }
  }

  /** A piece with a separator or an end on either side is one of the parts. */
  lemma PieceIsAPart(left: string, piece: string, right: string, sep: char)
    requires Free(piece, {sep})
    requires left == [] || left[|left| - 1] == sep
    requires right == [] || right[0] == sep
    ensures piece in SplitOn(left + (piece + right), {sep})
  {
    PieceBefore(piece, right, sep);
    PartAfter(left, sep, piece + right);
  }

  lemma FirstOfTheRest(before: seq<string>, after: seq<string>)
    requires after != []
    ensures after[0] in before + after
  {
    assert (before + after)[|before|] == after[0];
  }

  lemma PartAfter(left: string, sep: char, tail: string)
    requires left == [] || left[|left| - 1] == sep
    ensures SplitOn(tail, {sep})[0] in SplitOn(left + tail, {sep})
  {
    if left == [] {
      assert left + tail == tail;
    } else {
      var front := left[..|left| - 1];
      assert left + tail == front + [sep] + tail;
      SplitCuts(front, sep, tail, {sep});
      FirstOfTheRest(SplitOn(front, {sep}), SplitOn(tail, {sep}));
    }
  }

  lemma PairIsRead(gap: string, name: string, value: string)
    requires AllSpace(gap)
    requires name != [] && !IsSpace(name[0]) && '=' !in name && Free(name, {';'})
    requires value != [] && Free(value, {';'}) && !IsSpace(value[|value| - 1])
    ensures Free(gap + (name + "=" + value), {';'})
    ensures SplitOnce(Trim(gap + (name + "=" + value)), '=') == Some((name, value))
  {
    var pair := name + "=" + value;
    assert gap + pair + [] == gap + pair;
    assert pair[0] == name[0] && pair[|pair| - 1] == value[|value| - 1];
    TrimOfPadded(gap, pair, []);
    SplitOnceAt(name, '=', value);
    assert !IsSpace(';');
  }

  lemma CookieNameIsPlain()
    ensures COOKIE_NAME != [] && !IsSpace(COOKIE_NAME[0]) && '=' !in COOKIE_NAME && Free(COOKIE_NAME, {';'})
  {
  }

  lemma OwnPairIsRead(s: Sessions, gap: string, t: int)
    requires s.Hexes() && AllSpace(gap)
    ensures var padded := gap + (COOKIE_NAME + "=" + s.Issue(t));
            && Free(padded, {';'})
            && SplitOnce(Trim(padded), '=') == Some((COOKIE_NAME, s.Issue(t)))
            && Trim(s.Issue(t)) == s.Issue(t)
  {
    var value := s.Issue(t);
    IssueIsPlain(s, t);
    CookieNameIsPlain();
    PairIsRead(gap, COOKIE_NAME, value);
    TrimsToItself(value);
  }

  /** A live cookie is found whatever other pairs stand before and after it, in whichever header. */
  lemma LiveCookieVerifies(s: Sessions, headers: seq<Option<string>>, i: nat, left: string, gap: string, right: string,
                           t: int, now: int)
    requires s.Hexes() && Decimal.IsI64(t + s.ttl) && now < t + s.ttl
    requires i < |headers| && headers[i] == Some(left + ((gap + (COOKIE_NAME + "=" + s.Issue(t))) + right))
    requires AllSpace(gap)
    requires left == [] || left[|left| - 1] == ';'
    requires right == [] || right[0] == ';'
    ensures s.Verify(headers, now).Some?
  {
    var padded := gap + (COOKIE_NAME + "=" + s.Issue(t));
    OwnPairIsRead(s, gap, t);
    PieceIsAPart(left, padded, right, ';');
    var pairs := SplitOn(headers[i].value, {';'});
    var j :| 0 <= j < |pairs| && pairs[j] == padded;
    assert CarriedAt(headers, i, j, s.Issue(t));
    OpensUntilExpiry(s, t, now);
    VerifiesWhenSomePairOpens(s, headers, now);
  }

  lemma IssueIsPlain(s: Sessions, t: int)
    requires s.Hexes()
    ensures var v := s.Issue(t);
            v != [] && Free(v, {';'}) && !IsSpace(v[0]) && !IsSpace(v[|v| - 1])
  {
    var raw := Decimal.ToString(t + s.ttl);
    var tag := s.Sign(SESSION, [raw]);
    assert IsTag(tag) by { assert IsTag(s.mac(SignInput(SESSION, [raw]))); }
    var v := s.Issue(t);
    assert v[|v| - 1] == tag[63];
    forall k | 0 <= k < |v| ensures v[k] != ';' {
      assert v[k] in "v1." + raw || v[k] in "." + tag;
    }
  }

  // ---- a token verifies for its own session, surface and parameters, and for nothing else ----

  /** No two of the given inputs collide under the MAC. */
  ghost predicate Distinguishes(s: Sessions, a: Bytes, b: Bytes) {
    s.mac(a) == s.mac(b) ==> a == b
  }

  lemma TokensBind(s: Sessions, context: string, mine: seq<string>, theirs: seq<string>)
    requires Admissible(context, mine) && Admissible(context, theirs)
    requires Distinguishes(s, SignInput(context, mine), SignInput(context, theirs))
    ensures s.Sign(context, mine) == s.Sign(context, theirs) <==> mine == theirs
  {
    if s.Sign(context, mine) == s.Sign(context, theirs) {
      InputInjective(context, mine, context, theirs);
    }
  }

  lemma ConsoleFieldsAdmissible(tag: string, action: string, id: string)
    requires IsTag(tag) && Fits(action) && Fits(id)
    ensures Admissible(CSRF_CONSOLE, [tag, action, id])
  {
    TagFits(tag);
  }

  lemma ThreeAreOne<T>(a1: T, b1: T, c1: T, a2: T, b2: T, c2: T)
    ensures [a1, b1, c1] == [a2, b2, c2] <==> a1 == a2 && b1 == b2 && c1 == c2
  {
    var one, two := [a1, b1, c1], [a2, b2, c2];
    assert one == two ==> one[0] == two[0] && one[1] == two[1] && one[2] == two[2];
  }

  lemma CsrfBindsEverything(s: Sessions, mine: OwnerSession, c1: string, r1: string, h1: string, t1: string,
                            theirs: OwnerSession, c2: string, r2: string, h2: string, t2: string)
    requires IsTag(mine.signature) && IsTag(theirs.signature)
    requires forall f | f in [c1, r1, h1, t1, c2, r2, h2, t2] :: Fits(f)
    requires Distinguishes(s, SignInput(CSRF, [mine.signature, c1, r1, h1, t1]),
                           SignInput(CSRF, [theirs.signature, c2, r2, h2, t2]))
    ensures s.CsrfOk(theirs, c2, r2, h2, t2, s.Csrf(mine, c1, r1, h1, t1)) <==>
            mine.signature == theirs.signature && c1 == c2 && r1 == r2 && h1 == h2 && t1 == t2
  {
    var f1, f2 := [mine.signature, c1, r1, h1, t1], [theirs.signature, c2, r2, h2, t2];
    TagFits(mine.signature);
    TagFits(theirs.signature);
    TokensBind(s, CSRF, f1, f2);
    assert f1 == f2 ==> f1[0] == f2[0] && f1[1] == f2[1] && f1[2] == f2[2] && f1[3] == f2[3] && f1[4] == f2[4];
  }

  lemma ConsoleCsrfBindsEverything(s: Sessions, mine: OwnerSession, action1: string, id1: string,
                                   theirs: OwnerSession, action2: string, id2: string)
    requires IsTag(mine.signature) && IsTag(theirs.signature)
    requires Fits(action1) && Fits(id1) && Fits(action2) && Fits(id2)
    requires Distinguishes(s, SignInput(CSRF_CONSOLE, [mine.signature, action1, id1]),
                           SignInput(CSRF_CONSOLE, [theirs.signature, action2, id2]))
    ensures s.ConsoleCsrfOk(theirs, action2, id2, s.ConsoleCsrf(mine, action1, id1)) <==>
            mine.signature == theirs.signature && action1 == action2 && id1 == id2
  {
    ConsoleFieldsAdmissible(mine.signature, action1, id1);
    ConsoleFieldsAdmissible(theirs.signature, action2, id2);
    TokensBind(s, CSRF_CONSOLE, [mine.signature, action1, id1], [theirs.signature, action2, id2]);
    ThreeAreOne(mine.signature, action1, id1, theirs.signature, action2, id2);
  }

  /** The session an issued cookie opens to. */
  function SessionUntil(s: Sessions, expiresAt: int): OwnerSession {
    OwnerSession(expiresAt, s.Sign(SESSION, [Decimal.ToString(expiresAt)]))
  }

  /** No two session inputs collide, for sessions ending at `d` and `e`. */
  ghost predicate TellsApart(s: Sessions, d: int, e: int) {
    Distinguishes(s, SignInput(SESSION, [Decimal.ToString(d)]), SignInput(SESSION, [Decimal.ToString(e)]))
  }

  lemma SignatureNamesExpiry(s: Sessions, d: int, e: int)
    requires s.Hexes() && Decimal.IsI64(d) && Decimal.IsI64(e) && TellsApart(s, d, e)
    ensures IsTag(SessionUntil(s, d).signature) && IsTag(SessionUntil(s, e).signature)
    ensures SessionUntil(s, d).signature == SessionUntil(s, e).signature <==> d == e
  {
    NumeralFits(d);
    NumeralFits(e);
    TokensBind(s, SESSION, [Decimal.ToString(d)], [Decimal.ToString(e)]);
    if [Decimal.ToString(d)] == [Decimal.ToString(e)] {
      assert [Decimal.ToString(d)][0] == [Decimal.ToString(e)][0];
      Decimal.ToStringInjective(d, e);
    }
  }

  /** Between sessions the server issued, a token is bound to the session's own expiry as well. */
  lemma CsrfNamesItsSession(s: Sessions, d: int, c1: string, r1: string, h1: string, t1: string,
                            e: int, c2: string, r2: string, h2: string, t2: string)
    requires s.Hexes() && Decimal.IsI64(d) && Decimal.IsI64(e) && TellsApart(s, d, e)
    requires forall f | f in [c1, r1, h1, t1, c2, r2, h2, t2] :: Fits(f)
    requires Distinguishes(s, SignInput(CSRF, [SessionUntil(s, d).signature, c1, r1, h1, t1]),
                           SignInput(CSRF, [SessionUntil(s, e).signature, c2, r2, h2, t2]))
    ensures s.CsrfOk(SessionUntil(s, e), c2, r2, h2, t2, s.Csrf(SessionUntil(s, d), c1, r1, h1, t1)) <==>
            d == e && c1 == c2 && r1 == r2 && h1 == h2 && t1 == t2
  {
    SignatureNamesExpiry(s, d, e);
    CsrfBindsEverything(s, SessionUntil(s, d), c1, r1, h1, t1, SessionUntil(s, e), c2, r2, h2, t2);
  }

  lemma ConsoleCsrfNamesItsSession(s: Sessions, d: int, action1: string, id1: string,
                                   e: int, action2: string, id2: string)
    requires s.Hexes() && Decimal.IsI64(d) && Decimal.IsI64(e) && TellsApart(s, d, e)
    requires Fits(action1) && Fits(id1) && Fits(action2) && Fits(id2)
    requires Distinguishes(s, SignInput(CSRF_CONSOLE, [SessionUntil(s, d).signature, action1, id1]),
                           SignInput(CSRF_CONSOLE, [SessionUntil(s, e).signature, action2, id2]))
    ensures s.ConsoleCsrfOk(SessionUntil(s, e), action2, id2, s.ConsoleCsrf(SessionUntil(s, d), action1, id1)) <==>
            d == e && action1 == action2 && id1 == id2
  {
    SignatureNamesExpiry(s, d, e);
    ConsoleCsrfBindsEverything(s, SessionUntil(s, d), action1, id1, SessionUntil(s, e), action2, id2);
  }

  /** A consent token is never a console token, nor the other way round. */
  lemma SurfacesDoNotMix(s: Sessions, mine: OwnerSession, c: string, r: string, h: string, t: string,
                         theirs: OwnerSession, action: string, id: string)
    requires IsTag(mine.signature) && IsTag(theirs.signature)
    requires forall f | f in [c, r, h, t, action, id] :: Fits(f)
    requires Distinguishes(s, SignInput(CSRF, [mine.signature, c, r, h, t]),
                           SignInput(CSRF_CONSOLE, [theirs.signature, action, id]))
    ensures !s.ConsoleCsrfOk(theirs, action, id, s.Csrf(mine, c, r, h, t))
    ensures !s.CsrfOk(mine, c, r, h, t, s.ConsoleCsrf(theirs, action, id))
  {
    var f1, f2 := [mine.signature, c, r, h, t], [theirs.signature, action, id];
    TagFits(mine.signature);
    TagFits(theirs.signature);
    assert Admissible(CSRF, f1) && Admissible(CSRF_CONSOLE, f2);
    if SignInput(CSRF, f1) == SignInput(CSRF_CONSOLE, f2) {
      InputInjective(CSRF, f1, CSRF_CONSOLE, f2);
    }
  }

  lemma TagFits(tag: string)
    requires IsTag(tag)
    ensures |Encode(tag)| == 64 && Fits(tag)
  {
    EncodeAscii(tag);
    EightBytes();
  }
}
