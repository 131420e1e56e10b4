/** The notebook's pages and the cursor that continues them (src/console/data.rs, `recent` in
    src/adapters/postgres/memory.rs). */
module Paging {
  import opened Text
  import opened UuidText
  import Decimal
  import HiddenForm
  import RedirectQuery
  import Utf8

  const DEFAULT_PAGE: int := 40
  const MAX_PAGE: int := 200

  /** The instants a `DateTime<Utc>` can hold, in microseconds since the epoch. */
  const MIN_MICROS: int := -8_334_601_228_800_000_000
  const MAX_MICROS: int := 8_210_266_876_799_999_999

  type Micros = n: int | MIN_MICROS <= n <= MAX_MICROS

  function PageSize(asked: Option<int>): (limit: nat)
    ensures 1 <= limit <= MAX_PAGE
    ensures asked.None? ==> limit == 40
    ensures asked.Some? && 1 <= asked.value <= MAX_PAGE ==> limit == asked.value
    ensures asked.Some? && asked.value < 1 ==> limit == 1
    ensures asked.Some? && asked.value > MAX_PAGE ==> limit == MAX_PAGE
  {
    var n := if asked.Some? then asked.value else DEFAULT_PAGE;
    if n < 1 then 1 else if n > MAX_PAGE then MAX_PAGE else n
  }

  // ---- the cursor ----

  datatype Cursor = Cursor(at: Micros, id: Uuid)

  function EncodeCursor(c: Cursor): string {
    Decimal.ToString(c.at) + "." + Format(c.id)
  }

  function FromMicros(n: int): Option<Micros> {
    if MIN_MICROS <= n <= MAX_MICROS then Some(n) else None
  }

  function ParseCursor(raw: string): Option<Cursor> {
    match SplitOnce(raw, '.')
    case None => None
    case Some((micros, id)) =>
      match Decimal.Parse(micros)
      case None => None
      case Some(n) =>
        match (FromMicros(n), Parse(id))
        case (Some(at), Some(id)) => Some(Cursor(at, id))
        case _ => None
  }

  lemma ParseEncoded(c: Cursor)
    ensures ParseCursor(EncodeCursor(c)) == Some(c)
  {
    var micros := Decimal.ToString(c.at);
    assert EncodeCursor(c) == micros + ['.'] + Format(c.id);
    SplitOnceAt(micros, '.', Format(c.id));
    Decimal.ParseToString(c.at);
    ParseFormat(c.id);
  }

  function PlusAsSpace(s: string): string {
    if s == [] then [] else [if s[0] == '+' then ' ' else s[0]] + PlusAsSpace(s[1..])
  }

  /** Into a link's attribute, out of it, and through the form decoding of a query string. */
  function ThroughALink(value: string): Option<string> {
    Utf8.Decode(RedirectQuery.PercentDecode(PlusAsSpace(HiddenForm.Unescaped(HiddenForm.Escaped(value)))))
  }

  predicate LinkSafe(s: string) {
    forall k | 0 <= k < |s| :: s[k] as int < 0x80 && RedirectQuery.Unreserved(s[k] as int)
  }

  lemma {:induction false} NoPlus(s: string)
    requires LinkSafe(s)
    ensures PlusAsSpace(s) == s
  {
    if s != [] {
      assert s[0] != '+';
      NoPlus(s[1..]);
    }
  }

  lemma CursorSurvivesALink(c: Cursor)
    ensures ThroughALink(EncodeCursor(c)) == Some(EncodeCursor(c))
  {
    var s := EncodeCursor(c);
    FormatIsPlain(c.id);
    var micros := Decimal.ToString(c.at);
    forall k | 0 <= k < |s| ensures s[k] as int < 0x80 && RedirectQuery.Unreserved(s[k] as int) {
      if k < |micros| {
        assert s[k] == micros[k];
      } else if k > |micros| {
        assert s[k] == Format(c.id)[k - |micros| - 1];
      }
    }
    HiddenForm.UnescapedEscaped(s);
    NoPlus(s);
    RedirectQuery.UnreservedDecodesToItself(s);
    Utf8.DecodeEncode(s);
  }

  // ---- the store ----

  datatype Memory = Memory(at: Micros, id: Uuid, content: string)

  predicate Before(at: int, id: int, c: Cursor) {
    at < c.at || (at == c.at && id < c.id)
  }

  /** Newest first by instant, then by id; ids are unique, so the order is strict. */
  ghost predicate Descending(rows: seq<Memory>) {
    forall i, j | 0 <= i < j < |rows| :: Before(rows[j].at, rows[j].id, Cursor(rows[i].at, rows[i].id))
  }

  lemma NewestFirst(rows: seq<Memory>)
    ensures Descending(rows) <==>
            forall i, j | 0 <= i < j < |rows| ::
              rows[j].at < rows[i].at || (rows[j].at == rows[i].at && rows[j].id < rows[i].id)
  {
  }

  function Below(rows: seq<Memory>, before: Option<Cursor>): seq<Memory> {
    if rows == [] then []
    else
      (if before.None? || Before(rows[0].at, rows[0].id, before.value) then [rows[0]] else [])
      + Below(rows[1..], before)
  }

  /** A cursor leaves the rows older than it, ties broken by the smaller id, and none leaves all. */
  lemma {:induction false} BelowIsOlder(rows: seq<Memory>, before: Option<Cursor>, r: Memory)
    ensures r in Below(rows, before) <==>
            r in rows && (before.None? || r.at < before.value.at || (r.at == before.value.at && r.id < before.value.id))
  {
    if rows != [] {
      BelowIsOlder(rows[1..], before, r);
      assert r in rows <==> r == rows[0] || r in rows[1..];
    }
  }

  function Take(rows: seq<Memory>, n: nat): seq<Memory> {
    if |rows| <= n then rows else rows[..n]
  }

  /** The keyset query over a listing already in its order: rows below the cursor, at most `limit` of them. */
  function Recent(listing: seq<Memory>, before: Option<Cursor>, limit: nat): seq<Memory> {
    Take(Below(listing, before), limit)
  }

  /** The rows whose plaintext could be had, in place. */
  function Opened(rows: seq<Memory>, unopened: set<Uuid>): seq<Memory> {
    if rows == [] then []
    else (if rows[0].id in unopened then [] else [rows[0]]) + Opened(rows[1..], unopened)
  }

  lemma {:induction false} OpenedConcat(a: seq<Memory>, b: seq<Memory>, unopened: set<Uuid>)
    ensures Opened(a + b, unopened) == Opened(a, unopened) + Opened(b, unopened)
  {
    if a == [] {
      assert a + b == b;
    } else {
      assert (a + b)[1..] == a[1..] + b;
      OpenedConcat(a[1..], b, unopened);
    }
  }

  // ---- one page ----

  datatype Page = Page(entries: seq<Memory>, older: Option<Cursor>)

  /** One row more than the page was asked for, so that its presence says there are older ones. */
  function PageFrom(rows: seq<Memory>, unopened: set<Uuid>, limit: nat): Page
    requires limit >= 1
  {
    if |rows| <= limit then Page(Opened(rows, unopened), None)
    else Page(Opened(rows[..limit], unopened), Some(Cursor(rows[limit - 1].at, rows[limit - 1].id)))
  }

  function PageOf(listing: seq<Memory>, unopened: set<Uuid>, before: Option<Cursor>, limit: nat): Page
    requires limit >= 1
  {
    PageFrom(Recent(listing, before, limit + 1), unopened, limit)
  }

  method RetainOpened(rows: seq<Memory>, unopened: set<Uuid>) returns (kept: seq<Memory>)
    ensures kept == Opened(rows, unopened)
  {
    kept := [];
    assert rows[..0] == [];
    for i := 0 to |rows|
      invariant kept == Opened(rows[..i], unopened)
    {
      assert rows[..i + 1] == rows[..i] + [rows[i]];
      OpenedConcat(rows[..i], [rows[i]], unopened);
      assert [rows[i]][1..] == [];
      if rows[i].id !in unopened {
        kept := kept + [rows[i]];
      }
    }
    assert rows[..|rows|] == rows;
  }

  /** The cursor comes off the last row kept, its id read back from the text it travels as, before anything is opened.
      */
  method ReadPage(listing: seq<Memory>, unopened: set<Uuid>, before: Option<Cursor>, limit: nat) returns (page: Page)
    requires limit >= 1
    ensures page == PageOf(listing, unopened, before, limit)
  {
    var rows := Recent(listing, before, limit + 1);
    var older := None;
    if |rows| > limit {
      rows := rows[..limit];
      var last := rows[|rows| - 1];
      ParseFormat(last.id);
      match Parse(Format(last.id)) {
        case Some(id) => older := Some(Cursor(last.at, id));
        case None =>
      }
    }
    rows := RetainOpened(rows, unopened);
    page := Page(rows, older);
  }

  // ---- following the pages ----

  lemma {:induction false} BelowOfDescending(rows: seq<Memory>, k: nat)
    requires Descending(rows) && 1 <= k <= |rows|
    ensures Below(rows, Some(Cursor(rows[k - 1].at, rows[k - 1].id))) == rows[k..]
    decreases k
  {
    var c := Cursor(rows[k - 1].at, rows[k - 1].id);
    if k == 1 {
      AllBelow(rows[1..], c);
    } else {
      assert !Before(rows[0].at, rows[0].id, c);
      BelowOfDescending(rows[1..], k - 1);
      assert rows[1..][k - 1..] == rows[k..];
    }
  }

  lemma {:induction false} AllBelow(rows: seq<Memory>, c: Cursor)
    requires forall r | r in rows :: Before(r.at, r.id, c)
    ensures Below(rows, Some(c)) == rows
  {
    if rows != [] {
      assert rows[0] in rows;
      AllBelow(rows[1..], c);
    }
  }

  lemma {:induction false} NoCursorIsEverything(rows: seq<Memory>)
    ensures Below(rows, None) == rows
  {
    if rows != [] {
      NoCursorIsEverything(rows[1..]);
    }
  }

  /** What the reader's next request carries, given the link on this page. */
  function NextCursor(older: Cursor): Option<Cursor> {
    match ThroughALink(EncodeCursor(older))
    case None => None
    case Some(raw) => ParseCursor(raw)
  }

  lemma NextCursorIsTheLink(older: Cursor)
    ensures NextCursor(older) == Some(older)
  {
    CursorSurvivesALink(older);
    ParseEncoded(older);
  }

  /** Following `older` links from the page that continues at row `k` of the listing. */
  ghost predicate Reaches(listing: seq<Memory>, before: Option<Cursor>, k: nat) {
    k <= |listing| && Below(listing, before) == listing[k..]
  }

  /** A link that delivers the cursor it was given. */
  ghost predicate Faithful(link: Cursor -> Option<Cursor>) {
    forall c :: link(c) == Some(c)
  }

  lemma ReachedByItsCursor(listing: seq<Memory>, last: Memory, m: nat)
    requires Descending(listing) && 1 <= m <= |listing| && last == listing[m - 1]
    ensures Reaches(listing, Some(Cursor(last.at, last.id)), m)
  {
    BelowOfDescending(listing, m);
  }

  lemma RecentFrom(listing: seq<Memory>, before: Option<Cursor>, n: nat, k: nat)
    requires Reaches(listing, before, k)
    ensures Recent(listing, before, n) == if |listing| - k <= n then listing[k..] else listing[k..k + n]
  {
    var rest := listing[k..];
    if |rest| <= n {
      assert Take(rest, n) == rest;
    } else {
      assert rest[..n] == listing[k..k + n];
    }
  }

  lemma FullPage(listing: seq<Memory>, unopened: set<Uuid>, rows: seq<Memory>, limit: nat, k: nat)
    requires k + limit < |listing| && rows == listing[k..k + limit + 1] && limit >= 1
    ensures var last := listing[k + limit - 1];
            PageFrom(rows, unopened, limit) ==
            Page(Opened(listing[k..k + limit], unopened), Some(Cursor(last.at, last.id)))
  {
    assert rows[..limit] == listing[k..k + limit] && rows[limit - 1] == listing[k + limit - 1];
  }

  lemma PageMovesOn(listing: seq<Memory>, unopened: set<Uuid>, before: Option<Cursor>, limit: nat, k: nat)
    requires Descending(listing) && limit >= 1 && Reaches(listing, before, k)
    ensures var page := PageOf(listing, unopened, before, limit);
            if |listing| - k <= limit then page == Page(Opened(listing[k..], unopened), None)
            else
              && page.entries == Opened(listing[k..k + limit], unopened)
              && page.older.Some? && Reaches(listing, page.older, k + limit)
  {
    RecentFrom(listing, before, limit + 1, k);
    if |listing| - k > limit {
      FullPage(listing, unopened, Recent(listing, before, limit + 1), limit, k);
      ReachedByItsCursor(listing, listing[k + limit - 1], k + limit);
    }
  }

  /** Every entry the reader sees, page after page. The walk ends because each link moves down the listing. */
  ghost function Walk(listing: seq<Memory>, unopened: set<Uuid>, link: Cursor -> Option<Cursor>,
                      before: Option<Cursor>, limit: nat, k: nat): seq<Memory>
    requires Descending(listing) && limit >= 1 && Reaches(listing, before, k) && Faithful(link)
    decreases |listing| - k
  {
    var page := PageOf(listing, unopened, before, limit);
    PageMovesOn(listing, unopened, before, limit, k);
    match page.older
    case None => page.entries
    case Some(c) => page.entries + Walk(listing, unopened, link, link(c), limit, k + limit)
  }

  lemma OpenedSplits(listing: seq<Memory>, unopened: set<Uuid>, k: nat, m: nat)
    requires k <= m <= |listing|
    ensures Opened(listing[k..], unopened) == Opened(listing[k..m], unopened) + Opened(listing[m..], unopened)
  {
    assert listing[k..] == listing[k..m] + listing[m..];
    OpenedConcat(listing[k..m], listing[m..], unopened);
  }

  /** The walk is this page's entries and the walk from the next page. */
  lemma WalkStep(listing: seq<Memory>, unopened: set<Uuid>, link: Cursor -> Option<Cursor>,
                 before: Option<Cursor>, limit: nat, k: nat, m: nat)
    returns (entries: seq<Memory>, next: Option<Cursor>)
    requires Descending(listing) && limit >= 1 && Reaches(listing, before, k) && Faithful(link)
    requires m == k + limit < |listing|
    ensures Reaches(listing, next, m) && entries == Opened(listing[k..m], unopened)
    ensures Walk(listing, unopened, link, before, limit, k) ==
            entries + Walk(listing, unopened, link, next, limit, m)
  {
    PageMovesOn(listing, unopened, before, limit, k);
    var page := PageOf(listing, unopened, before, limit);
    entries, next := page.entries, page.older;
    assert link(next.value) == next;
  }

  lemma WalkEnds(listing: seq<Memory>, unopened: set<Uuid>, link: Cursor -> Option<Cursor>,
                 before: Option<Cursor>, limit: nat, k: nat)
    requires Descending(listing) && limit >= 1 && Reaches(listing, before, k) && Faithful(link)
    requires |listing| - k <= limit
    ensures Walk(listing, unopened, link, before, limit, k) == Opened(listing[k..], unopened)
  {
    PageMovesOn(listing, unopened, before, limit, k);
  }

  lemma PageThenRest(listing: seq<Memory>, unopened: set<Uuid>, k: nat, m: nat, entries: seq<Memory>,
                     rest: seq<Memory>)
    requires k <= m <= |listing|
    requires entries == Opened(listing[k..m], unopened) && rest == Opened(listing[m..], unopened)
    ensures entries + rest == Opened(listing[k..], unopened)
  {
    OpenedSplits(listing, unopened, k, m);
  }

  lemma {:induction false} WalkReadsTheRest(listing: seq<Memory>, unopened: set<Uuid>, link: Cursor -> Option<Cursor>,
                                            before: Option<Cursor>, limit: nat, k: nat)
    requires Descending(listing) && limit >= 1 && Reaches(listing, before, k) && Faithful(link)
    ensures Walk(listing, unopened, link, before, limit, k) == Opened(listing[k..], unopened)
    decreases |listing| - k
  {
    if |listing| - k <= limit {
      WalkEnds(listing, unopened, link, before, limit, k);
    } else {
      var m := k + limit;
      var entries, next := WalkStep(listing, unopened, link, before, limit, k, m);
      WalkReadsTheRest(listing, unopened, link, next, limit, m);
      PageThenRest(listing, unopened, k, m, entries, Walk(listing, unopened, link, next, limit, m));
    }
  }

  /** From the first page on, at any page size a query string can ask for, the pages hold every openable row once,
      newest first. */
  lemma WalkReadsEverything(listing: seq<Memory>, unopened: set<Uuid>, asked: Option<int>)
    requires Descending(listing)
    ensures Faithful(NextCursor) && Reaches(listing, None, 0)
    ensures Walk(listing, unopened, NextCursor, None, PageSize(asked), 0) == Opened(listing, unopened)
  {
    NoCursorIsEverything(listing);
    assert listing[0..] == listing;
    forall c ensures NextCursor(c) == Some(c) {
      NextCursorIsTheLink(c);
    }
    WalkReadsTheRest(listing, unopened, NextCursor, None, PageSize(asked), 0);
  }

  /** What `Opened` keeps: the openable rows, each as often as it stood, in their order. */
  lemma {:induction false} OpenedKeepsOrder(rows: seq<Memory>, unopened: set<Uuid>)
    requires Descending(rows)
    ensures Descending(Opened(rows, unopened))
    ensures forall r :: r in Opened(rows, unopened) <==> r in rows && r.id !in unopened
  {
    if rows != [] {
      OpenedKeepsOrder(rows[1..], unopened);
      var rest := Opened(rows[1..], unopened);
      forall j | 0 <= j < |rest|
        ensures Before(rest[j].at, rest[j].id, Cursor(rows[0].at, rows[0].id))
      {
        assert rest[j] in rows[1..];
      }
    }
  }
}
