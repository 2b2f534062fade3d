/** Paging through the audit log against exporting it at once
    (backend/app/routers/admin_audit_log.py). Both read the rows that match one filter, ordered
    by falling timestamp; the order says nothing about rows with equal timestamps, so a listing
    is any ordering the database may choose. */
module AuditPager {

  datatype Row = Row(id: nat, timestamp: int)

  const MAX_EXPORT_ROWS := 100_000

  // ---------------------------------------------------------------------------
  // Queries

  function Matching(table: seq<Row>, matches: Row -> bool): seq<Row> {
    if table == [] then []
    else (if matches(table[0]) then [table[0]] else []) + Matching(table[1..], matches)
  }

  ghost predicate NewestFirst(rows: seq<Row>) {
    forall i, j :: 0 <= i < j < |rows| ==> rows[i].timestamp >= rows[j].timestamp
  }

  /** A result ORDER BY timestamp DESC may return for these rows. */
  ghost predicate IsListing(listing: seq<Row>, rows: seq<Row>) {
    multiset(listing) == multiset(rows) && NewestFirst(listing)
  }

  function Min(a: int, b: int): int {
    if a < b then a else b
  }

  /** OFFSET offset LIMIT limit */
  function Slice(listing: seq<Row>, offset: nat, limit: nat): seq<Row> {
    listing[Min(offset, |listing|)..Min(offset + limit, |listing|)]
  }

  datatype Page = Page(items: seq<Row>, total: nat, number: nat, size: nat, hasMore: bool)

  /** What a client gets for page `page`: full pages while more is promised, then the rest, and
      nothing beyond the end; each item is the listing's row at its own position. */
  ghost predicate IsPage(response: Page, listing: seq<Row>, page: nat, pageSize: nat) {
    && response.total == |listing| && response.number == page && response.size == pageSize
    && (response.hasMore <==> page * pageSize < |listing|)
    && |response.items| == (if response.hasMore then pageSize else Max(0, |listing| - (page - 1) * pageSize))
    && forall k :: (0 <= k < |response.items| ==>
         var at := (page - 1) * pageSize + k; 0 <= at < |listing| && response.items[k] == listing[at])
  }

  method ListAuditLog(listing: seq<Row>, total: nat, page: nat, pageSize: nat) returns (response: Page)
    requires 1 <= page && 1 <= pageSize
    requires total == |listing|
    ensures IsPage(response, listing, page, pageSize)
  {
    var offset := (page - 1) * pageSize;
    assert page * pageSize == offset + pageSize;
    response := Page(Slice(listing, offset, pageSize), total, page, pageSize, offset + pageSize < total);
  }

  function Max(a: int, b: int): int {
    if a < b then b else a
  }

  /** Those facts leave one page only. */
  lemma PageIsDetermined(response: Page, listing: seq<Row>, page: nat, pageSize: nat)
    requires 1 <= page && 1 <= pageSize
    requires IsPage(response, listing, page, pageSize)
    ensures response == PageOf(listing, page, pageSize)
  {
    var offset := (page - 1) * pageSize;
    assert page * pageSize == offset + pageSize;
    SliceIsDetermined(response.items, listing, offset, pageSize);
  }

  lemma SliceIsDetermined(items: seq<Row>, listing: seq<Row>, offset: nat, limit: nat)
    requires |items| == if offset + limit < |listing| then limit else Max(0, |listing| - offset)
    requires forall k :: 0 <= k < |items| ==> offset + k < |listing| && items[k] == listing[offset + k]
    ensures items == Slice(listing, offset, limit)
  {
  }

  function PageOf(listing: seq<Row>, page: nat, pageSize: nat): Page
    requires 1 <= page
  {
    var offset := (page - 1) * pageSize;
    Page(Slice(listing, offset, pageSize), |listing|, page, pageSize, offset + pageSize < |listing|)
  }

  /** The items of pages 1 to `last`, each read from the listing the database chose for it. */
  function Fetched(listingFor: nat -> seq<Row>, pageSize: nat, last: nat): seq<Row> {
    if last == 0 then []
    else Fetched(listingFor, pageSize, last - 1) + PageOf(listingFor(last), last, pageSize).items
  }

  /** The number of pages a client reads for n rows. */
  function LastPage(n: nat, pageSize: nat): nat
    requires 1 <= pageSize
  {
    if n == 0 then 1 else (n - 1) / pageSize + 1
  }

  /** A client that asks for the next page while has_more holds. */
  method FetchAll(listingFor: nat -> seq<Row>, rows: seq<Row>, pageSize: nat) returns (all: seq<Row>)
    requires 1 <= pageSize
    requires forall p :: IsListing(listingFor(p), rows)
    ensures all == Fetched(listingFor, pageSize, LastPage(|rows|, pageSize))
  {
    hide IsListing, IsPage, Slice, LastPage;
    ListingLength(listingFor(1), rows);
    var page := 1;
    var response := ListAuditLog(listingFor(1), |rows|, 1, pageSize);
    PageIsDetermined(response, listingFor(1), 1, pageSize);
    all := response.items;
    assert Fetched(listingFor, pageSize, 0) == [];
    while response.hasMore
      invariant 1 <= page
      invariant all == Fetched(listingFor, pageSize, page)
      invariant response == PageOf(listingFor(page), page, pageSize) && response.total == |rows|
      invariant (page - 1) * pageSize < |rows| || page == 1
      decreases |rows| - page * pageSize
    {
      assert page * pageSize == (page - 1) * pageSize + pageSize < |rows|;
      page := page + 1;
      ListingLength(listingFor(page), rows);
      response := ListAuditLog(listingFor(page), |rows|, page, pageSize);
      PageIsDetermined(response, listingFor(page), page, pageSize);
      all := all + response.items;
    }
    assert page * pageSize == (page - 1) * pageSize + pageSize >= |rows|;
    LastPageIs(|rows|, pageSize, page);
  }

  datatype Export = Refused(matched: nat) | Csv(lines: seq<Row>)

  function ExportOf(listing: seq<Row>): Export {
    if |listing| > MAX_EXPORT_ROWS then Refused(|listing|) else Csv(listing)
  }

  /** The LIMIT under which the export reads its rows never cuts any off. */
  method ExportAuditLog(listing: seq<Row>, total: nat) returns (file: Export)
    requires total == |listing|
    ensures file.Csv? <==> |listing| <= 100_000
    ensures file.Csv? ==> file.lines == listing
    ensures file.Refused? ==> file.matched == |listing|
  {
    if total > MAX_EXPORT_ROWS {
      return Refused(total);
    }
    var entries := Slice(listing, 0, MAX_EXPORT_ROWS);
    var lines: seq<Row> := [];
    for i := 0 to |entries|
      invariant lines == entries[..i]
    {
      lines := lines + [entries[i]];
    }
    file := Csv(lines);
  }

  // ---------------------------------------------------------------------------
  // Page arithmetic

  lemma ListingLength(listing: seq<Row>, rows: seq<Row>)
    requires IsListing(listing, rows)
    ensures |listing| == |rows|
  {
    assert |multiset(listing)| == |multiset(rows)|;
  }

  lemma LastPageIs(n: nat, pageSize: nat, page: nat)
    requires 1 <= pageSize && 1 <= page
    requires (page - 1) * pageSize < n || page == 1
    requires n <= page * pageSize
    ensures page == LastPage(n, pageSize)
  {
    if n > 0 {
      var q := (n - 1) / pageSize;
      assert q * pageSize <= n - 1 < (q + 1) * pageSize;
      if page - 1 < q {
        MulMono(page, q, pageSize);
      } else if q < page - 1 {
        MulMono(q + 1, page - 1, pageSize);
      }
    }
  }

  lemma MulMono(a: int, b: int, c: nat)
    requires a <= b
    ensures a * c <= b * c
  {
  }

  lemma LastPageCovers(n: nat, pageSize: nat)
    requires 1 <= pageSize
    ensures n <= LastPage(n, pageSize) * pageSize
    ensures forall k :: 1 <= k < LastPage(n, pageSize) ==> k * pageSize < n
  {
    if n > 0 {
      var q := (n - 1) / pageSize;
      assert q * pageSize <= n - 1 < (q + 1) * pageSize;
      forall k | 1 <= k < LastPage(n, pageSize) ensures k * pageSize < n {
        MulMono(k, q, pageSize);
      }
    }
  }

  /** Where page `page` ends. */
  function EndOf(n: nat, pageSize: nat, page: nat): nat {
    Min(page * pageSize, n)
  }

  lemma PageItems(listing: seq<Row>, page: nat, pageSize: nat)
    requires 1 <= page
    ensures EndOf(|listing|, pageSize, page - 1) <= EndOf(|listing|, pageSize, page)
    ensures PageOf(listing, page, pageSize).items
         == listing[EndOf(|listing|, pageSize, page - 1)..EndOf(|listing|, pageSize, page)]
  {
    assert page * pageSize == (page - 1) * pageSize + pageSize;
  }

  lemma EndBounds(n: nat, pageSize: nat, page: nat)
    ensures EndOf(n, pageSize, page) <= n && EndOf(n, pageSize, 0) == 0
  {
  }

  lemma JoinSlices(s: seq<Row>, lo: nat, mid: nat, hi: nat)
    requires lo <= mid <= hi <= |s|
    ensures s[lo..mid] + s[mid..hi] == s[lo..hi]
  {
  }

  // ---------------------------------------------------------------------------
  // One fixed order

  lemma {:induction false} FetchedFromOneListing(listing: seq<Row>, listingFor: nat -> seq<Row>, pageSize: nat, last: nat)
    requires forall p :: 1 <= p <= last ==> listingFor(p) == listing
    ensures Fetched(listingFor, pageSize, last) == listing[..EndOf(|listing|, pageSize, last)]
  {
    hide PageOf, EndOf;
    EndBounds(|listing|, pageSize, last);
    if last > 0 {
      FetchedFromOneListing(listing, listingFor, pageSize, last - 1);
      PageItems(listing, last, pageSize);
      JoinSlices(listing, 0, EndOf(|listing|, pageSize, last - 1), EndOf(|listing|, pageSize, last));
    }
  }

  /** With one listing for every page, the pages concatenate to it: nothing missing, nothing
      twice. Up to the export cap that is exactly what the export writes; above it the export
      refuses. */
  lemma {:induction false} PagesAreTheExport(table: seq<Row>, matches: Row -> bool, listing: seq<Row>, pageSize: nat)
    requires 1 <= pageSize
    requires IsListing(listing, Matching(table, matches))
    ensures var paged := Fetched(p => listing, pageSize, LastPage(|listing|, pageSize));
            paged == listing
            && ExportOf(listing) == if |paged| <= 100_000 then Csv(paged) else Refused(|paged|)
    ensures forall r :: multiset(listing)[r] == if matches(r) then multiset(table)[r] else 0
  {
    var listingFor := p => listing;
    FetchedFromOneListing(listing, listingFor, pageSize, LastPage(|listing|, pageSize));
    LastPageCovers(|listing|, pageSize);
    forall r ensures multiset(Matching(table, matches))[r] == if matches(r) then multiset(table)[r] else 0 {
      MatchingCounts(table, matches, r);
    }
  }

  lemma {:induction false} MatchingCounts(table: seq<Row>, matches: Row -> bool, r: Row)
    ensures multiset(Matching(table, matches))[r] == if matches(r) then multiset(table)[r] else 0
  {
    if table != [] {
      MatchingCounts(table[1..], matches, r);
      assert table == [table[0]] + table[1..];
    }
  }

  // ---------------------------------------------------------------------------
  // A listing may differ from page to page

  function AtLeast(t: int): Row -> bool {
    (r: Row) => r.timestamp >= t
  }

  lemma {:induction false} FilterIsPrefix(listing: seq<Row>, t: int)
    requires NewestFirst(listing)
    ensures var n := |Matching(listing, AtLeast(t))|;
            && n <= |listing| && Matching(listing, AtLeast(t)) == listing[..n]
            && forall j :: 0 <= j < |listing| ==> (listing[j].timestamp >= t <==> j < n)
  {
    if listing != [] {
      var rest := listing[1..];
      FilterIsPrefix(rest, t);
      var n := |Matching(rest, AtLeast(t))|;
      assert listing == [listing[0]] + rest;
      if listing[0].timestamp >= t {
        assert listing[..n + 1] == [listing[0]] + rest[..n];
      } else {
        assert rest != [] ==> listing[1] == rest[0];
      }
    }
  }

  /** Where the timestamp strictly falls, every listing holds the same rows before the cut. */
  lemma {:induction false} SameRowsBeforeACut(a: seq<Row>, b: seq<Row>, rows: seq<Row>, i: nat)
    requires IsListing(a, rows) && IsListing(b, rows)
    requires 0 < i < |a| && a[i - 1].timestamp > a[i].timestamp
    ensures |a| == |b| && multiset(a[..i]) == multiset(b[..i])
  {
    ListingLength(a, rows);
    ListingLength(b, rows);
    var t := a[i - 1].timestamp;
    FilterIsPrefix(a, t);
    FilterIsPrefix(b, t);
    SameMatching(a, b, AtLeast(t));
  }

  lemma SameMatching(a: seq<Row>, b: seq<Row>, matches: Row -> bool)
    requires multiset(a) == multiset(b)
    ensures multiset(Matching(a, matches)) == multiset(Matching(b, matches))
    ensures |Matching(a, matches)| == |Matching(b, matches)|
  {
    hide Matching;
    var fa, fb := Matching(a, matches), Matching(b, matches);
    forall r ensures multiset(fa)[r] == multiset(fb)[r] {
      MatchingCounts(a, matches, r);
      MatchingCounts(b, matches, r);
    }
    assert multiset(fa) == multiset(fb);
    assert |fa| == |multiset(fa)| == |multiset(fb)| == |fb|;
  }

  /** Two rows with one timestamp lie on either side of a page end. */
  ghost predicate TieAcrossPages(listing: seq<Row>, pageSize: nat) {
    exists k :: TieAt(listing, pageSize, k)
  }

  predicate TieAt(listing: seq<Row>, pageSize: nat, k: nat) {
    var cut := k * pageSize;
    0 < cut < |listing| && listing[cut - 1].timestamp == listing[cut].timestamp
  }

  lemma SameRowsUpToPage(a: seq<Row>, b: seq<Row>, rows: seq<Row>, pageSize: nat, k: nat)
    requires 1 <= pageSize
    requires IsListing(a, rows) && IsListing(b, rows) && !TieAcrossPages(a, pageSize)
    ensures EndOf(|a|, pageSize, k) <= |a| == |b|
    ensures multiset(a[..EndOf(|a|, pageSize, k)]) == multiset(b[..EndOf(|a|, pageSize, k)])
  {
    ListingLength(a, rows);
    ListingLength(b, rows);
    var cut := k * pageSize;
    if 0 < cut < |a| {
      assert !TieAt(a, pageSize, k);
      SameRowsBeforeACut(a, b, rows, cut);
    } else if cut >= |a| {
      assert a[..|a|] == a && b[..|a|] == b;
    }
  }

  lemma {:induction false} FetchedRows(a: seq<Row>, listingFor: nat -> seq<Row>, rows: seq<Row>, pageSize: nat, last: nat)
    requires 1 <= pageSize
    requires IsListing(a, rows) && !TieAcrossPages(a, pageSize)
    requires forall p :: IsListing(listingFor(p), rows)
    ensures multiset(Fetched(listingFor, pageSize, last)) == multiset(a[..EndOf(|a|, pageSize, last)])
  {
    hide IsListing, TieAcrossPages, EndOf, PageOf, NewestFirst, Min;
    if last == 0 {
      NothingYet(|a|, pageSize);
    } else {
      var b := listingFor(last);
      FetchedRows(a, listingFor, rows, pageSize, last - 1);
      SameRowsUpToPage(a, b, rows, pageSize, last - 1);
      SameRowsUpToPage(a, b, rows, pageSize, last);
      PageItems(b, last, pageSize);
      var lo, hi := EndOf(|a|, pageSize, last - 1), EndOf(|a|, pageSize, last);
      NextPage(a, b, Fetched(listingFor, pageSize, last - 1), lo, hi);
    }
  }

  lemma NextPage(a: seq<Row>, b: seq<Row>, sofar: seq<Row>, lo: nat, hi: nat)
    requires lo <= hi <= |a| == |b|
    requires multiset(sofar) == multiset(a[..lo]) == multiset(b[..lo]) && multiset(a[..hi]) == multiset(b[..hi])
    ensures multiset(sofar + b[lo..hi]) == multiset(a[..hi])
  {
    CutApart(b, lo, hi);
  }

  lemma NothingYet(n: nat, pageSize: nat)
    ensures EndOf(n, pageSize, 0) == 0
  {
  }

  lemma CutApart(s: seq<Row>, lo: nat, hi: nat)
    requires lo <= hi <= |s|
    ensures multiset(s[..hi]) == multiset(s[..lo]) + multiset(s[lo..hi])
  {
    assert s[..hi] == s[..lo] + s[lo..hi];
  }

  function Swap(s: seq<Row>, i: nat, j: nat): (t: seq<Row>)
    requires i < j < |s|
    ensures |t| == |s|
  {
    s[i := s[j]][j := s[i]]
  }

  lemma SwapIsListing(a: seq<Row>, rows: seq<Row>, i: nat)
    requires IsListing(a, rows) && i + 1 < |a| && a[i].timestamp == a[i + 1].timestamp
    ensures IsListing(Swap(a, i, i + 1), rows)
  {
    SwapKeepsRows(a, i);
    var b := Swap(a, i, i + 1);
    forall j | 0 <= j < |b| ensures b[j].timestamp == a[j].timestamp {
    }
  }

  lemma SwapKeepsRows(a: seq<Row>, i: nat)
    requires i + 1 < |a|
    ensures multiset(Swap(a, i, i + 1)) == multiset(a)
  {
    var u, w := a[..i], a[i + 2..];
    assert a == u + [a[i], a[i + 1]] + w;
    assert Swap(a, i, i + 1) == u + [a[i + 1], a[i]] + w;
    assert multiset([a[i], a[i + 1]]) == multiset([a[i + 1], a[i]]);
  }

  /** The listings of a client unlucky at page end k: swapped from page k + 1 on. */
  function Unlucky(a: seq<Row>, pageSize: nat, k: nat): nat -> seq<Row>
    requires TieAt(a, pageSize, k)
  {
    var b := Swap(a, k * pageSize - 1, k * pageSize);
    p => if p <= k then a else b
  }

  lemma {:induction false} UnluckyFetch(a: seq<Row>, pageSize: nat, k: nat, last: nat)
    requires TieAt(a, pageSize, k) && k <= last
    ensures var cut := k * pageSize;
            cut <= EndOf(|a|, pageSize, last)
            && Fetched(Unlucky(a, pageSize, k), pageSize, last)
               == a[..cut] + Swap(a, cut - 1, cut)[cut..EndOf(|a|, pageSize, last)]
  {
    hide PageOf, EndOf, Swap;
    var f, cut, n := Unlucky(a, pageSize, k), k * pageSize, |a|;
    var b := Swap(a, cut - 1, cut);
    EndBounds(n, pageSize, last);
    if last == k {
      EndAt(n, pageSize, k);
      FetchedFromOneListing(a, f, pageSize, k);
      assert b[cut..cut] == [];
    } else {
      var lo, hi := EndOf(n, pageSize, last - 1), EndOf(n, pageSize, last);
      UnluckyFetch(a, pageSize, k, last - 1);
      PageItems(b, last, pageSize);
      JoinTail(a[..cut], b, cut, lo, hi);
      assert f(last) == b;
    }
  }

  lemma EndAt(n: nat, pageSize: nat, page: nat)
    requires page * pageSize <= n
    ensures EndOf(n, pageSize, page) == page * pageSize
  {
  }

  lemma JoinTail(u: seq<Row>, s: seq<Row>, lo: nat, mid: nat, hi: nat)
    requires lo <= mid <= hi <= |s|
    ensures u + s[lo..mid] + s[mid..hi] == u + s[lo..hi]
  {
  }

  /** Whatever order ties come back in on each page, paging returns every matching row exactly
      once if and only if no tie lies across a page end. */
  lemma {:induction false} PagingIsStableExactlyWhen(rows: seq<Row>, a: seq<Row>, pageSize: nat)
    requires 1 <= pageSize && IsListing(a, rows)
    requires forall i, j :: 0 <= i < j < |a| ==> a[i] != a[j]
    ensures !TieAcrossPages(a, pageSize) <==>
            forall listingFor: nat -> seq<Row> | (forall p :: IsListing(listingFor(p), rows)) ::
              multiset(Fetched(listingFor, pageSize, LastPage(|rows|, pageSize))) == multiset(rows)
  {
    ListingLength(a, rows);
    var last := LastPage(|rows|, pageSize);
    LastPageCovers(|rows|, pageSize);
    if !TieAcrossPages(a, pageSize) {
      forall listingFor: nat -> seq<Row> | forall p :: IsListing(listingFor(p), rows)
        ensures multiset(Fetched(listingFor, pageSize, last)) == multiset(rows)
      {
        FetchedRows(a, listingFor, rows, pageSize, last);
        assert a[..|a|] == a;
      }
    } else {
      var k :| TieAt(a, pageSize, k);
      TieLosesARow(rows, a, pageSize, k);
    }
  }

  lemma {:induction false} TieLosesARow(rows: seq<Row>, a: seq<Row>, pageSize: nat, k: nat)
    requires 1 <= pageSize && IsListing(a, rows) && TieAt(a, pageSize, k)
    requires forall i, j :: 0 <= i < j < |a| ==> a[i] != a[j]
    ensures forall p :: IsListing(Unlucky(a, pageSize, k)(p), rows)
    ensures multiset(Fetched(Unlucky(a, pageSize, k), pageSize, LastPage(|rows|, pageSize))) != multiset(rows)
  {
    ListingLength(a, rows);
    var f, cut, last := Unlucky(a, pageSize, k), k * pageSize, LastPage(|rows|, pageSize);
    SwapIsListing(a, rows, cut - 1);
    LastPageCovers(|rows|, pageSize);
    if last < k {
      MulMono(last, k, pageSize);
    }
    UnluckyFetch(a, pageSize, k, last);
    TieRowLost(a, cut);
    assert EndOf(|a|, pageSize, last) == |a|;
    assert Fetched(f, pageSize, last) == a[..cut] + Swap(a, cut - 1, cut)[cut..];
    assert a[cut] in multiset(rows);
  }

  /** The row behind the cut is swapped in front of it after the page before was read. */
  lemma TieRowLost(a: seq<Row>, cut: nat)
    requires 0 < cut < |a| && forall i, j :: 0 <= i < j < |a| ==> a[i] != a[j]
    ensures a[cut] !in multiset(a[..cut] + Swap(a, cut - 1, cut)[cut..]) && a[cut] in multiset(a)
  {
    assert a[cut] !in a[..cut] + Swap(a, cut - 1, cut)[cut..];
  }
}
