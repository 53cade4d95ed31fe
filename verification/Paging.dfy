/** Keyset pagination: page tokens, and what a client collects that follows them. */
module Paging {
  import opened Words
  import opened Sorting
  import opened Decimal
  import opened Tables
  import opened Invariants
  import opened Interleaving
  import opened StoreSteps
  import opened Runs
  import opened Reads

  datatype Response = NotFound | Listed(rows: seq<Part>, nextToken: string)

  /** A token that is empty or no number starts from the beginning. */
  function LastId(token: string): int {
    match ParseInt64(token)
    case Some(id) => id
    case None => 0
  }

  /** A page token is the decimal text of a partition id, with a sign if negative. */
  function FormatId(id: int): string {
    if id < 0 then "-" + Format(-id) else Format(id)
  }

  /** The answer to a listing request: an empty page has no token, and neither has a listing that is not paged. */
  function Answer(rows: Option<seq<Part>>, paged: bool): Response {
    match rows
    case None => NotFound
    case Some(parts) => Listed(parts, if paged && parts != [] then FormatId(parts[|parts| - 1].id) else "")
  }

  /** The partition listing of the server: a page size of at most 0 asks for everything at once. */
  function ListPartitions(rel: Relations, table: string, snapshot: uint64, pageSize: int, token: string): Response {
    var at := ReadAt(rel, table, snapshot);
    if pageSize > 0 then Answer(QueryPage(rel, table, at, pageSize, LastId(token)), true)
    else Answer(QueryPartitions(rel, table, at), false)
  }

  /** A listing request as the client makes it: only the token varies from page to page. */
  type Server = string -> Response

  /** The pages of a client that follows the tokens until a page is empty; its m-th request meets the m-th state of the server. */
  function Follow(servers: seq<Server>, token: string): seq<seq<Part>> {
    if servers == [] then []
    else
      match servers[0](token)
      case NotFound => []
      case Listed(rows, next) => if rows == [] then [[]] else [rows] + Follow(servers[1..], next)
  }

  function Concat(pages: seq<seq<Part>>): seq<Part> {
    if pages == [] then [] else pages[0] + Concat(pages[1..])
  }

  // ----- one page

  ghost predicate Ordered(parts: seq<Part>) {
    && (forall i, j :: 0 <= i < j < |parts| ==> parts[i].id < parts[j].id)
    && (forall i :: 0 <= i < |parts| ==> 0 < parts[i].id < TWO_63)
  }

  /** The id behind which the rows from index `k` on lie. */
  function Before(parts: seq<Part>, k: nat): int
    requires k <= |parts|
  {
    if k == 0 then 0 else parts[k - 1].id
  }

  lemma {:induction false} AfterAll(parts: seq<Part>, id: int)
    requires forall i :: 0 <= i < |parts| ==> parts[i].id > id
    ensures After(parts, id) == parts
  {
    if parts != [] {
      AfterAll(parts[1..], id);
    }
  }

  lemma {:induction false} AfterIndex(parts: seq<Part>, k: nat)
    requires Ordered(parts) && k <= |parts|
    ensures After(parts, Before(parts, k)) == parts[k..]
  {
    if k == 0 {
      AfterAll(parts, 0);
    } else if k == 1 {
      AfterAll(parts[1..], parts[0].id);
    } else {
      AfterIndex(parts[1..], k - 1);
      assert Before(parts[1..], k - 1) == Before(parts, k);
    }
  }

  ghost predicate Ascending(parts: seq<Part>, lastId: int) {
    && (forall i, j :: 0 <= i < j < |parts| ==> parts[i].id < parts[j].id)
    && (forall i :: 0 <= i < |parts| ==> parts[i].id > lastId)
  }

  /** Exactly the rows of a list whose ids are greater than `lastId`, in the order of their ids, cut at the page size. */
  ghost predicate IsPage(page: seq<Part>, parts: seq<Part>, lastId: int, size: nat) {
    && Ascending(page, lastId)
    && |page| <= size
    && (forall p :: p in page ==> p in parts)
    && (forall p :: p in parts && p.id > lastId && p !in page ==> |page| == size && forall q :: q in page ==> q.id < p.id)
  }

  lemma SplitShifts(parts: seq<Part>, lastId: int, k: nat)
    requires parts != [] && k <= |parts| - 1 && parts[0].id <= lastId
    requires forall i :: 0 <= i < k ==> parts[1..][i].id <= lastId
    requires forall i :: k <= i < |parts| - 1 ==> parts[1..][i].id > lastId
    ensures (forall i :: 0 <= i < k + 1 ==> parts[i].id <= lastId) && (forall i :: k + 1 <= i < |parts| ==> parts[i].id > lastId)
  {
    assert forall i :: 1 <= i < |parts| ==> parts[i] == parts[1..][i - 1];
  }

  lemma {:induction false} AfterSome(parts: seq<Part>, lastId: int) returns (k: nat)
    requires Ordered(parts)
    ensures k <= |parts| && After(parts, lastId) == parts[k..]
    ensures (forall i :: 0 <= i < k ==> parts[i].id <= lastId) && (forall i :: k <= i < |parts| ==> parts[i].id > lastId)
  {
    k := 0;
    if parts != [] {
      if parts[0].id > lastId {
        AfterAll(parts, lastId);
      } else {
        var tail := AfterSome(parts[1..], lastId);
        k := tail + 1;
        SplitShifts(parts, lastId, tail);
      }
    }
  }

  /** Whatever the token, be it the id of a listed row or not: the page holds the rows behind it. */
  lemma PageIsBehind(parts: seq<Part>, lastId: int, size: nat)
    requires Ordered(parts)
    ensures IsPage(Limit(After(parts, lastId), size), parts, lastId, size)
  {
    var k := AfterSome(parts, lastId);
    SliceIsPage(parts, lastId, size, k);
  }

  lemma SliceIsPage(parts: seq<Part>, lastId: int, size: nat, k: nat)
    requires Ordered(parts) && k <= |parts|
    requires (forall i :: 0 <= i < k ==> parts[i].id <= lastId) && (forall i :: k <= i < |parts| ==> parts[i].id > lastId)
    ensures IsPage(Limit(parts[k..], size), parts, lastId, size)
  {
    var page := Limit(parts[k..], size);
    assert forall i :: 0 <= i < |page| ==> page[i] == parts[k + i];
    forall p | p in parts && p.id > lastId && p !in page
      ensures |page| == size && forall q :: q in page ==> q.id < p.id
    {
      BehindThePage(parts, lastId, k, page, size, p);
    }
  }

  lemma BehindThePage(parts: seq<Part>, lastId: int, k: nat, page: seq<Part>, size: nat, p: Part)
    requires Ordered(parts) && k <= |parts| && p in parts && p.id > lastId && p !in page
    requires forall i :: 0 <= i < k ==> parts[i].id <= lastId
    requires |page| == (if |parts| - k <= size then |parts| - k else size) && forall i :: 0 <= i < |page| ==> page[i] == parts[k + i]
    ensures |page| == size && forall q :: q in page ==> q.id < p.id
  {
    var i :| 0 <= i < |parts| && parts[i] == p;
    assert i >= k;
    assert forall j :: k <= j < k + |page| ==> parts[j] == page[j - k] && parts[j] in page;
  }

  /** The paged query itself, for any token; a page size that is not positive stands for 1000. */
  lemma QueryPageMeans(db: Db, name: string, s: uint64, pageSize: int, lastId: int)
    requires IdsOk(db) && SeqsBounded(db.seqs)
    ensures QueryPage(db.rel, name, s, pageSize, lastId).Some? <==> name in db.rel.tables && !db.rel.tables[name].deleted
    ensures QueryPage(db.rel, name, s, pageSize, lastId).Some? ==>
              IsPage(QueryPage(db.rel, name, s, pageSize, lastId).value, QueryPartitions(db.rel, name, s).value, lastId,
                     if pageSize > 0 then pageSize else 1000)
  {
    if Live(db.rel, name).Some? {
      QueryOrdered(db, name, s);
      PageIsBehind(QueryPartitions(db.rel, name, s).value, lastId, if pageSize > 0 then pageSize else 1000);
    }
  }

  /** A listing request in full, by the ids of the rows alone. */
  ghost predicate Lists(r: Response, listed: Option<seq<Part>>, pageSize: int, token: string) {
    match listed
    case None => r == NotFound
    case Some(parts) =>
      && r.Listed?
      && (if pageSize > 0 then IsPage(r.rows, parts, LastId(token), pageSize) else r.rows == parts && r.nextToken == "")
      && (pageSize > 0 ==> if r.rows == [] then r.nextToken == "" else LastId(r.nextToken) == r.rows[|r.rows| - 1].id)
  }

  lemma AnswerMeans(parts: seq<Part>, size: nat, token: string)
    requires Ordered(parts) && size > 0
    ensures Lists(Answer(Some(Limit(After(parts, LastId(token)), size)), true), Some(parts), size, token)
  {
    var rows := Limit(After(parts, LastId(token)), size);
    PageIsBehind(parts, LastId(token), size);
    if rows != [] {
      assert rows[|rows| - 1] in parts;
      TokenIsRead(rows[|rows| - 1].id);
    }
  }

  lemma ListingMeans(db: Db, name: string, s: uint64, pageSize: int, token: string)
    requires IdsOk(db) && SeqsBounded(db.seqs)
    ensures Lists(ListPartitions(db.rel, name, s, pageSize, token), ReadRows(db.rel, name, s), pageSize, token)
  {
    if Live(db.rel, name).Some? {
      QueryOrdered(db, name, ReadAt(db.rel, name, s));
      if pageSize > 0 {
        AnswerMeans(ReadRows(db.rel, name, s).value, pageSize, token);
      }
    }
  }

  lemma TokenIsRead(id: int)
    requires 0 <= id < TWO_63
    ensures LastId(FormatId(id)) == id
  {
    ParseUndoesFormat(id);
  }

  /** Where the page that starts at index `k` ends. */
  function PageEnd(parts: seq<Part>, k: nat, size: nat): (end: nat)
    requires k <= |parts|
    ensures k <= end <= |parts|
  {
    if k + size <= |parts| then k + size else |parts|
  }

  lemma LimitSlice(parts: seq<Part>, k: nat, size: nat)
    requires k <= |parts|
    ensures Limit(parts[k..], size) == parts[k..PageEnd(parts, k, size)]
  {
    if size < |parts| - k {
      assert parts[k..][..size] == parts[k..k + size];
    }
  }

  lemma PageRows(parts: seq<Part>, k: nat, size: nat, lastId: int)
    requires Ordered(parts) && k <= |parts| && lastId == Before(parts, k)
    ensures Limit(After(parts, lastId), size) == parts[k..PageEnd(parts, k, size)]
  {
    AfterIndex(parts, k);
    LimitSlice(parts, k, size);
  }

  lemma NextToken(parts: seq<Part>, k: nat, size: nat)
    requires Ordered(parts) && k < |parts| && size > 0
    ensures var end := PageEnd(parts, k, size);
            k < end && parts[k..end][end - k - 1] == parts[end - 1] && LastId(FormatId(parts[end - 1].id)) == Before(parts, end)
  {
    TokenIsRead(parts[PageEnd(parts, k, size) - 1].id);
  }

  lemma QueriesPage(rel: Relations, table: string, s: uint64, size: nat, parts: seq<Part>, lastId: int)
    requires size > 0 && QueryPartitions(rel, table, s) == Some(parts)
    ensures QueryPage(rel, table, s, size, lastId) == Some(Limit(After(parts, lastId), size))
  {
  }

  lemma PageAt(rel: Relations, table: string, s: uint64, size: nat, parts: seq<Part>, k: nat, token: string)
    requires size > 0 && s != 0 && Ordered(parts) && k <= |parts|
    requires QueryPartitions(rel, table, s) == Some(parts) && LastId(token) == Before(parts, k)
    ensures ListPartitions(rel, table, s, size, token) == Answer(Some(parts[k..PageEnd(parts, k, size)]), true)
  {
    QueriesPage(rel, table, s, size, parts, LastId(token));
    PageRows(parts, k, size, LastId(token));
  }

  lemma AnswerGoesOn(parts: seq<Part>, k: nat, size: nat)
    requires Ordered(parts) && k <= |parts| && size > 0
    ensures var r := Answer(Some(parts[k..PageEnd(parts, k, size)]), true);
            && r.Listed? && r.rows == parts[k..PageEnd(parts, k, size)]
            && (k < |parts| ==> LastId(r.nextToken) == Before(parts, PageEnd(parts, k, size)))
  {
    if k < |parts| {
      NextToken(parts, k, size);
    }
  }

  // ----- all the pages

  /** The number of pages that hold `n` rows. */
  function PageCount(n: nat, size: nat): nat
    requires size > 0
  {
    if n == 0 then 0 else if n <= size then 1 else 1 + PageCount(n - size, size)
  }

  /** At each position the token gets the page that starts there, and a token for the position after it. */
  ghost predicate Serves(server: Server, parts: seq<Part>, size: nat) {
    forall k: nat, token :: k <= |parts| && LastId(token) == Before(parts, k) ==>
      var r := server(token);
      && r.Listed? && r.rows == parts[k..PageEnd(parts, k, size)]
      && (k < |parts| ==> LastId(r.nextToken) == Before(parts, PageEnd(parts, k, size)))
  }

  /** The pages are consecutive pieces of `rest`, and only the last is empty. */
  ghost predicate Complete(pages: seq<seq<Part>>, rest: seq<Part>, count: nat) {
    && Concat(pages) == rest
    && |pages| == count + 1
    && forall m :: 0 <= m < |pages| ==> (pages[m] == [] <==> m == |pages| - 1)
  }

  lemma OneMorePage(parts: seq<Part>, k: nat, end: nat, pages: seq<seq<Part>>, count: nat)
    requires k < end <= |parts| && Complete(pages, parts[end..], count)
    ensures Complete([parts[k..end]] + pages, parts[k..], count + 1)
  {
    var all := [parts[k..end]] + pages;
    assert all[1..] == pages;
    assert parts[k..end] + parts[end..] == parts[k..];
    forall m | 0 <= m < |all|
      ensures all[m] == [] <==> m == |all| - 1
    {
      if m > 0 {
        assert all[m] == pages[m - 1];
      }
    }
  }

  /** The list from index `k` on, cut into pages, with the empty page at the end. */
  function PagesFrom(parts: seq<Part>, size: nat, k: nat): seq<seq<Part>>
    requires size > 0 && k <= |parts|
    decreases |parts| - k
  {
    if k == |parts| then [[]] else [parts[k..PageEnd(parts, k, size)]] + PagesFrom(parts, size, PageEnd(parts, k, size))
  }

  lemma {:induction false} PagesAreComplete(parts: seq<Part>, size: nat, k: nat)
    requires size > 0 && k <= |parts|
    ensures Complete(PagesFrom(parts, size, k), parts[k..], PageCount(|parts| - k, size))
    decreases |parts| - k
  {
    if k < |parts| {
      var end := PageEnd(parts, k, size);
      OnePageLess(parts, k, size);
      PagesAreComplete(parts, size, end);
      OneMorePage(parts, k, end, PagesFrom(parts, size, end), PageCount(|parts| - end, size));
    }
  }

  /** As long as each request meets the same list, following the tokens cuts it into its pages. */
  lemma {:induction false} FollowFrom(servers: seq<Server>, size: nat, parts: seq<Part>, k: nat, token: string)
    requires size > 0 && k <= |parts| && LastId(token) == Before(parts, k)
    requires forall m :: 0 <= m < |servers| ==> Serves(servers[m], parts, size)
    requires |servers| > PageCount(|parts| - k, size)
    ensures Follow(servers, token) == PagesFrom(parts, size, k)
    decreases |servers|
  {
    assert Serves(servers[0], parts, size);
    if k < |parts| {
      OnePageLess(parts, k, size);
      assert servers[0](token).rows != [];
      FollowFrom(servers[1..], size, parts, PageEnd(parts, k, size), servers[0](token).nextToken);
    } else {
      assert parts[k..PageEnd(parts, k, size)] == [];
    }
  }

  lemma OnePageLess(parts: seq<Part>, k: nat, size: nat)
    requires size > 0 && k < |parts|
    ensures k < PageEnd(parts, k, size) && PageCount(|parts| - k, size) == PageCount(|parts| - PageEnd(parts, k, size), size) + 1
  {
  }

  // ----- the order of a listing

  lemma {:induction false} VisibleIn(rows: seq<PartRow>, s: int, p: Part)
    requires p in Visible(rows, s)
    ensures exists i :: 0 <= i < |rows| && rows[i].part == p
  {
    if rows != [] {
      var prefix := rows[..|rows| - 1];
      if p in Visible(prefix, s) {
        VisibleIn(prefix, s, p);
        var i :| 0 <= i < |prefix| && prefix[i].part == p;
        assert rows[i].part == p;
      } else {
        assert rows[|rows| - 1].part == p;
      }
    }
  }

  lemma {:induction false} VisibleOrdered(rows: seq<PartRow>, s: int)
    requires forall i, j :: 0 <= i < j < |rows| ==> rows[i].part.id < rows[j].part.id
    requires forall i :: 0 <= i < |rows| ==> 0 < rows[i].part.id < TWO_63
    ensures Ordered(Visible(rows, s))
  {
    if rows != [] {
      var prefix := rows[..|rows| - 1];
      VisibleOrdered(prefix, s);
      forall i | 0 <= i < |Visible(prefix, s)|
        ensures Visible(prefix, s)[i].id < rows[|rows| - 1].part.id
      {
        VisibleIn(prefix, s, Visible(prefix, s)[i]);
      }
    }
  }

  lemma RowsOrdered(m: map<int, PartRow>, id: int, bound: int)
    requires bound <= TWO_63 && forall p :: p in m ==> 0 < p < bound && m[p].part.id == p
    ensures var rows := RowsOf(m, id);
            && (forall i, j :: 0 <= i < j < |rows| ==> rows[i].part.id < rows[j].part.id)
            && (forall i :: 0 <= i < |rows| ==> 0 < rows[i].part.id < TWO_63)
  {
    SortedIsSorted(IdsOf(m, id));
    var ids, rows := Sorted(IdsOf(m, id)), RowsOf(m, id);
    forall i | 0 <= i < |rows|
      ensures rows[i].part.id == ids[i] && 0 < ids[i] < bound
    {
      assert ids[i] in m;
    }
  }

  lemma QueryOrdered(db: Db, name: string, s: uint64)
    requires IdsOk(db) && SeqsBounded(db.seqs) && Live(db.rel, name).Some?
    ensures Ordered(QueryPartitions(db.rel, name, s).value)
  {
    var id := db.rel.tables[name].id;
    RowsOrdered(db.rel.partitions, id, db.seqs.partition);
    VisibleOrdered(RowsOf(db.rel.partitions, id), AsInt64(s));
  }

  // ----- pagination under concurrent requests

  /** The listing of one state of the database. */
  function Listing(rel: Relations, name: string, s: uint64, size: int): Server {
    token => ListPartitions(rel, name, s, size, token)
  }

  function ListingsAt(ws: seq<World>, at: seq<nat>, name: string, s: uint64, size: int): (servers: seq<Server>)
    requires forall m :: 0 <= m < |at| ==> at[m] < |ws|
    ensures |servers| == |at| && forall m :: 0 <= m < |at| ==> servers[m] == Listing(ws[at[m]].db.rel, name, s, size)
  {
    seq(|at|, m requires 0 <= m < |at| => Listing(ws[at[m]].db.rel, name, s, size))
  }

  lemma ListingServes(rel: Relations, name: string, s: uint64, size: nat, parts: seq<Part>)
    requires size > 0 && s != 0 && Ordered(parts) && QueryPartitions(rel, name, s) == Some(parts)
    ensures Serves(Listing(rel, name, s, size), parts, size)
  {
    forall k: nat, token | k <= |parts| && LastId(token) == Before(parts, k)
      ensures var r := Listing(rel, name, s, size)(token);
              && r.Listed? && r.rows == parts[k..PageEnd(parts, k, size)]
              && (k < |parts| ==> LastId(r.nextToken) == Before(parts, PageEnd(parts, k, size)))
    {
      PageAt(rel, name, s, size, parts, k, token);
      AnswerGoesOn(parts, k, size);
    }
  }

  /** The name still denotes the table it denoted before. */
  ghost predicate SameTable(rel: Relations, rel': Relations, name: string) {
    Live(rel, name).Some? && Live(rel', name).Some? && rel.tables[name].id == rel'.tables[name].id
  }

  /**
    A client that pages through a nonzero snapshot which the table had reached at its
    first request collects exactly that listing, each row once and in order, however
    many commits land between its requests, as long as the name still denotes the
    table; it is done after one request more than there are pages.
   */
  lemma PagingIsComplete(cfg: Config, ws: seq<World>, at: seq<nat>, name: string, s: uint64, size: nat)
    requires IsRun(cfg, ws) && size > 0 && at != []
    requires forall m :: 0 <= m < |at| ==> at[0] <= at[m] < |ws|
    requires forall m :: 0 <= m < |at| ==> SameTable(ws[at[0]].db.rel, ws[at[m]].db.rel, name)
    requires SameTable(ws[at[0]].db.rel, ws[at[0]].db.rel, name) && 0 < s <= ws[at[0]].db.rel.tables[name].current
    requires |at| > PageCount(|QueryPartitions(ws[at[0]].db.rel, name, s).value|, size)
    ensures var parts := QueryPartitions(ws[at[0]].db.rel, name, s).value;
            Ordered(parts) && Complete(Follow(ListingsAt(ws, at, name, s, size), ""), parts, PageCount(|parts|, size))
  {
    var parts := QueryPartitions(ws[at[0]].db.rel, name, s).value;
    FirstListing(cfg, ws, at[0], name, s);
    forall m | 0 <= m < |at|
      ensures Serves(ListingsAt(ws, at, name, s, size)[m], parts, size)
    {
      RepeatableReads(cfg, ws, at[0], at[m], name, name, s);
      ListingServes(ws[at[m]].db.rel, name, s, size, parts);
    }
    FollowFrom(ListingsAt(ws, at, name, s, size), size, parts, 0, "");
    PagesAreComplete(parts, size, 0);
    assert parts[0..] == parts;
  }

  lemma FirstListing(cfg: Config, ws: seq<World>, j: nat, name: string, s: uint64)
    requires IsRun(cfg, ws) && j < |ws| && Live(ws[j].db.rel, name).Some?
    ensures Ordered(QueryPartitions(ws[j].db.rel, name, s).value)
  {
    RunInv(cfg, ws, j);
    RunSeqs(cfg, ws, j);
    QueryOrdered(ws[j].db, name, s);
  }

  // ----- pagination through changing lists

  /** Every request of the client is answered by the ids of the rows listed then. */
  ghost predicate ById(server: Server, listed: Option<seq<Part>>, size: nat) {
    && (listed.Some? ==> Ordered(listed.value))
    && forall token :: Lists(server(token), listed, size, token)
  }

  lemma AnswersById(server: Server, listed: Option<seq<Part>>, size: nat, token: string)
    requires ById(server, listed, size) && size > 0
    ensures server(token).NotFound? <==> listed.None?
    ensures listed.Some? ==> IsPage(server(token).rows, listed.value, LastId(token), size)
    ensures listed.Some? && server(token).rows != [] ==>
              var rows := server(token).rows; LastId(server(token).nextToken) == rows[|rows| - 1].id
  {
    assert Lists(server(token), listed, size, token);
  }

  lemma JoinAscending(a: seq<Part>, b: seq<Part>, lastId: int)
    requires Ascending(a, lastId) && a != [] && Ascending(b, a[|a| - 1].id)
    ensures Ascending(a + b, lastId)
  {
  }

  /** Whatever the lists do between the requests, ids grow from row to row, over all pages. */
  lemma {:induction false} FollowAscends(servers: seq<Server>, lists: seq<Option<seq<Part>>>, size: nat, token: string)
    requires size > 0 && |lists| == |servers| && forall m :: 0 <= m < |servers| ==> ById(servers[m], lists[m], size)
    ensures Ascending(Concat(Follow(servers, token)), LastId(token))
    decreases |servers|
  {
    if servers != [] {
      AnswersById(servers[0], lists[0], size, token);
      var r := servers[0](token);
      if r.Listed? && r.rows != [] {
        FollowAscends(servers[1..], lists[1..], size, r.nextToken);
        JoinAscending(r.rows, Concat(Follow(servers[1..], r.nextToken)), LastId(token));
        ConcatOneMore(r.rows, Follow(servers[1..], r.nextToken));
      } else {
        assert Concat([[]]) == [];
      }
    }
  }

  lemma ConcatOneMore(page: seq<Part>, pages: seq<seq<Part>>)
    ensures Concat([page] + pages) == page + Concat(pages)
  {
    assert ([page] + pages)[1..] == pages;
  }

  /** The client has seen the empty page that ends a listing. */
  ghost predicate Finished(pages: seq<seq<Part>>) {
    pages != [] && pages[|pages| - 1] == []
  }

  /** A row that is listed at every request of a client that comes to the end is on one of its pages. */
  lemma {:induction false} FollowMissesNone(servers: seq<Server>, lists: seq<Option<seq<Part>>>, size: nat, token: string, p: Part)
    requires size > 0 && |lists| == |servers| && forall m :: 0 <= m < |servers| ==> ById(servers[m], lists[m], size)
    requires Finished(Follow(servers, token)) && p.id > LastId(token)
    requires forall m :: 0 <= m < |Follow(servers, token)| && m < |lists| ==> lists[m].Some? && p in lists[m].value
    ensures p in Concat(Follow(servers, token))
    decreases |servers|
  {
    assert servers != [] && lists[0].Some? && p in lists[0].value;
    AnswersById(servers[0], lists[0], size, token);
    var r := servers[0](token);
    var rest := Follow(servers[1..], r.nextToken);
    ConcatOneMore(r.rows, rest);
    if p !in r.rows {
      assert r.rows[|r.rows| - 1] in r.rows;
      RestIsFinished(r.rows, rest);
      FollowMissesNone(servers[1..], lists[1..], size, r.nextToken, p);
    }
  }

  lemma RestIsFinished(page: seq<Part>, rest: seq<seq<Part>>)
    requires page != [] && Finished([page] + rest)
    ensures Finished(rest)
  {
    assert rest != [] ==> ([page] + rest)[|rest|] == rest[|rest| - 1];
  }

  ghost function ListedAt(ws: seq<World>, at: seq<nat>, name: string, s: uint64): (lists: seq<Option<seq<Part>>>)
    requires forall m :: 0 <= m < |at| ==> at[m] < |ws|
    ensures |lists| == |at| && forall m :: 0 <= m < |at| ==> lists[m] == ReadRows(ws[at[m]].db.rel, name, s)
  {
    seq(|at|, m requires 0 <= m < |at| => ReadRows(ws[at[m]].db.rel, name, s))
  }

  lemma ListingById(cfg: Config, ws: seq<World>, j: nat, name: string, s: uint64, size: nat)
    requires IsRun(cfg, ws) && j < |ws| && size > 0
    ensures ById(Listing(ws[j].db.rel, name, s, size), ReadRows(ws[j].db.rel, name, s), size)
  {
    RunInv(cfg, ws, j);
    RunSeqs(cfg, ws, j);
    if Live(ws[j].db.rel, name).Some? {
      QueryOrdered(ws[j].db, name, ReadAt(ws[j].db.rel, name, s));
    }
    forall token
      ensures Lists(Listing(ws[j].db.rel, name, s, size)(token), ReadRows(ws[j].db.rel, name, s), size, token)
    {
      ListingMeans(ws[j].db, name, s, size, token);
    }
  }

  /**
    A client that pages at any snapshot id, 0 for the current one included, while any
    requests change the table between its own: the ids it collects strictly grow, so no
    row comes twice; and if it comes to the empty page, it has every row that was listed
    at each of its requests.
   */
  lemma PagingNeverRepeats(cfg: Config, ws: seq<World>, at: seq<nat>, name: string, s: uint64, size: nat)
    requires IsRun(cfg, ws) && size > 0 && forall m :: 0 <= m < |at| ==> at[m] < |ws|
    ensures var pages := Follow(ListingsAt(ws, at, name, s, size), "");
            && Ascending(Concat(pages), 0)
            && (Finished(pages) ==>
                  forall p: Part :: (forall m :: 0 <= m < |pages| && m < |at| ==>
                                       ReadRows(ws[at[m]].db.rel, name, s).Some? && p in ReadRows(ws[at[m]].db.rel, name, s).value)
                    ==> p in Concat(pages))
  {
    var servers, lists := ListingsAt(ws, at, name, s, size), ListedAt(ws, at, name, s);
    var pages := Follow(servers, "");
    forall m | 0 <= m < |servers|
      ensures ById(servers[m], lists[m], size)
    {
      ListingById(cfg, ws, at[m], name, s, size);
    }
    FollowAscends(servers, lists, size, "");
    if Finished(pages) {
      forall p: Part | forall m :: 0 <= m < |pages| && m < |at| ==>
                         ReadRows(ws[at[m]].db.rel, name, s).Some? && p in ReadRows(ws[at[m]].db.rel, name, s).value
        ensures p in Concat(pages)
      {
        assert servers != [] && ById(servers[0], lists[0], size);
        FollowMissesNone(servers, lists, size, "", p);
      }
    }
  }
}
