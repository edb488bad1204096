/** QueryTickets: select the cached tickets a pool admits and stream them in pages. */
module QueryService {
  import opened Domain
  import opened PoolFilter
  import opened TicketAssignment
  import opened ChannelBuffer

  datatype Status = Ok | BadRequest | CacheFailed | SendFailed

  const MIN_PAGE_SIZE := 10
  const DEFAULT_PAGE_SIZE := 1000
  const MAX_PAGE_SIZE := 10000

  function Distance(a: int, b: int): nat {
    if a < b then b - a else a - b
  }

  /** The allowed page size nearest to the configured one, and 1000 when none is configured. */
  function PageSize(configured: Option<int>): (n: nat)
    ensures MIN_PAGE_SIZE <= n <= MAX_PAGE_SIZE
    ensures configured.None? ==> n == DEFAULT_PAGE_SIZE
    ensures configured.Some? ==>
              forall m: nat :: MIN_PAGE_SIZE <= m <= MAX_PAGE_SIZE && m != n ==>
                Distance(n, configured.value) < Distance(m, configured.value)
  {
    if configured.None? then DEFAULT_PAGE_SIZE
    else
      var n := if configured.value < MIN_PAGE_SIZE then MIN_PAGE_SIZE else configured.value;
      if n > MAX_PAGE_SIZE then MAX_PAGE_SIZE else n
  }

  /** What a filter reads of a ticket. */
  function EntityOf(t: Ticket): (e: Entity)
    ensures e.fields == t.fields && e.createTime == t.createTime
  {
    Entity(t.fields, t.createTime)
  }

  /** No page is empty or too long, and every page but the last is full. */
  ghost predicate FullButLast<X>(pages: seq<seq<X>>, n: nat) {
    && (forall i :: 0 <= i < |pages| ==> 0 < |pages[i]| <= n)
    && (forall i :: 0 <= i < |pages| - 1 ==> |pages[i]| == n)
  }

  lemma FlattenAppend<X>(pages: seq<seq<X>>, page: seq<X>)
    ensures Flatten(pages + [page]) == Flatten(pages) + page
  {
    assert (pages + [page])[..|pages|] == pages;
  }

  /** sendOk tells which page the stream still takes. */
  method SendPages<X>(results: seq<X>, pSize: nat, sendOk: nat -> bool) returns (ok: bool, pages: seq<seq<X>>)
    requires pSize > 0
    ensures Flatten(pages) <= results && FullButLast(pages, pSize) && forall k :: 0 <= k < |pages| ==> sendOk(k)
    ensures ok ==> Flatten(pages) == results
    ensures !ok ==> !sendOk(|pages|) && Flatten(pages) != results
  {
    pages := [];
    var start := 0;
    ghost var sent := 0;
    while start < |results|
      invariant sent <= |results| && sent <= start
      invariant (start < |results| ==> sent == start) && (start >= |results| ==> sent == |results|)
      invariant Flatten(pages) == results[..sent]
      invariant FullButLast(pages, pSize)
      invariant start <= |results| ==> forall i :: 0 <= i < |pages| ==> |pages[i]| == pSize
      invariant forall k :: 0 <= k < |pages| ==> sendOk(k)
    {
      var end := start + pSize;
      if end > |results| {
        end := |results|;
      }
      if !sendOk(|pages|) {
        return false, pages;
      }
      OnePageMore(pages, results, start, end);
      pages := pages + [results[start..end]];
      start, sent := start + pSize, end;
    }
    return true, pages;
  }

  lemma OnePageMore<X>(pages: seq<seq<X>>, results: seq<X>, start: nat, end: nat)
    requires start <= end <= |results| && Flatten(pages) == results[..start]
    ensures Flatten(pages + [results[start..end]]) == results[..end]
  {
    FlattenAppend(pages, results[start..end]);
    assert results[..end] == results[..start] + results[start..end];
  }

  /** The tickets behind the ids, in that order. */
  ghost function Values(ids: seq<TicketId>, tickets: Tickets): seq<Ticket>
    requires forall id :: id in ids ==> id in tickets
  {
    seq(|ids|, i requires 0 <= i < |ids| => assert ids[i] in ids; tickets[ids[i]])
  }

  /** The loop over the cache, in whatever order the map yields its entries. */
  method Select(tickets: Tickets, pf: PoolFilter) returns (results: seq<Ticket>, ghost ids: seq<TicketId>)
    ensures Distinct(ids) && forall id :: id in ids <==> id in tickets && In(pf, EntityOf(tickets[id]))
    ensures results == Values(ids, tickets)
  {
    results, ids := [], [];
    var todo := tickets.Keys;
    while todo != {}
      invariant todo <= tickets.Keys
      invariant Distinct(ids)
      invariant forall id :: id in ids <==> id in tickets && id !in todo && In(pf, EntityOf(tickets[id]))
      invariant results == Values(ids, tickets)
      decreases |todo|
    {
      var id :| id in todo;
      todo := todo - {id};
      if In(pf, EntityOf(tickets[id])) {
        DistinctAppend(ids, id);
        results, ids := results + [tickets[id]], ids + [id];
      }
    }
  }

  /**
   * cache: the tickets the request sees, None when the cache request failed. On success the
   * pages hold each cached ticket of the pool exactly once; if a send fails, the pages sent so
   * far are a beginning of that.
   */
  method QueryTickets(pool: Option<Pool>, cache: Option<Tickets>, configured: Option<int>, sendOk: nat -> bool)
    returns (status: Status, pages: seq<seq<Ticket>>, ghost ids: seq<TicketId>)
    ensures status == BadRequest <==> pool.None? || NewPoolFilter(pool.value).None?
    ensures status == CacheFailed <==> status != BadRequest && cache.None?
    ensures status == BadRequest || status == CacheFailed ==> pages == []
    ensures FullButLast(pages, PageSize(configured))
    ensures status == Ok || status == SendFailed ==>
              && Distinct(ids)
              && (forall id :: id in ids <==> id in cache.value && Belongs(pool.value, EntityOf(cache.value[id])))
              && Flatten(pages) <= Values(ids, cache.value)
              && (status == Ok <==> Flatten(pages) == Values(ids, cache.value))
  {
    ids, pages := [], [];
    if pool.None? {
      status := BadRequest;
      return;
    }
    var pf := NewPoolFilter(pool.value);
    if pf.None? {
      status := BadRequest;
      return;
    }
    if cache.None? {
      status := CacheFailed;
      return;
    }
    var results;
    results, ids := Select(cache.value, pf.value);
    forall id | id in cache.value
      ensures In(pf.value, EntityOf(cache.value[id])) <==> Belongs(pool.value, EntityOf(cache.value[id]))
    {
      InMeans(pool.value, EntityOf(cache.value[id]));
    }
    var ok;
    ok, pages := SendPages(results, PageSize(configured), sendOk);
    status := if ok then Ok else SendFailed;
  }
}
