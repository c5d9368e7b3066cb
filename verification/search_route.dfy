/**
 * `POST /api/search` for a `realtimeOnly` request, the only form the
 * realtime panel of the search page sends: the query-length check, the
 * defaults of `realtimeLimit` and `realtimeOffset`, and the extended crawl.
 * The database search behind the other request forms is not part of this
 * model.
 */
module SearchRoute {
  import opened Js
  import opened Optional
  import opened Upstream
  import opened DetailFetch
  import opened Normalize
  import opened Crawl

  const MinQueryLength: nat := 2

  /** The destructuring defaults of the request body. */
  const DefaultRealtimeLimit: int := 50
  const DefaultRealtimeOffset: int := 0

  /** What the handler answers: status 400 with only an `error` field, or
      status 200 whose `results.realtime` is the crawl's answer. */
  datatype Response = QueryTooShort | Realtime(realtime: CrawlResponse)

  /** The crawl mode a request body selects; an absent field takes its
      default. */
  function RequestMode(realtimeLimit: Option<int>, realtimeOffset: Option<int>): (m: Mode)
    ensures m.Extended?
    ensures m.limit == (if realtimeLimit.Some? then realtimeLimit.value else DefaultRealtimeLimit)
    ensures m.offset == (if realtimeOffset.Some? then realtimeOffset.value else DefaultRealtimeOffset)
  {
    Extended(if realtimeLimit.Some? then realtimeLimit.value else DefaultRealtimeLimit,
             if realtimeOffset.Some? then realtimeOffset.value else DefaultRealtimeOffset)
  }

  /** The handler: a query shorter than two UTF-16 code units (the empty
      query included) is refused before any crawl; otherwise the extended crawl
      runs with the request's limit and offset and its answer is returned
      whether it succeeded or not. */
  method RealtimeOnly(query: string, realtimeLimit: Option<int>, realtimeOffset: Option<int>,
                      attempt: nat -> SearchAttempt, elapsed: nat -> nat, detail: nat -> Tries)
    returns (resp: Response)
    ensures resp.QueryTooShort? <==> Utf16Length(query) < MinQueryLength
    ensures resp.Realtime? ==>
      var mode := RequestMode(realtimeLimit, realtimeOffset);
      var answer := FirstAnswer(attempt, elapsed, MaxTimeout(mode), 0);
      && (answer.Some? ==> resp.realtime == Respond(mode, FilterKinds(attempt(answer.value).results), detail))
      && (answer.None? ==> resp.realtime == Unavailable(Unreachable))
  {
    if Utf16Length(query) < MinQueryLength {
      return QueryTooShort;
    }
    var crawled, _ := RealtimeCrawl(RequestMode(realtimeLimit, realtimeOffset), attempt, elapsed, detail);
    resp := Realtime(crawled);
  }

  /** Whatever the search endpoint answers, the extended answer to a
      request with a non-negative limit and offset keeps the promise a
      paging client relies on, for the kind-filtered hits of that answer. */
  lemma {:induction false} RealtimeOnlyContinues(limit: nat, offset: nat, results: seq<RawItem>, detail: nat -> Tries)
    ensures var filtered := FilterKinds(results);
      Continues(Respond(RequestMode(Some(limit), Some(offset)), filtered, detail), limit, offset, HitUrls(filtered))
  {
    ExtendedContinues(limit, offset, FilterKinds(results), detail);
  }

  /** One character above U+FFFF is two code units long, so such a query
      passes the length check and is crawled. */
  lemma AstralQueryCrawled()
    ensures Utf16Length("\U{1F600}") == MinQueryLength
  {
    assert "\U{1F600}"[..0] == [];
  }
}
