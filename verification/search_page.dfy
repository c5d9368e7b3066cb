/**
 * The realtime panel of the search page: the `realtimeProgress` state, the
 * first crawl a search starts (30 records), and the "show more" button that
 * asks the search endpoint for the next 300 records from `currentOffset` on
 * and appends them. What the endpoint answers is a parameter; the status
 * line is modelled by its template and arguments, not as rendered text.
 */
module SearchPage {
  import opened Js
  import opened Optional
  import opened Upstream
  import opened DetailFetch
  import opened Normalize
  import opened Crawl
  import opened SearchRoute

  /** `realtimeLimit` of the first crawl and `batchSize` of "show more". */
  const InitialLimit: nat := 30
  const BatchSize: nat := 300

  /** How a "show more" failure is described. */
  datatype Failure =
    | TimedOut               // '요청 시간 초과 (35초)'
    | HttpFailed(code: int)  // `HTTP <code>: 확장 실시간 크롤링 실패`
    | Reported(message: string)

  const UnknownError: string := "알 수 없는 오류"
  const NoResults: string := "실시간 크롤링 결과가 없습니다"

  /** The status line, by template. */
  datatype Status =
    | Blank
    | Searching                                   // 'CPHI 실시간 검색 중...'
    | Collected(count: nat)                       // `실시간 결과 <count>개 수집 완료`
    | CrawlFailed(error: string)                  // `실시간 크롤링 실패: <error>`
    | CrawlThrew                                  // '실시간 크롤링 실패'
    | LoadingMore(first: nat, last: nat)          // `... (<first>~<last>번째) - 최대 35초 소요`
    | Accumulated(total: nat, available: Option<nat>)  // `누적 <total>개 수집 완료 (총 <available or '알 수 없음'>개 중)`
    | MoreFailed(reason: Failure)                 // `확장 크롤링 실패: <reason>`

  /** `realtimeProgress`. `results` is the last realtime answer shown. */
  datatype Progress = Progress(
    isLoading: bool,
    status: Status,
    results: Option<CrawlResponse>,
    allResults: seq<Output>,
    currentOffset: nat,
    hasMoreAvailable: bool)

  /** What a thrown value is: an abort from the 35-second timer, an `Error`
      with its message, or something that is not an `Error`. */
  datatype Thrown = AbortError | ErrorWith(message: string) | NotAnError

  /** How a `POST /api/search` call ends as the page sees it: a JSON body
      carrying the realtime answer, a non-2xx status with the body's
      `message` ("" when absent or unparsable), or a throw. */
  datatype Reply =
    | Answer(realtime: CrawlResponse)
    | Rejected(code: int, message: string)
    | Raised(thrown: Thrown)

  predicate Succeeded(reply: Reply) {
    reply.Answer? && reply.realtime.Found?
  }

  /** The state before any search. */
  const Idle: Progress := Progress(false, Blank, None, [], 0, false)

  /** The reset `performRealtimeCrawling` starts with. */
  const Started: Progress := Progress(true, Searching, None, [], 0, false)

  // ---------------------------------------------------------------------------
  // The first crawl

  /** The state `performRealtimeCrawling` ends in. A successful answer
      replaces everything; any other answer empties the results. */
  function FinishCrawl(reply: Reply): (p: Progress)
    ensures !p.isLoading
    ensures p.results.Some? <==> Succeeded(reply)
    ensures Succeeded(reply) ==>
      && p.results == Some(reply.realtime)
      && p.allResults == reply.realtime.results
      && p.currentOffset == |reply.realtime.results|
      && (p.hasMoreAvailable <==> reply.realtime.hasMore && |reply.realtime.results| > 0)
      && p.status == Collected(reply.realtime.count)
    ensures !Succeeded(reply) ==> p.allResults == [] && p.currentOffset == 0 && !p.hasMoreAvailable
    ensures reply.Answer? && reply.realtime.Unavailable? ==>
      p.status == CrawlFailed(if reply.realtime.error != "" then reply.realtime.error else UnknownError)
    ensures !reply.Answer? ==> p.status == CrawlThrew
  {
    match reply
    case Answer(Found(results, count, _, hasMore)) =>
      Progress(false, Collected(count), Some(reply.realtime), results, |results|, hasMore && |results| > 0)
    case Answer(Unavailable(error)) =>
      Progress(false, CrawlFailed(OrElse(error, UnknownError)), None, [], 0, false)
    case _ =>
      Progress(false, CrawlThrew, None, [], 0, false)
  }

  // ---------------------------------------------------------------------------
  // "Show more"

  /** `handleShowMoreRealtime` up to the request: nothing happens for a
      search term shorter than two UTF-16 code units; otherwise only the loading
      flag and the status line change. */
  function BeginShowMore(term: string, p: Progress): (q: Progress)
    ensures Utf16Length(term) < 2 ==> q == p
    ensures Utf16Length(term) >= 2 ==>
      && q.isLoading
      && q.status == LoadingMore(p.currentOffset + 1, p.currentOffset + BatchSize)
      && q.results == p.results && q.allResults == p.allResults
      && q.currentOffset == p.currentOffset && q.hasMoreAvailable == p.hasMoreAvailable
  {
    if Utf16Length(term) < 2 then p
    else p.(isLoading := true, status := LoadingMore(p.currentOffset + 1, p.currentOffset + BatchSize))
  }

  /** The message of a failed "show more". */
  function MoreFailure(reply: Reply): (f: Failure)
    requires !Succeeded(reply)
    ensures reply.Rejected? && reply.message != "" ==> f == Reported(reply.message)
    ensures reply.Rejected? && reply.message == "" ==> f == HttpFailed(reply.code)
    ensures f == TimedOut <==> reply == Raised(AbortError)
    ensures reply.Answer? ==> f == Reported(if reply.realtime.error != "" then reply.realtime.error else NoResults)
    ensures reply == Raised(NotAnError) ==> f == Reported(UnknownError)
  {
    match reply
    case Rejected(code, message) => if message != "" then Reported(message) else HttpFailed(code)
    case Answer(realtime) => Reported(OrElse(realtime.error, NoResults))
    case Raised(AbortError) => TimedOut
    case Raised(ErrorWith(message)) => Reported(message)
    case Raised(NotAnError) => Reported(UnknownError)
  }

  /** The state once the request of a "show more" started at offset
      `offset` has ended. `prior` is the number of results the page held
      when the button was pressed. */
  function FinishShowMore(p: Progress, offset: nat, prior: nat, reply: Reply): (q: Progress)
    ensures !q.isLoading
    ensures Succeeded(reply) ==>
      && q.allResults == p.allResults + reply.realtime.results
      && q.currentOffset == offset + |reply.realtime.results|
      && (q.hasMoreAvailable <==> |reply.realtime.results| == BatchSize && reply.realtime.hasMore)
      && q.results == Some(reply.realtime)
      && q.status == Accumulated(prior + |reply.realtime.results|,
                                 if reply.realtime.totalAvailable == 0 then None else Some(reply.realtime.totalAvailable))
    ensures !Succeeded(reply) ==> q == p.(isLoading := false, status := MoreFailed(MoreFailure(reply)))
  {
    if Succeeded(reply) then
      var batch := reply.realtime.results;
      var total := reply.realtime.totalAvailable;
      p.(isLoading := false,
         status := Accumulated(prior + |batch|, if total == 0 then None else Some(total)),
         results := Some(reply.realtime),
         allResults := p.allResults + batch,
         currentOffset := offset + |batch|,
         hasMoreAvailable := |batch| == BatchSize && reply.realtime.hasMore)
    else
      p.(isLoading := false, status := MoreFailed(MoreFailure(reply)))
  }

  /** A whole "show more" from state `p`: the offset and the result count
      are read when the button is pressed, and nothing else updates the
      state while the request runs. */
  function ShowMore(term: string, p: Progress, reply: Reply): (q: Progress)
    ensures Utf16Length(term) < 2 ==> q == p
    ensures Utf16Length(term) >= 2 && Succeeded(reply) ==>
      && !q.isLoading
      && q.allResults == p.allResults + reply.realtime.results
      && q.currentOffset == p.currentOffset + |reply.realtime.results|
      && (q.hasMoreAvailable <==> |reply.realtime.results| == BatchSize && reply.realtime.hasMore)
    ensures Utf16Length(term) >= 2 && !Succeeded(reply) ==>
      && !q.isLoading && q.status.MoreFailed?
      && q.results == p.results && q.allResults == p.allResults
      && q.currentOffset == p.currentOffset && q.hasMoreAvailable == p.hasMoreAvailable
  {
    if Utf16Length(term) < 2 then p
    else FinishShowMore(BeginShowMore(term, p), p.currentOffset, |p.allResults|, reply)
  }

  /** Whether the "show more" button is shown and enabled. */
  predicate Offered(p: Progress) {
    && p.results.Some? && p.results.value.Found?
    && |p.allResults| > 0 && p.hasMoreAvailable && !p.isLoading
  }

  // ---------------------------------------------------------------------------
  // Properties

  /** `currentOffset` counts the accumulated results: the first crawl
      establishes it and every "show more" keeps it. */
  lemma {:induction false} OffsetCountsResults(term: string, p: Progress, reply: Reply)
    ensures FinishCrawl(reply).currentOffset == |FinishCrawl(reply).allResults|
    ensures p.currentOffset == |p.allResults| ==> ShowMore(term, p, reply).currentOffset == |ShowMore(term, p, reply).allResults|
  {
  }

  /** The page is in step with the kind-filtered hits of the search, whose
      URLs in order are `urls`: it holds one record per hit for a prefix of
      them, its offset is where that prefix ends, and the button is offered
      exactly while hits remain. */
  ghost predicate InStep(p: Progress, urls: seq<string>) {
    && !p.isLoading && p.results.Some? && p.results.value.Found?
    && p.currentOffset == |p.allResults| <= |urls|
    && (p.hasMoreAvailable <==> p.currentOffset < |urls|)
    && (p.hasMoreAvailable ==> |p.allResults| > 0)
    && forall j :: 0 <= j < |p.allResults| ==> p.allResults[j].url == urls[j]
  }

  /** In step, the button is offered exactly while the filtered hits go on
      past what the page holds. */
  lemma {:induction false} OfferedWhileHitsRemain(p: Progress, urls: seq<string>)
    requires InStep(p, urls)
    ensures Offered(p) <==> |p.allResults| < |urls|
  {
  }

  /** The first crawl asks the endpoint for 30 records from offset 0; an
      answer that continues the filtered hits from there (as the extended
      crawl's always does) puts the page in step with them. */
  lemma {:induction false} FirstCrawlInStep(resp: CrawlResponse, urls: seq<string>)
    requires Continues(resp, InitialLimit, 0, urls)
    ensures InStep(FinishCrawl(Answer(resp)), urls)
  {
    assert FinishCrawl(Answer(resp)).allResults == resp.results;
  }

  /** A "show more" asks for 300 records from `currentOffset`; an answer
      that continues the filtered hits from there keeps the page in step:
      the new records extend the prefix with no gap and no repeat, and the
      button stays exactly while hits remain. */
  lemma {:induction false} ShowMoreInStep(term: string, p: Progress, resp: CrawlResponse, urls: seq<string>)
    requires InStep(p, urls) && Continues(resp, BatchSize, p.currentOffset, urls)
    ensures InStep(ShowMore(term, p, Answer(resp)), urls)
  {
    if Utf16Length(term) >= 2 {
      var offset := p.currentOffset;
      var q := ShowMore(term, p, Answer(resp));
      assert q.allResults == p.allResults + resp.results;
      forall j | 0 <= j < |q.allResults|
        ensures q.allResults[j].url == urls[j]
      {
        if j >= offset {
          assert q.allResults[j] == resp.results[j - offset];
        }
      }
    }
  }

  /** Against the search route, as long as the search endpoint keeps
      returning the same hits: the first crawl asks for 30 records and
      leaves the offset at its default, and puts the page in step with the
      kind-filtered hits. */
  lemma {:induction false} FirstCrawlAgainstRoute(results: seq<RawItem>, detail: nat -> Tries)
    ensures var filtered := FilterKinds(results);
      InStep(FinishCrawl(Answer(Respond(RequestMode(Some(InitialLimit), None), filtered, detail))), HitUrls(filtered))
  {
    var filtered := FilterKinds(results);
    RealtimeOnlyContinues(InitialLimit, 0, results, detail);
    assert RequestMode(Some(InitialLimit), None) == RequestMode(Some(InitialLimit), Some(0));
    FirstCrawlInStep(Respond(RequestMode(Some(InitialLimit), None), filtered, detail), HitUrls(filtered));
  }

  /** ... and every "show more" keeps it in step: pressing the button until
      it disappears collects every filtered hit once, in order. */
  lemma {:induction false} ShowMoreAgainstRoute(term: string, p: Progress, results: seq<RawItem>, detail: nat -> Tries)
    requires InStep(p, HitUrls(FilterKinds(results)))
    ensures var filtered := FilterKinds(results);
      InStep(ShowMore(term, p, Answer(Respond(RequestMode(Some(BatchSize), Some(p.currentOffset)), filtered, detail))), HitUrls(filtered))
  {
    var filtered := FilterKinds(results);
    RealtimeOnlyContinues(BatchSize, p.currentOffset, results, detail);
    ShowMoreInStep(term, p, Respond(RequestMode(Some(BatchSize), Some(p.currentOffset)), filtered, detail), HitUrls(filtered));
  }

  /** A failed "show more" keeps the page in step: only the loading flag
      and the status line change. */
  lemma {:induction false} FailedShowMoreInStep(term: string, p: Progress, urls: seq<string>, reply: Reply)
    requires InStep(p, urls) && !Succeeded(reply)
    ensures InStep(ShowMore(term, p, reply), urls)
  {
  }
}
