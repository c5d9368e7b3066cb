/**
 * `performRealtimeCrawling` (the basic mode used on the first page of a
 * combined search) and `performExtendedRealtimeCrawling` (the mode behind
 * `realtimeOnly` requests). Both try four header profiles against the
 * search endpoint until one answers with JSON, keep products and companies,
 * enrich some of the products through `collectDetailInfoParallel`, and
 * return a window of the filtered hits. The search endpoint is the oracle
 * `attempt` (`attempt(i)` is what profile `i` gets back) and the clock is
 * the oracle `elapsed` (`elapsed(i)` is the time spent when profile `i` is
 * about to be tried).
 */
module Crawl {
  import opened Js
  import opened Optional
  import opened Upstream
  import opened DetailFetch
  import opened Enrichment
  import opened Normalize

  /** Header profiles tried, the pause before every profile after the first,
      and the chunk size of the detail enrichment in both modes. */
  const HeaderProfiles: nat := 4
  const ProfileCooldownMs: nat := 1000
  const DetailConcurrency: nat := 3

  /** The two crawl functions: the basic one, and the extended one with the
      request's `realtimeLimit` and `realtimeOffset`. */
  datatype Mode = Basic | Extended(limit: int, offset: int)

  /** The time budget checked before each profile. */
  function MaxTimeout(mode: Mode): nat {
    if mode.Basic? then 10000 else 30000
  }

  // ---------------------------------------------------------------------------
  // Header-profile fallback

  /** Reference definition: the first profile at or after `from` that is
      still inside the time budget and answers with JSON; a profile found
      over the budget ends the search. */
  function FirstAnswer(attempt: nat -> SearchAttempt, elapsed: nat -> nat, maxTimeout: nat, from: nat): Option<nat>
    decreases HeaderProfiles - from
  {
    if from >= HeaderProfiles || elapsed(from) > maxTimeout then None
    else if attempt(from).Json? then Some(from)
    else FirstAnswer(attempt, elapsed, maxTimeout, from + 1)
  }

  /** Profile `i` is tried: it and every profile before it were inside the
      time budget. */
  predicate Reached(elapsed: nat -> nat, maxTimeout: nat, i: nat) {
    forall j :: 0 <= j <= i ==> elapsed(j) <= maxTimeout
  }

  /** The profile answering is the first profile that is reached and gets
      JSON back, and there is none exactly when no reached profile gets
      JSON back. */
  lemma {:induction false} FirstAnswerSpec(attempt: nat -> SearchAttempt, elapsed: nat -> nat, maxTimeout: nat, from: nat)
    requires from <= HeaderProfiles
    requires forall j :: 0 <= j < from ==> elapsed(j) <= maxTimeout && !attempt(j).Json?
    decreases HeaderProfiles - from
    ensures var r := FirstAnswer(attempt, elapsed, maxTimeout, from);
      && (r.Some? ==> && from <= r.value < HeaderProfiles && Reached(elapsed, maxTimeout, r.value)
                      && attempt(r.value).Json?
                      && forall j :: 0 <= j < r.value ==> !attempt(j).Json?)
      && (r.None? <==> forall i :: 0 <= i < HeaderProfiles && Reached(elapsed, maxTimeout, i) ==> !attempt(i).Json?)
  {
    if from < HeaderProfiles && elapsed(from) <= maxTimeout {
      if attempt(from).Json? {
        assert Reached(elapsed, maxTimeout, from);
      } else {
        FirstAnswerSpec(attempt, elapsed, maxTimeout, from + 1);
      }
    }
  }

  /** The `for (i = 0; i < headerOptions.length; i++)` loop: the time budget
      is checked before each profile, every profile but the first waits
      1000 ms, and the loop ends at the first JSON answer. A non-2xx status,
      a thrown fetch or an unparseable body moves on to the next profile. */
  method HeaderFallback(attempt: nat -> SearchAttempt, elapsed: nat -> nat, maxTimeout: nat)
    returns (answer: Option<nat>, tried: nat, cooldowns: nat)
    ensures answer == FirstAnswer(attempt, elapsed, maxTimeout, 0)
    ensures tried <= HeaderProfiles
    ensures answer.Some? ==> tried == answer.value + 1
    ensures forall i :: 0 <= i < tried ==> Reached(elapsed, maxTimeout, i)
    ensures answer.None? && tried < HeaderProfiles ==> elapsed(tried) > maxTimeout
    ensures cooldowns == (if tried == 0 then 0 else tried - 1)
  {
    answer, tried, cooldowns := None, 0, 0;
    var i: nat := 0;
    while i < HeaderProfiles
      invariant i <= HeaderProfiles && tried == i
      invariant FirstAnswer(attempt, elapsed, maxTimeout, 0) == FirstAnswer(attempt, elapsed, maxTimeout, i)
      invariant forall j :: 0 <= j < i ==> Reached(elapsed, maxTimeout, j)
      invariant cooldowns == (if i == 0 then 0 else i - 1)
    {
      if elapsed(i) > maxTimeout {
        break;
      }
      assert Reached(elapsed, maxTimeout, i) by {
        if i > 0 {
          assert Reached(elapsed, maxTimeout, i - 1);
        }
      }
      if i > 0 {
        cooldowns := cooldowns + 1;
      }
      tried := tried + 1;
      if attempt(i).Json? {
        answer := Some(i);
        return;
      }
      i := i + 1;
    }
  }

  // ---------------------------------------------------------------------------
  // Enrichment targets and the returned window

  /** The `slice` arguments the product list is cut with before enrichment:
      the first 20 products in basic mode,
      `slice(offset, offset + Math.min(50, limit))` in extended mode. */
  function TargetStart(mode: Mode): int {
    if mode.Basic? then 0 else mode.offset
  }

  function TargetEnd(mode: Mode, productCount: nat): int {
    if mode.Basic? then Min(20, productCount) else mode.offset + Min(50, mode.limit)
  }

  /** The `slice` arguments of the returned window: `slice(0, 30)` in basic
      mode, `slice(offset, offset + limit)` in extended mode. */
  function WindowStart(mode: Mode): int {
    if mode.Basic? then 0 else mode.offset
  }

  function WindowEnd(mode: Mode): int {
    if mode.Basic? then 30 else mode.offset + mode.limit
  }

  /** `hasMore`: more than 30 hits in basic mode, hits past
      `offset + limit` in extended mode. */
  function HasMore(mode: Mode, total: nat): bool {
    if mode.Basic? then total > 30 else mode.offset + mode.limit < total
  }

  /** Reference definition: the item at position `p` of the filtered list
      after enrichment. Products are enriched by their rank in the product
      list, so a product is enriched exactly when its rank lies in
      `[lo, hi)`, and it is the `(rank - lo)`-th enrichment candidate. The
      objects are shared, so the writes show in the filtered list. */
  function EnrichedItem(filtered: seq<RawItem>, lo: nat, hi: nat, detail: nat -> Tries, p: nat): RawItem
    requires p < |filtered|
  {
    var rank := ProductRank(filtered, p);
    if IsProduct(filtered[p]) && lo <= rank < hi then ItemOutcome(filtered[p], detail(rank - lo)).0
    else filtered[p]
  }

  /** The whole filtered list after enrichment. */
  function EnrichedList(filtered: seq<RawItem>, lo: nat, hi: nat, detail: nat -> Tries): (r: seq<RawItem>)
    ensures |r| == |filtered|
    ensures forall p {:trigger r[p]} :: 0 <= p < |filtered| ==> r[p] == EnrichedItem(filtered, lo, hi, detail, p)
  {
    seq(|filtered|, p requires 0 <= p < |filtered| => EnrichedItem(filtered, lo, hi, detail, p))
  }

  /** The filtered list with the candidates' updates written back: the
      product of rank `lo + k` is replaced by `updated[k]`. */
  function WrittenBack(filtered: seq<RawItem>, lo: nat, hi: nat, updated: seq<RawItem>): (r: seq<RawItem>)
    requires |updated| == hi - lo
    ensures |r| == |filtered|
    ensures forall p {:trigger r[p]} :: 0 <= p < |filtered| && !(IsProduct(filtered[p]) && lo <= ProductRank(filtered, p) < hi) ==> r[p] == filtered[p]
  {
    seq(|filtered|, p requires 0 <= p < |filtered| =>
      var rank := ProductRank(filtered, p);
      if IsProduct(filtered[p]) && lo <= rank < hi then updated[rank - lo] else filtered[p])
  }

  /** When `updated[k]` is the `k`-th candidate `Products(filtered)[lo + k]`
      enriched on its own, writing the updates back gives the reference
      enriched list. */
  lemma {:induction false} WriteBackIsEnrichment(filtered: seq<RawItem>, lo: nat, hi: nat, detail: nat -> Tries, updated: seq<RawItem>)
    requires lo <= hi <= |Products(filtered)| && |updated| == hi - lo
    requires forall k :: 0 <= k < |updated| ==> updated[k] == ItemOutcome(Products(filtered)[lo + k], detail(k)).0
    ensures WrittenBack(filtered, lo, hi, updated) == EnrichedList(filtered, lo, hi, detail)
  {
    forall p | 0 <= p < |filtered|
      ensures WrittenBack(filtered, lo, hi, updated)[p] == EnrichedList(filtered, lo, hi, detail)[p]
    {
      WriteBackAt(filtered, lo, hi, detail, updated, p);
    }
  }

  lemma {:induction false} WriteBackAt(filtered: seq<RawItem>, lo: nat, hi: nat, detail: nat -> Tries, updated: seq<RawItem>, p: nat)
    requires lo <= hi <= |Products(filtered)| && |updated| == hi - lo && p < |filtered|
    requires forall k :: 0 <= k < |updated| ==> updated[k] == ItemOutcome(Products(filtered)[lo + k], detail(k)).0
    ensures WrittenBack(filtered, lo, hi, updated)[p] == EnrichedItem(filtered, lo, hi, detail, p)
  {
    var rank := ProductRank(filtered, p);
    if IsProduct(filtered[p]) && lo <= rank < hi {
      WriteBackPicks(filtered, lo, hi, updated, p);
      assert updated[rank - lo] == ItemOutcome(Products(filtered)[lo + (rank - lo)], detail(rank - lo)).0;
    }
  }

  /** A candidate's position in the filtered list receives its update. */
  lemma {:induction false} WriteBackPicks(filtered: seq<RawItem>, lo: nat, hi: nat, updated: seq<RawItem>, p: nat)
    requires lo <= hi <= |Products(filtered)| && |updated| == hi - lo && p < |filtered|
    requires IsProduct(filtered[p]) && lo <= ProductRank(filtered, p) < hi
    ensures WrittenBack(filtered, lo, hi, updated)[p] == updated[ProductRank(filtered, p) - lo]
    ensures Products(filtered)[ProductRank(filtered, p)] == filtered[p]
  {
    ProductAtRank(filtered, p);
  }

  /** The candidates `Products(filtered)[lo..hi]` go through
      `collectDetailInfoParallel` with three requests per chunk; each
      candidate is updated in place. */
  method EnrichFiltered(filtered: seq<RawItem>, lo: nat, hi: nat, detail: nat -> Tries) returns (out: seq<RawItem>)
    requires lo <= hi <= |Products(filtered)|
    ensures out == EnrichedList(filtered, lo, hi, detail)
  {
    var targets := Products(filtered)[lo..hi];
    var updated := targets;
    if |targets| > 0 {
      var stagger, pauses;
      var stats;
      updated, stats, stagger, pauses := CollectDetailInfoParallel(targets, DetailConcurrency, detail);
      EnrichedCandidates(targets, detail, DetailConcurrency);
    }
    assert forall k :: 0 <= k < |updated| ==> updated[k] == ItemOutcome(Products(filtered)[lo + k], detail(k)).0;
    out := WriteBackAll(filtered, lo, hi, updated);
    WriteBackIsEnrichment(filtered, lo, hi, detail, updated);
  }

  /** The write-back loop: the objects in the candidate list are the ones in
      the filtered list, so updating a candidate updates its position there. */
  method WriteBackAll(filtered: seq<RawItem>, lo: nat, hi: nat, updated: seq<RawItem>) returns (out: seq<RawItem>)
    requires lo <= hi && |updated| == hi - lo
    ensures out == WrittenBack(filtered, lo, hi, updated)
  {
    var full := WrittenBack(filtered, lo, hi, updated);
    out := [];
    var p: nat := 0;
    var rank: nat := 0;
    while p < |filtered|
      invariant p <= |filtered| && rank == ProductRank(filtered, p) && |out| == p
      invariant out == full[..p]
    {
      var item := if IsProduct(filtered[p]) && lo <= rank < hi then updated[rank - lo] else filtered[p];
      assert full[..p + 1] == full[..p] + [item];
      out := out + [item];
      RankStep(filtered, p);
      if IsProduct(filtered[p]) {
        rank := rank + 1;
      }
      p := p + 1;
    }
    assert full[..p] == full;
  }

  /** What the crawl answers. The extended mode's failure answer also
      carries `totalAvailable: 0` and `hasMore: false`. */
  datatype CrawlResponse =
    | Found(results: seq<Output>, count: nat, totalAvailable: nat, hasMore: bool)
    | Unavailable(error: string)

  const Unreachable: string := "CPHI API 접근 불가"

  /** The candidate range of the product list, as `slice` computes it. */
  function TargetLo(mode: Mode, productCount: nat): nat {
    SliceIndex(productCount, TargetStart(mode))
  }

  function TargetHi(mode: Mode, productCount: nat): nat {
    SliceEnd(productCount, TargetStart(mode), TargetEnd(mode, productCount))
  }

  /** The records of the returned window of the enriched list, each
      numbered by its index in the window. */
  function Window(mode: Mode, enriched: seq<RawItem>): (r: seq<Output>)
    ensures var a := SliceIndex(|enriched|, WindowStart(mode));
      && |r| == SliceEnd(|enriched|, WindowStart(mode), WindowEnd(mode)) - a
      && forall k {:trigger r[k]} :: 0 <= k < |r| ==> r[k] == Present(enriched[a + k], k)
  {
    var a := SliceIndex(|enriched|, WindowStart(mode));
    var b := SliceEnd(|enriched|, WindowStart(mode), WindowEnd(mode));
    Numbered(enriched[a..b])
  }

  /** The records of `items`, each numbered by its position. */
  function Numbered(items: seq<RawItem>): (r: seq<Output>)
    ensures |r| == |items|
    ensures forall k {:trigger r[k]} :: 0 <= k < |r| ==> r[k] == Present(items[k], k)
  {
    seq(|items|, k requires 0 <= k < |items| => Present(items[k], k))
  }

  /** Reference definition of the answer built from the filtered hits. */
  function Respond(mode: Mode, filtered: seq<RawItem>, detail: nat -> Tries): CrawlResponse {
    var n := |Products(filtered)|;
    var records := Window(mode, EnrichedList(filtered, TargetLo(mode, n), TargetHi(mode, n), detail));
    Found(records, |records|, |filtered|, HasMore(mode, |filtered|))
  }

  /** One crawl: the profile fallback, then on a JSON answer the kind filter,
      the enrichment and the window; when no profile answers, the failure
      answer. */
  method RealtimeCrawl(mode: Mode, attempt: nat -> SearchAttempt, elapsed: nat -> nat, detail: nat -> Tries)
    returns (resp: CrawlResponse, cooldowns: nat)
    ensures var answer := FirstAnswer(attempt, elapsed, MaxTimeout(mode), 0);
      resp == (if answer.Some? then Respond(mode, FilterKinds(attempt(answer.value).results), detail)
               else Unavailable(Unreachable))
  {
    var answer, tried;
    answer, tried, cooldowns := HeaderFallback(attempt, elapsed, MaxTimeout(mode));
    if answer.None? {
      return Unavailable(Unreachable), cooldowns;
    }
    var filtered := FilterKinds(attempt(answer.value).results);
    var n := |Products(filtered)|;
    var enriched := EnrichFiltered(filtered, TargetLo(mode, n), TargetHi(mode, n), detail);
    var records := Window(mode, enriched);
    resp := Found(records, |records|, |filtered|, HasMore(mode, |filtered|));
  }

  // ---------------------------------------------------------------------------
  // Properties of the answer

  /** Extended mode with a non-negative limit and offset: the records are the
      filtered hits from `offset` on, at most `limit` of them, each enriched
      as the reference says and numbered from 0; `totalAvailable` counts all
      filtered hits, and `hasMore` holds exactly when hits remain past
      `offset + limit`. */
  lemma {:induction false} ExtendedAnswer(limit: int, offset: int, filtered: seq<RawItem>, detail: nat -> Tries)
    requires 0 <= limit && 0 <= offset
    ensures var r := Respond(Extended(limit, offset), filtered, detail);
      && r.count == |r.results| <= limit
      && r.count == (if offset >= |filtered| then 0 else Min(limit, |filtered| - offset))
      && r.totalAvailable == |filtered|
      && (r.hasMore <==> offset + limit < |filtered|)
  {
    var mode := Extended(limit, offset);
    var n := |Products(filtered)|;
    var e := EnrichedList(filtered, TargetLo(mode, n), TargetHi(mode, n), detail);
    var w := Window(mode, e);
    assert Respond(mode, filtered, detail) == Found(w, |w|, |filtered|, HasMore(mode, |filtered|));
    assert |w| == Min(offset + limit, |filtered|) - Min(offset, |filtered|);
  }

  /** Record `k` of an extended answer is the hit at position `offset + k`,
      enriched when it is a product whose rank lies in
      `[offset, offset + min(50, limit))`, and numbered `k`. */
  lemma {:induction false} ExtendedRecord(limit: int, offset: int, filtered: seq<RawItem>, detail: nat -> Tries, k: nat)
    requires 0 <= limit && 0 <= offset
    requires k < |Respond(Extended(limit, offset), filtered, detail).results|
    ensures offset + k < |filtered|
    ensures var n := |Products(filtered)|;
      Respond(Extended(limit, offset), filtered, detail).results[k]
        == Present(EnrichedItem(filtered, Min(offset, n), Min(offset + Min(50, limit), n), detail, offset + k), k)
  {
    var mode := Extended(limit, offset);
    var n := |Products(filtered)|;
    var lo, hi := Min(offset, n), Min(offset + Min(50, limit), n);
    assert TargetLo(mode, n) == lo && TargetHi(mode, n) == hi;
    var e := EnrichedList(filtered, lo, hi, detail);
    AnswerIsWindow(mode, filtered, detail);
    WindowRecord(mode, e, k);
    assert SliceIndex(|e|, WindowStart(mode)) == offset;
    assert e[offset + k] == EnrichedItem(filtered, lo, hi, detail, offset + k);
  }

  /** An answer is the window of the enriched list, counted, with the
      number of filtered hits and `hasMore`. */
  lemma {:induction false} AnswerIsWindow(mode: Mode, filtered: seq<RawItem>, detail: nat -> Tries)
    ensures var n := |Products(filtered)|;
      var w := Window(mode, EnrichedList(filtered, TargetLo(mode, n), TargetHi(mode, n), detail));
      Respond(mode, filtered, detail) == Found(w, |w|, |filtered|, HasMore(mode, |filtered|))
  {
  }

  /** Record `k` of a window is the item at `k` past the window's start. */
  lemma {:induction false} WindowRecord(mode: Mode, enriched: seq<RawItem>, k: nat)
    requires k < |Window(mode, enriched)|
    ensures SliceIndex(|enriched|, WindowStart(mode)) + k < |enriched|
    ensures Window(mode, enriched)[k] == Present(enriched[SliceIndex(|enriched|, WindowStart(mode)) + k], k)
  {
  }

  /** Basic mode: the first 30 filtered hits, with the first 20 products
      enriched, and `hasMore` exactly when there are more than 30 hits. */
  lemma {:induction false} BasicAnswer(filtered: seq<RawItem>, detail: nat -> Tries)
    ensures var r := Respond(Basic, filtered, detail);
      var n := |Products(filtered)|;
      && r.count == |r.results| == Min(30, |filtered|)
      && r.totalAvailable == |filtered|
      && (r.hasMore <==> |filtered| > 30)
      && forall k :: 0 <= k < r.count ==> r.results[k] == Present(EnrichedItem(filtered, 0, Min(20, n), detail, k), k)
  {
  }

  /** Enrichment never touches a hit before the extended window: the product
      at a position before `offset` has a rank below `offset`. */
  lemma {:induction false} NothingEnrichedBeforeWindow(limit: int, offset: int, filtered: seq<RawItem>, detail: nat -> Tries, p: nat)
    requires 0 <= offset && p < offset && p < |filtered|
    ensures var n := |Products(filtered)|;
      EnrichedItem(filtered, TargetLo(Extended(limit, offset), n), TargetHi(Extended(limit, offset), n), detail, p) == filtered[p]
  {
    RankAtMostPosition(filtered, p);
    if IsProduct(filtered[p]) {
      ProductAtRank(filtered, p);
    }
  }

  /** The enrichment range is cut from the product list while the window
      is cut from the filtered list, so with companies among the hits the two
      drift apart: with one company ahead of two products, a request for
      offset 1 and limit 1 returns the first product as the search endpoint
      gave it, while the one detail request goes to the second product,
      which is not returned. */
  lemma {:induction false} EnrichmentMissesWindow(c: RawItem, p0: RawItem, p1: RawItem, d: DetailFields, detail: nat -> Tries)
    requires c.kind == "company" && IsProduct(p0) && IsProduct(p1)
    requires p1.id.Some? && detail(0).first == Ok(Parsed(Some(d), d)) && d.supplier != ""
    ensures Respond(Extended(1, 1), [c, p0, p1], detail).results == [Present(p0, 0)]
    ensures EnrichedList([c, p0, p1], 1, 2, detail)[2].company == d.supplier
  {
    var filtered := [c, p0, p1];
    CompanyThenTwoProducts(c, p0, p1);
    var mode := Extended(1, 1);
    assert TargetLo(mode, 2) == 1 && TargetHi(mode, 2) == 2;
    var e := EnrichedList(filtered, 1, 2, detail);
    assert e[1] == p0;
    assert e[2] == ApplyDetail(p1, d);
    ApplyDetailSpec(p1, d);
    var w := Window(mode, e);
    assert |w| == 1 && w[0] == Present(e[1], 0);
    assert Respond(mode, filtered, detail).results == w;
  }

  lemma {:induction false} CompanyThenTwoProducts(c: RawItem, p0: RawItem, p1: RawItem)
    requires c.kind == "company" && IsProduct(p0) && IsProduct(p1)
    ensures Products([c, p0, p1]) == [p0, p1]
    ensures ProductRank([c, p0, p1], 1) == 0 && ProductRank([c, p0, p1], 2) == 1
  {
    var filtered := [c, p0, p1];
    assert filtered[..1] == [c] && filtered[..2] == [c, p0];
    assert Products([c]) == [] by {
      assert [c][..0] == [];
    }
    assert Products([c, p0]) == [p0] by {
      assert [c, p0][..1] == [c];
    }
    assert filtered[..2] == [c, p0];
  }

  /** The URL of every filtered hit, in order. */
  function HitUrls(filtered: seq<RawItem>): (u: seq<string>)
    ensures |u| == |filtered|
    ensures forall i :: 0 <= i < |filtered| ==> u[i] == DeriveUrl(filtered[i])
  {
    seq(|filtered|, i requires 0 <= i < |filtered| => DeriveUrl(filtered[i]))
  }

  /** What an answer promises a client that asked for `limit` records from
      `offset`, given the URLs `urls` of all filtered hits: it succeeded,
      it holds the hits from `offset` on, one record per hit (at most
      `limit`), `totalAvailable` counts all hits and `hasMore` says whether
      hits remain past the window. */
  predicate Continues(resp: CrawlResponse, limit: nat, offset: nat, urls: seq<string>) {
    && resp.Found?
    && resp.count == |resp.results| == (if offset >= |urls| then 0 else Min(limit, |urls| - offset))
    && resp.totalAvailable == |urls|
    && (resp.hasMore <==> offset + limit < |urls|)
    && forall k :: 0 <= k < |resp.results| ==> resp.results[k].url == urls[offset + k]
  }

  /** The extended crawl keeps that promise for every limit and offset. */
  lemma {:induction false} ExtendedContinues(limit: nat, offset: nat, filtered: seq<RawItem>, detail: nat -> Tries)
    ensures Continues(Respond(Extended(limit, offset), filtered, detail), limit, offset, HitUrls(filtered))
  {
    var mode := Extended(limit, offset);
    var n := |Products(filtered)|;
    var e := EnrichedList(filtered, TargetLo(mode, n), TargetHi(mode, n), detail);
    AnswerIsWindow(mode, filtered, detail);
    EnrichedUrls(filtered, TargetLo(mode, n), TargetHi(mode, n), detail);
    WindowContinues(limit, offset, e, HitUrls(filtered));
  }

  /** The extended window of any list, answered with its length and
      `hasMore`, keeps the promise for the list's URLs. */
  lemma {:induction false} WindowContinues(limit: nat, offset: nat, enriched: seq<RawItem>, urls: seq<string>)
    requires |enriched| == |urls|
    requires forall p :: 0 <= p < |enriched| ==> DeriveUrl(enriched[p]) == urls[p]
    ensures var w := Window(Extended(limit, offset), enriched);
      Continues(Found(w, |w|, |urls|, offset + limit < |urls|), limit, offset, urls)
  {
    var mode := Extended(limit, offset);
    var w := Window(mode, enriched);
    forall k | 0 <= k < |w|
      ensures offset + k < |urls| && w[k].url == urls[offset + k]
    {
      WindowRecord(mode, enriched, k);
    }
  }

  /** Enrichment keeps every URL: position `p` of the enriched list has the
      URL of hit `p`. */
  lemma {:induction false} EnrichedUrls(filtered: seq<RawItem>, lo: nat, hi: nat, detail: nat -> Tries)
    ensures forall p :: 0 <= p < |filtered| ==> DeriveUrl(EnrichedList(filtered, lo, hi, detail)[p]) == HitUrls(filtered)[p]
  {
    forall p | 0 <= p < |filtered|
      ensures DeriveUrl(EnrichedList(filtered, lo, hi, detail)[p]) == HitUrls(filtered)[p]
    {
      EnrichedUrl(filtered, lo, hi, detail, p);
    }
  }

  /** Enrichment keeps every item's URL. */
  lemma {:induction false} EnrichedUrl(filtered: seq<RawItem>, lo: nat, hi: nat, detail: nat -> Tries, p: nat)
    requires p < |filtered|
    ensures DeriveUrl(EnrichedItem(filtered, lo, hi, detail, p)) == DeriveUrl(filtered[p])
  {
    var rank := ProductRank(filtered, p);
    if IsProduct(filtered[p]) && lo <= rank < hi {
      assert EnrichedItem(filtered, lo, hi, detail, p) == ItemOutcome(filtered[p], detail(rank - lo)).0;
      ItemOutcomeUrl(filtered[p], detail(rank - lo));
    } else {
      assert EnrichedItem(filtered, lo, hi, detail, p) == filtered[p];
    }
  }

  /** An enriched item's URL is the URL of the item as it was. */
  lemma {:induction false} ItemOutcomeUrl(item: RawItem, attempt: Tries)
    ensures DeriveUrl(ItemOutcome(item, attempt).0) == DeriveUrl(item)
  {
    if item.id.Some? && Received(attempt).Some? {
      UrlUnchangedByEnrichment(item, Received(attempt).value);
    }
  }
}
