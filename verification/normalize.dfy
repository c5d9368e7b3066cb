/**
 * Turning raw search hits into the records the search API returns: the
 * kind filter, the detail-page URL derived for every hit, and the output
 * record built by the `.map((item, index) => ...)` callback that both crawl
 * modes share.
 */
module Normalize {
  import opened Js
  import opened Optional
  import opened Upstream
  import opened Slug
  import opened DetailFetch

  /** Only products and companies are kept from the search hits. */
  predicate Survives(item: RawItem) {
    item.kind == "product" || item.kind == "company"
  }

  /** `results.filter(item => item.type === 'product' || item.type === 'company')` */
  function FilterKinds(results: seq<RawItem>): (r: seq<RawItem>)
    ensures |r| <= |results|
    ensures forall i :: 0 <= i < |r| ==> Survives(r[i])
  {
    Filter(results, Survives)
  }

  /** A hit survives the kind filter exactly when it is a product or a
      company. */
  lemma FilterKindsMembers(results: seq<RawItem>, x: RawItem)
    ensures x in FilterKinds(results) <==> x in results && (x.kind == "product" || x.kind == "company")
  {
    FilterMembers(results, Survives, x);
  }

  /** `filteredResults.filter(r => r.type === 'product')` */
  function Products(filtered: seq<RawItem>): (r: seq<RawItem>)
    ensures |r| <= |filtered|
    ensures forall i :: 0 <= i < |r| ==> IsProduct(r[i])
  {
    Filter(filtered, IsProduct)
  }

  /** The number of products before position `p`: the index of
      `filtered[p]` in `Products(filtered)` when it is a product. */
  function ProductRank(filtered: seq<RawItem>, p: nat): nat
    requires p <= |filtered|
  {
    |Products(filtered[..p])|
  }

  /** The product at position `p` of the filtered list is the one at its
      rank in the product list, and a product's rank is never more than its
      position. */
  lemma {:induction false} ProductAtRank(filtered: seq<RawItem>, p: nat)
    requires p < |filtered| && IsProduct(filtered[p])
    ensures ProductRank(filtered, p) < |Products(filtered)|
    ensures Products(filtered)[ProductRank(filtered, p)] == filtered[p]
  {
    var before := Filter(filtered[..p], IsProduct);
    var upto := Filter(filtered[..p + 1], IsProduct);
    var all := Filter(filtered, IsProduct);
    FilterPrefix(filtered, IsProduct, p + 1);
    FilterStep(filtered, IsProduct, p);
    assert upto == before + [filtered[p]];
    assert upto == all[..|upto|];
    assert all[|before|] == upto[|before|];
  }

  /** The rank after position `p` counts `filtered[p]` exactly when it is a
      product. */
  lemma {:induction false} RankStep(filtered: seq<RawItem>, p: nat)
    requires p < |filtered|
    ensures ProductRank(filtered, p + 1) == ProductRank(filtered, p) + (if IsProduct(filtered[p]) then 1 else 0)
  {
    FilterStep(filtered, IsProduct, p);
  }

  /** There are never more products before a position than items. */
  lemma {:induction false} RankAtMostPosition(filtered: seq<RawItem>, p: nat)
    requires p <= |filtered|
    ensures ProductRank(filtered, p) <= p
  {
    if p > 0 {
      RankAtMostPosition(filtered, p - 1);
      RankStep(filtered, p - 1);
    }
  }

  /** The fallback detail page of a product or company with a name but no
      link or url: `/product/<slug>/` or `/company/<slug>/`. */
  function SlugUrl(kind: string, name: string): (r: string)
    ensures StartsWith(r, "http")
  {
    var slug := Slugify(name);
    assert (Host + "/" + kind + "/" + slug + "/")[..4] == "http";
    Host + "/" + kind + "/" + slug + "/"
  }

  /** The URL the output record carries: the item's `link` made absolute,
      else its `url` made absolute, else the slug page when the item is a
      named product or company, else "". `exactLink` plays no part. */
  function DeriveUrl(item: RawItem): (r: string)
    ensures r == "" || StartsWith(r, "http")
    ensures item.link != "" ==> r == Absolutize(item.link)
    ensures item.link == "" && item.url != "" ==> r == Absolutize(item.url)
    ensures item.link == "" && item.url == "" && item.name != "" && Survives(item) ==> r == SlugUrl(item.kind, item.name)
    ensures r == "" <==> item.link == "" && item.url == "" && (item.name == "" || !Survives(item))
  {
    if item.link != "" then Absolutize(item.link)
    else if item.url != "" then Absolutize(item.url)
    else if item.kind == "product" && item.name != "" then
      SlugUrl("product", item.name)
    else if item.kind == "company" && item.name != "" then
      SlugUrl("company", item.name)
    else ""
  }

  /** The `exactLink` that enrichment writes is never read when the URL is
      built: two items that differ only there get the same URL. */
  lemma UrlIgnoresExactLink(item: RawItem, exactLink: string)
    ensures DeriveUrl(item.(exactLink := exactLink)) == DeriveUrl(item)
  {
  }

  /** Consequently enrichment never changes the URL of an item. */
  lemma UrlUnchangedByEnrichment(item: RawItem, d: DetailFields)
    ensures DeriveUrl(ApplyDetail(item, d)) == DeriveUrl(item)
  {
    ApplyDetailSpec(item, d);
    var r := ApplyDetail(item, d);
    assert r.link == item.link && r.url == item.url && r.name == item.name && r.kind == item.kind;
  }

  /** A name that already is a slug appears verbatim in the fallback URL. */
  lemma SlugNameKept(item: RawItem)
    requires item.link == "" && item.url == "" && IsProduct(item) && item.name != "" && IsSlug(item.name)
    ensures DeriveUrl(item) == Host + "/" + item.kind + "/" + item.name + "/"
  {
    SlugifyFixesSlugs(item.name);
    assert DeriveUrl(item) == SlugUrl(item.kind, item.name);
  }

  /** The source label of every realtime record. */
  const RealtimeSource: string := "CPHI Online (실시간)"

  /** One record of the realtime response. */
  datatype Output = Output(
    id: nat,
    title: string,
    kind: string,
    score: int,
    source: string,
    url: string,
    filterVal: string,
    company: string,
    country: string,
    companyTypes: string,
    verified: string,
    originalLink: string,
    originalUrl: string)

  /** `item.id || index`: a missing id and the id 0 both fall back to the
      record's index in the returned window. */
  function IdOrIndex(id: Option<nat>, index: nat): (r: nat)
    ensures id.Some? && id.value != 0 ==> r == id.value
    ensures id.None? || id.value == 0 ==> r == index
  {
    if id.Some? && id.value != 0 then id.value else index
  }

  /** The `.map((item, index) => ...)` callback. The company shown is the
      enriched `company`, else the search hit's `supplier`, else "". */
  function Present(item: RawItem, index: nat): (r: Output)
    ensures r.id == IdOrIndex(item.id, index)
    ensures r.title == item.name && r.filterVal == item.filterVal && r.score == item.score
    ensures r.source == RealtimeSource && r.url == DeriveUrl(item)
    ensures item.kind != "" ==> r.kind == item.kind
    ensures r.company != "" <==> item.company != "" || item.supplier != ""
    ensures item.company != "" ==> r.company == item.company
    ensures item.company == "" ==> r.company == item.supplier
    ensures r.verified != "" && (item.verified != "" ==> r.verified == item.verified)
    ensures r.country == item.country && r.companyTypes == item.companyTypes
    ensures r.originalLink == item.link && r.originalUrl == item.url
  {
    Output(
      id := IdOrIndex(item.id, index),
      title := OrElse(item.name, ""),
      kind := OrElse(item.kind, "product"),
      score := item.score,
      source := RealtimeSource,
      url := DeriveUrl(item),
      filterVal := OrElse(item.filterVal, ""),
      company := OrElse(OrElse(item.company, item.supplier), ""),
      country := OrElse(item.country, ""),
      companyTypes := OrElse(item.companyTypes, ""),
      verified := OrElse(item.verified, "false"),
      originalLink := OrElse(item.link, ""),
      originalUrl := OrElse(item.url, ""))
  }

  /** After a successful enrichment the record shows the detail payload's
      supplier or company name, and only when the payload names neither does
      the search hit's own `supplier` show through. */
  lemma EnrichedCompanyShown(item: RawItem, d: DetailFields, index: nat)
    ensures d.supplier != "" ==> Present(ApplyDetail(item, d), index).company == d.supplier
    ensures d.supplier == "" && d.companyname != "" ==> Present(ApplyDetail(item, d), index).company == d.companyname
    ensures d.supplier == "" && d.companyname == "" ==> Present(ApplyDetail(item, d), index).company == item.supplier
  {
    ApplyDetailSpec(item, d);
  }
}
