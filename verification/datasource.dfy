/**
 * The data source shown for a supplier row of the database search. The
 * supplier's own URL is tested first, for "cphi", "pharmacompass" and
 * "pharmaoffer" in that order; only when it names none of them is the
 * product's URL tested, in the different order "pharmaoffer", "cphi",
 * "pharmacompass". The product search and the supplier search compute the
 * same thing; in the supplier search the product may be missing, which
 * behaves like a product without a URL.
 */
module DataSource {
  import opened Js
  import opened Optional

  datatype Source = CphiOnline | PharmaCompass | PharmaOffer | Unknown

  /** The `data_source` string of each source. */
  function Name(s: Source): string {
    match s
    case CphiOnline => "CPHI Online"
    case PharmaCompass => "PharmaCompass"
    case PharmaOffer => "PharmaOffer"
    case Unknown => "Unknown"
  }

  /** `url?.includes(p)`: false for a missing URL. */
  predicate Mentions(url: Option<string>, p: string) {
    url.Some? && Includes(url.value, p)
  }

  /** `{ dataSource, sourceUrl }` */
  datatype Classified = Classified(source: Source, sourceUrl: string)

  /** `getDataSourceAndUrl(supplierUrl, productId)` and the identical
      inline chain of the product search. `productUrl` is `None` when the
      product is missing or has no URL. */
  function Classify(supplierUrl: Option<string>, productUrl: Option<string>): (c: Classified)
    ensures c.source == Unknown <==>
      && !Mentions(supplierUrl, "cphi") && !Mentions(supplierUrl, "pharmacompass") && !Mentions(supplierUrl, "pharmaoffer")
      && !Mentions(productUrl, "cphi") && !Mentions(productUrl, "pharmacompass") && !Mentions(productUrl, "pharmaoffer")
    ensures c.source == CphiOnline ==> Includes(c.sourceUrl, "cphi")
    ensures c.source == PharmaCompass ==> Includes(c.sourceUrl, "pharmacompass")
    ensures c.source == PharmaOffer ==> Includes(c.sourceUrl, "pharmaoffer")
    ensures c.source == Unknown ==> c.sourceUrl == (if supplierUrl.Some? then supplierUrl.value else "")
  {
    if Mentions(supplierUrl, "cphi") then Classified(CphiOnline, supplierUrl.value)
    else if Mentions(supplierUrl, "pharmacompass") then Classified(PharmaCompass, supplierUrl.value)
    else if Mentions(supplierUrl, "pharmaoffer") then Classified(PharmaOffer, supplierUrl.value)
    else if Mentions(productUrl, "pharmaoffer") then Classified(PharmaOffer, productUrl.value)
    else if Mentions(productUrl, "cphi") then Classified(CphiOnline, productUrl.value)
    else if Mentions(productUrl, "pharmacompass") then Classified(PharmaCompass, productUrl.value)
    else Classified(Unknown, if supplierUrl.Some? then supplierUrl.value else "")
  }

  /** The order in which each URL is tested. */
  const SupplierOrder: seq<(string, Source)> := [("cphi", CphiOnline), ("pharmacompass", PharmaCompass), ("pharmaoffer", PharmaOffer)]
  const ProductOrder: seq<(string, Source)> := [("pharmaoffer", PharmaOffer), ("cphi", CphiOnline), ("pharmacompass", PharmaCompass)]

  /** Reference definition: the index of the first pattern the URL
      mentions, or `|order|` when it mentions none. */
  function FirstMatch(url: Option<string>, order: seq<(string, Source)>): (r: nat)
    ensures r <= |order|
    ensures forall j :: 0 <= j < r ==> !Mentions(url, order[j].0)
    ensures r < |order| ==> Mentions(url, order[r].0)
  {
    if |order| == 0 then 0
    else if Mentions(url, order[0].0) then 0
    else 1 + FirstMatch(url, order[1..])
  }

  /** The chain is a first-match search over the two ordered pattern lists:
      the supplier URL's first match decides, else the product URL's first
      match, else the source is unknown and the supplier URL (or "") is
      kept. */
  lemma {:induction false} ClassifyIsFirstMatch(supplierUrl: Option<string>, productUrl: Option<string>)
    ensures var s := FirstMatch(supplierUrl, SupplierOrder);
      var p := FirstMatch(productUrl, ProductOrder);
      Classify(supplierUrl, productUrl) ==
        if s < |SupplierOrder| then Classified(SupplierOrder[s].1, supplierUrl.value)
        else if p < |ProductOrder| then Classified(ProductOrder[p].1, productUrl.value)
        else Classified(Unknown, if supplierUrl.Some? then supplierUrl.value else "")
  {
    var s := FirstMatch(supplierUrl, SupplierOrder);
    var p := FirstMatch(productUrl, ProductOrder);
    if s < 3 {
      assert s == 0 || s == 1 || s == 2;
    } else if p < 3 {
      assert p == 0 || p == 1 || p == 2;
    }
  }

  /** A supplier URL naming any of the three sites decides alone: the
      product URL is never consulted, and the source URL is the supplier's. */
  lemma {:induction false} SupplierUrlDecides(supplierUrl: Option<string>, productUrl: Option<string>, otherProductUrl: Option<string>)
    requires Mentions(supplierUrl, "cphi") || Mentions(supplierUrl, "pharmacompass") || Mentions(supplierUrl, "pharmaoffer")
    ensures Classify(supplierUrl, productUrl) == Classify(supplierUrl, otherProductUrl)
    ensures Classify(supplierUrl, productUrl).sourceUrl == supplierUrl.value
    ensures Classify(supplierUrl, productUrl).source != Unknown
  {
  }

  /** The two orders disagree: a URL that names both "cphi" and
      "pharmaoffer" is CPHI Online as a supplier URL but PharmaOffer as a
      product URL. */
  lemma {:induction false} OrdersDisagree(url: string)
    requires Includes(url, "cphi") && Includes(url, "pharmaoffer")
    ensures Classify(Some(url), None).source == CphiOnline
    ensures Classify(None, Some(url)).source == PharmaOffer
  {
  }

  /** The requirement of `OrdersDisagree` can be met: a URL naming both
      marketplaces exists, so the two orders really do label some supplier
      row differently. */
  lemma MixedUrl()
    ensures Includes("https://pharmaoffer.com/cphi", "cphi") && Includes("https://pharmaoffer.com/cphi", "pharmaoffer")
  {
    var u := "https://pharmaoffer.com/cphi";
    assert StartsWith(u[24..], "cphi");
    assert StartsWith(u[8..], "pharmaoffer");
  }
}
