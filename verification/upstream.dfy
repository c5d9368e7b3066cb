/** The optional value the source expresses with `null`/`undefined`. */
module Optional {
  datatype Option<T> = None | Some(value: T)
}

/**
 * The shapes the marketplace's two undocumented JSON endpoints return, and
 * what one network attempt against them can end in. Every string field that
 * the upstream may omit is "" when absent, which is also how JavaScript's
 * `||` treats it.
 */
module Upstream {
  import opened Js
  import opened Optional

  /** The marketplace host every relative link is resolved against. */
  const Host: string := "https://www.cphi-online.com"

  /** One hit of the search endpoint. `kind` is the JSON `type` field; the
      last five string fields are the ones detail enrichment writes. */
  datatype RawItem = RawItem(
    id: Option<nat>,
    name: string,
    kind: string,
    link: string,
    url: string,
    score: int,
    filterVal: string,
    supplier: string,
    company: string,
    country: string,
    companyTypes: string,
    verified: string,
    exactLink: string)

  predicate IsProduct(item: RawItem) {
    item.kind == "product"
  }

  /** The detail payload's `link`: a string ("" when absent), or another
      JSON value, which is truthy unless it is `0`, `false` or `null`. */
  datatype LinkValue = LinkText(text: string) | NotText(truthy: bool)

  /** The fields of the detail payload the enrichment reads. */
  datatype DetailFields = DetailFields(
    supplier: string,
    companyname: string,
    country: string,
    companyTypes: string,
    verified: string,
    link: LinkValue)

  /** A detail response body: unparseable, or a JSON object whose fields sit
      either under `result` or at the top level. */
  datatype DetailBody = Malformed | Parsed(result: Option<DetailFields>, top: DetailFields)

  /** One attempt at the detail endpoint: a 2xx response with its body, a
      non-2xx status, or a thrown error (network failure or the 6 s abort). */
  datatype DetailAttempt = Ok(body: DetailBody) | HttpError(status: int) | Threw(message: string)

  /** One attempt at the search endpoint: a 2xx response whose JSON parsed (a
      missing `results` array is the empty list), a non-2xx status, or a thrown
      error (network failure, the abort timer, a body that is not JSON, or a
      mapped hit whose `link`, `url` or `name` is a truthy non-string, which
      throws while the result is built, after the detail enrichment). */
  datatype SearchAttempt = Json(results: seq<RawItem>) | NotOk(status: int) | Failed(message: string)

  /** A link made absolute the way the source does it: kept when it starts
      with "http", otherwise prefixed with the host. */
  function Absolutize(link: string): (r: string)
    ensures StartsWith(r, "http")
    ensures r == link || r == Host + link
    ensures StartsWith(link, "http") ==> r == link
    ensures |link| <= |r| && r[|r| - |link|..] == link
  {
    if StartsWith(link, "http") then link
    else
      assert (Host + link)[..4] == "http";
      Host + link
  }
}
