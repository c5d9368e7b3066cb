/**
 * The per-item part of `collectDetailInfoParallel`: the sharded detail URL
 * built from an item id, the bounded retry loop against the detail
 * endpoint, and the copy of the detail payload into the item.
 */
module DetailFetch {
  import opened Js
  import opened Optional
  import opened Upstream

  // ---------------------------------------------------------------------------
  // Decimal rendering of ids (`id.toString()`) and its inverse

  predicate IsDigit(c: char) {
    '0' <= c <= '9'
  }

  predicate IsDigits(s: string) {
    forall i :: 0 <= i < |s| ==> IsDigit(s[i])
  }

  function DigitChar(d: nat): (c: char)
    requires d < 10
    ensures IsDigit(c)
  {
    ('0' as int + d) as char
  }

  function DigitValue(c: char): nat
    requires IsDigit(c)
  {
    c as int - '0' as int
  }

  /** `n.toString()` for a non-negative integer id. */
  function DecimalString(n: nat): (r: string)
    ensures |r| >= 1 && IsDigits(r)
  {
    if n < 10 then [DigitChar(n)] else DecimalString(n / 10) + [DigitChar(n % 10)]
  }

  /** The number a string of decimal digits denotes (leading zeros allowed). */
  function DecimalValue(s: string): nat
    requires IsDigits(s)
  {
    if |s| == 0 then 0 else DecimalValue(s[..|s| - 1]) * 10 + DigitValue(s[|s| - 1])
  }

  function Pow10(k: nat): (r: nat)
    ensures r >= 1
  {
    if k == 0 then 1 else 10 * Pow10(k - 1)
  }

  lemma {:induction false} DecimalRoundTrip(n: nat)
    ensures DecimalValue(DecimalString(n)) == n
  {
    if n >= 10 {
      DecimalRoundTrip(n / 10);
      var s := DecimalString(n);
      assert s[..|s| - 1] == DecimalString(n / 10);
    }
  }

  lemma {:induction false} DecimalLength(n: nat, k: nat)
    requires 1 <= k && n < Pow10(k)
    ensures |DecimalString(n)| <= k
  {
    if n >= 10 {
      DecimalLength(n / 10, k - 1);
    }
  }

  lemma {:induction false} LeadingZeroValue(s: string)
    requires IsDigits(s)
    ensures IsDigits("0" + s) && DecimalValue("0" + s) == DecimalValue(s)
  {
    if |s| > 0 {
      var t := "0" + s;
      assert t[..|t| - 1] == "0" + s[..|s| - 1];
      LeadingZeroValue(s[..|s| - 1]);
    }
  }

  lemma {:induction false} LeadingZerosValue(k: nat, s: string)
    requires IsDigits(s)
    ensures IsDigits(Repeat('0', k) + s)
    ensures DecimalValue(Repeat('0', k) + s) == DecimalValue(s)
  {
    if k > 0 {
      var z := Repeat('0', k - 1);
      assert Repeat('0', k) + s == "0" + (z + s);
      LeadingZerosValue(k - 1, s);
      LeadingZeroValue(z + s);
      calc {
        DecimalValue(Repeat('0', k) + s);
        DecimalValue("0" + (z + s));
        DecimalValue(z + s);
      }
    } else {
      assert Repeat('0', k) + s == s;
    }
  }

  // ---------------------------------------------------------------------------
  // Sharded detail path

  /** `id.toString().padStart(6, '0')` */
  function IdString(id: nat): string {
    PadStart(DecimalString(id), 6, '0')
  }

  /** The three directory segments of the detail resource. */
  datatype Shard = Shard(p1: string, p2: string, p3: string)

  /** `idStr.substring(0, 2)`, `(2, 4)` and `(4, 6)`. */
  function ShardOf(id: nat): Shard {
    var s := IdString(id);
    Shard(Substring(s, 0, 2), Substring(s, 2, 4), Substring(s, 4, 6))
  }

  const DetailSuffix: string := "_46.json?v=21"

  /** The detail resource fetched for an item with this id. */
  function DetailUrl(id: nat): string {
    var sh := ShardOf(id);
    Host + "/46/product/" + sh.p1 + "/" + sh.p2 + "/" + sh.p3 + "/search" + DecimalString(id) + DetailSuffix
  }

  /** Where the id's own digits start in the detail URL: after the host,
      the fixed path, three two-character segments and "/search". */
  const DetailIdStart: nat := |Host| + |"/46/product/"| + 8 + |"/search"|

  /** Every id is padded to at least six digits, so each segment is two
      characters long, short id or long. */
  lemma ShardWidths(id: nat)
    ensures |ShardOf(id).p1| == 2 && |ShardOf(id).p2| == 2 && |ShardOf(id).p3| == 2
  {
    assert |IdString(id)| >= 6;
  }

  /** The detail URL names the item: it is the sharded prefix of fixed
      length, then the id in decimal, then the suffix. */
  lemma DetailUrlNamesId(id: nat)
    ensures |DetailUrl(id)| == DetailIdStart + |DecimalString(id)| + |DetailSuffix|
    ensures DetailUrl(id)[DetailIdStart..|DetailUrl(id)| - |DetailSuffix|] == DecimalString(id)
  {
    ShardWidths(id);
    var sh := ShardOf(id);
    var prefix := Host + "/46/product/" + sh.p1 + "/" + sh.p2 + "/" + sh.p3 + "/search";
    assert |prefix| == DetailIdStart;
    assert DetailUrl(id) == prefix + DecimalString(id) + DetailSuffix;
  }

  /** Two candidates request the same detail resource only when they have
      the same id. */
  lemma DetailUrlInjective(a: nat, b: nat)
    ensures DetailUrl(a) == DetailUrl(b) <==> a == b
  {
    if DetailUrl(a) == DetailUrl(b) {
      DetailUrlNamesId(a);
      DetailUrlNamesId(b);
      DecimalRoundTrip(a);
      DecimalRoundTrip(b);
    }
  }

  /** For an id of at most six digits the three segments are two digits each,
      together they are the id left-padded with '0' to six characters, and
      read back as a number they give the id again. */
  lemma ShardRoundTrip(id: nat)
    requires id < 1000000
    ensures |ShardOf(id).p1| == 2 && |ShardOf(id).p2| == 2 && |ShardOf(id).p3| == 2
    ensures |IdString(id)| == 6
    ensures ShardOf(id).p1 + ShardOf(id).p2 + ShardOf(id).p3 == IdString(id)
    ensures IsDigits(IdString(id)) && DecimalValue(IdString(id)) == id
  {
    var d := DecimalString(id);
    DecimalLength(id, 6);
    var s := IdString(id);
    assert |s| == 6;
    assert s == s[0..2] + s[2..4] + s[4..6];
    LeadingZerosValue(6 - |d|, d);
    assert s == Repeat('0', 6 - |d|) + d;
    DecimalRoundTrip(id);
  }

  /** Ids of seven or more digits are not padded, and the segments are then
      their six leading digits: the code does not reject such ids. */
  lemma LongIdShard(id: nat)
    requires id >= 1000000
    ensures |DecimalString(id)| > 6
    ensures ShardOf(id).p1 + ShardOf(id).p2 + ShardOf(id).p3 == DecimalString(id)[..6]
  {
    var d := DecimalString(id);
    if |d| <= 6 {
      DecimalRoundTrip(id);
      DecimalValueBound(d);
      PowMonotone(|d|, 6);
      assert false;
    }
    assert d[..6] == d[0..2] + d[2..4] + d[4..6];
  }

  lemma {:induction false} DecimalValueBound(s: string)
    requires IsDigits(s)
    ensures DecimalValue(s) < Pow10(|s|)
  {
    if |s| > 0 {
      DecimalValueBound(s[..|s| - 1]);
    }
  }

  lemma {:induction false} PowMonotone(a: nat, b: nat)
    requires a <= b
    ensures Pow10(a) <= Pow10(b)
  {
    if a < b {
      PowMonotone(a, b - 1);
    }
  }

  // ---------------------------------------------------------------------------
  // Bounded retry

  /** Attempts per item, and the backoff slept after failed attempt `retry`. */
  const MaxTries: nat := 3

  function Backoff(retry: nat): nat {
    1000 * (retry + 1)
  }

  /** What the detail endpoint answers to the three attempts one item can
      make; attempts after the first 2xx response are never made, so their
      entries do not matter. */
  datatype Tries = Tries(first: DetailAttempt, second: DetailAttempt, third: DetailAttempt)

  function Attempt(t: Tries, retry: nat): DetailAttempt
    requires retry < MaxTries
  {
    if retry == 0 then t.first else if retry == 1 then t.second else t.third
  }

  /** Reference definition: the first attempt at or after `from`, among the
      first three, whose response is 2xx. */
  function FirstOk(attempt: Tries, from: nat): (r: Option<nat>)
    decreases MaxTries - from
  {
    if from >= MaxTries then None
    else if Attempt(attempt, from).Ok? then Some(from)
    else FirstOk(attempt, from + 1)
  }

  /** The `for (retry = 0; retry < 3; retry++)` loop: stops at the first 2xx
      response and sleeps `1000 * (retry + 1)` ms after a failed attempt only
      while `retry < 2`, so never after the last attempt. */
  method FetchDetail(attempt: Tries) returns (body: Option<DetailBody>, tries: nat, backoffs: seq<nat>)
    ensures 1 <= tries <= MaxTries
    ensures FirstOk(attempt, 0).Some? ==> tries == FirstOk(attempt, 0).value + 1 && body == Some(Attempt(attempt, tries - 1).body)
    ensures FirstOk(attempt, 0).None? ==> tries == MaxTries && body.None?
    ensures |backoffs| == tries - 1
    ensures forall i :: 0 <= i < |backoffs| ==> backoffs[i] == Backoff(i)
  {
    body := None;
    tries := 0;
    backoffs := [];
    var retry := 0;
    while retry < MaxTries
      invariant 0 <= retry <= MaxTries
      invariant tries == retry && body.None?
      invariant FirstOk(attempt, 0) == FirstOk(attempt, retry)
      invariant |backoffs| == (if retry < 2 then retry else 2)
      invariant forall i :: 0 <= i < |backoffs| ==> backoffs[i] == Backoff(i)
    {
      var a := Attempt(attempt, retry);
      tries := tries + 1;
      if a.Ok? {
        body := Some(a.body);
        break;
      }
      if retry < 2 {
        backoffs := backoffs + [Backoff(retry)];
      }
      retry := retry + 1;
    }
  }

  // ---------------------------------------------------------------------------
  // Copying the detail payload into the item

  /** `detailData.result || detailData`, or nothing when `json()` throws. */
  function DetailOf(body: DetailBody): Option<DetailFields> {
    match body
    case Malformed => None
    case Parsed(Some(d), _) => Some(d)
    case Parsed(None, top) => Some(top)
  }

  /** `if (detail.link)` then `detail.link.startsWith(...)`: a truthy link
      that is not a string has no `startsWith`, and the call throws. */
  predicate LinkThrows(d: DetailFields) {
    d.link == NotText(true)
  }

  /** The field copy on a 2xx response: `company` takes `supplier`, else
      `companyname`, else ""; `verified` defaults to "false"; a non-empty
      string link is made absolute into `exactLink`. The four field writes
      come first, so they stay in place even when the link throws. */
  function ApplyDetail(item: RawItem, d: DetailFields): RawItem {
    var withFields := item.(
      company := OrElse(OrElse(d.supplier, d.companyname), ""),
      country := OrElse(d.country, ""),
      companyTypes := OrElse(d.companyTypes, ""),
      verified := OrElse(d.verified, "false"));
    match d.link
    case LinkText(link) => if link != "" then withFields.(exactLink := Absolutize(link)) else withFields
    case NotText(_) => withFields
  }

  /** What the field copy promises: only the five enrichment fields change,
      `company` is empty exactly when the payload names no supplier and no
      company, the supplier wins over the company name, `verified` is never
      empty, and `exactLink` is an absolute link ending in the payload's link,
      or untouched when the payload has no string link. */
  lemma ApplyDetailSpec(item: RawItem, d: DetailFields)
    ensures var r := ApplyDetail(item, d);
      && r.(company := item.company, country := item.country, companyTypes := item.companyTypes,
            verified := item.verified, exactLink := item.exactLink) == item
      && (r.company == "" <==> d.supplier == "" && d.companyname == "")
      && (d.supplier != "" ==> r.company == d.supplier)
      && (d.supplier == "" ==> r.company == d.companyname)
      && r.country == d.country && r.companyTypes == d.companyTypes
      && r.verified != "" && (d.verified != "" ==> r.verified == d.verified)
      && (d.link.LinkText? && d.link.text != "" ==>
            StartsWith(r.exactLink, "http") && |d.link.text| <= |r.exactLink|
            && r.exactLink[|r.exactLink| - |d.link.text|..] == d.link.text)
      && (d.link.NotText? || d.link.text == "" ==> r.exactLink == item.exactLink)
  {
  }

  /** The payload of the first 2xx response, when there is one and its body
      parses. */
  function Received(attempt: Tries): Option<DetailFields> {
    match FirstOk(attempt, 0)
    case None => None
    case Some(r) => DetailOf(Attempt(attempt, r).body)
  }

  /** Reference definition of one item's enrichment, ignoring timing: the
      updated item and whether the attempt counts as a success. A payload
      whose link throws has already written its four fields, yet counts as
      a failure. */
  function ItemOutcome(item: RawItem, attempt: Tries): (RawItem, bool) {
    if item.id.None? then (item, false)
    else match Received(attempt)
      case None => (item, false)
      case Some(d) => (ApplyDetail(item, d), !LinkThrows(d))
  }

  /** The body of one `chunk.map` callback. An item without an id fails before
      any request (`toString` of undefined throws); otherwise the retry loop
      runs, and only a 2xx response whose body parses changes the item. It
      succeeds exactly when such a payload arrives and its link does not
      throw. */
  method EnrichItem(item: RawItem, attempt: Tries) returns (updated: RawItem, success: bool, tries: nat)
    ensures (updated, success) == ItemOutcome(item, attempt)
    ensures success <==> item.id.Some? && Received(attempt).Some? && !LinkThrows(Received(attempt).value)
    ensures item.id.Some? && Received(attempt).Some? ==> updated == ApplyDetail(item, Received(attempt).value)
    ensures item.id.None? || Received(attempt).None? ==> updated == item
    ensures item.id.None? ==> tries == 0
    ensures item.id.Some? ==> 1 <= tries <= MaxTries
    ensures success ==> item.id.Some? && Attempt(attempt, tries - 1).Ok?
    ensures item.id.Some? && (forall r :: 0 <= r < MaxTries ==> !Attempt(attempt, r).Ok?) ==> !success && tries == MaxTries
  {
    if item.id.None? {
      return item, false, 0;
    }
    var body, n, _ := FetchDetail(attempt);
    tries := n;
    if body.None? {
      NoOkMeansFirstOkNone(attempt);
      return item, false, tries;
    }
    match DetailOf(body.value)
    case None =>
      updated, success := item, false;
    case Some(d) =>
      updated := ApplyDetail(item, d);
      success := !LinkThrows(d);
    NoOkMeansFirstOkNone(attempt);
  }

  lemma NoOkMeansFirstOkNone(attempt: Tries)
    ensures (forall r :: 0 <= r < MaxTries ==> !Attempt(attempt, r).Ok?) <==> FirstOk(attempt, 0).None?
  {
    assert FirstOk(attempt, 0) == (if Attempt(attempt, 0).Ok? then Some(0) else FirstOk(attempt, 1));
    assert FirstOk(attempt, 1) == (if Attempt(attempt, 1).Ok? then Some(1) else FirstOk(attempt, 2));
    assert FirstOk(attempt, 2) == (if Attempt(attempt, 2).Ok? then Some(2) else None);
  }
}
