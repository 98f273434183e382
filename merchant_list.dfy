/**
 * The merchant list screen's state: the loaded merchants, a loading flag, the last error
 * message and the pagination record.  A fetch clears the error and raises the loading
 * flag (`FetchStart`); its outcome then either replaces the list and recomputes the
 * pagination totals or leaves them alone and records an error (`FetchSettle`).
 */
module MerchantList {
  import opened Wrappers
  import opened Digits

  datatype Currency = TWD | CNY | USD

  datatype Merchant = Merchant(
    id: int,
    displayId: string,
    siteCode: string,
    account: string,
    name: string,
    currency: Currency,
    percent: real,
    state: int,
    createdAt: string)

  /**
   * How a fetch ends: a response whose HTTP status is not ok, a decoded body, or an
   * exception thrown on the way (its `message`, and the text `String(err)` gives for it).
   */
  datatype Outcome =
    | HttpFailure(status: nat)
    | Payload(code: int, msg: Option<string>, list: seq<Merchant>, total: int)
    | Thrown(message: string, text: string)

  predicate Succeeded(o: Outcome) {
    o.Payload? && o.code == 0
  }

  const ErrorPrefix := "API Error: "
  const UnknownApiError := "Unknown API Error"

  /** The message of the error a failed fetch raises, before the prefix is added. */
  function FailureMessage(o: Outcome): (m: string)
    requires !Succeeded(o)
    ensures o.HttpFailure? ==> m == HttpErrorPrefix + NatToText(o.status)
    ensures o.Payload? && o.msg.Some? && o.msg.value != "" ==> m == o.msg.value
    ensures o.Payload? && (o.msg.None? || o.msg.value == "") ==> m == UnknownApiError
    ensures o.Thrown? && o.message != "" ==> m == o.message
    ensures o.Thrown? && o.message == "" ==> m == o.text
  {
    match o
    case HttpFailure(status) => HttpErrorPrefix + NatToText(status)
    case Payload(_, msg, _, _) => if msg.Some? && msg.value != "" then msg.value else UnknownApiError
    case Thrown(message, text) => if message != "" then message else text
  }

  const HttpErrorPrefix := "HTTP Error: "

  /** The error shown after a fetch: none after a success, otherwise the prefixed message. */
  function ErrorAfter(o: Outcome): (e: Option<string>)
    ensures e.None? <==> Succeeded(o)
    ensures e.Some? ==> |e.value| >= |ErrorPrefix| && e.value[..|ErrorPrefix|] == ErrorPrefix
    ensures o.HttpFailure? ==> e == Some(ErrorPrefix + (HttpErrorPrefix + NatToText(o.status)))
    ensures o.Payload? && o.code != 0 && o.msg.Some? && o.msg.value != "" ==> e == Some(ErrorPrefix + o.msg.value)
    ensures o.Payload? && o.code != 0 && (o.msg.None? || o.msg.value == "") ==> e == Some(ErrorPrefix + UnknownApiError)
    ensures o.Thrown? ==> e == Some(ErrorPrefix + (if o.message != "" then o.message else o.text))
  {
    if Succeeded(o) then None else Some(ErrorPrefix + FailureMessage(o))
  }

  /** The status in the error of a failed HTTP response reads back from the digits after the two prefixes. */
  lemma StatusReadsBack(status: nat)
    ensures var e := ErrorAfter(HttpFailure(status)).value;
      var n := |ErrorPrefix + HttpErrorPrefix|;
      && |e| > n && e[..n] == ErrorPrefix + HttpErrorPrefix
      && AllDigits(e[n..]) && TextToNat(e[n..]) == status
  {
    var e := ErrorAfter(HttpFailure(status)).value;
    var n := |ErrorPrefix + HttpErrorPrefix|;
    assert e[n..] == NatToText(status);
    TextRoundTrip(status);
  }

  /** `Math.ceil(total / pageSize)`: the number of pages `total` items fill. */
  function PageCount(total: int, pageSize: int): (n: int)
    requires pageSize > 0
    ensures (n - 1) * pageSize < total <= n * pageSize
  {
    var q := (-total) / pageSize;
    CeilingBounds(total, pageSize, q, (-total) % pageSize);
    -q
  }

  lemma CeilingBounds(total: int, pageSize: int, q: int, r: int)
    requires pageSize > 0 && -total == q * pageSize + r && 0 <= r < pageSize
    ensures (-q - 1) * pageSize < total <= -q * pageSize
  {
    assert -q * pageSize == total + r;
    assert (-q - 1) * pageSize == -q * pageSize - pageSize;
  }

  /** No items need no pages; one more item than a full page count needs one more page. */
  lemma PageCountExamples()
    ensures PageCount(0, 20) == 0
    ensures PageCount(20, 20) == 1
    ensures PageCount(21, 20) == 2
  {
  }

  /** The page count is the least number of pages that hold `total` items. */
  lemma PageCountLeast(total: int, pageSize: int, m: int)
    requires pageSize > 0 && total <= m * pageSize
    ensures PageCount(total, pageSize) <= m
  {
    var n := PageCount(total, pageSize);
    if m < n {
      MonotoneProduct(m, n - 1, pageSize);
    }
  }

  lemma MonotoneProduct(a: int, b: int, c: int)
    requires a <= b && c > 0
    ensures a * c <= b * c
  {
  }

  class MerchantListState {
    var loading: bool
    var list: seq<Merchant>
    var error: Option<string>
    var page: int
    var pageSize: int
    var itemCount: int
    var pageCount: int

    /** The page size is positive, so the page count is defined. */
    ghost predicate Valid()
      reads this
    {
      pageSize > 0
    }

    constructor()
      ensures !loading && list == [] && error == None
      ensures page == 1 && pageSize == 20 && itemCount == 0 && pageCount == 1
      ensures Valid()
    {
      loading := false;
      list := [];
      error := None;
      page := 1;
      pageSize := 20;
      itemCount := 0;
      pageCount := 1;
    }

    /** The start of `fetchList`: loading, and the last error cleared. */
    method FetchStart()
      modifies this
      ensures loading && error == None
      ensures list == old(list) && page == old(page) && pageSize == old(pageSize)
      ensures itemCount == old(itemCount) && pageCount == old(pageCount)
    {
      loading := true;
      error := None;
    }

    /** The end of `fetchList` with the outcome of its request. */
    method FetchSettle(o: Outcome)
      requires Valid()
      modifies this
      ensures !loading && Valid()
      ensures page == old(page) && pageSize == old(pageSize)
      ensures Succeeded(o) ==> list == o.list && itemCount == o.total
      ensures Succeeded(o) ==> pageCount == PageCount(o.total, pageSize) && error == old(error)
      ensures !Succeeded(o) ==> list == old(list) && itemCount == old(itemCount) && pageCount == old(pageCount)
      ensures !Succeeded(o) ==> error == ErrorAfter(o)
    {
      if Succeeded(o) {
        list := o.list;
        itemCount := o.total;
        pageCount := PageCount(o.total, pageSize);
      } else {
        error := Some(ErrorPrefix + FailureMessage(o));
      }
      loading := false;
    }
  }
}
