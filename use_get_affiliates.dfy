/**
 * The `useGetAffiliates` hook: the listing shown in the table, the last error text,
 * a loading flag, and the page and limit of the latest request, which later requests
 * reuse for any argument they omit.
 *
 * A fetch is two atomic steps: `FetchAffiliates` starts it (and sends the request),
 * `Complete` applies how the awaited call settled. Several fetches may be started
 * before any completes; each completion then applies in whatever order it arrives.
 */
module UseGetAffiliates {
  import opened Wrappers
  import opened JsText
  import opened ApiErrors
  import opened ApiClient

  /** A listed affiliate as the web client types it. */
  datatype AffiliateRow = AffiliateRow(
    id: string,
    firstName: string,
    lastName: string,
    fullName: string,
    dni: string,
    age: int,
    usdAnnualFee: int)

  datatype PaginatedAffiliates = PaginatedAffiliates(
    items: seq<AffiliateRow>,
    totalItems: int,
    page: int,
    limit: int,
    hasPrev: bool,
    hasNext: bool)

  /** The listing response body: the page under `data`. */
  datatype ListingPayload = ListingPayload(data: PaginatedAffiliates)

  /** The state before any response: no rows, and the initial page and limit echoed. */
  function EmptyListing(page: int, limit: int): (d: PaginatedAffiliates)
    ensures d.items == [] && d.totalItems == 0 && !d.hasPrev && !d.hasNext
    ensures d.page == page && d.limit == limit
  {
    PaginatedAffiliates([], 0, page, limit, false, false)
  }

  /** The request a fetch of (page, limit) sends: `getAffiliates(page, limit)`, no DNI filter. */
  lemma ListingRequest(page: int, limit: int)
    ensures QueryParams(Some(page), Some(limit), None) == [("page", IntToString(page)), ("limit", IntToString(limit))]
    ensures Lookup(QueryParams(Some(page), Some(limit), None), "filterByDni").None?
  {
    DniFilterSentTrimmed(Some(page), Some(limit), None);
  }

  class AffiliatesListing {
    const initialPage: int
    const initialLimit: int
    var data: PaginatedAffiliates
    var error: Option<string>
    var loading: bool
    /** `pageRef.current` and `limitRef.current`. */
    var pageRef: int
    var limitRef: int
    /** The query of every request sent so far, oldest first. */
    ghost var requests: seq<seq<Param>>

    /** `useGetAffiliates(initialPage = 1, initialLimit = 5)` before its mount effect runs. */
    constructor (initialPage: Option<int>, initialLimit: Option<int>)
      ensures this.initialPage == initialPage.GetOr(1) && this.initialLimit == initialLimit.GetOr(5)
      ensures data == EmptyListing(initialPage.GetOr(1), initialLimit.GetOr(5))
      ensures error == None && !loading
      ensures pageRef == initialPage.GetOr(1) && limitRef == initialLimit.GetOr(5)
      ensures requests == []
    {
      this.initialPage := initialPage.GetOr(1);
      this.initialLimit := initialLimit.GetOr(5);
      data := EmptyListing(initialPage.GetOr(1), initialLimit.GetOr(5));
      error := None;
      loading := false;
      pageRef := initialPage.GetOr(1);
      limitRef := initialLimit.GetOr(5);
      requests := [];
    }

    /**
     * The start of `fetchAffiliates(page = initialPage, limit = initialLimit)`: loading
     * on, the error cleared, the data kept, and the request sent.
     */
    method FetchAffiliates(page: Option<int>, limit: Option<int>)
      modifies this
      ensures loading && error == None
      ensures data == old(data) && pageRef == old(pageRef) && limitRef == old(limitRef)
      ensures requests == old(requests) + [QueryParams(Some(page.GetOr(initialPage)), Some(limit.GetOr(initialLimit)), None)]
    {
      loading := true;
      error := None;
      var params := GetAffiliatesParams(Some(page.GetOr(initialPage)), Some(limit.GetOr(initialLimit)), None);
      requests := requests + [params];
    }

    /**
     * The end of a fetch: a fulfilled call replaces the data with the body's `data`; a
     * rejected one records its message and keeps the data. Either way loading ends.
     */
    method Complete(outcome: Settled<JsonBody<ListingPayload>>)
      modifies this
      ensures !loading
      ensures outcome.Fulfilled? ==> data == outcome.value.payload.data && error == old(error)
      ensures outcome.RejectedWith? ==> data == old(data) && error == Some(ErrorMessage(outcome.reason))
      ensures pageRef == old(pageRef) && limitRef == old(limitRef) && requests == old(requests)
    {
      match outcome {
        case Fulfilled(res) =>
          data := res.payload.data;
        case RejectedWith(err) =>
          error := Some(ErrorMessage(err));
      }
      loading := false;
    }

    /** One fetch run to completion with nothing interleaved. */
    method Fetch(page: Option<int>, limit: Option<int>, outcome: Settled<JsonBody<ListingPayload>>)
      modifies this
      ensures !loading
      ensures outcome.Fulfilled? ==> data == outcome.value.payload.data && error == None
      ensures outcome.RejectedWith? ==> data == old(data) && error == Some(ErrorMessage(outcome.reason))
      ensures pageRef == old(pageRef) && limitRef == old(limitRef)
      ensures requests == old(requests) + [QueryParams(Some(page.GetOr(initialPage)), Some(limit.GetOr(initialLimit)), None)]
    {
      FetchAffiliates(page, limit);
      Complete(outcome);
    }

    /** The mount effect: a fetch of the stored page and limit. */
    method Mount()
      modifies this
      ensures loading && error == None && data == old(data)
      ensures pageRef == old(pageRef) && limitRef == old(limitRef)
      ensures requests == old(requests) + [QueryParams(Some(pageRef), Some(limitRef), None)]
    {
      FetchAffiliates(Some(pageRef), Some(limitRef));
    }

    /**
     * `refetch(page?, limit?)`: each supplied argument overwrites the stored value, each
     * omitted one keeps it, and the stored pair is fetched.
     */
    method Refetch(page: Option<int>, limit: Option<int>)
      modifies this
      ensures pageRef == page.GetOr(old(pageRef)) && limitRef == limit.GetOr(old(limitRef))
      ensures loading && error == None && data == old(data)
      ensures requests == old(requests) + [QueryParams(Some(pageRef), Some(limitRef), None)]
    {
      if page.Some? {
        pageRef := page.value;
      }
      if limit.Some? {
        limitRef := limit.value;
      }
      FetchAffiliates(Some(pageRef), Some(limitRef));
    }

    /** `setPage(p)`: fetches page `p` with the stored limit, not the initial one. */
    method SetPage(p: int)
      modifies this
      ensures pageRef == p && limitRef == old(limitRef)
      ensures loading && error == None && data == old(data)
      ensures requests == old(requests) + [QueryParams(Some(p), Some(old(limitRef)), None)]
    {
      Refetch(Some(p), None);
    }
  }
}
