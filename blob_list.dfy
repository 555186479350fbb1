/**
 * The paging loop of `List` (lib/blob.go): one `ListBlobs` request per page, each passing the
 * previous page's `NextMarker` as its `Marker`, until a page comes back without one.
 *
 * The pages are returned as they arrive; printing them is left to `BlobLines`.
 */
module BlobList {

  import opened Common
  import opened Storage
  import opened BlobUri
  import opened ClientCache

  /** The delimiter of every request: `/` unless the listing is recursive. */
  function Delimiter(recursive: bool): string
  {
    if recursive then "" else "/"
  }

  /** The marker of request `i`: none for the first, then the previous page's `NextMarker`. */
  function Marker(pages: seq<BlobListResponse>, i: nat): string
    requires i <= |pages|
  {
    if i == 0 then "" else pages[i - 1].nextMarker
  }

  /** Request `i` of a listing that has received `pages` so far. */
  function ListRequest(container: string, prefix: string, recursive: bool, pages: seq<BlobListResponse>, i: nat): Call
    requires i <= |pages|
  {
    ListBlobsCall(container, ListBlobsParameters(prefix, Delimiter(recursive), Marker(pages, i)))
  }

  /** The requests that brought `pages`. */
  function ListRequests(container: string, prefix: string, recursive: bool, pages: seq<BlobListResponse>): (calls: seq<Call>)
    ensures |calls| == |pages|
    ensures forall i :: 0 <= i < |pages| ==> calls[i] == ListRequest(container, prefix, recursive, pages, i)
  {
    seq(|pages|, i requires 0 <= i < |pages| => ListRequest(container, prefix, recursive, pages, i))
  }

  lemma ListRequestsSnoc(container: string, prefix: string, recursive: bool, pages: seq<BlobListResponse>, page: BlobListResponse)
    ensures ListRequests(container, prefix, recursive, pages + [page])
      == ListRequests(container, prefix, recursive, pages) + [ListRequest(container, prefix, recursive, pages, |pages|)]
  {
    var more := pages + [page];
    assert forall i :: 0 <= i <= |pages| ==> Marker(more, i) == Marker(pages, i);
  }

  /** Whether a page announces another one. */
  predicate HasNext(page: BlobListResponse)
  {
    page.nextMarker != ""
  }

  /**
   * How a listing went, given the scripted answers `listing`: the pages are the first answers,
   * every page but the last announced another, a listing without error ended on a page without
   * a next marker, one with an error failed on the request after its last page, and `entries` are
   * the requests made, in order.
   */
  predicate Paged(container: string, prefix: string, recursive: bool, listing: seq<BlobListResponse>,
                  pages: seq<BlobListResponse>, err: Option<string>, entries: seq<Entry>)
  {
    |pages| <= |listing| && pages == listing[..|pages|]
    && (forall i :: 0 <= i < |pages| - 1 ==> HasNext(pages[i]))
    && (err.None? ==> |pages| >= 1 && !HasNext(pages[|pages| - 1]))
    && (err.Some? ==> forall i :: 0 <= i < |pages| ==> HasNext(pages[i]))
    && entries == OkEntries(ListRequests(container, prefix, recursive, pages))
                  + (if err.Some? then [Entry(ListRequest(container, prefix, recursive, pages, |pages|), false)] else [])
  }

  /**
   * The loop of `List` on a client: fetches pages until one has no next marker, or a request
   * fails.
   */
  method Paginate(svc: BlobService, container: string, prefix: string, recursive: bool)
    returns (pages: seq<BlobListResponse>, err: Option<string>)
    modifies svc
    ensures |svc.log| >= |old(svc.log)| && svc.log[..|old(svc.log)|] == old(svc.log)
    ensures Paged(container, prefix, recursive, old(svc.store.listing), pages, err, svc.log[|old(svc.log)|..])
    ensures svc.store == old(svc.store).(listing := old(svc.store.listing)[|pages|..])
  {
    var params := ListBlobsParameters(prefix, Delimiter(recursive), "");
    pages := [];
    while true
      invariant params == ListBlobsParameters(prefix, Delimiter(recursive), Marker(pages, |pages|))
      invariant |pages| <= |old(svc.store.listing)| && pages == old(svc.store.listing)[..|pages|]
      invariant forall i :: 0 <= i < |pages| ==> HasNext(pages[i])
      invariant svc.log == old(svc.log) + OkEntries(ListRequests(container, prefix, recursive, pages))
      invariant svc.store == old(svc.store).(listing := old(svc.store.listing)[|pages|..])
      decreases |svc.store.listing|
    {
      var res := svc.ListBlobs(container, params);
      if res.Failure? {
        assert svc.log[|old(svc.log)|..]
          == OkEntries(ListRequests(container, prefix, recursive, pages))
             + [Entry(ListRequest(container, prefix, recursive, pages, |pages|), false)];
        return pages, Some(res.error);
      }
      ListRequestsSnoc(container, prefix, recursive, pages, res.value);
      OkEntriesSnoc(ListRequests(container, prefix, recursive, pages + [res.value]), |pages|);
      assert ListRequests(container, prefix, recursive, pages + [res.value])[..|pages|]
        == ListRequests(container, prefix, recursive, pages);
      pages := pages + [res.value];
      assert old(svc.store.listing)[..|pages|] == old(svc.store.listing)[..|pages| - 1] + [res.value];
      if !HasNext(res.value) {
        assert svc.log[|old(svc.log)|..] == OkEntries(ListRequests(container, prefix, recursive, pages));
        return pages, None;
      }
      params := params.(marker := res.value.nextMarker);
    }
  }

  /**
   * `List`: looks up the client for `b`, then pages through `b`'s container. The names it
   * returns are always empty: the source fills no names, it only prints the pages.
   */
  method List(cache: ClientCache<BlobService>, b: BlobContext, prefix: string, recursive: bool, built: Result<BlobService>)
    returns (names: seq<string>, pages: seq<BlobListResponse>, err: Option<string>)
    modifies cache, cache.clients.Values, if built.Success? then {built.value} else {}
    ensures names == []
    ensures var (client, clients) := Lookup(old(cache.clients), b, built);
      cache.clients == clients
      && (client.Failure? ==> err == Some(client.error) && pages == [])
      && (client.Success? ==>
            var svc := client.value;
            |svc.log| >= |old(svc.log)| && svc.log[..|old(svc.log)|] == old(svc.log)
            && Paged(b.container, prefix, recursive, old(svc.store.listing), pages, err, svc.log[|old(svc.log)|..])
            && svc.store == old(svc.store).(listing := old(svc.store.listing)[|pages|..]))
  {
    names := [];
    var client := cache.GetBlobClient(b, built);
    if client.Failure? {
      return names, [], Some(client.error);
    }
    pages, err := Paginate(client.value, b.container, prefix, recursive);
  }

  // ---------------------------------------------------------------------------
  // What a listing asks for, and where it stops

  /** Every request of a listing is a `ListBlobs` of the container with the prefix, and asks for the delimiter `/` exactly when the listing is not recursive. */
  lemma PagedRequests(container: string, prefix: string, recursive: bool, listing: seq<BlobListResponse>,
                      pages: seq<BlobListResponse>, err: Option<string>, entries: seq<Entry>)
    requires Paged(container, prefix, recursive, listing, pages, err, entries)
    ensures forall i :: 0 <= i < |entries| ==>
      entries[i].call.ListBlobsCall? && entries[i].call.container == container
      && entries[i].call.params.prefix == prefix
      && (entries[i].call.params.delimiter == "/" <==> !recursive)
  {
  }

  /** The first request has no marker; every later one passes the previous page's next marker unchanged. */
  lemma PagedMarkers(container: string, prefix: string, recursive: bool, listing: seq<BlobListResponse>,
                     pages: seq<BlobListResponse>, err: Option<string>, entries: seq<Entry>)
    requires Paged(container, prefix, recursive, listing, pages, err, entries)
    ensures |entries| >= 1 && entries[0].call.params.marker == ""
    ensures forall i :: 1 <= i < |entries| ==> entries[i].call.params.marker == pages[i - 1].nextMarker
  {
  }

  /** The position of the first page without a next marker, if any. */
  function FirstEnd(listing: seq<BlobListResponse>): (r: Option<nat>)
    ensures r.Some? ==> (r.value < |listing| && !HasNext(listing[r.value])
                         && forall i :: 0 <= i < r.value ==> HasNext(listing[i]))
    ensures r.None? ==> forall i :: 0 <= i < |listing| ==> HasNext(listing[i])
  {
    if listing == [] then None
    else if !HasNext(listing[0]) then Some(0)
    else
      match FirstEnd(listing[1..])
      case None => None
      case Some(k) => Some(k + 1)
  }

  /** A listing that ends without error has fetched exactly the pages up to the first one without a next marker. */
  lemma PagedStopsAtFirstEnd(container: string, prefix: string, recursive: bool, listing: seq<BlobListResponse>,
                             pages: seq<BlobListResponse>, err: Option<string>, entries: seq<Entry>)
    requires Paged(container, prefix, recursive, listing, pages, err, entries) && err.None?
    ensures FirstEnd(listing) == Some(|pages| - 1)
  {
    var e := FirstEnd(listing);
    var last := |pages| - 1;
    assert listing[last] == pages[last];
    assert forall i :: 0 <= i < last ==> listing[i] == pages[i];
  }

  /** A listing that fails has fetched only pages that announce another one. */
  lemma PagedFailsBeforeEnd(container: string, prefix: string, recursive: bool, listing: seq<BlobListResponse>,
                            pages: seq<BlobListResponse>, err: Option<string>, entries: seq<Entry>)
    requires Paged(container, prefix, recursive, listing, pages, err, entries) && err.Some?
    ensures FirstEnd(listing).None? || |pages| <= FirstEnd(listing).value
    ensures |entries| == |pages| + 1 && !entries[|pages|].ok
  {
    assert forall i :: 0 <= i < |pages| ==> listing[i] == pages[i];
  }
}
