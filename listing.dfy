/** The paginated object listing of the compaction job
    (`list_objects_in_s3`). The object store is a function from a request to
    the page it answers with; a page may omit its contents and may carry a
    continuation token for the next request. */
module Listing {
  import opened Wrappers

  datatype ObjectSummary = ObjectSummary(key: string)

  datatype ListRequest = ListRequest(bucket: string, prefix: string, continuationToken: Option<string>)

  /** A response: `Contents` may be missing, `NextContinuationToken` is
      present only when more pages follow. */
  datatype Page = Page(contents: Option<seq<ObjectSummary>>, nextContinuationToken: Option<string>)

  type Lister = ListRequest -> Page

  /** One round trip: what was asked and what came back. */
  datatype Exchange = Exchange(request: ListRequest, response: Page)

  /** The listing's result: the objects in page order, or the string
      sentinel `"None"` when there are none. */
  datatype Listing = NoneSentinel | Objects(items: seq<ObjectSummary>)

  /** The request the loop issues for the token it holds: a token is sent
      only when it is truthy, so an empty token means a first-page request. */
  function RequestFor(bucket: string, prefix: string, token: Option<string>): (r: ListRequest)
    ensures r.bucket == bucket && r.prefix == prefix
    ensures r.continuationToken.Some? <==> token.Some? && token.value != ""
    ensures r.continuationToken.Some? ==> r.continuationToken == token
  {
    if token.Some? && token.value != "" then ListRequest(bucket, prefix, token)
    else ListRequest(bucket, prefix, None)
  }

  /** `response.get("Contents", [])`. */
  function PageContents(p: Page): seq<ObjectSummary> {
    p.contents.GetOr([])
  }

  /** The exchanges of a listing that starts from `token`, or `None` when no
      page without a continuation token comes back within `fuel` requests. */
  function Walk(lister: Lister, bucket: string, prefix: string, token: Option<string>, fuel: nat)
    : (r: Option<seq<Exchange>>)
    ensures r.Some? ==> 1 <= |r.value| <= fuel
    decreases fuel
  {
    if fuel == 0 then None
    else
      var request := RequestFor(bucket, prefix, token);
      var page := lister(request);
      if page.nextContinuationToken.None? then Some([Exchange(request, page)])
      else
        match Walk(lister, bucket, prefix, page.nextContinuationToken, fuel - 1)
        case None => None
        case Some(rest) => Some([Exchange(request, page)] + rest)
  }

  /** One step of a listing that ends: the first exchange, then the rest. */
  lemma WalkUnfold(lister: Lister, bucket: string, prefix: string, token: Option<string>, fuel: nat)
    requires Walk(lister, bucket, prefix, token, fuel).Some?
    ensures fuel > 0
    ensures var request := RequestFor(bucket, prefix, token);
      var first := Exchange(request, lister(request));
      var next := first.response.nextContinuationToken;
      && (next.None? ==> Walk(lister, bucket, prefix, token, fuel).value == [first])
      && (next.Some? ==>
            && Walk(lister, bucket, prefix, next, fuel - 1).Some?
            && Walk(lister, bucket, prefix, token, fuel).value
               == [first] + Walk(lister, bucket, prefix, next, fuel - 1).value)
  {
  }

  /** The request protocol: the first request carries the starting token
      (none, for a fresh listing), each page answers its own request, every
      page but the last carries a continuation token and the next request
      sends it, and the listing stops at the first page without one. */
  lemma {:induction false} WalkProtocol(lister: Lister, bucket: string, prefix: string, token: Option<string>, fuel: nat)
    requires Walk(lister, bucket, prefix, token, fuel).Some?
    ensures var ex := Walk(lister, bucket, prefix, token, fuel).value;
      && ex[0].request == RequestFor(bucket, prefix, token)
      && (forall i :: 0 <= i < |ex| ==> ex[i].response == lister(ex[i].request))
      && (forall i :: 0 <= i < |ex| - 1 ==>
            ex[i].response.nextContinuationToken.Some?
            && ex[i + 1].request == RequestFor(bucket, prefix, ex[i].response.nextContinuationToken))
      && ex[|ex| - 1].response.nextContinuationToken.None?
    decreases fuel
  {
    WalkUnfold(lister, bucket, prefix, token, fuel);
    var request := RequestFor(bucket, prefix, token);
    var next := lister(request).nextContinuationToken;
    if next.Some? {
      WalkProtocol(lister, bucket, prefix, next, fuel - 1);
    }
  }

  /** The bound is only a bound: two bounds that both reach the last page
      see the same exchanges. */
  lemma {:induction false} WalkFuelIrrelevant(lister: Lister, bucket: string, prefix: string,
                                              token: Option<string>, f1: nat, f2: nat)
    requires Walk(lister, bucket, prefix, token, f1).Some? && Walk(lister, bucket, prefix, token, f2).Some?
    ensures Walk(lister, bucket, prefix, token, f1) == Walk(lister, bucket, prefix, token, f2)
    decreases f1
  {
    WalkUnfold(lister, bucket, prefix, token, f1);
    WalkUnfold(lister, bucket, prefix, token, f2);
    var next := lister(RequestFor(bucket, prefix, token)).nextContinuationToken;
    if next.Some? {
      WalkFuelIrrelevant(lister, bucket, prefix, next, f1 - 1, f2 - 1);
    }
  }

  /** The listing ends: some page within `fuel` requests has no token. */
  predicate Ends(lister: Lister, bucket: string, prefix: string, fuel: nat) {
    Walk(lister, bucket, prefix, None, fuel).Some?
  }

  /** The objects of a run of exchanges, page after page. */
  function Gathered(exchanges: seq<Exchange>): seq<ObjectSummary> {
    if exchanges == [] then []
    else Gathered(exchanges[..|exchanges| - 1]) + PageContents(exchanges[|exchanges| - 1].response)
  }

  /** Nothing is gathered exactly when every page came back without objects. */
  lemma {:induction false} GatheredEmpty(exchanges: seq<Exchange>)
    ensures Gathered(exchanges) == [] <==> forall i :: 0 <= i < |exchanges| ==> PageContents(exchanges[i].response) == []
  {
    if exchanges != [] {
      var n := |exchanges|;
      GatheredEmpty(exchanges[..n - 1]);
      assert forall i :: 0 <= i < n - 1 ==> exchanges[..n - 1][i] == exchanges[i];
    }
  }

  lemma {:induction false} GatheredAppend(exchanges: seq<Exchange>, e: Exchange)
    ensures Gathered(exchanges + [e]) == Gathered(exchanges) + PageContents(e.response)
  {
    assert (exchanges + [e])[..|exchanges|] == exchanges;
  }

  /** The result `list_objects_in_s3` returns for a listing that ends. */
  function ListingOf(lister: Lister, bucket: string, prefix: string, fuel: nat): (r: Listing)
    requires Ends(lister, bucket, prefix, fuel)
    ensures r.NoneSentinel? <==> Gathered(Walk(lister, bucket, prefix, None, fuel).value) == []
    ensures r.Objects? ==> r.items == Gathered(Walk(lister, bucket, prefix, None, fuel).value)
  {
    var all := Gathered(Walk(lister, bucket, prefix, None, fuel).value);
    if all == [] then NoneSentinel else Objects(all)
  }

  /** What one round of the listing loop adds to the exchanges done so far. */
  lemma ListingStep(lister: Lister, bucket: string, prefix: string, token: Option<string>, left: nat,
                    done: seq<Exchange>)
    requires Walk(lister, bucket, prefix, token, left).Some?
    ensures left > 0
    ensures var request := RequestFor(bucket, prefix, token);
      var here := Exchange(request, lister(request));
      var next := here.response.nextContinuationToken;
      && Gathered(done + [here]) == Gathered(done) + PageContents(here.response)
      && (next.None? ==> done + Walk(lister, bucket, prefix, token, left).value == done + [here])
      && (next.Some? ==>
            && Walk(lister, bucket, prefix, next, left - 1).Some?
            && done + Walk(lister, bucket, prefix, token, left).value
               == (done + [here]) + Walk(lister, bucket, prefix, next, left - 1).value)
  {
    var request := RequestFor(bucket, prefix, token);
    var here := Exchange(request, lister(request));
    WalkUnfold(lister, bucket, prefix, token, left);
    GatheredAppend(done, here);
    var next := here.response.nextContinuationToken;
    if next.Some? {
      var rest := Walk(lister, bucket, prefix, next, left - 1).value;
      assert done + ([here] + rest) == (done + [here]) + rest;
    }
  }

  /** `list_objects_in_s3`: request page after page, extending the result
      with each page's contents, until a page carries no continuation
      token. `fuel` bounds the number of pages the listing has. */
  method ListObjects(lister: Lister, bucket: string, prefix: string, ghost fuel: nat)
    returns (r: Listing)
    requires Ends(lister, bucket, prefix, fuel)
    ensures r == ListingOf(lister, bucket, prefix, fuel)
  {
    var contents: seq<ObjectSummary> := [];
    var token: Option<string> := None;
    var more := true;
    ghost var left := fuel;
    ghost var done: seq<Exchange> := [];
    ghost var all := Walk(lister, bucket, prefix, None, fuel).value;
    while more
      invariant more ==> Walk(lister, bucket, prefix, token, left).Some?
      invariant more ==> all == done + Walk(lister, bucket, prefix, token, left).value
      invariant !more ==> all == done
      invariant contents == Gathered(done)
      decreases left, more
    {
      var request := if token.Some? && token.value != "" then ListRequest(bucket, prefix, token)
                     else ListRequest(bucket, prefix, None);
      assert request == RequestFor(bucket, prefix, token);
      var response := lister(request);
      ListingStep(lister, bucket, prefix, token, left, done);
      contents := contents + response.contents.GetOr([]);
      done := done + [Exchange(request, response)];
      if response.nextContinuationToken.None? {
        more := false;
      } else {
        token := response.nextContinuationToken;
        left := left - 1;
      }
    }
    r := if contents == [] then NoneSentinel else Objects(contents);
  }
}
