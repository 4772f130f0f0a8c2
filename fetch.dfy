/** fetchToots: walking the tag timeline page by page with a `max_id`
    cursor until a page brings fewer than 40 toots of today. The timeline
    endpoint is a parameter: a function from the `max_id` sent (none on the
    first request) to the response. */
module Fetch {
  import opened Wrappers
  import opened JsValues
  import opened Toots
  import opened Sequences

  /** Page size requested, and the threshold below which fetching stops. */
  const PageLimit: nat := 40

  /** A timeline response: `data` is an array (whose entries may be null),
      `data` is not an array, or the request itself rejected. */
  datatype Page = Items(items: seq<Option<Toot>>) | NotAnArray | RequestFailed

  /** Why the loop stopped. `PageBudget` belongs to the model only: the
      source loop has no bound on the number of requests. */
  datatype Stop = ShortPage | Malformed | Failed | PageBudget

  /** `response.data.filter(toot => toot && created_at >= todayTimestamp)`. */
  function Qualifying(items: seq<Option<Toot>>, cutoff: Timestamp): (r: seq<Toot>)
    ensures |r| <= |items|
  {
    if items == [] then []
    else
      var rest := Qualifying(items[1..], cutoff);
      if items[0].Some? && items[0].value.createdAt >= cutoff then [items[0].value] + rest
      else rest
  }

  /** A page keeps exactly its non-null toots created at or after the cutoff. */
  lemma {:induction false} QualifyingMembers(items: seq<Option<Toot>>, cutoff: Timestamp)
    ensures forall t :: t in Qualifying(items, cutoff) <==> Some(t) in items && t.createdAt >= cutoff
  {
    if items != [] {
      QualifyingMembers(items[1..], cutoff);
      assert items == [items[0]] + items[1..];
    }
  }

  /** The test of the page filter: a non-null entry created at or after the cutoff. */
  function Qualifies(cutoff: Timestamp): Option<Toot> -> bool
  {
    (o: Option<Toot>) => o.Some? && o.value.createdAt >= cutoff
  }

  /** A toot as a page entry. */
  function Entry(t: Toot): Option<Toot>
  {
    Some(t)
  }

  /** The page filter is `filter` over the entries with its test, in page order. */
  lemma {:induction false} QualifyingIsFilter(items: seq<Option<Toot>>, cutoff: Timestamp)
    ensures Map(Qualifying(items, cutoff), Entry) == Keep(items, Qualifies(cutoff))
  {
    if items != [] {
      QualifyingIsFilter(items[1..], cutoff);
      var rest := Qualifying(items[1..], cutoff);
      if Qualifies(cutoff)(items[0]) {
        assert ([items[0].value] + rest)[1..] == rest;
      }
    }
  }

  /** The kept toots are the page's qualifying entries, in page order and
      with their multiplicities. */
  lemma QualifyingInPageOrder(items: seq<Option<Toot>>, cutoff: Timestamp)
    ensures IsSubsequence(Map(Qualifying(items, cutoff), Entry), items)
    ensures forall o :: multiset(Map(Qualifying(items, cutoff), Entry))[o]
                        == if Qualifies(cutoff)(o) then multiset(items)[o] else 0
  {
    QualifyingIsFilter(items, cutoff);
    KeepIsSubsequence(items, Qualifies(cutoff));
    KeepCounts(items, Qualifies(cutoff));
  }

  /** The last kept toot is the last entry of the page that passes the filter. */
  lemma {:induction false} QualifyingLast(items: seq<Option<Toot>>, cutoff: Timestamp)
    requires Qualifying(items, cutoff) != []
    ensures exists k :: 0 <= k < |items| && items[k] == Some(Last(Qualifying(items, cutoff)))
                        && Qualifies(cutoff)(items[k])
                        && forall m :: k < m < |items| ==> !Qualifies(cutoff)(items[m])
  {
    var rest := Qualifying(items[1..], cutoff);
    if rest == [] {
      QualifyingMembers(items[1..], cutoff);
      forall m | 0 < m < |items| ensures !Qualifies(cutoff)(items[m]) {
        assert items[m] == items[1..][m - 1];
      }
      assert Qualifies(cutoff)(items[0]);
      assert items[0] == Some(Last(Qualifying(items, cutoff)));
    } else {
      QualifyingLast(items[1..], cutoff);
      var k :| 0 <= k < |items[1..]| && items[1..][k] == Some(Last(rest))
               && Qualifies(cutoff)(items[1..][k])
               && forall m :: k < m < |items[1..]| ==> !Qualifies(cutoff)(items[1..][m]);
      assert Last(Qualifying(items, cutoff)) == Last(rest);
      forall m | k + 1 < m < |items| ensures !Qualifies(cutoff)(items[m]) {
        assert items[m] == items[1..][m - 1];
      }
      assert items[k + 1] == Some(Last(rest));
    }
  }

  /** The toots a response contributes: the qualifying items of an array, nothing otherwise. */
  function PageToots(page: Page, cutoff: Timestamp): seq<Toot>
  {
    if page.Items? then Qualifying(page.items, cutoff) else []
  }

  /** A page after which the loop asks for the next one: an array with at
      least 40 qualifying toots. */
  predicate FullPage(page: Page, cutoff: Timestamp)
  {
    page.Items? && |Qualifying(page.items, cutoff)| >= PageLimit
  }

  /** `params.max_id` of a request: sent only when the cursor is truthy. */
  function MaxIdParam(maxId: Option<string>): Option<string>
  {
    if Truthy(maxId) then maxId else None
  }

  /** `newToots[newToots.length - 1]?.id`: the id of the last toot kept, if any. */
  function Cursor(kept: seq<Toot>): Option<string>
  {
    if kept == [] then None else Some(kept[|kept| - 1].id)
  }

  /** The `max_id` sent after a page: the id of its last qualifying toot, when truthy. */
  function NextMaxId(page: Page, cutoff: Timestamp): Option<string>
  {
    MaxIdParam(Cursor(PageToots(page, cutoff)))
  }

  /** After a page, the next request carries the id of the page's last
      qualifying toot, and no `max_id` when the page kept no toot or that
      id is the empty string. */
  lemma NextRequestCarriesLastId(page: Page, cutoff: Timestamp)
    ensures var kept := PageToots(page, cutoff);
            NextMaxId(page, cutoff) == if kept != [] && |Last(kept).id| > 0 then Some(Last(kept).id) else None
  {
  }

  /** What the requests with these `max_id` parameters contribute, in request order. */
  function Collected(fetch: Option<string> -> Page, cutoff: Timestamp, requests: seq<Option<string>>): seq<Toot>
  {
    if requests == [] then []
    else Collected(fetch, cutoff, requests[..|requests| - 1]) + PageToots(fetch(requests[|requests| - 1]), cutoff)
  }

  /** The request sequence the loop issues: the first without `max_id`, each
      later one after a full page and with that page's last id. */
  predicate ValidTrace(fetch: Option<string> -> Page, cutoff: Timestamp, requests: seq<Option<string>>)
  {
    if requests == [] then true
    else if |requests| == 1 then requests[0] == None
    else
      var init := requests[..|requests| - 1];
      var previous := fetch(init[|init| - 1]);
      && ValidTrace(fetch, cutoff, init)
      && FullPage(previous, cutoff)
      && requests[|requests| - 1] == NextMaxId(previous, cutoff)
  }

  /** Issuing the next request the way the loop does keeps the trace valid,
      and adds that response's toots at the end of what was collected. */
  lemma TraceStep(fetch: Option<string> -> Page, cutoff: Timestamp, requests: seq<Option<string>>, next: Option<string>)
    requires ValidTrace(fetch, cutoff, requests)
    requires requests == [] ==> next == None
    requires requests != [] ==> FullPage(fetch(requests[|requests| - 1]), cutoff)
                                && next == NextMaxId(fetch(requests[|requests| - 1]), cutoff)
    ensures ValidTrace(fetch, cutoff, requests + [next])
    ensures Collected(fetch, cutoff, requests + [next]) == Collected(fetch, cutoff, requests) + PageToots(fetch(next), cutoff)
  {
    var r := requests + [next];
    assert r[..|r| - 1] == requests;
  }

  /** The first request of a valid trace carries no `max_id`, and every
      request but the last brought a full page. */
  lemma {:induction false} TraceShape(fetch: Option<string> -> Page, cutoff: Timestamp, requests: seq<Option<string>>)
    requires ValidTrace(fetch, cutoff, requests) && requests != []
    ensures requests[0] == None
    ensures forall i :: 0 <= i < |requests| - 1 ==> FullPage(fetch(requests[i]), cutoff)
  {
    if |requests| > 1 {
      var init := requests[..|requests| - 1];
      TraceShape(fetch, cutoff, init);
      assert forall i :: 0 <= i < |init| ==> init[i] == requests[i];
    }
  }

  /** The state of the loop after the requests in `requests`: `toots` holds
      what they collected, and `maxId` is the cursor for the next request. */
  predicate Fetched(fetch: Option<string> -> Page, cutoff: Timestamp, requests: seq<Option<string>>,
                    toots: seq<Toot>, maxId: Option<string>)
  {
    && ValidTrace(fetch, cutoff, requests)
    && toots == Collected(fetch, cutoff, requests)
    && (requests == [] ==> maxId == None)
    && (requests != [] ==> FullPage(fetch(requests[|requests| - 1]), cutoff)
                           && maxId == Cursor(PageToots(fetch(requests[|requests| - 1]), cutoff)))
  }

  /** After a full page, the loop state holds again with the page's toots
      added and the id of its last qualifying toot as the cursor. */
  lemma Advance(fetch: Option<string> -> Page, cutoff: Timestamp, requests: seq<Option<string>>,
                toots: seq<Toot>, maxId: Option<string>, q: seq<Toot>)
    requires Fetched(fetch, cutoff, requests, toots, maxId)
    requires FullPage(fetch(MaxIdParam(maxId)), cutoff)
    requires q == PageToots(fetch(MaxIdParam(maxId)), cutoff)
    ensures Fetched(fetch, cutoff, requests + [MaxIdParam(maxId)], toots + q, Cursor(q))
  {
    var param := MaxIdParam(maxId);
    TraceStep(fetch, cutoff, requests, param);
    var r := requests + [param];
    assert r[|r| - 1] == param;
  }

  /** fetchToots, with at most `maxPages` requests. `requests` lists the
      `max_id` of every request made, in order. */
  method FetchToots(fetch: Option<string> -> Page, cutoff: Timestamp, maxPages: nat)
    returns (toots: seq<Toot>, stop: Stop, ghost requests: seq<Option<string>>)
    ensures |requests| <= maxPages && ValidTrace(fetch, cutoff, requests)
    ensures stop != Failed ==> toots == Collected(fetch, cutoff, requests)
    ensures stop == Failed ==> toots == []
    ensures stop == PageBudget <==> |requests| == maxPages && (requests == [] || FullPage(fetch(requests[|requests| - 1]), cutoff))
    ensures stop == ShortPage ==> requests != [] && var last := fetch(requests[|requests| - 1]);
              last.Items? && |Qualifying(last.items, cutoff)| < PageLimit
    ensures stop == Malformed ==> requests != [] && fetch(requests[|requests| - 1]).NotAnArray?
    ensures stop == Failed ==> requests != [] && fetch(requests[|requests| - 1]).RequestFailed?
  {
    toots := [];
    var maxId: Option<string> := None;
    requests := [];
    stop := PageBudget;
    var pages := 0;
    while pages < maxPages
      invariant pages == |requests| <= maxPages
      invariant Fetched(fetch, cutoff, requests, toots, maxId)
      decreases maxPages - pages
    {
      var param := MaxIdParam(maxId);
      var response := fetch(param);
      TraceStep(fetch, cutoff, requests, param);
      ghost var before := requests;
      requests := requests + [param];
      assert requests[|requests| - 1] == param;
      pages := pages + 1;
      match response {
        case RequestFailed =>
          toots := [];
          stop := Failed;
          return;
        case NotAnArray =>
          stop := Malformed;
          return;
        case Items(items) =>
          var newToots := Qualifying(items, cutoff);
          if |newToots| < PageLimit {
            toots := toots + newToots;
            stop := ShortPage;
            return;
          }
          Advance(fetch, cutoff, before, toots, maxId, newToots);
          toots := toots + newToots;
          maxId := Cursor(newToots);
      }
    }
  }

  /** Every fetched toot is no older than the cutoff. */
  lemma {:induction false} CollectedAfterCutoff(fetch: Option<string> -> Page, cutoff: Timestamp, requests: seq<Option<string>>)
    ensures forall t :: t in Collected(fetch, cutoff, requests) ==> t.createdAt >= cutoff
  {
    if requests != [] {
      CollectedAfterCutoff(fetch, cutoff, requests[..|requests| - 1]);
      var page := fetch(requests[|requests| - 1]);
      if page.Items? {
        QualifyingMembers(page.items, cutoff);
      }
    }
  }

  /** A valid trace whose last page is full collected at least 40 toots per request. */
  lemma {:induction false} CollectedFromFullTrace(fetch: Option<string> -> Page, cutoff: Timestamp, requests: seq<Option<string>>)
    requires ValidTrace(fetch, cutoff, requests) && requests != []
    requires FullPage(fetch(requests[|requests| - 1]), cutoff)
    ensures |Collected(fetch, cutoff, requests)| >= PageLimit * |requests|
  {
    if |requests| > 1 {
      CollectedFromFullTrace(fetch, cutoff, requests[..|requests| - 1]);
    }
  }

  /** A run of `n` requests gathered at least 40 toots for each request but the last. */
  lemma CollectedAtLeastFullPages(fetch: Option<string> -> Page, cutoff: Timestamp, requests: seq<Option<string>>)
    requires ValidTrace(fetch, cutoff, requests) && requests != []
    ensures |Collected(fetch, cutoff, requests)| >= PageLimit * (|requests| - 1)
  {
    if |requests| > 1 {
      CollectedFromFullTrace(fetch, cutoff, requests[..|requests| - 1]);
    }
  }
}
