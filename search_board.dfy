/**
 * The dashboard client: the list it shows grows page by page under infinite scroll and is
 * replaced when the search term changes.
 */
module SearchBoard {
  import opened Wrappers
  import opened QueryCounts

  // ---------------------------------------------------------------- the list updater

  /** The fetched rows whose endpoint is not yet listed in `prev`, in fetched order. */
  function NewRows(prev: seq<QueryCount>, fetched: seq<QueryCount>): (r: seq<QueryCount>)
    ensures |r| <= |fetched|
    ensures forall x :: x in r ==> x in fetched && x.endpoint !in Endpoints(prev)
    ensures forall x :: x in fetched && x.endpoint !in Endpoints(prev) ==> x in r
    ensures UniqueEndpoints(fetched) ==> UniqueEndpoints(r)
  {
    if fetched == [] then []
    else
      var rest := NewRows(prev, fetched[1..]);
      if fetched[0].endpoint in Endpoints(prev) then rest
      else
        assert forall x :: x in rest ==> x in fetched[1..];
        [fetched[0]] + rest
  }

  /**
   * The `setQueries` updater: a new search replaces the list with the fetched page;
   * otherwise the list keeps every row it had and gains the fetched rows it lacked.
   */
  function MergeQueries(prev: seq<QueryCount>, fetched: seq<QueryCount>, isNewSearch: bool): (r: seq<QueryCount>)
    ensures isNewSearch ==> r == fetched
    ensures !isNewSearch ==> |prev| <= |r| && r[..|prev|] == prev
    ensures !isNewSearch ==> forall k :: |prev| <= k < |r| ==> r[k] in fetched && r[k].endpoint !in Endpoints(prev)
    ensures !isNewSearch ==> forall x :: x in fetched ==> x.endpoint in Endpoints(r)
    ensures !isNewSearch ==> r == prev + NewRows(prev, fetched)
  {
    if isNewSearch then fetched
    else
      var added := NewRows(prev, fetched);
      var r := prev + added;
      assert forall k :: |prev| <= k < |r| ==> r[k] == added[k - |prev|];
      assert forall x :: x in fetched ==> x.endpoint in Endpoints(prev) || x in added;
      r
  }

  /** Merging keeps endpoints unique when the list and the fetched page each have unique endpoints. */
  lemma MergeKeepsUnique(prev: seq<QueryCount>, fetched: seq<QueryCount>, isNewSearch: bool)
    requires UniqueEndpoints(prev) && UniqueEndpoints(fetched)
    ensures UniqueEndpoints(MergeQueries(prev, fetched, isNewSearch))
  {
    if !isNewSearch {
      var added := NewRows(prev, fetched);
      var r := prev + added;
      forall i, j | 0 <= i < j < |r| ensures r[i].endpoint != r[j].endpoint {
        if j >= |prev| {
          assert r[j] == added[j - |prev|];
          if i >= |prev| {
            assert r[i] == added[i - |prev|];
          } else {
            assert r[i] in prev;
          }
        }
      }
    }
  }

  /** The new rows of a concatenated page are those of each part, in order. */
  lemma {:induction false} NewRowsSplit(prev: seq<QueryCount>, a: seq<QueryCount>, b: seq<QueryCount>)
    ensures NewRows(prev, a + b) == NewRows(prev, a) + NewRows(prev, b)
  {
    if a != [] {
      var ab := a + b;
      assert ab[0] == a[0] && ab[1..] == a[1..] + b;
      NewRowsSplit(prev, a[1..], b);
      if a[0].endpoint in Endpoints(prev) {
        assert NewRows(prev, ab) == NewRows(prev, ab[1..]);
        assert NewRows(prev, a) == NewRows(prev, a[1..]);
      } else {
        assert NewRows(prev, ab) == [a[0]] + NewRows(prev, ab[1..]);
        assert NewRows(prev, a) == [a[0]] + NewRows(prev, a[1..]);
      }
    } else {
      assert a + b == b;
    }
  }

  /** A single fetched row is appended exactly when its endpoint is new. */
  lemma NewRowsSingle(prev: seq<QueryCount>, x: QueryCount)
    ensures NewRows(prev, [x]) == if x.endpoint in Endpoints(prev) then [] else [x]
  {
    assert [x][1..] == [];
  }

  /** When every fetched endpoint is already listed, nothing is appended. */
  lemma {:induction false} NothingNew(prev: seq<QueryCount>, fetched: seq<QueryCount>)
    requires forall x :: x in fetched ==> x.endpoint in Endpoints(prev)
    ensures NewRows(prev, fetched) == []
  {
    if fetched != [] {
      assert fetched[0] in fetched;
      NothingNew(prev, fetched[1..]);
    }
  }

  /** Appending the same page twice adds nothing the second time. */
  lemma MergeIdempotent(prev: seq<QueryCount>, fetched: seq<QueryCount>)
    ensures var once := MergeQueries(prev, fetched, false);
            MergeQueries(once, fetched, false) == once
  {
    var once := MergeQueries(prev, fetched, false);
    NothingNew(once, fetched);
    assert once + [] == once;
  }

  // ---------------------------------------------------------------- the page component

  /** The JSON body the client receives from the read route: `TrackQuery.Page` plus the cost string. */
  datatype QueryResponse = QueryResponse(
    queries: seq<QueryCount>, totalCount: int, hasMore: bool,
    totalSiteGenerations: int, estimatedCost: string)

  /** How a fetch ended: a body, a non-2xx status, or an exception (with its message if it is an Error). */
  datatype FetchOutcome = Received(data: QueryResponse) | NotOk | Threw(message: Option<string>)

  /** A request the component sends: `/api/track-query?page=…&search=…`. */
  datatype Request = Request(page: int, search: string, isNewSearch: bool)

  /** The message shown after a failed fetch. */
  function ErrorMessage(outcome: FetchOutcome): (m: string)
    requires !outcome.Received?
    ensures outcome.NotOk? ==> m == "Failed to fetch query stats"
    ensures outcome == Threw(None) ==> m == "Failed to load queries"
    ensures outcome.Threw? && outcome.message.Some? ==> m == outcome.message.value
  {
    match outcome
    case NotOk => "Failed to fetch query stats"
    case Threw(None) => "Failed to load queries"
    case Threw(Some(msg)) => msg
  }

  /** The URL parameters after a debounced search: `q` set to a non-empty term, deleted otherwise. */
  function WithSearchParam(params: map<string, string>, term: string): (r: map<string, string>)
    ensures term != "" ==> "q" in r && r["q"] == term
    ensures term == "" ==> "q" !in r
    ensures forall k :: k != "q" ==> (k in r <==> k in params)
    ensures forall k :: k != "q" && k in r ==> r[k] == params[k]
  {
    if term != "" then params["q" := term] else params - {"q"}
  }

  class SearchBoardContent {
    const initialSearch: string
    var queries: seq<QueryCount>
    var searchTerm: string
    var isLoading: bool
    var error: Option<string>
    var page: int
    var hasMore: bool
    var isFetchingMore: bool
    var totalSiteGenerations: int
    var estimatedCost: string
    var urlParams: map<string, string>

    ghost predicate Valid()
      reads this
    {
      page >= 1
    }

    /** The component's initial state, with the `q` URL parameter as the initial search. */
    constructor (params: map<string, string>)
      ensures Valid()
      ensures initialSearch == (if "q" in params then params["q"] else "")
      ensures searchTerm == initialSearch && urlParams == params
      ensures queries == [] && page == 1 && hasMore && isLoading && !isFetchingMore
      ensures error == None && totalSiteGenerations == 0 && estimatedCost == "0.00"
    {
      initialSearch := if "q" in params then params["q"] else "";
      searchTerm := initialSearch;
      urlParams := params;
      queries := [];
      isLoading := true;
      error := None;
      page := 1;
      hasMore := true;
      isFetchingMore := false;
      totalSiteGenerations := 0;
      estimatedCost := "0.00";
    }

    /** The start of `fetchQueries`, up to the network call. */
    method BeginFetch()
      requires Valid()
      modifies this
      ensures Valid() && isFetchingMore
      ensures queries == old(queries) && page == old(page) && hasMore == old(hasMore)
      ensures isLoading == old(isLoading) && error == old(error) && searchTerm == old(searchTerm)
      ensures totalSiteGenerations == old(totalSiteGenerations) && estimatedCost == old(estimatedCost)
      ensures urlParams == old(urlParams)
    {
      isFetchingMore := true;
    }

    /**
     * The rest of `fetchQueries`, once the request for a page has ended: merge the rows,
     * take the server's `hasMore`, refresh totals on a new search only, record a failure,
     * and clear both loading flags in every case.
     */
    method CompleteFetch(isNewSearch: bool, outcome: FetchOutcome)
      requires Valid()
      modifies this
      ensures Valid()
      ensures outcome.Received? ==> queries == MergeQueries(old(queries), outcome.data.queries, isNewSearch)
      ensures outcome.Received? ==> hasMore == outcome.data.hasMore
      ensures outcome.Received? && isNewSearch ==>
                totalSiteGenerations == outcome.data.totalSiteGenerations &&
                estimatedCost == outcome.data.estimatedCost
      ensures !(outcome.Received? && isNewSearch) ==>
                totalSiteGenerations == old(totalSiteGenerations) && estimatedCost == old(estimatedCost)
      ensures outcome.Received? ==> error == old(error)
      ensures !outcome.Received? ==>
                queries == old(queries) && hasMore == old(hasMore) && error == Some(ErrorMessage(outcome))
      ensures !isLoading && !isFetchingMore
      ensures page == old(page) && searchTerm == old(searchTerm) && urlParams == old(urlParams)
    {
      match outcome {
        case Received(data) =>
          queries := MergeQueries(queries, data.queries, isNewSearch);
          hasMore := data.hasMore;
          if isNewSearch {
            totalSiteGenerations := data.totalSiteGenerations;
            estimatedCost := data.estimatedCost;
          }
        case _ =>
          error := Some(ErrorMessage(outcome));
      }
      isLoading := false;
      isFetchingMore := false;
    }

    /** The initial-load effect: page 1 of the initial search, as a new search. */
    method InitialLoad() returns (request: Request)
      requires Valid()
      modifies this
      ensures Valid() && isFetchingMore
      ensures request == Request(1, initialSearch, true)
      ensures queries == old(queries) && page == old(page) && hasMore == old(hasMore)
      ensures isLoading == old(isLoading) && error == old(error) && searchTerm == old(searchTerm)
      ensures totalSiteGenerations == old(totalSiteGenerations) && estimatedCost == old(estimatedCost)
      ensures urlParams == old(urlParams)
    {
      BeginFetch();
      request := Request(1, initialSearch, true);
    }

    /** The search box changed. */
    method SetSearchTerm(term: string)
      requires Valid()
      modifies this
      ensures Valid()
      ensures searchTerm == term
      ensures queries == old(queries) && page == old(page) && hasMore == old(hasMore)
      ensures isLoading == old(isLoading) && isFetchingMore == old(isFetchingMore)
      ensures error == old(error) && urlParams == old(urlParams)
      ensures totalSiteGenerations == old(totalSiteGenerations) && estimatedCost == old(estimatedCost)
    {
      searchTerm := term;
    }

    /**
     * The debounced search effect: rewrite the `q` parameter, go back to page 1 and fetch
     * it as a new search.
     */
    method SearchSettled() returns (request: Request)
      requires Valid()
      modifies this
      ensures Valid() && isFetchingMore
      ensures urlParams == WithSearchParam(old(urlParams), searchTerm)
      ensures page == 1
      ensures request == Request(1, searchTerm, true)
      ensures queries == old(queries) && hasMore == old(hasMore) && isLoading == old(isLoading)
      ensures error == old(error) && searchTerm == old(searchTerm)
      ensures totalSiteGenerations == old(totalSiteGenerations) && estimatedCost == old(estimatedCost)
    {
      urlParams := WithSearchParam(urlParams, searchTerm);
      page := 1;
      BeginFetch();
      request := Request(1, searchTerm, true);
    }

    /**
     * The infinite-scroll effect: only when the sentinel is in view, more pages exist and
     * nothing is loading does it advance the page by one and fetch that page, appending.
     */
    method ScrollEffect(inView: bool) returns (request: Option<Request>)
      requires Valid()
      modifies this
      ensures Valid()
      ensures request.Some? <==> inView && old(hasMore) && !old(isFetchingMore) && !old(isLoading)
      ensures request.Some? ==>
                page == old(page) + 1 && isFetchingMore &&
                request.value == Request(old(page) + 1, searchTerm, false)
      ensures request.None? ==> page == old(page) && isFetchingMore == old(isFetchingMore)
      ensures queries == old(queries) && hasMore == old(hasMore) && isLoading == old(isLoading)
      ensures error == old(error) && searchTerm == old(searchTerm)
      ensures totalSiteGenerations == old(totalSiteGenerations) && estimatedCost == old(estimatedCost)
      ensures urlParams == old(urlParams)
    {
      if inView && hasMore && !isFetchingMore && !isLoading {
        var next := page + 1;
        page := next;
        BeginFetch();
        request := Some(Request(next, searchTerm, false));
      } else {
        request := None;
      }
    }
  }
}
