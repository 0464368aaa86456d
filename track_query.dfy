/**
 * The dashboard read model behind `GET /api/track-query`: the stored counters are filtered
 * by a search term, ordered by count (descending) then endpoint (ascending), cut to one
 * page of 20, grouped by endpoint and ordered again; the reply also carries the filtered
 * total, whether more pages follow, and the unfiltered sum of all counts.
 */
module TrackQuery {
  import opened Wrappers
  import opened QueryCounts

  const ItemsPerPage: int := 20

  // ---------------------------------------------------------------- search filter

  /** ASCII upper-case letters fold to lower case; every other character is kept. */
  function Lower(c: char): char {
    if 'A' <= c <= 'Z' then (c as int + 32) as char else c
  }

  function LowerString(s: string): (r: string)
    ensures |r| == |s|
    ensures forall i :: 0 <= i < |s| ==> r[i] == Lower(s[i])
  {
    if s == [] then [] else [Lower(s[0])] + LowerString(s[1..])
  }

  predicate StartsWith(s: string, prefix: string) {
    |prefix| <= |s| && s[..|prefix|] == prefix
  }

  /** `needle` occurs in `hay` at some position. */
  predicate Contains(hay: string, needle: string) {
    exists i :: 0 <= i <= |hay| && StartsWith(hay[i..], needle)
  }

  /**
   * Whether a record with this endpoint passes the search: an empty term applies no filter;
   * otherwise the term (taken literally) must occur in the endpoint, ignoring ASCII case.
   */
  predicate Matches(search: string, endpoint: string)
    ensures search == [] ==> Matches(search, endpoint)
    ensures search == endpoint ==> Matches(search, endpoint)
    ensures Matches(search, endpoint) ==> |search| <= |endpoint|
  {
    assert search == endpoint ==> StartsWith(LowerString(endpoint)[0..], LowerString(search));
    search == [] || Contains(LowerString(endpoint), LowerString(search))
  }

  /** The records that pass the search, in their stored order. */
  function FilterBySearch(rs: seq<QueryCount>, search: string): (r: seq<QueryCount>)
    ensures |r| <= |rs|
    ensures forall x :: x in r ==> x in rs && Matches(search, x.endpoint)
    ensures forall x :: x in rs && Matches(search, x.endpoint) ==> x in r
  {
    if rs == [] then []
    else
      var rest := FilterBySearch(rs[1..], search);
      assert forall x :: x in rest ==> x in rs[1..];
      if Matches(search, rs[0].endpoint) then [rs[0]] + rest else rest
  }

  /** An empty term applies no filter. */
  lemma {:induction false} FilterEmptySearch(rs: seq<QueryCount>)
    ensures FilterBySearch(rs, []) == rs
  {
    if rs != [] {
      FilterEmptySearch(rs[1..]);
      assert rs == [rs[0]] + rs[1..];
    }
  }

  /** Filtering a list with unique endpoints keeps them unique. */
  lemma {:induction false} FilterKeepsUnique(rs: seq<QueryCount>, search: string)
    requires UniqueEndpoints(rs)
    ensures UniqueEndpoints(FilterBySearch(rs, search))
  {
    if rs != [] {
      var rest := FilterBySearch(rs[1..], search);
      FilterKeepsUnique(rs[1..], search);
      if Matches(search, rs[0].endpoint) {
        forall z | z in rest ensures z.endpoint != rs[0].endpoint {
          var k :| 0 <= k < |rs[1..]| && rs[1..][k] == z;
          assert rs[k + 1] == z;
        }
        ConsUnique(rs[0], rest);
      }
    }
  }

  /** A single record is kept exactly when it matches. */
  lemma FilterSingle(x: QueryCount, search: string)
    ensures FilterBySearch([x], search) == if Matches(search, x.endpoint) then [x] else []
  {
    assert [x][1..] == [];
  }

  /** Filtering a concatenation filters each part and keeps their order. */
  lemma {:induction false} FilterSplit(a: seq<QueryCount>, b: seq<QueryCount>, search: string)
    ensures FilterBySearch(a + b, search) == FilterBySearch(a, search) + FilterBySearch(b, search)
  {
    if a == [] {
      assert a + b == b;
    } else {
      assert (a + b)[0] == a[0] && (a + b)[1..] == a[1..] + b;
      FilterSplit(a[1..], b, search);
    }
  }

  /** The filter keeps every copy of a matching record and no copy of any other. */
  lemma {:induction false} FilterCount(rs: seq<QueryCount>, search: string, x: QueryCount)
    ensures multiset(FilterBySearch(rs, search))[x] ==
              if Matches(search, x.endpoint) then multiset(rs)[x] else 0
  {
    if rs != [] {
      var h, t := [rs[0]], rs[1..];
      assert rs == h + t;
      FilterSplit(h, t, search);
      FilterSingle(rs[0], search);
      FilterCount(t, search, x);
      assert multiset(rs) == multiset(h) + multiset(t);
      assert multiset(FilterBySearch(rs, search)) ==
               multiset(FilterBySearch(h, search)) + multiset(FilterBySearch(t, search));
    }
  }

  // ---------------------------------------------------------------- ordering

  /** Lexicographic order on strings by character code, as the store compares endpoints. */
  predicate LexLe(a: string, b: string)
    decreases |a|
  {
    if a == [] then true
    else if b == [] then false
    else if a[0] != b[0] then a[0] < b[0]
    else LexLe(a[1..], b[1..])
  }

  lemma {:induction false} LexTotal(a: string, b: string)
    ensures LexLe(a, b) || LexLe(b, a)
    decreases |a|
  {
    if a != [] && b != [] && a[0] == b[0] {
      LexTotal(a[1..], b[1..]);
    }
  }

  lemma {:induction false} LexTransitive(a: string, b: string, c: string)
    requires LexLe(a, b) && LexLe(b, c)
    ensures LexLe(a, c)
    decreases |a|
  {
    if a != [] && b != [] && c != [] && a[0] == b[0] == c[0] {
      LexTransitive(a[1..], b[1..], c[1..]);
    }
  }

  lemma {:induction false} LexAntisymmetric(a: string, b: string)
    requires LexLe(a, b) && LexLe(b, a)
    ensures a == b
    decreases |a|
  {
    if a != [] && b != [] {
      LexAntisymmetric(a[1..], b[1..]);
      assert a == [a[0]] + a[1..] && b == [b[0]] + b[1..];
    }
  }

  /** `x` may stand before `y`: a higher count first, equal counts by ascending endpoint. */
  predicate Precedes(x: QueryCount, y: QueryCount) {
    x.count > y.count || (x.count == y.count && LexLe(x.endpoint, y.endpoint))
  }

  predicate Sorted(s: seq<QueryCount>) {
    forall i, j :: 0 <= i < j < |s| ==> Precedes(s[i], s[j])
  }

  /** Inserts `x` into a sorted list, before the first record it may precede. */
  function Insert(x: QueryCount, s: seq<QueryCount>): (r: seq<QueryCount>)
    requires Sorted(s)
    ensures Sorted(r)
    ensures multiset(r) == multiset(s) + multiset{x}
  {
    if s == [] then [x]
    else if Precedes(x, s[0]) then
      PrecedesAll(x, s);
      [x] + s
    else
      var rest := Insert(x, s[1..]);
      assert s == [s[0]] + s[1..];
      assert Precedes(s[0], x) by { LexTotal(x.endpoint, s[0].endpoint); }
      forall y | y in rest ensures Precedes(s[0], y) {
        assert y in multiset(rest);
      }
      ConsSorted(s[0], rest);
      [s[0]] + rest
  }

  /** A record that precedes the head of a sorted list precedes all of it. */
  lemma PrecedesAll(x: QueryCount, s: seq<QueryCount>)
    requires Sorted(s) && s != [] && Precedes(x, s[0])
    ensures Sorted([x] + s)
  {
    forall j | 0 <= j < |s| ensures Precedes(x, s[j]) {
      if 0 < j { PrecedesTransitive(x, s[0], s[j]); }
    }
  }

  lemma ConsSorted(y: QueryCount, s: seq<QueryCount>)
    requires Sorted(s)
    requires forall z :: z in s ==> Precedes(y, z)
    ensures Sorted([y] + s)
  {
    var r := [y] + s;
    forall i, j | 0 <= i < j < |r| ensures Precedes(r[i], r[j]) {
      assert r[j] == s[j - 1];
      if 0 < i { assert r[i] == s[i - 1]; }
    }
  }

  lemma PrecedesTransitive(x: QueryCount, y: QueryCount, z: QueryCount)
    requires Precedes(x, y) && Precedes(y, z)
    ensures Precedes(x, z)
  {
    if x.count == y.count == z.count {
      LexTransitive(x.endpoint, y.endpoint, z.endpoint);
    }
  }

  /** The store's `$sort: {count: -1, endpoint: 1}`: an ordered permutation of its input. */
  function SortQueries(s: seq<QueryCount>): (r: seq<QueryCount>)
    ensures Sorted(r)
    ensures multiset(r) == multiset(s)
  {
    if s == [] then []
    else
      assert s == [s[0]] + s[1..];
      Insert(s[0], SortQueries(s[1..]))
  }

  lemma ConsUnique(y: QueryCount, s: seq<QueryCount>)
    requires UniqueEndpoints(s)
    requires forall z :: z in s ==> z.endpoint != y.endpoint
    ensures UniqueEndpoints([y] + s)
  {
    var r := [y] + s;
    forall i, j | 0 <= i < j < |r| ensures r[i].endpoint != r[j].endpoint {
      assert r[j] == s[j - 1];
      if 0 < i { assert r[i] == s[i - 1]; }
    }
  }

  /** Inserting a record with a new endpoint keeps endpoints unique. */
  lemma {:induction false} InsertKeepsUnique(x: QueryCount, s: seq<QueryCount>)
    requires Sorted(s) && UniqueEndpoints(s)
    requires forall y :: y in s ==> y.endpoint != x.endpoint
    ensures UniqueEndpoints(Insert(x, s))
  {
    if s != [] && !Precedes(x, s[0]) {
      var rest := Insert(x, s[1..]);
      InsertKeepsUnique(x, s[1..]);
      forall z | z in rest ensures z.endpoint != s[0].endpoint {
        assert z in multiset(rest);
      }
      ConsUnique(s[0], rest);
    } else {
      ConsUnique(x, s);
    }
  }

  /** Sorting a list whose endpoints are unique keeps them unique. */
  lemma {:induction false} SortKeepsUnique(s: seq<QueryCount>)
    requires UniqueEndpoints(s)
    ensures UniqueEndpoints(SortQueries(s))
  {
    if s != [] {
      var tail := SortQueries(s[1..]);
      SortKeepsUnique(s[1..]);
      forall y | y in tail ensures y.endpoint != s[0].endpoint {
        assert y in multiset(s[1..]);
      }
      InsertKeepsUnique(s[0], tail);
    }
  }

  // ---------------------------------------------------------------- paging and grouping

  /** The number of records skipped before page `page` (pages count from 1). */
  function Skip(page: int): (n: nat)
    requires page >= 1
    ensures n % ItemsPerPage == 0 && (page == 1 <==> n == 0)
    ensures page > 1 ==> n == Skip(page - 1) + ItemsPerPage
  {
    (page - 1) * ItemsPerPage
  }

  /** `$skip` then `$limit`: positions `skip .. skip+19` of `s`, as far as they exist. */
  function PageWindow(s: seq<QueryCount>, skip: nat): (r: seq<QueryCount>)
    ensures |r| == if |s| <= skip then 0 else if |s| - skip < ItemsPerPage then |s| - skip else ItemsPerPage
    ensures forall k :: 0 <= k < |r| ==> r[k] == s[skip + k]
  {
    if |s| <= skip then []
    else if |s| - skip < ItemsPerPage then s[skip..]
    else s[skip..skip + ItemsPerPage]
  }

  /** The first record of `s` with endpoint `e`, if any. */
  function FirstWith(s: seq<QueryCount>, e: string): Option<QueryCount> {
    if s == [] then None
    else if s[0].endpoint == e then Some(s[0])
    else FirstWith(s[1..], e)
  }

  /**
   * `$group` by endpoint with `$first` of each field: one record per endpoint not in
   * `seen`, the first one met in `s`.
   */
  function GroupByEndpoint(s: seq<QueryCount>, seen: set<string>): (r: seq<QueryCount>)
    ensures UniqueEndpoints(r)
    ensures |r| <= |s|
    ensures forall x :: x in r ==> x in s && x.endpoint !in seen
    ensures forall x :: x in r ==> FirstWith(s, x.endpoint) == Some(x)
    ensures forall x :: x in s && x.endpoint !in seen ==> x.endpoint in Endpoints(r)
    ensures UniqueEndpoints(s) && (forall x :: x in s ==> x.endpoint !in seen) ==> r == s
  {
    if s == [] then []
    else
      var e := s[0].endpoint;
      if e in seen then
        GroupByEndpoint(s[1..], seen)
      else
        var rest := GroupByEndpoint(s[1..], seen + {e});
        ConsUnique(s[0], rest);
        assert UniqueEndpoints(s) ==> UniqueEndpoints(s[1..]);
        [s[0]] + rest
  }

  /** `$sum` of `count` over every stored record. */
  function SumCounts(rs: seq<QueryCount>): (total: int)
    ensures (forall x :: x in rs ==> x.count >= 0) ==>
              total >= 0 && forall x :: x in rs ==> x.count <= total
    ensures rs == [] ==> total == 0
  {
    if rs == [] then 0 else rs[0].count + SumCounts(rs[1..])
  }

  /** The JSON body of a successful reply (the two-decimal cost estimate is not modelled). */
  datatype Page = Page(queries: seq<QueryCount>, totalCount: int, hasMore: bool, totalSiteGenerations: int)

  /** The records that pass the search, ordered as `$sort` orders them: what `$match` + `$sort` yield. */
  function Matched(rs: seq<QueryCount>, search: string): (m: seq<QueryCount>)
    ensures Sorted(m)
    ensures multiset(m) == multiset(FilterBySearch(rs, search))
    ensures |m| == |FilterBySearch(rs, search)|
    ensures forall x :: x in m ==> x in rs && Matches(search, x.endpoint)
    ensures UniqueEndpoints(rs) ==> UniqueEndpoints(m)
  {
    var f := FilterBySearch(rs, search);
    PermutationFacts(f, SortQueries(f));
    assert UniqueEndpoints(rs) ==> UniqueEndpoints(SortQueries(f)) by {
      if UniqueEndpoints(rs) { FilterKeepsUnique(rs, search); SortKeepsUnique(f); }
    }
    SortQueries(f)
  }

  /** A permutation has the same length and the same elements. */
  lemma PermutationFacts(a: seq<QueryCount>, b: seq<QueryCount>)
    requires multiset(a) == multiset(b)
    ensures |a| == |b|
    ensures forall x :: x in b ==> x in a
  {
    assert |multiset(a)| == |multiset(b)|;
    forall x | x in b ensures x in a {
      assert x in multiset(b);
    }
  }

  /** The read pipeline over the stored records for one page and search term. */
  function ListQueries(rs: seq<QueryCount>, page: int, search: string): (p: Page)
    requires page >= 1
    ensures p.totalCount == |FilterBySearch(rs, search)|
    ensures Sorted(p.queries)
    ensures UniqueEndpoints(p.queries)
    ensures |p.queries| <= ItemsPerPage
    ensures forall x :: x in p.queries ==> x in PageWindow(Matched(rs, search), Skip(page))
    ensures forall x :: x in p.queries ==> x in rs && Matches(search, x.endpoint)
    ensures p.hasMore <==> p.totalCount > Skip(page) + |p.queries|
    ensures p.totalSiteGenerations == SumCounts(rs)
  {
    var window := PageWindow(Matched(rs, search), Skip(page));
    var grouped := GroupByEndpoint(window, {});
    var queries := SortQueries(grouped);
    SortKeepsUnique(grouped);
    PermutationFacts(grouped, queries);
    PageDrawnFromWindow(rs, search, Skip(page), grouped, queries);
    var total := |FilterBySearch(rs, search)|;
    Page(queries, total, total > Skip(page) + |queries|, SumCounts(rs))
  }

  /** Every record of a permutation of part of the window lies in the window and in the store. */
  lemma PageDrawnFromWindow(rs: seq<QueryCount>, search: string, skip: nat,
                            grouped: seq<QueryCount>, queries: seq<QueryCount>)
    requires forall x :: x in grouped ==> x in PageWindow(Matched(rs, search), skip)
    requires multiset(queries) == multiset(grouped)
    ensures forall x :: x in queries ==> x in PageWindow(Matched(rs, search), skip)
    ensures forall x :: x in queries ==> x in rs && Matches(search, x.endpoint)
  {
    var matched := Matched(rs, search);
    var window := PageWindow(matched, skip);
    forall x | x in queries
      ensures x in window && x in rs && Matches(search, x.endpoint)
    {
      assert x in multiset(queries);
      assert x in grouped;
      var k :| 0 <= k < |window| && window[k] == x;
      assert x == matched[skip + k];
    }
  }

  /**
   * When the store keeps one record per endpoint, a page holds min(20, what is left)
   * records, exactly the window's, and more pages follow exactly when more than
   * `skip + 20` records match.
   */
  lemma UniqueStorePaging(rs: seq<QueryCount>, page: int, search: string)
    requires page >= 1
    requires UniqueEndpoints(rs)
    ensures var p := ListQueries(rs, page, search);
            var n, skip := p.totalCount, Skip(page);
            && multiset(p.queries) == multiset(PageWindow(Matched(rs, search), skip))
            && |p.queries| == (if n <= skip then 0 else if n - skip < ItemsPerPage then n - skip else ItemsPerPage)
            && (p.hasMore <==> n > skip + ItemsPerPage)
  {
    var matched := Matched(rs, search);
    var window := PageWindow(matched, Skip(page));
    assert UniqueEndpoints(window) by {
      forall i, j | 0 <= i < j < |window| ensures window[i].endpoint != window[j].endpoint {
        assert window[i] == matched[Skip(page) + i] && window[j] == matched[Skip(page) + j];
      }
    }
    assert GroupByEndpoint(window, {}) == window;
    assert |SortQueries(window)| == |window| by {
      assert |multiset(SortQueries(window))| == |multiset(window)|;
    }
  }

  /** The reply to a request: a store failure becomes status 500 with a fixed message. */
  datatype Reply = Ok(body: Page) | Failure(status: int, error: string)

  /**
   * `GET /api/track-query?page=…&search=…`. `store` is None when reaching the store or
   * running one of its queries fails; `page` defaults to 1 and `search` to "".
   */
  function Get(store: Option<seq<QueryCount>>, pageParam: Option<int>, searchParam: Option<string>): (r: Reply)
    requires pageParam.Some? ==> pageParam.value >= 1
    ensures store.None? <==> r == Failure(500, "Internal server error")
    ensures store.Some? ==>
              r == Ok(ListQueries(store.value,
                                  if pageParam.Some? then pageParam.value else 1,
                                  if searchParam.Some? then searchParam.value else ""))
    ensures store.Some? && pageParam.None? && searchParam.None? ==> r == Ok(ListQueries(store.value, 1, ""))
    ensures r.Ok? ==> r.body.totalSiteGenerations == SumCounts(store.value)
  {
    match store
    case None => Failure(500, "Internal server error")
    case Some(rs) =>
      var page := if pageParam.Some? then pageParam.value else 1;
      var search := if searchParam.Some? then searchParam.value else "";
      Ok(ListQueries(rs, page, search))
  }

  lemma ContainsAt(hay: string, needle: string, i: nat)
    requires i <= |hay| && StartsWith(hay[i..], needle)
    ensures Contains(hay, needle)
  {
  }

  /** "cat" matches any endpoint holding the letters c, a, t in a row, in either case. */
  lemma CatAt(hay: string, i: nat)
    requires i + 3 <= |hay|
    requires Lower(hay[i]) == 'c' && Lower(hay[i + 1]) == 'a' && Lower(hay[i + 2]) == 't'
    ensures Matches("cat", hay)
  {
    var c := LowerString("cat");
    assert c == "cat" by {
      assert c[0] == 'c' && c[1] == 'a' && c[2] == 't';
    }
    var a := LowerString(hay);
    assert a[i..][..3] == c by {
      assert a[i] == 'c' && a[i + 1] == 'a' && a[i + 2] == 't';
    }
    ContainsAt(a, c, i);
  }

  /** The search is case-insensitive: "cat" finds "/Category-page" and "/wildcats". */
  lemma CatSearchExamples(upper: string, plural: string)
    requires upper == "/Category-page" && plural == "/wildcats"
    ensures Matches("cat", upper) && Matches("cat", plural)
  {
    CatAt(upper, 1);
    CatAt(plural, 5);
  }
}
