/** The stored counter document: one per requested path. */
module QueryCounts {

  /** A counter record; `lastQueried` is a timestamp in milliseconds. */
  datatype QueryCount = QueryCount(endpoint: string, count: int, lastQueried: int)

  /** The set of endpoints mentioned in a list of records. */
  function Endpoints(s: seq<QueryCount>): set<string> {
    set x | x in s :: x.endpoint
  }

  /** No two records of `s` share an endpoint. */
  predicate UniqueEndpoints(s: seq<QueryCount>) {
    forall i, j :: 0 <= i < j < |s| ==> s[i].endpoint != s[j].endpoint
  }
}
