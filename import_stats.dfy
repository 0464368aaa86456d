/**
 * The bulk reset script: it checks the connection string and, when it is acceptable,
 * replaces the stored counters with copies of the records it carries.
 */
module ImportStats {
  import opened Wrappers
  import opened QueryCounts

  /** The characters JavaScript's `\s` class matches. */
  predicate IsWhitespace(c: char) {
    c == ' ' || c == '\t' || c == '\n' || c == '\U{000B}' || c == '\U{000C}' || c == '\r' ||
    c == '\U{00A0}' || c == '\U{1680}' || ('\U{2000}' <= c <= '\U{200A}') ||
    c == '\U{2028}' || c == '\U{2029}' || c == '\U{202F}' || c == '\U{205F}' ||
    c == '\U{3000}' || c == '\U{FEFF}'
  }

  predicate NoWhitespace(s: string) {
    forall i :: 0 <= i < |s| ==> !IsWhitespace(s[i])
  }

  /** `s` holds `word` starting at position `at`. */
  predicate HasAt(s: string, at: nat, word: string) {
    at + |word| <= |s| && s[at..at + |word|] == word
  }

  const Plain := "mongodb://"
  const Srv := "mongodb+srv://"

  /**
   * The matcher for `^mongodb(?:\+srv)?:\/\/`: the position just after the scheme,
   * or None when the string does not start with one.
   */
  function SchemeEnd(uri: string): (e: Option<nat>)
    ensures e.Some? ==> (e.value == 10 || e.value == 14) && e.value <= |uri|
    ensures e.Some? ==> HasAt(uri, 0, "mongodb") && HasAt(uri, e.value - 3, "://")
  {
    if !HasAt(uri, 0, "mongodb") then None
    else
      var p := if HasAt(uri, 7, "+srv") then 11 else 7;
      if HasAt(uri, p, "://") then Some(p + 3) else None
  }

  /** `validateMongoURI`: a scheme, then one or more non-whitespace characters to the end. */
  predicate ValidateMongoURI(uri: string)
    ensures ValidateMongoURI(uri) ==>
              |uri| > |Plain| && HasAt(uri, 0, "mongodb") && !IsWhitespace(uri[|uri| - 1])
  {
    match SchemeEnd(uri)
    case None => false
    case Some(p) => p < |uri| && NoWhitespace(uri[p..])
  }

  /** The scheme matcher finds exactly the two schemes. */
  lemma SchemeEndCases(uri: string)
    ensures SchemeEnd(uri) == Some(|Plain|) <==> HasAt(uri, 0, Plain)
    ensures SchemeEnd(uri) == Some(|Srv|) <==> HasAt(uri, 0, Srv)
    ensures SchemeEnd(uri).Some? ==> SchemeEnd(uri) == Some(|Plain|) || SchemeEnd(uri) == Some(|Srv|)
  {
    if HasAt(uri, 0, Plain) {
      assert uri[..7] == Plain[..7] && uri[7..10] == Plain[7..];
      assert uri[7] == ':';
      assert !HasAt(uri, 7, "+srv");
    }
    if HasAt(uri, 0, Srv) {
      assert uri[..7] == Srv[..7] && uri[7..11] == Srv[7..11] && uri[11..14] == Srv[11..];
    }
    if SchemeEnd(uri) == Some(|Plain|) {
      assert uri[..10] == uri[..7] + uri[7..10];
    }
    if SchemeEnd(uri) == Some(|Srv|) {
      assert uri[..14] == uri[..7] + uri[7..11] + uri[11..14];
    }
  }

  /**
   * A URI is accepted exactly when it is one of the two schemes followed by a non-empty
   * rest free of whitespace.
   */
  lemma ValidateMongoURIExactly(uri: string)
    ensures ValidateMongoURI(uri) <==>
      (HasAt(uri, 0, Plain) && |uri| > |Plain| && NoWhitespace(uri[|Plain|..])) ||
      (HasAt(uri, 0, Srv) && |uri| > |Srv| && NoWhitespace(uri[|Srv|..]))
  {
    SchemeEndCases(uri);
  }

  /** The same, read from the parts: which rests the plain scheme accepts. */
  lemma PlainRests(rest: string)
    ensures ValidateMongoURI(Plain + rest) <==> |rest| > 0 && NoWhitespace(rest)
  {
    var u := Plain + rest;
    ValidateMongoURIExactly(u);
    assert u[..|Plain|] == Plain && u[|Plain|..] == rest;
    assert !HasAt(u, 0, Srv) by {
      assert u[7] == ':' && Srv[7] == '+';
      assert |u| >= |Srv| ==> u[..|Srv|][7] == u[7];
    }
  }

  /** Which rests the SRV scheme accepts. */
  lemma SrvRests(rest: string)
    ensures ValidateMongoURI(Srv + rest) <==> |rest| > 0 && NoWhitespace(rest)
  {
    var u := Srv + rest;
    ValidateMongoURIExactly(u);
    assert u[..|Srv|] == Srv && u[|Srv|..] == rest;
    assert !HasAt(u, 0, Plain) by {
      assert u[7] == '+' && Plain[7] == ':';
      assert u[..|Plain|][7] == u[7];
    }
  }

  /** Whitespace anywhere after the scheme makes the URI invalid. */
  lemma WhitespaceRejected(uri: string, i: nat)
    requires i < |uri| && IsWhitespace(uri[i])
    requires i >= |Plain|
    ensures !ValidateMongoURI(uri)
  {
    ValidateMongoURIExactly(uri);
    if HasAt(uri, 0, Plain) {
      assert uri[|Plain|..][i - |Plain|] == uri[i];
    }
    if HasAt(uri, 0, Srv) && i >= |Srv| {
      assert uri[|Srv|..][i - |Srv|] == uri[i];
    }
    if HasAt(uri, 0, Srv) && i < |Srv| {
      assert uri[i] == Srv[i];
    }
  }

  /** A scheme with nothing after it is refused. */
  lemma BareSchemesRejected()
    ensures !ValidateMongoURI(Plain) && !ValidateMongoURI(Srv)
  {
    PlainRests("");
    SrvRests("");
    assert Plain + "" == Plain && Srv + "" == Srv;
  }

  /** The match is anchored at the start: anything not opening with one of the schemes is refused. */
  lemma Anchored(uri: string)
    requires !HasAt(uri, 0, Plain) && !HasAt(uri, 0, Srv)
    ensures !ValidateMongoURI(uri)
  {
    ValidateMongoURIExactly(uri);
  }

  /** Leading space, other schemes and a shortened scheme name, by the rule above. */
  lemma AnchoredExamples()
    ensures !ValidateMongoURI(" mongodb://x")
    ensures !ValidateMongoURI("postgres://x")
    ensures !ValidateMongoURI("mongo://x")
  {
    var a, b, c := " mongodb://x", "postgres://x", "mongo://x";
    assert a[0] != Plain[0] && a[0] != Srv[0];
    assert b[0] != Plain[0] && b[0] != Srv[0];
    assert c[5] != Plain[5] && c[5] != Srv[5];
    Anchored(a);
    Anchored(b);
    Anchored(c);
  }

  /** The separator must be "://" in full. */
  lemma BrokenSeparatorRejected()
    ensures !ValidateMongoURI("mongodb:/x")
  {
    var u := "mongodb:/x";
    assert !HasAt(u, 7, "+srv") by {
      assert u[7] != "+srv"[0];
    }
    assert !HasAt(u, 7, "://") by {
      assert u[7..10][2] != "://"[2];
    }
  }

  /** A host, port and database after the plain scheme is accepted. */
  lemma PlainHostAccepted()
    ensures ValidateMongoURI("mongodb://h:27017/db")
  {
    PlainRests("h:27017/db");
    assert Plain + "h:27017/db" == "mongodb://h:27017/db";
  }

  /** A stored document: the three fields the script writes. */
  datatype Document = Document(endpoint: string, count: int, lastQueried: int)

  /** The `data.map` projection onto documents. */
  function Project(data: seq<QueryCount>): (docs: seq<Document>)
    ensures |docs| == |data|
  {
    if data == [] then []
    else [Document(data[0].endpoint, data[0].count, data[0].lastQueried)] + Project(data[1..])
  }

  /** A document read back as a counter record. */
  function Restore(docs: seq<Document>): (data: seq<QueryCount>)
    ensures |data| == |docs|
  {
    if docs == [] then []
    else [QueryCount(docs[0].endpoint, docs[0].count, docs[0].lastQueried)] + Restore(docs[1..])
  }

  /** Each document carries the fields of the record at the same position. */
  lemma {:induction false} ProjectKeepsFields(data: seq<QueryCount>, i: nat)
    requires i < |data|
    ensures Project(data)[i].endpoint == data[i].endpoint
    ensures Project(data)[i].count == data[i].count
    ensures Project(data)[i].lastQueried == data[i].lastQueried
  {
    if i > 0 {
      ProjectKeepsFields(data[1..], i - 1);
    }
  }

  /** Nothing is lost: reading the documents back gives the records, in order. */
  lemma {:induction false} ProjectRoundTrip(data: seq<QueryCount>)
    ensures Restore(Project(data)) == data
  {
    if data != [] {
      ProjectRoundTrip(data[1..]);
      assert Project(data)[1..] == Project(data[1..]);
    }
  }

  /** What the script does before any database work. */
  datatype Outcome =
    | MissingUri
    | InvalidUri
    | Connect(uri: string, documents: seq<Document>)

  /**
   * `importData` up to the connection: an absent or empty `MONGODB_URI` and a malformed
   * one both end the script; otherwise it connects and writes the projected records.
   */
  function ImportData(env: Option<string>, data: seq<QueryCount>): (o: Outcome)
    ensures o.Connect? <==> env.Some? && ValidateMongoURI(env.value)
    ensures o == MissingUri <==> env == None || env == Some("")
    ensures o.Connect? ==> o.uri == env.value && Restore(o.documents) == data
  {
    if env == None || env == Some("") then MissingUri
    else if !ValidateMongoURI(env.value) then InvalidUri
    else
      ProjectRoundTrip(data);
      Connect(env.value, Project(data))
  }
}
