/** mnemonic/news/utils/search_utils.py: the lazily created search
    connection, the clause list `get_search_results` builds for the news
    index, and the serialisation of the hits. A search is modelled as the
    list of clauses added to it, in order; what the search engine does with
    them is not part of this model. */
module SearchUtils {
  import opened Wrappers
  import opened PyValues

  /** A connection handle, as `create_connection` hands it out. */
  type Handle = nat

  /** The module global `ES_CLIENT`. */
  class EsConnections {
    var client: Option<Handle>

    constructor ()
      ensures client == None
    {
      client := None;
    }

    /** `get_connection`: creates the connection (`created` is the handle
        `create_connection` would return) only while none exists. */
    method GetConnection(created: Handle) returns (h: Handle)
      modifies this
      ensures old(client).Some? ==> h == old(client).value && client == old(client)
      ensures old(client).None? ==> h == created && client == Some(created)
    {
      if client.None? {
        client := Some(created);
      }
      h := client.value;
    }
  }

  /** Every call after the first returns the handle the first one made,
      whatever handle a new `create_connection` would have produced. */
  method GetConnectionTwice(conn: EsConnections, first: Handle, second: Handle) returns (h1: Handle, h2: Handle)
    modifies conn
    ensures h1 == h2
    ensures old(conn.client).None? ==> h1 == first
  {
    h1 := conn.GetConnection(first);
    h2 := conn.GetConnection(second);
  }

  /** The `Q` objects the module builds. */
  datatype Query =
    | SimpleQueryString(query: Value, fields: seq<string>)
    | Match(field: string, value: Value)
    | BoolShould(should: seq<Query>)
    | Range(field: string, bounds: map<string, Value>)

  /** `s.filter(...)` or `s.query(...)` */
  datatype Clause = FilterClause(q: Query) | QueryClause(q: Query)

  /** A `Search(index="news")` after the calls made on it. */
  datatype Search = Search(index: string, clauses: seq<Clause>, sort: seq<string>, stop: Option<nat>)

  const NewsIndex := "news"
  const MaxHits := 100

  /** The match queries `[Q('match', **{field: v}) for v in values]`. */
  function Matches(field: string, values: seq<Value>): (r: seq<Query>)
    ensures |r| == |values|
    ensures forall i :: 0 <= i < |values| ==> r[i] == Match(field, values[i])
  {
    seq(|values|, i requires 0 <= i < |values| => Match(field, values[i]))
  }

  /** `filter_values`: one more clause, a single bool query whose `should`
      holds one match per value, in input order. */
  function FilterValues(s: Search, field: string, values: seq<Value>): (r: Search)
    ensures r.index == s.index && r.sort == s.sort && r.stop == s.stop
    ensures |r.clauses| == |s.clauses| + 1 && r.clauses[..|s.clauses|] == s.clauses
    ensures r.clauses[|s.clauses|] == QueryClause(BoolShould(Matches(field, values)))
  {
    s.(clauses := s.clauses + [QueryClause(BoolShould(Matches(field, values)))])
  }

  /** `x and x[0]` for a request parameter list (None is the empty list). */
  predicate FirstTruthy(xs: seq<Value>) {
    xs != [] && Truthy(xs[0])
  }

  /** The `published_on` bounds: `gte` from the start date, `lte` from the
      end date, each only when given and truthy. */
  function DateBounds(startDate: seq<Value>, endDate: seq<Value>): (r: map<string, Value>)
    ensures "gte" in r <==> FirstTruthy(startDate)
    ensures "lte" in r <==> FirstTruthy(endDate)
    ensures "gte" in r ==> r["gte"] == startDate[0]
    ensures "lte" in r ==> r["lte"] == endDate[0]
    ensures r.Keys <= {"gte", "lte"}
  {
    var b := if FirstTruthy(startDate) then map["gte" := startDate[0]] else map[];
    if FirstTruthy(endDate) then b["lte" := endDate[0]] else b
  }

  /** The text filter: `s.filter("simple_query_string", ...)` on title and
      body, when the first query term is truthy. */
  function TextClauses(query: seq<Value>): (r: seq<Clause>)
    ensures forall c :: c in r ==> c.FilterClause?
  {
    if FirstTruthy(query) then [FilterClause(SimpleQueryString(query[0], ["title", "body"]))] else []
  }

  /** The clause `filter_values` adds for a field, when there are values. */
  function ValuesClauses(field: string, values: seq<Value>): (r: seq<Clause>)
    ensures forall c :: c in r ==> c.QueryClause? && c.q.BoolShould?
  {
    if values != [] then [QueryClause(BoolShould(Matches(field, values)))] else []
  }

  /** The `published_on` range, when either date bound is truthy. */
  function RangeClauses(startDate: seq<Value>, endDate: seq<Value>): (r: seq<Clause>)
    ensures forall c :: c in r ==> c.QueryClause? && c.q.Range?
  {
    if FirstTruthy(startDate) || FirstTruthy(endDate) then [QueryClause(Range("published_on", DateBounds(startDate, endDate)))] else []
  }

  /** The search `get_search_results` plans: its clauses in the order they
      are added (the sources are the newspapers followed by the handles),
      sorted newest first. */
  function PlannedSearch(query: seq<Value>, newsTypes: seq<Value>, newspapers: seq<Value>, twitterHandles: seq<Value>,
                         twitterMentions: seq<Value>, startDate: seq<Value>, endDate: seq<Value>): Search
  {
    Search(NewsIndex,
           TextClauses(query) + ValuesClauses("news_type.raw", newsTypes) + ValuesClauses("source.raw", newspapers + twitterHandles)
           + ValuesClauses("mentions.raw", twitterMentions) + RangeClauses(startDate, endDate),
           ["-published_on"], None)
  }

  /** Lines 51-57 of `get_search_results`: the `published_on` range query. */
  method AddDateRange(s: Search, startDate: seq<Value>, endDate: seq<Value>) returns (t: Search)
    ensures t == s.(clauses := s.clauses + RangeClauses(startDate, endDate))
  {
    t := s;
    if FirstTruthy(startDate) || FirstTruthy(endDate) {
      var publishedOn: map<string, Value> := map[];
      if FirstTruthy(startDate) {
        publishedOn := publishedOn["gte" := startDate[0]];
      }
      if FirstTruthy(endDate) {
        publishedOn := publishedOn["lte" := endDate[0]];
      }
      assert publishedOn == DateBounds(startDate, endDate);
      t := t.(clauses := t.clauses + [QueryClause(Range("published_on", publishedOn))]);
    } else {
      assert s.clauses + [] == s.clauses;
    }
  }

  /** The search `get_search_results` builds, `s` rebound step by step. */
  method BuildSearch(query: seq<Value>, newsTypes: seq<Value>, newspapers: seq<Value>, twitterHandles: seq<Value>,
                     twitterMentions: seq<Value>, startDate: seq<Value>, endDate: seq<Value>)
    returns (s: Search)
    ensures s == PlannedSearch(query, newsTypes, newspapers, twitterHandles, twitterMentions, startDate, endDate)
  {
    s := Search(NewsIndex, [], [], None);
    if FirstTruthy(query) {
      s := s.(clauses := s.clauses + [FilterClause(SimpleQueryString(query[0], ["title", "body"]))]);
    }
    ghost var c := TextClauses(query);
    assert s.clauses == c;
    ghost var step := ValuesClauses("news_type.raw", newsTypes);
    if newsTypes != [] {
      s := FilterValues(s, "news_type.raw", newsTypes);
    } else {
      assert c + step == c;
    }
    c := c + step;
    assert s.clauses == c;
    step := ValuesClauses("source.raw", newspapers + twitterHandles);
    if newspapers != [] || twitterHandles != [] {
      var sources := newspapers + twitterHandles;
      s := FilterValues(s, "source.raw", sources);
    } else {
      assert c + step == c;
    }
    c := c + step;
    assert s.clauses == c;
    step := ValuesClauses("mentions.raw", twitterMentions);
    if twitterMentions != [] {
      s := FilterValues(s, "mentions.raw", twitterMentions);
    } else {
      assert c + step == c;
    }
    c := c + step;
    assert s.clauses == c;
    s := AddDateRange(s, startDate, endDate);
    s := s.(sort := ["-published_on"]);
  }

  predicate IsRangeClause(c: Clause) {
    c.QueryClause? && c.q.Range?
  }

  /** Only the text search is a filter, and it is there exactly when the
      first query term is truthy; every other clause is a query. */
  lemma FilterIffQuery(query: seq<Value>, newsTypes: seq<Value>, newspapers: seq<Value>, twitterHandles: seq<Value>,
                       twitterMentions: seq<Value>, startDate: seq<Value>, endDate: seq<Value>)
    ensures var s := PlannedSearch(query, newsTypes, newspapers, twitterHandles, twitterMentions, startDate, endDate);
      && (FirstTruthy(query) <==> exists c :: c in s.clauses && c.FilterClause?)
      && (FirstTruthy(query) ==> s.clauses[0] == FilterClause(SimpleQueryString(query[0], ["title", "body"])))
  {
    var s := PlannedSearch(query, newsTypes, newspapers, twitterHandles, twitterMentions, startDate, endDate);
    if FirstTruthy(query) {
      assert s.clauses[0] in s.clauses;
    } else {
      assert TextClauses(query) == [];
    }
  }

  /** A clause matching `source.raw` against the newspapers followed by the
      handles is there exactly when either list is non-empty. */
  lemma SourcesClauseIffSources(query: seq<Value>, newsTypes: seq<Value>, newspapers: seq<Value>, twitterHandles: seq<Value>,
                                twitterMentions: seq<Value>, startDate: seq<Value>, endDate: seq<Value>)
    ensures var s := PlannedSearch(query, newsTypes, newspapers, twitterHandles, twitterMentions, startDate, endDate);
      (newspapers != [] || twitterHandles != []) <==>
        QueryClause(BoolShould(Matches("source.raw", newspapers + twitterHandles))) in s.clauses
  {
    var s := PlannedSearch(query, newsTypes, newspapers, twitterHandles, twitterMentions, startDate, endDate);
    var src := QueryClause(BoolShould(Matches("source.raw", newspapers + twitterHandles)));
    var a := TextClauses(query);
    var b := ValuesClauses("news_type.raw", newsTypes);
    var c := ValuesClauses("source.raw", newspapers + twitterHandles);
    var d := ValuesClauses("mentions.raw", twitterMentions);
    var e := RangeClauses(startDate, endDate);
    if newspapers == [] && twitterHandles == [] {
      assert newspapers + twitterHandles == [];
      assert src == QueryClause(BoolShould([]));
      if b != [] {
        assert b[0].q.should[0] == Match("news_type.raw", newsTypes[0]);
      }
      if d != [] {
        assert d[0].q.should[0] == Match("mentions.raw", twitterMentions[0]);
      }
      assert src !in a && src !in b && c == [] && src !in d && src !in e;
    }
  }

  /** The range clause is there exactly when a date bound is given, and it
      then comes last. */
  lemma RangeIffDates(query: seq<Value>, newsTypes: seq<Value>, newspapers: seq<Value>, twitterHandles: seq<Value>,
                      twitterMentions: seq<Value>, startDate: seq<Value>, endDate: seq<Value>)
    ensures var s := PlannedSearch(query, newsTypes, newspapers, twitterHandles, twitterMentions, startDate, endDate);
      && ((FirstTruthy(startDate) || FirstTruthy(endDate)) <==> exists c :: c in s.clauses && IsRangeClause(c))
      && (FirstTruthy(startDate) || FirstTruthy(endDate) ==>
            s.clauses[|s.clauses| - 1] == QueryClause(Range("published_on", DateBounds(startDate, endDate))))
  {
    var s := PlannedSearch(query, newsTypes, newspapers, twitterHandles, twitterMentions, startDate, endDate);
    if FirstTruthy(startDate) || FirstTruthy(endDate) {
      assert s.clauses[|s.clauses| - 1] in s.clauses;
    } else {
      assert RangeClauses(startDate, endDate) == [];
    }
  }

  /** A hit as the search returns it: its fields and its meta data. */
  datatype Hit = Hit(fields: map<string, Value>, meta: map<string, Value>)

  /** One serialised hit: a copy of the fields plus `meta`, `published_on`
      converted by `fromIsoFormat` (which raises on a malformed date) when
      present. */
  function SerializeHit(h: Hit, fromIsoFormat: Value -> Result<Value>): (r: Result<map<string, Value>>)
    ensures r.Failure? <==> "published_on" in h.fields && fromIsoFormat(h.fields["published_on"]).Failure?
    ensures r.Success? ==> r.value.Keys == h.fields.Keys + {"meta"} && r.value["meta"] == VMap(h.meta)
    ensures r.Success? ==> forall k :: k in h.fields && k != "meta" && k != "published_on" ==> r.value[k] == h.fields[k]
    ensures r.Success? && "published_on" in h.fields ==> r.value["published_on"] == fromIsoFormat(h.fields["published_on"]).value
  {
    var d := h.fields["meta" := VMap(h.meta)];
    if "published_on" in d then
      match fromIsoFormat(d["published_on"])
      case Success(dt) => Success(d["published_on" := dt])
      case Failure(e) => Failure(e)
    else Success(d)
  }

  /** `serialize_search_results`, consumed to the end: the serialised hits in
      order, up to the first that fails to convert. */
  function SerializeSearchResults(hits: seq<Hit>, fromIsoFormat: Value -> Result<Value>): (r: (seq<map<string, Value>>, Outcome))
    ensures |r.0| <= |hits|
    ensures r.1.Pass? ==> |r.0| == |hits|
    ensures forall i :: 0 <= i < |r.0| ==> SerializeHit(hits[i], fromIsoFormat) == Success(r.0[i])
    ensures r.1.Fail? ==> |r.0| < |hits| && SerializeHit(hits[|r.0|], fromIsoFormat) == Failure(r.1.error)
    decreases |hits|
  {
    if hits == [] then ([], Pass)
    else
      match SerializeHit(hits[0], fromIsoFormat)
      case Failure(e) => ([], Fail(e))
      case Success(d) =>
        var rest := SerializeSearchResults(hits[1..], fromIsoFormat);
        ([d] + rest.0, rest.1)
  }

  /** `get_search_results`: the total count of the planned search and the
      serialised hits of its `[:100]` slice. `count` and `fetch` stand for
      running a search. */
  method GetSearchResults(query: seq<Value>, newsTypes: seq<Value>, newspapers: seq<Value>, twitterHandles: seq<Value>,
                          twitterMentions: seq<Value>, startDate: seq<Value>, endDate: seq<Value>,
                          count: Search -> int, fetch: Search -> seq<Hit>, fromIsoFormat: Value -> Result<Value>)
    returns (total: int, serialized: seq<map<string, Value>>, r: Outcome)
    ensures var s := PlannedSearch(query, newsTypes, newspapers, twitterHandles, twitterMentions, startDate, endDate);
      && total == count(s)
      && (serialized, r) == SerializeSearchResults(fetch(s.(stop := Some(MaxHits))), fromIsoFormat)
  {
    var s := BuildSearch(query, newsTypes, newspapers, twitterHandles, twitterMentions, startDate, endDate);
    var res := SerializeSearchResults(fetch(s.(stop := Some(MaxHits))), fromIsoFormat);
    serialized, r := res.0, res.1;
    total := count(s);
  }
}
