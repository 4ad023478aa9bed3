/** The older, blocking search service: it refuses to search unless the Elasticsearch
    probe succeeds, sends one full-text query to the `documentation` index, and
    projects each hit with defaults. Every failure is rethrown with the prefix
    `Search failed: `. The probe and the search call are parameters. */
module LegacySearch {
  import opened Wrappers

  /** The probe's report: a status on success, an error message on failure. */
  datatype Status = Status(isRunning: bool, status: Option<string>, error: Option<string>)

  datatype MultiMatch = MultiMatch(query: string, fields: seq<string>, fuzziness: string, minimumShouldMatch: string)
  /** An exact-term filter; an absent value is sent as `undefined`. */
  datatype Term = Term(field: string, value: Option<string>)
  datatype HighlightField = HighlightField(field: string, fragmentSize: Option<nat>, numberOfFragments: Option<nat>)

  /** The request sent to Elasticsearch. */
  datatype SearchRequest = SearchRequest(index: string, must: MultiMatch, filter: seq<Term>,
                                         highlight: seq<HighlightField>, sourceFields: seq<string>, size: nat)

  /** The stored fields of a hit; any of them may be missing. */
  datatype HitSource = HitSource(title: Option<string>, content: Option<string>,
                                 language: Option<string>, framework: Option<string>)
  /** A hit; its `_source` may be missing, and reading a field of it then throws. */
  datatype EsHit = EsHit(id: string, score: Option<int>, source: Option<HitSource>,
                         highlight: Option<map<string, seq<string>>>)
  /** `hits.total`, whose `value` may be missing. */
  datatype HitsTotal = HitsTotal(value: Option<int>)
  /** The `hits` object of a reply; `total` and the inner `hits` list may be missing. */
  datatype Hits = Hits(total: Option<HitsTotal>, hits: Option<seq<EsHit>>)
  /** A search reply; `hits` may be absent. */
  datatype EsReply = EsReply(hits: Option<Hits>)

  datatype FoundDoc = FoundDoc(id: string, score: Option<int>, title: string, content: string,
                               language: Option<string>, framework: Option<string>,
                               highlights: map<string, seq<string>>)
  /** The result; `total` is `undefined` when the reply's total has no `value`. */
  datatype SearchResult = SearchResult(total: Option<int>, results: seq<FoundDoc>)

  const NotAvailable := "Elasticsearch is not available"

  /** The `TypeError` message for reading `key` of `undefined`. */
  function ReadOfUndefined(key: string): string {
    "Cannot read properties of undefined (reading '" + key + "')"
  }

  /** `checkElasticsearchStatus`: never fails. */
  function CheckElasticsearchStatus(health: Result<string>): (r: Status)
    ensures r.isRunning <==> health.Success?
    ensures r.isRunning ==> r.status == Some(health.value) && r.error.None?
    ensures !r.isRunning ==> r.status.None? && r.error == Some(health.error)
  {
    match health
    case Success(status) => Status(true, Some(status), None)
    case Failure(e) => Status(false, None, Some(e))
  }

  /** The query: fuzzy multi-field match with the title boosted twice over the
      content, exact filters on language and framework, highlighted fragments,
      four stored fields and at most ten hits. */
  function QueryBody(query: string, language: Option<string>, framework: Option<string>): (r: SearchRequest)
    ensures r.index == "documentation" && r.size == 10
    ensures r.must.query == query && r.must.fields == ["title^2", "content"]
    ensures r.filter == [Term("language", language), Term("framework", framework)]
  {
    SearchRequest(
      "documentation",
      MultiMatch(query, ["title^2", "content"], "AUTO", "70%"),
      [Term("language", language), Term("framework", framework)],
      [HighlightField("title", None, None), HighlightField("content", Some(150), Some(3))],
      ["title", "content", "language", "framework"],
      10)
  }

  /** `s || ''` for an optional string. */
  function OrEmpty(s: Option<string>): string {
    if s.Some? then s.value else ""
  }

  /** One hit as a result: id and score copied, title and content defaulting to the
      empty string, highlights to an empty map. A hit without `_source` throws when
      its title is read. */
  function Project(h: EsHit): (r: Result<FoundDoc>)
    ensures r.Failure? <==> h.source.None?
    ensures r.Failure? ==> r.error == ReadOfUndefined("title")
    ensures r.Success? ==> r.value.id == h.id && r.value.score == h.score
    ensures r.Success? ==> r.value.title == (if h.source.value.title.Some? then h.source.value.title.value else "")
    ensures r.Success? ==> r.value.content == (if h.source.value.content.Some? then h.source.value.content.value else "")
    ensures r.Success? ==> r.value.language == h.source.value.language && r.value.framework == h.source.value.framework
    ensures r.Success? ==> r.value.highlights == (if h.highlight.Some? then h.highlight.value else map[])
  {
    match h.source
    case None => Failure(ReadOfUndefined("title"))
    case Some(src) =>
      Success(FoundDoc(h.id, h.score, OrEmpty(src.title), OrEmpty(src.content),
                       src.language, src.framework, h.highlight.GetOr(map[])))
  }

  /** `hits.map(...)`: every hit projected in order; the first hit without `_source`
      throws. */
  function ProjectAll(hits: seq<EsHit>): (r: Result<seq<FoundDoc>>)
    ensures r.Success? <==> forall i :: 0 <= i < |hits| ==> hits[i].source.Some?
    ensures r.Failure? ==> r.error == ReadOfUndefined("title")
    ensures r.Success? ==> |r.value| == |hits| && forall i :: 0 <= i < |hits| ==> r.value[i] == Project(hits[i]).value
  {
    if hits == [] then Success([])
    else
      match Project(hits[0])
      case Failure(e) => Failure(e)
      case Success(doc) =>
        match ProjectAll(hits[1..])
        case Failure(e) =>
          assert forall i :: 0 <= i < |hits| - 1 ==> hits[1..][i] == hits[i + 1];
          Failure(e)
        case Success(rest) => Success([doc] + rest)
  }

  /** What a reply becomes: no `hits` is an empty result; otherwise `hits.total.value`
      is read first (throwing when `total` is missing), then `hits.hits` is mapped
      (throwing when it is missing). */
  function Interpret(reply: EsReply): Result<SearchResult> {
    match reply.hits
    case None => Success(SearchResult(Some(0), []))
    case Some(hits) =>
      if hits.total.None? then Failure(ReadOfUndefined("value"))
      else if hits.hits.None? then Failure(ReadOfUndefined("map"))
      else
        match ProjectAll(hits.hits.value)
        case Failure(e) => Failure(e)
        case Success(results) => Success(SearchResult(hits.total.value.value, results))
  }

  /** `searchDocuments`: a failure anywhere is rethrown with the `Search failed: `
      prefix; a result is only produced after a successful probe. */
  function SearchDocuments(query: string, language: Option<string>, framework: Option<string>,
                           health: Result<string>, search: SearchRequest -> Result<EsReply>): (r: Result<SearchResult>)
    ensures r.Success? ==> health.Success? && search(QueryBody(query, language, framework)).Success?
    ensures r.Failure? ==> |r.error| >= |"Search failed: "| && r.error[..|"Search failed: "|] == "Search failed: "
  {
    if !CheckElasticsearchStatus(health).isRunning then Failure("Search failed: " + NotAvailable)
    else
      match search(QueryBody(query, language, framework))
      case Failure(e) => Failure("Search failed: " + e)
      case Success(reply) =>
        match Interpret(reply)
        case Failure(e) => Failure("Search failed: " + e)
        case Success(result) => Success(result)
  }

  /** With the cluster down the search is never sent: the outcome does not depend
      on the search service, and it is the fixed "not available" failure. */
  lemma {:induction false} UnavailableNeverSearches(query: string, language: Option<string>, framework: Option<string>,
                                 e: string, search1: SearchRequest -> Result<EsReply>,
                                 search2: SearchRequest -> Result<EsReply>)
    ensures SearchDocuments(query, language, framework, Failure(e), search1)
         == SearchDocuments(query, language, framework, Failure(e), search2)
         == Failure("Search failed: " + NotAvailable)
  {
  }

  /** Every failure is `Search failed: ` followed by the original message: the fixed
      "not available" text, the search call's own error, or the `TypeError` of reading
      a missing `total`, `hits` or `_source`. */
  lemma {:induction false} FailuresArePrefixed(query: string, language: Option<string>, framework: Option<string>,
                            health: Result<string>, search: SearchRequest -> Result<EsReply>)
    ensures var r := SearchDocuments(query, language, framework, health, search);
      r.Failure? ==> (exists m :: r.error == "Search failed: " + m &&
                       (m == NotAvailable || search(QueryBody(query, language, framework)) == Failure(m) ||
                        m in {ReadOfUndefined("value"), ReadOfUndefined("map"), ReadOfUndefined("title")}))
  {
    var r := SearchDocuments(query, language, framework, health, search);
    if r.Failure? {
      if health.Failure? {
        assert r.error == "Search failed: " + NotAvailable;
      } else {
        var reply := search(QueryBody(query, language, framework));
        if reply.Failure? {
          assert r.error == "Search failed: " + reply.error;
        } else {
          var m := Interpret(reply.value).error;
          assert r.error == "Search failed: " + m;
        }
      }
    }
  }

  /** A reply without hits is an empty result. */
  lemma {:induction false} NoHitsIsEmpty(query: string, language: Option<string>, framework: Option<string>,
                      status: string, search: SearchRequest -> Result<EsReply>)
    requires search(QueryBody(query, language, framework)) == Success(EsReply(None))
    ensures SearchDocuments(query, language, framework, Success(status), search) == Success(SearchResult(Some(0), []))
  {
  }

  /** A reply with hits but a missing `total`, a missing hit list, or a hit without
      `_source` fails with the `TypeError` of that read, checked in that order. */
  lemma {:induction false} MissingFieldsThrow(query: string, language: Option<string>, framework: Option<string>,
                      status: string, search: SearchRequest -> Result<EsReply>, hits: Hits)
    requires search(QueryBody(query, language, framework)) == Success(EsReply(Some(hits)))
    ensures var r := SearchDocuments(query, language, framework, Success(status), search);
      (hits.total.None? ==> r == Failure("Search failed: " + ReadOfUndefined("value"))) &&
      (hits.total.Some? && hits.hits.None? ==> r == Failure("Search failed: " + ReadOfUndefined("map"))) &&
      (hits.total.Some? && hits.hits.Some? && (exists i :: 0 <= i < |hits.hits.value| && hits.hits.value[i].source.None?) ==>
        r == Failure("Search failed: " + ReadOfUndefined("title")))
  {
  }

  /** With a total and a hit list whose hits all have `_source`, `total` is the
      reported total (possibly `undefined`), whatever the number of hits returned,
      and the results are the hits projected one by one, in order. */
  lemma {:induction false} HitsProjected(query: string, language: Option<string>, framework: Option<string>,
                      status: string, search: SearchRequest -> Result<EsReply>, hits: Hits)
    requires search(QueryBody(query, language, framework)) == Success(EsReply(Some(hits)))
    requires hits.total.Some? && hits.hits.Some?
    requires forall i :: 0 <= i < |hits.hits.value| ==> hits.hits.value[i].source.Some?
    ensures var r := SearchDocuments(query, language, framework, Success(status), search);
      r.Success? && r.value.total == hits.total.value.value && |r.value.results| == |hits.hits.value| &&
      forall i :: 0 <= i < |hits.hits.value| ==> r.value.results[i] == Project(hits.hits.value[i]).value
  {
  }
}
