/** The aggregating search service: it probes Elasticsearch, asks GitHub code search
    and MDN for hits, indexes those hits into Elasticsearch when the cluster is up,
    and returns the hits tagged with their source and a deterministic id, sorted by
    descending score. External services are the `Services` object: each call is
    logged in `calls`, and its outcome is a fixed function of the request. */
module SearchAggregator {
  import opened Wrappers
  import Utf8
  import Base64
  import StableSort
  import Text

  // ---------------------------------------------------------------- data

  /** An item of a GitHub code-search reply. */
  datatype GitHubItem = GitHubItem(name: string, path: string, htmlUrl: string, score: Option<int>)

  /** A document of an MDN search reply; `mdnUrl` is a site-relative path. */
  datatype MdnDocument = MdnDocument(title: string, summary: string, mdnUrl: string, score: Option<int>)

  /** A hit as an adapter returns it; only GitHub hits carry a repository. */
  datatype Doc = Doc(title: string, summary: string, url: string, score: Option<int>, repository: Option<string>)

  /** A merged result: the hit's own fields plus its id and the name of its source. */
  datatype Hit = Hit(doc: Doc, id: string, source: string)

  datatype GitHubRequest = GitHubRequest(url: string, q: string, perPage: nat, accept: string, authorization: string)
  datatype MdnRequest = MdnRequest(url: string, q: string, locale: string, highlight: bool)

  datatype ClusterHealth = ClusterHealth(status: string, numberOfNodes: int, activeShards: int)
  datatype EsStatus = EsStatus(isRunning: bool, status: string, numberOfNodes: Option<int>,
                               activeShards: Option<int>, error: Option<string>)

  /** An entry of an Elasticsearch bulk body: an action line or a document line. */
  datatype BulkEntry = IndexAction(index: string) | BulkDoc(doc: Doc, source: string, kind: string)

  /** A request sent to an external service. */
  datatype Call = HealthCall | GitHubCall(github: GitHubRequest) | MdnCall(mdn: MdnRequest) | BulkCall(body: seq<BulkEntry>)

  datatype Sources = Sources(elasticsearch: bool, github: bool, mdn: bool)
  datatype Metadata = Metadata(query: string, language: string, framework: Option<string>,
                               error: Option<string>, sources: Sources)
  datatype SearchResponse = SearchResponse(total: nat, results: seq<Hit>, metadata: Metadata)

  const GitHubSearchUrl := "https://api.github.com/search/code"
  const GitHubAccept := "application/vnd.github.v3+json"
  const MdnSearchUrl := "https://developer.mozilla.org/api/v1/search"
  const MdnSite := "https://developer.mozilla.org"
  const ExternalIndex := "external_docs"

  /** The outside world: the Elasticsearch cluster, GitHub and MDN. */
  class Services {
    const health: Result<ClusterHealth>
    const github: GitHubRequest -> Result<seq<GitHubItem>>
    const mdn: MdnRequest -> Result<seq<MdnDocument>>
    const bulk: seq<BulkEntry> -> Result<()>
    /** The `GITHUB_API_KEY` environment variable. */
    const githubToken: Option<string>
    /** Every request sent so far, in order. */
    var calls: seq<Call>

    constructor(health: Result<ClusterHealth>, github: GitHubRequest -> Result<seq<GitHubItem>>,
                mdn: MdnRequest -> Result<seq<MdnDocument>>, bulk: seq<BulkEntry> -> Result<()>,
                githubToken: Option<string>)
      ensures this.health == health && this.github == github && this.mdn == mdn
      ensures this.bulk == bulk && this.githubToken == githubToken
      ensures calls == []
    {
      this.health := health;
      this.github := github;
      this.mdn := mdn;
      this.bulk := bulk;
      this.githubToken := githubToken;
      calls := [];
    }
  }

  // ---------------------------------------------------------------- adapters

  /** The GitHub request for a query scoped to one repository; a missing token is
      interpolated as the text `undefined`. */
  function GitHubRequestFor(query: string, owner: string, repo: string, token: Option<string>): (r: GitHubRequest)
    ensures r.q == query + " repo:" + owner + "/" + repo
    ensures r.perPage == 10
    ensures r.authorization == "Bearer " + token.GetOr("undefined")
  {
    GitHubRequest(GitHubSearchUrl, query + " repo:" + owner + "/" + repo, 10, GitHubAccept,
                  "Bearer " + token.GetOr("undefined"))
  }

  function MdnRequestFor(query: string): (r: MdnRequest)
    ensures r.q == query && r.locale == "en-US" && r.highlight
  {
    MdnRequest(MdnSearchUrl, query, "en-US", true)
  }

  /** The hits the GitHub adapter returns: one per item, in order, named after the
      file, summarised by its path and attributed to `owner/repo`; none on failure. */
  function GitHubDocsOf(reply: Result<seq<GitHubItem>>, owner: string, repo: string): (r: seq<Doc>)
    ensures reply.Failure? ==> r == []
    ensures reply.Success? ==> |r| == |reply.value|
    ensures reply.Success? ==> forall i :: 0 <= i < |r| ==>
      r[i] == Doc(reply.value[i].name, reply.value[i].path, reply.value[i].htmlUrl,
                  reply.value[i].score, Some(owner + "/" + repo))
  {
    match reply
    case Failure(_) => []
    case Success(items) =>
      seq(|items|, i requires 0 <= i < |items| =>
        Doc(items[i].name, items[i].path, items[i].htmlUrl, items[i].score, Some(owner + "/" + repo)))
  }

  /** The hits the MDN adapter returns: one per document, in order, with the
      site-relative path made absolute; none on failure. */
  function MdnDocsOf(reply: Result<seq<MdnDocument>>): (r: seq<Doc>)
    ensures reply.Failure? ==> r == []
    ensures reply.Success? ==> |r| == |reply.value|
    ensures reply.Success? ==> forall i :: 0 <= i < |r| ==>
      r[i] == Doc(reply.value[i].title, reply.value[i].summary, MdnSite + reply.value[i].mdnUrl,
                  reply.value[i].score, None)
  {
    match reply
    case Failure(_) => []
    case Success(docs) =>
      seq(|docs|, i requires 0 <= i < |docs| =>
        Doc(docs[i].title, docs[i].summary, MdnSite + docs[i].mdnUrl, docs[i].score, None))
  }

  /** `fetchGitHubDocs`: `owner` and `repo` default to microsoft/TypeScript; a failed
      request yields no hits instead of an error. */
  method FetchGitHubDocs(svc: Services, query: string, owner: Option<string>, repo: Option<string>)
    returns (docs: seq<Doc>)
    modifies svc
    ensures var req := GitHubRequestFor(query, owner.GetOr("microsoft"), repo.GetOr("TypeScript"), svc.githubToken);
      svc.calls == old(svc.calls) + [GitHubCall(req)] &&
      docs == GitHubDocsOf(svc.github(req), owner.GetOr("microsoft"), repo.GetOr("TypeScript"))
  {
    var o := owner.GetOr("microsoft");
    var r := repo.GetOr("TypeScript");
    var req := GitHubRequestFor(query, o, r, svc.githubToken);
    svc.calls := svc.calls + [GitHubCall(req)];
    var reply := svc.github(req);
    if reply.Failure? {
      return [];
    }
    docs := GitHubDocsOf(reply, o, r);
  }

  /** `fetchMDNDocs`: a failed request yields no hits instead of an error. */
  method FetchMDNDocs(svc: Services, query: string) returns (docs: seq<Doc>)
    modifies svc
    ensures svc.calls == old(svc.calls) + [MdnCall(MdnRequestFor(query))]
    ensures docs == MdnDocsOf(svc.mdn(MdnRequestFor(query)))
  {
    var req := MdnRequestFor(query);
    svc.calls := svc.calls + [MdnCall(req)];
    var reply := svc.mdn(req);
    if reply.Failure? {
      return [];
    }
    docs := MdnDocsOf(reply);
  }

  /** `checkElasticsearchStatus`: never fails; a failed probe reports a red cluster
      that is not running, with the error's message. */
  method CheckElasticsearchStatus(svc: Services) returns (st: EsStatus)
    modifies svc
    ensures svc.calls == old(svc.calls) + [HealthCall]
    ensures st.isRunning <==> svc.health.Success?
    ensures svc.health.Success? ==>
      st == EsStatus(true, svc.health.value.status, Some(svc.health.value.numberOfNodes),
                     Some(svc.health.value.activeShards), None)
    ensures svc.health.Failure? ==> st == EsStatus(false, "red", None, None, Some(svc.health.error))
  {
    svc.calls := svc.calls + [HealthCall];
    var h := svc.health;
    if h.Success? {
      st := EsStatus(true, h.value.status, Some(h.value.numberOfNodes), Some(h.value.activeShards), None);
    } else {
      st := EsStatus(false, "red", None, None, Some(h.error));
    }
  }

  /** Adapters never fail the search: a failed reply contributes no hits. */
  lemma {:induction false} AdaptersAbsorbFailures(owner: string, repo: string, e1: string, e2: string)
    ensures GitHubDocsOf(Failure(e1), owner, repo) == [] && MdnDocsOf(Failure(e2)) == []
  {
  }

  // ---------------------------------------------------------------- ids

  /** The text an id is made of: the url if non-empty, else the title if non-empty,
      else the JSON form of the hit (which may fail). */
  function IdKey(d: Doc, stringify: Doc -> Result<string>): (r: Result<string>)
    ensures d.url != "" ==> r == Success(d.url)
    ensures d.url == "" && d.title != "" ==> r == Success(d.title)
    ensures d.url == "" && d.title == "" ==> r == stringify(d)
  {
    if d.url != "" then Success(d.url)
    else if d.title != "" then Success(d.title)
    else stringify(d)
  }

  /** `generateResultId`: Base64 of the UTF-8 bytes of `source-key`. */
  function GenerateResultId(d: Doc, source: string, stringify: Doc -> Result<string>): (r: Result<string>)
    ensures r.Failure? <==> IdKey(d, stringify).Failure?
  {
    match IdKey(d, stringify)
    case Success(key) => Success(Base64.OfString(source + "-" + key))
    case Failure(e) => Failure(e)
  }

  /** An id decodes back to `source-key`: Base64 first, then UTF-8. */
  lemma {:induction false} IdDecodes(d: Doc, source: string, stringify: Doc -> Result<string>)
    requires IdKey(d, stringify).Success?
    ensures var text := source + "-" + IdKey(d, stringify).value;
      Base64.Decode(GenerateResultId(d, source, stringify).value) == Some(Utf8.Encode(text)) &&
      Utf8.Decode(Utf8.Encode(text)) == Some(text)
  {
    var text := source + "-" + IdKey(d, stringify).value;
    Base64.DecodeEncode(Utf8.Encode(text));
    Utf8.DecodeEncode(text);
  }

  /** Two hits share an id exactly when they come from the same source and have the
      same key, as long as source names contain no `-` (as `github` and `mdn` do not). */
  lemma {:induction false} IdsCollideIffSameKey(d1: Doc, s1: string, d2: Doc, s2: string, stringify: Doc -> Result<string>)
    requires IdKey(d1, stringify).Success? && IdKey(d2, stringify).Success?
    requires '-' !in s1 && '-' !in s2
    ensures GenerateResultId(d1, s1, stringify) == GenerateResultId(d2, s2, stringify)
        <==> s1 == s2 && IdKey(d1, stringify) == IdKey(d2, stringify)
  {
    var k1, k2 := IdKey(d1, stringify).value, IdKey(d2, stringify).value;
    if GenerateResultId(d1, s1, stringify) == GenerateResultId(d2, s2, stringify) {
      Base64.OfStringInjective(s1 + "-" + k1, s2 + "-" + k2);
      assert s1 + "-" + k1 == s1 + ['-'] + k1;
      assert s2 + "-" + k2 == s2 + ['-'] + k2;
      Text.SplitAppend(s1, '-', k1);
      Text.SplitAppend(s2, '-', k2);
      assert ([s1] + Text.Split(k1, '-'))[0] == s1;
      assert ([s2] + Text.Split(k2, '-'))[0] == s2;
      assert s1 + ['-'] + k1 == s1 + ['-'] + k2;
      assert k1 == (s1 + ['-'] + k1)[|s1| + 1..];
      assert k2 == (s1 + ['-'] + k2)[|s1| + 1..];
    }
  }

  /** Ids are not unique: two GitHub hits with the same url get the same id. */
  lemma {:induction false} DuplicateUrlsShareIds(d1: Doc, d2: Doc, stringify: Doc -> Result<string>)
    requires d1.url == d2.url && d1.url != ""
    ensures GenerateResultId(d1, "github", stringify) == GenerateResultId(d2, "github", stringify)
  {
  }

  // ---------------------------------------------------------------- merging

  /** Tags every hit of one source with that source and its id, keeping the order;
      fails with the first id that cannot be generated. */
  function TagAll(docs: seq<Doc>, source: string, stringify: Doc -> Result<string>): (r: Result<seq<Hit>>)
    ensures r.Success? <==> forall i :: 0 <= i < |docs| ==> GenerateResultId(docs[i], source, stringify).Success?
    ensures r.Success? ==> |r.value| == |docs|
    ensures r.Success? ==> forall i :: 0 <= i < |docs| ==>
      r.value[i] == Hit(docs[i], GenerateResultId(docs[i], source, stringify).value, source)
  {
    if docs == [] then Success([])
    else
      match GenerateResultId(docs[0], source, stringify)
      case Failure(e) => Failure(e)
      case Success(id) =>
        match TagAll(docs[1..], source, stringify)
        case Failure(e) =>
          assert forall i :: 0 <= i < |docs| - 1 ==> docs[1..][i] == docs[i + 1];
          Failure(e)
        case Success(rest) => Success([Hit(docs[0], id, source)] + rest)
  }

  /** The sort key: `score || 0`. */
  function ScoreKey(h: Hit): int {
    h.doc.score.GetOr(0)
  }

  /** `formatSearchResults`: the GitHub hits then the MDN hits, tagged, then stably
      sorted by descending score. */
  function FormatSearchResults(github: seq<Doc>, mdn: seq<Doc>, stringify: Doc -> Result<string>): (r: Result<seq<Hit>>)
    ensures r.Success? <==> TagAll(github, "github", stringify).Success? && TagAll(mdn, "mdn", stringify).Success?
    ensures r.Success? ==> |r.value| == |github| + |mdn|
  {
    match TagAll(github, "github", stringify)
    case Failure(e) => Failure(e)
    case Success(tg) =>
      match TagAll(mdn, "mdn", stringify)
      case Failure(e) => Failure(e)
      case Success(tm) => Success(StableSort.Sort(ScoreKey, tg + tm))
  }

  /** Formatting fails exactly when some hit has neither url nor title and its JSON
      form cannot be produced. */
  lemma {:induction false} FormatFailsIff(github: seq<Doc>, mdn: seq<Doc>, stringify: Doc -> Result<string>)
    ensures FormatSearchResults(github, mdn, stringify).Failure? <==>
      (exists d :: d in github + mdn && d.url == "" && d.title == "" && stringify(d).Failure?)
  {
    var all := github + mdn;
    if exists d :: d in all && d.url == "" && d.title == "" && stringify(d).Failure? {
      var d :| d in all && d.url == "" && d.title == "" && stringify(d).Failure?;
      if d in github {
        var i :| 0 <= i < |github| && github[i] == d;
        assert GenerateResultId(github[i], "github", stringify).Failure?;
      } else {
        assert d in mdn;
        var i :| 0 <= i < |mdn| && mdn[i] == d;
        assert GenerateResultId(mdn[i], "mdn", stringify).Failure?;
      }
    } else {
      forall i | 0 <= i < |github| ensures GenerateResultId(github[i], "github", stringify).Success? {
        assert github[i] in all;
      }
      forall i | 0 <= i < |mdn| ensures GenerateResultId(mdn[i], "mdn", stringify).Success? {
        assert mdn[i] in all;
      }
    }
  }

  /** The hits before sorting, when every id can be generated. */
  function Tagged(github: seq<Doc>, mdn: seq<Doc>, stringify: Doc -> Result<string>): seq<Hit>
    requires TagAll(github, "github", stringify).Success? && TagAll(mdn, "mdn", stringify).Success?
  {
    TagAll(github, "github", stringify).value + TagAll(mdn, "mdn", stringify).value
  }

  /** Every hit of both sources appears exactly once, tagged; nothing is truncated. */
  lemma {:induction false} FormatKeepsEveryHit(github: seq<Doc>, mdn: seq<Doc>, stringify: Doc -> Result<string>)
    requires TagAll(github, "github", stringify).Success? && TagAll(mdn, "mdn", stringify).Success?
    ensures var r := FormatSearchResults(github, mdn, stringify);
      r.Success? && multiset(r.value) == multiset(Tagged(github, mdn, stringify)) &&
      |r.value| == |github| + |mdn|
  {
    StableSort.SortPermutes(ScoreKey, Tagged(github, mdn, stringify));
  }

  /** The merged list is non-increasing by `score || 0`. */
  lemma {:induction false} FormatSorted(github: seq<Doc>, mdn: seq<Doc>, stringify: Doc -> Result<string>)
    requires FormatSearchResults(github, mdn, stringify).Success?
    ensures StableSort.SortedDesc(ScoreKey, FormatSearchResults(github, mdn, stringify).value)
  {
    StableSort.SortSorted(ScoreKey, Tagged(github, mdn, stringify));
  }

  /** Ties keep their order: among hits with equal score, GitHub hits come first and
      each source keeps its own order. */
  lemma {:induction false} FormatStable(github: seq<Doc>, mdn: seq<Doc>, stringify: Doc -> Result<string>, k: int)
    requires TagAll(github, "github", stringify).Success? && TagAll(mdn, "mdn", stringify).Success?
    ensures var r := FormatSearchResults(github, mdn, stringify);
      r.Success? && StableSort.WithKey(ScoreKey, k, r.value) ==
        StableSort.WithKey(ScoreKey, k, TagAll(github, "github", stringify).value) +
        StableSort.WithKey(ScoreKey, k, TagAll(mdn, "mdn", stringify).value)
  {
    StableSort.SortStable(ScoreKey, Tagged(github, mdn, stringify), k);
    StableSort.WithKeyAppend(ScoreKey, k, TagAll(github, "github", stringify).value, TagAll(mdn, "mdn", stringify).value);
  }

  /** The merged order is fully determined: it is the only sequence that is sorted by
      score and keeps every score's hits in their tagged order. */
  lemma {:induction false} FormatIsTheStableOrder(github: seq<Doc>, mdn: seq<Doc>, stringify: Doc -> Result<string>, other: seq<Hit>)
    requires TagAll(github, "github", stringify).Success? && TagAll(mdn, "mdn", stringify).Success?
    requires StableSort.SortedDesc(ScoreKey, other)
    requires forall k :: StableSort.WithKey(ScoreKey, k, other) == StableSort.WithKey(ScoreKey, k, Tagged(github, mdn, stringify))
    ensures FormatSearchResults(github, mdn, stringify) == Success(other)
  {
    var t := Tagged(github, mdn, stringify);
    var r := StableSort.Sort(ScoreKey, t);
    StableSort.SortSorted(ScoreKey, t);
    forall k ensures StableSort.WithKey(ScoreKey, k, r) == StableSort.WithKey(ScoreKey, k, other) {
      StableSort.SortStable(ScoreKey, t, k);
    }
    StableSort.SortUnique(ScoreKey, r, other);
  }

  // ---------------------------------------------------------------- indexing

  /** Two bulk entries per document: the index action, then the document tagged with
      its source and the type `external`. */
  function Actions(docs: seq<Doc>, source: string): (r: seq<BulkEntry>)
    ensures |r| == 2 * |docs|
  {
    if docs == [] then []
    else [IndexAction(ExternalIndex), BulkDoc(docs[0], source, "external")] + Actions(docs[1..], source)
  }

  /** Entry `2i` is an index action and entry `2i+1` is the `i`-th document, tagged. */
  lemma {:induction false} ActionsShape(docs: seq<Doc>, source: string, i: nat)
    requires i < |docs|
    ensures Actions(docs, source)[2 * i] == IndexAction(ExternalIndex)
    ensures Actions(docs, source)[2 * i + 1] == BulkDoc(docs[i], source, "external")
  {
    if i > 0 {
      ActionsShape(docs[1..], source, i - 1);
    }
  }

  /** The bulk body for both sources, GitHub first. */
  function BulkBody(github: seq<Doc>, mdn: seq<Doc>): seq<BulkEntry> {
    Actions(github, "github") + Actions(mdn, "mdn")
  }

  /** The bulk body is empty exactly when there are no hits at all. */
  lemma {:induction false} BulkBodyEmptyIff(github: seq<Doc>, mdn: seq<Doc>)
    ensures BulkBody(github, mdn) == [] <==> github == [] && mdn == []
  {
    assert |BulkBody(github, mdn)| == 2 * |github| + 2 * |mdn|;
  }

  /** `indexExternalResults`: one bulk request when there is something to index, none
      otherwise; a failed bulk request is ignored. */
  method IndexExternalResults(svc: Services, github: seq<Doc>, mdn: seq<Doc>)
    modifies svc
    ensures svc.calls == old(svc.calls) + (if github == [] && mdn == [] then [] else [BulkCall(BulkBody(github, mdn))])
  {
    var body := BulkBody(github, mdn);
    BulkBodyEmptyIff(github, mdn);
    if |body| > 0 {
      svc.calls := svc.calls + [BulkCall(body)];
      var outcome := svc.bulk(body);
      if outcome.Failure? {
        // the error is only logged
      }
    }
  }

  // ---------------------------------------------------------------- searching

  /** The response when formatting throws: nothing found, every source flag off. */
  function ErrorResponse(query: string, language: string, framework: Option<string>, message: string): SearchResponse {
    SearchResponse(0, [], Metadata(query, language, framework, Some(message), Sources(false, false, false)))
  }

  /** The response `searchDocuments` builds from the probe's verdict and both hit lists. */
  function Respond(query: string, language: string, framework: Option<string>, available: bool,
                   github: seq<Doc>, mdn: seq<Doc>, stringify: Doc -> Result<string>): (r: SearchResponse)
    ensures r.metadata.query == query && r.metadata.language == language && r.metadata.framework == framework
    ensures r.metadata.error.None? <==> FormatSearchResults(github, mdn, stringify).Success?
    ensures r.metadata.error.None? ==> r.results == FormatSearchResults(github, mdn, stringify).value
    ensures r.metadata.error.Some? ==>
      r.metadata.error == Some(FormatSearchResults(github, mdn, stringify).error) &&
      r.total == 0 && r.results == [] && r.metadata.sources == Sources(false, false, false)
  {
    match FormatSearchResults(github, mdn, stringify)
    case Failure(e) => ErrorResponse(query, language, framework, e)
    case Success(results) =>
      SearchResponse(|github| + |mdn|, results,
        Metadata(query, language, framework, None, Sources(available, |github| > 0, |mdn| > 0)))
  }

  /** On success, `total` counts every hit of both sources and equals the number of
      results returned. */
  lemma {:induction false} RespondTotal(query: string, language: string, framework: Option<string>, available: bool,
                     github: seq<Doc>, mdn: seq<Doc>, stringify: Doc -> Result<string>)
    ensures var r := Respond(query, language, framework, available, github, mdn, stringify);
      r.metadata.error.None? ==> r.total == |github| + |mdn| == |r.results|
  {
    if TagAll(github, "github", stringify).Success? && TagAll(mdn, "mdn", stringify).Success? {
      FormatKeepsEveryHit(github, mdn, stringify);
    }
  }

  /** On success, the source flags report the probe and which sources returned hits. */
  lemma {:induction false} RespondFlags(query: string, language: string, framework: Option<string>, available: bool,
                     github: seq<Doc>, mdn: seq<Doc>, stringify: Doc -> Result<string>)
    ensures var r := Respond(query, language, framework, available, github, mdn, stringify);
      r.metadata.error.None? ==>
        r.metadata.sources == Sources(available, github != [], mdn != [])
  {
  }

  /** A failure while formatting yields the error-shaped response, and it is the only
      way to get one; the query, language and framework are echoed either way. */
  lemma {:induction false} RespondError(query: string, language: string, framework: Option<string>, available: bool,
                     github: seq<Doc>, mdn: seq<Doc>, stringify: Doc -> Result<string>)
    ensures var r := Respond(query, language, framework, available, github, mdn, stringify);
      r.metadata.query == query && r.metadata.language == language && r.metadata.framework == framework &&
      (r.metadata.error.Some? <==> FormatSearchResults(github, mdn, stringify).Failure?) &&
      (r.metadata.error.Some? ==>
        r.total == 0 && r.results == [] && r.metadata.sources == Sources(false, false, false))
  {
  }

  /** The hits GitHub contributes to a search for `query`. */
  function GitHubHits(svc: Services, query: string): seq<Doc> {
    GitHubDocsOf(svc.github(GitHubRequestFor(query, "microsoft", "TypeScript", svc.githubToken)),
                 "microsoft", "TypeScript")
  }

  /** The hits MDN contributes to a search for `query`. */
  function MdnHits(svc: Services, query: string): seq<Doc> {
    MdnDocsOf(svc.mdn(MdnRequestFor(query)))
  }

  /** The requests a search for `query` sends, in order: the probe, GitHub, MDN, and
      the bulk write when the cluster is up and there is something to index. */
  function SearchCalls(svc: Services, query: string): seq<Call> {
    var g, m := GitHubHits(svc, query), MdnHits(svc, query);
    [HealthCall, GitHubCall(GitHubRequestFor(query, "microsoft", "TypeScript", svc.githubToken)),
     MdnCall(MdnRequestFor(query))] +
    (if svc.health.Success? && (g != [] || m != []) then [BulkCall(BulkBody(g, m))] else [])
  }

  /** `searchDocuments`: the probe is awaited first, then GitHub and MDN are asked in
      turn, then the hits are indexed if the probe found the cluster running, and
      finally the response is assembled. `language` defaults to JavaScript and
      `framework` to null. */
  method SearchDocuments(svc: Services, query: string, language: Option<string>, framework: Option<string>,
                         stringify: Doc -> Result<string>)
    returns (resp: SearchResponse)
    modifies svc
    ensures svc.calls == old(svc.calls) + SearchCalls(svc, query)
    ensures resp == Respond(query, language.GetOr("JavaScript"), framework, svc.health.Success?,
                            GitHubHits(svc, query), MdnHits(svc, query), stringify)
  {
    var lang := language.GetOr("JavaScript");
    ghost var before := svc.calls;
    var elasticsearchAvailable := false;
    var health := CheckElasticsearchStatus(svc);
    elasticsearchAvailable := health.isRunning;
    var githubDocs := FetchGitHubDocs(svc, query, None, None);
    var mdnDocs := FetchMDNDocs(svc, query);
    assert githubDocs == GitHubHits(svc, query) && mdnDocs == MdnHits(svc, query);
    assert svc.calls == before + SearchCalls(svc, query)[..3];
    if elasticsearchAvailable {
      IndexExternalResults(svc, githubDocs, mdnDocs);
    }
    var formatted := FormatSearchResults(githubDocs, mdnDocs, stringify);
    if formatted.Failure? {
      return ErrorResponse(query, lang, framework, formatted.error);
    }
    resp := SearchResponse(|githubDocs| + |mdnDocs|, formatted.value,
      Metadata(query, lang, framework, None,
        Sources(elasticsearchAvailable, |githubDocs| > 0, |mdnDocs| > 0)));
  }
}
