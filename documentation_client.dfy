/** The browser-side documentation search client: it normalises the language name,
    POSTs the query to the documentation service, and turns a rejected or unparsable
    reply into an error carrying the reply's text. `fetch` and `JSON.parse` are
    parameters. */
module DocumentationClient {
  import opened Wrappers
  import opened JsValues
  import Text

  const ServiceUrl := "http://localhost:3001/search/search"

  datatype DocBody = DocBody(query: string, language: string, framework: string)
  datatype DocRequest = DocRequest(url: string, httpMethod: string, contentType: string, body: DocBody)
  /** A reply: whether its status is ok, and its body text. */
  datatype TextReply = TextReply(ok: bool, text: string)

  /** `language.replace('.js', '').replace('Node', 'JavaScript')`: each `replace`
      rewrites only the first occurrence. */
  function NormalizeLanguage(language: string): (r: string)
    ensures !Text.Contains(language, ".js") && !Text.Contains(language, "Node") ==> r == language
  {
    Text.ReplaceFirstSpec(language, ".js", "");
    Text.ReplaceFirstSpec(language, "Node", "JavaScript");
    Text.ReplaceFirst(Text.ReplaceFirst(language, ".js", ""), "Node", "JavaScript")
  }

  /** A pattern whose first character does not occur in `s` does not occur in `s`. */
  lemma {:induction false} AbsentFirstChar(s: string, pat: string)
    requires pat != []
    requires forall i :: 0 <= i < |s| ==> s[i] != pat[0]
    ensures !Text.Contains(s, pat)
  {
    forall j | 0 <= j <= |s|
      ensures !Text.OccursAt(s, pat, j)
    {
      if j < |s| {
        MismatchAt(s, pat, j);
      }
    }
  }

  /** A pattern does not occur where its first character is missing. */
  lemma {:induction false} MismatchAt(s: string, pat: string, j: int)
    requires pat != [] && 0 <= j < |s| && s[j] != pat[0]
    ensures !Text.OccursAt(s, pat, j)
  {
    if j + |pat| <= |s| {
      assert s[j..j + |pat|][0] == s[j];
    }
  }

  /** The rename the function exists for: `Node.js` is sent as `JavaScript`. */
  lemma {:induction false} NodeJsIsJavaScript()
    ensures NormalizeLanguage("Node.js") == "JavaScript"
  {
    var s := "Node.js";
    MismatchAt(s, ".js", 0);
    MismatchAt(s, ".js", 1);
    MismatchAt(s, ".js", 2);
    MismatchAt(s, ".js", 3);
    assert Text.OccursAt(s, ".js", 4);
    assert Text.IndexOf(s, ".js") == Some(4);
    assert Text.ReplaceFirst(s, ".js", "") == "Node";
    assert Text.OccursAt("Node", "Node", 0);
    assert Text.IndexOf("Node", "Node") == Some(0);
  }

  /** Only the first `.js` is removed: `a.js.js` keeps its second suffix. */
  lemma {:induction false} OnlyFirstSuffixRemoved()
    ensures NormalizeLanguage("a.js.js") == "a.js"
  {
    var s := "a.js.js";
    MismatchAt(s, ".js", 0);
    assert Text.OccursAt(s, ".js", 1);
    assert Text.IndexOf(s, ".js") == Some(1);
    assert Text.ReplaceFirst(s, ".js", "") == "a.js";
    AbsentFirstChar("a.js", "Node");
  }

  /** A name with no `.` and no `N` is sent as it is. */
  lemma {:induction false} PlainNamesUnchanged(language: string)
    requires forall i :: 0 <= i < |language| ==> language[i] != '.' && language[i] != 'N'
    ensures NormalizeLanguage(language) == language
  {
    AbsentFirstChar(language, ".js");
    AbsentFirstChar(language, "Node");
  }

  /** The default language is sent as it is. */
  lemma {:induction false} DefaultUnchanged()
    ensures NormalizeLanguage("JavaScript") == "JavaScript"
  {
    PlainNamesUnchanged("JavaScript");
  }

  /** The request `searchDocumentation` sends. */
  function RequestFor(query: string, language: Option<string>, framework: Option<string>): (r: DocRequest)
    ensures r.url == ServiceUrl && r.httpMethod == "POST" && r.contentType == "application/json"
    ensures r.body.query == query
    ensures language.None? ==> r.body.language == "JavaScript"
    ensures language.Some? ==> r.body.language == NormalizeLanguage(language.value)
    ensures r.body.framework == if framework.Some? then framework.value else "React"
  {
    var lang := language.GetOr("JavaScript");
    DefaultUnchanged();
    DocRequest(ServiceUrl, "POST", "application/json", DocBody(query, NormalizeLanguage(lang), framework.GetOr("React")))
  }

  /** `searchDocumentation`: the parsed reply, or the error it throws. */
  function SearchDocumentation(query: string, language: Option<string>, framework: Option<string>,
                               fetch: DocRequest -> Result<TextReply>, parse: string -> Option<Json>): (r: Result<Json>)
    ensures var sent := fetch(RequestFor(query, language, framework));
      r.Success? ==> sent.Success? && sent.value.ok && parse(sent.value.text) == Some(r.value)
    ensures var sent := fetch(RequestFor(query, language, framework));
      sent.Failure? ==> r == Failure(sent.error)
    ensures var sent := fetch(RequestFor(query, language, framework));
      r.Failure? && sent.Success? ==>
        r.error == (if sent.value.ok then "Failed to parse response: " else "Search failed: ") + sent.value.text
  {
    match fetch(RequestFor(query, language, framework))
    case Failure(e) => Failure(e)
    case Success(reply) =>
      if !reply.ok then Failure("Search failed: " + reply.text)
      else
        match parse(reply.text)
        case None => Failure("Failed to parse response: " + reply.text)
        case Some(data) => Success(data)
  }

  /** The outcomes, all of them: the parsed body of an ok reply, the network error,
      the rejected reply's text after `Search failed: `, or the unparsable text after
      `Failed to parse response: `. */
  lemma {:induction false} SearchOutcomes(query: string, language: Option<string>, framework: Option<string>,
                                          fetch: DocRequest -> Result<TextReply>, parse: string -> Option<Json>)
    ensures var sent := fetch(RequestFor(query, language, framework));
      var r := SearchDocumentation(query, language, framework, fetch, parse);
      (r.Success? <==> sent.Success? && sent.value.ok && parse(sent.value.text).Some?) &&
      (r.Success? ==> r.value == parse(sent.value.text).value) &&
      (sent.Failure? ==> r == Failure(sent.error)) &&
      (sent.Success? && !sent.value.ok ==> r == Failure("Search failed: " + sent.value.text)) &&
      (sent.Success? && sent.value.ok && parse(sent.value.text).None? ==>
         r == Failure("Failed to parse response: " + sent.value.text))
  {
  }

  /** The reply is all that matters: two services that give the same reply to the
      request lead to the same outcome. */
  lemma {:induction false} OutcomeDependsOnlyOnReply(query: string, language: Option<string>, framework: Option<string>,
                                                     fetch1: DocRequest -> Result<TextReply>,
                                                     fetch2: DocRequest -> Result<TextReply>,
                                                     parse: string -> Option<Json>)
    requires fetch1(RequestFor(query, language, framework)) == fetch2(RequestFor(query, language, framework))
    ensures SearchDocumentation(query, language, framework, fetch1, parse)
         == SearchDocumentation(query, language, framework, fetch2, parse)
  {
  }
}
