/** The server-rendered search results page: it reads `q` and `language` from the
    URL, runs the search through the search action, extracts the result list from
    either response shape, and formats every result for display with defaults.
    Anything thrown becomes the error view. The search action is a parameter. */
module SearchPage {
  import opened Wrappers
  import opened JsValues
  import Text

  /** A URL search parameter: absent, given once, or given several times. */
  datatype Param = Absent | One(value: string) | Many(values: seq<string>)

  /** A value thrown by the search: an `Error` with its message, or anything else. */
  datatype Thrown = ErrorObject(message: string) | OtherValue

  datatype Outcome = Returned(value: Json) | Threw(thrown: Thrown)

  /** One result as the results component receives it. */
  datatype Card = Card(id: string, title: Json, description: Json, content: Json, summary: Json,
                       url: Json, source: Json, language: string)

  datatype View = NoQuery | Results(query: string, cards: seq<Card>) | ServerError(message: string)

  /** `param?.toString()`: several values print joined with commas. */
  function ParamString(p: Param): Option<string> {
    match p
    case Absent => None
    case One(s) => Some(s)
    case Many(items) => Some(if items == [] then "" else Text.Join(items, ','))
  }

  /** `param?.toString() || fallback`. */
  function ParamOr(p: Param, fallback: string): (r: string)
    ensures ParamString(p).Some? && ParamString(p).value != "" ==> r == ParamString(p).value
    ensures ParamString(p).None? || ParamString(p).value == "" ==> r == fallback
  {
    var s := ParamString(p);
    if s.Some? && s.value != "" then s.value else fallback
  }

  /** The message the error view shows for a thrown value. */
  function MessageOf(t: Thrown): string {
    match t
    case ErrorObject(m) => m
    case OtherValue => "Unknown error occurred"
  }

  /** The result list of a response: its `results` field when that is an array, else
      the response itself when it is an array, else an error. */
  function Extract(response: Json): (r: Result<seq<Json>>)
    requires Truthy(response)
    ensures response.JObj? && "results" in response.fields && response.fields["results"].JArr? ==>
      r == Success(response.fields["results"].items)
    ensures response.JArr? ==> r == Success(response.items)
    ensures r.Failure? ==> r.error == "Invalid search results format"
    ensures r.Success? ==> response.JArr? || (response.JObj? && "results" in response.fields && response.fields["results"].JArr?)
  {
    var field := Read(response, "results").value;
    if Present(field) && field.value.JArr? then Success(field.value.items)
    else if response.JArr? then Success(response.items)
    else Failure("Invalid search results format")
  }

  /** The id of the `index`-th card. */
  function CardId(index: nat): string {
    "result-" + Text.NatToString(index)
  }

  /** Formats one result: title defaults to `Untitled`, description to the summary,
      then the content, then the empty string; url to `#`; source to `Unknown`; the
      language is the page's. Reading a field of a `null` result throws. */
  function FormatCard(result: Json, index: nat, language: string): (r: Result<Card>)
    ensures r.Failure? <==> result.JNull?
    ensures r.Success? ==> r.value.id == CardId(index) && r.value.language == language
    ensures r.Success? ==>
      r.value.title == FieldOr(result, "title", JStr("Untitled")) &&
      r.value.description == FieldOr(result, "summary", FieldOr(result, "content", JStr(""))) &&
      r.value.content == FieldOr(result, "content", JStr("")) &&
      r.value.summary == FieldOr(result, "summary", JStr("")) &&
      r.value.url == FieldOr(result, "url", JStr("#")) &&
      r.value.source == FieldOr(result, "source", JStr("Unknown"))
  {
    if result.JNull? then Failure("Cannot read properties of null (reading 'title')")
    else
      var title := Read(result, "title").value;
      var summary := Read(result, "summary").value;
      var content := Read(result, "content").value;
      var url := Read(result, "url").value;
      var source := Read(result, "source").value;
      Success(Card(CardId(index), Or(title, JStr("Untitled")), Or(summary, Or(content, JStr(""))),
                   Or(content, JStr("")), Or(summary, JStr("")), Or(url, JStr("#")), Or(source, JStr("Unknown")),
                   language))
  }

  /** `results.map(...)` from position `start` on; the first `null` result throws. */
  function FormatCards(results: seq<Json>, start: nat, language: string): (r: Result<seq<Card>>)
    ensures r.Success? <==> forall i :: 0 <= i < |results| ==> !results[i].JNull?
    ensures r.Success? ==> |r.value| == |results|
    ensures r.Success? ==>
      forall i :: 0 <= i < |results| ==> r.value[i] == FormatCard(results[i], start + i, language).value
    decreases |results|
  {
    if results == [] then Success([])
    else
      match FormatCard(results[0], start, language)
      case Failure(e) => Failure(e)
      case Success(card) =>
        match FormatCards(results[1..], start + 1, language)
        case Failure(e) =>
          assert forall i :: 0 <= i < |results| - 1 ==> results[1..][i] == results[i + 1];
          Failure(e)
        case Success(rest) => Success([card] + rest)
  }

  /** The cards' ids are `result-0`, `result-1`, ..., so no two cards share one. */
  lemma {:induction false} CardIdsDistinct(results: seq<Json>, language: string, i: nat, j: nat)
    requires FormatCards(results, 0, language).Success?
    requires i < j < |results|
    ensures FormatCards(results, 0, language).value[i].id != FormatCards(results, 0, language).value[j].id
  {
    var cards := FormatCards(results, 0, language).value;
    assert cards[i].id == CardId(i) && cards[j].id == CardId(j);
    var p := "result-";
    assert CardId(i)[|p|..] == Text.NatToString(i) && CardId(j)[|p|..] == Text.NatToString(j);
    Text.NatToStringInjective(i, j);
  }

  /** `SearchResultsPage`. */
  method SearchResultsPage(q: Param, language: Param, search: (string, string) -> Outcome) returns (view: View)
    ensures var query := ParamOr(q, "");
      Text.IsBlank(query) ==> view == NoQuery
    ensures var query, lang := ParamOr(q, ""), ParamOr(language, "JavaScript");
      !Text.IsBlank(query) ==>
        match search(query, lang)
        case Threw(t) => view == ServerError(MessageOf(t))
        case Returned(v) =>
          if !Truthy(v) then view == ServerError("No response received from search API")
          else
            match Extract(v)
            case Failure(e) => view == ServerError(e)
            case Success(results) =>
              match FormatCards(results, 0, lang)
              case Failure(e) => view == ServerError(e)
              case Success(cards) => view == Results(query, cards)
  {
    var query := ParamOr(q, "");
    var lang := ParamOr(language, "JavaScript");
    Text.TrimEmptyIffBlank(query);
    if Text.Trim(query) == "" {
      return NoQuery;
    }
    var outcome := search(query, lang);
    if outcome.Threw? {
      return ServerError(MessageOf(outcome.thrown));
    }
    var searchResponse := outcome.value;
    if !Truthy(searchResponse) {
      return ServerError(MessageOf(ErrorObject("No response received from search API")));
    }
    var results: seq<Json> := [];
    var field := Read(searchResponse, "results").value;
    if Present(field) && field.value.JArr? {
      results := field.value.items;
    } else if searchResponse.JArr? {
      results := searchResponse.items;
    } else {
      return ServerError(MessageOf(ErrorObject("Invalid search results format")));
    }
    var formatted := FormatCards(results, 0, lang);
    if formatted.Failure? {
      return ServerError(MessageOf(ErrorObject(formatted.error)));
    }
    view := Results(query, formatted.value);
  }
}
