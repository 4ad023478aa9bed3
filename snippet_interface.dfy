/** The code-snippet page: the signed-in user's snippets, a search box that filters
    them, and a form that creates a snippet. The snippet service's answers are
    parameters; the requests sent to it are logged in `requests`. */
module SnippetInterface {
  import opened Wrappers
  import opened JsValues
  import Text
  import Seqs

  datatype Snippet = Snippet(id: string, title: string, code: string, language: string,
                             description: Option<string>, tags: seq<string>, createdAt: string)

  // ---------------------------------------------------------------- tags

  /** `parts.map(tag => tag.trim())`. */
  function TrimAll(parts: seq<string>): (r: seq<string>)
    ensures |r| == |parts| && forall i :: 0 <= i < |parts| ==> r[i] == Text.Trim(parts[i])
  {
    if parts == [] then [] else [Text.Trim(parts[0])] + TrimAll(parts[1..])
  }

  predicate NonBlank(t: string) {
    |t| > 0
  }

  /** `parts.map(tag => tag.trim()).filter(tag => tag.length > 0)`, one piece at a time. */
  function TrimmedTags(parts: seq<string>): seq<string> {
    if parts == [] then []
    else (if NonBlank(Text.Trim(parts[0])) then [Text.Trim(parts[0])] else []) + TrimmedTags(parts[1..])
  }

  /** The form's comma-separated tags as a list: split at commas, trimmed, blanks dropped. */
  function ParseTags(tags: string): seq<string> {
    TrimmedTags(Text.Split(tags, ','))
  }

  /** The piecewise definition is the map-then-filter pipeline. */
  lemma {:induction false} TrimmedTagsPipeline(parts: seq<string>)
    ensures TrimmedTags(parts) == Seqs.Filter(NonBlank, TrimAll(parts))
  {
    if parts != [] {
      TrimmedTagsPipeline(parts[1..]);
      var tr := TrimAll(parts);
      assert tr[0] == Text.Trim(parts[0]) && tr[1..] == TrimAll(parts[1..]);
    }
  }

  /** Trimming removes characters and adds none. */
  lemma {:induction false} TrimAddsNothing(s: string, c: char)
    requires c !in s
    ensures c !in Text.Trim(s)
  {
    Text.TrimSpec(s);
    var a, b :| 0 <= a <= b <= |s| && Text.Trim(s) == s[a..b];
    assert forall i :: 0 <= i < b - a ==> s[a..b][i] == s[a + i];
  }

  /** Every parsed tag is non-empty, holds no comma and is already trimmed. */
  lemma {:induction false} ParsedTagsAreClean(tags: string)
    ensures forall t :: t in ParseTags(tags) ==> IsCleanTag(t)
  {
    var parts := Text.Split(tags, ',');
    var trimmed := TrimAll(parts);
    var r := Seqs.Filter(NonBlank, trimmed);
    TrimmedTagsPipeline(parts);
    assert r == ParseTags(tags);
    forall t | t in r
      ensures IsCleanTag(t)
    {
      var k :| 0 <= k < |r| && r[k] == t;
      assert t in trimmed && NonBlank(t);
      var i :| 0 <= i < |trimmed| && trimmed[i] == t;
      assert t == Text.Trim(parts[i]) && ',' !in parts[i];
      TrimAddsNothing(parts[i], ',');
      Text.TrimIdempotent(parts[i]);
    }
  }

  /** One comma-free piece parses to its trimmed text, or to nothing when blank. */
  lemma {:induction false} ParseOneTag(a: string)
    requires ',' !in a
    ensures ParseTags(a) == if Text.Trim(a) == "" then [] else [Text.Trim(a)]
  {
    Text.SplitWithout(a, ',');
    assert [a][1..] == [];
    assert ParseTags(a) == TrimmedTags([a]);
  }

  /** Tags keep the order they were typed in: the text before the first comma is
      parsed first, then the rest. */
  lemma {:induction false} ParseTagsAppend(a: string, b: string)
    requires ',' !in a
    ensures ParseTags(a + "," + b) == ParseTags(a) + ParseTags(b)
  {
    Text.SplitAppend(a, ',', b);
    Text.SplitWithout(a, ',');
    var rest := Text.Split(b, ',');
    var head := if NonBlank(Text.Trim(a)) then [Text.Trim(a)] else [];
    assert ([a] + rest)[0] == a && ([a] + rest)[1..] == rest && [a][1..] == [];
    assert ParseTags(a + "," + b) == TrimmedTags([a] + rest) == head + TrimmedTags(rest);
    assert ParseTags(a) == TrimmedTags([a]) == head + TrimmedTags([]);
  }

  /** An empty field gives no tags. */
  lemma {:induction false} NoTags()
    ensures ParseTags("") == []
  {
    ParseOneTag("");
    Text.TrimEmptyIffBlank("");
  }

  /** A tag as the parser produces it: non-empty, without commas, already trimmed. */
  predicate IsCleanTag(t: string) {
    t != "" && ',' !in t && Text.Trim(t) == t
  }

  /** A clean tag parses to itself. */
  lemma {:induction false} CleanTagParses(t: string)
    requires IsCleanTag(t)
    ensures ParseTags(t) == [t]
  {
    ParseOneTag(t);
  }

  /** A list of clean tags survives being written with commas and parsed back. */
  lemma {:induction false} ParseJoinedTags(ts: seq<string>)
    requires |ts| >= 1
    requires forall i :: 0 <= i < |ts| ==> IsCleanTag(ts[i])
    ensures ParseTags(Text.Join(ts, ',')) == ts
    decreases |ts|
  {
    var t := ts[0];
    CleanTagParses(t);
    if |ts| == 1 {
      assert ts == [t];
    } else {
      var rest := ts[1..];
      assert forall i :: 0 <= i < |rest| ==> IsCleanTag(rest[i]) by {
        forall i | 0 <= i < |rest| ensures IsCleanTag(rest[i]) {
          assert rest[i] == ts[i + 1];
        }
      }
      ParseJoinedTags(rest);
      var joined := Text.Join(rest, ',');
      assert Text.Join(ts, ',') == t + "," + joined;
      ParseTagsAppend(t, joined);
      assert ts == [t] + rest;
    }
  }

  // ---------------------------------------------------------------- search box

  /** A snippet matches when the lower-cased query occurs in its lower-cased title,
      code or one of its tags. The description and language are not searched. */
  predicate Matches(s: Snippet, query: string) {
    var q := Text.Lower(query);
    Text.Contains(Text.Lower(s.title), q) || Text.Contains(Text.Lower(s.code), q) ||
    exists i :: 0 <= i < |s.tags| && Text.Contains(Text.Lower(s.tags[i]), q)
  }

  /** `filteredSnippets`: every snippet for an empty query, else the matching ones. */
  function FilteredSnippets(snippets: seq<Snippet>, query: string): (r: seq<Snippet>)
    ensures query == "" ==> r == snippets
    ensures query != "" ==> forall s :: s in r <==> s in snippets && Matches(s, query)
  {
    if query == "" then snippets else Seqs.Filter((s: Snippet) => Matches(s, query), snippets)
  }

  /** The filtered list keeps the snippets' order. */
  lemma {:induction false} FilteredKeepsOrder(snippets: seq<Snippet>, query: string)
    ensures Seqs.IsSubsequence(FilteredSnippets(snippets, query), snippets)
  {
    if query == "" {
      SubsequenceOfItself(snippets);
    } else {
      Seqs.FilterIsSubsequence((s: Snippet) => Matches(s, query), snippets);
    }
  }

  lemma {:induction false} SubsequenceOfItself<T>(s: seq<T>)
    ensures Seqs.IsSubsequence(s, s)
  {
    if s != [] {
      SubsequenceOfItself(s[1..]);
    }
  }

  /** Editing a description never changes what the search box shows. */
  lemma {:induction false} DescriptionNotSearched(s: Snippet, d: Option<string>, query: string)
    ensures Matches(s.(description := d), query) == Matches(s, query)
  {
  }

  // ---------------------------------------------------------------- the page

  /** The form's fields. */
  datatype Form = Form(title: string, code: string, language: string, description: string, tags: string)

  const EmptyForm := Form("", "", "javascript", "", "")

  datatype SnippetBody = SnippetBody(title: string, code: string, language: string, description: string,
                                     tags: seq<string>, userId: string)

  /** A request sent to the snippet service; the user id is `undefined` when missing. */
  datatype Request = ListRequest(listFor: Option<string>) | CreateRequest(createFor: string, body: SnippetBody)

  /** The create request for a form: its fields as typed, with the tags parsed. */
  function CreateRequestFor(form: Form, userId: string): Request {
    CreateRequest(userId, SnippetBody(form.title, form.code, form.language, form.description,
                                      ParseTags(form.tags), userId))
  }

  /** The answer to a listing: a network error, a rejected status, a body that is not
      JSON, or the snippets. */
  datatype ListOutcome = ListNetworkError | ListRejected(status: int) | ListUnparsable | Listed(items: seq<Snippet>)

  /** The answer to a create: a network error with its message, a rejected status with
      its body parsed as JSON (`None` when it is not JSON), or success. */
  datatype CreateOutcome = CreateNetworkError(message: string) | CreateRejected(status: int, body: Option<Json>) | Created

  /** The snippets and error a listing leaves behind. */
  function AfterListing(outcome: ListOutcome, snippets: seq<Snippet>): (seq<Snippet>, Option<string>) {
    match outcome
    case Listed(items) => (items, None)
    case ListRejected(status) => (snippets, Some("Failed to fetch snippets: " + Text.IntToString(status)))
    case _ => (snippets, Some("Failed to fetch snippets. Please try again later."))
  }

  /** The error a failed create shows: the network error's message; for a rejected
      status the body's `error` (stringified) or a fixed message, and when the body is
      not JSON or is `null`, the status. */
  function CreateError(outcome: CreateOutcome): (r: string)
    requires !outcome.Created?
    ensures outcome.CreateNetworkError? ==> r == outcome.message
    ensures outcome.CreateRejected? && (outcome.body.None? || outcome.body.value.JNull?) ==>
      r == "Server error: " + Text.IntToString(outcome.status)
    ensures outcome.CreateRejected? && outcome.body.Some? && outcome.body.value.JObj? ==>
      var f := outcome.body.value.fields;
      r == if "error" in f && Truthy(f["error"]) then ToJsString(f["error"]) else "Failed to create snippet"
    ensures outcome.CreateRejected? && outcome.body.Some? && !outcome.body.value.JObj? && !outcome.body.value.JNull? ==>
      r == "Failed to create snippet"
  {
    match outcome
    case CreateNetworkError(m) => m
    case CreateRejected(status, body) =>
      if body.None? then "Server error: " + Text.IntToString(status)
      else
        match Read(body.value, "error")
        case Failure(_) => "Server error: " + Text.IntToString(status)
        case Success(e) => ToJsString(Or(e, JStr("Failed to create snippet")))
  }

  /** A user id is usable when present and non-empty (`user?.id` is truthy). */
  predicate HasId(userId: Option<string>) {
    userId.Some? && userId.value != ""
  }

  class SnippetPage {
    const userId: Option<string>
    var snippets: seq<Snippet>
    var loading: bool
    var error: Option<string>
    var isModalOpen: bool
    var searchQuery: string
    var form: Form
    var isSubmitting: bool
    var requests: seq<Request>

    /** The state the page starts in. */
    constructor(userId: Option<string>)
      ensures this.userId == userId && snippets == [] && loading && error.None? && !isModalOpen
      ensures searchQuery == "" && form == EmptyForm && !isSubmitting && requests == []
    {
      this.userId := userId;
      snippets := [];
      loading := true;
      error := None;
      isModalOpen := false;
      searchQuery := "";
      form := EmptyForm;
      isSubmitting := false;
      requests := [];
    }

    /** What the list shows. */
    function Visible(): seq<Snippet>
      reads this
    {
      FilteredSnippets(snippets, searchQuery)
    }

    /** `fetchSnippets`: one listing request; the list is replaced only on success,
      and `loading` is false afterwards whatever happened. */
    method FetchSnippets(outcome: ListOutcome)
      modifies this
      ensures requests == old(requests) + [ListRequest(userId)]
      ensures !loading
      ensures outcome.Listed? ==> snippets == outcome.items && error.None?
      ensures outcome.ListRejected? ==>
        snippets == old(snippets) && error == Some("Failed to fetch snippets: " + Text.IntToString(outcome.status))
      ensures outcome.ListNetworkError? || outcome.ListUnparsable? ==>
        snippets == old(snippets) && error == Some("Failed to fetch snippets. Please try again later.")
      ensures (snippets, error) == AfterListing(outcome, old(snippets))
      ensures isModalOpen == old(isModalOpen) && searchQuery == old(searchQuery)
      ensures form == old(form) && isSubmitting == old(isSubmitting)
    {
      loading := true;
      error := None;
      requests := requests + [ListRequest(userId)];
      match outcome {
        case ListRejected(status) =>
          error := Some("Failed to fetch snippets: " + Text.IntToString(status));
        case Listed(items) =>
          snippets := items;
        case _ =>
          error := Some("Failed to fetch snippets. Please try again later.");
      }
      loading := false;
    }

    /** `handleSubmit`: without a user id nothing happens. Otherwise the form is sent
        with its tags parsed; on success the form is reset, the modal closed and the
        list fetched again; on failure the error is shown and the form kept. Either way
        `isSubmitting` ends false. */
    method HandleSubmit(create: CreateOutcome, relist: ListOutcome)
      modifies this
      ensures !HasId(userId) ==>
        requests == old(requests) && form == old(form) && snippets == old(snippets) && error == old(error) &&
        isSubmitting == old(isSubmitting) && isModalOpen == old(isModalOpen) && loading == old(loading) &&
        searchQuery == old(searchQuery)
      ensures HasId(userId) ==> !isSubmitting && searchQuery == old(searchQuery)
      ensures HasId(userId) && create.Created? ==>
        requests == old(requests) + [CreateRequestFor(old(form), userId.value), ListRequest(userId)]
      ensures HasId(userId) && create.Created? ==>
        form == EmptyForm && !isModalOpen && !loading && (snippets, error) == AfterListing(relist, old(snippets))
      ensures HasId(userId) && !create.Created? ==>
        requests == old(requests) + [CreateRequestFor(old(form), userId.value)]
      ensures HasId(userId) && !create.Created? ==>
        form == old(form) && isModalOpen == old(isModalOpen) && snippets == old(snippets) &&
        loading == old(loading) && error == Some(CreateError(create))
    {
      if !HasId(userId) {
        return;
      }
      var id := userId.value;
      isSubmitting := true;
      requests := requests + [CreateRequestFor(form, id)];
      if !create.Created? {
        error := Some(CreateError(create));
        isSubmitting := false;
        return;
      }
      form := EmptyForm;
      isModalOpen := false;
      FetchSnippets(relist);
      isSubmitting := false;
    }
  }
}
