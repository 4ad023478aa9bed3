# DevDocs Hub search core, modelled in Dafny

DevDocs Hub is a Next.js application for searching developer documentation. A
backend service asks GitHub code search and MDN for hits. It tags every hit with
its source and a deterministic id, and sorts the hits by score. When the
Elasticsearch cluster is up, it also indexes the hits there. An older backend
variant searches only the Elasticsearch `documentation` index, and only after a
health check. The client side has these parts:

- a server action that posts the query and unwraps the API's envelope;
- the results page, which extracts and formats the result list;
- a documentation client that normalises language names;
- the landing page's search box;
- the snippet and bookmark pages;
- the shared authentication state;
- a cookie-debugging endpoint.

The model has one Dafny module per source file. Shared modules hold the
encodings and string operations that the sources take from the JavaScript runtime:

| module | models |
|---|---|
| `SearchAggregator` | `backend/services/searchService.ts` |
| `LegacySearch` | `backend/services/searchService.js` |
| `ElasticsearchClient` | `backend/utils/elasticsearchClient.ts` |
| `SearchActions` | `actions/searchActions.ts` |
| `SearchPage` | `search/page.tsx` |
| `DocumentationClient` | `search/searchService.ts` |
| `SnippetInterface` | `components/SnippetInterface.tsx` |
| `BookmarkInterface` | `components/BookmarkInterface.tsx` |
| `SearchInterface` | `components/SearchInterface.tsx` |
| `AuthContext` | `context/AuthContext.tsx` |
| `DebugRoute` | `api/debug/route.ts` |
| `Wrappers`, `Seqs` | `Option`/`Result`, and filtering with its subsequence facts |
| `Text` | ECMAScript `trim`, ASCII `toLowerCase`, `includes`, first-occurrence `replace`, `split`/`join`, decimal `String(n)` |
| `Utf8`, `Base64` | the UTF-8 encoding (RFC 3629) and the Base64 alphabet (section 4 of RFC 4648) behind `Buffer.from(...).toString('base64')` |
| `UriEncoding` | `encodeURIComponent` and `decodeURIComponent` |
| `StableSort` | `Array.prototype.sort` with a comparator, which is stable |
| `JsValues` | JSON values, JavaScript truthiness and defaults for falsy values, reading a property of `null`, `String(v)` |

The model has no network, environment, clock or browser. External services are
parameters:

- Elasticsearch, GitHub, MDN and `fetch` are functions from the request to an outcome, or outcome values;
- `JSON.parse` and `JSON.stringify` are function parameters;
- `confirm` and `process.env` are plain parameters.

State that the source keeps in objects or React state becomes a `class` whose
methods have `modifies` clauses:

- the services' request log;
- the client singleton's slot;
- the snippet, bookmark and search pages;
- the authentication provider.

Each such class keeps the requests it sent in a `requests` (or `calls`) sequence
field, so contracts can say what was sent and in which order.

The model follows the code as written. In particular:

- merged results are never truncated to a page size;
- the health probe is awaited before either adapter starts;
- indexing is awaited inside `searchDocuments`;
- the id separator is `-`;
- ids are not unique (`SearchAggregator.DuplicateUrlsShareIds`);
- nothing is deduplicated.

## Model

| member | source | states |
|---|---|---|
| SearchAggregator.GitHubRequestFor | doc-search/src/app/backend/services/searchService.ts:93-107 | The GitHub query is the user's query scoped with ` repo:owner/repo`, with 10 results per page and a `Bearer` token header (`undefined` when no key is configured). |
| SearchAggregator.MdnRequestFor | doc-search/src/app/backend/services/searchService.ts:125-131 | The MDN request carries the query, the `en-US` locale and highlighting. |
| SearchAggregator.GitHubDocsOf | doc-search/src/app/backend/services/searchService.ts:108-119 | A failed GitHub reply gives no hits. Otherwise there is one hit per item, in order: the file name, its path as summary, its html url, its score and the `owner/repo` repository. |
| SearchAggregator.MdnDocsOf | doc-search/src/app/backend/services/searchService.ts:133-142 | A failed MDN reply gives no hits. Otherwise there is one hit per document, in order, and its url is `https://developer.mozilla.org` followed by the document's path. |
| SearchAggregator.FetchGitHubDocs | doc-search/src/app/backend/services/searchService.ts:93-120 | Owner and repo default to microsoft/TypeScript. Exactly one GitHub request is logged. The hits are `GitHubDocsOf` of the reply to that request. |
| SearchAggregator.FetchMDNDocs | doc-search/src/app/backend/services/searchService.ts:123-143 | Exactly one MDN request is logged. The hits are `MdnDocsOf` of its reply. |
| SearchAggregator.CheckElasticsearchStatus | doc-search/src/app/backend/services/searchService.ts:145-162 | The probe never fails, and `isRunning` holds iff the health call succeeded. On success it reports the status, node count and shard count. On failure it reports `red` with the error's message. |
| SearchAggregator.AdaptersAbsorbFailures | doc-search/src/app/backend/services/searchService.ts:116-119 | Either adapter turns a failed call into an empty hit list. |
| SearchAggregator.IdKey | doc-search/src/app/backend/services/searchService.ts:165 | The id key is the url if non-empty, else the title if non-empty, else the hit's JSON form. |
| SearchAggregator.GenerateResultId | doc-search/src/app/backend/services/searchService.ts:164-166 | Id generation fails exactly when the key cannot be produced. |
| SearchAggregator.IdDecodes | doc-search/src/app/backend/services/searchService.ts:164-166 | An id Base64-decodes to the UTF-8 bytes of `source-key`, and those bytes decode back to `source-key`. |
| SearchAggregator.IdsCollideIffSameKey | doc-search/src/app/backend/services/searchService.ts:164-166 | Two ids are equal iff both the sources and the keys are equal (for source names without `-`). |
| SearchAggregator.DuplicateUrlsShareIds | doc-search/src/app/backend/services/searchService.ts:164-166 | Two GitHub hits with the same non-empty url get the same id, so ids are not unique. |
| SearchAggregator.TagAll | doc-search/src/app/backend/services/searchService.ts:170-181 | Tagging succeeds iff every hit's id can be generated. It keeps length and order, and pairs each hit with its own id and the source name. |
| SearchAggregator.FormatFailsIff | doc-search/src/app/backend/services/searchService.ts:164-184 | Formatting fails iff some hit has neither url nor title and its JSON form cannot be produced. |
| SearchAggregator.FormatSearchResults | doc-search/src/app/backend/services/searchService.ts:168-184 | Formatting succeeds iff every GitHub hit and every MDN hit can be given an id. On success it returns exactly one result per hit of both sources. |
| SearchAggregator.FormatKeepsEveryHit | doc-search/src/app/backend/services/searchService.ts:168-183 | The merged list is a permutation of the tagged GitHub hits followed by the tagged MDN hits. Its length is the sum of both lists, with nothing dropped, added or truncated. |
| SearchAggregator.FormatSorted | doc-search/src/app/backend/services/searchService.ts:183 | The merged list is non-increasing by score, a missing score counting as 0. |
| SearchAggregator.FormatStable | doc-search/src/app/backend/services/searchService.ts:183 | For every score, the merged hits with that score are exactly the GitHub hits with it followed by the MDN hits with it, each in its own order. |
| SearchAggregator.FormatIsTheStableOrder | doc-search/src/app/backend/services/searchService.ts:183 | Any sequence that is sorted and keeps every score's tagged order is the merged list itself, so the result is fully determined. |
| SearchAggregator.Actions | doc-search/src/app/backend/services/searchService.ts:190-202 | The bulk body holds two entries per document. |
| SearchAggregator.ActionsShape | doc-search/src/app/backend/services/searchService.ts:190-202 | Entry `2i` is the `external_docs` index action. Entry `2i+1` is document `i`, tagged with its source and the type `external`. |
| SearchAggregator.BulkBodyEmptyIff | doc-search/src/app/backend/services/searchService.ts:204-206 | The bulk body is empty iff neither source returned hits. |
| SearchAggregator.IndexExternalResults | doc-search/src/app/backend/services/searchService.ts:186-209 | One bulk request with that body is sent iff there is something to index, and none otherwise. A failed bulk write changes nothing else. |
| SearchAggregator.RespondTotal | doc-search/src/app/backend/services/searchService.ts:247-249 | On success, `total` equals the number of GitHub and MDN hits, which equals the number of results. |
| SearchAggregator.Respond | doc-search/src/app/backend/services/searchService.ts:246-280 | The response echoes the query, language and framework. It carries no error iff formatting succeeded, and then its results are the formatted hits. Otherwise it carries formatting's error, total 0, no results and every source flag off. |
| SearchAggregator.RespondFlags | doc-search/src/app/backend/services/searchService.ts:254-258 | On success, the `elasticsearch` flag is the probe's verdict, and `github` and `mdn` say whether each source returned hits. |
| SearchAggregator.RespondError | doc-search/src/app/backend/services/searchService.ts:262-280 | The error-shaped response comes exactly from a formatting failure. It has total 0, no results and all flags off. Query, language and framework are echoed in every response. |
| SearchAggregator.SearchDocuments | doc-search/src/app/backend/services/searchService.ts:211-281 | Requests go out in order: probe, GitHub, MDN, then the bulk write only when the cluster is up and there are hits. The response is `Respond` of the probe's verdict and both hit lists. Language defaults to JavaScript. |
| Utf8.DecodeEncode | doc-search/src/app/backend/services/searchService.ts:165 | UTF-8 decoding inverts UTF-8 encoding, for every string of Unicode scalar values. |
| Utf8.EncodeInjective | doc-search/src/app/backend/services/searchService.ts:165 | Different strings have different UTF-8 bytes. |
| Base64.DecodeEncode | doc-search/src/app/backend/services/searchService.ts:165 | Base64 decoding inverts Base64 encoding, for every byte sequence. |
| Base64.EncodeInjective | doc-search/src/app/backend/services/searchService.ts:165 | Different byte sequences have different Base64 texts. |
| Base64.OfStringInjective | doc-search/src/app/backend/services/searchService.ts:165 | Different strings have different `Buffer.from(s).toString('base64')` texts. |
| StableSort.SortPermutes | doc-search/src/app/backend/services/searchService.ts:183 | Sorting permutes its input. |
| StableSort.SortSorted | doc-search/src/app/backend/services/searchService.ts:183 | The sorted output is non-increasing by key. |
| StableSort.SortStable | doc-search/src/app/backend/services/searchService.ts:183 | For every key value, the items with that key keep their input order. |
| StableSort.SortUnique | doc-search/src/app/backend/services/searchService.ts:183 | Two sorted sequences that agree on every key's sub-list are equal. |
| LegacySearch.CheckElasticsearchStatus | doc-search/src/app/backend/services/searchService.js:3-18 | The probe never fails. It reports running with the status iff the health call succeeded, else not running with the error's message. |
| LegacySearch.QueryBody | doc-search/src/app/backend/services/searchService.js:28-58 | The query goes to the `documentation` index and boosts the title twice over the content. It filters exactly on language then framework, and asks for 10 hits. |
| LegacySearch.Project | doc-search/src/app/backend/services/searchService.js:72-80 | Each hit becomes one result: id and score copied, title and content defaulting to the empty string, language and framework copied, highlights defaulting to an empty map. It fails, with the `TypeError` of reading `title` of `undefined`, exactly when the hit has no `_source`. |
| LegacySearch.ProjectAll | doc-search/src/app/backend/services/searchService.js:72-80 | Mapping the hits succeeds iff every hit has a `_source`, and then gives one projected result per hit, in order. Otherwise it fails with the `title` `TypeError`. |
| LegacySearch.SearchDocuments | doc-search/src/app/backend/services/searchService.js:21-90 | A result is produced only when the health probe and the search call both succeeded. Every failure message starts with `Search failed: `. |
| LegacySearch.UnavailableNeverSearches | doc-search/src/app/backend/services/searchService.js:23-26 | With the cluster down, the search service is never consulted, and the outcome is `Search failed: Elasticsearch is not available`. |
| LegacySearch.FailuresArePrefixed | doc-search/src/app/backend/services/searchService.js:86-89 | Every failure is `Search failed: ` followed by one of: the fixed text `Elasticsearch is not available`, the search call's own error, or the `TypeError` message for a missing `total`, hit list or `_source`. |
| LegacySearch.NoHitsIsEmpty | doc-search/src/app/backend/services/searchService.js:61-67 | A reply without `hits` gives total 0 and no results. |
| LegacySearch.MissingFieldsThrow | doc-search/src/app/backend/services/searchService.js:69-75 | With hits present, a missing `total` fails with the `TypeError` for reading `value`. Then a missing hit list fails with the one for `map`, and a hit without `_source` with the one for `title`. Each is prefixed `Search failed: `. |
| LegacySearch.HitsProjected | doc-search/src/app/backend/services/searchService.js:69-85 | When the total, the hit list and every `_source` are present, the search succeeds. `total` is the reported `total.value` (possibly `undefined`), whatever the number of hits. The results are the hits projected one by one, in order. |
| ElasticsearchClient.ConfiguredNode | doc-search/src/app/backend/utils/elasticsearchClient.ts:5-7 | The node is `ELASTICSEARCH_NODE` when set and non-empty, else `http://localhost:9200`. |
| ElasticsearchClient.ClientModule.constructor | doc-search/src/app/backend/utils/elasticsearchClient.ts:5-10 | The module starts with the configured node and an empty `clientInstance` slot. |
| ElasticsearchClient.ClientModule.GetElasticsearchClient | doc-search/src/app/backend/utils/elasticsearchClient.ts:13-24 | A filled slot is returned as it is, with nothing constructed. An empty slot is filled with a fresh client for the configured node, or, when construction throws, the error propagates and the slot stays empty. At most one client is ever constructed. |
| ElasticsearchClient.Load | doc-search/src/app/backend/utils/elasticsearchClient.ts:26 | The exported `esClient` is the instance left in the slot, so later calls return it. |
| ElasticsearchClient.GetTwice | doc-search/src/app/backend/utils/elasticsearchClient.ts:13-24 | After a successful call, the next call returns the very same object, and only one client has been constructed. |
| SearchActions.RefreshSearch | doc-search/src/app/actions/searchActions.ts:3-11 | The redirect is temporary and goes to `/search?q=` followed by the encoded query. |
| SearchActions.RefreshSearchCarriesQuery | doc-search/src/app/actions/searchActions.ts:4-7 | The text after `?q=` decodes back to the form's `q` (empty when missing) and holds no `&`, `#` or space. |
| SearchActions.RefreshSearchWithSpace | doc-search/src/app/actions/searchActions.test.ts:81-112 | `test query` redirects to `/search?q=test%20query`. |
| SearchActions.RefreshSearchWithoutQuery | doc-search/src/app/actions/searchActions.ts:4-10 | A missing `q` redirects, non-permanently, to `/search?q=`. |
| SearchActions.BaseUrl | doc-search/src/app/actions/searchActions.ts:18-26 | In the browser the base is empty. On the server it is `https://` plus `VERCEL_URL` when set, else `NEXTAUTH_URL`, else `http://localhost:3000`. |
| SearchActions.UnwrapEnvelope | doc-search/src/app/actions/searchActions.ts:51-53 | A success envelope with a truthy payload unwraps to the payload. |
| SearchActions.UnwrapErrorEnvelope | doc-search/src/app/actions/searchActions.ts:55-57 | An error envelope throws the route's message. |
| SearchActions.EmptyEnvelopeReturnedWhole | doc-search/src/app/actions/searchActions.ts:51-59 | A success envelope with a `null` payload is returned whole. |
| SearchActions.UnwrapPassesPlainReplies | doc-search/src/app/actions/searchActions.ts:49-59 | A `null` reply throws. An array, or an object with neither `success` nor `error`, is returned unchanged. |
| SearchActions.Unwrap | doc-search/src/app/actions/searchActions.ts:49-59 | A `null` reply throws. A reply with a truthy `success` and a truthy `data` gives `data`. Otherwise a truthy `error` is thrown as a string. Every other reply is returned whole. |
| SearchActions.NotFoundMessage | doc-search/src/app/actions/searchActions.test.ts:54-67 | A 404 reply fails with `Search failed: Not Found (404)`. |
| SearchActions.NetworkErrorsPropagate | doc-search/src/app/actions/searchActions.test.ts:69-77 | A network error is rethrown unchanged. |
| SearchActions.HandleResponse | doc-search/src/app/actions/searchActions.ts:45-62 | A network error propagates unchanged. A reply that is not ok fails with `Search failed: ` plus its status text and code in parentheses. For an ok reply, a body that does not parse fails with the parse error unchanged, and a parsed body is unwrapped. |
| SearchActions.PerformSearch | doc-search/src/app/actions/searchActions.ts:13-64 | The request POSTs `{query, language}` as JSON, uncached, to `BaseUrl` followed by `/api/search`, with language defaulting to JavaScript. The outcome is the fetch reply handled as above. |
| SearchPage.ParamOr | doc-search/src/app/search/page.tsx:33-34 | A URL parameter's text is used when it is non-empty, else the fallback. |
| SearchPage.Extract | doc-search/src/app/search/page.tsx:55-62 | The result list is the `results` array when there is one, else the response itself when it is an array. Any other shape fails with `Invalid search results format`. |
| SearchPage.FormatCard | doc-search/src/app/search/page.tsx:65-73 | A `null` result throws, and any other gives a card with id `result-<index>` and the page's language. Each field is the result's truthy field, else its default: title `Untitled`, content and summary empty, url `#`, source `Unknown`. The description is the summary, else the content, else empty. |
| SearchPage.FormatCards | doc-search/src/app/search/page.tsx:65-75 | Formatting succeeds iff no result is `null`. It keeps length and order, and card `i` is result `i` formatted at index `i`. |
| SearchPage.CardIdsDistinct | doc-search/src/app/search/page.tsx:66 | No two cards share an id. |
| SearchPage.SearchResultsPage | doc-search/src/app/search/page.tsx:30-91 | A blank query shows the no-query view and performs no search. Otherwise it shows the formatted cards, or the error view with the thrown message (`Unknown error occurred` for a non-Error) at each failing step. The language defaults to JavaScript. |
| DocumentationClient.NodeJsIsJavaScript | doc-search/src/app/search/searchService.ts:35 | `Node.js` is sent as `JavaScript`. |
| DocumentationClient.NormalizeLanguage | doc-search/src/app/search/searchService.ts:35 | A language containing neither `.js` nor `Node` is sent unchanged. |
| DocumentationClient.OnlyFirstSuffixRemoved | doc-search/src/app/search/searchService.ts:35 | Only the first `.js` is removed: `a.js.js` becomes `a.js`. |
| DocumentationClient.PlainNamesUnchanged | doc-search/src/app/search/searchService.ts:35 | A name with no `.` and no `N` is sent unchanged. |
| DocumentationClient.DefaultUnchanged | doc-search/src/app/search/searchService.ts:32-35 | The default language `JavaScript` survives normalisation. |
| DocumentationClient.RequestFor | doc-search/src/app/search/searchService.ts:30-47 | The client POSTs JSON to the documentation service with the query, the normalised language (default `JavaScript`) and the framework (default `React`). |
| DocumentationClient.SearchOutcomes | doc-search/src/app/search/searchService.ts:37-63 | Success comes iff the reply is ok and parses, and the value is the parsed body. A network error propagates. A rejected reply fails with `Search failed: ` followed by its text. An unparsable one fails with `Failed to parse response: ` followed by its text. |
| DocumentationClient.OutcomeDependsOnlyOnReply | doc-search/src/app/search/searchService.ts:37-63 | Two services giving the same reply lead to the same outcome. |
| DocumentationClient.SearchDocumentation | doc-search/src/app/search/searchService.ts:30-63 | A success requires an ok reply and is what its text parses to. A network error propagates unchanged. A failure after a reply carries the reply's text after `Failed to parse response: ` when it was ok, else after `Search failed: `. |
| Text.TrimEmptyIffBlank | doc-search/src/app/search/page.tsx:37 | A string trims to empty iff all its characters are whitespace. |
| Text.TrimIdempotent | doc-search/src/app/components/SnippetInterface.tsx:84 | Trimming twice is trimming once. |
| Text.ReplaceFirstSpec | doc-search/src/app/search/searchService.ts:35 | `replace` leaves a string without the pattern unchanged. Otherwise it rewrites exactly the first occurrence. |
| Text.JoinSplit | doc-search/src/app/components/SnippetInterface.tsx:83 | Splitting at a separator and joining back gives the original text. |
| Text.NatToStringInjective | doc-search/src/app/search/page.tsx:66 | Different indices print differently. |
| SnippetInterface.TrimAll | doc-search/src/app/components/SnippetInterface.tsx:84 | Each piece is trimmed, with length and order kept. |
| SnippetInterface.TrimmedTagsPipeline | doc-search/src/app/components/SnippetInterface.tsx:83-85 | The tag list is the comma pieces trimmed and then filtered to the non-empty ones. |
| SnippetInterface.TrimAddsNothing | doc-search/src/app/components/SnippetInterface.tsx:84 | Trimming introduces no character. |
| SnippetInterface.ParsedTagsAreClean | doc-search/src/app/components/SnippetInterface.tsx:83-85 | Every parsed tag is non-empty, has no comma and is already trimmed. |
| SnippetInterface.ParseOneTag | doc-search/src/app/components/SnippetInterface.tsx:83-85 | A comma-free text parses to its trimmed self, or to nothing when blank. |
| SnippetInterface.ParseTagsAppend | doc-search/src/app/components/SnippetInterface.tsx:83-85 | Tags keep input order: the text before the first comma is parsed first, then the rest. |
| SnippetInterface.NoTags | doc-search/src/app/components/SnippetInterface.tsx:83-85 | An empty field gives no tags. |
| SnippetInterface.CleanTagParses | doc-search/src/app/components/SnippetInterface.tsx:83-85 | A clean tag parses to itself. |
| SnippetInterface.ParseJoinedTags | doc-search/src/app/components/SnippetInterface.tsx:83-85 | A non-empty list of clean tags joined with commas parses back to the same list. |
| SnippetInterface.FilteredSnippets | doc-search/src/app/components/SnippetInterface.tsx:141-147 | An empty query keeps the list unchanged. Otherwise a snippet is kept iff the lower-cased query occurs in its lower-cased title, code or some tag. |
| SnippetInterface.FilteredKeepsOrder | doc-search/src/app/components/SnippetInterface.tsx:141-147 | The filtered list is an order-preserving sub-list of the snippets. |
| SnippetInterface.DescriptionNotSearched | doc-search/src/app/components/SnippetInterface.tsx:142-146 | Changing a description never changes whether a snippet matches. |
| SnippetInterface.CreateError | doc-search/src/app/components/SnippetInterface.tsx:106-117 | A failed create shows the network error's message. A rejected create whose body is an object shows its truthy `error` as text, else `Failed to create snippet`; any other non-`null` JSON body also shows `Failed to create snippet`. When the body is not JSON or is `null`, it shows `Server error: <status>`. |
| SnippetInterface.SnippetPage.constructor | doc-search/src/app/components/SnippetInterface.tsx:19-31 | The page starts loading, with no snippets, no error, the modal closed, an empty query, an empty form with language `javascript`, and not submitting. |
| SnippetInterface.SnippetPage.FetchSnippets | doc-search/src/app/components/SnippetInterface.tsx:48-74 | One listing request is sent. The list is replaced only by a successful listing. A rejected status or any other failure sets its message. `loading` ends false, and the form, modal and query are untouched. |
| SnippetInterface.SnippetPage.HandleSubmit | doc-search/src/app/components/SnippetInterface.tsx:76-135 | Without a user id nothing changes. Otherwise the form is sent with its tags parsed. On success the form is reset, the modal closed and the list fetched again. On failure the error is set and the form kept. `isSubmitting` ends false. |
| BookmarkInterface.ValidBookmarks | doc-search/src/app/components/BookmarkInterface.tsx:60 | A bookmark is kept iff it has its page. |
| BookmarkInterface.ValidBookmarksKeepOrder | doc-search/src/app/components/BookmarkInterface.tsx:60 | The kept bookmarks are in their original order. A listing where every bookmark has its page is kept whole. |
| BookmarkInterface.RemoveById | doc-search/src/app/components/BookmarkInterface.tsx:83 | A bookmark survives removal iff its id differs. |
| BookmarkInterface.RemoveByIdExactly | doc-search/src/app/components/BookmarkInterface.tsx:83 | The survivors keep their order, and the list shrinks by exactly the number of entries with that id. |
| BookmarkInterface.RemoveByIdLength | doc-search/src/app/components/BookmarkInterface.tsx:83 | The survivors plus the removed entries account for the whole list. |
| BookmarkInterface.RemoveAbsentId | doc-search/src/app/components/BookmarkInterface.tsx:83 | Removing an id no bookmark carries changes nothing. |
| BookmarkInterface.BookmarkPage.constructor | doc-search/src/app/components/BookmarkInterface.tsx:21-23 | The page starts loading, with no bookmarks and no error. |
| BookmarkInterface.BookmarkPage.FetchBookmarks | doc-search/src/app/components/BookmarkInterface.tsx:39-68 | One listing request is sent. The list becomes the listed bookmarks that have a page. A rejected status sets `Failed to fetch bookmarks: <status>`, and any other failure the fixed message, keeping the list. `loading` ends false. |
| BookmarkInterface.BookmarkPage.RemoveBookmark | doc-search/src/app/components/BookmarkInterface.tsx:70-93 | A declined confirmation changes nothing and sends nothing. Otherwise one delete request is sent. On success the entries with that id are removed. On failure the list is kept and the fixed delete error is set. |
| SearchInterface.SearchTarget | doc-search/src/app/components/SearchInterface.tsx:26-34 | There is no target iff the query is blank. Otherwise the target is `/search?q=`, the encoded untrimmed query, `&language=` and the selected pill. |
| SearchInterface.SearchTargetCarriesQuery | doc-search/src/app/components/SearchInterface.tsx:31-32 | The encoded query decodes back and contains no `&`. The language parameter is the pill itself, so the TypeScript mapping on line 31 never reaches the URL. |
| UriEncoding.EncodeURIComponent | doc-search/src/app/actions/searchActions.ts:7 | Every character of the encoding is one `encodeURIComponent` leaves unescaped, a `%` or an upper-case hex digit. |
| UriEncoding.DecodeEncodeURIComponent | doc-search/src/app/components/SearchInterface.tsx:32 | Decoding the encoding of any string gives the string back. |
| UriEncoding.EncodedHasNoDelimiters | doc-search/src/app/actions/searchActions.ts:7 | The encoding of any string holds no `&`, `=`, `#`, `?`, `/` or space, so it cannot end or split a query parameter. |
| SearchInterface.Component.constructor | doc-search/src/app/components/SearchInterface.tsx:11-12 | `React` is selected at first. |
| SearchInterface.Component.SelectTech | doc-search/src/app/components/SearchInterface.tsx:11-12 | Clicking a pill selects it and navigates nowhere. |
| SearchInterface.Component.HandleSearch | doc-search/src/app/components/SearchInterface.tsx:26-34 | A blank query causes no navigation. Otherwise exactly one navigation to the search target happens. |
| SearchInterface.Component.HandleLogout | doc-search/src/app/components/SearchInterface.tsx:44-48 | The logout request is sent, and then guest mode is entered whatever its outcome. The user ends up cleared, the Bookmarks and Logout links hide, and the page navigates to `/`. |
| AuthContext.SessionUser | doc-search/src/app/context/AuthContext.tsx:52-62 | Reading a `null` session throws. Otherwise the user is the truthy `user` field, else none. |
| AuthContext.AuthProvider.constructor | doc-search/src/app/context/AuthContext.tsx:31-33 | The provider starts with no user, loading, and not a guest. |
| AuthContext.AuthProvider.SessionEffect | doc-search/src/app/context/AuthContext.tsx:35-74 | A guest only stops loading, with no request. Otherwise one session request is sent: an ok reply sets the user from the session (or none), and any failure leaves the user as it was. Loading ends false. |
| AuthContext.AuthProvider.Logout | doc-search/src/app/context/AuthContext.tsx:76-90 | One logout request is sent. Success clears the user and guest mode and sends the window to `/`. Failure changes nothing else. |
| AuthContext.AuthProvider.EnableGuestMode | doc-search/src/app/context/AuthContext.tsx:92-95 | Guest mode is on and the user is cleared. |
| AuthContext.AuthProvider.SetUserAndUpdateGuestMode | doc-search/src/app/context/AuthContext.tsx:97-102 | The user is set. A user ends guest mode, and clearing the user leaves guest mode as it was. |
| DebugRoute.Find | doc-search/src/app/api/debug/route.ts:7 | A cookie is found iff one with that name exists, and the one found has that name. |
| DebugRoute.MaskAll | doc-search/src/app/api/debug/route.ts:10-15 | There is one masked entry per cookie, in order. |
| DebugRoute.Names | doc-search/src/app/api/debug/route.ts:24 | The cookie names are listed in order. |
| DebugRoute.DebugReport | doc-search/src/app/api/debug/route.ts:5-26 | `authTokenExists` holds iff an `auth_token` cookie exists, and `cookieDetails` is present iff it does, with value `HIDDEN`. `allCookies` and `sessionCookies` list every cookie's name in order. The auth cookie shows `EXISTS (hidden for security)` or `EMPTY`, and every other cookie shows `HIDDEN`. |
| DebugRoute.ReportHidesValues | doc-search/src/app/api/debug/route.ts:10-24 | Two requests whose cookies differ only in their values (beyond whether the auth cookie is empty) get the same report, so no value leaks. |
| DebugRoute.OnlyPlaceholders | doc-search/src/app/api/debug/route.ts:10-22 | Every value in the report is one of the three placeholders. |

## Left out

- Network, Elasticsearch, GitHub, MDN, `fetch` and `axios` are not modelled. Their outcomes are parameters, sequential and fixed per request.
- `Promise.all` and other concurrency are not modelled. The two adapter calls are sequential, GitHub first, as in the order of the request log.
- Floating point is not modelled. Scores are integers, a missing score counts as 0, and NaN and IEEE subtraction in the comparator are left out.
- Clocks and locales are not modelled: the bulk documents' `timestamp`, and the results page's `lastUpdated` (`toLocaleDateString`).
- `JSON.stringify` is an uninterpreted parameter (`stringify`), so its failure on a cyclic object is a `Failure` outcome. `JSON.parse` is a parameter too, except that the snippet page's error body is already parsed in `CreateRejected`.
- Strings are sequences of Unicode scalar values. Lone UTF-16 surrogates, where `encodeURIComponent` throws, are left out.
- `toLowerCase` is modelled on ASCII only.
- React rendering, JSX, styling, `router.push` to the login page, clipboard copying and the modal's UI are left out.
- React effects do not re-run by themselves:
  - `SessionEffect` is the effect body, called explicitly;
  - a stale closure (`removeBookmark` filtering an older `bookmarks`) is not modelled;
  - the snippet list is refetched in sequence, not un-awaited.
- The user id in snippet and bookmark URLs is kept as an `Option`. The text `undefined` that a missing id prints in a URL is not spelled out.
- `cookies()` is a parameter list. `cookieStore.get` is taken to return the first cookie with the name.
- SearchAggregator.FormatSearchResults: the branch for a source entry that is not an array is unreachable from `searchDocuments`, which always passes two arrays, so it is not modelled.
- SearchAggregator.SearchDocuments: the outer `catch` is reached in the model only through a failing `stringify` during id generation. The adapters, the probe and the indexing step catch their own errors.
- SearchAggregator.CheckElasticsearchStatus: the node and shard counts are integers; the remaining health fields are not modelled.
- SearchAggregator.GitHubRequestFor: the request's headers are the only ones modelled; the rest of axios's configuration is left out.
- AuthContext.AuthProvider.SetUserAndUpdateGuestMode requires a set user to be truthy, as the parameter's type (a user or null) promises. A falsy non-null value is outside that type.
- SearchInterface.Component.SelectTech requires one of the four listed technologies, the only values the pills pass.
- SearchPage.SearchResultsPage: several `q` values print joined with commas (`Many`), and other runtime shapes of the parameters are not modelled.
- ElasticsearchClient.ClientModule.GetElasticsearchClient: the client's behaviour after construction, and the log line, are outside the model.
