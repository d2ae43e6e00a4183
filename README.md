# jurisprude-insight: a Dafny model of the search pipeline, the tribunal filters, the search form and the payment webhook

This project models the parts of jurisprude-insight, a Brazilian case-law search site, that hold logic of their own:

- **The `intelligent-search` edge function** (`IntelligentSearch`, `intelligent_search.dfy`):
  - rejects a missing query;
  - asks a language model for alternative keywords, falling back to the query itself;
  - splits a budget of 100 results over the keywords by ceiling division;
  - calls the scraping API once per keyword, failing open;
  - merges the results by `uuid` with JavaScript `Map` semantics;
  - keeps the `conteudo` objects that have an `ementa`;
  - has the model rank them, falling back to the first ten.

  The three external services are parameters. The keyword answer and the ranking answer are `LlmReply` values, and the scraper is a function from (keyword, tribunal filter, limit) to its reply. The handler `Serve` returns its response together with the list of external calls it made.
- **The tribunal filter dialog** (`TribunalFilter`, `tribunal_filter.dfy`). It holds the 23-entry catalogue of tribunals and their judging bodies ("organs"), the nested `getAllIds` walk, and the class `FilterModal`. That class has two list-valued state fields, `localSelected` and `expandedTribunals`, and one method per handler.
- **The flat tribunal selector** (`TribunalSelector`, `tribunal_selector.dfy`). It has a fifteen-entry table, handlers that compute the emitted selection from the current one, and the superior/regional grouping.
- **The search form of the landing page** (`SearchForm`, `search_form.dfy`). It has the default selection and the two ordered validation rules, with `String.prototype.trim` modelled character class by character class. It also builds the `/resultados` address, with `encodeURIComponent` modelled over UTF-8 and proved invertible, and `join(',')` proved invertible by `split(',')`.
- **The payment provider's webhook** (`AsaasWebhook`, `asaas_webhook.dfy`). It maps events and provider statuses to updates of the `subscriptions` table. The table is a `map` field of the class `SubscriptionStore`, the clock is a `now` parameter, and the database's answer to an update is an `updateError` parameter.

`seq_ops.dfy` (`SeqOps`) holds the list operations these share:

- `filter(y => !drop.includes(y))`;
- the `Map`/`Set` insertion-order semantics;
- first and last occurrences.

`wrappers.dfy` holds `Option`.

## Model

| member | source | states |
|---|---|---|
| IntelligentSearch.GenerateKeywords | supabase/functions/intelligent-search/index.ts:15-61 | the keywords are the model's parsed array when it answered with one, and exactly `[query]` on a non-OK status, missing content, no bracketed array or any exception |
| IntelligentSearch.KeywordsEmptyOnlyOnEmptyArray | supabase/functions/intelligent-search/index.ts:37-59 | the keyword list is empty exactly when the model answered `[]`; every failure leaves one keyword |
| IntelligentSearch.LimitPerKeyword | supabase/functions/intelligent-search/index.ts:179 | no finite limit (JavaScript's `Infinity`) exactly when there are no keywords; otherwise the least limit whose multiple by the keyword count reaches the budget of 100 |
| IntelligentSearch.CeilingDivision | supabase/functions/intelligent-search/index.ts:179 | `(a + n - 1) / n` is the ceiling of `a / n`: its multiple reaches `a` and the one below does not |
| IntelligentSearch.SearchApi | supabase/functions/intelligent-search/index.ts:122-150 | a scraping call yields its `dado` array, and an empty list when the status is not OK, the call throws or `dado` is absent |
| IntelligentSearch.CollectedAppend | supabase/functions/intelligent-search/index.ts:181-184 | results are concatenated in keyword order: collecting over two runs of keywords is the concatenation of the two collections |
| IntelligentSearch.CollectedAllFailed | supabase/functions/intelligent-search/index.ts:137-149 | when every scraping call yields nothing (a non-OK status, a throw, or a body without `dado`), nothing is collected and the request is not aborted |
| IntelligentSearch.ScrapeCalls | supabase/functions/intelligent-search/index.ts:181-182 | one scraping call per keyword, in keyword order, each with the same filter and limit |
| IntelligentSearch.CollectResults | supabase/functions/intelligent-search/index.ts:178-184 | the keyword loop gathers exactly the concatenated per-keyword results and makes exactly the per-keyword calls; with no keyword it gathers nothing and calls nothing |
| IntelligentSearch.Deduplicate | supabase/functions/intelligent-search/index.ts:189 | `Array.from(new Map(fullData.map(item => [item.uuid, item])).values())`: the shared `Map` merge keyed by `uuid`; what it yields is stated by `DeduplicateSpec` |
| IntelligentSearch.DeduplicateSpec | supabase/functions/intelligent-search/index.ts:189 | after merging by `uuid`: one entry per distinct `uuid` of the input, no `uuid` invented or lost, entries in the order of each `uuid`'s first occurrence, each entry the last result seen for its `uuid`, never longer than the input |
| IntelligentSearch.Clean | supabase/functions/intelligent-search/index.ts:192 | a content is kept exactly when it is the present `conteudo` of some merged result and has a non-empty `ementa`; never longer than its input |
| IntelligentSearch.CleanAppend | supabase/functions/intelligent-search/index.ts:192 | cleaning works element by element, so kept contents stay in their relative order |
| IntelligentSearch.SelectByIndexes | supabase/functions/intelligent-search/index.ts:111 | at most one candidate per returned index |
| IntelligentSearch.InRange | supabase/functions/intelligent-search/index.ts:111 | the indexes that survive `filter(Boolean)` all point inside the candidate list |
| IntelligentSearch.SelectByIndexesSpec | supabase/functions/intelligent-search/index.ts:111 | the ranked list holds, position by position, the candidate at each in-range index; out-of-range indexes are dropped, repeated ones kept, nothing truncated |
| IntelligentSearch.InRangeSubsequence | supabase/functions/intelligent-search/index.ts:111 | the surviving indexes appear among the returned ones in the same order |
| IntelligentSearch.InRangeCounts | supabase/functions/intelligent-search/index.ts:111 | every in-range index survives exactly as often as it was returned, and no out-of-range index survives |
| IntelligentSearch.InRangeKeepsValid | supabase/functions/intelligent-search/index.ts:111 | when every returned index is in range, none is dropped |
| IntelligentSearch.Prefix | supabase/functions/intelligent-search/index.ts:99 | `slice(0, limit)` is the prefix of length `min(limit, n)` |
| IntelligentSearch.FindRelevant | supabase/functions/intelligent-search/index.ts:63-119 | a parsed index array selects candidates by index; every other outcome (non-OK, no content, no array, exception) falls back to the first `limit` candidates |
| IntelligentSearch.RankedNotTruncated | supabase/functions/intelligent-search/index.ts:111 | an illustration of `SelectByIndexesSpec`, not a further property: eleven valid indexes give eleven results although ten were asked for |
| IntelligentSearch.RankedEmptyOnEmptyArray | supabase/functions/intelligent-search/index.ts:111 | an empty index array gives an empty answer, with no fallback |
| IntelligentSearch.Serve | supabase/functions/intelligent-search/index.ts:153-220 | an unreadable body gives 500 with its error and no call. An empty query gives 400 "A consulta é obrigatória" before any call. Otherwise there is one keyword call, then one scraping call per keyword, then a ranking call only when some candidate survives cleaning; the answer is `[]` without ranking when none does, else the ranking of the candidates with ten asked for |
| IntelligentSearch.AllScrapesFailedGivesEmpty | supabase/functions/intelligent-search/index.ts:195-200 | with every scraping call yielding nothing (non-OK, thrown, or no `dado`) there is no candidate, so the answer is a successful `[]` and ranking is skipped |
| IntelligentSearch.FallbackKeepsOrder | supabase/functions/intelligent-search/index.ts:114-117 | when ranking fails the answer is exactly the first `min(10, n)` candidates in cleaned order |
| SeqOps.Without | src/components/TribunalFilterModal.tsx:262 | a value survives the filter exactly when it is in the list and not dropped; never longer |
| SeqOps.WithoutAppend | src/components/TribunalFilterModal.tsx:262 | filtering distributes over concatenation |
| SeqOps.WithoutCounts | src/components/TribunalSelector.tsx:41 | every copy of a dropped value goes and every copy of any other value stays |
| SeqOps.WithoutSubsequence | src/components/TribunalFilterModal.tsx:262 | the survivors keep their relative order |
| SeqOps.WithoutNothing | src/components/TribunalSelector.tsx:41 | removing an absent value returns the list unchanged |
| SeqOps.MapDedupeKeys | supabase/functions/intelligent-search/index.ts:189 | a `Map` built from a list has one entry per distinct key, every key of the list and no other |
| SeqOps.MapDedupeLastValues | supabase/functions/intelligent-search/index.ts:189 | each entry of the `Map` is the list's last element with that key |
| SeqOps.MapDedupeOrder | supabase/functions/intelligent-search/index.ts:189 | the `Map`'s entries are in the order of their keys' first occurrences |
| SeqOps.SetOrderSpec | src/components/TribunalFilterModal.tsx:260 | `[...new Set(s)]` holds each value of `s` once, nothing else, in order of first occurrence |
| TribunalFilter.TribunalIds | src/components/TribunalFilterModal.tsx:254-257 | a tribunal's checkbox stands for its own id first |
| TribunalFilter.TribunalIdsCoverOrgans | src/components/TribunalFilterModal.tsx:254-257 | the tribunal id is followed by every organ id in catalogue order: one id more than the organ count |
| TribunalFilter.AllIdsAppend | src/components/TribunalFilterModal.tsx:221-230 | the catalogue's id list is built tribunal by tribunal: it distributes over concatenated catalogues |
| TribunalFilter.AllIdsSplit | src/components/TribunalFilterModal.tsx:221-230 | each tribunal's ids sit together, between the ids of the tribunals before it and those after it |
| TribunalFilter.AllIdsLength | src/components/TribunalFilterModal.tsx:221-230 | the id list has one entry per tribunal and one per organ |
| TribunalFilter.AllIdsStart | src/components/TribunalFilterModal.tsx:221-224 | a non-empty catalogue's id list starts with its first tribunal's id |
| TribunalFilter.PushOrganIds | src/components/TribunalFilterModal.tsx:226 | the inner walk appends the organ ids in order |
| TribunalFilter.GetAllIds | src/components/TribunalFilterModal.tsx:221-230 | the nested walk returns exactly the catalogue's id list |
| TribunalFilter.SelectedCount | src/components/TribunalFilterModal.tsx:287 | the count of selected ids never exceeds the number of ids |
| TribunalFilter.SelectedCountBounds | src/components/TribunalFilterModal.tsx:274-289 | the count is full exactly when every id is selected, and positive exactly when some id is |
| TribunalFilter.PartiallySelectedMeaning | src/components/TribunalFilterModal.tsx:282-289 | partially selected means some but not all ids selected, so never together with selected; only a tribunal with organs can be partially selected |
| TribunalFilter.SelectsItself | src/components/TribunalFilterModal.tsx:241 | a selection set to the full id list selects every id |
| TribunalFilter.AllSelectedSelectsEachTribunal | src/components/TribunalFilterModal.tsx:232-235 | when everything is selected, every tribunal of the catalogue is selected |
| TribunalFilter.AllSelectedSelectsEveryTribunal | src/components/TribunalFilterModal.tsx:232-235 | when every id of a catalogue is selected, every tribunal of it is selected |
| TribunalFilter.FilterModal.IsAllSelected | src/components/TribunalFilterModal.tsx:232-235 | "all selected" holds exactly when the selected ids of the catalogue are as many as the catalogue's ids, and then every tribunal's checkbox is checked |
| TribunalFilter.FilterModal.IsTribunalSelected | src/components/TribunalFilterModal.tsx:274-280 | a tribunal is selected exactly when its own id and every one of its organs' ids are selected |
| TribunalFilter.FilterModal.IsTribunalPartiallySelected | src/components/TribunalFilterModal.tsx:282-289 | a tribunal is partially selected exactly when some of its ids are selected but it is not fully selected; a tribunal without organs never is |
| TribunalFilter.FilterModal.constructor | src/components/TribunalFilterModal.tsx:217-219 | the dialog opens with the selection it was given and with STF and STJ expanded |
| TribunalFilter.FilterModal.HandleSelectAll | src/components/TribunalFilterModal.tsx:237-243 | a complete selection becomes empty, any other becomes the full id list, so "all selected" flips; the expanded list is untouched |
| TribunalFilter.FilterModal.ToggleTribunal | src/components/TribunalFilterModal.tsx:245-251 | an expanded tribunal loses every occurrence and the others keep their order; a collapsed one is appended; no other id changes membership and the selection is untouched |
| TribunalFilter.FilterModal.HandleTribunalSelection | src/components/TribunalFilterModal.tsx:253-264 | checking gives the old selection plus the tribunal's ids, without repeats, in first-occurrence order, and the tribunal is then selected. Unchecking removes every occurrence of its ids, keeps the rest in order, and leaves it neither selected nor partially selected. Ids outside the tribunal keep their membership |
| TribunalFilter.FilterModal.HandleOrganSelection | src/components/TribunalFilterModal.tsx:266-272 | checking appends the organ id even if present; unchecking removes every occurrence and keeps the rest in order; nothing else changes membership |
| TribunalFilter.FilterModal.HandleApply | src/components/TribunalFilterModal.tsx:291-294 | the working selection is handed over as it is |
| TribunalFilter.FilterModal.HandleCancel | src/components/TribunalFilterModal.tsx:296-299 | the working selection returns to the one the dialog was opened with |
| TribunalSelector.HandleTribunalChange | src/components/TribunalSelector.tsx:37-43 | checking emits the current list with the id appended at the end; unchecking emits a list without the id in which every other id occurs as often as before |
| TribunalSelector.UncheckKeepsOrder | src/components/TribunalSelector.tsx:40-41 | unchecking keeps the other ids in order and leaves a list without the id unchanged |
| TribunalSelector.HandleSelectAll | src/components/TribunalSelector.tsx:45-47 | select-all emits the fifteen table ids in table order, whatever was selected |
| TribunalSelector.HandleDeselectAll | src/components/TribunalSelector.tsx:49-51 | deselect-all emits the empty list |
| TribunalSelector.InCategory | src/components/TribunalSelector.tsx:53-54 | a group holds exactly the table entries of its category |
| TribunalSelector.CategoriesPartition | src/components/TribunalSelector.tsx:53-54 | the two groups together hold every entry exactly as often as the table does |
| TribunalSelector.CategoryKeepsOrder | src/components/TribunalSelector.tsx:53-54 | each group keeps table order |
| TribunalSelector.SelectorGroups | src/components/TribunalSelector.tsx:18-34 | the superior group is the first nine entries and the regional group the last six |
| TribunalSelector.RegionalHaveSubTribunals | src/components/TribunalSelector.tsx:28-33 | exactly the regional entries have sub-tribunals |
| SearchForm.DefaultSelectionIsSelectorTable | src/pages/Index.tsx:12-15 | the page starts with every selector id, in selector order |
| SearchForm.TrimStart | src/pages/Index.tsx:21 | drops exactly the leading white space: a suffix, all white before it, not starting with white space |
| SearchForm.Trim | src/pages/Index.tsx:21 | `trim` is `TrimStart` followed by `TrimEnd`; what it keeps is stated by `TrimIsSlice`, `TrimCutsOnlyWhitespace` and `TrimKeepsNoEdgeWhitespace` |
| SearchForm.TrimEnd | src/pages/Index.tsx:21 | drops exactly the trailing white space: a prefix, all white after it, not ending with white space |
| SearchForm.TrimIsSlice | src/pages/Index.tsx:21 | `trim` returns a contiguous piece of the query |
| SearchForm.TrimCutsOnlyWhitespace | src/pages/Index.tsx:21 | everything `trim` cuts off on either side is white space |
| SearchForm.TrimKeepsNoEdgeWhitespace | src/pages/Index.tsx:21 | what `trim` keeps neither starts nor ends with white space |
| SearchForm.BlankIffAllWhitespace | src/pages/Index.tsx:21 | a query trims to nothing exactly when every character is white space |
| SearchForm.Utf8 | src/pages/Index.tsx:39 | a code point becomes one to four bytes |
| SearchForm.EncodeURIComponent | src/pages/Index.tsx:39 | the encoded query holds only unreserved characters and `%`, so it cannot end the `q` parameter early |
| SearchForm.DecodeEncode | src/pages/Index.tsx:39 | percent-decoding undoes the encoding of every string |
| SearchForm.SplitJoin | src/pages/Index.tsx:39 | splitting at commas gives back a non-empty list of comma-free ids joined by commas |
| SearchForm.ResultsUrl | src/pages/Index.tsx:39 | the `/resultados` address: the percent-encoded query, then the selection joined by commas; what it carries is stated by `ResultsUrlRoundTrip` |
| SearchForm.ResultsUrlRoundTrip | src/pages/Index.tsx:39 | the results address carries the untrimmed query and the selection in order: a reader of the address gets both back |
| SearchForm.HandleSearch | src/pages/Index.tsx:19-40 | a blank query gives "Digite um termo para buscar" whatever the selection. Otherwise an empty selection gives "Selecione pelo menos um tribunal". Otherwise the form navigates to the results address |
| SearchForm.SubmitReadsBack | src/pages/Index.tsx:19-40 | the form navigates exactly when the query has a non-white character and a tribunal is selected, and the address then reads back as the query typed and the selection |
| AsaasWebhook.Dispatch | supabase/functions/asaas-webhook/index.ts:26-103 | the event dispatch, from a notification to no update, one update, or a thrown error; its table is stated by `EventTable` and `StatusVocabulary` |
| AsaasWebhook.EventTable | supabase/functions/asaas-webhook/index.ts:26-103 | payment received or confirmed activates and stamps `started_at`. A subscription event maps `ACTIVE`, `CANCELLED` and `EXPIRED` and ignores any other status. An overdue or deleted payment expires. A payment without a subscription, or an unknown event, asks for nothing. Only a subscription event whose `subscription` is absent or `null` fails, with the error of reading `id` from `undefined` or from `null` |
| AsaasWebhook.StatusVocabulary | supabase/functions/asaas-webhook/index.ts:57-66 | updates only write `active`, `cancelled` or `expired`, and only activation writes `started_at`, always the current time |
| AsaasWebhook.UpdateFrame | supabase/functions/asaas-webhook/index.ts:33-39 | an update touches only rows with the event's provider subscription id, and in them only status and, when set, `started_at`; no row appears or disappears |
| AsaasWebhook.UpdateIdempotent | supabase/functions/asaas-webhook/index.ts:69-72 | applying the same update twice equals applying it once |
| AsaasWebhook.StepIdempotent | supabase/functions/asaas-webhook/index.ts:26-108 | delivering a notification twice at the same instant leaves the table as one delivery does; a failed delivery leaves it untouched |
| AsaasWebhook.FailureCases | supabase/functions/asaas-webhook/index.ts:110-120 | the answer is 500 exactly when the body is not JSON or is the JSON `null` (which fails on reading `event`), a subscription event has an absent or `null` `subscription`, or an issued update fails |
| AsaasWebhook.SubscriptionStore.RunUpdate | supabase/functions/asaas-webhook/index.ts:33-44 | the database either reports its error and changes nothing, or updates every matching row |
| AsaasWebhook.SubscriptionStore.HandleWebhook | supabase/functions/asaas-webhook/index.ts:22-120 | the handler's new table and response are those of the notification's step, including the distinct error texts for a `null` body and for an absent or a `null` `subscription` (see the lemmas above) |

## Left out

- HTTP, the language model and the scraper are not modelled as calls. Their outcomes are parameters: `LlmReply` for the two model calls and `Scraper` for the scraping API. The request bodies and prompts are not modelled.
- The `/\[.*?\]/` match and `JSON.parse` of the model's answers are not modelled. The model takes the parsed array, or the failure, as given. An array of non-strings or non-numbers, a `null` element and a non-integer index are not modelled.
- `req.json()` and its error are one `Malformed(message)` case. A `query` that is truthy but not a string is not modelled.
- CORS preflight branches, `console` logging, toasts, React rendering, hooks and the `onClose` callback are not modelled.
- The Supabase client is the `rows` map of `SubscriptionStore`, and the database's error is the `updateError` parameter. Rows are keyed by a row key rather than by `asaas_subscription_id`, because `update … eq(…)` changes every row with that id. The time is the `now` string parameter.
- `AsaasWebhook.MissingSubscriptionMessage`, `NullSubscriptionMessage` and `NullBodyMessage` are V8's messages for reading a property of `undefined` or `null`. Other engines word them differently.
- A JSON body that is a number, a string, a boolean or an array has no `event`, so the handler answers 200 without an update. The model has no case for these bodies; they behave as a notification with an unhandled event.
- `catch` in both functions: the thrown value's `message` when it is an `Error`, else the fixed text. In the search function only an unreadable body can reach it in this model.
- Strings are sequences of Unicode scalar values, so a lone surrogate cannot occur. The `URIError` that `encodeURIComponent` throws for one is therefore not modelled.
- TribunalFilter.FilterModal.HandleSelectAll: "all selected" is stated to flip only for a non-empty catalogue. The catalogue is the class constant `catalogue`, which the constructor sets to the non-empty `TribunalsData`, and the handlers are proved for any catalogue. The exact length of the full id list (146) is not computed.
- TribunalFilter.FilterModal: the `selectedTribunals` prop is fixed for the lifetime of the dialog. A parent re-rendering it with a new value is not modelled.
- The results page reads only `q` from the address. `SearchForm.ParseResultsUrl` is a reference reader used to state what the address carries, not a model of that page.
- The `Tribunal` records of the selector and the catalogue's organ names are data only; the model keeps them but proves nothing about names.
- Differences between the code and its description, where the model follows the code:
  - merging by `uuid` keeps each `uuid` at its first position with its last value, not "the first one wins";
  - the ranked answer is not truncated to ten;
  - an empty index array from the model gives an empty answer rather than the fallback.
