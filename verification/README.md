# Quote collection store

A Dafny model of the in-memory quote collection behind a browser "random quote" widget.
The repository holds the widget twice:

- `dom-manipulation/script.js` is the persistent copy. It loads the list from local
  storage, or falls back to eight built-in quotes. It saves the list after every change.
  It remembers the last shown quote in session storage. It can import a JSON file.
- `script.js` is the minimal copy. It keeps the same list in memory only.

Both copies keep a list of `{text, category}` records and a selected category. `"all"`
means no filter. Both can:

- add a quote from a form (both fields trimmed; the form is rejected if either is empty);
- delete a quote by its position (`splice`), after a confirmation;
- show a random quote from the selected category, or a placeholder when it has none;
- build one button per distinct category, in order of first occurrence;
- show two statistics: the number of quotes and the number of categories.

Layout:

- `text.dfy` (module `Text`): JavaScript's `trim`.
- `quotes.dfy` (module `Quotes`): the record, the default quotes, the add form, `splice`,
  the category filter and the random pick.
- `categories.dfy` (module `Categories`): the Set-ordered category list, the statistics
  and the button list.
- `import.dfy` (module `Import`): the decoded import file and its all-or-nothing check.
- `persistent_store.dfy` (module `PersistentQuotes`): class `QuoteStore`, the persistent copy.
- `minimal_store.dfy` (module `MinimalQuotes`): class `QuoteBoard`, the minimal copy.

Values from outside the program are parameters:

- the answer to `confirm()` is a `bool`;
- `Math.random()` is a real `rand` with `0 <= rand < 1`, and the index drawn is
  `Floor(rand * n)`, as in the source;
- the stored list and the stored last quote are decoded values (`Option`s);
- the imported file is an already parsed value.

The model follows these details of the code:

- Deleting an out-of-range index raises no error. `splice` clamps the index or counts it
  from the end, and `RemoveAt` models exactly that.
- Drawing from an empty list raises no error. The placeholder is shown instead.
- Imported fields are checked for being non-empty, not for being non-blank. They are
  appended untrimmed.
- The selected category is not persisted.

## Model

| member | source | states |
|---|---|---|
| `Text.TrimStart` | dom-manipulation/script.js:165-166 | the result is the suffix of the input after a run of whitespace, and starts with a non-whitespace character |
| `Text.TrimEnd` | dom-manipulation/script.js:165-166 | the result is the prefix of the input before a run of whitespace, and ends with a non-whitespace character |
| `Text.Trim` | script.js:61-62 | the trimmed value is empty exactly when the input is all whitespace; otherwise both of its ends are non-whitespace |
| `Text.TrimPadded` | dom-manipulation/script.js:165-166 | trim of whitespace + core + whitespace is the core, for any trimmed core: trim removes exactly the surrounding whitespace |
| `Text.TrimIdempotent` | script.js:61-62 | trimming twice gives the same result as trimming once |
| `Quotes.DefaultQuotesWellFormed` | dom-manipulation/script.js:1-10 | each of the eight built-in quotes has a non-empty text and category |
| `Quotes.NewQuote` | dom-manipulation/script.js:165-177 | the form yields a record exactly when neither trimmed field is empty; the record is `{trim(text), trim(category)}`, is well formed and has trimmed fields |
| `Quotes.NewQuoteRoundTrip` | script.js:61-73 | a stored trimmed record re-entered with any surrounding whitespace yields that same record |
| `Quotes.SpliceStart` | dom-manipulation/script.js:352 | where `splice` starts: a non-negative index stays as it is or is clamped to the length; a negative one counts from the end or is clamped to 0 |
| `Quotes.RemoveAt` | dom-manipulation/script.js:352 | `splice(index, 1)`: in range, the element at `index` is removed; at or past the end, nothing changes; a negative index removes from the end |
| `Quotes.RemoveAtInRange` | script.js:152 | deleting an existing position: the length drops by one; earlier quotes stay in place; later quotes move up by one; the multiset loses exactly one copy of the deleted quote |
| `Quotes.RemoveAtKeepsWellFormed` | dom-manipulation/script.js:352 | deleting keeps every quote well formed |
| `Quotes.AppendKeepsWellFormed` | dom-manipulation/script.js:168-177 | appending a record with non-empty fields keeps every quote well formed |
| `Quotes.Matching` | script.js:33 | the filtered list holds exactly the quotes of that category and is no longer than the input |
| `Quotes.FilterByCategory` | dom-manipulation/script.js:53-56 | with `"all"` the result is the whole list unchanged; otherwise it holds exactly the quotes whose category equals the selection |
| `Quotes.MatchingAppend` | script.js:31-34 | filtering commutes with concatenation, so it keeps the original order |
| `Quotes.MatchingCounts` | dom-manipulation/script.js:55 | filtering keeps every copy of a matching quote and no copy of any other quote |
| `Quotes.FilterAfterAppend` | dom-manipulation/script.js:53-56 | after an append, the filtered list gains the new quote at its end exactly when the quote matches the selection |
| `Quotes.PickIndex` | dom-manipulation/script.js:66 | `floor(random * length)` is a valid position of a non-empty list |
| `Quotes.PickIndexReaches` | script.js:44 | every position can be drawn: `rand = k / n` draws position `k` |
| `Quotes.Pick` | dom-manipulation/script.js:58-67 | nothing is drawn exactly when the filtered list is empty; otherwise the drawn quote is an element of the filtered list |
| `Quotes.PickRespectsFilter` | dom-manipulation/script.js:53-67 | a drawn quote is a stored quote and, unless the selection is `"all"`, has the selected category; nothing is drawn exactly when no stored quote qualifies |
| `Quotes.PickCovers` | script.js:36-45 | every element of the filtered list can be the quote shown |
| `Categories.Dedup` | dom-manipulation/script.js:252 | the Set-ordered list holds the same values as its input, each exactly once |
| `Categories.DistinctCategories` | script.js:93 | the category list, built from the list of the quotes' categories (`quotes.map`), holds exactly the categories that some quote carries, each of them among those mapped values, without duplicates |
| `Categories.DedupFirstOccurrenceOrder` | dom-manipulation/script.js:252 | the Set-ordered list is in order of first occurrence in the input |
| `Categories.DistinctCategoriesOrder` | script.js:93 | for two categories in the list, the earlier one first occurs at an earlier quote |
| `Categories.DistinctCategoriesAfterAppend` | dom-manipulation/script.js:174-187 | after an add, the category list is unchanged if the category is known, and otherwise gains it at the end |
| `Categories.NoDuplicatesCard` | dom-manipulation/script.js:407 | a list without duplicates has as many entries as its set of values |
| `Categories.StatsOf` | dom-manipulation/script.js:389-407 | "Total Quotes" is the length of the list; "Categories", the size of the Set, equals the length of the category list |
| `Categories.Without` | script.js:101-102 | skipping a value keeps exactly the other values and introduces no duplicates |
| `Categories.WithoutAbsent` | script.js:102 | skipping a value that does not occur changes nothing |
| `Categories.WithoutKeepsOrder` | script.js:101-102 | skipping a value keeps the other values of a duplicate-free list in their relative order |
| `Categories.WithoutCategoryOrder` | script.js:93-102 | the category list with `"all"` skipped is still in order of first occurrence among the quotes |
| `Import.ToQuote` | dom-manipulation/script.js:463 | an accepted element becomes a well-formed record |
| `Import.ToQuotes` | dom-manipulation/script.js:463 | the accepted array becomes well-formed records, one per element, in order |
| `Import.ValidateElements` | dom-manipulation/script.js:455-460 | the check loop answers true exactly when every element is an object with a non-empty text and category |
| `Import.ImportVerdict` | dom-manipulation/script.js:442-477 | an import succeeds exactly when the file is an array whose every element is valid, and then it imports all of them; parse errors and non-arrays are rejected with their own error |
| `Import.OneBadElementRejects` | dom-manipulation/script.js:456-460 | one invalid element anywhere rejects the whole file |
| `PersistentQuotes.CategoryButtons` | dom-manipulation/script.js:251-268 | one button per entry of the category list, at the same position, so in first-occurrence order and none repeated; a button is marked exactly when its category is the selection |
| `PersistentQuotes.AllCategoryGetsSecondButton` | dom-manipulation/script.js:252-258 | if a quote has the category `"all"`, the generated buttons include one for `"all"` beside the fixed "All Categories" button |
| `PersistentQuotes.QuoteStore.Load` | dom-manipulation/script.js:1-26 | the stored list is used whenever one is stored, even an empty one; otherwise the eight default quotes, which are well formed; no filter; the session's quote is shown if one is remembered, otherwise a random one is drawn |
| `PersistentQuotes.QuoteStore.SaveQuotes` | dom-manipulation/script.js:44-46 | local storage then holds exactly the current list; nothing else changes |
| `PersistentQuotes.QuoteStore.ShowRandomQuote` | dom-manipulation/script.js:49-76 | shows the quote drawn from the filtered list, or the placeholder exactly when that list is empty; the drawn quote is stored and has the selected category; the placeholder leaves the session slot untouched; the list, the selection and local storage are unchanged |
| `PersistentQuotes.QuoteStore.AddQuote` | dom-manipulation/script.js:164-193 | a blank field rejects the form and changes nothing; otherwise exactly `{trim(text), trim(category)}` is appended, earlier quotes are unchanged and local storage equals the new list |
| `PersistentQuotes.QuoteStore.DeleteQuote` | dom-manipulation/script.js:350-361 | unconfirmed, nothing changes; confirmed, the list becomes `splice(index, 1)` of the old one, is saved, and a new quote is drawn under the current filter |
| `PersistentQuotes.QuoteStore.SelectCategory` | dom-manipulation/script.js:270-281 | the clicked category becomes the selection, and the quote then shown has that category unless it is `"all"` |
| `PersistentQuotes.QuoteStore.ImportFromJson` | dom-manipulation/script.js:442-480 | all or nothing: an accepted file appends all its records after the old list, in order, and saves; any rejection leaves the list and local storage as they were |
| `PersistentQuotes.QuoteStore.Statistics` | dom-manipulation/script.js:384-421 | the panel shows the list's length and the number of distinct categories |
| `MinimalQuotes.CategoryButtons` | script.js:89-125 | each distinct category other than `"all"` gets exactly one button, and no button is for `"all"`; the buttons follow the order in which their categories first occur among the quotes; a button is marked active exactly when its category is the selection |
| `MinimalQuotes.SameButtonsWithoutAllCategory` | script.js:93-102 | when no quote has the category `"all"`, both copies build the same buttons |
| `MinimalQuotes.QuoteBoard.constructor` | script.js:2-17 | starts with the eight default quotes, all well formed, no filter, and a quote drawn from them |
| `MinimalQuotes.QuoteBoard.ShowRandomQuote` | script.js:27-57 | shows the quote drawn from the filtered list, or the placeholder when it is empty; the drawn quote is stored and has the selected category |
| `MinimalQuotes.QuoteBoard.AddQuote` | script.js:60-86 | a blank field rejects the form and changes nothing; otherwise exactly `{trim(text), trim(category)}` is appended after the unchanged earlier quotes |
| `MinimalQuotes.QuoteBoard.DeleteQuote` | script.js:150-160 | unconfirmed, nothing changes; confirmed, the list becomes `splice(index, 1)` of the old one and a new quote is drawn |
| `MinimalQuotes.QuoteBoard.SelectCategory` | script.js:111-121 | the clicked category becomes the selection, and the quote then shown has that category |
| `MinimalQuotes.QuoteBoard.Statistics` | script.js:163-166 | the totals are the list's length and the number of distinct categories |

## Left out

- DOM construction, styling, form clearing and event wiring are left out. They include `createAddQuoteForm`, `displayQuotesList` and the button colours. They hold no behaviour beyond what the model states.
- `alert` messages are left out. `confirm` is a boolean parameter.
- Local and session storage are fields holding decoded values. JSON text is not modelled. A stored value that is not an array (`JSON.parse` yielding a falsy value or an object), or stored text that does not parse, is not modelled.
- Export through `Blob`, an object URL and a link click is left out. It is browser I/O and does not change the list.
- File reading through `FileReader` and `JSON.parse` is left out. The model starts from the parsed value, and a parse failure is the `Unparsable` case.
- `Import.Element`: an imported field whose value is truthy but not a string (a number, an object) would be pushed verbatim by the source. The model only represents string fields.
- `Quotes.PickIndex`: `Math.random` is a real parameter in `[0, 1)`. Floating-point rounding of `random * length` is not modelled.
- The `setTimeout` scale animation of the minimal copy is left out. It is cosmetic.
- The "All Categories" button is not part of the modelled button lists. In the persistent copy (dom-manipulation/script.js:220-249) the script creates it when the page has none, with a click handler that selects `"all"` and draws a quote; that click is `QuoteStore.SelectCategory` with `"all"`. Creating the element and its green highlighting, which is set when it is created and not recomputed from the selection, are DOM work. In the minimal copy it is page content that the script keeps.
- Every write to local or session storage is assumed to succeed. In the source, `setItem` can throw (a full quota), and each write comes after the list or the display was already changed. The lines below name the members this affects.
- `PersistentQuotes.QuoteStore.ShowRandomQuote`: when writing the session slot throws (dom-manipulation/script.js:75), the drawn quote is already displayed but not remembered. The model always remembers it.
- `PersistentQuotes.QuoteStore.ImportFromJson`: when `saveQuotes` throws (dom-manipulation/script.js:464), the records are already appended (line 463). The catch at line 475 then reports an import error. The model has no outcome in which the list grew but storage did not.
- `PersistentQuotes.QuoteStore.AddQuote`: when `saveQuotes` throws (dom-manipulation/script.js:180), the quote stays appended in memory (line 174) but is not saved, and the rest of the handler does not run.
- `PersistentQuotes.QuoteStore.DeleteQuote`: when `saveQuotes` throws (dom-manipulation/script.js:353), the quote is already removed in memory (line 352) but not in storage, and no new quote is drawn.
- `Import.ToQuote`: `quotes.push(...importedQuotes)` appends the parsed objects themselves, so any extra properties they carry stay in the list and are saved by `saveQuotes`. The model keeps only `text` and `category`.
- Remote sync and conflict resolution are not part of this model. Neither copy contains that code.
