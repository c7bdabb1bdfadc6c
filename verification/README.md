# Personal finance tracker: validation, store, search, sort and statistics

This project models the logic of a browser finance tracker. The tracker records
transactions: a description, an amount, a category and a date. It covers the following parts of the source.

- the form validators of `scripts/validators.js`, including description clean-up and whole-form validation;
- the regular-expression search of `scripts/search.js`;
- the in-memory store of `scripts/state.js`, with the storage key written by `scripts/storage.js`;
- the parts of `scripts/ui.js` that hold logic: form submission, deletion, column sorting, the dashboard statistics (total, top category, last seven days, budget status), export, import, clear-all, the budget-cap button and the exchange-rate button.

The source's module variables become one immutable `State.Store` value. Each operation returns the next store.

Modules:

- `Wrappers`, `Chars`, `Seqs`: option type, white-space classes of ECMAScript (`\s`, `trim`), filtering and subsequences.
- `Validators`: each validator is the source's `if` chain, returning a `Verdict` that is `Accept` or `Reject` of a `Problem`. `Message` holds the exact error texts. The regular expressions are written out as predicates on characters, and a lemma ties each to a direct reading of the expression. One such reading is the back-reference `\b(\w+)\s+\1\b` with case folding.
- `Search`: pattern compilation, filtering and highlighting over an abstract regular-expression engine.
- `State`: the store, `init`/`load`/`save`/`clear`, add, update (shallow merge), delete, rates, budget cap.
- `Sorting`: the comparator of `sortTransactions`, insertion sort as a stable reference sort, and the sort-button state.
- `Stats`: totals, the intended top category, the seven-day window and the budget status.
- `ObjectKeys`: `getTopCategory` as written, with JavaScript's plain-object and `for … in` key-order rules.
- `Controller`: the handlers of `scripts/ui.js`, including the JSON import and export.

## Model

| member | source | states |
|---|---|---|
| Chars.MissingOrBlankIffAllSpace | scripts/validators.js:6 | `!value \|\| value.trim() === ""` holds exactly when every character of the value is white space (the empty value included) |
| Chars.Trim | scripts/ui.js:544 | the trimmed text is one stretch of the input with only white space before and after it; it has no white space at either end, is empty exactly when the input is all white space, and is the input itself when that has no edge white space |
| Chars.SolidTrim | scripts/validators.js:95 | trimming removes white space only: the non-space characters survive unchanged and in order |
| Chars.WordsTrim | scripts/validators.js:95 | trimming keeps the words of the text |
| Validators.EdgePatternIff | scripts/validators.js:11-14 | `^\S(?:.*\S)?$` matches exactly the non-empty values with no white space at either end and no line terminator anywhere (`.` stops at line terminators) |
| Validators.HasRepeatIffRepeatedWord | scripts/validators.js:22-23 | the word-by-word scan finds a repeat exactly when `\b(\w+)\s+\1\b` with flag `i` matches somewhere |
| Validators.ValidateDescription | scripts/validators.js:4-31 | `validateDescription`; its contract is in Validators.DescriptionVerdict |
| Validators.DescriptionVerdict | scripts/validators.js:4-31 | each of the four rejections happens exactly when its check fails and every earlier check passed (blank, edge white space or line break, a run of two white-space characters, a repeated word); the value is accepted exactly when all four pass |
| Validators.SpaceRunRejected | scripts/validators.js:17-19 | any two adjacent white-space characters make the description invalid |
| Validators.RepeatedWordRejected | scripts/validators.js:22-28 | any match of the duplicate-word expression makes the description invalid |
| Validators.OneWordNoRepeat | scripts/validators.js:22-23 | a text of word characters only holds no repeated word |
| Validators.OneWordAccepted | scripts/validators.js:4-31 | any single word of `\w` characters is a valid description |
| Validators.AmountPatternIffRegex | scripts/validators.js:41 | the digit scan accepts exactly the strings `^(0\|[1-9]\d*)(\.\d{1,2})?$` matches |
| Validators.ValidateAmount | scripts/validators.js:34-50 | `validateAmount`; its contract is in Validators.AmountVerdict |
| Validators.AmountVerdict | scripts/validators.js:34-50 | an amount is rejected as missing exactly when blank, rejected for its format exactly when non-blank and not matching, and accepted exactly when it matches |
| Validators.SplitAccepted | scripts/validators.js:41 | any integer part without a leading zero, optionally followed by a dot and one or two digits, is accepted |
| Validators.AmountExamplesAccepted | scripts/validators.js:41-46 | `5000`, `5000.5`, `5000.50` and `0` are accepted |
| Validators.AmountExamplesRejected | scripts/validators.js:41-46 | `5000.555`, `-5`, `007`, `.5` and `5.` are rejected |
| Validators.ParseAmount | scripts/ui.js:303 | `parseFloat` of an accepted amount is non-negative and a whole number of cents |
| Validators.WholeParses | scripts/ui.js:303 | every whole amount written without a leading zero (`m`, as in `5000`) passes the amount expression, and `parseFloat` reads it as exactly `m` |
| Validators.TenthsParses | scripts/ui.js:303 | every amount with one decimal (`m.d`, as in `5000.5`) passes the amount expression, and `parseFloat` reads it as exactly `m + d / 10` |
| Validators.ShowNatOfDigits | scripts/validators.js:41 | a string matching the integer group `0\|[1-9]\d*` is the decimal form of the number it denotes |
| Validators.AmountShapes | scripts/validators.js:41 | every string the amount expression accepts is a whole amount, an amount with one decimal, or an amount with two decimals, so the three lemmas that read those fix `parseFloat` on every accepted amount |
| Validators.WholeAmounts | scripts/validators.js:41 | every string that is the decimal form of some `m` matches the amount expression and is read as `m` |
| Validators.TenthsAmounts | scripts/validators.js:41 | every string of the form `m.d` matches the amount expression and is read as `m + d / 10` |
| Validators.FormatCentsParses | scripts/ui.js:303 | any amount written with two decimals (`n` hundredths, as in `12.50`) passes the amount expression, and `parseFloat` reads it as exactly `n / 100` |
| Validators.OneDecimalRead | scripts/ui.js:303 | `5000.5` passes the amount expression and is read as 5000.5: a single decimal counts as tenths |
| Validators.FormattedAmounts | scripts/validators.js:41 | every string that is some `FormatCents(n)` matches the amount expression and is read as `n / 100` |
| Validators.DatePatternIffShape | scripts/validators.js:60 | the date expression matches exactly four digits, a dash, a month 01–12, a dash and a day 01–31 |
| Validators.ValidateDate | scripts/validators.js:53-75 | `validateDate`; its contract is in Validators.DateVerdict |
| Validators.DateVerdict | scripts/validators.js:53-75 | a date is rejected as missing exactly when blank, for its format exactly when non-blank and not of that shape, as non-existent exactly when well-shaped but `new Date` rejects it; accepted exactly when well-shaped and parseable |
| Validators.CategoryPatternIff | scripts/validators.js:85 | `^[A-Za-z]+(?:[ -][A-Za-z]+)*$` matches exactly the non-empty runs of ASCII letters joined by single spaces or hyphens |
| Validators.ValidateCategory | scripts/validators.js:78-91 | `validateCategory`; its contract is in Validators.CategoryVerdict |
| Validators.CategoryVerdict | scripts/validators.js:78-91 | a category is rejected as missing exactly when blank, for its characters exactly when non-blank and not letter words, and accepted exactly when it is letter words |
| Validators.CleanDescription | scripts/validators.js:94-96 | the cleaned text has no edge white space and only single spaces between words. It has exactly the words of the input, in order, and equals those words joined by single spaces, so no two words are glued together. It is empty exactly when the input is blank, and an already clean text comes back unchanged |
| Validators.CollapseWords | scripts/validators.js:95 | replacing every white-space run by one space keeps the words of the text |
| Validators.CleanJoin | scripts/validators.js:94-96 | a text with no edge white space and single spaces between words is its words joined by single spaces |
| Validators.CleanDescriptionIdempotent | scripts/validators.js:94-96 | cleaning twice is cleaning once |
| Validators.CleanedDescriptionVerdict | scripts/ui.js:284-287 | after cleaning, the description never fails the edge or double-space checks; it fails as missing exactly when the typed text was blank |
| Validators.ValidateForm | scripts/validators.js:99-131 | `validateForm`; its contract is in Validators.Collect, with an accepted example in Validators.LunchFormAccepted |
| Validators.Collect | scripts/validators.js:99-131 | the error object has a key exactly for each field whose validator failed, holding that validator's problem; the form is valid exactly when all four validators pass |
| Validators.LunchFormAccepted | scripts/validators.js:99-131 | the form "Lunch", "12.50", "Food", "2025-01-15" is valid whenever `new Date` accepts the date, so the accepted-form branch of submission is reachable |
| Search.CompileRegex | scripts/search.js:5-19 | blank input gives no pattern; otherwise the result is what compiling the text gives, nothing for an invalid source |
| Search.Matches | scripts/search.js:52-56 | the per-record test, description or category; its contract is in Search.SearchTransactions and Search.SearchAppend |
| Search.SearchTransactions | scripts/search.js:36-57 | blank input or an invalid pattern returns the list unchanged; otherwise the result is a subsequence of the list, holds only records whose description or category matches, and holds every record that matches |
| Search.SearchAppend | scripts/search.js:52-56 | searching a concatenation is concatenating the searches: each record is kept or dropped on its own |
| Search.SearchIdempotent | scripts/search.js:36-57 | searching a search result again with the same input returns it unchanged |
| Search.Highlight | scripts/search.js:22-33 | text comes back unchanged without a pattern or when empty; otherwise every match is marked |
| State.Load | scripts/storage.js:16-27 | `load`; its contract is in State.Init and State.InitAfterSave |
| State.ClearStorage | scripts/storage.js:30-36 | `clear`: the storage key is removed; its contract is in Controller.ClearAll |
| State.Init | scripts/state.js:17-19 | `init` loads the saved list, or the empty list when nothing is stored, and changes nothing else |
| State.InitAfterBoot | scripts/state.js:6-19 | at start-up the store holds the loaded list, the default rates 0.000685 (usd) and 0.000504 (gbp), and no cap |
| State.InitAfterSave | scripts/storage.js:6-27 | `load` after `save(data)` returns `data` |
| State.AddTransaction | scripts/state.js:25-28 | the record is appended after the unchanged old list, and the new list is saved |
| State.FirstIndex | scripts/state.js:31 | `findIndex` is missing exactly when no record has the id; otherwise it is the first record with the id |
| State.UpdateTransaction | scripts/state.js:30-36 | an unknown id changes nothing; otherwise only the first record with the id changes, to its shallow merge with the patch, and the list is saved |
| State.MergeLaws | scripts/state.js:33 | merging an empty patch changes nothing, and merging a patch twice is merging it once |
| State.DeleteTransaction | scripts/state.js:38-41 | no record with the id remains; every record with another id occurs exactly as often as before, and the kept records are a subsequence of the old list; an absent id changes nothing; the list is saved |
| State.AddKeeps | scripts/state.js:25-28 | any property every record has still holds after adding a record that has it |
| State.UpdateKeeps | scripts/state.js:30-36 | any property every record has still holds after an update whose merged record has it |
| State.DeleteKeeps | scripts/state.js:38-41 | any property every record has still holds after a delete |
| State.SetRates | scripts/state.js:47-49 | the new rates override, the old rates not mentioned stay, no other key appears, and nothing else changes |
| State.SetBudgetCap | scripts/state.js:55-57 | the cap becomes the given amount and nothing else changes |
| Sorting.BeforeIrreflexive | scripts/ui.js:206-214 | the comparator never puts a record before one with an equal key |
| Sorting.BeforeTransitive | scripts/ui.js:206-214 | "sorts before" is transitive for every column and direction |
| Sorting.BeforeTotal | scripts/ui.js:206-214 | of two records, one sorts before the other or their keys are equal |
| Sorting.SortTransactions | scripts/ui.js:198-218 | the sorted copy is a permutation of the list in comparator order |
| Sorting.SortStable | scripts/ui.js:199-201 | records with equal keys keep their relative order, as `Array.prototype.sort` guarantees |
| Sorting.SortIdempotent | scripts/ui.js:198-218 | sorting a sorted list by the same column and direction returns it unchanged |
| Sorting.SortedUnique | scripts/ui.js:198-218 | without ties, two ordered permutations of a list are equal: the sorted order is determined |
| Sorting.FlipReversesWithoutTies | scripts/ui.js:212-213 | without ties, sorting the ascending result descending reverses it |
| Sorting.FlipDoesNotReverseTies | scripts/ui.js:212-214 | with a tie, sorting descending does not reverse the ascending result: tied records keep their order |
| Sorting.SortView | scripts/ui.js:108-114 | the table order: list order until a column is chosen, then that column's sort; its contract is in Controller.VisibleRowsAreSearchResult |
| Sorting.ClickSort | scripts/ui.js:182-188 | a click sorts by the clicked column; it flips the direction on the sorted column and starts ascending on another |
| Sorting.ClickTwice | scripts/ui.js:182-188 | two clicks on the sorted column restore the state; two clicks on another column sort it descending |
| Stats.Total | scripts/ui.js:440 | `reduce` over the amounts; its contract is in Stats.TotalAppend and Stats.TotalFilterBounded |
| Stats.TotalAppend | scripts/ui.js:440 | the total of two lists joined is the sum of their totals |
| Stats.FirstSeenFromOrdered | scripts/ui.js:464-469 | the category keys are in order of first appearance |
| Stats.CategoryIndex | scripts/ui.js:464-469 | every record's category is among the keys |
| Stats.Leader | scripts/ui.js:472-480 | the scan from 0 with `>` finds nothing exactly when no total is positive; otherwise it finds the first greatest total |
| Stats.TopCategory | scripts/ui.js:458-483 | nothing exactly when no category total is positive; otherwise a category present in the list with a positive, greatest total, and no category seen earlier has as much |
| Stats.BudgetStatusOf | scripts/ui.js:506-535 | no status when the cap is unset or 0; under budget with `remaining` such that total plus remaining is the cap, or over budget by a positive overage |
| Stats.BudgetUnderIff | scripts/ui.js:518-528 | with a cap set, the status is "under" exactly when total spending does not exceed the cap, and "over" otherwise |
| Stats.TotalFilterBounded | scripts/ui.js:495-500 | with no negative amount, the spending of any part of the list lies between 0 and the total |
| Stats.Last7DaysSpending | scripts/ui.js:486-503 | with no negative amount, seven-day spending lies between 0 and the total spending |
| Stats.WindowSpendingAppend | scripts/ui.js:495-500 | a record adds its amount to the window's spending exactly when its date lies inside the window |
| ObjectKeys.AccumulateKeeps | scripts/ui.js:464-469 | one step of the totals loop keeps the object well formed: keys once each, no `__proto__` key, prototype names only as strings |
| ObjectKeys.TotalsObjectInvariant | scripts/ui.js:462-469 | the object the loop builds satisfies that invariant |
| ObjectKeys.IndexKeysListed | scripts/ui.js:475 | every key `for … in` visits among the index keys is a key of the object |
| ObjectKeys.TopCategoryAsWritten | scripts/ui.js:458-483 | the empty list gives nothing, and a category named like an `Object.prototype` member is never reported |
| ObjectKeys.TotalsObjectOrdinary | scripts/ui.js:462-469 | when no category is an `Object.prototype` member name, `__proto__` or an array index, the object holds each category once, in order of first appearance, with its total as a number |
| ObjectKeys.ScanIsLeader | scripts/ui.js:472-480 | over numeric slots, the `for … in` scan with `>` from 0 picks the key that the index scan `Stats.LeaderFrom` picks on their values |
| ObjectKeys.TopCategoryAgrees | scripts/ui.js:458-483 | when no category is an `Object.prototype` member name, `__proto__` or an array index, the code as written reports exactly the intended top category |
| ObjectKeys.PrototypeNameNeverWins | scripts/ui.js:465-468 | one purchase of 100 under "constructor" is not reported, although its total is 100 |
| ObjectKeys.PrototypeNameCorrected | scripts/ui.js:458-483 | the intended result for that list is "constructor" |
| ObjectKeys.FoodThenSevenObject | scripts/ui.js:464-469 | Food then "7" at 50 each builds the object `{Food: 50, 7: 50}` with keys in creation order |
| ObjectKeys.SevenVisitedFirst | scripts/ui.js:475 | `for … in` visits the array-index key "7" before "Food" |
| ObjectKeys.IndexKeyJumpsQueue | scripts/ui.js:475-480 | with tied totals, Food seen first, the code reports "7" |
| ObjectKeys.IndexKeyCorrected | scripts/ui.js:458-483 | the intended result gives the tie to Food, the category seen first |
| Controller.AmountOf | scripts/ui.js:303 | the number stored for an amount the validator accepted is non-negative and a whole number of cents, and the stored value is what the amount says: a whole amount `m` is stored as `m`, `m.d` as `m + d / 10`, and `n` hundredths with two decimals as `n / 100` |
| Controller.SubmitForm | scripts/ui.js:274-331 | the verdict is the validation of the cleaned form, and a rejected form changes nothing. An accepted new record is appended with the cleaned fields and both timestamps. An accepted edit of a known id replaces only that record's fields and `updatedAt`, keeping `createdAt`. An edit of an unknown id changes nothing. Rates and cap never change |
| Controller.SubmitKeepsFormRecords | scripts/ui.js:274-331 | if every record passes the form validators with a clean description, that still holds after any submission |
| Controller.NewRecordKeeps | scripts/ui.js:312-323 | adding the record built from an accepted form keeps every record valid |
| Controller.EditedFormRecord | scripts/ui.js:299-309 | merging the edit patch of an accepted form into any record gives a valid record |
| Controller.EditPatchKeeps | scripts/ui.js:299-310 | applying the edit patch of an accepted form keeps every record valid |
| Controller.AcceptedFieldsFormRecord | scripts/ui.js:284-305 | a record carrying the fields of an accepted, cleaned form is valid |
| Controller.HandleDelete | scripts/ui.js:403-427 | an unknown id or a declined confirmation changes nothing; a confirmed delete of a present id is exactly `deleteTransaction`: it removes every record with the id, shrinks the list, keeps the rest in order and saves |
| Controller.DeleteShrinks | scripts/state.js:38-41 | deleting an id that is present makes the list strictly shorter |
| Controller.EveryShape | scripts/ui.js:624-631 | the shape check passes exactly when no element is `null` and each has a truthy id, description, category and date and a numeric amount. It throws exactly when the first element that does not pass is `null`, and fails exactly when that element is not `null` |
| Controller.ImportFile | scripts/ui.js:613-668 | unparsable text is a read error and a non-array is rejected. An array is a read error exactly when its first bad element is `null` (the field read throws), invalid data exactly when that element is not `null`, declined exactly when every element passes and the user does not confirm, and unrepresentable exactly when the user confirms but some element cannot be held. The import happens exactly when the data is an array of well-shaped records, the user confirms, and every record is representable. The store then holds those records in order, saved, with rates and cap unchanged. Every other outcome leaves the store unchanged |
| Controller.ToTxns | scripts/ui.js:648-651 | the mapped list has one record per element, each read from that element |
| Controller.ExportJson | scripts/ui.js:590-592 | the export is an array with one object per record, in order |
| Controller.RecordFields | scripts/ui.js:592 | every field of an exported record reads back as the record's value; a timestamp is absent when unset |
| Controller.RecordRoundTrip | scripts/ui.js:624-651 | an exported record with non-empty id, description, category and date passes the shape check and reads back as itself |
| Controller.ExportImportRoundTrip | scripts/ui.js:590-668 | importing an exported file, confirmed, restores exactly the exported records |
| Controller.ClearAll | scripts/ui.js:677-696 | only after both confirmations are the list and the storage key emptied; rates and cap stay |
| Controller.SetCapFromInput | scripts/ui.js:543-579 | the cap is removed exactly when the input is blank. It is set exactly when the trimmed text parses to a positive number, and it becomes that number. Any other input is reported invalid and changes nothing. Transactions, rates and storage never change |
| Controller.SaveRatesFromInput | scripts/ui.js:699-710 | when both texts parse to positive numbers, usd and gbp become them and nothing else changes; otherwise nothing changes |
| Controller.SettingsAtStart | scripts/state.js:9-15 | at start-up every rate and any cap are positive |
| Controller.SettingsPreserved | scripts/ui.js:543-579 | the cap and rate buttons keep every rate and any cap positive |
| Controller.VisibleRows | scripts/ui.js:90-114 | `renderTable`'s row selection; its contract is in Controller.VisibleRowsAreSearchResult |
| Controller.VisibleRowsAreSearchResult | scripts/ui.js:90-114 | the extra compile guard in `renderTable` changes nothing: the rows are the search result in the chosen order, and a permutation of it |

## Left out

- The JavaScript regular-expression engine for user-typed search patterns is a parameter (`Search.Engine`). It compiles, tests and marks matches, so the search properties hold for any engine. The validators' fixed expressions are modelled in full.
- Characters are Unicode scalar values, whereas JavaScript strings are UTF-16 code units. The comparisons `<`/`>` on strings are modelled as code-point order. This differs from code-unit order only between supplementary-plane characters and characters from U+E000 up.
- `toLowerCase` is modelled on ASCII letters only. The `i` flag of the duplicate-word expression folds ASCII letters, and `\w` is ASCII anyway.
- Amounts are exact reals. Floating-point rounding in `reduce`, in `+=` and in `parseFloat` of the amount is not modelled. `parseFloat` in the cap and rate buttons is a parameter that returns no number for NaN. It returns a finite real or nothing, so an infinite cap or rate (the source accepts `parseFloat("Infinity")` or `"1e400"` at scripts/ui.js:557-569 and stores it) is not modelled.
- `new Date(value)` is a parameter: `dateParses` for the validator, `timeOf` for the seven-day window. Time zones and daylight-saving shifts of `setDate(getDate() - 7)` are not modelled: the window is exactly seven days of milliseconds before the current instant.
- The two `new Date().toISOString()` calls of a new record become one instant `now`. `generateId` (`"txn_" + Date.now()`) is a parameter `freshId`, so its uniqueness is not modelled.
- Controller.ImportFile: elements whose fields cannot be held by `State.Txn` are refused with an `Unrepresentable` outcome, where the source would import them. These are elements that pass the truthiness check but carry a non-string id, description, category or date, or a timestamp that is neither absent, `null` nor a string. A `null` timestamp is read as absent, so the model's export omits that key where the source keeps `null` through `{...t}` (scripts/ui.js:648-651) and `JSON.stringify` writes `"createdAt": null` (scripts/ui.js:592). The import also drops extra JSON fields.
- `storage.js`'s `try`/`catch` around storage access (quota or privacy errors) is not modelled. Neither is the stored text failing to parse; `saved` holds the list itself.
- DOM work is left out: rendering rows, error labels, alerts, focus, timers, navigation, `formatNumber`, and the export file's name and pretty-printing. `handleEdit` only fills the form and sets `editingId`, which `SubmitForm` takes as a parameter.
- Validators.ParseAmount: its own contract states only the bounds. The value read is stated by separate lemmas: Validators.WholeParses for every whole amount, Validators.TenthsParses for every one-decimal amount, and Validators.FormatCentsParses for every two-decimal amount. Validators.AmountShapes shows that these three shapes cover every amount the pattern accepts.
- Stats.Last7DaysSpending: only the bounds are stated. The per-record window rule is `Stats.WindowSpendingAppend`.
- Where the code differs from the intended design, the model follows the code:
  - dates sort as strings, not as calendar dates;
  - clear-all keeps the rates and the budget cap;
  - the rates and the cap are not written to storage;
  - the seven-day window opens seven days before now;
  - sorting descending is not a reversal of the ascending order when keys tie.

## Findings

| source | as written | input that shows it | evidently intended | confidence | as-written member | corrected member |
|---|---|---|---|---|---|---|
| scripts/ui.js:465-468 | `categoryTotals` is a plain `{}`. For a category named like an `Object.prototype` member, `categoryTotals[c]` reads the inherited function, which is truthy, so the slot is never reset to 0. `+=` then makes it a string, which never compares greater than a number | one purchase of 100 filed under "constructor" | the top category is "constructor" | not executed | ObjectKeys.PrototypeNameNeverWins | ObjectKeys.PrototypeNameCorrected |
| scripts/ui.js:475-480 | `for … in` visits keys that are array indices before all other keys, so ties go to a numeric category rather than to the category seen first | Food 50 then "7" 50 | ties go to the category seen first: Food | not executed | ObjectKeys.IndexKeyJumpsQueue | ObjectKeys.IndexKeyCorrected |
