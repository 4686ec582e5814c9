# CSV upload dashboard — verified model

The system is a small dashboard for equipment readings. It has two halves:

- **Backend** (Django REST). It accepts a CSV upload and computes averages
  and a type distribution. It stores one summary row per upload and keeps
  only the five newest. It lists the stored summaries newest first.
- **Frontend** (one React component). It uploads a file and keeps the latest
  summary and an upload history in component state. It can export that
  history as a flattened CSV document.

Modules, one per concern:

| file | module | models |
|---|---|---|
| wrappers.dfy | `Wrappers` | `Option` |
| strings.dfy | `Strings` | `Array.prototype.join` on strings, character counts |
| js_values.dfy | `JsValues` | the JavaScript values a history record holds: nullish tests, truthiness, `String()`, objects as ordered key/value lists |
| csv.dfy | `Csv` | `formatCSVValue`, and a quote-aware reader used to state that the exported document reads back as the table it was built from |
| string_order.dfy | `StringOrder` | the default `Array.prototype.sort` on strings (lexicographic), as an insertion sort |
| key_collection.dfy | `KeyCollection` | the two `Set`s filled in a loop over the history: keys in first-seen order, without repeats |
| history_export.dfy | `HistoryExport` | `exportHistoryToCSV` up to `csvContent`: header, rows, fill rules, the document |
| controller.dfy | `Controller` | the component's `file` / `summary` / `history` / `loading` state and its handlers, as a class |
| summary_api.dfy | `SummaryApi` | `upload_csv` and `get_summaries` over the `CSVSummary` table, as a class holding the rows |

These elements are abstract:

- A value's `String()` text is carried as given: `Num(text)`, and
  `Nested(json)` for the `JSON.stringify` text of an object or array.
- An object (`averages`, `type_distribution`) is a list of entries in
  `Object.keys` order.
- A non-object `averages` / `type_distribution` is a primitive `Scalar`.
- Network outcomes, the uploaded file, what pandas reads and computes, and
  the server clock are all inputs.

## Model

| member | source | states |
|---|---|---|
| Csv.Escape | frontend/src/App.js:104 | defines `replace(/"/g, '""')`: every double quote doubled, every other character kept; its properties are `Csv.UnescapeEscape` and `Csv.EscapeLength` |
| Csv.FormatCsvValue | frontend/src/App.js:95-107 | defines `formatCSVValue`: empty for null and undefined, otherwise the value's text escaped and wrapped in quotes; its properties are `Csv.FormatShape`, `Csv.FormatDecodes`, `Csv.FormatLength` and `Csv.FormatClosed` |
| Csv.FormatShape | frontend/src/App.js:95-107 | the field is empty exactly for `null`/`undefined`; otherwise it starts and ends with a double quote |
| Csv.UnescapeEscape | frontend/src/App.js:104 | collapsing each `""` back to `"` recovers the text that was escaped |
| Csv.EscapeLength | frontend/src/App.js:104 | escaping adds exactly one character per double quote in the text |
| Csv.FormatDecodes | frontend/src/App.js:95-107 | reading a formatted field back gives `Blank` for nullish values and otherwise the value's `String()` text |
| Csv.FormatLength | frontend/src/App.js:102-106 | a non-nullish field is `len(s) + count('"', s) + 2` long |
| Csv.FormatClosed | frontend/src/App.js:104-106 | the only commas and newlines in a formatted field are inside its quotes |
| Csv.Render | frontend/src/App.js:155 | defines the document: fields of each line joined by `,`, lines joined by LF, no trailing newline; `Csv.ParseRender` reads it back |
| Csv.ParseRender | frontend/src/App.js:155 | joining cells by `,` and lines by LF, then splitting outside quotes, gives back the same table of cells |
| StringOrder.Sort | frontend/src/App.js:131-132 | defines `Array.from(set).sort()` as an insertion sort under the string order `Below`; its properties are the `StringOrder` lemmas below |
| StringOrder.BelowTotal | frontend/src/App.js:131-132 | the string order used by `sort()` relates any two distinct strings one way or the other |
| StringOrder.BelowTransitive | frontend/src/App.js:131-132 | that order is transitive |
| StringOrder.SortPermutes | frontend/src/App.js:131-132 | sorting keeps every element, with multiplicity |
| StringOrder.SortAscending | frontend/src/App.js:131-132 | sorting keys without repeats gives a strictly ascending list |
| StringOrder.SortFixedIff | frontend/src/App.js:131-132 | for keys without repeats, sorting changes nothing exactly when they are already ascending |
| KeyCollection.AllKeys | frontend/src/App.js:118-124 | defines the keys offered to a set, record by record: `Object.keys` of each object slot, nothing for a non-object; `KeyCollection.AllKeysMembers` characterises it |
| KeyCollection.FirstSeen | frontend/src/App.js:120 | defines repeated `Set.add`: a key is appended only when not already present; `KeyCollection.FirstSeenSpec` characterises it |
| KeyCollection.FirstSeenSpec | frontend/src/App.js:115-125 | adding to a `Set` keeps each key once, and in the order its first occurrence was seen |
| KeyCollection.AllKeysMembers | frontend/src/App.js:118-124 | a key is collected exactly when some record holds an object in that group with that key; scalars give no keys |
| KeyCollection.CollectedKeysSpec | frontend/src/App.js:115-125 | the collected keys are exactly the keys of the history's objects, without repeats, in first-seen order |
| KeyCollection.AddSectionKeys | frontend/src/App.js:119-124 | the inner loop leaves the set as it was plus the object's new keys, in first-seen order |
| KeyCollection.CollectKeys | frontend/src/App.js:115-125 | the `forEach` loop yields, for both groups, exactly the collected keys |
| HistoryExport.BaseValues | frontend/src/App.js:137-142 | defines `item[h]` for the five base names, an array `column_names` replaced by its `", "` join; `HistoryExport.BaseFields` states the fields it gives |
| HistoryExport.Lookup | frontend/src/App.js:145 | defines `item.averages ? item.averages[k] : ""`: an object's own value or undefined, undefined for a truthy non-object, `""` for a falsy one; `HistoryExport.DynamicField` states the fields it gives |
| HistoryExport.Row | frontend/src/App.js:136-153 | defines one data row: the base fields, then the averages and type fields in the given key order; `HistoryExport.TableShape` and `HistoryExport.DynamicField` state its width and contents |
| HistoryExport.Table | frontend/src/App.js:129-153 | defines the header over one row per record, rows reading the keys in first-seen order; `HistoryExport.HeaderColumns`, `HistoryExport.TableShape` and `HistoryExport.ColumnsAlignIff` state its layout |
| HistoryExport.ExportCsv | frontend/src/App.js:110-113 | there is no document exactly when the history is empty |
| HistoryExport.TableShape | frontend/src/App.js:136-155 | one header line plus one line per record; every line is `5 + |averages keys| + |type keys|` fields wide |
| HistoryExport.HeaderColumns | frontend/src/App.js:127-133 | the header starts with the five base names; then each group's names are ascending and are exactly the keys of that group's objects |
| HistoryExport.BaseFields | frontend/src/App.js:137-142 | each base field reads back as its value's text; an array `column_names` is joined with `", "` into a single field |
| HistoryExport.DynamicField | frontend/src/App.js:144-150 | the field under position `m` of a group holds the value of the `m`-th first-seen key: the formatted value if the object has it, an empty field if it lacks it, an empty field for a truthy scalar, and `""` for a falsy one |
| HistoryExport.ExportReadsBack | frontend/src/App.js:155 | when no key contains a quote, comma or LF, splitting the document outside quotes gives back the header and rows exactly |
| HistoryExport.ColumnsAlignIff | frontend/src/App.js:131-150 | the header's dynamic names equal the order the row values are written in exactly when both first-seen key lists are already ascending |
| HistoryExport.FirstSeenOrderMisplacesCounts | frontend/src/App.js:144-150 | one record with type counts `{Pump: 5, Compressor: 3}` is exported with header `Compressor,Pump` over the values `"5","3"` |
| HistoryExport.SortedColumnsAligned | frontend/src/App.js:131-132 | with rows written in the header's sorted order, every dynamic field holds the value of the key its header names |
| HistoryExport.ExportCsvSorted | frontend/src/App.js:110-113 | the corrected export also gives no document exactly for an empty history |
| HistoryExport.SortedExportAgrees | frontend/src/App.js:131-150 | when both first-seen key lists are ascending, the corrected export and the export as written give the same document |
| HistoryExport.ExportHistoryToCsv | frontend/src/App.js:109-155 | the imperative export gives exactly the document defined by the table |
| Controller.ChartData | frontend/src/App.js:78-93 | no chart exactly without a summary or with a falsy distribution; otherwise labels and values pair up as the distribution's entries |
| Controller.Dashboard.constructor | frontend/src/App.js:16-19 | no file, no summary, an empty history, not loading |
| Controller.Dashboard.SelectFile | frontend/src/App.js:24-26 | the file becomes the chosen one and nothing else changes |
| Controller.Dashboard.Upload | frontend/src/App.js:29-68 | with no file it only alerts; a non-ok response, a throw or a falsy `success` change nothing but the loading flag; a success sets the summary, prepends exactly that record to the history and clears the file; loading ends false |
| Controller.Dashboard.ClearHistory | frontend/src/App.js:320 | the history becomes empty and nothing else changes |
| Controller.Dashboard.LoadHistory | frontend/src/App.js:71-75 | a fetched list replaces the history wholesale and nothing else changes |
| SummaryApi.SummaryTable.constructor | api/models.py:4-8 | the table starts empty and chronological |
| SummaryApi.SummaryTable.Create | api/views.py:40-44 | the new row is appended with the current time, and the table stays chronological |
| SummaryApi.SummaryTable.Delete | api/views.py:51 | the row with that timestamp is removed and the table stays chronological |
| SummaryApi.NewestFirst | api/views.py:47 | defines `order_by('-uploaded_at')` of a chronological table as its reverse; `SummaryApi.NewestFirstDescending` states it |
| SummaryApi.Retained | api/views.py:47-51 | defines the table after retention: the last 5 rows when there are more than 5, otherwise all; `SummaryApi.RetainedSpec` characterises it by the independent `CountNewer` rule |
| SummaryApi.WithoutAt | api/views.py:50-51 | deleting a row of a chronological table removes exactly that position |
| SummaryApi.WithoutChronological | api/views.py:51 | deleting keeps the table chronological |
| SummaryApi.NewestFirstDescending | api/views.py:47 | ordering by `-uploaded_at` lists every row once, with strictly decreasing timestamps |
| SummaryApi.RetainedSpec | api/views.py:47-51 | retention keeps at most 5 rows and keeps exactly the rows with fewer than 5 newer ones; at most 5 rows means nothing is deleted |
| SummaryApi.RetainsNewRow | api/views.py:40-51 | the row just created is always kept, as the newest |
| SummaryApi.EncodeColumnNames | api/views.py:43 | defines `",".join(column_names)`; `SummaryApi.ColumnNamesRoundTrip` relates it to decoding |
| SummaryApi.SplitAt | api/views.py:77 | defines Python's `str.split(sep)` with an explicit separator, the empty string giving `[""]`; `SummaryApi.SplitAtCount` gives its length |
| SummaryApi.DecodeColumnNames | api/views.py:77 | defines `s.column_names.split(',')`; `SummaryApi.ColumnNamesRoundTrip` relates it to encoding |
| SummaryApi.SplitAtCount | api/views.py:77 | `split(',')` gives one more piece than there are commas |
| SummaryApi.DecodeEncode | api/views.py:43 | names without commas, at least one of them, split back into the same list |
| SummaryApi.ColumnNamesRoundTrip | api/views.py:77 | decoding the stored names gives the original list exactly when it is non-empty and no name contains a comma |
| SummaryApi.UploadCsv | api/views.py:15-66 | no file means 400 with "No file uploaded"; a parse error means 400 with its message; a missing analysed column or failed analytics means a server fault; in all three nothing is stored. Otherwise one row is stored and the table is trimmed to the 5 newest. The response then carries the frame's shape, its column list and the fixed message |
| SummaryApi.GetSummaries | api/views.py:68-81 | one entry per stored row, newest first; each carries rows, columns, the decoded column names and the timestamp |

## Left out

- The JSX rendering, styles and hover handlers. They are presentation only.
- The chart library registration. It is a foreign library.
- `fetch`, `FormData`, the `setTimeout` delay, and `alert` apart from which message is shown.
- The `Blob` / object-URL / anchor-click download. The model stops at `csvContent`.
- `JSON.stringify` and `String()` of numbers. Their text is an input (`Num`, `Nested`), since float formatting is not modelled.
- Controller.Dashboard.Upload: each handler is one atomic step, so `loading` is never observed true between them. React's asynchronous state updates and batching are not modelled.
- Controller.Dashboard.Upload: clearing the file input element (`fileInputRef.current.value`) is left out. It belongs to the page, not to component state.
- Controller.Dashboard.LoadHistory: a failed initial fetch is modelled as changing nothing. In the source the rejection is unhandled.
- HistoryExport.DynamicField: a key that names an inherited property (`constructor`, `toString`, `valueOf`, `hasOwnProperty`, `__proto__`, or `length` for an array) is read as undefined, giving an empty field, when an object lacks it as its own key. JavaScript's `obj[k]` follows the prototype chain and would format the inherited value (for `constructor`, the text of the `Object` function). The model treats objects as plain key/value lists.
- HistoryExport.DynamicField: a truthy non-object `averages` / `type_distribution` (a non-empty string, say) reads as `undefined` at every key. JavaScript would index the string's characters for numeric keys.
- Controller.ChartData: a truthy non-object distribution (a non-empty string, say) gives empty labels and values. JavaScript's `Object.keys` / `Object.values` on a string give its character indices and characters.
- StringOrder.Sort: it orders by Dafny character code points. JavaScript compares UTF-16 code units, so the two differ for characters outside the Basic Multilingual Plane.
- `Object.keys` ordering, which puts integer-like keys first, is not derived. Each object's entry order is an input.
- HistoryExport.ExportReadsBack: header names are written unquoted, so reading back requires keys without quotes, commas or LF.
- `pd.read_csv`, `.mean()`, `round(..., 2)` and `value_counts()`. They are a foreign library and floating point; what they give is an input (`ReadResult`, `Analytics`).
- `strftime` formatting of `uploaded_at`. The timestamp is passed on as a number.
- SummaryApi.UploadCsv: it assumes the server clock is later than every stored row (`requires Before(db.records, now)`). `auto_now_add` stamps `timezone.now()` at save and promises no such thing: two uploads can share a stamp and the clock can step back. With a tie, the order of `order_by('-uploaded_at')` among the tied rows is unspecified, so the new row could be one of those deleted. The model does not cover that case.
- SummaryApi.SummaryTable.Delete: rows are identified by their timestamps instead of the Django primary key. Under the clock assumption above the two agree; with shared stamps, `Without` would remove every row with that stamp, while the source deletes one row by key.
- SummaryApi.UploadCsv: a column whose mean is NaN (all its cells empty) is modelled as a successful `Processed` response. The row is stored and the table trimmed, but the JSON renderer refuses NaN, so the client would get a server error although storage happened. JSON rendering is not part of this model.
- SummaryApi.UploadCsv: the 500 status for an exception that escapes the view is framework behaviour. The model states only that no row is stored and the response is a fault.
- Django `Response` internals, `test_summary`, `api/urls.py` and `CSVSummary.__str__` are not part of this model.

## Findings

| source | as written | input that shows it | evidently intended | confidence | as-written member | corrected member |
|---|---|---|---|---|---|---|
| frontend/src/App.js:131-150 | the header lists the dynamic keys sorted, but each row writes the values in the `Set`s' first-seen order | one record whose `type_distribution` is `{Pump: 5, Compressor: 3}`: header `Compressor,Pump` over values `"5","3"` | each value sits under the header naming its key | high (proved; not executed) | HistoryExport.FirstSeenOrderMisplacesCounts | HistoryExport.SortedColumnsAligned |
