# Task board state logic, modelled in Dafny

This project models the state logic of the task board page of the taskify AI
agent (`app/page.tsx`). The page sends free-text tasks to a language model and
gets back three priority buckets, `highPriority`, `mediumPriority` and
`lowPriority`. Each bucket is an ordered list of task labels. The user can drag
a task to a new place inside its bucket and can export the board as CSV.

Three pieces of bookkeeping are taken out of the React component. Each becomes
an operation on the three-bucket record:

- **Reorder** (`handleDragEnd`). The buckets are scanned in key order: high,
  then medium, then low. In the first bucket that holds both the dragged id and
  the drop-target id, `arrayMove` moves the dragged task to the target's index.
  `reorder.dfy` has `HandleDragEnd`, a method with the source's loop and `break`.
  It is proved equal to the specification function `DragEnd`. `DragEnd`'s
  contract states the no-op cases, which bucket changes, and the permutation.
  `ArrayMove` is the library's `arrayMove`, written as a sequence function. Its
  contract pins the result down completely (`ArrayMoveUnique`), and a move can be
  undone (`ArrayMoveUndo`).
- **Merge** (the part of `handleSubmit` after the endpoint's body has arrived).
  First the text to parse is chosen: the first fenced block tagged `json` (any
  case) if there is one, otherwise the whole reply. Either way it is trimmed
  (`extract.dfy`). The parsed value is then merged into three empty buckets
  (`merge.dfy`). `MergeArray` is the `forEach` loop. Its contract ties it to a
  definition that never mentions the scan: each bucket holds the value from the
  last element where that key is truthy (`MergedFrom`, `LastTruthy`).
  `HandleResponse` covers every path: no string reply, unparsable text, array,
  object, primitive, a null item, and null data.
- **CSV export** (`exportToCSV`). Rows are `("High", t)`, then `("Medium", t)`,
  then `("Low", t)`, after a header row. Every field is wrapped in double quotes,
  fields are joined with commas and rows with line feeds (`csv.dfy`). If no task
  contains a line feed, splitting the file at line feeds gives exactly the
  expected lines (`ExportLines`). `csv_quoting.dfy` adds a strict reader of fully
  quoted CSV with line-feed row breaks; it is not a full RFC 4180 reader, which
  also takes unquoted fields and CRLF row breaks. With it, the model shows that the export as written can be ambiguous and
  can give lines a strict reader rejects. It also shows that doubling the
  quotes inside fields makes every board read back (see "Findings").

`JSON.parse` is not modelled. It is a parameter `parse: string -> Option<Json>`,
where `None` means it threw. The endpoint's JSON body `data` is an input value.
The board state is a `PriorityTasks<seq<string>>` value. Handlers return the new
record instead of calling `setResponse`.

Where the source and its design notes differ, the model follows the source:

- The parse-error text is "Failed to parse Gemini response. Please try again.".
- A bucket is overwritten when the key's value is truthy, not merely present. So
  `""`, `0`, `false` and `null` are ignored, while `[]` overwrites.
- A null element in the parsed array makes `item.highPriority` throw inside the
  inner `try`. Earlier elements have already been merged. The error is set, and
  the partly merged record still replaces the board.
- When `data` itself is null, `data.text` throws. The outer handler sets
  "Failed to prioritize tasks. Please try again." and the board is not replaced.
- The CSV header is quoted like every other field: `"Priority","Task"`.

## Model

| member | source | states |
|---|---|---|
| `Tasks.PriorityTasks.With` | app/page.tsx:71-75 | assigning one key of the record copy sets that bucket and leaves the other two unchanged |
| `Reorder.IndexOf` | app/page.tsx:68-69 | `indexOf` is -1 exactly when the id is absent; otherwise it is the first index holding the id |
| `Reorder.ArrayMove` | app/page.tsx:71-75 | `arrayMove` keeps the length and the multiset, puts the moved element at `to`, and leaves the other elements in their relative order (removing it from both gives the same sequence) |
| `Reorder.ArrayMoveUnique` | app/page.tsx:71-75 | the contract of `ArrayMove` determines its result: any sequence with those properties is the result |
| `Reorder.ArrayMoveInPlace` | app/page.tsx:71-75 | moving an element onto its own index changes nothing |
| `Reorder.ArrayMoveUndo` | app/page.tsx:71-75 | moving from `to` back to `from` restores the original bucket |
| `Reorder.ArrayMoveAt` | app/page.tsx:71-75 | element by element: the entries between the two indices shift one place toward `from` and every other entry stays put |
| `Reorder.MatchingBucket` | app/page.tsx:66-70 | returns the first bucket, in key order high, medium, low, that holds both ids; None exactly when no bucket holds both |
| `Reorder.DragEnd` | app/page.tsx:61-80 | no target, or a drop on itself: nothing changes; no bucket with both ids: nothing changes; otherwise only the first matching bucket changes, it stays a permutation, the dragged id lands at the target's first index, and the others keep their order; no bucket ever gains or loses an entry |
| `Reorder.HandleDragEnd` | app/page.tsx:61-80 | the shallow copy, the scan over the keys and the `break` after the first match compute exactly `DragEnd` |
| `Json.Field` | app/page.tsx:146-151 | for the four keys the page reads, a property read gives a value exactly when the item is an object with that own key, and the value is that field; otherwise it is `undefined` |
| `Json.Truthy` | app/page.tsx:146-151 | JavaScript ToBoolean: a value is falsy exactly when it is `null`, `false`, `0` or `""`, so every array and object, even an empty one, is truthy |
| `Extract.SkipLeading` | app/page.tsx:138 | finds the first character that is not whitespace; everything before it is whitespace |
| `Extract.SkipTrailing` | app/page.tsx:138 | finds the end of the last character that is not whitespace; everything after it is whitespace |
| `Extract.Trim` | app/page.tsx:138 | `trim` returns a contiguous part of the text; everything cut off on either side is whitespace; the result neither starts nor ends with whitespace |
| `Extract.TrimIdempotent` | app/page.tsx:138 | trimming an already trimmed text changes nothing |
| `Extract.FindClose` | app/page.tsx:137 | the lazy `([\s\S]*?)` stops at the first closing fence after the opening one; -1 when there is none |
| `Extract.FindFence` | app/page.tsx:137 | the match starts at the leftmost index where an opening fence is followed by a closing one; None when there is no such index |
| `Extract.FirstOpeningWins` | app/page.tsx:137 | whenever the expression matches, it matches at the first opening fence in the text |
| `Extract.JsonText` | app/page.tsx:137-138 | the text to parse is the trimmed interior of the first fenced block, or the whole reply trimmed when there is no block |
| `Extract.FencedExample` | app/page.tsx:137-138 | a block opened by ```` ```JSON ```` (capitals) is found and its interior trimmed |
| `Extract.BareExample` | app/page.tsx:138 | a reply without a fence is trimmed whole |
| `Merge.Pick` | app/page.tsx:146-151 | one guarded assignment: when the item's field under the bucket's key is truthy, the bucket becomes that field; otherwise it keeps its value (the object branch at lines 154-159 makes the same assignments) |
| `Merge.Overwrite` | app/page.tsx:146-151 | the three guarded assignments on one item: every bucket whose key is truthy in the item takes the item's field, and the others are unchanged |
| `Merge.LastTruthy` | app/page.tsx:145-152 | returns the index of the last element whose field is truthy; no later element has a truthy field; -1 when none has |
| `Merge.MergedFrom` | app/page.tsx:144-152 | each bucket is the value under its key in the last element where that value is truthy, or the initial empty array when there is none |
| `Merge.UntilNull` | app/page.tsx:145-152 | the number of elements `forEach` processes before a null element throws; it equals the length exactly when there is no null element |
| `Merge.MergeStep` | app/page.tsx:145-152 | processing one more element is one more round of the three guarded overwrites |
| `Merge.ObjectAsSingleton` | app/page.tsx:153-160 | a single object is merged exactly like an array that holds only that object |
| `Merge.MergeArray` | app/page.tsx:144-152 | the `forEach` loop throws exactly when an element is null; it leaves the buckets as `MergedFrom` gives them for the elements before the first null |
| `Merge.ReplyText` | app/page.tsx:136 | there is a reply text exactly when `data` is an object whose `text` is a string, and it is that string |
| `Merge.HandleResponse` | app/page.tsx:129-171 | null data: request error and the record is not replaced; no string reply: empty buckets with no error; unparsable text: empty buckets with the parse error; array: last truthy value per key, with the parse error when there is a null element; object: a key's field if truthy, else empty; primitive or null: empty buckets with no error |
| `Merge.StringsOf` | app/page.tsx:22-26 | defined exactly when every element is a string; it lists those strings in order |
| `Merge.ToTaskSet` | app/page.tsx:22-26 | the merged record has the declared `string[]` type exactly when all three buckets are arrays of strings; the lists are then carried over unchanged |
| `Merge.PromptShapeExample` | app/page.tsx:144-152 | the prompted reply `[{"highPriority":["A"]},{"mediumPriority":["B","C"]},{"lowPriority":[]}]` merges into `["A"]`, `["B","C"]`, `[]` |
| `Merge.BareObjectExample` | app/page.tsx:153-160 | the object `{"highPriority":["X"]}` gives `["X"]`, `[]`, `[]` |
| `Merge.FalsyFieldIgnored` | app/page.tsx:146-147 | a later empty-string value under a key does not overwrite an earlier array |
| `Csv.JoinLeft` | app/page.tsx:98-99 | `join` appends the separator and the next element to the text built so far, left to right; the model's `Join` gives the same text |
| `Csv.Tagged` | app/page.tsx:92-94 | a bucket gives one `[label, task]` row per task, in bucket order |
| `Csv.Rows` | app/page.tsx:90-95 | 1 + \|high\| + \|medium\| + \|low\| rows: the header `["Priority","Task"]`, then the High, Medium and Low rows, each bucket in its order |
| `Csv.QuoteAll` | app/page.tsx:98 | every field of a row is wrapped in double quotes, with nothing escaped |
| `Csv.FormatRows` | app/page.tsx:97-98 | one formatted line per row, in row order |
| `Csv.FormatPair` | app/page.tsx:98 | a `[label, task]` row is written as `"<label>","<task>"` |
| `Csv.SplitJoin` | app/page.tsx:99 | joining lines that contain no line feed with `\n` can be undone by splitting at line feeds |
| `Csv.ExpectedLines` | app/page.tsx:90-99 | the expected line list has 1 + \|high\| + \|medium\| + \|low\| entries: the header line, then one line per task |
| `Csv.FormattedRows` | app/page.tsx:90-98 | the formatted rows are the header line, then one `"<label>","<task>"` line per task, High before Medium before Low |
| `Csv.ExportCsv` | app/page.tsx:89-99 | the exported text is the expected line list, the header line then one `"<label>","<task>"` line per task, joined by line feeds |
| `Csv.ExportEmpty` | app/page.tsx:51-55 | the board the page starts with, three empty buckets, exports as the header line `"Priority","Task"` alone |
| `Csv.ExportLines` | app/page.tsx:89-99 | if no task contains a line feed, the exported text splits into exactly those lines |
| `Csv.ExportExample` | app/page.tsx:89-99 | a board with high `["A"]`, medium `[]` and low `["Z"]` exports as `"Priority","Task"\n"High","A"\n"Low","Z"` |
| `CsvQuoting.ExportAmbiguous` | app/page.tsx:97-99 | as written, two different boards can export to the same text: one task holding `"`, a comma and a line feed reads like two tasks |
| `CsvQuoting.ExportUnreadable` | app/page.tsx:98 | as written, a task whose first double quote is followed by anything but a quote, a comma or a line feed gives a line that `ParseDocument`, a strict reader of fully quoted CSV with line-feed row breaks, rejects, for any label without a double quote |
| `CsvQuoting.ExportUnreadableExample` | app/page.tsx:98 | as written, the task `say "hi"` in the High bucket gives the line `"High","say "hi""`, which the strict reader rejects |
| `CsvQuoting.ParseEscaped` | app/page.tsx:98 | a field whose quotes are doubled, followed by its closing quote, reads back as exactly that field |
| `CsvQuoting.ParseRows` | app/page.tsx:97-99 | rows formatted with doubled quotes and joined by commas and line feeds read back as the same rows |
| `CsvQuoting.ExportEscapedReadsBack` | app/page.tsx:89-99 | the corrected export reads back as exactly the header and the tagged rows of the board, whatever the tasks contain |
| `CsvQuoting.RowsReadBack` | app/page.tsx:90-95 | gathering the tasks of the `High`, `Medium` and `Low` rows gives back the three buckets in order; the header row adds nothing |
| `CsvQuoting.ExportEscapedRoundTrip` | app/page.tsx:89-99 | importing the corrected export gives back the board it was made from |
| `CsvQuoting.ExportEscapedInjective` | app/page.tsx:89-99 | under the corrected export, different boards give different files |
| `CsvQuoting.EscapedMatchesExport` | app/page.tsx:97-99 | if no task holds a double quote, the corrected export is exactly the export as written |

## Left out

- `app/api/gettasks/route.ts`, the endpoint that forwards the prompt to the Gemini service. It is network I/O with a try/catch and nothing else. Its JSON body reaches the model as the input `data`.
- `fetch`, `await res.json()`, `setIsLoading`, the disabled submit button and the outer `catch` for network failures. These are asynchronous I/O and UI plumbing. From the outer `catch`, only the `data === null` case is modelled, because it is thrown inside the merge lines.
- `JSON.parse` is a parameter of `HandleResponse`, and `None` stands for a thrown `SyntaxError`.
- Numbers are exact reals. `JSON.parse` rounding to doubles is not modelled: an overflow to `Infinity` or an underflow to `0` can change truthiness only in the underflow case.
- The JSON export (`JSON.stringify(response, null, 2)`, lines 82-87), `Blob` and `saveAs` are library serialisation and file download. Only the CSV text is modelled.
- React rendering, the dnd-kit sensors, `SortableTask`, `SortableContext`, the class strings and `console` logging are left out. They have no state logic.
- The prompt template (lines 114-122) is a constant text with the user's input appended.
- `HandleDragEnd` takes the drag ids as strings and the drop target as an `Option`. Other id types from the drag library are not modelled.
- Board buckets that hold something other than a list of strings are not modelled. This happens when the reply put a number or an object under a key. The merge result keeps such values (`Parsed`), and `ToTaskSet` says exactly when the result fits the board's declared type. What the page then renders, drags or exports is not modelled.
- `Csv.ExportLines` gives the line count only for boards without a line feed inside a task, because the export escapes nothing: a task with a line feed spans several lines of the file.
- The JavaScript regular-expression engine is not modelled. `Extract.FindFence` and `Extract.FindClose` describe this one expression directly, with the `i` flag folding only the ASCII letters of `json`.
- `Json.Field` models property reads only for the four keys the page reads (`highPriority`, `mediumPriority`, `lowPriority`, `text`). Inherited and built-in properties such as `length` or `toString` are not modelled.
- `CsvQuoting.ParseDocument` is not a full RFC 4180 reader. It takes only fully quoted fields and line-feed row breaks. `ExportUnreadable` is a statement about this reader: for a task like `a` followed by CRLF and `"x`, it rejects text that RFC 4180 reads as two records.

## Findings

| source | as written | input that shows it | evidently intended | confidence | as-written member | corrected member |
|---|---|---|---|---|---|---|
| app/page.tsx:98 | every field is wrapped as `` `"${val}"` `` and quotes inside it are kept as they are | a board whose high bucket is `["x\"\n\"High\",\"y"]` exports the same text as one whose high bucket is `["x","y"]`; the task `say "hi"` gives a line that `ParseDocument`, a strict reader of fully quoted CSV with line-feed row breaks, rejects | double every quote inside a field (section 2, rule 7 of RFC 4180), so that the file reads back as the board | medium, not executed | `CsvQuoting.ExportAmbiguous` | `CsvQuoting.ExportEscapedRoundTrip` |
