# Mini-Daloopa prototype: a Dafny model of its core

The prototype (`streamlit_app.py`) takes an uploaded CIM PDF and extracts its text. It asks a language model for financial metrics as JSON, then writes those metrics into the named ranges of an Excel LBO template. This project models the three pieces of that script that have behaviour of their own:

- **Page-text accumulation** (`PdfText`): `extract_text_from_pdf` appends every page's text, in page order, with no separator. A document is modelled as the sequence of its pages' texts. `ExtractText` is the accumulator loop and `Concat` is its specification.
- **Prompt construction** (`Prompt`): `gpt_extract_financials` sends a fixed instruction around `raw_text[:4000]`. `BuildPrompt` is that template, and `Head` is Python's `s[:n]`. The text `  # Only send first 4000 tokens for demo` sits inside the f-string, so it is part of the prompt (`Trailer`). The limit counts characters, not tokens.
- **Named-range fill** (`Template`): `fill_excel_template` walks the extracted key/value pairs in insertion order. Each key is looked up among the workbook's defined names, and the key's value is written to every (sheet, coordinate) destination of that name. The whole lookup-and-write sits in one `try`, so any failure costs that key one warning, `Could not map: <key>`, and the loop goes on with the next key. Three things can fail: the key has no defined name, a destination names a missing sheet, or the library refuses the write. Destinations written before the failure stay written. The function raises before any write in two cases: there is no sheet titled `Model` (line 44), or the decoded reply is not a JSON object, so it has no `items()` (line 47).

A destination spells its coordinate as the defined name gives it, for example `$B$5`. A cell is keyed by the position that coordinate resolves to, so `$B$5`, `B5` and `b5` name one cell. What the spreadsheet library decides about a write is the `Library` parameter, because its rules are not visible here:
- `accepts` says whether a value is taken at a destination. The answer may depend on the sheet: a merged cell is read-only on its own sheet only.
- `canon` gives the position a coordinate resolves to.

Loaded cells are keyed by their resolved positions; `FillTemplate` requires this of the workbook it fills.

The fill is modelled twice:
- **Specification functions.** `WriteDests` is the inner loop, `MapKey` the try block and `FillKeys` the outer loop. They are proved equal to reference definitions that do not follow the loops:
  - `WritablePrefix`: how many destinations can be written before the first failure.
  - `Assign`: the cells with a list of cells overwritten.
  - `Written`: the cells a key really writes.
  - `LastWrite`: the last pair that writes a cell.
  - `FailingKeys`: the keys that earn a warning, in order.
- **`Workbook` class.** It keeps the cell values in a field `cells: map<Cell, Value>` that its methods update in place. The sheet titles and defined names are `const` fields, because the script never changes them. `FillTemplate` and `TryMapKey` keep the same nested loops as the script and are proved equal to the specification functions.

Values decoded from the model's reply are `Values.Value`, mirroring what Python's `json.loads` yields. An object's items are a `seq<(string, Value)>` in insertion order. A Python dict never repeats a key; `DistinctKeys` states that where a property needs it.

What the script does not do:
- It joins page texts with no separator.
- It has no OCR fallback.
- It does no markdown-fence stripping before decoding the reply.
- It has no reconciliation of alternative values for one metric.
- It has no advisory mapping mode.

## Model

| member | source | states |
|---|---|---|
| PdfText.ExtractText | streamlit_app.py:19-22 | the accumulated text is exactly the page texts concatenated in page order |
| PdfText.ConcatAppend | streamlit_app.py:19-22 | extracting a document split in two gives the first part's text followed by the second part's |
| PdfText.PageOffset | streamlit_app.py:20-21 | page i appears unchanged in the text, starting right after the text of the pages before it |
| Prompt.Head | streamlit_app.py:33 | `s[:n]` has length min(len(s), n) and is a prefix of s |
| Prompt.ExcerptRoundTrip | streamlit_app.py:25-34 | the prompt is the fixed preamble, the first 4000 characters of the text, then the fixed trailer, and the excerpt reads back out of it unchanged |
| Prompt.PromptIgnoresTail | streamlit_app.py:33 | characters after the 4000th never reach the prompt |
| Prompt.ShortTextsDistinguished | streamlit_app.py:33 | a text of at most 4000 characters is carried whole: two such texts with the same prompt are equal |
| Prompt.LaterPagesIgnored | streamlit_app.py:17-34 | joins `extract_text_from_pdf` to `gpt_extract_financials`: once a leading run of pages holds 4000 characters, the pages after it do not change the prompt |
| Template.WritablePrefix | streamlit_app.py:50-52 | the number of leading destinations that can be written: all before it are writable and the one at it is not |
| Template.WriteDestsWritesPrefix | streamlit_app.py:50-52 | a key's write loop leaves exactly the cells of its writable prefix holding the value, leaves every other cell as loaded, and completes exactly when every destination is writable |
| Template.MapKeyCompletes | streamlit_app.py:48-52 | a key's try block completes if and only if the key has a defined name and every destination of that name has an existing sheet and an accepted write |
| Template.FillWarnings | streamlit_app.py:47-54 | the warnings are `Could not map: <key>` for the failing keys, one each, in key order, never more than the number of keys |
| Template.FailingKeysFromData | streamlit_app.py:47-54 | every key warned about is the key of some extracted pair |
| Template.FailingKeysDistinct | streamlit_app.py:47-54 | when no key repeats, as in a dict, no failing key repeats |
| Template.WarningsDistinct | streamlit_app.py:47-54 | when no key repeats, as in a dict, no warning repeats: at most one warning per key |
| Template.FillCells | streamlit_app.py:47-52 | each cell ends with the value of the last pair that writes it; a cell that no pair writes keeps its loaded value and no other cell appears |
| Template.FillSplits | streamlit_app.py:47-54 | filling a + b is filling a, then b on the cells a left, with the warnings concatenated, so no key aborts the keys after it |
| Template.MissingNameWarnsOnce | streamlit_app.py:48-54 | a key without a defined name changes no cell, adds exactly one warning, and the keys after it proceed as if it were absent |
| Template.LastWriteAt | streamlit_app.py:47-52 | if pair i writes a cell and no later pair does, the cell ends with pair i's value, so of two keys sharing a cell the later one wins, however each spells the coordinate |
| Template.CompletedKeyWritesAll | streamlit_app.py:49-52 | a key whose destinations are all writable writes the cell of every one of them |
| Template.RefusalOnOneSheetKeepsEarlierWrite | streamlit_app.py:48-54 | when a write to `Inputs` succeeds and the next write, to a merged cell on `Model`, is refused, the `Inputs` cell keeps its new value and the key gets one warning |
| Template.AbsoluteReferenceHitsLoadedCell | streamlit_app.py:50-52 | a destination spelled `$B$5` overwrites the loaded cell B5, and no second cell appears |
| Template.Workbook.Load | streamlit_app.py:43 | a loaded workbook keeps the given cells, sheet titles and defined names, and every cell lies on one of its sheets |
| Template.Workbook.TryMapKey | streamlit_app.py:48-52 | the in-place try block leaves the cells and the completion flag that `MapKey` gives for the old cells |
| Template.Workbook.FillTemplate | streamlit_app.py:42-58 | for a workbook whose cells are keyed by resolved positions: without a "Model" sheet, or when the reply is not a JSON object, the fill raises with no output, no warning and no change; otherwise it leaves the cells and warnings that `FillKeys` gives for the loaded cells and the object's items; cells stay on existing sheets |

## Left out

- The Streamlit interface (lines 61-76) is not modelled: title, uploader, preview, buttons, JSON display, download button, error display. The warnings are returned as a sequence instead of being shown.
- The chat-completion call and the API key (lines 13, 35-39) are external network calls. The model's reply is not represented.
- `json.loads` (line 40) is a library parser. Its result is taken as given, as a `Value`; a `Dict`'s entries are its items in insertion order.
- A reply that does not decode makes `json.loads` raise before the fill; that path is not modelled. A reply that decodes to something other than an object is modelled: the fill raises at `items()`.
- Floating-point numbers in the reply are kept as their decimal text (`Value.Float`).
- PyMuPDF is a foreign library (lines 18, 20-21). Opening the document and reading one page's text are not modelled; a document is the sequence of its page texts.
- Loading and saving with openpyxl and `BytesIO` (lines 43, 56-58) are file I/O. `Workbook.Load` takes the loaded contents as given. The `Saved` status of `FillTemplate` only marks that an output is produced; the saved bytes are not modelled.
- openpyxl decides which values a destination accepts on which sheet, and those rules are not visible here. They are the `accepts` parameter of the fill.
- Coordinate parsing is left to `Library`. Whether a coordinate such as `A1:B2` is accepted is what `accepts` says. Which spellings name one cell is what `canon` says.
- Sheet-scoped defined names are not modelled; the defined names are one workbook-level map.
- Chartsheets are not modelled; a sheet title is a plain string.
- The `ws` variable at line 44 is never used. The model keeps its only effect: the raise when there is no `Model` sheet.
