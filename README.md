# IT help-desk assistant: ticket pipeline model

This Dafny project models the checkable core of the IT help-desk assistant. The assistant turns old support tickets into a searchable vector index, then turns search hits into ranked candidates with resolution badges. The four stages are modelled as one pipeline:

- **Ticket normalisation and document projection** (`src/data_processing.py`, modules `Tables`, `Documents`, `Tickets`).
  - `unify_tickets` reads every supported file of a directory, tags each table with its `source_file` and concatenates the tables.
  - It then normalises column names, back-fills the required columns, rewrites ticket IDs to `TCKT-<digits>`, rewrites dates through a date parser and builds `embedding_text`.
  - `create_documents` projects every row onto an `{id, text, metadata}` document and writes one JSON line per document. `load_documents` reads the lines back.
  - A pandas `DataFrame` that the code mutates in place is the class `Tables.Frame`. Its value is a `Tables.Table`: column names plus rows of string cells.
- **Embedding batching** (`src/embeddings.py`, module `Embeddings`).
  - `EmbeddingModel` loads its sentence encoder lazily, on first use.
  - `encode_texts` encodes `texts[i:i+batch_size]` slices in a loop and fails when nothing was encoded.
  - The encoder is an uninterpreted function from a text to a vector.
- **Index bookkeeping** (`src/faiss_index.py`, module `VectorIndex`).
  - `FAISSIndex` is a class whose `index`, `ids` and `metadata` fields are reassigned by `build` and `load`.
  - `save` and `load` go through a `Storage` object holding the three artefact files.
  - `search` post-processes the (score, position) pairs of an oracle that stands in for the FAISS library.
- **Candidate assembly** (`src/llm_client.py`, module `Assistant`).
  - `_parse_resolved` parses the `resolved` field into three states; `_parse_date` parses `%m/%d/%Y` dates; `_get_status_badge` maps a state to its badge.
  - `_prepare_candidates` projects hits into candidates and stable-sorts them by descending score.
  - `generate_recommendation` attaches a badge to every candidate. The language model's reply is an input.

The module `Pipeline` states how the stages fit together:
- every row of a unified table becomes a document that `_prepare_items` keeps, under the row's ticket ID;
- a date the normaliser writes (`%Y-%m-%d`) is never understood by the assistant's `%m/%d/%Y` parser, so `_parsed_date` is always `None` for normalised data. This mismatch is modelled as the code is written.

Supporting modules:
- `Wrappers`: `Option`, `Result`, `Outcome`.
- `Seqs`: map, flatten and index helpers.
- `Text`: ASCII `strip`, `lower`, `replace`, `\d` and `str(n)`.
- `Ranking`: the stable descending sort that `list.sort(key=..., reverse=True)` performs.
- `Calendar`: `strftime` and `strptime` for the two date formats.

Scores are integers. Table cells are strings. A missing value (pandas NaN) is read as the empty string, as the source's own `fillna("")` calls and back-fills write it. "## Findings" records the four metadata fields where the code turns it into `"nan"` instead.

## Model

| member | source | states |
|---|---|---|
| Text.StripTrimmed | src/data_processing.py:77 | the result of `strip()` has no whitespace at either end |
| Text.StripIdempotent | src/data_processing.py:77 | stripping twice gives the same result as stripping once |
| Text.StripEmptyIffBlank | src/faiss_index.py:162-166 | `strip()` yields `""` exactly when the input is all whitespace |
| Text.DecimalStringDigits | src/data_processing.py:94 | `str(n)` is a non-empty run of digits |
| Text.DecimalStringValue | src/data_processing.py:94 | `int(str(n)) == n` |
| Ranking.SortDescOrdered | src/faiss_index.py:137 | sorting by descending key keeps the length, is a permutation (same multiset), and the result is non-increasing by key |
| Ranking.InsertPermutes | src/llm_client.py:101 | inserting one element gives one element more and the same multiset plus that element |
| Ranking.InsertOrdered | src/llm_client.py:101 | inserting into a non-increasing sequence keeps it non-increasing by key |
| Ranking.WithKeyCons | src/llm_client.py:101 | the elements with a given key in `[h] + s` are `h`, when its key matches, followed by those of `s` |
| Ranking.SortDescStable | src/llm_client.py:101 | for every key value, the elements with that key keep their input order (the sort is stable) |
| Calendar.ParseUsDate | src/llm_client.py:128 | whatever `strptime(s, "%m/%d/%Y")` accepts is a valid calendar date in years 1..9999 |
| Calendar.MonthPad | src/llm_client.py:128 | the `%m` pattern reads back every month `strftime` prints |
| Calendar.DayPad | src/llm_client.py:128 | the `%d` pattern reads back every day `strftime` prints |
| Calendar.SplitThree | src/llm_client.py:128 | three fields without `/` joined by `/` split back into exactly those fields |
| Calendar.UsFormatRoundTrip | src/llm_client.py:128 | for every valid date, parsing the `%m/%d/%Y` rendering gives the date back |
| Calendar.IsoFormatNeverParsesAsUs | src/data_processing.py:108 | no `%Y-%m-%d` rendering is accepted by the `%m/%d/%Y` parser |
| Tables.Table.WithColumn | src/data_processing.py:83 | `df[name] = values` keeps the shape; an existing column keeps its place, a new one is appended |
| Tables.WithColumnCells | src/data_processing.py:83 | after `df[name] = values`, row `i` of `name` is `values[i]` and every other cell is unchanged |
| Tables.BackFill | src/data_processing.py:81-83 | back-filling columns keeps the table well formed and the row count unchanged |
| Tables.BackFillKeeps | src/data_processing.py:81-85 | back-filling keeps every old column and row as a prefix, adds exactly the missing listed names, and fills every added cell with `""` |
| Tables.BackFillCells | src/data_processing.py:140-142 | a column that already existed reads the same in every row after back-filling |
| Tables.BackFillAbsentCell | src/data_processing.py:140-142 | a listed column that was absent is present afterwards and reads `""` in every row |
| Tables.Frame.constructor | src/data_processing.py:49 | a new frame holds exactly the given table |
| Tables.Frame.Rename | src/data_processing.py:76-79 | `df.columns = names` replaces the names and keeps every row |
| Tables.Frame.SetColumn | src/data_processing.py:83 | in-place `df[name] = values` leaves the frame holding `WithColumn(name, values)` of its old value |
| Tables.Frame.BackFillColumns | src/data_processing.py:140-142 | in-place back-fill leaves the frame holding `BackFill` of its old value |
| Tables.AddNew | src/data_processing.py:49 | the union so far is kept as a prefix and followed by exactly the names of the next table it lacks, each once, in that table's order; nothing else is added, and a duplicate-free union stays duplicate-free |
| Tables.UnionColumns | src/data_processing.py:49 | a name is a column of the union iff it is a column of some input table; no name occurs twice; the union of the first tables is a prefix, extended by the next table's new columns in its order |
| Tables.Concat | src/data_processing.py:49 | `pd.concat(..., ignore_index=True, sort=False)` is well formed, has the total row count, and its columns are exactly the input columns, each once, in order of first appearance |
| Tables.ConcatCell | src/data_processing.py:49 | row `i` of table `k` becomes row `TotalRows(tables[..k]) + i`, with the same cell under each of its columns and a missing cell under each column it lacks |
| Tables.CellText | src/data_processing.py:98-116 | a present cell reads as `str()` renders it; a missing one reads as `""`, as the `fillna("")` calls write it |
| Documents.WriteLines | src/data_processing.py:165-168 | one JSON line is written per document |
| Documents.LoadDocuments | src/data_processing.py:178-185 | the line-by-line loop returns `ReadDocuments`: trimmed blank lines skipped, records in order, failure on any other line |
| Documents.WriteReadRoundTrip | src/data_processing.py:178-185 | reading back the written documents gives exactly those documents, in order |
| Documents.BlankLineSkipped | src/data_processing.py:182-183 | inserting a whitespace-only line anywhere does not change what is loaded |
| Documents.ReadStep | src/data_processing.py:180-185 | one more line appends its record, leaves a blank line out, and fails on anything else |
| Documents.FailureDecides | src/data_processing.py:184 | a failing prefix decides the result of the whole load |
| Documents.BlankLastLineSkipped | src/data_processing.py:182-183 | a whitespace-only last line does not change what is loaded |
| Documents.ReadCongruent | src/data_processing.py:180-185 | two files that load alike still load alike after the same line is appended to both |
| Documents.ReadDocumentsFailureSticks | src/data_processing.py:184 | once a line fails to decode, the whole load fails whatever follows |
| Tickets.LastIndex | src/data_processing.py:64 | finds the last occurrence of the character, or -1 when there is none |
| Tickets.FormatIgnoresCase | src/data_processing.py:64-67 | `t.CSV` is read as CSV: the extension comparison ignores case |
| Tickets.FormatUsesLastSuffix | src/data_processing.py:64-73 | `a.xls.txt` is unsupported: only the last suffix counts |
| Tickets.FormatNeedsStem | src/data_processing.py:64-73 | `.json` alone has no suffix, so no table is read |
| Tickets.LastIndexSkips | src/data_processing.py:64 | appending text without the character does not move its last occurrence |
| Tickets.FormatOfName | src/data_processing.py:64-73 | for every non-empty stem and every extension `.x` without a further dot, the suffix is the extension, and the file is read iff the lower-cased extension is `.csv`, `.xlsx`, `.xls` or `.json` (CSV for `.csv`, Excel for the two spreadsheet ones) |
| Tickets.FormatNeedsDotAfterStem | src/data_processing.py:64-73 | every name with no dot after its first character has no suffix and is never read |
| Tickets.UnsupportedGivesNoTable | src/data_processing.py:72-73 | an unsupported extension yields no table and no error, and the file is skipped |
| Tickets.Tag | src/data_processing.py:39 | tagging with `source_file` keeps the table well formed and the row count unchanged |
| Tickets.Usable | src/data_processing.py:33-40 | a table taken from a directory entry is well formed |
| Tickets.UsableTables | src/data_processing.py:31-44 | the tables collected from the directory are all well formed |
| Tickets.UsableNone | src/data_processing.py:33-40 | an entry gives no table iff it is not a file, has an unsupported extension or cannot be read |
| Tickets.UsableStep | src/data_processing.py:31-44 | one more directory entry appends its table when it gives one, and nothing otherwise |
| Tickets.NoUsableTables | src/data_processing.py:46-47 | no table is collected iff every entry is `Barren`: not a file, an unsupported extension, or unreadable |
| Tickets.CollectTables | src/data_processing.py:31-44 | the collecting loop returns exactly `UsableTables(entries)`, in directory order |
| Tickets.UnifyTickets | src/data_processing.py:28-61 | fails with `NoReadableFiles` iff no table was collected; otherwise returns a fresh frame holding the normalised concatenation |
| Tickets.LowerUnderscoreTrimmed | src/data_processing.py:77 | lower-casing and replacing spaces keep a trimmed name trimmed and are then no-ops |
| Tickets.NormalizeNameIdempotent | src/data_processing.py:76-79 | normalising a column name twice gives the same result as once |
| Tickets.NormalizeColumnsSpec | src/data_processing.py:75-85 | after `_normalize_columns` every required column is present and the row count is unchanged |
| Tickets.NormalizeColumns | src/data_processing.py:75-85 | the in-place method leaves the frame holding `NormalizeColumnsSpec` of its old value |
| Tickets.NormalizeColumnsKeepsData | src/data_processing.py:75-85 | renamed old columns and all rows survive as a prefix; only missing required columns are added, and they read `""` |
| Tickets.MissingRequiredColumnIsBlank | src/data_processing.py:81-83 | a required column absent from the renamed table reads `""` in every row |
| Tickets.FirstDigitIndex | src/data_processing.py:90 | the position of the first digit: no digit before it |
| Tickets.DigitRunLength | src/data_processing.py:90 | the length of the leading digit run: all digits, followed by a non-digit or the end |
| Tickets.FirstDigitRun | src/data_processing.py:90-92 | `re.search(r"(\d+)")` finds nothing iff there is no digit; otherwise it finds a non-empty run of digits |
| Tickets.FirstDigitRunIsLeftmostMaximal | src/data_processing.py:90-92 | in `p + run + q`, with no digit in `p` and `q` not starting with a digit, the match is exactly `run` |
| Tickets.NormalizeId | src/data_processing.py:88-94 | every normalised ID is `TCKT-` followed by at least one digit |
| Tickets.NormalizeIdCases | src/data_processing.py:88-94 | a trimmed value without digits gives `TCKT-` + `str(100000 + index)`; otherwise the ID is `TCKT-` + the leftmost maximal digit run |
| Tickets.NormalizeIdFixesTicketIds | src/data_processing.py:88-94 | an ID already of the form `TCKT-<digits>` is unchanged |
| Tickets.NormalizeIdIdempotent | src/data_processing.py:88-94 | `normalize_id(normalize_id(v, i), j) == normalize_id(v, i)` for all positions `i`, `j` |
| Tickets.NormalizeIdOfLayout | src/data_processing.py:88-94 | a trimmed `v == p + run + q`, with no digit in `p` and `q` not starting with a digit, normalises to `TCKT-` + `run` |
| Tickets.NormalizeIdEmbeddedNumber | src/data_processing.py:90-93 | `"#4412-b"` becomes `TCKT-4412` at any position |
| Tickets.NormalizeIdKeepsLeadingZeros | src/data_processing.py:90-93 | `"ID 0042"` becomes `TCKT-0042`: leading zeros are kept |
| Tickets.NormalizeIdFallback | src/data_processing.py:89-94 | `""` and `"N/A"` at row 7 both become `TCKT-100007` |
| Tickets.NormalizeIdsSpec | src/data_processing.py:96-99 | rewriting the IDs keeps the columns and the row count |
| Tickets.IdsStepCell | src/data_processing.py:96-99 | row `i`'s ID becomes `normalize_id(old, i)` and no other cell changes |
| Tickets.NormalizeTicketIds | src/data_processing.py:87-101 | the in-place method leaves the frame holding `NormalizeIdsSpec` of its old value |
| Tickets.NormalizeDatesSpec | src/data_processing.py:103-112 | after `_normalize_dates` a `date` column exists, no column is lost and the row count is unchanged |
| Tickets.NormalizeDates | src/data_processing.py:103-112 | the in-place method leaves the frame holding `NormalizeDatesSpec` of its old value |
| Tickets.NormalizeDatesKeeps | src/data_processing.py:103-112 | every cell outside `date` is unchanged; every date cell is `""` or a `%Y-%m-%d` rendering |
| Tickets.DatesStepCell | src/data_processing.py:106-110 | per row: non-date cells are unchanged and the date cell is `""` or a `%Y-%m-%d` rendering |
| Tickets.EmbeddingTextSpec | src/data_processing.py:114-120 | adding `embedding_text` keeps the table well formed and the row count unchanged |
| Tickets.CreateEmbeddingText | src/data_processing.py:114-120 | the in-place method leaves the frame holding `EmbeddingTextSpec` of its old value |
| Tickets.EmbeddingTextShape | src/data_processing.py:117-119 | the embedding text is `"Issue: "`, the issue, `" - Description: "`, the description, and has length 23 plus both parts |
| Tickets.EmbeddingStepCell | src/data_processing.py:117-119 | per row: `embedding_text` is built from that row's issue and description, and no other cell changes |
| Tickets.NormalizeSpec | src/data_processing.py:52-55 | the four normalisation steps keep the table well formed and the row count unchanged |
| Tickets.NormalizeSpecRow | src/data_processing.py:52-55 | every normalised row has a `TCKT-<digits>` ID, an empty or ISO date, and the embedding text of its own issue and description |
| Tickets.NormalizeSpecNormalized | src/data_processing.py:52-55 | every table the normaliser produces satisfies `Normalized` and has the input's row count |
| Tickets.Normalize | src/data_processing.py:52-55 | the four in-place steps leave the frame holding `NormalizeSpec` of its old value |
| Tickets.DocumentOfRow | src/data_processing.py:149-162 | every row's document has an id, a text and a metadata object |
| Tickets.DocumentsOf | src/data_processing.py:144-163 | exactly one document per row |
| Tickets.CreateDocuments | src/data_processing.py:122-175 | back-fills the metadata columns in place, returns the documents of the rows in order, and writes exactly those as lines |
| Tickets.DocumentOfRowFields | src/data_processing.py:146-161 | `id == metadata.ticket_id == strip(ticket_id)`, `text == metadata.problem == strip(embedding_text)`, and each metadata field is its stripped cell |
| Tickets.DocumentFields | src/data_processing.py:140-161 | after back-fill, the documents carry the original table's stripped cells, and a metadata column absent from it gives `""` |
| Tickets.FieldAfterBackFill | src/data_processing.py:140-159 | back-filling does not change any metadata field read from a row |
| Tickets.CreatedDocumentsReadBack | src/data_processing.py:165-168 | `load_documents` on the written file returns exactly the created documents |
| Embeddings.SentenceEncoder.constructor | src/embeddings.py:24 | a loaded encoder carries the model name and its encoding function |
| Embeddings.BatchesFlatten | src/embeddings.py:34-39 | concatenating the batches gives back `texts`, in order, with no overlap |
| Embeddings.BatchesSizes | src/embeddings.py:34-39 | every batch has between 1 and `batch_size` texts |
| Embeddings.BatchesCount | src/embeddings.py:34 | no batches iff `texts` is empty; otherwise the count `b` satisfies `(b - 1) * size < n <= b * size`, i.e. `b == ceil(n / size)` |
| Embeddings.BatchesStep | src/embeddings.py:38-39 | the batches from position `i` are `texts[i:i+size]` followed by the batches after it |
| Embeddings.BatchesSlices | src/embeddings.py:34-39 | batch `j` is `texts[j*size : (j+1)*size]` |
| Embeddings.EncodeStep | src/embeddings.py:38-46 | encoding the slice at `i` extends the concatenated vectors to cover `texts[:i+size]`, and the batch account by that slice |
| Embeddings.EmbeddingModel.constructor | src/embeddings.py:11-18 | a new model has no encoder loaded |
| Embeddings.EmbeddingModel.Model | src/embeddings.py:20-25 | the first access loads a fresh encoder for the model name; later accesses return the same object |
| Embeddings.EmbeddingModel.EncodeTexts | src/embeddings.py:27-54 | a zero batch size fails (`range` raises); a negative batch size or empty input fails with "No embeddings generated" and loads nothing; otherwise one vector per text, in order |
| Embeddings.EmbeddingModel.EncodeQuery | src/embeddings.py:56-67 | the query vector is the loaded encoder applied to the query |
| VectorIndex.Kept | src/faiss_index.py:161-171 | the kept documents are indexable documents of the input, never more than the input |
| Seqs.FilterAppend | src/faiss_index.py:161-171 | filtering distributes over concatenation, so input order is kept |
| Seqs.FilterMapStep | src/faiss_index.py:161-171 | one more input element adds its image to the mapped kept list exactly when it is kept |
| VectorIndex.KeptSingle | src/faiss_index.py:166-167 | one document is kept iff its trimmed id and trimmed text are both non-empty |
| Seqs.FilterAll | src/faiss_index.py:166-171 | when every element passes the test, all are kept |
| VectorIndex.PrepareItems | src/faiss_index.py:155-173 | the loop returns the ids, texts and metadata of the kept documents, in order; a missing metadata becomes `{}` |
| VectorIndex.PreparedAligned | src/faiss_index.py:159-173 | the three lists are aligned: position `k` of each comes from the same kept input document, with a non-empty id and text |
| VectorIndex.Storage.constructor | src/faiss_index.py:26-28 | the storage holds the given index, ids and metadata files |
| VectorIndex.Decoded | src/faiss_index.py:103-106 | `load` decodes no more metadata objects than there are lines |
| VectorIndex.DecodedAppendRecord | src/faiss_index.py:105-106 | a decodable line appends its object |
| VectorIndex.DecodedStopsAtOther | src/faiss_index.py:105-106 | decoding stops at the first line that is not a record, whatever follows |
| VectorIndex.MetadataRoundTrip | src/faiss_index.py:82-106 | reading back the metadata lines `save` writes gives the same objects, in order |
| VectorIndex.SaveThenLoad | src/faiss_index.py:69-108 | `save` of an index, then `load` into a fresh object over the same files, both succeed and restore the index, the ids and every metadata object |
| VectorIndex.InRange | src/faiss_index.py:127-129 | the kept pairs are pairs of the oracle whose position lies in `0 <= idx < len(ids)` |
| VectorIndex.CollectInRange | src/faiss_index.py:127-135 | with metadata at least as long as ids, the results are exactly `{ids[idx], score, metadata[idx]}` for the kept pairs, in oracle order |
| VectorIndex.CollectFails | src/faiss_index.py:128-134 | the lookup fails iff some pair's position is inside `ids` but past the end of `metadata` |
| VectorIndex.CollectFailureSticks | src/faiss_index.py:127-135 | once a lookup fails, later pairs do not change the outcome |
| VectorIndex.SearchResults | src/faiss_index.py:126-138 | the results number the in-range pairs (at most the oracle's pairs), are non-increasing by score, are a permutation of the collected hits, and keep tied hits in oracle order |
| VectorIndex.FaissIndex.constructor | src/faiss_index.py:20-32 | a new index object has no index, no ids and no metadata |
| VectorIndex.FaissIndex.Build | src/faiss_index.py:34-67 | a load failure or an empty document list fails before encoding and changes nothing; an encoder failure changes no field; on success ids and metadata are the `_prepare_items` lists and the index holds one vector per id |
| VectorIndex.FaissIndex.Save | src/faiss_index.py:69-87 | with no index it fails and writes nothing; otherwise it writes the index, the ids and one metadata line per object, in order |
| VectorIndex.FaissIndex.Load | src/faiss_index.py:89-108 | a missing index file fails and changes nothing; otherwise the index, then ids, then metadata are set in order; a missing ids file leaves ids and metadata as they were; a missing metadata file leaves metadata empty; a malformed metadata line fails, keeping the objects before it |
| VectorIndex.FaissIndex.Search | src/faiss_index.py:110-138 | with no index it fails; otherwise it returns the in-range hits sorted by descending score, or fails when metadata is shorter than ids; the object is not modified |
| VectorIndex.FaissIndex.Query | src/faiss_index.py:140-153 | `query` searches with the encoder's vector for the text and the same `top_k` |
| Assistant.ParseResolvedNormalizes | src/llm_client.py:106-110 | a non-empty value reads the same as its stripped, lower-cased form |
| Assistant.ParseResolvedBoolStrings | src/llm_client.py:110-115 | `"True"` reads as true and `"False"` as false |
| Assistant.ParseResolvedExamples | src/llm_client.py:106-120 | `"TRUE"` reads as true and `"0"` as false |
| Assistant.ParseResolvedUnknown | src/llm_client.py:106-120 | `""` and `"maybe"` read as unknown |
| Assistant.ParseResolvedInteger | src/llm_client.py:117-118 | `str(n)` reads as `n != 0` for every natural `n` |
| Assistant.ParseResolvedNonFinite | src/llm_client.py:117-118 | `nan`, `inf` and `infinity`, signed or not, read as true, since `bool` of NaN and of the infinities is true |
| Assistant.DigitsRead | src/llm_client.py:117-118 | a non-empty digit string reads as true iff it has a nonzero digit |
| Assistant.NonzeroDigitIffValue | src/llm_client.py:118 | a digit string has a nonzero digit iff its value is nonzero, so `bool(float(s))` is decided by the digits |
| Assistant.ParseDateRejectsIso | src/llm_client.py:123-130 | `_parse_date` returns `None` for every `%Y-%m-%d` date |
| Assistant.ParseDateRoundTrip | src/llm_client.py:127-128 | `_parse_date` reads back every valid date written as `%m/%d/%Y` |
| Assistant.StatusBadgeInjective | src/llm_client.py:133-139 | the badge tells the three states apart, and only a confirmed resolution has no badge |
| Assistant.CandidateOfDefaults | src/llm_client.py:80-97 | `ticket_id` comes from the metadata and falls back to the hit's id only when the key is absent; the score defaults to 0; a missing `resolved` is unknown; a missing date is `""` with no parsed date |
| Assistant.CandidateResolved | src/llm_client.py:80-91 | a present `resolved` value is read by `_parse_resolved`, whatever else the metadata holds |
| Assistant.PrepareCandidates | src/llm_client.py:73-103 | the loop and sort return one candidate per hit, stably sorted by descending score |
| Assistant.PreparedCandidatesOrdered | src/llm_client.py:101 | the candidates are as many as the hits, a permutation of them, non-increasing by score, with ties in hit order |
| Assistant.NewGeminiClient | src/llm_client.py:11-25 | the client is created iff the argument key or the environment key is non-empty; the argument key takes precedence |
| Assistant.GenerateRecommendation | src/llm_client.py:49-71 | returns the model's reply, backend `gemini:<model name>`, and the prepared candidates each with its badge set |
| Assistant.BadgesMatchStatus | src/llm_client.py:62-65 | each candidate's badge is `_get_status_badge(resolved)` and nothing else about it changes |
| Pipeline.TicketIdTrimmed | src/data_processing.py:146 | a `TCKT-<digits>` ID is non-empty and unchanged by `strip()` |
| Pipeline.EmbeddingTextNotBlank | src/data_processing.py:117-119 | the embedding text never strips to `""` |
| Pipeline.DocumentIndexable | src/faiss_index.py:162-167 | a document whose id strips from a `TCKT-<digits>` ID and whose text is non-blank is kept under that ID |
| Pipeline.RowIndexable | src/faiss_index.py:162-167 | a row with a canonical ID and non-blank embedding text yields a document `_prepare_items` keeps, under that ID |
| Pipeline.NormalizedRowIndexable | src/faiss_index.py:162-167 | the document of every normalised row is kept under the row's ticket ID |
| Pipeline.AllIndexableKept | src/faiss_index.py:161-171 | when every document is indexable, `_prepare_items` keeps all of them and the ids follow the documents |
| Pipeline.NormalizedDocumentsIndexable | src/data_processing.py:144-163 | every document created from a normalised table is indexable under its row's ID |
| Pipeline.NormalizedTableFullyIndexed | src/faiss_index.py:155-173 | documents of a normalised table read back intact, all survive `_prepare_items`, and the ids are the rows' ticket IDs in row order |
| Pipeline.UnifiedTicketsFullyIndexed | src/data_processing.py:52-55 | whatever the input, every row of the unified table yields one kept document |
| Pipeline.IsoFormatTrimmed | src/data_processing.py:156 | a `%Y-%m-%d` date is unchanged by `strip()` |
| Pipeline.DateCellNeverParses | src/llm_client.py:123-130 | `_parse_date` of a stripped date cell the normaliser writes (`""` or `%Y-%m-%d`) is `None` |
| Pipeline.NormalizedDatesNeverParse | src/llm_client.py:95-97 | the stripped date of every normalised row gives `_parsed_date == None` |
| Pipeline.MissingResolvedReadAsConfirmed | src/data_processing.py:155 | as written, a missing `resolved` cell is stored as `"nan"`, which `_parse_resolved` reads as true, so the ticket shows as a confirmed resolution with no badge |
| Pipeline.MissingResolvedReadAsUnknown | src/llm_client.py:106-139 | read as `""`, a missing `resolved` cell gives an unknown resolution and the "Unknown resolution status." badge |

## Findings

| source | as written | input that shows it | evidently intended | confidence | as-written member | corrected member |
|---|---|---|---|---|---|---|
| src/data_processing.py:155 | `"resolved": str(row["resolved"]).strip()` turns a missing cell into `"nan"`; `_parse_resolved("nan")` is `bool(float("nan"))`, true, so the ticket is shown as a confirmed resolution with no badge | two source tables, one with a `resolved` column and one without: every row of the second gets NaN under `resolved` after `pd.concat` | a missing value reads as `""`, as the `fillna("")` calls at lines 98, 108, 115 and 116 and the back-fill at line 142 write it, so the status is unknown and the "Unknown resolution status." badge is shown | medium; not executed | Pipeline.MissingResolvedReadAsConfirmed | Pipeline.MissingResolvedReadAsUnknown |

## Left out

- Reading and writing files: `pd.read_csv`, `read_excel`, `read_json`, `to_csv`, `np.save`, `np.load`, `faiss.write_index` and `read_index`, and JSON encoding. Inputs replace them:
  - a directory is a list of entries, each with a name, a file flag and the table its reader returns (or a read failure);
  - a document file is a list of lines, each a decoded record or an undecodable string;
  - `Storage` holds the three artefact files.
- The unified CSV snapshot written by `unify_tickets`, and the `df is None` branch of `create_documents` that reads it back: both are file I/O.
- `pd.to_datetime(errors="coerce")` is a parameter `parse`, a partial function from a cell to a date; a failed parse gives `""`.
- Missing cells are `""` everywhere in the tables. In the source a cell is NaN in memory whenever its source cell was empty, or its table lacked a column that another table has (`pd.concat`, src/data_processing.py:49). `create_documents` then stores `str(NaN).strip()`, the text `"nan"`, for `category`, `resolved`, `agent_name` and `resolution`. So Tickets.CreateDocuments and Assistant.CandidateOf give `""` where the code gives `"nan"`. For `resolved`, the code then shows a confirmed resolution with no badge, where the model shows "Unknown resolution status."; see "## Findings".
- Columns are looked up by their first occurrence. Duplicate column names after normalisation are not modelled.
- Strings are ASCII: `\d`, `str.lower` and `str.strip` follow their ASCII behaviour, not Python's Unicode tables.
- Assistant.ReadFlag: the numeric branch of `_parse_resolved` accepts decimal literals (optional sign, digits, at most one point) and the signed or unsigned spellings `nan`, `inf` and `infinity`. `float()` also accepts exponents and underscores, so those inputs read as unknown here instead of true or false. A decimal literal is read as true when it has a nonzero digit. `float()` rounds a literal below about `2.5e-324`, such as `0.` followed by 400 zeros and a `1`, to `0.0`, so the code reads it as false where the model reads true.
- Metadata values are strings. `_parse_resolved` of a non-string JSON value is not modelled.
- A JSON `null` or numeric `id` in a document makes `doc.get("id", "").strip()` (src/faiss_index.py:162) raise `AttributeError`. Ids here are strings or absent, so that error is not modelled.
- A search hit with `"metadata": null` makes `meta.get` (src/llm_client.py:80-81) raise. Here a hit's metadata is an object or absent, so that error is not modelled.
- Scores are integers, not float32. The score default `0.0` is `0`.
- FAISS internals (`IndexFlatIP`, `add`, `index.search`) are an oracle from the stored vectors, a query vector and `k` to (score, position) pairs.
- VectorIndex.SearchResults: bounds the result count by the number of pairs the oracle returns, not by `top_k` itself. The oracle is not required to return exactly `top_k` pairs.
- The `1 <= top_k <= 20` bound of the HTTP server is not part of this model, and neither is `search_tickets`.
- SentenceTransformer inference and unit-length normalisation: the encoder is an uninterpreted function from a text to a vector.
- A default-constructed `EmbeddingModel()` inside `build` and `query`: the model object is always passed in.
- Gemini: `genai.configure`, `create_chat` and `send_message` are network calls; the reply is an input string. `_build_system_prompt` (a constant) and `_build_user_prompt` (float and `str()` formatting) are not modelled.
- Logging (`print`, `tqdm`) and directory creation (`mkdir`) have no effect on the model.
- `server.py`, `prepare_data.py` and `build_index.py` only sequence these calls and are not part of this model.
