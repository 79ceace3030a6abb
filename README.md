# bank2tax extraction core, modelled in Dafny

bank2tax reads bank-statement PDFs and asks a local language model for the
accounts they mention (account number, ending balance, currency, institution).
What the repository itself owns is the sequencing around three outside calls
(PDF-to-markdown conversion, one chat request to the inference server, and
validation of the answer against the document schema). This project models that
sequencing and proves what it guarantees:

- `Pipeline.RunPipeline` is `run_pipeline`: a loop over the PDF paths, in order,
  that converts each one, optionally records `<stem>.md` in the output
  directory, sends the markdown with the file's base name to the extractor, and
  validates the answer into a document. It is proved against two functions:
  `Pipeline.RunResult` gives the result and `Pipeline.RunWrites` the markdown
  writes. Both functions, and the lemmas about them, are stated for any
  extraction function; `RunPipeline` instantiates them with the agent's
  `ExtractorAgent.Extract`. The lemmas state the pipeline's promises: one document
  per path in input order, the flat account list, the markdown records, and
  all-or-nothing failure with the first exception. `save_md` is not an
  argument of `RunResult`: it changes what is written, never the result.
- `Pipeline.PipelineResult.ToTableRows` is `to_table_rows`: nested loops that
  number one row per account, document by document. It is proved against the
  function `Pipeline.TableRows`.
- `Extractor` builds the system message and the user message and hands them,
  with the document schema, to the inference client.
- `Schema` holds the two record shapes and their JSON reading and writing,
  and the JSON Schema sent to the server.
- `Paths` gives the `name` and `stem` of a path.

The three outside calls are function-valued parameters that either return a
value or raise: `Externals.pdfToMarkdown`, `OllamaClient.invoke` and
`Externals.modelValidateJson`. An exception is `Exception(kind, message)` and
always propagates unchanged. The output directory is a class whose `written`
field logs every `write_text` call in order. `DirectoryFiles` turns that log
into the files it leaves behind, so a later write to the same name replaces an
earlier one.

## Model

| member | source | states |
|---|---|---|
| `Schema.AccountFieldsDefaultToNull` | bank2tax/core/schema.py:9-24 | an object naming none of the four account fields reads as the account whose four fields are all null |
| `Schema.AccountFieldTypes` | bank2tax/core/schema.py:9-24 | an object is an account exactly when `account_number`, `currency`, `institution` are each absent, null or a string and `ending_balance` is absent, null or a number; each present value is carried into its field, and each absent or null field reads as None |
| `Schema.AccountsFromJson` | bank2tax/core/schema.py:31 | a list of accounts is read exactly when every item is an account; the result has one account per item, in the same order |
| `Schema.DocumentFieldsRequired` | bank2tax/core/schema.py:30-31 | an object missing `source_file` or `accounts` is refused: neither has a default |
| `Schema.EmptyAccountsAccepted` | bank2tax/core/schema.py:31 | a document with an empty `accounts` list is valid and has no accounts |
| `Schema.DocumentFromJsonIff` | bank2tax/core/schema.py:27-31 | a document is read exactly when `source_file` is a string, `accounts` is a list and every item is an account; the accounts keep their order and count |
| `Schema.AccountRoundTrip` | bank2tax/core/schema.py:6-24 | writing an account whose balance is finite or null as JSON and reading it back gives the same account |
| `Schema.NonFiniteBalanceReadsAsNull` | bank2tax/core/schema.py:13-16 | an infinite or NaN balance is written as null, so reading the account back gives it a null balance and keeps the other three fields |
| `Schema.DocumentRoundTrip` | bank2tax/core/schema.py:27-31 | writing a document whose balances are all finite or null as JSON and reading it back gives the same document |
| `Paths.RFindIsLast` | bank2tax/core/pipeline.py:60-63 | the index found holds the character, and no later position does; -1 means the character does not occur |
| `Paths.NameIsSuffix` | bank2tax/core/pipeline.py:63 | the base name is a suffix of the path |
| `Paths.NameHasNoSeparator` | bank2tax/core/pipeline.py:63 | the base name holds no '/' |
| `Paths.NameAfterSeparator` | bank2tax/core/pipeline.py:63 | the base name is preceded by a '/' unless it is the whole path |
| `Paths.StemSplitsName` | bank2tax/core/pipeline.py:60 | the stem is a prefix of the base name; either it is the whole name, or it is non-empty and followed by a '.' that starts a non-empty suffix with no further '.'; it is the whole name exactly when no '.' follows the name's first character or the name ends in '.' |
| `Paths.StemOfPdf` | bank2tax/core/pipeline.py:60 | the stem of a file named `<s>.pdf` is `s`, so its markdown is recorded as `<s>.md` |
| `Extractor.UserPrompt` | bank2tax/core/extractor.py:22-32 | the user message starts with the fixed header; `source_file: <source_file>` follows as a line of its own; the message ends with the heading `Document (markdown):` and then the markdown verbatim |
| `Extractor.ChatMessages` | bank2tax/core/extractor.py:34-37 | exactly two messages: role `system` with the constant system text first, role `user` with the user message second |
| `Extractor.ExtractorAgent.Extract` | bank2tax/core/extractor.py:9-39 | one call to the client with those two messages and the document schema, whose answer or exception is returned unchanged |
| `Extractor.SystemMessageIsConstant` | bank2tax/core/extractor.py:12-20 | the system message does not depend on the markdown or the source file |
| `Extractor.UserPromptDeterminesInputs` | bank2tax/core/extractor.py:22-32 | when the source file name holds no line break, equal user messages have equal source file names and equal markdown |
| `Extractor.UserPromptAmbiguous` | bank2tax/core/extractor.py:29-31 | without that condition two different (markdown, source file) pairs give the same user message |
| `Pipeline.Flatten` | bank2tax/core/pipeline.py:66-67 | the flat account list has as many entries as there are accounts over all documents |
| `Pipeline.FlattenAppend` | bank2tax/core/pipeline.py:66-67 | flattening a concatenation of document lists is the concatenation of the flattenings |
| `Pipeline.FlattenAt` | bank2tax/core/pipeline.py:66-67 | account `j` of document `i` sits in the flat list right after the accounts of the documents before `i` |
| `Pipeline.EmptyDocumentContributesNothing` | bank2tax/core/pipeline.py:21-22 | a document with no accounts adds nothing to the flat list, and so no rows |
| `Pipeline.TableRows` | bank2tax/core/pipeline.py:17-35 | the table has one row per account over all documents |
| `Pipeline.TableRowsShowFlatten` | bank2tax/core/pipeline.py:20-31 | row `k` has id `k + 1` and shows the institution, currency, ending balance and account number of flat account `k` |
| `Pipeline.TableRowsOfDocument` | bank2tax/core/pipeline.py:21-27 | account `j` of document `i` is shown by the row right after the rows of the earlier documents, with id one more than its position and that document's `source_file` |
| `Pipeline.PipelineResult.ToTableRows` | bank2tax/core/pipeline.py:17-35 | the nested loops build exactly `TableRows` of the documents |
| `Pipeline.LastWriteWins` | bank2tax/core/pipeline.py:60-61 | a file holds the content of the last write made to its name |
| `Pipeline.OutputDir.WriteText` | bank2tax/core/pipeline.py:60-61 | a write is appended to the log, and the file of that name now holds the content while the other files are unchanged |
| `Pipeline.ProcessPath` | bank2tax/core/pipeline.py:56-64 | one turn of the loop: the document or exception of `PathResult`, with the writes of `PathWrites` appended to the directory's log |
| `Pipeline.RunPipeline` | bank2tax/core/pipeline.py:38-69 | with the agent's `Extract`, the run returns exactly `RunResult` and appends exactly `RunWrites` to what the directory had recorded |
| `Pipeline.RunLoop` | bank2tax/core/pipeline.py:52-69 | the loop, for any extraction function, returns exactly `RunResult` and appends exactly `RunWrites` to what the directory had recorded |
| `Pipeline.RunShape` | bank2tax/core/pipeline.py:52-69 | nothing is recorded unless `save_md == 1`; a successful run has one document per path and its accounts are the flattening of its documents |
| `Pipeline.RunExtend` | bank2tax/core/pipeline.py:55-67 | after a prefix that went through, the next path either ends the run with its exception or appends its document and extends the accounts with that document's accounts; its writes are appended either way |
| `Pipeline.RunFailureSticks` | bank2tax/core/pipeline.py:55-69 | once a prefix has failed, later paths change neither the result nor the writes: no skip, no retry |
| `Pipeline.RunFailsAt` | bank2tax/core/pipeline.py:55-64 | a path that fails after a prefix that went through ends the whole run with its exception, keeping the writes made so far and its own |
| `Pipeline.EmptyRun` | bank2tax/core/pipeline.py:52-69 | an empty path list gives empty documents and accounts and writes nothing |
| `Pipeline.RunSucceedsIff` | bank2tax/core/pipeline.py:55-69 | a run succeeds exactly when every path goes through on its own, and then it has one document per path and document `k` is the one obtained from path `k` |
| `Pipeline.RunFailsAtFirstFailure` | bank2tax/core/pipeline.py:55-64 | the run fails with the exception of the first failing path, after the writes of the paths before it and of that path itself |
| `Pipeline.PathRecordsMarkdown` | bank2tax/core/pipeline.py:57-64 | with `save_md == 1` a path that goes through writes one `<stem>.md` holding its markdown, the same text the extractor was given with the path's base name |
| `Pipeline.RunRecordsMarkdown` | bank2tax/core/pipeline.py:55-67 | with `save_md == 1` a successful run writes one `<stem>.md` per path, in order, each holding the markdown of the path whose document sits at the same position |
| `Pipeline.RecordedFilesHoldMarkdown` | bank2tax/core/pipeline.py:59-61 | when the stems are distinct, each `<stem>.md` left in the directory after a successful run holds its PDF's markdown |
| `Pipeline.SourceFileNotChecked` | bank2tax/core/pipeline.py:63-66 | a run over one path keeps the validated document whatever its `source_file`, which nothing compares with the PDF's name |
| `Pipeline.TransportErrorAborts` | bank2tax/core/extractor.py:39 | when every request to the inference server fails, a run whose first PDF converts ends with that exception and no result |

## Left out

- PDF conversion (bank2tax/core/docling_io.py) is a call into Docling. It is the function-valued parameter `Externals.pdfToMarkdown`, which may raise.
- The inference client (bank2tax/core/ollama_client.py) makes an HTTP POST. The URL, request body, temperature, timeout, status check and response decoding are not modelled. `OllamaClient.invoke` is a function from (messages, schema) to text or an exception.
- `model_validate_json` is the parameter `Externals.modelValidateJson`, because the pipeline relies only on it returning a document or raising. The JSON text parser is not modelled.
- Schema.AccountFieldTypes: it states the type rules of pydantic's strict mode, which is what `Schema.AccountFromJson` and `Schema.DocumentFromJson` implement on already-parsed JSON. The program validates in pydantic's default lax mode, which also accepts a boolean or a numeric string as `ending_balance` and converts it to a float. That is not modelled, because it parses floating point. The wording of validation messages is not pydantic's.
- `Schema.DocumentSchema` writes out the JSON Schema that pydantic generates for the two declarations. It is handed to the client unchanged, and nothing is proved about how the server uses it.
- Balances are Python floats. They are kept as 64-bit patterns, since no arithmetic is done on them; only the exponent bits are read, to tell an infinity or a NaN, which pydantic's default JSON output writes as null.
- `Paths.Name` and `Paths.Stem` take a path already in normal form. `Path`'s collapsing of repeated or trailing separators and `.` components is not modelled.
- `write_text` is assumed to succeed, and its UTF-8 encoding is not modelled. A file is identified by its name inside the output directory.
- `pdf_paths` may be any iterable in the source. The model takes a finite sequence.
- The settings loaders read environment variables and `.env` files. The CLI and web front ends cover PDF discovery by sorted glob, the "No PDF found" error, timing, uploads and NiceGUI widgets. None of these is part of this model. `_build_rows` in bank2tax/app/main.py repeats `to_table_rows` line for line.
