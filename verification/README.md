# PDF question answering over a vector store — a Dafny model

This project models the three scripts of a small retrieval-augmented question
answering tool: it ingests a PDF into a PGVector collection, then answers
questions in Portuguese from the retrieved chunks only.

- **Ingestion** (`src/ingest.py`) has four steps:
  - it refuses to run without its four settings;
  - it splits the PDF and refuses an empty split;
  - it drops `""` and `None` metadata values;
  - it stores the chunks under the ids `doc-0 … doc-(n-1)`.
- **Search** (`src/search.py`) has four parts:
  - `_load_clients` checks three required settings and reads the optional ones with their defaults;
  - `_format_context` turns the ranked `(chunk, score)` pairs into the CONTEXTO block, one part per chunk. Each part carries a header `[Trecho i | score=… | page=… | src=…]`;
  - `chain(q, k)` runs the similarity search, short-circuits to the fixed refusal when the block is blank, fills and strips the prompt template, calls the model, and falls back to the refusal on an empty reply;
  - `search_prompt` either returns `chain` or runs it once with `k` from `TOPK`.
- **Chat** (`src/chat.py`): `main` builds the chain once, then reads lines until an exit command, end of input or an interrupt:
  - blank lines are skipped;
  - exit commands are matched case-insensitively;
  - every other line is answered by the chain;
  - an error from the chain is reported and the loop goes on.

External services are parameters of the model, and each is a function that
returns a value or the error it raised (`Result`):
- the vector store's similarity search;
- the chat model;
- the PDF loader and splitter;
- `int()` on `TOPK`.

The process environment is a `map<string, string>`. Console input is a
sequence of lines and interrupts, and console output is a sequence of events.

Modules:
- `Wrappers` (`Option`, `Result`)
- `Text` (Python's `str.strip()` with its exact whitespace set, `str(n)`, `f"{x:.4f}"`)
- `Errors`
- `Config` (environment, the fail-fast check)
- `Metadata` (scalar values, truthiness, `str()`)
- `Context` (`_format_context`)
- `Prompt` (the template)
- `Search`
- `Ingest`
- `Chat`

Details of the code the model follows:
- `os.getenv(name, default)` yields `""` for a setting that is present but
  empty; the default applies only when the name is absent.
- The ingestion script reads its embedding model from `OPENAI_MODEL`. The
  search script reads it from `OPENAI_EMBEDDING_MODEL`.
- The `src=` segment takes `source`, then `file_path`, by Python truthiness
  (`a or b`). This is "first non-empty" for strings, but it also skips
  values such as `0` or `False`. The `page=` segment is shown whenever the
  page is not `None`, including page 0.

## Model

| member | source | states |
|---|---|---|
| Text.Strip | src/search.py:164 | `strip()` leaves no whitespace at either end and never lengthens the text |
| Text.StripSurrounded | src/search.py:160 | `strip()` removes exactly the surrounding whitespace: any whitespace around a trimmed text is removed and nothing else is |
| Text.BlankIffAllSpace | src/search.py:156 | `not s.strip()` holds exactly when every character is whitespace in Python's sense (`Text.IsSpace`: the ASCII controls `\t`–`\r` and `\x1c`–`\x1f`, space, and the Unicode spaces and line separators) |
| Text.StripIdempotent | src/chat.py:33 | stripping an already stripped line changes nothing |
| Text.NatToString | src/search.py:65 | `str(i)` for a position is all digits, never empty, and has no leading zero unless it is `0` |
| Text.NatToStringRoundTrip | src/search.py:65 | the numeral printed for a position reads back as that position |
| Text.NatToStringInjective | src/ingest.py:31 | different numbers print as different numerals |
| Text.IntToString | src/search.py:67 | `str(page)` starts with a minus sign exactly when the page is negative |
| Text.PadDigitsValue | src/search.py:65 | the zero-padded fractional digits of a score read back as the fraction |
| Text.Fixed4 | src/search.py:65 | `{score:.4f}` is a leading minus exactly for negative scores, then a non-empty integer part in digits without a leading zero unless it is `0`, a point and exactly four fractional digits |
| Text.Fixed4RoundTrip | src/search.py:65 | reading the printed score back gives the score it was printed from |
| Errors.MessageNamesSetting | src/search.py:92 | the `Environment variable … is not set` message carries the setting's name right after its fixed 21-character lead, so different settings give different messages |
| Config.FirstUnsetIndex | src/search.py:90-91 | every name before the reported position is set and the name at it is unset or empty |
| Config.CheckRequired | src/search.py:90-92 | the check passes exactly when every required name is present and non-empty |
| Config.CheckRequiredNamesFirstUnset | src/search.py:90-92 | the raised error names exactly the first unset setting, in checking order |
| Config.CheckRequiredPrefix | src/ingest.py:10-12 | checking a longer list never changes which earlier missing setting is reported |
| Metadata.OrFirstTruthy | src/search.py:64 | `a or b or c` is the first truthy operand by Python's truthiness (`Metadata.Truthy`), or the last one when none is, whichever way it is grouped |
| Metadata.RenderInt | src/search.py:66-67 | `str()` of an integer page (`Metadata.Render`) is its decimal numeral, with a minus sign exactly when the page is negative, and reads back as the page |
| Context.JoinAt | src/search.py:72 | `"\n".join(parts)` (`Context.Join`): every part appears unchanged at its offset in the joined text, followed by the `\n` separator unless it is the last |
| Context.JoinLength | src/search.py:72 | the joined text holds exactly the parts plus one separator between each pair of consecutive parts |
| Context.PartStart | src/search.py:65-71 | a part (`Context.Part`) begins with its header, and the header (`Context.Header`) with `[Trecho i \| score=` and the printed score |
| Context.FormatContextFirstPart | src/search.py:58-72 | a non-empty block begins with the first chunk's part |
| Context.FormatContextStart | src/search.py:58-72 | the block is empty exactly when there are no results; otherwise it begins with `[Trecho 1 \| score=` and the first score |
| Context.BlankIffNoResults | src/search.py:58-72 | the block is blank after stripping exactly when the search returned nothing |
| Context.JoinEntry | src/search.py:71-72 | a part of the form header, newline, body, newline is found at its offset in the joined text, followed by a separator unless it is last |
| Context.FormatContextEntry | src/search.py:61-72 | `_format_context` (`Context.FormatContext`): each result `j`, in input order, appears at its offset as header number `j + 1`, a newline, its stripped content and a newline, with a blank line before the next part |
| Context.FormatContextLength | src/search.py:72 | the block's length is the sum of the part lengths plus the separators |
| Context.PageSegmentShown | src/search.py:63-67 | the `page=` segment appears exactly when `meta.get("page") is not None`, i.e. the page is present and not `None` (so page 0 is shown), and then prints the page |
| Context.SrcSegmentChoice | src/search.py:64-69 | `src=` names a truthy `source`, else a truthy `file_path`, and is absent when neither is truthy |
| Context.MissingMetadataIsEmpty | src/search.py:62-70 | a chunk without metadata is formatted like one with empty metadata: a header with only number and score |
| Context.ExampleScore | src/search.py:65 | a score of 0.8123 prints as `0.8123` |
| Context.ExampleHeader | src/search.py:61-70 | the chunk with score 0.8123, page 3 and source `relatorio.pdf` at position 1 gets the header `[Trecho 1 \| score=0.8123 \| page=3 \| src=relatorio.pdf]` |
| Prompt.BuildPromptShape | src/search.py:17-42 | `PROMPT_TEMPLATE.format(…).strip()` (`Prompt.BuildPrompt`): stripping the filled template removes only its own first and last newline, so the context and question are kept verbatim, whatever they hold |
| Prompt.PromptQuotesRefusal | src/search.py:21-24 | the prompt quotes the refusal text verbatim in its rules, right after the context |
| Prompt.PromptHoldsContextAndQuestion | src/search.py:18-39 | the context sits right after `CONTEXTO:` and the question right after the fixed rules and examples |
| Prompt.PromptEnds | src/search.py:17-42 | the prompt starts with `CONTEXTO:` and ends with the closing instruction |
| Search.LoadClients | src/search.py:90-105 | the clients are built exactly when the three required settings are set, with the collection and connection taken from them |
| Search.LoadClientsReportsFirstUnset | src/search.py:90-92 | the error names the first unset setting in the order API key, database URL, collection |
| Search.LoadClientsDefaults | src/search.py:94-96 | `os.getenv(name, default)` (`Config.GetEnv`): the optional model names and temperature take their defaults only when absent, and otherwise the set value, even an empty one |
| Search.Chain | src/search.py:132-167 | `chain` calls the model at most once, and any answer it returns is non-empty and either the refusal or a stripped text |
| Search.Reply | src/search.py:163-167 | after the model call the run records that one prompt, and its answer is non-empty and either the refusal or stripped |
| Search.ChainWithResults | src/search.py:150-163 | once the search returned results, `chain` sends the prompt built from them and ends as the model's reply decides |
| Search.ChainNoResults | src/search.py:150-157 | no results give the refusal without any model call, whatever the model is |
| Search.ChainCallsModelIffResults | src/search.py:150-163 | the model is called exactly when the search succeeded with at least one result |
| Search.ChainPromptFromResults | src/search.py:153-163 | the one prompt sent is the template filled with the formatted results and the question |
| Search.ChainAnswer | src/search.py:163-167 | the answer is the model's reply stripped, or the refusal when the reply is missing or blank |
| Search.ChainPropagates | src/search.py:150-163 | an error from the search or from the model reaches the caller unchanged, and a search error stops before any model call |
| Search.ChainDependsOnlyOnItsCalls | src/search.py:132-167 | `chain` looks at the store only for `(q, k)` and at the model only on the prompts it records |
| Search.SearchPromptModes | src/search.py:130-173 | `search_prompt` (`Search.SearchPrompt`): without a question the chain is returned; with one, the answer of `chain` for `k = 10` when `TOPK` is absent and for `k = int(TOPK)` when it is set, `int()`'s error ending the run before any search; a configuration error comes first in both modes |
| Search.SearchPromptAnswerNonEmpty | src/search.py:164-173 | a one-shot answer is never empty |
| Ingest.LoadSettings | src/ingest.py:10-15 | the script proceeds exactly when all four settings are set, and reads the PDF path and collection from them |
| Ingest.LoadSettingsEmbeddingModel | src/ingest.py:32 | the embedding model is `OPENAI_MODEL` whenever that is present, even empty, and `text-embedding-3-small` only when it is absent |
| Ingest.LoadSettingsReportsFirstUnset | src/ingest.py:10-12 | the error names the first unset setting in the order API key, database URL, collection, PDF path |
| Ingest.CleanMetadata | src/ingest.py:27 | the filtered metadata keeps only original entries, with their values |
| Ingest.CleanMetadataPartition | src/ingest.py:27 | kept and dropped entries are disjoint and together give back the metadata; every dropped value is `""` or `None` and no kept one is |
| Ingest.CleanMetadataKeepsFalsyValues | src/ingest.py:27 | a page 0 or a `False` flag survives the filter |
| Ingest.CleanMetadataIdempotent | src/ingest.py:27 | filtering twice is filtering once |
| Ingest.DocIdInjective | src/ingest.py:31 | two positions with the same id are the same position |
| Ingest.IdsDistinct | src/ingest.py:31 | the ids are pairwise distinct, so no chunk of the request overwrites another |
| Ingest.IngestPdf | src/ingest.py:17-39 | a store request has as many ids as documents, at least one, numbered `doc-0` onwards |
| Ingest.IngestChecksSettingsFirst | src/ingest.py:9-19 | a missing setting stops the script before the PDF is read, whatever the loader would do |
| Ingest.IngestOutcome | src/ingest.py:20-39 | the enrichment loop (`Ingest.Enrich`) and the id list (`Ingest.Ids`) as handed to the store: an empty split is exactly the `No document splits` error; otherwise the request handed to the store carries every chunk once, in order, with its text, filtered metadata and a distinct id |
| Chat.LowerFixesExitCommands | src/chat.py:43 | lower-casing is idempotent and every exit command is already lower case, so `q.lower() in EXIT_COMMANDS` is a case-insensitive match |
| Chat.Classify | src/chat.py:33-45 | a line is asked only as its stripped, non-empty text |
| Chat.ClassifySkipIffBlank | src/chat.py:33-40 | a line is skipped exactly when it is whitespace only |
| Chat.ClassifyExitIgnoresCase | src/chat.py:43-45 | a line ends the chat exactly when, stripped, it spells an exit command in any mix of upper and lower case |
| Chat.StopAt | src/chat.py:30-45 | the loop stops at the first interrupt or exit command; every earlier input lets it continue |
| Chat.Session | src/chat.py:30-56 | the loop always ends with exactly one message, the goodbye or the closing message, and every earlier event is an answer or an error report |
| Chat.SessionAsksEachQuestion | src/chat.py:30-56 | the chain is asked each non-blank line before the stopping input, stripped and in input order, and nothing else; an error does not end the loop |
| Chat.SessionEnding | src/chat.py:34-45 | the session ends with `Tchau!` exactly when an exit command ended it, and with `Encerrando...` on end of input or an interrupt |
| Chat.SessionReportsChainOutcome | src/chat.py:47-56 | every printed answer or error is what the chain gave for that question with the session's `topk` |
| Chat.MainStart | src/chat.py:13-24 | `main` (`Chat.Main`): a failed initialisation ends `main` with the error message before any input is read; the no-chain branch is never taken; with `TOPK` absent the loop runs with `k = 10` |
| Chat.MainAnswersNonEmpty | src/chat.py:51-53 | no answer the chat prints is empty |

## Left out

- In the search script the similarity search and the chat model are function parameters. Embedding the question is folded into the similarity search, and the embedding model appears only as a setting name. Ranking, embeddings, network calls and authentication are not described.
- Ingestion ends at the request `store.add_documents(documents=enriched, ids=ids)` receives (`Ingest.StoreRequest`). Building `OpenAIEmbeddings` and `PGVector` and the call to `add_documents` are not modelled, and neither are the errors they can raise (src/ingest.py:32-39).
- PDF loading and `RecursiveCharacterTextSplitter` (chunk size 1000, overlap 150) are one `Splitter` parameter. Chunk boundaries are not modelled.
- `load_dotenv()` is not modelled: the environment map is the state after it ran.
- Client construction is not modelled. `OpenAIEmbeddings`, `PGVector` and `ChatOpenAI` become a record of the settings they receive.
- Search.LoadClients: `float(OPENAI_TEMPERATURE)` and the `ValueError` it can raise are not modelled, because the model has no floating point. The temperature is kept as its text.
- Text.Fixed4: scores are integers in ten-thousandths, i.e. the value after `.4f` rounding. Rounding a binary float, and the `-0.0000` that Python prints for tiny negative scores, are not modelled.
- Metadata values are `None`, strings, integers and booleans. Float and nested values are not modelled.
- Search.Chain: the default `k = 10` in `chain`'s signature (src/search.py:132) is not a separate member, since every caller in the repository passes `k`; `Chain(q, 10, …)` is that default call.
- Search.TopK: `int()` on the `TOPK` text is a parameter. Its parsing rules are not modelled; its errors propagate as the code lets them.
- Chat.Lower: lower-cases ASCII letters only. No other character lower-cases to a single character found in an exit command, so membership in `EXIT_COMMANDS` is decided exactly as with full Unicode `str.lower()`. Questions are passed on unlowered.
- Console output text is not modelled: banners, the `--- Resposta ---` frame and the `[erro]` prefix. The session records which event was printed; the error text itself is `Errors.Message`.
- A `KeyboardInterrupt` while `chain` runs is not caught by `except Exception` and ends the program. The model treats interrupts only while waiting for input.
- `print(f"Created {len(splits)} …")` in the ingestion script is not modelled.
