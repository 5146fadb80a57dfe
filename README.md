# breno-agentRAG: the deterministic core, modelled in Dafny

The repository answers requirement questions about Cortex XSIAM with a
retrieval-augmented pipeline: a similarity search over a Chroma store
retrieves a few document chunks, a prompt is assembled from them, an Ollama
model answers, and the answer is cleaned, classified and recorded. This
project models, and proves properties of, the parts of that pipeline that
are plain text and record handling:

- `clean_ai_response` (core/utils.py), which removes `<think>…</think>`
  reasoning blocks and strips the answer (module `Utils`);
- `ResponseAnalyzer.evaluate_response` (core/response_analyzer.py), the
  keyword classifier that says "SIM" or "NÃO" and gives a `p/n` ratio
  (module `ResponseAnalyzer`);
- the three `query_rag` variants, with their source and page listings,
  excerpts, prompts, validation and success and error records
  (process_requirements_fast.py, core/rag_service.py with core/models.py,
  query_data_fast.py; modules `ProcessRequirementsFast`, `RagService`,
  `Models`, `QueryDataFast`, sharing `Documents`);
- `add_to_chroma` (populate_database.py), the batch plan of the ingestion
  script (module `PopulateDatabase`).

The Python built-ins these rely on are modelled in `Text` (`str.strip`,
`str.join`, `str.lower`, `str.isdigit`, `str(int)`, `os.path.basename`)
and `Ordering` (string order and `sorted` of a set). `Text` also defines
`Split`, a one-character split that none of the code calls: it is the
inverse through which the model reads the `p/n` ratio and the
`|`-joined listings back. `Wrappers` holds `Option` and `Result`.

The similarity search and the model are function parameters
(`search(query, k)` and `generate(prompt)`, each returning a `Result` whose
failure is the exception raised, as type name and message). Loops that
fill sets and lists in the source (`extract_metadata`, the loop of
`core/rag_service.py`'s `query_rag`, `add_to_chroma`) are methods with loop
invariants, each proved equal to a specification function whose properties
are proved as lemmas. Straight-line code and comprehensions are functions.

Two facts about the code are worth stating on their own:

- `clean_ai_response` is not idempotent. Removing a block can join the two
  halves of a split tag into a new block: `<thi<think>x</think>nk>y</think>`
  cleans to `<think>y</think>`, which cleans to "" (`Utils.CleanNotIdempotent`).
- The three variants retrieve different numbers of chunks.
  core/rag_service.py checks for an empty retrieval and uses `top_k` from
  core/config.py (3). process_requirements_fast.py also checks, with its own
  default of 2. query_data_fast.py asks for 2 and never checks.

## Model

| member | source | states |
|---|---|---|
| `Text.Strip` | core/utils.py:11 | `str.strip()`: never longer than its input, no whitespace (Python's `isspace` set) at either end |
| `Text.StripIsSlice` | core/utils.py:11 | the stripped text is a slice of the input with only whitespace cut off before and after it |
| `Text.StripSlice` | core/utils.py:11 | the stripped text is the slice of the input that starts where lstrip stops |
| `Text.StripDropsSpace` | core/utils.py:11 | everything strip cuts off, before and after the kept slice, is whitespace |
| `Text.StripIdempotent` | process_requirements_fast.py:82 | stripping a stripped text changes nothing |
| `Text.Basename` | process_requirements_fast.py:70 | `os.path.basename`: a suffix of the path with no `/`, preceded by `/` whenever it is shorter than the path |
| `Text.SplitJoin` | process_requirements_fast.py:76 | splitting a one-character join gives back the parts when no part holds the separator |
| `Text.Join` | process_requirements_fast.py:76 | `sep.join(parts)`: the parts in order with `sep` between consecutive ones, "" for no parts |
| `Text.Split` | core/response_analyzer.py:42 | not a call the code makes: the reading-back inverse of the `p/n` ratio and the `\|`-joined listings (used by `RatioReadsBack`, `ListingReadsBack` and `FontesReadsBack`), with at least one part for every input |
| `Text.Lower` | core/response_analyzer.py:36 | `str.lower()`: same length, each character lower-cased on its own |
| `Text.IsDigits` | process_requirements_fast.py:72 | `str.isdigit()`: non-empty and every character an ASCII digit |
| `Text.IntToString` | process_requirements_fast.py:72-73 | `str(n)`: the decimal numeral of a non-negative `n`, `-` then the numeral of `-n` otherwise |
| `Text.IntToStringIsDigits` | process_requirements_fast.py:72 | `str(page).isdigit()` holds exactly for non-negative integer pages |
| `Text.ParseNatToString` | core/response_analyzer.py:42 | a decimal numeral reads back as the number it was printed from |
| `Ordering.Sorted` | process_requirements_fast.py:76 | `sorted(set)`: each element once, nothing else, strictly increasing in Python string order |
| `Ordering.SortedIsTheSortedListing` | process_requirements_fast.py:76 | any strictly sorted listing of exactly the set's elements is `sorted(set)` |
| `Utils.FindFrom` | core/utils.py:8 | the first occurrence of a tag at or after a position, or none |
| `Utils.BlockEnd` | core/utils.py:8 | a match of the lazy block pattern at the start runs from `<think>` to the end of a `</think>` |
| `Utils.RemoveThinkBlocks` | core/utils.py:8 | the substitution never lengthens the text |
| `Utils.CleanAiResponse` | core/utils.py:3-13 | the cleaned answer is never longer than the input and has no whitespace at either end |
| `Utils.UnclosedIsKept` | core/utils.py:8 | with no `</think>` nothing is removed, so an unclosed `<think>` stays as text |
| `Utils.NoOpeningIsKept` | core/utils.py:8 | with no `<think>` nothing is removed |
| `Utils.PlainPrefixIsKept` | core/utils.py:8 | text in which no `<think>` starts is copied and the scan continues after it |
| `Utils.LeadingBlockIsRemoved` | core/utils.py:8 | a block is removed, markers included, up to the first `</think>` after its `<think>`, whatever its body holds (newlines too) |
| `Utils.BlockIsRemoved` | core/utils.py:8 | the first block is cut out, up to its first `</think>`, and the text before it is kept; any text before it qualifies, provided no `<think>` starts there (a stray `<` does not matter) |
| `Utils.KeptFirst` | core/utils.py:8 | where no `<think>` starts, the scan keeps the character and moves on by one |
| `Utils.LessFreeBlockIsRemoved` | core/utils.py:8 | one block between text without `<` is removed and the text on both sides kept |
| `Utils.CleanWithoutThinkIsStrip` | core/utils.py:8-11 | an answer without `<think>` is only stripped |
| `Utils.CleanUnclosedIsStrip` | core/utils.py:8-11 | an answer without `</think>` is only stripped |
| `Utils.CleanAroundBlock` | core/utils.py:8-11 | an answer `before<think>body</think>after` with no `<think>` starting in `before` or `after` and no `</think>` in `body` cleans to the strip of `before + after` |
| `Utils.CleanKeepsInnerSpaces` | core/utils.py:8-11 | `"before <think>secret</think> after"` cleans to `"before  after"`, both inner spaces kept |
| `Utils.CleanAfterStrayLess` | core/utils.py:8-11 | `"a < b <think>x</think> c"` cleans to `"a < b  c"`: a `<` that starts no tag does not stop the removal |
| `Utils.CleanIsNonGreedy` | core/utils.py:8 | two blocks leave the text between them: `<think>a</think>keep<think>b</think>` cleans to the strip of `keep` when neither body holds `</think>` and no `<think>` starts in `keep` |
| `Utils.CleanSpansLines` | core/utils.py:8 | a block containing newlines is removed (`re.DOTALL`) |
| `Utils.CleanNotIdempotent` | core/utils.py:8-11 | cleaning twice can differ from cleaning once (a concrete answer where it does) |
| `ResponseAnalyzer.IsWordChar` | core/response_analyzer.py:33-34 | the characters `\w` matches in a `str` pattern, over ASCII and Latin-1 |
| `ResponseAnalyzer.Boundary` | core/response_analyzer.py:33-34 | `\b` holds at a position exactly when a word character is on one side of it and not on the other, the ends of the text counting as non-word |
| `ResponseAnalyzer.MatchesAt` | core/response_analyzer.py:33-34 | `\b<word>\b` matches at a position: the word is there, with a boundary before and after it |
| `ResponseAnalyzer.SearchFrom` | core/response_analyzer.py:37-38 | the search answers true exactly when `\b<word>\b` matches at some position |
| `ResponseAnalyzer.Found` | core/response_analyzer.py:37-38 | `re.search` finds a keyword exactly when it occurs as a whole word |
| `ResponseAnalyzer.CountFound` | core/response_analyzer.py:37-38 | each keyword adds at most 1, so the count is at most the number of keywords |
| `ResponseAnalyzer.CountIsNumberOfHits` | core/response_analyzer.py:37-38 | the count is the number of distinct keywords found, however often each occurs |
| `ResponseAnalyzer.CountZeroIff` | core/response_analyzer.py:37-38 | the count is 0 exactly when no keyword occurs |
| `ResponseAnalyzer.CountFullIff` | core/response_analyzer.py:37-38 | the count is the number of keywords exactly when all of them occur |
| `ResponseAnalyzer.PositiveCount` | core/response_analyzer.py:33-37 | the positive count lies in 0..3 |
| `ResponseAnalyzer.NegativeCount` | core/response_analyzer.py:34-38 | the negative count lies in 0..3 |
| `ResponseAnalyzer.EvaluateResponse` | core/response_analyzer.py:31-43 | `atende` is "SIM" or "NÃO", and "SIM" exactly when positive > negative |
| `ResponseAnalyzer.RatioReadsBack` | core/response_analyzer.py:42 | `correspondencia` splits on `/` into two one-digit numerals that read back as the positive and negative counts |
| `ResponseAnalyzer.TieIsNo` | core/response_analyzer.py:41 | equal counts give "NÃO" |
| `ResponseAnalyzer.CaseInsensitive` | core/response_analyzer.py:36 | lower-casing the answer first changes nothing |
| `ResponseAnalyzer.QuestionIsIgnored` | core/response_analyzer.py:31-43 | the result does not depend on `pergunta` |
| `ResponseAnalyzer.EmptyAnswer` | core/response_analyzer.py:40-43 | the empty answer gives "NÃO" and `0/0` |
| `ResponseAnalyzer.SimplesIsNotSim` | core/response_analyzer.py:33 | `sim` inside `simples` is not a whole word |
| `ResponseAnalyzer.FaltanteIsNotFalta` | core/response_analyzer.py:34 | `falta` inside `faltante` is not a whole word |
| `ResponseAnalyzer.NaoAtendeIsNo` | core/response_analyzer.py:33-43 | "não atende" scores `1/2` (`atende`; `não`, `não atende`) and gives "NÃO" |
| `Documents.PageTextIsDigits` | process_requirements_fast.py:71-72 | a page passes the digit filter exactly when it is present and not negative |
| `Documents.SourceValue` | process_requirements_fast.py:68 | `doc.metadata.get('source', 'N/A')` |
| `Documents.PageText` | process_requirements_fast.py:71-72 | `str(doc.metadata.get('page', 'N/A'))`: the page's decimal text, or 'N/A' |
| `Documents.SourceEntry` | process_requirements_fast.py:68-70 | what one chunk adds to `sources`: the basename of its source, or nothing when the source is 'N/A' |
| `Documents.PageEntry` | process_requirements_fast.py:71-73 | what one chunk adds to `pages`: `p` followed by its page text when that text is all digits, otherwise nothing |
| `Documents.ListedSources` | process_requirements_fast.py:64-70 | the `sources` set after the loop: every chunk's entry, added front to back (membership stated by `ListedSourcesIff`) |
| `Documents.ListedPages` | process_requirements_fast.py:65-73 | the `pages` set after the loop: every chunk's entry, added front to back (membership stated by `ListedPagesIff`) |
| `Documents.Listing` | process_requirements_fast.py:76 | `"\|".join(sorted(s))` |
| `Documents.Contents` | process_requirements_fast.py:101 | one content per chunk, in retrieval order |
| `Documents.ListedSourcesIff` | process_requirements_fast.py:67-70 | a name is in `sources` exactly when some chunk has a source other than 'N/A' whose basename is that name |
| `Documents.ListedPagesIff` | process_requirements_fast.py:67-73 | a label is in `pages` exactly when some chunk's page text is all digits and the label is `p` followed by it |
| `Documents.SourcesHoldNoSlash` | process_requirements_fast.py:68-70 | listed sources are basenames, so none holds `/` |
| `Documents.ListedPagesAreLabels` | process_requirements_fast.py:71-73 | listed pages are `p` followed by digits |
| `Documents.ListedStep` | core/rag_service.py:87-96 | one more chunk adds at most its basename and its page label to the sets |
| `Documents.NoSourcesIff` | process_requirements_fast.py:68-70 | no source is listed exactly when every chunk's source is missing or 'N/A' |
| `Documents.PageListedIff` | process_requirements_fast.py:71-73 | `p<n>` is listed exactly when some chunk has page `n` and `n` >= 0 |
| `Documents.NoPagesIff` | process_requirements_fast.py:71-73 | no page is listed exactly when no chunk has a present, non-negative page |
| `Documents.ListingOfNothing` | core/rag_service.py:121-122 | the listing of the empty set is "" |
| `Documents.ListingAvoids` | process_requirements_fast.py:76 | a character in no element (other than `\|`) is not in the listing |
| `Documents.ListingReadsBack` | process_requirements_fast.py:76 | with no `\|` in the elements, splitting the listing on `\|` gives the sorted elements |
| `ProcessRequirementsFast.ExtractMetadata` | process_requirements_fast.py:62-78 | the loop's result equals `MetadataOf(results)`: each listing, or 'N/A' when it is empty |
| `ProcessRequirementsFast.FontesIsNAIff` | process_requirements_fast.py:68-77 | `fontes` is 'N/A' exactly when no chunk has a source other than 'N/A' |
| `ProcessRequirementsFast.PaginasIsNAIff` | process_requirements_fast.py:71-77 | `paginas` is 'N/A' exactly when no chunk has a present, non-negative page |
| `ProcessRequirementsFast.FontesReadsBack` | process_requirements_fast.py:76 | `fontes` splits on `\|` into the distinct basenames, sorted |
| `ProcessRequirementsFast.ValidateResponse` | process_requirements_fast.py:80-85 | success exactly when the stripped text has 1..10000 characters, and then it is that text; otherwise ValueError "Invalid or too long response" |
| `ProcessRequirementsFast.ValidatedPassesAgain` | process_requirements_fast.py:80-85 | a validated answer validates again to itself |
| `ProcessRequirementsFast.BlankIsInvalid` | process_requirements_fast.py:82-84 | an all-whitespace answer is rejected |
| `ProcessRequirementsFast.PromptHoldsContextAndQuestion` | process_requirements_fast.py:103-111 | the context and the question sit at fixed offsets of the prompt |
| `ProcessRequirementsFast.MetadataOf` | process_requirements_fast.py:62-78 | the value `extract_metadata` returns: each listing of the sets, or 'N/A' when the set is empty |
| `ProcessRequirementsFast.Prompt` | process_requirements_fast.py:103-111 | the f-string prompt, character for character, with the context and the question filled in |
| `ProcessRequirementsFast.Answer` | process_requirements_fast.py:93-114 | the `try` block up to the answer: search, the empty-results `ValueError`, generation, validation; the first exception raised, or the metadata and validated answer |
| `ProcessRequirementsFast.ErrorRecord` | process_requirements_fast.py:129-141 | the `except` record: `ERRO (<type>): <message>`, 'N/A' twice, the settings' model and version |
| `ProcessRequirementsFast.QueryRag` | process_requirements_fast.py:87-141 | every outcome is an eight-key record carrying the query, model name, version, time and timestamp |
| `ProcessRequirementsFast.EmptyRetrievalIsErrorRecord` | process_requirements_fast.py:94-141 | empty retrieval gives the error record for "No results found in semantic search", whatever the model would answer |
| `ProcessRequirementsFast.FailedSearchIsErrorRecord` | process_requirements_fast.py:94-141 | a failing search gives `ERRO (<type>): <message>` and 'N/A' for both listings |
| `ProcessRequirementsFast.ModelFailureIsErrorRecord` | process_requirements_fast.py:113-141 | a failing model call gives `ERRO (<type>): <message>` and 'N/A' for both listings |
| `ProcessRequirementsFast.FailureIsErrorRecord` | process_requirements_fast.py:129-141 | whatever step raises, the record is `ERRO (<type>): <message>` with 'N/A' for both listings and the query, model, time and version kept |
| `ProcessRequirementsFast.SuccessRecord` | process_requirements_fast.py:113-127 | on success the record holds the stripped answer and the metadata; `fontes` is 'N/A' exactly when no chunk names a source |
| `ProcessRequirementsFast.UnusableAnswerIsErrorRecord` | process_requirements_fast.py:113-141 | a blank or overlong answer gives the validation error record |
| `ProcessRequirementsFast.OnlyTopKIsRetrieved` | process_requirements_fast.py:94 | the record depends on the search only through its answer for `(query, top_k)` |
| `ProcessRequirementsFast.DefaultsAskForTwo` | process_requirements_fast.py:32-41 | under the script's default settings the search is asked for 2 chunks, and the record names `deepseek-r1:8b` and `1.0.0` |
| `RagService.Excerpt` | core/rag_service.py:99 | content of at most 1000 characters is kept; longer content becomes its first 1000 characters plus "..." |
| `RagService.ExcerptIsBoundedPrefix` | core/rag_service.py:99 | an excerpt has at most 1003 characters and starts like its content |
| `RagService.Excerpts` | core/rag_service.py:87-99 | one excerpt per chunk, in retrieval order |
| `RagService.Numbered` | core/rag_service.py:102 | entry `i` is `Trecho {i+1}:\n` followed by excerpt `i` |
| `RagService.NumberedEntry` | core/rag_service.py:102 | the number in entry `i` reads back as `i + 1`, followed by its excerpt |
| `RagService.Context` | core/rag_service.py:102 | the numbered excerpts joined with blank lines |
| `RagService.Prompt` | core/rag_service.py:105-112 | the concatenated prompt, character for character, with the context and the question filled in |
| `RagService.Answer` | core/rag_service.py:72-116 | the `try` block up to the answer: search, the empty-results `ValueError`, generation, strip and clean; the first exception raised, or the chunks and the cleaned answer |
| `RagService.SuccessResponse` | core/rag_service.py:118-128 | the success record: cleaned answer, listings of the sets, `\|---\|`-joined excerpts, model, time, timestamp, version |
| `RagService.ErrorResponse` | core/rag_service.py:130-142 | the `except` record: `ERRO: <message>`, 'N/A' three times, `0.00s` |
| `RagService.Respond` | core/rag_service.py:66-142 | what `query_rag` returns: the error record for the exception `Answer` reports, otherwise the success record |
| `RagService.Gather` | core/rag_service.py:83-99 | the loop fills exactly the listed sources, listed pages and excerpts |
| `RagService.QueryRag` | core/rag_service.py:66-142 | returns `Respond(…)`: the error record on an empty or failed retrieval or model call, otherwise the success record |
| `RagService.SuccessRecord` | core/rag_service.py:113-128 | on success the answer is `clean_ai_response` of the stripped text, so it is stripped and no longer than the text, with the listings and the `\|---\|`-joined excerpts |
| `RagService.SuccessListings` | core/rag_service.py:121-122 | success listings are "" when empty and never 'N/A' |
| `RagService.EmptyRetrievalIsErrorRecord` | core/rag_service.py:76-77 | empty retrieval gives the error record for "Nenhum documento encontrado" before the model is asked |
| `RagService.FailureRecord` | core/rag_service.py:130-142 | any failure gives `ERRO: <message>`, 'N/A' for listings and excerpts, `0.00s`, and the same nine keys |
| `RagService.ModelFailureIsErrorRecord` | core/rag_service.py:114-142 | a failing model call gives the error record with its message |
| `RagService.OnlyTopKIsRetrieved` | core/rag_service.py:75 | the record depends on the search only through its answer for `(query, top_k)` |
| `RagService.DefaultsAskForThree` | core/config.py:3-8 | under core/config.py's defaults the search is asked for 3 chunks, and the record names `deepseek-r1:8b` and `1.0.0` |
| `QueryDataFast.QueryRag` | query_data_fast.py:40-67 | every outcome is a four-key record for the query |
| `QueryDataFast.SourceValues` | query_data_fast.py:57 | the set of source values of the chunks, full paths and 'N/A' |
| `QueryDataFast.PageTexts` | query_data_fast.py:58 | the set of page texts of the chunks, 'N/A' for a missing page |
| `QueryDataFast.Prompt` | query_data_fast.py:50 | the f-string prompt, character for character, with no space before the question |
| `QueryDataFast.Answer` | query_data_fast.py:43-52 | the `try` block up to the answer: search and generation with no empty-results check; the first exception raised, or the chunks and the stripped answer |
| `QueryDataFast.SuccessRecord` | query_data_fast.py:52-59 | on success the record holds the stripped answer and the two listings |
| `QueryDataFast.EmptyRetrievalStillAsksTheModel` | query_data_fast.py:46-58 | empty retrieval still asks the model and gives "" for both listings |
| `QueryDataFast.FailureRecord` | query_data_fast.py:61-67 | an exception gives `ERRO: <message>` and 'N/A' for both listings |
| `QueryDataFast.SourceValueListedIff` | query_data_fast.py:57 | a value is listed exactly when some chunk's source value (full path, or 'N/A') is that value |
| `QueryDataFast.MissingSourceIsListedAsNA` | query_data_fast.py:57 | a missing source contributes 'N/A'; a present one is listed as its full path |
| `QueryDataFast.PageTextListedIff` | query_data_fast.py:58 | a text is listed exactly when some chunk's page text (`str(page)`, or 'N/A') is that text |
| `QueryDataFast.MissingPageIsListedAsNA` | query_data_fast.py:58 | a missing page contributes 'N/A'; a present one is listed as its decimal text, negative pages included |
| `QueryDataFast.NoSourcesListsNA` | query_data_fast.py:57 | when no chunk has a source, `fontes` is 'N/A' even on success |
| `QueryDataFast.PagesSortAsText` | query_data_fast.py:58 | pages 9 and 10 are listed as "10\|9": sorted as strings |
| `PopulateDatabase.Ids` | populate_database.py:55 | a batch's ids are `doc_<start+j>`, one per chunk |
| `PopulateDatabase.Id` | populate_database.py:55 | `f"doc_{k}"` |
| `PopulateDatabase.Plan` | populate_database.py:53-58 | the `add_documents` calls of the batches from a position on, each with its slice and ids |
| `PopulateDatabase.Sent` | populate_database.py:58 | the chunks handed to the store, batch after batch |
| `PopulateDatabase.IdInjective` | populate_database.py:55 | different positions get different ids |
| `PopulateDatabase.AddToChroma` | populate_database.py:42-60 | the loop makes exactly the planned `add_documents` calls |
| `PopulateDatabase.PlanLength` | populate_database.py:53 | the number of batches from a position is the ceiling of the remaining chunks over 500 |
| `PopulateDatabase.CallCount` | populate_database.py:53-58 | ceil(n/500) calls; none for an empty list |
| `PopulateDatabase.PlanEntry` | populate_database.py:53-55 | call `k` sends the chunks from `500k` up to 500 of them, with those positions' ids |
| `PopulateDatabase.PlanCall` | populate_database.py:53-58 | call `k` is exactly `add_documents(chunks[500k:500k+500], ids)` with the ids of those positions |
| `PopulateDatabase.PlanId` | populate_database.py:55 | the `j`-th id of call `k` is `doc_<500k+j>`, with `j` below 500 |
| `PopulateDatabase.BatchSizes` | populate_database.py:50-54 | every batch but the last has 500 chunks; the last has 1 to 500 |
| `PopulateDatabase.ChunkGetsItsPositionAsId` | populate_database.py:53-55 | chunk `500k + j` is sent in call `k` at offset `j` with id `doc_{500k+j}` |
| `PopulateDatabase.SentFrom` | populate_database.py:53-54 | the batches from a position on concatenate to the chunks from there on |
| `PopulateDatabase.AllChunksSentInOrder` | populate_database.py:50-54 | the batches concatenate to the chunk list, in order |
| `PopulateDatabase.IdsUnique` | populate_database.py:53-55 | no id is used twice in a run |

## Left out

- `load_components` in all three variants: building the Chroma store and the Ollama client, `lru_cache`, and the persistent-store fallback are library calls. A failure there is modelled as the `search` parameter failing.
- `ResponseAnalyzer.initialize` and `deep_analysis`: they call the model and decode its JSON.
- processing/parallel.py and the thread-pool loops of process_requirements_fast.py: concurrency. Results come back in completion order and the code does not restore input order.
- `load_questions`, file_processor.py and every Excel write: pandas file I/O.
- `load_documents`, `split_documents` and `clear_database`: PDF loading, the library splitter and file deletion.
- The progress `print` lines of `add_to_chroma`, all logging, and main.py and every `main()` or argparse entry point.
- Clock reads: `tempo_resposta` and `timestamp` are parameters (`elapsed`, `now`). process_requirements_fast.py reads the clock separately on its success and error paths; one `elapsed` value stands for both.
- `Settings`: read from the environment, so it is a parameter. The defaults are the constants `ProcessRequirementsFast.DEFAULTS` and `RagService.CONFIG_DEFAULTS`.
- The retrieval scores in the `(doc, score)` pairs are never read and are dropped. The number of chunks the search returns is not tied to `k`.
- Metadata values: a source is a string and a page an integer when present. Other value types (a float page, a non-string source) are not modelled.
- `Text.Lower`: lower-cases ASCII and Latin-1 letters only. Other scripts are left unchanged.
- `ResponseAnalyzer.IsWordChar`: ASCII and Latin-1 alphanumerics and `_` only. Characters above U+00FF count as non-word characters.
- `Text.IsDigits`: ASCII digits only. That is all `str(int)` produces.
- `Text.Basename`: splits on `/` only, as POSIX `os.path.basename` does. The Windows form, which also splits on `\`, is not modelled.
- `Utils.CleanAiResponse`: idempotence is not claimed, because it does not hold (`Utils.CleanNotIdempotent`).
- `Models.RagResponse`: one datatype stands for both `RAGResponse` and `ErrorResponse`, which have the same nine keys.
