/**
 * process_requirements_fast.py: answering one requirement question.
 * `extract_metadata` lists the distinct source file names and page numbers of
 * the retrieved chunks, `validate_response` checks the model's answer, and
 * `query_rag` turns either the answer or the exception raised on the way into
 * an eight-key record.
 *
 * The similarity search and the model are parameters (`search`, `generate`);
 * the elapsed-time text and the timestamp, which the script reads from the
 * clock, are parameters too.
 */
module ProcessRequirementsFast {
  import opened Wrappers
  import opened Text
  import opened Documents

  /** The defaults of this script's own `Settings` class (`top_k` is 2 here). */
  const DEFAULTS: Settings := Settings("deepseek-r1:8b", 2, "1.0.0")

  // ---------------------------------------------------------------------------
  // extract_metadata
  // ---------------------------------------------------------------------------

  datatype Metadata = Metadata(fontes: string, paginas: string)

  /** What `extract_metadata` returns: each listing, or 'N/A' when there is nothing to list. */
  function MetadataOf(docs: seq<Doc>): Metadata {
    var sources, pages := ListedSources(docs), ListedPages(docs);
    Metadata(if sources == {} then NA else Listing(sources),
             if pages == {} then NA else Listing(pages))
  }

  /** `extract_metadata(results)`: one pass over the chunks filling the two sets. */
  method ExtractMetadata(results: seq<Doc>) returns (m: Metadata)
    ensures m == MetadataOf(results)
  {
    var sources: set<string> := {};
    var pages: set<string> := {};
    for i := 0 to |results|
      invariant sources == ListedSources(results[..i])
      invariant pages == ListedPages(results[..i])
    {
      var d := results[i];
      var source := SourceValue(d);
      if source != NA {
        sources := sources + {Basename(source)};
      }
      var page := PageText(d);
      if IsDigits(page) {
        pages := pages + {"p" + page};
      }
      ListedStep(results, i);
    }
    assert results[..|results|] == results;
    m := Metadata(if sources == {} then NA else Listing(sources),
                  if pages == {} then NA else Listing(pages));
  }

  /**
   * `fontes` is 'N/A' exactly when no chunk has a source other than 'N/A':
   * a listing of basenames holds no `/`, so it is never 'N/A' itself.
   */
  lemma FontesIsNAIff(docs: seq<Doc>)
    ensures MetadataOf(docs).fontes == NA <==> forall i :: 0 <= i < |docs| ==> SourceValue(docs[i]) == NA
  {
    NoSourcesIff(docs);
    var sources := ListedSources(docs);
    if sources != {} {
      SourcesHoldNoSlash(docs);
      ListingIsNotNA(sources);
      assert MetadataOf(docs).fontes == Listing(sources);
    } else {
      assert MetadataOf(docs).fontes == NA;
    }
  }

  /** `paginas` is 'N/A' exactly when no chunk has a page that is present and not negative. */
  lemma PaginasIsNAIff(docs: seq<Doc>)
    ensures MetadataOf(docs).paginas == NA
        <==> forall i :: 0 <= i < |docs| ==> docs[i].page.None? || docs[i].page.value < 0
  {
    NoPagesIff(docs);
    var pages := ListedPages(docs);
    if pages != {} {
      PagesHoldNoSlash(docs);
      ListingAvoids(pages, '/');
      assert NA[1] == '/';
    }
  }

  /**
   * When some chunk has a source and no file name holds `|`, splitting
   * `fontes` on `|` gives the distinct basenames in sorted order.
   */
  lemma FontesReadsBack(docs: seq<Doc>)
    requires ListedSources(docs) != {}
    requires forall x :: x in ListedSources(docs) ==> '|' !in x
    ensures Split(MetadataOf(docs).fontes, '|') == Ordering.Sorted(ListedSources(docs))
  {
    ListingReadsBack(ListedSources(docs));
  }

  // ---------------------------------------------------------------------------
  // validate_response
  // ---------------------------------------------------------------------------

  const MAX_RESPONSE_LENGTH: nat := 10000
  const INVALID_RESPONSE: Exc := Exc("ValueError", "Invalid or too long response")

  /** `validate_response(response)`: the stripped answer, or ValueError when it is empty or too long. */
  function ValidateResponse(response: string): (r: Result<string, Exc>)
    ensures r.Success? <==> 0 < |Strip(response)| <= MAX_RESPONSE_LENGTH
    ensures r.Success? ==> r.value == Strip(response)
    ensures r.Failure? ==> r.error == INVALID_RESPONSE
  {
    var stripped := Strip(response);
    if |stripped| == 0 || |stripped| > MAX_RESPONSE_LENGTH then Failure(INVALID_RESPONSE)
    else Success(stripped)
  }

  /** A validated answer passes validation again, unchanged. */
  lemma ValidatedPassesAgain(response: string)
    requires ValidateResponse(response).Success?
    ensures ValidateResponse(ValidateResponse(response).value) == ValidateResponse(response)
  {
    StripIdempotent(response);
  }

  /** An answer that is only whitespace is rejected. */
  lemma BlankIsInvalid(response: string)
    requires forall k :: 0 <= k < |response| ==> IsSpace(response[k])
    ensures ValidateResponse(response) == Failure(INVALID_RESPONSE)
  {
    StripEmptyIff(response);
  }

  // ---------------------------------------------------------------------------
  // query_rag
  // ---------------------------------------------------------------------------

  const PROMPT_HEAD: string :=
    "Você é um assistente especializado na solução Cortex XSIAM da Palo Alto Networks.\n        \nContexto:\n"
  const PROMPT_MIDDLE: string := "\n\nPergunta: "
  const PROMPT_TAIL: string :=
    "\n\nResponda de forma clara e concisa, citando os números das páginas relevantes quando aplicável.\nResposta:"

  /** The prompt sent to the model. */
  function Prompt(context: string, query: string): string {
    PROMPT_HEAD + context + PROMPT_MIDDLE + query + PROMPT_TAIL
  }

  /** The context and the question can be read back out of the prompt at fixed offsets. */
  lemma PromptHoldsContextAndQuestion(context: string, query: string)
    ensures var p := Prompt(context, query);
      && |p| == |PROMPT_HEAD| + |context| + |PROMPT_MIDDLE| + |query| + |PROMPT_TAIL|
      && p[|PROMPT_HEAD|..|PROMPT_HEAD| + |context|] == context
      && p[|p| - |PROMPT_TAIL| - |query|..|p| - |PROMPT_TAIL|] == query
  {
    var p := Prompt(context, query);
    var a := PROMPT_HEAD + context;
    var b := a + PROMPT_MIDDLE + query;
    assert p == b + PROMPT_TAIL;
    assert p[..|b|] == b;
    assert b[|a| + |PROMPT_MIDDLE|..] == query;
    assert p[|PROMPT_HEAD|..|PROMPT_HEAD| + |context|] == a[|PROMPT_HEAD|..];
  }

  /** The record `query_rag` returns, success and error alike. */
  datatype Record = Record(pergunta: string, resposta: string, fontes: string, paginas: string,
                           modelo: string, tempoResposta: string, timestamp: int, versao: string)

  const NO_RESULTS: Exc := Exc("ValueError", "No results found in semantic search")

  /**
   * The `try` block up to the answer: retrieval, the empty-results check,
   * generation and validation. Any of them can raise; otherwise the
   * metadata and the validated answer.
   */
  function Answer(query: string, settings: Settings,
                  search: (string, nat) -> Result<seq<Doc>, Exc>,
                  generate: string -> Result<string, Exc>): Result<(Metadata, string), Exc>
  {
    var results :- search(query, settings.topK);
    if results == [] then Failure(NO_RESULTS)
    else
      var context := Join("\n", Contents(results));
      var response :- generate(Prompt(context, query));
      var validated :- ValidateResponse(response);
      Success((MetadataOf(results), validated))
  }

  /** The `except` branch: `ERRO (<type>): <message>`, 'N/A' for both listings. */
  function ErrorRecord(query: string, settings: Settings, e: Exc, elapsed: string, now: int): Record {
    Record(query, "ERRO (" + e.kind + "): " + e.message, NA, NA,
           settings.modelName, elapsed, now, settings.appVersion)
  }

  /** `query_rag(query_text)`: never raises, always one record with the same eight keys. */
  function QueryRag(query: string, settings: Settings,
                    search: (string, nat) -> Result<seq<Doc>, Exc>,
                    generate: string -> Result<string, Exc>,
                    elapsed: string, now: int): (r: Record)
    ensures r.pergunta == query && r.modelo == settings.modelName && r.versao == settings.appVersion
    ensures r.tempoResposta == elapsed && r.timestamp == now
  {
    match Answer(query, settings, search, generate)
    case Success((metadata, validated)) =>
      Record(query, validated, metadata.fontes, metadata.paginas,
             settings.modelName, elapsed, now, settings.appVersion)
    case Failure(e) => ErrorRecord(query, settings, e, elapsed, now)
  }

  /**
   * An empty retrieval is turned into the error record before the model is
   * asked anything: the record is the same whatever the model would answer.
   */
  lemma EmptyRetrievalIsErrorRecord(query: string, settings: Settings,
                                    search: (string, nat) -> Result<seq<Doc>, Exc>,
                                    g1: string -> Result<string, Exc>, g2: string -> Result<string, Exc>,
                                    elapsed: string, now: int)
    requires search(query, settings.topK) == Success([])
    ensures QueryRag(query, settings, search, g1, elapsed, now) == QueryRag(query, settings, search, g2, elapsed, now)
    ensures QueryRag(query, settings, search, g1, elapsed, now) == ErrorRecord(query, settings, NO_RESULTS, elapsed, now)
  {
  }

  /** A failed search gives the error record with that exception's type and message. */
  lemma FailedSearchIsErrorRecord(query: string, settings: Settings,
                                  search: (string, nat) -> Result<seq<Doc>, Exc>,
                                  generate: string -> Result<string, Exc>,
                                  elapsed: string, now: int, e: Exc)
    requires search(query, settings.topK) == Failure(e)
    ensures QueryRag(query, settings, search, generate, elapsed, now)
         == Record(query, "ERRO (" + e.kind + "): " + e.message, NA, NA,
                   settings.modelName, elapsed, now, settings.appVersion)
  {
  }

  /** A failing model call gives the error record with that exception's type and message. */
  lemma ModelFailureIsErrorRecord(query: string, settings: Settings,
                                  search: (string, nat) -> Result<seq<Doc>, Exc>,
                                  generate: string -> Result<string, Exc>,
                                  elapsed: string, now: int, docs: seq<Doc>, e: Exc)
    requires search(query, settings.topK) == Success(docs) && docs != []
    requires generate(Prompt(Join("\n", Contents(docs)), query)) == Failure(e)
    ensures QueryRag(query, settings, search, generate, elapsed, now)
         == Record(query, "ERRO (" + e.kind + "): " + e.message, NA, NA,
                   settings.modelName, elapsed, now, settings.appVersion)
  {
    var p := Prompt(Join("\n", Contents(docs)), query);
    assert generate(p) == Failure(e);
    assert Answer(query, settings, search, generate) == Failure(e);
  }

  /**
   * Whatever step of the `try` block raises (search, empty results, model,
   * validation), the record is `ERRO (<type>): <message>` with 'N/A' for
   * both listings, and keeps the query, model, time and version.
   */
  lemma FailureIsErrorRecord(query: string, settings: Settings,
                             search: (string, nat) -> Result<seq<Doc>, Exc>,
                             generate: string -> Result<string, Exc>,
                             elapsed: string, now: int, e: Exc)
    requires Answer(query, settings, search, generate) == Failure(e)
    ensures QueryRag(query, settings, search, generate, elapsed, now)
         == Record(query, "ERRO (" + e.kind + "): " + e.message, NA, NA,
                   settings.modelName, elapsed, now, settings.appVersion)
  {
  }

  /**
   * With chunks retrieved and a usable answer, the record holds the stripped
   * answer and the two metadata listings; 'N/A' appears in `fontes` only
   * when no chunk names a source.
   */
  lemma SuccessRecord(query: string, settings: Settings,
                      search: (string, nat) -> Result<seq<Doc>, Exc>,
                      generate: string -> Result<string, Exc>,
                      elapsed: string, now: int, docs: seq<Doc>, text: string)
    requires search(query, settings.topK) == Success(docs) && docs != []
    requires generate(Prompt(Join("\n", Contents(docs)), query)) == Success(text)
    requires 0 < |Strip(text)| <= MAX_RESPONSE_LENGTH
    ensures var r := QueryRag(query, settings, search, generate, elapsed, now);
      && r.resposta == Strip(text)
      && IsStripped(r.resposta)
      && r.fontes == MetadataOf(docs).fontes
      && r.paginas == MetadataOf(docs).paginas
      && (r.fontes == NA <==> forall i :: 0 <= i < |docs| ==> SourceValue(docs[i]) == NA)
  {
    AnswerSucceeds(query, settings, search, generate, docs, text);
    var m := MetadataOf(docs);
    assert QueryRag(query, settings, search, generate, elapsed, now)
        == Record(query, Strip(text), m.fontes, m.paginas, settings.modelName, elapsed, now, settings.appVersion);
    FontesIsNAIff(docs);
  }

  /** With chunks retrieved and a usable answer, nothing raises. */
  lemma AnswerSucceeds(query: string, settings: Settings,
                       search: (string, nat) -> Result<seq<Doc>, Exc>,
                       generate: string -> Result<string, Exc>, docs: seq<Doc>, text: string)
    requires search(query, settings.topK) == Success(docs) && docs != []
    requires generate(Prompt(Join("\n", Contents(docs)), query)) == Success(text)
    requires 0 < |Strip(text)| <= MAX_RESPONSE_LENGTH
    ensures Answer(query, settings, search, generate) == Success((MetadataOf(docs), Strip(text)))
  {
    var found := search(query, settings.topK);
    assert found.Success? && found.value == docs;
    var p := Prompt(Join("\n", Contents(docs)), query);
    assert generate(p) == Success(text);
    assert ValidateResponse(text) == Success(Strip(text));
  }

  /** A blank or overlong answer becomes the error record for the validation failure. */
  lemma UnusableAnswerIsErrorRecord(query: string, settings: Settings,
                                    search: (string, nat) -> Result<seq<Doc>, Exc>,
                                    generate: string -> Result<string, Exc>,
                                    elapsed: string, now: int, docs: seq<Doc>, text: string)
    requires search(query, settings.topK) == Success(docs) && docs != []
    requires generate(Prompt(Join("\n", Contents(docs)), query)) == Success(text)
    requires |Strip(text)| == 0 || |Strip(text)| > MAX_RESPONSE_LENGTH
    ensures QueryRag(query, settings, search, generate, elapsed, now)
         == ErrorRecord(query, settings, INVALID_RESPONSE, elapsed, now)
  {
    assert Answer(query, settings, search, generate) == Failure(INVALID_RESPONSE);
  }

  /** The search is asked for `settings.top_k` chunks and nothing else about it matters. */
  lemma OnlyTopKIsRetrieved(query: string, settings: Settings,
                            s1: (string, nat) -> Result<seq<Doc>, Exc>,
                            s2: (string, nat) -> Result<seq<Doc>, Exc>,
                            generate: string -> Result<string, Exc>,
                            elapsed: string, now: int)
    requires s1(query, settings.topK) == s2(query, settings.topK)
    ensures QueryRag(query, settings, s1, generate, elapsed, now) == QueryRag(query, settings, s2, generate, elapsed, now)
  {
  }

  /**
   * With the default settings the search is asked for two chunks, and the
   * record names the default model and version.
   */
  lemma DefaultsAskForTwo(query: string,
                          s1: (string, nat) -> Result<seq<Doc>, Exc>,
                          s2: (string, nat) -> Result<seq<Doc>, Exc>,
                          generate: string -> Result<string, Exc>,
                          elapsed: string, now: int)
    requires s1(query, 2) == s2(query, 2)
    ensures QueryRag(query, DEFAULTS, s1, generate, elapsed, now) == QueryRag(query, DEFAULTS, s2, generate, elapsed, now)
    ensures QueryRag(query, DEFAULTS, s1, generate, elapsed, now).modelo == "deepseek-r1:8b"
    ensures QueryRag(query, DEFAULTS, s1, generate, elapsed, now).versao == "1.0.0"
  {
    OnlyTopKIsRetrieved(query, DEFAULTS, s1, s2, generate, elapsed, now);
  }
}
