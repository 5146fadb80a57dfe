/**
 * core/rag_service.py: `query_rag`, the variant that also returns the
 * excerpts it showed the model. One pass over the retrieved chunks collects
 * the source file names, the page labels and a truncated excerpt of each
 * chunk; the excerpts are numbered into the prompt's context; the model's
 * answer is stripped and cleaned of reasoning blocks. Any exception becomes
 * a record of the same nine keys.
 *
 * The similarity search and the model are parameters (`search`, `generate`);
 * the elapsed-time text and the timestamp are parameters too.
 */
module RagService {
  import opened Wrappers
  import opened Text
  import opened Utils
  import opened Documents
  import opened Models

  /** The defaults of core/config.py (`top_k` is 3 here). */
  const CONFIG_DEFAULTS: Settings := Settings("deepseek-r1:8b", 3, "1.0.0")

  // ---------------------------------------------------------------------------
  // Excerpts and the numbered context
  // ---------------------------------------------------------------------------

  const EXCERPT_LIMIT: nat := 1000
  const ELLIPSIS: string := "..."

  /** `content[:1000] + ("..." if len(content) > 1000 else "")`. */
  function Excerpt(content: string): (r: string)
    ensures |content| <= EXCERPT_LIMIT ==> r == content
    ensures |content| > EXCERPT_LIMIT ==> |r| == EXCERPT_LIMIT + |ELLIPSIS|
    ensures |content| > EXCERPT_LIMIT ==> r[..EXCERPT_LIMIT] == content[..EXCERPT_LIMIT] && r[EXCERPT_LIMIT..] == ELLIPSIS
  {
    if |content| > EXCERPT_LIMIT then content[..EXCERPT_LIMIT] + ELLIPSIS else content
  }

  /** An excerpt is never longer than 1003 characters and always starts like its content. */
  lemma ExcerptIsBoundedPrefix(content: string)
    ensures |Excerpt(content)| <= EXCERPT_LIMIT + |ELLIPSIS|
    ensures var n := if |content| < EXCERPT_LIMIT then |content| else EXCERPT_LIMIT;
      Excerpt(content)[..n] == content[..n]
  {
  }

  /** The `trechos` list: one excerpt per retrieved chunk, in retrieval order. */
  function Excerpts(docs: seq<Doc>): (r: seq<string>)
    ensures |r| == |docs|
    ensures forall i :: 0 <= i < |docs| ==> r[i] == Excerpt(docs[i].content)
  {
    if docs == [] then [] else Excerpts(docs[..|docs| - 1]) + [Excerpt(docs[|docs| - 1].content)]
  }

  const TRECHO: string := "Trecho "

  /** The label and number put before the excerpt at position `i`: `Trecho {i+1}:\n`. */
  function Heading(i: nat): string {
    TRECHO + NatToString(i + 1) + ":\n"
  }

  /** `[f"Trecho {i+1}:\n{trecho}" for i, trecho in enumerate(trechos)]`. */
  function Numbered(trechos: seq<string>): (r: seq<string>)
    ensures |r| == |trechos|
    ensures forall i :: 0 <= i < |trechos| ==> r[i] == Heading(i) + trechos[i]
  {
    seq(|trechos|, i requires 0 <= i < |trechos| => Heading(i) + trechos[i])
  }

  /** The context: the numbered excerpts separated by blank lines. */
  function Context(trechos: seq<string>): string {
    Join("\n\n", Numbered(trechos))
  }

  /** Entry `i` of the context carries the number `i + 1`, read back in decimal, then its excerpt. */
  lemma NumberedEntry(trechos: seq<string>, i: nat)
    requires i < |trechos|
    ensures var entry := Numbered(trechos)[i];
      var digits := NatToString(i + 1);
      && entry[..|TRECHO|] == TRECHO
      && IsDigits(entry[|TRECHO|..|TRECHO| + |digits|])
      && ParseNat(entry[|TRECHO|..|TRECHO| + |digits|]) == i + 1
      && entry[|TRECHO| + |digits| + 2..] == trechos[i]
  {
    var digits := NatToString(i + 1);
    var entry := Numbered(trechos)[i];
    assert entry == TRECHO + digits + ":\n" + trechos[i];
    assert entry[|TRECHO|..|TRECHO| + |digits|] == digits;
    ParseNatToString(i + 1);
  }

  const PROMPT_HEAD: string :=
    "Você é especialista na solução Cortex XSIAM da Palo Alto Networks. "
    + "Analise a sentença a seguir de forma crítica e responda com clareza e objetividade, "
    + "usando o contexto fornecido quando relevante:\n\n"
    + "Contexto:\n"
  const PROMPT_MIDDLE: string := "\n\n(Pergunta/Afirmação): "
  const PROMPT_TAIL: string := "\nResposta:"

  /** The prompt sent to the model. */
  function Prompt(context: string, query: string): string {
    PROMPT_HEAD + context + PROMPT_MIDDLE + query + PROMPT_TAIL
  }

  // ---------------------------------------------------------------------------
  // query_rag
  // ---------------------------------------------------------------------------

  const NO_DOCUMENTS: Exc := Exc("ValueError", "Nenhum documento encontrado")
  const NO_TIME: string := "0.00s"

  /**
   * The `try` block up to the answer: retrieval, the empty-results check
   * and generation. Any of them can raise; otherwise the chunks and the
   * stripped, cleaned answer.
   */
  function Answer(query: string, settings: Settings,
                  search: (string, nat) -> Result<seq<Doc>, Exc>,
                  generate: string -> Result<string, Exc>): Result<(seq<Doc>, string), Exc>
  {
    var docs :- search(query, settings.topK);
    if docs == [] then Failure(NO_DOCUMENTS)
    else
      var text :- generate(Prompt(Context(Excerpts(docs)), query));
      Success((docs, CleanAiResponse(Strip(text))))
  }

  /** The `except` branch: `ERRO: <message>`, 'N/A' for the listings and excerpts, no time taken. */
  function ErrorResponse(query: string, settings: Settings, e: Exc, now: int): RagResponse {
    RagResponse(query, "ERRO: " + e.message, NA, NA, NA,
                settings.modelName, NO_TIME, now, settings.appVersion)
  }

  /** The success record for the retrieved chunks and the cleaned answer. */
  function SuccessResponse(query: string, settings: Settings, docs: seq<Doc>, cleaned: string,
                           elapsed: string, now: int): RagResponse {
    RagResponse(query, cleaned, Listing(ListedSources(docs)), Listing(ListedPages(docs)),
                Join("|---|", Excerpts(docs)), settings.modelName, elapsed, now, settings.appVersion)
  }

  /** What `query_rag(query_text)` returns. */
  function Respond(query: string, settings: Settings,
                   search: (string, nat) -> Result<seq<Doc>, Exc>,
                   generate: string -> Result<string, Exc>,
                   elapsed: string, now: int): RagResponse
  {
    match Answer(query, settings, search, generate)
    case Success((docs, cleaned)) => SuccessResponse(query, settings, docs, cleaned, elapsed, now)
    case Failure(e) => ErrorResponse(query, settings, e, now)
  }

  /** Excerpting one more chunk appends its excerpt. */
  lemma ExcerptsStep(docs: seq<Doc>, i: nat)
    requires i < |docs|
    ensures Excerpts(docs[..i + 1]) == Excerpts(docs[..i]) + [Excerpt(docs[i].content)]
  {
    assert docs[..i + 1][..i] == docs[..i];
  }

  /** The loop of `query_rag`: the source and page sets and the excerpt list. */
  method Gather(docs: seq<Doc>) returns (sources: set<string>, pages: set<string>, trechos: seq<string>)
    ensures sources == ListedSources(docs) && pages == ListedPages(docs) && trechos == Excerpts(docs)
  {
    sources, pages, trechos := {}, {}, [];
    for i := 0 to |docs|
      invariant sources == ListedSources(docs[..i])
      invariant pages == ListedPages(docs[..i])
      invariant trechos == Excerpts(docs[..i])
    {
      var d := docs[i];
      var source := SourceValue(d);
      if source != NA {
        sources := sources + {Basename(source)};
      }
      var page := PageText(d);
      if IsDigits(page) {
        pages := pages + {"p" + page};
      }
      ListedStep(docs, i);
      assert sources == ListedSources(docs[..i + 1]);
      assert pages == ListedPages(docs[..i + 1]);
      trechos := trechos + [Excerpt(d.content)];
      ExcerptsStep(docs, i);
    }
    assert docs[..|docs|] == docs;
  }

  /** `query_rag(query_text)`: retrieval, the loop, the prompt, the answer and the record. */
  method QueryRag(query: string, settings: Settings,
                  search: (string, nat) -> Result<seq<Doc>, Exc>,
                  generate: string -> Result<string, Exc>,
                  elapsed: string, now: int) returns (r: RagResponse)
    ensures r == Respond(query, settings, search, generate, elapsed, now)
  {
    var found := search(query, settings.topK);
    if found.Failure? {
      return ErrorResponse(query, settings, found.error, now);
    }
    var docs := found.value;
    if docs == [] {
      return ErrorResponse(query, settings, NO_DOCUMENTS, now);
    }
    var sources, pages, trechos := Gather(docs);
    var context := Context(trechos);
    var generated := generate(Prompt(context, query));
    if generated.Failure? {
      return ErrorResponse(query, settings, generated.error, now);
    }
    var raw := Strip(generated.value);
    var cleaned := CleanAiResponse(raw);
    r := RagResponse(query, cleaned, Listing(sources), Listing(pages), Join("|---|", trechos),
                     settings.modelName, elapsed, now, settings.appVersion);
  }

  // ---------------------------------------------------------------------------
  // What the records hold
  // ---------------------------------------------------------------------------

  /** With chunks retrieved and an answer generated, nothing raises. */
  lemma AnswerSucceeds(query: string, settings: Settings,
                       search: (string, nat) -> Result<seq<Doc>, Exc>,
                       generate: string -> Result<string, Exc>, docs: seq<Doc>, text: string)
    requires search(query, settings.topK) == Success(docs) && docs != []
    requires generate(Prompt(Context(Excerpts(docs)), query)) == Success(text)
    ensures Answer(query, settings, search, generate) == Success((docs, CleanAiResponse(Strip(text))))
  {
    var found := search(query, settings.topK);
    assert found.Success? && found.value == docs;
    var p := Prompt(Context(Excerpts(docs)), query);
    assert generate(p) == Success(text);
  }

  /**
   * With chunks retrieved and an answer generated, the record holds the
   * answer stripped and cleaned of reasoning blocks (so no longer than the
   * model's text and without whitespace at its ends), the listings, and one
   * excerpt per chunk.
   */
  lemma SuccessRecord(query: string, settings: Settings,
                      search: (string, nat) -> Result<seq<Doc>, Exc>,
                      generate: string -> Result<string, Exc>,
                      elapsed: string, now: int, docs: seq<Doc>, text: string)
    requires search(query, settings.topK) == Success(docs) && docs != []
    requires generate(Prompt(Context(Excerpts(docs)), query)) == Success(text)
    ensures Respond(query, settings, search, generate, elapsed, now)
         == SuccessResponse(query, settings, docs, CleanAiResponse(Strip(text)), elapsed, now)
    ensures IsStripped(CleanAiResponse(Strip(text))) && |CleanAiResponse(Strip(text))| <= |text|
  {
    AnswerSucceeds(query, settings, search, generate, docs, text);
  }

  /**
   * In a success record the listings are "" when nothing is listed, and
   * never 'N/A' (the error record's value).
   */
  lemma SuccessListings(query: string, settings: Settings, docs: seq<Doc>, cleaned: string,
                        elapsed: string, now: int)
    ensures var r := SuccessResponse(query, settings, docs, cleaned, elapsed, now);
      && (ListedSources(docs) == {} ==> r.fontes == "")
      && (ListedPages(docs) == {} ==> r.paginas == "")
      && r.fontes != NA && r.paginas != NA
  {
    SourcesHoldNoSlash(docs);
    ListingIsNotNA(ListedSources(docs));
    PagesHoldNoSlash(docs);
    ListingIsNotNA(ListedPages(docs));
  }

  /** An empty retrieval gives the error record before the model is asked anything. */
  lemma EmptyRetrievalIsErrorRecord(query: string, settings: Settings,
                                    search: (string, nat) -> Result<seq<Doc>, Exc>,
                                    g1: string -> Result<string, Exc>, g2: string -> Result<string, Exc>,
                                    elapsed: string, now: int)
    requires search(query, settings.topK) == Success([])
    ensures Respond(query, settings, search, g1, elapsed, now) == Respond(query, settings, search, g2, elapsed, now)
    ensures Respond(query, settings, search, g1, elapsed, now) == ErrorResponse(query, settings, NO_DOCUMENTS, now)
  {
  }

  /**
   * Whatever step fails, the record has `ERRO: <message>`, 'N/A' for the
   * listings and excerpts and `0.00s` for the time, and keeps the query,
   * model and version.
   */
  lemma FailureRecord(query: string, settings: Settings,
                      search: (string, nat) -> Result<seq<Doc>, Exc>,
                      generate: string -> Result<string, Exc>,
                      elapsed: string, now: int)
    requires Answer(query, settings, search, generate).Failure?
    ensures var r := Respond(query, settings, search, generate, elapsed, now);
      var e := Answer(query, settings, search, generate).error;
      && r.resposta == "ERRO: " + e.message
      && r.fontes == NA && r.paginas == NA && r.trechos == NA
      && r.tempoResposta == NO_TIME
      && r.pergunta == query && r.modelo == settings.modelName && r.versao == settings.appVersion
  {
  }

  /** The search is asked for `settings.top_k` chunks and nothing else about it matters. */
  lemma OnlyTopKIsRetrieved(query: string, settings: Settings,
                            s1: (string, nat) -> Result<seq<Doc>, Exc>,
                            s2: (string, nat) -> Result<seq<Doc>, Exc>,
                            generate: string -> Result<string, Exc>,
                            elapsed: string, now: int)
    requires s1(query, settings.topK) == s2(query, settings.topK)
    ensures Respond(query, settings, s1, generate, elapsed, now)
         == Respond(query, settings, s2, generate, elapsed, now)
  {
    assert Answer(query, settings, s1, generate) == Answer(query, settings, s2, generate);
  }

  /**
   * With the defaults of core/config.py the search is asked for three chunks:
   * two searches that agree there give the same record, which names the
   * default model and version.
   */
  lemma DefaultsAskForThree(query: string,
                            s1: (string, nat) -> Result<seq<Doc>, Exc>,
                            s2: (string, nat) -> Result<seq<Doc>, Exc>,
                            generate: string -> Result<string, Exc>,
                            elapsed: string, now: int)
    requires s1(query, 3) == s2(query, 3)
    ensures Respond(query, CONFIG_DEFAULTS, s1, generate, elapsed, now)
         == Respond(query, CONFIG_DEFAULTS, s2, generate, elapsed, now)
    ensures Respond(query, CONFIG_DEFAULTS, s1, generate, elapsed, now).modelo == "deepseek-r1:8b"
    ensures Respond(query, CONFIG_DEFAULTS, s1, generate, elapsed, now).versao == "1.0.0"
  {
    OnlyTopKIsRetrieved(query, CONFIG_DEFAULTS, s1, s2, generate, elapsed, now);
    var a := Answer(query, CONFIG_DEFAULTS, s1, generate);
    if a.Success? {
      var (docs, cleaned) := a.value;
      assert Respond(query, CONFIG_DEFAULTS, s1, generate, elapsed, now)
          == SuccessResponse(query, CONFIG_DEFAULTS, docs, cleaned, elapsed, now);
    } else {
      assert Respond(query, CONFIG_DEFAULTS, s1, generate, elapsed, now)
          == ErrorResponse(query, CONFIG_DEFAULTS, a.error, now);
    }
  }

  /** A failing model call is one such failure: the error record carries its message. */
  lemma ModelFailureIsErrorRecord(query: string, settings: Settings,
                                  search: (string, nat) -> Result<seq<Doc>, Exc>,
                                  generate: string -> Result<string, Exc>,
                                  elapsed: string, now: int, docs: seq<Doc>, e: Exc)
    requires search(query, settings.topK) == Success(docs) && docs != []
    requires generate(Prompt(Context(Excerpts(docs)), query)) == Failure(e)
    ensures Respond(query, settings, search, generate, elapsed, now) == ErrorResponse(query, settings, e, now)
  {
  }
}
