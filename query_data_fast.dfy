/**
 * query_data_fast.py: `query_rag`, the variant built only from comprehensions.
 * It asks for two chunks, never checks that any came back, lists the full
 * source values and page texts ('N/A' for a missing one) sorted as strings,
 * and answers with the stripped model text. Any exception gives a record
 * with the same four keys.
 *
 * The similarity search and the model are parameters (`search`, `generate`).
 */
module QueryDataFast {
  import opened Wrappers
  import opened Text
  import opened Ordering
  import opened Documents

  /** `k=2` is written into the call. */
  const TOP_K: nat := 2

  /** The four-key record, success and error alike. */
  datatype Record = Record(pergunta: string, resposta: string, fontes: string, paginas: string)

  /** `{doc.metadata.get('source', 'N/A') for doc, _ in results}`: full paths, 'N/A' for a missing one. */
  function SourceValues(docs: seq<Doc>): set<string> {
    set d | d in docs :: SourceValue(d)
  }

  /** `{str(doc.metadata.get('page', 'N/A')) for doc, _ in results}`. */
  function PageTexts(docs: seq<Doc>): set<string> {
    set d | d in docs :: PageText(d)
  }

  const PROMPT_HEAD: string := "Responda baseado no contexto:\n"
  const PROMPT_MIDDLE: string :=
    "\n\nAnalise a sentença a seguir a respeito dos dashboards e relatórios do Cortex XSIAM."
  const PROMPT_TAIL: string := "\nResposta:"

  /** The prompt: the question follows the instruction with no space between them. */
  function Prompt(context: string, query: string): string {
    PROMPT_HEAD + context + PROMPT_MIDDLE + query + PROMPT_TAIL
  }

  /** The `try` block up to the answer: retrieval and generation; any of them can raise. */
  function Answer(query: string,
                  search: (string, nat) -> Result<seq<Doc>, Exc>,
                  generate: string -> Result<string, Exc>): Result<(seq<Doc>, string), Exc>
  {
    var docs :- search(query, TOP_K);
    var text :- generate(Prompt(Join("\n", Contents(docs)), query));
    Success((docs, Strip(text)))
  }

  /** `query_rag(query_text)`. */
  function QueryRag(query: string,
                    search: (string, nat) -> Result<seq<Doc>, Exc>,
                    generate: string -> Result<string, Exc>): (r: Record)
    ensures r.pergunta == query
  {
    match Answer(query, search, generate)
    case Success((docs, answer)) =>
      Record(query, answer, Listing(SourceValues(docs)), Listing(PageTexts(docs)))
    case Failure(e) => Record(query, "ERRO: " + e.message, NA, NA)
  }

  /** With both calls succeeding, the record holds the stripped answer and the two listings. */
  lemma SuccessRecord(query: string,
                      search: (string, nat) -> Result<seq<Doc>, Exc>,
                      generate: string -> Result<string, Exc>, docs: seq<Doc>, text: string)
    requires search(query, TOP_K) == Success(docs)
    requires generate(Prompt(Join("\n", Contents(docs)), query)) == Success(text)
    ensures QueryRag(query, search, generate)
         == Record(query, Strip(text), Listing(SourceValues(docs)), Listing(PageTexts(docs)))
    ensures IsStripped(QueryRag(query, search, generate).resposta)
  {
    var p := Prompt(Join("\n", Contents(docs)), query);
    assert generate(p) == Success(text);
  }

  /**
   * No empty-results check: an empty retrieval still asks the model (with an
   * empty context) and, when it answers, gives empty listings.
   */
  lemma EmptyRetrievalStillAsksTheModel(query: string,
                                        search: (string, nat) -> Result<seq<Doc>, Exc>,
                                        generate: string -> Result<string, Exc>, text: string)
    requires search(query, TOP_K) == Success([])
    requires generate(Prompt("", query)) == Success(text)
    ensures QueryRag(query, search, generate) == Record(query, Strip(text), "", "")
  {
    assert Join("\n", Contents([])) == "";
    SuccessRecord(query, search, generate, [], text);
  }

  /** Any exception gives `ERRO: <message>` and 'N/A' for both listings. */
  lemma FailureRecord(query: string,
                      search: (string, nat) -> Result<seq<Doc>, Exc>,
                      generate: string -> Result<string, Exc>)
    requires Answer(query, search, generate).Failure?
    ensures QueryRag(query, search, generate)
         == Record(query, "ERRO: " + Answer(query, search, generate).error.message, NA, NA)
  {
  }

  /**
   * Every chunk contributes its full source value, 'N/A' when it has none:
   * a value is listed exactly when some chunk carries it.
   */
  lemma SourceValueListedIff(docs: seq<Doc>, x: string)
    ensures x in Sorted(SourceValues(docs)) <==> exists i :: 0 <= i < |docs| && SourceValue(docs[i]) == x
  {
    if exists i :: 0 <= i < |docs| && SourceValue(docs[i]) == x {
      var i :| 0 <= i < |docs| && SourceValue(docs[i]) == x;
      assert SourceValue(docs[i]) in SourceValues(docs);
    }
  }

  /** A chunk with no source puts 'N/A' into `fontes`; a source with a directory keeps it. */
  lemma MissingSourceIsListedAsNA(docs: seq<Doc>, i: nat)
    requires i < |docs|
    ensures docs[i].source.None? ==> NA in Sorted(SourceValues(docs))
    ensures docs[i].source.Some? ==> docs[i].source.value in Sorted(SourceValues(docs))
  {
    SourceValueListedIff(docs, SourceValue(docs[i]));
  }

  /**
   * Every chunk contributes the text of its page, 'N/A' when it has none:
   * a text is listed exactly when some chunk's page text is that text.
   */
  lemma PageTextListedIff(docs: seq<Doc>, x: string)
    ensures x in Sorted(PageTexts(docs)) <==> exists i :: 0 <= i < |docs| && PageText(docs[i]) == x
  {
    if exists i :: 0 <= i < |docs| && PageText(docs[i]) == x {
      var i :| 0 <= i < |docs| && PageText(docs[i]) == x;
      assert PageText(docs[i]) in PageTexts(docs);
    }
  }

  /**
   * A chunk with no page puts 'N/A' into `paginas`; a present page is listed
   * as its decimal text, with no `p` and no filter, a negative one included.
   */
  lemma MissingPageIsListedAsNA(docs: seq<Doc>, i: nat)
    requires i < |docs|
    ensures docs[i].page.None? ==> NA in Sorted(PageTexts(docs))
    ensures docs[i].page.Some? ==> IntToString(docs[i].page.value) in Sorted(PageTexts(docs))
  {
    PageTextListedIff(docs, PageText(docs[i]));
  }

  /** When no chunk has a source, `fontes` is 'N/A', the same text as in the error record. */
  lemma NoSourcesListsNA(docs: seq<Doc>)
    requires docs != []
    requires forall i :: 0 <= i < |docs| ==> docs[i].source.None?
    ensures Listing(SourceValues(docs)) == NA
  {
    assert SourceValue(docs[0]) in SourceValues(docs);
    assert SourceValues(docs) == {NA};
    SortedIsTheSortedListing({NA}, [NA]);
  }

  /** Page texts are sorted as strings, not as numbers: page 10 is listed before page 9. */
  lemma PagesSortAsText(docs: seq<Doc>)
    requires docs == [Doc("a", None, Some(9)), Doc("b", None, Some(10))]
    ensures Listing(PageTexts(docs)) == "10|9"
  {
    var nine, ten := IntToString(9), IntToString(10);
    assert nine == "9";
    assert ten == NatToString(1) + [DigitChar(0)] == "10";
    assert PageText(docs[0]) == nine && PageText(docs[1]) == ten;
    assert forall d :: d in docs <==> d == docs[0] || d == docs[1];
    assert PageTexts(docs) == {nine, ten};
    assert Less(ten, nine);
    SortedIsTheSortedListing({nine, ten}, [ten, nine]);
    assert Join("|", [ten, nine]) == ten + "|" + nine;
  }
}
