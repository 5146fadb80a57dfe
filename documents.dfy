/**
 * What the three `query_rag` variants share: a retrieved document chunk with
 * its optional `source` and `page` metadata, the exception a step can raise,
 * the settings they read, and the source and page listings built from the
 * retrieved chunks.
 */
module Documents {
  import opened Wrappers
  import opened Text
  import opened Ordering

  /** A retrieved chunk: its text and the `source` and `page` entries of its metadata, when present. */
  datatype Doc = Doc(content: string, source: Option<string>, page: Option<int>)

  /** A raised exception: `type(e).__name__` and `str(e)`. */
  datatype Exc = Exc(kind: string, message: string)

  /** The settings a query reads: model name, how many chunks to retrieve, version tag. */
  datatype Settings = Settings(modelName: string, topK: nat, appVersion: string)

  const NA: string := "N/A"

  /** `doc.metadata.get('source', 'N/A')`. */
  function SourceValue(d: Doc): string {
    d.source.GetOr(NA)
  }

  /** `str(doc.metadata.get('page', 'N/A'))`. */
  function PageText(d: Doc): string {
    match d.page
    case Some(p) => IntToString(p)
    case None => NA
  }

  /** A page passes the `str(page).isdigit()` filter exactly when it is present and not negative. */
  lemma PageTextIsDigits(d: Doc)
    ensures IsDigits(PageText(d)) <==> d.page.Some? && d.page.value >= 0
  {
    match d.page
    case Some(p) => IntToStringIsDigits(p);
    case None => assert !IsDigitChar(NA[0]);
  }

  /** `[doc.page_content for doc in docs]`. */
  function Contents(docs: seq<Doc>): (r: seq<string>)
    ensures |r| == |docs| && forall i :: 0 <= i < |docs| ==> r[i] == docs[i].content
  {
    seq(|docs|, i requires 0 <= i < |docs| => docs[i].content)
  }

  /** What one chunk adds to the `sources` set: its basename, unless its source is 'N/A'. */
  function SourceEntry(d: Doc): set<string> {
    if SourceValue(d) != NA then {Basename(SourceValue(d))} else {}
  }

  /** What one chunk adds to the `pages` set: `"p" + str(page)`, when that text is all digits. */
  function PageEntry(d: Doc): set<string> {
    if IsDigits(PageText(d)) then {"p" + PageText(d)} else {}
  }

  /** The union of `entry(d)` over the chunks `d` of `docs`, built front to back as the loops do. */
  function Union(docs: seq<Doc>, entry: Doc -> set<string>): set<string> {
    if docs == [] then {} else Union(docs[..|docs| - 1], entry) + entry(docs[|docs| - 1])
  }

  /** What a chunk contributes is in the union. */
  lemma {:induction false} EntryIsInUnion(docs: seq<Doc>, entry: Doc -> set<string>, i: nat, x: string)
    requires i < |docs| && x in entry(docs[i])
    ensures x in Union(docs, entry)
    decreases |docs|
  {
    var n := |docs| - 1;
    if i < n {
      assert docs[..n][i] == docs[i];
      EntryIsInUnion(docs[..n], entry, i, x);
    }
  }

  /** What no chunk contributes is not in the union. */
  lemma {:induction false} NotInUnion(docs: seq<Doc>, entry: Doc -> set<string>, x: string)
    requires forall i :: 0 <= i < |docs| ==> x !in entry(docs[i])
    ensures x !in Union(docs, entry)
    decreases |docs|
  {
    if docs != [] {
      var n := |docs| - 1;
      forall i | 0 <= i < n
        ensures x !in entry(docs[..n][i])
      {
        assert docs[..n][i] == docs[i];
      }
      NotInUnion(docs[..n], entry, x);
    }
  }

  /** The `sources` set of the metadata loop after the chunks `docs`. */
  function ListedSources(docs: seq<Doc>): set<string> {
    Union(docs, SourceEntry)
  }

  /** The `pages` set of the metadata loop after the chunks `docs`. */
  function ListedPages(docs: seq<Doc>): set<string> {
    Union(docs, PageEntry)
  }

  /** A basename is listed exactly when some chunk has a source other than 'N/A' with that basename. */
  lemma ListedSourcesIff(docs: seq<Doc>, x: string)
    ensures x in ListedSources(docs)
        <==> exists i :: 0 <= i < |docs| && SourceValue(docs[i]) != NA && Basename(SourceValue(docs[i])) == x
  {
    if exists i :: 0 <= i < |docs| && SourceValue(docs[i]) != NA && Basename(SourceValue(docs[i])) == x {
      var i :| 0 <= i < |docs| && SourceValue(docs[i]) != NA && Basename(SourceValue(docs[i])) == x;
      EntryIsInUnion(docs, SourceEntry, i, x);
    } else {
      NotInUnion(docs, SourceEntry, x);
    }
  }

  /** A label is listed exactly when some chunk's page text is all digits and `p` followed by it is the label. */
  lemma ListedPagesIff(docs: seq<Doc>, x: string)
    ensures x in ListedPages(docs)
        <==> exists i :: 0 <= i < |docs| && IsDigits(PageText(docs[i])) && "p" + PageText(docs[i]) == x
  {
    if exists i :: 0 <= i < |docs| && IsDigits(PageText(docs[i])) && "p" + PageText(docs[i]) == x {
      var i :| 0 <= i < |docs| && IsDigits(PageText(docs[i])) && "p" + PageText(docs[i]) == x;
      EntryIsInUnion(docs, PageEntry, i, x);
    } else {
      NotInUnion(docs, PageEntry, x);
    }
  }

  /** Every listed source is a basename, so none holds `/`. */
  lemma SourcesHoldNoSlash(docs: seq<Doc>)
    ensures forall x :: x in ListedSources(docs) ==> '/' !in x
  {
    forall x | x in ListedSources(docs)
      ensures '/' !in x
    {
      ListedSourcesIff(docs, x);
    }
  }

  /** Every listed page is a label: `p` followed by the digits of a page. */
  lemma ListedPagesAreLabels(docs: seq<Doc>)
    ensures forall x :: x in ListedPages(docs) ==> |x| > 1 && x[0] == 'p' && IsDigits(x[1..])
  {
    forall x | x in ListedPages(docs)
      ensures |x| > 1 && x[0] == 'p' && IsDigits(x[1..])
    {
      ListedPagesIff(docs, x);
      var i :| 0 <= i < |docs| && IsDigits(PageText(docs[i])) && "p" + PageText(docs[i]) == x;
      assert x[1..] == PageText(docs[i]);
    }
  }

  /** The listings after `i + 1` chunks, from those after `i` chunks: the loop's step. */
  lemma ListedStep(docs: seq<Doc>, i: nat)
    requires i < |docs|
    ensures ListedSources(docs[..i + 1]) == ListedSources(docs[..i]) + SourceEntry(docs[i])
    ensures ListedPages(docs[..i + 1]) == ListedPages(docs[..i]) + PageEntry(docs[i])
  {
    assert docs[..i + 1][..i] == docs[..i];
  }

  /** No source is listed exactly when every chunk's source is missing or 'N/A'. */
  lemma NoSourcesIff(docs: seq<Doc>)
    ensures ListedSources(docs) == {} <==> forall i :: 0 <= i < |docs| ==> SourceValue(docs[i]) == NA
  {
    if ListedSources(docs) != {} {
      var x :| x in ListedSources(docs);
      ListedSourcesIff(docs, x);
    }
    if exists i :: 0 <= i < |docs| && SourceValue(docs[i]) != NA {
      var i :| 0 <= i < |docs| && SourceValue(docs[i]) != NA;
      ListedSourcesIff(docs, Basename(SourceValue(docs[i])));
    }
  }

  /**
   * `"p" + str(p)` is listed exactly when some chunk has page `p` and `p` is
   * not negative: a missing or negative page is never listed.
   */
  lemma PageListedIff(docs: seq<Doc>, p: int)
    ensures "p" + IntToString(p) in ListedPages(docs)
        <==> p >= 0 && exists i :: 0 <= i < |docs| && docs[i].page == Some(p)
  {
    ListedPagesIff(docs, "p" + IntToString(p));
    if "p" + IntToString(p) in ListedPages(docs) {
      var i :| 0 <= i < |docs| && IsDigits(PageText(docs[i])) && "p" + PageText(docs[i]) == "p" + IntToString(p);
      var d := docs[i];
      assert PageText(d) == ("p" + PageText(d))[1..] == IntToString(p);
      PageTextIsDigits(d);
      IntToStringIsDigits(p);
      NatToStringInjective(d.page.value, p);
    }
    if p >= 0 && exists i :: 0 <= i < |docs| && docs[i].page == Some(p) {
      var i :| 0 <= i < |docs| && docs[i].page == Some(p);
      IntToStringIsDigits(p);
      assert PageText(docs[i]) == IntToString(p);
    }
  }

  /** No page is listed exactly when no chunk has a page that is present and not negative. */
  lemma NoPagesIff(docs: seq<Doc>)
    ensures ListedPages(docs) == {}
        <==> forall i :: 0 <= i < |docs| ==> docs[i].page.None? || docs[i].page.value < 0
  {
    if exists i :: 0 <= i < |docs| && docs[i].page.Some? && docs[i].page.value >= 0 {
      var i :| 0 <= i < |docs| && docs[i].page.Some? && docs[i].page.value >= 0;
      PageListedIff(docs, docs[i].page.value);
    } else if ListedPages(docs) != {} {
      var x :| x in ListedPages(docs);
      ListedPagesIff(docs, x);
      var i :| 0 <= i < |docs| && IsDigits(PageText(docs[i])) && "p" + PageText(docs[i]) == x;
      PageTextIsDigits(docs[i]);
    }
  }

  // ---------------------------------------------------------------------------
  // "|".join(sorted(s))
  // ---------------------------------------------------------------------------

  /** `"|".join(sorted(s))`. */
  function Listing(s: set<string>): string {
    Join("|", Sorted(s))
  }

  /** The empty set is listed as the empty string. */
  lemma ListingOfNothing()
    ensures Listing({}) == ""
  {
  }

  /** A character absent from every element (and other than `|`) is absent from the listing. */
  lemma ListingAvoids(s: set<string>, c: char)
    requires c != '|'
    requires forall x :: x in s ==> c !in x
    ensures c !in Listing(s)
  {
    var r := Sorted(s);
    forall i | 0 <= i < |r|
      ensures c !in r[i]
    {
      assert r[i] in s;
    }
    JoinAvoids("|", r, c);
  }

  /** A listing of elements without `/` is never 'N/A'. */
  lemma ListingIsNotNA(s: set<string>)
    requires forall x :: x in s ==> '/' !in x
    ensures Listing(s) != NA
  {
    ListingAvoids(s, '/');
    assert NA[1] == '/';
  }

  /** Page labels are `p` followed by digits, so they hold no `/`. */
  lemma PagesHoldNoSlash(docs: seq<Doc>)
    ensures forall x :: x in ListedPages(docs) ==> '/' !in x
  {
    ListedPagesAreLabels(docs);
    forall x, k | x in ListedPages(docs) && 0 <= k < |x|
      ensures x[k] != '/'
    {
      if k > 0 {
        assert x[k] == x[1..][k - 1];
      }
    }
  }

  /**
   * When no element holds `|`, splitting the listing on `|` gives back the
   * sorted elements: the listing is a faithful record of the set.
   */
  lemma ListingReadsBack(s: set<string>)
    requires s != {}
    requires forall x :: x in s ==> '|' !in x
    ensures Split(Listing(s), '|') == Sorted(s)
  {
    var r := Sorted(s);
    forall i | 0 <= i < |r|
      ensures '|' !in r[i]
    {
      assert r[i] in s;
    }
    assert |r| >= 1 by {
      var x :| x in s;
      assert x in r;
    }
    SplitJoin(r, '|');
  }
}
