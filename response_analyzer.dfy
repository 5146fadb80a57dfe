/**
 * core/response_analyzer.py: `ResponseAnalyzer.evaluate_response`, the
 * rule-based check of whether an answer affirms a requirement. The answer is
 * lower-cased, three positive and three negative whole-word patterns are
 * searched for, each counting at most once, and the verdict is "SIM" only on
 * a strict majority of positive hits.
 */
module ResponseAnalyzer {
  import opened Text

  // ---------------------------------------------------------------------------
  // Whole-word search: re.search(r"\b<word>\b", text)
  // ---------------------------------------------------------------------------

  /**
   * A character `\w` matches: ASCII letters, digits and `_`, and the
   * alphanumeric characters of Latin-1. Characters beyond U+00FF count as
   * non-word characters in this model.
   */
  predicate IsWordChar(c: char) {
    || ('a' <= c <= 'z') || ('A' <= c <= 'Z') || ('0' <= c <= '9') || c == '_'
    || c == '\U{AA}' || c == '\U{B2}' || c == '\U{B3}' || c == '\U{B5}'
    || c == '\U{B9}' || c == '\U{BA}' || ('\U{BC}' <= c <= '\U{BE}')
    || ('\U{C0}' <= c <= '\U{D6}') || ('\U{D8}' <= c <= '\U{F6}') || ('\U{F8}' <= c <= '\U{FF}')
  }

  /** `\b` at position `i` of `t`: a word character on exactly one side. */
  predicate Boundary(t: string, i: nat)
    requires i <= |t|
  {
    (i > 0 && IsWordChar(t[i - 1])) != (i < |t| && IsWordChar(t[i]))
  }

  /** The pattern `\b<w>\b` matches `t` starting at `i`. */
  predicate MatchesAt(t: string, w: string, i: nat) {
    i + |w| <= |t| && t[i..i + |w|] == w && Boundary(t, i) && Boundary(t, i + |w|)
  }

  /** The pattern `\b<w>\b` matches somewhere at or after `from`. */
  ghost predicate OccursFrom(t: string, w: string, from: nat) {
    exists i: nat :: from <= i && MatchesAt(t, w, i)
  }

  /** `re.search(r"\b<w>\b", t)` from position `from` on: is there a match? */
  function SearchFrom(t: string, w: string, from: nat): (found: bool)
    ensures found <==> OccursFrom(t, w, from)
    decreases |t| - from
  {
    if from + |w| > |t| then false
    else MatchesAt(t, w, from) || SearchFrom(t, w, from + 1)
  }

  /** `re.search(r"\b<w>\b", t) is not None`. */
  function Found(t: string, w: string): (found: bool)
    ensures found <==> OccursFrom(t, w, 0)
  {
    SearchFrom(t, w, 0)
  }

  // ---------------------------------------------------------------------------
  // Counting keywords
  // ---------------------------------------------------------------------------

  const POSITIVE: seq<string> := ["sim", "atende", "implementa"]
  const NEGATIVE: seq<string> := ["não", "não atende", "falta"]

  /** `sum(1 for k in keywords if re.search(k, t))`: how many keywords occur, each once. */
  function CountFound(t: string, keywords: seq<string>): (n: nat)
    ensures n <= |keywords|
  {
    if keywords == [] then 0
    else
      var last := |keywords| - 1;
      CountFound(t, keywords[..last]) + (if Found(t, keywords[last]) then 1 else 0)
  }

  /** The positions of the keywords that occur in `t`. */
  ghost function Hits(t: string, keywords: seq<string>): set<nat> {
    set i: nat | i < |keywords| && Found(t, keywords[i])
  }

  /** The keywords found in a longer list are those found in its prefix, and maybe the last one. */
  lemma HitsOfPrefix(t: string, keywords: seq<string>)
    requires keywords != []
    ensures var last := |keywords| - 1;
      Hits(t, keywords) == Hits(t, keywords[..last]) + (if Found(t, keywords[last]) then {last} else {})
  {
    var last := |keywords| - 1;
    forall i: nat | i < last
      ensures keywords[..last][i] == keywords[i]
    {
    }
  }

  /** The count is the number of distinct keywords found, however often each occurs. */
  lemma {:induction false} CountIsNumberOfHits(t: string, keywords: seq<string>)
    ensures CountFound(t, keywords) == |Hits(t, keywords)|
  {
    if keywords != [] {
      var last := |keywords| - 1;
      CountIsNumberOfHits(t, keywords[..last]);
      HitsOfPrefix(t, keywords);
      assert last !in Hits(t, keywords[..last]);
    }
  }

  /** Appending a keyword adds one to the count exactly when it occurs. */
  lemma CountAppend(t: string, keywords: seq<string>, w: string)
    ensures CountFound(t, keywords + [w]) == CountFound(t, keywords) + (if Found(t, w) then 1 else 0)
  {
    assert (keywords + [w])[..|keywords|] == keywords;
  }

  /** No keyword counts exactly when none of them occurs. */
  lemma {:induction false} CountZeroIff(t: string, keywords: seq<string>)
    ensures CountFound(t, keywords) == 0 <==> forall i :: 0 <= i < |keywords| ==> !Found(t, keywords[i])
  {
    if keywords != [] {
      var last := |keywords| - 1;
      CountZeroIff(t, keywords[..last]);
      assert forall i :: 0 <= i < last ==> keywords[..last][i] == keywords[i];
    }
  }

  /** Every keyword counts exactly when all of them occur. */
  lemma {:induction false} CountFullIff(t: string, keywords: seq<string>)
    ensures CountFound(t, keywords) == |keywords| <==> forall i :: 0 <= i < |keywords| ==> Found(t, keywords[i])
  {
    if keywords != [] {
      var last := |keywords| - 1;
      var front := keywords[..last];
      CountFullIff(t, front);
      if CountFound(t, keywords) == |keywords| {
        forall i | 0 <= i < |keywords|
          ensures Found(t, keywords[i])
        {
          if i < last {
            assert front[i] == keywords[i];
          }
        }
      }
      if forall i :: 0 <= i < |keywords| ==> Found(t, keywords[i]) {
        forall i | 0 <= i < last
          ensures Found(t, front[i])
        {
          assert front[i] == keywords[i];
        }
      }
    }
  }

  function PositiveCount(resposta: string): (n: nat)
    ensures n <= 3
  {
    CountFound(Lower(resposta), POSITIVE)
  }

  function NegativeCount(resposta: string): (n: nat)
    ensures n <= 3
  {
    CountFound(Lower(resposta), NEGATIVE)
  }

  // ---------------------------------------------------------------------------
  // evaluate_response
  // ---------------------------------------------------------------------------

  /** The dictionary `{"atende": ..., "correspondencia": ...}`. */
  datatype Evaluation = Evaluation(atende: string, correspondencia: string)

  const YES: string := "SIM"
  const NO: string := "NÃO"

  /** `ResponseAnalyzer.evaluate_response(pergunta, resposta)`; `pergunta` is not read. */
  function EvaluateResponse(pergunta: string, resposta: string): (r: Evaluation)
    ensures r.atende == YES || r.atende == NO
    ensures r.atende == YES <==> PositiveCount(resposta) > NegativeCount(resposta)
  {
    var p := PositiveCount(resposta);
    var n := NegativeCount(resposta);
    Evaluation(if p > n then YES else NO, NatToString(p) + "/" + NatToString(n))
  }

  /**
   * `correspondencia` reads back as two decimal numerals split by one `/`:
   * the positive count, then the negative count, each at most 3.
   */
  lemma RatioReadsBack(pergunta: string, resposta: string)
    ensures var parts := Split(EvaluateResponse(pergunta, resposta).correspondencia, '/');
      && |parts| == 2
      && IsDigits(parts[0]) && IsDigits(parts[1]) && |parts[0]| == 1 && |parts[1]| == 1
      && ParseNat(parts[0]) == PositiveCount(resposta) <= 3
      && ParseNat(parts[1]) == NegativeCount(resposta) <= 3
  {
    var p, n := PositiveCount(resposta), NegativeCount(resposta);
    var a, b := NatToString(p), NatToString(n);
    assert '/' !in a && '/' !in b by {
      assert forall i :: 0 <= i < |a| ==> IsDigitChar(a[i]);
      assert forall i :: 0 <= i < |b| ==> IsDigitChar(b[i]);
    }
    assert Join("/", [a, b]) == a + "/" + b;
    SplitJoin([a, b], '/');
    ParseNatToString(p);
    ParseNatToString(n);
  }

  /** A tie, `0/0` included, is a "NÃO". */
  lemma TieIsNo(pergunta: string, resposta: string)
    requires PositiveCount(resposta) == NegativeCount(resposta)
    ensures EvaluateResponse(pergunta, resposta).atende == NO
  {
  }

  /** Matching runs on the lower-cased answer, so the case of the answer does not matter. */
  lemma CaseInsensitive(pergunta: string, resposta: string)
    ensures EvaluateResponse(pergunta, Lower(resposta)) == EvaluateResponse(pergunta, resposta)
  {
    LowerIdempotent(resposta);
  }

  /** The question plays no part in the evaluation. */
  lemma QuestionIsIgnored(p1: string, p2: string, resposta: string)
    ensures EvaluateResponse(p1, resposta) == EvaluateResponse(p2, resposta)
  {
  }

  // ---------------------------------------------------------------------------
  // Whole-word behaviour on particular answers
  // ---------------------------------------------------------------------------

  /** A keyword whose first character is absent from the text does not occur. */
  lemma AbsentFirstChar(t: string, w: string)
    requires w != [] && w[0] !in t
    ensures !Found(t, w)
  {
    forall i: nat
      ensures !MatchesAt(t, w, i)
    {
      if i + |w| <= |t| {
        assert t[i..i + |w|][0] == t[i] != w[0];
      }
    }
  }

  /** A keyword longer than the text does not occur. */
  lemma TooLong(t: string, w: string)
    requires |t| < |w|
    ensures !Found(t, w)
  {
  }

  /** The empty answer has no hits: `0/0`, "NÃO". */
  lemma EmptyAnswer(pergunta: string)
    ensures EvaluateResponse(pergunta, "") == Evaluation(NO, "0/0")
  {
    var t := Lower("");
    assert t == "";
    forall k | 0 <= k < 3
      ensures !Found(t, POSITIVE[k]) && !Found(t, NEGATIVE[k])
    {
      TooLong(t, POSITIVE[k]);
      TooLong(t, NEGATIVE[k]);
    }
    CountZeroIff(t, POSITIVE);
    CountZeroIff(t, NEGATIVE);
    assert NatToString(0) == "0";
  }

  /**
   * A keyword that starts the text but is followed by a word character is not
   * a whole word there, and when its first character does not come back
   * later it occurs nowhere else.
   */
  lemma PrefixWordDoesNotMatch(t: string, w: string)
    requires w != [] && |w| < |t| && t[..|w|] == w
    requires IsWordChar(w[|w| - 1]) && IsWordChar(t[|w|])
    requires forall i :: 0 < i <= |t| - |w| ==> t[i] != w[0]
    ensures !Found(t, w)
  {
    forall i: nat
      ensures !MatchesAt(t, w, i)
    {
      if 0 < i && i + |w| <= |t| {
        assert t[i..i + |w|][0] == t[i] != w[0];
      } else if i == 0 {
        assert t[|w| - 1] == w[|w| - 1];
        assert !Boundary(t, |w|);
      }
    }
  }

  /** `sim` inside `simples` is not a whole word. */
  lemma SimplesIsNotSim(t: string)
    requires t == "simples"
    ensures !Found(t, "sim")
  {
    PrefixWordDoesNotMatch(t, "sim");
  }

  /** `falta` inside `faltante` is not a whole word. */
  lemma FaltanteIsNotFalta(t: string)
    requires t == "faltante"
    ensures !Found(t, "falta")
  {
    PrefixWordDoesNotMatch(t, "falta");
  }

  /** A keyword that fills the text from its first character and ends at a non-word character matches. */
  lemma LeadingWordMatches(t: string, w: string)
    requires |w| <= |t| && t[..|w|] == w && w != []
    requires IsWordChar(w[0]) && IsWordChar(w[|w| - 1])
    requires |w| == |t| || !IsWordChar(t[|w|])
    ensures Found(t, w)
  {
    assert MatchesAt(t, w, 0);
  }

  lemma LowerOfNaoAtende(t: string)
    requires t == "não atende"
    ensures Lower(t) == t
  {
    assert forall i :: 0 <= i < |t| ==> !IsUpper(t[i]);
    LowerKeeps(t);
  }

  /** "não atende" hits the negative `não` and `não atende`. */
  lemma NaoAtendeNegativeHits(t: string)
    requires t == "não atende"
    ensures Found(t, "não") && Found(t, "não atende") && !Found(t, "falta")
  {
    LeadingWordMatches(t, "não");
    LeadingWordMatches(t, "não atende");
    AbsentFirstChar(t, "falta");
  }

  /** "não atende" hits the positive `atende`, after the space. */
  lemma NaoAtendePositiveHits(t: string)
    requires t == "não atende"
    ensures Found(t, "atende") && !Found(t, "sim") && !Found(t, "implementa")
  {
    assert t[4..10] == "atende" && !IsWordChar(t[3]);
    assert MatchesAt(t, "atende", 4);
    AbsentFirstChar(t, "sim");
    AbsentFirstChar(t, "implementa");
  }

  function Hit(t: string, w: string): nat {
    if Found(t, w) then 1 else 0
  }

  /** Three keywords count one each for those that occur. */
  lemma CountOfThree(t: string, keywords: seq<string>)
    requires |keywords| == 3
    ensures CountFound(t, keywords) == Hit(t, keywords[0]) + Hit(t, keywords[1]) + Hit(t, keywords[2])
  {
    var a, b := keywords[..1], keywords[..2];
    assert a == [] + [keywords[0]] && b == a + [keywords[1]] && keywords == b + [keywords[2]];
    CountAppend(t, [], keywords[0]);
    CountAppend(t, a, keywords[1]);
    CountAppend(t, b, keywords[2]);
  }

  /** Only `atende` of the positive keywords occurs: a positive count of 1. */
  lemma OnlyAtendeIsPositive(t: string)
    requires !Found(t, "sim") && Found(t, "atende") && !Found(t, "implementa")
    ensures CountFound(t, POSITIVE) == 1
  {
    CountOfThree(t, POSITIVE);
  }

  /** `não` and `não atende` occur but not `falta`: a negative count of 2. */
  lemma NaoAndNaoAtendeAreNegative(t: string)
    requires Found(t, "não") && Found(t, "não atende") && !Found(t, "falta")
    ensures CountFound(t, NEGATIVE) == 2
  {
    CountOfThree(t, NEGATIVE);
  }

  lemma NaoAtendeCounts(resposta: string)
    requires resposta == "não atende"
    ensures PositiveCount(resposta) == 1 && NegativeCount(resposta) == 2
  {
    LowerOfNaoAtende(resposta);
    NaoAtendeNegativeHits(resposta);
    NaoAtendePositiveHits(resposta);
    OnlyAtendeIsPositive(Lower(resposta));
    NaoAndNaoAtendeAreNegative(Lower(resposta));
  }

  /** So "não atende" scores `1/2` and is a "NÃO". */
  lemma NaoAtendeIsNo(pergunta: string, resposta: string)
    requires resposta == "não atende"
    ensures EvaluateResponse(pergunta, resposta) == Evaluation(NO, "1/2")
  {
    NaoAtendeCounts(resposta);
    assert NatToString(1) + "/" + NatToString(2) == "1/2";
  }
}
