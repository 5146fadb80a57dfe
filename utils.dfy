/**
 * core/utils.py: `clean_ai_response` removes the model's `<think>…</think>`
 * reasoning blocks from an answer and strips the whitespace that is left.
 */
module Utils {
  import opened Wrappers
  import opened Text

  const OPEN: string := "<think>"
  const CLOSE: string := "</think>"

  /** `w` occurs in `s` starting at index `i`. */
  predicate OccursAt(s: string, w: string, i: nat) {
    i + |w| <= |s| && s[i..i + |w|] == w
  }

  /** `s.find(w, from)`: the first index at or after `from` where `w` occurs. */
  function FindFrom(s: string, w: string, from: nat): (r: Option<nat>)
    ensures r.Some? ==> from <= r.value && OccursAt(s, w, r.value)
    ensures forall k :: from <= k && (r.None? || k < r.value) ==> !OccursAt(s, w, k)
    decreases |s| - from
  {
    if from + |w| > |s| then None
    else if OccursAt(s, w, from) then Some(from)
    else FindFrom(s, w, from + 1)
  }

  /**
   * Where the lazy pattern `<think>.*?</think>` (with `.` matching newlines)
   * ends when tried at the start of `s`: just after the first `</think>` that
   * begins after the opening tag, or None when the pattern does not match here.
   */
  function BlockEnd(s: string): (e: Option<nat>)
    ensures e.Some? ==> OccursAt(s, OPEN, 0) && |OPEN| + |CLOSE| <= e.value <= |s|
    ensures e.Some? ==> OccursAt(s, CLOSE, e.value - |CLOSE|)
  {
    if !OccursAt(s, OPEN, 0) then None
    else match FindFrom(s, CLOSE, |OPEN|)
      case Some(j) => Some(j + |CLOSE|)
      case None => None
  }

  /**
   * `re.sub(r'<think>.*?</think>', '', s, flags=re.DOTALL)`: scanning from the
   * left, a match starting here is dropped and the scan resumes after it;
   * otherwise the character is kept and the scan moves on by one.
   */
  function RemoveThinkBlocks(s: string): (r: string)
    ensures |r| <= |s|
    decreases |s|
  {
    if s == [] then []
    else match BlockEnd(s)
      case Some(e) => RemoveThinkBlocks(s[e..])
      case None => [s[0]] + RemoveThinkBlocks(s[1..])
  }

  /** `clean_ai_response(response)`. */
  function CleanAiResponse(response: string): (r: string)
    ensures |r| <= |response|
    ensures IsStripped(r)
  {
    Strip(RemoveThinkBlocks(response))
  }

  // ---------------------------------------------------------------------------
  // What the substitution does
  // ---------------------------------------------------------------------------

  lemma OccursInTail(s: string, w: string)
    requires s != []
    ensures forall k: nat :: OccursAt(s[1..], w, k) ==> OccursAt(s, w, k + 1)
  {
    forall k: nat | OccursAt(s[1..], w, k)
      ensures OccursAt(s, w, k + 1)
    {
      assert s[1..][k..k + |w|] == s[k + 1..k + 1 + |w|];
    }
  }

  /** Text without `<` holds neither tag. */
  lemma NoTagWithoutLess(s: string)
    requires '<' !in s
    ensures forall k: nat :: !OccursAt(s, OPEN, k) && !OccursAt(s, CLOSE, k)
  {
    forall k: nat | k < |s|
      ensures !OccursAt(s, OPEN, k) && !OccursAt(s, CLOSE, k)
    {
      assert s[k] != '<';
      assert OPEN[0] == '<' && CLOSE[0] == '<';
      assert k + |OPEN| <= |s| ==> s[k..k + |OPEN|][0] == s[k];
      assert k + |CLOSE| <= |s| ==> s[k..k + |CLOSE|][0] == s[k];
    }
  }

  /** Without any `</think>` nothing matches, so an unclosed `<think>` stays as text. */
  lemma {:induction false} UnclosedIsKept(s: string)
    requires forall k: nat :: !OccursAt(s, CLOSE, k)
    ensures RemoveThinkBlocks(s) == s
    decreases |s|
  {
    if s != [] {
      assert BlockEnd(s).None?;
      OccursInTail(s, CLOSE);
      UnclosedIsKept(s[1..]);
    }
  }

  /** If no `<think>` starts inside `p`, none starts inside its tail either. */
  lemma NoOpeningInTail(p: string, t: string)
    requires p != [] && forall k: nat | k < |p| :: !OccursAt(p + t, OPEN, k)
    ensures forall k: nat | k < |p| - 1 :: !OccursAt(p[1..] + t, OPEN, k)
  {
    var q := p + t;
    assert q[1..] == p[1..] + t;
    OccursInTail(q, OPEN);
  }

  /** Where no `<think>` starts, the first character is kept and the scan moves on. */
  lemma KeptFirst(s: string)
    requires s != [] && !OccursAt(s, OPEN, 0)
    ensures RemoveThinkBlocks(s) == [s[0]] + RemoveThinkBlocks(s[1..])
  {
    assert BlockEnd(s).None?;
  }

  /** Without any `<think>` nothing matches. */
  lemma {:induction false} NoOpeningIsKept(s: string)
    requires forall k: nat :: !OccursAt(s, OPEN, k)
    ensures RemoveThinkBlocks(s) == s
    decreases |s|
  {
    if s != [] {
      assert BlockEnd(s).None?;
      OccursInTail(s, OPEN);
      NoOpeningIsKept(s[1..]);
    }
  }

  /** No `<think>` starts inside `p`, so `p` is copied and the scan goes on after it. */
  lemma {:induction false} PlainPrefixIsKept(p: string, t: string)
    requires forall k: nat | k < |p| :: !OccursAt(p + t, OPEN, k)
    ensures RemoveThinkBlocks(p + t) == p + RemoveThinkBlocks(t)
  {
    if p != [] {
      var q := p + t;
      assert !OccursAt(q, OPEN, 0);
      KeptFirst(q);
      assert q[1..] == p[1..] + t;
      NoOpeningInTail(p, t);
      PlainPrefixIsKept(p[1..], t);
      assert q[0] == p[0];
      assert [p[0]] + (p[1..] + RemoveThinkBlocks(t)) == p + RemoveThinkBlocks(t);
    } else {
      assert p + t == t;
    }
  }

  /** No `<think>` starts inside text without `<`, whatever follows it. */
  lemma NoOpeningInLessFree(p: string, t: string)
    requires '<' !in p
    ensures forall k: nat | k < |p| :: !OccursAt(p + t, OPEN, k)
  {
    forall k: nat | k < |p|
      ensures !OccursAt(p + t, OPEN, k)
    {
      assert (p + t)[k] == p[k];
    }
  }

  /** `</think>` has no `<` after its first character, so it cannot overlap a later copy of itself. */
  lemma CloseNotOverlapping(s: string, c: nat, k: nat)
    requires OccursAt(s, CLOSE, c)
    requires k < c < k + |CLOSE|
    ensures !OccursAt(s, CLOSE, k)
  {
    assert s[c] == '<';
    assert forall i :: 1 <= i < |CLOSE| ==> CLOSE[i] != '<';
  }

  /**
   * A block at the start is removed up to the FIRST `</think>` after the
   * opening tag (the lazy `.*?`), whatever its body holds, newlines included.
   */
  lemma LeadingBlockIsRemoved(body: string, t: string)
    requires forall k: nat :: !OccursAt(body, CLOSE, k)
    ensures RemoveThinkBlocks(OPEN + body + CLOSE + t) == RemoveThinkBlocks(t)
  {
    var s := OPEN + body + CLOSE + t;
    var c := |OPEN| + |body|;
    assert s[..|OPEN|] == OPEN;
    assert s[c..c + |CLOSE|] == CLOSE;
    assert OccursAt(s, CLOSE, c);
    forall k: nat | |OPEN| <= k < c
      ensures !OccursAt(s, CLOSE, k)
    {
      if k + |CLOSE| <= c {
        assert s[k..k + |CLOSE|] == body[k - |OPEN|..k - |OPEN| + |CLOSE|];
        assert !OccursAt(body, CLOSE, k - |OPEN|);
      } else {
        CloseNotOverlapping(s, c, k);
      }
    }
    assert FindFrom(s, CLOSE, |OPEN|) == Some(c);
    assert s[c + |CLOSE|..] == t;
  }

  /**
   * The first block is cut out of the text around it, tags included: when no
   * `<think>` starts before it, the text before it is kept and the scan goes
   * on after its first `</think>`.
   */
  lemma BlockIsRemoved(before: string, body: string, after: string)
    requires forall k: nat | k < |before| :: !OccursAt(before + OPEN + body + CLOSE + after, OPEN, k)
    requires forall k: nat :: !OccursAt(body, CLOSE, k)
    ensures RemoveThinkBlocks(before + OPEN + body + CLOSE + after)
         == before + RemoveThinkBlocks(after)
  {
    assert before + OPEN + body + CLOSE + after == before + (OPEN + body + CLOSE + after);
    PlainPrefixIsKept(before, OPEN + body + CLOSE + after);
    LeadingBlockIsRemoved(body, after);
  }

  // ---------------------------------------------------------------------------
  // What clean_ai_response promises
  // ---------------------------------------------------------------------------

  /** An answer with no `<think>` is only stripped. */
  lemma CleanWithoutThinkIsStrip(response: string)
    requires forall k: nat :: !OccursAt(response, OPEN, k)
    ensures CleanAiResponse(response) == Strip(response)
  {
    NoOpeningIsKept(response);
  }

  /** An answer with no `</think>` is only stripped: an unmatched `<think>` stays. */
  lemma CleanUnclosedIsStrip(response: string)
    requires forall k: nat :: !OccursAt(response, CLOSE, k)
    ensures CleanAiResponse(response) == Strip(response)
  {
    UnclosedIsKept(response);
  }

  /**
   * An answer with one block, no `<think>` starting before it and none after
   * it, cleans to the text on its two sides joined and then stripped.
   */
  lemma CleanAroundBlock(before: string, body: string, after: string)
    requires forall k: nat | k < |before| :: !OccursAt(before + OPEN + body + CLOSE + after, OPEN, k)
    requires forall k: nat :: !OccursAt(body, CLOSE, k)
    requires forall k: nat :: !OccursAt(after, OPEN, k)
    ensures CleanAiResponse(before + OPEN + body + CLOSE + after) == Strip(before + after)
  {
    BlockIsRemoved(before, body, after);
    NoOpeningIsKept(after);
  }

  /** Both spaces around a removed block stay; only the ends are stripped. */
  lemma CleanKeepsInnerSpaces(response: string)
    requires response == "before <think>secret</think> after"
    ensures CleanAiResponse(response) == "before  after"
  {
    InnerBlockIsRemoved(response);
    StripOfJoinedHalves("before " + " after");
  }

  /** The substitution step of the example above: only the block goes. */
  lemma InnerBlockIsRemoved(response: string)
    requires response == "before <think>secret</think> after"
    ensures RemoveThinkBlocks(response) == "before " + " after"
  {
    var before, body, after := "before ", "secret", " after";
    assert response == before + OPEN + body + CLOSE + after;
    assert '<' !in before && '<' !in body && '<' !in after;
    LessFreeBlockIsRemoved(before, body, after);
  }

  /** One block between text without `<` is removed and the text around it kept. */
  lemma LessFreeBlockIsRemoved(before: string, body: string, after: string)
    requires '<' !in before && '<' !in body && '<' !in after
    ensures RemoveThinkBlocks(before + OPEN + body + CLOSE + after) == before + after
  {
    NoOpeningInLessFree(before, OPEN + body + CLOSE + after);
    assert before + (OPEN + body + CLOSE + after) == before + OPEN + body + CLOSE + after;
    NoTagWithoutLess(body);
    NoTagWithoutLess(after);
    BlockIsRemoved(before, body, after);
    NoOpeningIsKept(after);
  }

  /** A stray `<` before a block does not stop its removal. */
  lemma CleanAfterStrayLess(response: string)
    requires response == "a < b <think>x</think> c"
    ensures CleanAiResponse(response) == "a < b  c"
  {
    var before, body, after := "a < b ", "x", " c";
    assert response == before + OPEN + body + CLOSE + after;
    StrayLessStartsNoOpening(before, OPEN + body + CLOSE + after);
    assert before + (OPEN + body + CLOSE + after) == before + OPEN + body + CLOSE + after;
    NoTagWithoutLess(body);
    NoTagWithoutLess(after);
    CleanAroundBlock(before, body, after);
    StripOfStrayLess(before + after);
  }

  lemma StrayLessStartsNoOpening(p: string, t: string)
    requires p == "a < b "
    ensures forall k: nat | k < |p| :: !OccursAt(p + t, OPEN, k)
  {
    assert |p| == 6 && p[2] == '<' && p[3] == ' ';
    forall k: nat | k < |p|
      ensures !OccursAt(p + t, OPEN, k)
    {
      if k + |OPEN| <= |p + t| {
        var s := (p + t)[k..k + |OPEN|];
        assert s[0] == p[k] && s[1] == (p + t)[k + 1];
        if k == 2 {
          assert s[1] == p[3] != OPEN[1];
        } else {
          assert p[k] != '<' == OPEN[0];
        }
      }
    }
  }

  lemma StripOfStrayLess(r: string)
    requires r == "a < b " + " c"
    ensures Strip(r) == "a < b  c"
  {
    assert r == "a < b  c";
    StripKeepsStripped(r);
  }

  lemma StripOfJoinedHalves(r: string)
    requires r == "before " + " after"
    ensures Strip(r) == "before  after"
  {
    assert r == "before  after";
    StripKeepsStripped(r);
  }

  /** Two blocks with text between them where no `<think>` starts leave only that text. */
  lemma TwoBlocksLeaveTheMiddle(a: string, keep: string, b: string)
    requires forall k: nat :: !OccursAt(a, CLOSE, k)
    requires forall k: nat :: !OccursAt(b, CLOSE, k)
    requires forall k: nat | k < |keep| :: !OccursAt(keep + OPEN + b + CLOSE, OPEN, k)
    ensures RemoveThinkBlocks(OPEN + a + CLOSE + keep + OPEN + b + CLOSE) == keep
  {
    assert keep + OPEN + b + CLOSE + [] == keep + OPEN + b + CLOSE;
    assert OPEN + a + CLOSE + keep + OPEN + b + CLOSE == OPEN + a + CLOSE + (keep + OPEN + b + CLOSE + []);
    LeadingBlockIsRemoved(a, keep + OPEN + b + CLOSE + []);
    BlockIsRemoved(keep, b, []);
    assert keep + RemoveThinkBlocks([]) == keep;
  }

  /**
   * Each block ends at its own first `</think>`: the text between two blocks
   * survives (`<think>a</think>keep<think>b</think>` cleans to `keep`, not "").
   */
  lemma CleanIsNonGreedy(a: string, keep: string, b: string)
    requires forall k: nat :: !OccursAt(a, CLOSE, k)
    requires forall k: nat :: !OccursAt(b, CLOSE, k)
    requires forall k: nat | k < |keep| :: !OccursAt(keep + OPEN + b + CLOSE, OPEN, k)
    ensures CleanAiResponse(OPEN + a + CLOSE + keep + OPEN + b + CLOSE) == Strip(keep)
  {
    TwoBlocksLeaveTheMiddle(a, keep, b);
  }

  /** A leading block is removed and what follows it is stripped. */
  lemma CleanLeadingBlock(body: string, after: string)
    requires forall k: nat :: !OccursAt(body, CLOSE, k)
    requires forall k: nat :: !OccursAt(after, OPEN, k)
    ensures CleanAiResponse(OPEN + body + CLOSE + after) == Strip(after)
  {
    LeadingBlockIsRemoved(body, after);
    NoOpeningIsKept(after);
  }

  /** A block spanning several lines is removed, as with `re.DOTALL`. */
  lemma CleanSpansLines(response: string)
    requires response == "<think>plan\nsteps</think>\nSIM"
    ensures CleanAiResponse(response) == "SIM"
  {
    var body, after := "plan\nsteps", "\nSIM";
    assert response == OPEN + body + CLOSE + after;
    NoTagWithoutLess(body);
    NoTagWithoutLess(after);
    CleanLeadingBlock(body, after);
    StripOfLeadingNewline(after);
  }

  lemma StripOfLeadingNewline(r: string)
    requires r == "\nSIM"
    ensures Strip(r) == "SIM"
  {
    assert IsSpace(r[0]) && r[1..] == "SIM";
    assert TrimStart(r[1..]) == r[1..];
    StripKeepsStripped(r[1..]);
  }

  /** A tag that does not start with `<think>` is copied one character at a time. */
  lemma StepOverBrokenTag(x: string, y: string)
    ensures RemoveThinkBlocks("<thi" + OPEN + x + CLOSE + "nk>" + y + CLOSE)
         == ['<'] + RemoveThinkBlocks("thi" + OPEN + x + CLOSE + ("nk>" + y + CLOSE))
  {
    var s := "<thi" + OPEN + x + CLOSE + "nk>" + y + CLOSE;
    assert s[4] != OPEN[4];
    assert !OccursAt(s, OPEN, 0);
    assert BlockEnd(s).None?;
    assert s[1..] == "thi" + OPEN + x + CLOSE + ("nk>" + y + CLOSE);
  }

  /** A lone `</think>` is plain text. */
  lemma LoneCloseIsKept()
    ensures RemoveThinkBlocks(CLOSE) == CLOSE
  {
    assert CLOSE[1] != OPEN[1];
    assert BlockEnd(CLOSE).None?;
    NoTagWithoutLess(CLOSE[1..]);
    NoOpeningIsKept(CLOSE[1..]);
    assert CLOSE == [CLOSE[0]] + CLOSE[1..];
  }

  /** The text after the removed block holds only a closing tag, which is kept. */
  lemma TailWithCloseIsKept(y: string)
    requires '<' !in y
    ensures RemoveThinkBlocks("nk>" + y + CLOSE) == "nk>" + y + CLOSE
  {
    NoOpeningInLessFree("nk>" + y, CLOSE);
    PlainPrefixIsKept("nk>" + y, CLOSE);
    LoneCloseIsKept();
  }

  lemma RejoinedHalves(y: string)
    ensures ['<'] + ("thi" + ("nk>" + y + CLOSE)) == OPEN + y + CLOSE
  {
    assert ['<'] + "thi" + "nk>" == OPEN;
  }

  /** Removing a block between the halves of a split tag joins them into a new block. */
  lemma SplitTagRejoins(x: string, y: string)
    requires '<' !in x && '<' !in y
    ensures RemoveThinkBlocks("<thi" + OPEN + x + CLOSE + "nk>" + y + CLOSE) == OPEN + y + CLOSE
  {
    StepOverBrokenTag(x, y);
    BlockAfterHalfTagIsRemoved(x, "nk>" + y + CLOSE);
    TailWithCloseIsKept(y);
    RejoinedHalves(y);
  }

  /** The block after the first half of the split tag is removed; that half stays. */
  lemma BlockAfterHalfTagIsRemoved(x: string, rest: string)
    requires '<' !in x
    ensures RemoveThinkBlocks("thi" + OPEN + x + CLOSE + rest) == "thi" + RemoveThinkBlocks(rest)
  {
    NoTagWithoutLess(x);
    NoOpeningInLessFree("thi", OPEN + x + CLOSE + rest);
    assert "thi" + (OPEN + x + CLOSE + rest) == "thi" + OPEN + x + CLOSE + rest;
    BlockIsRemoved("thi", x, rest);
  }

  lemma StripOfRejoinedBlock(r: string)
    requires r == OPEN + "y" + CLOSE
    ensures Strip(r) == "<think>y</think>"
  {
    assert r == "<think>y</think>";
    StripKeepsStripped(r);
  }

  /** A whole answer that is one block cleans to nothing. */
  lemma CleanOfLoneBlock(response: string)
    requires response == "<think>y</think>"
    ensures CleanAiResponse(response) == ""
  {
    var y := "y";
    NoTagWithoutLess(y);
    assert response == OPEN + y + CLOSE + [];
    LeadingBlockIsRemoved(y, []);
  }

  /**
   * Cleaning is not idempotent: removing a block can join two halves of a
   * tag into a new block, which a second cleaning removes.
   */
  lemma CleanNotIdempotent(response: string)
    requires response == "<thi<think>x</think>nk>y</think>"
    ensures CleanAiResponse(response) == "<think>y</think>"
    ensures CleanAiResponse(CleanAiResponse(response)) == ""
  {
    var x, y := "x", "y";
    assert response == "<thi" + OPEN + x + CLOSE + "nk>" + y + CLOSE;
    SplitTagRejoins(x, y);
    StripOfRejoinedBlock(OPEN + y + CLOSE);
    CleanOfLoneBlock(CleanAiResponse(response));
  }
}
