/** Two texts on which src/sidra_ai/api/citations.py, reading words, selects what its comments say
    it does not. */
module ExcerptFindings {
  import opened Excerpts
  import opened ExcerptEdges

  // --- a tokenizer ---------------------------------------------------------

  predicate Letter(c: char) { 'a' <= c <= 'z' }

  /** A word of s, whole, stands from i to j. */
  predicate WordAt(s: string, i: int, j: int) {
    && 0 <= i < j <= |s| && (forall k :: i <= k < j ==> Letter(s[k]))
    && (i == 0 || !Letter(s[i - 1])) && (j == |s| || !Letter(s[j]))
  }

  function Words(s: string): set<string> {
    set i, j | 0 <= i < |s| && 0 <= j <= |s| && WordAt(s, i, j) :: s[i..j]
  }

  /** It takes a text for its words, and no line for the opening of a block. */
  const Reader := Tools(s => Words(s), s => false)

  lemma HasWord(s: string, i: int, j: int)
    requires WordAt(s, i, j)
    ensures s[i..j] in Words(s)
  {
  }

  /** One word asked for scores one or nothing. */
  lemma OneTerm(content: string, s: nat)
    requires s <= |content|
    ensures Score(Reader, {"foo"}, content, s) == if "foo" in Words(Window(content, s)) then 1 else 0
  {
    hide Words, Window;
    var found := Words(Window(content, s));
    assert Reader.tokenize(Window(content, s)) == found;
    assert {"foo"} * found == if "foo" in found then {"foo"} else {};
  }

  lemma WordsOfQuery()
    ensures Reader.tokenize("foo") == {"foo"}
  {
    HasWord("foo", 0, 3);
    forall w | w in Words("foo")
      ensures w == "foo"
    {
      var i, j :| 0 <= i < 3 && 0 <= j <= 3 && WordAt("foo", i, j) && w == "foo"[i..j];
      assert i == 0 && j == 3;
      assert "foo"[0..3] == "foo";
    }
    assert "foo"[0..3] == "foo";
  }

  function Dashes(n: nat): (s: string)
    ensures |s| == n && forall k :: 0 <= k < n ==> s[k] == '-'
  {
    seq(n, _ => '-')
  }

  /** Two openings at most, early enough, are all of the candidates beside the head. */
  lemma FewOpenings(content: string, a: nat, b: nat)
    requires Opening(content, a) && Opening(content, b)
    requires forall s: nat :: Opening(content, s) ==> s == a || s == b
    ensures forall s :: s in Candidates(content) <==> s == 0 || s == a || s == b
  {
    hide Opening, Candidates;
    CandidatesAreExact(content);
    var starts := Candidates(content);
    forall s | s in starts
      ensures s == 0 || s == a || s == b
    {
      var k :| 0 <= k < |starts| && starts[k] == s;
    }
    FewStarts(starts, a, b);
    assert starts[0] in starts;
  }

  lemma FewStarts(starts: seq<nat>, a: nat, b: nat)
    requires Increasing(starts) && forall k :: 0 <= k < |starts| ==> starts[k] == 0 || starts[k] == a || starts[k] == b
    ensures |starts| <= 3
  {
    FirstFour(starts);
  }

  lemma FirstFour(starts: seq<nat>)
    requires Increasing(starts)
    ensures |starts| > 3 ==> starts[0] < starts[1] < starts[2] < starts[3]
  {
  }

  // --- a figure split in an excerpt ----------------------------------------

  const PAD := "foo" + Dashes(194)

  const FIGURE := "a\n" + (PAD + "1,234")

  lemma FigureOpenings()
    ensures forall s :: s in Candidates(FIGURE) <==> s == 0 || s == 2
  {
    assert FIGURE[1] == '\n' && FIGURE[2] == 'f';
    assert forall i :: 0 <= i < |FIGURE| ==> (Boundary(FIGURE, i) <==> i == 1);
    assert SkipFrom(FIGURE, 2) == 2;
    assert OpensAfter(FIGURE, 1, 2);
    FewOpenings(FIGURE, 2, 2);
  }

  lemma FigureScores()
    ensures Score(Reader, {"foo"}, FIGURE, 0) == 1 && Score(Reader, {"foo"}, FIGURE, 2) == 1
  {
    var whole, second := Window(FIGURE, 0), Window(FIGURE, 2);
    HasWord(whole, 2, 5);
    HasWord(second, 0, 3);
    assert whole[2..5] == "foo" && second[0..3] == "foo";
    OneTerm(FIGURE, 0);
    OneTerm(FIGURE, 2);
  }

  /** Asked for the word, the code opens this document on its second line and shows its 1,234, the
      guard changing nothing, as a 1. */
  lemma ACitedFigureIsSplit()
    ensures Chosen(Reader, FIGURE, "foo", false, 2)
    ensures Shown(Reader, s => Guarded(false, s), FIGURE, false, 2) == (MARK + (PAD + "1") + MARK, false)
  {
    hide Score, Words, Candidates;
    WordsOfQuery();
    FigureOpenings();
    FigureScores();
    assert Best(Reader, {"foo"}, FIGURE, Candidates(FIGURE), 2);
    FigureShown();
  }

  lemma FigureShown()
    ensures Shown(Reader, s => Guarded(false, s), FIGURE, false, 2) == (MARK + (PAD + "1") + MARK, false)
  {
    assert FIGURE[2..] == PAD + "1,234" + "";
    var window := Window(FIGURE, 2);
    assert window[0] == 'f' && FIGURE[0] == 'a' && FIGURE[4] == 'o';
    assert FIGURE[|FIGURE| - |window|..][0] == 'o';
    AnExcerptEndsInAFigure(Reader, s => Guarded(false, s), FIGURE, 2, PAD, "");
  }

  // --- a clean start that was no candidate ---------------------------------

  const TEXT := "a\nfoo\U{3002} " + (Dashes(196) + "foob")

  lemma TextCharacters()
    ensures |TEXT| == 207
    ensures TEXT[0] == 'a' && TEXT[1] == '\n' && TEXT[2] == 'f' && TEXT[3] == 'o' && TEXT[4] == 'o'
    ensures TEXT[5] == '\U{3002}' && TEXT[6] == ' '
    ensures forall k :: 7 <= k < 203 ==> TEXT[k] == '-'
    ensures TEXT[203] == 'f' && TEXT[204] == 'o' && TEXT[205] == 'o' && TEXT[206] == 'b'
  {
  }

  lemma TextOpenings()
    ensures forall s :: s in Candidates(TEXT) <==> s == 0 || s == 2 || s == 7
  {
    hide TEXT;
    TextCharacters();
    assert forall i :: 0 <= i < |TEXT| ==> (Boundary(TEXT, i) <==> i == 1 || i == 5);
    assert SkipFrom(TEXT, 2) == 2 && SkipFrom(TEXT, 7) == 7 && SkipFrom(TEXT, 6) == 7;
    assert OpensAfter(TEXT, 1, 2) && OpensAfter(TEXT, 5, 7);
    FewOpenings(TEXT, 2, 7);
  }

  /** The window from the blank ends in the word; from the next character it ends in a longer one. */
  lemma TextWords()
    ensures "foo" in Words(Window(TEXT, 0)) && "foo" in Words(Window(TEXT, 2)) && "foo" in Words(Window(TEXT, 6))
    ensures "foo" !in Words(Window(TEXT, 7))
  {
    hide TEXT;
    TextCharacters();
    var w0, w2, w6 := Window(TEXT, 0), Window(TEXT, 2), Window(TEXT, 6);
    assert w0[2..5] == "foo" && w2[0..3] == "foo" && w6[197..200] == "foo";
    HasWord(w0, 2, 5);
    HasWord(w2, 0, 3);
    HasWord(w6, 197, 200);
    LongerWord(Window(TEXT, 7));
  }

  lemma LongerWord(s: string)
    requires |s| == 200 && (forall k :: 0 <= k < 196 ==> s[k] == '-')
    requires s[196] == 'f' && s[197] == 'o' && s[198] == 'o' && s[199] == 'b'
    ensures "foo" !in Words(s)
  {
    forall i, j | 0 <= i < |s| && 0 <= j <= |s| && WordAt(s, i, j)
      ensures s[i..j] != "foo"
    {
      assert Letter(s[i]);
      assert i >= 196;
      assert i > 196 ==> !Letter(s[i - 1]);
    }
  }

  lemma TextAdvances()
    ensures Advanced(Reader, {"foo"}, TEXT, 2, 6)
  {
    hide TEXT, Words, BackOver, BackOverBlanks, PeriodEndsSentence, BlankLineBefore;
    TextCharacters();
    TextWords();
    CleanInText();
    assert {"foo"} * Reader.tokenize(Window(TEXT, 2)) <= Reader.tokenize(Window(TEXT, 6));
    assert |Window(TEXT, 6)| == 200;
    hide OpensCleanly;
    assert Eligible(Reader, {"foo"}, TEXT, 2, 6);
  }

  lemma CleanInText()
    ensures |TEXT| >= 6 && OpensCleanly(Reader, TEXT, 6)
    ensures forall i :: 2 <= i < 6 ==> !OpensCleanly(Reader, TEXT, i)
  {
    hide TEXT;
    TextCharacters();
    assert BackOver(TEXT, 2) == 1 && BackOverBlanks(TEXT, 2) == 2;
    assert !BlankLineBefore(TEXT, 1);
    assert BackOver(TEXT, 6) == 6;
    forall i | 3 <= i < 6
      ensures !OpensCleanly(Reader, TEXT, i)
    {
      assert BackOver(TEXT, i) == i && BackOverBlanks(TEXT, i) == i;
      assert !SentenceEnd(TEXT, i - 1);
    }
  }

  /** Asked for the word, with a clean head wanted, the code opens this document where a sentence
      has ended and no candidate was offered: on the blank. */
  lemma ACleanStartNeverOffered()
    ensures Chosen(Reader, TEXT, "foo", true, 6) && 6 !in Candidates(TEXT)
  {
    hide Score, Words, Candidates, Advanced;
    WordsOfQuery();
    TextOpenings();
    TextWords();
    OneTerm(TEXT, 0);
    OneTerm(TEXT, 2);
    OneTerm(TEXT, 7);
    assert Best(Reader, {"foo"}, TEXT, Candidates(TEXT), 2);
    TextAdvances();
  }
}
