/** Where a cited excerpt opens: src/sidra_ai/api/citations.py, the selection half. */
module Excerpts {
  const MAX_CHARS := 200
  const MAX_CANDIDATES := 64
  const MIN_ADVANCED := 50

  /** What this code calls and does not define: the tokenizer, and the block-opener pattern. */
  datatype Tools = Tools(tokenize: string -> set<string>, opensBlock: string -> bool)

  predicate Ender(c: char) { c == '\U{3002}' || c == '\U{FF01}' || c == '\U{FF1F}' || c == '\U{FF0E}' }

  predicate Blank(c: char) { c == ' ' || c == '\t' || c == '\U{3000}' }

  predicate Skipped(c: char) { Blank(c) || c == '\n' }

  /** Python's `str.isspace`. */
  predicate Space(c: char) {
    || '\t' <= c <= '\r' || '\U{1C}' <= c <= ' ' || c == '\U{85}' || c == '\U{A0}' || c == '\U{1680}'
    || '\U{2000}' <= c <= '\U{200A}' || c == '\U{2028}' || c == '\U{2029}' || c == '\U{202F}' || c == '\U{205F}'
    || c == '\U{3000}'
  }

  function Min(a: int, b: int): int { if a < b then a else b }

  function Window(content: string, start: nat): string
    requires start <= |content|
  {
    content[start..Min(start + MAX_CHARS, |content|)]
  }

  // --- boundaries ----------------------------------------------------------

  /** The first place at or after i that is not a break or a blank. */
  function SkipFrom(content: string, i: nat): (r: nat)
    requires i <= |content|
    ensures i <= r <= |content|
    ensures forall k :: i <= k < r ==> Skipped(content[k])
    ensures r < |content| ==> !Skipped(content[r])
    decreases |content| - i
  {
    if i < |content| && Skipped(content[i]) then SkipFrom(content, i + 1) else i
  }

  predicate PeriodEndsSentence(content: string, i: nat)
    requires i < |content|
  {
    && i > 0 && ('a' <= content[i - 1] <= 'z' || '0' <= content[i - 1] <= '9')
    && i + 1 < |content| && Skipped(content[i + 1])
    && SkipFrom(content, i + 1) < |content|
    && 'A' <= content[SkipFrom(content, i + 1)] <= 'Z'
  }

  predicate SentenceEnd(content: string, i: nat)
    requires i < |content|
  {
    Ender(content[i]) || (content[i] == '.' && PeriodEndsSentence(content, i))
  }

  predicate Boundary(content: string, i: nat)
    requires i < |content|
  {
    content[i] == '\n' || SentenceEnd(content, i)
  }

  method AsciiPeriodEndsSentence(content: string, index: nat) returns (ends: bool)
    requires index < |content|
    ensures ends <==> PeriodEndsSentence(content, index)
  {
    if index == 0 || !('a' <= content[index - 1] <= 'z' || '0' <= content[index - 1] <= '9') {
      return false;
    }
    var after := index + 1;
    if after >= |content| || !Skipped(content[after]) {
      return false;
    }
    while after < |content| && Skipped(content[after])
      invariant index + 1 <= after <= |content|
      invariant SkipFrom(content, after) == SkipFrom(content, index + 1)
    {
      after := after + 1;
    }
    return after < |content| && 'A' <= content[after] <= 'Z';
  }

  /** What ends a sentence, without following the scan: one of the four full stops, or a period
      after a small letter or a digit and before blanks or breaks and then a capital. */
  lemma SentenceEndMeans(content: string, i: nat)
    requires i < |content|
    ensures SentenceEnd(content, i) <==>
            || content[i] in "\U{3002}\U{FF01}\U{FF1F}\U{FF0E}"
            || (content[i] == '.' && i > 0 && ('a' <= content[i - 1] <= 'z' || '0' <= content[i - 1] <= '9')
                && exists j :: i + 1 < j < |content| && 'A' <= content[j] <= 'Z'
                               && forall k :: i < k < j ==> content[k] in " \t\n\U{3000}")
  {
    if content[i] == '.' && i + 1 < |content| {
      var next := SkipFrom(content, i + 1);
      if j :| i + 1 < j < |content| && 'A' <= content[j] <= 'Z' && forall k :: i < k < j ==> content[k] in " \t\n\U{3000}" {
        assert content[i + 1] in " \t\n\U{3000}";
        ReachesFrom(content, i + 1, j);
      }
    }
  }

  // --- candidate starts ----------------------------------------------------

  /** s is where a line or a sentence of `content` opens. */
  ghost predicate Opening(content: string, s: nat) {
    s < |content| && exists i :: 0 <= i < s && OpensAfter(content, i, s)
  }

  ghost predicate OpensAfter(content: string, i: nat, s: nat)
    requires i < |content|
  {
    Boundary(content, i) && SkipFrom(content, i + 1) == s
  }

  function CandidatesFrom(content: string, index: nat, starts: seq<nat>): seq<nat>
    requires index <= |content| && starts != []
    decreases |content| - index
  {
    if index == |content| || |starts| >= MAX_CANDIDATES then starts
    else if !Boundary(content, index) then CandidatesFrom(content, index + 1, starts)
    else
      var start := SkipFrom(content, index + 1);
      if start >= |content| then starts
      else CandidatesFrom(content, index + 1, if start > starts[|starts| - 1] then starts + [start] else starts)
  }

  function Candidates(content: string): seq<nat> { CandidatesFrom(content, 0, [0]) }

  method CandidateStarts(content: string) returns (starts: seq<nat>)
    ensures starts == Candidates(content)
  {
    starts := [0];
    var index := 0;
    while index < |content|
      invariant index <= |content| && starts != []
      invariant CandidatesFrom(content, index, starts) == Candidates(content)
      decreases |content| - index
    {
      if |starts| >= MAX_CANDIDATES { break; }
      var boundary := content[index] == '\n' || Ender(content[index]);
      if !boundary && content[index] == '.' {
        boundary := AsciiPeriodEndsSentence(content, index);
      }
      if boundary {
        var start := index + 1;
        while start < |content| && Skipped(content[start])
          invariant index + 1 <= start <= |content|
          invariant SkipFrom(content, start) == SkipFrom(content, index + 1)
        {
          start := start + 1;
        }
        if start >= |content| { break; }
        if start > starts[|starts| - 1] {
          starts := starts + [start];
        }
      }
      index := index + 1;
    }
  }

  ghost predicate Increasing(starts: seq<nat>) {
    forall i, j :: 0 <= i < j < |starts| ==> starts[i] < starts[j]
  }

  /** The head, and then openings in order. */
  ghost predicate FromTheHead(content: string, starts: seq<nat>) {
    && 0 < |starts| <= MAX_CANDIDATES && starts[0] == 0 && Increasing(starts)
    && (forall k :: 0 < k < |starts| ==> Opening(content, starts[k]))
  }

  /** No opening that a boundary before `index` gives is missing. */
  ghost predicate NoneMissed(content: string, index: nat, starts: seq<nat>)
    requires index <= |content|
  {
    forall i, s: nat :: 0 <= i < index && s < |content| && OpensAfter(content, i, s) ==> s in starts
  }

  /** No boundary from `index` on gives an opening before s0. */
  ghost predicate NoneBefore(content: string, index: nat, s0: nat)
    requires index <= |content|
  {
    forall i, s: nat :: index <= i < |content| && OpensAfter(content, i, s) ==> s0 <= s
  }

  /** What the scan has by `index`: the head, then exactly the openings behind it, in order. */
  ghost predicate Scanned(content: string, index: nat, starts: seq<nat>)
    requires index <= |content|
  {
    FromTheHead(content, starts) && NoneMissed(content, index, starts) && NoneBefore(content, index, starts[|starts| - 1])
  }

  /** The candidate list is exact. */
  ghost predicate ExactlyTheOpenings(content: string, starts: seq<nat>) {
    && FromTheHead(content, starts)
    && (forall s: nat :: Opening(content, s) ==>
          s in starts || (|starts| == MAX_CANDIDATES && s > starts[|starts| - 1]))
  }

  lemma {:induction false} SkipMonotone(content: string, i: nat, j: nat)
    requires i <= j <= |content|
    ensures SkipFrom(content, i) <= SkipFrom(content, j)
    decreases j - i
  {
    if i < j && i < |content| && Skipped(content[i]) {
      SkipMonotone(content, i + 1, j);
    }
  }

  lemma ScanPasses(content: string, index: nat, starts: seq<nat>)
    requires index < |content| && Scanned(content, index, starts) && !Boundary(content, index)
    ensures Scanned(content, index + 1, starts)
  {
    hide SkipFrom, Boundary, Opening, Increasing;
    assert forall s: nat :: !OpensAfter(content, index, s);
  }

  lemma ScanTakes(content: string, index: nat, starts: seq<nat>)
    requires index < |content| && Scanned(content, index, starts) && Boundary(content, index)
    requires |starts| < MAX_CANDIDATES && SkipFrom(content, index + 1) < |content|
    ensures
      var start := SkipFrom(content, index + 1);
      Scanned(content, index + 1, if start > starts[|starts| - 1] then starts + [start] else starts)
  {
    hide Boundary, SkipFrom, FromTheHead, NoneMissed, Opening;
    var start := SkipFrom(content, index + 1);
    assert OpensAfter(content, index, start);
    HeadGrows(content, index, starts, start);
    OpensFromHereOn(content, index, start);
    NothingMissedYet(content, index, starts, start, if start > starts[|starts| - 1] then starts + [start] else starts);
  }

  lemma HeadGrows(content: string, index: nat, starts: seq<nat>, start: nat)
    requires index < |content| && FromTheHead(content, starts) && |starts| < MAX_CANDIDATES
    requires OpensAfter(content, index, start) && start < |content|
    ensures starts != []
    ensures start > starts[|starts| - 1] ==> FromTheHead(content, starts + [start])
  {
    assert index < start;
    assert Opening(content, start);
    hide Opening, OpensAfter;
  }

  lemma NothingMissedYet(content: string, index: nat, starts: seq<nat>, start: nat, more: seq<nat>)
    requires index < |content| && NoneMissed(content, index, starts) && OpensAfter(content, index, start)
    requires starts <= more && start in more
    ensures NoneMissed(content, index + 1, more)
  {
    forall i, s: nat | 0 <= i < index + 1 && s < |content| && OpensAfter(content, i, s)
      ensures s in more
    {
      if i < index {
        assert s in starts;
      }
    }
  }

  lemma OpensFromHereOn(content: string, index: nat, start: nat)
    requires index < |content| && OpensAfter(content, index, start)
    ensures NoneBefore(content, index, start) && NoneBefore(content, index + 1, start)
  {
    forall i, s: nat | index <= i < |content| && OpensAfter(content, i, s)
      ensures start <= s
    {
      SkipMonotone(content, index + 1, i + 1);
    }
  }

  lemma {:induction false} ScanIsExact(content: string, index: nat, starts: seq<nat>)
    requires index <= |content| && Scanned(content, index, starts)
    ensures ExactlyTheOpenings(content, CandidatesFrom(content, index, starts))
    decreases |content| - index
  {
    if index == |content| || |starts| >= MAX_CANDIDATES {
      ScanEnds(content, index, starts);
    } else if !Boundary(content, index) {
      ScanPasses(content, index, starts);
      ScanIsExact(content, index + 1, starts);
    } else {
      var start := SkipFrom(content, index + 1);
      if start >= |content| {
        OpensFromHereOn(content, index, start);
        ScanEnds(content, index, starts);
      } else {
        ScanTakes(content, index, starts);
        ScanIsExact(content, index + 1, if start > starts[|starts| - 1] then starts + [start] else starts);
      }
    }
  }

  lemma ScanEnds(content: string, index: nat, starts: seq<nat>)
    requires index <= |content| && Scanned(content, index, starts)
    requires |starts| < MAX_CANDIDATES ==> NoneBefore(content, index, |content|)
    ensures ExactlyTheOpenings(content, starts)
  {
    hide OpensAfter, Increasing;
    forall s: nat | Opening(content, s)
      ensures s in starts || (|starts| == MAX_CANDIDATES && s > starts[|starts| - 1])
    {
      var i :| 0 <= i < s && OpensAfter(content, i, s);
      if i >= index && s == starts[|starts| - 1] {
        assert s in starts;
      }
    }
  }

  /** The head and then every line and sentence opening, in order, until sixty-four are found. */
  lemma CandidatesAreExact(content: string)
    ensures ExactlyTheOpenings(content, Candidates(content))
    ensures |Candidates(content)| <= 64
    ensures |Candidates(content)| < 64 ==> forall s: nat :: Opening(content, s) ==> s in Candidates(content)
  {
    assert Scanned(content, 0, [0]);
    ScanIsExact(content, 0, [0]);
  }

  lemma CandidatesInRange(content: string, s: nat)
    requires content != [] && s in Candidates(content)
    ensures s < |content|
  {
    CandidatesAreExact(content);
  }

  // --- clean openings ------------------------------------------------------

  /** How much of `content[..end]` is left when breaks and blanks come off its end. */
  function BackOver(content: string, end: nat): (r: nat)
    requires end <= |content|
    ensures r <= end
    ensures forall k :: r <= k < end ==> Skipped(content[k])
    ensures r > 0 ==> !Skipped(content[r - 1])
  {
    if end > 0 && Skipped(content[end - 1]) then BackOver(content, end - 1) else end
  }

  /** The same, stopping at a line break. */
  function BackOverBlanks(content: string, end: nat): (r: nat)
    requires end <= |content|
    ensures r <= end
    ensures forall k :: r <= k < end ==> Blank(content[k])
    ensures r > 0 ==> !Blank(content[r - 1])
  {
    if end > 0 && Blank(content[end - 1]) then BackOverBlanks(content, end - 1) else end
  }

  /** Is the line that ends just before `end` nothing but space? */
  predicate BlankLineBefore(content: string, end: nat)
    requires end <= |content|
  {
    end == 0 || content[end - 1] == '\n' || (Space(content[end - 1]) && BlankLineBefore(content, end - 1))
  }

  predicate OpensCleanly(tools: Tools, content: string, start: nat)
    requires start <= |content|
  {
    var kept := BackOver(content, start);
    var line := BackOverBlanks(content, start);
    if start == 0 || kept == 0 then true
    else if SentenceEnd(content, kept - 1) then true
    else if line == 0 || content[line - 1] != '\n' then false
    else tools.opensBlock(content[start..]) || BlankLineBefore(content, line - 1)
  }

  /** Nothing but blanks and breaks from k up to `start`. */
  ghost predicate OnlySkipped(content: string, k: int, start: nat)
    requires 0 <= k <= |content| && start <= |content|
  {
    forall j :: k <= j < start ==> Skipped(content[j])
  }

  /** A sentence ends at k, the last character before `start` that counts. */
  ghost predicate SentenceBefore(content: string, start: nat, k: int)
    requires start <= |content|
  {
    0 <= k < start && SentenceEnd(content, k) && OnlySkipped(content, k + 1, start)
  }

  /** The break at n ends the line before `start`'s, and only blanks lie between. */
  ghost predicate BreakBefore(content: string, start: nat, n: int)
    requires start <= |content|
  {
    0 <= n < start && content[n] == '\n' && forall j :: n < j < start ==> Blank(content[j])
  }

  /** From after m up to n there is a line of nothing but space. */
  ghost predicate EmptyLine(content: string, m: int, n: int)
    requires n <= |content|
  {
    -1 <= m < n && (m == -1 || content[m] == '\n') && forall k :: m < k < n ==> Space(content[k])
  }

  /** What opens cleanly, in the four cases: nothing but blanks and breaks before; the last thing
      before them ends a sentence; or on a line's first character, blanks aside, a block opens
      there or the line before is empty. */
  lemma CleanMeans(tools: Tools, content: string, start: nat)
    requires start <= |content|
    ensures OpensCleanly(tools, content, start) <==>
            || OnlySkipped(content, 0, start)
            || (exists k :: SentenceBefore(content, start, k))
            || (exists n :: BreakBefore(content, start, n)
                            && (tools.opensBlock(content[start..]) || exists m :: EmptyLine(content, m, n)))
  {
    hide SentenceEnd, Space;
    LastThatCounts(content, start);
    LastBreak(content, start);
    var line := BackOverBlanks(content, start);
    if line > 0 {
      BlankLineMeans(content, line - 1);
    }
  }

  lemma LastThatCounts(content: string, start: nat)
    requires start <= |content|
    ensures OnlySkipped(content, 0, start) <==> BackOver(content, start) == 0
    ensures forall k :: SentenceBefore(content, start, k) ==> k == BackOver(content, start) - 1
    ensures BackOver(content, start) > 0 ==>
              (SentenceBefore(content, start, BackOver(content, start) - 1) <==> SentenceEnd(content, BackOver(content, start) - 1))
  {
    var kept := BackOver(content, start);
    assert kept > 0 ==> !Skipped(content[kept - 1]);
    forall k | SentenceBefore(content, start, k)
      ensures k == kept - 1
    {
      assert !Skipped(content[k]);
    }
  }

  lemma LastBreak(content: string, start: nat)
    requires start <= |content|
    ensures forall n :: BreakBefore(content, start, n) ==> n == BackOverBlanks(content, start) - 1
    ensures BackOverBlanks(content, start) > 0 ==>
              (BreakBefore(content, start, BackOverBlanks(content, start) - 1) <==> content[BackOverBlanks(content, start) - 1] == '\n')
  {
  }

  lemma {:induction false} BlankLineMeans(content: string, n: nat)
    requires n <= |content|
    ensures BlankLineBefore(content, n) <==> exists m :: EmptyLine(content, m, n)
    decreases n
  {
    if n == 0 || content[n - 1] == '\n' {
      assert EmptyLine(content, n - 1, n);
    } else {
      var before := n - 1;
      BlankLineMeans(content, before);
      if m :| EmptyLine(content, m, n) {
        assert EmptyLine(content, m, before);
      }
      if Space(content[before]) {
        if m :| EmptyLine(content, m, before) {
          assert EmptyLine(content, m, n);
        }
      }
    }
  }

  /** A start that a sentence end gave is always a clean one. */
  lemma SentenceStartsAreClean(tools: Tools, content: string, i: nat)
    requires i < |content| && SentenceEnd(content, i) && SkipFrom(content, i + 1) < |content|
    ensures OpensCleanly(tools, content, SkipFrom(content, i + 1))
  {
    var s := SkipFrom(content, i + 1);
    var kept := BackOver(content, s);
    assert !Skipped(content[i]);
    assert kept > i;
    assert !(i + 1 <= kept - 1 < s);
  }

  /** Something other than blanks lies before `start`. */
  ghost predicate AfterSomething(content: string, start: nat)
    requires start <= |content|
  {
    exists k :: 0 <= k < start && !Blank(content[k])
  }

  /** Not every clean start is a candidate, whatever the budget: it is one exactly when it stands
      on a real character, with something other than blanks before it. */
  lemma CleanStartIsOpening(tools: Tools, content: string, start: nat)
    requires 0 < start < |content| && OpensCleanly(tools, content, start)
    ensures Opening(content, start) <==> !Skipped(content[start]) && AfterSomething(content, start)
  {
    if Opening(content, start) {
      var i :| 0 <= i < start && OpensAfter(content, i, start);
      assert !Blank(content[i]);
    }
    if !Skipped(content[start]) && AfterSomething(content, start) {
      var kept, line := BackOver(content, start), BackOverBlanks(content, start);
      var k :| 0 <= k < start && !Blank(content[k]);
      assert k < line;
      if content[line - 1] == '\n' {
        ReachesFrom(content, line, start);
        assert OpensAfter(content, line - 1, start);
      } else {
        assert kept == line;
        ReachesFrom(content, kept, start);
        assert OpensAfter(content, kept - 1, start);
      }
    }
  }

  lemma {:induction false} ReachesFrom(content: string, i: nat, s: nat)
    requires i <= s < |content| && !Skipped(content[s]) && forall k :: i <= k < s ==> Skipped(content[k])
    ensures SkipFrom(content, i) == s
    decreases s - i
  {
    if i == s {
    } else {
      ReachesFrom(content, i + 1, s);
    }
  }

  // --- the choice ----------------------------------------------------------

  function Score(tools: Tools, terms: set<string>, content: string, s: nat): nat
    requires s <= |content|
  {
    |terms * tools.tokenize(Window(content, s))|
  }

  /** The start with the most matched terms: the latest such if any matched, else the head. */
  ghost predicate Best(tools: Tools, terms: set<string>, content: string, starts: seq<nat>, b: nat) {
    && b in starts && (forall s :: s in starts ==> s <= |content|)
    && (forall s :: s in starts ==> Score(tools, terms, content, s) <= Score(tools, terms, content, b))
    && (Score(tools, terms, content, b) > 0 ==>
          forall s :: s in starts && s > b ==> Score(tools, terms, content, s) < Score(tools, terms, content, b))
    && (Score(tools, terms, content, b) == 0 ==> b == 0)
  }

  /** Could the window open at i instead of b, losing no matched term and not too little left? */
  predicate Eligible(tools: Tools, terms: set<string>, content: string, b: nat, i: nat)
    requires b <= |content| && i <= |content|
  {
    && OpensCleanly(tools, content, i)
    && |Window(content, i)| >= MIN_ADVANCED
    && terms * tools.tokenize(Window(content, b)) <= tools.tokenize(Window(content, i))
  }

  /** It could exactly where it is clean, fifty characters are left, and no matched term is lost. */
  lemma EligibleMeans(tools: Tools, terms: set<string>, content: string, b: nat, i: nat)
    requires b <= |content| && i <= |content|
    ensures Eligible(tools, terms, content, b, i) <==>
            && OpensCleanly(tools, content, i) && |content| - i >= 50
            && forall t :: t in terms && t in tools.tokenize(Window(content, b)) ==> t in tools.tokenize(Window(content, i))
  {
    hide OpensCleanly;
  }

  /** s is b, if that is clean; else the least eligible place inside b's window, or b if none. */
  ghost predicate Advanced(tools: Tools, terms: set<string>, content: string, b: nat, s: nat)
    requires b <= |content|
  {
    var end := Min(|content|, b + MAX_CHARS);
    if OpensCleanly(tools, content, b) then s == b
    else if s == b then forall i :: b < i < end ==> !Eligible(tools, terms, content, b, i)
    else b < s < end && Eligible(tools, terms, content, b, s) && forall i :: b < i < s ==> !Eligible(tools, terms, content, b, i)
  }

  method AdvancePastAHalfSentence(tools: Tools, content: string, start: nat, terms: set<string>) returns (s: nat)
    requires start <= |content|
    ensures s <= |content| && Advanced(tools, terms, content, start, s)
  {
    if OpensCleanly(tools, content, start) {
      return start;
    }
    var wanted := terms * tools.tokenize(Window(content, start));
    var index := start + 1;
    while index < Min(|content|, start + MAX_CHARS)
      invariant start < index
      invariant forall i :: start < i < index && i < |content| ==> !Eligible(tools, terms, content, start, i)
    {
      if OpensCleanly(tools, content, index) {
        var window := Window(content, index);
        if |window| < MIN_ADVANCED {
          assert forall i :: index <= i < |content| ==> |Window(content, i)| <= |window|;
          break;
        }
        if wanted <= tools.tokenize(window) {
          return index;
        }
      }
      index := index + 1;
    }
    return start;
  }

  ghost predicate Chosen(tools: Tools, content: string, query: string, cleanHead: bool, start: nat) {
    var terms := tools.tokenize(query);
    if |content| <= MAX_CHARS || terms == {} then start == 0
    else exists b: nat :: Best(tools, terms, content, Candidates(content), b)
                     && (if cleanHead then b <= |content| && Advanced(tools, terms, content, b, start) else start == b)
  }

  /** One more candidate, later than all before it, against the best so far. */
  lemma BestStep(tools: Tools, terms: set<string>, content: string, starts: seq<nat>, k: nat, best: nat)
    requires k < |starts| && Increasing(starts) && starts[k] <= |content|
    requires if k == 0 then starts[0] == 0 else Best(tools, terms, content, starts[..k], best)
    ensures k > 0 ==> best <= |content|
    ensures
      var s := starts[k];
      var score := Score(tools, terms, content, s);
      var beats := k == 0 || score > Score(tools, terms, content, best) || (score == Score(tools, terms, content, best) && score > 0);
      Best(tools, terms, content, starts[..k + 1], if beats then s else best)
  {
    hide Score;
    var s := starts[k];
    assert starts[..k + 1] == starts[..k] + [s];
    forall t | t in starts[..k]
      ensures t < s
    {
      var i :| 0 <= i < k && starts[i] == t;
    }
  }

  method SelectExcerptSpan(tools: Tools, content: string, query: string, cleanHead: bool) returns (start: nat, window: string)
    ensures start <= |content| && window == Window(content, start)
    ensures Chosen(tools, content, query, cleanHead, start)
  {
    hide Candidates, Increasing, Opening, OpensCleanly, Advanced;
    if |content| <= MAX_CHARS {
      return 0, content;
    }
    var terms := tools.tokenize(query);
    if terms == {} {
      return 0, content[..MAX_CHARS];
    }
    var starts := CandidateStarts(content);
    CandidatesAreExact(content);
    var best, bestScore := 0, -1;
    for k := 0 to |starts|
      invariant k == 0 ==> best == 0 && bestScore == -1
      invariant k > 0 ==> Best(tools, terms, content, starts[..k], best) && bestScore == Score(tools, terms, content, best)
    {
      var s := starts[k];
      CandidatesInRange(content, s);
      var score := |terms * tools.tokenize(content[s..Min(s + MAX_CHARS, |content|)])|;
      BestStep(tools, terms, content, starts, k, best);
      if score > bestScore || (score == bestScore && score > 0) {
        best, bestScore := s, score;
      }
    }
    assert starts[..|starts|] == starts;
    start := best;
    if cleanHead {
      start := AdvancePastAHalfSentence(tools, content, best, terms);
    }
    window := content[start..Min(start + MAX_CHARS, |content|)];
  }

  /** Best names one start: nothing is left to chance between the candidates. */
  lemma BestIsUnique(tools: Tools, terms: set<string>, content: string, starts: seq<nat>, a: nat, b: nat)
    requires Best(tools, terms, content, starts, a) && Best(tools, terms, content, starts, b)
    ensures a == b
  {
  }

  /** When some term matched, the window is advanced only where the scan could not have gone:
      past the sixty-fourth opening, or onto a break or a blank. */
  lemma AdvanceOnlyWhereTheScanCouldNot(tools: Tools, terms: set<string>, content: string, b: nat, s: nat)
    requires |content| > 0 && Best(tools, terms, content, Candidates(content), b) && Score(tools, terms, content, b) > 0
    requires Advanced(tools, terms, content, b, s) && s != b
    ensures Skipped(content[s]) || (|Candidates(content)| == MAX_CANDIDATES && s > Candidates(content)[MAX_CANDIDATES - 1])
  {
    CandidatesAreExact(content);
    if !Skipped(content[s]) {
      var k :| 0 <= k < |Candidates(content)| && Candidates(content)[k] == b;
      assert k > 0 && Opening(content, b);
      var i :| 0 <= i < b && OpensAfter(content, i, b);
      assert AfterSomething(content, s) by { assert !Blank(content[i]); }
      CleanStartIsOpening(tools, content, s);
      if s in Candidates(content) {
        MoreTerms(terms * tools.tokenize(Window(content, b)), terms * tools.tokenize(Window(content, s)));
      }
    }
  }

  lemma MoreTerms(a: set<string>, b: set<string>)
    requires a <= b
    ensures |a| <= |b|
  {
    assert b == a + (b - a);
  }

  /** A text where the window opens on the second line, in the middle of a sentence, and the
      first clean start it meets, the blank after that sentence, is none the scan offers; it
      moves there exactly when that keeps every matched term. */
  lemma CleanButNotOffered(tools: Tools, terms: set<string>, rest: string)
    requires |rest| >= MAX_CHARS && !tools.opensBlock("b\U{3002} " + rest)
    ensures
      var text := "a\nb\U{3002} " + rest;
      && Opening(text, 2) && !OpensCleanly(tools, text, 2)
      && OpensCleanly(tools, text, 4) && !Opening(text, 4)
      && (Advanced(tools, terms, text, 2, 4) <==>
            terms * tools.tokenize(Window(text, 2)) <= tools.tokenize(Window(text, 4)))
  {
    var text := "a\nb\U{3002} " + rest;
    assert text[0] == 'a' && text[1] == '\n' && text[2] == 'b' && text[3] == '\U{3002}' && text[4] == ' ';
    assert OpensAfter(text, 1, 2);
    assert text[2..] == "b\U{3002} " + rest;
    assert BackOver(text, 2) == 1 && BackOverBlanks(text, 2) == 2;
    assert BackOver(text, 3) == 3 == BackOverBlanks(text, 3) && BackOver(text, 4) == 4;
    assert AfterSomething(text, 4) by { assert !Blank(text[0]); }
    CleanStartIsOpening(tools, text, 4);
    assert !OpensCleanly(tools, text, 3);
  }
}
