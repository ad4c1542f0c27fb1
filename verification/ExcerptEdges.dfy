/** How a cited excerpt is cut: src/sidra_ai/api/citations.py, `citation_excerpt`. */
module ExcerptEdges {
  import opened Excerpts

  /** What the output guard answers. */
  datatype Guarded = Guarded(blocked: bool, content: string)

  const MARK := "\U{2026}"
  const REDACTED := "[REDACTED"

  predicate Digit(c: char) { '0' <= c <= '9' || '\U{FF10}' <= c <= '\U{FF19}' }

  predicate Separator(c: char) { c == ',' || c == '\U{FF0C}' || c == '.' || c == '\U{FF0E}' }

  predicate Number(c: char) { Digit(c) || Separator(c) }

  function LastBracket(s: string): (r: int)
    ensures -1 <= r < |s|
    ensures r >= 0 ==> s[r] == '['
    ensures forall k :: r < k < |s| ==> s[k] != '['
  {
    if s == [] then -1
    else if s[|s| - 1] == '[' then |s| - 1
    else LastBracket(s[..|s| - 1])
  }

  /** `rstrip()`. */
  function StripSpace(s: string): (r: string)
    ensures r <= s
    ensures r != [] ==> !Space(r[|r| - 1])
    ensures forall k :: |r| <= k < |s| ==> Space(s[k])
  {
    if s != [] && Space(s[|s| - 1]) then StripSpace(s[..|s| - 1]) else s
  }

  /** `rstrip(_NUMBER_TAIL)`. */
  function StripNumber(s: string): (r: string)
    ensures r <= s
    ensures r != [] ==> !Number(r[|r| - 1])
    ensures forall k :: |r| <= k < |s| ==> Number(s[k])
  {
    if s != [] && Number(s[|s| - 1]) then StripNumber(s[..|s| - 1]) else s
  }

  predicate MarkerFragment(frag: string) { frag <= REDACTED || REDACTED <= frag }

  /** A placeholder the budget opened and did not close comes off, and the space before it. */
  function DropOpenMarker(body: string): (r: string)
    ensures r <= body
  {
    var open := LastBracket(body);
    if open != -1 && ']' !in body[open..] && MarkerFragment(body[open..]) then StripSpace(body[..open]) else body
  }

  /** The part of the guarded text that is shown. */
  function Body(g: string, budget: nat): (r: string)
    ensures r <= g && |r| <= budget
  {
    if |g| <= budget then g
    else
      var body := DropOpenMarker(g[..budget]);
      if Digit(g[|body|]) && StripNumber(body) != [] then StripNumber(body) else body
  }

  /** The cut itself: the budget, then an open marker, then a partial number. */
  method CutToBudget(g: string, budget: nat) returns (body: string)
    ensures body == Body(g, budget)
  {
    body := g[..Min(budget, |g|)];
    if |g| > budget {
      var open := LastBracket(body);
      if open != -1 && ']' !in body[open..] && MarkerFragment(body[open..]) {
        body := StripSpace(body[..open]);
      }
    }
    if |g| > budget && Digit(g[|body|]) {
      var trimmed := StripNumber(body);
      if trimmed != [] {
        body := trimmed;
      }
    }
  }

  method CitationExcerpt(tools: Tools, scan: string -> Guarded, content: string, query: string, cleanHead: bool)
    returns (excerpt: string, withheld: bool)
    ensures |excerpt| <= MAX_CHARS
    ensures exists start: nat :: start <= |content| && Chosen(tools, content, query, cleanHead, start)
              && (excerpt, withheld) == Shown(tools, scan, content, cleanHead, start)
  {
    hide Chosen, OpensCleanly, Body;
    var start, window := SelectExcerptSpan(tools, content, query, cleanHead);
    if window == "" {
      return "", false;
    }
    var headCut := !(window <= content);
    if cleanHead && headCut && OpensCleanly(tools, content, start) {
      headCut := false;
    }
    var tailCut := !EndsWith(content, window);
    var guarded := scan(window);
    if guarded.blocked {
      return "", true;
    }
    var lead := if headCut then MARK else "";
    var trail := if tailCut then MARK else "";
    var body := CutToBudget(guarded.content, MAX_CHARS - |lead| - |trail|);
    return lead + body + trail, false;
  }

  predicate EndsWith(s: string, tail: string) {
    |tail| <= |s| && s[|s| - |tail|..] == tail
  }

  /** The excerpt, once its window is chosen. */
  function Shown(tools: Tools, scan: string -> Guarded, content: string, cleanHead: bool, start: nat): (string, bool)
    requires start <= |content|
  {
    var window := Window(content, start);
    if window == "" then ("", false)
    else if scan(window).blocked then ("", true)
    else
      var lead := if !(window <= content) && !(cleanHead && OpensCleanly(tools, content, start)) then MARK else "";
      var trail := if !EndsWith(content, window) then MARK else "";
      (lead + Body(scan(window).content, MAX_CHARS - |lead| - |trail|) + trail, false)
  }

  /** Does the document open, or end, with what the window at `start` holds? */
  predicate AtHead(content: string, start: nat)
    requires start <= |content|
  {
    var window := content[start..Min(start + MAX_CHARS, |content|)];
    content[..|window|] == window
  }

  predicate AtTail(content: string, start: nat)
    requires start <= |content|
  {
    var window := content[start..Min(start + MAX_CHARS, |content|)];
    content[|content| - |window|..] == window
  }

  /** Guarded text between the marks of its clipped edges, whole if it fits between them. */
  ghost predicate Framed(excerpt: string, lead: bool, trail: bool, guarded: string) {
    var budget := MAX_CHARS - (if lead then 1 else 0) - (if trail then 1 else 0);
    exists body: string ::
      && excerpt == (if lead then MARK else "") + body + (if trail then MARK else "")
      && body <= guarded && |body| <= budget && (|guarded| <= budget ==> body == guarded)
  }

  /** What the excerpt says of the window: it is withheld exactly when the guard refuses a window
      that holds something, and then nothing is shown. Otherwise a mark stands at each edge that was
      clipped, at the head only when it is also unclean if a clean head is wanted. */
  lemma ShownMeans(tools: Tools, scan: string -> Guarded, content: string, cleanHead: bool, start: nat)
    requires start <= |content|
    ensures
      var (excerpt, withheld) := Shown(tools, scan, content, cleanHead, start);
      var window := Window(content, start);
      && (withheld <==> window != "" && scan(window).blocked)
      && (withheld || window == "" ==> excerpt == "")
      && (!withheld && window != "" ==>
            Framed(excerpt, !AtHead(content, start) && !(cleanHead && OpensCleanly(tools, content, start)),
                   !AtTail(content, start), scan(window).content))
  {
    hide OpensCleanly, Body, Framed;
    var window := Window(content, start);
    if window != "" && !scan(window).blocked {
      assert AtHead(content, start) <==> window <= content;
      assert AtTail(content, start) <==> EndsWith(content, window);
      var lead := !(window <= content) && !(cleanHead && OpensCleanly(tools, content, start));
      FramedBody(lead, !EndsWith(content, window), scan(window).content);
    }
  }

  lemma FramedBody(lead: bool, trail: bool, guarded: string)
    ensures
      var l, t := if lead then MARK else "", if trail then MARK else "";
      Framed(l + Body(guarded, MAX_CHARS - |l| - |t|) + t, lead, trail, guarded)
  {
  }

  /** A budget that falls where no placeholder is open and no digit follows cuts just there. Before
      a digit, with no placeholder open, only number characters go, and all of them at the end,
      unless there is nothing else. */
  lemma CutsForAReason(g: string, budget: nat)
    requires |g| > budget && '[' !in g[..budget]
    ensures !Digit(g[budget]) ==> Body(g, budget) == g[..budget]
    ensures Digit(g[budget]) && AllNumber(g[..budget]) ==> Body(g, budget) == g[..budget]
    ensures Digit(g[budget]) && !AllNumber(g[..budget]) ==>
              && Body(g, budget) != "" && !Number(Body(g, budget)[|Body(g, budget)| - 1])
              && forall k :: |Body(g, budget)| <= k < budget ==> Number(g[k])
  {
    assert LastBracket(g[..budget]) == -1;
    var body := g[..budget];
    var trimmed := StripNumber(body);
    if Digit(g[budget]) && trimmed != [] {
      assert forall k :: |trimmed| <= k < budget ==> Number(body[k]);
    }
  }

  /** A placeholder is open at k: its bracket is the last, unclosed, and what follows it could be
      its name so far. */
  ghost predicate OpenMarkerAt(s: string, k: int) {
    && 0 <= k < |s| && s[k] == '[' && (forall j :: k < j < |s| ==> s[j] != '[' && s[j] != ']')
    && (s[k..] <= REDACTED || REDACTED <= s[k..])
  }

  /** Exactly an open placeholder is dropped, and with it the space before it, no more. */
  lemma OpenMarkerIsDropped(s: string)
    ensures (exists k :: OpenMarkerAt(s, k)) <==> DropOpenMarker(s) != s
    ensures forall k :: OpenMarkerAt(s, k) ==>
              && |DropOpenMarker(s)| <= k && (forall j :: |DropOpenMarker(s)| <= j < k ==> Space(s[j]))
              && (DropOpenMarker(s) != "" ==> !Space(DropOpenMarker(s)[|DropOpenMarker(s)| - 1]))
  {
    var open := LastBracket(s);
    if open != -1 {
      var frag := s[open..];
      assert ']' in frag <==> exists j :: open < j < |s| && s[j] == ']' by {
        if ']' in frag {
          var i :| 0 <= i < |frag| && frag[i] == ']';
          assert s[open + i] == ']';
        }
        if j :| open < j < |s| && s[j] == ']' {
          assert frag[j - open] == ']';
        }
      }
      assert OpenMarkerAt(s, open) <==> ']' !in frag && MarkerFragment(frag);
      var kept := StripSpace(s[..open]);
      assert forall j :: |kept| <= j < open ==> Space(s[..open][j]);
    }
    forall k | OpenMarkerAt(s, k)
      ensures k == open
    {
    }
  }

  // --- numbers -------------------------------------------------------------

  ghost predicate AllNumber(s: string) { forall k :: 0 <= k < |s| ==> Number(s[k]) }

  /** A cut at k with a digit on either side. */
  ghost predicate SplitsDigits(g: string, k: nat) {
    0 < k < |g| && Digit(g[k - 1]) && Digit(g[k])
  }

  /** A cut at k between a digit and the separator of a group that goes on. */
  ghost predicate SplitsGroup(g: string, k: nat) {
    0 < k && k + 1 < |g| && Digit(g[k - 1]) && Separator(g[k]) && Digit(g[k + 1])
  }

  /** No digit is shown with the next one dropped, unless all that is shown is one number: and
      that exception is exact. */
  lemma DigitsAreNotSplit(g: string, budget: nat)
    ensures SplitsDigits(g, |Body(g, budget)|) ==> AllNumber(Body(g, budget))
    ensures |g| > budget && AllNumber(g[..budget]) ==>
              (SplitsDigits(g, |Body(g, budget)|) <==> SplitsDigits(g, budget))
  {
    if |g| > budget {
      var body := DropOpenMarker(g[..budget]);
      assert forall k :: 0 <= k < |body| ==> body[k] == g[k];
      if AllNumber(g[..budget]) {
        NumberHasNoMarker(g[..budget]);
      }
    }
  }

  lemma NumberHasNoMarker(s: string)
    requires AllNumber(s)
    ensures DropOpenMarker(s) == s && StripNumber(s) == []
  {
    var r := StripNumber(s);
    assert r == s[..|r|];
  }

  /** A grouped figure, though, is split at its separator, exactly when the budget itself falls
      there: the guard looks only for a digit after the cut. */
  lemma GroupsAreSplitAtTheBudget(g: string, budget: nat)
    requires |g| > budget
    ensures SplitsGroup(g, |Body(g, budget)|) <==> DropOpenMarker(g[..budget]) == g[..budget] && SplitsGroup(g, budget)
  {
    var body := DropOpenMarker(g[..budget]);
    assert forall k :: 0 <= k < |Body(g, budget)| ==> Body(g, budget)[k] == g[k];
    if body != g[..budget] {
      AfterADroppedMarker(g, budget);
    } else if Digit(g[budget]) && StripNumber(body) != [] {
      assert !Number(Body(g, budget)[|Body(g, budget)| - 1]);
    }
  }

  lemma AfterADroppedMarker(g: string, budget: nat)
    requires |g| > budget && DropOpenMarker(g[..budget]) != g[..budget]
    ensures
      var k := |DropOpenMarker(g[..budget])|;
      k < budget && (g[k] == '[' || Space(g[k]))
  {
    var body := g[..budget];
    var open := LastBracket(body);
    var r := StripSpace(body[..open]);
    if |r| < open {
      assert Space(body[..open][|r|]);
    }
  }

  /** A figure that starts three characters before the end of a window clipped at both ends is
      shown as its first digit. */
  lemma AFigureSplitAtItsComma(pad: string, rest: string)
    requires |pad| == MAX_CHARS - 3 && '[' !in pad
    ensures
      var g := pad + "1,2" + rest;
      Body(g, MAX_CHARS - 2) == pad + "1" && SplitsGroup(g, MAX_CHARS - 2)
  {
    var g := pad + "1,2" + rest;
    var k := MAX_CHARS - 2;
    assert g[k - 1] == '1' && g[k] == ',' && g[k + 1] == '2';
    assert g[..k] == pad + "1";
    assert LastBracket(pad + "1") == -1;
    GroupsAreSplitAtTheBudget(g, k);
  }

  /** And so is the excerpt, when the guard has nothing to change: "1,234" in the document, and a
      "1" and the mark of a clipped end in the excerpt. */
  lemma AnExcerptEndsInAFigure(tools: Tools, scan: string -> Guarded, content: string, start: nat, pad: string, rest: string)
    requires |pad| == MAX_CHARS - 3 && '[' !in pad && start <= |content|
    requires content[start..] == pad + "1,234" + rest
    requires !(Window(content, start) <= content) && !EndsWith(content, Window(content, start))
    requires scan(Window(content, start)) == Guarded(false, Window(content, start))
    ensures Shown(tools, scan, content, false, start) == (MARK + (pad + "1") + MARK, false)
  {
    var window := Window(content, start);
    assert window == content[start..][..MAX_CHARS];
    assert window == pad + "1,2" + "";
    AFigureSplitAtItsComma(pad, "");
  }

  // --- placeholders --------------------------------------------------------

  /** A whole redaction placeholder stands at p. Its name holds no bracket. */
  ghost predicate PlaceholderAt(g: string, p: nat, name: string) {
    && '[' !in name && ']' !in name
    && p <= |g| && REDACTED + name + "]" <= g[p..]
  }

  /** A placeholder is shown whole or not at all. */
  lemma PlaceholdersStayWhole(g: string, budget: nat, p: nat, name: string)
    requires PlaceholderAt(g, p, name)
    ensures |Body(g, budget)| <= p || |Body(g, budget)| >= p + |REDACTED| + |name| + 1
  {
    var end := p + |REDACTED| + |name| + 1;
    var marker := REDACTED + name + "]";
    assert |marker| == end - p;
    assert forall k :: p <= k < end ==> g[k] == marker[k - p];
    if |g| > budget && budget > p {
      var body := g[..budget];
      if budget < end {
        CutInsideAMarker(g, budget, p, name);
      } else {
        CutAfterAMarker(g, budget, p, name);
      }
    }
  }

  lemma MarkerChars(g: string, p: nat, name: string)
    requires PlaceholderAt(g, p, name)
    ensures var end := p + |REDACTED| + |name| + 1;
            && end <= |g| && g[p] == '[' && g[end - 1] == ']'
            && (forall k :: p < k < end ==> g[k] != '[')
            && (forall k :: p <= k < end - 1 ==> g[k] != ']')
            && g[p..end] == REDACTED + name + "]"
  {
    var marker := REDACTED + name + "]";
    assert forall k :: 0 <= k < |marker| ==> g[p..][k] == marker[k];
    forall k | 0 < k < |marker|
      ensures marker[k] != '['
    {
      if |REDACTED| <= k < |REDACTED| + |name| { assert marker[k] == name[k - |REDACTED|]; }
    }
    forall k | 0 <= k < |marker| - 1
      ensures marker[k] != ']'
    {
      if |REDACTED| <= k { assert marker[k] == name[k - |REDACTED|]; }
    }
  }

  lemma CutInsideAMarker(g: string, budget: nat, p: nat, name: string)
    requires PlaceholderAt(g, p, name) && |g| > budget
    requires p < budget < p + |REDACTED| + |name| + 1
    ensures |DropOpenMarker(g[..budget])| <= p
  {
    MarkerChars(g, p, name);
    var body := g[..budget];
    var open := LastBracket(body);
    assert body[p] == '[';
    assert open == p by {
      assert open >= p;
      assert !(p < open < budget);
    }
    var frag := body[open..];
    assert frag == g[p..p + |REDACTED| + |name| + 1][..budget - p];
    assert frag == (REDACTED + name + "]")[..budget - p];
    assert ']' !in frag;
    if |frag| <= |REDACTED| {
      assert frag == REDACTED[..|frag|];
    } else {
      assert frag[..|REDACTED|] == REDACTED;
    }
  }

  lemma CutAfterAMarker(g: string, budget: nat, p: nat, name: string)
    requires PlaceholderAt(g, p, name) && |g| > budget
    requires budget >= p + |REDACTED| + |name| + 1
    ensures |Body(g, budget)| >= p + |REDACTED| + |name| + 1
  {
    MarkerChars(g, p, name);
    var end := p + |REDACTED| + |name| + 1;
    var body := g[..budget];
    var open := LastBracket(body);
    assert body[p] == '[' && body[end - 1] == ']';
    var kept := DropOpenMarker(body);
    assert |kept| >= end by {
      assert body[p..][end - 1 - p] == ']';
      if kept != body {
        assert open >= end;
        assert body[..open][end - 1] == ']';
      }
    }
    assert kept[end - 1] == ']';
  }
}
