/** What an HTML tokenizer makes of a script element's text (the WHATWG HTML standard, sections
    13.2.5.4 and 13.2.5.15 to 13.2.5.31), and so which pages of scripts/build_pocket_page.py end
    their script where the template ends it. */
module ScriptData {
  import opened Wrappers
  import opened Json
  import opened PocketPage
  import opened Decimals

  /** The states, those for a tag's name with the letters read so far. `Closed` is past the end
      tag of the script. */
  datatype State =
    | Data | DataLess | EndOpen | EndName(name: string) | EscapeStart | EscapeStartDash
    | Escaped | EscapedDash | EscapedDashDash | EscapedLess | EscapedEndOpen | EscapedEndName(name: string)
    | DoubleStart(name: string) | Doubled | DoubledDash | DoubledDashDash | DoubledLess | DoubleEnd(name: string)
    | Closed

  predicate Letter(c: char) { 'a' <= c <= 'z' || 'A' <= c <= 'Z' }

  function Lower(c: char): char { if 'A' <= c <= 'Z' then c - 'A' + 'a' else c }

  predicate Delimiter(c: char) { c == '\t' || c == '\n' || c == '\U{0C}' || c == ' ' || c == '/' || c == '>' }

  /** Is the name read "script", in whatever case? */
  predicate IsScript(name: string) {
    && |name| == 6
    && Lower(name[0]) == 's' && Lower(name[1]) == 'c' && Lower(name[2]) == 'r'
    && Lower(name[3]) == 'i' && Lower(name[4]) == 'p' && Lower(name[5]) == 't'
  }

  function FromData(c: char): State { if c == '<' then DataLess else Data }

  function FromEscaped(c: char): State {
    if c == '-' then EscapedDash else if c == '<' then EscapedLess else Escaped
  }

  function FromDoubled(c: char): State {
    if c == '-' then DoubledDash else if c == '<' then DoubledLess else Doubled
  }

  function Read(s: State, c: char): State {
    match s
    case Data => FromData(c)
    case DataLess => if c == '/' then EndOpen else if c == '!' then EscapeStart else FromData(c)
    case EndOpen => if Letter(c) then EndName([c]) else FromData(c)
    case EndName(name) =>
      if Delimiter(c) && IsScript(name) then Closed
      else if Letter(c) then EndName(name + [c])
      else FromData(c)
    case EscapeStart => if c == '-' then EscapeStartDash else FromData(c)
    case EscapeStartDash => if c == '-' then EscapedDashDash else FromData(c)
    case Escaped => FromEscaped(c)
    case EscapedDash => if c == '-' then EscapedDashDash else FromEscaped(c)
    case EscapedDashDash => if c == '-' then EscapedDashDash else if c == '>' then Data else FromEscaped(c)
    case EscapedLess =>
      if c == '/' then EscapedEndOpen else if Letter(c) then DoubleStart([c]) else FromEscaped(c)
    case EscapedEndOpen => if Letter(c) then EscapedEndName([c]) else FromEscaped(c)
    case EscapedEndName(name) =>
      if Delimiter(c) && IsScript(name) then Closed
      else if Letter(c) then EscapedEndName(name + [c])
      else FromEscaped(c)
    case DoubleStart(name) =>
      if Delimiter(c) then (if IsScript(name) then Doubled else Escaped)
      else if Letter(c) then DoubleStart(name + [c])
      else FromEscaped(c)
    case Doubled => FromDoubled(c)
    case DoubledDash => if c == '-' then DoubledDashDash else FromDoubled(c)
    case DoubledDashDash => if c == '-' then DoubledDashDash else if c == '>' then Data else FromDoubled(c)
    case DoubledLess => if c == '/' then DoubleEnd("") else FromDoubled(c)
    case DoubleEnd(name) =>
      if Delimiter(c) then (if IsScript(name) then Escaped else Doubled)
      else if Letter(c) then DoubleEnd(name + [c])
      else FromDoubled(c)
    case Closed => Closed
  }

  /** The state after a text, read from the start of a script. */
  function After(text: string): State {
    if text == [] then Data else Read(After(text[..|text| - 1]), text[|text| - 1])
  }

  // --- what the text itself says -------------------------------------------

  /** `<!--` stands at i. */
  ghost predicate OpensAt(text: string, i: int) {
    0 <= i && i + 3 < |text| && text[i] == '<' && text[i + 1] == '!' && text[i + 2] == '-' && text[i + 3] == '-'
  }

  /** `-->` stands at j. */
  ghost predicate EndsAt(text: string, j: int) {
    0 <= j && j + 2 < |text| && text[j] == '-' && text[j + 1] == '-' && text[j + 2] == '>'
  }

  /** A comment opens at i and is not closed; its own dashes may close it. */
  ghost predicate OpenComment(text: string, i: int) {
    OpensAt(text, i) && forall j :: i + 2 <= j ==> !EndsAt(text, j)
  }

  ghost predicate Commented(text: string) { exists i :: OpenComment(text, i) }

  /** A script tag opens at k. */
  ghost predicate ScriptTagAt(text: string, k: int) {
    0 <= k && k + 7 < |text| && text[k] == '<' && IsScript(text[k + 1..k + 7]) && Delimiter(text[k + 7])
  }

  /** In a comment that stays open, a script tag opens. */
  ghost predicate HidesItsEnd(text: string) {
    exists i, k :: OpenComment(text, i) && i < k && ScriptTagAt(text, k)
  }

  /** An end tag of the script stands at k. */
  ghost predicate EndTagAt(text: string, k: int) {
    && 0 <= k && k + 8 < |text| && text[k] == '<' && text[k + 1] == '/'
    && IsScript(text[k + 2..k + 8]) && Delimiter(text[k + 8])
  }

  /** The text may close other tags, as strings of the page's script do, but not the script. */
  ghost predicate NoEndTag(text: string) { forall k :: !EndTagAt(text, k) }

  /** The letters since a last `<`, when there are only letters since. */
  function TagSoFar(text: string): Option<string> {
    if text == [] then None
    else
      var c := text[|text| - 1];
      if c == '<' then Some("")
      else if !Letter(c) then None
      else
        match TagSoFar(text[..|text| - 1])
        case None => None
        case Some(name) => Some(name + [c])
  }

  /** The letters since a last `</`, when there are only letters since. */
  function EndSoFar(text: string): Option<string> {
    if |text| < 2 then None
    else
      var c := text[|text| - 1];
      if c == '/' && text[|text| - 2] == '<' then Some("")
      else if !Letter(c) then None
      else
        match EndSoFar(text[..|text| - 1])
        case None => None
        case Some(name) => Some(name + [c])
  }

  /** The dashes at the end, two at most. */
  function Dashes(text: string): (n: nat)
    ensures n <= 2
  {
    if text == [] || text[|text| - 1] != '-' then 0
    else if |text| == 1 || text[|text| - 2] != '-' then 1
    else 2
  }

  /** How much of `<!-` the text ends in. */
  function Opening(text: string): (k: nat)
    ensures k <= 3
  {
    var n := |text|;
    if n >= 1 && text[n - 1] == '<' then 1
    else if n >= 2 && text[n - 2] == '<' && text[n - 1] == '!' then 2
    else if n >= 3 && text[n - 3] == '<' && text[n - 2] == '!' && text[n - 1] == '-' then 3
    else 0
  }

  /** The state that a text with no end tag is left in, told from the text. */
  ghost function Told(text: string): State {
    if !Commented(text) then
      match EndSoFar(text)
      case Some(name) => if name == "" then EndOpen else EndName(name)
      case None =>
        if Opening(text) == 0 then Data
        else if Opening(text) == 1 then DataLess
        else if Opening(text) == 2 then EscapeStart
        else EscapeStartDash
    else if HidesItsEnd(text) then
      match EndSoFar(text)
      case Some(name) => DoubleEnd(name)
      case None =>
        if TagSoFar(text) == Some("") then DoubledLess
        else if Dashes(text) == 0 then Doubled
        else if Dashes(text) == 1 then DoubledDash
        else DoubledDashDash
    else
      match (EndSoFar(text), TagSoFar(text))
      case (Some(name), _) => if name == "" then EscapedEndOpen else EscapedEndName(name)
      case (None, Some(name)) => if name == "" then EscapedLess else DoubleStart(name)
      case (None, None) =>
        if Dashes(text) == 0 then Escaped
        else if Dashes(text) == 1 then EscapedDash
        else EscapedDashDash
  }

  // --- one character more --------------------------------------------------

  lemma OpenLonger(text: string, c: char, i: int)
    ensures OpenComment(text + [c], i) <==>
            (OpenComment(text, i) && !(c == '>' && Dashes(text) == 2))
            || (i == |text| - 3 && c == '-' && Opening(text) == 3)
  {
    var all := text + [c];
    assert OpensAt(all, i) <==> OpensAt(text, i) || (i == |text| - 3 && c == '-' && Opening(text) == 3);
    assert forall j :: EndsAt(all, j) <==> EndsAt(text, j) || (j == |text| - 2 && c == '>' && Dashes(text) == 2);
    if OpensAt(text, i) && c == '>' && Dashes(text) == 2 {
      assert EndsAt(all, |text| - 2);
    }
  }

  /** A comment closes at `-->`, and opens with the second dash of `<!--`. */
  lemma CommentedLonger(text: string, c: char)
    ensures Commented(text + [c]) <==>
            if Commented(text) then !(c == '>' && Dashes(text) == 2) else c == '-' && Opening(text) == 3
  {
    hide OpenComment, Dashes, Opening;
    forall i
      ensures OpenComment(text + [c], i) <==>
              (OpenComment(text, i) && !(c == '>' && Dashes(text) == 2))
              || (i == |text| - 3 && c == '-' && Opening(text) == 3)
    {
      OpenLonger(text, c, i);
    }
    BothEnds(text);
    if Commented(text) {
      var i :| OpenComment(text, i);
      assert OpenComment(text + [c], i) <==> !(c == '>' && Dashes(text) == 2);
    }
    assert OpenComment(text + [c], |text| - 3) <== c == '-' && Opening(text) == 3;
  }

  lemma BothEnds(text: string)
    ensures !(Opening(text) == 3 && Dashes(text) == 2)
  {
  }

  // --- script tags ----------------------------------------------------------

  /** What the letters since the last `<` are. */
  lemma {:induction false} TagIsTheEnd(text: string, name: string)
    ensures TagSoFar(text) == Some(name) <==>
            && |name| < |text| && text[|text| - |name| - 1] == '<' && text[|text| - |name|..] == name
            && forall k :: 0 <= k < |name| ==> Letter(name[k])
    decreases |text|
  {
    if text == [] {
    } else {
      var before, c := text[..|text| - 1], text[|text| - 1];
      assert text == before + [c];
      if name != "" {
        var first, last := name[..|name| - 1], name[|name| - 1];
        assert name == first + [last];
        TagIsTheEnd(before, first);
        if |name| < |text| {
          assert text[|text| - |name|..] == before[|before| - |first|..] + [c];
        }
      }
    }
  }

  lemma ScriptIsLetters(name: string)
    requires IsScript(name)
    ensures forall k :: 0 <= k < |name| ==> Letter(name[k])
  {
  }

  /** Does the text end in a script tag that lacks its delimiter? */
  ghost predicate Tagged(text: string) { TagSoFar(text).Some? && IsScript(TagSoFar(text).value) }

  lemma TaggedIsTheEnd(text: string)
    ensures Tagged(text) <==> |text| >= 7 && text[|text| - 7] == '<' && IsScript(text[|text| - 6..])
  {
    if |text| >= 7 && text[|text| - 7] == '<' && IsScript(text[|text| - 6..]) {
      ScriptIsLetters(text[|text| - 6..]);
      TagIsTheEnd(text, text[|text| - 6..]);
    }
    TagIsItself(text);
  }

  /** A script tag is new exactly when this character delimits its name. */
  lemma TagLonger(text: string, c: char, k: int)
    ensures ScriptTagAt(text + [c], k) <==> ScriptTagAt(text, k) || (k == |text| - 7 && Delimiter(c) && Tagged(text))
  {
    hide Tagged, IsScript, Delimiter;
    var all := text + [c];
    TaggedIsTheEnd(text);
    if 0 <= k && k + 7 <= |text| {
      assert all[k + 1..k + 7] == text[k + 1..k + 7];
      assert k + 7 == |text| ==> text[k + 1..k + 7] == text[|text| - 6..];
    }
  }

  lemma TagIsItself(text: string)
    ensures TagSoFar(text).Some? ==> |TagSoFar(text).value| < |text|
    ensures TagSoFar(text).Some? ==> text[|text| - |TagSoFar(text).value|..] == TagSoFar(text).value
    ensures TagSoFar(text).Some? ==> text[|text| - |TagSoFar(text).value| - 1] == '<'
    ensures TagSoFar(text).Some? ==> forall k :: 0 <= k < |TagSoFar(text).value| ==> Letter(TagSoFar(text).value[k])
  {
    if TagSoFar(text).Some? {
      TagIsTheEnd(text, TagSoFar(text).value);
    }
  }

  /** A comment open at i opened before the tag the text ends in. */
  lemma TagAfterComment(text: string, i: int)
    requires OpenComment(text, i) && Tagged(text)
    ensures i < |text| - 7
  {
    TagIsItself(text);
    var name := TagSoFar(text).value;
    var k := |text| - 7;
    assert text[k + 1..] == name;
    assert forall j :: 0 <= j < 6 ==> text[k + 1 + j] == name[j];
  }

  lemma HiddenLonger(text: string, c: char)
    requires Commented(text + [c])
    ensures HidesItsEnd(text + [c]) <==>
            Commented(text) && (HidesItsEnd(text) || (Delimiter(c) && Tagged(text)))
  {
    hide OpenComment, ScriptTagAt, Tagged, IsScript, Delimiter, Opening, Dashes;
    if HidesItsEnd(text + [c]) {
      HiddenBefore(text, c);
    }
    if Commented(text) && (HidesItsEnd(text) || (Delimiter(c) && Tagged(text))) {
      HiddenAfter(text, c);
    }
  }

  lemma HiddenBefore(text: string, c: char)
    requires HidesItsEnd(text + [c])
    ensures Commented(text) && (HidesItsEnd(text) || (Delimiter(c) && Tagged(text)))
  {
    hide Tagged, IsScript, Delimiter, Opening, Dashes;
    var i, k :| OpenComment(text + [c], i) && i < k && ScriptTagAt(text + [c], k);
    OpenLonger(text, c, i);
    TagLonger(text, c, k);
    assert k <= |text| - 7;
    assert OpenComment(text, i);
  }

  lemma HiddenAfter(text: string, c: char)
    requires Commented(text) && Commented(text + [c])
    requires HidesItsEnd(text) || (Delimiter(c) && Tagged(text))
    ensures HidesItsEnd(text + [c])
  {
    hide Tagged, IsScript, Delimiter, Opening, Dashes, ScriptTagAt, OpenComment;
    CommentedLonger(text, c);
    if HidesItsEnd(text) {
      var i, k :| OpenComment(text, i) && i < k && ScriptTagAt(text, k);
      OpenLonger(text, c, i);
      TagLonger(text, c, k);
    } else {
      var i :| OpenComment(text, i);
      OpenLonger(text, c, i);
      TagAfterComment(text, i);
      TagLonger(text, c, |text| - 7);
    }
  }

  // --- the tokenizer, told from the text -----------------------------------

  lemma TagOneMore(text: string, c: char)
    ensures TagSoFar(text + [c]) ==
            if c == '<' then Some("") else if !Letter(c) then None
            else if TagSoFar(text).None? then None else Some(TagSoFar(text).value + [c])
    ensures TagSoFar(text) == Some("") <==> text != [] && text[|text| - 1] == '<'
  {
    assert (text + [c])[..|text|] == text;
  }

  lemma EndOneMore(text: string, c: char)
    ensures EndSoFar(text + [c]) ==
            if c == '/' && TagSoFar(text) == Some("") then Some("") else if !Letter(c) then None
            else if EndSoFar(text).None? then None else Some(EndSoFar(text).value + [c])
    ensures EndSoFar(text).Some? ==> TagSoFar(text).None? && Dashes(text) == 0 && Opening(text) == 0
    decreases |text|
  {
    TagOneMore(text, c);
    assert (text + [c])[..|text|] == text;
    if text != [] {
      var before := text[..|text| - 1];
      assert text == before + [text[|text| - 1]];
      EndOneMore(before, text[|text| - 1]);
      TagOneMore(before, text[|text| - 1]);
    }
  }

  lemma DashesOneMore(text: string, c: char)
    ensures Dashes(text + [c]) == if c != '-' then 0 else if Dashes(text) == 0 then 1 else 2
    ensures Dashes(text) > 0 ==> TagSoFar(text).None?
    ensures TagSoFar(text).Some? ==> Dashes(text) == 0
  {
  }

  lemma OpeningOneMore(text: string, c: char)
    ensures Opening(text + [c]) ==
            if c == '<' then 1 else if c == '!' && Opening(text) == 1 then 2 else if c == '-' && Opening(text) == 2 then 3 else 0
    ensures Opening(text) == 1 <==> TagSoFar(text) == Some("")
    ensures Opening(text) == 3 ==> Dashes(text) == 1
  {
    TagOneMore(text, c);
  }

  /** Does the text end in an end tag of the script that lacks its delimiter? */
  ghost predicate EndTagged(text: string) { EndSoFar(text).Some? && IsScript(EndSoFar(text).value) }

  /** Reading one character more, when it completes no end tag. */
  lemma ToldLonger(text: string, c: char)
    requires !(Delimiter(c) && EndTagged(text))
    ensures Told(text + [c]) == Read(Told(text), c)
  {
    hide Commented, HidesItsEnd, TagSoFar, EndSoFar, Dashes, Opening, IsScript;
    TagOneMore(text, c);
    EndOneMore(text, c);
    EndOneMore(text + [c], c);
    DashesOneMore(text, c);
    OpeningOneMore(text, c);
    CommentedLonger(text, c);
    HiddenIsCommented(text);
    NoNameIsNoScript();
    assert "" + [c] == [c];
    assert TagSoFar(text).Some? ==> TagSoFar(text).value + [c] != "";
    assert EndSoFar(text).Some? ==> EndSoFar(text).value + [c] != "";
    if Commented(text + [c]) {
      HiddenLonger(text, c);
    }
  }

  /** What the letters since the last `</` are. */
  lemma {:induction false} EndIsTheEnd(text: string)
    requires EndSoFar(text).Some?
    ensures
      var name := EndSoFar(text).value;
      && |name| + 2 <= |text| && text[|text| - |name| - 2] == '<' && text[|text| - |name| - 1] == '/'
      && text[|text| - |name|..] == name
    decreases |text|
  {
    var before, c := text[..|text| - 1], text[|text| - 1];
    if c == '/' && text[|text| - 2] == '<' {
    } else {
      EndIsTheEnd(before);
      assert text == before + [c];
    }
  }

  /** A delimiter after one completes it. */
  lemma EndTagCompleted(text: string, c: char)
    requires Delimiter(c) && EndTagged(text)
    ensures EndTagAt(text + [c], |text| - 8)
  {
    EndIsTheEnd(text);
    var k := |text| - 8;
    assert (text + [c])[k + 2..k + 8] == EndSoFar(text).value;
  }

  lemma NoNameIsNoScript()
    ensures !IsScript("")
  {
  }

  lemma HiddenIsCommented(text: string)
    ensures HidesItsEnd(text) ==> Commented(text)
  {
  }

  lemma EndTagStays(text: string, c: char, k: int)
    ensures EndTagAt(text, k) ==> EndTagAt(text + [c], k)
  {
    if 0 <= k && k + 8 < |text| {
      assert (text + [c])[k + 2..k + 8] == text[k + 2..k + 8];
    }
  }

  lemma NoEndTagBefore(text: string, c: char)
    requires NoEndTag(text + [c])
    ensures NoEndTag(text)
  {
    hide EndTagAt;
    forall k
      ensures !EndTagAt(text, k)
    {
      EndTagStays(text, c, k);
    }
  }

  lemma {:induction false} AfterIsTold(text: string)
    requires NoEndTag(text)
    ensures After(text) == Told(text)
  {
    hide EndTagAt, EndTagged, Told, Read;
    if text == [] {
      ToldOfNothing();
    } else {
      var before, c := text[..|text| - 1], text[|text| - 1];
      assert text == before + [c];
      NoEndTagBefore(before, c);
      AfterIsTold(before);
      if Delimiter(c) && EndTagged(before) {
        EndTagCompleted(before, c);
        assert false;
      }
      ToldLonger(before, c);
    }
  }

  lemma ToldOfNothing()
    ensures Told("") == Data
  {
    assert !Commented("");
  }

  // --- where the script ends -----------------------------------------------

  function ReadAll(s: State, more: string): State
    decreases |more|
  {
    if more == "" then s else ReadAll(Read(s, more[0]), more[1..])
  }

  lemma {:induction false} AfterMore(text: string, more: string)
    ensures After(text + more) == ReadAll(After(text), more)
    decreases |more|
  {
    if more == "" {
      assert text + more == text;
    } else {
      var longer := text + [more[0]];
      assert longer[..|text|] == text;
      assert text + more == longer + more[1..];
      AfterMore(longer, more[1..]);
    }
  }

  /** What the rest of an end tag does after its `<`. */
  lemma EndTagRead()
    ensures ReadAll(DataLess, "/script>") == Closed
    ensures ReadAll(EscapedLess, "/script>") == Closed
    ensures ReadAll(DoubledLess, "/script>") == Escaped
  {
    hide ReadAll, Read;
    FirstReads();
    SlashRead(DataLess, EndOpen, EndName("s"));
    SlashRead(EscapedLess, EscapedEndOpen, EscapedEndName("s"));
    SlashRead(DoubledLess, DoubleEnd(""), DoubleEnd("s"));
    NameRead(EndName("s"));
    NameRead(EscapedEndName("s"));
    NameRead(DoubleEnd("s"));
  }

  lemma FirstReads()
    ensures Read(DataLess, '/') == EndOpen && Read(EndOpen, 's') == EndName("s")
    ensures Read(EscapedLess, '/') == EscapedEndOpen && Read(EscapedEndOpen, 's') == EscapedEndName("s")
    ensures Read(DoubledLess, '/') == DoubleEnd("") && Read(DoubleEnd(""), 's') == DoubleEnd("s")
  {
    assert "" + ['s'] == "s";
  }

  lemma SlashRead(s: State, open: State, named: State)
    requires Read(s, '/') == open && Read(open, 's') == named
    ensures ReadAll(s, "/script>") == ReadAll(named, "cript>")
  {
    hide ReadAll, Read;
    assert "/script>" == ['/'] + "script>" && "script>" == ['s'] + "cript>";
    OneRead(s, '/', "script>");
    OneRead(open, 's', "cript>");
  }

  lemma OneRead(s: State, c: char, rest: string)
    ensures ReadAll(s, [c] + rest) == ReadAll(Read(s, c), rest)
  {
    assert ([c] + rest)[1..] == rest;
  }

  /** A letter of a tag's name. */
  lemma LetterRead(s: State, c: char, rest: string)
    requires (s.EndName? || s.EscapedEndName? || s.DoubleEnd?) && Letter(c)
    ensures ReadAll(s, [c] + rest) == ReadAll(s.(name := s.name + [c]), rest)
  {
    OneRead(s, c, rest);
  }

  lemma NameRead(s: State)
    requires s == EndName("s") || s == EscapedEndName("s") || s == DoubleEnd("s")
    ensures ReadAll(s, "cript>") == if s.DoubleEnd? then Escaped else Closed
  {
    hide ReadAll, Read, IsScript;
    var whole := s.(name := "script");
    assert "cript>" == ['c'] + "ript>" && "ript>" == ['r'] + "ipt>" && "ipt>" == ['i'] + "pt>";
    assert "pt>" == ['p'] + "t>" && "t>" == ['t'] + ">";
    assert "s" + ['c'] == "sc" && "sc" + ['r'] == "scr" && "scr" + ['i'] == "scri";
    assert "scri" + ['p'] == "scrip" && "scrip" + ['t'] == "script";
    LetterRead(s, 'c', "ript>");
    LetterRead(s.(name := "sc"), 'r', "ipt>");
    LetterRead(s.(name := "scr"), 'i', "pt>");
    LetterRead(s.(name := "scri"), 'p', "t>");
    LetterRead(s.(name := "scrip"), 't', ">");
    ReadDelimiter(whole);
    assert ">" == ['>'] + "";
    OneRead(whole, '>', "");
    NothingRead(Read(whole, '>'));
  }

  lemma NothingRead(s: State)
    ensures ReadAll(s, "") == s
  {
  }

  lemma ReadDelimiter(s: State)
    requires s == EndName("script") || s == EscapedEndName("script") || s == DoubleEnd("script")
    ensures Read(s, '>') == if s.DoubleEnd? then Escaped else Closed
  {
    assert IsScript(s.name);
  }

  /** The three states the `<` of an end tag can leave. */
  lemma LessTold(text: string)
    requires NoEndTag(text)
    ensures After(text + "<") ==
            if !Commented(text) then DataLess else if HidesItsEnd(text) then DoubledLess else EscapedLess
  {
    hide Commented, HidesItsEnd, TagSoFar, EndSoFar, Dashes, Opening, EndTagAt, After, Read;
    AfterIsTold(text);
    AfterOneMore(text, '<');
    ToldLonger(text, '<');
    CommentedLonger(text, '<');
    if Commented(text + "<") {
      HiddenLonger(text, '<');
    }
    TagOneMore(text, '<');
    EndOneMore(text, '<');
    OpeningOneMore(text, '<');
  }

  lemma AfterOneMore(text: string, c: char)
    ensures After(text + [c]) == Read(After(text), c)
  {
    assert (text + [c])[..|text|] == text;
  }

  /** A script's text with no end tag in it does not end it, and the end tag that follows does,
      exactly when the text opens no script tag in a comment it leaves open. */
  lemma EndTagEnds(text: string)
    requires NoEndTag(text)
    ensures After(text) != Closed
    ensures After(text + "</script>") == Closed <==> !HidesItsEnd(text)
  {
    hide After, ReadAll, Commented, HidesItsEnd, TagSoFar, EndSoFar, Dashes, Opening;
    AfterIsTold(text);
    HiddenIsCommented(text);
    LessTold(text);
    AfterMore(text + "<", "/script>");
    assert text + "<" + "/script>" == text + "</script>";
    EndTagRead();
  }

  /** The payload brings no end tag, by itself or together with what stands around it. */
  lemma PayloadBringsNoEndTag(head: string, v: Value, rest: string)
    requires v.Obj? && NoEndTag(head) && NoEndTag(rest)
    ensures NoEndTag(head + Safe(v) + rest)
  {
    hide EndTagAt, Safe;
    forall k
      ensures !EndTagAt(head + Safe(v) + rest, k)
    {
      assert !EndTagAt(head, k) && !EndTagAt(rest, k - |head| - |Safe(v)|);
      EndTagInTemplate(head, v, rest, k);
    }
  }

  lemma EndTagInTemplate(head: string, v: Value, rest: string, k: int)
    requires v.Obj?
    ensures EndTagAt(head + Safe(v) + rest, k) ==> EndTagAt(head, k) || EndTagAt(rest, k - |head| - |Safe(v)|)
  {
    FirstIsKept(Dump(v));
    assert Safe(v) != "" && Safe(v)[0] == '{';
    hide Safe;
    if EndTagAt(head + Safe(v) + rest, k) {
      PageClosesAsTheTemplate(head, v, rest, k);
      EndTagInPart(head, Safe(v), rest, k);
    }
  }

  lemma EndTagInPart(head: string, text: string, rest: string, k: int)
    requires text != "" && text[0] == '{' && EndTagAt(head + text + rest, k)
    requires ClosesAt(head, k) || ClosesAt(rest, k - |head| - |text|)
    ensures EndTagAt(head, k) || EndTagAt(rest, k - |head| - |text|)
  {
    var page := head + text + rest;
    var name := page[k + 2..k + 8];
    ScriptIsLetters(name);
    if ClosesAt(head, k) {
      assert page[|head|] == '{';
      assert forall j :: 0 <= j < 6 ==> page[k + 2 + j] == name[j];
      assert k + 8 < |head|;
      assert head[k + 2..k + 8] == name;
    } else {
      var j := k - |head| - |text|;
      assert rest[j + 2..j + 8] == name;
    }
  }

  /** The page's script, the template's `head`, the payload and the template's `rest` up to its
      end tag: no chunk can end it early, and it ends at that tag exactly when no chunk hides it. */
  lemma PageEndsItsScript(head: string, v: Value, rest: string)
    requires v.Obj? && NoEndTag(head) && NoEndTag(rest)
    ensures After(head + Safe(v) + rest) != Closed
    ensures After(head + Safe(v) + rest + "</script>") == Closed <==> !HidesItsEnd(head + Safe(v) + rest)
  {
    hide Safe, After, HidesItsEnd, NoEndTag;
    PayloadBringsNoEndTag(head, v, rest);
    EndTagEnds(head + Safe(v) + rest);
  }

  // --- a chunk that hides it -----------------------------------------------

  ghost predicate NeverCloses(text: string) { forall i :: !ClosesAt(text, i) }

  /** A text with nothing to rewrite is left as it is. */
  lemma {:induction false} NothingToRewrite(s: string)
    requires NeverCloses(s)
    ensures ScriptSafe(s) == s
  {
    if s == "" {
    } else {
      assert !ClosesAt(s, 0);
      forall i
        ensures !ClosesAt(s[1..], i)
      {
        assert i >= 0 ==> !ClosesAt(s, i + 1);
      }
      NothingToRewrite(s[1..]);
    }
  }

  ghost predicate Plain(s: string) {
    forall i :: 0 <= i < |s| ==> s[i] != '"' && s[i] != '\\' && !Control(s[i])
  }

  lemma PlainCharacter(c: char)
    requires c != '"' && c != '\\' && !Control(c)
    ensures Escape(c) == [c]
  {
  }

  lemma {:induction false} NothingToEscape(s: string)
    requires Plain(s)
    ensures Json.Escaped(s) == s
  {
    hide Escape;
    if s == "" {
    } else {
      PlainCharacter(s[0]);
      NothingToEscape(s[1..]);
      assert s == [s[0]] + s[1..];
    }
  }

  const HIDING := "<!--<script>"

  const CORPUS := [Chunk("", 0, HIDING)]

  /** What stands around that chunk's text in the payload. */
  ghost function Opener(): string {
    "{" + (Quoted("sha") + ": " + Quoted("") + ", " + (Quoted("chunks") + ": " + ("[" + ("{" +
    (Quoted("p") + ": " + Quoted("") + ", " + (Quoted("i") + ": " + Decimal(0) + ", " + (Quoted("t") + ": " + "\"")))))))
  }

  lemma DumpOfCorpus()
    ensures Dump(Payload("", CORPUS)) == Opener() + HIDING + "\"}]}"
  {
    hide Quoted, Decimal;
    assert Rows(CORPUS[1..]) == NoItem;
    var row := Field("p", Str(""), Field("i", Num(0), Field("t", Str(HIDING), NoField)));
    assert Rows(CORPUS) == Item(Obj(row), NoItem);
    assert Dump(Str(HIDING)) == "\"" + HIDING + "\"" by {
      QuotedHiding();
    }
    assert DumpFields(Field("t", Str(HIDING), NoField)) == Quoted("t") + ": " + ("\"" + HIDING + "\"");
  }

  lemma QuotedHiding()
    ensures Quoted(HIDING) == "\"" + HIDING + "\""
  {
    hide Json.Escaped, Escape;
    NothingToEscape(HIDING);
  }

  /** Such a corpus is well-formed and round-trips like any other, and whatever the template's
      script holds around it, short of a `-->` after it, the template's end tag does not end it. */
  lemma AChunkHidesTheEnd(head: string, rest: string)
    requires NoEndTag(head) && NoEndTag(rest) && forall j :: !EndsAt(rest, j)
    ensures After(head + Safe(Payload("", CORPUS)) + rest + "</script>") != Closed
  {
    hide Opener, After, Safe, NoEndTag;
    var v := Payload("", CORPUS);
    SafeOfCorpus();
    var before := head + Opener();
    assert head + Safe(v) + rest == before + HIDING + ("\"}]}" + rest);
    TagHidden(before, rest);
    PageEndsItsScript(head, v, rest);
  }

  /** The end of another tag is no end tag of the script, whatever stands around it. */
  lemma OtherTag(before: string, name: string, after: string)
    requires NoEndTag(before) && NoEndTag(after)
    requires !IsScript(name) && forall i :: 0 <= i < |name| ==> Letter(name[i])
    ensures NoEndTag(before + "</" + name + ">" + after)
  {
    hide EndTagAt;
    forall k
      ensures !EndTagAt(before + "</" + name + ">" + after, k)
    {
      assert !EndTagAt(before, k) && !EndTagAt(after, k - |before| - |name| - 3);
      OtherTagIsElsewhere(before, name, after, k);
    }
  }

  lemma OtherTagIsElsewhere(before: string, name: string, after: string, k: int)
    requires !IsScript(name) && forall i :: 0 <= i < |name| ==> Letter(name[i])
    ensures EndTagAt(before + "</" + name + ">" + after, k) ==>
              EndTagAt(before, k) || EndTagAt(after, k - |before| - |name| - 3)
  {
    var text := before + "</" + name + ">" + after;
    var n, m := |before|, |name|;
    if EndTagAt(text, k) {
      var found := text[k + 2..k + 8];
      ScriptIsLetters(found);
      assert forall i :: 0 <= i < 6 ==> text[k + 2 + i] == found[i];
      assert text[n] == '<' && text[n + 2 + m] == '>' && forall i :: 0 <= i < m ==> text[n + 2 + i] == name[i];
      assert text[n + 2..n + 2 + m] == name;
      if k < n {
        assert before[k + 2..k + 8] == found;
      } else if k > n {
        var j := k - n - m - 3;
        assert after[j + 2..j + 8] == found;
      }
    }
  }

  /** The template's script closes other tags after the corpus, `</mark>` among them, and that
      changes nothing: the corpus above keeps that script open too. */
  lemma OtherTagsDoNotHelp(head: string, before: string, after: string)
    requires NoEndTag(head) && NoEndTag(before) && NoEndTag(after)
    requires forall j :: !EndsAt(before + "</" + "mark" + ">" + after, j)
    ensures After(head + Safe(Payload("", CORPUS)) + (before + "</" + "mark" + ">" + after) + "</script>") != Closed
  {
    hide After, Safe, NoEndTag;
    OtherTag(before, "mark", after);
    AChunkHidesTheEnd(head, before + "</" + "mark" + ">" + after);
  }

  lemma SafeOfCorpus()
    ensures Safe(Payload("", CORPUS)) == Opener() + HIDING + "\"}]}"
  {
    DumpOfCorpus();
    OpenerIsPlain();
    hide Opener, ScriptSafe, Dump;
    NothingToRewrite(Opener() + HIDING + "\"}]}");
  }

  lemma OpenerIsPlain()
    ensures NeverCloses(Opener() + HIDING + "\"}]}")
  {
    OpenerHasNoLess();
    hide Opener;
  }

  lemma OpenerHasNoLess()
    ensures '<' !in Opener()
  {
    hide Quoted, Decimal;
    QuotesNoLess("sha");
    QuotesNoLess("");
    QuotesNoLess("chunks");
    QuotesNoLess("p");
    QuotesNoLess("i");
    QuotesNoLess("t");
  }

  lemma QuotesNoLess(s: string)
    requires Plain(s) && '<' !in s
    ensures '<' !in Quoted(s)
  {
    hide Json.Escaped;
    NothingToEscape(s);
  }

  lemma TagHidden(before: string, rest: string)
    requires forall j :: !EndsAt(rest, j)
    ensures HidesItsEnd(before + HIDING + ("\"}]}" + rest))
  {
    var text := before + HIDING + ("\"}]}" + rest);
    var i := |before|;
    assert OpensAt(text, i);
    assert ScriptTagAt(text, i + 4) by {
      assert text[i + 5..i + 11] == "script";
    }
    forall j | i + 2 <= j
      ensures !EndsAt(text, j)
    {
      if j >= i + |HIDING| + 4 {
        assert !EndsAt(rest, j - (i + |HIDING| + 4));
      }
    }
    assert OpenComment(text, i);
  }
}
