/** The page of scripts/build_pocket_page.py: a corpus embedded as JSON that cannot end the script early. */
module PocketPage {
  import opened Wrappers
  import opened Json
  import opened Decimals

  /** `.replace("</", "<\\/")`. */
  function ScriptSafe(s: string): string {
    if s == [] then []
    else if |s| >= 2 && s[0] == '<' && s[1] == '/' then "<\\/" + ScriptSafe(s[2..])
    else [s[0]] + ScriptSafe(s[1..])
  }

  ghost predicate ClosesAt(s: string, i: int) {
    0 <= i && i + 1 < |s| && s[i] == '<' && s[i + 1] == '/'
  }

  ghost predicate StartsClosing(s: string) { |s| >= 2 && s[0] == '<' && s[1] == '/' }

  // --- the rewriting by itself ---------------------------------------------

  lemma {:induction false} FirstIsKept(s: string)
    ensures s == [] <==> ScriptSafe(s) == []
    ensures s != [] ==> ScriptSafe(s)[0] == s[0]
  {
  }

  lemma {:induction false} LastIsKept(s: string)
    requires s != []
    ensures ScriptSafe(s) != [] && ScriptSafe(s)[|ScriptSafe(s)| - 1] == s[|s| - 1]
  {
    FirstIsKept(s);
    if |s| >= 2 && s[0] == '<' && s[1] == '/' {
      if |s| > 2 {
        LastIsKept(s[2..]);
      }
    } else if |s| > 1 {
      LastIsKept(s[1..]);
    }
  }

  /** No `</` is left anywhere. */
  lemma {:induction false} NothingCloses(s: string, i: int)
    ensures !ClosesAt(ScriptSafe(s), i)
  {
    if s == [] {
    } else if |s| >= 2 && s[0] == '<' && s[1] == '/' {
      NothingCloses(s[2..], i - 3);
      var r := ScriptSafe(s[2..]);
      assert ScriptSafe(s) == "<\\/" + r;
      assert i >= 3 ==> (ClosesAt("<\\/" + r, i) <==> ClosesAt(r, i - 3));
    } else {
      NothingCloses(s[1..], i - 1);
      FirstIsKept(s[1..]);
      var r := ScriptSafe(s[1..]);
      assert ScriptSafe(s) == [s[0]] + r;
      assert i >= 1 ==> (ClosesAt([s[0]] + r, i) <==> ClosesAt(r, i - 1));
    }
  }

  lemma SafeStep(s: string)
    requires s != []
    ensures StartsClosing(s) ==> ScriptSafe(s) == "<\\/" + ScriptSafe(s[2..])
    ensures !StartsClosing(s) ==> ScriptSafe(s) == [s[0]] + ScriptSafe(s[1..])
    ensures |s| == 1 ==> ScriptSafe(s) == s
  {
  }

  /** The rewriting goes piece by piece, unless a `</` straddles the join. */
  lemma {:induction false} SafeConcat(a: string, b: string)
    requires a == [] || a[|a| - 1] != '<' || b == [] || b[0] != '/'
    ensures ScriptSafe(a + b) == ScriptSafe(a) + ScriptSafe(b)
  {
    if a == [] {
      assert a + b == b;
    } else {
      SafeStep(a + b);
      SafeStep(a);
      OpeningOfConcat(a, b);
      var n := if StartsClosing(a) then 2 else 1;
      SafeConcat(a[n..], b);
      hide *;
      Associate(if n == 2 then "<\\/" else [a[0]], ScriptSafe(a[n..]), ScriptSafe(b));
    }
  }

  lemma OpeningOfConcat(a: string, b: string)
    requires a != [] && (a[|a| - 1] != '<' || b == [] || b[0] != '/')
    ensures StartsClosing(a + b) <==> StartsClosing(a)
    ensures (a + b)[0] == a[0] && (a + b)[1..] == a[1..] + b
    ensures StartsClosing(a) ==> (a + b)[2..] == a[2..] + b
  {
  }

  lemma Associate(a: string, b: string, c: string)
    ensures (a + b) + c == a + (b + c)
  {
  }

  lemma {:induction false} PlainIsKept(s: string)
    requires '<' !in s
    ensures ScriptSafe(s) == s
  {
    if s == [] {
    } else {
      PlainIsKept(s[1..]);
    }
  }

  // --- strings -------------------------------------------------------------

  /** The rewriting of an escaped string, one character, or one `</`, at a time. */
  lemma SafeEscapedClosing(s: string)
    requires StartsClosing(s)
    ensures ScriptSafe(Escaped(s)) == "<\\/" + ScriptSafe(Escaped(s[2..]))
  {
    EscapedCons(s);
    EscapedCons(s[1..]);
    assert s[1..][1..] == s[2..];
    assert Escape('<') == "<" && Escape('/') == "/";
    hide Escape, Escaped;
    var e := Escaped(s);
    assert e == "</" + Escaped(s[2..]);
    assert e[2..] == Escaped(s[2..]);
  }

  lemma SafeEscapedPlain(s: string)
    requires s != [] && !StartsClosing(s)
    ensures ScriptSafe(Escaped(s)) == Escape(s[0]) + ScriptSafe(Escaped(s[1..]))
  {
    EscapedCons(s);
    EscapedStartsWithSlash(s[1..]);
    EscapeIsKept(s[0]);
    hide Escape, Escaped, ScriptSafe;
    SafeConcat(Escape(s[0]), Escaped(s[1..]));
  }

  lemma EscapedCons(s: string)
    requires s != []
    ensures Escaped(s) == Escape(s[0]) + Escaped(s[1..]) && Escape(s[0]) != []
  {
  }

  lemma EscapedStartsWithSlash(s: string)
    ensures Escaped(s) != [] && Escaped(s)[0] == '/' ==> s != [] && s[0] == '/'
  {
  }

  lemma EscapeIsKept(c: char)
    ensures ScriptSafe(Escape(c)) == Escape(c)
    ensures Escape(c)[|Escape(c)| - 1] == '<' ==> c == '<'
  {
    if c == '<' {
      assert Escape(c) == "<";
    } else {
      PlainIsKept(Escape(c));
    }
  }

  lemma ReadOneEscape(c: char, rest: string)
    ensures ReadString(Escape(c) + rest) == Push(c, ReadString(rest))
  {
    var e := Escape(c);
    assert (e + rest)[|e|..] == rest;
    if Control(c) && |e| == 6 {
      var n := c as nat;
      CodeStands(HexDigit(n / 16), HexDigit(n % 16), rest);
      assert e == "\\u00" + [HexDigit(n / 16), HexDigit(n % 16)];
      HexRoundTrip(n);
    }
  }

  lemma CodeStands(high: char, low: char, rest: string)
    ensures
      var text := "\\u00" + [high, low] + rest;
      && |text| >= 6 && text[0] == '\\' && text[1] == 'u'
      && text[2..][0] == '0' && text[2..][1] == '0' && text[2..][2] == high && text[2..][3] == low
  {
    var code := "\\u00" + [high, low];
    assert code == ['\\', 'u', '0', '0', high, low];
    assert forall i :: 0 <= i < 6 ==> (code + rest)[i] == code[i];
  }

  lemma HexRoundTrip(n: nat)
    requires n < 32
    ensures HexValue(HexDigit(n / 16)) == Some(n / 16) && HexValue(HexDigit(n % 16)) == Some(n % 16)
    ensures (n / 16) * 16 + n % 16 == n
  {
  }

  lemma ReadClosing(rest: string)
    ensures ReadString("<\\/" + rest) == Push('<', Push('/', ReadString(rest)))
  {
    var text := "<\\/" + rest;
    assert text[1..] == "\\/" + rest;
    assert ("\\/" + rest)[2..] == rest;
  }

  lemma ReadQuote(rest: string)
    ensures ReadString("\"" + rest) == Some(("", rest)) && ScriptSafe(Escaped([])) == []
  {
    assert ("\"" + rest)[1..] == rest;
  }

  /** Decoding the rewritten text of any string gives that string back, and stops at its quote. */
  lemma {:induction false} StringRoundTrip(s: string, rest: string)
    ensures ReadString(ScriptSafe(Escaped(s)) + "\"" + rest) == Some((s, rest))
  {
    hide ReadString, Escaped, Escape, ScriptSafe;
    if s == [] {
      ReadQuote(rest);
      assert ScriptSafe(Escaped([])) + "\"" + rest == "\"" + rest;
    } else if StartsClosing(s) {
      var tail := ScriptSafe(Escaped(s[2..])) + "\"" + rest;
      StringRoundTrip(s[2..], rest);
      SafeEscapedClosing(s);
      assert ScriptSafe(Escaped(s)) + "\"" + rest == "<\\/" + tail;
      ReadClosing(tail);
      assert ['<'] + (['/'] + s[2..]) == s;
    } else {
      var tail := ScriptSafe(Escaped(s[1..])) + "\"" + rest;
      StringRoundTrip(s[1..], rest);
      SafeEscapedPlain(s);
      assert ScriptSafe(Escaped(s)) + "\"" + rest == Escape(s[0]) + tail;
      ReadOneEscape(s[0], tail);
      assert [s[0]] + s[1..] == s;
    }
  }

  // --- whole documents -----------------------------------------------------

  /** The text of a value after the rewriting. */
  function Safe(v: Value): string { ScriptSafe(Dump(v)) }

  lemma {:induction false} DigitsRoundTrip(n: nat, rest: string)
    ensures ReadDigits(Decimal(n) + rest, 0) == ReadDigits(rest, n)
    decreases n
  {
    var last := ['0' + (n % 10) as char];
    assert (last + rest)[1..] == rest;
    if n < 10 {
    } else {
      DigitsRoundTrip(n / 10, last + rest);
      assert Decimal(n) + rest == Decimal(n / 10) + (last + rest);
    }
  }

  /** What a value's text opens with. */
  predicate Opener(c: char) { c == '"' || c == '[' || c == '{' || '0' <= c <= '9' }

  lemma DumpOpens(v: Value)
    ensures Dump(v) != [] && Opener(Dump(v)[0])
    ensures Safe(v) != [] && Opener(Safe(v)[0])
  {
    FirstIsKept(Dump(v));
  }

  lemma Surround(a: char, s: string, b: char)
    requires a != '<' && a != '/' && b != '<' && b != '/'
    ensures ScriptSafe([a] + s + [b]) == [a] + ScriptSafe(s) + [b]
  {
    SafeConcat([a] + s, [b]);
    SafeConcat([a], s);
    assert ScriptSafe([a]) == [a] && ScriptSafe([b]) == [b];
  }

  /** A join that neither ends in `<` nor starts with `/` takes the rewriting apart. */
  lemma Joined(a: string, join: string, b: string)
    requires join != [] && join[0] != '/' && join[|join| - 1] != '<' && '<' !in join
    ensures ScriptSafe(a + join + b) == ScriptSafe(a) + join + ScriptSafe(b)
  {
    SafeConcat(a + join, b);
    SafeConcat(a, join);
    PlainIsKept(join);
  }

  lemma SkipToOpener(s: string)
    requires s != [] && !White(s[0])
    ensures SkipWhite(s) == s && SkipWhite(" " + s) == s
  {
    assert (" " + s)[1..] == s;
  }

  ghost predicate NoDigitNext(rest: string) { rest == [] || !('0' <= rest[0] <= '9') }

  /** Decoding the rewritten text of any value gives that value back. */
  lemma {:induction false} ValueRoundTrip(v: Value, rest: string)
    requires NoDigitNext(rest)
    ensures ReadValue(Safe(v) + rest) == Some((v, rest))
    decreases v, 0
  {
    match v
    case Str(s) => StrRoundTrip(s, rest);
    case Num(n) => NumRoundTrip(n, rest);
    case Arr(items) =>
      if items.Item? {
        ItemsRoundTrip(items, rest);
      }
      ArrRoundTrip(items, rest);
    case Obj(fields) =>
      if fields.Field? {
        FieldsRoundTrip(fields, rest);
      }
      ObjRoundTrip(fields, rest);
  }

  lemma StrRoundTrip(s: string, rest: string)
    ensures ReadValue(Safe(Str(s)) + rest) == Some((Str(s), rest))
  {
    SafeQuoted(s);
    StringRoundTrip(s, rest);
    var body := ScriptSafe(Escaped(s)) + "\"" + rest;
    assert Safe(Str(s)) == ScriptSafe(Quoted(s));
    Regroup("\"", ScriptSafe(Escaped(s)), "\"", rest);
    DropFirst('"', body);
    hide ReadString, ScriptSafe, Escaped, Safe;
    assert ReadValue("\"" + body) == Some((Str(s), rest));
  }

  lemma NumRoundTrip(n: nat, rest: string)
    requires NoDigitNext(rest)
    ensures ReadValue(Safe(Num(n)) + rest) == Some((Num(n), rest))
  {
    PlainIsKept(Decimal(n));
    DigitsRoundTrip(n, rest);
    assert ReadDigits(rest, n) == (n, rest);
    hide ReadDigits, Decimal;
    assert (Decimal(n) + rest)[0] == Decimal(n)[0];
  }

  lemma Regroup(a: string, b: string, c: string, d: string)
    ensures a + b + c + d == a + (b + c + d)
    ensures a + b + c + d == a + (b + (c + d))
  {
  }

  lemma DropFirst(c: char, rest: string)
    ensures ([c] + rest)[1..] == rest
  {
  }

  lemma SafeArr(items: Items)
    ensures Safe(Arr(items)) == "[" + ScriptSafe(DumpItems(items)) + "]"
    ensures items == NoItem ==> ScriptSafe(DumpItems(items)) == []
  {
    Surround('[', DumpItems(items), ']');
  }

  lemma ArrRoundTrip(items: Items, rest: string)
    requires items.Item? ==> ReadItems(ScriptSafe(DumpItems(items)) + "]" + rest) == Some((items, rest))
    ensures ReadValue(Safe(Arr(items)) + rest) == Some((Arr(items), rest))
  {
    SafeArr(items);
    if items.Item? {
      ItemsOpen(items);
    }
    hide ReadValue, ReadItems, ScriptSafe, DumpItems, Safe;
    var body := ScriptSafe(DumpItems(items));
    ReadBrackets(body, items, rest);
    Regroup("[", body, "]", rest);
  }

  lemma ReadBrackets(body: string, items: Items, rest: string)
    requires if items == NoItem then body == []
             else body != [] && Opener(body[0]) && ReadItems(body + "]" + rest) == Some((items, rest))
    ensures ReadValue("[" + (body + "]" + rest)) == Some((Arr(items), rest))
  {
    hide ReadItems, ReadFields, SkipWhite;
    var inside := body + "]" + rest;
    assert ("[" + inside)[1..] == inside;
    SkipToOpener(inside);
    if items == NoItem {
      assert inside[1..] == rest;
    }
  }

  lemma ItemsOpen(items: Items)
    requires items.Item?
    ensures ScriptSafe(DumpItems(items)) != [] && Opener(ScriptSafe(DumpItems(items))[0])
  {
    DumpOpens(items.head);
    assert DumpItems(items)[0] == Dump(items.head)[0];
    FirstIsKept(DumpItems(items));
  }

  lemma FieldsOpen(fields: Fields)
    requires fields.Field?
    ensures ScriptSafe(DumpFields(fields)) != [] && ScriptSafe(DumpFields(fields))[0] == '"'
  {
    assert DumpFields(fields)[0] == '"';
    FirstIsKept(DumpFields(fields));
  }

  lemma SafeObj(fields: Fields)
    ensures Safe(Obj(fields)) == "{" + ScriptSafe(DumpFields(fields)) + "}"
    ensures fields == NoField ==> ScriptSafe(DumpFields(fields)) == []
  {
    Surround('{', DumpFields(fields), '}');
  }

  lemma ObjRoundTrip(fields: Fields, rest: string)
    requires fields.Field? ==> ReadFields(ScriptSafe(DumpFields(fields)) + "}" + rest) == Some((fields, rest))
    ensures ReadValue(Safe(Obj(fields)) + rest) == Some((Obj(fields), rest))
  {
    SafeObj(fields);
    if fields.Field? {
      FieldsOpen(fields);
    }
    hide ReadValue, ReadFields, ScriptSafe, DumpFields, Safe;
    var body := ScriptSafe(DumpFields(fields));
    ReadBraces(body, fields, rest);
    Regroup("{", body, "}", rest);
  }

  lemma ReadBraces(body: string, fields: Fields, rest: string)
    requires if fields == NoField then body == []
             else body != [] && body[0] == '"' && ReadFields(body + "}" + rest) == Some((fields, rest))
    ensures ReadValue("{" + (body + "}" + rest)) == Some((Obj(fields), rest))
  {
    hide ReadItems, ReadFields, SkipWhite;
    var inside := body + "}" + rest;
    assert ("{" + inside)[1..] == inside;
    SkipToOpener(inside);
    if fields == NoField {
      assert inside[1..] == rest;
    }
  }

  lemma {:induction false} ItemsRoundTrip(items: Items, rest: string)
    requires items.Item?
    ensures ReadItems(ScriptSafe(DumpItems(items)) + "]" + rest) == Some((items, rest))
    decreases items, 0
  {
    var Item(head, tail) := items;
    var more := ScriptSafe(DumpItems(tail)) + "]" + rest;
    ItemsText(items, rest);
    if tail == NoItem {
      ValueRoundTrip(head, "]" + rest);
      hide ReadValue, ScriptSafe, DumpItems, Safe;
      ReadOneItem(Safe(head) + ("]" + rest), head, "]" + rest, tail, more, rest);
    } else {
      ValueRoundTrip(head, ", " + more);
      ItemsRoundTrip(tail, rest);
      ItemsOpen(tail);
      hide ReadValue, ReadItems, ScriptSafe, DumpItems, Safe;
      ReadOneItem(Safe(head) + (", " + more), head, ", " + more, tail, more, rest);
    }
  }

  lemma ItemsText(items: Items, rest: string)
    requires items.Item?
    ensures items.tail == NoItem ==> ScriptSafe(DumpItems(items)) + "]" + rest == Safe(items.head) + ("]" + rest)
    ensures items.tail != NoItem ==>
              ScriptSafe(DumpItems(items)) + "]" + rest == Safe(items.head) + (", " + (ScriptSafe(DumpItems(items.tail)) + "]" + rest))
  {
    var Item(head, tail) := items;
    if tail != NoItem {
      Joined(Dump(head), ", ", DumpItems(tail));
    }
    assert ScriptSafe(DumpItems(items)) ==
           if tail == NoItem then Safe(head) else Safe(head) + ", " + ScriptSafe(DumpItems(tail));
    hide *;
    CloseText(Safe(head), ScriptSafe(DumpItems(tail)), "]", rest);
  }

  lemma CloseText(head: string, tail: string, close: string, rest: string)
    ensures head + close + rest == head + (close + rest)
    ensures head + ", " + tail + close + rest == head + (", " + (tail + close + rest))
  {
  }

  lemma ReadOneItem(text: string, head: Value, after: string, tail: Items, more: string, rest: string)
    requires ReadValue(text) == Some((head, after))
    requires if tail == NoItem then after == "]" + rest
             else after == ", " + more && more != [] && Opener(more[0]) && ReadItems(more) == Some((tail, rest))
    ensures ReadItems(text) == Some((Item(head, tail), rest))
  {
    hide ReadValue, SkipWhite;
    SkipToOpener(after);
    if tail == NoItem {
      assert after[1..] == rest;
    } else {
      SkipToOpener(more);
      assert after[1..] == " " + more;
    }
  }

  lemma {:induction false} FieldsRoundTrip(fields: Fields, rest: string)
    requires fields.Field?
    ensures ReadFields(ScriptSafe(DumpFields(fields)) + "}" + rest) == Some((fields, rest))
    decreases fields, 0
  {
    var Field(key, value, tail) := fields;
    var after := if tail == NoField then "}" + rest else ", " + (ScriptSafe(DumpFields(tail)) + "}" + rest);
    FieldText(fields, rest, after);
    ValueRoundTrip(value, after);
    if tail != NoField {
      FieldsRoundTrip(tail, rest);
    }
    FieldRead(fields, rest, after);
  }

  lemma SafeQuoted(key: string)
    ensures ScriptSafe(Quoted(key)) == "\"" + ScriptSafe(Escaped(key)) + "\""
  {
    Surround('"', Escaped(key), '"');
    assert Quoted(key) == ['"'] + Escaped(key) + ['"'];
    hide ScriptSafe, Escaped;
  }

  /** One field, in the rewritten text. */
  lemma FieldText(fields: Fields, rest: string, after: string)
    requires fields.Field?
    requires after == if fields.rest == NoField then "}" + rest else ", " + (ScriptSafe(DumpFields(fields.rest)) + "}" + rest)
    ensures ScriptSafe(DumpFields(fields)) + "}" + rest
         == "\"" + (ScriptSafe(Escaped(fields.key)) + "\"" + (": " + (Safe(fields.value) + after)))
  {
    var Field(key, value, tail) := fields;
    var head := Quoted(key) + ": " + Dump(value);
    HeadText(key, value);
    if tail != NoField {
      Joined(head, ", ", DumpFields(tail));
    }
    assert DumpFields(fields) == if tail == NoField then head else head + ", " + DumpFields(tail);
    hide *;
    FieldTextAs(head, ScriptSafe(Escaped(key)), Safe(value), if tail == NoField then "" else ", " + ScriptSafe(DumpFields(tail)), "}" + rest);
    CommaText(ScriptSafe(head), ScriptSafe(DumpFields(tail)), rest);
  }

  lemma CommaText(head: string, more: string, rest: string)
    ensures head + ", " + more == head + (", " + more)
    ensures ", " + (more + "}" + rest) == (", " + more) + ("}" + rest)
    ensures head + ", " + more + "}" + rest == head + (", " + more) + ("}" + rest)
    ensures head + "}" + rest == head + "" + ("}" + rest) && "" + ("}" + rest) == "}" + rest
  {
  }

  lemma HeadText(key: string, value: Value)
    ensures ScriptSafe(Quoted(key) + ": " + Dump(value)) == "\"" + ScriptSafe(Escaped(key)) + "\"" + ": " + Safe(value)
  {
    hide Dump, ScriptSafe, Escaped, Quoted;
    SafeQuoted(key);
    Joined(Quoted(key), ": ", Dump(value));
  }

  lemma FieldTextAs(head: string, e: string, v: string, tail: string, end: string)
    requires ScriptSafe(head) == "\"" + e + "\"" + ": " + v
    ensures ScriptSafe(head) + tail + end == "\"" + (e + "\"" + (": " + (v + (tail + end))))
  {
    hide *;
  }

  lemma FieldRead(fields: Fields, rest: string, after: string)
    requires fields.Field?
    requires after == if fields.rest == NoField then "}" + rest else ", " + (ScriptSafe(DumpFields(fields.rest)) + "}" + rest)
    requires ScriptSafe(DumpFields(fields)) + "}" + rest
          == "\"" + (ScriptSafe(Escaped(fields.key)) + "\"" + (": " + (Safe(fields.value) + after)))
    requires ReadValue(Safe(fields.value) + after) == Some((fields.value, after))
    requires fields.rest != NoField ==> ReadFields(ScriptSafe(DumpFields(fields.rest)) + "}" + rest) == Some((fields.rest, rest))
    ensures ReadFields(ScriptSafe(DumpFields(fields)) + "}" + rest) == Some((fields, rest))
  {
    var Field(key, value, tail) := fields;
    var valued := Safe(value) + after;
    StringRoundTrip(key, ": " + valued);
    DumpOpens(value);
    if tail != NoField {
      FieldsOpen(tail);
    }
    hide ReadString, ReadValue, ReadFields, ScriptSafe, Escaped, Dump, DumpFields, Safe;
    var more := ScriptSafe(DumpFields(tail)) + "}" + rest;
    var text := "\"" + (ScriptSafe(Escaped(key)) + "\"" + (": " + valued));
    assert text[1..] == ScriptSafe(Escaped(key)) + "\"" + (": " + valued);
    ReadOneKey(text, key, valued);
    ReadOneField(text, key, valued, value, after, tail, more, rest);
  }

  lemma ReadOneKey(text: string, key: string, valued: string)
    requires text != [] && text[0] == '"' && ReadString(text[1..]) == Some((key, ": " + valued))
    requires valued != [] && !White(valued[0])
    ensures ReadKey(text) == Some((key, valued))
  {
    hide ReadString, SkipWhite;
    SkipToOpener(valued);
    SkipToOpener(": " + valued);
    assert ": " + valued == [':'] + (" " + valued);
    DropFirst(':', " " + valued);
  }

  lemma ReadOneField(text: string, key: string, valued: string, value: Value, after: string, tail: Fields, more: string, rest: string)
    requires ReadKey(text) == Some((key, valued)) && ReadValue(valued) == Some((value, after))
    requires if tail == NoField then after == "}" + rest
             else after == ", " + more && more != [] && more[0] == '"' && ReadFields(more) == Some((tail, rest))
    ensures ReadFields(text) == Some((Field(key, value, tail), rest))
  {
    hide ReadKey, ReadValue, SkipWhite;
    SkipToOpener(after);
    if tail == NoField {
      DropFirst('}', rest);
    } else {
      SkipToOpener(more);
      assert after == [','] + (" " + more);
      DropFirst(',', " " + more);
    }
  }

  // --- the page ------------------------------------------------------------

  datatype Chunk = Chunk(path: string, index: nat, content: string)

  const PLACEHOLDER := "/*__CORPUS__*/null"

  function Rows(chunks: seq<Chunk>): Items {
    if chunks == [] then NoItem
    else
      var c := chunks[0];
      Item(Obj(Field("p", Str(c.path), Field("i", Num(c.index), Field("t", Str(c.content), NoField)))), Rows(chunks[1..]))
  }

  function Payload(sha: string, chunks: seq<Chunk>): Value {
    Obj(Field("sha", Str(sha), Field("chunks", Arr(Rows(chunks)), NoField)))
  }

  ghost predicate PlaceholderAt(template: string, i: nat) {
    i <= |template| && PLACEHOLDER <= template[i..]
  }

  /** The first place at or after i where the placeholder stands. */
  function Find(template: string, i: nat): (r: Option<nat>)
    requires i <= |template|
    ensures r.Some? ==> i <= r.value && r.value + |PLACEHOLDER| <= |template| && PlaceholderAt(template, r.value)
    ensures forall k: nat :: i <= k && PlaceholderAt(template, k) ==> r.Some? && r.value <= k
    decreases |template| - i
  {
    if PLACEHOLDER <= template[i..] then Some(i)
    else if i == |template| then None
    else Find(template, i + 1)
  }

  /** `render`: it refuses a template whose placeholder is not there exactly once. */
  function Render(template: string, sha: string, chunks: seq<Chunk>): Result<string, string> {
    match Find(template, 0)
    case None => Err("pocket template lost its corpus placeholder")
    case Some(i) =>
      if Find(template, i + |PLACEHOLDER|).Some? then Err("pocket template lost its corpus placeholder")
      else Ok(template[..i] + Safe(Payload(sha, chunks)) + template[i + |PLACEHOLDER|..])
  }

  /** The placeholder cannot overlap itself, so counting it is finding it. */
  lemma NoOverlap(template: string, i: nat, k: nat)
    requires PlaceholderAt(template, i) && i < k < i + |PLACEHOLDER| && k <= |template|
    ensures !PlaceholderAt(template, k)
  {
    var d := k - i;
    assert template[i..][d] == PLACEHOLDER[d];
    if d == 13 {
      assert template[i..][14] == PLACEHOLDER[14] == 'n';
      assert template[i + 14] == 'n';
    } else {
      assert PLACEHOLDER[d] != '/';
    }
  }

  lemma WithinTemplate(template: string, k: nat)
    ensures PlaceholderAt(template, k) ==> k <= |template|
  {
  }

  /** A page is rendered exactly when the placeholder stands in one place alone. */
  lemma RendersExactlyOnce(template: string, sha: string, chunks: seq<Chunk>)
    ensures Render(template, sha, chunks).Ok? <==>
            exists i: nat :: PlaceholderAt(template, i) && forall k: nat :: PlaceholderAt(template, k) ==> k == i
  {
    hide Safe, Payload, PlaceholderAt, Find;
    var first := Find(template, 0);
    if first.Some? {
      var i := first.value;
      if Find(template, i + |PLACEHOLDER|).None? {
        forall k: nat | PlaceholderAt(template, k)
          ensures k == i
        {
          WithinTemplate(template, k);
          if i < k < i + |PLACEHOLDER| {
            NoOverlap(template, i, k);
          }
        }
      }
    }
  }

  /** Between the template's own two halves the page holds a text that decodes to the corpus,
      whole, and that holds no `</`. */
  lemma PageCarriesTheCorpus(template: string, sha: string, chunks: seq<Chunk>)
    requires Render(template, sha, chunks).Ok?
    ensures exists before, after ::
              && template == before + PLACEHOLDER + after
              && Render(template, sha, chunks).value == before + Safe(Payload(sha, chunks)) + after
    ensures ReadValue(Safe(Payload(sha, chunks))) == Some((Payload(sha, chunks), ""))
    ensures forall k :: !ClosesAt(Safe(Payload(sha, chunks)), k)
  {
    hide Payload, ReadValue, Dump, ScriptSafe;
    var v := Payload(sha, chunks);
    ValueRoundTrip(v, "");
    assert Safe(v) + "" == Safe(v);
    forall k
      ensures !ClosesAt(Safe(v), k)
    {
      NothingCloses(Dump(v), k);
    }
    var i := Find(template, 0).value;
    var before, after := template[..i], template[i + |PLACEHOLDER|..];
    assert template[i..][..|PLACEHOLDER|] == PLACEHOLDER;
    assert template == before + PLACEHOLDER + after;
  }

  /** Nothing of the corpus is lost in the value that was encoded. */
  lemma {:induction false} RowsAreTheChunks(a: seq<Chunk>, b: seq<Chunk>)
    requires Rows(a) == Rows(b)
    ensures a == b
  {
    if a == [] || b == [] {
    } else {
      RowsAreTheChunks(a[1..], b[1..]);
      assert a == [a[0]] + a[1..] && b == [b[0]] + b[1..];
    }
  }

  /** The label and the chunks are what the payload says: no two corpora share one. */
  lemma PayloadIsTheCorpus(sha1: string, chunks1: seq<Chunk>, sha2: string, chunks2: seq<Chunk>)
    requires Payload(sha1, chunks1) == Payload(sha2, chunks2)
    ensures sha1 == sha2 && chunks1 == chunks2
  {
    RowsAreTheChunks(chunks1, chunks2);
  }

  /** Every `</` of the page is the template's. */
  lemma PageClosesAsTheTemplate(before: string, v: Value, after: string, k: nat)
    requires v.Obj? && ClosesAt(before + Safe(v) + after, k)
    ensures ClosesAt(before, k) || ClosesAt(after, k - |before| - |Safe(v)|)
  {
    var text := Safe(v);
    NothingCloses(Dump(v), k - |before|);
    LastIsKept(Dump(v));
    FirstIsKept(Dump(v));
    var page := before + text + after;
    assert text[0] == '{' && text[|text| - 1] == '}';
    assert forall j :: 0 <= j < |text| ==> page[|before| + j] == text[j];
    assert forall j :: 0 <= j < |after| ==> page[|before| + |text| + j] == after[j];
    hide Safe, Dump, ScriptSafe;
  }
}
