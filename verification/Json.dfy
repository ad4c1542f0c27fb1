/** JSON text as Python's encoder writes it, and as a decoder reads it (RFC 8259). */
module Json {
  import opened Wrappers
  import opened Decimals

  datatype Value = Str(s: string) | Num(n: nat) | Arr(items: Items) | Obj(fields: Fields)
  datatype Items = NoItem | Item(head: Value, tail: Items)
  datatype Fields = NoField | Field(key: string, value: Value, rest: Fields)

  // --- encoding ------------------------------------------------------------

  predicate Control(c: char) { c < ' ' }

  function HexDigit(n: nat): char
    requires n < 16
  {
    if n < 10 then '0' + n as char else 'a' + (n - 10) as char
  }

  /** One character of a string, with `ensure_ascii=False`. */
  function Escape(c: char): string {
    if c == '"' then "\\\""
    else if c == '\\' then "\\\\"
    else if c == '\n' then "\\n"
    else if c == '\r' then "\\r"
    else if c == '\t' then "\\t"
    else if c == '\U{0C}' then "\\f"
    else if c == '\U{08}' then "\\b"
    else if Control(c) then "\\u00" + [HexDigit(c as nat / 16), HexDigit(c as nat % 16)]
    else [c]
  }

  function Escaped(s: string): string {
    if s == [] then [] else Escape(s[0]) + Escaped(s[1..])
  }

  function Quoted(s: string): string { "\"" + Escaped(s) + "\"" }

  function Dump(v: Value): string {
    match v
    case Str(s) => Quoted(s)
    case Num(n) => Decimal(n)
    case Arr(items) => "[" + DumpItems(items) + "]"
    case Obj(fields) => "{" + DumpFields(fields) + "}"
  }

  function DumpItems(items: Items): string {
    match items
    case NoItem => ""
    case Item(head, NoItem) => Dump(head)
    case Item(head, tail) => Dump(head) + ", " + DumpItems(tail)
  }

  function DumpFields(fields: Fields): string {
    match fields
    case NoField => ""
    case Field(key, value, NoField) => Quoted(key) + ": " + Dump(value)
    case Field(key, value, rest) => Quoted(key) + ": " + Dump(value) + ", " + DumpFields(rest)
  }

  // --- decoding ------------------------------------------------------------

  function HexValue(c: char): Option<nat> {
    if '0' <= c <= '9' then Some((c - '0') as nat)
    else if 'a' <= c <= 'f' then Some((c - 'a') as nat + 10)
    else if 'A' <= c <= 'F' then Some((c - 'A') as nat + 10)
    else None
  }

  /** The four digits after `\u`, for a code unit that is a character by itself. */
  function HexChar(s: string): Option<char>
    requires |s| >= 4
  {
    match (HexValue(s[0]), HexValue(s[1]), HexValue(s[2]), HexValue(s[3]))
    case (Some(a), Some(b), Some(c), Some(d)) =>
      var code := ((a * 16 + b) * 16 + c) * 16 + d;
      if 0 <= code < 0xD800 || 0xE000 <= code < 0x1_0000 then Some(code as char) else None
    case _ => None
  }

  function Unescape(c: char): Option<char> {
    if c == '"' || c == '\\' || c == '/' then Some(c)
    else if c == 'n' then Some('\n')
    else if c == 'r' then Some('\r')
    else if c == 't' then Some('\t')
    else if c == 'f' then Some('\U{0C}')
    else if c == 'b' then Some('\U{08}')
    else None
  }

  type Read<+T> = Option<(T, string)>

  function Push(c: char, rest: Read<string>): (r: Read<string>)
  {
    match rest
    case None => None
    case Some((s, after)) => Some(([c] + s, after))
  }

  /** A string, from just after its opening quote to just after its closing one. */
  function ReadString(s: string): (r: Read<string>)
    ensures r.Some? ==> |r.value.1| < |s|
    decreases |s|
  {
    if s == [] || Control(s[0]) then None
    else if s[0] == '"' then Some(("", s[1..]))
    else if s[0] != '\\' then Push(s[0], ReadString(s[1..]))
    else if |s| >= 6 && s[1] == 'u' then
      match HexChar(s[2..])
      case None => None
      case Some(c) => Push(c, ReadString(s[6..]))
    else if |s| >= 2 then
      match Unescape(s[1])
      case None => None
      case Some(c) => Push(c, ReadString(s[2..]))
    else None
  }

  predicate White(c: char) { c == ' ' || c == '\t' || c == '\n' || c == '\r' }

  function SkipWhite(s: string): (r: string)
    ensures |r| <= |s|
  {
    if s != [] && White(s[0]) then SkipWhite(s[1..]) else s
  }

  function ReadDigits(s: string, n: nat): (nat, string)
    decreases |s|
  {
    if s != [] && '0' <= s[0] <= '9' then ReadDigits(s[1..], n * 10 + (s[0] - '0') as nat) else (n, s)
  }

  lemma {:induction false} ReadDigitsShortens(s: string, n: nat)
    ensures |ReadDigits(s, n).1| <= |s|
    ensures s != [] && '0' <= s[0] <= '9' ==> |ReadDigits(s, n).1| < |s|
    decreases |s|
  {
    if s != [] && '0' <= s[0] <= '9' {
      ReadDigitsShortens(s[1..], n * 10 + (s[0] - '0') as nat);
    }
  }

  function ReadValue(s: string): (r: Read<Value>)
    ensures r.Some? ==> |r.value.1| < |s|
    decreases |s|, 0
  {
    if s == [] then None
    else if s[0] == '"' then
      match ReadString(s[1..])
      case None => None
      case Some((str, rest)) => Some((Str(str), rest))
    else if '0' <= s[0] <= '9' then
      ReadDigitsShortens(s, 0);
      var (n, rest) := ReadDigits(s, 0);
      Some((Num(n), rest))
    else if s[0] == '[' then
      var inside := SkipWhite(s[1..]);
      if inside != [] && inside[0] == ']' then Some((Arr(NoItem), inside[1..]))
      else
        match ReadItems(inside)
        case None => None
        case Some((items, rest)) => Some((Arr(items), rest))
    else if s[0] == '{' then
      var inside := SkipWhite(s[1..]);
      if inside != [] && inside[0] == '}' then Some((Obj(NoField), inside[1..]))
      else
        match ReadFields(inside)
        case None => None
        case Some((fields, rest)) => Some((Obj(fields), rest))
    else None
  }

  /** Items, up to and including the closing bracket. */
  function ReadItems(s: string): (r: Read<Items>)
    ensures r.Some? ==> |r.value.1| < |s|
    decreases |s|, 1
  {
    match ReadValue(s)
    case None => None
    case Some((head, after)) =>
      var rest := SkipWhite(after);
      if rest == [] then None
      else if rest[0] == ']' then Some((Item(head, NoItem), rest[1..]))
      else if rest[0] != ',' then None
      else
        match ReadItems(SkipWhite(rest[1..]))
        case None => None
        case Some((tail, end)) => Some((Item(head, tail), end))
  }

  /** A key and its colon, up to the value. */
  function ReadKey(s: string): (r: Read<string>)
    ensures r.Some? ==> |r.value.1| < |s|
  {
    if s == [] || s[0] != '"' then None
    else
      match ReadString(s[1..])
      case None => None
      case Some((key, after)) =>
        var colon := SkipWhite(after);
        if colon == [] || colon[0] != ':' then None else Some((key, SkipWhite(colon[1..])))
  }

  /** Fields, up to and including the closing brace. */
  function ReadFields(s: string): (r: Read<Fields>)
    ensures r.Some? ==> |r.value.1| < |s|
    decreases |s|, 1
  {
    match ReadKey(s)
    case None => None
    case Some((key, valued)) =>
      match ReadValue(valued)
      case None => None
      case Some((value, after)) =>
        var rest := SkipWhite(after);
        if rest == [] then None
        else if rest[0] == '}' then Some((Field(key, value, NoField), rest[1..]))
        else if rest[0] != ',' then None
        else
          match ReadFields(SkipWhite(rest[1..]))
          case None => None
          case Some((fields, end)) => Some((Field(key, value, fields), end))
  }
}
