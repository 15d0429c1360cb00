/** Finding the first JSON object in a model's reply by matching braces. */
module JsonScan {
  import opened Values

  datatype Extracted = Object(text: string) | NoObject | Unterminated

  // ----- The scan -----

  datatype Scan = Scan(depth: int, inString: bool, escape: bool)

  function Read(s: Scan, ch: char): Scan {
    if s.escape then s.(escape := false)
    else if ch == '\\' then s.(escape := true)
    else if ch == '"' then s.(inString := !s.inString)
    else if s.inString then s
    else if ch == '{' then s.(depth := s.depth + 1)
    else if ch == '}' then s.(depth := s.depth - 1)
    else s
  }

  function ReadAll(s: Scan, text: string): Scan
    decreases |text|
  {
    if text == "" then s else ReadAll(Read(s, text[0]), text[1..])
  }

  /** Reading ch in state s closes the outermost brace. */
  predicate ClosesAt(s: Scan, ch: char) { !s.escape && !s.inString && ch == '}' && s.depth == 1 }

  /** How much of the text is read when the outermost brace closes. */
  function Closing(s: Scan, text: string): Option<nat>
    decreases |text|
  {
    if text == "" then None
    else if ClosesAt(s, text[0]) then Some(1)
    else
      match Closing(Read(s, text[0]), text[1..])
      case None => None
      case Some(n) => Some(n + 1)
  }

  const OUTSIDE := Scan(0, false, false)

  /** The text of the object that starts at the first opening brace. */
  function FirstObject(text: string): Extracted {
    if text == "" then NoObject
    else if text[0] != '{' then FirstObject(text[1..])
    else
      match Closing(OUTSIDE, text)
      case None => Unterminated
      case Some(n) => if n <= |text| then Object(text[..n]) else Unterminated
  }

  lemma {:induction false} ClosingInRange(s: Scan, text: string)
    ensures Closing(s, text).Some? ==> Closing(s, text).value <= |text|
    decreases |text|
  {
    if text != "" { ClosingInRange(Read(s, text[0]), text[1..]); }
  }

  lemma SliceOfTail(text: string, start: nat, end: nat)
    requires start <= end <= |text|
    ensures text[start..][..end - start] == text[start..end]
  {
  }

  /** `extractJson` past its fence stripping and fast path. */
  method ExtractJson(stripped: string) returns (r: Extracted)
    ensures r == FirstObject(stripped)
  {
    var start := 0;
    while start < |stripped| && stripped[start] != '{'
      invariant 0 <= start <= |stripped|
      invariant FirstObject(stripped) == FirstObject(stripped[start..])
    {
      assert stripped[start..][1..] == stripped[start + 1..];
      start := start + 1;
    }
    if start == |stripped| { return NoObject; }

    ClosingInRange(OUTSIDE, stripped[start..]);
    var depth, inString, escape := 0, false, false;
    var i := start;
    while i < |stripped|
      invariant start <= i <= |stripped|
      invariant match Closing(Scan(depth, inString, escape), stripped[i..])
        case None => Closing(OUTSIDE, stripped[start..]).None?
        case Some(n) => Closing(OUTSIDE, stripped[start..]) == Some(n + i - start)
    {
      var ch := stripped[i];
      assert stripped[i..][1..] == stripped[i + 1..];
      i := i + 1;
      if escape { escape := false; continue; }
      if ch == '\\' { escape := true; continue; }
      if ch == '"' { inString := !inString; continue; }
      if inString { continue; }
      if ch == '{' { depth := depth + 1; }
      else if ch == '}' {
        depth := depth - 1;
        if depth == 0 {
          SliceOfTail(stripped, start, i);
          return Object(stripped[start..i]);
        }
      }
    }
    return Unterminated;
  }

  // ----- JSON texts (RFC 8259) -----

  /** A character of a string, section 7. */
  datatype StrChar = Unescaped(c: char) | Escaped(c: char) | Hex(digits: string)

  /** A JSON text with the whitespace of its structural characters, sections 2, 4 and 5. A token stands for
      a number or a literal name; every token of section 3 and section 6 is one. */
  datatype Json = Token(token: string) | Str(chars: seq<StrChar>) | Arr(items: Items) | Obj(members: Members)
  datatype Items = NoItems(pad: string) | MoreItems(before: string, value: Json, after: string, rest: Items)
  datatype Members =
    | NoMembers(pad: string)
    | MoreMembers(before: string, name: seq<StrChar>, beforeColon: string, afterColon: string, value: Json, after: string, rest: Members)

  predicate IsSpace(text: string) { forall c | c in text :: c == ' ' || c == '\t' || c == '\n' || c == '\r' }

  predicate IsDigit(c: char) { '0' <= c <= '9' }

  predicate IsHexDigit(c: char) { IsDigit(c) || 'a' <= c <= 'f' || 'A' <= c <= 'F' }

  predicate IsTokenChar(c: char) { IsDigit(c) || 'a' <= c <= 'z' || c == 'E' || c == '+' || c == '-' || c == '.' }

  predicate ValidChar(c: StrChar) {
    match c
    case Unescaped(c) => c != '"' && c != '\\' && c >= ' '
    case Escaped(c) => c in {'"', '\\', '/', 'b', 'f', 'n', 'r', 't'}
    case Hex(digits) => |digits| == 4 && forall d | d in digits :: IsHexDigit(d)
  }

  predicate ValidString(chars: seq<StrChar>) { forall c | c in chars :: ValidChar(c) }

  predicate Valid(v: Json) {
    match v
    case Token(token) => token != "" && forall c | c in token :: IsTokenChar(c)
    case Str(chars) => ValidString(chars)
    case Arr(items) => ValidItems(items)
    case Obj(members) => ValidMembers(members)
  }

  predicate ValidItems(items: Items) {
    match items
    case NoItems(pad) => IsSpace(pad)
    case MoreItems(before, value, after, rest) => IsSpace(before) && Valid(value) && IsSpace(after) && ValidItems(rest)
  }

  predicate ValidMembers(members: Members) {
    match members
    case NoMembers(pad) => IsSpace(pad)
    case MoreMembers(before, name, beforeColon, afterColon, value, after, rest) =>
      && IsSpace(before) && ValidString(name) && IsSpace(beforeColon) && IsSpace(afterColon)
      && Valid(value) && IsSpace(after) && ValidMembers(rest)
  }

  function CharText(c: StrChar): string {
    match c
    case Unescaped(c) => [c]
    case Escaped(c) => ['\\', c]
    case Hex(digits) => ['\\', 'u'] + digits
  }

  function CharsText(chars: seq<StrChar>): string {
    if chars == [] then "" else CharText(chars[0]) + CharsText(chars[1..])
  }

  function StringText(chars: seq<StrChar>): string { "\"" + (CharsText(chars) + "\"") }

  function Render(v: Json): string {
    match v
    case Token(token) => token
    case Str(chars) => StringText(chars)
    case Arr(items) => "[" + (RenderItems(items, true) + "]")
    case Obj(members) => "{" + (RenderMembers(members, true) + "}")
  }

  function RenderItems(items: Items, first: bool): string {
    match items
    case NoItems(pad) => pad
    case MoreItems(before, value, after, rest) =>
      (if first then "" else ",") + (before + (Render(value) + (after + RenderItems(rest, false))))
  }

  function RenderMembers(members: Members, first: bool): string {
    match members
    case NoMembers(pad) => pad
    case MoreMembers(before, name, beforeColon, afterColon, value, after, rest) =>
      (if first then "" else ",")
      + (before + (StringText(name) + (beforeColon + (":" + (afterColon + (Render(value) + (after + RenderMembers(rest, false))))))))
  }

  // ----- The scan over a JSON text -----

  /** Reading the text from s neither closes the object nor leaves a trace. */
  predicate Neutral(s: Scan, text: string) { Closing(s, text).None? && ReadAll(s, text) == s }

  lemma {:induction false} ReadConcat(s: Scan, a: string, b: string)
    requires Closing(s, a).None?
    ensures ReadAll(s, a + b) == ReadAll(ReadAll(s, a), b)
    ensures match Closing(ReadAll(s, a), b)
      case None => Closing(s, a + b).None?
      case Some(n) => Closing(s, a + b) == Some(|a| + n)
    decreases |a|
  {
    if a == "" {
      assert a + b == b;
    } else {
      assert (a + b)[1..] == a[1..] + b;
      ReadConcat(Read(s, a[0]), a[1..], b);
    }
  }

  lemma NeutralConcat(s: Scan, a: string, b: string)
    requires Neutral(s, a) && Neutral(s, b)
    ensures Neutral(s, a + b)
  {
    ReadConcat(s, a, b);
  }

  /** Text without quotes, escapes and braces leaves the scan alone, in a string or out. */
  lemma {:induction false} PlainIsNeutral(s: Scan, text: string)
    requires !s.escape && forall c | c in text :: c != '"' && c != '\\' && c != '{' && c != '}'
    ensures Neutral(s, text)
  {
    if text != "" {
      assert text[0] in text && forall c | c in text[1..] :: c in text;
      PlainIsNeutral(s, text[1..]);
    }
  }

  /** Inside a string every character of section 7 leaves the scan alone, braces and quotes included. */
  lemma {:induction false} CharsAreNeutral(s: Scan, chars: seq<StrChar>)
    requires s.inString && !s.escape && ValidString(chars)
    ensures Neutral(s, CharsText(chars))
  {
    if chars != [] {
      assert chars[0] in chars;
      CharIsNeutral(s, chars[0]);
      CharsAreNeutral(s, chars[1..]);
      NeutralConcat(s, CharText(chars[0]), CharsText(chars[1..]));
    }
  }

  /** A backslash hides the next character from the scan, whatever it is. */
  lemma EscapeIsNeutral(s: Scan, x: char)
    requires s.inString && !s.escape
    ensures Neutral(s, ['\\', x])
  {
    var text, hidden := ['\\', x], s.(escape := true);
    assert text[1..] == [x] && [x][1..] == "";
    assert Read(hidden, x) == s;
    assert Closing(hidden, [x]).None? && ReadAll(hidden, [x]) == s;
  }

  lemma UnescapedIsNeutral(s: Scan, x: char)
    requires s.inString && !s.escape && x != '"' && x != '\\'
    ensures Neutral(s, [x])
  {
    assert [x][1..] == "" && Read(s, x) == s;
  }

  lemma CharIsNeutral(s: Scan, c: StrChar)
    requires s.inString && !s.escape && ValidChar(c)
    ensures Neutral(s, CharText(c))
  {
    match c
    case Unescaped(x) => UnescapedIsNeutral(s, x);
    case Escaped(x) => EscapeIsNeutral(s, x);
    case Hex(digits) =>
      EscapeIsNeutral(s, 'u');
      PlainIsNeutral(s, digits);
      NeutralConcat(s, ['\\', 'u'], digits);
  }

  lemma StringIsNeutral(s: Scan, chars: seq<StrChar>)
    requires !s.inString && !s.escape && ValidString(chars)
    ensures Neutral(s, StringText(chars))
  {
    var inside := s.(inString := true);
    CharsAreNeutral(inside, chars);
    assert "\""[1..] == "";
    ReadConcat(inside, CharsText(chars), "\"");
    ReadConcat(s, "\"", CharsText(chars) + "\"");
  }

  lemma {:induction false} ValueIsNeutral(s: Scan, v: Json)
    requires s.depth >= 1 && !s.inString && !s.escape && Valid(v)
    ensures Neutral(s, Render(v))
    decreases v, 1
  {
    match v
    case Token(token) => PlainIsNeutral(s, token);
    case Str(chars) => StringIsNeutral(s, chars);
    case Arr(items) =>
      ItemsAreNeutral(s, items, true);
      PlainIsNeutral(s, "[");
      PlainIsNeutral(s, "]");
      NeutralConcat(s, RenderItems(items, true), "]");
      NeutralConcat(s, "[", RenderItems(items, true) + "]");
    case Obj(members) =>
      var inner := s.(depth := s.depth + 1);
      MembersAreNeutral(inner, members, true);
      assert "{"[1..] == "" && "}"[1..] == "";
      ReadConcat(inner, RenderMembers(members, true), "}");
      ReadConcat(s, "{", RenderMembers(members, true) + "}");
  }

  lemma {:induction false} ItemsAreNeutral(s: Scan, items: Items, first: bool)
    requires s.depth >= 1 && !s.inString && !s.escape && ValidItems(items)
    ensures Neutral(s, RenderItems(items, first))
    decreases items, 0
  {
    match items
    case NoItems(pad) => PlainIsNeutral(s, pad);
    case MoreItems(before, value, after, rest) =>
      PlainIsNeutral(s, if first then "" else ",");
      PlainIsNeutral(s, before);
      ValueIsNeutral(s, value);
      PlainIsNeutral(s, after);
      ItemsAreNeutral(s, rest, false);
      var tail := RenderItems(rest, false);
      NeutralConcat(s, after, tail);
      NeutralConcat(s, Render(value), after + tail);
      NeutralConcat(s, before, Render(value) + (after + tail));
      NeutralConcat(s, if first then "" else ",", before + (Render(value) + (after + tail)));
  }

  lemma {:induction false} MembersAreNeutral(s: Scan, members: Members, first: bool)
    requires s.depth >= 1 && !s.inString && !s.escape && ValidMembers(members)
    ensures Neutral(s, RenderMembers(members, first))
    decreases members, 0
  {
    match members
    case NoMembers(pad) => PlainIsNeutral(s, pad);
    case MoreMembers(before, name, beforeColon, afterColon, value, after, rest) =>
      var sep := if first then "" else ",";
      PlainIsNeutral(s, sep);
      PlainIsNeutral(s, before);
      StringIsNeutral(s, name);
      PlainIsNeutral(s, beforeColon);
      PlainIsNeutral(s, ":");
      PlainIsNeutral(s, afterColon);
      ValueIsNeutral(s, value);
      PlainIsNeutral(s, after);
      MembersAreNeutral(s, rest, false);
      var t0 := after + RenderMembers(rest, false);
      NeutralConcat(s, after, RenderMembers(rest, false));
      var t1 := Render(value) + t0;
      NeutralConcat(s, Render(value), t0);
      NeutralConcat(s, afterColon, t1);
      NeutralConcat(s, ":", afterColon + t1);
      NeutralConcat(s, beforeColon, ":" + (afterColon + t1));
      var t2 := beforeColon + (":" + (afterColon + t1));
      NeutralConcat(s, StringText(name), t2);
      NeutralConcat(s, before, StringText(name) + t2);
      NeutralConcat(s, sep, before + (StringText(name) + t2));
  }

  lemma {:induction false} PrefixIsSkipped(prefix: string, text: string)
    requires '{' !in prefix
    ensures FirstObject(prefix + text) == FirstObject(text)
  {
    if prefix == "" {
      assert prefix + text == text;
    } else {
      assert (prefix + text)[1..] == prefix[1..] + text;
      PrefixIsSkipped(prefix[1..], text);
    }
  }

  /** The scan returns exactly the object, whatever stands before it without a brace and whatever follows. */
  lemma FirstObjectIsExact(prefix: string, members: Members, suffix: string)
    requires '{' !in prefix && ValidMembers(members)
    ensures FirstObject(prefix + (Render(Obj(members)) + suffix)) == Object(Render(Obj(members)))
  {
    var text := Render(Obj(members));
    PrefixIsSkipped(prefix, text + suffix);
    ObjectCloses(members, suffix);
    assert (text + suffix)[..|text|] == text;
  }

  lemma TextOfTwo(a: StrChar, b: StrChar)
    ensures StringText([a]) == "\"" + CharText(a) + "\""
    ensures StringText([a, b]) == "\"" + CharText(a) + CharText(b) + "\""
  {
    assert [a][1..] == [] && [b][1..] == [] && [a, b][1..] == [b];
    assert CharsText([a]) == CharText(a) && CharsText([b]) == CharText(b);
    assert CharsText([a, b]) == CharText(a) + CharsText([b]);
  }

  lemma RenderedItems(a: Json, b: Json)
    ensures Render(Arr(MoreItems("", a, "", MoreItems(" ", b, "", NoItems(""))))) == "[" + Render(a) + ", " + Render(b) + "]"
  {
    var rest := MoreItems(" ", b, "", NoItems(""));
    assert RenderItems(rest, false) == "," + (" " + (Render(b) + ("" + "")));
    assert RenderItems(MoreItems("", a, "", rest), true) == "" + ("" + (Render(a) + ("" + RenderItems(rest, false))));
    assert Render(Arr(MoreItems("", a, "", rest))) == "[" + (RenderItems(MoreItems("", a, "", rest), true) + "]");
    hide Render, RenderItems;
    JoinedItems(Render(a), Render(b));
  }

  lemma JoinedItems(a: string, b: string)
    ensures "[" + ("" + ("" + (a + ("" + ("," + (" " + (b + ("" + "")))))))) + "]" == "[" + a + ", " + b + "]"
  {
  }

  lemma RenderedMembers(name: seq<StrChar>, a: Json, other: seq<StrChar>, b: Json)
    ensures Render(Obj(MoreMembers("", name, "", " ", a, "", MoreMembers(" ", other, " ", "", b, "", NoMembers("")))))
         == "{" + StringText(name) + ": " + Render(a) + ", " + StringText(other) + " :" + Render(b) + "}"
  {
    hide StringText;
    var rest := MoreMembers(" ", other, " ", "", b, "", NoMembers(""));
    assert RenderMembers(rest, false) == "," + (" " + (StringText(other) + (" " + (":" + ("" + (Render(b) + ("" + "")))))));
    assert Render(Obj(MoreMembers("", name, "", " ", a, "", rest))) == "{" + (RenderMembers(MoreMembers("", name, "", " ", a, "", rest), true) + "}");
    assert RenderMembers(MoreMembers("", name, "", " ", a, "", rest), true)
        == "" + ("" + (StringText(name) + ("" + (":" + (" " + (Render(a) + ("" + RenderMembers(rest, false))))))));
    hide Render, RenderMembers;
    Joined(StringText(name), Render(a), StringText(other), Render(b));
  }

  lemma Joined(n: string, a: string, o: string, b: string)
    ensures "{" + ("" + ("" + (n + ("" + (":" + (" " + (a + ("" + ("," + (" " + (o + (" " + (":" + ("" + (b + ("" + "")))))))))))))))) + "}"
         == "{" + n + ": " + a + ", " + o + " :" + b + "}"
  {
  }

  /** An object with braces, quotes and escapes in its strings is found as it is written, with text around it. */
  lemma BracesInStrings()
    ensures var text := "{" + "\"}\"" + ": " + ("[" + "1" + ", " + "\"\\\"{\"" + "]") + ", " + "\"\\u0041\"" + " :" + "{}" + "}";
      FirstObject("a: " + (text + " }")) == Object(text)
  {
    hide FirstObject, Render, StringText, RenderItems, RenderMembers;
    var one, said := Token("1"), Str([Escaped('"'), Unescaped('{')]);
    var items := Arr(MoreItems("", one, "", MoreItems(" ", said, "", NoItems(""))));
    var members := MoreMembers("", [Unescaped('}')], "", " ", items, "", MoreMembers(" ", [Hex("0041")], " ", "", Obj(NoMembers("")), "", NoMembers("")));
    TextOfTwo(Escaped('"'), Unescaped('{'));
    TextOfTwo(Unescaped('}'), Unescaped('}'));
    TextOfTwo(Hex("0041"), Unescaped('}'));
    RenderedItems(one, said);
    RenderedMembers([Unescaped('}')], items, [Hex("0041")], Obj(NoMembers("")));
    RenderedLeaves(said.chars);
    assert StringText([Unescaped('}')]) == "\"}\"";
    assert StringText(said.chars) == "\"\\\"{\"";
    assert StringText([Hex("0041")]) == "\"\\u0041\"";
    FirstObjectIsExact("a: ", members, " }");
  }

  lemma RenderedLeaves(chars: seq<StrChar>)
    ensures Render(Token("1")) == "1" && Render(Str(chars)) == StringText(chars) && Render(Obj(NoMembers(""))) == "{}"
  {
  }

  lemma ObjectCloses(members: Members, suffix: string)
    requires ValidMembers(members)
    ensures Closing(OUTSIDE, Render(Obj(members)) + suffix) == Some(|Render(Obj(members))|)
  {
    var inner := Scan(1, false, false);
    var body := RenderMembers(members, true);
    MembersAreNeutral(inner, members, true);
    ReadConcat(inner, body, "}" + suffix);
    assert "{"[1..] == "";
    assert ReadAll(OUTSIDE, "{") == inner;
    ReadConcat(OUTSIDE, "{", body + ("}" + suffix));
    assert Render(Obj(members)) + suffix == "{" + (body + ("}" + suffix));
    assert Closing(inner, "}" + suffix) == Some(1);
  }
}
