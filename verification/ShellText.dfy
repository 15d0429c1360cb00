/** Single-quoting for a POSIX shell, and the part of the shell's own reading of a line that undoes it
    (IEEE Std 1003.1-2017, Shell Command Language, sections 2.2.1 to 2.2.3). */
module ShellText {
  import opened Values

  /** Every quote closes the quoting, is written escaped, and opens it again. */
  function Escape(value: string): string {
    if value == "" then "" else
      (if value[0] == '\'' then "'\\''" else [value[0]]) + Escape(value[1..])
  }

  function BashSingleQuote(value: string): string {
    "'" + Escape(value) + "'"
  }

  /** Replacing each escaped quote by a quote, from the left. */
  function Unescape(text: string): string
    decreases |text|
  {
    if text == "" then ""
    else if "'\\''" <= text then "'" + Unescape(text[4..])
    else [text[0]] + Unescape(text[1..])
  }

  function Join(words: seq<string>): string
    decreases |words|
  {
    if words == [] then "" else if |words| == 1 then words[0] else Join(words[..|words| - 1]) + " " + words[|words| - 1]
  }

  // ----- The shell's reading -----

  /** `Beyond` marks text that leaves the part of the shell language described here: expansions,
      operators, patterns, comments, line ends outside quotes. */
  datatype Mode = Unquoted | Single | Double | Escaped | Beyond

  /** The words finished so far and the one being read, if one has begun. */
  datatype Lexer = Lexer(words: seq<string>, word: Option<string>, mode: Mode)

  /** Characters that stand for themselves outside quotes. */
  predicate IsPlain(c: char) {
    'a' <= c <= 'z' || 'A' <= c <= 'Z' || '0' <= c <= '9' || c == '-' || c == '_' || c == '.' || c == '/' || c == ':' || c == '+' || c == '@' || c == ','
  }

  function Put(l: Lexer, c: char, mode: Mode): Lexer {
    Lexer(l.words, Some((if l.word.Some? then l.word.value else "") + [c]), mode)
  }

  /** Opening a quotation begins a word even if nothing is in it. */
  function Open(l: Lexer, mode: Mode): Lexer {
    Lexer(l.words, Some(if l.word.Some? then l.word.value else ""), mode)
  }

  function EndWord(l: Lexer): Lexer {
    if l.word.Some? then Lexer(l.words + [l.word.value], None, l.mode) else l
  }

  function Read(l: Lexer, c: char): Lexer {
    match l.mode
    case Unquoted =>
      if c == '\'' then Open(l, Single)
      else if c == '"' then Open(l, Double)
      else if c == '\\' then l.(mode := Escaped)
      else if c == ' ' || c == '\t' then EndWord(l)
      else if IsPlain(c) then Put(l, c, Unquoted)
      else l.(mode := Beyond)
    case Escaped => if c == '\n' then l.(mode := Beyond) else Put(l, c, Unquoted)
    case Single => if c == '\'' then l.(mode := Unquoted) else Put(l, c, Single)
    case Double =>
      if c == '"' then l.(mode := Unquoted)
      else if c == '$' || c == '`' || c == '\\' then l.(mode := Beyond)
      else Put(l, c, Double)
    case Beyond => l
  }

  function ReadAll(l: Lexer, text: string): Lexer
    decreases |text|
  {
    if text == "" then l else ReadAll(Read(l, text[0]), text[1..])
  }

  const START := Lexer([], None, Unquoted)

  /** The words of a line; None when the line is beyond this reading or a quotation is left open. */
  function ShellWords(text: string): Option<seq<string>> {
    var l := ReadAll(START, text);
    if l.mode.Unquoted? then Some(EndWord(l).words) else None
  }

  // ----- Laws -----

  lemma {:induction false} ReadAllOfAppend(l: Lexer, a: string, b: string)
    ensures ReadAll(l, a + b) == ReadAll(ReadAll(l, a), b)
    decreases |a|
  {
    if a == "" {
      assert a + b == b;
    } else {
      assert (a + b)[1..] == a[1..] + b;
      ReadAllOfAppend(Read(l, a[0]), a[1..], b);
    }
  }

  lemma {:induction false} BeyondStays(l: Lexer, text: string)
    requires l.mode.Beyond?
    ensures ReadAll(l, text).mode.Beyond?
    decreases |text|
  {
    if text != "" { BeyondStays(Read(l, text[0]), text[1..]); }
  }

  /** The characters that a shell takes as they are outside quotes. */
  lemma PlainAre(c: char)
    ensures IsPlain(c) <==> c in "abcdefghijklmnopqrstuvwxyz" || c in "ABCDEFGHIJKLMNOPQRSTUVWXYZ" || c in "0123456789" || c in "-_./:+@,"
  {
  }

  /** Text that means more to a shell than is described here is not read: an operator, expansion or line end outside quotes, an
      expansion or escape in double quotes, and a joined line. */
  lemma SpecialIsRefused(before: string, c: char, after: string)
    ensures var l := ReadAll(START, before);
      (|| (l.mode.Unquoted? && c !in "'\"\\ \t" && !IsPlain(c)) || (l.mode.Double? && c in "$`\\") || (l.mode.Escaped? && c == '\n'))
      ==> ShellWords(before + ([c] + after)) == None
  {
    var l := ReadAll(START, before);
    ReadAllOfAppend(START, before, [c] + after);
    assert ([c] + after)[1..] == after;
    if Read(l, c).mode.Beyond? { BeyondStays(Read(l, c), after); }
  }

  lemma ReadEscapedQuote(words: seq<string>, word: string)
    ensures ReadAll(Lexer(words, Some(word), Single), "'\\''") == Lexer(words, Some(word + "'"), Single)
  {
    var l := Lexer(words, Some(word), Single);
    assert "'\\''"[1..] == "\\''" && "\\''"[1..] == "''" && "''"[1..] == "'" && "'"[1..] == "";
    assert ReadAll(l, "'\\''") == ReadAll(l.(mode := Unquoted), "\\''");
    assert ReadAll(l.(mode := Unquoted), "\\''") == ReadAll(l.(mode := Escaped), "''");
    assert ReadAll(l.(mode := Escaped), "''") == ReadAll(Lexer(words, Some(word + "'"), Unquoted), "'");
    assert ReadAll(Lexer(words, Some(word + "'"), Unquoted), "'") == ReadAll(Lexer(words, Some(word + "'"), Single), "");
  }

  /** Inside single quotes the escaped text reads as the value, whatever characters it holds. */
  lemma {:induction false} ReadEscaped(words: seq<string>, word: string, value: string)
    ensures ReadAll(Lexer(words, Some(word), Single), Escape(value)) == Lexer(words, Some(word + value), Single)
    decreases |value|
  {
    var l := Lexer(words, Some(word), Single);
    if value == "" {
      assert word + value == word;
    } else {
      var c, rest := value[0], value[1..];
      assert word + value == (word + [c]) + rest;
      if c == '\'' {
        ReadEscapedQuote(words, word);
        ReadAllOfAppend(l, "'\\''", Escape(rest));
      } else {
        assert ([c] + Escape(rest))[1..] == Escape(rest) && ([c] + Escape(rest))[0] == c;
      }
      ReadEscaped(words, word + [c], rest);
    }
  }

  /** A quoted value is one word, or one part of a word, and reads as the value. */
  lemma ReadQuoted(words: seq<string>, value: string)
    ensures ReadAll(Lexer(words, None, Unquoted), BashSingleQuote(value)) == Lexer(words, Some(value), Unquoted)
  {
    var l := Lexer(words, None, Unquoted);
    ReadAllOfAppend(l, "'" + Escape(value), "'");
    ReadAllOfAppend(l, "'", Escape(value));
    assert "'"[1..] == "";
    assert ReadAll(l, "'") == Lexer(words, Some(""), Single);
    ReadEscaped(words, "", value);
    assert "" + value == value;
    assert ReadAll(Lexer(words, Some(value), Single), "'") == Lexer(words, Some(value), Unquoted);
  }

  /** `text`, met where a word may begin, reads as the word `value`. */
  ghost predicate ReadsAs(text: string, value: string) {
    forall words: seq<string> :: ReadAll(Lexer(words, None, Unquoted), text) == Lexer(words, Some(value), Unquoted)
  }

  lemma QuotedReadsAs(value: string)
    ensures ReadsAs(BashSingleQuote(value), value)
  {
    forall words: seq<string>
      ensures ReadAll(Lexer(words, None, Unquoted), BashSingleQuote(value)) == Lexer(words, Some(value), Unquoted)
    {
      ReadQuoted(words, value);
    }
  }

  lemma ReadNextWord(init: string, words: seq<string>, last: string, text: string, value: string)
    requires ReadAll(START, init) == Lexer(words, Some(last), Unquoted) && ReadsAs(text, value)
    ensures ReadAll(START, init + " " + text) == Lexer(words + [last], Some(value), Unquoted)
  {
    ReadAllOfAppend(START, init + " ", text);
    ReadAllOfAppend(START, init, " ");
    assert " "[1..] == "";
    assert ReadAll(Lexer(words, Some(last), Unquoted), " ") == Lexer(words + [last], None, Unquoted);
  }

  /** Words that read one by one, joined by spaces, read as the list of their values. */
  lemma {:induction false} ReadJoined(texts: seq<string>, values: seq<string>)
    requires |texts| == |values| && texts != []
    requires forall i :: 0 <= i < |texts| ==> ReadsAs(texts[i], values[i])
    ensures ReadAll(START, Join(texts)) == Lexer(values[..|values| - 1], Some(values[|values| - 1]), Unquoted)
    decreases |texts|
  {
    var n := |texts| - 1;
    assert ReadsAs(texts[n], values[n]);
    if n == 0 {
      assert values[..0] == [];
    } else {
      hide ReadsAs, ReadAll;
      ReadJoined(texts[..n], values[..n]);
      assert values[..n][..n - 1] + [values[n - 1]] == values[..n];
      ReadNextWord(Join(texts[..n]), values[..n][..n - 1], values[n - 1], texts[n], values[n]);
    }
  }

  lemma JoinedWords(texts: seq<string>, values: seq<string>)
    requires |texts| == |values|
    requires forall i :: 0 <= i < |texts| ==> ReadsAs(texts[i], values[i])
    ensures ShellWords(Join(texts)) == Some(values)
  {
    if texts != [] {
      ReadJoined(texts, values);
      assert values[..|values| - 1] + [values[|values| - 1]] == values;
    } else {
      assert values == [];
    }
  }

  function QuoteAll(argv: seq<string>): seq<string> {
    seq(|argv|, i requires 0 <= i < |argv| => BashSingleQuote(argv[i]))
  }

  /** Any argument list, quoted and joined by spaces, is split back into exactly that list. */
  lemma QuotedArgvSplitsBack(argv: seq<string>)
    ensures ShellWords(Join(QuoteAll(argv))) == Some(argv)
  {
    forall i | 0 <= i < |argv| ensures ReadsAs(QuoteAll(argv)[i], argv[i]) {
      QuotedReadsAs(argv[i]);
    }
    JoinedWords(QuoteAll(argv), argv);
  }

  /** Escaping is undone by replacing escaped quotes. */
  lemma {:induction false} UnescapeEscape(value: string)
    ensures Unescape(Escape(value)) == value
    decreases |value|
  {
    if value != "" {
      var rest := value[1..];
      UnescapeEscape(rest);
      if value[0] == '\'' {
        assert ("'\\''" + Escape(rest))[4..] == Escape(rest);
      } else {
        assert ([value[0]] + Escape(rest))[1..] == Escape(rest);
      }
    }
  }
}
