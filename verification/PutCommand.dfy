/** The `aws ssm put-parameter` command: built as text, collapsed, taken apart again, and read by a shell. */
module PutCommand {
  import opened Values
  import opened ShellText

  // ----- White space -----

  /** `replace(/\s+/g, " ")`, reading on from inside a run or outside one. */
  function Squeeze(text: string, inRun: bool): string
    decreases |text|
  {
    if text == "" then ""
    else if IsSpace(text[0]) && inRun then Squeeze(text[1..], true)
    else if IsSpace(text[0]) then " " + Squeeze(text[1..], true)
    else [text[0]] + Squeeze(text[1..], false)
  }

  function CollapseRuns(text: string): string {
    Squeeze(text, false)
  }

  predicate EndsInRun(text: string, inRun: bool) {
    if text == "" then inRun else IsSpace(text[|text| - 1])
  }

  lemma {:induction false} SqueezeOfAppend(a: string, b: string, inRun: bool)
    ensures Squeeze(a + b, inRun) == Squeeze(a, inRun) + Squeeze(b, EndsInRun(a, inRun))
    decreases |a|
  {
    if a == "" {
      assert a + b == b;
    } else {
      assert (a + b)[1..] == a[1..] + b;
      SqueezeOfAppend(a[1..], b, IsSpace(a[0]));
    }
  }

  /** Quoting adds no white space: the value collapses inside its quotes as it would alone. */
  lemma {:induction false} SqueezeOfEscape(value: string, inRun: bool)
    ensures Squeeze(Escape(value), inRun) == Escape(Squeeze(value, inRun))
    decreases |value|
  {
    if value != "" {
      var c, rest := value[0], value[1..];
      if c == '\'' {
        SqueezeOfAppend("'\\''", Escape(rest), inRun);
        SqueezeEscapedQuote(inRun);
        SqueezeOfEscape(rest, false);
        assert (['\''] + Squeeze(rest, false))[1..] == Squeeze(rest, false);
      } else {
        assert ([c] + Escape(rest))[1..] == Escape(rest);
        SqueezeOfEscape(rest, IsSpace(c));
        if IsSpace(c) {
          if !inRun { assert (" " + Squeeze(rest, true))[1..] == Squeeze(rest, true); }
        } else {
          assert ([c] + Squeeze(rest, false))[1..] == Squeeze(rest, false);
        }
      }
    }
  }

  lemma SqueezeEscapedQuote(inRun: bool)
    ensures Squeeze("'\\''", inRun) == "'\\''"
  {
    assert "'\\''"[1..] == "\\''" && "\\''"[1..] == "''" && "''"[1..] == "'" && "'"[1..] == "";
    assert Squeeze("'", false) == "'";
    assert Squeeze("''", false) == "''";
    assert Squeeze("\\''", false) == "\\''";
  }

  /** No white space other than single spaces. */
  predicate HasNoRuns(text: string) {
    forall i :: 0 <= i < |text| && IsSpace(text[i]) ==> text[i] == ' ' && (i + 1 < |text| ==> !IsSpace(text[i + 1]))
  }

  lemma {:induction false} SqueezedIsNoLonger(text: string, inRun: bool)
    ensures |Squeeze(text, inRun)| <= |text|
    decreases |text|
  {
    if text != "" { SqueezedIsNoLonger(text[1..], IsSpace(text[0])); }
  }

  /** Collapsing changes exactly the texts that hold a run, or white space other than a space. */
  lemma {:induction false} CollapseIsIdentityIff(text: string)
    ensures CollapseRuns(text) == text <==> HasNoRuns(text)
    decreases |text|
  {
    if text != "" {
      var rest := text[1..];
      CollapseIsIdentityIff(rest);
      assert HasNoRuns(text) ==> HasNoRuns(rest) by {
        if HasNoRuns(text) {
          forall i | 0 <= i < |rest| && IsSpace(rest[i]) ensures rest[i] == ' ' && (i + 1 < |rest| ==> !IsSpace(rest[i + 1])) {
            assert text[i + 1] == rest[i];
            if i + 1 < |rest| { assert text[i + 2] == rest[i + 1]; }
          }
        }
      }
      if IsSpace(text[0]) && rest != "" && IsSpace(rest[0]) {
        SqueezedIsNoLonger(rest[1..], true);
        assert Squeeze(rest, true) == Squeeze(rest[1..], true);
        assert |CollapseRuns(text)| <= 1 + |rest[1..]|;
        assert !HasNoRuns(text) by { assert IsSpace(text[1]); }
      } else {
        assert Squeeze(rest, IsSpace(text[0])) == CollapseRuns(rest);
        assert text == [text[0]] + rest;
        assert CollapseRuns(text)[1..] == CollapseRuns(rest);
        if HasNoRuns(rest) && (IsSpace(text[0]) ==> text[0] == ' ') {
          forall i | 0 <= i < |text| && IsSpace(text[i]) ensures text[i] == ' ' && (i + 1 < |text| ==> !IsSpace(text[i + 1])) {
            if i > 0 {
              assert rest[i - 1] == text[i];
              if i + 1 < |text| { assert rest[i] == text[i + 1]; }
            } else if |text| > 1 {
              assert rest[0] == text[1];
            }
          }
        }
      }
    }
  }

  // ----- Building -----

  /** Words free of quotes, white space and anything else a shell gives meaning to. */
  predicate PlainWord(w: string) {
    w != "" && forall i :: 0 <= i < |w| ==> IsPlain(w[i])
  }

  /** The words of `putOne`'s template; the value is the last. */
  function PutWords(region: string, name: string, value: string): seq<string> {
    ["ssm", "put-parameter", "--name", "\"" + name + "\"", "--type", "SecureString", "--overwrite",
     "--tier", "Intelligent-Tiering", "--region", region, "--value", BashSingleQuote(value)]
  }

  /** The command line before white space is collapsed: without a profile its place stays empty. */
  function AwsWords(profile: string, cmd: seq<string>): seq<string> {
    (if profile == "" then ["aws", ""] else ["aws", "--profile", profile]) + cmd
  }

  function AwsCmd(profile: string, cmd: seq<string>): string {
    Trim(CollapseRuns(Join(AwsWords(profile, cmd))))
  }

  function PutCommandText(profile: string, region: string, name: string, value: string): string {
    AwsCmd(profile, PutWords(region, name, value))
  }

  // ----- Taking apart -----

  const NAME_FLAG := "--name \""
  const VALUE_FLAG := "--value '"

  /** Where the text up to the next double quote ends: `[^"]+"`. */
  function ToQuote(text: string): Option<string>
    decreases |text|
  {
    if text == "" then None
    else if text[0] == '"' then Some("")
    else var rest := ToQuote(text[1..]); if rest.None? then None else Some([text[0]] + rest.value)
  }

  /** `(?:[^']|'\'')*'`: as many escaped quotes and other characters as leave a closing quote. */
  function ToClosingQuote(text: string): Option<string>
    decreases |text|
  {
    if text == "" then None
    else if text[0] != '\'' then
      var rest := ToClosingQuote(text[1..]); if rest.None? then None else Some([text[0]] + rest.value)
    else if "'\\''" <= text && ToClosingQuote(text[4..]).Some? then Some("'\\''" + ToClosingQuote(text[4..]).value)
    else Some("")
  }

  /** The first place where the flag is followed by a non-empty quoted name. */
  function FindName(text: string): Option<string>
    decreases |text|
  {
    if text == "" then None
    else if NAME_FLAG <= text && ToQuote(text[|NAME_FLAG|..]).Some? && ToQuote(text[|NAME_FLAG|..]).value != "" then
      ToQuote(text[|NAME_FLAG|..])
    else FindName(text[1..])
  }

  function FindValue(text: string): Option<string>
    decreases |text|
  {
    if text == "" then None
    else if VALUE_FLAG <= text && ToClosingQuote(text[|VALUE_FLAG|..]).Some? then ToClosingQuote(text[|VALUE_FLAG|..])
    else FindValue(text[1..])
  }

  datatype Parameter = Parameter(path: string, value: string)

  function ParsePutParameterCommand(cmd: string): Option<Parameter> {
    var name := FindName(cmd);
    if name.None? then None else
      var value := FindValue(cmd);
      if value.None? then None else Some(Parameter(name.value, Unescape(value.value)))
  }

  // ----- The collapsed text -----

  lemma FixedWordsArePlain()
    ensures PlainWord("aws") && PlainWord("--profile") && PlainWord("ssm") && PlainWord("put-parameter")
    ensures PlainWord("--name") && PlainWord("--type") && PlainWord("SecureString") && PlainWord("--overwrite")
    ensures PlainWord("--tier") && PlainWord("Intelligent-Tiering") && PlainWord("--region") && PlainWord("--value")
  {
  }

  /** A word that white space does not begin or end. */
  predicate Tight(w: string) {
    w != "" && !IsSpace(w[0]) && !IsSpace(w[|w| - 1])
  }

  lemma PlainIsTight(w: string)
    requires PlainWord(w)
    ensures Tight(w) && CollapseRuns(w) == w
  {
    forall i | 0 <= i < |w| ensures !IsSpace(w[i]) {
      assert IsPlain(w[i]);
    }
    CollapseIsIdentityIff(w);
  }

  function CollapseAll(words: seq<string>): seq<string> {
    seq(|words|, i requires 0 <= i < |words| => CollapseRuns(words[i]))
  }

  lemma SpaceThenTight(last: string)
    requires Tight(last)
    ensures Squeeze(" " + last, false) == " " + Squeeze(last, false)
    ensures Squeeze(" " + last, true) == Squeeze(last, false)
  {
    assert (" " + last)[1..] == last;
    assert Squeeze(last, true) == Squeeze(last, false);
  }

  lemma TightJoin(head: string, last: string)
    requires Tight(head) && Tight(last)
    ensures Tight(head + " " + last)
  {
  }

  lemma OneSpaceStays(head: string, last: string)
    requires Tight(head) && Tight(last)
    ensures CollapseRuns(head + " " + last) == CollapseRuns(head) + " " + CollapseRuns(last)
    ensures Tight(head + " " + last)
  {
    TightJoin(head, last);
    assert !EndsInRun(head, false);
    hide Squeeze, Tight, EndsInRun;
    SqueezeOfAppend(head, " " + last, false);
    assert head + " " + last == head + (" " + last);
    SpaceThenTight(last);
    assert CollapseRuns(head) + (" " + CollapseRuns(last)) == CollapseRuns(head) + " " + CollapseRuns(last);
  }

  /** Tight words joined by single spaces collapse one by one. */
  lemma {:induction false} CollapseOfJoin(words: seq<string>)
    requires words != [] && forall i :: 0 <= i < |words| ==> Tight(words[i])
    ensures CollapseRuns(Join(words)) == Join(CollapseAll(words)) && Tight(Join(words))
    decreases |words|
  {
    hide CollapseRuns, Tight;
    var n := |words| - 1;
    if n > 0 {
      CollapseOfJoin(words[..n]);
      assert CollapseAll(words)[..n] == CollapseAll(words[..n]);
      OneSpaceStays(Join(words[..n]), words[n]);
    }
  }

  lemma {:induction false} JoinOfAppend(xs: seq<string>, ys: seq<string>)
    requires xs != [] && ys != []
    ensures Join(xs + ys) == Join(xs) + " " + Join(ys)
    decreases |ys|
  {
    var n := |ys| - 1;
    assert (xs + ys)[..|xs + ys| - 1] == xs + ys[..n];
    if n == 0 {
      assert xs + ys[..n] == xs;
    } else {
      JoinOfAppend(xs, ys[..n]);
    }
  }

  lemma TrimOfTight(text: string)
    requires Tight(text)
    ensures Trim(text) == text
  {
  }

  lemma {:induction false} CollapsedStaysTight(text: string, inRun: bool)
    requires Tight(text)
    ensures Tight(Squeeze(text, inRun)) && Squeeze(text, inRun)[0] == text[0]
  {
    var n := |text| - 1;
    SqueezeOfAppend(text[..n], text[n..], inRun);
    assert text == text[..n] + text[n..];
    assert Squeeze(text[n..], EndsInRun(text[..n], inRun)) == text[n..];
  }

  lemma QuotedIsTight(value: string)
    ensures Tight(BashSingleQuote(value)) && CollapseRuns(BashSingleQuote(value)) == BashSingleQuote(CollapseRuns(value))
  {
    SqueezeOfAppend("'" + Escape(value), "'", false);
    SqueezeOfAppend("'", Escape(value), false);
    SqueezeOfEscape(value, false);
    assert "'"[1..] == "";
    assert Squeeze("'", true) == "'" && Squeeze("'", false) == "'";
  }

  lemma NamedIsTight(name: string)
    requires PlainWord(name)
    ensures Tight("\"" + name + "\"") && CollapseRuns("\"" + name + "\"") == "\"" + name + "\""
  {
    var w := "\"" + name + "\"";
    forall i | 0 <= i < |w| ensures !IsSpace(w[i]) {
      if 0 < i < |w| - 1 { assert w[i] == name[i - 1] && IsPlain(name[i - 1]); }
    }
    CollapseIsIdentityIff(w);
  }

  predicate PlainOptions(profile: string, region: string, name: string) {
    (profile == "" || PlainWord(profile)) && PlainWord(region) && PlainWord(name)
  }

  lemma PutWordsCollapse(region: string, name: string, value: string)
    requires PlainWord(region) && PlainWord(name)
    ensures forall i :: 0 <= i < 13 ==> Tight(PutWords(region, name, value)[i])
    ensures CollapseAll(PutWords(region, name, value)) == PutWords(region, name, CollapseRuns(value))
  {
    FixedWordsArePlain();
    hide PlainWord, Tight, CollapseRuns;
    PlainIsTight("ssm"); PlainIsTight("put-parameter"); PlainIsTight("--name"); PlainIsTight("--type");
    PlainIsTight("SecureString"); PlainIsTight("--overwrite"); PlainIsTight("--tier"); PlainIsTight("Intelligent-Tiering");
    PlainIsTight("--region"); PlainIsTight(region); PlainIsTight("--value");
    NamedIsTight(name);
    QuotedIsTight(value);
  }

  /** The words that are left of the command line: an absent profile leaves no trace. */
  function FinalWords(profile: string, region: string, name: string, value: string): seq<string> {
    (if profile == "" then ["aws"] else ["aws", "--profile", profile]) + PutWords(region, name, CollapseRuns(value))
  }

  lemma TightCommand(profile: string, region: string, name: string, value: string)
    requires PlainOptions(profile, region, name)
    ensures var words := ["aws", "--profile", profile] + PutWords(region, name, value);
            profile != "" ==> (forall i :: 0 <= i < |words| ==> Tight(words[i])) && CollapseAll(words) == FinalWords(profile, region, name, value)
    ensures CollapseAll(["aws"]) == ["aws"] && Tight("aws")
  {
    FixedWordsArePlain();
    hide PlainWord, Tight, CollapseRuns;
    PlainIsTight("aws"); PlainIsTight("--profile");
    if profile != "" { PlainIsTight(profile); }
    PutWordsCollapse(region, name, value);
  }

  /** The built text, word by word: only the value's white space changes. */
  lemma PutCommandIs(profile: string, region: string, name: string, value: string)
    requires PlainOptions(profile, region, name)
    ensures PutCommandText(profile, region, name, value) == Join(FinalWords(profile, region, name, value))
  {
    var cmd := PutWords(region, name, value);
    TightCommand(profile, region, name, value);
    PutWordsCollapse(region, name, value);
    hide PlainWord, PutWords;
    if profile != "" {
      var words := ["aws", "--profile", profile] + cmd;
      CollapseOfJoin(words);
      CollapsedStaysTight(Join(words), false);
      TrimOfTight(CollapseRuns(Join(words)));
    } else {
      EmptyProfile(cmd, CollapseAll(cmd));
      CollapseOfJoin(cmd);
      JoinOfAppend(["aws"], CollapseAll(cmd));
      TrimOfTight(Join(["aws"] + CollapseAll(cmd)));
    }
  }

  /** Two spaces become one. */
  lemma TwoSpacesCollapse(head: string, tail: string)
    requires PlainWord(head) && Tight(tail)
    ensures CollapseRuns(head + "  " + tail) == head + " " + CollapseRuns(tail)
  {
    PlainIsTight(head);
    assert !EndsInRun(head, false);
    assert head + "  " + tail == head + ("  " + tail);
    SqueezeOfAppend(head, "  " + tail, false);
    assert ("  " + tail)[1..] == " " + tail;
    assert Squeeze("  " + tail, false) == " " + Squeeze(" " + tail, true);
    SpaceThenTight(tail);
  }

  lemma AwsPrefixes(rest: string)
    ensures Join(["aws", ""]) + " " + rest == "aws" + "  " + rest && Join(["aws"]) == "aws"
  {
    assert ["aws", ""][..1] == ["aws"];
  }

  lemma TightAfterAws(rest: string)
    requires Tight(rest)
    ensures Tight("aws" + " " + rest)
  {
  }

  /** Where the profile would be there are two spaces, and then one. */
  lemma EmptyProfile(cmd: seq<string>, collapsed: seq<string>)
    requires cmd != [] && collapsed == CollapseAll(cmd) && forall i :: 0 <= i < |cmd| ==> Tight(cmd[i])
    ensures CollapseRuns(Join(["aws", ""] + cmd)) == Join(["aws"] + collapsed)
    ensures Tight(Join(["aws"] + collapsed))
  {
    hide Join, Tight, Squeeze, PlainWord;
    CollapseOfJoin(cmd);
    CollapsedStaysTight(Join(cmd), false);
    JoinOfAppend(["aws", ""], cmd);
    JoinOfAppend(["aws"], collapsed);
    AwsPrefixes(Join(cmd));
    FixedWordsArePlain();
    TwoSpacesCollapse("aws", Join(cmd));
    TightAfterAws(Join(collapsed));
  }

  // ----- What a shell makes of the command -----

  lemma {:induction false} PlainRead(words: seq<string>, word: string, w: string)
    requires forall i :: 0 <= i < |w| ==> IsPlain(w[i])
    ensures ReadAll(Lexer(words, Some(word), Unquoted), w) == Lexer(words, Some(word + w), Unquoted)
    decreases |w|
  {
    if w == "" {
      assert word + w == word;
    } else {
      assert word + w == (word + [w[0]]) + w[1..];
      PlainRead(words, word + [w[0]], w[1..]);
    }
  }

  lemma PlainReadsAs(w: string)
    requires PlainWord(w)
    ensures ReadsAs(w, w)
  {
    forall words: seq<string> ensures ReadAll(Lexer(words, None, Unquoted), w) == Lexer(words, Some(w), Unquoted) {
      assert w == [w[0]] + w[1..] && "" + [w[0]] == [w[0]];
      assert Read(Lexer(words, None, Unquoted), w[0]) == Lexer(words, Some([w[0]]), Unquoted);
      PlainRead(words, [w[0]], w[1..]);
    }
  }

  lemma {:induction false} DoubleQuotedRead(words: seq<string>, word: string, w: string)
    requires forall i :: 0 <= i < |w| ==> IsPlain(w[i])
    ensures ReadAll(Lexer(words, Some(word), Double), w) == Lexer(words, Some(word + w), Double)
    decreases |w|
  {
    if w == "" {
      assert word + w == word;
    } else {
      assert word + w == (word + [w[0]]) + w[1..];
      DoubleQuotedRead(words, word + [w[0]], w[1..]);
    }
  }

  lemma NamedReadsAs(name: string)
    requires PlainWord(name)
    ensures ReadsAs("\"" + name + "\"", name)
  {
    forall words: seq<string>
      ensures ReadAll(Lexer(words, None, Unquoted), "\"" + name + "\"") == Lexer(words, Some(name), Unquoted)
    {
      var l := Lexer(words, None, Unquoted);
      ReadAllOfAppend(l, "\"" + name, "\"");
      ReadAllOfAppend(l, "\"", name);
      assert "\""[1..] == "";
      DoubleQuotedRead(words, "", name);
      assert "" + name == name;
    }
  }

  /** The argument list that is meant. */
  function PutArgv(profile: string, region: string, name: string, value: string): seq<string> {
    (if profile == "" then ["aws"] else ["aws", "--profile", profile]) +
    ["ssm", "put-parameter", "--name", name, "--type", "SecureString", "--overwrite",
     "--tier", "Intelligent-Tiering", "--region", region, "--value", value]
  }

  lemma PutWordsRead(region: string, name: string, value: string)
    requires PlainWord(region) && PlainWord(name)
    ensures forall i :: 0 <= i < 13 ==> ReadsAs(PutWords(region, name, value)[i], PutArgv("", region, name, value)[i + 1])
  {
    FixedWordsArePlain();
    hide PlainWord, ReadsAs;
    PlainReadsAs("ssm"); PlainReadsAs("put-parameter"); PlainReadsAs("--name"); PlainReadsAs("--type");
    PlainReadsAs("SecureString"); PlainReadsAs("--overwrite"); PlainReadsAs("--tier"); PlainReadsAs("Intelligent-Tiering");
    PlainReadsAs("--region"); PlainReadsAs(region); PlainReadsAs("--value");
    NamedReadsAs(name);
    QuotedReadsAs(value);
  }

  lemma AwsWordsRead(profile: string)
    requires profile == "" || PlainWord(profile)
    ensures ReadsAs("aws", "aws") && ReadsAs("--profile", "--profile") && (profile != "" ==> ReadsAs(profile, profile))
  {
    FixedWordsArePlain();
    hide PlainWord, ReadsAs;
    PlainReadsAs("aws"); PlainReadsAs("--profile");
    if profile != "" { PlainReadsAs(profile); }
  }

  lemma FinalWordsRead(profile: string, region: string, name: string, value: string)
    requires PlainOptions(profile, region, name)
    ensures var words := FinalWords(profile, region, name, value);
            var argv := PutArgv(profile, region, name, CollapseRuns(value));
            |words| == |argv| && forall i :: 0 <= i < |words| ==> ReadsAs(words[i], argv[i])
  {
    var collapsed := CollapseRuns(value);
    PutWordsRead(region, name, collapsed);
    AwsWordsRead(profile);
    hide PlainWord, ReadsAs, CollapseRuns;
    var argv := PutArgv(profile, region, name, collapsed);
    var words := FinalWords(profile, region, name, value);
    var k := |words| - 13;
    forall i | 0 <= i < |words| ensures ReadsAs(words[i], argv[i]) {
      if i >= k {
        var put, meant := PutWords(region, name, collapsed), PutArgv("", region, name, collapsed);
        assert words[i] == put[i - k] && argv[i] == meant[i - k + 1];
      }
    }
  }

  /** A POSIX shell splits the built command into exactly the intended arguments; the value arrives with its
      white space collapsed. */
  lemma ShellReadsPutCommand(profile: string, region: string, name: string, value: string)
    requires PlainOptions(profile, region, name)
    ensures ShellWords(PutCommandText(profile, region, name, value)) == Some(PutArgv(profile, region, name, CollapseRuns(value)))
  {
    PutCommandIs(profile, region, name, value);
    FinalWordsRead(profile, region, name, value);
    hide PlainOptions, ReadsAs, CollapseRuns, PutCommandText, FinalWords, PutArgv;
    JoinedWords(FinalWords(profile, region, name, value), PutArgv(profile, region, name, CollapseRuns(value)));
  }

  // ----- Taking apart is the inverse -----

  lemma {:induction false} ToQuoteStops(name: string, rest: string)
    requires '"' !in name
    ensures ToQuote(name + "\"" + rest) == Some(name)
    decreases |name|
  {
    if name != "" {
      assert (name + "\"" + rest)[1..] == name[1..] + "\"" + rest && (name + "\"" + rest)[0] == name[0];
      assert name == [name[0]] + name[1..];
      ToQuoteStops(name[1..], rest);
    }
  }

  lemma PastEscapedQuote(text: string)
    requires ToClosingQuote(text).Some?
    ensures ToClosingQuote("'\\''" + text) == Some("'\\''" + ToClosingQuote(text).value)
  {
    assert ("'\\''" + text)[4..] == text;
  }

  lemma PastCharacter(c: char, text: string)
    requires c != '\'' && ToClosingQuote(text).Some?
    ensures ToClosingQuote([c] + text) == Some([c] + ToClosingQuote(text).value)
  {
    assert ([c] + text)[1..] == text;
  }

  lemma {:induction false} ToClosingQuoteStops(value: string)
    ensures ToClosingQuote(Escape(value) + "'") == Some(Escape(value))
    decreases |value|
  {
    if value == "" {
      assert Escape(value) + "'" == "'";
    } else {
      var c, rest := value[0], Escape(value[1..]);
      assert Escape(value) == (if c == '\'' then "'\\''" else [c]) + rest;
      ToClosingQuoteStops(value[1..]);
      hide ToClosingQuote, Escape;
      if c == '\'' {
        assert Escape(value) + "'" == "'\\''" + (rest + "'");
        PastEscapedQuote(rest + "'");
      } else {
        assert Escape(value) + "'" == [c] + (rest + "'");
        PastCharacter(c, rest + "'");
      }
    }
  }

  /** A flag that ends in the first quote of its kind is not met before its place. */
  lemma NotYet(before: string, flag: string, rest: string, quote: char)
    requires before != "" && flag != "" && flag[|flag| - 1] == quote
    requires quote !in before && quote !in flag[..|flag| - 1]
    ensures !(flag <= before + (flag + rest))
  {
    var text := before + (flag + rest);
    var last := |flag| - 1;
    if |before| > last {
      assert text[last] == before[last];
    } else {
      assert text[last] == (flag + rest)[last - |before|] == flag[..last][last - |before|];
    }
  }

  lemma {:induction false} NameIsFound(before: string, name: string, rest: string)
    requires '"' !in before && '"' !in name && name != ""
    ensures FindName(before + (NAME_FLAG + (name + "\"" + rest))) == Some(name)
    decreases |before|
  {
    var tail := name + "\"" + rest;
    var text := before + (NAME_FLAG + tail);
    if before == "" {
      assert text == NAME_FLAG + tail && text[|NAME_FLAG|..] == tail;
      ToQuoteStops(name, rest);
    } else {
      NotYet(before, NAME_FLAG, tail, '"');
      assert text[1..] == before[1..] + (NAME_FLAG + tail);
      NameIsFound(before[1..], name, rest);
    }
  }

  lemma {:induction false} ValueIsFound(before: string, value: string)
    requires '\'' !in before
    ensures FindValue(before + (VALUE_FLAG + (Escape(value) + "'"))) == Some(Escape(value))
    decreases |before|
  {
    var tail := Escape(value) + "'";
    var text := before + (VALUE_FLAG + tail);
    if before == "" {
      assert text == VALUE_FLAG + tail && text[|VALUE_FLAG|..] == tail;
      ToClosingQuoteStops(value);
    } else {
      NotYet(before, VALUE_FLAG, tail, '\'');
      assert text[1..] == before[1..] + (VALUE_FLAG + tail);
      ValueIsFound(before[1..], value);
    }
  }

  lemma {:induction false} JoinAvoids(words: seq<string>, c: char)
    requires c != ' ' && forall i :: 0 <= i < |words| ==> c !in words[i]
    ensures c !in Join(words)
    decreases |words|
  {
    if |words| > 1 { JoinAvoids(words[..|words| - 1], c); }
  }

  lemma PlainAvoidsQuotes(w: string)
    requires PlainWord(w)
    ensures '"' !in w && '\'' !in w
  {
    forall i | 0 <= i < |w| ensures w[i] != '"' && w[i] != '\'' {
      assert IsPlain(w[i]);
    }
  }

  /** The words before the name, and those between the name and the value. */
  function Head(profile: string): seq<string> {
    (if profile == "" then ["aws"] else ["aws", "--profile", profile]) + ["ssm", "put-parameter"]
  }

  function Middle(region: string): seq<string> {
    ["--type", "SecureString", "--overwrite", "--tier", "Intelligent-Tiering", "--region", region]
  }

  lemma HeadAndMiddleAvoidQuotes(profile: string, region: string)
    requires (profile == "" || PlainWord(profile)) && PlainWord(region)
    ensures '"' !in Join(Head(profile)) && '\'' !in Join(Head(profile)) && '\'' !in Join(Middle(region))
  {
    FixedWordsArePlain();
    hide PlainWord, Join;
    PlainAvoidsQuotes("aws"); PlainAvoidsQuotes("--profile"); PlainAvoidsQuotes("ssm"); PlainAvoidsQuotes("put-parameter");
    PlainAvoidsQuotes("--type"); PlainAvoidsQuotes("SecureString"); PlainAvoidsQuotes("--overwrite"); PlainAvoidsQuotes("--tier");
    PlainAvoidsQuotes("Intelligent-Tiering"); PlainAvoidsQuotes("--region"); PlainAvoidsQuotes(region);
    if profile != "" { PlainAvoidsQuotes(profile); }
    JoinAvoids(Head(profile), '"');
    JoinAvoids(Head(profile), '\'');
    JoinAvoids(Middle(region), '\'');
  }

  lemma WordsAroundFlags(profile: string, region: string, name: string, value: string)
    ensures FinalWords(profile, region, name, value) ==
            Head(profile) + ["--name", "\"" + name + "\""] + Middle(region) + ["--value", BashSingleQuote(CollapseRuns(value))]
  {
    hide BashSingleQuote, CollapseRuns;
  }

  lemma JoinOfTwo(a: string, b: string)
    ensures Join([a, b]) == a + " " + b
  {
    assert [a, b][..1] == [a];
  }

  /** The text around the name and the value. */
  lemma TextAroundFlags(profile: string, region: string, name: string, value: string)
    ensures Join(FinalWords(profile, region, name, value)) ==
            Join(Head(profile)) + " " + ("--name" + " " + ("\"" + name + "\"")) + " " + Join(Middle(region)) + " "
            + ("--value" + " " + BashSingleQuote(CollapseRuns(value)))
  {
    var quoted := BashSingleQuote(CollapseRuns(value));
    var named := ["--name", "\"" + name + "\""];
    var valued := ["--value", quoted];
    WordsAroundFlags(profile, region, name, value);
    hide *;
    assert Head(profile) != [] && Middle(region) != [] by { HeadIsNotEmpty(profile, region); }
    JoinOfAppend(Head(profile) + named + Middle(region), valued);
    JoinOfAppend(Head(profile) + named, Middle(region));
    JoinOfAppend(Head(profile), named);
    JoinOfTwo("--name", "\"" + name + "\"");
    JoinOfTwo("--value", quoted);
  }

  lemma HeadIsNotEmpty(profile: string, region: string)
    ensures Head(profile) != [] && Middle(region) != []
  {
  }

  lemma SplitAtName(head: string, name: string, after: string)
    ensures head + " " + ("--name" + " " + ("\"" + name + "\"")) + after == (head + " ") + (NAME_FLAG + (name + "\"" + after))
  {
  }

  lemma SplitAtValue(before: string, escaped: string)
    ensures before + ("--value" + " " + ("'" + escaped + "'")) == before + (VALUE_FLAG + (escaped + "'"))
  {
  }

  /** Taking a built command apart gives the name and the value with its white space collapsed: exactly what
      a shell hands to `aws`. */
  lemma ParseInvertsBuild(profile: string, region: string, name: string, value: string)
    requires PlainOptions(profile, region, name)
    ensures ParsePutParameterCommand(PutCommandText(profile, region, name, value)) == Some(Parameter(name, CollapseRuns(value)))
  {
    PutCommandIs(profile, region, name, value);
    TextAroundFlags(profile, region, name, value);
    HeadAndMiddleAvoidQuotes(profile, region);
    PlainAvoidsQuotes(name);
    assert name != "";
    hide PlainOptions, PlainWord, PutCommandText, FinalWords, CollapseRuns, Join;
    var head, middle, escaped := Join(Head(profile)), Join(Middle(region)), Escape(CollapseRuns(value));
    var text := PutCommandText(profile, region, name, value);
    var before := head + " " + ("--name" + " " + ("\"" + name + "\"")) + " " + middle + " ";
    var after := " " + middle + " " + ("--value" + " " + ("'" + escaped + "'"));
    assert text == before + ("--value" + " " + ("'" + escaped + "'"));
    assert text == head + " " + ("--name" + " " + ("\"" + name + "\"")) + after;
    SplitAtName(head, name, after);
    SplitAtValue(before, escaped);
    NameIsFound(head + " ", name, after);
    ValueIsFound(before, CollapseRuns(value));
    UnescapeEscape(CollapseRuns(value));
  }

  /** So the value survives exactly when it holds no run of white space, and none but spaces. */
  lemma ParseReturnsTheValueIff(profile: string, region: string, name: string, value: string)
    requires PlainOptions(profile, region, name)
    ensures ParsePutParameterCommand(PutCommandText(profile, region, name, value)) == Some(Parameter(name, value)) <==> HasNoRuns(value)
  {
    ParseInvertsBuild(profile, region, name, value);
    CollapseIsIdentityIff(value);
  }
}
