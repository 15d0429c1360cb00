/** A text as its finished lines and the unfinished rest. */
module TextLines {
  function LineEnd(text: string): (k: nat)
    requires '\n' in text
    ensures k < |text| && text[k] == '\n' && '\n' !in text[..k]
  {
    if text[0] == '\n' then 0 else 1 + LineEnd(text[1..])
  }

  /** What follows the first line break. */
  function AfterLine(text: string): (rest: string)
    requires '\n' in text
    ensures |rest| < |text|
  {
    text[LineEnd(text) + 1..]
  }

  function Lines(text: string): seq<string>
    decreases |text|
  {
    if '\n' !in text then [] else [text[..LineEnd(text)]] + Lines(AfterLine(text))
  }

  function Unterminated(text: string): string
    decreases |text|
  {
    if '\n' !in text then text else Unterminated(AfterLine(text))
  }

  function Glue(lines: seq<string>): string {
    if lines == [] then "" else lines[0] + "\n" + Glue(lines[1..])
  }

  /** Lines hold no line break, and neither does the unfinished rest. */
  lemma {:induction false} LinesAreUnbroken(text: string)
    ensures '\n' !in Unterminated(text)
    ensures forall i :: 0 <= i < |Lines(text)| ==> '\n' !in Lines(text)[i]
    decreases |text|
  {
    if '\n' in text {
      LinesAreUnbroken(text[LineEnd(text) + 1..]);
    }
  }

  lemma GlueFirst(line: string, lines: seq<string>)
    ensures Glue([line] + lines) == line + "\n" + Glue(lines)
  {
    assert ([line] + lines)[1..] == lines;
  }

  lemma Rejoin(text: string, k: nat, glued: string, last: string)
    requires k < |text| && text[k] == '\n' && glued + last == text[k + 1..]
    ensures (text[..k] + "\n" + glued) + last == text
  {
    assert text == text[..k] + [text[k]] + text[k + 1..];
  }

  /** The lines, each ended by a line break, and the unfinished rest are the text. */
  lemma {:induction false} LinesPartitionTheText(text: string)
    ensures Glue(Lines(text)) + Unterminated(text) == text
    decreases |text|
  {
    if '\n' !in text {
      assert Lines(text) == [] && Glue([]) == "";
    } else {
      var k := LineEnd(text);
      var rest := text[k + 1..];
      LinesPartitionTheText(rest);
      GlueFirst(text[..k], Lines(rest));
      Rejoin(text, k, Glue(Lines(rest)), Unterminated(rest));
    }
  }

  lemma LineEndIsFirst(text: string, k: nat)
    requires k < |text| && text[k] == '\n' && '\n' !in text[..k]
    ensures '\n' in text && LineEnd(text) == k
  {
    assert forall i :: 0 <= i < k ==> text[..k][i] == text[i];
    assert forall i :: 0 <= i < LineEnd(text) ==> text[..LineEnd(text)][i] == text[i];
  }

  /** Text after the first line does not change that line. */
  lemma FirstLineStays(a: string, b: string)
    requires '\n' in a
    ensures '\n' in a + b && (a + b)[..LineEnd(a + b)] == a[..LineEnd(a)] && AfterLine(a + b) == AfterLine(a) + b
  {
    var k := LineEnd(a);
    assert (a + b)[..k] == a[..k];
    LineEndIsFirst(a + b, k);
    assert (a + b)[k + 1..] == a[k + 1..] + b;
  }

  lemma FirstLine(text: string)
    requires '\n' in text
    ensures Lines(text) == [text[..LineEnd(text)]] + Lines(AfterLine(text))
    ensures Unterminated(text) == Unterminated(AfterLine(text))
  {
    hide LineEnd, AfterLine;
  }

  lemma Combine<T>(first: seq<T>, middle: seq<T>, last: seq<T>, rest: seq<T>, whole: seq<T>)
    requires whole == first + rest && rest == middle + last
    ensures whole == (first + middle) + last
  {
  }

  /** Cutting a text anywhere: the rest completes the line that was cut. */
  lemma {:induction false} LinesOfAppend(a: string, b: string)
    ensures Lines(a + b) == Lines(a) + Lines(Unterminated(a) + b)
    ensures Unterminated(a + b) == Unterminated(Unterminated(a) + b)
    decreases |a|
  {
    if '\n' in a {
      hide LineEnd, AfterLine;
      var first, rest := [a[..LineEnd(a)]], AfterLine(a);
      var middle, last := Lines(rest), Lines(Unterminated(rest) + b);
      FirstLineStays(a, b);
      FirstLine(a);
      FirstLine(a + b);
      LinesOfAppend(rest, b);
      Combine(first, middle, last, Lines(rest + b), Lines(a + b));
    } else {
      assert Lines(a) == [] && Unterminated(a) == a;
    }
  }
}
