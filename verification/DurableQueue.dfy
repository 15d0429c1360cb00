/** The on-disk queue: one line of JSON per batch, appended, read back, rewritten or removed. */
module DurableQueue {
  import opened Values
  import opened TextLines
  import opened ForwardedEvents

  type Batch = seq<Event>

  /** JSON.stringify and JSON.parse on batches. */
  datatype Codec = Codec(encode: Batch -> string, decode: string -> Option<Batch>)

  /** The encoded batch is one non-empty line, not padded, that decodes to the batch. */
  predicate FaithfulOn(codec: Codec, b: Batch) {
    && '\n' !in codec.encode(b)
    && codec.encode(b) != "" && Trim(codec.encode(b)) == codec.encode(b)
    && codec.decode(codec.encode(b)) == Some(b)
  }

  ghost predicate Faithful(codec: Codec) {
    forall b: Batch :: FaithfulOn(codec, b)
  }

  function Decoded(codec: Codec, line: string): seq<Batch> {
    if Trim(line) == "" || codec.decode(Trim(line)).None? then [] else [codec.decode(Trim(line)).value]
  }

  function DecodeAll(codec: Codec, lines: seq<string>): seq<Batch>
    decreases |lines|
  {
    if lines == [] then [] else
      var n := |lines| - 1;
      DecodeAll(codec, lines[..n]) + Decoded(codec, lines[n])
  }

  /** `text.split("\n")`. */
  function Segments(text: string): seq<string> {
    Lines(text) + [Unterminated(text)]
  }

  /** The batches a queue file holds; a line that does not decode is skipped. */
  function Peek(codec: Codec, text: string): seq<Batch> {
    DecodeAll(codec, Segments(text))
  }

  function Text(codec: Codec, batches: seq<Batch>): string
    decreases |batches|
  {
    if batches == [] then "" else
      var n := |batches| - 1;
      Text(codec, batches[..n]) + (codec.encode(batches[n]) + "\n")
  }

  /** Every line of the file is finished. */
  predicate Whole(text: string) {
    Unterminated(text) == ""
  }

  lemma DecodeAllSnoc(codec: Codec, lines: seq<string>, line: string)
    ensures DecodeAll(codec, lines + [line]) == DecodeAll(codec, lines) + Decoded(codec, line)
  {
    assert (lines + [line])[..|lines|] == lines;
  }

  lemma PeekOfNothing(codec: Codec)
    ensures Peek(codec, "") == []
  {
    assert Segments("") == [] + [""];
    DecodeAllSnoc(codec, [], "");
  }

  /** Appending a line to any file: it completes whatever line was left unfinished. */
  lemma PeekOfAppend(codec: Codec, text: string, line: string)
    requires '\n' !in line
    ensures Whole(text + (line + "\n"))
    ensures Peek(codec, text + (line + "\n")) == DecodeAll(codec, Lines(text)) + Decoded(codec, Unterminated(text) + line)
  {
    var u := Unterminated(text);
    LinesAreUnbroken(text);
    LinesOfAppend(text, line + "\n");
    var last := u + (line + "\n");
    assert last[|u + line|] == '\n' && last[..|u + line|] == u + line;
    LineEndIsFirst(last, |u + line|);
    assert last[|u + line| + 1..] == "";
    assert Lines(last) == [u + line];
    DecodeAllSnoc(codec, Lines(text), u + line);
    DecodeAllSnoc(codec, Lines(text) + [u + line], "");
  }

  lemma PeekOfWhole(codec: Codec, text: string)
    requires Whole(text)
    ensures Peek(codec, text) == DecodeAll(codec, Lines(text))
  {
    DecodeAllSnoc(codec, Lines(text), "");
  }

  /** On a whole file an append adds exactly the batch. */
  lemma AppendAddsTheBatch(codec: Codec, text: string, batch: Batch)
    requires Faithful(codec) && Whole(text)
    ensures Whole(text + (codec.encode(batch) + "\n"))
    ensures Peek(codec, text + (codec.encode(batch) + "\n")) == Peek(codec, text) + [batch]
  {
    assert FaithfulOn(codec, batch);
    PeekOfAppend(codec, text, codec.encode(batch));
    PeekOfWhole(codec, text);
    assert "" + codec.encode(batch) == codec.encode(batch);
  }

  /** On a file that ends in an unfinished line, an append keeps what could be read and adds the batch exactly when
      that line held no batch and the glued line decodes to the new one: a batch whose line lacks only its line
      break is destroyed. */
  lemma AppendToUnfinishedLine(codec: Codec, text: string, batch: Batch)
    requires Faithful(codec)
    ensures Peek(codec, text + (codec.encode(batch) + "\n")) == Peek(codec, text) + [batch]
       <==> Decoded(codec, Unterminated(text)) == [] && Decoded(codec, Unterminated(text) + codec.encode(batch)) == [batch]
  {
    assert FaithfulOn(codec, batch);
    hide Peek, Decoded, DecodeAll, Lines, Unterminated, Faithful, Whole;
    var before, lost, glued := DecodeAll(codec, Lines(text)), Decoded(codec, Unterminated(text)), Decoded(codec, Unterminated(text) + codec.encode(batch));
    PeekOfAppend(codec, text, codec.encode(batch));
    PeekIs(codec, text);
    AtMostOne(codec, Unterminated(text) + codec.encode(batch));
    OneMore(before, lost, glued, batch);
  }

  lemma PeekIs(codec: Codec, text: string)
    ensures Peek(codec, text) == DecodeAll(codec, Lines(text)) + Decoded(codec, Unterminated(text))
  {
    DecodeAllSnoc(codec, Lines(text), Unterminated(text));
  }

  lemma AtMostOne(codec: Codec, line: string)
    ensures |Decoded(codec, line)| <= 1
  {
  }

  lemma OneMore<T>(before: seq<T>, lost: seq<T>, glued: seq<T>, last: T)
    requires |glued| <= 1
    ensures before + glued == before + lost + [last] <==> lost == [] && glued == [last]
  {
    if before + glued == before + lost + [last] {
      assert |before + glued| == |before + lost + [last]|;
      assert (before + glued)[|before|] == glued[0];
    }
  }

  /** What is written is what is read. */
  lemma {:induction false} PeekOfText(codec: Codec, batches: seq<Batch>)
    requires Faithful(codec)
    ensures Whole(Text(codec, batches)) && Peek(codec, Text(codec, batches)) == batches
    decreases |batches|
  {
    if batches == [] {
      PeekOfNothing(codec);
    } else {
      var n := |batches| - 1;
      PeekOfText(codec, batches[..n]);
      AppendAddsTheBatch(codec, Text(codec, batches[..n]), batches[n]);
    }
  }

  /** A line torn off at any point short of its end leaves the batches before it as they were. */
  lemma TornLineHidesNothing(codec: Codec, text: string, torn: string)
    requires Whole(text) && '\n' !in torn && Decoded(codec, torn) == []
    ensures Peek(codec, text + torn) == Peek(codec, text)
  {
    LinesOfAppend(text, torn);
    assert "" + torn == torn;
    assert Lines(text + torn) == Lines(text);
    DecodeAllSnoc(codec, Lines(text), torn);
    PeekOfWhole(codec, text);
  }

  class EventQueue {
    const codec: Codec
    /** The file's text; None when there is no file. */
    var file: Option<string>

    constructor (codec: Codec, file: Option<string>)
      ensures this.codec == codec && this.file == file
    {
      this.codec, this.file := codec, file;
    }

    function FileText(): string
      reads this
    {
      if file.Some? then file.value else ""
    }

    function Contents(): seq<Batch>
      reads this
    {
      Peek(codec, FileText())
    }

    method Enqueue(events: Batch)
      requires Faithful(codec)
      modifies this
      ensures events == [] ==> file == old(file)
      ensures events != [] ==> file == Some(old(FileText()) + (codec.encode(events) + "\n"))
      ensures events != [] && Whole(old(FileText())) ==> Whole(FileText()) && Contents() == old(Contents()) + [events]
    {
      if |events| == 0 { return; }
      AppendAddsTheBatchIfWhole(codec, FileText(), events);
      file := Some(FileText() + (codec.encode(events) + "\n"));
    }

    method PeekAll() returns (batches: seq<Batch>)
      ensures batches == Contents()
    {
      batches := [];
      if file.None? {
        PeekOfNothing(codec);
        return;
      }
      var lines := Segments(file.value);
      for k := 0 to |lines|
        invariant batches == DecodeAll(codec, lines[..k])
      {
        assert lines[..k + 1][..k] == lines[..k];
        var trimmed := Trim(lines[k]);
        if trimmed != "" {
          var parsed := codec.decode(trimmed);
          if parsed.Some? {
            batches := batches + [parsed.value];
          }
        }
      }
      assert lines[..|lines|] == lines;
    }

    method Clear()
      modifies this
      ensures file == None && Contents() == []
    {
      file := None;
      PeekOfNothing(codec);
    }

    method Retain(batches: seq<Batch>)
      requires Faithful(codec)
      modifies this
      ensures Contents() == batches && Whole(FileText()) && (file.None? <==> batches == [])
    {
      PeekOfText(codec, batches);
      if |batches| == 0 {
        Clear();
      } else {
        file := Some(Text(codec, batches));
      }
    }

    method HasPending() returns (pending: bool)
      ensures pending <==> FileText() != ""
      ensures !pending ==> Contents() == []
    {
      PeekOfNothing(codec);
      pending := file.Some? && |file.value| > 0;
    }
  }

  lemma AppendAddsTheBatchIfWhole(codec: Codec, text: string, batch: Batch)
    requires Faithful(codec)
    ensures Whole(text) ==> Whole(text + (codec.encode(batch) + "\n"))
    ensures Whole(text) ==> Peek(codec, text + (codec.encode(batch) + "\n")) == Peek(codec, text) + [batch]
  {
    if Whole(text) { AppendAddsTheBatch(codec, text, batch); }
  }
}
