/** The queue file as what the appends left in it: whole batch lines, and pieces of lines where a write was cut. */
module QueueDisk {
  import opened Values
  import opened TextLines
  import opened DurableQueue

  /** What one append left in a line: a batch's whole encoding or, cut by a crash, its first characters. Batches
      are numbered. */
  datatype Piece = Full(id: nat) | Torn(id: nat, chars: nat)

  /** The finished lines, and the pieces after the last line break. */
  datatype Disk = Disk(lines: seq<seq<Piece>>, tail: seq<Piece>)

  const EMPTY_DISK := Disk([], [])

  function Prefix(text: string, n: nat): string {
    if n < |text| then text[..n] else text
  }

  // ----- The text that a disk stands for -----

  function Chars(codec: Codec, batches: seq<Batch>, p: Piece): string {
    if p.id >= |batches| then ""
    else if p.Full? then codec.encode(batches[p.id]) else Prefix(codec.encode(batches[p.id]), p.chars)
  }

  function LineText(codec: Codec, batches: seq<Batch>, line: seq<Piece>): string
    decreases |line|
  {
    if line == [] then "" else
      var n := |line| - 1;
      LineText(codec, batches, line[..n]) + Chars(codec, batches, line[n])
  }

  function LinesText(codec: Codec, batches: seq<Batch>, lines: seq<seq<Piece>>): string
    decreases |lines|
  {
    if lines == [] then "" else
      var n := |lines| - 1;
      LinesText(codec, batches, lines[..n]) + (LineText(codec, batches, lines[n]) + "\n")
  }

  function DiskText(codec: Codec, batches: seq<Batch>, disk: Disk): string {
    LinesText(codec, batches, disk.lines) + LineText(codec, batches, disk.tail)
  }

  /** A torn piece is a real piece: not empty and not whole. */
  predicate PieceOk(codec: Codec, batches: seq<Batch>, p: Piece) {
    p.id < |batches| && (p.Torn? ==> 0 < p.chars < |codec.encode(batches[p.id])|)
  }

  predicate LineOk(codec: Codec, batches: seq<Batch>, line: seq<Piece>) {
    forall k :: 0 <= k < |line| ==> PieceOk(codec, batches, line[k])
  }

  predicate DiskOk(codec: Codec, batches: seq<Batch>, disk: Disk) {
    (forall k :: 0 <= k < |disk.lines| ==> LineOk(codec, batches, disk.lines[k])) && LineOk(codec, batches, disk.tail)
  }

  // ----- The batches that can be read from it -----

  /** The batch of a line that holds one whole encoding and nothing else. */
  function LineIds(line: seq<Piece>): seq<nat> {
    if |line| == 1 && line[0].Full? then [line[0].id] else []
  }

  function LinesIds(lines: seq<seq<Piece>>): seq<nat>
    decreases |lines|
  {
    if lines == [] then [] else LinesIds(lines[..|lines| - 1]) + LineIds(lines[|lines| - 1])
  }

  function Ids(disk: Disk): seq<nat> {
    LinesIds(disk.lines) + LineIds(disk.tail)
  }

  predicate InRange(ids: seq<nat>, n: nat) {
    forall k :: 0 <= k < |ids| ==> ids[k] < n
  }

  function Contents(batches: seq<Batch>, ids: seq<nat>): seq<Batch>
    requires InRange(ids, |batches|)
  {
    seq(|ids|, k requires 0 <= k < |ids| => batches[ids[k]])
  }

  /** JSON arrays: a line made up of pieces of encodings decodes only if it is one whole encoding. A proper prefix of
      an array is not JSON, and neither is anything that follows such a prefix, or an array, with another. */
  ghost predicate OnlyWholeLinesDecode(codec: Codec) {
    forall batches: seq<Batch>, line: seq<Piece> :: PiecesFail(codec, batches, line)
  }

  predicate PiecesFail(codec: Codec, batches: seq<Batch>, line: seq<Piece>) {
    LineOk(codec, batches, line) && LineIds(line) == [] ==> Decoded(codec, LineText(codec, batches, line)) == []
  }

  lemma ContentsOfConcat(batches: seq<Batch>, a: seq<nat>, b: seq<nat>)
    requires InRange(a, |batches|) && InRange(b, |batches|)
    ensures InRange(a + b, |batches|) && Contents(batches, a + b) == Contents(batches, a) + Contents(batches, b)
  {
  }

  lemma {:induction false} LineIsUnbroken(codec: Codec, batches: seq<Batch>, line: seq<Piece>)
    requires Faithful(codec)
    ensures '\n' !in LineText(codec, batches, line)
    decreases |line|
  {
    if line != [] {
      var p := line[|line| - 1];
      LineIsUnbroken(codec, batches, line[..|line| - 1]);
      if p.id < |batches| { assert FaithfulOn(codec, batches[p.id]); }
    }
  }

  lemma LineDecodes(codec: Codec, batches: seq<Batch>, line: seq<Piece>)
    requires Faithful(codec) && OnlyWholeLinesDecode(codec) && LineOk(codec, batches, line)
    ensures InRange(LineIds(line), |batches|)
    ensures Decoded(codec, LineText(codec, batches, line)) == Contents(batches, LineIds(line))
  {
    if LineIds(line) == [] {
      assert PiecesFail(codec, batches, line);
    } else {
      assert FaithfulOn(codec, batches[line[0].id]);
      assert line[..0] == [] && LineText(codec, batches, []) == "";
      assert LineText(codec, batches, line) == "" + codec.encode(batches[line[0].id]) == codec.encode(batches[line[0].id]);
    }
  }

  /** Whatever follows finished lines is read as one more line. */
  lemma PeekOfTail(codec: Codec, text: string, tail: string)
    requires Whole(text) && '\n' !in tail
    ensures Peek(codec, text + tail) == Peek(codec, text) + Decoded(codec, tail) && Unterminated(text + tail) == tail
  {
    LinesOfAppend(text, tail);
    assert "" + tail == tail;
    assert Lines(text + tail) == Lines(text);
    DecodeAllSnoc(codec, Lines(text), tail);
    PeekOfWhole(codec, text);
  }

  lemma {:induction false} PeekOfLines(codec: Codec, batches: seq<Batch>, lines: seq<seq<Piece>>)
    requires Faithful(codec) && OnlyWholeLinesDecode(codec)
    requires forall k :: 0 <= k < |lines| ==> LineOk(codec, batches, lines[k])
    ensures InRange(LinesIds(lines), |batches|) && Whole(LinesText(codec, batches, lines))
    ensures Peek(codec, LinesText(codec, batches, lines)) == Contents(batches, LinesIds(lines))
    decreases |lines|
  {
    hide Peek, Decoded, Contents, Faithful, OnlyWholeLinesDecode, LineOk, LineIds, LineText;
    if lines == [] {
      PeekOfNothing(codec);
      assert Contents(batches, []) == [] by { NoContents(batches); }
    } else {
      var n := |lines| - 1;
      var before, line := LinesText(codec, batches, lines[..n]), LineText(codec, batches, lines[n]);
      PeekOfLines(codec, batches, lines[..n]);
      LineIsUnbroken(codec, batches, lines[n]);
      LineDecodes(codec, batches, lines[n]);
      PeekOfAppend(codec, before, line);
      PeekOfWhole(codec, before);
      assert "" + line == line;
      ContentsOfConcat(batches, LinesIds(lines[..n]), LineIds(lines[n]));
    }
  }

  lemma NoContents(batches: seq<Batch>)
    ensures Contents(batches, []) == []
  {
  }

  /** What the queue reads from the file is exactly the batches whose lines are whole and alone. */
  lemma PeekOfDisk(codec: Codec, batches: seq<Batch>, disk: Disk)
    requires Faithful(codec) && OnlyWholeLinesDecode(codec) && DiskOk(codec, batches, disk)
    ensures InRange(Ids(disk), |batches|)
    ensures Peek(codec, DiskText(codec, batches, disk)) == Contents(batches, Ids(disk))
    ensures Unterminated(DiskText(codec, batches, disk)) == LineText(codec, batches, disk.tail)
  {
    hide Peek, Decoded, Contents, Faithful, OnlyWholeLinesDecode, LineOk, LineIds, LinesIds, LinesText, LineText;
    PeekOfLines(codec, batches, disk.lines);
    LineIsUnbroken(codec, batches, disk.tail);
    LineDecodes(codec, batches, disk.tail);
    PeekOfTail(codec, LinesText(codec, batches, disk.lines), LineText(codec, batches, disk.tail));
    ContentsOfConcat(batches, LinesIds(disk.lines), LineIds(disk.tail));
  }

  // ----- New batches leave the text as it is -----

  lemma {:induction false} LineTextStays(codec: Codec, batches: seq<Batch>, b: Batch, line: seq<Piece>)
    requires LineOk(codec, batches, line)
    ensures LineOk(codec, batches + [b], line) && LineText(codec, batches + [b], line) == LineText(codec, batches, line)
    decreases |line|
  {
    if line != [] {
      LineTextStays(codec, batches, b, line[..|line| - 1]);
      assert PieceOk(codec, batches, line[|line| - 1]);
    }
  }

  lemma {:induction false} LinesTextStays(codec: Codec, batches: seq<Batch>, b: Batch, lines: seq<seq<Piece>>)
    requires forall k :: 0 <= k < |lines| ==> LineOk(codec, batches, lines[k])
    ensures forall k :: 0 <= k < |lines| ==> LineOk(codec, batches + [b], lines[k])
    ensures LinesText(codec, batches + [b], lines) == LinesText(codec, batches, lines)
    decreases |lines|
  {
    hide LineOk;
    if lines != [] {
      var n := |lines| - 1;
      LinesTextStays(codec, batches, b, lines[..n]);
      LineTextStays(codec, batches, b, lines[n]);
      assert forall k :: 0 <= k < n ==> lines[k] == lines[..n][k];
    }
  }

  lemma DiskTextStays(codec: Codec, batches: seq<Batch>, b: Batch, disk: Disk)
    requires DiskOk(codec, batches, disk)
    ensures DiskOk(codec, batches + [b], disk) && DiskText(codec, batches + [b], disk) == DiskText(codec, batches, disk)
  {
    LinesTextStays(codec, batches, b, disk.lines);
    LineTextStays(codec, batches, b, disk.tail);
  }

  // ----- The file operations -----

  /** A whole line appended: it finishes whatever line was left unfinished. */
  function Appended(disk: Disk, id: nat): Disk {
    Disk(disk.lines + [disk.tail + [Full(id)]], [])
  }

  /** An append cut by a crash after `written` characters of the line, its line break not among them. */
  function CutAppended(codec: Codec, batch: Batch, disk: Disk, id: nat, written: nat): Disk {
    if written == 0 then disk else disk.(tail := disk.tail + [PieceOf(codec, batch, id, written)])
  }

  function PieceOf(codec: Codec, batch: Batch, id: nat, written: nat): Piece {
    if written < |codec.encode(batch)| then Torn(id, written) else Full(id)
  }

  /** The file rewritten with these batches. */
  function Rewritten(ids: seq<nat>): Disk {
    Disk(seq(|ids|, k requires 0 <= k < |ids| => [Full(ids[k])]), [])
  }

  /** The rewrite cut by a crash after `written` characters. */
  function CutRewritten(codec: Codec, batches: seq<Batch>, ids: seq<nat>, written: nat): Disk
    requires InRange(ids, |batches|)
    decreases |ids|
  {
    if ids == [] then EMPTY_DISK
    else
      var n := |ids| - 1;
      var start := |Text(codec, Contents(batches, ids[..n]))|;
      if written <= start then CutRewritten(codec, batches, ids[..n], written)
      else if written <= EndOf(codec, batches, ids, n) then
        Rewritten(ids[..n]).(tail := [PieceOf(codec, batches[ids[n]], ids[n], written - start)])
      else Rewritten(ids)
  }

  /** Where, in the rewritten file, the encoding of the k-th of these batches ends: just before its line break. */
  function EndOf(codec: Codec, batches: seq<Batch>, ids: seq<nat>, k: nat): nat
    requires InRange(ids, |batches|) && k < |ids|
  {
    |Text(codec, Contents(batches, ids[..k]))| + |codec.encode(batches[ids[k]])|
  }

  lemma AppendedText(codec: Codec, batches: seq<Batch>, disk: Disk, id: nat)
    requires DiskOk(codec, batches, disk) && id < |batches|
    ensures DiskOk(codec, batches, Appended(disk, id))
    ensures DiskText(codec, batches, Appended(disk, id)) == DiskText(codec, batches, disk) + (codec.encode(batches[id]) + "\n")
  {
    var line := disk.tail + [Full(id)];
    assert line[..|disk.tail|] == disk.tail;
    assert (disk.lines + [line])[..|disk.lines|] == disk.lines;
    assert LineText(codec, batches, []) == "";
  }

  lemma CutAppendedText(codec: Codec, batches: seq<Batch>, disk: Disk, id: nat, written: nat)
    requires DiskOk(codec, batches, disk) && id < |batches|
    ensures DiskOk(codec, batches, CutAppended(codec, batches[id], disk, id, written))
    ensures DiskText(codec, batches, CutAppended(codec, batches[id], disk, id, written))
         == DiskText(codec, batches, disk) + Prefix(codec.encode(batches[id]), written)
  {
    if written > 0 {
      var line := disk.tail + [PieceOf(codec, batches[id], id, written)];
      assert line[..|disk.tail|] == disk.tail;
    } else if |codec.encode(batches[id])| > 0 {
      assert codec.encode(batches[id])[..0] == "";
    }
  }

  lemma {:induction false} RewrittenIds(ids: seq<nat>)
    ensures Ids(Rewritten(ids)) == ids
    decreases |ids|
  {
    if ids != [] {
      var n, lines := |ids| - 1, Rewritten(ids).lines;
      RewrittenIds(ids[..n]);
      assert lines[..n] == Rewritten(ids[..n]).lines && lines[n] == [Full(ids[n])];
      hide Rewritten;
      assert ids == ids[..n] + [ids[n]];
      assert LinesIds(lines) == LinesIds(lines[..n]) + LineIds(lines[n]);
    }
  }

  lemma {:induction false} RewrittenText(codec: Codec, batches: seq<Batch>, ids: seq<nat>)
    requires InRange(ids, |batches|)
    ensures DiskOk(codec, batches, Rewritten(ids))
    ensures DiskText(codec, batches, Rewritten(ids)) == Text(codec, Contents(batches, ids))
    decreases |ids|
  {
    hide DiskText, Rewritten, DiskOk;
    RewrittenOk(codec, batches, ids);
    if ids == [] {
      RewrittenEmpty(codec, batches);
    } else {
      var n := |ids| - 1;
      RewrittenText(codec, batches, ids[..n]);
      RewrittenSnoc(codec, batches, ids[..n], ids[n]);
      assert ids == ids[..n] + [ids[n]];
      assert Contents(batches, ids)[..n] == Contents(batches, ids[..n]);
    }
  }

  lemma RewrittenEmpty(codec: Codec, batches: seq<Batch>)
    ensures DiskText(codec, batches, Rewritten([])) == Text(codec, Contents(batches, []))
  {
    assert LineText(codec, batches, []) == "" && Contents(batches, []) == [];
  }

  lemma RewrittenOk(codec: Codec, batches: seq<Batch>, ids: seq<nat>)
    requires InRange(ids, |batches|)
    ensures DiskOk(codec, batches, Rewritten(ids))
  {
  }

  lemma RewrittenSnoc(codec: Codec, batches: seq<Batch>, ids: seq<nat>, id: nat)
    requires InRange(ids, |batches|) && id < |batches|
    ensures Rewritten(ids + [id]).lines == Rewritten(ids).lines + [[Full(id)]]
    ensures DiskText(codec, batches, Rewritten(ids + [id])) == DiskText(codec, batches, Rewritten(ids)) + (codec.encode(batches[id]) + "\n")
  {
    var lines := Rewritten(ids).lines;
    assert (lines + [[Full(id)]])[..|lines|] == lines;
    assert LineText(codec, batches, []) == "";
    assert [Full(id)][..0] == [] && LineText(codec, batches, [Full(id)]) == "" + codec.encode(batches[id]);
  }

  lemma TextOfSnoc(codec: Codec, batches: seq<Batch>, ids: seq<nat>, n: nat)
    requires InRange(ids, |batches|) && n < |ids|
    ensures Text(codec, Contents(batches, ids[..n + 1]))
         == Text(codec, Contents(batches, ids[..n])) + (codec.encode(batches[ids[n]]) + "\n")
    ensures |Text(codec, Contents(batches, ids[..n + 1]))| == EndOf(codec, batches, ids, n) + 1
  {
    assert Contents(batches, ids[..n + 1])[..n] == Contents(batches, ids[..n]);
  }

  lemma {:induction false} CutRewrittenText(codec: Codec, batches: seq<Batch>, ids: seq<nat>, written: nat)
    requires InRange(ids, |batches|)
    ensures DiskOk(codec, batches, CutRewritten(codec, batches, ids, written))
    ensures DiskText(codec, batches, CutRewritten(codec, batches, ids, written)) == Prefix(Text(codec, Contents(batches, ids)), written)
    decreases |ids|
  {
    if ids == [] {
      assert LineText(codec, batches, []) == "";
      assert Contents(batches, ids) == [];
    } else {
      var n := |ids| - 1;
      var first, last := Text(codec, Contents(batches, ids[..n])), codec.encode(batches[ids[n]]);
      TextOfSnoc(codec, batches, ids, n);
      assert ids[..n + 1] == ids;
      if written <= |first| {
        CutRewrittenText(codec, batches, ids[..n], written);
        assert Prefix(first + (last + "\n"), written) == Prefix(first, written);
      } else if written <= EndOf(codec, batches, ids, n) {
        RewrittenText(codec, batches, ids[..n]);
        CutTailText(codec, batches, Rewritten(ids[..n]), ids[n], written - |first|);
        assert Prefix(first + (last + "\n"), written) == first + Prefix(last, written - |first|);
      } else {
        RewrittenText(codec, batches, ids);
      }
    }
  }

  lemma CutTailText(codec: Codec, batches: seq<Batch>, disk: Disk, id: nat, written: nat)
    requires DiskOk(codec, batches, disk) && disk.tail == [] && id < |batches| && written > 0
    ensures var cut := disk.(tail := [PieceOf(codec, batches[id], id, written)]);
      && DiskOk(codec, batches, cut)
      && DiskText(codec, batches, cut) == DiskText(codec, batches, disk) + Prefix(codec.encode(batches[id]), written)
  {
    CutAppendedText(codec, batches, disk, id, written);
    assert disk.tail + [PieceOf(codec, batches[id], id, written)] == [PieceOf(codec, batches[id], id, written)];
  }

  /** How many of the batches a cut rewrite leaves readable. */
  function Survivors(codec: Codec, batches: seq<Batch>, ids: seq<nat>, written: nat): (k: nat)
    requires InRange(ids, |batches|)
    ensures k <= |ids|
    decreases |ids|
  {
    if ids == [] then 0
    else if written >= EndOf(codec, batches, ids, |ids| - 1) then |ids|
    else Survivors(codec, batches, ids[..|ids| - 1], written)
  }

  lemma {:induction false} SurvivorsAre(codec: Codec, batches: seq<Batch>, ids: seq<nat>, written: nat, k: nat)
    requires InRange(ids, |batches|) && k < |ids|
    ensures k < Survivors(codec, batches, ids, written) <==> written >= EndOf(codec, batches, ids, k)
    decreases |ids|
  {
    var n := |ids| - 1;
    if k < n {
      SurvivorsAre(codec, batches, ids[..n], written, k);
      assert ids[..n][..k] == ids[..k];
      EndsGrow(codec, batches, ids, k, n);
    }
  }

  lemma {:induction false} EndsGrow(codec: Codec, batches: seq<Batch>, ids: seq<nat>, k: nat, n: nat)
    requires InRange(ids, |batches|) && k < n < |ids|
    ensures EndOf(codec, batches, ids, k) < EndOf(codec, batches, ids, n)
    decreases n
  {
    TextOfSnoc(codec, batches, ids, n - 1);
    if k < n - 1 { EndsGrow(codec, batches, ids, k, n - 1); }
  }

  lemma {:induction false} CutRewrittenIds(codec: Codec, batches: seq<Batch>, ids: seq<nat>, written: nat)
    requires Faithful(codec) && InRange(ids, |batches|)
    ensures Ids(CutRewritten(codec, batches, ids, written)) == ids[..Survivors(codec, batches, ids, written)]
    decreases |ids|
  {
    if ids != [] {
      hide Rewritten, Ids, PieceOf;
      var n := |ids| - 1;
      var start := |Text(codec, Contents(batches, ids[..n]))|;
      assert FaithfulOn(codec, batches[ids[n]]);
      assert ids == ids[..n] + [ids[n]];
      if written <= start {
        CutRewrittenIds(codec, batches, ids[..n], written);
      } else {
        AllSurvive(codec, batches, ids[..n], written);
        CutTailIds(codec, batches, ids[..n], ids[n], written - start);
        RewrittenIds(ids);
      }
    }
  }

  lemma CutTailIds(codec: Codec, batches: seq<Batch>, ids: seq<nat>, id: nat, written: nat)
    requires InRange(ids, |batches|) && id < |batches|
    ensures Ids(Rewritten(ids).(tail := [PieceOf(codec, batches[id], id, written)]))
         == if written < |codec.encode(batches[id])| then ids else ids + [id]
  {
    hide LinesIds;
    RewrittenIds(ids);
    assert Ids(Rewritten(ids)) == LinesIds(Rewritten(ids).lines) + [];
  }

  lemma AllSurvive(codec: Codec, batches: seq<Batch>, ids: seq<nat>, written: nat)
    requires InRange(ids, |batches|) && written + 1 >= |Text(codec, Contents(batches, ids))|
    ensures Survivors(codec, batches, ids, written) == |ids|
  {
    if ids != [] {
      TextOfSnoc(codec, batches, ids, |ids| - 1);
      assert ids[..|ids|] == ids;
    }
  }

  /** A rewrite cut by a crash: what can be read is a prefix of the batches, those whose encodings had been written
      out, and all of them exactly when at most the last line break is missing. */
  lemma ShortRewriteLoses(codec: Codec, batches: seq<Batch>, ids: seq<nat>, written: nat)
    requires Faithful(codec) && OnlyWholeLinesDecode(codec) && InRange(ids, |batches|) && ids != []
    ensures var k := Survivors(codec, batches, ids, written);
      && Peek(codec, Prefix(Text(codec, Contents(batches, ids)), written)) == Contents(batches, ids)[..k]
      && (forall j :: 0 <= j < |ids| ==> (j < k <==> written >= EndOf(codec, batches, ids, j)))
      && (k == |ids| <==> written + 1 >= |Text(codec, Contents(batches, ids))|)
  {
    hide Peek, Faithful, OnlyWholeLinesDecode, DiskText, Ids, Prefix, CutRewritten, DiskOk;
    var k := Survivors(codec, batches, ids, written);
    CutRewrittenText(codec, batches, ids, written);
    CutRewrittenIds(codec, batches, ids, written);
    PeekOfDisk(codec, batches, CutRewritten(codec, batches, ids, written));
    assert Contents(batches, ids[..k]) == Contents(batches, ids)[..k];
    forall j | 0 <= j < |ids| ensures j < k <==> written >= EndOf(codec, batches, ids, j) {
      SurvivorsAre(codec, batches, ids, written, j);
    }
    TextOfSnoc(codec, batches, ids, |ids| - 1);
    assert ids[..|ids|] == ids;
  }
}
