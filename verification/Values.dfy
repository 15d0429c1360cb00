/** The values every component shares: an optional value, and JavaScript's notion of white space. */
module Values {

  datatype Option<+T> = None | Some(value: T)

  /** White space and line terminators as `String.prototype.trim` and the regular expression class `\s`
      treat them. */
  predicate IsSpace(c: char) {
    var code := c as int;
    || 0x9 <= code <= 0xD
    || c == ' '
    || code == 0xA0
    || code == 0x1680
    || 0x2000 <= code <= 0x200A
    || 0x2028 <= code <= 0x2029
    || code == 0x202F
    || code == 0x205F
    || code == 0x3000
    || code == 0xFEFF
  }

  function TrimStart(s: string): string {
    if s != "" && IsSpace(s[0]) then TrimStart(s[1..]) else s
  }

  function TrimEnd(s: string): string {
    if s != "" && IsSpace(s[|s| - 1]) then TrimEnd(s[..|s| - 1]) else s
  }

  function Trim(s: string): string {
    TrimEnd(TrimStart(s))
  }

  /** A string JavaScript treats as true: present and not empty. */
  predicate Truthy(s: Option<string>) {
    s.Some? && s.value != ""
  }

  // ----- Lists made from lists -----

  predicate Rising(at: seq<nat>) {
    forall j, k :: 0 <= j < k < |at| ==> at[j] < at[k]
  }

  ghost predicate MadeFrom<A, B>(at: seq<nat>, items: seq<A>, results: seq<B>, wanted: A -> bool, made: (A, B) -> bool) {
    && |at| == |results|
    && forall k :: 0 <= k < |at| ==> at[k] < |items| && wanted(items[at[k]]) && made(items[at[k]], results[k])
  }

  ghost predicate CoversWanted<A>(at: seq<nat>, items: seq<A>, wanted: A -> bool) {
    forall j :: 0 <= j < |items| && wanted(items[j]) ==> j in at
  }

  /** One result for each wanted item, in order: the k-th result is made from the item at position at[k]. */
  ghost predicate OneForEach<A, B>(at: seq<nat>, items: seq<A>, results: seq<B>, wanted: A -> bool, made: (A, B) -> bool) {
    Rising(at) && MadeFrom(at, items, results, wanted, made) && CoversWanted(at, items, wanted)
  }

  lemma CoversOneMore<A>(at: seq<nat>, items: seq<A>, item: A, wanted: A -> bool)
    requires CoversWanted(at, items, wanted)
    ensures CoversWanted(at + [|items|], items + [item], wanted) && (!wanted(item) ==> CoversWanted(at, items + [item], wanted))
  {
    var more, longer := items + [item], at + [|items|];
    forall j | 0 <= j < |more| && wanted(more[j]) ensures j in longer {
      if j == |items| { assert longer[|at|] == j; } else {
        assert more[j] == items[j];
        var k :| 0 <= k < |at| && at[k] == j;
        assert longer[k] == j;
      }
    }
  }

  lemma OneMoreEach<A, B>(at: seq<nat>, items: seq<A>, results: seq<B>, item: A, result: B, wanted: A -> bool, made: (A, B) -> bool)
    requires OneForEach(at, items, results, wanted, made)
    ensures !wanted(item) ==> OneForEach(at, items + [item], results, wanted, made)
    ensures wanted(item) && made(item, result) ==> OneForEach(at + [|items|], items + [item], results + [result], wanted, made)
  {
    CoversOneMore(at, items, item, wanted);
    hide CoversWanted;
  }

  function Shifted(at: seq<nat>): (later: seq<nat>)
    ensures |later| == |at| && forall k :: 0 <= k < |at| ==> later[k] == at[k] + 1
  {
    seq(|at|, k requires 0 <= k < |at| => at[k] + 1)
  }

  lemma ShiftedHas(at: seq<nat>, j: nat)
    requires j in at
    ensures j + 1 in Shifted(at)
  {
    var k :| 0 <= k < |at| && at[k] == j;
    assert Shifted(at)[k] == j + 1;
  }

  lemma ShiftedCovers<A>(at: seq<nat>, items: seq<A>, more: seq<A>, wanted: A -> bool)
    requires CoversWanted(at, items, wanted) && more != [] && more[1..] == items
    ensures !wanted(more[0]) ==> CoversWanted(Shifted(at), more, wanted)
    ensures CoversWanted([0] + Shifted(at), more, wanted)
  {
    forall j | 0 < j < |more| && wanted(more[j]) ensures j in Shifted(at) {
      assert more[1..][j - 1] == more[j];
      ShiftedHas(at, j - 1);
    }
    assert ([0] + Shifted(at))[0] == 0;
  }

  lemma ShiftedMade<A, B>(at: seq<nat>, items: seq<A>, results: seq<B>, more: seq<A>, wanted: A -> bool, made: (A, B) -> bool)
    requires MadeFrom(at, items, results, wanted, made) && more != [] && more[1..] == items
    ensures MadeFrom(Shifted(at), more, results, wanted, made)
  {
    forall k | 0 <= k < |at| ensures more[Shifted(at)[k]] == items[at[k]] {
      assert more[1..][at[k]] == more[at[k] + 1];
    }
  }

  lemma FirstMade<A, B>(at: seq<nat>, results: seq<B>, more: seq<A>, result: B, wanted: A -> bool, made: (A, B) -> bool)
    requires MadeFrom(at, more, results, wanted, made) && more != [] && wanted(more[0]) && made(more[0], result)
    ensures MadeFrom([0] + at, more, [result] + results, wanted, made)
  {
    var longer, all := [0] + at, [result] + results;
    forall k | 0 <= k < |longer| ensures longer[k] < |more| && wanted(more[longer[k]]) && made(more[longer[k]], all[k]) {
      if k > 0 { assert longer[k] == at[k - 1] && all[k] == results[k - 1]; }
    }
  }

  /** An item before all others: it has the first result if it is wanted, and none otherwise. */
  lemma OneFirstEach<A, B>(at: seq<nat>, items: seq<A>, results: seq<B>, more: seq<A>, result: B, wanted: A -> bool, made: (A, B) -> bool)
    requires OneForEach(at, items, results, wanted, made) && more != [] && more[1..] == items
    ensures !wanted(more[0]) ==> OneForEach(Shifted(at), more, results, wanted, made)
    ensures wanted(more[0]) && made(more[0], result) ==> OneForEach([0] + Shifted(at), more, [result] + results, wanted, made)
  {
    ShiftedCovers(at, items, more, wanted);
    ShiftedMade(at, items, results, more, wanted, made);
    assert Rising(Shifted(at)) && Rising([0] + Shifted(at));
    hide Shifted, Rising, CoversWanted, MadeFrom;
    if wanted(more[0]) && made(more[0], result) { FirstMade(Shifted(at), results, more, result, wanted, made); }
  }

  /** The same items, with results made otherwise. */
  lemma RemadeEach<A(!new), B>(at: seq<nat>, items: seq<A>, results: seq<B>, others: seq<B>, wanted: A -> bool,
                               made: (A, B) -> bool, remade: (A, B) -> bool)
    requires OneForEach(at, items, results, wanted, made) && |others| == |results|
    requires forall k, a :: 0 <= k < |results| && made(a, results[k]) ==> remade(a, others[k])
    ensures OneForEach(at, items, others, wanted, remade)
  {
  }

  // ----- White space -----

  /** The white space there is, character by character. */
  lemma WhiteSpaceIs(c: char)
    ensures IsSpace(c) <==>
      c as int in {9, 10, 11, 12, 13, 32, 160, 5760, 8192, 8193, 8194, 8195, 8196, 8197, 8198, 8199, 8200, 8201, 8202, 8232, 8233, 8239, 8287, 12288, 65279}
  {
  }

  predicate Blank(s: string) {
    forall i :: 0 <= i < |s| ==> IsSpace(s[i])
  }

  lemma {:induction false} TrimStartIs(s: string) returns (before: string)
    ensures s == before + TrimStart(s) && Blank(before) && (TrimStart(s) != "" ==> !IsSpace(TrimStart(s)[0]))
    decreases |s|
  {
    if s != "" && IsSpace(s[0]) {
      var rest := TrimStartIs(s[1..]);
      before := [s[0]] + rest;
    } else {
      before := "";
    }
  }

  lemma {:induction false} TrimEndIs(s: string) returns (after: string)
    ensures s == TrimEnd(s) + after && Blank(after) && (TrimEnd(s) != "" ==> !IsSpace(TrimEnd(s)[|TrimEnd(s)| - 1]))
    ensures TrimEnd(s) != "" ==> TrimEnd(s)[0] == s[0]
    decreases |s|
  {
    if s != "" && IsSpace(s[|s| - 1]) {
      var rest := TrimEndIs(s[..|s| - 1]);
      after := rest + [s[|s| - 1]];
    } else {
      after := "";
    }
  }

  /** Trimming takes white space off both ends and nothing else. */
  lemma TrimIs(s: string)
    ensures exists before, after :: s == before + Trim(s) + after && Blank(before) && Blank(after)
    ensures Trim(s) != "" ==> !IsSpace(Trim(s)[0]) && !IsSpace(Trim(s)[|Trim(s)| - 1])
  {
    var before := TrimStartIs(s);
    var after := TrimEndIs(TrimStart(s));
    assert s == before + Trim(s) + after;
  }
}
