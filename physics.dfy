/**
 * `parse_physics_mcqs_improved` (backend/extractor.py:227-352): every numbered line opens
 * a block that runs to the next numbered line; instruction blocks and short blocks are
 * skipped; the rest are read with the inline option pattern and the resolver is asked
 * for the answer.
 */
module PhysicsParser {
  import opened Wrappers
  import opened Strings
  import opened Records
  import opened Answers
  import opened EmbeddedOptions
  import opened NumberedBlocks

  /** Phrases that mark a block as exam instructions rather than a question. */
  const Instructions: seq<string> := [
    "read each question", "answer the questions", "answer sheet", "calculator if you wish",
    "write anything", "erase the first", "grid black out"]

  /** The records produced from line `i` on. */
  function From(lines: seq<string>, i: nat, ask: Resolver): (r: seq<Mcq>)
    requires i <= |lines|
    ensures forall k :: 0 <= k < |r| ==> Emitted(r[k], ask)
    decreases |lines| - i
  {
    if i == |lines| then []
    else if !Numbered(lines[i]) then From(lines, i + 1, ask)
    else
      var block := BlockOf(lines, i, false);
      var rest := From(lines, BlockEnd(lines, i + 1, false), ask);
      if ContainsAny(Lower(block), Instructions) || |block| < 10 then rest
      else RecordOf(block, ask) + rest
  }

  /** The whole parser: texts under 50 characters give nothing. */
  function Parse(text: string, ask: Resolver): seq<Mcq> {
    if |text| < 50 then [] else From(Lines(text), 0, ask)
  }

  /**
   * One pass of the outer walk at line `i`: a line that is not numbered is stepped over;
   * otherwise its block is gathered and, unless it is instructions or too short, read.
   */
  method BlockAt(lines: seq<string>, i: nat, ask: Resolver) returns (record: seq<Mcq>, next: nat)
    requires i < |lines|
    ensures i < next <= |lines|
    ensures From(lines, i, ask) == record + From(lines, next, ask)
  {
    if !Numbered(lines[i]) {
      return [], i + 1;
    }
    var block, j := CollectBlock(lines, i, false);
    next := j;
    if ContainsAny(Lower(block), Instructions) || |block| < 10 {
      record := [];
    } else {
      record := BuildRecord(block, ask);
    }
  }

  /** The parser as written: an outer walk over the lines that jumps past each block. */
  method ParseMcqs(text: string, ask: Resolver) returns (results: seq<Mcq>)
    ensures results == Parse(text, ask)
  {
    if |text| < 50 {
      return [];
    }
    var lines := Lines(text);
    results := [];
    var i := 0;
    while i < |lines|
      invariant i <= |lines|
      invariant results + From(lines, i, ask) == From(lines, 0, ask)
      decreases |lines| - i
    {
      var record, next := BlockAt(lines, i, ask);
      results := results + record;
      i := next;
    }
  }

  /** Each record comes from its own numbered line. */
  lemma {:induction false} AtMostOnePerNumber(lines: seq<string>, i: nat, ask: Resolver)
    requires i <= |lines|
    ensures |From(lines, i, ask)| <= CountNumbered(lines, i)
    decreases |lines| - i
  {
    if i < |lines| {
      if !Numbered(lines[i]) {
        AtMostOnePerNumber(lines, i + 1, ask);
      } else {
        var e := BlockEnd(lines, i + 1, false);
        AtMostOnePerNumber(lines, e, ask);
        CountAcrossBlock(lines, i + 1, e, false);
      }
    }
  }

  /** No question the parser emits contains an instruction phrase, in any case. */
  lemma {:induction false} NoInstructionQuestions(lines: seq<string>, i: nat, ask: Resolver)
    requires i <= |lines|
    ensures forall k :: 0 <= k < |From(lines, i, ask)| ==>
      !ContainsAny(Lower(From(lines, i, ask)[k].question), Instructions)
    decreases |lines| - i
  {
    if i < |lines| {
      if !Numbered(lines[i]) {
        NoInstructionQuestions(lines, i + 1, ask);
      } else {
        var block := BlockOf(lines, i, false);
        NoInstructionQuestions(lines, BlockEnd(lines, i + 1, false), ask);
        if !ContainsAny(Lower(block), Instructions) {
          RecordAvoids(block, ask, Instructions);
        }
      }
    }
  }
}
