/**
 * `fallback_block_parser` (backend/extractor.py:630-681): the non-blank lines are grouped
 * into blocks that start at question cues; in each block the first line is the question
 * and the rest are option lines, continuation lines and answer lines.
 *
 * As in the source, the option pattern `^([A-E])...` is tried before the answer pattern,
 * so a line such as "Answer: B" or "Correct: C" is read as an option, and only lines that
 * start with "Key" reach the answer branch, where the first letter A-E of the line (the
 * `e` of "Key") is taken.
 */
module BlockParser {
  import opened Wrappers
  import opened Strings
  import opened Records
  import opened LineParser

  // ----- grouping lines into blocks -----

  const CueWords: seq<string> := ["what", "which", "how", "why", "where", "when", "who"]

  /** `^\d+[\.\)]\s`. */
  predicate NumberSpace(l: string) {
    NumberMark(l) && DigitRun(l) + 1 < |l| && IsSpace(l[DigitRun(l) + 1])
  }

  /** `^(Q\d+|Question\s+\d+|\d+[\.\)]\s|What|Which|How|Why|Where|When|Who)`, ignoring case. */
  predicate Cue(l: string) {
    QNumber(l) || QuestionNumber(l) || NumberSpace(l)
    || exists k :: 0 <= k < |CueWords| && StartsWithWord(l, CueWords[k])
  }

  /** The closed blocks and the open one after the lines `ls`. */
  datatype Grouping = Grouping(blocks: seq<seq<string>>, current: seq<string>)

  /** The grouping loop over `ls`: a cue closes a non-empty open block and starts a new one. */
  function GroupLines(ls: seq<string>): Grouping {
    if ls == [] then Grouping([], [])
    else
      var g := GroupLines(ls[..|ls| - 1]);
      var l := ls[|ls| - 1];
      if Cue(l) && g.current != [] then Grouping(g.blocks + [g.current], [l])
      else Grouping(g.blocks, g.current + [l])
  }

  /** The blocks: the closed ones and the last one if it is not empty. */
  function Blocks(lines: seq<string>): seq<seq<string>> {
    var g := GroupLines(lines);
    if g.current != [] then g.blocks + [g.current] else g.blocks
  }

  /** The lines of the blocks, in order. */
  function Concat(bs: seq<seq<string>>): seq<string> {
    if bs == [] then [] else Concat(bs[..|bs| - 1]) + bs[|bs| - 1]
  }

  /** What a block looks like: not empty, and no cue after its first line. */
  predicate BlockShape(b: seq<string>) {
    b != [] && forall m :: 0 < m < |b| ==> !Cue(b[m])
  }

  /** What holds of the grouping after every line. */
  predicate Grouped(ls: seq<string>, g: Grouping) {
    && Concat(g.blocks) + g.current == ls
    && (ls != [] ==> g.current != [])
    && (forall m :: 0 < m < |g.current| ==> !Cue(g.current[m]))
    && (g.blocks != [] ==> g.current != [] && Cue(g.current[0]))
    && (forall x :: 0 <= x < |g.blocks| ==> BlockShape(g.blocks[x]))
    && (forall x :: 0 < x < |g.blocks| ==> Cue(g.blocks[x][0]))
  }

  /** A cue line after a non-empty open block closes it. */
  lemma GroupCloses(init: seq<string>, g: Grouping, l: string)
    requires Grouped(init, g) && Cue(l) && g.current != []
    ensures Grouped(init + [l], Grouping(g.blocks + [g.current], [l]))
  {
    var bs := g.blocks + [g.current];
    assert bs[..|bs| - 1] == g.blocks;
    assert Concat(bs) == Concat(g.blocks) + g.current;
  }

  /** Any other line joins the open block. */
  lemma GroupExtends(init: seq<string>, g: Grouping, l: string)
    requires Grouped(init, g) && !(Cue(l) && g.current != [])
    ensures Grouped(init + [l], Grouping(g.blocks, g.current + [l]))
  {
    var c := g.current + [l];
    assert Concat(g.blocks) + c == (Concat(g.blocks) + g.current) + [l];
    if g.current == [] {
      assert init == [] by {
        assert Concat(g.blocks) + g.current == init;
      }
    }
    forall m | 0 < m < |c| ensures !Cue(c[m]) {
      if m < |g.current| {
        assert c[m] == g.current[m];
      }
    }
  }

  lemma {:induction false} GroupLinesGrouped(ls: seq<string>)
    ensures Grouped(ls, GroupLines(ls))
  {
    if ls != [] {
      var init := ls[..|ls| - 1];
      GroupLinesGrouped(init);
      var g := GroupLines(init);
      var l := ls[|ls| - 1];
      assert init + [l] == ls;
      if Cue(l) && g.current != [] {
        GroupCloses(init, g, l);
      } else {
        GroupExtends(init, g, l);
      }
    }
  }

  /**
   * The grouping is a partition of the lines: the blocks hold every line once and in
   * order; no block is empty; every block but the first starts at a cue; and no line
   * after the first of a block is a cue.
   */
  lemma {:induction false} BlocksPartition(lines: seq<string>)
    ensures Concat(Blocks(lines)) == lines
    ensures forall x :: 0 <= x < |Blocks(lines)| ==> BlockShape(Blocks(lines)[x])
    ensures forall x :: 0 < x < |Blocks(lines)| ==> Blocks(lines)[x] != [] && Cue(Blocks(lines)[x][0])
  {
    var g := GroupLines(lines);
    GroupLinesGrouped(lines);
    if g.current != [] {
      var bs := g.blocks + [g.current];
      assert bs[..|bs| - 1] == g.blocks;
      assert Concat(bs) == Concat(g.blocks) + g.current;
      assert BlockShape(g.current);
      assert forall x :: 0 <= x < |bs| ==> BlockShape(bs[x]) by {
        forall x | 0 <= x < |bs| ensures BlockShape(bs[x]) {
          if x < |g.blocks| {
            assert bs[x] == g.blocks[x];
          }
        }
      }
    } else {
      assert lines == [];
    }
  }

  /** The grouping loop as written. */
  method GroupBlocks(lines: seq<string>) returns (blocks: seq<seq<string>>)
    ensures blocks == Blocks(lines)
  {
    blocks := [];
    var currentBlock: seq<string> := [];
    var k := 0;
    while k < |lines|
      invariant k <= |lines|
      invariant Grouping(blocks, currentBlock) == GroupLines(lines[..k])
    {
      var line := lines[k];
      assert lines[..k + 1][..k] == lines[..k];
      if Cue(line) && currentBlock != [] {
        blocks := blocks + [currentBlock];
        currentBlock := [line];
      } else {
        currentBlock := currentBlock + [line];
      }
      k := k + 1;
    }
    assert lines[..k] == lines;
    if currentBlock != [] {
      blocks := blocks + [currentBlock];
    }
  }

  // ----- reading one block -----

  /**
   * Group 2 of `^([A-E])\s*[\.\)\:]*\s*(.*)$` with IGNORECASE: after the letter, spaces, a
   * run of `.`, `)` and `:`, and spaces, the rest of the line.
   */
  function LetterLine(l: string): (r: Option<string>) {
    if l == [] || !IsChoice(l[0]) then None
    else Some(l[SkipSpaces(l, PunctRun(l, SkipSpaces(l, 1)))..])
  }

  /** The end of the run of `[\.\)\:]` from `q`. */
  function PunctRun(s: string, q: nat): (r: nat)
    requires q <= |s|
    ensures q <= r <= |s|
    decreases |s| - q
  {
    if q < |s| && (s[q] == '.' || s[q] == ')' || s[q] == ':') then PunctRun(s, q + 1) else q
  }

  /** `^(Answer|Correct|Key|Ans)`, ignoring case. */
  predicate AnswerWordStart(l: string) {
    StartsWithWord(l, "answer") || StartsWithWord(l, "correct") || StartsWithWord(l, "key") || StartsWithWord(l, "ans")
  }

  /** The options closed so far, the answer, and the option being read. */
  datatype Reading = Reading(options: seq<string>, answer: Option<nat>, current: Option<string>)

  /** The options with the option being read closed, when it has text. */
  function Closed(st: Reading): seq<string> {
    if st.current.Some? && st.current.value != [] then st.options + [Strip(st.current.value)] else st.options
  }

  /** One line of a block: an option line closes the option being read and opens its own; an answer line sets the answer; any other line continues the open option. */
  function ReadLine(st: Reading, l: string): Reading {
    var g := LetterLine(l);
    if g.Some? && g.value != [] then Reading(Closed(st), st.answer, Some(Strip(g.value)))
    else if AnswerWordStart(l) then
      var c := FirstChoice(l, 0);
      if c.Some? then st.(answer := Some(ChoiceIndex(c.value))) else st
    else if st.current.Some? then st.(current := Some(st.current.value + " " + l))
    else st
  }

  /** The reading after the lines `ls`. */
  function ReadLines(ls: seq<string>): Reading {
    if ls == [] then Reading([], None, None) else ReadLine(ReadLines(ls[..|ls| - 1]), ls[|ls| - 1])
  }

  /** The length of `^(Q\d+[\.\)]\s*|\d+[\.\)]\s*)`, case-sensitive, or 0. */
  function BlockQuestionPrefix(q: string): (n: nat)
    ensures n <= |q|
  {
    if |q| >= 2 && q[0] == 'Q' && IsDigit(q[1]) then
      var d := 1 + DigitRun(q[1..]);
      if d < |q| && (q[d] == '.' || q[d] == ')') then SkipSpaces(q, d + 1) else 0
    else if NumberMark(q) then SkipSpaces(q, DigitRun(q) + 1)
    else 0
  }

  /** What every record of this parser satisfies. */
  predicate Sound(m: Mcq) {
    && 2 <= |m.options| && (forall k :: 0 <= k < |m.options| ==> NoEdgeSpace(m.options[k]))
    && (m.correctOption.Some? ==> m.correctOption.value < |m.options|)
    && NoEdgeSpace(m.question) && m.explanation == None && m.image == None
  }

  /** The record of a block: at least two options are needed. */
  function BlockRecord(block: seq<string>): (r: seq<Mcq>)
    ensures |r| <= 1
  {
    if block == [] then []
    else
      var st := ReadLines(block[1..]);
      var options := Closed(st);
      var question := block[0];
      if question != [] && |options| >= 2 then
        [Mcq(Strip(question[BlockQuestionPrefix(question)..]), options, KeptAnswer(st.answer, |options|), None, None)]
      else []
  }

  /** The options of a reading are stripped. */
  lemma {:induction false} ReadLinesStripped(ls: seq<string>)
    ensures forall k :: 0 <= k < |ReadLines(ls).options| ==> NoEdgeSpace(ReadLines(ls).options[k])
    ensures forall k :: 0 <= k < |Closed(ReadLines(ls))| ==> NoEdgeSpace(Closed(ReadLines(ls))[k])
  {
    if ls != [] {
      ReadLinesStripped(ls[..|ls| - 1]);
      var st := ReadLines(ls[..|ls| - 1]);
      if st.current.Some? && st.current.value != [] {
        StripNoEdge(st.current.value);
      }
    }
    var st := ReadLines(ls);
    if st.current.Some? && st.current.value != [] {
      StripNoEdge(st.current.value);
    }
  }

  lemma {:induction false} BlockRecordSound(block: seq<string>)
    ensures forall k :: 0 <= k < |BlockRecord(block)| ==> Sound(BlockRecord(block)[k])
  {
    if block != [] {
      ReadLinesStripped(block[1..]);
      var q := block[0];
      StripNoEdge(q[BlockQuestionPrefix(q)..]);
    }
  }

  /** The records of the blocks, in order. */
  function BlockRecords(bs: seq<seq<string>>): (r: seq<Mcq>)
    ensures |r| <= |bs|
  {
    if bs == [] then [] else BlockRecords(bs[..|bs| - 1]) + BlockRecord(bs[|bs| - 1])
  }

  lemma {:induction false} BlockRecordsSound(bs: seq<seq<string>>)
    ensures forall k :: 0 <= k < |BlockRecords(bs)| ==> Sound(BlockRecords(bs)[k])
  {
    if bs != [] {
      BlockRecordsSound(bs[..|bs| - 1]);
      BlockRecordSound(bs[|bs| - 1]);
    }
  }

  function Parse(text: string): seq<Mcq> {
    BlockRecords(Blocks(NonBlankLines(Split(text, '\n'))))
  }

  /** At most one record per block, and every record is sound. */
  lemma ParseSound(text: string)
    ensures |Parse(text)| <= |Blocks(NonBlankLines(Split(text, '\n')))|
    ensures forall k :: 0 <= k < |Parse(text)| ==> Sound(Parse(text)[k])
  {
    BlockRecordsSound(Blocks(NonBlankLines(Split(text, '\n'))));
  }

  // ----- reading printed blocks back -----

  /** "X) text" is an option line whose text is `text`. */
  lemma {:induction false} LetterLineOfPrinted(c: char, t: string)
    requires IsChoice(c) && t != [] && !IsSpace(t[0])
    ensures LetterLine([c, ')', ' '] + t) == Some(t)
  {
    var l := [c, ')', ' '] + t;
    assert SkipSpaces(l, 1) == 1;
    assert l[3] == t[0];
    assert PunctRun(l, 2) == 2;
    assert PunctRun(l, 1) == 2;
    assert SkipSpaces(l, 3) == 3;
    assert SkipSpaces(l, 2) == 3;
    assert l[3..] == t;
  }

  /** A printed option line closes the option being read and opens its own text. */
  lemma ReadPrintedOption(st: Reading, c: char, t: string)
    requires IsChoice(c) && t != [] && NoEdgeSpace(t)
    ensures ReadLine(st, [c, ')', ' '] + t) == Reading(Closed(st), st.answer, Some(t))
  {
    LetterLineOfPrinted(c, t);
    StripOfTrimmed(t);
  }

  /** Two printed option lines are read as those two options, with no answer. */
  lemma {:induction false} ReadTwoPrinted(x: string, y: string)
    requires x != [] && y != [] && NoEdgeSpace(x) && NoEdgeSpace(y)
    ensures ReadLines([['A', ')', ' '] + x, ['B', ')', ' '] + y]) == Reading([x], None, Some(y))
  {
    var lx := ['A', ')', ' '] + x;
    var ly := ['B', ')', ' '] + y;
    var ls := [lx, ly];
    assert ls[..1] == [lx] && [lx][..0] == [];
    ReadPrintedOption(Reading([], None, None), 'A', x);
    assert ReadLines([lx]) == Reading([], None, Some(x));
    ReadPrintedOption(Reading([], None, Some(x)), 'B', y);
    StripOfTrimmed(x);
    assert Closed(Reading([], None, Some(x))) == [x];
  }

  /** A block of a question and two printed options gives exactly those two options and no answer. */
  lemma {:induction false} PrintedBlock(q: string, x: string, y: string)
    requires q != [] && x != [] && y != [] && NoEdgeSpace(x) && NoEdgeSpace(y)
    ensures var question := Strip(q[BlockQuestionPrefix(q)..]);
      BlockRecord([q, "A) " + x, "B) " + y]) == [Mcq(question, [x, y], None, None, None)]
  {
    var block := [q, "A) " + x, "B) " + y];
    assert block[1..] == [['A', ')', ' '] + x, ['B', ')', ' '] + y];
    ReadTwoPrinted(x, y);
    StripOfTrimmed(y);
    assert Closed(Reading([x], None, Some(y))) == [x, y];
  }

  /** A line such as "Answer: B" is taken as an option line, not as an answer. */
  lemma AnswerLineIsOption(t: string)
    ensures LetterLine("Answer: " + t) == Some("nswer: " + t)
  {
    var l := "Answer: " + t;
    assert SkipSpaces(l, 1) == 1;
    assert PunctRun(l, 1) == 1;
    assert l[1..] == "nswer: " + t;
  }

  /** A "Key" line always sets the answer to 4, whatever letter it names. */
  lemma KeyLineSetsFour(st: Reading, l: string)
    requires StartsWithWord(l, "key")
    ensures ReadLine(st, l).answer == Some(4)
  {
    assert LowerChar(l[0]) == 'k';
    assert MatchesFrom(l, "key", 1);
    assert LowerChar(l[1]) == 'e';
    assert FirstChoice(l, 0) == FirstChoice(l, 1);
  }

  // ----- the parser as written -----

  /** One pass of the `for line in block[1:]` loop. */
  method ReadBlockLine(options: seq<string>, answerIdx: Option<nat>, currentOpt: Option<string>, line: string)
    returns (options': seq<string>, answerIdx': Option<nat>, currentOpt': Option<string>)
    ensures Reading(options', answerIdx', currentOpt') == ReadLine(Reading(options, answerIdx, currentOpt), line)
  {
    options', answerIdx', currentOpt' := options, answerIdx, currentOpt;
    var optMatch := LetterLine(line);
    if optMatch.Some? && optMatch.value != [] {
      if currentOpt.Some? && currentOpt.value != [] {
        options' := options + [Strip(currentOpt.value)];
      }
      currentOpt' := Some(Strip(optMatch.value));
    } else if AnswerWordStart(line) {
      var ansMatch := FirstChoice(line, 0);
      if ansMatch.Some? {
        answerIdx' := Some(ChoiceIndex(ansMatch.value));
      }
    } else if currentOpt.Some? {
      currentOpt' := Some(currentOpt.value + " " + line);
    }
  }

  /** The `for line in block[1:]` loop, then the record of the block. */
  method ReadBlock(block: seq<string>) returns (r: seq<Mcq>)
    ensures r == BlockRecord(block)
  {
    if block == [] {
      return [];
    }
    var question := block[0];
    var rest := block[1..];
    var options: seq<string> := [];
    var answerIdx: Option<nat> := None;
    var currentOpt: Option<string> := None;
    var k := 0;
    while k < |rest|
      invariant k <= |rest|
      invariant Reading(options, answerIdx, currentOpt) == ReadLines(rest[..k])
    {
      assert rest[..k + 1][..k] == rest[..k];
      options, answerIdx, currentOpt := ReadBlockLine(options, answerIdx, currentOpt, rest[k]);
      k := k + 1;
    }
    assert rest[..k] == rest;
    if currentOpt.Some? && currentOpt.value != [] {
      options := options + [Strip(currentOpt.value)];
    }
    if question != [] && |options| >= 2 {
      if answerIdx.None? || answerIdx.value >= |options| {
        answerIdx := None;
      }
      r := [Mcq(Strip(question[BlockQuestionPrefix(question)..]), options, answerIdx, None, None)];
    } else {
      r := [];
    }
  }

  /** The parser as written: group, then read every block. */
  method FallbackParse(text: string) returns (results: seq<Mcq>)
    ensures results == Parse(text)
  {
    var lines := NonBlankLines(Split(text, '\n'));
    var blocks := GroupBlocks(lines);
    results := [];
    var k := 0;
    while k < |blocks|
      invariant k <= |blocks|
      invariant results == BlockRecords(blocks[..k])
    {
      assert blocks[..k + 1][..k] == blocks[..k];
      var r := ReadBlock(blocks[k]);
      results := results + r;
      k := k + 1;
    }
    assert blocks[..k] == blocks;
  }
}
