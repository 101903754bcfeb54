/**
 * The stand-alone variant of the physics parser (backend/improved_physics_parser.py:11-120):
 * only a line that is nothing but a number and a period opens a question, the block runs
 * to the next such line, and no answer is looked up.
 */
module StandalonePhysics {
  import opened Wrappers
  import opened Strings
  import opened Records
  import opened Answers
  import opened EmbeddedOptions
  import opened NumberedBlocks
  import PhysicsParser

  /** `re.match(r'^(\d+)\.\s*$', line)`: a number, a period, then only whitespace. */
  predicate Bare(line: string) {
    Numbered(line) && SkipSpaces(line, DigitRun(line) + 1) == |line|
  }

  /** The first bare line at or after `j`, or the end of the text. */
  function BareEnd(lines: seq<string>, j: nat): (e: nat)
    requires j <= |lines|
    ensures j <= e <= |lines|
    ensures e < |lines| ==> Bare(lines[e])
    ensures forall k :: j <= k < e ==> !Bare(lines[k])
    decreases |lines| - j
  {
    if j < |lines| && !Bare(lines[j]) then BareEnd(lines, j + 1) else j
  }

  /** No line of `lines[lo..hi]` is bare. */
  predicate NoBareIn(lines: seq<string>, lo: nat, hi: nat)
    requires lo <= hi <= |lines|
    decreases hi - lo
  {
    lo == hi || (NoBareIn(lines, lo, hi - 1) && !Bare(lines[hi - 1]))
  }

  lemma {:induction false} NoBareHead(lines: seq<string>, lo: nat, hi: nat)
    requires lo < hi <= |lines| && NoBareIn(lines, lo, hi)
    ensures !Bare(lines[lo]) && NoBareIn(lines, lo + 1, hi)
    decreases hi - lo
  {
    if lo + 1 < hi {
      NoBareHead(lines, lo, hi - 1);
    }
  }

  /** A first bare line found by scanning is the one `BareEnd` names. */
  lemma {:induction false} BareEndAt(lines: seq<string>, j: nat, e: nat)
    requires j <= e <= |lines| && NoBareIn(lines, j, e)
    requires e == |lines| || Bare(lines[e])
    ensures BareEnd(lines, j) == e
    decreases e - j
  {
    if j < e {
      NoBareHead(lines, j, e);
      BareEndAt(lines, j + 1, e);
    }
  }

  /** The block a bare line opens: the non-blank lines up to the next bare line, joined by spaces. */
  function BareBlock(lines: seq<string>, i: nat): string
    requires i < |lines|
  {
    Join(NonBlank(lines, i + 1, BareEnd(lines, i + 1)), " ")
  }

  /** The record of a block: the draft with no answer and an empty explanation. */
  function RecordOf(block: string): (r: seq<Mcq>)
    ensures |r| <= 1 && (r != [] <==> DraftOf(block).Some?)
    ensures forall k :: 0 <= k < |r| ==>
      WellFormed(Draft(r[k].question, r[k].options)) && r[k].correctOption == None
      && r[k].explanation == Some("") && r[k].image == None
  {
    var d := DraftOf(block);
    if d.None? then [] else [Plain(d.value.question, d.value.options, None)]
  }

  /** The records produced from line `i` on. */
  function From(lines: seq<string>, i: nat): (r: seq<Mcq>)
    requires i <= |lines|
    ensures forall k :: 0 <= k < |r| ==>
      WellFormed(Draft(r[k].question, r[k].options)) && r[k].correctOption == None
      && r[k].explanation == Some("") && r[k].image == None
    decreases |lines| - i
  {
    if i == |lines| then []
    else if !Bare(lines[i]) then From(lines, i + 1)
    else
      var block := BareBlock(lines, i);
      var rest := From(lines, BareEnd(lines, i + 1));
      if ContainsAny(Lower(block), PhysicsParser.Instructions) || |block| < 10 then rest
      else RecordOf(block) + rest
  }

  function Parse(text: string): seq<Mcq> {
    if |text| < 50 then [] else From(Lines(text), 0)
  }

  /** The inner loop: gather the lines up to the next bare line. */
  method CollectBareBlock(lines: seq<string>, i: nat) returns (block: string, j: nat)
    requires i < |lines|
    ensures i < j && j == BareEnd(lines, i + 1)
    ensures block == BareBlock(lines, i)
  {
    var parts: seq<string> := [];
    j := i + 1;
    while j < |lines|
      invariant i + 1 <= j <= |lines|
      invariant NoBareIn(lines, i + 1, j)
      invariant parts == NonBlank(lines, i + 1, j)
    {
      if Bare(lines[j]) {
        break;
      }
      if Strip(lines[j]) != [] {
        parts := parts + [lines[j]];
      }
      j := j + 1;
    }
    BareEndAt(lines, i + 1, j);
    block := Join(parts, " ");
  }

  /** The record step: read the draft and keep it without an answer. */
  method BuildRecord(block: string) returns (r: seq<Mcq>)
    ensures r == RecordOf(block)
  {
    var d := ReadDraft(block);
    if d.Some? {
      r := [Plain(d.value.question, d.value.options, None)];
    } else {
      r := [];
    }
  }

  /**
   * One pass of the outer walk at line `i`: a line that is not a bare number is stepped
   * over; otherwise its block is gathered and, unless it is instructions or too short, read.
   */
  method BlockAt(lines: seq<string>, i: nat) returns (record: seq<Mcq>, next: nat)
    requires i < |lines|
    ensures i < next <= |lines|
    ensures From(lines, i) == record + From(lines, next)
  {
    if !Bare(lines[i]) {
      return [], i + 1;
    }
    var block, j := CollectBareBlock(lines, i);
    next := j;
    if ContainsAny(Lower(block), PhysicsParser.Instructions) || |block| < 10 {
      record := [];
    } else {
      record := BuildRecord(block);
    }
  }

  /** The parser as written. */
  method ParseMcqs(text: string) returns (results: seq<Mcq>)
    ensures results == Parse(text)
  {
    if |text| < 50 {
      return [];
    }
    var lines := Lines(text);
    results := [];
    var i := 0;
    while i < |lines|
      invariant i <= |lines|
      invariant results + From(lines, i) == From(lines, 0)
      decreases |lines| - i
    {
      var record, next := BlockAt(lines, i);
      results := results + record;
      i := next;
    }
  }

  // ----- agreement with the extractor's variant -----

  /** Every numbered line of `lines` is bare. */
  predicate AllNumbersBare(lines: seq<string>) {
    forall k :: 0 <= k < |lines| && Numbered(lines[k]) ==> Bare(lines[k])
  }

  /** The records with their answers dropped. */
  function WithoutAnswers(ms: seq<Mcq>): (r: seq<Mcq>)
    ensures |r| == |ms|
    ensures forall k :: 0 <= k < |r| ==> r[k] == ms[k].(correctOption := None)
  {
    if ms == [] then [] else [ms[0].(correctOption := None)] + WithoutAnswers(ms[1..])
  }

  lemma {:induction false} WithoutAnswersAppend(a: seq<Mcq>, b: seq<Mcq>)
    ensures WithoutAnswers(a + b) == WithoutAnswers(a) + WithoutAnswers(b)
  {
    assert forall k :: 0 <= k < |a + b| ==> WithoutAnswers(a + b)[k] == (WithoutAnswers(a) + WithoutAnswers(b))[k];
  }

  /** A bare line has no text after its number. */
  lemma {:induction false} BareFirstTextEmpty(line: string)
    requires Bare(line)
    ensures FirstText(line) == []
  {
    var t := line[DigitRun(line) + 1..];
    assert forall k :: 0 <= k < |t| ==> IsSpace(t[k]) by {
      forall k | 0 <= k < |t| ensures IsSpace(t[k]) {
        assert t[k] == line[DigitRun(line) + 1 + k];
      }
    }
    StripEmptyIffAllSpace(t);
  }

  /** When every number stands alone, both block rules end at the same line. */
  lemma {:induction false} SameBlockEnd(lines: seq<string>, j: nat)
    requires j <= |lines| && AllNumbersBare(lines)
    ensures BareEnd(lines, j) == BlockEnd(lines, j, false)
    decreases |lines| - j
  {
    if j < |lines| && !Bare(lines[j]) {
      SameBlockEnd(lines, j + 1);
    }
  }

  /** When every number stands alone, both blocks are the same text. */
  lemma {:induction false} SameBlock(lines: seq<string>, i: nat)
    requires i < |lines| && Bare(lines[i]) && AllNumbersBare(lines)
    ensures BareBlock(lines, i) == BlockOf(lines, i, false)
  {
    BareFirstTextEmpty(lines[i]);
    SameBlockEnd(lines, i + 1);
    assert [] + NonBlank(lines, i + 1, BareEnd(lines, i + 1)) == NonBlank(lines, i + 1, BareEnd(lines, i + 1));
  }

  /**
   * On a paper whose question numbers stand on lines of their own, this parser finds
   * exactly the questions and options the extractor's variant finds; only the answers differ.
   */
  lemma {:induction false} AgreesWithExtractor(lines: seq<string>, i: nat, ask: Resolver)
    requires i <= |lines| && AllNumbersBare(lines)
    ensures From(lines, i) == WithoutAnswers(PhysicsParser.From(lines, i, ask))
    decreases |lines| - i
  {
    if i < |lines| {
      if !Bare(lines[i]) {
        AgreesWithExtractor(lines, i + 1, ask);
      } else {
        var block := BareBlock(lines, i);
        SameBlock(lines, i);
        SameBlockEnd(lines, i + 1);
        var e := BareEnd(lines, i + 1);
        AgreesWithExtractor(lines, e, ask);
        var theirs := NumberedBlocks.RecordOf(block, ask);
        if !(ContainsAny(Lower(block), PhysicsParser.Instructions) || |block| < 10) {
          WithoutAnswersAppend(theirs, PhysicsParser.From(lines, e, ask));
          assert RecordOf(block) == WithoutAnswers(theirs);
        }
      }
    }
  }
}
