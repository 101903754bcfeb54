/**
 * The line walk shared by the two specialised parsers of backend/extractor.py
 * (`parse_english_mcqs`, 80-225, and `parse_physics_mcqs_improved`, 227-352): the text
 * is split into stripped lines, a line "N." opens a question, the following lines are
 * gathered until a line that stops the block, and the block is read with the inline
 * option pattern.
 */
module NumberedBlocks {
  import opened Wrappers
  import opened Strings
  import opened Records
  import opened Answers
  import opened EmbeddedOptions

  /** `[l.strip() for l in text.split('\n')]`. */
  function Lines(text: string): (r: seq<string>)
    ensures |r| == |Split(text, '\n')|
  {
    var ps := Split(text, '\n');
    seq(|ps|, k requires 0 <= k < |ps| => Strip(ps[k]))
  }

  /** `re.match(r'^(\d+)\.', line)`: a run of digits followed by a period. */
  predicate Numbered(line: string) {
    var n := DigitRun(line);
    1 <= n < |line| && line[n] == '.'
  }

  /** Group 2 of `^(\d+)\.\s*(.*?)$`, stripped: the text after the number. */
  function FirstText(line: string): string
    requires Numbered(line)
  {
    Strip(line[DigitRun(line) + 1..])
  }

  /** Words that, lower-cased, end an English question block. */
  const SectionWords: seq<string> := ["listening", "reading", "writing", "section"]

  /** The line ends the block: another question number or, in the English parser, a section word. */
  predicate StopsBlock(line: string, english: bool) {
    Numbered(line) || (english && ContainsAny(Lower(line), SectionWords))
  }

  /** The first line at or after `j` that stops the block, or the end of the text. */
  function BlockEnd(lines: seq<string>, j: nat, english: bool): (e: nat)
    requires j <= |lines|
    ensures j <= e <= |lines|
    ensures e < |lines| ==> StopsBlock(lines[e], english)
    ensures forall k :: j <= k < e ==> !StopsBlock(lines[k], english)
    decreases |lines| - j
  {
    if j < |lines| && !StopsBlock(lines[j], english) then BlockEnd(lines, j + 1, english) else j
  }

  /** The lines of `lines[lo..hi]` that are not blank, in order. */
  function NonBlank(lines: seq<string>, lo: nat, hi: nat): (r: seq<string>)
    requires lo <= hi <= |lines|
    ensures |r| <= hi - lo
    decreases hi - lo
  {
    if lo == hi then []
    else NonBlank(lines, lo, hi - 1) + (if Strip(lines[hi - 1]) != [] then [lines[hi - 1]] else [])
  }

  /** The block a numbered line opens: its own text, if any, and the non-blank lines after it, joined by spaces. */
  function BlockOf(lines: seq<string>, i: nat, english: bool): string
    requires i < |lines| && Numbered(lines[i])
  {
    var first := FirstText(lines[i]);
    var head := if first != [] then [first] else [];
    Join(head + NonBlank(lines, i + 1, BlockEnd(lines, i + 1, english)), " ")
  }

  /** No line of `lines[lo..hi]` stops the block. */
  predicate NoStopIn(lines: seq<string>, lo: nat, hi: nat, english: bool)
    requires lo <= hi <= |lines|
    decreases hi - lo
  {
    lo == hi || (NoStopIn(lines, lo, hi - 1, english) && !StopsBlock(lines[hi - 1], english))
  }

  /** A first stop found by scanning is the one `BlockEnd` names. */
  lemma {:induction false} BlockEndAt(lines: seq<string>, j: nat, e: nat, english: bool)
    requires j <= e <= |lines|
    requires NoStopIn(lines, j, e, english)
    requires e == |lines| || StopsBlock(lines[e], english)
    ensures BlockEnd(lines, j, english) == e
    decreases e - j
  {
    if j < e {
      NoStopHead(lines, j, e, english);
      BlockEndAt(lines, j + 1, e, english);
    }
  }

  /** Peeling the first line off a stretch without stops. */
  lemma {:induction false} NoStopHead(lines: seq<string>, lo: nat, hi: nat, english: bool)
    requires lo < hi <= |lines| && NoStopIn(lines, lo, hi, english)
    ensures !StopsBlock(lines[lo], english) && NoStopIn(lines, lo + 1, hi, english)
    decreases hi - lo
  {
    if lo + 1 < hi {
      NoStopHead(lines, lo, hi - 1, english);
    }
  }

  /** The inner `while j < len(lines)` loop: gather the block a numbered line opens. */
  method CollectBlock(lines: seq<string>, i: nat, english: bool) returns (block: string, j: nat)
    requires i < |lines| && Numbered(lines[i])
    ensures i < j && j == BlockEnd(lines, i + 1, english)
    ensures block == BlockOf(lines, i, english)
  {
    var more: seq<string> := [];
    j := i + 1;
    while j < |lines|
      invariant i + 1 <= j <= |lines|
      invariant NoStopIn(lines, i + 1, j, english)
      invariant more == NonBlank(lines, i + 1, j)
    {
      if Numbered(lines[j]) {
        break;
      }
      if english && ContainsAny(Lower(lines[j]), SectionWords) {
        break;
      }
      if Strip(lines[j]) != [] {
        more := more + [lines[j]];
      }
      j := j + 1;
    }
    BlockEndAt(lines, i + 1, j, english);
    var first := FirstText(lines[i]);
    var head: seq<string> := if first != [] then [first] else [];
    block := Join(head + more, " ");
  }

  /**
   * What both parsers append for a block: the draft's question and (at most four)
   * options, the resolver's answer for exactly those, and an empty explanation.
   */
  predicate Emitted(m: Mcq, ask: Resolver) {
    && WellFormed(Draft(m.question, m.options))
    && m.correctOption == IdentifyOrNone(ask(m.question, m.options), |m.options|)
    && m.explanation == Some("") && m.image == None
  }

  /** The record a block yields: none when the block has no usable draft. */
  function RecordOf(block: string, ask: Resolver): (r: seq<Mcq>)
    ensures |r| <= 1
    ensures r != [] <==> DraftOf(block).Some?
    ensures forall k :: 0 <= k < |r| ==> Emitted(r[k], ask)
  {
    var draft := DraftOf(block);
    if draft.None? then []
    else
      var d := draft.value;
      [Plain(d.question, d.options, IdentifyOrNone(ask(d.question, d.options), |d.options|))]
  }

  /** Building the record as the parsers do: read the draft, then ask the resolver. */
  method BuildRecord(block: string, ask: Resolver) returns (r: seq<Mcq>)
    ensures r == RecordOf(block, ask)
  {
    var d := ReadDraft(block);
    if d.Some? {
      var correct := IdentifyOrNone(ask(d.value.question, d.value.options), |d.value.options|);
      r := [Plain(d.value.question, d.value.options, correct)];
    } else {
      r := [];
    }
  }

  /** How many numbered lines `lines[i..]` holds. */
  function CountNumbered(lines: seq<string>, i: nat): nat
    requires i <= |lines|
    decreases |lines| - i
  {
    if i == |lines| then 0 else (if Numbered(lines[i]) then 1 else 0) + CountNumbered(lines, i + 1)
  }

  /** Lines that stop no block hold no question number. */
  lemma {:induction false} CountAcrossBlock(lines: seq<string>, j: nat, e: nat, english: bool)
    requires j <= e <= |lines|
    requires forall k :: j <= k < e ==> !StopsBlock(lines[k], english)
    ensures CountNumbered(lines, j) == CountNumbered(lines, e)
    decreases e - j
  {
    if j < e {
      CountAcrossBlock(lines, j + 1, e, english);
    }
  }

  /** Lower-casing commutes with slicing. */
  lemma {:induction false} LowerSlice(s: string, a: nat, b: nat)
    requires a <= b <= |s|
    ensures Lower(s[a..b]) == Lower(s)[a..b]
  {
    assert forall k :: 0 <= k < b - a ==> Lower(s[a..b])[k] == Lower(s)[a..b][k];
  }

  /** A phrase found in a slice, ignoring case, is found in the whole text. */
  lemma {:induction false} ContainsAnyInSlice(s: string, a: nat, b: nat, kws: seq<string>)
    requires a <= b <= |s| && ContainsAny(Lower(s[a..b]), kws)
    ensures ContainsAny(Lower(s), kws)
  {
    var k :| 0 <= k < |kws| && Contains(Lower(s[a..b]), kws[k]);
    var o :| 0 <= o <= |Lower(s[a..b])| - |kws[k]| && OccursAt(Lower(s[a..b]), kws[k], o);
    LowerSlice(s, a, b);
    OccursInSlice(Lower(s), a, b, kws[k], o);
    assert Contains(Lower(s), kws[k]);
  }

  /** Stripping a text never brings in a phrase it lacked. */
  lemma {:induction false} StripAvoids(s: string, kws: seq<string>)
    requires !ContainsAny(Lower(s), kws)
    ensures !ContainsAny(Lower(Strip(s)), kws)
  {
    StripSlice(s);
    var st := StripStart(s);
    if ContainsAny(Lower(Strip(s)), kws) {
      ContainsAnyInSlice(s, st, st + |Strip(s)|, kws);
    }
  }

  /** The question of a draft is a piece of its block, so it holds no phrase the block lacks. */
  lemma {:induction false} QuestionAvoids(block: string, kws: seq<string>)
    requires DraftOf(block).Some? && !ContainsAny(Lower(block), kws)
    ensures !ContainsAny(Lower(DraftOf(block).value.question), kws)
  {
    var q := DraftOf(block).value.question;
    var a: nat :| StemBefore(block, a, q);
    if ContainsAny(Lower(block[..a]), kws) {
      ContainsAnyInSlice(block, 0, a, kws);
    }
    StripAvoids(block[..a], kws);
  }

  /** The record of a block without a phrase has a question without it. */
  lemma {:induction false} RecordAvoids(block: string, ask: Resolver, kws: seq<string>)
    requires !ContainsAny(Lower(block), kws)
    ensures forall k :: 0 <= k < |RecordOf(block, ask)| ==> !ContainsAny(Lower(RecordOf(block, ask)[k].question), kws)
  {
    if DraftOf(block).Some? {
      QuestionAvoids(block, kws);
    }
  }
}
