/**
 * `parse_english_mcqs` (backend/extractor.py:80-225): the physics walk plus a section
 * tracker. Section headers switch between listening (skipped, there is no audio),
 * reading and writing (parsed); nothing is parsed before the first reading or writing
 * header. Blocks also end at any line that mentions a section word.
 */
module EnglishParser {
  import opened Wrappers
  import opened Strings
  import opened Records
  import opened Answers
  import opened EmbeddedOptions
  import opened NumberedBlocks

  /** The section the walk is in; `Outside` is the state before any header. */
  datatype Section = Outside | Listening | Reading | Writing

  /** A header line names its section and contains "section"; listening wins, then reading, then writing. */
  function Header(line: string): (r: Option<Section>)
    ensures r != Some(Outside)
  {
    var l := Lower(line);
    if Contains(l, "listening") && Contains(l, "section") then Some(Listening)
    else if Contains(l, "reading") && Contains(l, "section") then Some(Reading)
    else if Contains(l, "writing") && Contains(l, "section") then Some(Writing)
    else None
  }

  /** Phrases that mark an English block as instructions. */
  const Instructions: seq<string> := [
    "read each question", "answer the questions", "answer sheet", "write anything", "erase"]

  /** The records produced from line `i` on, starting in section `sec`. */
  function From(lines: seq<string>, i: nat, sec: Section, ask: Resolver): (r: seq<Mcq>)
    requires i <= |lines|
    ensures forall k :: 0 <= k < |r| ==> Emitted(r[k], ask)
    decreases |lines| - i
  {
    if i == |lines| then []
    else
      var h := Header(lines[i]);
      if h.Some? then From(lines, i + 1, h.value, ask)
      else if sec == Listening || sec == Outside || !Numbered(lines[i]) then From(lines, i + 1, sec, ask)
      else
        var block := BlockOf(lines, i, true);
        var rest := From(lines, BlockEnd(lines, i + 1, true), sec, ask);
        if |block| < 10 || ContainsAny(Lower(block), Instructions) then rest
        else RecordOf(block, ask) + rest
  }

  /** The whole parser: texts under 50 characters give nothing; the walk starts outside any section. */
  function Parse(text: string, ask: Resolver): seq<Mcq> {
    if |text| < 50 then [] else From(Lines(text), 0, Outside, ask)
  }

  /** The three flags of the source, read as a section. */
  function SectionOf(inListening: bool, inReading: bool, inWriting: bool): Section {
    if inListening then Listening else if inReading then Reading else if inWriting then Writing else Outside
  }

  /** The flags are only ever set one at a time. */
  predicate AtMostOne(inListening: bool, inReading: bool, inWriting: bool) {
    !(inListening && inReading) && !(inListening && inWriting) && !(inReading && inWriting)
  }

  /** One numbered line inside a reading or writing section: gather its block and read it, unless it is short or instructions. */
  method QuestionAt(lines: seq<string>, i: nat, ghost sec: Section, ask: Resolver) returns (record: seq<Mcq>, j: nat)
    requires i < |lines| && Numbered(lines[i]) && Header(lines[i]).None?
    requires sec == Reading || sec == Writing
    ensures i < j <= |lines|
    ensures From(lines, i, sec, ask) == record + From(lines, j, sec, ask)
  {
    var block;
    block, j := CollectBlock(lines, i, true);
    if |block| < 10 || ContainsAny(Lower(block), Instructions) {
      return [], j;
    }
    record := BuildRecord(block, ask);
  }

  /** The parser as written, with its three section flags. */
  method ParseMcqs(text: string, ask: Resolver) returns (results: seq<Mcq>)
    ensures results == Parse(text, ask)
  {
    if |text| < 50 {
      return [];
    }
    var lines := Lines(text);
    results := [];
    var inListening, inReading, inWriting := false, false, false;
    var i := 0;
    while i < |lines|
      invariant i <= |lines|
      invariant AtMostOne(inListening, inReading, inWriting)
      invariant results + From(lines, i, SectionOf(inListening, inReading, inWriting), ask) == From(lines, 0, Outside, ask)
      decreases |lines| - i
    {
      ghost var sec := SectionOf(inListening, inReading, inWriting);
      var line := lines[i];
      var header := Header(line);
      if header == Some(Listening) {
        inListening, inReading, inWriting := true, false, false;
        i := i + 1;
        continue;
      } else if header == Some(Reading) {
        inListening, inReading, inWriting := false, true, false;
        i := i + 1;
        continue;
      } else if header == Some(Writing) {
        inListening, inReading, inWriting := false, false, true;
        i := i + 1;
        continue;
      }
      if inListening {
        i := i + 1;
        continue;
      }
      if !(inReading || inWriting) {
        i := i + 1;
        continue;
      }
      if !Numbered(line) {
        i := i + 1;
        continue;
      }
      var record, j := QuestionAt(lines, i, sec, ask);
      results := results + record;
      i := j;
    }
  }

  /** No line from `i` on opens a reading or a writing section. */
  predicate NoReadingOrWritingFrom(lines: seq<string>, i: nat) {
    forall k :: i <= k < |lines| ==> Header(lines[k]) != Some(Reading) && Header(lines[k]) != Some(Writing)
  }

  /**
   * Listening questions are excluded: in the listening section, or before any section,
   * nothing is produced until a reading or writing header comes.
   */
  lemma {:induction false} ListeningExcluded(lines: seq<string>, i: nat, sec: Section, ask: Resolver)
    requires i <= |lines| && (sec == Listening || sec == Outside)
    requires NoReadingOrWritingFrom(lines, i)
    ensures From(lines, i, sec, ask) == []
    decreases |lines| - i
  {
    if i < |lines| {
      var h := Header(lines[i]);
      if h.Some? {
        ListeningExcluded(lines, i + 1, h.value, ask);
      } else {
        ListeningExcluded(lines, i + 1, sec, ask);
      }
    }
  }

  /**
   * Listening questions are skipped up to the next reading or writing header: in the
   * listening section, or before any section, the walk produces nothing until the header
   * on line `h` and then goes on in the section that header opens.
   */
  lemma {:induction false} ListeningSkipsTo(lines: seq<string>, i: nat, h: nat, sec: Section, ask: Resolver)
    requires i <= h < |lines| && (sec == Listening || sec == Outside)
    requires Header(lines[h]) == Some(Reading) || Header(lines[h]) == Some(Writing)
    requires forall k :: i <= k < h ==> Header(lines[k]) != Some(Reading) && Header(lines[k]) != Some(Writing)
    ensures From(lines, i, sec, ask) == From(lines, h + 1, Header(lines[h]).value, ask)
    decreases h - i
  {
    var hd := Header(lines[i]);
    if hd.Some? {
      FromAtHeader(lines, i, sec, ask);
      if i < h {
        ListeningSkipsTo(lines, i + 1, h, hd.value, ask);
      }
    } else {
      FromSkipsLine(lines, i, sec, ask);
      ListeningSkipsTo(lines, i + 1, h, sec, ask);
    }
  }

  /** A header line switches the walk to its section. */
  lemma FromAtHeader(lines: seq<string>, i: nat, sec: Section, ask: Resolver)
    requires i < |lines| && Header(lines[i]).Some?
    ensures From(lines, i, sec, ask) == From(lines, i + 1, Header(lines[i]).value, ask)
  {
  }

  /** Outside a reading or writing section, a line that is no header is passed over. */
  lemma FromSkipsLine(lines: seq<string>, i: nat, sec: Section, ask: Resolver)
    requires i < |lines| && Header(lines[i]).None? && (sec == Listening || sec == Outside)
    ensures From(lines, i, sec, ask) == From(lines, i + 1, sec, ask)
  {
  }

  /** A paper without a reading or writing section header yields no English questions. */
  lemma {:induction false} NoReadingSectionNoQuestions(text: string, ask: Resolver)
    requires NoReadingOrWritingFrom(Lines(text), 0)
    ensures Parse(text, ask) == []
  {
    if |text| >= 50 {
      ListeningExcluded(Lines(text), 0, Outside, ask);
    }
  }

  /** No question the parser emits contains an instruction phrase, in any case. */
  lemma {:induction false} NoInstructionQuestions(lines: seq<string>, i: nat, sec: Section, ask: Resolver)
    requires i <= |lines|
    ensures forall k :: 0 <= k < |From(lines, i, sec, ask)| ==>
      !ContainsAny(Lower(From(lines, i, sec, ask)[k].question), Instructions)
    decreases |lines| - i
  {
    if i < |lines| {
      var h := Header(lines[i]);
      if h.Some? {
        NoInstructionQuestions(lines, i + 1, h.value, ask);
      } else if sec == Listening || sec == Outside || !Numbered(lines[i]) {
        NoInstructionQuestions(lines, i + 1, sec, ask);
      } else {
        var block := BlockOf(lines, i, true);
        NoInstructionQuestions(lines, BlockEnd(lines, i + 1, true), sec, ask);
        if !ContainsAny(Lower(block), Instructions) {
          RecordAvoids(block, ask, Instructions);
        }
      }
    }
  }
}
