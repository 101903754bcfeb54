/**
 * `parse_mcqs_from_text` (backend/extractor.py:543-628): the generic line parser. After
 * `clean_text` and the marker break, the text is cut into its non-blank stripped lines;
 * a line that looks like a question is followed by a scan for option lines, answer-key
 * lines and the next numbered question.
 *
 * Every line the parser sees comes from `split('\n')`, so no line holds a newline and
 * the regular expressions' `.` matches every character of it.
 */
module LineParser {
  import opened Wrappers
  import opened Strings
  import opened Records
  import opened Normalize

  // ----- the regular expressions, on ASCII and ignoring case -----

  /** `^word` with IGNORECASE, for a lower-case `word`. */
  predicate StartsWithWord(s: string, word: string) {
    |word| <= |s| && MatchesFrom(s, word, 0)
  }

  /** The characters of `word` from `k` on match those of `s`, ignoring case. */
  predicate MatchesFrom(s: string, word: string, k: nat)
    requires |word| <= |s|
    decreases |word| - k
  {
    k >= |word| || (LowerChar(s[k]) == word[k] && MatchesFrom(s, word, k + 1))
  }

  /** `^Q\d+`, ignoring case. */
  predicate QNumber(l: string) {
    |l| >= 2 && LowerChar(l[0]) == 'q' && IsDigit(l[1])
  }

  /** `^Question\s+\d+`, ignoring case. */
  predicate QuestionNumber(l: string) {
    StartsWithWord(l, "question") && 8 < SkipSpaces(l, 8) < |l| && IsDigit(l[SkipSpaces(l, 8)])
  }

  /** `^\d+[\.\)]`. */
  predicate NumberMark(l: string) {
    1 <= DigitRun(l) < |l| && (l[DigitRun(l)] == '.' || l[DigitRun(l)] == ')')
  }

  /** `^(Q\d+|Question\s+\d+|\d+[\.\)])`, ignoring case: a numbered question. */
  predicate NumberedStart(l: string) {
    QNumber(l) || QuestionNumber(l) || NumberMark(l)
  }

  /** The words the question pattern accepts at the start of a line, in any case. */
  const QuestionWords: seq<string> := [
    "what", "which", "how", "why", "where", "when", "who", "true", "false", "can", "does", "is", "are"]

  /** The question pattern of the source: a numbered start or one of the question words. */
  predicate QuestionStart(l: string) {
    NumberedStart(l) || exists k :: 0 <= k < |QuestionWords| && StartsWithWord(l, QuestionWords[k])
  }

  /** The three ways a line qualifies as a question. */
  predicate LooksLikeQuestion(l: string) {
    QuestionStart(l) || ('?' in l && |l| > 10) || (|l| > 40 && !MarkerAt(l, 0))
  }

  /** An optional `[\.\)]` at `d`. */
  function AfterPunct(l: string, d: nat): (r: nat)
    requires d <= |l|
    ensures d <= r <= |l|
  {
    if d < |l| && (l[d] == '.' || l[d] == ')') then d + 1 else d
  }

  /**
   * The length of the match of `^(Q\d+[\.\)]?\s*|Question\s+\d+[\.\)]?\s*|\d+[\.\)]\s*)`,
   * ignoring case, or 0 when the line has no such prefix.
   */
  function QuestionPrefix(l: string): (n: nat)
    ensures n <= |l|
  {
    if QNumber(l) then SkipSpaces(l, AfterPunct(l, 1 + DigitRun(l[1..])))
    else if QuestionNumber(l) then
      var a := SkipSpaces(l, 8);
      SkipSpaces(l, AfterPunct(l, a + DigitRun(l[a..])))
    else if NumberMark(l) then SkipSpaces(l, DigitRun(l) + 1)
    else 0
  }

  /** The question with its numbering removed, stripped. */
  function QuestionText(l: string): string {
    Strip(l[QuestionPrefix(l)..])
  }

  /** `[A-E]` with IGNORECASE. */
  predicate IsChoice(c: char) { 'A' <= UpperChar(c) <= 'E' }

  /** `ord(c.upper()) - ord('A')`. */
  function ChoiceIndex(c: char): (i: nat)
    requires IsChoice(c)
    ensures i < 5
  {
    UpperChar(c) as int - 'A' as int
  }

  predicate IsOpener(c: char) { c == '(' || IsSpace(c) }

  predicate IsSeparator(c: char) { c == ')' || c == '.' || c == ':' || IsSpace(c) }

  /** The end of the run of `[(\s]` from `q`. */
  function OpenerRun(s: string, q: nat): (r: nat)
    requires q <= |s|
    ensures q <= r <= |s|
    ensures r < |s| ==> !IsOpener(s[r])
    decreases |s| - q
  {
    if q < |s| && IsOpener(s[q]) then OpenerRun(s, q + 1) else q
  }

  /** The end of the run of `[)\.\:\s]` from `q`. */
  function SeparatorRun(s: string, q: nat): (r: nat)
    requires q <= |s|
    ensures q <= r <= |s|
    ensures r < |s| ==> !IsSeparator(s[r])
    ensures forall k :: q <= k < r ==> IsSeparator(s[k])
    decreases |s| - q
  {
    if q < |s| && IsSeparator(s[q]) then SeparatorRun(s, q + 1) else q
  }

  /**
   * Group 2 of `^[(\s]*([A-E])[)\.\:\s]+(.+)$` with IGNORECASE. When the separator run
   * reaches the end of the line, the regex gives its last character back to `(.+)`.
   */
  function OptionGroup(l: string): (r: Option<string>)
    ensures r.Some? ==> r.value != []
  {
    var p := OpenerRun(l, 0);
    if p == |l| || !IsChoice(l[p]) then None
    else
      var s := SeparatorRun(l, p + 1);
      if s == p + 1 then None
      else if s < |l| then Some(l[s..])
      else if s >= p + 3 then Some(l[|l| - 1..])
      else None
  }

  /** `^(Answer|Correct|Key|Q\d+)`, ignoring case: text that cannot be an option. */
  predicate KeyWordStart(t: string) {
    StartsWithWord(t, "answer") || StartsWithWord(t, "correct") || StartsWithWord(t, "key") || QNumber(t)
  }

  /** An option text the parser keeps. */
  predicate Acceptable(t: string) {
    |t| > 1 && !KeyWordStart(t)
  }

  /** The check mark literal as the source file holds it: the UTF-8 bytes of U+2713 read as Mac Roman. */
  const CheckMark: string := "\U{201A}\U{FA}\U{EC}"

  /** `CheckMark in s[k..]`, scanned from the left. */
  predicate CheckMarkFrom(s: string, k: nat)
    decreases |s| - k
  {
    k + 3 <= |s| && ((s[k] == '\U{201A}' && s[k + 1] == '\U{FA}' && s[k + 2] == '\U{EC}') || CheckMarkFrom(s, k + 1))
  }

  /** The scan finds the check mark exactly when it occurs. */
  lemma {:induction false} CheckMarkFromIff(s: string, k: nat)
    requires k <= |s|
    ensures CheckMarkFrom(s, k) <==> exists o :: k <= o <= |s| - 3 && OccursAt(s, CheckMark, o)
    decreases |s| - k
  {
    if k + 3 <= |s| {
      CheckMarkFromIff(s, k + 1);
      if s[k] == '\U{201A}' && s[k + 1] == '\U{FA}' && s[k + 2] == '\U{EC}' {
        assert s[k..k + 3] == CheckMark;
        assert OccursAt(s, CheckMark, k);
      }
      if !CheckMarkFrom(s, k) {
        forall o | k <= o <= |s| - 3 ensures !OccursAt(s, CheckMark, o) {
        }
      }
    }
  }

  /** `CheckMark in s`. */
  predicate HasCheckMark(s: string) { CheckMarkFrom(s, 0) }

  lemma HasCheckMarkIff(s: string)
    ensures HasCheckMark(s) <==> Contains(s, CheckMark)
  {
    CheckMarkFromIff(s, 0);
  }

  /** The option line marks its option as the answer: it holds `*` or the check mark. */
  predicate Marked(l: string) {
    '*' in l || HasCheckMark(l)
  }

  /** `word\s*[\:\=]?\s*([A-E])` at the start of the line: the letter, if the line is a key line for `word`. */
  function KeyLetterAfter(l: string, word: string): (r: Option<char>)
    ensures r.Some? ==> IsChoice(r.value) && StartsWithWord(l, word)
    ensures r.Some? ==> r.value in l
  {
    if !StartsWithWord(l, word) then None
    else
      var a := SkipSpaces(l, |word|);
      var b := if a < |l| && (l[a] == ':' || l[a] == '=') then a + 1 else a;
      var c := SkipSpaces(l, b);
      if c < |l| && IsChoice(l[c]) then Some(l[c]) else None
  }

  /** Group 2 of `^(Answer|Correct|Key|Ans)\s*[\:\=]?\s*([A-E])`, alternatives tried in order. */
  function KeyLetter(l: string): (r: Option<char>)
    ensures r.Some? ==> IsChoice(r.value)
    ensures r.Some? ==> r.value in l
  {
    var answer := KeyLetterAfter(l, "answer");
    if answer.Some? then answer
    else
      var correct := KeyLetterAfter(l, "correct");
      if correct.Some? then correct
      else
        var key := KeyLetterAfter(l, "key");
        if key.Some? then key else KeyLetterAfter(l, "ans")
  }

  /** The option index a key line names (see the finding on `AsWrittenKeyIndex`). */
  function KeyIndex(l: string): (i: nat)
    requires KeyLetter(l).Some?
    ensures i < 5
  {
    ChoiceIndex(KeyLetter(l).value)
  }

  // ----- the option scan -----

  /** Where the option scan stopped: the options, the answer, and the next line to look at. */
  datatype Scan = Scan(options: seq<string>, answer: Option<nat>, next: nat)

  predicate AllAcceptable(opts: seq<string>) {
    forall k :: 0 <= k < |opts| ==> Acceptable(opts[k]) && NoEdgeSpace(opts[k])
  }

  /** What the option scan does with one line. */
  datatype Step = Pass | Take(text: string, marked: bool) | Key(index: nat) | Stop

  /**
   * The scan's decision for line `j` of the question on line `i`: an option line is taken
   * (and may be marked as the answer); a key line gives the answer and ends the scan; a
   * numbered line ends it unless it comes right after the question; anything else is passed
   * over. The two readings differ in the index of a key line only.
   */
  function StepAt(lines: seq<string>, i: nat, j: nat, rd: Reading): (st: Step)
    requires i < j < |lines|
    ensures st.Take? ==> Acceptable(st.text) && NoEdgeSpace(st.text)
    ensures st.Key? ==> st.index < 5
  {
    var l := lines[j];
    if l == [] then Pass
    else
      var g := OptionGroup(l);
      var t := if g.Some? then Strip(g.value) else [];
      if g.Some? && Acceptable(t) then
        StripNoEdge(g.value);
        Take(t, Marked(l))
      else if KeyLetter(l).Some? then Key(if rd.AsWritten? then AsWrittenKeyIndex(l) else KeyIndex(l))
      else if NumberedStart(l) && j > i + 1 then Stop
      else Pass
  }

  lemma AllAcceptableAppend(options: seq<string>, t: string)
    requires AllAcceptable(options) && Acceptable(t) && NoEdgeSpace(t)
    ensures AllAcceptable(options + [t])
  {
    assert forall k :: 0 <= k < |options| ==> (options + [t])[k] == options[k];
  }

  /** The scan's decision for every line after the question on line `i`; the lines up to `i` are never looked at. */
  function Steps(lines: seq<string>, i: nat, rd: Reading): (r: seq<Step>)
    requires i < |lines|
    ensures |r| == |lines|
  {
    seq(|lines|, j requires 0 <= j < |lines| => if i < j then StepAt(lines, i, j, rd) else Pass)
  }

  lemma StepsAt(lines: seq<string>, i: nat, j: nat, rd: Reading)
    requires i < j < |lines|
    ensures Steps(lines, i, rd)[j] == StepAt(lines, i, j, rd)
  {
  }

  /** The inner loop over the decisions from line `j` on: at most ten options are taken. */
  function Collect(steps: seq<Step>, j: nat, options: seq<string>, answer: Option<nat>): (r: Scan)
    requires j <= |steps|
    ensures j <= r.next <= |steps|
    ensures |options| <= 10 ==> |r.options| <= 10
    decreases |steps| - j
  {
    if j == |steps| || |options| >= 10 then Scan(options, answer, j)
    else
      match steps[j]
      case Pass => Collect(steps, j + 1, options, answer)
      case Take(t, marked) => Collect(steps, j + 1, options + [t], if marked then Some(|options|) else answer)
      case Key(k) => Scan(options, Some(k), j)
      case Stop => Scan(options, answer, j)
  }

  // ----- the records -----

  /** `options[:5]`. */
  function FirstFive(opts: seq<string>): (r: seq<string>)
    ensures |r| == if |opts| <= 5 then |opts| else 5
    ensures forall k :: 0 <= k < |r| ==> r[k] == opts[k]
  {
    if |opts| <= 5 then opts else opts[..5]
  }

  /** The answer is kept only when it names one of `n` options. */
  function KeptAnswer(answer: Option<nat>, n: nat): (r: Option<nat>)
    ensures r.Some? <==> answer.Some? && answer.value < n
    ensures r.Some? ==> r == answer
  {
    if answer.Some? && answer.value < n then answer else None
  }

  /** The record for a question and its scanned options (see the finding on `AsWrittenRecord`). */
  function RecordOf(question: string, options: seq<string>, answer: Option<nat>): (m: Mcq)
    ensures m.question == question && m.options == FirstFive(options)
    ensures m.correctOption.Some? ==> m.correctOption == answer && answer.value < |m.options|
    ensures answer.Some? && answer.value < |m.options| ==> m.correctOption == answer
    ensures m.explanation == None && m.image == None
  {
    var shown := FirstFive(options);
    Mcq(question, shown, KeptAnswer(answer, |shown|), None, None)
  }

  /** The record of a question under either reading. */
  function RecordAs(rd: Reading, question: string, options: seq<string>, answer: Option<nat>): Mcq {
    if rd.AsWritten? then AsWrittenRecord(question, options, answer) else RecordOf(question, options, answer)
  }

  /**
   * The bound on a record's answer. Corrected, the answer names one of the stored options.
   * As written, it names one of the collected options (at most ten), of which the first
   * five are stored; so it names a stored option whenever fewer than five are stored.
   */
  function AnswerBound(rd: Reading, shown: nat): nat {
    if rd.Corrected? || shown < 5 then shown else 10
  }

  /** What every record of this parser satisfies. */
  predicate Sound(m: Mcq, rd: Reading) {
    && |m.question| >= 5
    && 2 <= |m.options| <= 5 && AllAcceptable(m.options)
    && (m.correctOption.Some? ==> m.correctOption.value < AnswerBound(rd, |m.options|))
    && m.explanation == None && m.image == None
  }

  /** The records produced from line `i` on. */
  function From(lines: seq<string>, i: nat, rd: Reading): (r: seq<Mcq>)
    requires i <= |lines|
    decreases |lines| - i
  {
    if i == |lines| then []
    else
      var l := lines[i];
      var q := QuestionText(l);
      if !LooksLikeQuestion(l) || |q| < 5 then From(lines, i + 1, rd)
      else
        var s := Collect(Steps(lines, i, rd), i + 1, [], None);
        var rec := if |s.options| >= 2 then [RecordAs(rd, q, s.options, s.answer)] else [];
        rec + From(lines, s.next, rd)
  }

  /** `[l.strip() for l in pieces if l.strip()]`. */
  function NonBlankLines(pieces: seq<string>): (r: seq<string>)
    ensures forall k :: 0 <= k < |r| ==> r[k] != []
  {
    if pieces == [] then []
    else
      var t := Strip(pieces[|pieces| - 1]);
      NonBlankLines(pieces[..|pieces| - 1]) + (if t != [] then [t] else [])
  }

  /** The lines the parser walks over. */
  function ParserLines(text: string): seq<string> {
    NonBlankLines(Split(BreakBeforeMarkers(CleanText(text)), '\n'))
  }

  /** The whole parser: texts under 30 characters give nothing. */
  function Parse(text: string, rd: Reading): seq<Mcq> {
    if |text| < 30 then [] else From(ParserLines(text), 0, rd)
  }

  /** Every option the decisions take is acceptable and stripped. */
  predicate StepsAcceptable(steps: seq<Step>) {
    forall k :: 0 <= k < |steps| && steps[k].Take? ==> Acceptable(steps[k].text) && NoEdgeSpace(steps[k].text)
  }

  lemma StepsAcceptableOf(lines: seq<string>, i: nat, rd: Reading)
    requires i < |lines|
    ensures StepsAcceptable(Steps(lines, i, rd))
  {
  }

  /** The scan only ever takes acceptable, stripped option texts. */
  lemma {:induction false} CollectAcceptable(steps: seq<Step>, j: nat, options: seq<string>, answer: Option<nat>)
    requires j <= |steps| && AllAcceptable(options) && StepsAcceptable(steps)
    ensures AllAcceptable(Collect(steps, j, options, answer).options)
    decreases |steps| - j
  {
    if j < |steps| && |options| < 10 {
      var st := steps[j];
      if st.Pass? {
        CollectAcceptable(steps, j + 1, options, answer);
      } else if st.Take? {
        AllAcceptableAppend(options, st.text);
        CollectAcceptable(steps, j + 1, options + [st.text], if st.marked then Some(|options|) else answer);
      }
    }
  }

  /**
   * Every record has a question of at least five characters and two to five acceptable
   * options. As written, its answer names one of the options collected for it, which is a
   * stored one when fewer than five are stored; corrected, it always names a stored one.
   */
  lemma {:induction false} FromSound(lines: seq<string>, i: nat, rd: Reading)
    requires i <= |lines|
    ensures forall k :: 0 <= k < |From(lines, i, rd)| ==> Sound(From(lines, i, rd)[k], rd)
    decreases |lines| - i
  {
    if i < |lines| {
      var l := lines[i];
      if !LooksLikeQuestion(l) || |QuestionText(l)| < 5 {
        FromSound(lines, i + 1, rd);
      } else {
        var q := QuestionText(l);
        var s := Collect(Steps(lines, i, rd), i + 1, [], None);
        var rec := if |s.options| >= 2 then [RecordAs(rd, q, s.options, s.answer)] else [];
        ScanAcceptable(lines, i, rd);
        if |s.options| >= 2 {
          RecordAsSound(rd, q, s.options, s.answer);
        }
        FromSound(lines, s.next, rd);
        AllSoundAppend(rec, From(lines, s.next, rd), rd);
      }
    }
  }

  /** The scan after a question collects at most ten acceptable, stripped options. */
  lemma ScanAcceptable(lines: seq<string>, i: nat, rd: Reading)
    requires i < |lines|
    ensures var s := Collect(Steps(lines, i, rd), i + 1, [], None);
      |s.options| <= 10 && AllAcceptable(s.options)
  {
    StepsAcceptableOf(lines, i, rd);
    CollectAcceptable(Steps(lines, i, rd), i + 1, [], None);
  }

  lemma AllSoundAppend(a: seq<Mcq>, b: seq<Mcq>, rd: Reading)
    requires forall k :: 0 <= k < |a| ==> Sound(a[k], rd)
    requires forall k :: 0 <= k < |b| ==> Sound(b[k], rd)
    ensures forall k :: 0 <= k < |a + b| ==> Sound((a + b)[k], rd)
  {
    forall k | 0 <= k < |a + b| ensures Sound((a + b)[k], rd) {
      if k >= |a| {
        assert (a + b)[k] == b[k - |a|];
      }
    }
  }

  /** A question of five characters or more with two to ten collected acceptable options gives a sound record. */
  lemma RecordAsSound(rd: Reading, q: string, options: seq<string>, answer: Option<nat>)
    requires |q| >= 5 && 2 <= |options| <= 10 && AllAcceptable(options)
    ensures Sound(RecordAs(rd, q, options, answer), rd)
  {
  }

  /** Every record of the parser is sound under its reading. */
  lemma ParseSound(text: string, rd: Reading)
    ensures forall k :: 0 <= k < |Parse(text, rd)| ==> Sound(Parse(text, rd)[k], rd)
  {
    if |text| >= 30 {
      FromSound(ParserLines(text), 0, rd);
    }
  }

  // ----- the two readings -----

  /** Two decision sequences that differ at most in the index a key line gives. */
  predicate SameShape(s1: seq<Step>, s2: seq<Step>) {
    |s1| == |s2| && forall k :: 0 <= k < |s1| ==> (s1[k].Key? <==> s2[k].Key?) && (!s1[k].Key? ==> s1[k] == s2[k])
  }

  lemma StepsSameShape(lines: seq<string>, i: nat)
    requires i < |lines|
    ensures SameShape(Steps(lines, i, AsWritten), Steps(lines, i, Corrected))
  {
  }

  /** Scans over decisions of the same shape collect the same options and stop at the same line. */
  lemma {:induction false} CollectSameShape(s1: seq<Step>, s2: seq<Step>, j: nat, options: seq<string>, a1: Option<nat>, a2: Option<nat>)
    requires SameShape(s1, s2) && j <= |s1|
    ensures Collect(s1, j, options, a1).options == Collect(s2, j, options, a2).options
    ensures Collect(s1, j, options, a1).next == Collect(s2, j, options, a2).next
    decreases |s1| - j
  {
    if j < |s1| && |options| < 10 {
      match s1[j]
      case Pass => CollectSameShape(s1, s2, j + 1, options, a1, a2);
      case Take(t, marked) =>
        CollectSameShape(s1, s2, j + 1, options + [t], if marked then Some(|options|) else a1, if marked then Some(|options|) else a2);
      case Key(_) =>
      case Stop =>
    }
  }

  /** Two record lists that differ at most in their answers. */
  predicate AnswersOnly(r1: seq<Mcq>, r2: seq<Mcq>) {
    |r1| == |r2| && forall k :: 0 <= k < |r1| ==> r1[k] == r2[k].(correctOption := r1[k].correctOption)
  }

  lemma AnswersOnlyAppend(a1: seq<Mcq>, a2: seq<Mcq>, b1: seq<Mcq>, b2: seq<Mcq>)
    requires AnswersOnly(a1, a2) && AnswersOnly(b1, b2)
    ensures AnswersOnly(a1 + b1, a2 + b2)
  {
    forall k | 0 <= k < |a1 + b1| ensures (a1 + b1)[k] == (a2 + b2)[k].(correctOption := (a1 + b1)[k].correctOption) {
      if k >= |a1| {
        assert (a1 + b1)[k] == b1[k - |a1|] && (a2 + b2)[k] == b2[k - |a1|];
      }
    }
  }

  /** The record of a question under the two readings differs at most in the answer. */
  lemma RecordsDifferInAnswer(q: string, s1: Scan, s2: Scan)
    requires s1.options == s2.options
    ensures var rec1 := if |s1.options| >= 2 then [RecordAs(AsWritten, q, s1.options, s1.answer)] else [];
      var rec2 := if |s2.options| >= 2 then [RecordAs(Corrected, q, s2.options, s2.answer)] else [];
      AnswersOnly(rec1, rec2)
  {
  }

  /**
   * The program as written and the corrected parser find the same questions with the same
   * options, in the same order: the two readings differ in the answers only.
   */
  lemma {:induction false} ReadingsDifferInAnswers(lines: seq<string>, i: nat)
    requires i <= |lines|
    ensures AnswersOnly(From(lines, i, AsWritten), From(lines, i, Corrected))
    decreases |lines| - i
  {
    if i < |lines| {
      var l := lines[i];
      if !LooksLikeQuestion(l) || |QuestionText(l)| < 5 {
        ReadingsDifferInAnswers(lines, i + 1);
      } else {
        var q := QuestionText(l);
        var s1 := Collect(Steps(lines, i, AsWritten), i + 1, [], None);
        var s2 := Collect(Steps(lines, i, Corrected), i + 1, [], None);
        StepsSameShape(lines, i);
        CollectSameShape(Steps(lines, i, AsWritten), Steps(lines, i, Corrected), i + 1, [], None, None);
        ReadingsDifferInAnswers(lines, s1.next);
        RecordsDifferInAnswer(q, s1, s2);
        var rec1 := if |s1.options| >= 2 then [RecordAs(AsWritten, q, s1.options, s1.answer)] else [];
        var rec2 := if |s2.options| >= 2 then [RecordAs(Corrected, q, s2.options, s2.answer)] else [];
        AnswersOnlyAppend(rec1, rec2, From(lines, s1.next, AsWritten), From(lines, s2.next, Corrected));
      }
    }
  }

  // ----- reading back what a paper prints -----

  predicate AllDigits(d: string) {
    forall k :: 0 <= k < |d| ==> IsDigit(d[k])
  }

  lemma {:induction false} DigitRunOf(d: string, rest: string)
    requires AllDigits(d) && (rest == [] || !IsDigit(rest[0]))
    ensures DigitRun(d + rest) == |d|
    decreases |d|
  {
    if d != [] {
      assert (d + rest)[1..] == d[1..] + rest;
      DigitRunOf(d[1..], rest);
    }
  }

  /** A question numbered "N. " is recognised, and its text is read back without the number. */
  lemma {:induction false} NumberedQuestionText(d: string, q: string)
    requires d != [] && AllDigits(d) && (q == [] || !IsSpace(q[0]))
    ensures LooksLikeQuestion(d + ". " + q)
    ensures QuestionText(d + ". " + q) == Strip(q)
  {
    var l := d + ". " + q;
    DigitRunOf(d, ". " + q);
    assert l[|d|] == '.' && l[|d| + 1] == ' ';
    assert !QNumber(l) && !StartsWithWord(l, "question");
    assert NumberMark(l);
    assert SkipSpaces(l, |d| + 2) == |d| + 2;
    assert l[|d| + 2..] == q;
  }

  /** An option printed as "A) text" is read back as its text. */
  lemma {:induction false} OptionLineText(c: char, t: string)
    requires IsChoice(c) && t != [] && !IsSeparator(t[0])
    ensures OptionGroup([c, ')', ' '] + t) == Some(t)
  {
    var l := [c, ')', ' '] + t;
    assert OpenerRun(l, 0) == 0;
    assert l[1] == ')' && l[2] == ' ' && l[3] == t[0];
    assert SeparatorRun(l, 3) == 3;
    assert SeparatorRun(l, 1) == 3;
    assert l[3..] == t;
  }

  lemma {:induction false} MatchesLowered(s: string, word: string, k: nat)
    requires |word| <= |s| && k <= |word|
    requires forall m :: k <= m < |word| ==> LowerChar(s[m]) == word[m]
    ensures MatchesFrom(s, word, k)
    decreases |word| - k
  {
    if k < |word| {
      MatchesLowered(s, word, k + 1);
    }
  }

  /** The upper-case letter of option `i`. */
  function LetterOf(i: nat): (c: char)
    requires i < 5
    ensures IsChoice(c)
  {
    ('A' as int + i) as char
  }

  /** A key line "Answer: X" names option X: the corrected reading of a key line. */
  lemma {:induction false} KeyLineNamesLetter(i: nat)
    requires i < 5
    ensures KeyLetter("Answer: " + [LetterOf(i)]).Some?
    ensures KeyIndex("Answer: " + [LetterOf(i)]) == i
  {
    var l := "Answer: " + [LetterOf(i)];
    MatchesLowered(l, "answer", 0);
    assert StartsWithWord(l, "answer");
    assert SkipSpaces(l, 6) == 6;
    assert SkipSpaces(l, 7) == 8;
    assert KeyLetterAfter(l, "answer") == Some(LetterOf(i));
  }

  // ----- finding: the letter of a key line is read from the keyword -----

  /** `re.search(r'([A-E])', l, re.IGNORECASE)` from position `p`: the first letter A-E, in any case. */
  function FirstChoice(l: string, p: nat): (r: Option<char>)
    ensures r.Some? ==> IsChoice(r.value)
    ensures r.None? ==> forall k :: p <= k < |l| ==> !IsChoice(l[k])
    decreases |l| - p
  {
    if p >= |l| then None
    else if IsChoice(l[p]) then Some(l[p])
    else FirstChoice(l, p + 1)
  }

  /**
   * The index the source assigns for a key line: it searches the whole line for the first
   * letter A-E, which is a letter of the keyword itself.
   */
  function AsWrittenKeyIndex(l: string): (i: nat)
    requires KeyLetter(l).Some?
    ensures i < 5
  {
    KeyLineHasChoice(l);
    ChoiceIndex(FirstChoice(l, 0).value)
  }

  /** A key line holds a letter A-E (the one its pattern matched), so the search always finds one. */
  lemma KeyLineHasChoice(l: string)
    requires KeyLetter(l).Some?
    ensures FirstChoice(l, 0).Some?
  {
    var c := KeyLetter(l).value;
    assert c in l;
  }

  /** As written, the index of a key line depends on its keyword only: A for "Answer"/"Ans", C for "Correct", E for "Key". */
  lemma {:induction false} AsWrittenKeyIgnoresLetter(l: string)
    requires KeyLetter(l).Some?
    ensures AsWrittenKeyIndex(l) == (if StartsWithWord(l, "correct") then 2 else if StartsWithWord(l, "key") then 4 else 0)
  {
    if StartsWithWord(l, "correct") {
      assert LowerChar(l[0]) == 'c';
    } else if StartsWithWord(l, "key") {
      assert LowerChar(l[0]) == 'k';
      assert MatchesFrom(l, "key", 1);
      assert LowerChar(l[1]) == 'e';
      assert FirstChoice(l, 0) == FirstChoice(l, 1);
    } else if StartsWithWord(l, "answer") {
      assert LowerChar(l[0]) == 'a';
    } else {
      assert KeyLetterAfter(l, "ans").Some?;
      assert LowerChar(l[0]) == 'a';
    }
  }

  /** "Answer: B" names option 1; as written it is read as option 0. */
  lemma KeyLineMisread()
    ensures KeyLetter("Answer: B").Some?
    ensures AsWrittenKeyIndex("Answer: B") == 0
    ensures KeyIndex("Answer: B") == 1
  {
    KeyLineNamesLetter(1);
    assert "Answer: " + [LetterOf(1)] == "Answer: B";
    AsWrittenKeyIgnoresLetter("Answer: B");
    assert !StartsWithWord("Answer: B", "correct") && !StartsWithWord("Answer: B", "key");
  }

  // ----- finding: the answer is checked against all options, but only five are kept -----

  /** The record as written: the answer is checked against every option, then the options are cut to five. */
  function AsWrittenRecord(question: string, options: seq<string>, answer: Option<nat>): (m: Mcq)
    ensures m.options == FirstFive(options)
    ensures m.correctOption == KeptAnswer(answer, |options|)
  {
    Mcq(question, FirstFive(options), KeptAnswer(answer, |options|), None, None)
  }

  /** Six options with the sixth marked: as written the record names an option it does not have. */
  lemma AnswerBeyondShownOptions()
    ensures var m := AsWrittenRecord("Which is right?", ["aa", "bb", "cc", "dd", "ee", "ff"], Some(5));
      |m.options| == 5 && m.correctOption == Some(5)
    ensures RecordOf("Which is right?", ["aa", "bb", "cc", "dd", "ee", "ff"], Some(5)).correctOption == None
  {
  }

  /** A printed option line is taken as its text, unmarked. */
  lemma {:induction false} PrintedOptionStep(lines: seq<string>, i: nat, j: nat, c: char, o: string, rd: Reading)
    requires i < j < |lines| && IsChoice(c) && lines[j] == [c, ')', ' '] + o
    requires Acceptable(o) && NoEdgeSpace(o) && !IsSeparator(o[0]) && !Marked(lines[j])
    ensures StepAt(lines, i, j, rd) == Take(o, false)
  {
    OptionLineText(c, o);
    StripOfTrimmed(o);
  }

  /** A numbered question with two printed options is read back as exactly that record. */
  lemma {:induction false} TwoOptionQuestion(d: string, q: string, o1: string, o2: string, rd: Reading)
    requires d != [] && AllDigits(d) && |q| >= 5 && NoEdgeSpace(q)
    requires Acceptable(o1) && NoEdgeSpace(o1) && !IsSeparator(o1[0]) && !Marked("A) " + o1)
    requires Acceptable(o2) && NoEdgeSpace(o2) && !IsSeparator(o2[0]) && !Marked("B) " + o2)
    ensures From([d + ". " + q, "A) " + o1, "B) " + o2], 0, rd) == [Mcq(q, [o1, o2], None, None, None)]
  {
    var lines := [d + ". " + q, "A) " + o1, "B) " + o2];
    NumberedQuestionText(d, q);
    StripOfTrimmed(q);
    PrintedOptionStep(lines, 0, 1, 'A', o1, rd);
    PrintedOptionStep(lines, 0, 2, 'B', o2, rd);
    ScanTwoOptions(lines, o1, o2, rd);
    assert RecordAs(rd, q, [o1, o2], None) == Mcq(q, [o1, o2], None, None, None);
    assert From(lines, 3, rd) == [];
  }

  lemma {:induction false} ScanTwoOptions(lines: seq<string>, o1: string, o2: string, rd: Reading)
    requires |lines| == 3 && StepAt(lines, 0, 1, rd) == Take(o1, false) && StepAt(lines, 0, 2, rd) == Take(o2, false)
    ensures Collect(Steps(lines, 0, rd), 1, [], None) == Scan([o1, o2], None, 3)
  {
    var steps := Steps(lines, 0, rd);
    StepsAt(lines, 0, 1, rd);
    StepsAt(lines, 0, 2, rd);
    assert [] + [o1] == [o1] && [o1] + [o2] == [o1, o2];
    assert Collect(steps, 3, [o1, o2], None) == Scan([o1, o2], None, 3);
    assert Collect(steps, 2, [o1], None) == Scan([o1, o2], None, 3);
  }

  // ----- the parser as written -----

  /** One pass of the inner loop's body: the tests the source makes on `lines[j]`, in order. */
  method LineStep(lines: seq<string>, i: nat, j: nat) returns (st: Step)
    requires i < j < |lines|
    ensures st == StepAt(lines, i, j, AsWritten)
  {
    var optLine := lines[j];
    if optLine == [] {
      return Pass;
    }
    var g := OptionGroup(optLine);
    if g.Some? {
      var optText := Strip(g.value);
      if optText != [] && |optText| > 1 && !KeyWordStart(optText) {
        return Take(optText, '*' in optLine || HasCheckMark(optLine));
      }
    }
    if KeyLetter(optLine).Some? {
      var ansMatch := FirstChoice(optLine, 0);
      KeyLineHasChoice(optLine);
      return Key(ChoiceIndex(ansMatch.value));
    }
    if NumberedStart(optLine) && j > i + 1 {
      return Stop;
    }
    return Pass;
  }

  /**
   * One pass of the inner loop: look at `lines[j]` and either take an option, pass the
   * line over, or end the scan (`done`), with the answer a key line names.
   */
  method ScanLine(lines: seq<string>, i: nat, j: nat, options: seq<string>, answer: Option<nat>, ghost steps: seq<Step>)
    returns (options': seq<string>, answer': Option<nat>, j': nat, done: bool)
    requires i < j < |lines| == |steps| && |options| < 10 && steps[j] == StepAt(lines, i, j, AsWritten)
    ensures done ==> Scan(options', answer', j') == Collect(steps, j, options, answer)
    ensures !done ==> j < j' <= |lines| && Collect(steps, j', options', answer') == Collect(steps, j, options, answer)
  {
    var st := LineStep(lines, i, j);
    match st
    case Pass =>
      options', answer', j', done := options, answer, j + 1, false;
    case Take(optText, marked) =>
      options' := options + [optText];
      answer' := if marked then Some(|options'| - 1) else answer;
      j', done := j + 1, false;
    case Key(k) =>
      options', answer', j', done := options, Some(k), j, true;
    case Stop =>
      options', answer', j', done := options, answer, j, true;
  }

  /** The inner `while j < len(lines) and len(options) < 10` loop. */
  method CollectOptions(lines: seq<string>, i: nat) returns (options: seq<string>, answer: Option<nat>, j: nat)
    requires i < |lines|
    ensures Scan(options, answer, j) == Collect(Steps(lines, i, AsWritten), i + 1, [], None)
  {
    ghost var steps := Steps(lines, i, AsWritten);
    options, answer, j := [], None, i + 1;
    while j < |lines| && |options| < 10
      invariant i + 1 <= j <= |lines|
      invariant Collect(steps, j, options, answer) == Collect(steps, i + 1, [], None)
      decreases |lines| - j
    {
      var done;
      StepsAt(lines, i, j, AsWritten);
      options, answer, j, done := ScanLine(lines, i, j, options, answer, steps);
      if done {
        break;
      }
    }
  }

  /**
   * One pass of the outer loop at line `i`: a line that is no question, or whose question
   * text is under five characters, is stepped over; otherwise the options are scanned and
   * a record is kept when there are at least two. The walk resumes where the scan stopped.
   */
  method QuestionAt(lines: seq<string>, i: nat) returns (record: seq<Mcq>, next: nat)
    requires i < |lines|
    ensures i < next <= |lines|
    ensures From(lines, i, AsWritten) == record + From(lines, next, AsWritten)
  {
    var line := lines[i];
    if !LooksLikeQuestion(line) {
      return [], i + 1;
    }
    var questionText := QuestionText(line);
    if |questionText| < 5 {
      return [], i + 1;
    }
    var options, answer, j := CollectOptions(lines, i);
    record := [];
    if |options| >= 2 {
      if answer.Some? && answer.value >= |options| {
        answer := None;
      }
      record := [Mcq(questionText, FirstFive(options), answer, None, None)];
    }
    next := if j > i + 1 then j else i + 1;
  }

  /** The parser as written. */
  method ParseMcqs(text: string) returns (results: seq<Mcq>)
    ensures results == Parse(text, AsWritten)
  {
    if |text| < 30 {
      return [];
    }
    var lines := ParserLines(text);
    results := [];
    var i := 0;
    while i < |lines|
      invariant i <= |lines|
      invariant results + From(lines, i, AsWritten) == From(lines, 0, AsWritten)
      decreases |lines| - i
    {
      var record, next := QuestionAt(lines, i);
      results := results + record;
      i := next;
    }
  }
}
