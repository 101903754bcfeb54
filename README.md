# MCQ text recovery, modelled in Dafny

This project models the rule-based core of a quiz generator that recovers multiple-choice
questions from the text of exam-paper PDFs. The text has no markup, so question and option
boundaries and answer markers are read from line shapes and lexical patterns. The parsers
are applied as a cascade: each stage runs only when the one before it found too few
questions.

The model covers:

- the text normaliser `clean_text`, and the pass that puts every option marker on a line
  of its own;
- the paper-type sniffing, which routes English papers to the English parser and every
  other paper to the physics parser;
- the two specialised parsers, which walk numbered lines, gather blocks and read inline
  options ("Stem A. one B. two ..."), and the stand-alone variant of the physics parser;
- the generic line parser `parse_mcqs_from_text`, the block-grouping parser
  `fallback_block_parser` and the splitter `aggressive_parser`;
- the deterministic part of the language-model structurer: 3000-character chunks, the
  retry loop, turning the model's JSON items into records, and the cross-chunk dedup;
- the body of `extract_questions_from_pdf` once the PDF has become text: the cascade,
  the dedup and filter of the primary parser's records, answer resolution, and the
  attaching of page images by list position;
- the letter-to-index mapping of the answer resolver;
- the field validators of the stored `Question` record and its `image_url` rule.

Every record is an `Mcq` value (question, options, optional answer index, optional
explanation, optional image).

The parts that loop over lines or records are methods with `while` loops. Each method is
proved equal to a specification function (`ensures results == Parse(text, AsWritten)`). The
properties of those functions are proved as lemmas:

- record invariants and "sound record" predicates;
- skip rules (listening sections, instruction blocks);
- round trips (a printed question read back, a split rejoined, chunks concatenated, an
  answer letter mapped back to its option);
- the dedup keeping exactly the first admitted record of each key;
- the cascade's early acceptance.

The language model, the answer resolver's network call, PDF reading, OCR and image
extraction are outside the model. The language model and the answer resolver are
parameters: an `Llm` oracle and a `Resolver` oracle. The text and the images by page are
inputs.

Python semantics that matter are written out:

- `str.strip()` and `\s` use the full `str.isspace()` set;
- `str.split`, `str.join`, `str.replace` and `str.rstrip(c)` are modelled;
- `re.sub(r'\s+', ' ', ...)`, `re.finditer` with its lazy body and lookahead, `re.split`
  with `^` under MULTILINE, and `re.search` are modelled;
- dictionary insertion order is modelled;
- the falsiness of `0` in `a or b` is modelled.

The source file holds mis-decoded literals for the dash, the check mark and the bullet.
They are modelled character for character: the UTF-8 bytes of the intended character
read as Mac Roman.

Some behaviours of the code are easy to misread; the model follows the code.

- The splitter's marker needs a line start or a whitespace character before the letter
  (backend/extractor.py:689): `(?:^|\s)([A-E])\s*[\.\)\:]\s*` does not match inside a word.
- The splitter blanks a question shorter than ten characters (backend/extractor.py:695-696),
  so `"X? A) one B) two"` gives no record (`AggressiveParser.OneLineQuestion`).
- The line parser's option scan stops only at a numbered line, and never at the line
  right after the question (backend/extractor.py:606-608); a question-word line is
  passed over.
- The block-grouping parser tries the option pattern `^([A-E])...` first
  (backend/extractor.py:656-659), so "Answer: B" and "Correct: C" are read as options.
  Only "Key..." lines reach the answer branch, and they always give index 4, the `e` of
  "Key" (`BlockParser.AnswerLineIsOption`, `BlockParser.KeyLineSetsFour`).

Where the code is evidently wrong (see "## Findings"), the parser is modelled under two
readings (`Records.Reading`): `AsWritten`, which is the program and which the cascade
runs, and `Corrected`, which states the evidently intended behaviour. The line parser's
`From`, `Parse` and `Sound` and the structurer's `ItemsRecords` and `Sound` take the
reading as a parameter; the two readings of the line parser differ in answers only
(`LineParser.ReadingsDifferInAnswers`).

## Model

| member | source | states |
|---|---|---|
| `Strings.Lower` | backend/extractor.py:69 | lower-casing keeps the length (ASCII letters only, see Left out) |
| `Strings.LStripSpaces` | backend/extractor.py:537 | the leading part `strip()` removes is all whitespace |
| `Strings.RStripSpaces` | backend/extractor.py:537 | the trailing part `strip()` removes is all whitespace |
| `Strings.StripIsTrimmedSlice` | backend/extractor.py:537 | `strip()` returns a slice of its argument with no whitespace at either end, everything cut off being whitespace |
| `Strings.StripEmptyIffAllSpace` | backend/extractor.py:538 | a line strips to the empty string exactly when it is all whitespace |
| `Strings.StripOfTrimmed` | backend/extractor.py:537 | a string with no whitespace at its ends is its own `strip()` |
| `Strings.StripIdempotent` | backend/extractor.py:537 | stripping twice is stripping once |
| `Strings.RStripChar` | backend/extractor.py:198 | `rstrip('.')` returns a prefix that does not end in the character |
| `Strings.CollapseIsCollapsed` | backend/extractor.py:537 | after `re.sub(r'\s+', ' ', ...)` the only whitespace left is single spaces |
| `Strings.CollapseChars` | backend/extractor.py:537 | every character of the collapsed line is a space or a character of the input |
| `Strings.CollapseOfCollapsed` | backend/extractor.py:537 | collapsing a collapsed line changes nothing |
| `Strings.CleanLineIsTrimmed` | backend/extractor.py:537 | a cleaned line is collapsed and trimmed, made only of spaces and input characters |
| `Strings.CleanLineOfTrimmed` | backend/extractor.py:537 | cleaning an already clean line changes nothing |
| `Strings.Split` | backend/extractor.py:533 | `split('\n')` always yields at least one piece |
| `Strings.SplitPiecesLackSeparator` | backend/extractor.py:533 | no piece of a split holds the separator |
| `Strings.SplitJoin` | backend/extractor.py:533-541 | splitting separator-free parts joined by the separator gives the parts back |
| `Strings.JoinSplit` | backend/extractor.py:533-541 | joining the pieces of a split gives the text back |
| `Strings.SkipSpaces` | backend/extractor.py:181 | `\s*` from a position stops at the first non-whitespace character |
| `Strings.DigitRun` | backend/extractor.py:138 | the run of `\d` at the start of a line is maximal |
| `Normalize.UnifyQuotes` | backend/extractor.py:529 | the quote replacements keep the length |
| `Normalize.RemoveControlChars` | backend/extractor.py:526 | the control-character class is removed and nothing new appears |
| `Normalize.RemoveControlIdentity` | backend/extractor.py:526 | a text with no control character is unchanged |
| `Normalize.ReplaceAllChars` | backend/extractor.py:529-530 | `replace` brings in no character beyond the text's and the replacement's |
| `Normalize.ReplaceAllIdentity` | backend/extractor.py:529-530 | `replace` of an absent pattern changes nothing |
| `Normalize.ReplaceRemovesPattern` | backend/extractor.py:530 | replacing a dash literal with "-" leaves no occurrence of it |
| `Normalize.PreparedLacksDashes` | backend/extractor.py:526-530 | after the character-level steps neither mis-decoded dash literal occurs |
| `Normalize.CleanLineKeepsAbsent` | backend/extractor.py:537 | cleaning a line creates no occurrence of a whitespace-free pattern |
| `Normalize.CleanAllFrom` | backend/extractor.py:535-539 | every kept line is the cleaned form of some input line and is not empty |
| `Normalize.CleanAllIdentity` | backend/extractor.py:535-539 | lines that are already clean and non-empty are all kept unchanged |
| `Normalize.CleanLinesShape` | backend/extractor.py:533-539 | every line `clean_text` keeps is non-empty, collapsed and trimmed, and holds no control character, double quote, backtick or mis-decoded dash |
| `Normalize.CleanTextEmpty` | backend/extractor.py:522-523 | the empty text cleans to the empty text |
| `Normalize.CleanTextLines` | backend/extractor.py:533-541 | the cleaned text is the kept lines joined by newlines, and splitting it gives them back |
| `Normalize.JoinNormalized` | backend/extractor.py:541 | kept lines joined by newlines form a normalised text, empty exactly when there are no lines |
| `Normalize.CleanTextFixpoint` | backend/extractor.py:520-541 | `clean_text` leaves a normalised text unchanged |
| `Normalize.CleanTextIdempotent` | backend/extractor.py:520-541 | `clean_text` is idempotent: cleaning a cleaned text changes nothing |
| `Normalize.BreakHead` | backend/extractor.py:552 | the marker break keeps a non-empty text non-empty and starts it with a newline or its first character |
| `Normalize.MarkerStartsLine` | backend/extractor.py:552 | after the marker break every `[A-E][.):]` is preceded by a newline |
| `Normalize.BreakKeepsContent` | backend/extractor.py:552 | the marker break only moves whitespace: the non-whitespace characters are kept in order |
| `Records.Plain` | backend/extractor.py:212-217 | a specialised parser's record has the given question, options and answer, explanation `''` and no image |
| `Classify.DetectPaperType` | backend/extractor.py:67-78 | PHYSICS exactly when a physics keyword occurs; ENGLISH exactly when none does and an English one does; MATHEMATICS likewise after both |
| `Classify.LowerIdempotent` | backend/extractor.py:69 | lower-casing twice is lower-casing once |
| `Classify.DetectIgnoresCase` | backend/extractor.py:67-78 | the paper type does not depend on the case of the text |
| `Classify.GeneralIffNoKeyword` | backend/extractor.py:67-78 | GENERAL exactly when no keyword of any group occurs |
| `Answers.IndexLetter` | backend/extractor.py:1292 | option `i` is labelled by an upper-case letter |
| `Answers.LetterToIndex` | backend/extractor.py:1318-1320 | a letter maps to an index only below the number of options, and that index's label is the upper-cased letter |
| `Answers.LetterIndexRoundTrip` | backend/extractor.py:1292-1320 | the label of option `i` maps back to `i` exactly when `i` is an option |
| `Answers.TaggedLetter` | backend/extractor.py:1313 | `ANSWER:\s*([A-Z])` with IGNORECASE yields an ASCII letter |
| `Answers.LoneCapital` | backend/extractor.py:1315 | `\b([A-Z])\b` yields an upper-case letter standing alone in the reply |
| `Answers.Identify` | backend/extractor.py:1276-1344 | the resolver raises exactly when the import fails, returns `None` when there is no reply, and otherwise names an option or nothing |
| `Answers.IdentifyOrNone` | backend/extractor.py:206-210 | the parsers' `try` around the resolver: an exception gives `None`, any index names an option |
| `Answers.TaggedLetterAtStart` | backend/extractor.py:1313 | "ANSWER: X" yields X |
| `Answers.AnswerReplyRoundTrip` | backend/extractor.py:1301-1321 | a reply in the requested form "ANSWER: X" for option X is read back as that option |
| `EmbeddedOptions.NextStop` | backend/extractor.py:181 | the lazy body `[^A-D]*?` can reach at most the first choice letter |
| `EmbeddedOptions.FindAll` | backend/extractor.py:181-182 | every match starts in the block with a choice letter and has a body free of choice letters |
| `EmbeddedOptions.FindAllLeftmost` | backend/extractor.py:181-182 | the first match is the leftmost position where the pattern matches; no match means none anywhere |
| `EmbeddedOptions.OptionTextClean` | backend/extractor.py:196-198 | a cleaned option has no choice letter and no trailing period |
| `EmbeddedOptions.KeptOptions` | backend/extractor.py:194-201 | the options kept are at most the matches, each of length 3 to 199 and clean |
| `EmbeddedOptions.AtMostFour` | backend/extractor.py:214 | `options[:4]` is the first four options, or all when there are fewer |
| `EmbeddedOptions.DraftFrom` | backend/extractor.py:189-204 | a draft's question is the stripped text before the first match and the draft is well formed |
| `EmbeddedOptions.DraftOf` | backend/extractor.py:180-204 | a draft has a non-empty trimmed question that is the stripped text before the leftmost marker, and two to four clean options |
| `EmbeddedOptions.CleanOptions` | backend/extractor.py:194-201 | the option loop computes `KeptOptions` |
| `EmbeddedOptions.ReadDraft` | backend/extractor.py:180-204 | the option step as the parsers run it computes `DraftOf` |
| `EmbeddedOptions.FindAllSkips` | backend/extractor.py:181-182 | a stretch without choice letters holds no match |
| `EmbeddedOptions.OptionTextOfGood` | backend/extractor.py:196-198 | a good option, with or without a trailing space, is cleaned to itself |
| `EmbeddedOptions.FindAllAtMatch` | backend/extractor.py:181-182 | where the pattern matches, `finditer` yields that match and goes on where its body stops |
| `EmbeddedOptions.OneMatch` | backend/extractor.py:181-198 | "L. o" followed by the end or by " L." is one match whose option text is `o` |
| `EmbeddedOptions.FirstRendered` | backend/extractor.py:181-198 | the first option of a rendered "A. x B. y ..." is found at its marker and read back as `x`; the scan goes on at the next marker |
| `EmbeddedOptions.NoLetterNoDraft` | backend/extractor.py:184-187 | a block with no letter A-D yields no record |
| `NumberedBlocks.Lines` | backend/extractor.py:247-248 | one stripped line per piece of the split |
| `NumberedBlocks.BlockEnd` | backend/extractor.py:274-284 | the block runs to the first stopping line, and no line before it stops the block |
| `NumberedBlocks.BlockEndAt` | backend/extractor.py:274-284 | a first stop found by scanning is the block end |
| `NumberedBlocks.CollectBlock` | backend/extractor.py:263-287 | the inner loop gathers exactly `BlockOf` and stops at `BlockEnd` |
| `NumberedBlocks.RecordOf` | backend/extractor.py:302-344 | a block yields one record exactly when it has a draft; the record carries the draft and the resolver's answer for exactly the stored options |
| `NumberedBlocks.BuildRecord` | backend/extractor.py:302-344 | reading the draft and asking the resolver computes `RecordOf` |
| `NumberedBlocks.CountAcrossBlock` | backend/extractor.py:274-284 | the lines inside a block hold no question number |
| `NumberedBlocks.RecordAvoids` | backend/extractor.py:289-295 | the question of a block without an instruction phrase has none |
| `EnglishParser.From` | backend/extractor.py:100-222 | every record has a well-formed draft, the resolver's answer, explanation `''` and no image |
| `EnglishParser.QuestionAt` | backend/extractor.py:137-222 | one numbered line in a reading or writing section adds its block's record and resumes after the block |
| `EnglishParser.ParseMcqs` | backend/extractor.py:80-225 | the parser with its three section flags computes `Parse` |
| `EnglishParser.ListeningExcluded` | backend/extractor.py:127-135 | in a listening section or before any header, with no reading or writing header later, nothing is produced |
| `EnglishParser.ListeningSkipsTo` | backend/extractor.py:104-135 | in a listening section or before any header, nothing is produced up to the next reading or writing header, and the walk goes on in the section it opens |
| `EnglishParser.FromAtHeader` | backend/extractor.py:104-125 | a header line switches the walk to the section it names |
| `EnglishParser.FromSkipsLine` | backend/extractor.py:127-135 | in a listening section or before any header, a line that is no header is passed over |
| `EnglishParser.NoReadingSectionNoQuestions` | backend/extractor.py:96-135 | a paper with no reading or writing header yields no questions |
| `EnglishParser.NoInstructionQuestions` | backend/extractor.py:174-178 | no emitted question contains an instruction phrase, in any case |
| `PhysicsParser.From` | backend/extractor.py:250-349 | every record has a well-formed draft, the resolver's answer, explanation `''` and no image |
| `PhysicsParser.BlockAt` | backend/extractor.py:251-349 | one pass of the walk adds at most the record of one block and moves forward |
| `PhysicsParser.ParseMcqs` | backend/extractor.py:227-352 | the parser as written computes `Parse` |
| `PhysicsParser.AtMostOnePerNumber` | backend/extractor.py:256-349 | there are no more records than numbered lines |
| `PhysicsParser.NoInstructionQuestions` | backend/extractor.py:289-295 | no emitted question contains an instruction phrase, in any case |
| `StandalonePhysics.BareEnd` | backend/improved_physics_parser.py:47-57 | the block runs to the first bare number line, and no line before it is one |
| `StandalonePhysics.BareEndAt` | backend/improved_physics_parser.py:47-57 | a first bare line found by scanning is the block end |
| `StandalonePhysics.RecordOf` | backend/improved_physics_parser.py:105-113 | a block yields one record exactly when it has a draft; the record has no answer and explanation `''` |
| `StandalonePhysics.From` | backend/improved_physics_parser.py:30-117 | every record has a well-formed draft and no answer |
| `StandalonePhysics.CollectBareBlock` | backend/improved_physics_parser.py:43-60 | the inner loop gathers exactly `BareBlock` and stops at `BareEnd` |
| `StandalonePhysics.BuildRecord` | backend/improved_physics_parser.py:75-113 | the record step computes `RecordOf` |
| `StandalonePhysics.BlockAt` | backend/improved_physics_parser.py:31-117 | one pass of the walk adds at most one block's record and moves forward |
| `StandalonePhysics.ParseMcqs` | backend/improved_physics_parser.py:11-120 | the parser as written computes `Parse` |
| `StandalonePhysics.WithoutAnswers` | backend/improved_physics_parser.py:110 | the records with only their answers dropped |
| `StandalonePhysics.BareFirstTextEmpty` | backend/improved_physics_parser.py:35 | a bare number line has no text after its number |
| `StandalonePhysics.SameBlockEnd` | backend/improved_physics_parser.py:47-57 | when every number stands alone, both variants end a block at the same line |
| `StandalonePhysics.SameBlock` | backend/improved_physics_parser.py:43-60 | when every number stands alone, both variants gather the same block |
| `StandalonePhysics.AgreesWithExtractor` | backend/improved_physics_parser.py:11-120 | on such a paper this variant finds exactly the extractor variant's questions and options, without answers |
| `LineParser.QuestionPrefix` | backend/extractor.py:573 | the numbering prefix removed from a question lies within the line |
| `LineParser.ChoiceIndex` | backend/extractor.py:604 | an option letter A-E, in any case, maps to an index below five |
| `LineParser.OptionGroup` | backend/extractor.py:590 | group 2 of the option pattern is never empty |
| `LineParser.CheckMarkFromIff` | backend/extractor.py:595 | the check-mark scan finds the literal exactly when it occurs |
| `LineParser.HasCheckMarkIff` | backend/extractor.py:595 | `'✓' in opt_line`, with the literal as the file holds it |
| `LineParser.KeyLetterAfter` | backend/extractor.py:601 | a key letter is found only on a line starting with the keyword |
| `LineParser.KeyLetter` | backend/extractor.py:601 | the letter of a key line is A-E in any case |
| `LineParser.KeyIndex` | backend/extractor.py:601-604 | the corrected index of a key line is below five |
| `LineParser.StepAt` | backend/extractor.py:583-611 | an option the scan takes is acceptable and stripped; a key line gives an index below five, as written the first A-E of the line |
| `LineParser.Collect` | backend/extractor.py:583-611 | the scan stops at a line within the text and collects at most ten options |
| `LineParser.FirstFive` | backend/extractor.py:620 | `options[:5]` is the first five options, or all when there are fewer |
| `LineParser.KeptAnswer` | backend/extractor.py:615-616 | the answer is kept exactly when it names one of the options |
| `LineParser.RecordOf` | backend/extractor.py:614-622 | corrected: the record has the question and the first five options, and an answer only when it names one of the stored options |
| `LineParser.NonBlankLines` | backend/extractor.py:555 | the lines the parser walks are non-empty |
| `LineParser.CollectAcceptable` | backend/extractor.py:590-598 | the scan only takes acceptable, stripped option texts |
| `LineParser.FromSound` | backend/extractor.py:557-625 | every record has a question of at least five characters and two to five acceptable options; as written its answer names one of the at most ten collected options, so a stored one whenever fewer than five are stored; corrected it always names a stored one |
| `LineParser.ParseSound` | backend/extractor.py:543-628 | every record of the parser is sound, as written and corrected |
| `LineParser.CollectSameShape` | backend/extractor.py:583-611 | scans whose decisions differ only in key-line indices collect the same options and stop at the same line |
| `LineParser.ReadingsDifferInAnswers` | backend/extractor.py:557-625 | the parser as written and the corrected one find the same questions with the same options in the same order; only answers differ |
| `LineParser.NumberedQuestionText` | backend/extractor.py:562-573 | "N. text" is taken as a question whose text is the stripped text |
| `LineParser.OptionLineText` | backend/extractor.py:590-592 | "X) text" is read back as `text` |
| `LineParser.KeyLineNamesLetter` | backend/extractor.py:601-604 | corrected: the key line "Answer: X" names option X |
| `LineParser.FirstChoice` | backend/extractor.py:602 | `re.search(r'([A-E])', ...)` finds a letter A-E |
| `LineParser.AsWrittenKeyIndex` | backend/extractor.py:602-604 | as written, the index of a key line is below five |
| `LineParser.KeyLineHasChoice` | backend/extractor.py:601-603 | on a key line the search for a letter A-E always succeeds |
| `LineParser.AsWrittenKeyIgnoresLetter` | backend/extractor.py:601-604 | as written, a key line's index depends on its keyword only: 0 for Answer/Ans, 2 for Correct, 4 for Key |
| `LineParser.KeyLineMisread` | backend/extractor.py:601-604 | "Answer: B" is read as option 0 as written, and as option 1 when corrected |
| `LineParser.AsWrittenRecord` | backend/extractor.py:614-622 | as written, the answer is checked against all collected options while only five are stored |
| `LineParser.AnswerBeyondShownOptions` | backend/extractor.py:614-622 | six options with the sixth marked: as written the record names option 5 beside five options; corrected it has no answer |
| `LineParser.PrintedOptionStep` | backend/extractor.py:589-598 | a printed, unmarked option line is taken as its text |
| `LineParser.TwoOptionQuestion` | backend/extractor.py:555-625 | "N. q", "A) x", "B) y" is read back as exactly the record (q, [x, y], no answer) |
| `LineParser.LineStep` | backend/extractor.py:584-611 | one pass of the inner loop's tests computes `StepAt` as written, the key index read from the first A-E of the line |
| `LineParser.ScanLine` | backend/extractor.py:583-611 | one pass of the inner loop advances the scan as `Collect` does over the decisions as written |
| `LineParser.CollectOptions` | backend/extractor.py:579-611 | the inner loop computes `Collect` over the decisions as written, from the line after the question |
| `LineParser.QuestionAt` | backend/extractor.py:558-625 | one pass of the outer loop adds at most one record as written (answer reset against the collected options, five stored) and resumes where the scan stopped |
| `LineParser.ParseMcqs` | backend/extractor.py:543-628 | the parser computes `Parse` under the reading as written |
| `BlockParser.GroupCloses` | backend/extractor.py:637-639 | a cue line after a non-empty block closes it and opens a new one |
| `BlockParser.GroupExtends` | backend/extractor.py:640-641 | any other line joins the open block |
| `BlockParser.GroupLinesGrouped` | backend/extractor.py:636-641 | the grouping invariant holds after every line |
| `BlockParser.BlocksPartition` | backend/extractor.py:632-644 | the blocks hold every line once and in order, none is empty, every block but the first starts at a cue, and no later line of a block is a cue |
| `BlockParser.GroupBlocks` | backend/extractor.py:632-644 | the grouping loop computes `Blocks` |
| `BlockParser.BlockQuestionPrefix` | backend/extractor.py:676 | the numbering prefix removed from a block question lies within it |
| `BlockParser.BlockRecord` | backend/extractor.py:650-679 | a block yields at most one record |
| `BlockParser.ReadLinesStripped` | backend/extractor.py:655-670 | the options a block yields are stripped |
| `BlockParser.BlockRecordSound` | backend/extractor.py:669-679 | a record has at least two stripped options, a stripped question, and an answer naming an option or none |
| `BlockParser.BlockRecords` | backend/extractor.py:647-679 | at most one record per block |
| `BlockParser.BlockRecordsSound` | backend/extractor.py:647-679 | every record of the blocks is sound |
| `BlockParser.ParseSound` | backend/extractor.py:630-681 | at most one record per block, every record sound |
| `BlockParser.LetterLineOfPrinted` | backend/extractor.py:656-657 | "X) text" is an option line with text `text` |
| `BlockParser.ReadPrintedOption` | backend/extractor.py:656-660 | a printed option line closes the open option and opens its own |
| `BlockParser.ReadTwoPrinted` | backend/extractor.py:655-667 | two printed option lines are read as those two options |
| `BlockParser.PrintedBlock` | backend/extractor.py:650-679 | a question and two printed options give exactly that record with no answer |
| `BlockParser.AnswerLineIsOption` | backend/extractor.py:656-661 | "Answer: ..." is taken as an option line, not as an answer |
| `BlockParser.KeyLineSetsFour` | backend/extractor.py:661-664 | a "Key" line always sets answer 4 |
| `BlockParser.ReadBlockLine` | backend/extractor.py:655-667 | one pass of the line loop computes `ReadLine` |
| `BlockParser.ReadBlock` | backend/extractor.py:650-679 | the line loop and the record step compute `BlockRecord` |
| `BlockParser.FallbackParse` | backend/extractor.py:630-681 | the parser as written computes `Parse` |
| `AggressiveParser.SplitAtMarker` | backend/extractor.py:689 | at a marker the split closes the current piece and starts the next after it |
| `AggressiveParser.SplitPasses` | backend/extractor.py:689 | the split passes over a position where no marker starts |
| `AggressiveParser.SplitFromRejoins` | backend/extractor.py:689 | from any position, the pieces put back together are the rest of the text |
| `AggressiveParser.SplitRejoins` | backend/extractor.py:689 | the split loses nothing: head, markers and texts rejoined are the text |
| `AggressiveParser.OptionTextGood` | backend/extractor.py:701-704 | an option text is at most 200 characters and stripped |
| `AggressiveParser.OptionsGood` | backend/extractor.py:699-706 | every kept option has 3 to 200 characters and is stripped |
| `AggressiveParser.FirstFiveOptions` | backend/extractor.py:711 | `options[:5]` keeps at most five |
| `AggressiveParser.Parse` | backend/extractor.py:684-715 | at most one record |
| `AggressiveParser.ParseSound` | backend/extractor.py:708-713 | the record has a question of at least ten characters, two to five options of 3 to 200 characters, and no answer |
| `AggressiveParser.WordQuiet` | backend/extractor.py:689 | no marker starts inside a word that follows a space and is followed by one space and text |
| `AggressiveParser.SplitSkips` | backend/extractor.py:689 | the split steps over positions where no marker starts |
| `AggressiveParser.PrintedMarker` | backend/extractor.py:689 | " X) " before text is a marker |
| `AggressiveParser.SplitPrinted` | backend/extractor.py:689 | "q A) x B) y" splits into q, then x after " A) ", then y after " B) " |
| `AggressiveParser.WordOptionText` | backend/extractor.py:701-704 | a word of at most 200 characters is its own option text |
| `AggressiveParser.TwoOptions` | backend/extractor.py:699-706 | the options of "A) x B) y" are those of x and y longer than two characters |
| `AggressiveParser.OneLineQuestion` | backend/extractor.py:689-713 | "q A) x B) y" gives the record (q, [x, y]) exactly when q has at least ten characters and x and y more than two; otherwise nothing |
| `AggressiveParser.AggressiveParse` | backend/extractor.py:684-715 | the parser as written computes `Parse` |
| `Dedup.Key` | backend/extractor.py:909 | the dedup key has at most 100 characters |
| `Dedup.UniqueKeys` | backend/extractor.py:892-913 | no admitted question is lost: the kept keys are exactly the admitted records' keys |
| `Dedup.UniqueDistinct` | backend/extractor.py:894-913 | the kept records are admitted and their keys pairwise distinct |
| `Dedup.LastFirstOfKey` | backend/extractor.py:910-911 | the last record is kept exactly when it is admitted and no earlier admitted record has its key |
| `Dedup.UniqueIsFirsts` | backend/extractor.py:894-913 | the dictionary keeps exactly the first admitted record of each key, in input order |
| `Dedup.DedupByKey` | backend/extractor.py:894-913 | the dictionary loop computes `Unique` |
| `Structurer.ChunksRoundTrip` | backend/extractor.py:962-963 | the chunks concatenated are the text; each has 1 to 3000 characters and all but the last exactly 3000 |
| `Structurer.ChunksAfterFirst` | backend/extractor.py:963 | a 3000-character head is one chunk and the rest is chunked on its own |
| `Structurer.BulletEnd` | backend/extractor.py:1080 | the bullet run is maximal |
| `Structurer.CleanOptionShape` | backend/extractor.py:1075-1082 | a non-empty cleaned option is stripped and does not start with a bullet character |
| `Structurer.CleanOptionsShape` | backend/extractor.py:1074-1084 | every kept cleaned option has that shape |
| `Structurer.PrintedOptionCleaned` | backend/extractor.py:1076-1080 | "X) text" is cleaned to `text` |
| `Structurer.ArticleDropped` | backend/extractor.py:1078 | the letter pattern also eats a one-letter word: "A cat" becomes "cat" |
| `Structurer.ValidIndex` | backend/extractor.py:1096-1097 | an index is accepted only below the number of options |
| `Structurer.FirstTen` | backend/extractor.py:1103 | `options[:10]` is the first ten options, or all when there are fewer |
| `Structurer.AsWrittenItemRecord` | backend/extractor.py:1068-1112 | as written, a record's answer is below the number of all cleaned options |
| `Structurer.ItemRecord` | backend/extractor.py:1068-1112 | corrected: every record's answer names one of its stored options |
| `Structurer.ItemReadingsAgree` | backend/extractor.py:1084-1106 | the two readings give the same record for every item with at most ten cleaned options |
| `Structurer.AsWrittenTenth` | backend/extractor.py:1096-1104 | as written, eleven options with `correct_option` 10 store ten options and answer 10 |
| `Structurer.AnswerBeyondTenOptions` | backend/extractor.py:1096-1104 | as written that record names an option it lacks; corrected it never answers 10 |
| `Structurer.ZeroAnswerAsksResolver` | backend/extractor.py:1096-1104 | index 0 is falsy: `correct_option` 0 without `correct` goes to the resolver, and `None` from it becomes 0 |
| `Structurer.ValidAnswerKept` | backend/extractor.py:1096-1104 | a valid non-zero index is stored as it is |
| `Structurer.ItemRecordParts` | backend/extractor.py:1069-1106 | corrected: a record keeps the stripped question and the first ten cleaned options of its item, at least two |
| `Structurer.AsWrittenItemRecordParts` | backend/extractor.py:1069-1106 | as written: a record keeps the stripped question and the first ten cleaned options, at least two, and its answer is below the number of all cleaned options |
| `Structurer.ItemRecordSound` | backend/extractor.py:1068-1106 | every item record is sound under its reading: trimmed question, 2 to 10 clean options, an answer naming a stored one (as written: whenever fewer than ten are stored) |
| `Structurer.ItemsRecordsSound` | backend/extractor.py:1068-1112 | every record of a reply is sound under its reading |
| `Structurer.TriedSound` | backend/extractor.py:1033-1133 | every record the retry loop as written collects is sound as written: its answer names a stored option whenever fewer than ten are stored |
| `Structurer.ChunkRecordsSound` | backend/extractor.py:1033-1133 | corrected: every record of one chunk is sound |
| `Structurer.AllChunkRecordsSound` | backend/extractor.py:966-1133 | corrected: every record of all chunks is sound |
| `Structurer.UniqueFrom` | backend/extractor.py:1136-1147 | a record the dedup keeps is one of its input records |
| `Structurer.StructureSound` | backend/extractor.py:947-1152 | corrected: every structured record is sound and no two share a dedup key |
| `Structurer.LastChunk` | backend/extractor.py:962-1036 | the prompt sent after the chunk loop holds the last chunk; there is none exactly when the text has no chunk |
| `Structurer.LastChunkAfterHead` | backend/extractor.py:962-1036 | a 3000-character head does not change the last chunk |
| `Structurer.AsWrittenIgnoresHead` | backend/extractor.py:966-1033 | as written only the last chunk matters: a 3000-character head changes nothing |
| `Structurer.StructureSendsHead` | backend/extractor.py:966-1033 | corrected: the head's records come before those of the rest |
| `Structurer.EmptyRepliesTried` | backend/extractor.py:1033-1122 | empty replies on every attempt add nothing |
| `Structurer.OneItemRecords` | backend/extractor.py:1068-1112 | a one-item reply gives that item's record |
| `Structurer.UniqueOne` | backend/extractor.py:1136-1147 | a single record survives the dedup |
| `Structurer.AsWrittenLosesHead` | backend/extractor.py:966-1152 | as written, a record for the first chunk is lost when the last chunk gets empty replies |
| `Structurer.StructureKeepsHead` | backend/extractor.py:966-1149 | corrected, the first chunk's record is kept |
| `Structurer.CleanItemOptions` | backend/extractor.py:1074-1084 | the option-cleaning loop computes `CleanOptions` |
| `Structurer.RecordsOfItems` | backend/extractor.py:1068-1112 | the item loop computes `ItemsRecords` under the reading as written |
| `Structurer.RecordOfItem` | backend/extractor.py:1069-1112 | one item's handling computes `AsWrittenItemRecord`: the answer validated and resolved over all cleaned options, ten stored |
| `Structurer.StructureAsWritten` | backend/extractor.py:947-1158 | the function as written (only the last chunk sent, records as written) computes `AsWrittenStructure` |
| `Pipeline.AttachImagesSpec` | backend/extractor.py:856-861 | attaching images changes only the image, and record `i` gets page `i`'s image when there is one |
| `Pipeline.AttachPageImages` | backend/extractor.py:928-933 | the image loop computes `AttachImages` |
| `Pipeline.ResolveAnswerSpec` | backend/extractor.py:917-926 | resolution changes only the answer, keeps an answer naming an option, leaves any answer naming an option, and gives 0 when the resolver raises |
| `Pipeline.ResolveAnswersSound` | backend/extractor.py:917-926 | after resolution every answer names an option or is missing, and nothing else has changed |
| `Pipeline.ResolveMissingAnswers` | backend/extractor.py:916-926 | the resolution loop computes `ResolveAnswers` |
| `Pipeline.EarlyAcceptance` | backend/extractor.py:854-862 | five specialised records settle the result: it is those records with images, whatever the structurer would give |
| `Pipeline.FallsThrough` | backend/extractor.py:864-935 | when neither the specialised parser nor the structurer as written finds five records, the result is the last stage's |
| `Pipeline.FirstsWithin` | backend/extractor.py:894-913 | the dedup keeps no more records than it is given, each one of them |
| `Pipeline.LastStageSound` | backend/extractor.py:878-926 | the last stage's records are admitted, pairwise distinct by key, have 2 to 5 options and an answer naming one or none, although the parser as written can leave an answer beyond the stored options |
| `Pipeline.ExtractQuestions` | backend/extractor.py:825-938 | the cascade computes `Extract`, with the structurer and the primary parser as written |
| `Models.ValidateQuestion` | backend/models.py:26-31 | accepted exactly when the value is present and not blank; the stored value is non-empty and stripped |
| `Models.ValidateQuestionIdempotent` | backend/models.py:26-31 | a stored question passes the validator unchanged |
| `Models.Cleaned` | backend/models.py:37 | cleaning keeps at most the given entries |
| `Models.CleanedTrimmed` | backend/models.py:37 | every cleaned entry is non-blank and stripped |
| `Models.CleanedOfTrimmed` | backend/models.py:37 | entries that are non-blank and stripped are kept as they are |
| `Models.CleanedIdempotent` | backend/models.py:37 | cleaning twice is cleaning once |
| `Models.CleanedKeeps` | backend/models.py:37 | every non-blank entry survives, stripped, in its place among the others |
| `Models.ValidateOptions` | backend/models.py:33-40 | accepted exactly for a list of at least two entries with at least two non-blank; the stored value is the cleaned list |
| `Models.ValidateOptionsStored` | backend/models.py:33-40 | stored options have at least two non-blank stripped entries and pass the validator unchanged |
| `Models.ValidateCorrectOption` | backend/models.py:42-48 | accepted exactly when missing or non-negative; the value is stored unchanged |
| `Models.CorrectOptionUnbounded` | backend/models.py:42-48 | an index past the options is accepted: there is no upper bound |
| `Models.ImageUrl` | backend/models.py:52-56 | there is a URL exactly when both the image bytes and the type are present and non-empty |
| `Models.ImageUrlRoundTrip` | backend/models.py:52-56 | the type and the Base64 text are read back from the data URL whenever the type has no `;` |

## Findings

| source | as written | input that shows it | evidently intended | confidence | as-written member | corrected member |
|---|---|---|---|---|---|---|
| backend/extractor.py:601-604 | a key line's answer is the first letter A-E anywhere on the line, which is a letter of the keyword itself | "Answer: B" gives index 0 ("A" of "Answer"); "Key: A" gives 4 | the letter after the keyword (group 2 of the key pattern) names the answer | high; not executed | `LineParser.AsWrittenKeyIndex`, `LineParser.KeyLineMisread` | `LineParser.KeyIndex`, `LineParser.KeyLineNamesLetter` |
| backend/extractor.py:614-622 | the answer is checked against up to ten collected options, then only `options[:5]` is stored | a question with six options, the sixth marked `*`: answer 5 beside five options | the answer is kept only when it names a stored option | high; not executed | `LineParser.AsWrittenRecord`, `LineParser.AnswerBeyondShownOptions` | `LineParser.RecordOf` |
| backend/extractor.py:966-1033 | the retry loop that sends the prompt is indented after the chunk loop, so only the last chunk is sent, three times with no `break` | a text of 3000 characters followed by a tail, the model answering the first chunk with a question and the tail with `[]`: the result is empty | each chunk is sent, with retries until a reply decodes | high; not executed | `Structurer.AsWrittenIgnoresHead`, `Structurer.AsWrittenLosesHead` | `Structurer.StructureSendsHead`, `Structurer.StructureKeepsHead` |
| backend/extractor.py:1096-1104 | `correct` is validated against all cleaned options, but only `options[:10]` is stored | an item with eleven options and `correct_option` 10: ten options stored with answer 10 | the answer is validated, and resolved, over the stored ten options | high; not executed | `Structurer.AsWrittenTenth`, `Structurer.AnswerBeyondTenOptions` | `Structurer.ItemRecord` |

The cascade runs the program as written: `Pipeline.Extract` calls
`Structurer.AsWrittenStructure`, built on `Structurer.AsWrittenItemRecord`, and its last
stage calls `LineParser.Parse` under `AsWritten`, built on `LineParser.AsWrittenKeyIndex`
and `LineParser.AsWrittenRecord`. The corrected members stay beside them with the
intended properties proved: `LineParser.Parse` under `Corrected`, `Structurer.Structure`
and `Structurer.ItemRecord`.

## Left out

- `Strings.Lower`: lower-cases ASCII letters only. The same goes for `\d`, `\b` and
  IGNORECASE in every pattern. Python folds all of Unicode, and the exam texts are
  treated as ASCII where case and digits matter.
- `Answers.Identify`: the network call, its three attempts with exponential back-off on
  rate limits and the prompt text are collapsed into one `ResolverCall` outcome
  (an import failure, no reply, or a reply text). The model, sleeping and the API key
  lookup are not modelled.
- `Structurer.AsWrittenStructure` and `Structurer.Structure`: the language-model call and the recovery of a JSON array from
  the reply (backend/extractor.py:1046-1065, including `json.loads`) are the `Llm`
  oracle, which returns decoded items, an unparsable reply or a crash.
- `Structurer.AsWrittenItemRecord` and `Structurer.ItemRecord`: options are given as strings, so `str(opt)` of a non-string
  JSON entry is not modelled, nor is the warning about fewer questions than question
  marks (logging only).
- `Models.ValidateOptions`: entries are strings. `str(opt)` of non-string entries is not
  modelled.
- `Models.ImageUrl`: the Base64 encoder is a parameter. Base64 itself is not modelled.
- `EmbeddedOptions.FirstRendered`: of the round trip "render a stem and options inline,
  then read them back", only the first rendered option is proved to be read back as
  itself. The whole rendering is not.
- `Pipeline.Extract`: the PDF is already text. Reading it (`extract_text_from_pdf`), the
  OCR path, `extract_images_from_pdf` and the outer `except` that turns any exception
  into `[]` are not part of this model. No stage of the model raises, except the
  resolver's import failure, which is handled where the source handles it.
- `fallback_block_parser` and `aggressive_parser` are modelled on their own
  (`BlockParser`, `AggressiveParser`). They are not in the cascade, because
  `extract_questions_from_pdf` does not call them (backend/extractor.py:878).
- Logging, timing and the `q_num` integer parsed only for log messages are not modelled.
