/**
 * The deterministic parts of `validate_and_structure_with_groq`
 * (backend/extractor.py:944-1155): cutting the text into 3000-character chunks, the
 * retry loop around the language model, turning the model's JSON items into records
 * (option-marker removal, validity checks, answer fallback) and the cross-chunk dedup.
 *
 * The model call and the JSON decoding are an oracle: `Llm` gives, for the chunk in the
 * prompt and the attempt number, either the decoded items, `Unparsable` (a
 * `JSONDecodeError` or `ValueError`, which moves on to the next attempt) or `Crashed`
 * (any other exception, re-raised on the last attempt and then swallowed into `[]`).
 *
 * `AsWrittenStructure`, with the per-item records as written, is what the orchestrator
 * runs; `Structure`, with every chunk sent and the answer checked against the stored
 * options, is the corrected half of the two findings below.
 */
module Structurer {
  import opened Wrappers
  import opened Strings
  import opened Records
  import opened Answers
  import opened Dedup

  // ----- chunks -----

  const ChunkSize := 3000

  /** `[text[i:i+3000] for i in range(0, len(text), 3000)]`. */
  function Chunks(text: string): seq<string>
    decreases |text|
  {
    if text == [] then []
    else if |text| <= ChunkSize then [text]
    else [text[..ChunkSize]] + Chunks(text[ChunkSize..])
  }

  function ConcatAll(cs: seq<string>): string {
    if cs == [] then [] else cs[0] + ConcatAll(cs[1..])
  }

  /** The chunks put back together are the text; each is 1 to 3000 characters, and all but the last exactly 3000. */
  lemma {:induction false} ChunksRoundTrip(text: string)
    ensures ConcatAll(Chunks(text)) == text
    ensures forall k :: 0 <= k < |Chunks(text)| ==> 0 < |Chunks(text)[k]| <= ChunkSize
    ensures forall k :: 0 <= k < |Chunks(text)| - 1 ==> |Chunks(text)[k]| == ChunkSize
    decreases |text|
  {
    if |text| > ChunkSize {
      var rest := text[ChunkSize..];
      ChunksRoundTrip(rest);
      var cs := [text[..ChunkSize]] + Chunks(rest);
      assert cs[1..] == Chunks(rest);
      assert text == text[..ChunkSize] + rest;
      forall k | 0 < k < |cs| ensures cs[k] == Chunks(rest)[k - 1] { }
    }
  }

  /** A first chunk of exactly 3000 characters is cut off whole: the rest is chunked on its own. */
  lemma ChunksAfterFirst(x: string, y: string)
    requires |x| == ChunkSize && y != []
    ensures Chunks(x + y) == [x] + Chunks(y)
  {
    assert (x + y)[..ChunkSize] == x;
    assert (x + y)[ChunkSize..] == y;
  }

  // ----- option markers -----

  predicate IsLetterMarkChar(c: char) { c == '.' || c == ')' || IsSpace(c) }

  /** `[\d\s\.\)\-‚Ä¢]`: the bullet class as it stands in the source, a mis-decoded `•` giving three characters. */
  predicate IsBulletChar(c: char) {
    IsDigit(c) || IsSpace(c) || c == '.' || c == ')' || c == '-' || c == '‚' || c == 'Ä' || c == '¢'
  }

  function LetterMarkEnd(o: string, p: nat): (r: nat)
    requires p <= |o|
    ensures p <= r <= |o|
    decreases |o| - p
  {
    if p < |o| && IsLetterMarkChar(o[p]) then LetterMarkEnd(o, p + 1) else p
  }

  /** The end of `^[\d\s\.\)\-‚Ä¢]+`, or `p` when there is none. */
  function BulletEnd(o: string, p: nat): (r: nat)
    requires p <= |o|
    ensures p <= r <= |o|
    ensures r < |o| ==> !IsBulletChar(o[r])
    decreases |o| - p
  {
    if p < |o| && IsBulletChar(o[p]) then BulletEnd(o, p + 1) else p
  }

  /** `re.sub(r'^[A-Za-z][\.\)\s]+', '', opt)`. */
  function DropLetterMarker(o: string): string {
    if |o| >= 2 && IsAsciiLetter(o[0]) && IsLetterMarkChar(o[1]) then o[LetterMarkEnd(o, 1)..] else o
  }

  /** The two substitutions, each followed by `strip()`. */
  function CleanOption(o: string): string {
    var t := Strip(DropLetterMarker(o));
    Strip(t[BulletEnd(t, 0)..])
  }

  /** The cleaned options that are not empty, in order. */
  function CleanOptions(options: seq<string>): seq<string> {
    if options == [] then []
    else
      var c := CleanOption(Strip(options[|options| - 1]));
      CleanOptions(options[..|options| - 1]) + (if c != [] then [c] else [])
  }

  /** What a cleaned option looks like: not empty, no whitespace at its ends, no bullet first. */
  predicate CleanShape(o: string) {
    o != [] && NoEdgeSpace(o) && !IsBulletChar(o[0])
  }

  lemma CleanOptionShape(o: string)
    ensures CleanOption(o) != [] ==> CleanShape(CleanOption(o))
  {
    var t := Strip(DropLetterMarker(o));
    var u := t[BulletEnd(t, 0)..];
    StripIsTrimmedSlice(u);
    var a := StripStart(u);
    if CleanOption(o) != [] {
      assert u[0] == t[BulletEnd(t, 0)];
      assert !IsSpace(u[0]);
      assert CleanOption(o)[0] == u[0];
    }
  }

  lemma {:induction false} CleanOptionsShape(options: seq<string>)
    ensures forall k :: 0 <= k < |CleanOptions(options)| ==> CleanShape(CleanOptions(options)[k])
  {
    if options != [] {
      CleanOptionsShape(options[..|options| - 1]);
      CleanOptionShape(Strip(options[|options| - 1]));
    }
  }

  /** "X) text" comes back as `text` when `text` starts with neither whitespace nor a bullet character. */
  lemma PrintedOptionCleaned(c: char, t: string)
    requires IsAsciiLetter(c) && CleanShape(t)
    ensures CleanOption([c, ')', ' '] + t) == t
  {
    var o := [c, ')', ' '] + t;
    assert o[3] == t[0];
    assert LetterMarkEnd(o, 3) == 3;
    assert LetterMarkEnd(o, 1) == 3;
    assert o[3..] == t;
    StripOfTrimmed(t);
    assert BulletEnd(t, 0) == 0;
    assert t[0..] == t;
  }

  /** The letter pattern also takes a one-letter word followed by a space: "A cat" loses its "A ". */
  lemma ArticleDropped()
    ensures CleanOption("A cat") == "cat"
  {
    var o := "A cat";
    assert LetterMarkEnd(o, 2) == 2;
    assert DropLetterMarker(o) == "cat";
    StripOfTrimmed("cat");
    assert BulletEnd("cat", 0) == 0;
  }

  // ----- items -----

  /** A JSON value as `item.get(...)` returns it; `Missing` for an absent key. */
  datatype Value = Missing | Null | Int(i: int) | Bool(b: bool) | Text(s: string) | Other(truthy: bool)

  predicate Truthy(v: Value) {
    match v
    case Missing => false
    case Null => false
    case Int(i) => i != 0
    case Bool(b) => b
    case Text(s) => s != []
    case Other(t) => t
  }

  /**
   * One element of the decoded array. `NonObject` is an element that is not a dictionary
   * (`item.get` raises). `question` is `''` when the key is absent or not a string, both of
   * which skip the item; `options` holds `str(opt)` of each entry; `explanation` is
   * `Some("")` when the key is absent.
   */
  datatype RawItem =
    | Entry(question: string, options: seq<string>, correctOption: Value, correct: Value, explanation: Option<string>)
    | NonObject

  /** `item.get('correct_option') or item.get('correct')`. */
  function Either(co: Value, c: Value): Value {
    if Truthy(co) then co else c
  }

  /** The index `correct` stands for, when it is an `int` (a `bool` is one) in `[0, n)`. */
  function ValidIndex(v: Value, n: nat): (r: Option<nat>)
    ensures r.Some? ==> r.value < n
  {
    match v
    case Int(i) => if 0 <= i < n then Some(i) else None
    case Bool(b) => if (if b then 1 else 0) < n then Some(if b then 1 else 0) else None
    case _ => None
  }

  /** `options[:10]`. */
  function FirstTen(options: seq<string>): (r: seq<string>)
    ensures |r| == if |options| <= 10 then |options| else 10
    ensures forall k :: 0 <= k < |r| ==> r[k] == options[k]
  {
    if |options| <= 10 then options else options[..10]
  }

  /**
   * The record of one item as written: the answer is checked against all cleaned options
   * and the resolver sees all of them, but only the first ten are stored.
   * `None` when the item is skipped.
   */
  function AsWrittenItemRecord(item: RawItem, ask: Resolver): (r: Option<Mcq>)
    ensures r.Some? ==> item.Entry? && r.value.correctOption.Some? && r.value.correctOption.value < |CleanOptions(item.options)|
  {
    match item
    case NonObject => None
    case Entry(question, rawOptions, co, c, explanation) =>
      var q := Strip(question);
      var options := CleanOptions(rawOptions);
      if q == [] || |options| < 2 then None
      else
        var valid := ValidIndex(Either(co, c), |options|);
        if valid.Some? then Some(Mcq(q, FirstTen(options), valid, explanation, None))
        else
          match Identify(ask(q, options), |options|)
          case Failure(_) => None
          case Success(r) => Some(Mcq(q, FirstTen(options), Some(if r.Some? then r.value else 0), explanation, None))
  }

  /**
   * The record of one item with the answer checked against, and resolved over, the ten
   * options that are stored.
   */
  function ItemRecord(item: RawItem, ask: Resolver): (r: Option<Mcq>)
    ensures r.Some? ==> r.value.correctOption.Some? && r.value.correctOption.value < |r.value.options|
  {
    match item
    case NonObject => None
    case Entry(question, rawOptions, co, c, explanation) =>
      var q := Strip(question);
      var options := FirstTen(CleanOptions(rawOptions));
      if q == [] || |options| < 2 then None
      else
        var valid := ValidIndex(Either(co, c), |options|);
        if valid.Some? then Some(Mcq(q, options, valid, explanation, None))
        else
          match Identify(ask(q, options), |options|)
          case Failure(_) => None
          case Success(r) => Some(Mcq(q, options, Some(if r.Some? then r.value else 0), explanation, None))
  }

  /** As written, an item with eleven options and `correct_option` 10 keeps the answer 10 beside ten options. */
  lemma AsWrittenTenth(question: string, rawOptions: seq<string>, explanation: Option<string>, ask: Resolver)
    requires Strip(question) != [] && |CleanOptions(rawOptions)| == 11
    ensures AsWrittenItemRecord(Entry(question, rawOptions, Int(10), Missing, explanation), ask)
         == Some(Mcq(Strip(question), CleanOptions(rawOptions)[..10], Some(10), explanation, None))
  {
    assert ValidIndex(Either(Int(10), Missing), 11) == Some(10);
  }

  /**
   * An item with eleven options whose `correct_option` is 10: as written, the stored record
   * has ten options and answer 10; the corrected record never names an option it lacks.
   */
  lemma AnswerBeyondTenOptions(question: string, rawOptions: seq<string>, explanation: Option<string>, ask: Resolver)
    requires Strip(question) != [] && |CleanOptions(rawOptions)| == 11
    ensures var item := Entry(question, rawOptions, Int(10), Missing, explanation);
      && AsWrittenItemRecord(item, ask) == Some(Mcq(Strip(question), CleanOptions(rawOptions)[..10], Some(10), explanation, None))
      && |AsWrittenItemRecord(item, ask).value.options| == 10
      && (ItemRecord(item, ask).Some? ==> ItemRecord(item, ask).value.correctOption != Some(10))
  {
    var item := Entry(question, rawOptions, Int(10), Missing, explanation);
    AsWrittenTenth(question, rawOptions, explanation, ask);
    if ItemRecord(item, ask).Some? {
      ItemRecordParts(item, ask);
    }
  }

  /** Index 0 is falsy: an item whose `correct_option` is 0 and has no `correct` key goes to the resolver. */
  lemma ZeroAnswerAsksResolver(question: string, rawOptions: seq<string>, explanation: Option<string>, ask: Resolver)
    requires Strip(question) != [] && 2 <= |FirstTen(CleanOptions(rawOptions))|
    ensures var options := FirstTen(CleanOptions(rawOptions));
      var call := ask(Strip(question), options);
      ItemRecord(Entry(question, rawOptions, Int(0), Missing, explanation), ask)
        == (if call.ImportFailed? then None
            else Some(Mcq(Strip(question), options, Some(if IdentifyOrNone(call, |options|).Some? then IdentifyOrNone(call, |options|).value else 0), explanation, None)))
  {
  }

  /** A valid non-zero index is kept as it is; the resolver is not consulted. */
  lemma ValidAnswerKept(question: string, rawOptions: seq<string>, k: nat, explanation: Option<string>, ask: Resolver)
    requires Strip(question) != [] && 0 < k < |FirstTen(CleanOptions(rawOptions))|
    ensures ItemRecord(Entry(question, rawOptions, Int(k), Missing, explanation), ask)
         == Some(Mcq(Strip(question), FirstTen(CleanOptions(rawOptions)), Some(k), explanation, None))
  {
    assert ValidIndex(Either(Int(k), Missing), |FirstTen(CleanOptions(rawOptions))|) == Some(k);
  }

  /** The two readings agree on every item with at most ten cleaned options. */
  lemma ItemReadingsAgree(item: RawItem, ask: Resolver)
    requires item.Entry? && |CleanOptions(item.options)| <= 10
    ensures AsWrittenItemRecord(item, ask) == ItemRecord(item, ask)
  {
    assert FirstTen(CleanOptions(item.options)) == CleanOptions(item.options);
  }

  /** The record of one item under either reading. */
  function ItemRecordAs(item: RawItem, ask: Resolver, rd: Reading): Option<Mcq> {
    if rd.AsWritten? then AsWrittenItemRecord(item, ask) else ItemRecord(item, ask)
  }

  /** The records of the items, in order, skipped items left out. */
  function ItemsRecords(items: seq<RawItem>, ask: Resolver, rd: Reading): seq<Mcq> {
    if items == [] then []
    else
      var r := ItemRecordAs(items[|items| - 1], ask, rd);
      ItemsRecords(items[..|items| - 1], ask, rd) + (if r.Some? then [r.value] else [])
  }

  /**
   * What every record of the structurer satisfies. Corrected, the answer names a stored
   * option. As written, it names one of all the cleaned options, of which ten are stored;
   * so it names a stored option whenever fewer than ten are stored.
   */
  predicate Sound(m: Mcq, rd: Reading) {
    && m.question != [] && NoEdgeSpace(m.question)
    && 2 <= |m.options| <= 10 && (forall k :: 0 <= k < |m.options| ==> CleanShape(m.options[k]))
    && m.correctOption.Some? && (rd.Corrected? || |m.options| < 10 ==> m.correctOption.value < |m.options|)
    && m.image == None
  }

  /** A record keeps the stripped question and the first ten cleaned options of its item. */
  lemma ItemRecordParts(item: RawItem, ask: Resolver)
    requires ItemRecord(item, ask).Some?
    ensures item.Entry?
    ensures var m := ItemRecord(item, ask).value;
      && m.question == Strip(item.question) && m.question != []
      && m.options == FirstTen(CleanOptions(item.options)) && |m.options| >= 2
      && m.image == None
  {
  }

  /** A record as written keeps the stripped question and the first ten cleaned options; its answer is below the number of all cleaned options. */
  lemma AsWrittenItemRecordParts(item: RawItem, ask: Resolver)
    requires AsWrittenItemRecord(item, ask).Some?
    ensures item.Entry?
    ensures var m := AsWrittenItemRecord(item, ask).value;
      && m.question == Strip(item.question) && m.question != []
      && m.options == FirstTen(CleanOptions(item.options)) && |m.options| >= 2
      && m.correctOption.Some? && m.correctOption.value < |CleanOptions(item.options)|
      && m.image == None
  {
  }

  lemma ItemRecordSound(item: RawItem, ask: Resolver, rd: Reading)
    ensures ItemRecordAs(item, ask, rd).Some? ==> Sound(ItemRecordAs(item, ask, rd).value, rd)
  {
    if ItemRecordAs(item, ask, rd).Some? {
      if rd.AsWritten? {
        AsWrittenItemRecordParts(item, ask);
      } else {
        ItemRecordParts(item, ask);
      }
      var options := FirstTen(CleanOptions(item.options));
      CleanOptionsShape(item.options);
      assert forall k :: 0 <= k < |options| ==> CleanShape(options[k]);
      StripNoEdge(item.question);
    }
  }

  lemma {:induction false} ItemsRecordsSound(items: seq<RawItem>, ask: Resolver, rd: Reading)
    ensures forall k :: 0 <= k < |ItemsRecords(items, ask, rd)| ==> Sound(ItemsRecords(items, ask, rd)[k], rd)
  {
    if items != [] {
      ItemsRecordsSound(items[..|items| - 1], ask, rd);
      ItemRecordSound(items[|items| - 1], ask, rd);
    }
  }

  // ----- the model calls -----

  /** What the model call and the JSON decoding of one attempt came to. */
  datatype Reply = Items(items: seq<RawItem>) | Unparsable | Crashed

  /** The oracle: the chunk in the prompt and the attempt number (0, 1 or 2) give a reply. */
  type Llm = (string, nat) -> Reply

  const Attempts := 3

  /**
   * The records after the first `n` attempts of the retry loop as written, which has no
   * `break`: every attempt sends the prompt again and adds what comes back. `None` when
   * the last attempt raised.
   */
  function Tried(chunk: string, n: nat, llm: Llm, ask: Resolver): Option<seq<Mcq>> {
    if n == 0 then Some([])
    else
      var before := Tried(chunk, n - 1, llm, ask);
      if before.None? then None
      else
        match llm(chunk, n - 1)
        case Items(items) => Some(before.value + ItemsRecords(items, ask, AsWritten))
        case Unparsable => before
        case Crashed => if n == Attempts then None else before
  }

  /**
   * The structurer as written: the prompt is built inside the chunk loop but sent after
   * it, so only the last chunk reaches the model. With no chunk (empty text) the prompt is
   * unbound and every attempt raises. `available` is false when the API key is missing.
   */
  function AsWrittenStructure(text: string, available: bool, llm: Llm, ask: Resolver): seq<Mcq> {
    var last := LastChunk(text);
    if !available || last.None? then []
    else
      var all := Tried(last.value, Attempts, llm, ask);
      if all.None? then [] else Unique(all.value, AnyQuestion)
  }

  /** The last chunk of the text, the one the prompt holds after the chunk loop; `None` for the empty text. */
  function LastChunk(text: string): (r: Option<string>)
    ensures r.None? <==> Chunks(text) == []
    ensures r.Some? ==> r.value == Chunks(text)[|Chunks(text)| - 1]
  {
    var chunks := Chunks(text);
    if chunks == [] then None else Some(chunks[|chunks| - 1])
  }

  /** A 3000-character head does not change the last chunk. */
  lemma LastChunkAfterHead(x: string, y: string)
    requires |x| == ChunkSize && y != []
    ensures LastChunk(x + y) == LastChunk(y)
  {
    ChunksAfterFirst(x, y);
    var cs := Chunks(y);
    assert cs != [];
    assert ([x] + cs)[|[x] + cs| - 1] == cs[|cs| - 1];
  }

  /** Only the last chunk matters: a 3000-character head changes nothing. */
  lemma AsWrittenIgnoresHead(x: string, y: string, available: bool, llm: Llm, ask: Resolver)
    requires |x| == ChunkSize && y != []
    ensures AsWrittenStructure(x + y, available, llm, ask) == AsWrittenStructure(y, available, llm, ask)
  {
    LastChunkAfterHead(x, y);
  }

  /** The records of one chunk: attempts until the first decoded reply; `None` when the last attempt raised. */
  function ChunkRecords(chunk: string, a: nat, llm: Llm, ask: Resolver): Option<seq<Mcq>>
    decreases Attempts - a
  {
    if a >= Attempts then Some([])
    else
      match llm(chunk, a)
      case Items(items) => Some(ItemsRecords(items, ask, Corrected))
      case Unparsable => ChunkRecords(chunk, a + 1, llm, ask)
      case Crashed => if a + 1 == Attempts then None else ChunkRecords(chunk, a + 1, llm, ask)
  }

  /** The records of all chunks in order; `None` when any raised. */
  function AllChunkRecords(chunks: seq<string>, llm: Llm, ask: Resolver): Option<seq<Mcq>> {
    if chunks == [] then Some([])
    else
      var first := ChunkRecords(chunks[0], 0, llm, ask);
      var rest := AllChunkRecords(chunks[1..], llm, ask);
      if first.None? || rest.None? then None else Some(first.value + rest.value)
  }

  /** The structurer with every chunk sent, each retried until a reply decodes. */
  function Structure(text: string, available: bool, llm: Llm, ask: Resolver): seq<Mcq> {
    if !available then []
    else
      var all := AllChunkRecords(Chunks(text), llm, ask);
      if all.None? then [] else Unique(all.value, AnyQuestion)
  }

  /** Every chunk is sent: the records of a 3000-character head come before those of the rest. */
  lemma StructureSendsHead(x: string, y: string, llm: Llm, ask: Resolver)
    requires |x| == ChunkSize && y != []
    ensures AllChunkRecords(Chunks(x + y), llm, ask)
         == var h, r := ChunkRecords(x, 0, llm, ask), AllChunkRecords(Chunks(y), llm, ask);
            if h.None? || r.None? then None else Some(h.value + r.value)
  {
    ChunksAfterFirst(x, y);
    assert ([x] + Chunks(y))[1..] == Chunks(y);
  }

  /** A reply with no items, on every attempt, adds nothing. */
  lemma EmptyRepliesTried(y: string, llm: Llm, ask: Resolver)
    requires llm(y, 0) == Items([]) && llm(y, 1) == Items([]) && llm(y, 2) == Items([])
    ensures Tried(y, Attempts, llm, ask) == Some([])
  {
    var none: seq<Mcq> := [];
    assert none + ItemsRecords([], ask, AsWritten) == none;
    assert Tried(y, 1, llm, ask) == Some(none);
    assert Tried(y, 2, llm, ask) == Some(none);
  }

  /** The one record of a one-item reply. */
  lemma OneItemRecords(item: RawItem, ask: Resolver)
    requires ItemRecord(item, ask).Some?
    ensures ItemsRecords([item], ask, Corrected) == [ItemRecord(item, ask).value]
  {
    assert [item][..0] == [];
  }

  /** A one-record list survives the dedup. */
  lemma UniqueOne(m: Mcq)
    requires Strip(m.question) != []
    ensures Unique([m], AnyQuestion) == [m]
  {
    assert [m][..0] == [];
  }

  /** As written, a reply for the first chunk never counts when the last chunk gets empty replies. */
  lemma AsWrittenLosesHead(x: string, y: string, llm: Llm, ask: Resolver)
    requires |x| == ChunkSize && 0 < |y| <= ChunkSize
    requires llm(y, 0) == Items([]) && llm(y, 1) == Items([]) && llm(y, 2) == Items([])
    ensures AsWrittenStructure(x + y, true, llm, ask) == []
  {
    AsWrittenIgnoresHead(x, y, true, llm, ask);
    assert Chunks(y) == [y];
    EmptyRepliesTried(y, llm, ask);
  }

  /** With every chunk sent, the first chunk's record is kept. */
  lemma StructureKeepsHead(x: string, y: string, item: RawItem, llm: Llm, ask: Resolver)
    requires |x| == ChunkSize && 0 < |y| <= ChunkSize
    requires llm(x, 0) == Items([item]) && ItemRecord(item, ask).Some?
    requires llm(y, 0) == Items([])
    ensures Structure(x + y, true, llm, ask) == [ItemRecord(item, ask).value]
  {
    var m := ItemRecord(item, ask).value;
    var none: seq<Mcq> := [];
    StructureSendsHead(x, y, llm, ask);
    assert Chunks(y) == [y];
    OneItemRecords(item, ask);
    assert ChunkRecords(x, 0, llm, ask) == Some([m]);
    assert ItemsRecords([], ask, Corrected) == none;
    assert ChunkRecords(y, 0, llm, ask) == Some(none);
    assert AllChunkRecords([y], llm, ask) == Some(none) by {
      assert [y][1..] == [];
      assert none + none == none;
    }
    assert [m] + none == [m];
    ItemRecordSound(item, ask, Corrected);
    StripOfTrimmed(m.question);
    UniqueOne(m);
  }

  /** The records of the retry loop as written are sound as written. */
  lemma {:induction false} TriedSound(chunk: string, n: nat, llm: Llm, ask: Resolver)
    ensures Tried(chunk, n, llm, ask).Some? ==>
      forall k :: 0 <= k < |Tried(chunk, n, llm, ask).value| ==> Sound(Tried(chunk, n, llm, ask).value[k], AsWritten)
  {
    if n > 0 {
      TriedSound(chunk, n - 1, llm, ask);
      if llm(chunk, n - 1).Items? {
        ItemsRecordsSound(llm(chunk, n - 1).items, ask, AsWritten);
      }
    }
  }

  lemma {:induction false} ChunkRecordsSound(chunk: string, a: nat, llm: Llm, ask: Resolver)
    ensures ChunkRecords(chunk, a, llm, ask).Some? ==>
      forall k :: 0 <= k < |ChunkRecords(chunk, a, llm, ask).value| ==> Sound(ChunkRecords(chunk, a, llm, ask).value[k], Corrected)
    decreases Attempts - a
  {
    if a < Attempts {
      ChunkRecordsSound(chunk, a + 1, llm, ask);
      if llm(chunk, a).Items? {
        ItemsRecordsSound(llm(chunk, a).items, ask, Corrected);
      }
    }
  }

  lemma {:induction false} AllChunkRecordsSound(chunks: seq<string>, llm: Llm, ask: Resolver)
    ensures AllChunkRecords(chunks, llm, ask).Some? ==>
      forall k :: 0 <= k < |AllChunkRecords(chunks, llm, ask).value| ==> Sound(AllChunkRecords(chunks, llm, ask).value[k], Corrected)
  {
    if chunks != [] {
      ChunkRecordsSound(chunks[0], 0, llm, ask);
      AllChunkRecordsSound(chunks[1..], llm, ask);
    }
  }

  /** A record kept by the dedup is one of its input records. */
  lemma {:induction false} UniqueFrom(ms: seq<Mcq>, a: Admission, k: nat)
    requires k < |Unique(ms, a)|
    ensures Unique(ms, a)[k] in ms
  {
    var u := Unique(ms[..|ms| - 1], a);
    if k < |u| {
      UniqueFrom(ms[..|ms| - 1], a, k);
      assert ms[..|ms| - 1] <= ms;
    }
  }

  /** Every record of the structurer is sound, and no two share a dedup key. */
  lemma StructureSound(text: string, available: bool, llm: Llm, ask: Resolver)
    ensures var r := Structure(text, available, llm, ask);
      && (forall k :: 0 <= k < |r| ==> Sound(r[k], Corrected))
      && (forall i, j :: 0 <= i < j < |r| ==> Key(r[i].question) != Key(r[j].question))
  {
    if available {
      var all := AllChunkRecords(Chunks(text), llm, ask);
      if all.Some? {
        AllChunkRecordsSound(Chunks(text), llm, ask);
        UniqueDistinct(all.value, AnyQuestion);
        forall k | 0 <= k < |Unique(all.value, AnyQuestion)| ensures Sound(Unique(all.value, AnyQuestion)[k], Corrected) {
          UniqueFrom(all.value, AnyQuestion, k);
        }
      }
    }
  }

  // ----- the structurer as written -----

  /** The option-cleaning loop of one item. */
  method CleanItemOptions(rawOptions: seq<string>) returns (cleaned: seq<string>)
    ensures cleaned == CleanOptions(rawOptions)
  {
    cleaned := [];
    var k := 0;
    while k < |rawOptions|
      invariant k <= |rawOptions|
      invariant cleaned == CleanOptions(rawOptions[..k])
    {
      assert rawOptions[..k + 1][..k] == rawOptions[..k];
      var opt := CleanOption(Strip(rawOptions[k]));
      if opt != [] {
        cleaned := cleaned + [opt];
      }
      k := k + 1;
    }
    assert rawOptions[..k] == rawOptions;
  }

  /** The item loop of one reply: skipped items are dropped. */
  method RecordsOfItems(items: seq<RawItem>, ask: Resolver) returns (questions: seq<Mcq>)
    ensures questions == ItemsRecords(items, ask, AsWritten)
  {
    questions := [];
    var k := 0;
    while k < |items|
      invariant k <= |items|
      invariant questions == ItemsRecords(items[..k], ask, AsWritten)
    {
      assert items[..k + 1][..k] == items[..k];
      var r := RecordOfItem(items[k], ask);
      if r.Some? {
        questions := questions + [r.value];
      }
      k := k + 1;
    }
    assert items[..k] == items;
  }

  /** One item as written; `None` when it is skipped. */
  method RecordOfItem(item: RawItem, ask: Resolver) returns (r: Option<Mcq>)
    ensures r == AsWrittenItemRecord(item, ask)
  {
    if item.NonObject? {
      return None;
    }
    var qText := Strip(item.question);
    var options := CleanItemOptions(item.options);
    if qText == [] || |options| < 2 {
      return None;
    }
    var correct := ValidIndex(Either(item.correctOption, item.correct), |options|);
    if correct.None? {
      var call := Identify(ask(qText, options), |options|);
      if call.Failure? {
        return None;
      }
      correct := Some(if call.value.Some? then call.value.value else 0);
    }
    r := Some(Mcq(qText, FirstTen(options), correct, item.explanation, None));
  }

  /** The retry loop as written, over the last chunk, then the cross-chunk dedup. */
  method StructureAsWritten(text: string, available: bool, llm: Llm, ask: Resolver) returns (result: seq<Mcq>)
    ensures result == AsWrittenStructure(text, available, llm, ask)
  {
    var chunks := Chunks(text);
    if !available || chunks == [] {
      return [];
    }
    var prompt := chunks[|chunks| - 1];
    assert LastChunk(text) == Some(prompt);
    var allQuestions: seq<Mcq> := [];
    var attempt := 0;
    while attempt < Attempts
      invariant attempt <= Attempts
      invariant Tried(prompt, attempt, llm, ask) == Some(allQuestions)
    {
      var reply := llm(prompt, attempt);
      match reply {
        case Items(items) =>
          var questions := RecordsOfItems(items, ask);
          allQuestions := allQuestions + questions;
        case Unparsable =>
        case Crashed =>
          if attempt == Attempts - 1 {
            return [];
          }
      }
      attempt := attempt + 1;
    }
    result := DedupByKey(allQuestions, AnyQuestion);
  }
}
