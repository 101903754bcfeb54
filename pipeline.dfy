/**
 * The body of `extract_questions_from_pdf` once the PDF has become text
 * (backend/extractor.py:825-932): clean the text, route it to a specialised parser by
 * paper type, fall back to the language-model structurer and then to the primary line
 * parser, dedup and filter that parser's records, resolve their missing answers and
 * attach the page images by list position.
 *
 * The text, the images by page, the structurer's oracle and the answer resolver are
 * parameters; reading the PDF, OCR and image extraction are not part of this model.
 */
module Pipeline {
  import opened Wrappers
  import opened Strings
  import opened Records
  import opened Answers
  import opened Dedup
  import Normalize
  import Classify
  import EnglishParser
  import PhysicsParser
  import LineParser
  import Structurer

  /** A stage's records are accepted when there are at least this many. */
  const Enough := 5

  // ----- images -----

  /** The record at position `i` gets the image of page `i`, when there is one. */
  function AttachImage(m: Mcq, i: nat, images: map<nat, Image>): Mcq {
    if i in images then m.(image := Some(images[i])) else m
  }

  /** The records with the page images attached by position. */
  function AttachImages(ms: seq<Mcq>, images: map<nat, Image>): (r: seq<Mcq>)
    ensures |r| == |ms|
  {
    seq(|ms|, i requires 0 <= i < |ms| => AttachImage(ms[i], i, images))
  }

  /** Attaching images changes nothing but the image of the records on pages that have one. */
  lemma AttachImagesSpec(ms: seq<Mcq>, images: map<nat, Image>)
    ensures forall i :: 0 <= i < |ms| ==>
      && AttachImages(ms, images)[i] == ms[i].(image := AttachImages(ms, images)[i].image)
      && AttachImages(ms, images)[i].image == (if i in images then Some(images[i]) else ms[i].image)
  {
  }

  /** The image loop as written: each record on a page with an image is updated in place. */
  method AttachPageImages(ms: seq<Mcq>, images: map<nat, Image>) returns (out: seq<Mcq>)
    ensures out == AttachImages(ms, images)
  {
    out := ms;
    var i := 0;
    while i < |out|
      invariant i <= |out| == |ms|
      invariant forall k :: 0 <= k < i ==> out[k] == AttachImage(ms[k], k, images)
      invariant forall k :: i <= k < |out| ==> out[k] == ms[k]
    {
      if i in images {
        out := out[i := out[i].(image := Some(images[i]))];
      }
      i := i + 1;
    }
  }

  // ----- answers -----

  /**
   * One record's answer after the resolution loop: a missing or out-of-range answer is
   * replaced by what the resolver says (possibly `None`), or by 0 when it raises.
   */
  function ResolveAnswer(m: Mcq, ask: Resolver): Mcq {
    if m.correctOption.None? || m.correctOption.value >= |m.options| then
      match Identify(ask(m.question, m.options), |m.options|)
      case Failure(_) => m.(correctOption := Some(0))
      case Success(r) => m.(correctOption := r)
    else m
  }

  function ResolveAnswers(ms: seq<Mcq>, ask: Resolver): (r: seq<Mcq>)
    ensures |r| == |ms|
  {
    seq(|ms|, i requires 0 <= i < |ms| => ResolveAnswer(ms[i], ask))
  }

  /**
   * Resolution changes only answers, keeps an answer that names an option, and leaves every
   * answer naming an option or missing; a resolver that raises gives 0.
   */
  lemma ResolveAnswerSpec(m: Mcq, ask: Resolver)
    requires m.options != []
    ensures var r := ResolveAnswer(m, ask);
      && r == m.(correctOption := r.correctOption)
      && (m.correctOption.Some? && m.correctOption.value < |m.options| ==> r == m)
      && (r.correctOption.Some? ==> r.correctOption.value < |m.options|)
      && (m.correctOption.None? && ask(m.question, m.options).ImportFailed? ==> r.correctOption == Some(0))
  {
  }

  /** The resolution loop as written, updating each record in place. */
  method ResolveMissingAnswers(ms: seq<Mcq>, ask: Resolver) returns (out: seq<Mcq>)
    ensures out == ResolveAnswers(ms, ask)
  {
    out := ms;
    var i := 0;
    while i < |out|
      invariant i <= |out| == |ms|
      invariant forall k :: 0 <= k < i ==> out[k] == ResolveAnswer(ms[k], ask)
      invariant forall k :: i <= k < |out| ==> out[k] == ms[k]
    {
      var m := out[i];
      if m.correctOption.None? || m.correctOption.value >= |m.options| {
        var call := Identify(ask(m.question, m.options), |m.options|);
        if call.Failure? {
          out := out[i := m.(correctOption := Some(0))];
        } else {
          out := out[i := m.(correctOption := call.value)];
        }
      }
      i := i + 1;
    }
  }

  // ----- the cascade -----

  /** The specialised parser the paper type picks: English papers get the English parser, all others the physics parser. */
  function Specialised(text: string, ask: Resolver): seq<Mcq> {
    if Classify.DetectPaperType(text) == Classify.English then EnglishParser.Parse(text, ask)
    else PhysicsParser.Parse(text, ask)
  }

  /** The last stage: the primary parser's records, deduplicated and filtered, with answers resolved. */
  function LastStage(text: string, ask: Resolver): seq<Mcq> {
    ResolveAnswers(Unique(LineParser.Parse(text, AsWritten), WellFormedQuestion), ask)
  }

  /**
   * The whole cascade on the extracted text, with the structurer and the primary parser as
   * the program has them. `available` and `llm` are the structurer's API key and oracle,
   * `ask` the answer resolver, `images` the images by page.
   */
  function Extract(raw: string, images: map<nat, Image>, available: bool, llm: Structurer.Llm, ask: Resolver): seq<Mcq> {
    if Strip(raw) == [] then []
    else
      var text := Normalize.CleanText(raw);
      var first := Specialised(text, ask);
      if |first| >= Enough then AttachImages(first, images)
      else
        var second := Structurer.AsWrittenStructure(text, available, llm, ask);
        if |second| >= Enough then AttachImages(second, images)
        else AttachImages(LastStage(text, ask), images)
  }

  /** A specialised parser that finds five records settles the result: the structurer and the primary parser are never consulted. */
  lemma EarlyAcceptance(raw: string, images: map<nat, Image>, available: bool, llm: Structurer.Llm, available2: bool, llm2: Structurer.Llm, ask: Resolver)
    requires Strip(raw) != [] && |Specialised(Normalize.CleanText(raw), ask)| >= Enough
    ensures Extract(raw, images, available, llm, ask) == Extract(raw, images, available2, llm2, ask)
    ensures Extract(raw, images, available, llm, ask) == AttachImages(Specialised(Normalize.CleanText(raw), ask), images)
  {
  }

  /** When neither the specialised parser nor the structurer finds five records, the result is the last stage's. */
  lemma FallsThrough(raw: string, images: map<nat, Image>, available: bool, llm: Structurer.Llm, ask: Resolver)
    requires Strip(raw) != []
    requires |Specialised(Normalize.CleanText(raw), ask)| < Enough
    requires |Structurer.AsWrittenStructure(Normalize.CleanText(raw), available, llm, ask)| < Enough
    ensures Extract(raw, images, available, llm, ask) == AttachImages(LastStage(Normalize.CleanText(raw), ask), images)
  {
  }

  /**
   * The last stage's records have well-formed, pairwise distinct questions, come from the
   * primary parser in order, and name an option or none: the resolution step re-resolves
   * every answer the parser as written leaves beyond the stored options.
   */
  lemma LastStageSound(text: string, ask: Resolver)
    ensures var r := LastStage(text, ask);
      && |r| <= |LineParser.Parse(text, AsWritten)|
      && (forall k :: 0 <= k < |r| ==> Admits(WellFormedQuestion, r[k].question))
      && (forall i, j :: 0 <= i < j < |r| ==> Key(r[i].question) != Key(r[j].question))
      && (forall k :: 0 <= k < |r| ==> 2 <= |r[k].options| <= 5)
      && (forall k :: 0 <= k < |r| ==> r[k].correctOption.Some? ==> r[k].correctOption.value < |r[k].options|)
  {
    var parsed := LineParser.Parse(text, AsWritten);
    var u := Unique(parsed, WellFormedQuestion);
    UniqueDistinct(parsed, WellFormedQuestion);
    UniqueIsFirsts(parsed, WellFormedQuestion);
    FirstsWithin(parsed, WellFormedQuestion);
    LineParser.ParseSound(text, AsWritten);
    forall k | 0 <= k < |u| ensures 2 <= |u[k].options| <= 5 {
      var j :| 0 <= j < |parsed| && u[k] == parsed[j];
      assert LineParser.Sound(parsed[j], AsWritten);
    }
    ResolveAnswersSound(u, ask);
  }

  /** Resolving the answers of records that all have options keeps everything but the answers, and every answer names an option or none. */
  lemma ResolveAnswersSound(ms: seq<Mcq>, ask: Resolver)
    requires forall k :: 0 <= k < |ms| ==> ms[k].options != []
    ensures forall k :: 0 <= k < |ms| ==>
      && ResolveAnswers(ms, ask)[k] == ms[k].(correctOption := ResolveAnswers(ms, ask)[k].correctOption)
      && (ResolveAnswers(ms, ask)[k].correctOption.Some? ==> ResolveAnswers(ms, ask)[k].correctOption.value < |ms[k].options|)
  {
    forall k | 0 <= k < |ms| ensures
      && ResolveAnswers(ms, ask)[k] == ms[k].(correctOption := ResolveAnswers(ms, ask)[k].correctOption)
      && (ResolveAnswers(ms, ask)[k].correctOption.Some? ==> ResolveAnswers(ms, ask)[k].correctOption.value < |ms[k].options|)
    {
      ResolveAnswerSpec(ms[k], ask);
    }
  }

  /** Every record of `Firsts` is one of its input records, and there are no more of them. */
  lemma {:induction false} FirstsWithin(ms: seq<Mcq>, a: Admission)
    ensures |Firsts(ms, a)| <= |ms|
    ensures forall k :: 0 <= k < |Firsts(ms, a)| ==> exists j :: 0 <= j < |ms| && Firsts(ms, a)[k] == ms[j]
  {
    if ms != [] {
      var init := ms[..|ms| - 1];
      FirstsWithin(init, a);
      forall k | 0 <= k < |Firsts(ms, a)| ensures exists j :: 0 <= j < |ms| && Firsts(ms, a)[k] == ms[j] {
        if k < |Firsts(init, a)| {
          var j :| 0 <= j < |init| && Firsts(init, a)[k] == init[j];
          assert ms[j] == init[j];
        } else {
          assert Firsts(ms, a)[k] == ms[|ms| - 1];
        }
      }
    }
  }

  // ----- the cascade as written -----

  method ExtractQuestions(raw: string, images: map<nat, Image>, available: bool, llm: Structurer.Llm, ask: Resolver) returns (mcqs: seq<Mcq>)
    ensures mcqs == Extract(raw, images, available, llm, ask)
  {
    if Strip(raw) == [] {
      return [];
    }
    var text := Normalize.CleanText(raw);
    var extracted: seq<Mcq>;
    if Classify.DetectPaperType(text) == Classify.English {
      extracted := EnglishParser.ParseMcqs(text, ask);
    } else {
      extracted := PhysicsParser.ParseMcqs(text, ask);
    }
    if |extracted| >= Enough {
      mcqs := AttachPageImages(extracted, images);
      return;
    }
    var structured := Structurer.StructureAsWritten(text, available, llm, ask);
    if |structured| >= Enough {
      mcqs := AttachPageImages(structured, images);
      return;
    }
    var parsed := LineParser.ParseMcqs(text);
    var unique := DedupByKey(parsed, WellFormedQuestion);
    var resolved := ResolveMissingAnswers(unique, ask);
    mcqs := AttachPageImages(resolved, images);
  }
}
