/** `detect_paper_type` (backend/extractor.py:67-78): ordered keyword sniffing. */
module Classify {
  import opened Strings

  datatype PaperType = Physics | English | Mathematics | General

  const PhysicsWords: seq<string> := ["physics", "simple harmonic", "acceleration"]
  const EnglishWords: seq<string> := ["english", "listening", "reading"]
  const MathWords: seq<string> := ["mathematics", "algebra"]

  /**
   * The first keyword group with a hit in the lower-cased text decides: physics before
   * english before mathematics; no hit at all gives GENERAL.
   */
  function DetectPaperType(text: string): (r: PaperType)
    ensures r == Physics <==> ContainsAny(Lower(text), PhysicsWords)
    ensures r == English <==> !ContainsAny(Lower(text), PhysicsWords) && ContainsAny(Lower(text), EnglishWords)
    ensures r == Mathematics <==>
      !ContainsAny(Lower(text), PhysicsWords) && !ContainsAny(Lower(text), EnglishWords)
      && ContainsAny(Lower(text), MathWords)
  {
    var l := Lower(text);
    AnyOfThree(l, PhysicsWords);
    AnyOfThree(l, EnglishWords);
    AnyOfTwo(l, MathWords);
    if Contains(l, "physics") || Contains(l, "simple harmonic") || Contains(l, "acceleration") then Physics
    else if Contains(l, "english") || Contains(l, "listening") || Contains(l, "reading") then English
    else if Contains(l, "mathematics") || Contains(l, "algebra") then Mathematics
    else General
  }

  lemma AnyOfThree(s: string, kws: seq<string>)
    requires |kws| == 3
    ensures ContainsAny(s, kws) <==> Contains(s, kws[0]) || Contains(s, kws[1]) || Contains(s, kws[2])
  {
    if Contains(s, kws[0]) { assert 0 < |kws|; }
    if Contains(s, kws[1]) { assert 1 < |kws|; }
    if Contains(s, kws[2]) { assert 2 < |kws|; }
  }

  lemma AnyOfTwo(s: string, kws: seq<string>)
    requires |kws| == 2
    ensures ContainsAny(s, kws) <==> Contains(s, kws[0]) || Contains(s, kws[1])
  {
    if Contains(s, kws[0]) { assert 0 < |kws|; }
    if Contains(s, kws[1]) { assert 1 < |kws|; }
  }

  lemma {:induction false} LowerIdempotent(s: string)
    ensures Lower(Lower(s)) == Lower(s)
  {
    var l := Lower(s);
    forall k | 0 <= k < |s|
      ensures Lower(l)[k] == l[k]
    {
      assert l[k] == LowerChar(s[k]);
    }
  }

  /** The keywords are lower case and the text is lowered first: the case of the input never matters. */
  lemma {:induction false} DetectIgnoresCase(text: string)
    ensures DetectPaperType(Lower(text)) == DetectPaperType(text)
  {
    LowerIdempotent(text);
  }

  /** GENERAL exactly when no keyword of any group occurs. */
  lemma {:induction false} GeneralIffNoKeyword(text: string)
    ensures DetectPaperType(text) == General <==>
      (forall g :: g in [PhysicsWords, EnglishWords, MathWords] ==> !ContainsAny(Lower(text), g))
  {
    var all := [PhysicsWords, EnglishWords, MathWords];
    assert all[0] == PhysicsWords && all[1] == EnglishWords && all[2] == MathWords;
  }
}
