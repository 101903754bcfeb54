/**
 * Turning the language model's reply into an option index
 * (`identify_correct_answer_with_groq`, backend/extractor.py:1276-1344).
 * The network call is an oracle: the caller supplies what the call came back with.
 */
module Answers {
  import opened Wrappers
  import opened Strings

  /**
   * What one call of the resolver came to: the `groq` import raised (the exception
   * escapes to the caller), the call returned `None` (no API key, a rate limit or
   * another API error), or the model replied with some text.
   */
  datatype ResolverCall = ImportFailed | NoReply | Reply(text: string)

  /** The resolver as the parsers see it: question and options in, a call outcome out. */
  type Resolver = (string, seq<string>) -> ResolverCall

  predicate IsAsciiLetter(c: char) { IsUpper(c) || IsLowerLetter(c) }

  /** `\w` on ASCII: letters, digits and underscore. */
  predicate IsWordChar(c: char) { IsAsciiLetter(c) || IsDigit(c) || c == '_' }

  /** The letter naming option `i`: 'A' for 0, 'B' for 1, ... */
  function IndexLetter(i: nat): (c: char)
    requires i < 26
    ensures IsUpper(c)
  {
    ('A' as int + i) as char
  }

  /**
   * `idx = ord(letter.upper()) - ord('A')`, kept only when `0 <= idx < len(options)`.
   */
  function LetterToIndex(c: char, n: nat): (r: Option<nat>)
    ensures r.Some? ==> r.value < n && r.value < 26 && UpperChar(c) == IndexLetter(r.value)
  {
    var idx := UpperChar(c) as int - 'A' as int;
    if 0 <= idx < n && idx < 26 then Some(idx) else None
  }

  /** The mapping is exact: option `i` is named by exactly one upper-case letter. */
  lemma LetterIndexRoundTrip(i: nat, n: nat)
    requires i < 26
    ensures LetterToIndex(IndexLetter(i), n) == (if i < n then Some(i) else None)
  {
  }

  /** `re.search(r'ANSWER:\s*([A-Z])', s, re.IGNORECASE)` from position `p` on. */
  function TaggedLetter(s: string, p: nat): (r: Option<char>)
    ensures r.Some? ==> IsAsciiLetter(r.value)
    decreases |s| - p
  {
    if p + 7 > |s| then None
    else if Lower(s[p..p + 7]) == "answer:" then
      var q := SkipSpaces(s, p + 7);
      if q < |s| && IsAsciiLetter(s[q]) then Some(s[q]) else TaggedLetter(s, p + 1)
    else TaggedLetter(s, p + 1)
  }

  /** `\b([A-Z])\b` holds at position `p`: a lone upper-case letter. */
  predicate LoneCapitalAt(s: string, p: nat) {
    && p < |s|
    && IsUpper(s[p])
    && (p == 0 || !IsWordChar(s[p - 1]))
    && (p + 1 == |s| || !IsWordChar(s[p + 1]))
  }

  /** `re.search(r'\b([A-Z])\b', s)` from position `p` on. */
  function LoneCapital(s: string, p: nat): (r: Option<char>)
    ensures r.Some? ==> IsUpper(r.value) && exists k :: p <= k < |s| && LoneCapitalAt(s, k) && s[k] == r.value
    decreases |s| - p
  {
    if p >= |s| then None
    else if LoneCapitalAt(s, p) then Some(s[p])
    else LoneCapital(s, p + 1)
  }

  /** The letter the reply names: the tagged form first, a lone capital otherwise. */
  function ReplyLetter(response: string): Option<char> {
    var s := Strip(response);
    var tagged := TaggedLetter(s, 0);
    if tagged.Some? then tagged else LoneCapital(s, 0)
  }

  /** What the resolver returns for a question with `n` options; `Failure` is a raise. */
  function Identify(call: ResolverCall, n: nat): (r: Result<Option<nat>, string>)
    ensures r.Failure? <==> call.ImportFailed?
    ensures r.Success? && r.value.Some? ==> r.value.value < n
    ensures call.NoReply? ==> r == Success(None)
  {
    match call
    case ImportFailed => Failure("No module named 'groq'")
    case NoReply => Success(None)
    case Reply(text) =>
      var letter := ReplyLetter(text);
      if letter.None? then Success(None) else Success(LetterToIndex(letter.value, n))
  }

  /** `Identify` where an exception is swallowed and becomes `None`, as the parsers do. */
  function IdentifyOrNone(call: ResolverCall, n: nat): (r: Option<nat>)
    ensures r.Some? ==> r.value < n
    ensures call.ImportFailed? ==> r == None
  {
    var res := Identify(call, n);
    if res.Success? then res.value else None
  }

  lemma LowerTag()
    ensures Lower("ANSWER:") == "answer:"
  {
    var l := Lower("ANSWER:");
    assert l[0] == 'a' && l[1] == 'n' && l[2] == 's' && l[3] == 'w';
    assert l[4] == 'e' && l[5] == 'r' && l[6] == ':';
  }

  lemma {:induction false} TaggedLetterAtStart(s: string, c: char)
    requires s == "ANSWER: " + [c] && IsAsciiLetter(c)
    ensures TaggedLetter(s, 0) == Some(c)
  {
    assert s[0..7] == "ANSWER:";
    LowerTag();
    assert SkipSpaces(s, 8) == 8;
    assert SkipSpaces(s, 7) == 8;
  }

  /** A reply in the requested form `ANSWER: X` is read back as option X. */
  lemma {:induction false} AnswerReplyRoundTrip(i: nat, n: nat)
    requires i < n && i < 26
    ensures Identify(Reply("ANSWER: " + [IndexLetter(i)]), n) == Success(Some(i))
  {
    var s := "ANSWER: " + [IndexLetter(i)];
    assert s[|s| - 1] == IndexLetter(i);
    assert RStrip(s) == s;
    assert LStrip(s) == s;
    assert Strip(s) == s;
    assert s[..7] == "ANSWER:";
    TaggedLetterAtStart(s, IndexLetter(i));
    LetterIndexRoundTrip(i, n);
  }
}
