/**
 * Options written inline after the stem, as in "Stem text A. one B. two C. three".
 * This is the block step shared by both physics parsers and the English parser
 * (backend/extractor.py:181-203 and 305-328, backend/improved_physics_parser.py:80-103):
 * `re.finditer(r'([A-D])\.\s*([^A-D]*?)(?=(?:[A-D]\.|$))', block)`, the stem before the
 * first match, and the option clean-up.
 */
module EmbeddedOptions {
  import opened Wrappers
  import opened Strings

  /** `[A-D]`: the letters that open an inline option. */
  predicate IsChoiceLetter(c: char) { 'A' <= c <= 'D' }

  predicate NoChoiceLetter(s: string) {
    forall k :: 0 <= k < |s| ==> !IsChoiceLetter(s[k])
  }

  /**
   * The furthest `[^A-D]*?` can reach from `q`: the first choice letter at or after `q`,
   * or the end of the block.
   */
  function NextStop(s: string, q: nat): (f: nat)
    requires q <= |s|
    ensures q <= f <= |s|
    ensures f < |s| ==> IsChoiceLetter(s[f])
    ensures forall k :: q <= k < f ==> !IsChoiceLetter(s[k])
    decreases |s| - q
  {
    if q < |s| && !IsChoiceLetter(s[q]) then NextStop(s, q + 1) else q
  }

  /**
   * The pattern matches at `p`: a choice letter and a period, and the lazy body can stop
   * where the lookahead holds. Since the body cannot cross a choice letter, the only
   * candidate stop is `NextStop`, which must be the end or a letter followed by '.'.
   * (The block has no newline, so `$` is the end of the block.)
   */
  predicate MatchAt(s: string, p: nat) {
    && p + 1 < |s| && IsChoiceLetter(s[p]) && s[p + 1] == '.'
    && var f := NextStop(s, p + 2); f == |s| || (f + 1 < |s| && s[f + 1] == '.')
  }

  /** One match: where it starts, group 1 and group 2. */
  datatype OptionMatch = OptionMatch(start: nat, letter: char, body: string)

  lemma SkipWithinStop(s: string, q: nat)
    requires q <= |s|
    ensures SkipSpaces(s, q) <= NextStop(s, q)
  {
    var f := NextStop(s, q);
    if f < |s| {
      assert !IsSpace(s[f]);
    }
  }

  /** `re.finditer` from position `p`: the next match starts the search at its end. */
  function FindAll(s: string, p: nat): (r: seq<OptionMatch>)
    requires p <= |s|
    ensures forall i :: 0 <= i < |r| ==> p <= r[i].start < |s| && IsChoiceLetter(r[i].letter)
    ensures forall i :: 0 <= i < |r| ==> NoChoiceLetter(r[i].body)
    decreases |s| - p
  {
    if p == |s| then []
    else if MatchAt(s, p) then
      var f := NextStop(s, p + 2);
      SkipWithinStop(s, p + 2);
      [OptionMatch(p, s[p], s[SkipSpaces(s, p + 2)..f])] + FindAll(s, f)
    else FindAll(s, p + 1)
  }

  /** The first match is the leftmost position where the pattern matches. */
  lemma {:induction false} FindAllLeftmost(s: string, p: nat)
    requires p <= |s|
    ensures FindAll(s, p) != [] ==> MatchAt(s, FindAll(s, p)[0].start)
    ensures FindAll(s, p) != [] ==> forall k :: p <= k < FindAll(s, p)[0].start ==> !MatchAt(s, k)
    ensures FindAll(s, p) == [] ==> forall k :: p <= k < |s| ==> !MatchAt(s, k)
    decreases |s| - p
  {
    if p < |s| && !MatchAt(s, p) {
      FindAllLeftmost(s, p + 1);
    }
  }

  /** `opt.strip()`, then `re.sub(r'\s+', ' ', ...)`, then `rstrip('.')`. */
  function OptionText(body: string): string {
    RStripChar(Collapse(Strip(body)), '.')
  }

  /** `len(opt_text) > 2 and len(opt_text) < 200`. */
  predicate KeepOption(t: string) { 2 < |t| < 200 }

  /** A cleaned option: no choice letter and no trailing period. */
  predicate CleanOption(t: string) {
    NoChoiceLetter(t) && (t == [] || t[|t| - 1] != '.')
  }

  /** Cleaning never brings back a choice letter, and always removes trailing periods. */
  lemma {:induction false} OptionTextClean(body: string)
    requires NoChoiceLetter(body)
    ensures CleanOption(OptionText(body))
  {
    var st := Strip(body);
    StripSlice(body);
    var a := StripStart(body);
    assert forall k :: 0 <= k < |st| ==> st[k] == body[a + k];
    var c := Collapse(st);
    CollapseChars(st);
    forall k | 0 <= k < |c| ensures !IsChoiceLetter(c[k]) {
      assert c[k] in c;
      if c[k] != ' ' {
        var j :| 0 <= j < |st| && st[j] == c[k];
      }
    }
    var r := OptionText(body);
    assert forall k :: 0 <= k < |r| ==> r[k] == c[k];
  }

  /** The loop over the matches: clean every option and keep those of acceptable length. */
  function KeptOptions(ms: seq<OptionMatch>): (r: seq<string>)
    requires forall i :: 0 <= i < |ms| ==> NoChoiceLetter(ms[i].body)
    ensures |r| <= |ms|
    ensures forall i :: 0 <= i < |r| ==> KeepOption(r[i]) && CleanOption(r[i])
  {
    if ms == [] then []
    else
      var last := ms[|ms| - 1];
      var t := OptionText(last.body);
      OptionTextClean(last.body);
      KeptOptions(ms[..|ms| - 1]) + (if KeepOption(t) then [t] else [])
  }

  /** `options[:4]`. */
  function AtMostFour(opts: seq<string>): (r: seq<string>)
    ensures |r| == if |opts| <= 4 then |opts| else 4
    ensures forall i :: 0 <= i < |r| ==> r[i] == opts[i]
  {
    if |opts| <= 4 then opts else opts[..4]
  }

  /** The question and the options (at most four) a block yields. */
  datatype Draft = Draft(question: string, options: seq<string>)

  /** What every draft satisfies. */
  predicate WellFormed(d: Draft) {
    && d.question != [] && NoEdgeSpace(d.question)
    && 2 <= |d.options| <= 4
    && forall i :: 0 <= i < |d.options| ==> KeepOption(d.options[i]) && CleanOption(d.options[i])
  }

  /** The record built from the text before the first match and the matches themselves. */
  function DraftFrom(prefix: string, ms: seq<OptionMatch>): (r: Option<Draft>)
    requires forall i :: 0 <= i < |ms| ==> NoChoiceLetter(ms[i].body)
    ensures r.Some? ==> WellFormed(r.value)
    ensures r.Some? ==> r.value.question == Strip(prefix)
  {
    var q := Strip(prefix);
    var opts := KeptOptions(ms);
    StripNoEdge(prefix);
    if q != [] && |opts| >= 2 then Some(Draft(q, AtMostFour(opts))) else None
  }

  /**
   * At least two matches; the stem is the stripped text before the first one; at least
   * two options survive the length filter; at most four are kept.
   */
  function DraftOf(block: string): (r: Option<Draft>)
    ensures r.Some? ==> WellFormed(r.value)
    ensures r.Some? ==> exists a :: StemBefore(block, a, r.value.question)
  {
    var ms := FindAll(block, 0);
    FindAllLeftmost(block, 0);
    if |ms| < 2 then None
    else
      var r := DraftFrom(block[..ms[0].start], ms);
      assert r.Some? ==> StemBefore(block, ms[0].start, r.value.question);
      r
  }

  /** The `for match in option_matches` loop: clean each option, keep it when its length fits. */
  method CleanOptions(ms: seq<OptionMatch>) returns (options: seq<string>)
    requires forall i :: 0 <= i < |ms| ==> NoChoiceLetter(ms[i].body)
    ensures options == KeptOptions(ms)
  {
    options := [];
    var k := 0;
    while k < |ms|
      invariant k <= |ms|
      invariant options == KeptOptions(ms[..k])
    {
      var t := OptionText(ms[k].body);
      assert ms[..k + 1][..k] == ms[..k];
      if KeepOption(t) {
        options := options + [t];
      }
      k := k + 1;
    }
    assert ms[..k] == ms;
  }

  /**
   * The option step as the parsers run it: find the matches, take the stem before the
   * first one, clean the options, and keep the first four when there are at least two.
   */
  method ReadDraft(block: string) returns (d: Option<Draft>)
    ensures d == DraftOf(block)
  {
    var ms := FindAll(block, 0);
    if |ms| < 2 {
      return None;
    }
    var options := CleanOptions(ms);
    var question := Strip(block[..ms[0].start]);
    if question != [] && |options| >= 2 {
      d := Some(Draft(question, AtMostFour(options)));
    } else {
      d := None;
    }
  }

  /** `q` is the stripped text in front of the leftmost option marker, which is at `a`. */
  predicate StemBefore(block: string, a: nat, q: string) {
    && a < |block| && MatchAt(block, a) && q == Strip(block[..a])
    && forall k :: 0 <= k < a ==> !MatchAt(block, k)
  }


  // ----- rendering a question in the inline layout, and reading it back -----

  /** The letter of the `k`-th option: 'A', 'B', 'C' or 'D'. */
  function ChoiceLetter(k: nat): (c: char)
    requires k < 4
    ensures IsChoiceLetter(c)
  {
    ('A' as int + k) as char
  }

  /** " A. first B. second ..." with letters from the `k`-th on. */
  function RenderOptions(opts: seq<string>, k: nat): string
    requires k + |opts| <= 4
  {
    if opts == [] then [] else " " + [ChoiceLetter(k)] + ". " + opts[0] + RenderOptions(opts[1..], k + 1)
  }

  /** The inline layout: "Stem A. first B. second ...". */
  function Render(q: string, opts: seq<string>): string
    requires |opts| <= 4
  {
    q + RenderOptions(opts, 0)
  }

  /** A stem that reads back unchanged: non-empty, trimmed and free of choice letters. */
  predicate GoodStem(q: string) {
    q != [] && NoEdgeSpace(q) && NoChoiceLetter(q)
  }

  /** An option that reads back unchanged. */
  predicate GoodOption(o: string) {
    KeepOption(o) && CleanOption(o) && Trimmed(o)
  }

  /** A stretch without choice letters holds no match and does not stop the scan. */
  lemma {:induction false} FindAllSkips(s: string, p: nat, e: nat)
    requires p <= e <= |s|
    requires forall k :: p <= k < e ==> !IsChoiceLetter(s[k])
    ensures FindAll(s, p) == FindAll(s, e)
    ensures NextStop(s, p) == NextStop(s, e)
    decreases e - p
  {
    if p < e {
      FindAllSkips(s, p + 1, e);
    }
  }

  lemma {:induction false} OptionTextOfGood(o: string, pad: string)
    requires GoodOption(o) && (pad == [] || pad == " ")
    ensures OptionText(o + pad) == o
  {
    var x := o + pad;
    assert LStrip(x) == x;
    assert RStrip(x) == o by {
      if pad == " " {
        assert x[..|x| - 1] == o;
      }
    }
    CollapseOfCollapsed(o);
  }

  /** The first option's text and the rest of the rendering. */
  lemma {:induction false} RenderStep(opts: seq<string>, k: nat)
    requires opts != [] && k + |opts| <= 4
    ensures RenderOptions(opts, k) == [' ', ChoiceLetter(k), '.', ' '] + opts[0] + RenderOptions(opts[1..], k + 1)
  {
  }

  /** Where the three parts of `pre + mid + o + rest` sit. */
  lemma {:induction false} Pieces(s: string, pre: string, mid: string, o: string, rest: string)
    requires s == pre + mid + o + rest
    ensures |s| == |pre| + |mid| + |o| + |rest|
    ensures forall i :: 0 <= i < |mid| ==> s[|pre| + i] == mid[i]
    ensures s[|pre| + |mid|..|pre| + |mid| + |o|] == o
    ensures s[|pre| + |mid| + |o|..] == rest
  {
    assert forall i :: 0 <= i < |mid| ==> (pre + mid)[|pre| + i] == mid[i];
    assert s[|pre| + |mid|..] == o + rest;
  }

  /** Where the pieces of one rendered option, " L. o", sit inside `s`. */
  lemma {:induction false} RenderedLayout(s: string, pre: string, letter: char, o: string, rest: string)
    requires IsChoiceLetter(letter) && GoodOption(o)
    requires s == pre + [' ', letter, '.', ' '] + o + rest
    ensures var b, e := |pre|, |pre| + 4 + |o|;
      && e <= |s|
      && s[b + 1] == letter && s[b + 2] == '.'
      && SkipSpaces(s, b + 3) == b + 4
      && (forall j :: b + 3 <= j < e ==> !IsChoiceLetter(s[j]))
      && s[b + 4..e] == o
      && s[e..] == rest
  {
    Pieces(s, pre, [' ', letter, '.', ' '], o, rest);
    var b, e := |pre|, |pre| + 4 + |o|;
    assert s[b + 3] == ' ';
    assert s[b + 4] == o[0];
    forall j | b + 4 <= j < e ensures !IsChoiceLetter(s[j]) {
      assert s[j] == s[b + 4..e][j - b - 4];
    }
  }

  /** A position where the pattern matches yields one match, and the scan goes on from where its body stops. */
  lemma FindAllAtMatch(s: string, p: nat)
    requires p < |s| && MatchAt(s, p)
    ensures FindAll(s, p) == [OptionMatch(p, s[p], s[SkipSpaces(s, p + 2)..NextStop(s, p + 2)])] + FindAll(s, NextStop(s, p + 2))
  {
  }

  /** The body of the match before a good option that ends the block is the option. */
  lemma {:induction false} BodyAtEnd(s: string, b: nat, o: string)
    requires GoodOption(o) && b + 4 + |o| == |s|
    requires forall j :: b + 3 <= j < |s| ==> !IsChoiceLetter(s[j])
    requires s[b + 4..|s|] == o
    ensures NextStop(s, b + 3) == |s| && OptionText(s[b + 4..|s|]) == o
  {
    FindAllSkips(s, b + 3, |s|);
    OptionTextOfGood(o, []);
  }

  /** The body of the match before a good option followed by " L." is the option and a space. */
  lemma {:induction false} BodyBeforeNext(s: string, b: nat, o: string, f: nat)
    requires GoodOption(o) && f == b + 5 + |o| && f < |s| && IsChoiceLetter(s[f]) && s[f - 1] == ' '
    requires forall j :: b + 3 <= j < b + 4 + |o| ==> !IsChoiceLetter(s[j])
    requires s[b + 4..b + 4 + |o|] == o
    ensures NextStop(s, b + 3) == f && OptionText(s[b + 4..f]) == o
  {
    var e := b + 4 + |o|;
    FindAllSkips(s, b + 3, f);
    assert s[b + 4..f] == s[b + 4..e] + [s[e]];
    OptionTextOfGood(o, " ");
  }

  /** A choice letter, a period, one space and a good option, then the end or the next option. */
  lemma {:induction false} OneMatch(s: string, b: nat, o: string, f: nat)
    requires GoodOption(o) && b + 4 + |o| <= f <= |s|
    requires IsChoiceLetter(s[b + 1]) && s[b + 2] == '.' && SkipSpaces(s, b + 3) == b + 4
    requires forall j :: b + 3 <= j < b + 4 + |o| ==> !IsChoiceLetter(s[j])
    requires s[b + 4..b + 4 + |o|] == o
    requires || (f == |s| && b + 4 + |o| == |s|)
             || (f == b + 5 + |o| && f + 1 < |s| && s[f - 1] == ' ' && IsChoiceLetter(s[f]) && s[f + 1] == '.')
    ensures var ms := FindAll(s, b + 1);
      && ms != [] && ms[0].start == b + 1 && OptionText(ms[0].body) == o
      && ms[1..] == FindAll(s, f)
  {
    if f == |s| && b + 4 + |o| == |s| {
      BodyAtEnd(s, b, o);
    } else {
      BodyBeforeNext(s, b, o, f);
    }
    assert MatchAt(s, b + 1);
    FindAllAtMatch(s, b + 1);
  }

  /** What follows a rendered option inside `s`: nothing, or " L." of the next option. */
  lemma {:induction false} AfterRendered(s: string, e: nat, opts: seq<string>, k: nat)
    requires opts != [] && k + |opts| <= 4
    requires e <= |s| && s[e..] == RenderOptions(opts[1..], k + 1)
    ensures |opts| == 1 ==> e == |s|
    ensures |opts| > 1 ==> e + 2 < |s| && s[e] == ' ' && IsChoiceLetter(s[e + 1]) && s[e + 2] == '.'
  {
    if |opts| > 1 {
      RenderStep(opts[1..], k + 1);
      assert s[e] == s[e..][0] && s[e + 1] == s[e..][1] && s[e + 2] == s[e..][2];
    }
  }

  /** The first rendered option is one match, ending where the next option's letter is. */
  lemma {:induction false} FirstRendered(s: string, pre: string, opts: seq<string>, k: nat) returns (f: nat)
    requires opts != [] && k + |opts| <= 4 && GoodOption(opts[0])
    requires s == pre + RenderOptions(opts, k)
    ensures |pre| + 4 <= f <= |s|
    ensures var ms := FindAll(s, |pre| + 1);
      && ms != [] && ms[0].start == |pre| + 1 && OptionText(ms[0].body) == opts[0]
      && ms[1..] == FindAll(s, f)
    ensures |opts| == 1 ==> f == |s|
    ensures |opts| > 1 ==> f == |pre| + 5 + |opts[0]|
  {
    RenderStep(opts, k);
    RenderedLayout(s, pre, ChoiceLetter(k), opts[0], RenderOptions(opts[1..], k + 1));
    var b, e := |pre|, |pre| + 4 + |opts[0]|;
    AfterRendered(s, e, opts, k);
    f := if |opts| == 1 then |s| else e + 1;
    OneMatch(s, b, opts[0], f);
  }

  /** A block without any choice letter holds no option marker, so it yields no draft. */
  lemma {:induction false} NoLetterNoDraft(block: string)
    requires NoChoiceLetter(block)
    ensures DraftOf(block) == None
  {
    FindAllSkips(block, 0, |block|);
  }
}
