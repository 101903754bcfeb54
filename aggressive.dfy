/**
 * `aggressive_parser` (backend/extractor.py:684-715): the whole text is split at every
 * option marker (a letter A-E, optional spaces and one of `.`, `)` or `:`, at a line start
 * or after a space); the text before the first marker is the question and the text after
 * each marker is an option. It yields at most one record, with no answer.
 */
module AggressiveParser {
  import opened Wrappers
  import opened Strings
  import opened Records
  import opened LineParser

  // ----- the marker pattern -----

  /** After a letter A-E at `p`: spaces and one of `.`, `)`, `:`; the position after that character. */
  function MarkerEnd(s: string, p: nat): (r: Option<nat>)
    ensures r.Some? ==> p + 1 < r.value <= |s|
  {
    if p < |s| && IsChoice(s[p]) then
      var q := SkipSpaces(s, p + 1);
      if q < |s| && (s[q] == '.' || s[q] == ')' || s[q] == ':') then Some(q + 1) else None
    else None
  }

  /** `^` under MULTILINE: the start of the text or of a line. */
  predicate LineStart(s: string, p: nat)
    requires p <= |s|
  {
    p == 0 || s[p - 1] == '\n'
  }

  /**
   * Where a match of `(?:^|\s)([A-E])\s*[\.\)\:]\s*` (IGNORECASE, MULTILINE) starting at `p`
   * ends: the `^` branch is tried first, then the `\s` branch.
   */
  function MatchEnd(s: string, p: nat): (r: Option<nat>)
    requires p <= |s|
    ensures r.Some? ==> p < r.value <= |s|
  {
    if LineStart(s, p) && MarkerEnd(s, p).Some? then Some(SkipSpaces(s, MarkerEnd(s, p).value))
    else if p < |s| && IsSpace(s[p]) && MarkerEnd(s, p + 1).Some? then Some(SkipSpaces(s, MarkerEnd(s, p + 1).value))
    else None
  }

  /** A marker and the text after it, up to the next marker. */
  datatype Part = Part(marker: string, text: string)

  /** What `re.split` returns: the text before the first marker, then the parts. */
  datatype Pieces = Pieces(head: string, parts: seq<Part>)

  /** `re.split` from `p`, the current piece having started at `start`. */
  function SplitFrom(s: string, start: nat, p: nat): Pieces
    requires start <= p <= |s|
    decreases |s| - p
  {
    if p == |s| then Pieces(s[start..], [])
    else
      match MatchEnd(s, p)
      case None => SplitFrom(s, start, p + 1)
      case Some(e) =>
        var r := SplitFrom(s, e, e);
        Pieces(s[start..p], [Part(s[p..e], r.head)] + r.parts)
  }

  function SplitMarkers(s: string): Pieces {
    SplitFrom(s, 0, 0)
  }

  /** The markers and texts of the parts, in order. */
  function Flatten(parts: seq<Part>): string {
    if parts == [] then [] else parts[0].marker + parts[0].text + Flatten(parts[1..])
  }

  function Rejoin(p: Pieces): string {
    p.head + Flatten(p.parts)
  }

  lemma FlattenCons(x: Part, ps: seq<Part>)
    ensures Flatten([x] + ps) == x.marker + x.text + Flatten(ps)
  {
    assert ([x] + ps)[1..] == ps;
  }

  /** Splitting at a marker closes the current piece and starts the next one after it. */
  lemma SplitAtMarker(s: string, start: nat, p: nat, e: nat)
    requires start <= p < |s| && MatchEnd(s, p) == Some(e)
    ensures SplitFrom(s, start, p)
         == Pieces(s[start..p], [Part(s[p..e], SplitFrom(s, e, e).head)] + SplitFrom(s, e, e).parts)
  {
  }

  /** Splitting passes over a position where no marker starts. */
  lemma SplitPasses(s: string, start: nat, p: nat)
    requires start <= p < |s| && MatchEnd(s, p) == None
    ensures SplitFrom(s, start, p) == SplitFrom(s, start, p + 1)
  {
  }

  /** A piece, a marker and the rest, put back together. */
  lemma RejoinMarker(s: string, start: nat, p: nat, e: nat, r: Pieces)
    requires start <= p < e <= |s| && Rejoin(r) == s[e..]
    ensures Rejoin(Pieces(s[start..p], [Part(s[p..e], r.head)] + r.parts)) == s[start..]
  {
    FlattenCons(Part(s[p..e], r.head), r.parts);
    assert s[start..] == s[start..p] + (s[p..e] + s[e..]);
  }

  lemma {:induction false} SplitFromRejoins(s: string, start: nat, p: nat)
    requires start <= p <= |s|
    ensures Rejoin(SplitFrom(s, start, p)) == s[start..]
    decreases |s| - p
  {
    if p < |s| {
      var m := MatchEnd(s, p);
      if m.None? {
        SplitPasses(s, start, p);
        SplitFromRejoins(s, start, p + 1);
      } else {
        var e := m.value;
        SplitAtMarker(s, start, p, e);
        SplitFromRejoins(s, e, e);
        RejoinMarker(s, start, p, e, SplitFrom(s, e, e));
      }
    }
  }

  /** Splitting loses nothing: the head, markers and texts put back together are the text. */
  lemma SplitRejoins(s: string)
    ensures Rejoin(SplitMarkers(s)) == s
  {
    SplitFromRejoins(s, 0, 0);
  }

  // ----- the options -----

  /**
   * Where `re.split(r'(?i)(?:^|\s)([A-E])\s*[\.\)\:]', t)[0]` ends: the first match, where
   * `^` is only the start of `t`.
   */
  function FirstMarker(t: string, p: nat): (r: nat)
    requires p <= |t|
    ensures p <= r <= |t|
    decreases |t| - p
  {
    if p == |t| then p
    else if (p == 0 && MarkerEnd(t, 0).Some?) || (IsSpace(t[p]) && MarkerEnd(t, p + 1).Some?) then p
    else FirstMarker(t, p + 1)
  }

  /** `text[:200]`. */
  function Prefix200(t: string): (r: string)
    ensures |r| <= 200
  {
    if |t| <= 200 then t else t[..200]
  }

  /** The option a part's text gives: stripped, cut at the next marker, stripped, cut to 200 characters, stripped. */
  function OptionText(seg: string): string {
    var t := Strip(seg);
    Strip(Prefix200(Strip(t[..FirstMarker(t, 0)])))
  }

  /** Option texts longer than two characters, in order. */
  function Options(parts: seq<Part>): seq<string> {
    if parts == [] then []
    else
      var o := OptionText(parts[|parts| - 1].text);
      Options(parts[..|parts| - 1]) + (if |o| > 2 then [o] else [])
  }

  /** `parts[0].strip()`, emptied when shorter than ten characters. */
  function QuestionOf(head: string): string {
    var q := Strip(head);
    if |q| < 10 then [] else q
  }

  /** `options[:5]`. */
  function FirstFiveOptions(options: seq<string>): (r: seq<string>)
    ensures |r| <= 5
  {
    if |options| <= 5 then options else options[..5]
  }

  function Parse(text: string): (r: seq<Mcq>)
    ensures |r| <= 1
  {
    var pieces := SplitMarkers(text);
    if pieces.parts == [] then []
    else
      var question := QuestionOf(pieces.head);
      var options := Options(pieces.parts);
      if question != [] && |options| >= 2 then [Mcq(question, FirstFiveOptions(options), None, None, None)]
      else []
  }

  // ----- what the records satisfy -----

  predicate GoodOption(o: string) {
    2 < |o| <= 200 && NoEdgeSpace(o)
  }

  predicate Sound(m: Mcq) {
    && 10 <= |m.question| && NoEdgeSpace(m.question)
    && 2 <= |m.options| <= 5 && (forall k :: 0 <= k < |m.options| ==> GoodOption(m.options[k]))
    && m.correctOption == None && m.explanation == None && m.image == None
  }

  lemma OptionTextGood(seg: string)
    ensures |OptionText(seg)| <= 200 && NoEdgeSpace(OptionText(seg))
  {
    var t := Strip(seg);
    var c := Prefix200(Strip(t[..FirstMarker(t, 0)]));
    StripSlice(c);
  }

  lemma {:induction false} OptionsGood(parts: seq<Part>)
    ensures forall k :: 0 <= k < |Options(parts)| ==> GoodOption(Options(parts)[k])
  {
    if parts != [] {
      OptionsGood(parts[..|parts| - 1]);
      OptionTextGood(parts[|parts| - 1].text);
    }
  }

  /** The record, when there is one, has a question of at least ten characters, two to five options of three to two hundred characters, and no answer. */
  lemma ParseSound(text: string)
    ensures forall k :: 0 <= k < |Parse(text)| ==> Sound(Parse(text)[k])
  {
    var pieces := SplitMarkers(text);
    OptionsGood(pieces.parts);
    StripNoEdge(pieces.head);
  }

  // ----- reading one-line questions back -----

  predicate IsMarkPunct(c: char) { c == '.' || c == ')' || c == ':' }

  /** A run of characters with no whitespace and no `.`, `)` or `:`. */
  predicate Word(t: string) {
    t != [] && forall k :: 0 <= k < |t| ==> !IsSpace(t[k]) && !IsMarkPunct(t[k])
  }

  /** No marker starts inside a word that follows a space (or starts the text) and is followed by the end, or by one space and a character that is neither whitespace nor `.`, `)`, `:`. */
  lemma WordQuiet(s: string, a: nat, b: nat, p: nat)
    requires a <= p < b <= |s| && Word(s[a..b])
    requires a == 0 || s[a - 1] == ' '
    requires b == |s| || (s[b] == ' ' && b + 1 < |s| && !IsSpace(s[b + 1]) && !IsMarkPunct(s[b + 1]))
    ensures MatchEnd(s, p) == None
  {
    assert s[p] == s[a..b][p - a];
    if p + 1 < b {
      assert s[p + 1] == s[a..b][p + 1 - a];
    }
    if p > a {
      assert s[p - 1] == s[a..b][p - 1 - a];
    }
    if b < |s| && p + 1 == b {
      assert SkipSpaces(s, b) == b + 1;
    }
  }

  /** Splitting steps over positions where no marker starts. */
  lemma {:induction false} SplitSkips(s: string, start: nat, a: nat, b: nat)
    requires start <= a <= b <= |s|
    requires forall p :: a <= p < b ==> MatchEnd(s, p) == None
    ensures SplitFrom(s, start, a) == SplitFrom(s, start, b)
    decreases b - a
  {
    if a < b {
      SplitSkips(s, start, a + 1, b);
    }
  }

  /** Splitting steps over a word as in `WordQuiet`. */
  lemma SplitSkipsWord(s: string, start: nat, a: nat, b: nat)
    requires start <= a < b <= |s| && Word(s[a..b])
    requires a == 0 || s[a - 1] == ' '
    requires b == |s| || (s[b] == ' ' && b + 1 < |s| && !IsSpace(s[b + 1]) && !IsMarkPunct(s[b + 1]))
    ensures SplitFrom(s, start, a) == SplitFrom(s, start, b)
  {
    forall p | a <= p < b ensures MatchEnd(s, p) == None {
      WordQuiet(s, a, b, p);
    }
    SplitSkips(s, start, a, b);
  }

  /** " X) " followed by a character that is not whitespace is a marker. */
  lemma PrintedMarker(s: string, p: nat)
    requires p + 4 < |s| && s[p] == ' ' && IsChoice(s[p + 1]) && s[p + 2] == ')' && s[p + 3] == ' '
    requires !IsSpace(s[p + 4])
    ensures MatchEnd(s, p) == Some(p + 4)
  {
    assert SkipSpaces(s, p + 2) == p + 2;
    assert MarkerEnd(s, p + 1) == Some(p + 3);
    assert SkipSpaces(s, p + 3) == p + 4;
  }

  /** The last two pieces of `q A) x B) y`: `x` after the first marker, then `y`. */
  lemma {:induction false} SplitPrintedTail(s: string, e1: nat, x: string, y: string)
    requires e1 + |x| + 4 + |y| == |s| && Word(x) && Word(y) && 0 < e1
    requires s[e1 - 1] == ' ' && s[e1..e1 + |x|] == x && s[e1 + |x|..e1 + |x| + 4] == " B) " && s[e1 + |x| + 4..] == y
    ensures SplitFrom(s, e1, e1) == Pieces(x, [Part(" B) ", y)])
  {
    var b := e1 + |x|;
    var e2 := b + 4;
    assert s[e2..|s|] == y && s[e2 - 1] == ' ';
    SplitSkipsWord(s, e2, e2, |s|);
    assert SplitFrom(s, e2, e2) == Pieces(y, []);
    assert s[b] == ' ' && s[b + 1] == 'B' && s[b + 2] == ')' && s[b + 3] == ' ';
    assert s[e2] == y[0];
    PrintedMarker(s, b);
    SplitAtMarker(s, e1, b, e2);
    SplitSkipsWord(s, e1, e1, b);
  }

  /** The first piece of a text that starts `q A) ` followed by a non-space: `q`, then the parts after the marker. */
  lemma {:induction false} SplitPrintedHead(s: string, q: string)
    requires Word(q) && |q| + 4 < |s| && s[..|q|] == q && s[|q|..|q| + 4] == " A) " && !IsSpace(s[|q| + 4])
    ensures var r := SplitFrom(s, |q| + 4, |q| + 4);
      SplitFrom(s, 0, 0) == Pieces(q, [Part(" A) ", r.head)] + r.parts)
  {
    var b := |q|;
    assert s[b] == ' ' && s[b + 1] == 'A' && s[b + 2] == ')' && s[b + 3] == ' ';
    PrintedMarker(s, b);
    SplitAtMarker(s, 0, b, b + 4);
    assert s[0..b] == q;
    SplitSkipsWord(s, 0, 0, b);
  }

  /** Where the pieces of `q A) x B) y` sit. */
  lemma PrintedSlices(q: string, x: string, y: string)
    ensures var s, e1 := q + " A) " + x + " B) " + y, |q| + 4;
      && |s| == e1 + |x| + 4 + |y|
      && s[..|q|] == q && s[|q|..e1] == " A) " && s[e1..e1 + |x|] == x
      && s[e1 + |x|..e1 + |x| + 4] == " B) " && s[e1 + |x| + 4..] == y
  {
  }

  /** How `q A) x B) y` splits, when `q`, `x` and `y` are words. */
  lemma {:induction false} SplitPrinted(q: string, x: string, y: string)
    requires Word(q) && Word(x) && Word(y)
    ensures SplitMarkers(q + " A) " + x + " B) " + y) == Pieces(q, [Part(" A) ", x), Part(" B) ", y)])
  {
    var s := q + " A) " + x + " B) " + y;
    var e1 := |q| + 4;
    PrintedSlices(q, x, y);
    SplitPrintedTail(s, e1, x, y);
    assert s[e1] == s[e1..e1 + |x|][0];
    SplitPrintedHead(s, q);
  }

  /** A word is its own option text when it is at most 200 characters long. */
  lemma WordOptionText(x: string)
    requires Word(x) && |x| <= 200
    ensures OptionText(x) == x
  {
    assert NoEdgeSpace(x);
    StripOfTrimmed(x);
    if |x| > 1 {
      assert SkipSpaces(x, 1) == 1;
    }
    assert FirstMarker(x, 0) == FirstMarker(x, 1);
    FirstMarkerNone(x, 1);
    assert x[..|x|] == x;
  }

  lemma {:induction false} FirstMarkerNone(x: string, p: nat)
    requires Word(x) && 0 < p <= |x|
    ensures FirstMarker(x, p) == |x|
    decreases |x| - p
  {
    if p < |x| {
      FirstMarkerNone(x, p + 1);
    }
  }

  /** The options of the two parts `A) x` and `B) y`, for words `x` and `y`. */
  lemma TwoOptions(x: string, y: string)
    requires Word(x) && Word(y) && |x| <= 200 && |y| <= 200
    ensures Options([Part(" A) ", x), Part(" B) ", y)]) == (if |x| > 2 then [x] else []) + (if |y| > 2 then [y] else [])
  {
    WordOptionText(x);
    WordOptionText(y);
    var parts := [Part(" A) ", x), Part(" B) ", y)];
    assert parts[..1] == [Part(" A) ", x)] && parts[..1][..0] == [];
    assert Options(parts[..1]) == (if |x| > 2 then [x] else []);
  }

  /**
   * `q A) x B) y` on one line gives one record with options `x` and `y` exactly when the
   * question has at least ten characters and both options more than two; a short question
   * such as "Why?" gives nothing.
   */
  lemma {:induction false} OneLineQuestion(q: string, x: string, y: string)
    requires Word(q) && Word(x) && Word(y) && |x| <= 200 && |y| <= 200
    ensures Parse(q + " A) " + x + " B) " + y)
         == if |q| >= 10 && |x| > 2 && |y| > 2 then [Mcq(q, [x, y], None, None, None)] else []
  {
    SplitPrinted(q, x, y);
    var parts := [Part(" A) ", x), Part(" B) ", y)];
    TwoOptions(x, y);
    assert NoEdgeSpace(q);
    StripOfTrimmed(q);
    assert QuestionOf(q) == (if |q| < 10 then [] else q);
    if |x| > 2 && |y| > 2 {
      assert Options(parts) == [x, y];
      assert FirstFiveOptions([x, y]) == [x, y];
    } else {
      assert |Options(parts)| < 2;
    }
  }

  // ----- the parser as written -----

  method AggressiveParse(text: string) returns (results: seq<Mcq>)
    ensures results == Parse(text)
  {
    var pieces := SplitMarkers(text);
    if pieces.parts == [] {
      return [];
    }
    var questionText := Strip(pieces.head);
    if |questionText| < 10 {
      questionText := [];
    }
    var options: seq<string> := [];
    var i := 0;
    while i < |pieces.parts|
      invariant i <= |pieces.parts|
      invariant options == Options(pieces.parts[..i])
    {
      assert pieces.parts[..i + 1][..i] == pieces.parts[..i];
      var optText := OptionText(pieces.parts[i].text);
      if |optText| > 2 {
        options := options + [optText];
      }
      i := i + 1;
    }
    assert pieces.parts[..i] == pieces.parts;
    results := [];
    if questionText != [] && |options| >= 2 {
      results := [Mcq(questionText, FirstFiveOptions(options), None, None, None)];
    }
  }
}
