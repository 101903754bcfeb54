/**
 * The text normaliser of backend/extractor.py: `clean_text` and the pass that
 * puts every option marker `[A-E][.):]` at the start of its own line.
 */
module Normalize {
  import opened Strings

  /** The class `[\x00-\x08\x0B\x0C\x0E-\x1F\x7F]` that `clean_text` deletes first. */
  predicate IsControl(c: char) {
    c <= '\U{08}' || c == '\U{0B}' || c == '\U{0C}' || ('\U{0E}' <= c <= '\U{1F}') || c == '\U{7F}'
  }

  function RemoveControl(s: string): string {
    if s == [] then [] else (if IsControl(s[0]) then [] else [s[0]]) + RemoveControl(s[1..])
  }

  /** The four `replace` calls of the quote step: a double quote or a backtick becomes
      an apostrophe (the third and fourth calls repeat the first one's double quote). */
  function UnifyQuote(c: char): char {
    if c == '"' || c == '`' then '\'' else c
  }

  function UnifyQuotes(s: string): (r: string)
    ensures |r| == |s|
  {
    seq(|s|, k requires 0 <= k < |s| => UnifyQuote(s[k]))
  }

  /** The dash literals exactly as the source file holds them: the UTF-8 bytes of an
      en dash and an em dash read back as Mac Roman text, three characters each. */
  const EnDash: string := "\U{201A}\U{C4}\U{EC}"
  const EmDash: string := "\U{201A}\U{C4}\U{EE}"

  /** The text after the character-level steps, before it is cut into lines. */
  function Prepared(t: string): string {
    ReplaceAll(ReplaceAll(UnifyQuotes(RemoveControl(t)), EnDash, "-"), EmDash, "-")
  }

  /** The loop over lines: clean each one and keep the non-empty results, in order. */
  function CleanAll(lines: seq<string>): seq<string> {
    if lines == [] then []
    else
      var c := CleanLine(lines[0]);
      (if c != [] then [c] else []) + CleanAll(lines[1..])
  }

  function CleanLines(t: string): seq<string> {
    CleanAll(Split(Prepared(t), '\n'))
  }

  /** `clean_text`. */
  function CleanText(t: string): string {
    if t == [] then [] else Join(CleanLines(t), "\n")
  }

  /** No character of the classes that the character-level steps remove. */
  predicate PlainChars(s: string) {
    forall k :: 0 <= k < |s| ==> !IsControl(s[k]) && s[k] != '"' && s[k] != '`'
  }

  /** What `clean_text` promises about every line it leaves. */
  predicate CleanLineShape(l: string) {
    l != [] && Trimmed(l) && PlainChars(l)
  }

  /** Neither mis-decoded dash literal occurs. */
  predicate NoDashes(s: string) {
    !Contains(s, EnDash) && !Contains(s, EmDash)
  }

  /** A text that `clean_text` returns unchanged. */
  predicate Normalized(r: string) {
    r == [] ||
    (&& PlainChars(r) && NoDashes(r)
     && (forall l :: l in Split(r, '\n') ==> l != [] && Trimmed(l)))
  }

  // ----- character bookkeeping -----

  lemma {:induction false} RemoveControlChars(s: string)
    ensures forall c :: c in RemoveControl(s) ==> c in s && !IsControl(c)
  {
    if s != [] {
      RemoveControlChars(s[1..]);
    }
  }

  lemma {:induction false} RemoveControlIdentity(s: string)
    requires forall k :: 0 <= k < |s| ==> !IsControl(s[k])
    ensures RemoveControl(s) == s
  {
    if s != [] {
      RemoveControlIdentity(s[1..]);
      assert [s[0]] + s[1..] == s;
    }
  }

  lemma {:induction false} ReplaceAllChars(s: string, pat: string, rep: string)
    requires pat != []
    ensures forall c :: c in ReplaceAll(s, pat, rep) ==> c in s || c in rep
    decreases |s|
  {
    if s != [] {
      if StartsWith(s, pat) {
        ReplaceAllChars(s[|pat|..], pat, rep);
        forall c | c in s[|pat|..] ensures c in s {
          var k :| 0 <= k < |s[|pat|..]| && s[|pat|..][k] == c;
          assert s[|pat| + k] == c;
        }
      } else {
        ReplaceAllChars(s[1..], pat, rep);
      }
    }
  }

  lemma {:induction false} ReplaceAllIdentity(s: string, pat: string, rep: string)
    requires pat != [] && !Contains(s, pat)
    ensures ReplaceAll(s, pat, rep) == s
    decreases |s|
  {
    if s != [] {
      assert !OccursAt(s, pat, 0);
      if Contains(s[1..], pat) {
        ContainsSuffix(s, pat, 1);
      }
      ReplaceAllIdentity(s[1..], pat, rep);
      assert [s[0]] + s[1..] == s;
    }
  }

  // ----- occurrences of the dash literals -----

  /** A prefix of the replaced text that has no '-' is a prefix of the original. */
  lemma {:induction false} ReplacePrefix(s: string, pat: string, q: string)
    requires pat != [] && '-' !in q
    requires StartsWith(ReplaceAll(s, pat, "-"), q)
    ensures StartsWith(s, q)
    decreases |s|
  {
    if q != [] && s != [] {
      var out := ReplaceAll(s, pat, "-");
      assert out[0] == q[0] && q[0] in q;
      if StartsWith(s, pat) {
        assert false;
      } else {
        var rest := ReplaceAll(s[1..], pat, "-");
        assert out == [s[0]] + rest;
        assert rest[..|q| - 1] == q[1..];
        ReplacePrefix(s[1..], pat, q[1..]);
        assert s == [s[0]] + s[1..];
      }
    }
  }

  /** Replacing with "-" leaves no occurrence of the replaced pattern behind. */
  lemma {:induction false} ReplaceRemovesPattern(s: string, pat: string, k: int)
    requires pat != [] && '-' !in pat
    ensures !OccursAt(ReplaceAll(s, pat, "-"), pat, k)
    decreases |s|
  {
    var out := ReplaceAll(s, pat, "-");
    if s != [] && OccursAt(out, pat, k) {
      if k == 0 {
        assert pat[0] in pat && out[0] == pat[0];
        ReplacePrefix(s, pat, pat);
        assert false;
      } else if StartsWith(s, pat) {
        var rest := ReplaceAll(s[|pat|..], pat, "-");
        assert out == "-" + rest;
        OccursInTail("-", rest, pat, k);
        ReplaceRemovesPattern(s[|pat|..], pat, k - 1);
      } else {
        var rest := ReplaceAll(s[1..], pat, "-");
        assert out == [s[0]] + rest;
        OccursInTail([s[0]], rest, pat, k);
        ReplaceRemovesPattern(s[1..], pat, k - 1);
      }
    }
  }

  /** Replacing with "-" creates no new occurrence of a '-'-free pattern. */
  lemma {:induction false} ReplaceKeepsAbsent(s: string, pat: string, q: string, k: int)
    requires pat != [] && q != [] && '-' !in q
    requires OccursAt(ReplaceAll(s, pat, "-"), q, k)
    ensures Contains(s, q)
    decreases |s|
  {
    var out := ReplaceAll(s, pat, "-");
    if k == 0 {
      ReplacePrefix(s, pat, q);
      assert OccursAt(s, q, 0);
    } else if StartsWith(s, pat) {
      var rest := ReplaceAll(s[|pat|..], pat, "-");
      assert out == "-" + rest;
      OccursInTail("-", rest, q, k);
      ReplaceKeepsAbsent(s[|pat|..], pat, q, k - 1);
      ContainsSuffix(s, q, |pat|);
    } else {
      var rest := ReplaceAll(s[1..], pat, "-");
      assert out == [s[0]] + rest;
      OccursInTail([s[0]], rest, q, k);
      ReplaceKeepsAbsent(s[1..], pat, q, k - 1);
      ContainsSuffix(s, q, 1);
    }
  }

  /** The two dash replacements leave neither dash literal in the text. */
  lemma {:induction false} PreparedLacksDashes(t: string)
    ensures NoDashes(Prepared(t))
  {
    var x := ReplaceAll(UnifyQuotes(RemoveControl(t)), EnDash, "-");
    var y := Prepared(t);
    forall k ensures !OccursAt(y, EmDash, k) {
      ReplaceRemovesPattern(x, EmDash, k);
    }
    forall k ensures !OccursAt(x, EnDash, k) {
      ReplaceRemovesPattern(UnifyQuotes(RemoveControl(t)), EnDash, k);
    }
    if Contains(y, EnDash) {
      var k :| 0 <= k <= |y| - |EnDash| && OccursAt(y, EnDash, k);
      ReplaceKeepsAbsent(x, EmDash, EnDash, k);
    }
  }

  /** A whitespace-free prefix of a collapsed text is a prefix of the original. */
  lemma {:induction false} CollapsePrefix(s: string, q: string)
    requires forall k :: 0 <= k < |q| ==> !IsSpace(q[k])
    requires StartsWith(Collapse(s), q)
    ensures StartsWith(s, q)
    decreases |s|
  {
    if q != [] && s != [] {
      assert Collapse(s)[0] == q[0] && !IsSpace(q[0]);
      if IsSpace(s[0]) {
        assert false;
      } else {
        var rest := Collapse(s[1..]);
        assert Collapse(s) == [s[0]] + rest;
        assert rest[..|q| - 1] == q[1..];
        CollapsePrefix(s[1..], q[1..]);
        assert s[..|q|] == [s[0]] + s[1..][..|q| - 1];
      }
    }
  }

  /** Collapsing whitespace creates no occurrence of a whitespace-free pattern. */
  lemma {:induction false} CollapseKeepsAbsent(s: string, q: string, k: int)
    requires q != [] && forall i :: 0 <= i < |q| ==> !IsSpace(q[i])
    requires OccursAt(Collapse(s), q, k)
    ensures Contains(s, q)
    decreases |s|
  {
    var out := Collapse(s);
    if k == 0 {
      CollapsePrefix(s, q);
      assert OccursAt(s, q, 0);
    } else if IsSpace(s[0]) {
      var t := LStrip(s);
      LStripSuffix(s);
      assert out == " " + Collapse(t);
      OccursInTail(" ", Collapse(t), q, k);
      CollapseKeepsAbsent(t, q, k - 1);
      ContainsSuffix(s, q, |s| - |t|);
    } else {
      var rest := Collapse(s[1..]);
      assert out == [s[0]] + rest;
      OccursInTail([s[0]], rest, q, k);
      CollapseKeepsAbsent(s[1..], q, k - 1);
      ContainsSuffix(s, q, 1);
    }
  }

  /** Cleaning a line creates no occurrence of a whitespace-free pattern. */
  lemma {:induction false} CleanLineKeepsAbsent(s: string, q: string, k: int)
    requires q != [] && forall i :: 0 <= i < |q| ==> !IsSpace(q[i])
    requires OccursAt(CleanLine(s), q, k)
    ensures Contains(s, q)
  {
    StripOccurs(Collapse(s), q, k);
    CollapseKeepsAbsent(s, q, StripStart(Collapse(s)) + k);
  }

  lemma {:induction false} CleanLineNoDashes(s: string)
    requires NoDashes(s)
    ensures NoDashes(CleanLine(s))
  {
    var r := CleanLine(s);
    forall q | q == EnDash || q == EmDash ensures !Contains(r, q) {
      if Contains(r, q) {
        var k :| 0 <= k <= |r| - |q| && OccursAt(r, q, k);
        CleanLineKeepsAbsent(s, q, k);
      }
    }
  }

  /** Each piece of a split is a slice of the split text. */
  lemma {:induction false} SplitPieceSlice(s: string, c: char, i: nat) returns (a: nat)
    requires i < |Split(s, c)|
    ensures a + |Split(s, c)[i]| <= |s| && s[a..a + |Split(s, c)[i]|] == Split(s, c)[i]
    decreases |s|
  {
    if s == [] {
      a := 0;
    } else {
      var rest := Split(s[1..], c);
      if s[0] == c {
        assert Split(s, c) == [[]] + rest;
        if i == 0 {
          a := 0;
        } else {
          var b := SplitPieceSlice(s[1..], c, i - 1);
          a := b + 1;
          assert Split(s, c)[i] == rest[i - 1];
          SliceShift(s, b, |rest[i - 1]|);
        }
      } else {
        assert Split(s, c) == [[s[0]] + rest[0]] + rest[1..];
        if i > 0 {
          var b := SplitPieceSlice(s[1..], c, i);
          a := b + 1;
          assert Split(s, c)[i] == rest[i];
          SliceShift(s, b, |rest[i]|);
        } else {
          var b := SplitPieceSlice(s[1..], c, 0);
          SplitHeadIsPrefix(s[1..], c);
          a := 0;
          assert s[..1 + |rest[0]|] == [s[0]] + s[1..][..|rest[0]|];
        }
      }
    }
  }

  /** A slice of the tail is the slice of the text one position further on. */
  lemma SliceShift(s: string, b: nat, n: nat)
    requires 1 + b + n <= |s|
    ensures s[b + 1..b + 1 + n] == s[1..][b..b + n]
  {
  }

  lemma {:induction false} SplitHeadIsPrefix(s: string, c: char)
    ensures StartsWith(s, Split(s, c)[0])
  {
    if s != [] && s[0] != c {
      SplitHeadIsPrefix(s[1..], c);
    }
  }

  /** A text in which a pattern does not occur has no piece in which it occurs. */
  lemma {:induction false} SplitPieceNoDashes(s: string, c: char, i: nat)
    requires i < |Split(s, c)| && NoDashes(s)
    ensures NoDashes(Split(s, c)[i])
  {
    var p := Split(s, c)[i];
    var a := SplitPieceSlice(s, c, i);
    forall q | q == EnDash || q == EmDash ensures !Contains(p, q) {
      if Contains(p, q) {
        var k :| 0 <= k <= |p| - |q| && OccursAt(p, q, k);
        OccursInSlice(s, a, a + |p|, q, k);
      }
    }
  }

  lemma {:induction false} SplitPiecePlain(s: string, c: char, i: nat)
    requires i < |Split(s, c)| && PlainChars(s)
    ensures PlainChars(Split(s, c)[i])
  {
    var p := Split(s, c)[i];
    var a := SplitPieceSlice(s, c, i);
    forall k | 0 <= k < |p| ensures !IsControl(p[k]) && p[k] != '"' && p[k] != '`' {
      assert p[k] == s[a + k];
    }
  }

  lemma {:induction false} CleanLinePlain(s: string)
    requires PlainChars(s)
    ensures PlainChars(CleanLine(s))
  {
    var r := CleanLine(s);
    CleanLineIsTrimmed(s);
    forall k | 0 <= k < |r| ensures !IsControl(r[k]) && r[k] != '"' && r[k] != '`' {
      assert r[k] in r;
      if r[k] != ' ' {
        var m :| 0 <= m < |s| && s[m] == r[k];
      }
    }
  }

  /** Every line `CleanAll` keeps is the cleaned form of some input line, and not empty. */
  lemma {:induction false} CleanAllFrom(lines: seq<string>, i: nat) returns (j: nat)
    requires i < |CleanAll(lines)|
    ensures j < |lines| && CleanAll(lines)[i] == CleanLine(lines[j]) && CleanAll(lines)[i] != []
  {
    var c := CleanLine(lines[0]);
    if c != [] && i == 0 {
      j := 0;
    } else {
      var i' := if c != [] then i - 1 else i;
      assert CleanAll(lines)[i] == CleanAll(lines[1..])[i'];
      var j' := CleanAllFrom(lines[1..], i');
      j := j' + 1;
    }
  }

  lemma {:induction false} CleanAllIdentity(lines: seq<string>)
    requires forall l :: l in lines ==> l != [] && Trimmed(l)
    ensures CleanAll(lines) == lines
  {
    if lines != [] {
      CleanLineOfTrimmed(lines[0]);
      forall l | l in lines[1..] ensures l != [] && Trimmed(l) {
        assert l in lines;
      }
      CleanAllIdentity(lines[1..]);
      assert [lines[0]] + lines[1..] == lines;
    }
  }

  lemma {:induction false} TrimmedHasNoNewline(l: string)
    requires Trimmed(l)
    ensures '\n' !in l
  {
    if '\n' in l {
      var k :| 0 <= k < |l| && l[k] == '\n';
      assert IsSpace(l[k]);
    }
  }

  lemma {:induction false} PreparedPlain(t: string)
    ensures PlainChars(Prepared(t))
  {
    var a := RemoveControl(t);
    RemoveControlChars(t);
    var b := UnifyQuotes(a);
    forall c | c in b ensures !IsControl(c) && c != '"' && c != '`' {
      var k :| 0 <= k < |b| && b[k] == c;
      assert a[k] in a;
    }
    ReplaceAllChars(b, EnDash, "-");
    var x := ReplaceAll(b, EnDash, "-");
    ReplaceAllChars(x, EmDash, "-");
    var y := Prepared(t);
    forall k | 0 <= k < |y| ensures !IsControl(y[k]) && y[k] != '"' && y[k] != '`' {
      assert y[k] in y;
    }
  }

  /** Every line kept by `clean_text` has the promised shape and neither dash literal. */
  lemma {:induction false} CleanLinesShape(t: string, i: nat)
    requires i < |CleanLines(t)|
    ensures CleanLineShape(CleanLines(t)[i]) && NoDashes(CleanLines(t)[i])
  {
    var p := Prepared(t);
    var lines := Split(p, '\n');
    var j := CleanAllFrom(lines, i);
    CleanLineIsTrimmed(lines[j]);
    PreparedPlain(t);
    SplitPiecePlain(p, '\n', j);
    CleanLinePlain(lines[j]);
    PreparedLacksDashes(t);
    SplitPieceNoDashes(p, '\n', j);
    CleanLineNoDashes(lines[j]);
  }

  lemma {:induction false} JoinNonEmpty(parts: seq<string>, sep: string)
    requires parts != [] && parts[0] != []
    ensures Join(parts, sep) != []
  {
    if |parts| > 1 {
      assert Join(parts, sep) == parts[0] + sep + Join(parts[1..], sep);
    }
  }

  /** Joining non-empty newline-free lines with newlines can be undone by splitting. */
  lemma {:induction false} JoinLines(cl: seq<string>)
    requires forall i :: 0 <= i < |cl| ==> cl[i] != [] && '\n' !in cl[i]
    ensures Join(cl, "\n") == [] <==> cl == []
    ensures cl != [] ==> Split(Join(cl, "\n"), '\n') == cl
  {
    if cl != [] {
      SplitJoin(cl, '\n');
      JoinNonEmpty(cl, "\n");
    }
  }

  /** `clean_text` maps the empty text to the empty text. */
  lemma {:induction false} CleanTextEmpty()
    ensures CleanText([]) == [] && CleanLines([]) == []
  {
    assert Prepared([]) == [];
    assert Split([], '\n') == [[]];
  }

  /**
   * `clean_text` joins the surviving lines with newlines; each of them is non-empty,
   * carries no whitespace at either end and no whitespace but single spaces inside,
   * and has no control character, quote, backtick or dash literal.
   */
  lemma {:induction false} CleanTextLines(t: string)
    ensures t != [] ==> CleanText(t) == Join(CleanLines(t), "\n")
    ensures forall i :: 0 <= i < |CleanLines(t)| ==>
      CleanLineShape(CleanLines(t)[i]) && NoDashes(CleanLines(t)[i])
  {
    var cl := CleanLines(t);
    forall i | 0 <= i < |cl| ensures CleanLineShape(cl[i]) && NoDashes(cl[i]) {
      CleanLinesShape(t, i);
    }
  }

  /** Lines of the promised shape joined with newlines form a normalised text. */
  lemma {:induction false} JoinNormalized(cl: seq<string>)
    requires forall i :: 0 <= i < |cl| ==> CleanLineShape(cl[i]) && NoDashes(cl[i])
    ensures Normalized(Join(cl, "\n"))
    ensures Join(cl, "\n") == [] <==> cl == []
    ensures cl != [] ==> Split(Join(cl, "\n"), '\n') == cl
  {
    forall i | 0 <= i < |cl| ensures cl[i] != [] && '\n' !in cl[i] {
      TrimmedHasNoNewline(cl[i]);
    }
    JoinLines(cl);
    var r := Join(cl, "\n");
    if r != [] {
      forall i | 0 <= i < |cl| ensures PlainChars(cl[i]) {
      }
      JoinPlain(cl);
      JoinNoDashes(cl);
      forall l | l in Split(r, '\n') ensures l != [] && Trimmed(l) {
        var i :| 0 <= i < |cl| && cl[i] == l;
      }
    }
  }

  lemma {:induction false} JoinPlain(parts: seq<string>)
    requires forall i :: 0 <= i < |parts| ==> PlainChars(parts[i])
    ensures PlainChars(Join(parts, "\n"))
  {
    if |parts| > 1 {
      JoinPlain(parts[1..]);
      var r := Join(parts, "\n");
      var rest := Join(parts[1..], "\n");
      assert r == parts[0] + "\n" + rest;
      forall k | 0 <= k < |r| ensures !IsControl(r[k]) && r[k] != '"' && r[k] != '`' {
        if k < |parts[0]| {
          assert r[k] == parts[0][k];
        } else if k > |parts[0]| {
          assert r[k] == rest[k - |parts[0]| - 1];
        }
      }
    }
  }

  /** An occurrence of a newline-free pattern in a joined text lies inside one part. */
  lemma {:induction false} ContainsAcross(a: string, c: char, b: string, q: string, k: int)
    requires c !in q && OccursAt(a + [c] + b, q, k)
    ensures Contains(a, q) || Contains(b, q)
  {
    var s := a + [c] + b;
    if k + |q| <= |a| {
      assert a == s[..|a|];
      OccursInSlice(s, 0, |a|, q, k);
      assert a[k..k + |q|] == s[k..k + |q|];
      assert OccursAt(a, q, k);
    } else if k > |a| {
      OccursInTail(a + [c], b, q, k);
    } else {
      OccursCovers(s, q, k, |a|);
      assert false;
    }
  }

  lemma {:induction false} JoinNoDashes(parts: seq<string>)
    requires forall i :: 0 <= i < |parts| ==> NoDashes(parts[i])
    ensures NoDashes(Join(parts, "\n"))
  {
    if |parts| > 1 {
      JoinNoDashes(parts[1..]);
      var rest := Join(parts[1..], "\n");
      assert Join(parts, "\n") == parts[0] + ['\n'] + rest;
      forall q | q == EnDash || q == EmDash ensures !Contains(Join(parts, "\n"), q) {
        if Contains(Join(parts, "\n"), q) {
          var k :| 0 <= k <= |Join(parts, "\n")| - |q| && OccursAt(Join(parts, "\n"), q, k);
          ContainsAcross(parts[0], '\n', rest, q, k);
        }
      }
    }
  }

  /** `clean_text` leaves a text it has already normalised unchanged. */
  lemma {:induction false} CleanTextFixpoint(r: string)
    requires Normalized(r)
    ensures CleanText(r) == r
  {
    if r != [] {
      RemoveControlIdentity(r);
      assert UnifyQuotes(r) == r;
      ReplaceAllIdentity(r, EnDash, "-");
      ReplaceAllIdentity(r, EmDash, "-");
      assert Prepared(r) == r;
      CleanAllIdentity(Split(r, '\n'));
      JoinSplit(r, '\n');
    }
  }

  /** `clean_text` is idempotent: cleaning a cleaned text changes nothing. */
  lemma CleanTextIdempotent(t: string)
    ensures CleanText(CleanText(t)) == CleanText(t)
  {
    if t == [] {
      CleanTextEmpty();
    } else {
      CleanTextLines(t);
      JoinNormalized(CleanLines(t));
      CleanTextFixpoint(CleanText(t));
    }
  }

  // ----- option markers on their own lines (extractor.py:552) -----

  predicate IsOptionLetter(c: char) { 'A' <= c <= 'E' }

  predicate IsMarkerPunct(c: char) { c == '.' || c == ')' || c == ':' }

  /** `[A-E][.):]` at position k. */
  predicate MarkerAt(s: string, k: int) {
    0 <= k && k + 1 < |s| && IsOptionLetter(s[k]) && IsMarkerPunct(s[k + 1])
  }

  /** `re.sub(r'(?:\s*)([A-E][\.\)\:])', r'\n\1', text)`: a whitespace run (possibly
      empty) followed by a marker is replaced by a newline and the marker. */
  function BreakBeforeMarkers(s: string): string
    decreases |s|
  {
    if s == [] then []
    else
      var w := |s| - |LStrip(s)|;
      if MarkerAt(s, w) then "\n" + s[w..w + 2] + BreakBeforeMarkers(s[w + 2..])
      else [s[0]] + BreakBeforeMarkers(s[1..])
  }

  lemma {:induction false} BreakHead(s: string)
    requires s != []
    ensures BreakBeforeMarkers(s) != []
    ensures BreakBeforeMarkers(s)[0] == '\n' || BreakBeforeMarkers(s)[0] == s[0]
  {
    var w := |s| - |LStrip(s)|;
    if MarkerAt(s, w) {
      assert BreakBeforeMarkers(s) == "\n" + s[w..w + 2] + BreakBeforeMarkers(s[w + 2..]);
    } else {
      assert BreakBeforeMarkers(s) == [s[0]] + BreakBeforeMarkers(s[1..]);
    }
  }

  /** After the pass every option marker is immediately preceded by a newline. */
  lemma {:induction false} MarkerStartsLine(s: string, k: int)
    requires MarkerAt(BreakBeforeMarkers(s), k)
    ensures k > 0 && BreakBeforeMarkers(s)[k - 1] == '\n'
    decreases |s|, 1
  {
    var w := |s| - |LStrip(s)|;
    if MarkerAt(s, w) {
      MarkerStartsLineAtMarker(s, k);
    } else {
      MarkerStartsLineElsewhere(s, k);
    }
  }

  lemma {:induction false} MarkerStartsLineAtMarker(s: string, k: int)
    requires s != [] && MarkerAt(s, |s| - |LStrip(s)|)
    requires MarkerAt(BreakBeforeMarkers(s), k)
    ensures k > 0 && BreakBeforeMarkers(s)[k - 1] == '\n'
    decreases |s|, 0
  {
    var w := |s| - |LStrip(s)|;
    var r := BreakBeforeMarkers(s);
    var rest := BreakBeforeMarkers(s[w + 2..]);
    assert r == "\n" + s[w..w + 2] + rest;
    if k >= 3 {
      assert r[k] == rest[k - 3] && r[k + 1] == rest[k - 2];
      MarkerStartsLine(s[w + 2..], k - 3);
      assert r[k - 1] == rest[k - 4];
    }
  }

  lemma {:induction false} MarkerStartsLineElsewhere(s: string, k: int)
    requires s != [] && !MarkerAt(s, |s| - |LStrip(s)|)
    requires MarkerAt(BreakBeforeMarkers(s), k)
    ensures k > 0 && BreakBeforeMarkers(s)[k - 1] == '\n'
    decreases |s|, 0
  {
    var r := BreakBeforeMarkers(s);
    var rest := BreakBeforeMarkers(s[1..]);
    assert r == [s[0]] + rest;
    if k == 0 {
      assert LStrip(s) == s;
      BreakHead(s[1..]);
    } else {
      assert r[k] == rest[k - 1] && r[k + 1] == rest[k];
      MarkerStartsLine(s[1..], k - 1);
    }
  }

  /** The text with all whitespace (newlines included) removed. */
  function NonSpace(s: string): string {
    if s == [] then [] else (if IsSpace(s[0]) then [] else [s[0]]) + NonSpace(s[1..])
  }

  lemma {:induction false} NonSpaceConcat(a: string, b: string)
    ensures NonSpace(a + b) == NonSpace(a) + NonSpace(b)
  {
    if a == [] {
      assert a + b == b;
    } else {
      assert (a + b)[0] == a[0];
      assert (a + b)[1..] == a[1..] + b;
      NonSpaceConcat(a[1..], b);
    }
  }

  lemma {:induction false} NonSpaceOfSpaces(s: string)
    requires forall k :: 0 <= k < |s| ==> IsSpace(s[k])
    ensures NonSpace(s) == []
  {
    if s != [] {
      assert IsSpace(s[0]);
      NonSpaceOfSpaces(s[1..]);
    }
  }

  lemma {:induction false} NonSpaceConcat3(a: string, b: string, c: string)
    ensures NonSpace(a + b + c) == NonSpace(a) + NonSpace(b) + NonSpace(c)
  {
    NonSpaceConcat(a + b, c);
    NonSpaceConcat(a, b);
  }

  /** The pass only moves whitespace: what is not whitespace is kept, in order. */
  lemma {:induction false} BreakKeepsContent(s: string)
    ensures NonSpace(BreakBeforeMarkers(s)) == NonSpace(s)
    decreases |s|, 1
  {
    if s != [] {
      var w := |s| - |LStrip(s)|;
      if MarkerAt(s, w) {
        BreakKeepsContentAtMarker(s);
      } else {
        var rest := BreakBeforeMarkers(s[1..]);
        assert BreakBeforeMarkers(s) == [s[0]] + rest;
        BreakKeepsContent(s[1..]);
        NonSpaceConcat([s[0]], rest);
        NonSpaceConcat([s[0]], s[1..]);
        assert [s[0]] + s[1..] == s;
      }
    }
  }

  lemma {:induction false} BreakKeepsContentAtMarker(s: string)
    requires s != [] && MarkerAt(s, |s| - |LStrip(s)|)
    ensures NonSpace(BreakBeforeMarkers(s)) == NonSpace(s)
    decreases |s|, 0
  {
    var w := |s| - |LStrip(s)|;
    var rest := BreakBeforeMarkers(s[w + 2..]);
    assert BreakBeforeMarkers(s) == "\n" + s[w..w + 2] + rest;
    BreakKeepsContent(s[w + 2..]);
    NonSpaceConcat3("\n", s[w..w + 2], rest);
    assert NonSpace("\n") == [];
    LStripSpaces(s);
    NonSpaceOfSpaces(s[..w]);
    assert s == s[..w] + s[w..w + 2] + s[w + 2..];
    NonSpaceConcat3(s[..w], s[w..w + 2], s[w + 2..]);
  }
}
