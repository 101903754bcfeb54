/**
 * The pieces of Python's `str` and `re` behaviour that the extractor leans on:
 * whitespace as `str.isspace()` / `\s` see it, `strip`, `rstrip(ch)`,
 * `re.sub(r'\s+', ' ', s)`, `split('\n')`, `sep.join(...)`, `in`, `lower()`,
 * `count(ch)` and `replace(old, new)`.
 */
module Strings {

  /** Python's `str.isspace()`; `\s` and `str.strip()` use the same set on `str`. */
  predicate IsSpace(c: char) {
    ('\t' <= c <= '\r') || ('\U{1C}' <= c <= '\U{1F}') || c == ' ' || c == '\U{85}' || c == '\U{A0}'
    || c == '\U{1680}' || ('\U{2000}' <= c <= '\U{200A}') || c == '\U{2028}' || c == '\U{2029}'
    || c == '\U{202F}' || c == '\U{205F}' || c == '\U{3000}'
  }

  /** `\d`, restricted to ASCII digits. */
  predicate IsDigit(c: char) { '0' <= c <= '9' }

  predicate IsUpper(c: char) { 'A' <= c <= 'Z' }

  predicate IsLowerLetter(c: char) { 'a' <= c <= 'z' }

  function LowerChar(c: char): char { if IsUpper(c) then (c as int + 32) as char else c }

  function UpperChar(c: char): char { if IsLowerLetter(c) then (c as int - 32) as char else c }

  /** `str.lower()` on ASCII letters. */
  function Lower(s: string): (r: string)
    ensures |r| == |s|
  {
    seq(|s|, k requires 0 <= k < |s| => LowerChar(s[k]))
  }

  /** Leading whitespace removed: the longest suffix that does not start with a space. */
  function LStrip(s: string): (r: string)
    ensures |r| <= |s|
    ensures r == [] || !IsSpace(r[0])
    ensures s != [] && IsSpace(s[0]) ==> |r| < |s|
  {
    if s != [] && IsSpace(s[0]) then LStrip(s[1..]) else s
  }

  /** `LStrip` returns a suffix of its argument. */
  lemma {:induction false} LStripSuffix(s: string)
    ensures LStrip(s) == s[|s| - |LStrip(s)|..]
  {
    if s != [] && IsSpace(s[0]) {
      LStripSuffix(s[1..]);
    }
  }

  /** Only whitespace is cut off by `LStrip`. */
  lemma {:induction false} LStripSpaces(s: string)
    ensures forall k :: 0 <= k < |s| - |LStrip(s)| ==> IsSpace(s[k])
  {
    if s != [] && IsSpace(s[0]) {
      LStripSpaces(s[1..]);
      forall k | 1 <= k < |s| - |LStrip(s)| ensures IsSpace(s[k]) {
        assert s[k] == s[1..][k - 1];
      }
    }
  }

  /** Trailing whitespace removed: the longest prefix that does not end with a space. */
  function RStrip(s: string): (r: string)
    ensures |r| <= |s| && r == s[..|r|]
    ensures r == [] || !IsSpace(r[|r| - 1])
  {
    if s != [] && IsSpace(s[|s| - 1]) then RStrip(s[..|s| - 1]) else s
  }

  /** Only whitespace is cut off by `RStrip`. */
  lemma {:induction false} RStripSpaces(s: string)
    ensures forall k :: |RStrip(s)| <= k < |s| ==> IsSpace(s[k])
  {
    if s != [] && IsSpace(s[|s| - 1]) {
      RStripSpaces(s[..|s| - 1]);
      forall k | |RStrip(s)| <= k < |s| - 1 ensures IsSpace(s[k]) {
        assert s[k] == s[..|s| - 1][k];
      }
    }
  }

  /** `str.strip()`. */
  function Strip(s: string): string {
    RStrip(LStrip(s))
  }

  predicate NoEdgeSpace(s: string) {
    s == [] || (!IsSpace(s[0]) && !IsSpace(s[|s| - 1]))
  }

  /** Where the stripped text starts inside its argument. */
  function StripStart(s: string): nat {
    |s| - |LStrip(s)|
  }

  /** `strip()` returns a slice of its argument with no whitespace at either end. */
  lemma {:induction false} StripSlice(s: string)
    ensures var r, a := Strip(s), StripStart(s);
      && NoEdgeSpace(r)
      && a + |r| <= |s| && r == s[a..a + |r|]
  {
    var l := LStrip(s);
    LStripSuffix(s);
    var r := RStrip(l);
    var a := |s| - |l|;
    assert r == s[a..a + |r|];
    if r != [] {
      assert r[0] == l[0];
    }
  }

  lemma {:induction false} StripNoEdge(s: string)
    ensures NoEdgeSpace(Strip(s))
  {
    StripSlice(s);
  }

  /** `strip()` returns a slice of its argument with no whitespace at either end,
      and only whitespace is cut off. */
  lemma {:induction false} StripIsTrimmedSlice(s: string)
    ensures var r, a := Strip(s), StripStart(s);
      && NoEdgeSpace(r)
      && a + |r| <= |s| && r == s[a..a + |r|]
      && (forall k :: 0 <= k < a ==> IsSpace(s[k]))
      && (forall k :: a + |r| <= k < |s| ==> IsSpace(s[k]))
  {
    var l := LStrip(s);
    LStripSuffix(s);
    var r := RStrip(l);
    var a := |s| - |l|;
    LStripSpaces(s);
    RStripSpaces(l);
    assert r == s[a..a + |r|];
    forall k | a + |r| <= k < |s| ensures IsSpace(s[k]) {
      assert s[k] == l[k - a];
    }
    if r != [] {
      assert r[0] == l[0];
    }
  }

  lemma {:induction false} StripEmptyIffAllSpace(s: string)
    ensures Strip(s) == [] <==> forall k :: 0 <= k < |s| ==> IsSpace(s[k])
  {
    var l := LStrip(s);
    LStripSuffix(s);
    LStripSpaces(s);
    RStripSpaces(l);
    if Strip(s) == [] {
      forall k | 0 <= k < |s| ensures IsSpace(s[k]) {
        if k >= |s| - |l| {
          assert l[k - (|s| - |l|)] == s[k];
        }
      }
    } else {
      assert !IsSpace(Strip(s)[0]);
      assert Strip(s)[0] == l[0] == s[|s| - |l|];
    }
  }

  lemma {:induction false} StripOfTrimmed(s: string)
    requires NoEdgeSpace(s)
    ensures Strip(s) == s
  {
  }

  lemma {:induction false} StripIdempotent(s: string)
    ensures Strip(Strip(s)) == Strip(s)
  {
    StripSlice(s);
    StripOfTrimmed(Strip(s));
  }

  /** `str.rstrip(c)`: trailing copies of `c` removed. */
  function RStripChar(s: string, c: char): (r: string)
    ensures |r| <= |s| && r == s[..|r|]
    ensures r == [] || r[|r| - 1] != c
  {
    if s != [] && s[|s| - 1] == c then RStripChar(s[..|s| - 1], c) else s
  }

  /** `re.sub(r'\s+', ' ', s)`: every maximal whitespace run becomes one space. */
  function Collapse(s: string): (r: string)
    decreases |s|
  {
    if s == [] then []
    else if IsSpace(s[0]) then " " + Collapse(LStrip(s))
    else [s[0]] + Collapse(s[1..])
  }

  /** The only whitespace is single spaces. */
  predicate Collapsed(s: string) {
    && (forall k :: 0 <= k < |s| ==> IsSpace(s[k]) ==> s[k] == ' ')
    && (forall k :: 0 <= k < |s| - 1 ==> !(s[k] == ' ' && s[k + 1] == ' '))
  }

  lemma {:induction false} CollapseHead(s: string)
    ensures |Collapse(s)| <= |s|
    ensures s != [] ==> Collapse(s) != [] && (Collapse(s)[0] == ' ' <==> IsSpace(s[0]))
    ensures s != [] && !IsSpace(s[0]) ==> Collapse(s)[0] == s[0]
    decreases |s|
  {
    if s != [] {
      if IsSpace(s[0]) {
        CollapseHead(LStrip(s));
      } else {
        CollapseHead(s[1..]);
      }
    }
  }

  lemma {:induction false} CollapseIsCollapsed(s: string)
    ensures Collapsed(Collapse(s))
    decreases |s|
  {
    if s != [] {
      if IsSpace(s[0]) {
        var t := LStrip(s);
        CollapseIsCollapsed(t);
        CollapseHead(t);
      } else {
        CollapseIsCollapsed(s[1..]);
        CollapseHead(s[1..]);
      }
    }
  }

  /** Every character of the collapsed string is a space or comes from the input. */
  lemma {:induction false} CollapseChars(s: string)
    ensures forall c :: c in Collapse(s) ==> c == ' ' || c in s
    decreases |s|
  {
    if s != [] {
      if IsSpace(s[0]) {
        var t := LStrip(s);
        LStripSuffix(s);
        CollapseChars(t);
        forall c | c in t ensures c in s {
          var k :| 0 <= k < |t| && t[k] == c;
          assert s[|s| - |t| + k] == c;
        }
      } else {
        CollapseChars(s[1..]);
      }
    }
  }

  lemma {:induction false} CollapseOfCollapsed(s: string)
    requires Collapsed(s)
    requires s == [] || s[0] != ' ' || |s| == 1 || s[1] != ' '
    ensures Collapse(s) == s
    decreases |s|
  {
    if s != [] {
      SliceCollapsed(s, 1, |s|);
      if IsSpace(s[0]) {
        assert s[0] == ' ';
        if |s| > 1 {
          assert !IsSpace(s[1]);
        }
        assert LStrip(s[1..]) == s[1..];
        assert LStrip(s) == s[1..];
      }
      if |s| > 2 {
        assert !(s[1] == ' ' && s[2] == ' ');
      }
      CollapseOfCollapsed(s[1..]);
      assert [s[0]] + s[1..] == s;
    }
  }

  lemma {:induction false} SliceCollapsed(s: string, a: nat, b: nat)
    requires Collapsed(s) && a <= b <= |s|
    ensures Collapsed(s[a..b])
  {
    var t := s[a..b];
    forall k | 0 <= k < |t| - 1 ensures !(t[k] == ' ' && t[k + 1] == ' ') {
      assert t[k] == s[a + k] && t[k + 1] == s[a + k + 1];
    }
  }

  /** `re.sub(r'\s+', ' ', line).strip()`: one clean line. */
  function CleanLine(s: string): string {
    Strip(Collapse(s))
  }

  /** A line as the normaliser leaves it: collapsed and trimmed. */
  predicate Trimmed(s: string) {
    Collapsed(s) && NoEdgeSpace(s)
  }

  lemma {:induction false} CleanLineIsTrimmed(s: string)
    ensures Trimmed(CleanLine(s))
    ensures forall c :: c in CleanLine(s) ==> c == ' ' || c in s
  {
    var c := Collapse(s);
    CollapseIsCollapsed(s);
    CollapseChars(s);
    StripSlice(c);
    var r, a := Strip(c), StripStart(c);
    SliceCollapsed(c, a, a + |r|);
    forall ch | ch in r ensures ch in c {
      var k :| 0 <= k < |r| && r[k] == ch;
      assert c[a + k] == ch;
    }
  }

  lemma {:induction false} CleanLineOfTrimmed(s: string)
    requires Trimmed(s)
    ensures CleanLine(s) == s
  {
    CollapseOfCollapsed(s);
    StripOfTrimmed(s);
  }

  predicate StartsWith(s: string, p: string) {
    |p| <= |s| && s[..|p|] == p
  }

  /** `p` occurs in `s` at offset `k`. */
  predicate OccursAt(s: string, p: string, k: int) {
    0 <= k && k + |p| <= |s| && s[k..k + |p|] == p
  }

  /** Python's `p in s`. */
  predicate Contains(s: string, p: string) {
    exists k :: 0 <= k <= |s| - |p| && OccursAt(s, p, k)
  }

  lemma {:induction false} ContainsSuffix(s: string, p: string, i: nat)
    requires i <= |s| && Contains(s[i..], p)
    ensures Contains(s, p)
  {
    var k :| 0 <= k <= |s[i..]| - |p| && OccursAt(s[i..], p, k);
    assert s[i + k..i + k + |p|] == s[i..][k..k + |p|];
    assert OccursAt(s, p, i + k);
  }

  /** An occurrence past the end of `a` in `a + b` is an occurrence in `b`. */
  lemma {:induction false} OccursInTail(a: string, b: string, p: string, k: int)
    requires k >= |a| && OccursAt(a + b, p, k)
    ensures OccursAt(b, p, k - |a|)
  {
    assert b[k - |a|..k - |a| + |p|] == (a + b)[k..k + |p|];
  }

  /** Every character covered by an occurrence of `p` is a character of `p`. */
  lemma {:induction false} OccursCovers(s: string, p: string, k: int, i: int)
    requires OccursAt(s, p, k) && k <= i < k + |p|
    ensures s[i] in p
  {
    assert s[i] == s[k..k + |p|][i - k];
  }

  /** An occurrence in the stripped text is an occurrence in the text. */
  lemma {:induction false} StripOccurs(s: string, p: string, k: int)
    requires OccursAt(Strip(s), p, k)
    ensures OccursAt(s, p, StripStart(s) + k)
  {
    var r := Strip(s);
    var a := StripStart(s);
    StripSlice(s);
    assert OccursAt(s[a..a + |r|], p, k);
    OccursInSlice(s, a, a + |r|, p, k);
  }

  /** An occurrence inside a slice is an occurrence in the whole text. */
  lemma {:induction false} OccursInSlice(s: string, a: nat, b: nat, p: string, k: int)
    requires a <= b <= |s| && OccursAt(s[a..b], p, k)
    ensures OccursAt(s, p, a + k)
  {
    forall i | 0 <= i < |p| ensures s[a + k + i] == p[i] {
      assert p[i] == s[a..b][k + i];
    }
    assert s[a + k..a + k + |p|] == p;
  }

  lemma {:induction false} ContainsChar(s: string, c: char)
    ensures Contains(s, [c]) <==> c in s
  {
    if Contains(s, [c]) {
      var k :| 0 <= k <= |s| - 1 && OccursAt(s, [c], k);
      assert s[k] == s[k..k + 1][0] == c;
    }
    if c in s {
      var k :| 0 <= k < |s| && s[k] == c;
      assert s[k..k + 1] == [c];
      assert OccursAt(s, [c], k);
    }
  }

  /** `any(kw in s for kw in kws)`. */
  predicate ContainsAny(s: string, kws: seq<string>) {
    exists k :: 0 <= k < |kws| && Contains(s, kws[k])
  }

  /** `s.count(c)`. */
  function CountChar(s: string, c: char): nat {
    if s == [] then 0 else (if s[0] == c then 1 else 0) + CountChar(s[1..], c)
  }

  /** `s.replace(pat, rep)`: leftmost, non-overlapping occurrences. */
  function ReplaceAll(s: string, pat: string, rep: string): string
    requires pat != []
    decreases |s|
  {
    if s == [] then []
    else if StartsWith(s, pat) then rep + ReplaceAll(s[|pat|..], pat, rep)
    else [s[0]] + ReplaceAll(s[1..], pat, rep)
  }

  /** `sep.join(parts)`. */
  function Join(parts: seq<string>, sep: string): string {
    if parts == [] then []
    else if |parts| == 1 then parts[0]
    else parts[0] + sep + Join(parts[1..], sep)
  }

  /** `s.split(c)` with a one-character separator: always at least one piece. */
  function Split(s: string, c: char): (r: seq<string>)
    ensures |r| >= 1
  {
    if s == [] then [[]]
    else
      var rest := Split(s[1..], c);
      if s[0] == c then [[]] + rest else [[s[0]] + rest[0]] + rest[1..]
  }

  lemma {:induction false} SplitPiecesLackSeparator(s: string, c: char)
    ensures forall k :: 0 <= k < |Split(s, c)| ==> c !in Split(s, c)[k]
  {
    if s != [] {
      SplitPiecesLackSeparator(s[1..], c);
    }
  }

  lemma {:induction false} SplitWithout(a: string, c: char)
    requires c !in a
    ensures Split(a, c) == [a]
  {
    if a != [] {
      SplitWithout(a[1..], c);
      assert [a[0]] + a[1..] == a;
    }
  }

  lemma {:induction false} SplitAround(a: string, b: string, c: char)
    requires c !in a
    ensures Split(a + [c] + b, c) == [a] + Split(b, c)
  {
    if a == [] {
      assert ([c] + b)[1..] == b;
    } else {
      assert (a + [c] + b)[1..] == a[1..] + [c] + b;
      SplitAround(a[1..], b, c);
      assert [a[0]] + a[1..] == a;
    }
  }

  /** Splitting a newline-joined list of lines gives the lines back. */
  lemma {:induction false} SplitJoin(parts: seq<string>, c: char)
    requires |parts| >= 1
    requires forall k :: 0 <= k < |parts| ==> c !in parts[k]
    ensures Split(Join(parts, [c]), c) == parts
  {
    if |parts| == 1 {
      SplitWithout(parts[0], c);
    } else {
      SplitJoin(parts[1..], c);
      SplitAround(parts[0], Join(parts[1..], [c]), c);
    }
  }

  /** Joining the pieces of a split gives the string back. */
  lemma {:induction false} JoinSplit(s: string, c: char)
    ensures Join(Split(s, c), [c]) == s
  {
    if s != [] {
      JoinSplit(s[1..], c);
      var rest := Split(s[1..], c);
      if s[0] != c {
        if |rest| > 1 {
          assert Join(rest, [c]) == rest[0] + [c] + Join(rest[1..], [c]);
          assert [s[0]] + rest[0] + [c] + Join(rest[1..], [c]) == s;
        } else {
          assert [s[0]] + rest[0] == s;
        }
      } else {
        assert [c] + s[1..] == s;
      }
    }
  }

  /** Every character of a join comes from a part or from the separator. */
  lemma {:induction false} JoinChars(parts: seq<string>, sep: string)
    ensures forall ch :: ch in Join(parts, sep) ==> ch in sep || exists k :: 0 <= k < |parts| && ch in parts[k]
  {
    if |parts| > 1 {
      JoinChars(parts[1..], sep);
      forall ch | ch in Join(parts, sep)
        ensures ch in sep || exists k :: 0 <= k < |parts| && ch in parts[k]
      {
        if ch !in parts[0] && ch !in sep {
          assert ch in Join(parts[1..], sep);
          if !(ch in sep) {
            var k :| 0 <= k < |parts[1..]| && ch in parts[1..][k];
            assert ch in parts[k + 1];
          }
        }
      }
    }
  }

  /** The first position at or after `q` that does not hold whitespace (`\s*` from `q`). */
  function SkipSpaces(s: string, q: nat): (r: nat)
    requires q <= |s|
    ensures q <= r <= |s|
    ensures r < |s| ==> !IsSpace(s[r])
    ensures forall k :: q <= k < r ==> IsSpace(s[k])
    decreases |s| - q
  {
    if q < |s| && IsSpace(s[q]) then SkipSpaces(s, q + 1) else q
  }

  /** Length of the run of ASCII digits at the start of `s`. */
  function DigitRun(s: string): (n: nat)
    ensures n <= |s|
    ensures forall k :: 0 <= k < n ==> IsDigit(s[k])
    ensures n < |s| ==> !IsDigit(s[n])
  {
    if s != [] && IsDigit(s[0]) then 1 + DigitRun(s[1..]) else 0
  }
}
