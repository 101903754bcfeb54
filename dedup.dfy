/**
 * Keeping the first record per question, as the orchestrator does after the primary
 * parser (backend/extractor.py:892-913) and the language-model structurer does across
 * chunks (backend/extractor.py:1136-1147): the key of a record is the first 100
 * characters of its stripped question, lower-cased; a record whose key is already in
 * the dictionary is dropped, and the dictionary's values come out in insertion order.
 */
module Dedup {
  import opened Strings
  import opened Records

  /** `q.strip()[:100].lower()`. */
  function Key(q: string): (k: string)
    ensures |k| <= 100
  {
    var s := Strip(q);
    Lower(if |s| <= 100 then s else s[..100])
  }

  /** Which records take part: the structurer keeps any non-empty question; the orchestrator also drops malformed ones. */
  datatype Admission = AnyQuestion | WellFormedQuestion

  /**
   * The question filter. `WellFormedQuestion`: at least five characters after stripping,
   * at most one question mark and no line break.
   */
  predicate Admits(a: Admission, q: string) {
    var s := Strip(q);
    match a
    case AnyQuestion => s != []
    case WellFormedQuestion => s != [] && |s| >= 5 && CountChar(s, '?') <= 1 && '\n' !in s
  }

  /** The keys of the records `ms`. */
  function Keys(ms: seq<Mcq>): set<string> {
    set k | 0 <= k < |ms| :: Key(ms[k].question)
  }

  /** The values of the dictionary after the records `ms`. */
  function Unique(ms: seq<Mcq>, a: Admission): seq<Mcq> {
    if ms == [] then []
    else
      var u := Unique(ms[..|ms| - 1], a);
      var m := ms[|ms| - 1];
      if Admits(a, m.question) && Key(m.question) !in Keys(u) then u + [m] else u
  }

  /** The keys of the admitted records of `ms`. */
  function AdmittedKeys(ms: seq<Mcq>, a: Admission): set<string> {
    set k | 0 <= k < |ms| && Admits(a, ms[k].question) :: Key(ms[k].question)
  }

  /** Record `i` of `ms` is admitted and no admitted record before it has its key. */
  predicate FirstOfKey(ms: seq<Mcq>, i: nat, a: Admission)
    requires i < |ms|
  {
    && Admits(a, ms[i].question)
    && forall j :: 0 <= j < i && Admits(a, ms[j].question) ==> Key(ms[j].question) != Key(ms[i].question)
  }

  /** The records that are first of their key, in input order: an independent statement of what the dictionary keeps. */
  function Firsts(ms: seq<Mcq>, a: Admission): seq<Mcq> {
    if ms == [] then []
    else Firsts(ms[..|ms| - 1], a) + (if FirstOfKey(ms, |ms| - 1, a) then [ms[|ms| - 1]] else [])
  }

  lemma KeysAppend(u: seq<Mcq>, m: Mcq)
    ensures Keys(u + [m]) == Keys(u) + {Key(m.question)}
  {
    var v := u + [m];
    forall x | x in Keys(v) ensures x in Keys(u) + {Key(m.question)} {
      var k :| 0 <= k < |v| && x == Key(v[k].question);
      if k < |u| {
        assert v[k] == u[k];
      }
    }
    forall x | x in Keys(u) ensures x in Keys(v) {
      var k :| 0 <= k < |u| && x == Key(u[k].question);
      assert v[k] == u[k];
    }
    assert v[|u|] == m;
  }

  lemma AdmittedKeysShrink(ms: seq<Mcq>, a: Admission, x: string)
    requires ms != [] && x in AdmittedKeys(ms, a)
    ensures x in AdmittedKeys(ms[..|ms| - 1], a) || (Admits(a, ms[|ms| - 1].question) && x == Key(ms[|ms| - 1].question))
  {
    var init := ms[..|ms| - 1];
    var k :| 0 <= k < |ms| && Admits(a, ms[k].question) && x == Key(ms[k].question);
    if k < |init| {
      assert ms[k] == init[k];
    }
  }

  lemma AdmittedKeysGrow(ms: seq<Mcq>, a: Admission)
    requires ms != []
    ensures var init, m := ms[..|ms| - 1], ms[|ms| - 1];
      AdmittedKeys(init, a) + (if Admits(a, m.question) then {Key(m.question)} else {}) <= AdmittedKeys(ms, a)
  {
    var init := ms[..|ms| - 1];
    forall x | x in AdmittedKeys(init, a) ensures x in AdmittedKeys(ms, a) {
      var k :| 0 <= k < |init| && Admits(a, init[k].question) && x == Key(init[k].question);
      assert ms[k] == init[k];
    }
  }

  lemma AdmittedKeysAppend(ms: seq<Mcq>, a: Admission)
    requires ms != []
    ensures var init, m := ms[..|ms| - 1], ms[|ms| - 1];
      AdmittedKeys(ms, a) == AdmittedKeys(init, a) + (if Admits(a, m.question) then {Key(m.question)} else {})
  {
    forall x | x in AdmittedKeys(ms, a) ensures x in AdmittedKeys(ms[..|ms| - 1], a) + (if Admits(a, ms[|ms| - 1].question) then {Key(ms[|ms| - 1].question)} else {}) {
      AdmittedKeysShrink(ms, a, x);
    }
    AdmittedKeysGrow(ms, a);
  }

  /** No admitted question is lost: the kept keys are exactly the keys of the admitted records. */
  lemma {:induction false} UniqueKeys(ms: seq<Mcq>, a: Admission)
    ensures Keys(Unique(ms, a)) == AdmittedKeys(ms, a)
  {
    if ms != [] {
      var init, m := ms[..|ms| - 1], ms[|ms| - 1];
      UniqueKeys(init, a);
      AdmittedKeysAppend(ms, a);
      var u := Unique(init, a);
      if Admits(a, m.question) && Key(m.question) !in Keys(u) {
        KeysAppend(u, m);
      }
    }
  }

  /** The kept records are admitted and their keys are pairwise distinct. */
  lemma {:induction false} UniqueDistinct(ms: seq<Mcq>, a: Admission)
    ensures forall k :: 0 <= k < |Unique(ms, a)| ==> Admits(a, Unique(ms, a)[k].question)
    ensures forall i, j :: 0 <= i < j < |Unique(ms, a)| ==> Key(Unique(ms, a)[i].question) != Key(Unique(ms, a)[j].question)
  {
    if ms != [] {
      var init, m := ms[..|ms| - 1], ms[|ms| - 1];
      UniqueDistinct(init, a);
      var u := Unique(init, a);
      if Admits(a, m.question) && Key(m.question) !in Keys(u) {
        var v := u + [m];
        forall i, j | 0 <= i < j < |v| ensures Key(v[i].question) != Key(v[j].question) {
          if j == |u| {
            assert v[i] == u[i];
            assert Key(u[i].question) in Keys(u);
          }
        }
      }
    }
  }

  /** The last record is first of its key exactly when it is admitted and no earlier admitted record has its key. */
  lemma LastFirstOfKey(ms: seq<Mcq>, a: Admission)
    requires ms != []
    ensures var n, m := |ms|, ms[|ms| - 1];
      FirstOfKey(ms, n - 1, a) <==> Admits(a, m.question) && Key(m.question) !in AdmittedKeys(ms[..n - 1], a)
  {
    var n, init, m := |ms|, ms[..|ms| - 1], ms[|ms| - 1];
    if Admits(a, m.question) {
      if Key(m.question) in AdmittedKeys(init, a) {
        var j :| 0 <= j < |init| && Admits(a, init[j].question) && Key(m.question) == Key(init[j].question);
        assert ms[j] == init[j];
      } else {
        forall j | 0 <= j < n - 1 && Admits(a, ms[j].question) ensures Key(ms[j].question) != Key(m.question) {
          assert ms[j] == init[j];
          assert Key(init[j].question) in AdmittedKeys(init, a);
        }
      }
    }
  }

  /** The first admitted record of each key is kept, in input order, and nothing else is: the dictionary keeps exactly `Firsts`. */
  lemma {:induction false} UniqueIsFirsts(ms: seq<Mcq>, a: Admission)
    ensures Unique(ms, a) == Firsts(ms, a)
  {
    if ms != [] {
      var init := ms[..|ms| - 1];
      UniqueIsFirsts(init, a);
      UniqueKeys(init, a);
      LastFirstOfKey(ms, a);
    }
  }

  /** The dictionary loop as written: a set of seen keys beside the kept records. */
  method DedupByKey(ms: seq<Mcq>, a: Admission) returns (kept: seq<Mcq>)
    ensures kept == Unique(ms, a)
  {
    kept := [];
    var seen: set<string> := {};
    var k := 0;
    while k < |ms|
      invariant k <= |ms|
      invariant kept == Unique(ms[..k], a)
      invariant seen == Keys(kept)
    {
      assert ms[..k + 1][..k] == ms[..k];
      var m := ms[k];
      if Admits(a, m.question) {
        var key := Key(m.question);
        if key !in seen {
          KeysAppend(kept, m);
          kept := kept + [m];
          seen := seen + {key};
        }
      }
      k := k + 1;
    }
    assert ms[..k] == ms;
  }
}
