/**
 * The storage boundary of a question (backend/models.py:26-56): the three field
 * validators of the `Question` record and the rule that turns its stored image into a
 * data URL. A validator either returns the value to store or raises `ValueError`,
 * modelled as `Failure` with the message.
 */
module Models {
  import opened Wrappers
  import opened Strings

  // ----- question -----

  /** `(value or "").strip()`, rejected when empty. */
  function ValidateQuestion(value: Option<string>): (r: Result<string, string>)
    ensures r.Success? <==> value.Some? && Strip(value.value) != []
    ensures r.Success? ==> r.value != [] && NoEdgeSpace(r.value)
  {
    var s := Strip(if value.Some? then value.value else "");
    if s == [] then Failure("Question text cannot be empty") else (StripNoEdge(if value.Some? then value.value else ""); Success(s))
  }

  /** A stored question passes the validator unchanged: validation is idempotent. */
  lemma ValidateQuestionIdempotent(value: Option<string>)
    requires ValidateQuestion(value).Success?
    ensures ValidateQuestion(Some(ValidateQuestion(value).value)) == ValidateQuestion(value)
  {
    StripIdempotent(value.value);
  }

  // ----- options -----

  /** The value given for the options: a list of strings, or anything else. */
  datatype OptionsValue = List(items: seq<string>) | NotAList

  /** The entries stripped, blank entries dropped, in order. */
  function Cleaned(items: seq<string>): (r: seq<string>)
    ensures |r| <= |items|
  {
    if items == [] then []
    else
      var s := Strip(items[0]);
      (if s == [] then [] else [s]) + Cleaned(items[1..])
  }

  /** The cleaned entries are non-blank and trimmed. */
  lemma {:induction false} CleanedTrimmed(items: seq<string>)
    ensures forall k :: 0 <= k < |Cleaned(items)| ==> Cleaned(items)[k] != [] && NoEdgeSpace(Cleaned(items)[k])
  {
    if items != [] {
      CleanedTrimmed(items[1..]);
      StripNoEdge(items[0]);
    }
  }

  /** Entries that are all non-blank and trimmed are kept as they are. */
  lemma {:induction false} CleanedOfTrimmed(items: seq<string>)
    requires forall k :: 0 <= k < |items| ==> items[k] != [] && NoEdgeSpace(items[k])
    ensures Cleaned(items) == items
  {
    if items != [] {
      CleanedOfTrimmed(items[1..]);
      StripOfTrimmed(items[0]);
      assert [items[0]] + items[1..] == items;
    }
  }

  /** Cleaning the cleaned entries again changes nothing. */
  lemma CleanedIdempotent(items: seq<string>)
    ensures Cleaned(Cleaned(items)) == Cleaned(items)
  {
    CleanedTrimmed(items);
    CleanedOfTrimmed(Cleaned(items));
  }

  /** Every entry that is not blank survives, stripped and in its place among the others. */
  lemma {:induction false} CleanedKeeps(items: seq<string>, i: nat)
    requires i < |items| && Strip(items[i]) != []
    ensures var before := Cleaned(items[..i]);
      |before| < |Cleaned(items)| && Cleaned(items)[|before|] == Strip(items[i])
  {
    if i == 0 {
      assert items[..0] == [];
    } else {
      CleanedKeeps(items[1..], i - 1);
      assert items[1..][..i - 1] == items[..i][1..];
      assert items[..i][0] == items[0];
    }
  }

  /**
   * Fewer than two entries, or fewer than two that are not blank, are rejected; otherwise
   * the cleaned entries are stored.
   */
  function ValidateOptions(value: OptionsValue): (r: Result<seq<string>, string>)
    ensures r.Success? <==> value.List? && |value.items| >= 2 && |Cleaned(value.items)| >= 2
    ensures r.Success? ==> r.value == Cleaned(value.items)
  {
    if value.NotAList? || |value.items| < 2 then Failure("Each MCQ must provide at least two options")
    else
      var cleaned := Cleaned(value.items);
      if |cleaned| < 2 then Failure("Options cannot all be blank") else Success(cleaned)
  }

  /** Stored options have at least two entries, each non-blank and trimmed, and pass the validator unchanged. */
  lemma ValidateOptionsStored(value: OptionsValue)
    requires ValidateOptions(value).Success?
    ensures var c := ValidateOptions(value).value;
      && |c| >= 2
      && (forall k :: 0 <= k < |c| ==> c[k] != [] && NoEdgeSpace(c[k]))
      && ValidateOptions(List(c)) == Success(c)
  {
    CleanedTrimmed(value.items);
    CleanedOfTrimmed(Cleaned(value.items));
  }

  // ----- answer index -----

  /** `None` passes; a negative index is rejected; any other index is stored, with no upper bound. */
  function ValidateCorrectOption(value: Option<int>): (r: Result<Option<int>, string>)
    ensures r.Success? <==> value.None? || value.value >= 0
    ensures r.Success? ==> r.value == value
  {
    if value.None? then Success(value)
    else if value.value < 0 then Failure("Correct option index cannot be negative")
    else Success(value)
  }

  /** The validator bounds the index from below only: any index past the options is stored. */
  lemma CorrectOptionUnbounded(options: seq<string>, n: nat)
    requires n >= |options|
    ensures ValidateCorrectOption(Some(n)) == Success(Some(n as int))
  {
  }

  // ----- image URL -----

  const DataPrefix := "data:image/"
  const Base64Marker := ";base64,"

  /**
   * The `image_url` of `to_dict`: none unless both the image bytes and the image type are
   * present and non-empty; otherwise a data URL of the type and the Base64 text of the bytes.
   * `b64` is the Base64 encoder, which is not part of this model.
   */
  function ImageUrl(data: Option<seq<bv8>>, kind: Option<string>, b64: seq<bv8> -> string): (r: Option<string>)
    ensures r.Some? <==> data.Some? && data.value != [] && kind.Some? && kind.value != []
  {
    if data.Some? && data.value != [] && kind.Some? && kind.value != [] then
      Some(DataPrefix + kind.value + Base64Marker + b64(data.value))
    else None
  }

  /** The position of the first `c` in `s`, if any. */
  function Find(s: string, c: char): (r: Option<nat>)
    ensures r.Some? ==> r.value < |s| && s[r.value] == c && c !in s[..r.value]
    ensures r.None? ==> c !in s
  {
    if s == [] then None
    else if s[0] == c then Some(0)
    else match Find(s[1..], c)
      case None => None
      case Some(i) => (assert s[..i + 1] == [s[0]] + s[1..][..i]; Some(i + 1))
  }

  /** Reads a data URL back into the image type and the Base64 text. */
  function ReadDataUrl(url: string): Option<(string, string)> {
    if |url| < |DataPrefix| || url[..|DataPrefix|] != DataPrefix then None
    else
      var rest := url[|DataPrefix|..];
      match Find(rest, ';')
      case None => None
      case Some(i) =>
        if |rest| < i + |Base64Marker| || rest[i..i + |Base64Marker|] != Base64Marker then None
        else Some((rest[..i], rest[i + |Base64Marker|..]))
  }

  /** The image type and the Base64 text can be read back from the URL whenever the type has no `;`. */
  lemma ImageUrlRoundTrip(data: seq<bv8>, kind: string, b64: seq<bv8> -> string)
    requires data != [] && kind != [] && ';' !in kind
    ensures ReadDataUrl(ImageUrl(Some(data), Some(kind), b64).value) == Some((kind, b64(data)))
  {
    var url := ImageUrl(Some(data), Some(kind), b64).value;
    var rest := kind + Base64Marker + b64(data);
    assert url[..|DataPrefix|] == DataPrefix;
    assert url[|DataPrefix|..] == rest;
    assert rest[|kind|] == ';';
    assert rest[..|kind|] == kind;
    assert Find(rest, ';') == Some(|kind|);
    assert rest[|kind|..|kind| + |Base64Marker|] == Base64Marker;
    assert rest[|kind| + |Base64Marker|..] == b64(data);
  }
}
