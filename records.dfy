/**
 * The record every parser produces: the dictionary with keys `question`, `options`,
 * `correct_option`, optionally `explanation`, and the `image_data` / `image_type` pair
 * the orchestrator attaches.
 */
module Records {
  import opened Wrappers

  /** An image taken from the PDF: raw bytes and a type such as "png". */
  datatype Image = Image(data: seq<bv8>, kind: string)

  /**
   * `correctOption` is `None` for Python's `None`; `explanation` is `None` when the
   * parser does not set the key at all; `image` is `None` until one is attached.
   */
  datatype Mcq = Mcq(
    question: string,
    options: seq<string>,
    correctOption: Option<nat>,
    explanation: Option<string>,
    image: Option<Image>)

  /**
   * Where a parser's code is evidently wrong, it is modelled twice: as the program is
   * written, which is what the orchestrator runs, and as it is evidently meant to work.
   */
  datatype Reading = AsWritten | Corrected

  /** A record as the specialised parsers build it: explanation `''`, no image. */
  function Plain(question: string, options: seq<string>, answer: Option<nat>): (m: Mcq)
    ensures m.question == question && m.options == options && m.correctOption == answer
    ensures m.explanation == Some("") && m.image == None
  {
    Mcq(question, options, answer, Some(""), None)
  }
}
