/** The AI-only link verifier (`verifyLoanLink` of verify.service.js, the one
    the server mounts): ask the model, cut the JSON object out of its text with
    the greedy pattern `/\{[\s\S]*\}/`, and parse it. Every failure becomes an
    error with a message; there is no fallback verdict.

    The AI call is given as its text or its error's message; `parseJson` gives
    the parsed value or `None` when `JSON.parse` throws. */
module VerifyService {
  import opened Wrappers
  import opened Text

  const NoAnalysis: string := "AI did not provide a valid analysis."
  const Malformed: string := "AI returned a malformed response."
  const DefaultFailure: string := "Failed to analyze the link."

  /** Where the greedy match lies: from the first '{' to just after the last
      '}', when the first '{' comes before the last '}'. */
  function JsonSpan(text: string): (r: Option<(nat, nat)>)
    ensures r.Some? ==> && r.value.0 < r.value.1 <= |text|
                        && FirstIndexOf(text, '{') == Some(r.value.0)
                        && LastIndexOf(text, '}') == Some(r.value.1 - 1)
    ensures r.None? <==> FirstIndexOf(text, '{').None? || LastIndexOf(text, '}').None?
                         || FirstIndexOf(text, '{').value > LastIndexOf(text, '}').value
  {
    match FirstIndexOf(text, '{')
    case None => None
    case Some(p) =>
      match LastIndexOf(text, '}')
      case None => None
      case Some(q) => if p < q then Some((p, q + 1)) else None
  }

  /** `text.match(/\{[\s\S]*\}/)[0]`, or `None` when there is no match. */
  function JsonCandidate(text: string): (r: Option<string>)
    ensures r.Some? ==> |r.value| >= 2 && r.value[0] == '{' && r.value[|r.value| - 1] == '}'
    ensures r.Some? <==> JsonSpan(text).Some?
    ensures r.Some? ==> r.value == text[JsonSpan(text).value.0..JsonSpan(text).value.1]
  {
    match JsonSpan(text)
    case None => None
    case Some(span) => Some(text[span.0..span.1])
  }

  /** The leftmost-longest reading of the pattern: a candidate exists exactly
      when some '{' precedes some '}', and then it spans every such pair. */
  lemma CandidateIsLeftmostLongest(text: string)
    ensures JsonCandidate(text).Some?
            <==> exists i, j :: 0 <= i < j < |text| && text[i] == '{' && text[j] == '}'
    ensures JsonSpan(text).Some? ==>
              forall i, j :: 0 <= i < j < |text| && text[i] == '{' && text[j] == '}'
                ==> JsonSpan(text).value.0 <= i && j < JsonSpan(text).value.1
  {
    var first := FirstIndexOf(text, '{');
    var last := LastIndexOf(text, '}');
    forall i, j | 0 <= i < j < |text| && text[i] == '{' && text[j] == '}'
      ensures first.Some? && last.Some? && first.value <= i && j <= last.value
    {
      FirstIndexOfBound(text, '{', i);
      LastIndexOfBound(text, '}', j);
    }
    if exists i, j :: 0 <= i < j < |text| && text[i] == '{' && text[j] == '}' {
      var i, j :| 0 <= i < j < |text| && text[i] == '{' && text[j] == '}';
      assert first.value <= i < j <= last.value;
    }
    if JsonSpan(text).Some? {
      var p := first.value;
      var q := last.value;
      assert 0 <= p < q < |text| && text[p] == '{' && text[q] == '}';
    }
  }

  /** A text that is itself one brace-delimited object is taken whole. */
  lemma WholeTextIsCandidate(text: string)
    requires |text| >= 2 && text[0] == '{' && text[|text| - 1] == '}'
    ensures JsonCandidate(text) == Some(text)
  {
    assert FirstIndexOf(text, '{') == Some(0);
    assert LastIndexOf(text, '}') == Some(|text| - 1);
    assert text[0..|text|] == text;
  }

  /** The rethrow in the outer `catch`: the error keeps its message, and an
      empty message is replaced by the default. */
  function Rethrown(message: string): (m: string)
    ensures message != "" ==> m == message
    ensures m != ""
  {
    if message == "" then DefaultFailure else message
  }

  function VerifyLoanLink<J>(ai: Result<string, string>, parseJson: string -> Option<J>)
    : (r: Result<J, string>)
    ensures ai.Err? ==> r == Err(Rethrown(ai.error))
    ensures ai.Ok? && JsonCandidate(ai.value).None? ==> r == Err(NoAnalysis)
    ensures ai.Ok? && JsonCandidate(ai.value).Some? ==>
              r == (match parseJson(JsonCandidate(ai.value).value)
                    case None => Err(Malformed)
                    case Some(j) => Ok(j))
    ensures r.Err? ==> r.error != ""
  {
    match ai
    case Err(message) => Err(Rethrown(message))
    case Ok(text) =>
      match JsonCandidate(text)
      case None => Err(Rethrown(NoAnalysis))
      case Some(candidate) =>
        match parseJson(candidate)
        case None => Err(Rethrown(Malformed))
        case Some(j) => Ok(j)
  }

  /** A successful answer always comes from parsing the candidate: nothing is
      returned that the model did not write. */
  lemma OkOnlyFromParse<J>(ai: Result<string, string>, parseJson: string -> Option<J>)
    requires VerifyLoanLink(ai, parseJson).Ok?
    ensures ai.Ok? && JsonCandidate(ai.value).Some?
    ensures parseJson(JsonCandidate(ai.value).value) == Some(VerifyLoanLink(ai, parseJson).value)
  {
  }
}
