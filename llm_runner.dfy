/**
  `run_llm` (src/llm/llm_runner.py): one call to the local LLM, the first
  completion's text stripped of surrounding whitespace, and a parse of that
  text as JSON that falls back to a fixed empty answer when decoding fails.

  The LLM and the JSON decoder are foreign code, so both are parameters: the
  LLM is a function from the request it receives to the completion it
  returns, and the decoder answers `None` exactly where `json.loads` raises
  `JSONDecodeError`. The run records the requests made so that "called once,
  with these settings" can be stated.
 */
module LlmRunner {
  import opened Text
  import opened AnswerSchema

  datatype Option<T> = None | Some(value: T)

  /** A decoded JSON value. Numbers are kept as their literal text, since
      nothing here computes with them; object members keep their order. */
  datatype Json =
    | Null
    | Bool(b: bool)
    | Number(literal: string)
    | Str(text: string)
    | Array(items: seq<Json>)
    | Object(members: seq<(string, Json)>)

  /** Generation settings passed on every call. */
  const MaxTokens: nat := 1024
  const StopSequences: seq<string> := ["</s>"]

  /** What the LLM is called with, and what it answers. */
  datatype Request = Request(prompt: string, maxTokens: nat, stop: seq<string>)
  datatype Choice = Choice(text: string)
  datatype Completion = Completion(choices: seq<Choice>)

  /** `response["choices"][0]` on an empty list raises `IndexError`, which
      `run_llm` does not catch. */
  datatype Failure = NoChoices

  datatype Outcome = Returned(value: Json) | Raised(failure: Failure)

  /** The requests sent to the LLM, in order, and how the call ended. */
  datatype LlmRun = LlmRun(requests: seq<Request>, outcome: Outcome)

  /** The names of an object's members, in order; empty for other values. */
  function Keys(j: Json): (r: seq<string>)
    ensures !j.Object? ==> r == []
    ensures j.Object? ==> |r| == |j.members|
    ensures j.Object? ==> forall i :: 0 <= i < |r| ==> r[i] == j.members[i].0
  {
    if j.Object? then seq(|j.members|, i requires 0 <= i < |j.members| => j.members[i].0) else []
  }

  /** The value of the first of `members` called `key`, if there is one.
      A decoded object holds at most one member per name (`json.loads` keeps
      the last of duplicates), so on decoded objects "first" is "only". */
  function Lookup(members: seq<(string, Json)>, key: string): (r: Option<Json>)
    ensures r.None? <==> forall i :: 0 <= i < |members| ==> members[i].0 != key
    ensures r.Some? ==> exists i :: 0 <= i < |members| && members[i] == (key, r.value)
                                  && forall k :: 0 <= k < i ==> members[k].0 != key
  {
    if members == [] then None
    else if members[0].0 == key then Some(members[0].1)
    else
      var r := Lookup(members[1..], key);
      assert r.Some? ==> exists i :: 0 <= i < |members| && members[i] == (key, r.value)
                                     && forall k :: 0 <= k < i ==> members[k].0 != key by {
        if r.Some? {
          var k :| 0 <= k < |members[1..]| && members[1..][k] == (key, r.value)
                   && forall n :: 0 <= n < k ==> members[1..][n].0 != key;
          assert members[k + 1] == (key, r.value);
          assert forall n :: 0 <= n < k + 1 ==> members[n].0 != key by {
            forall n | 0 <= n < k + 1 ensures members[n].0 != key {
              if n > 0 { assert members[n] == members[1..][n - 1]; }
            }
          }
        }
      }
      r
  }

  /** The answer returned when the completion does not decode. */
  function Fallback(): Json {
    Object([(ExtractedSections, Array([])), (SubsectionAnalysis, Array([]))])
  }

  /** The request `run_llm` sends for a prompt. */
  function RequestFor(prompt: string): Request {
    Request(prompt, MaxTokens, StopSequences)
  }

  /** `run_llm(prompt)`: exactly one request, with the fixed settings; an
      empty choice list is the only way the call raises, so a decode failure
      never escapes; whatever is returned is either the fallback or a value
      the decoder produced from the stripped text of the first choice. */
  function RunLlm(prompt: string, llm: Request -> Completion, parse: string -> Option<Json>): (r: LlmRun)
    ensures r.requests == [Request(prompt, 1024, ["</s>"])]
    ensures r.outcome.Raised? <==> llm(RequestFor(prompt)).choices == []
    ensures r.outcome.Returned? ==>
      var text := llm(RequestFor(prompt)).choices[0].text;
      || (parse(Strip(text)) == None && r.outcome.value == Fallback())
      || parse(Strip(text)) == Some(r.outcome.value)
  {
    var request := RequestFor(prompt);
    var response := llm(request);
    if response.choices == [] then
      LlmRun([request], Raised(NoChoices))
    else
      var outputText := Strip(response.choices[0].text);
      match parse(outputText)
      case Some(value) => LlmRun([request], Returned(value))
      case None => LlmRun([request], Returned(Fallback()))
  }

  /** The fallback is an object with exactly the two schema members, in that
      order, and each is an empty list. */
  lemma FallbackShape()
    ensures Fallback().Object?
    ensures Keys(Fallback()) == [ExtractedSections, SubsectionAnalysis]
    ensures Lookup(Fallback().members, ExtractedSections) == Some(Array([]))
    ensures Lookup(Fallback().members, SubsectionAnalysis) == Some(Array([]))
  {
    var ks := Keys(Fallback());
    assert ks[0] == ExtractedSections && ks[1] == SubsectionAnalysis;
  }

  /** A successful decode is returned as it is, with no check against the
      schema: any value the decoder produces is what the caller receives. */
  lemma DecodedValuePassesThrough(prompt: string, llm: Request -> Completion, parse: string -> Option<Json>, v: Json)
    requires llm(RequestFor(prompt)).choices != []
    requires parse(Strip(llm(RequestFor(prompt)).choices[0].text)) == Some(v)
    ensures RunLlm(prompt, llm, parse).outcome == Returned(v)
  {
  }

  /** A decode failure yields the fallback and nothing else. */
  lemma DecodeFailureFallsBack(prompt: string, llm: Request -> Completion, parse: string -> Option<Json>)
    requires llm(RequestFor(prompt)).choices != []
    requires parse(Strip(llm(RequestFor(prompt)).choices[0].text)) == None
    ensures RunLlm(prompt, llm, parse).outcome == Returned(Fallback())
  {
  }

  /** Only the text of the first choice matters: later choices and the rest
      of the completion are ignored. */
  lemma OnlyFirstChoiceMatters(prompt: string, llm1: Request -> Completion, llm2: Request -> Completion,
                               parse: string -> Option<Json>)
    requires llm1(RequestFor(prompt)).choices != [] && llm2(RequestFor(prompt)).choices != []
    requires llm1(RequestFor(prompt)).choices[0].text == llm2(RequestFor(prompt)).choices[0].text
    ensures RunLlm(prompt, llm1, parse) == RunLlm(prompt, llm2, parse)
  {
  }

  /** Whitespace around the completion makes no difference: a completion
      padded with blanks on either side gives the same result as the bare
      text. */
  lemma SurroundingWhitespaceIgnored(prompt: string, llm1: Request -> Completion, llm2: Request -> Completion,
                                     parse: string -> Option<Json>, before: string, after: string)
    requires llm1(RequestFor(prompt)).choices != [] && llm2(RequestFor(prompt)).choices != []
    requires IsBlank(before) && IsBlank(after)
    requires llm2(RequestFor(prompt)).choices[0].text
          == before + llm1(RequestFor(prompt)).choices[0].text + after
    ensures RunLlm(prompt, llm1, parse) == RunLlm(prompt, llm2, parse)
  {
    StripPadded(before, llm1(RequestFor(prompt)).choices[0].text, after);
  }

  /** The decoder only ever sees trimmed text: two decoders that agree on
      every string without surrounding whitespace give the same result. */
  lemma ParserSeesTrimmedText(prompt: string, llm: Request -> Completion,
                              parse1: string -> Option<Json>, parse2: string -> Option<Json>)
    requires forall s :: Trimmed(s) ==> parse1(s) == parse2(s)
    ensures RunLlm(prompt, llm, parse1) == RunLlm(prompt, llm, parse2)
  {
  }

  /** A completion that decodes to something other than the schema's object
      is returned as it is: the text `[]` decoded as an empty list reaches
      the caller without either schema member. */
  lemma NonObjectReachesCaller(prompt: string, llm: Request -> Completion, parse: string -> Option<Json>)
    requires llm(RequestFor(prompt)) == Completion([Choice("  []\n")])
    requires parse("[]") == Some(Array([]))
    ensures RunLlm(prompt, llm, parse).outcome == Returned(Array([]))
    ensures Keys(RunLlm(prompt, llm, parse).outcome.value) == []
  {
    assert "  []\n" == "  " + "[]" + "\n";
    StripFramed("  ", "[]", "\n");
  }
}
