/**
 * The task-summary call to the generative text service: build a prompt from
 * the task's title and optional description, send one request, accept only a
 * non-blank reply, and collapse every failure into one message. The service
 * itself is an oracle: its reply is a parameter.
 */
module Gemini {
  import opened Wrappers
  import opened JsText

  const ModelId := "gemini-1.5-pro"

  const Instruction := "Summarize the following task in 2-3 concise, professional sentences. Do not use bullet points."

  const MissingKeyMessage := "GEMINI_API_KEY is not defined"
  const FailedMessage := "Failed to generate task summary"

  /** The task text handed to the summarizer; the description may be null or
      undefined, both rendered as None. */
  datatype SummaryInput = SummaryInput(title: string, description: Option<string>)

  /** The single request sent to the service: the model id and one user turn
      holding the prompt. */
  datatype GenerateRequest = GenerateRequest(model: string, role: string, prompt: string)

  /** What the service does with the request: fail (network error, timeout,
      refusal), or answer with a response whose text may be undefined. */
  datatype ServiceReply = ServiceFailed | Replied(text: Option<string>)

  /** The returned summary, or the message of the error thrown. */
  datatype SummaryResult = Summary(text: string) | Thrown(message: string)

  /** The request sent, if any, and what the call returns or throws. */
  datatype SummaryOutcome = SummaryOutcome(request: Option<GenerateRequest>, result: SummaryResult)

  /** `input.description?.trim()` is truthy. */
  predicate HasDescription(input: SummaryInput) {
    input.description.Some? && Truthy(Trim(input.description.value))
  }

  /** The task content: the title line, followed by the description line
      (untrimmed) only when the description is not blank. */
  function TaskContent(input: SummaryInput): (c: string)
    ensures TitleMarker + input.title <= c
    ensures HasDescription(input) ==> c[|TitleMarker + input.title|..] == DescriptionMarker + input.description.value
    ensures !HasDescription(input) ==> c == TitleMarker + input.title
  {
    var line := TitleMarker + input.title;
    if HasDescription(input) then
      var rest := DescriptionMarker + input.description.value;
      Associative(line, DescriptionMarker, input.description.value);
      PrefixOfConcat(line, rest);
      DropPrefix(line, rest);
      line + DescriptionMarker + input.description.value
    else line
  }

  const TitleMarker := "Title: "
  const DescriptionMarker := "\nDescription: "

  /** The instruction and a blank line, ahead of the task content. */
  const PromptHead := Instruction + "\n\n"

  /** The instruction header followed by the task content. */
  function Prompt(input: SummaryInput): (p: string)
    ensures PromptHead <= p && p[|PromptHead|..] == TaskContent(input)
  {
    PrefixOfConcat(PromptHead, TaskContent(input));
    DropPrefix(PromptHead, TaskContent(input));
    PromptHead + TaskContent(input)
  }

  /** `summarizeTaskText(input)` with the environment's API key and the
      service's reply as parameters. */
  function SummarizeTaskText(apiKey: Option<string>, input: SummaryInput, reply: ServiceReply): (o: SummaryOutcome)
    // a missing or empty key fails before any request is made
    ensures !(apiKey.Some? && Truthy(apiKey.value)) ==> o == SummaryOutcome(None, Thrown(MissingKeyMessage))
    // otherwise exactly one request, carrying the prompt built from the input
    ensures apiKey.Some? && Truthy(apiKey.value) ==> o.request == Some(GenerateRequest(ModelId, "user", Prompt(input)))
    // a summary is returned exactly when the reply has non-blank text, and it is that text trimmed
    ensures o.result.Summary? <==> o.request.Some? && reply.Replied? && reply.text.Some? && !AllWhitespace(reply.text.value)
    ensures o.result.Summary? ==> o.result.text == Trim(reply.text.value)
    // every failure after the request is reported with the same message
    ensures o.request.Some? && o.result.Thrown? ==> o.result.message == FailedMessage
  {
    if apiKey.None? || !Truthy(apiKey.value) then SummaryOutcome(None, Thrown(MissingKeyMessage))
    else
      var request := GenerateRequest(ModelId, "user", Prompt(input));
      var result :=
        match reply
        case ServiceFailed => Thrown(FailedMessage)
        case Replied(None) => Thrown(FailedMessage)
        case Replied(Some(text)) =>
          var summary := Trim(text);
          if !Truthy(summary) then Thrown(FailedMessage) else Summary(summary);
      SummaryOutcome(Some(request), result)
  }

  /** A returned summary is never blank and carries no surrounding whitespace. */
  lemma SummaryIsTrimmedNonEmpty(apiKey: Option<string>, input: SummaryInput, reply: ServiceReply)
    requires SummarizeTaskText(apiKey, input, reply).result.Summary?
    ensures var text := SummarizeTaskText(apiKey, input, reply).result.text;
      text != [] && Trim(text) == text
  {
    TrimIdempotent(reply.text.value);
  }

  /** The request depends only on the input: not on which key is configured
      nor on how the service will answer. */
  lemma RequestDependsOnlyOnInput(k1: string, r1: ServiceReply, k2: string, r2: ServiceReply, input: SummaryInput)
    requires k1 != [] && k2 != []
    ensures SummarizeTaskText(Some(k1), input, r1).request == SummarizeTaskText(Some(k2), input, r2).request
  {
  }

  /** A blank description is treated as no description at all. */
  lemma BlankDescriptionIgnored(title: string, description: string)
    requires AllWhitespace(description)
    ensures Prompt(SummaryInput(title, Some(description))) == Prompt(SummaryInput(title, None))
  {
  }

  /** The prompt always opens with the fixed instruction and a blank line,
      followed by the title line. */
  lemma PromptStartsWithInstruction(input: SummaryInput)
    ensures PromptHead + TitleMarker + input.title <= Prompt(input)
  {
    Associative(PromptHead, TitleMarker, input.title);
    CommonPrefix(PromptHead, TitleMarker + input.title, TaskContent(input));
  }

  lemma CommonPrefix(a: string, b: string, c: string)
    requires b <= c
    ensures a + b <= a + c
  {
    assert (a + c)[..|a + b|] == a + c[..|b|];
  }

  lemma Associative(a: string, b: string, c: string)
    ensures a + (b + c) == a + b + c
  {
  }

  lemma PrefixOfConcat(a: string, b: string)
    ensures a <= a + b
  {
    assert (a + b)[..|a|] == a;
  }

  /** Without a description the title can be read back from the prompt:
      different titles give different prompts. */
  lemma {:induction false} TitleRecoverable(a: string, b: string)
    ensures Prompt(SummaryInput(a, None)) == Prompt(SummaryInput(b, None)) ==> a == b
  {
    var prefix := PromptHead + TitleMarker;
    Associative(PromptHead, TitleMarker, a);
    Associative(PromptHead, TitleMarker, b);
    DropPrefix(prefix, a);
    DropPrefix(prefix, b);
  }

  lemma DropPrefix(p: string, s: string)
    ensures (p + s)[|p|..] == s
  {
  }

  /** The prompt format is not injective: a title that itself contains the
      description marker yields the same prompt as the shorter title with a
      real description. */
  lemma PromptAmbiguity(title: string, description: string)
    requires !AllWhitespace(description)
    ensures Prompt(SummaryInput(title + DescriptionMarker + description, None))
         == Prompt(SummaryInput(title, Some(description)))
  {
    assert HasDescription(SummaryInput(title, Some(description)));
    Associative(TitleMarker, title + DescriptionMarker, description);
    Associative(TitleMarker, title, DescriptionMarker);
  }
}
