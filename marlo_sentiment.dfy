/** The Marlo Sentiment node's `execute`: for each input item it validates
    the text, builds one POST request to the sentiment API, maps the JSON
    answer into an output record, and either turns a failure into an
    `{error}` item or stops the batch with the failing item's index.

    The HTTP call itself is not modelled: each item comes with the outcome
    the remote service would give it (a parsed JSON body or a failure
    message). */
module MarloSentiment {
  import opened Wrappers
  import opened JsValue
  import opened JsText

  const AnalyzeOperation := "analyze"
  const MaxTextLength := 5000
  const DefaultIndustry := "general"
  const EmptyTextMessage := "Text parameter is required and cannot be empty"
  const TooLongMessage := "Text cannot exceed 5000 characters"

  /** The values of the `industry` option; the empty value is shown as
      "General". */
  const IndustryOptions: seq<string> := [
    "", "healthcare", "technology", "gaming", "finance", "restaurant",
    "automotive", "real_estate", "fitness", "education", "retail"
  ]

  /** The `marloSentimentApi` credentials, read once before the loop. */
  datatype Credentials = Credentials(apiKey: string, rapidApiHost: string)

  /** The node parameters as resolved for one item: `operation`, `text`,
      `industry` and `additionalFields.includeRawScores` (absent reads as
      false). */
  datatype Parameters = Parameters(
    operation: string, text: string, industry: string, includeRawScores: bool)

  /** The JSON body sent to the service. */
  datatype RequestBody = RequestBody(text: string, industry: string)

  /** The options passed to the host's request helper. */
  datatype HttpRequest = HttpRequest(
    httpMethod: string, url: string,
    contentType: string, rapidApiKey: string, rapidApiHost: string,
    body: RequestBody, json: bool)

  /** What the request helper gives back for one item: the parsed body, or
      the message of the error it threw. */
  datatype Outcome = Responded(body: Json) | RequestFailed(message: string)

  /** The `json` of a successful output item. `industry` and `scores` are
      `None` when the key is not set at all. */
  datatype Output = Output(
    sentiment: Value, confidence: Value, textLength: Value, originalText: string,
    industry: Option<Value>, scores: Option<Value>)

  /** One element of the returned item list, with its pairing to the input
      item index. */
  datatype OutputItem =
    | Analyzed(json: Output, pairedItem: nat)
    | ErrorItem(error: string, pairedItem: nat)

  /** The error `execute` rejects with: a message tagged with an item index. */
  datatype NodeError = NodeError(message: string, itemIndex: nat)

  /** One input item: its parameters and the outcome of its request. */
  datatype ItemInput = ItemInput(params: Parameters, response: Outcome)

  /** What one item does: the request it sends, if any, and either the
      output it produces (`None` when the operation is not `analyze`) or the
      message of the error it throws. */
  datatype Step = Step(sent: Option<HttpRequest>, result: Result<Option<Output>>)

  /** A whole run: either it returns its items, or it rejects with an error.
      Either way `sent` lists the requests issued, in order. */
  datatype Execution =
    | Completed(items: seq<OutputItem>, sent: seq<HttpRequest>)
    | Aborted(error: NodeError, sent: seq<HttpRequest>)

  /** The text checks, in the source's order: emptiness after trimming
      first, then the length of the untrimmed text. `None` means the text
      passes. */
  function ValidateText(text: string): (r: Option<string>)
    ensures r == Some(EmptyTextMessage) <==> AllWhiteSpace(text)
    ensures r == Some(TooLongMessage) <==> !AllWhiteSpace(text) && |text| > MaxTextLength
    ensures r == None <==> !AllWhiteSpace(text) && |text| <= MaxTextLength
  {
    var blank := text == "" || Trim(text) == "";
    assert blank <==> AllWhiteSpace(text) by { TrimEmptyIff(text); }
    if blank then Some(EmptyTextMessage)
    else if |text| > MaxTextLength then Some(TooLongMessage)
    else None
  }

  /** `industry || 'general'` on the wire. */
  function WireIndustry(industry: string): (r: string)
    ensures r != ""
    ensures r == DefaultIndustry <==> industry == "" || industry == DefaultIndustry
    ensures industry != "" ==> r == industry
  {
    if industry == "" then DefaultIndustry else industry
  }

  /** The request options for an item that passed validation: a JSON POST
      to `https://<host>/analyze` carrying both RapidAPI credentials, whose
      body holds the trimmed text and the wire industry. */
  function BuildRequest(credentials: Credentials, params: Parameters): (r: HttpRequest)
    ensures r.httpMethod == "POST" && r.json && r.contentType == "application/json"
    ensures r.url == "https://" + credentials.rapidApiHost + "/analyze"
    ensures r.rapidApiKey == credentials.apiKey && r.rapidApiHost == credentials.rapidApiHost
    ensures r.body.text == Trim(params.text) && |r.body.text| <= |params.text|
    ensures r.body.text != "" ==> !IsWhiteSpace(r.body.text[0]) && !IsWhiteSpace(r.body.text[|r.body.text| - 1])
    ensures r.body.industry != ""
    ensures r.body.industry == DefaultIndustry <==> params.industry == "" || params.industry == DefaultIndustry
    ensures params.industry != "" ==> r.body.industry == params.industry
  {
    HttpRequest(
      "POST", "https://" + credentials.rapidApiHost + "/analyze",
      "application/json", credentials.apiKey, credentials.rapidApiHost,
      RequestBody(Trim(params.text), WireIndustry(params.industry)), true)
  }

  /** Building `outputData` from the response body: `sentiment`,
      `confidence` and `text_length` copied, `original_text` the untrimmed
      text, `industry` only when the parameter is non-empty, `scores` only
      when asked for and truthy. A `null` body makes the first read throw. */
  function MapResponse(params: Parameters, body: Json): (r: Result<Output>)
    ensures r.Err? <==> body.Null?
    ensures r.Err? ==> r.error == "Cannot read properties of null (reading 'sentiment')"
    ensures r.Ok? ==> && Property(body, "sentiment") == Ok(r.value.sentiment)
                      && Property(body, "confidence") == Ok(r.value.confidence)
                      && Property(body, "text_length") == Ok(r.value.textLength)
                      && r.value.originalText == params.text
    ensures r.Ok? ==> (r.value.industry.Some? <==> params.industry != "")
    ensures r.Ok? && params.industry != "" ==>
              r.value.industry.value == Or(Property(body, "industry").value, Defined(Str(params.industry)))
    ensures r.Ok? ==> (r.value.scores.Some? <==>
                         params.includeRawScores && Truthy(Property(body, "scores").value))
    ensures r.Ok? && r.value.scores.Some? ==> Property(body, "scores") == Ok(r.value.scores.value)
  {
    if body.Null? then Err(Property(body, "sentiment").error)
    else
      var industry :=
        if params.industry != ""
        then Some(Or(Property(body, "industry").value, Defined(Str(params.industry))))
        else None;
      var scores :=
        if params.includeRawScores && Truthy(Property(body, "scores").value)
        then Some(Property(body, "scores").value)
        else None;
      Ok(Output(
        Property(body, "sentiment").value, Property(body, "confidence").value,
        Property(body, "text_length").value, params.text, industry, scores))
  }

  /** The body of the `try` block for one item. */
  function ProcessItem(credentials: Credentials, params: Parameters, response: Outcome): (s: Step)
    ensures s.sent.Some? <==> params.operation == AnalyzeOperation && ValidateText(params.text) == None
    ensures s.sent.Some? ==> s.sent.value == BuildRequest(credentials, params)
    ensures params.operation != AnalyzeOperation ==> s.result == Ok(None)
    ensures params.operation == AnalyzeOperation && ValidateText(params.text).Some? ==>
              s.result == Err(ValidateText(params.text).value)
    ensures s.sent.Some? && response.RequestFailed? ==> s.result == Err(response.message)
    ensures s.sent.Some? && response.Responded? ==>
              s.result == match MapResponse(params, response.body)
                          case Ok(out) => Ok(Some(out))
                          case Err(m) => Err(m)
  {
    if params.operation != AnalyzeOperation then Step(None, Ok(None))
    else match ValidateText(params.text)
      case Some(message) => Step(None, Err(message))
      case None =>
        var request := BuildRequest(credentials, params);
        match response
        case RequestFailed(message) => Step(Some(request), Err(message))
        case Responded(body) =>
          match MapResponse(params, body)
          case Ok(out) => Step(Some(request), Ok(Some(out)))
          case Err(message) => Step(Some(request), Err(message))
  }

  /** The item a step contributes to the output when failures are turned
      into data: nothing for another operation, the mapped record on
      success, `{error}` on failure; paired to index `i`. */
  function ItemOutput(step: Step, i: nat): (r: Option<OutputItem>)
    ensures r.Some? ==> r.value.pairedItem == i
    ensures r.Some? <==> step.result != Ok(None)
    ensures r.Some? ==> (r.value.ErrorItem? <==> step.result.Err?)
    ensures r.Some? && r.value.ErrorItem? ==> r.value.error == step.result.error
    ensures r.Some? && r.value.Analyzed? ==> step.result == Ok(Some(r.value.json))
  {
    match step.result
    case Ok(None) => None
    case Ok(Some(out)) => Some(Analyzed(out, i))
    case Err(message) => Some(ErrorItem(message, i))
  }

  /** One more item of the run, the `catch` logic included: after an abort
      nothing more happens; otherwise the item's request is recorded, and
      the run aborts with the item's message and index exactly when the item
      fails without `continueOnFail`, or else appends the item's
      contribution. */
  function Next(run: Execution, step: Step, i: nat, continueOnFail: bool): (r: Execution)
    ensures run.Aborted? ==> r == run
    ensures run.Completed? ==> r.sent == run.sent + ListOf(step.sent)
    ensures r.Aborted? <==> run.Aborted? || (!continueOnFail && step.result.Err?)
    ensures run.Completed? && r.Aborted? ==> r.error == NodeError(step.result.error, i)
    ensures run.Completed? && r.Completed? ==> r.items == run.items + ListOf(ItemOutput(step, i))
  {
    match run
    case Aborted(error, sent) => Aborted(error, sent)
    case Completed(items, sent) =>
      var sent' := sent + ListOf(step.sent);
      match step.result
      case Ok(None) => Completed(items, sent')
      case Ok(Some(out)) => Completed(items + [Analyzed(out, i)], sent')
      case Err(message) =>
        if continueOnFail then Completed(items + [ErrorItem(message, i)], sent')
        else Aborted(NodeError(message, i), sent')
  }

  /** The outcome of every item, processed on its own. */
  function Steps(credentials: Credentials, inputs: seq<ItemInput>): (r: seq<Step>)
    ensures |r| == |inputs|
    ensures forall i :: 0 <= i < |inputs| ==> r[i] == ProcessItem(credentials, inputs[i].params, inputs[i].response)
  {
    seq(|inputs|, i requires 0 <= i < |inputs| => ProcessItem(credentials, inputs[i].params, inputs[i].response))
  }

  /** The batch over the items' outcomes, item by item from the front. It
      sends at most one request per item, gives at most one output per item,
      never aborts with continue-on-fail,
      and aborts only on an item that failed, with that item's message. */
  function RunSteps(steps: seq<Step>, continueOnFail: bool): (r: Execution)
    ensures |r.sent| <= |steps|
    ensures r.Completed? ==> |r.items| <= |steps|
    ensures continueOnFail ==> r.Completed?
    ensures r.Aborted? ==> r.error.itemIndex < |steps| && steps[r.error.itemIndex].result == Err(r.error.message)
    decreases |steps|
  {
    if steps == [] then Completed([], [])
    else
      var i := |steps| - 1;
      Next(RunSteps(steps[..i], continueOnFail), steps[i], i, continueOnFail)
  }

  /** The run of `execute` over `inputs`: with continue-on-fail it always
      returns its items; without, it can only reject on an item whose
      processing threw, with that item's message and index. */
  function Run(credentials: Credentials, inputs: seq<ItemInput>, continueOnFail: bool): (r: Execution)
    ensures continueOnFail ==> r.Completed?
    ensures r.Completed? ==> |r.items| <= |inputs| && |r.sent| <= |inputs|
    ensures r.Aborted? ==>
              && r.error.itemIndex < |inputs|
              && ProcessItem(credentials, inputs[r.error.itemIndex].params, inputs[r.error.itemIndex].response).result
                 == Err(r.error.message)
  {
    RunSteps(Steps(credentials, inputs), continueOnFail)
  }

  /** Once a prefix of the batch has aborted, the whole batch ends the same way. */
  lemma {:induction false} AbortIsFinal(steps: seq<Step>, continueOnFail: bool, n: nat)
    requires n <= |steps|
    requires RunSteps(steps[..n], continueOnFail).Aborted?
    ensures RunSteps(steps, continueOnFail) == RunSteps(steps[..n], continueOnFail)
    decreases |steps| - n
  {
    if n < |steps| {
      var m := |steps| - 1;
      assert steps[..m][..n] == steps[..n];
      AbortIsFinal(steps[..m], continueOnFail, n);
    } else {
      assert steps[..n] == steps;
    }
  }

  /** The batch over one more item is Next of the batch so far. */
  lemma RunStepsOneMore(steps: seq<Step>, n: nat, continueOnFail: bool)
    requires n < |steps|
    ensures RunSteps(steps[..n + 1], continueOnFail) == Next(RunSteps(steps[..n], continueOnFail), steps[n], n, continueOnFail)
  {
    assert steps[..n + 1][..n] == steps[..n];
  }

  /** `execute`: the loop over the items, pushing into `returnData` and
      recording each request sent. */
  method Execute(credentials: Credentials, inputs: seq<ItemInput>, continueOnFail: bool)
    returns (e: Execution)
    ensures e == Run(credentials, inputs, continueOnFail)
  {
    ghost var steps := Steps(credentials, inputs);
    var returnData: seq<OutputItem> := [];
    var sent: seq<HttpRequest> := [];
    var itemIndex := 0;
    while itemIndex < |inputs|
      invariant 0 <= itemIndex <= |inputs|
      invariant RunSteps(steps[..itemIndex], continueOnFail) == Completed(returnData, sent)
    {
      var item := inputs[itemIndex];
      var step := ProcessItem(credentials, item.params, item.response);
      assert steps[itemIndex] == step;
      ghost var next := Next(Completed(returnData, sent), step, itemIndex, continueOnFail);
      RunStepsOneMore(steps, itemIndex, continueOnFail);
      assert RunSteps(steps[..itemIndex + 1], continueOnFail) == next;
      sent := sent + ListOf(step.sent);
      match step.result {
        case Ok(None) =>
          assert next == Completed(returnData, sent);
        case Ok(Some(out)) =>
          returnData := returnData + [Analyzed(out, itemIndex)];
          assert next == Completed(returnData, sent);
        case Err(message) =>
          if continueOnFail {
            returnData := returnData + [ErrorItem(message, itemIndex)];
            assert next == Completed(returnData, sent);
          } else {
            e := Aborted(NodeError(message, itemIndex), sent);
            assert next == e;
            AbortIsFinal(steps, continueOnFail, itemIndex + 1);
            return;
          }
      }
      itemIndex := itemIndex + 1;
    }
    assert steps[..|inputs|] == steps;
    e := Completed(returnData, sent);
  }
}
