# Marlo Sentiment node, modelled in Dafny

This project models the `execute` function of the Marlo Sentiment node, an
n8n workflow node. For every input item the node does four things:

- It validates the `text` parameter: empty after trimming is one error, longer than
  5000 characters is another, and the emptiness check comes first.
- It builds one POST request to `https://<rapidApiHost>/analyze`. The body holds the
  trimmed text and the industry, with `general` standing in for an empty one.
- It maps the JSON answer into an output record.
- On failure it either emits an `{error}` item and carries on (continue-on-fail), or
  rejects the whole run with an error tagged with the failing item's index.

Files:

- `wrappers.dfy`: the `Option` and `Result` datatypes.
- `js_value.dfy` (module `JsValue`): parsed JSON values. It adds `undefined` for an
  absent property, JavaScript truthiness, `||`, and property reads (`Property`), where
  a read on `null` throws.
- `js_text.dfy` (module `JsText`): `String.prototype.trim` over the white-space and
  line-terminator set of ECMA-262 (sections 12.2, 12.3 and 22.1.3.32), with lemmas
  saying what trimming removes.
- `marlo_sentiment.dfy` (module `MarloSentiment`): the parameters, the request, the
  output, the per-item step `ProcessItem`, and the batch. The batch is a spec function
  `RunSteps` and the imperative loop `Execute`, which is proved equal to it.
- `marlo_sentiment_properties.dfy` (module `MarloSentimentProperties`): lemmas on
  single items (the request sent, the untrimmed `original_text`) and on batches
  (pairing and order with continue-on-fail, abort at the first failure, the
  requests sent).

The HTTP call is not executed. Each item comes with an `Outcome`: either the
parsed body the service answered with, or the message of the error the request
helper threw. The credentials and the continue-on-fail flag are parameters.

Three behaviours of the code a reader may not expect:

- `scores` is copied when `includeRawScores` is set and the response value is
  *truthy*, not merely present. So `"scores": null` or `"scores": 0` gives no `scores`
  key.
- The echoed `industry` is the response's value when that value is *truthy*. An empty
  string in the response falls back to the parameter.
- Without continue-on-fail the run rejects at the first failure (`Execution.Aborted`).
  The items pushed earlier are not returned, because the thrown error discards them. What
  the run does leave behind is the requests already sent, and none is sent for a later
  item.

## Model

| member | source | states |
|---|---|---|
| JsText.TrimStart | nodes/MarloSentiment/MarloSentiment.node.ts:135 | the result is a suffix of the input that does not start with white space, and everything cut off is white space |
| JsText.TrimEnd | nodes/MarloSentiment/MarloSentiment.node.ts:135 | the result is a prefix of the input that does not end with white space, and everything cut off is white space |
| JsText.Trim | nodes/MarloSentiment/MarloSentiment.node.ts:135 | `text.trim()` is no longer than the text and neither starts nor ends with white space |
| JsText.TrimIsWhiteSpaceCut | nodes/MarloSentiment/MarloSentiment.node.ts:135 | `text.trim()` is the slice left after cutting white space from both ends; it neither starts nor ends with white space |
| JsText.TrimEmptyIff | nodes/MarloSentiment/MarloSentiment.node.ts:118 | `text.trim() === ''` holds exactly when every character is white space, including for the empty text |
| JsText.TrimUnchangedIff | nodes/MarloSentiment/MarloSentiment.node.ts:135 | trimming leaves the text unchanged exactly when it is empty or has no white space at either end |
| JsValue.Or | nodes/MarloSentiment/MarloSentiment.node.ts:161 | JavaScript's logical or returns one of its two operands, and its result is truthy exactly when either operand is truthy |
| MarloSentiment.ValidateText | nodes/MarloSentiment/MarloSentiment.node.ts:118-132 | all-white-space text, of any length, gives the emptiness message; other text gives the length message exactly when its untrimmed length exceeds 5000; otherwise it passes |
| MarloSentiment.WireIndustry | nodes/MarloSentiment/MarloSentiment.node.ts:136 | the wire industry is never empty; it is `general` exactly when the parameter is empty or `general`; a non-empty parameter goes unchanged |
| MarloSentiment.BuildRequest | nodes/MarloSentiment/MarloSentiment.node.ts:134-149 | the request is a JSON POST to `https://<host>/analyze` with the API key and host headers from the credentials; its body text is the trimmed text, with no white space left at either end; its industry is never empty, is `general` exactly for an empty or `general` parameter, and is otherwise the parameter |
| MarloSentiment.MapResponse | nodes/MarloSentiment/MarloSentiment.node.ts:153-166 | a `null` body is the only failure, with the TypeError message of reading `sentiment`; `sentiment`, `confidence` and `text_length` are the body's values; `original_text` is the untrimmed text; `industry` is present exactly when the parameter is non-empty and is the response's truthy value or else the parameter; `scores` is present exactly when asked for and truthy, and then equals the response's |
| MarloSentiment.ProcessItem | nodes/MarloSentiment/MarloSentiment.node.ts:110-172 | a request is sent exactly when the operation is `analyze` and the text passes validation; another operation yields no output and no error; a validation failure yields its message; a failed request yields its message; otherwise the result is the mapped response |
| MarloSentiment.Next | nodes/MarloSentiment/MarloSentiment.node.ts:168-188 | after an abort one more item changes nothing; otherwise its request is recorded, and the run aborts with that item's message and index exactly when it fails without continue-on-fail, or else appends the item's contribution |
| MarloSentiment.RunSteps | nodes/MarloSentiment/MarloSentiment.node.ts:108-190 | the batch sends at most one request per item and gives at most one output per item; it never aborts with continue-on-fail; it aborts only on an item that failed, with that item's message |
| MarloSentiment.Run | nodes/MarloSentiment/MarloSentiment.node.ts:100-193 | with continue-on-fail the run always returns its items; without, it rejects only on an item whose processing threw, with that item's message and index |
| MarloSentiment.AbortIsFinal | nodes/MarloSentiment/MarloSentiment.node.ts:180-188 | once the batch has aborted on a prefix of the items, later items change nothing |
| MarloSentiment.Execute | nodes/MarloSentiment/MarloSentiment.node.ts:100-193 | the loop over the items, pushing outputs and either recording `{error}` items or aborting, returns exactly `Run` of the inputs |
| MarloSentiment.ItemOutput | nodes/MarloSentiment/MarloSentiment.node.ts:168-179 | an item contributes an output exactly when it is not a non-`analyze` item; the output is paired to its index; it is an `{error}` item exactly when the item failed, carrying its message, and otherwise the mapped record |
| MarloSentimentProperties.ValidItemRequest | nodes/MarloSentiment/MarloSentiment.node.ts:118-149 | a valid `analyze` item sends exactly the request BuildRequest gives; its body text is the trimmed text, non-empty, at most 5000 characters, with no white space at either end; `general` replaces an empty industry |
| MarloSentimentProperties.ValidItemBodyText | nodes/MarloSentiment/MarloSentiment.node.ts:118-135 | for text that passes validation, the text sent is non-empty and at most 5000 characters long; it is the input with white space cut from both ends only, and no white space is left at either end |
| MarloSentimentProperties.OriginalTextIsUntrimmed | nodes/MarloSentiment/MarloSentiment.node.ts:134-158 | on success `original_text` is the untrimmed input; it equals the text sent exactly when the input has no white space at either end |
| MarloSentimentProperties.WhiteSpaceTextIsEmptyError | nodes/MarloSentiment/MarloSentiment.node.ts:118-132 | white-space-only text of an `analyze` item sends nothing and fails with the emptiness message, however long it is |
| MarloSentimentProperties.IndustryOptionsOnWire | nodes/MarloSentiment/MarloSentiment.node.ts:10-22 | of the eleven industry options only the empty one goes out as `general`, and distinct options go out as distinct values |
| MarloSentimentProperties.ContinueOnFailKeepsEveryItem | nodes/MarloSentiment/MarloSentiment.node.ts:108-179 | with continue-on-fail the batch never aborts; each output is the contribution of the item it is paired to; pairings strictly increase, so order is kept and no item has two outputs; every contributing item has an output |
| MarloSentimentProperties.ContinueOnFailPairsInOrder | nodes/MarloSentiment/MarloSentiment.node.ts:108-179 | with continue-on-fail each output is the contribution of the item it is paired to, and pairings strictly increase |
| MarloSentimentProperties.EveryContributionIsOutput | nodes/MarloSentiment/MarloSentiment.node.ts:108-179 | with continue-on-fail every item that contributes an output has one in the result |
| MarloSentimentProperties.ContinueOnFailOneOutputPerItem | nodes/MarloSentiment/MarloSentiment.node.ts:108-179 | with continue-on-fail and only `analyze` items, N items give exactly N outputs; the k-th is paired to item k and is an `{error}` item exactly when item k failed |
| MarloSentimentProperties.AnalyzeItemsContribute | nodes/MarloSentiment/MarloSentiment.node.ts:117-172 | every `analyze` item yields an output or an error |
| MarloSentimentProperties.AbortOnFirstFailure | nodes/MarloSentiment/MarloSentiment.node.ts:180-188 | without continue-on-fail the batch aborts exactly when some item fails; the error holds the first failing item's index and message, and every earlier item succeeded |
| MarloSentimentProperties.RequestsSent | nodes/MarloSentiment/MarloSentiment.node.ts:108-190 | a completed batch sent every item's request in order; an aborted one sent only those of the items up to and including the failing one |
| MarloSentimentProperties.NoFailureSameRun | nodes/MarloSentiment/MarloSentiment.node.ts:173-188 | when no item fails, the batch completes and continue-on-fail makes no difference |

## Left out

- The HTTP call `this.helpers.request` is a foreign network call. Each item's outcome is an input: a parsed JSON body or an error message.
- Credentials and the continue-on-fail policy are given values. A failure of `getCredentials` stops the run before the loop and is not modelled.
- The node parameters for each item are given as resolved strings and a boolean. A `getNodeParameter` that throws, and a non-string `text` that makes `.trim` throw, are not modelled.
- `text.length` counts UTF-16 code units in JavaScript. The model counts characters, so text with characters outside the Basic Multilingual Plane may count shorter here.
- The white-space set is that of the current Unicode space separators. It is not tied to a particular engine's Unicode version.
- Property reads (`JsValue.Property`) do not model properties inherited from built-in prototypes. None of the five keys the node reads is such a property.
- The `NodeOperationError` wrapping and the update of `error.context` are not modelled. An abort keeps only the message and the item index, and both paths tag the same index.
- `constructExecutionMetaData` is not modelled. Its pairing `{item: itemIndex}` is kept as the index on `ErrorItem`.
- How the host serialises `undefined` output values is not modelled. `Undefined` stays in the record.
- The node description's UI metadata is not modelled, except the industry option values. The credential descriptor holds no behaviour and is not modelled.
- Numbers are reals, not doubles; overflow to ±Infinity and underflow to zero are not represented. The node only copies numbers and tests them against zero.
- Async suspension is not modelled. Items are processed strictly in order.
