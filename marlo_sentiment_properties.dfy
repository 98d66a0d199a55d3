/** What `execute` promises, stated about the model in MarloSentiment: the
    request an item sends, how the output relates to the input text, and how
    a batch behaves with and without continue-on-fail. */
module MarloSentimentProperties {
  import opened Wrappers
  import opened JsValue
  import opened JsText
  import opened MarloSentiment

  // ---------------------------------------------------------------- one item

  /** An `analyze` item with valid text sends exactly one request, the one
      BuildRequest describes: a POST to `https://<host>/analyze` with both
      RapidAPI headers from the credentials, whose body text is the trimmed
      text (non-empty, at most 5000 characters, no white space at either
      end) and whose industry is `general` for an empty parameter. */
  lemma ValidItemRequest(credentials: Credentials, params: Parameters, response: Outcome)
    requires params.operation == AnalyzeOperation && ValidateText(params.text) == None
    ensures var s := ProcessItem(credentials, params, response);
      && s.sent == Some(BuildRequest(credentials, params))
      && var req := s.sent.value;
      && req.url == "https://" + credentials.rapidApiHost + "/analyze"
      && req.rapidApiKey == credentials.apiKey && req.rapidApiHost == credentials.rapidApiHost
      && req.body.text == Trim(params.text) && req.body.text != "" && |req.body.text| <= MaxTextLength
      && !IsWhiteSpace(req.body.text[0]) && !IsWhiteSpace(req.body.text[|req.body.text| - 1])
      && (req.body.industry == DefaultIndustry <==> params.industry == "" || params.industry == DefaultIndustry)
  {
    ValidItemBodyText(params.text);
  }

  /** For text that passes validation (see ValidateText), the text sent is
      the input with white space cut from both ends only: non-empty, at most
      5000 characters, neither starting nor ending with white space. */
  lemma ValidItemBodyText(text: string)
    requires !AllWhiteSpace(text) && |text| <= MaxTextLength
    ensures var sent := Trim(text); var lo := TrimOffset(text); var hi := lo + |sent|;
      && sent != "" && |sent| <= MaxTextLength
      && !IsWhiteSpace(sent[0]) && !IsWhiteSpace(sent[|sent| - 1])
      && hi <= |text| && sent == text[lo..hi]
      && AllWhiteSpace(text[..lo]) && AllWhiteSpace(text[hi..])
  {
    TrimEmptyIff(text);
    TrimIsWhiteSpaceCut(text);
  }

  /** The output keeps the untrimmed text: `original_text` equals the text
      sent exactly when the text has no leading or trailing white space. */
  lemma {:induction false} OriginalTextIsUntrimmed(credentials: Credentials, params: Parameters, body: Json)
    requires params.operation == AnalyzeOperation && ValidateText(params.text) == None
    requires !body.Null?
    ensures var s := ProcessItem(credentials, params, Responded(body));
      && s.sent.Some? && s.result.Ok? && s.result.value.Some?
      && s.result.value.value.originalText == params.text
      && (s.result.value.value.originalText == s.sent.value.body.text
          <==> !IsWhiteSpace(params.text[0]) && !IsWhiteSpace(params.text[|params.text| - 1]))
  {
    TrimUnchangedIff(params.text);
  }

  /** Whitespace-only text is always reported as empty, whatever its length,
      and sends nothing. */
  lemma WhiteSpaceTextIsEmptyError(credentials: Credentials, params: Parameters, response: Outcome)
    requires params.operation == AnalyzeOperation && AllWhiteSpace(params.text)
    ensures ProcessItem(credentials, params, response) == Step(None, Err(EmptyTextMessage))
  {
  }

  /** The `industry` options reach the wire as distinct values, the empty
      one as `general`, and none of the others as `general`. */
  lemma IndustryOptionsOnWire()
    ensures forall v :: v in IndustryOptions ==> (WireIndustry(v) == DefaultIndustry <==> v == "")
    ensures forall v, w :: v in IndustryOptions && w in IndustryOptions && WireIndustry(v) == WireIndustry(w) ==> v == w
  {
  }

  // ------------------------------------------------------------------ batches

  /** With continue-on-fail, the batch never aborts, every output is the
      contribution of the item it is paired to, and outputs keep input order
      (so no item has two). */
  lemma {:induction false} ContinueOnFailPairsInOrder(steps: seq<Step>)
    ensures RunSteps(steps, true).Completed?
    ensures var items := RunSteps(steps, true).items;
      && (forall k :: 0 <= k < |items| ==>
            items[k].pairedItem < |steps| && ItemOutput(steps[items[k].pairedItem], items[k].pairedItem) == Some(items[k]))
      && (forall k, l :: 0 <= k < l < |items| ==> items[k].pairedItem < items[l].pairedItem)
    decreases |steps|
  {
    if steps != [] {
      var n := |steps| - 1;
      var prefix := steps[..n];
      ContinueOnFailPairsInOrder(prefix);
      var run := RunSteps(prefix, true);
      var items := RunSteps(steps, true).items;
      assert forall i :: 0 <= i < n ==> prefix[i] == steps[i];
      if ItemOutput(steps[n], n).Some? {
        assert items == run.items + [ItemOutput(steps[n], n).value];
      } else {
        assert items == run.items;
      }
    }
  }

  /** With continue-on-fail, every item that contributes an output has one. */
  lemma {:induction false} EveryContributionIsOutput(steps: seq<Step>)
    ensures RunSteps(steps, true).Completed?
    ensures var items := RunSteps(steps, true).items;
      forall i :: 0 <= i < |steps| && ItemOutput(steps[i], i).Some? ==>
        exists k :: 0 <= k < |items| && items[k].pairedItem == i
    decreases |steps|
  {
    if steps != [] {
      var n := |steps| - 1;
      var prefix := steps[..n];
      EveryContributionIsOutput(prefix);
      var run := RunSteps(prefix, true);
      var items := RunSteps(steps, true).items;
      RunStepsOneMore(steps, n, true);
      assert steps[..n + 1] == steps;
      assert items == run.items + ListOf(ItemOutput(steps[n], n));
      forall i | 0 <= i < |steps| && ItemOutput(steps[i], i).Some?
        ensures exists k :: 0 <= k < |items| && items[k].pairedItem == i
      {
        if i < n {
          assert prefix[i] == steps[i];
          var k :| 0 <= k < |run.items| && run.items[k].pairedItem == i;
          assert items[k] == run.items[k];
        } else {
          assert items[|items| - 1].pairedItem == i;
        }
      }
    }
  }

  /** With continue-on-fail, every output is the contribution of the item
      it is paired to, outputs keep input order, and every item that
      contributes an output has one: the outputs are exactly the items'
      contributions, in order, one each. */
  lemma {:induction false} ContinueOnFailKeepsEveryItem(steps: seq<Step>)
    ensures RunSteps(steps, true).Completed?
    ensures var items := RunSteps(steps, true).items;
      && (forall k :: 0 <= k < |items| ==>
            items[k].pairedItem < |steps| && ItemOutput(steps[items[k].pairedItem], items[k].pairedItem) == Some(items[k]))
      && (forall k, l :: 0 <= k < l < |items| ==> items[k].pairedItem < items[l].pairedItem)
      && (forall i :: 0 <= i < |steps| && ItemOutput(steps[i], i).Some? ==>
            exists k :: 0 <= k < |items| && items[k].pairedItem == i)
  {
    ContinueOnFailPairsInOrder(steps);
    EveryContributionIsOutput(steps);
  }

  /** With continue-on-fail and every item contributing (true when every
      operation is `analyze`), a batch of N items gives exactly N outputs,
      the k-th paired to item k, each an `{error}` item exactly when item k
      failed. */
  lemma {:induction false} ContinueOnFailOneOutputPerItem(steps: seq<Step>)
    requires forall i :: 0 <= i < |steps| ==> steps[i].result != Ok(None)
    ensures RunSteps(steps, true).Completed?
    ensures var items := RunSteps(steps, true).items;
      && |items| == |steps|
      && forall k :: 0 <= k < |items| ==>
           && items[k].pairedItem == k
           && Some(items[k]) == ItemOutput(steps[k], k)
           && (items[k].ErrorItem? <==> steps[k].result.Err?)
    decreases |steps|
  {
    if steps != [] {
      var n := |steps| - 1;
      var prefix := steps[..n];
      assert forall i :: 0 <= i < n ==> prefix[i] == steps[i];
      ContinueOnFailOneOutputPerItem(prefix);
      var run := RunSteps(prefix, true);
    }
  }

  /** Every item of an `analyze`-only batch contributes an output. */
  lemma AnalyzeItemsContribute(credentials: Credentials, inputs: seq<ItemInput>)
    requires forall i :: 0 <= i < |inputs| ==> inputs[i].params.operation == AnalyzeOperation
    ensures forall i :: 0 <= i < |inputs| ==> Steps(credentials, inputs)[i].result != Ok(None)
  {
  }

  /** Without continue-on-fail, the batch aborts exactly when some item
      fails; the error then carries the index of the FIRST failing item and
      that item's message, and the items before it all succeeded. */
  lemma {:induction false} AbortOnFirstFailure(steps: seq<Step>)
    ensures var run := RunSteps(steps, false);
      && (run.Aborted? <==> exists i :: 0 <= i < |steps| && steps[i].result.Err?)
      && (run.Aborted? ==>
            && run.error.itemIndex < |steps|
            && steps[run.error.itemIndex].result == Err(run.error.message)
            && forall j :: 0 <= j < run.error.itemIndex ==> !steps[j].result.Err?)
    decreases |steps|
  {
    if steps != [] {
      var n := |steps| - 1;
      var prefix := steps[..n];
      assert forall i :: 0 <= i < n ==> prefix[i] == steps[i];
      AbortOnFirstFailure(prefix);
    }
  }

  /** Every request of a batch that runs to its end, item by item. */
  function Requests(steps: seq<Step>): seq<HttpRequest>
    decreases |steps|
  {
    if steps == [] then [] else Requests(steps[..|steps| - 1]) + ListOf(steps[|steps| - 1].sent)
  }

  /** A batch that runs to its end sends every item's request, in order;
      one that aborts sends those of the items up to and including the
      failing one and nothing for any later item. */
  lemma {:induction false} RequestsSent(steps: seq<Step>, continueOnFail: bool)
    ensures var run := RunSteps(steps, continueOnFail);
      && (run.Completed? ==> run.sent == Requests(steps))
      && (run.Aborted? ==>
            && run.error.itemIndex < |steps|
            && run.sent == Requests(steps[..run.error.itemIndex + 1]))
    decreases |steps|
  {
    if steps != [] {
      var n := |steps| - 1;
      var prefix := steps[..n];
      RequestsSent(prefix, continueOnFail);
      var before := RunSteps(prefix, continueOnFail);
      if before.Aborted? {
        assert steps[..before.error.itemIndex + 1] == prefix[..before.error.itemIndex + 1];
      } else if RunSteps(steps, continueOnFail).Aborted? {
        assert steps[..n + 1] == steps;
      }
    }
  }

  /** When no item fails, continue-on-fail makes no difference. */
  lemma {:induction false} NoFailureSameRun(steps: seq<Step>)
    requires forall i :: 0 <= i < |steps| ==> !steps[i].result.Err?
    ensures RunSteps(steps, true) == RunSteps(steps, false)
    ensures RunSteps(steps, false).Completed?
    decreases |steps|
  {
    if steps != [] {
      var n := |steps| - 1;
      var prefix := steps[..n];
      assert forall i :: 0 <= i < n ==> prefix[i] == steps[i];
      NoFailureSameRun(prefix);
    }
  }
}
