/** `DocumentValidationGraph` of the agents package: the same four nodes, compiled into a
    LangGraph state graph (parser, validator, coherence checker, decision maker). The graph
    hands each node a fresh top-level dictionary, but the nested dictionaries and the issue
    list are the very objects of the caller's `initial_state`. When the run raises, the
    handler writes the error decision into `initial_state`: what the nodes appended or stored
    in the nested objects shows through, while their top-level writes (the review flag among
    them) are lost. */
module AgentsGraph {
  import opened Wrappers
  import opened Json
  import opened Workflow

  /** `initial_state` after the run: its own top-level entries, and the nested objects as the
      nodes left them. */
  function Shared(initial: State, run: State): State {
    initial.(extractedData := run.extractedData, validationIssues := run.validationIssues,
             agentOutputs := run.agentOutputs)
  }

  /** The state `validate_document` reads its result from. This variant's state has no
      workflow type. */
  function FinalState(documentId: string, ocrText: string, documentType: string,
                      parser: Result<AgentResponse>, validator: Result<AgentResponse>,
                      coherence: Result<AgentResponse>, updateFailure: string): State {
    var s0 := Initial(documentId, ocrText, documentType, None);
    var d := DecisionStep(AfterNodes(s0, parser, validator, coherence, updateFailure));
    if d.1.Some? then Failed(Shared(s0, d.0), d.1.value) else d.0
  }

  /** The nested objects of `initial_state` are those the graph run updates: after the run,
      `initial_state` holds their current contents. */
  method ShareNested(initial: GraphState, run: GraphState)
    modifies initial
    ensures initial.Snapshot() == Shared(old(initial.Snapshot()), run.Snapshot())
  {
    initial.extractedData := run.extractedData;
    initial.validationIssues := run.validationIssues;
    initial.agentOutputs := run.agentOutputs;
  }

  /** `validate_document`, without the processing time: the graph run works on its own
      top-level dictionary; the handler falls back to `initial_state`, whose nested objects
      the run has filled. The result follows the final state and is valid exactly when its
      status is "valid"; its issues are the dictionaries the agents reported, in their order,
      whether or not the decision raised. */
  method ValidateDocument(documentId: string, ocrText: string, documentType: string,
                          parser: Result<AgentResponse>, validator: Result<AgentResponse>,
                          coherence: Result<AgentResponse>, updateFailure: string)
    returns (result: ValidationResult)
    ensures result == ResultOf(documentId, FinalState(documentId, ocrText, documentType, parser, validator, coherence, updateFailure))
    ensures result.isValid <==> result.overallStatus == "valid"
    ensures result.issues == ConvertIssues(ParserIssues(parser) + AgentIssues(validator) + AgentIssues(coherence))
  {
    var initial := new GraphState(documentId, ocrText, documentType, None);
    var run := new GraphState(documentId, ocrText, documentType, None);
    run.RunNodes(parser, validator, coherence, updateFailure);
    var raised := run.MakeDecision();
    var state := run;
    if raised.Some? {
      ShareNested(initial, run);
      initial.Fail(raised.value);
      state := initial;
    }
    ghost var fin := state.Snapshot();
    assert fin == FinalState(documentId, ocrText, documentType, parser, validator, coherence, updateFailure);
    result := Conclude(documentId, state);
    ResultValidIff(documentId, fin);
    FinalIssues(documentId, ocrText, documentType, parser, validator, coherence, updateFailure);
  }

  /** The final state holds every issue dictionary the agents reported, in order: the decision,
      raising or not, removes none. */
  lemma {:induction false} FinalIssues(documentId: string, ocrText: string, documentType: string,
                    parser: Result<AgentResponse>, validator: Result<AgentResponse>,
                    coherence: Result<AgentResponse>, updateFailure: string)
    ensures FinalState(documentId, ocrText, documentType, parser, validator, coherence, updateFailure).validationIssues
      == ParserIssues(parser) + AgentIssues(validator) + AgentIssues(coherence)
  {
    var s0 := Initial(documentId, ocrText, documentType, None);
    NodesAppendInOrder(s0, parser, validator, coherence, updateFailure);
    assert [] + ParserIssues(parser) == ParserIssues(parser);
  }

  /** A parser answer that the type is not a valid insurance document makes the result
      invalid, with the rejection as its summary, whatever the other agents said. */
  lemma {:induction false} RejectedTypeResult(documentId: string, ocrText: string, documentType: string,
                           parser: Result<AgentResponse>, validator: Result<AgentResponse>,
                           coherence: Result<AgentResponse>, updateFailure: string)
    requires parser.Ok? && !Truthy(Get(parser.value.findings, "is_valid_document_type", Bool(true)))
    ensures var r := ResultOf(documentId, FinalState(documentId, ocrText, documentType, parser, validator, coherence, updateFailure));
      r.overallStatus == "invalid" && !r.isValid && r.summary == VerdictText(RejectedType)
  {
    var s0 := Initial(documentId, ocrText, documentType, None);
    var s3 := AfterNodes(s0, parser, validator, coherence, updateFailure);
    FindingsReadBack(s0, parser, validator, coherence, updateFailure);
    RejectedTypeWins(s3.agentOutputs, s3.validationIssues, parser.value, s3.needsHumanReview);
    DecidedResult(documentId, s3, RejectedType);
  }

  /** When the decision raises, the result is invalid, with the error decision as its
      summary, even if the coherence checker asked for a review (that flag was a top-level
      write of the run); it still lists the agents' issues and carries the extracted data and
      agent outputs the nodes stored. */
  lemma {:induction false} RaisedRunResult(documentId: string, ocrText: string, documentType: string,
                        parser: Result<AgentResponse>, validator: Result<AgentResponse>,
                        coherence: Result<AgentResponse>, updateFailure: string)
    requires var s3 := AfterNodes(Initial(documentId, ocrText, documentType, None), parser, validator, coherence, updateFailure);
      Outcome(s3.agentOutputs, s3.validationIssues).Err?
    ensures var s3 := AfterNodes(Initial(documentId, ocrText, documentType, None), parser, validator, coherence, updateFailure);
      var r := ResultOf(documentId, FinalState(documentId, ocrText, documentType, parser, validator, coherence, updateFailure));
      && r.summary == ErrorText && r.overallStatus == "invalid" && !r.isValid
      && r.issues == ConvertIssues(ParserIssues(parser) + AgentIssues(validator) + AgentIssues(coherence))
      && r.extractedData == s3.extractedData && r.agentReports == s3.agentOutputs
  {
    var s0 := Initial(documentId, ocrText, documentType, None);
    var s3 := AfterNodes(s0, parser, validator, coherence, updateFailure);
    FailedResult(documentId, Shared(s0, DecisionStep(s3).0), Outcome(s3.agentOutputs, s3.validationIssues).error);
    FinalIssues(documentId, ocrText, documentType, parser, validator, coherence, updateFailure);
  }

  /** A valid result means that the parser, when it answered, accepted the type, and that
      every reported issue is a dictionary with neither a critical nor a high severity. */
  lemma {:induction false} ValidResultIsClean(documentId: string, ocrText: string, documentType: string,
                           parser: Result<AgentResponse>, validator: Result<AgentResponse>,
                           coherence: Result<AgentResponse>, updateFailure: string)
    requires ResultOf(documentId, FinalState(documentId, ocrText, documentType, parser, validator, coherence, updateFailure)).isValid
    ensures parser.Ok? ==> Truthy(Get(parser.value.findings, "is_valid_document_type", Bool(true)))
    ensures var all := ParserIssues(parser) + AgentIssues(validator) + AgentIssues(coherence);
      AllDicts(all) && !SeverityIn(all, "critical") && !SeverityIn(all, "high")
  {
    var s0 := Initial(documentId, ocrText, documentType, None);
    var s3 := AfterNodes(s0, parser, validator, coherence, updateFailure);
    var outcome := Outcome(s3.agentOutputs, s3.validationIssues);
    if outcome.Err? {
      FailedResult(documentId, Shared(s0, DecisionStep(s3).0), outcome.error);
    } else {
      DecidedResult(documentId, s3, outcome.value);
      ValidVerdictClean(s3.agentOutputs, s3.validationIssues, outcome.value);
      FindingsReadBack(s0, parser, validator, coherence, updateFailure);
      NodesAppendInOrder(s0, parser, validator, coherence, updateFailure);
      assert [] + ParserIssues(parser) == ParserIssues(parser);
    }
  }
}
