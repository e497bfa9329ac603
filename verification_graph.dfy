/** `DocumentValidationGraph` of the verification package: the nodes are awaited one after
    the other on one state dictionary, and when the decision raises, the handler writes the
    error decision into that same, already updated, dictionary. */
module VerificationGraph {
  import opened Wrappers
  import opened Json
  import opened Workflow

  /** The state `validate_document` reads its result from. */
  function FinalState(documentId: string, ocrText: string, documentType: string, workflowType: string,
                      parser: Result<AgentResponse>, validator: Result<AgentResponse>,
                      coherence: Result<AgentResponse>, updateFailure: string): State {
    var s3 := AfterNodes(Initial(documentId, ocrText, documentType, Some(workflowType)), parser, validator, coherence, updateFailure);
    var d := DecisionStep(s3);
    if d.1.Some? then Failed(d.0, d.1.value) else d.0
  }

  /** `validate_document`, without the processing time. The agents' answers are parameters;
      `updateFailure` is the message of a failing field update in the parser node. The result
      follows the final state; it is valid exactly when its status is "valid"; its issues are
      the dictionaries the three agents reported, in their order, whatever the decision did. */
  method ValidateDocument(documentId: string, ocrText: string, documentType: string, workflowType: string,
                          parser: Result<AgentResponse>, validator: Result<AgentResponse>,
                          coherence: Result<AgentResponse>, updateFailure: string)
    returns (result: ValidationResult)
    ensures result == ResultOf(documentId, FinalState(documentId, ocrText, documentType, workflowType, parser, validator, coherence, updateFailure))
    ensures result.isValid <==> result.overallStatus == "valid"
    ensures result.issues == ConvertIssues(ParserIssues(parser) + AgentIssues(validator) + AgentIssues(coherence))
  {
    var state := new GraphState(documentId, ocrText, documentType, Some(workflowType));
    state.RunNodes(parser, validator, coherence, updateFailure);
    var raised := state.MakeDecision();
    if raised.Some? {
      state.Fail(raised.value);
    }
    ghost var fin := state.Snapshot();
    result := Conclude(documentId, state);
    ResultValidIff(documentId, fin);
    FinalIssues(documentId, ocrText, documentType, workflowType, parser, validator, coherence, updateFailure);
  }

  /** The final state holds every issue dictionary the agents reported, in order: the decision,
      raising or not, removes none. */
  lemma {:induction false} FinalIssues(documentId: string, ocrText: string, documentType: string, workflowType: string,
                    parser: Result<AgentResponse>, validator: Result<AgentResponse>,
                    coherence: Result<AgentResponse>, updateFailure: string)
    ensures FinalState(documentId, ocrText, documentType, workflowType, parser, validator, coherence, updateFailure).validationIssues
      == ParserIssues(parser) + AgentIssues(validator) + AgentIssues(coherence)
  {
    var s0 := Initial(documentId, ocrText, documentType, Some(workflowType));
    NodesAppendInOrder(s0, parser, validator, coherence, updateFailure);
    assert [] + ParserIssues(parser) == ParserIssues(parser);
  }

  /** A parser answer that the type is not a valid insurance document makes the result
      invalid, with the rejection as its summary, whatever the other agents said. */
  lemma {:induction false} RejectedTypeResult(documentId: string, ocrText: string, documentType: string, workflowType: string,
                           parser: Result<AgentResponse>, validator: Result<AgentResponse>,
                           coherence: Result<AgentResponse>, updateFailure: string)
    requires parser.Ok? && !Truthy(Get(parser.value.findings, "is_valid_document_type", Bool(true)))
    ensures var r := ResultOf(documentId, FinalState(documentId, ocrText, documentType, workflowType, parser, validator, coherence, updateFailure));
      r.overallStatus == "invalid" && !r.isValid && r.summary == VerdictText(RejectedType)
  {
    var s0 := Initial(documentId, ocrText, documentType, Some(workflowType));
    var s3 := AfterNodes(s0, parser, validator, coherence, updateFailure);
    FindingsReadBack(s0, parser, validator, coherence, updateFailure);
    RejectedTypeWins(s3.agentOutputs, s3.validationIssues, parser.value, s3.needsHumanReview);
    DecidedResult(documentId, s3, RejectedType);
  }

  /** When the decision raises, the handler keeps everything the agents wrote: the result
      lists their issues, and it needs a review exactly when the coherence checker asked for
      one; otherwise it is invalid. */
  lemma {:induction false} RaisedDecisionResult(documentId: string, ocrText: string, documentType: string, workflowType: string,
                             parser: Result<AgentResponse>, validator: Result<AgentResponse>,
                             coherence: Result<AgentResponse>, updateFailure: string)
    requires var s3 := AfterNodes(Initial(documentId, ocrText, documentType, Some(workflowType)), parser, validator, coherence, updateFailure);
      Outcome(s3.agentOutputs, s3.validationIssues).Err?
    ensures var r := ResultOf(documentId, FinalState(documentId, ocrText, documentType, workflowType, parser, validator, coherence, updateFailure));
      && r.summary == ErrorText && !r.isValid
      && r.issues == ConvertIssues(ParserIssues(parser) + AgentIssues(validator) + AgentIssues(coherence))
      && (r.overallStatus == "needs_review" <==>
            coherence.Ok? && Truthy(Get(coherence.value.findings, "requires_human_review", Bool(false))))
  {
    var s0 := Initial(documentId, ocrText, documentType, Some(workflowType));
    var s3 := AfterNodes(s0, parser, validator, coherence, updateFailure);
    NodesAppendInOrder(s0, parser, validator, coherence, updateFailure);
    FailedResult(documentId, DecisionStep(s3).0, Outcome(s3.agentOutputs, s3.validationIssues).error);
    FinalIssues(documentId, ocrText, documentType, workflowType, parser, validator, coherence, updateFailure);
  }

  /** A valid result means that the parser, when it answered, accepted the type, and that
      every reported issue is a dictionary with neither a critical nor a high severity. */
  lemma {:induction false} ValidResultIsClean(documentId: string, ocrText: string, documentType: string, workflowType: string,
                           parser: Result<AgentResponse>, validator: Result<AgentResponse>,
                           coherence: Result<AgentResponse>, updateFailure: string)
    requires ResultOf(documentId, FinalState(documentId, ocrText, documentType, workflowType, parser, validator, coherence, updateFailure)).isValid
    ensures parser.Ok? ==> Truthy(Get(parser.value.findings, "is_valid_document_type", Bool(true)))
    ensures var all := ParserIssues(parser) + AgentIssues(validator) + AgentIssues(coherence);
      AllDicts(all) && !SeverityIn(all, "critical") && !SeverityIn(all, "high")
  {
    var s0 := Initial(documentId, ocrText, documentType, Some(workflowType));
    var s3 := AfterNodes(s0, parser, validator, coherence, updateFailure);
    var outcome := Outcome(s3.agentOutputs, s3.validationIssues);
    if outcome.Err? {
      FailedResult(documentId, DecisionStep(s3).0, outcome.error);
    } else {
      DecidedResult(documentId, s3, outcome.value);
      ValidVerdictClean(s3.agentOutputs, s3.validationIssues, outcome.value);
      FindingsReadBack(s0, parser, validator, coherence, updateFailure);
      NodesAppendInOrder(s0, parser, validator, coherence, updateFailure);
      assert [] + ParserIssues(parser) == ParserIssues(parser);
    }
  }
}
