/** What the two agent workflows (the sequential one and the LangGraph one) share: the
    state record the nodes update step by step, the three agent nodes, the decision
    ladder, the substring mapping from the decision to an overall status, and the conversion
    of the collected issue dictionaries. The agents themselves are language-model calls; each
    one's answer (or the exception it raised) is a parameter. */
module Workflow {
  import opened Wrappers
  import opened Text
  import opened Json

  // ---------------------------------------------------------------------------------------
  // Agent answers
  // ---------------------------------------------------------------------------------------

  /** `AgentResponse`: the issues are the dictionaries the nodes append (each issue's
      `model_dump()`, or the entry itself when it has none). */
  datatype AgentResponse = AgentResponse(
    agentName: string,
    status: string,
    findings: map<string, Value>,
    issues: seq<Value>,
    confidence: real,
    reasoning: string)

  /** `response.model_dump()` */
  function Dump(r: AgentResponse): (v: Value)
    ensures v.Obj? && "findings" in v.fields && v.fields["findings"] == Obj(r.findings)
  {
    Obj(map[
      "agent_name" := Str(r.agentName),
      "status" := Str(r.status),
      "findings" := Obj(r.findings),
      "issues" := Arr(r.issues),
      "confidence" := Num(r.confidence),
      "reasoning" := Str(r.reasoning)])
  }

  // ---------------------------------------------------------------------------------------
  // The state
  // ---------------------------------------------------------------------------------------

  /** The `GraphState` dictionary as a value. `workflowType` is `None` for the LangGraph
      variant, whose state has no such key. */
  datatype State = State(
    documentId: string,
    ocrText: string,
    documentType: string,
    workflowType: Option<string>,
    extractedData: map<string, Value>,
    validationIssues: seq<Value>,
    agentOutputs: map<string, Value>,
    currentAgent: string,
    isComplete: bool,
    needsHumanReview: bool,
    finalDecision: string,
    error: string)

  /** `initial_state` */
  function Initial(documentId: string, ocrText: string, documentType: string, workflowType: Option<string>): State {
    State(documentId, ocrText, documentType, workflowType, map[], [], map[], "", false, false, "", "")
  }

  const RejectedTypeError := "Document rejected: Not a valid insurance document type"

  /** `_run_parser`. An `Err` answer is the exception of the agent call. `updateFailure` is the
      message of the exception `dict.update` raises when the extracted fields are truthy but
      not a dictionary; by then the current agent and the parser's output are already
      written, and no issue is appended. */
  function ParserStep(s: State, response: Result<AgentResponse>, updateFailure: string): State {
    match response
    case Err(e) => s.(error := "Parser error: " + e)
    case Ok(r) =>
      ParserFindingsStep(s.(currentAgent := "parser", agentOutputs := s.agentOutputs["parser" := Dump(r)]), r, updateFailure)
  }

  /** The parser node once its output is recorded: the type check, the field update and the
      issues. */
  function ParserFindingsStep(s: State, r: AgentResponse, updateFailure: string): State {
    var s1 := if !Truthy(Get(r.findings, "is_valid_document_type", Bool(true))) then s.(error := RejectedTypeError) else s;
    var ef := Get(r.findings, "extracted_fields", Null);
    if !Truthy(ef) then s1.(validationIssues := s1.validationIssues + r.issues)
    else if ef.Obj? then s1.(extractedData := s1.extractedData + ef.fields, validationIssues := s1.validationIssues + r.issues)
    else
      var s2 := s1.(extractedData := StorePairs(s1.extractedData, PairEntries(ef)));
      if UpdateRaises(ef) then s2.(error := "Parser error: " + updateFailure)
      else s2.(validationIssues := s2.validationIssues + r.issues)
  }

  /** `dict.update` with an argument that is not a dictionary iterates over it: only a list
      gets past its first entry. */
  function PairEntries(ef: Value): seq<Value> {
    if ef.Arr? then ef.items else []
  }

  /** An entry `dict.update` accepts as a key/value pair: a two-element list with a string
      key, or a two-character string (its two characters). */
  function PairOf(e: Value): (p: Option<(string, Value)>)
    ensures p.Some? ==> (e.Arr? && |e.items| == 2 && e.items[0] == Str(p.value.0) && e.items[1] == p.value.1)
                        || (e.Str? && |e.s| == 2 && p.value == ([e.s[0]], Str([e.s[1]])))
  {
    match e
    case Arr(items) => if |items| == 2 && items[0].Str? then Some((items[0].s, items[1])) else None
    case Str(t) => if |t| == 2 then Some(([t[0]], Str([t[1]]))) else None
    case _ => None
  }

  predicate AllPairs(entries: seq<Value>) {
    forall k :: 0 <= k < |entries| ==> PairOf(entries[k]).Some?
  }

  /** The update raises unless the argument is a list of pairs (a truthy string, number or
      boolean raises at once). */
  predicate UpdateRaises(ef: Value) {
    !(ef.Arr? && AllPairs(ef.items))
  }

  /** The pairs stored one at a time, up to the first entry that is not a pair: what
      `dict.update` has written by the time it raises. */
  function StorePairs(d: map<string, Value>, entries: seq<Value>): (r: map<string, Value>)
    ensures d.Keys <= r.Keys
    decreases |entries|
  {
    if entries == [] then d
    else match PairOf(entries[0])
      case None => d
      case Some(p) => StorePairs(d[p.0 := p.1], entries[1..])
  }

  /** Every key the update adds comes from a pair, and when every entry is a pair the last
      one is stored: a later pair for the same key wins. */
  lemma {:induction false} StorePairsSources(d: map<string, Value>, entries: seq<Value>)
    ensures forall key :: key in StorePairs(d, entries) && key !in d ==>
      exists k :: 0 <= k < |entries| && PairOf(entries[k]).Some? && PairOf(entries[k]).value.0 == key
    ensures AllPairs(entries) && entries != [] ==>
      var last := PairOf(entries[|entries| - 1]).value;
      last.0 in StorePairs(d, entries) && StorePairs(d, entries)[last.0] == last.1
    decreases |entries|
  {
    if entries != [] && PairOf(entries[0]).Some? {
      var p := PairOf(entries[0]).value;
      var rest := entries[1..];
      StorePairsSources(d[p.0 := p.1], rest);
      assert StorePairs(d, entries) == StorePairs(d[p.0 := p.1], rest);
      forall key | key in StorePairs(d, entries) && key !in d
        ensures exists k :: 0 <= k < |entries| && PairOf(entries[k]).Some? && PairOf(entries[k]).value.0 == key
      {
        if key == p.0 {
          assert PairOf(entries[0]).value.0 == key;
        } else {
          assert key !in d[p.0 := p.1];
          var k :| 0 <= k < |rest| && PairOf(rest[k]).Some? && PairOf(rest[k]).value.0 == key;
          assert rest[k] == entries[k + 1];
        }
      }
      if AllPairs(entries) && |entries| > 1 {
        assert forall k :: 0 <= k < |rest| ==> rest[k] == entries[k + 1];
        assert rest[|rest| - 1] == entries[|entries| - 1];
      }
    }
  }

  /** `_run_validator` */
  function ValidatorStep(s: State, response: Result<AgentResponse>): State {
    match response
    case Err(e) => s.(error := "Validator error: " + e)
    case Ok(r) =>
      s.(currentAgent := "validator", agentOutputs := s.agentOutputs["validator" := Dump(r)],
         validationIssues := s.validationIssues + r.issues)
  }

  /** `_run_coherence_checker`: the only node that may ask for a human review, and it can only
      set the flag. */
  function CoherenceStep(s: State, response: Result<AgentResponse>): State {
    match response
    case Err(e) => s.(error := "Coherence Checker error: " + e)
    case Ok(r) =>
      s.(currentAgent := "coherence_checker", agentOutputs := s.agentOutputs["coherence_checker" := Dump(r)],
         validationIssues := s.validationIssues + r.issues,
         needsHumanReview := s.needsHumanReview || Truthy(Get(r.findings, "requires_human_review", Bool(false))))
  }

  /** The issues a node appends: none when the agent raised, nor when the parser's field
      update raised. */
  function ParserIssues(response: Result<AgentResponse>): seq<Value> {
    if response.Err? then []
    else
      var ef := Get(response.value.findings, "extracted_fields", Null);
      if Truthy(ef) && !ef.Obj? && UpdateRaises(ef) then [] else response.value.issues
  }

  function AgentIssues(response: Result<AgentResponse>): seq<Value> {
    if response.Err? then [] else response.value.issues
  }

  /** The issue list only grows, in node order: parser, validator, coherence checker; the
      review flag is set only by the coherence checker, and never cleared by a node. */
  lemma {:induction false} NodesAppendInOrder(s: State, parser: Result<AgentResponse>, validator: Result<AgentResponse>,
                           coherence: Result<AgentResponse>, updateFailure: string)
    ensures var s3 := CoherenceStep(ValidatorStep(ParserStep(s, parser, updateFailure), validator), coherence);
      && s3.validationIssues == s.validationIssues + ParserIssues(parser) + AgentIssues(validator) + AgentIssues(coherence)
      && s3.needsHumanReview == (s.needsHumanReview
           || (coherence.Ok? && Truthy(Get(coherence.value.findings, "requires_human_review", Bool(false)))))
  {
    var s1 := ParserStep(s, parser, updateFailure);
    ParserNodeEffect(s, parser, updateFailure);
    var s2 := ValidatorStep(s1, validator);
    assert s2.validationIssues == s1.validationIssues + AgentIssues(validator) && s2.needsHumanReview == s1.needsHumanReview;
    var s3 := CoherenceStep(s2, coherence);
    assert s3.validationIssues == s2.validationIssues + AgentIssues(coherence);
  }

  /** The three agent nodes in order. */
  function AfterNodes(s: State, parser: Result<AgentResponse>, validator: Result<AgentResponse>,
                      coherence: Result<AgentResponse>, updateFailure: string): State {
    CoherenceStep(ValidatorStep(ParserStep(s, parser, updateFailure), validator), coherence)
  }

  /** The handler of `validate_document` applied to the state it falls back to. */
  function Failed(s: State, e: string): State {
    s.(error := e, finalDecision := ErrorText, isComplete := true)
  }

  /** The parser node appends its issues unless it raised, and leaves the flag alone. */
  lemma {:induction false} ParserNodeEffect(s: State, parser: Result<AgentResponse>, updateFailure: string)
    ensures ParserStep(s, parser, updateFailure).validationIssues == s.validationIssues + ParserIssues(parser)
    ensures ParserStep(s, parser, updateFailure).needsHumanReview == s.needsHumanReview
  {
    if parser.Err? {
      assert s.validationIssues + [] == s.validationIssues;
    }
  }

  // ---------------------------------------------------------------------------------------
  // _make_decision
  // ---------------------------------------------------------------------------------------

  /** The decisions `_make_decision` writes, each standing for its text. */
  datatype Verdict =
    | RejectedType
    | CriticalIssues
    | SignificantIssues
    | MissingInformation
    | DataInconsistencies
    | ValidWithNotes
    | AllChecksPassed

  function VerdictText(v: Verdict): string {
    match v
    case RejectedType => "REJECTED - " + "Document is not a valid insurance document type"
    case CriticalIssues => "INVALID - Critical issues detected"
    case SignificantIssues => "NEEDS_REVIEW - Significant issues found"
    case MissingInformation => "INCOMPLETE - Missing required information"
    case DataInconsistencies => "NEEDS_REVIEW - Data inconsistencies detected"
    case ValidWithNotes => "VALID_WITH_NOTES - Valid with minor issues"
    case AllChecksPassed => "VALID - Document passed all checks"
  }

  const ErrorText := "ERROR - Validation process failed"

  /** `state["agent_outputs"].get(agent, {}).get("findings", {})`; a value without `.get`
      raises. */
  function FindingsOf(outputs: map<string, Value>, agent: string): (r: Result<map<string, Value>>)
    ensures agent !in outputs ==> r == Ok(map[])
  {
    var out := Get(outputs, agent, Obj(map[]));
    if !out.Obj? then Err("AttributeError: agent output has no get")
    else
      var f := Get(out.fields, "findings", Obj(map[]));
      if !f.Obj? then Err("AttributeError: findings have no get") else Ok(f.fields)
  }

  /** What the decision reads back of each agent is what that agent answered: the later nodes
      write other keys. */
  lemma {:induction false} FindingsReadBack(s: State, parser: Result<AgentResponse>, validator: Result<AgentResponse>,
                         coherence: Result<AgentResponse>, updateFailure: string)
    ensures var out := AfterNodes(s, parser, validator, coherence, updateFailure).agentOutputs;
      && (parser.Ok? ==>
            "parser" in out && out["parser"] == Dump(parser.value) && FindingsOf(out, "parser") == Ok(parser.value.findings))
      && (validator.Ok? ==> FindingsOf(out, "validator") == Ok(validator.value.findings))
      && (coherence.Ok? ==> FindingsOf(out, "coherence_checker") == Ok(coherence.value.findings))
  {
    var s1 := ParserStep(s, parser, updateFailure);
    if parser.Ok? {
      ParserKeepsOutputs(s.(currentAgent := "parser", agentOutputs := s.agentOutputs["parser" := Dump(parser.value)]), parser.value, updateFailure);
      assert s1.agentOutputs["parser"] == Dump(parser.value);
    }
  }

  lemma {:induction false} ParserKeepsOutputs(s: State, r: AgentResponse, updateFailure: string)
    ensures ParserFindingsStep(s, r, updateFailure).agentOutputs == s.agentOutputs
  {
  }

  predicate AllDicts(issues: seq<Value>) {
    forall k :: 0 <= k < |issues| ==> issues[k].Obj?
  }

  /** Some issue has `i.get("severity") == sev`. */
  predicate SeverityIn(issues: seq<Value>, sev: string) {
    exists k :: 0 <= k < |issues| && issues[k].Obj? && Get(issues[k].fields, "severity", Null) == Str(sev)
  }

  /** The ladder after the type check, first match wins. A score is compared with 0.7 only
      when the flag before it is truthy, and such a comparison with a value that is not a
      number raises. */
  function Ladder(critical: bool, high: bool, medium: bool, vf: map<string, Value>, cf: map<string, Value>): Result<Verdict> {
    if critical then Ok(CriticalIssues)
    else if high then Ok(SignificantIssues)
    else if !Truthy(Get(vf, "is_complete", Bool(true))) then Ok(MissingInformation)
    else
      match LessThanSeventyPercent(Get(vf, "completeness_score", Num(1.0)))
      case None => Err("TypeError: completeness_score is not a number")
      case Some(low) =>
        if low then Ok(MissingInformation)
        else if !Truthy(Get(cf, "is_coherent", Bool(true))) then Ok(DataInconsistencies)
        else
          match LessThanSeventyPercent(Get(cf, "coherence_score", Num(1.0)))
          case None => Err("TypeError: coherence_score is not a number")
          case Some(incoherent) =>
            if incoherent then Ok(DataInconsistencies)
            else if medium then Ok(ValidWithNotes)
            else Ok(AllChecksPassed)
  }

  /** The verdict `_make_decision` reaches on the collected outputs and issues, or the
      exception it raises: an invalid type reported by the parser wins over everything;
      otherwise every issue must be a dictionary and the findings readable, then the ladder
      decides. */
  function Outcome(outputs: map<string, Value>, issues: seq<Value>): Result<Verdict> {
    var pf := FindingsOf(outputs, "parser");
    if pf.Err? then Err(pf.error)
    else if !Truthy(Get(pf.value, "is_valid_document_type", Bool(true))) then Ok(RejectedType)
    else if !AllDicts(issues) then Err("AttributeError: an issue has no get")
    else
      var vf := FindingsOf(outputs, "validator");
      var cf := FindingsOf(outputs, "coherence_checker");
      if vf.Err? then Err(vf.error)
      else if cf.Err? then Err(cf.error)
      else Ladder(SeverityIn(issues, "critical"), SeverityIn(issues, "high"), SeverityIn(issues, "medium"), vf.value, cf.value)
  }

  /** `needs_human_review` after the decision: cleared for a rejected type, set for every
      verdict below "valid", left as it was for the two valid verdicts. */
  function FlagAfter(v: Verdict, flag: bool): bool {
    match v
    case RejectedType => false
    case ValidWithNotes => flag
    case AllChecksPassed => flag
    case _ => true
  }

  /** `_make_decision` as a step: the current agent and completion are written first, so they
      hold even when the rest raises (the second component is the exception). */
  function DecisionStep(s: State): (State, Option<string>) {
    var s1 := s.(currentAgent := "decision_maker", isComplete := true);
    match Outcome(s.agentOutputs, s.validationIssues)
    case Err(e) => (s1, Some(e))
    case Ok(v) => (s1.(finalDecision := VerdictText(v), needsHumanReview := FlagAfter(v, s.needsHumanReview)), None)
  }

  /** A parser that reports an invalid type decides the outcome whatever the issues and the
      other findings are, and clears the review flag. */
  lemma {:induction false} RejectedTypeWins(outputs: map<string, Value>, issues: seq<Value>, r: AgentResponse, flag: bool)
    requires "parser" in outputs && outputs["parser"] == Dump(r)
    requires !Truthy(Get(r.findings, "is_valid_document_type", Bool(true)))
    ensures Outcome(outputs, issues) == Ok(RejectedType)
    ensures !FlagAfter(RejectedType, flag)
  {
  }

  /** A verdict that stands for "valid" was reached only on dictionaries without a critical or
      a high severity, after the parser accepted the type. */
  lemma {:induction false} ValidVerdictClean(outputs: map<string, Value>, issues: seq<Value>, v: Verdict)
    requires Outcome(outputs, issues) == Ok(v) && ExpectedStatus(v) == Valid
    ensures FindingsOf(outputs, "parser").Ok?
    ensures Truthy(Get(FindingsOf(outputs, "parser").value, "is_valid_document_type", Bool(true)))
    ensures AllDicts(issues) && !SeverityIn(issues, "critical") && !SeverityIn(issues, "high")
  {
    var pf := FindingsOf(outputs, "parser");
    if pf.Ok? && Truthy(Get(pf.value, "is_valid_document_type", Bool(true))) && AllDicts(issues) {
      var vf := FindingsOf(outputs, "validator");
      var cf := FindingsOf(outputs, "coherence_checker");
      assert vf.Ok? && cf.Ok?;
      LadderValidClean(SeverityIn(issues, "critical"), SeverityIn(issues, "high"), SeverityIn(issues, "medium"), vf.value, cf.value, v);
    }
  }

  lemma {:induction false} LadderValidClean(critical: bool, high: bool, medium: bool, vf: map<string, Value>, cf: map<string, Value>, v: Verdict)
    requires Ladder(critical, high, medium, vf, cf) == Ok(v) && ExpectedStatus(v) == Valid
    ensures !critical && !high
  {
  }

  /** Absent findings read as a valid type, complete and coherent with scores of 1.0: with no
      agent output at all, dictionaries without a critical, high or medium severity pass. */
  lemma {:induction false} MissingFindingsPass(issues: seq<Value>)
    requires AllDicts(issues)
    requires !SeverityIn(issues, "critical") && !SeverityIn(issues, "high") && !SeverityIn(issues, "medium")
    ensures Outcome(map[], issues) == Ok(AllChecksPassed)
  {
  }

  /** The ladder's order: each verdict holds exactly when its own condition holds and no
      earlier one does (for readable, numeric findings). */
  lemma {:induction false} LadderOrder(critical: bool, high: bool, medium: bool, vf: map<string, Value>, cf: map<string, Value>, cs: real, hs: real)
    requires Get(vf, "completeness_score", Num(1.0)) == Num(cs) && Get(cf, "coherence_score", Num(1.0)) == Num(hs)
    ensures var incomplete := !Truthy(Get(vf, "is_complete", Bool(true))) || cs < 0.7;
      var incoherent := !Truthy(Get(cf, "is_coherent", Bool(true))) || hs < 0.7;
      var v := Ladder(critical, high, medium, vf, cf);
      && v.Ok?
      && (v.value == CriticalIssues <==> critical)
      && (v.value == SignificantIssues <==> !critical && high)
      && (v.value == MissingInformation <==> !critical && !high && incomplete)
      && (v.value == DataInconsistencies <==> !critical && !high && !incomplete && incoherent)
      && (v.value == ValidWithNotes <==> !critical && !high && !incomplete && !incoherent && medium)
      && (v.value == AllChecksPassed <==> !critical && !high && !incomplete && !incoherent && !medium)
  {
  }

  /** Below the type check, a score that is not a number raises only when the ladder reaches
      its comparison: a critical or high issue, or a falsy completeness flag, decides first. */
  lemma {:induction false} ScoreComparedOnlyWhenReached(critical: bool, high: bool, medium: bool, vf: map<string, Value>, cf: map<string, Value>)
    requires LessThanSeventyPercent(Get(vf, "completeness_score", Num(1.0))).None?
    ensures Ladder(critical, high, medium, vf, cf).Err? <==> !critical && !high && Truthy(Get(vf, "is_complete", Bool(true)))
  {
  }

  // ---------------------------------------------------------------------------------------
  // The overall status
  // ---------------------------------------------------------------------------------------

  datatype OverallStatus = Valid | Invalid | NeedsReview

  /** The status values, as the enumeration and the LangGraph variant spell them. */
  function StatusName(s: OverallStatus): string {
    match s
    case Valid => "valid"
    case Invalid => "invalid"
    case NeedsReview => "needs_review"
  }

  lemma {:induction false} StatusNameInjective(a: OverallStatus, b: OverallStatus)
    ensures StatusName(a) == StatusName(b) <==> a == b
  {
  }

  /** The status mapping of `validate_document`: substring tests on the decision, first
      match wins, with the review flag deciding what no test catches. */
  function OverallStatusOf(decision: string, flag: bool): OverallStatus {
    if Contains(decision, "REJECTED") then Invalid
    else if Contains(decision, "VALID") && !Contains(decision, "INVALID") then Valid
    else if Contains(decision, "INVALID") then Invalid
    else if Contains(decision, "NEEDS_REVIEW") || flag then NeedsReview
    else Invalid
  }

  /** The status each verdict stands for, read off its name. */
  function ExpectedStatus(v: Verdict): OverallStatus {
    match v
    case RejectedType => Invalid
    case CriticalIssues => Invalid
    case ValidWithNotes => Valid
    case AllChecksPassed => Valid
    case _ => NeedsReview
  }

  /** What each verdict maps to once the decision step has set the flag: rejected and invalid
      decisions give invalid, the two valid ones valid whatever the flag says, and the
      review and incomplete ones a review (the incomplete one through the flag). */
  lemma {:induction false} VerdictStatus(v: Verdict, flag: bool)
    ensures OverallStatusOf(VerdictText(v), FlagAfter(v, flag)) == ExpectedStatus(v)
  {
    var s := VerdictText(v);
    match v
    case RejectedType => RejectedTextFacts(s);
    case CriticalIssues => CriticalTextFacts(s);
    case SignificantIssues => ReviewTextFacts(s);
    case MissingInformation => IncompleteTextFacts(s);
    case DataInconsistencies => ReviewTextFacts(s);
    case ValidWithNotes => NotesTextFacts(s);
    case AllChecksPassed => PassedTextFacts(s);
  }

  /** The error decision, like the empty one, matches no test: the flag alone decides. */
  lemma {:induction false} ErrorStatus(flag: bool)
    ensures OverallStatusOf(ErrorText, flag) == if flag then NeedsReview else Invalid
    ensures OverallStatusOf("", flag) == if flag then NeedsReview else Invalid
  {
    ErrorTextFacts(ErrorText);
  }

  // Which of the four markers each decision text contains, from the characters it starts
  // with and the ones it lacks.

  lemma {:induction false} RejectedTextFacts(s: string)
    requires s == "REJECTED - " + "Document is not a valid insurance document type"
    ensures Contains(s, "REJECTED")
  {
    RejectedTextChars(s);
    PrefixContained(s, "REJECTED");
  }

  lemma {:induction false} RejectedTextChars(s: string)
    requires s == "REJECTED - " + "Document is not a valid insurance document type"
    ensures |s| >= 8 && forall i :: 0 <= i < 8 ==> s[i] == "REJECTED"[i]
  {
  }

  lemma {:induction false} CriticalTextFacts(s: string)
    requires s == "INVALID - Critical issues detected"
    ensures !Contains(s, "REJECTED") && Contains(s, "INVALID")
  {
    CriticalTextChars(s);
    MissingCharNotContained(s, "REJECTED", 2);
    PrefixContained(s, "INVALID");
  }

  lemma {:induction false} CriticalTextChars(s: string)
    requires s == "INVALID - Critical issues detected"
    ensures forall i :: 0 <= i < |s| ==> s[i] != 'J'
    ensures |s| >= 7 && forall i :: 0 <= i < 7 ==> s[i] == "INVALID"[i]
  {
  }

  lemma {:induction false} ReviewTextFacts(s: string)
    requires s == "NEEDS_REVIEW - Significant issues found" || s == "NEEDS_REVIEW - Data inconsistencies detected"
    ensures !Contains(s, "REJECTED") && !Contains(s, "VALID") && !Contains(s, "INVALID") && Contains(s, "NEEDS_REVIEW")
  {
    ReviewTextChars(s);
    MissingCharNotContained(s, "REJECTED", 2);
    MissingCharNotContained(s, "VALID", 1);
    MissingCharNotContained(s, "INVALID", 3);
    PrefixContained(s, "NEEDS_REVIEW");
  }

  lemma {:induction false} ReviewTextChars(s: string)
    requires s == "NEEDS_REVIEW - Significant issues found" || s == "NEEDS_REVIEW - Data inconsistencies detected"
    ensures forall i :: 0 <= i < |s| ==> s[i] != 'J' && s[i] != 'A'
    ensures |s| >= 12 && forall i :: 0 <= i < 12 ==> s[i] == "NEEDS_REVIEW"[i]
  {
  }

  lemma {:induction false} IncompleteTextFacts(s: string)
    requires s == "INCOMPLETE - Missing required information"
    ensures !Contains(s, "REJECTED") && !Contains(s, "VALID") && !Contains(s, "INVALID")
  {
    IncompleteTextChars(s);
    MissingCharNotContained(s, "REJECTED", 2);
    MissingCharNotContained(s, "VALID", 0);
    MissingCharNotContained(s, "INVALID", 2);
  }

  lemma {:induction false} IncompleteTextChars(s: string)
    requires s == "INCOMPLETE - Missing required information"
    ensures forall i :: 0 <= i < |s| ==> s[i] != 'J' && s[i] != 'V'
  {
  }

  lemma {:induction false} NotesTextFacts(s: string)
    requires s == "VALID_WITH_NOTES - Valid with minor issues"
    ensures !Contains(s, "REJECTED") && Contains(s, "VALID") && !Contains(s, "INVALID")
  {
    NotesTextChars(s);
    MissingCharNotContained(s, "REJECTED", 2);
    PrefixContained(s, "VALID");
    OnlyOccurrence(s, "INVALID", 1, 11);
  }

  /** The only capital N is the one of "NOTES", after an underscore. */
  lemma {:induction false} NotesTextChars(s: string)
    requires s == "VALID_WITH_NOTES - Valid with minor issues"
    ensures forall i :: 0 <= i < |s| ==> s[i] != 'J' && (s[i] == 'N' ==> i == 11)
    ensures |s| > 11 && s[10] == '_'
    ensures forall i :: 0 <= i < 5 ==> s[i] == "VALID"[i]
  {
  }

  lemma {:induction false} PassedTextFacts(s: string)
    requires s == "VALID - Document passed all checks"
    ensures !Contains(s, "REJECTED") && Contains(s, "VALID") && !Contains(s, "INVALID")
  {
    PassedTextChars(s);
    NoJOrNFacts(s);
  }

  /** A text without J or N that starts with VALID contains VALID but neither REJECTED nor
      INVALID. */
  lemma {:induction false} NoJOrNFacts(s: string)
    requires forall i :: 0 <= i < |s| ==> s[i] != 'J' && s[i] != 'N'
    requires |s| >= 5 && forall i :: 0 <= i < 5 ==> s[i] == "VALID"[i]
    ensures !Contains(s, "REJECTED") && Contains(s, "VALID") && !Contains(s, "INVALID")
  {
    MissingCharNotContained(s, "REJECTED", 2);
    PrefixContained(s, "VALID");
    MissingCharNotContained(s, "INVALID", 1);
  }

  lemma {:induction false} PassedTextChars(s: string)
    requires s == "VALID - Document passed all checks"
    ensures forall i :: 0 <= i < |s| ==> s[i] != 'J' && s[i] != 'N'
    ensures |s| >= 5 && forall i :: 0 <= i < 5 ==> s[i] == "VALID"[i]
  {
  }

  lemma {:induction false} ErrorTextFacts(s: string)
    requires s == "ERROR - Validation process failed"
    ensures !Contains(s, "REJECTED") && !Contains(s, "VALID") && !Contains(s, "INVALID") && !Contains(s, "NEEDS_REVIEW")
  {
    ErrorTextChars(s);
    MissingCharNotContained(s, "REJECTED", 2);
    MissingCharNotContained(s, "VALID", 1);
    MissingCharNotContained(s, "INVALID", 3);
    MissingCharNotContained(s, "NEEDS_REVIEW", 5);
  }

  lemma {:induction false} ErrorTextChars(s: string)
    requires s == "ERROR - Validation process failed"
    ensures forall i :: 0 <= i < |s| ==> s[i] != 'J' && s[i] != 'A' && s[i] != '_'
  {
  }

  // ---------------------------------------------------------------------------------------
  // Issue conversion
  // ---------------------------------------------------------------------------------------

  /** `ValidationIssue(...)` built from a dictionary. */
  datatype ValidationIssue = ValidationIssue(
    field: Value,
    issueType: Value,
    description: Value,
    severity: Value,
    suggestion: Value,
    confidence: Value)

  /** The defaults: field and type "unknown", empty description, severity "medium", no
      suggestion, confidence 0.8. */
  function ToIssue(d: map<string, Value>): ValidationIssue {
    ValidationIssue(
      Get(d, "field", Str("unknown")),
      Get(d, "issue_type", Str("unknown")),
      Get(d, "description", Str("")),
      Get(d, "severity", Str("medium")),
      Get(d, "suggestion", Null),
      Get(d, "confidence", Num(0.8)))
  }

  /** The dictionaries among the entries, converted, in order; everything else is skipped. */
  function ConvertIssues(entries: seq<Value>): (r: seq<ValidationIssue>)
    ensures |r| <= |entries|
    decreases |entries|
  {
    if entries == [] then []
    else
      var last := entries[|entries| - 1];
      ConvertIssues(entries[..|entries| - 1]) + (if last.Obj? then [ToIssue(last.fields)] else [])
  }

  /** Converting a concatenation converts each part in turn: the order of the agents
      survives. */
  lemma {:induction false} ConvertIssuesAppend(a: seq<Value>, b: seq<Value>)
    ensures ConvertIssues(a + b) == ConvertIssues(a) + ConvertIssues(b)
    decreases |b|
  {
    if b == [] {
      assert a + b == a;
    } else {
      var b' := b[..|b| - 1];
      assert (a + b)[..|a + b| - 1] == a + b';
      assert (a + b)[|a + b| - 1] == b[|b| - 1];
      ConvertIssuesAppend(a, b');
    }
  }

  /** Every converted issue comes from a dictionary entry, and all dictionaries are kept. */
  lemma {:induction false} ConvertIssuesKeepsDicts(entries: seq<Value>)
    ensures AllDicts(entries) ==> |ConvertIssues(entries)| == |entries|
    ensures forall i :: i in ConvertIssues(entries) ==> exists k :: 0 <= k < |entries| && entries[k].Obj? && i == ToIssue(entries[k].fields)
    decreases |entries|
  {
    if entries != [] {
      var init := entries[..|entries| - 1];
      ConvertIssuesKeepsDicts(init);
      forall i | i in ConvertIssues(entries)
        ensures exists k :: 0 <= k < |entries| && entries[k].Obj? && i == ToIssue(entries[k].fields)
      {
        if i in ConvertIssues(init) {
          var k :| 0 <= k < |init| && init[k].Obj? && i == ToIssue(init[k].fields);
          assert entries[k] == init[k];
        } else {
          assert entries[|entries| - 1].Obj? && i == ToIssue(entries[|entries| - 1].fields);
        }
      }
    }
  }

  /** The conversion loop of `validate_document`. */
  method ConvertAll(entries: seq<Value>) returns (issues: seq<ValidationIssue>)
    ensures issues == ConvertIssues(entries)
  {
    issues := [];
    var k := 0;
    while k < |entries|
      invariant k <= |entries|
      invariant issues == ConvertIssues(entries[..k])
    {
      assert entries[..k + 1][..k] == entries[..k];
      if entries[k].Obj? {
        issues := issues + [ToIssue(entries[k].fields)];
      }
      k := k + 1;
    }
    assert entries[..k] == entries;
  }

  // ---------------------------------------------------------------------------------------
  // The result
  // ---------------------------------------------------------------------------------------

  /** `DocumentValidationResult`, without the processing time. The status is its string
      value in both variants. */
  datatype ValidationResult = ValidationResult(
    documentId: string,
    isValid: bool,
    overallStatus: string,
    issues: seq<ValidationIssue>,
    extractedData: map<string, Value>,
    agentReports: map<string, Value>,
    summary: string)

  /** The result `validate_document` builds from the final state. */
  function ResultOf(documentId: string, s: State): ValidationResult {
    var status := OverallStatusOf(s.finalDecision, s.needsHumanReview);
    ValidationResult(documentId, status == Valid, StatusName(status), ConvertIssues(s.validationIssues),
                     s.extractedData, s.agentOutputs, s.finalDecision)
  }

  /** The result is valid exactly when its status is "valid", and it carries the state's
      decision as its summary. */
  lemma {:induction false} ResultValidIff(documentId: string, s: State)
    ensures ResultOf(documentId, s).isValid <==> ResultOf(documentId, s).overallStatus == "valid"
    ensures ResultOf(documentId, s).summary == s.finalDecision
  {
    var status := OverallStatusOf(s.finalDecision, s.needsHumanReview);
    StatusNameInjective(status, Valid);
  }

  /** A decision that does not raise yields the status its verdict stands for, with the
      verdict's text as the summary. */
  lemma {:induction false} DecidedResult(documentId: string, s: State, v: Verdict)
    requires Outcome(s.agentOutputs, s.validationIssues) == Ok(v)
    ensures DecisionStep(s).1.None?
    ensures ResultOf(documentId, DecisionStep(s).0).overallStatus == StatusName(ExpectedStatus(v))
    ensures ResultOf(documentId, DecisionStep(s).0).isValid <==> ExpectedStatus(v) == Valid
    ensures ResultOf(documentId, DecisionStep(s).0).summary == VerdictText(v)
  {
    VerdictStatus(v, s.needsHumanReview);
  }

  /** After the handler, the summary is the error decision and the review flag alone decides
      between "needs_review" and "invalid"; the issues are those of the state it fell back
      to. */
  lemma {:induction false} FailedResult(documentId: string, s: State, e: string)
    ensures ResultOf(documentId, Failed(s, e)).overallStatus == if s.needsHumanReview then "needs_review" else "invalid"
    ensures !ResultOf(documentId, Failed(s, e)).isValid
    ensures ResultOf(documentId, Failed(s, e)).summary == ErrorText
    ensures ResultOf(documentId, Failed(s, e)).issues == ConvertIssues(s.validationIssues)
  {
    ErrorStatus(s.needsHumanReview);
  }

  /** The end of `validate_document`: the status mapping and the conversion loop over the
      final state. */
  method Conclude(documentId: string, state: GraphState) returns (result: ValidationResult)
    ensures result == ResultOf(documentId, state.Snapshot())
  {
    var status := OverallStatusOf(state.finalDecision, state.needsHumanReview);
    var issues := ConvertAll(state.validationIssues);
    result := ValidationResult(documentId, StatusName(status) == "valid", StatusName(status), issues,
                               state.extractedData, state.agentOutputs, state.finalDecision);
    StatusNameInjective(status, Valid);
  }

  // ---------------------------------------------------------------------------------------
  // The state object the nodes update in place
  // ---------------------------------------------------------------------------------------

  class GraphState {
    var documentId: string
    var ocrText: string
    var documentType: string
    var workflowType: Option<string>
    var extractedData: map<string, Value>
    var validationIssues: seq<Value>
    var agentOutputs: map<string, Value>
    var currentAgent: string
    var isComplete: bool
    var needsHumanReview: bool
    var finalDecision: string
    var error: string

    /** The dictionary's current contents. */
    function Snapshot(): State
      reads this
    {
      State(documentId, ocrText, documentType, workflowType, extractedData, validationIssues, agentOutputs,
            currentAgent, isComplete, needsHumanReview, finalDecision, error)
    }

    /** `initial_state` */
    constructor (documentId: string, ocrText: string, documentType: string, workflowType: Option<string>)
      ensures Snapshot() == Initial(documentId, ocrText, documentType, workflowType)
    {
      this.documentId := documentId;
      this.ocrText := ocrText;
      this.documentType := documentType;
      this.workflowType := workflowType;
      extractedData := map[];
      validationIssues := [];
      agentOutputs := map[];
      currentAgent := "";
      isComplete := false;
      needsHumanReview := false;
      finalDecision := "";
      error := "";
    }

    /** Append the entries one by one, as the nodes' `for issue in response.issues` loops do. */
    method AppendIssues(entries: seq<Value>)
      modifies this
      ensures Snapshot() == old(Snapshot()).(validationIssues := old(validationIssues) + entries)
    {
      var collected := validationIssues;
      var k := 0;
      while k < |entries|
        invariant k <= |entries|
        invariant collected == validationIssues + entries[..k]
      {
        assert entries[..k + 1] == entries[..k] + [entries[k]];
        collected := collected + [entries[k]];
        k := k + 1;
      }
      assert entries[..k] == entries;
      validationIssues := collected;
    }

    method RunParser(response: Result<AgentResponse>, updateFailure: string)
      modifies this
      ensures Snapshot() == ParserStep(old(Snapshot()), response, updateFailure)
    {
      if response.Err? {
        error := "Parser error: " + response.error;
        return;
      }
      var r := response.value;
      currentAgent := "parser";
      agentOutputs := agentOutputs["parser" := Dump(r)];
      ApplyParserFindings(r, updateFailure);
    }

    method ApplyParserFindings(r: AgentResponse, updateFailure: string)
      modifies this
      ensures Snapshot() == ParserFindingsStep(old(Snapshot()), r, updateFailure)
    {
      if !Truthy(Get(r.findings, "is_valid_document_type", Bool(true))) {
        error := RejectedTypeError;
      }
      var ef := Get(r.findings, "extracted_fields", Null);
      if Truthy(ef) {
        if ef.Obj? {
          extractedData := extractedData + ef.fields;
        } else {
          var ok := UpdateFromPairs(PairEntries(ef));
          if !ok || !ef.Arr? {
            error := "Parser error: " + updateFailure;
            return;
          }
        }
      }
      AppendIssues(r.issues);
    }

    /** `dict.update` over a sequence of pairs: store them in order, and stop at the first
        entry that is not a pair, leaving the earlier ones stored. */
    method UpdateFromPairs(entries: seq<Value>) returns (ok: bool)
      modifies this
      ensures Snapshot() == old(Snapshot()).(extractedData := StorePairs(old(extractedData), entries))
      ensures ok == AllPairs(entries)
    {
      var stored := extractedData;
      var k := 0;
      while k < |entries| && PairOf(entries[k]).Some?
        invariant k <= |entries|
        invariant StorePairs(extractedData, entries) == StorePairs(stored, entries[k..])
        invariant AllPairs(entries[..k])
      {
        assert entries[k..][0] == entries[k] && entries[k..][1..] == entries[k + 1..];
        var p := PairOf(entries[k]).value;
        stored := stored[p.0 := p.1];
        assert entries[..k + 1] == entries[..k] + [entries[k]];
        k := k + 1;
      }
      if k < |entries| {
        assert entries[k..][0] == entries[k];
      } else {
        assert entries[..k] == entries;
      }
      ok := k == |entries|;
      extractedData := stored;
    }

    method RunValidator(response: Result<AgentResponse>)
      modifies this
      ensures Snapshot() == ValidatorStep(old(Snapshot()), response)
    {
      if response.Err? {
        error := "Validator error: " + response.error;
        return;
      }
      var r := response.value;
      currentAgent := "validator";
      agentOutputs := agentOutputs["validator" := Dump(r)];
      AppendIssues(r.issues);
    }

    method RunCoherenceChecker(response: Result<AgentResponse>)
      modifies this
      ensures Snapshot() == CoherenceStep(old(Snapshot()), response)
    {
      if response.Err? {
        error := "Coherence Checker error: " + response.error;
        return;
      }
      var r := response.value;
      currentAgent := "coherence_checker";
      agentOutputs := agentOutputs["coherence_checker" := Dump(r)];
      AppendIssues(r.issues);
      if Truthy(Get(r.findings, "requires_human_review", Bool(false))) {
        needsHumanReview := true;
      }
    }

    /** The three agent nodes, awaited in order on this state. */
    method RunNodes(parser: Result<AgentResponse>, validator: Result<AgentResponse>,
                    coherence: Result<AgentResponse>, updateFailure: string)
      modifies this
      ensures Snapshot() == AfterNodes(old(Snapshot()), parser, validator, coherence, updateFailure)
    {
      RunParser(parser, updateFailure);
      RunValidator(validator);
      RunCoherenceChecker(coherence);
    }

    /** The exception handler of `validate_document`, on this state. */
    method Fail(e: string)
      modifies this
      ensures Snapshot() == Failed(old(Snapshot()), e)
    {
      error := e;
      finalDecision := ErrorText;
      isComplete := true;
    }

    /** `_make_decision`; `raised` is the exception it lets escape. */
    method MakeDecision() returns (raised: Option<string>)
      modifies this
      ensures (Snapshot(), raised) == DecisionStep(old(Snapshot()))
    {
      currentAgent := "decision_maker";
      isComplete := true;
      var outcome := DecideOutcome(agentOutputs, validationIssues);
      if outcome.Err? {
        return Some(outcome.error);
      }
      finalDecision := VerdictText(outcome.value);
      needsHumanReview := FlagAfter(outcome.value, needsHumanReview);
      raised := None;
    }
  }

  /** The body of `_make_decision` between the bookkeeping and the writes: the parser's type
      check, the severity scan, the findings lookups and the ladder. */
  method DecideOutcome(outputs: map<string, Value>, issues: seq<Value>) returns (outcome: Result<Verdict>)
    ensures outcome == Outcome(outputs, issues)
  {
    var pf := FindingsOf(outputs, "parser");
    if pf.Err? {
      return Err(pf.error);
    }
    if !Truthy(Get(pf.value, "is_valid_document_type", Bool(true))) {
      return Ok(RejectedType);
    }
    var dicts, critical, high, medium := ScanSeverities(issues);
    if !dicts {
      return Err("AttributeError: an issue has no get");
    }
    var vf := FindingsOf(outputs, "validator");
    if vf.Err? {
      return Err(vf.error);
    }
    var cf := FindingsOf(outputs, "coherence_checker");
    if cf.Err? {
      return Err(cf.error);
    }
    outcome := Ladder(critical, high, medium, vf.value, cf.value);
  }

  /** The three list comprehensions over the issues: whether every entry is a dictionary (the
      first that is not makes `.get` raise) and which severities occur. */
  method ScanSeverities(issues: seq<Value>) returns (dicts: bool, critical: bool, high: bool, medium: bool)
    ensures dicts == AllDicts(issues)
    ensures dicts ==>
      critical == SeverityIn(issues, "critical") && high == SeverityIn(issues, "high") && medium == SeverityIn(issues, "medium")
  {
    critical, high, medium := false, false, false;
    var k := 0;
    while k < |issues|
      invariant k <= |issues|
      invariant AllDicts(issues[..k])
      invariant critical == SeverityIn(issues[..k], "critical")
      invariant high == SeverityIn(issues[..k], "high")
      invariant medium == SeverityIn(issues[..k], "medium")
    {
      if !issues[k].Obj? {
        assert !AllDicts(issues);
        return false, false, false, false;
      }
      var sev := Get(issues[k].fields, "severity", Null);
      SeverityStep(issues, k, "critical");
      SeverityStep(issues, k, "high");
      SeverityStep(issues, k, "medium");
      critical := critical || sev == Str("critical");
      high := high || sev == Str("high");
      medium := medium || sev == Str("medium");
      k := k + 1;
    }
    assert issues[..k] == issues;
    dicts := true;
  }

  lemma {:induction false} SeverityStep(issues: seq<Value>, k: nat, sev: string)
    requires k < |issues| && issues[k].Obj?
    ensures SeverityIn(issues[..k + 1], sev) <==>
      SeverityIn(issues[..k], sev) || Get(issues[k].fields, "severity", Null) == Str(sev)
  {
    var pre := issues[..k + 1];
    if SeverityIn(pre, sev) && !(Get(issues[k].fields, "severity", Null) == Str(sev)) {
      var j :| 0 <= j < |pre| && pre[j].Obj? && Get(pre[j].fields, "severity", Null) == Str(sev);
      assert j < k && issues[..k][j] == pre[j];
    }
    if SeverityIn(issues[..k], sev) {
      var j :| 0 <= j < k && issues[..k][j].Obj? && Get(issues[..k][j].fields, "severity", Null) == Str(sev);
      assert pre[j] == issues[..k][j];
    }
    if Get(issues[k].fields, "severity", Null) == Str(sev) {
      assert pre[k] == issues[k];
    }
  }
}
