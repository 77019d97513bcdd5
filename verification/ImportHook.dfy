/** `useImportFlow` itself: the callbacks that move one `state` step by step and bump `checkToken`
    (apps/web/lib/sources/use-import-flow.ts), each proved to do what `ImportFlow` says. */
module ImportHook {
  import opened Basics
  import opened MappingDecision
  import opened Answers
  import opened ImportFlow
  import ImportRuns

  class Flow {
    const config: Config
    var state: Step
    var checkToken: nat
    /** The callbacks waiting for their answer. */
    var pending: map<nat, Request>
    var nextRequest: nat
    /** What the backend said and what was sent to be imported, in order. */
    ghost var log: seq<Entry>

    ghost function Model(): Machine
      reads this
    {
      Machine(state, checkToken, pending, nextRequest, log)
    }

    constructor (config: Config)
      ensures Model() == START && this.config == config
    {
      this.config := config;
      state := Choose(false);
      checkToken := 0;
      pending := map[];
      nextRequest := 0;
      log := [];
    }

    method Await(request: Request)
      modifies this`pending, this`nextRequest
      ensures Model() == Send(old(Model()), request)
    {
      pending := pending[nextRequest := request];
      nextRequest := nextRequest + 1;
    }

    method RunCheck(decision: Decision)
      modifies this`state, this`checkToken, this`pending, this`nextRequest
      ensures Model() == ImportFlow.RunCheck(old(Model()), decision)
    {
      checkToken := checkToken + 1;
      if state.Mapping? {
        state := state.(checking := true);
      }
      Await(CheckRequest(checkToken, decision));
    }

    method OpenMapping(file: File, inspection: Inspection, proposed: Decision, hints: seq<string>,
                       notice: Option<string>, understood: Option<Understanding>)
      modifies this`state, this`checkToken, this`pending, this`nextRequest
      ensures Model() == ImportFlow.OpenMapping(old(Model()), file, inspection, proposed, hints, notice, understood)
    {
      var decision := proposed.(smartImport := Null);
      state := Mapping(file, inspection, decision, None, true, false, hints, notice, understood);
      RunCheck(decision);
    }

    method RouteUnderstood(file: File, inspection: Inspection, understanding: Understanding, proposal: Decision,
                           answers: UnderstandAnswers, confirmedDomain: bool)
      modifies this`state, this`checkToken, this`pending, this`nextRequest
      ensures Model() == ImportFlow.RouteUnderstood(config, old(Model()), file, inspection, understanding, proposal, answers, confirmedDomain)
    {
      if config.mode.EditMode? {
        OpenMapping(file, inspection, proposal, [], None, Some(understanding));
        return;
      }
      if understanding.level.Blocked? {
        state := Step.Blocked(file, inspection, understanding);
        return;
      }
      if understanding.level.Ask? && understanding.questions != [] {
        state := Step.Ask(file, inspection, understanding, answers, confirmedDomain, understanding.questions[0], map[]);
        return;
      }
      if understanding.level.Manual? {
        OpenMapping(file, inspection, proposal, [], None, Some(understanding));
        return;
      }
      Await(ValidateProposal(file, inspection, understanding, proposal, answers));
    }

    method ReadFile(file: File, answers: UnderstandAnswers, confirmedDomain: bool)
      modifies this`state, this`pending, this`nextRequest
      ensures Model() == ImportFlow.ReadFile(old(Model()), file, answers, confirmedDomain)
    {
      state := Checking(file);
      Await(UnderstandRequest(file, answers, confirmedDomain));
    }

    method ChooseFile(file: File)
      modifies this`state, this`pending, this`nextRequest
      ensures Model() == ImportFlow.ChooseFile(config, old(Model()), file)
    {
      if !RightType(config.domain, file) {
        state := Choose(true);
        return;
      }
      if !IsInvoiceXml(file) {
        ReadFile(file, NOTHING_SAID, false);
        return;
      }
      state := Checking(file);
      Await(PreviewRequest(file));
    }

    method ChooseSheet(name: string)
      modifies this`state, this`pending, this`nextRequest
      ensures Model() == ImportFlow.ChooseSheet(old(Model()), name)
    {
      if !state.Sheet? { return; }
      ReadFile(state.file, NOTHING_SAID.(sheetName := Is(name)), false);
    }

    method Answer(patch: UnderstandAnswers, confirmedDomain: Option<bool>)
      modifies this`state, this`pending, this`nextRequest
      ensures Model() == AnswerQuestion(old(Model()), patch, confirmedDomain)
    {
      if !state.Ask? { return; }
      ReadFile(state.file, Merge(state.answers, patch), confirmedDomain.GetOr(state.confirmedDomain));
    }

    method Teach(meaning: string)
      modifies this`state, this`pending, this`nextRequest
      ensures Model() == ImportFlow.Teach(old(Model()), meaning)
    {
      if !state.Ask? || !state.question.valueLabels { return; }
      var untaught := StillUntaught(state.question.labels, state.taught);
      if untaught == [] { return; }
      var taught := state.taught[untaught[0] := meaning];
      if |untaught| > 1 {
        state := state.(taught := taught);
        return;
      }
      if state.question.document.None? { return; }
      ReadFile(state.file, TaughtAnswers(state.answers, state.question.document.value, taught), state.confirmedDomain);
    }

    method ChooseKind(kind: Domain)
      modifies this`state, this`pending, this`nextRequest
      ensures Model() == ImportFlow.ChooseKind(config, old(Model()), kind)
    {
      if !state.Ask? { return; }
      if kind == config.domain {
        ReadFile(state.file, state.answers, true);
        return;
      }
      state := OtherKind(state.file, kind);
    }

    method MatchByHand()
      modifies this`state, this`checkToken, this`pending, this`nextRequest
      ensures Model() == ImportFlow.MatchByHand(old(Model()))
    {
      if !state.Ask? && !state.Blocked? { return; }
      var proposal := state.inspection.proposal.GetOr(StartOf(state.inspection));
      OpenMapping(state.file, state.inspection, proposal, [], None, Some(state.understanding));
    }

    method EditDecision(edit: Edit)
      modifies this`state, this`checkToken, this`pending, this`nextRequest
      ensures Model() == ImportFlow.EditDecision(old(Model()), edit)
    {
      if !state.Mapping? { return; }
      var decision := Apply(state.decision, edit);
      var recheck := Rechecks(edit);
      state := state.(decision := decision,
                      check := if recheck then None else state.check,
                      hints := if recheck then [] else state.hints,
                      notice := None);
      if recheck {
        RunCheck(decision);
      }
    }

    method ContinueToPreview()
      modifies this`state, this`pending, this`nextRequest
      ensures Model() == ImportFlow.ContinueToPreview(old(Model()))
    {
      if !state.Mapping? || state.busy || state.check.None? || !state.check.value.valid { return; }
      var file, inspection, decision, check := state.file, state.inspection, state.decision, state.check;
      state := state.(busy := true, notice := None);
      Await(ValidateByHand(file, inspection, decision, check));
    }

    method ReviewColumns()
      modifies this`state, this`checkToken, this`pending, this`nextRequest
      ensures Model() == ImportFlow.ReviewColumns(old(Model()))
    {
      if !state.Ready? { return; }
      OpenMapping(state.file, state.inspection, state.mapping.GetOr(StartOf(state.inspection)), [], None, None);
    }

    method SetSave(save: bool)
      modifies this`state
      ensures Model() == ImportFlow.SetSave(old(Model()), save)
    {
      if state.Ready? {
        state := state.(save := save);
      }
    }

    method Confirm()
      modifies this`state, this`pending, this`nextRequest, this`log
      ensures Model() == ImportFlow.Confirm(old(Model()))
    {
      if state.Preview? {
        if !state.preview.canImport { return; }
        var file := state.file;
        state := Importing(file);
        log := log + [SentXml(file)];
        Await(XmlImportRequest(file));
        return;
      }
      if !state.Ready? || !state.validation.canImport { return; }
      var file, decision, save := state.file, state.mapping, state.save;
      log := log + [SentMatched(file, decision, decision.Some? && save, state.understood.Some?)];
      state := Importing(file);
      Await(MatchedImportRequest(file));
    }

    method Reset()
      modifies this`state, this`checkToken
      ensures Model() == ImportFlow.Reset(old(Model()))
    {
      checkToken := checkToken + 1;
      state := Choose(false);
    }

    // The rest of each callback, once its answer is there.

    method CheckAnswered(token: nat, decision: Decision, result: ApiResult<Check>, reordered: bool)
      modifies this`state
      ensures Model() == LandCheck(old(Model()), token, decision, result, reordered)
    {
      if token != checkToken { return; }
      if state.Mapping? && SameDecision(state.decision, decision, reordered) {
        state := state.(checking := false, check := if result.Ok? then Some(result.data) else None);
      }
    }

    method FileUnderstood(file: File, answers: UnderstandAnswers, confirmedDomain: bool, result: ApiResult<Inspection>)
      modifies this`state, this`checkToken, this`pending, this`nextRequest
      ensures Model() == LandUnderstanding(config, old(Model()), file, answers, confirmedDomain, result)
    {
      if result.Failed? {
        state := Failure(file, ProblemOfFailure(result.code));
        return;
      }
      var inspection := result.data;
      if inspection.problem == Some("SHEET_REQUIRED") {
        state := Sheet(file, inspection.sheetNames);
        return;
      }
      if inspection.problem.Some? {
        state := Failure(file, inspection.problem.value);
        return;
      }
      if inspection.understanding.Some? && inspection.proposal.Some? {
        RouteUnderstood(file, inspection, inspection.understanding.value, inspection.proposal.value, answers, confirmedDomain);
        return;
      }
      if config.mode.ImportMode? && inspection.profile.status.Recognized? {
        Await(ValidateSaved(file, inspection));
        return;
      } else if config.mode.ImportMode? && inspection.alreadyCanonical {
        Await(ValidateCanonical(file, inspection, DecisionFromSuggestions(inspection.sheetName, inspection.columns)));
        return;
      }
      OpenMapping(file, inspection, StartOf(inspection), [], None, None);
    }

    method ProposalTried(file: File, inspection: Inspection, understanding: Understanding, proposal: Decision,
                         answers: UnderstandAnswers, tried: ApiResult<Validation>)
      modifies this`state, this`checkToken, this`pending, this`nextRequest
      ensures Model() == LandProposal(old(Model()), file, inspection, understanding, proposal, answers, tried)
    {
      if AllRowsFine(tried) {
        var known := inspection.profile.status.Recognized?;
        var taught := answers.labels != map[];
        state := Step.Ready(file, inspection, Some(proposal), tried.data, !known || taught || PersonAnswered(answers), Some(understanding));
        return;
      }
      var notice := None;
      if tried.Ok? && tried.data.status.Refused? {
        notice := Some(tried.data.problem.GetOr("GENERIC"));
      }
      OpenMapping(file, inspection, proposal, HintsOf(tried), notice, Some(understanding));
    }

    method MatchingTried(file: File, inspection: Inspection, decision: Decision, check: Option<Check>,
                         result: ApiResult<Validation>, reordered: bool)
      modifies this`state
      ensures Model() == LandByHand(old(Model()), file, inspection, decision, check, result, reordered)
    {
      if AllRowsFine(result) {
        state := Step.Ready(file, inspection, Some(decision), result.data, true, None);
        return;
      }
      var stays := state.Mapping? && SameDecision(state.decision, decision, reordered);
      if !stays { return; }
      if result.Failed? {
        state := state.(busy := false, notice := Some(ProblemOfFailure(result.code)));
        return;
      }
      var tried := result.data;
      if tried.status.NeedsChoice? {
        state := state.(busy := false, hints := tried.hints);
        return;
      }
      state := state.(busy := false, notice := Some(tried.problem.GetOr("GENERIC")), hints := tried.hints,
                      check := if tried.check.Some? then tried.check else check);
    }

    /** The answer to request `id` arrives. */
    method Land(id: nat, answer: ImportFlow.Answer, reordered: bool)
      modifies this
      ensures Model() == ImportFlow.Land(config, old(Model()), id, answer, reordered)
    {
      if id !in pending || !Fits(pending[id], answer) { return; }
      var request := pending[id];
      pending := pending - {id};
      log := log + Replied(request, answer);
      match request
      case CheckRequest(token, decision) => CheckAnswered(token, decision, answer.check, reordered);
      case UnderstandRequest(file, answers, confirmed) => FileUnderstood(file, answers, confirmed, answer.inspection);
      case ValidateProposal(file, inspection, understanding, decision, answers) =>
        ProposalTried(file, inspection, understanding, decision, answers, answer.validation);
      case ValidateByHand(file, inspection, decision, check) =>
        MatchingTried(file, inspection, decision, check, answer.validation, reordered);
      case ValidateSaved(file, inspection) =>
        if AllRowsFine(answer.validation) {
          state := Step.Ready(file, inspection, None, answer.validation.data, false, None);
        } else {
          OpenMapping(file, inspection, StartOf(inspection), [], None, None);
        }
      case ValidateCanonical(file, inspection, decision) =>
        if AllRowsFine(answer.validation) {
          state := Step.Ready(file, inspection, Some(decision), answer.validation.data, true, None);
        } else {
          OpenMapping(file, inspection, decision, HintsOf(answer.validation), None, None);
        }
      case PreviewRequest(file) =>
        match answer.preview {
          case Ok(preview) => state := Preview(file, preview);
          case Failed(code) => state := Failure(file, ProblemOfFailure(code));
        }
      case XmlImportRequest(file) => Imported(file, answer.result);
      case MatchedImportRequest(file) => Imported(file, answer.result);
    }

    method Imported(file: File, result: ApiResult<ImportResult>)
      modifies this`state
      ensures Model() == LandImport(old(Model()), file, result)
    {
      if result.Failed? {
        state := Failure(file, ProblemOfFailure(result.code));
        return;
      }
      if !result.data.succeeded {
        state := Failure(file, result.data.problem.GetOr("GENERIC"));
        return;
      }
      state := Done(file, result.data);
    }

    method Happens(e: Event)
      modifies this
      ensures Model() == Next(config, old(Model()), e)
    {
      match e
      case ChoosesFile(file) => ChooseFile(file);
      case ChoosesSheet(name) => ChooseSheet(name);
      case AnswersQuestion(patch, confirmed) => Answer(patch, confirmed);
      case Teaches(meaning) => Teach(meaning);
      case ChoosesKind(kind) => ChooseKind(kind);
      case MatchesByHand => MatchByHand();
      case Edits(edit) => EditDecision(edit);
      case Continues => ContinueToPreview();
      case ReviewsColumns => ReviewColumns();
      case SetsSave(save) => SetSave(save);
      case Confirms => Confirm();
      case Resets => Reset();
      case Lands(id, answer, reordered) => Land(id, answer, reordered);
    }
  }

  /** A dialog driven by any list of events goes through the steps of `ImportFlow.Run`, so everything proved of
      runs holds of it. */
  method Drive(config: Config, events: seq<Event>) returns (flow: Flow)
    ensures fresh(flow) && flow.config == config
    ensures flow.Model() == Run(config, START, events)
    ensures ImportRuns.Inv(flow.Model())
  {
    hide Next;
    flow := new Flow(config);
    for k := 0 to |events|
      invariant flow.config == config && fresh(flow)
      invariant flow.Model() == Run(config, START, events[..k])
    {
      assert events[..k + 1][..k] == events[..k];
      flow.Happens(events[k]);
    }
    assert events[..|events|] == events;
    ImportRuns.RunKeeps(config, events);
  }
}
