/** In every run of the import dialog each field has one source, from the first decision on screen to the import. */
module ImportSources {
  import opened Basics
  import opened MappingDecision
  import opened Answers
  import opened ImportFlow
  import ImportRuns

  /** Headers are told apart and a field has one column or one fixed value. */
  ghost predicate OneSourceEach(d: Decision) {
    DistinctHeaders(d.columns) && SingleSourced(d)
  }

  /** What the backend sends is in order: the headers of the file, the proposal, the saved configuration, and the
      suggestions where they are the decision. */
  ghost predicate InOrder(i: Inspection) {
    && DistinctFileHeaders(i.columns)
    && (i.proposal.Some? ==> OneSourceEach(i.proposal.value))
    && (i.profile.mapping.Some? ==> SingleSourced(i.profile.mapping.value))
    && (i.profile.mapping.None? || i.alreadyCanonical ==> !SuggestionsCollide(i.columns))
  }

  ghost predicate BackendInOrder(log: seq<Entry>) {
    forall k :: 0 <= k < |log| && log[k].Understood? ==> InOrder(log[k].inspection)
  }

  ghost predicate StepSourced(s: Step) {
    match s
    case Mapping(_, inspection, decision, _, _, _, _, _, _) => InOrder(inspection) && OneSourceEach(decision)
    case Ready(_, inspection, mapping, _, _, _) => InOrder(inspection) && (mapping.Some? ==> OneSourceEach(mapping.value))
    case Ask(_, inspection, _, _, _, _, _) => InOrder(inspection)
    case Blocked(_, inspection, _) => InOrder(inspection)
    case _ => true
  }

  ghost predicate RequestSourced(r: Request) {
    match r
    case ValidateProposal(_, inspection, _, decision, _) => InOrder(inspection) && OneSourceEach(decision)
    case ValidateSaved(_, inspection) => InOrder(inspection)
    case ValidateCanonical(_, inspection, decision) => InOrder(inspection) && OneSourceEach(decision)
    case ValidateByHand(_, inspection, decision, _) => InOrder(inspection) && OneSourceEach(decision)
    case _ => true
  }

  ghost predicate SentSourced(log: seq<Entry>) {
    forall k :: 0 <= k < |log| && log[k].SentMatched? && log[k].mapping.Some? ==> OneSourceEach(log[k].mapping.value)
  }

  ghost predicate Sourced(m: Machine) {
    StepSourced(m.step) && (forall id :: id in m.pending ==> RequestSourced(m.pending[id])) && SentSourced(m.log)
  }

  lemma StartIsSourced(i: Inspection)
    requires InOrder(i)
    ensures OneSourceEach(StartOf(i))
  {
    StartingDecisionIsSingleSourced(i.sheetName, i.columns, i.profile);
  }

  lemma SuggestionsAreSourced(i: Inspection)
    requires InOrder(i) && i.alreadyCanonical
    ensures OneSourceEach(DecisionFromSuggestions(i.sheetName, i.columns))
  {
    StartingDecisionIsSingleSourced(i.sheetName, i.columns, i.profile.(mapping := None));
  }

  lemma EditKeepsSources(d: Decision, e: Edit)
    requires OneSourceEach(d)
    ensures OneSourceEach(Apply(d, e))
  {
    SingleSourcedIsAPartialMap(d);
    EditsRefineAPartialMap(d, SourcesOf(d), [e]);
    assert [e][1..] == [];
    assert ApplyAll(d, [e]) == Apply(d, e);
  }

  lemma OpenMappingSourced(m: Machine, file: File, inspection: Inspection, proposed: Decision, hints: seq<string>,
                           notice: Option<string>, understood: Option<Understanding>)
    requires Sourced(m) && InOrder(inspection) && OneSourceEach(proposed)
    ensures Sourced(OpenMapping(m, file, inspection, proposed, hints, notice, understood))
  {
    hide InOrder;
    hide SentSourced;
    hide DistinctHeaders;
    assert OneSourceEach(proposed.(smartImport := Null));
    hide OneSourceEach;
  }

  lemma EditSourced(m: Machine, e: Edit)
    requires Sourced(m)
    ensures Sourced(EditDecision(m, e))
  {
    if m.step.Mapping? {
      EditKeepsSources(m.step.decision, e);
    }
    hide InOrder;
    hide SentSourced;
    hide OneSourceEach;
    hide Apply;
  }

  lemma ConfirmSourced(m: Machine)
    requires Sourced(m)
    ensures Sourced(Confirm(m))
  {
    hide InOrder;
    hide OneSourceEach;
  }

  lemma UserSourced(c: Config, m: Machine, e: Event)
    requires Sourced(m) && !e.Lands?
    ensures Sourced(Next(c, m, e))
  {
    hide StartOf;
    hide OneSourceEach;
    match e
    case MatchesByHand =>
      if m.step.Ask? || m.step.Blocked? {
        var i := m.step.inspection;
        StartIsSourced(i);
        OpenMappingSourced(m, m.step.file, i, i.proposal.GetOr(StartOf(i)), [], None, Some(m.step.understanding));
      }
    case ReviewsColumns =>
      if m.step.Ready? {
        StartIsSourced(m.step.inspection);
        OpenMappingSourced(m, m.step.file, m.step.inspection, m.step.mapping.GetOr(StartOf(m.step.inspection)), [], None, None);
      }
    case Edits(edit) => EditSourced(m, edit);
    case Confirms => ConfirmSourced(m);
    case _ => OthersSourced(c, m, e);
  }

  lemma OthersSourced(c: Config, m: Machine, e: Event)
    requires Sourced(m) && !e.Lands? && !e.MatchesByHand? && !e.ReviewsColumns? && !e.Edits? && !e.Confirms?
    ensures Sourced(Next(c, m, e))
  {
    hide InOrder;
    hide OneSourceEach;
    hide SentSourced;
    hide Merge;
    hide StillUntaught;
  }

  lemma RouteSourced(c: Config, m: Machine, file: File, i: Inspection, answers: UnderstandAnswers, confirmed: bool)
    requires Sourced(m) && InOrder(i) && i.understanding.Some? && i.proposal.Some?
    ensures Sourced(RouteUnderstood(c, m, file, i, i.understanding.value, i.proposal.value, answers, confirmed))
  {
    hide OneSourceEach;
    hide SentSourced;
    OpenMappingSourced(m, file, i, i.proposal.value, [], None, Some(i.understanding.value));
    hide OpenMapping;
  }

  lemma UnderstandingSourced(c: Config, m: Machine, file: File, answers: UnderstandAnswers, confirmed: bool, result: ApiResult<Inspection>)
    requires Sourced(m) && (result.Ok? ==> InOrder(result.data))
    ensures Sourced(LandUnderstanding(c, m, file, answers, confirmed, result))
  {
    if result.Ok? && result.data.problem.None? {
      var i := result.data;
      StartIsSourced(i);
      if i.alreadyCanonical { SuggestionsAreSourced(i); }
      hide InOrder;
      hide StartOf;
      hide OneSourceEach;
      hide SentSourced;
      hide DecisionFromSuggestions;
      OpenMappingSourced(m, file, i, StartOf(i), [], None, None);
      hide OpenMapping;
      if i.understanding.Some? && i.proposal.Some? {
        RouteSourced(c, m, file, i, answers, confirmed);
      }
      hide RouteUnderstood;
    }
  }

  lemma TriedSourced(m: Machine, r: Request, result: ApiResult<Validation>)
    requires Sourced(m) && RequestSourced(r) && (r.ValidateProposal? || r.ValidateSaved? || r.ValidateCanonical?)
    ensures match r
            case ValidateProposal(file, i, u, d, answers) => Sourced(LandProposal(m, file, i, u, d, answers, result))
            case ValidateSaved(file, i) => Sourced(LandSaved(m, file, i, result))
            case ValidateCanonical(file, i, d) => Sourced(LandCanonical(m, file, i, d, result))
  {
    hide StartOf;
    hide OneSourceEach;
    hide InOrder;
    hide SentSourced;
    match r
    case ValidateProposal(file, i, u, d, _) =>
      var notice := if result.Ok? && result.data.status.Refused? then Some(result.data.problem.GetOr("GENERIC")) else None;
      OpenMappingSourced(m, file, i, d, HintsOf(result), notice, Some(u));
      hide OpenMapping;
    case ValidateSaved(file, i) =>
      StartIsSourced(i);
      OpenMappingSourced(m, file, i, StartOf(i), [], None, None);
      hide OpenMapping;
    case ValidateCanonical(file, i, d) =>
      OpenMappingSourced(m, file, i, d, HintsOf(result), None, None);
      hide OpenMapping;
  }

  lemma ResumeSourced(c: Config, m: Machine, r: Request, answer: Answer, reordered: bool)
    requires Sourced(m) && RequestSourced(r) && Fits(r, answer)
    requires answer.UnderstandAnswer? && answer.inspection.Ok? ==> InOrder(answer.inspection.data)
    ensures Sourced(Resume(c, m, r, answer, reordered))
  {
    hide InOrder;
    hide OneSourceEach;
    hide SentSourced;
    match r
    case UnderstandRequest(file, answers, confirmed) =>
      UnderstandingSourced(c, m, file, answers, confirmed, answer.inspection);
    case ValidateProposal(_, _, _, _, _) => TriedSourced(m, r, answer.validation);
    case ValidateSaved(_, _) => TriedSourced(m, r, answer.validation);
    case ValidateCanonical(_, _, _) => TriedSourced(m, r, answer.validation);
    case _ =>
  }

  lemma LandSourced(c: Config, m: Machine, id: nat, answer: Answer, reordered: bool)
    requires Sourced(m) && BackendInOrder(Land(c, m, id, answer, reordered).log)
    ensures Sourced(Land(c, m, id, answer, reordered))
  {
    if id in m.pending && Fits(m.pending[id], answer) {
      var r := m.pending[id];
      var said := Replied(r, answer);
      var landed := m.(pending := m.pending - {id}, log := m.log + said);
      ImportRuns.ResumeWritesNothing(c, landed, r, answer, reordered);
      HeardSourced(m, r, answer, said);
      hide Resume;
      hide InOrder;
      ResumeSourced(c, landed, r, answer, reordered);
    }
  }

  lemma HeardSourced(m: Machine, r: Request, answer: Answer, said: seq<Entry>)
    requires SentSourced(m.log) && Fits(r, answer) && said == Replied(r, answer)
    ensures SentSourced(m.log + said)
    ensures BackendInOrder(m.log + said) && answer.UnderstandAnswer? && answer.inspection.Ok? ==> InOrder(answer.inspection.data)
  {
    hide InOrder;
    hide OneSourceEach;
    if said != [] {
      assert (m.log + said)[|m.log|] == said[0];
    }
  }

  lemma EarlierInOrder(before: seq<Entry>, after: seq<Entry>)
    requires before <= after && BackendInOrder(after)
    ensures BackendInOrder(before)
  {
    hide InOrder;
  }

  lemma {:induction false} RunSourced(c: Config, events: seq<Event>)
    requires BackendInOrder(Run(c, START, events).log)
    ensures Sourced(Run(c, START, events))
    decreases |events|
  {
    hide Next;
    hide BackendInOrder;
    if events != [] {
      var before, e := Run(c, START, events[..|events| - 1]), events[|events| - 1];
      ImportRuns.OnlyConfirmationsWrite(c, before, e);
      EarlierInOrder(before.log, Next(c, before, e).log);
      RunSourced(c, events[..|events| - 1]);
      hide Sourced;
      if e.Lands? {
        LandsIsLand(c, before, e);
        LandSourced(c, before, e.id, e.answer, e.reordered);
      } else {
        UserSourced(c, before, e);
      }
    }
  }

  lemma LandsIsLand(c: Config, m: Machine, e: Event)
    requires e.Lands?
    ensures Next(c, m, e) == Land(c, m, e.id, e.answer, e.reordered)
  {
    hide Land;
  }

  /** In every run in which what the backend sends is in order: the decision on the matching step, and every matching that
      is imported, gives each field one source, whatever was suggested, saved, edited and in whatever order it came. */
  lemma EveryFieldHasOneSource(c: Config, events: seq<Event>)
    requires BackendInOrder(Run(c, START, events).log)
    ensures var m := Run(c, START, events);
            && (m.step.Mapping? ==> OneSourceEach(m.step.decision))
            && (m.step.Ready? && m.step.mapping.Some? ==> OneSourceEach(m.step.mapping.value))
            && forall k :: 0 <= k < |m.log| && m.log[k].SentMatched? && m.log[k].mapping.Some? ==> OneSourceEach(m.log[k].mapping.value)
  {
    hide BackendInOrder;
    hide Run;
    hide InOrder;
    hide OneSourceEach;
    RunSourced(c, events);
  }
}
