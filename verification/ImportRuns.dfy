/** What every run of the import dialog keeps, whatever the person does and whenever the answers arrive. */
module ImportRuns {
  import opened Basics
  import opened MappingDecision
  import opened Answers
  import opened ImportFlow

  predicate CarriesReference(d: Decision) {
    d.smartImport.Is?
  }

  /** The backend tried the whole file with this matching and said it can be imported. */
  ghost predicate Accepted(log: seq<Entry>, file: File, mapping: Option<Decision>) {
    exists v: Validation :: Validated(file, mapping, v) in log && v.status.AllFine? && v.canImport
  }

  /** The backend, having read this very file, proposed this very decision. */
  ghost predicate Proposed(log: seq<Entry>, file: File, d: Decision) {
    exists a, c, i: Inspection :: Understood(file, a, c, i) in log && i.proposal == Some(d)
  }

  /** The backend gave `check` about a decision that differs from `d` at most in how dates and numbers are written. */
  ghost predicate ReallyChecked(log: seq<Entry>, d: Decision, check: Check) {
    exists e :: e in log && Vouches(e, d, check)
  }

  predicate Vouches(e: Entry, d: Decision, check: Check) {
    || (e.Checked? && SameMatching(e.decision, d) && e.check == check)
    || (e.Validated? && e.mapping.Some? && SameMatching(e.mapping.value, d) && e.validation.check == Some(check))
  }

  // ---------------------------------------------------------------------------------------------
  // The invariant
  // ---------------------------------------------------------------------------------------------

  ghost predicate StepOk(log: seq<Entry>, s: Step) {
    match s
    case Mapping(_, _, decision, check, _, _, _, _, _) =>
      && !CarriesReference(decision)
      && (check.Some? ==> ReallyChecked(log, decision, check.value))
    case Ready(file, _, mapping, validation, _, understood) =>
      && Validated(file, mapping, validation) in log
      && validation.status.AllFine?
      && (mapping.Some? ==> if understood.Some? then Proposed(log, file, mapping.value) else !CarriesReference(mapping.value))
    case Preview(file, preview) => Previewed(file, preview) in log
    case _ => true
  }

  ghost predicate RequestOk(log: seq<Entry>, r: Request) {
    match r
    case ValidateProposal(file, _, _, decision, _) => Proposed(log, file, decision)
    case ValidateCanonical(_, _, decision) => !CarriesReference(decision)
    case ValidateByHand(_, _, decision, check) =>
      && !CarriesReference(decision)
      && (check.Some? ==> ReallyChecked(log, decision, check.value))
    case _ => true
  }

  /** What was sent to be imported was right when it was sent: `before` is what the backend had said by then. */
  ghost predicate Justified(before: seq<Entry>, e: Entry) {
    match e
    case SentMatched(file, mapping, save, recognized) =>
      && Accepted(before, file, mapping)
      && (mapping.Some? ==> if recognized then Proposed(before, file, mapping.value) else !CarriesReference(mapping.value))
      && (save ==> mapping.Some?)
    case SentXml(file) => exists p: XmlPreview :: Previewed(file, p) in before && p.canImport
    case _ => true
  }

  ghost predicate LogOk(log: seq<Entry>) {
    forall k :: 0 <= k < |log| ==> Justified(log[..k], log[k])
  }

  ghost predicate Waiting(m: Machine) {
    forall id :: id in m.pending ==> id < m.nextRequest && RequestOk(m.log, m.pending[id])
  }

  ghost predicate Inv(m: Machine) {
    StepOk(m.log, m.step) && Waiting(m) && LogOk(m.log)
  }

  // ---------------------------------------------------------------------------------------------
  // The invariant is kept
  // ---------------------------------------------------------------------------------------------

  lemma FactsStay(log: seq<Entry>, more: seq<Entry>)
    ensures forall e :: e in log ==> e in log + more
    ensures forall file, mapping :: Accepted(log, file, mapping) ==> Accepted(log + more, file, mapping)
    ensures forall file, d :: Proposed(log, file, d) ==> Proposed(log + more, file, d)
    ensures forall d, check :: ReallyChecked(log, d, check) ==> ReallyChecked(log + more, d, check)
  {
    forall file, mapping | Accepted(log, file, mapping) ensures Accepted(log + more, file, mapping) {
      var v: Validation :| Validated(file, mapping, v) in log && v.status.AllFine? && v.canImport;
      assert Validated(file, mapping, v) in log + more;
    }
    forall file, d | Proposed(log, file, d) ensures Proposed(log + more, file, d) {
      var a, c, i: Inspection :| Understood(file, a, c, i) in log && i.proposal == Some(d);
      assert Understood(file, a, c, i) in log + more;
    }
    forall d, check | ReallyChecked(log, d, check) ensures ReallyChecked(log + more, d, check) {
      var e :| e in log && Vouches(e, d, check);
      assert e in log + more;
    }
  }

  lemma StepStaysOk(log: seq<Entry>, more: seq<Entry>, s: Step)
    requires StepOk(log, s)
    ensures StepOk(log + more, s)
  {
    FactsStay(log, more);
  }

  lemma RequestStaysOk(log: seq<Entry>, more: seq<Entry>, r: Request)
    requires RequestOk(log, r)
    ensures RequestOk(log + more, r)
  {
    FactsStay(log, more);
  }

  lemma LogStaysOk(log: seq<Entry>, e: Entry)
    requires LogOk(log) && Justified(log, e)
    ensures LogOk(log + [e])
  {
    var longer := log + [e];
    forall k | 0 <= k < |longer| ensures Justified(longer[..k], longer[k]) {
      if k < |log| {
        assert longer[..k] == log[..k];
      } else {
        assert longer[..k] == log;
      }
    }
  }

  lemma SendKeeps(m: Machine, r: Request)
    requires Inv(m) && RequestOk(m.log, r)
    ensures Inv(Send(m, r))
  {
  }

  lemma OpenMappingKeeps(m: Machine, file: File, inspection: Inspection, proposed: Decision, hints: seq<string>,
                         notice: Option<string>, understood: Option<Understanding>)
    requires Inv(m)
    ensures Inv(OpenMapping(m, file, inspection, proposed, hints, notice, understood))
  {
    var decision := proposed.(smartImport := Null);
    var shown := m.(token := m.token + 1,
                    step := Mapping(file, inspection, decision, None, true, false, hints, notice, understood));
    SendKeeps(shown, CheckRequest(m.token + 1, decision));
    assert OpenMapping(m, file, inspection, proposed, hints, notice, understood)
        == Send(shown, CheckRequest(m.token + 1, decision));
  }

  lemma EditKeeps(m: Machine, edit: Edit)
    requires Inv(m)
    ensures Inv(EditDecision(m, edit))
  {
    if m.step.Mapping? {
      var decision := Apply(m.step.decision, edit);
      if Rechecks(edit) {
        var shown := m.(token := m.token + 1,
                        step := m.step.(decision := decision, check := None, hints := [], notice := None, checking := true));
        SendKeeps(shown, CheckRequest(m.token + 1, decision));
      } else if m.step.check.Some? {
        var e :| e in m.log && Vouches(e, m.step.decision, m.step.check.value);
        assert Vouches(e, decision, m.step.check.value);
      }
    }
  }

  lemma ContinueKeeps(m: Machine)
    requires Inv(m)
    ensures Inv(ContinueToPreview(m))
  {
  }

  lemma ConfirmKeeps(m: Machine)
    requires Inv(m)
    ensures Inv(Confirm(m))
  {
    if m.step.Preview? && m.step.preview.canImport {
      WriteKeeps(m, SentXml(m.step.file), XmlImportRequest(m.step.file));
    } else if m.step.Ready? && m.step.validation.canImport {
      var sent := SentMatched(m.step.file, m.step.mapping, m.step.mapping.Some? && m.step.save, m.step.understood.Some?);
      assert Validated(m.step.file, m.step.mapping, m.step.validation) in m.log;
      WriteKeeps(m, sent, MatchedImportRequest(m.step.file));
    }
  }

  lemma WriteKeeps(m: Machine, e: Entry, r: Request)
    requires Inv(m) && Justified(m.log, e) && (r.XmlImportRequest? || r.MatchedImportRequest?)
    ensures Inv(Send(m.(step := Importing(r.file), log := m.log + [e]), r))
  {
    LogStaysOk(m.log, e);
    GrownLogKeeps(m, [e]);
    SendKeeps(m.(step := Importing(r.file), log := m.log + [e]), r);
  }

  lemma GrownLogKeeps(m: Machine, more: seq<Entry>)
    requires StepOk(m.log, m.step) && Waiting(m)
    ensures StepOk(m.log + more, m.step) && Waiting(m.(log := m.log + more))
  {
    StepStaysOk(m.log, more, m.step);
    forall id | id in m.pending ensures RequestOk(m.log + more, m.pending[id]) {
      RequestStaysOk(m.log, more, m.pending[id]);
    }
  }

  lemma UserKeeps(c: Config, m: Machine, e: Event)
    requires Inv(m) && !e.Lands?
    ensures Inv(Next(c, m, e))
  {
    match e
    case MatchesByHand =>
      if m.step.Ask? || m.step.Blocked? {
        OpenMappingKeeps(m, m.step.file, m.step.inspection, m.step.inspection.proposal.GetOr(StartOf(m.step.inspection)),
                         [], None, Some(m.step.understanding));
      }
    case ReviewsColumns =>
      if m.step.Ready? {
        OpenMappingKeeps(m, m.step.file, m.step.inspection, m.step.mapping.GetOr(StartOf(m.step.inspection)), [], None, None);
      }
    case Edits(edit) => EditKeeps(m, edit);
    case Continues => ContinueKeeps(m);
    case Confirms => ConfirmKeeps(m);
    case _ =>
  }

  lemma LandUnderstandingKeeps(c: Config, m: Machine, file: File, answers: UnderstandAnswers, confirmed: bool, result: ApiResult<Inspection>)
    requires Inv(m)
    requires result.Ok? ==> Understood(file, answers, confirmed, result.data) in m.log
    ensures Inv(LandUnderstanding(c, m, file, answers, confirmed, result))
  {
    hide StartingDecision;
    hide ProblemOfFailure;
    hide OpenMapping;
    if result.Ok? && result.data.problem.None? {
      var i := result.data;
      OpenMappingKeeps(m, file, i, StartOf(i), [], None, None);
      if i.understanding.Some? && i.proposal.Some? {
        OpenMappingKeeps(m, file, i, i.proposal.value, [], None, Some(i.understanding.value));
      }
    }
  }

  lemma LandTriedKeeps(m: Machine, r: Request, result: ApiResult<Validation>)
    requires Inv(m) && RequestOk(m.log, r)
    requires r.ValidateProposal? || r.ValidateSaved? || r.ValidateCanonical?
    requires result.Ok? ==> Validated(r.file, if r.ValidateSaved? then None else Some(r.decision), result.data) in m.log
    ensures match r
            case ValidateProposal(file, i, u, d, answers) => Inv(LandProposal(m, file, i, u, d, answers, result))
            case ValidateSaved(file, i) => Inv(LandSaved(m, file, i, result))
            case ValidateCanonical(file, i, d) => Inv(LandCanonical(m, file, i, d, result))
  {
    if !AllRowsFine(result) {
      match r
      case ValidateProposal(file, i, u, d, _) =>
        var notice := if result.Ok? && result.data.status.Refused? then Some(result.data.problem.GetOr("GENERIC")) else None;
        OpenMappingKeeps(m, file, i, d, HintsOf(result), notice, Some(u));
      case ValidateSaved(file, i) => OpenMappingKeeps(m, file, i, StartOf(i), [], None, None);
      case ValidateCanonical(file, i, d) => OpenMappingKeeps(m, file, i, d, HintsOf(result), None, None);
    }
  }

  lemma LandByHandKeeps(m: Machine, file: File, i: Inspection, d: Decision, check: Option<Check>, result: ApiResult<Validation>, reordered: bool)
    requires Inv(m) && RequestOk(m.log, ValidateByHand(file, i, d, check))
    requires result.Ok? ==> Validated(file, Some(d), result.data) in m.log
    ensures Inv(LandByHand(m, file, i, d, check, result, reordered))
  {
    if result.Ok? && result.data.check.Some? {
      assert Vouches(Validated(file, Some(d), result.data), d, result.data.check.value);
    }
  }

  lemma LandCheckKeeps(m: Machine, token: nat, d: Decision, result: ApiResult<Check>, reordered: bool)
    requires Inv(m)
    requires result.Ok? ==> Checked(d, result.data) in m.log
    ensures Inv(LandCheck(m, token, d, result, reordered))
  {
    if result.Ok? {
      assert Vouches(Checked(d, result.data), d, result.data);
    }
  }

  lemma ResumeKeeps(c: Config, m: Machine, r: Request, answer: Answer, reordered: bool)
    requires Inv(m) && RequestOk(m.log, r) && Fits(r, answer)
    requires forall e :: e in Replied(r, answer) ==> e in m.log
    ensures Inv(Resume(c, m, r, answer, reordered))
  {
    match r
    case CheckRequest(token, decision) => LandCheckKeeps(m, token, decision, answer.check, reordered);
    case UnderstandRequest(file, answers, confirmed) => LandUnderstandingKeeps(c, m, file, answers, confirmed, answer.inspection);
    case ValidateByHand(file, i, d, check) => LandByHandKeeps(m, file, i, d, check, answer.validation, reordered);
    case ValidateProposal(_, _, _, _, _) => LandTriedKeeps(m, r, answer.validation);
    case ValidateSaved(_, _) => LandTriedKeeps(m, r, answer.validation);
    case ValidateCanonical(_, _, _) => LandTriedKeeps(m, r, answer.validation);
    case _ =>
  }

  lemma LandKeeps(c: Config, m: Machine, id: nat, answer: Answer, reordered: bool)
    requires Inv(m)
    ensures Inv(Land(c, m, id, answer, reordered))
  {
    if id in m.pending && Fits(m.pending[id], answer) {
      var r := m.pending[id];
      var said := Replied(r, answer);
      GrownLogKeeps(m, said);
      RequestStaysOk(m.log, said, r);
      if said != [] {
        assert said == [said[0]];
        LogStaysOk(m.log, said[0]);
      } else {
        assert m.log + said == m.log;
      }
      var landed := m.(pending := m.pending - {id}, log := m.log + said);
      assert Waiting(landed) by {
        assert Waiting(m.(log := m.log + said));
      }
      ResumeKeeps(c, landed, r, answer, reordered);
    }
  }

  lemma {:induction false} RunKeeps(c: Config, events: seq<Event>)
    ensures Inv(Run(c, START, events))
    decreases |events|
  {
    if events != [] {
      var e := events[|events| - 1];
      RunKeeps(c, events[..|events| - 1]);
      var before := Run(c, START, events[..|events| - 1]);
      if e.Lands? {
        LandKeeps(c, before, e.id, e.answer, e.reordered);
      } else {
        UserKeeps(c, before, e);
      }
    }
  }

  /** A state some run of a dialog gets to. */
  ghost predicate Reachable(m: Machine) {
    exists c, events :: m == Run(c, START, events)
  }

  lemma ReachableKeeps(m: Machine)
    requires Reachable(m)
    ensures Inv(m)
  {
    var c, events :| m == Run(c, START, events);
    RunKeeps(c, events);
  }

  // ---------------------------------------------------------------------------------------------
  // What that means
  // ---------------------------------------------------------------------------------------------

  /** In every run each matched import carries a file and a matching that the backend, by then, had tried
      together, found without a wrong row, and declared importable. An invoice XML had been looked at. */
  lemma ImportsWereAccepted(m: Machine, k: nat)
    requires Reachable(m) && k < |m.log|
    ensures m.log[k].SentMatched? ==> Accepted(m.log[..k], m.log[k].file, m.log[k].mapping)
    ensures m.log[k].SentXml? ==> exists p: XmlPreview :: Previewed(m.log[k].file, p) in m.log[..k] && p.canImport
  {
    ReachableKeeps(m);
    assert Justified(m.log[..k], m.log[k]);
  }

  /** In every run a matching that is imported with a reference to the server's understanding is, member for member,
      the decision the backend proposed for that very file; one confirmed from the preview of a matching has none. */
  lemma ReferencesAreTheBackends(m: Machine, k: nat)
    requires Reachable(m) && k < |m.log| && m.log[k].SentMatched? && m.log[k].mapping.Some?
    ensures CarriesReference(m.log[k].mapping.value) ==>
              m.log[k].recognized && Proposed(m.log[..k], m.log[k].file, m.log[k].mapping.value)
    ensures m.log[k].recognized ==> Proposed(m.log[..k], m.log[k].file, m.log[k].mapping.value)
  {
    ReachableKeeps(m);
    assert Justified(m.log[..k], m.log[k]);
  }

  /** Whatever is on the matching step, or was sent from it to be tried, carries no reference; and when it comes
      back without a wrong row it is shown exactly as it was sent, as a matching made by hand. */
  lemma HandMatchingCarriesNoReference(c: Config, m: Machine, id: nat, result: ApiResult<Validation>, reordered: bool)
    requires Reachable(m)
    ensures m.step.Mapping? ==> !CarriesReference(m.step.decision)
    ensures id in m.pending && m.pending[id].ValidateByHand? ==> !CarriesReference(m.pending[id].decision)
    ensures id in m.pending && m.pending[id].ValidateByHand? && AllRowsFine(result) ==>
              var after := Land(c, m, id, ValidateAnswer(result), reordered).step;
              && after.Ready? && after.understood.None?
              && after.file == m.pending[id].file && after.mapping == Some(m.pending[id].decision)
  {
    ReachableKeeps(m);
    assert id in m.pending ==> RequestOk(m.log, m.pending[id]);
  }

  /** Whatever order answers and resets come in, what the matching step says is missing is what the backend
      really said about the decision on screen, how dates and numbers are written apart. */
  lemma ChecksOnScreenAreReal(m: Machine)
    requires Reachable(m) && m.step.Mapping? && m.step.check.Some?
    ensures ReallyChecked(m.log, m.step.decision, m.step.check.value)
  {
    ReachableKeeps(m);
  }

  predicate IsWrite(e: Entry) {
    e.SentMatched? || e.SentXml?
  }

  lemma ResumeWritesNothing(c: Config, m: Machine, r: Request, answer: Answer, reordered: bool)
    requires Fits(r, answer)
    ensures Resume(c, m, r, answer, reordered).log == m.log
  {
    hide StartingDecision;
  }

  /** A step adds at most one entry to what was said and sent, and only a confirmation adds one that imports something:
      the file on screen, with the matching on screen if there is one. */
  lemma OnlyConfirmationsWrite(c: Config, m: Machine, e: Event)
    ensures m.log <= Next(c, m, e).log && |Next(c, m, e).log| <= |m.log| + 1
    ensures |Next(c, m, e).log| > |m.log| && IsWrite(Next(c, m, e).log[|m.log|]) ==>
              && e.Confirms? && (m.step.Ready? || m.step.Preview?)
              && Next(c, m, e).log[|m.log|].file == m.step.file
              && (m.step.Ready? <==> Next(c, m, e).log[|m.log|].SentMatched?)
              && (m.step.Ready? ==> Next(c, m, e).log[|m.log|].mapping == m.step.mapping)
  {
    hide StartingDecision;
    if e.Lands? && e.id in m.pending && Fits(m.pending[e.id], e.answer) {
      var said := Replied(m.pending[e.id], e.answer);
      ResumeWritesNothing(c, m.(pending := m.pending - {e.id}, log := m.log + said), m.pending[e.id], e.answer, e.reordered);
      hide Resume;
    }
  }

  function Writes(log: seq<Entry>): nat {
    if log == [] then 0 else Writes(log[..|log| - 1]) + if IsWrite(log[|log| - 1]) then 1 else 0
  }

  function Confirmations(events: seq<Event>): nat {
    if events == [] then 0
    else Confirmations(events[..|events| - 1]) + if events[|events| - 1].Confirms? then 1 else 0
  }

  lemma WritesOneMore(before: seq<Entry>, after: seq<Entry>)
    requires before <= after && |after| <= |before| + 1
    ensures Writes(after) == Writes(before) + if |after| > |before| && IsWrite(after[|before|]) then 1 else 0
  {
    if |after| > |before| {
      assert after[..|after| - 1] == before;
    } else {
      assert after == before;
    }
  }

  /** No run sends more imports than the person gave confirmations. */
  lemma {:induction false} NoMoreImportsThanConfirmations(c: Config, events: seq<Event>)
    ensures Writes(Run(c, START, events).log) <= Confirmations(events)
    decreases |events|
  {
    hide Next;
    if events != [] {
      var before := Run(c, START, events[..|events| - 1]);
      NoMoreImportsThanConfirmations(c, events[..|events| - 1]);
      OnlyConfirmationsWrite(c, before, events[|events| - 1]);
      WritesOneMore(before.log, Next(c, before, events[|events| - 1]).log);
    }
  }

  /** Nothing was sent, or one request more waits, and an import only when confirmed; the other requests wait as they did. */
  predicate AtMostOneMore(before: Machine, after: Machine, confirmed: bool) {
    || (after.pending == before.pending && after.nextRequest == before.nextRequest)
    || (&& after.nextRequest == before.nextRequest + 1 && before.nextRequest in after.pending
        && after.pending == before.pending[before.nextRequest := after.pending[before.nextRequest]]
        && (after.pending[before.nextRequest].XmlImportRequest? || after.pending[before.nextRequest].MatchedImportRequest? ==>
              confirmed))
  }

  /** The dialog once the answer of an event, if it has one, is taken from those awaited. */
  function Heard(m: Machine, e: Event): Machine {
    if e.Lands? && e.id in m.pending && Fits(m.pending[e.id], e.answer) then m.(pending := m.pending - {e.id}) else m
  }

  lemma RouteSendsOne(c: Config, m: Machine, file: File, i: Inspection, understanding: Understanding, proposal: Decision,
                      answers: UnderstandAnswers, confirmed: bool)
    ensures AtMostOneMore(m, RouteUnderstood(c, m, file, i, understanding, proposal, answers, confirmed), false)
  {
  }

  lemma LandUnderstandingSendsOne(c: Config, m: Machine, file: File, answers: UnderstandAnswers, confirmed: bool,
                                  result: ApiResult<Inspection>)
    ensures AtMostOneMore(m, LandUnderstanding(c, m, file, answers, confirmed, result), false)
  {
    if result.Ok? && result.data.understanding.Some? && result.data.proposal.Some? {
      var i := result.data;
      RouteSendsOne(c, m, file, i, i.understanding.value, i.proposal.value, answers, confirmed);
    }
    hide RouteUnderstood;
    hide StartOf;
    hide DecisionFromSuggestions;
    hide ProblemOfFailure;
  }

  lemma LandTriedSendsOne(m: Machine, r: Request, answer: Answer)
    requires Fits(r, answer) && (r.ValidateProposal? || r.ValidateSaved? || r.ValidateCanonical?)
    ensures AtMostOneMore(m, Resume(Config(Bookings, ImportMode), m, r, answer, false), false)
  {
    hide StartingDecision;
    hide HintsOf;
    hide PersonAnswered;
  }

  lemma ResumeSendsOne(c: Config, m: Machine, r: Request, answer: Answer, reordered: bool)
    requires Fits(r, answer)
    ensures AtMostOneMore(m, Resume(c, m, r, answer, reordered), false)
  {
    match r
    case UnderstandRequest(file, answers, confirmed) =>
      LandUnderstandingSendsOne(c, m, file, answers, confirmed, answer.inspection);
      hide LandUnderstanding;
    case ValidateProposal(_, _, _, _, _) =>
      LandTriedSendsOne(m, r, answer);
      hide LandProposal;
    case ValidateSaved(_, _) =>
      LandTriedSendsOne(m, r, answer);
      hide LandSaved;
    case ValidateCanonical(_, _, _) =>
      LandTriedSendsOne(m, r, answer);
      hide LandCanonical;
    case _ =>
  }

  lemma AnActSendsAtMostOneRequest(c: Config, m: Machine, e: Event)
    requires !e.Lands?
    ensures AtMostOneMore(m, Next(c, m, e), e.Confirms?)
  {
    hide StartOf;
    hide Merge;
    hide Apply;
    hide StillUntaught;
    hide Land;
    hide RightType;
    hide IsInvoiceXml;
    hide ReadFile;
    if e.ChoosesFile? || e.ChoosesSheet? || e.AnswersQuestion? || e.Teaches? || e.ChoosesKind? {
      ReadsSendOne();
    }
  }

  lemma ReadsSendOne()
    ensures forall m, file, answers, confirmed :: AtMostOneMore(m, ReadFile(m, file, answers, confirmed), false)
  {
  }

  /** A step sends at most one request and touches none that waits, the one answered apart; only a confirmation sends an
      import. */
  lemma AStepSendsAtMostOneRequest(c: Config, m: Machine, e: Event)
    ensures AtMostOneMore(Heard(m, e), Next(c, m, e), e.Confirms?)
  {
    if !e.Lands? {
      AnActSendsAtMostOneRequest(c, m, e);
      hide Next;
    } else {
      hide Resume;
      if e.id in m.pending && Fits(m.pending[e.id], e.answer) {
        var r := m.pending[e.id];
        ResumeSendsOne(c, Heard(m, e).(log := m.log + Replied(r, e.answer)), r, e.answer, e.reordered);
      }
    }
  }
}
