/** The import dialog (apps/web/lib/sources/use-import-flow.ts) as a step machine.

    A user event is atomic on the step on screen. Every request waits in `pending` with what its callback
    captured, and may be answered at any later moment, in any order, or never. `log` records what the backend
    really answered and what was sent to be imported; the page never reads it. */
module ImportFlow {
  import opened Basics
  import opened MappingDecision
  import opened Answers

  datatype Domain = Bookings | Costs | Labor

  datatype Mode = ImportMode | EditMode

  /** What a dialog is opened with. */
  datatype Config = Config(domain: Domain, mode: Mode)

  /** A chosen file: its identity, and its name in lower case. */
  datatype File = File(id: nat, lowerName: string)

  datatype Level = Ready | Ask | Manual | Blocked

  datatype Question = Question(valueLabels: bool, document: Option<string>, labels: seq<string>)

  datatype Understanding = Understanding(level: Level, questions: seq<Question>)

  datatype Inspection = Inspection(
    problem: Option<string>,
    sheetName: Option<string>,
    sheetNames: seq<string>,
    columns: seq<ColumnInfo>,
    alreadyCanonical: bool,
    profile: Profile,
    understanding: Option<Understanding>,
    proposal: Option<Decision>)

  /** The backend's answer about a decision: what is still missing. */
  datatype Check = Check(valid: bool, missing: seq<seq<Field>>)

  datatype ValidationStatus = AllFine | NeedsChoice | Refused

  datatype Validation = Validation(
    status: ValidationStatus,
    problem: Option<string>,
    canImport: bool,
    check: Option<Check>,
    hints: seq<string>)

  datatype XmlPreview = XmlPreview(canImport: bool, rowsTotal: nat)

  datatype ImportResult = ImportResult(succeeded: bool, problem: Option<string>)

  datatype Step =
    | Choose(wrongType: bool)
    | Checking(file: File)
    | Sheet(file: File, sheets: seq<string>)
    | Mapping(
        file: File,
        inspection: Inspection,
        decision: Decision,
        check: Option<Check>,
        checking: bool,
        busy: bool,
        hints: seq<string>,
        notice: Option<string>,
        understood: Option<Understanding>)
    | Ready(
        file: File,
        inspection: Inspection,
        mapping: Option<Decision>,
        validation: Validation,
        save: bool,
        understood: Option<Understanding>)
    | Ask(
        file: File,
        inspection: Inspection,
        understanding: Understanding,
        answers: UnderstandAnswers,
        confirmedDomain: bool,
        question: Question,
        taught: Words)
    | Blocked(file: File, inspection: Inspection, understanding: Understanding)
    | OtherKind(file: File, kind: Domain)
    | Preview(file: File, preview: XmlPreview)
    | Importing(file: File)
    | Done(file: File, result: ImportResult)
    | Failure(file: File, why: string)

  /** A request whose answer has not arrived, with the values its callback captured. */
  datatype Request =
    | CheckRequest(token: nat, decision: Decision)
    | UnderstandRequest(file: File, answers: UnderstandAnswers, confirmedDomain: bool)
    | ValidateProposal(file: File, inspection: Inspection, understanding: Understanding, decision: Decision, answers: UnderstandAnswers)
    | ValidateSaved(file: File, inspection: Inspection)
    | ValidateCanonical(file: File, inspection: Inspection, decision: Decision)
    | ValidateByHand(file: File, inspection: Inspection, decision: Decision, check: Option<Check>)
    | PreviewRequest(file: File)
    | XmlImportRequest(file: File)
    | MatchedImportRequest(file: File)

  datatype Answer =
    | CheckAnswer(check: ApiResult<Check>)
    | UnderstandAnswer(inspection: ApiResult<Inspection>)
    | ValidateAnswer(validation: ApiResult<Validation>)
    | PreviewAnswer(preview: ApiResult<XmlPreview>)
    | ImportAnswer(result: ApiResult<ImportResult>)

  datatype Entry =
    | Checked(decision: Decision, check: Check)
    | Understood(file: File, answers: UnderstandAnswers, confirmedDomain: bool, inspection: Inspection)
    | Validated(file: File, mapping: Option<Decision>, validation: Validation)
    | Previewed(file: File, preview: XmlPreview)
    /** `recognized`: confirmed on "File riconosciuto", not on the preview of a matching. */
    | SentMatched(file: File, mapping: Option<Decision>, saveConfiguration: bool, recognized: bool)
    | SentXml(file: File)

  datatype Machine = Machine(
    step: Step,
    token: nat,
    pending: map<nat, Request>,
    nextRequest: nat,
    log: seq<Entry>)

  const START := Machine(Choose(false), 0, map[], 0, [])

  // ---------------------------------------------------------------------------------------------
  // Small pure helpers
  // ---------------------------------------------------------------------------------------------

  predicate EndsWith(text: string, suffix: string) {
    |suffix| <= |text| && text[|text| - |suffix|..] == suffix
  }

  predicate IsInvoiceXml(file: File) {
    EndsWith(file.lowerName, ".xml")
  }

  predicate RightType(domain: Domain, file: File) {
    match domain
    case Costs => EndsWith(file.lowerName, ".xml") || EndsWith(file.lowerName, ".csv") || EndsWith(file.lowerName, ".xlsx")
    case _ => EndsWith(file.lowerName, ".csv") || EndsWith(file.lowerName, ".xlsx")
  }

  function ProblemOfFailure(code: string): string {
    if code == "FILE_TOO_LARGE" then "FILE_TOO_LARGE"
    else if code == "IMPORT_IN_PROGRESS" then "IMPORT_IN_PROGRESS"
    else if code == "DATA_SOURCE_NOT_FOUND" || code == "PROPERTY_NOT_FOUND" then "SOURCE_GONE"
    else "GENERIC"
  }

  /** The page compares two decisions by their JSON text. Different contents give different texts; equal contents
      give the same text unless their members are written in another order, which is what `reordered` says. */
  predicate SameDecision(a: Decision, b: Decision, reordered: bool) {
    a == b && !reordered
  }

  /** The names every plain object answers to: the page asks `word in taught`, which finds these as well. */
  const OBJECT_PROTOTYPE: set<string> := {
    "constructor", "hasOwnProperty", "isPrototypeOf", "propertyIsEnumerable", "toLocaleString", "toString",
    "valueOf", "__defineGetter__", "__defineSetter__", "__lookupGetter__", "__lookupSetter__", "__proto__"
  }

  predicate IsInherited(word: string) {
    word in OBJECT_PROTOTYPE
  }

  predicate InObject(taught: Words, word: string) {
    word in taught || IsInherited(word)
  }

  function StillUntaught(labels: seq<string>, taught: Words): (r: seq<string>)
    ensures forall w :: w in r <==> w in labels && !InObject(taught, w)
  {
    if labels == [] then []
    else (if InObject(taught, labels[0]) then [] else [labels[0]]) + StillUntaught(labels[1..], taught)
  }

  function StartOf(inspection: Inspection): Decision {
    StartingDecision(inspection.sheetName, inspection.columns, inspection.profile)
  }

  // ---------------------------------------------------------------------------------------------
  // The callbacks of the hook
  // ---------------------------------------------------------------------------------------------

  function Send(m: Machine, request: Request): Machine {
    m.(pending := m.pending[m.nextRequest := request], nextRequest := m.nextRequest + 1)
  }

  function RunCheck(m: Machine, decision: Decision): Machine {
    var shown := if m.step.Mapping? then m.step.(checking := true) else m.step;
    Send(m.(token := m.token + 1, step := shown), CheckRequest(m.token + 1, decision))
  }

  /** Shows the columns for editing, strips the reference from the decision and has it checked. */
  function OpenMapping(m: Machine, file: File, inspection: Inspection, proposed: Decision, hints: seq<string>,
                       notice: Option<string>, understood: Option<Understanding>): Machine
  {
    var decision := proposed.(smartImport := Null);
    RunCheck(m.(step := Mapping(file, inspection, decision, None, true, false, hints, notice, understood)), decision)
  }

  function RouteUnderstood(c: Config, m: Machine, file: File, inspection: Inspection, understanding: Understanding,
                           proposal: Decision, answers: UnderstandAnswers, confirmedDomain: bool): Machine
  {
    if c.mode.EditMode? then
      OpenMapping(m, file, inspection, proposal, [], None, Some(understanding))
    else if understanding.level.Blocked? then
      m.(step := Step.Blocked(file, inspection, understanding))
    else if understanding.level.Ask? && understanding.questions != [] then
      m.(step := Step.Ask(file, inspection, understanding, answers, confirmedDomain, understanding.questions[0], map[]))
    else if understanding.level.Manual? then
      OpenMapping(m, file, inspection, proposal, [], None, Some(understanding))
    else
      Send(m, ValidateProposal(file, inspection, understanding, proposal, answers))
  }

  function ReadFile(m: Machine, file: File, answers: UnderstandAnswers, confirmedDomain: bool): Machine {
    Send(m.(step := Checking(file)), UnderstandRequest(file, answers, confirmedDomain))
  }

  function ChooseFile(c: Config, m: Machine, file: File): Machine {
    if !RightType(c.domain, file) then m.(step := Choose(true))
    else if !IsInvoiceXml(file) then ReadFile(m, file, NOTHING_SAID, false)
    else Send(m.(step := Checking(file)), PreviewRequest(file))
  }

  function ChooseSheet(m: Machine, name: string): Machine {
    if !m.step.Sheet? then m
    else ReadFile(m, m.step.file, NOTHING_SAID.(sheetName := Is(name)), false)
  }

  function AnswerQuestion(m: Machine, patch: UnderstandAnswers, confirmedDomain: Option<bool>): Machine {
    if !m.step.Ask? then m
    else ReadFile(m, m.step.file, Merge(m.step.answers, patch), confirmedDomain.GetOr(m.step.confirmedDomain))
  }

  function TaughtAnswers(answers: UnderstandAnswers, document: string, taught: Words): UnderstandAnswers {
    Merge(answers, NOTHING_SAID.(labels := map[document := taught]))
  }

  function Teach(m: Machine, meaning: string): Machine {
    if !m.step.Ask? || !m.step.question.valueLabels then m
    else
      var untaught := StillUntaught(m.step.question.labels, m.step.taught);
      if untaught == [] then m
      else
        var taught := m.step.taught[untaught[0] := meaning];
        if |untaught| > 1 then m.(step := m.step.(taught := taught))
        else if m.step.question.document.None? then m
        else ReadFile(m, m.step.file, TaughtAnswers(m.step.answers, m.step.question.document.value, taught), m.step.confirmedDomain)
  }

  function ChooseKind(c: Config, m: Machine, kind: Domain): Machine {
    if !m.step.Ask? then m
    else if kind == c.domain then ReadFile(m, m.step.file, m.step.answers, true)
    else m.(step := OtherKind(m.step.file, kind))
  }

  function MatchByHand(m: Machine): Machine {
    if !m.step.Ask? && !m.step.Blocked? then m
    else
      OpenMapping(m, m.step.file, m.step.inspection, m.step.inspection.proposal.GetOr(StartOf(m.step.inspection)),
                  [], None, Some(m.step.understanding))
  }

  /** Changing the matching asks the backend again; answering how dates or numbers are written does not. */
  predicate Rechecks(edit: Edit) {
    edit.ColumnField? || edit.Constant?
  }

  function EditDecision(m: Machine, edit: Edit): Machine {
    if !m.step.Mapping? then m
    else
      var decision := Apply(m.step.decision, edit);
      if Rechecks(edit) then
        RunCheck(m.(step := m.step.(decision := decision, check := None, hints := [], notice := None)), decision)
      else
        m.(step := m.step.(decision := decision, notice := None))
  }

  function ContinueToPreview(m: Machine): Machine {
    if !m.step.Mapping? || m.step.busy || m.step.check.None? || !m.step.check.value.valid then m
    else
      Send(m.(step := m.step.(busy := true, notice := None)),
           ValidateByHand(m.step.file, m.step.inspection, m.step.decision, m.step.check))
  }

  function ReviewColumns(m: Machine): Machine {
    if !m.step.Ready? then m
    else OpenMapping(m, m.step.file, m.step.inspection, m.step.mapping.GetOr(StartOf(m.step.inspection)), [], None, None)
  }

  function SetSave(m: Machine, save: bool): Machine {
    if m.step.Ready? then m.(step := m.step.(save := save)) else m
  }

  function Confirm(m: Machine): Machine {
    if m.step.Preview? then
      if !m.step.preview.canImport then m
      else
        Send(m.(step := Importing(m.step.file), log := m.log + [SentXml(m.step.file)]), XmlImportRequest(m.step.file))
    else if !m.step.Ready? || !m.step.validation.canImport then m
    else
      var sent := SentMatched(m.step.file, m.step.mapping, m.step.mapping.Some? && m.step.save, m.step.understood.Some?);
      Send(m.(step := Importing(m.step.file), log := m.log + [sent]), MatchedImportRequest(m.step.file))
  }

  function Reset(m: Machine): Machine {
    m.(token := m.token + 1, step := Choose(false))
  }

  // ---------------------------------------------------------------------------------------------
  // The answers
  // ---------------------------------------------------------------------------------------------

  function LandCheck(m: Machine, token: nat, decision: Decision, result: ApiResult<Check>, reordered: bool): Machine {
    if token != m.token then m
    else if m.step.Mapping? && SameDecision(m.step.decision, decision, reordered) then
      m.(step := m.step.(checking := false, check := if result.Ok? then Some(result.data) else None))
    else m
  }

  function LandUnderstanding(c: Config, m: Machine, file: File, answers: UnderstandAnswers, confirmedDomain: bool,
                             result: ApiResult<Inspection>): Machine
  {
    match result
    case Failed(code) => m.(step := Failure(file, ProblemOfFailure(code)))
    case Ok(inspection) =>
      if inspection.problem == Some("SHEET_REQUIRED") then
        m.(step := Sheet(file, inspection.sheetNames))
      else if inspection.problem.Some? then
        m.(step := Failure(file, inspection.problem.value))
      else if inspection.understanding.Some? && inspection.proposal.Some? then
        RouteUnderstood(c, m, file, inspection, inspection.understanding.value, inspection.proposal.value, answers, confirmedDomain)
      else if c.mode.ImportMode? && inspection.profile.status.Recognized? then
        Send(m, ValidateSaved(file, inspection))
      else if c.mode.ImportMode? && inspection.alreadyCanonical then
        Send(m, ValidateCanonical(file, inspection, DecisionFromSuggestions(inspection.sheetName, inspection.columns)))
      else
        OpenMapping(m, file, inspection, StartOf(inspection), [], None, None)
  }

  predicate AllRowsFine(result: ApiResult<Validation>) {
    result.Ok? && result.data.status.AllFine?
  }

  function HintsOf(result: ApiResult<Validation>): seq<string> {
    if result.Ok? && result.data.status.NeedsChoice? then result.data.hints else []
  }

  function LandProposal(m: Machine, file: File, inspection: Inspection, understanding: Understanding, proposal: Decision,
                        answers: UnderstandAnswers, tried: ApiResult<Validation>): Machine
  {
    if AllRowsFine(tried) then
      var save := !inspection.profile.status.Recognized? || answers.labels != map[] || PersonAnswered(answers);
      m.(step := Step.Ready(file, inspection, Some(proposal), tried.data, save, Some(understanding)))
    else
      var notice := if tried.Ok? && tried.data.status.Refused? then Some(tried.data.problem.GetOr("GENERIC")) else None;
      OpenMapping(m, file, inspection, proposal, HintsOf(tried), notice, Some(understanding))
  }

  function LandSaved(m: Machine, file: File, inspection: Inspection, tried: ApiResult<Validation>): Machine {
    if AllRowsFine(tried) then m.(step := Step.Ready(file, inspection, None, tried.data, false, None))
    else OpenMapping(m, file, inspection, StartOf(inspection), [], None, None)
  }

  function LandCanonical(m: Machine, file: File, inspection: Inspection, proposal: Decision, tried: ApiResult<Validation>): Machine {
    if AllRowsFine(tried) then m.(step := Step.Ready(file, inspection, Some(proposal), tried.data, true, None))
    else OpenMapping(m, file, inspection, proposal, HintsOf(tried), None, None)
  }

  /** `check`: the answer that was on screen when the person pressed "Continua". */
  function LandByHand(m: Machine, file: File, inspection: Inspection, decision: Decision, check: Option<Check>,
                      result: ApiResult<Validation>, reordered: bool): Machine
  {
    if AllRowsFine(result) then
      m.(step := Step.Ready(file, inspection, Some(decision), result.data, true, None))
    else if !(m.step.Mapping? && SameDecision(m.step.decision, decision, reordered)) then m
    else
      match result
      case Failed(code) => m.(step := m.step.(busy := false, notice := Some(ProblemOfFailure(code))))
      case Ok(tried) =>
        if tried.status.NeedsChoice? then m.(step := m.step.(busy := false, hints := tried.hints))
        else
          m.(step := m.step.(busy := false, notice := Some(tried.problem.GetOr("GENERIC")), hints := tried.hints,
                             check := if tried.check.Some? then tried.check else check))
  }

  function LandPreview(m: Machine, file: File, result: ApiResult<XmlPreview>): Machine {
    match result
    case Failed(code) => m.(step := Failure(file, ProblemOfFailure(code)))
    case Ok(preview) => m.(step := Preview(file, preview))
  }

  function LandImport(m: Machine, file: File, result: ApiResult<ImportResult>): Machine {
    match result
    case Failed(code) => m.(step := Failure(file, ProblemOfFailure(code)))
    case Ok(imported) =>
      if !imported.succeeded then m.(step := Failure(file, imported.problem.GetOr("GENERIC")))
      else m.(step := Done(file, imported))
  }

  /** What the backend really said, as an entry of the log. A failed call says nothing. */
  function Replied(request: Request, answer: Answer): seq<Entry> {
    match (request, answer)
    case (CheckRequest(_, decision), CheckAnswer(Ok(check))) => [Checked(decision, check)]
    case (UnderstandRequest(file, answers, confirmed), UnderstandAnswer(Ok(inspection))) =>
      [Understood(file, answers, confirmed, inspection)]
    case (ValidateProposal(file, _, _, decision, _), ValidateAnswer(Ok(validation))) => [Validated(file, Some(decision), validation)]
    case (ValidateSaved(file, _), ValidateAnswer(Ok(validation))) => [Validated(file, None, validation)]
    case (ValidateCanonical(file, _, decision), ValidateAnswer(Ok(validation))) => [Validated(file, Some(decision), validation)]
    case (ValidateByHand(file, _, decision, _), ValidateAnswer(Ok(validation))) => [Validated(file, Some(decision), validation)]
    case (PreviewRequest(file), PreviewAnswer(Ok(preview))) => [Previewed(file, preview)]
    case _ => []
  }

  predicate Fits(request: Request, answer: Answer) {
    match request
    case CheckRequest(_, _) => answer.CheckAnswer?
    case UnderstandRequest(_, _, _) => answer.UnderstandAnswer?
    case PreviewRequest(_) => answer.PreviewAnswer?
    case XmlImportRequest(_) => answer.ImportAnswer?
    case MatchedImportRequest(_) => answer.ImportAnswer?
    case _ => answer.ValidateAnswer?
  }

  function Resume(c: Config, m: Machine, request: Request, answer: Answer, reordered: bool): Machine
    requires Fits(request, answer)
  {
    match request
    case CheckRequest(token, decision) => LandCheck(m, token, decision, answer.check, reordered)
    case UnderstandRequest(file, answers, confirmed) => LandUnderstanding(c, m, file, answers, confirmed, answer.inspection)
    case ValidateProposal(file, inspection, understanding, decision, answers) =>
      LandProposal(m, file, inspection, understanding, decision, answers, answer.validation)
    case ValidateSaved(file, inspection) => LandSaved(m, file, inspection, answer.validation)
    case ValidateCanonical(file, inspection, decision) => LandCanonical(m, file, inspection, decision, answer.validation)
    case ValidateByHand(file, inspection, decision, check) =>
      LandByHand(m, file, inspection, decision, check, answer.validation, reordered)
    case PreviewRequest(file) => LandPreview(m, file, answer.preview)
    case XmlImportRequest(file) => LandImport(m, file, answer.result)
    case MatchedImportRequest(file) => LandImport(m, file, answer.result)
  }

  function Land(c: Config, m: Machine, id: nat, answer: Answer, reordered: bool): Machine {
    if id !in m.pending || !Fits(m.pending[id], answer) then m
    else
      var request := m.pending[id];
      Resume(c, m.(pending := m.pending - {id}, log := m.log + Replied(request, answer)), request, answer, reordered)
  }

  // ---------------------------------------------------------------------------------------------
  // Runs
  // ---------------------------------------------------------------------------------------------

  datatype Event =
    | ChoosesFile(file: File)
    | ChoosesSheet(name: string)
    | AnswersQuestion(patch: UnderstandAnswers, confirmedDomain: Option<bool>)
    | Teaches(meaning: string)
    | ChoosesKind(kind: Domain)
    | MatchesByHand
    | Edits(edit: Edit)
    | Continues
    | ReviewsColumns
    | SetsSave(save: bool)
    | Confirms
    | Resets
    | Lands(id: nat, answer: Answer, reordered: bool)

  function Next(c: Config, m: Machine, e: Event): Machine {
    match e
    case ChoosesFile(file) => ChooseFile(c, m, file)
    case ChoosesSheet(name) => ChooseSheet(m, name)
    case AnswersQuestion(patch, confirmed) => AnswerQuestion(m, patch, confirmed)
    case Teaches(meaning) => Teach(m, meaning)
    case ChoosesKind(kind) => ChooseKind(c, m, kind)
    case MatchesByHand => MatchByHand(m)
    case Edits(edit) => EditDecision(m, edit)
    case Continues => ContinueToPreview(m)
    case ReviewsColumns => ReviewColumns(m)
    case SetsSave(save) => SetSave(m, save)
    case Confirms => Confirm(m)
    case Resets => Reset(m)
    case Lands(id, answer, reordered) => Land(c, m, id, answer, reordered)
  }

  function Run(c: Config, m: Machine, events: seq<Event>): Machine {
    if events == [] then m else Next(c, Run(c, m, events[..|events| - 1]), events[|events| - 1])
  }
}
