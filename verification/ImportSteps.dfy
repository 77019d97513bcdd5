/** What each act of the person and each answer of the backend does to the import dialog, and that a file can be brought
    all the way to its import on every route (apps/web/lib/sources/use-import-flow.ts). */
module ImportSteps {
  import opened Basics
  import opened MappingDecision
  import opened Answers
  import opened ImportFlow

  // ---------------------------------------------------------------------------------------------
  // What a step may show and send
  // ---------------------------------------------------------------------------------------------

  /** Only the step is another one. */
  predicate Shows(before: Machine, after: Machine, step: Step) {
    after == before.(step := step)
  }

  /** The step is another one and one request more waits. */
  predicate ShowsAndSends(before: Machine, after: Machine, step: Step, request: Request) {
    && after.step == step && after.token == before.token && after.log == before.log
    && after.nextRequest == before.nextRequest + 1 && after.pending == before.pending[before.nextRequest := request]
  }

  /** A decision as a person makes it, without reference. */
  function ByHand(d: Decision): Decision {
    Decision(d.sheetName, d.columns, d.constants, d.dateOrder, d.decimalStyle, d.layout, d.labels, Null)
  }

  /** The columns are shown for editing, and their first check is on its way. */
  predicate ShowsColumns(before: Machine, after: Machine, file: File, i: Inspection, d: Decision, hints: seq<string>,
                         notice: Option<string>, understood: Option<Understanding>) {
    && after.step == Mapping(file, i, ByHand(d), None, true, false, hints, notice, understood)
    && after.token == before.token + 1 && after.log == before.log
    && after.nextRequest == before.nextRequest + 1
    && after.pending == before.pending[before.nextRequest := CheckRequest(before.token + 1, ByHand(d))]
  }

  /** The file is read again with these answers. */
  predicate Rereads(before: Machine, after: Machine, file: File, answers: UnderstandAnswers, confirmed: bool) {
    ShowsAndSends(before, after, Checking(file), UnderstandRequest(file, answers, confirmed))
  }

  /** The dialog that has heard what was said to request `id`. */
  function Having(m: Machine, id: nat, said: seq<Entry>): Machine {
    m.(pending := m.pending - {id}, log := m.log + said)
  }

  /** What is shown when a call fails. */
  predicate Explains(shown: string, code: string) {
    && (code in {"FILE_TOO_LARGE", "IMPORT_IN_PROGRESS"} ==> shown == code)
    && (code in {"DATA_SOURCE_NOT_FOUND", "PROPERTY_NOT_FOUND"} ==> shown == "SOURCE_GONE")
    && (code !in {"FILE_TOO_LARGE", "IMPORT_IN_PROGRESS", "DATA_SOURCE_NOT_FOUND", "PROPERTY_NOT_FOUND"} ==> shown == "GENERIC")
  }

  predicate Fails(before: Machine, after: Machine, file: File, code: string) {
    after.step.Failure? && Explains(after.step.why, code) && Shows(before, after, Failure(file, after.step.why))
  }

  // ---------------------------------------------------------------------------------------------
  // The answers
  // ---------------------------------------------------------------------------------------------

  /** A check is shown exactly when it is the latest and its decision is still on screen; a check that failed leaves none.
      Any other answer about a decision leaves the step as it was. */
  lemma WhatACheckShows(c: Config, m: Machine, id: nat, result: ApiResult<Check>, reordered: bool)
    requires id in m.pending && m.pending[id].CheckRequest?
    ensures var after := Land(c, m, id, CheckAnswer(result), reordered);
            && after.pending == m.pending - {id} && after.nextRequest == m.nextRequest && after.token == m.token
            && (m.step.Mapping? && m.pending[id] == CheckRequest(m.token, m.step.decision) && !reordered ==>
                  after.step == m.step.(checking := false, check := if result.Ok? then Some(result.data) else None))
            && (!m.step.Mapping? || m.pending[id] != CheckRequest(m.token, m.step.decision) || reordered ==> after.step == m.step)
  {
  }

  /** "Continua" tries the whole file, once, exactly when the check on screen is valid. */
  lemma WhatContinuingSends(c: Config, m: Machine)
    ensures var after := Next(c, m, Continues);
            if m.step.Mapping? && !m.step.busy && m.step.check.Some? && m.step.check.value.valid then
              ShowsAndSends(m, after, m.step.(busy := true, notice := None),
                            ValidateByHand(m.step.file, m.step.inspection, m.step.decision, m.step.check))
            else after == m
  {
  }

  /** Where a file that has been read leads. */
  lemma WhatAReadFileLeadsTo(c: Config, m: Machine, id: nat, result: ApiResult<Inspection>, reordered: bool)
    requires id in m.pending && m.pending[id].UnderstandRequest?
    ensures var r, after := m.pending[id], Land(c, m, id, UnderstandAnswer(result), reordered);
            match result
            case Failed(code) => Fails(Having(m, id, []), after, r.file, code)
            case Ok(i) => LeadsTo(c, r, i, Having(m, id, [Understood(r.file, r.answers, r.confirmedDomain, i)]), after)
  {
    hide StartingDecision;
  }

  ghost predicate LeadsTo(c: Config, r: Request, i: Inspection, before: Machine, after: Machine)
    requires r.UnderstandRequest?
  {
    var understood := i.problem.None? && i.understanding.Some? && i.proposal.Some?;
    && (i.problem == Some("SHEET_REQUIRED") ==> Shows(before, after, Sheet(r.file, i.sheetNames)))
    && (i.problem.Some? && i.problem != Some("SHEET_REQUIRED") ==> Shows(before, after, Failure(r.file, i.problem.value)))
    && (understood ==> UnderstoodLeadsTo(c, r, i, i.understanding.value, i.proposal.value, before, after))
    && (i.problem.None? && !understood && c.mode.ImportMode? && i.profile.status.Recognized? ==>
          ShowsAndSends(before, after, before.step, ValidateSaved(r.file, i)))
    && (i.problem.None? && !understood && c.mode.ImportMode? && !i.profile.status.Recognized? && i.alreadyCanonical ==>
          ShowsAndSends(before, after, before.step, ValidateCanonical(r.file, i, DecisionFromSuggestions(i.sheetName, i.columns))))
    && (i.problem.None? && !understood && (c.mode.EditMode? || (!i.profile.status.Recognized? && !i.alreadyCanonical)) ==>
          ShowsColumns(before, after, r.file, i, StartOf(i), [], None, None))
  }

  ghost predicate UnderstoodLeadsTo(c: Config, r: Request, i: Inspection, u: Understanding, proposal: Decision,
                                    before: Machine, after: Machine)
    requires r.UnderstandRequest?
  {
    var asks := u.level.Ask? && u.questions != [];
    && (c.mode.EditMode? || u.level.Manual? ==> ShowsColumns(before, after, r.file, i, proposal, [], None, Some(u)))
    && (c.mode.ImportMode? && u.level.Blocked? ==> Shows(before, after, Step.Blocked(r.file, i, u)))
    && (c.mode.ImportMode? && asks ==>
          Shows(before, after, Step.Ask(r.file, i, u, r.answers, r.confirmedDomain, u.questions[0], map[])))
    && (c.mode.ImportMode? && !u.level.Blocked? && !u.level.Manual? && !asks ==>
          ShowsAndSends(before, after, before.step, ValidateProposal(r.file, i, u, proposal, r.answers)))
  }

  /** The notice over the columns when a proposal did not go through: the problem if it was refused. */
  predicate Notices(notice: Option<string>, result: ApiResult<Validation>) {
    if result.Ok? && result.data.status.Refused? then
      notice == (if result.data.problem.Some? then result.data.problem else Some("GENERIC"))
    else notice == None
  }

  /** The hints beside the columns: those of a file that needs a choice. */
  predicate Hints(hints: seq<string>, result: ApiResult<Validation>) {
    hints == if result.Ok? && result.data.status.NeedsChoice? then result.data.hints else []
  }

  /** The person said something worth remembering: a column, a word, or anything but the week of a grid. */
  ghost predicate WorthRemembering(a: UnderstandAnswers) {
    || a.columnFields != map[] || a.labels != map[]
    || exists s: Single :: !s.PeriodStart? && SingleOf(a, s).Is? && SingleOf(a, s).value != ""
  }

  /** A file tried before the columns were shown: with every row fine it is ready, otherwise the columns are shown. */
  lemma WhatATryLeadsTo(c: Config, m: Machine, id: nat, result: ApiResult<Validation>, reordered: bool)
    requires id in m.pending
    requires m.pending[id].ValidateProposal? || m.pending[id].ValidateSaved? || m.pending[id].ValidateCanonical?
    ensures var r, after := m.pending[id], Land(c, m, id, ValidateAnswer(result), reordered);
            var mapping := if r.ValidateSaved? then None else Some(r.decision);
            var before := Having(m, id, if result.Ok? then [Validated(r.file, mapping, result.data)] else []);
            var understood := if r.ValidateProposal? then Some(r.understanding) else None;
            if result.Ok? && result.data.status.AllFine? then
              && after.step.Ready? && WishesToSave(r, after.step.save)
              && Shows(before, after, Step.Ready(r.file, r.inspection, mapping, result.data, after.step.save, understood))
            else
              && after.step.Mapping?
              && ShowsColumns(before, after, r.file, r.inspection, if r.ValidateSaved? then StartOf(r.inspection) else r.decision,
                              after.step.hints, after.step.notice, understood)
              && (if r.ValidateSaved? then after.step.hints == [] else Hints(after.step.hints, result))
              && (if r.ValidateProposal? then Notices(after.step.notice, result) else after.step.notice == None)
  {
    hide StartOf;
    var r := m.pending[id];
    if r.ValidateProposal? { WorthOf(r.answers); }
    hide PersonAnswered;
    hide WorthRemembering;
  }

  /** Whether the matching is to be remembered unless the person says otherwise. */
  ghost predicate WishesToSave(r: Request, save: bool) {
    match r
    case ValidateProposal(_, i, _, _, answers) => save <==> !i.profile.status.Recognized? || WorthRemembering(answers)
    case ValidateSaved(_, _) => !save
    case _ => save
  }

  lemma WorthOf(a: UnderstandAnswers)
    ensures a.labels != map[] || PersonAnswered(a) <==> WorthRemembering(a)
  {
    if a.columnFields == map[] && PersonAnswered(a) {
      var s := if Said(a.gridHours) then GridHours else if Said(a.amountBasis) then AmountBasis else if Said(a.dateOrder) then Single.DateOrder
               else if Said(a.decimalStyle) then Single.DecimalStyle else if Said(a.departmentFrom) then DepartmentFrom
               else if Said(a.departmentValue) then DepartmentValue else if Said(a.tableKey) then TableKey else SheetName;
      assert !s.PeriodStart? && SingleOf(a, s).Is? && SingleOf(a, s).value != "";
    }
  }

  /** A try made by hand: with every row fine it is shown for confirmation whatever is on screen; anything else belongs to
      the columns it was sent from and says there what is wrong. */
  lemma WhatATryByHandLeadsTo(c: Config, m: Machine, id: nat, result: ApiResult<Validation>, reordered: bool)
    requires id in m.pending && m.pending[id].ValidateByHand?
    ensures var r, after := m.pending[id], Land(c, m, id, ValidateAnswer(result), reordered);
            var before := Having(m, id, if result.Ok? then [Validated(r.file, Some(r.decision), result.data)] else []);
            var current := m.step.Mapping? && m.step.decision == r.decision && !reordered;
            var fine := result.Ok? && result.data.status.AllFine?;
            && (fine ==> Shows(before, after, Step.Ready(r.file, r.inspection, Some(r.decision), result.data, true, None)))
            && (!fine && !current ==> after == before)
            && (!fine && current && result.Failed? ==>
                  after.step.Mapping? && after.step.notice.Some? && Explains(after.step.notice.value, result.code)
                  && Shows(before, after, m.step.(busy := false, notice := after.step.notice)))
            && (!fine && current && result.Ok? && result.data.status.NeedsChoice? ==>
                  Shows(before, after, m.step.(busy := false, hints := result.data.hints)))
            && (!fine && current && result.Ok? && result.data.status.Refused? ==>
                  after.step.Mapping? && Notices(after.step.notice, result)
                  && Shows(before, after, m.step.(busy := false, notice := after.step.notice, hints := result.data.hints,
                                                  check := if result.data.check.Some? then result.data.check else r.check)))
  {
  }

  /** What an import ends in, and what the look at an invoice shows. */
  lemma WhatAnImportEndsIn(c: Config, m: Machine, id: nat, result: ApiResult<ImportResult>, reordered: bool)
    requires id in m.pending && (m.pending[id].XmlImportRequest? || m.pending[id].MatchedImportRequest?)
    ensures var file, after, before := m.pending[id].file, Land(c, m, id, ImportAnswer(result), reordered), Having(m, id, []);
            && (after.step.Done? <==> result.Ok? && result.data.succeeded)
            && (result.Failed? ==> Fails(before, after, file, result.code))
            && (result.Ok? && result.data.succeeded ==> Shows(before, after, Done(file, result.data)))
            && (result.Ok? && !result.data.succeeded ==>
                  Shows(before, after, Failure(file, if result.data.problem.Some? then result.data.problem.value else "GENERIC")))
  {
    assert m.log + [] == m.log;
  }

  lemma WhatALookAtAnInvoiceShows(c: Config, m: Machine, id: nat, result: ApiResult<XmlPreview>, reordered: bool)
    requires id in m.pending && m.pending[id].PreviewRequest?
    ensures var file, after := m.pending[id].file, Land(c, m, id, PreviewAnswer(result), reordered);
            && (result.Failed? ==> Fails(Having(m, id, []), after, file, result.code))
            && (result.Ok? ==> Shows(Having(m, id, [Previewed(file, result.data)]), after, Preview(file, result.data)))
  {
  }

  // ---------------------------------------------------------------------------------------------
  // The acts
  // ---------------------------------------------------------------------------------------------

  /** The name, in lower case, ends so. */
  ghost predicate NamedAs(file: File, suffix: string) {
    exists k :: 0 <= k <= |file.lowerName| && file.lowerName[k..] == suffix
  }

  ghost predicate NamedLike(file: File, suffixes: set<string>) {
    exists s :: s in suffixes && NamedAs(file, s)
  }

  lemma NamedLikeIsEndsWith(file: File)
    ensures EndsWith(file.lowerName, ".xml") <==> NamedLike(file, {".xml"})
    ensures EndsWith(file.lowerName, ".csv") || EndsWith(file.lowerName, ".xlsx") <==> NamedLike(file, {".csv", ".xlsx"})
  {
    hide EndsWith;
    NamedLikeOne(file, ".xml");
    NamedLikeOne(file, ".csv");
    NamedLikeOne(file, ".xlsx");
    hide NamedAs;
    assert ".csv" in {".csv", ".xlsx"} && ".xlsx" in {".csv", ".xlsx"} && ".xml" in {".xml"};
  }

  lemma NamedLikeOne(file: File, suffix: string)
    ensures EndsWith(file.lowerName, suffix) <==> NamedAs(file, suffix)
  {
    if NamedAs(file, suffix) {
      var k :| 0 <= k <= |file.lowerName| && file.lowerName[k..] == suffix;
      assert k == |file.lowerName| - |suffix|;
    }
  }

  /** A file of the wrong type is refused on the spot, an invoice is looked at, anything else is read. */
  lemma WhatChoosingAFileDoes(c: Config, m: Machine, file: File)
    ensures var after := Next(c, m, ChoosesFile(file));
            var right := NamedLike(file, {".csv", ".xlsx"}) || (c.domain.Costs? && NamedLike(file, {".xml"}));
            && (!right ==> Shows(m, after, Choose(true)))
            && (right && NamedLike(file, {".xml"}) ==> ShowsAndSends(m, after, Checking(file), PreviewRequest(file)))
            && (right && !NamedLike(file, {".xml"}) ==> Rereads(m, after, file, NOTHING_SAID, false))
  {
    NamedLikeIsEndsWith(file);
    hide EndsWith;
    hide NamedLike;
  }

  /** What the person does at a question, a blocked file or a choice of sheets; anywhere else these acts do nothing. */
  lemma WhatRepliesDo(c: Config, m: Machine, name: string, patch: UnderstandAnswers, confirmed: Option<bool>, kind: Domain)
    ensures var after := Next(c, m, ChoosesSheet(name));
            if m.step.Sheet? then Rereads(m, after, m.step.file, NOTHING_SAID.(sheetName := Is(name)), false) else after == m
    ensures var after := Next(c, m, AnswersQuestion(patch, confirmed));
            if m.step.Ask? then
              Rereads(m, after, m.step.file, Merge(m.step.answers, patch), if confirmed.Some? then confirmed.value else m.step.confirmedDomain)
            else after == m
    ensures var after := Next(c, m, ChoosesKind(kind));
            && (m.step.Ask? && kind == c.domain ==> Rereads(m, after, m.step.file, m.step.answers, true))
            && (m.step.Ask? && kind != c.domain ==> Shows(m, after, OtherKind(m.step.file, kind)))
            && (!m.step.Ask? ==> after == m)
    ensures var after := Next(c, m, MatchesByHand);
            if m.step.Ask? || m.step.Blocked? then
              ShowsColumns(m, after, m.step.file, m.step.inspection,
                           if m.step.inspection.proposal.Some? then m.step.inspection.proposal.value else StartOf(m.step.inspection),
                           [], None, Some(m.step.understanding))
            else after == m
  {
    hide StartingDecision;
    hide Merge;
  }

  /** An edit of the columns is shown at once; unless it only says how dates or numbers are written, the check it outdates
      is dropped and asked for again. */
  lemma WhatAnEditDoes(c: Config, m: Machine, edit: Edit)
    ensures var after := Next(c, m, Edits(edit));
            && (!m.step.Mapping? ==> after == m)
            && (m.step.Mapping? && (edit.DateOrder? || edit.DecimalStyle?) ==>
                  Shows(m, after, m.step.(decision := Apply(m.step.decision, edit), notice := None)))
            && (m.step.Mapping? && (edit.ColumnField? || edit.Constant?) ==>
                  var d := Apply(m.step.decision, edit);
                  && after.step == m.step.(decision := d, check := None, checking := true, hints := [], notice := None)
                  && after.token == m.token + 1 && after.log == m.log && after.nextRequest == m.nextRequest + 1
                  && after.pending == m.pending[m.nextRequest := CheckRequest(m.token + 1, d)])
  {
    hide Apply;
  }

  /** What can be done with a file that is ready, and leaving it all. */
  lemma WhatIsDoneWithAReadyFile(c: Config, m: Machine, save: bool)
    ensures var after := Next(c, m, ReviewsColumns);
            if m.step.Ready? then
              ShowsColumns(m, after, m.step.file, m.step.inspection,
                           if m.step.mapping.Some? then m.step.mapping.value else StartOf(m.step.inspection), [], None, None)
            else after == m
    ensures Next(c, m, SetsSave(save)) == if m.step.Ready? then m.(step := m.step.(save := save)) else m
    ensures Next(c, m, Resets) == m.(step := Choose(false), token := m.token + 1)
    ensures var after := Next(c, m, Confirms);
            && (m.step.Ready? && m.step.validation.canImport ==>
                  ShowsAndSends(m.(log := m.log + [SentMatched(m.step.file, m.step.mapping, m.step.mapping.Some? && m.step.save, m.step.understood.Some?)]),
                                after, Importing(m.step.file), MatchedImportRequest(m.step.file)))
            && (m.step.Preview? && m.step.preview.canImport ==>
                  ShowsAndSends(m.(log := m.log + [SentXml(m.step.file)]), after, Importing(m.step.file), XmlImportRequest(m.step.file)))
            && (!(m.step.Ready? && m.step.validation.canImport) && !(m.step.Preview? && m.step.preview.canImport) ==> after == m)
  {
    hide StartingDecision;
  }

  // ---------------------------------------------------------------------------------------------
  // From the file to its import
  // ---------------------------------------------------------------------------------------------

  /** The check of the decision on screen, as it is now, is on its way. */
  predicate AwaitsItsCheck(m: Machine, id: nat) {
    m.step.Mapping? && id in m.pending && m.pending[id] == CheckRequest(m.token, m.step.decision)
  }

  /** A decision found valid can be tried: "Continua" sends this very file, inspection and decision, once. */
  lemma AValidCheckLetsGoOn(c: Config, m: Machine, id: nat, check: Check)
    requires AwaitsItsCheck(m, id) && !m.step.busy
    ensures var shown := Land(c, m, id, CheckAnswer(Ok(check)), false);
            var after := Next(c, shown, Continues);
            && shown.step == m.step.(checking := false, check := Some(check))
            && shown.pending == m.pending - {id} && shown.nextRequest == m.nextRequest
            && (check.valid ==>
                  after.pending == shown.pending[m.nextRequest := ValidateByHand(m.step.file, m.step.inspection, m.step.decision, Some(check))]
                  && after.nextRequest == m.nextRequest + 1)
            && (!check.valid ==> after == shown)
  {
    WhatACheckShows(c, m, id, Ok(check), false);
    WhatContinuingSends(c, Land(c, m, id, CheckAnswer(Ok(check)), false));
    hide Land;
    hide Next;
  }

  /** How an import ends once it is answered. */
  function Ended(file: File, result: ImportResult): Step {
    if result.succeeded then Done(file, result)
    else Failure(file, if result.problem.Some? then result.problem.value else "GENERIC")
  }

  lemma {:induction false} RunFirst(c: Config, m: Machine, e: Event, rest: seq<Event>)
    ensures Run(c, m, [e] + rest) == Run(c, Next(c, m, e), rest)
    decreases |rest|
  {
    hide Next;
    if rest == [] {
      assert [e] + rest == [e];
      assert [e][..0] == [];
      assert Run(c, m, [e][..0]) == m;
    } else {
      var n := |rest| - 1;
      RunFirst(c, m, e, rest[..n]);
      assert ([e] + rest)[..n + 1] == [e] + rest[..n];
    }
  }

  lemma RunOfNone(c: Config, m: Machine)
    ensures Run(c, m, []) == m
  {
  }

  /** Four acts or answers in a row. */
  function Four(c: Config, m: Machine, e0: Event, e1: Event, e2: Event, e3: Event): Machine {
    Next(c, Next(c, Next(c, Next(c, m, e0), e1), e2), e3)
  }

  lemma RunOfFour(c: Config, m: Machine, e0: Event, e1: Event, e2: Event, e3: Event)
    ensures Run(c, m, [e0, e1, e2, e3]) == Four(c, m, e0, e1, e2, e3)
  {
    hide Next;
    hide Run;
    RunFirst(c, m, e0, [e1, e2, e3]);
    RunFirst(c, Next(c, m, e0), e1, [e2, e3]);
    RunFirst(c, Next(c, Next(c, m, e0), e1), e2, [e3]);
    RunFirst(c, Next(c, Next(c, Next(c, m, e0), e1), e2), e3, []);
    RunOfNone(c, Four(c, m, e0, e1, e2, e3));
    assert [e0] + [e1, e2, e3] == [e0, e1, e2, e3] && [e1] + [e2, e3] == [e1, e2, e3];
    assert [e2] + [e3] == [e2, e3] && [e3] + [] == [e3];
  }

  lemma LandsIsLand(c: Config, m: Machine, id: nat, answer: Answer)
    ensures Next(c, m, Lands(id, answer, false)) == Land(c, m, id, answer, false)
  {
    hide Land;
  }

  /** A ready file that is confirmed is imported as it stands. */
  lemma AReadyFileGoesThrough(c: Config, m: Machine, result: ImportResult)
    requires m.step.Ready? && m.step.validation.canImport
    ensures var after := Land(c, Next(c, m, Confirms), m.nextRequest, ImportAnswer(Ok(result)), false);
            && after.step == Ended(m.step.file, result)
            && after.log == m.log + [SentMatched(m.step.file, m.step.mapping, m.step.mapping.Some? && m.step.save, m.step.understood.Some?)]
  {
    WhatIsDoneWithAReadyFile(c, m, true);
    WhatAnImportEndsIn(c, Next(c, m, Confirms), m.nextRequest, Ok(result), false);
    hide Next;
    hide Land;
  }

  /** The try of a matching made by hand leads to its confirmation. */
  lemma ATriedMatchingIsReady(c: Config, m: Machine, id: nat, check: Check, validation: Validation)
    requires AwaitsItsCheck(m, id) && !m.step.busy && check.valid && validation.status.AllFine?
    ensures var shown := Land(c, m, id, CheckAnswer(Ok(check)), false);
            var after := Land(c, Next(c, shown, Continues), m.nextRequest, ValidateAnswer(Ok(validation)), false);
            && after.step == Step.Ready(m.step.file, m.step.inspection, Some(m.step.decision), validation, true, None)
            && after.nextRequest == m.nextRequest + 1
            && after.log == m.log + [Checked(m.step.decision, check)] + [Validated(m.step.file, Some(m.step.decision), validation)]
  {
    AValidCheckLetsGoOn(c, m, id, check);
    var shown := Land(c, m, id, CheckAnswer(Ok(check)), false);
    CheckIsHeard(c, m, id, check);
    WhatContinuingSends(c, shown);
    WhatATryByHandLeadsTo(c, Next(c, shown, Continues), m.nextRequest, Ok(validation), false);
    hide Land;
    hide Next;
  }

  lemma CheckIsHeard(c: Config, m: Machine, id: nat, check: Check)
    requires AwaitsItsCheck(m, id)
    ensures Land(c, m, id, CheckAnswer(Ok(check)), false).log == m.log + [Checked(m.step.decision, check)]
  {
  }

  /** A matching made by hand goes all the way: checked and found valid, tried and found without a wrong row, confirmed; it
      is imported exactly as it stood on screen. */
  lemma HandMatchingGoesThrough(c: Config, m: Machine, id: nat, check: Check, validation: Validation, result: ImportResult)
    requires AwaitsItsCheck(m, id) && !m.step.busy && check.valid && validation.status.AllFine? && validation.canImport
    ensures var tried := Run(c, m, [Lands(id, CheckAnswer(Ok(check)), false), Continues,
                                    Lands(m.nextRequest, ValidateAnswer(Ok(validation)), false), Confirms]);
            var after := Land(c, tried, m.nextRequest + 1, ImportAnswer(Ok(result)), false);
            && after.step == Ended(m.step.file, result)
            && after.log == m.log + [Checked(m.step.decision, check)] + [Validated(m.step.file, Some(m.step.decision), validation)]
                            + [SentMatched(m.step.file, Some(m.step.decision), true, false)]
  {
    hide Land;
    hide Next;
    hide Run;
    var first, third := Lands(id, CheckAnswer(Ok(check)), false), Lands(m.nextRequest, ValidateAnswer(Ok(validation)), false);
    RunOfFour(c, m, first, Continues, third, Confirms);
    LandsIsLand(c, m, id, CheckAnswer(Ok(check)));
    LandsIsLand(c, Next(c, Next(c, m, first), Continues), m.nextRequest, ValidateAnswer(Ok(validation)));
    ATriedMatchingIsReady(c, m, id, check, validation);
    AReadyFileGoesThrough(c, Next(c, Next(c, Next(c, m, first), Continues), third), result);
  }

  /** What the backend says of a file it understands on its own. */
  predicate Understands(i: Inspection) {
    && i.problem.None? && i.proposal.Some? && i.understanding.Some?
    && (i.understanding.value.level.Ready? || (i.understanding.value.level.Ask? && i.understanding.value.questions == []))
  }

  lemma AProposalIsReady(c: Config, m: Machine, file: File, i: Inspection, validation: Validation)
    requires c.mode.ImportMode? && NamedLike(file, {".csv", ".xlsx"}) && !NamedLike(file, {".xml"})
    requires Understands(i) && validation.status.AllFine?
    ensures var read := Land(c, Next(c, m, ChoosesFile(file)), m.nextRequest, UnderstandAnswer(Ok(i)), false);
            var after := Land(c, read, m.nextRequest + 1, ValidateAnswer(Ok(validation)), false);
            && after.step == Step.Ready(file, i, i.proposal, validation, !i.profile.status.Recognized?, i.understanding)
            && after.nextRequest == m.nextRequest + 2
            && after.log == m.log + [Understood(file, NOTHING_SAID, false, i)] + [Validated(file, i.proposal, validation)]
  {
    WhatChoosingAFileDoes(c, m, file);
    var chosen := Next(c, m, ChoosesFile(file));
    WhatAReadFileLeadsTo(c, chosen, m.nextRequest, Ok(i), false);
    var read := Land(c, chosen, m.nextRequest, UnderstandAnswer(Ok(i)), false);
    assert read.pending[m.nextRequest + 1] == ValidateProposal(file, i, i.understanding.value, i.proposal.value, NOTHING_SAID);
    WhatATryLeadsTo(c, read, m.nextRequest + 1, Ok(validation), false);
    NothingIsWorth();
    hide Land;
    hide Next;
    hide NamedLike;
    hide StartOf;
    hide WorthRemembering;
  }

  lemma NothingIsWorth()
    ensures !WorthRemembering(NOTHING_SAID)
  {
  }

  /** A file the backend understands goes all the way with a single confirmation: its own proposal is imported, and is
      remembered unless the source was known before. */
  lemma AnUnderstoodFileGoesThrough(c: Config, m: Machine, file: File, i: Inspection, validation: Validation, result: ImportResult)
    requires c.mode.ImportMode? && NamedLike(file, {".csv", ".xlsx"}) && !NamedLike(file, {".xml"})
    requires Understands(i) && validation.status.AllFine? && validation.canImport
    ensures var confirmed := Run(c, m, [ChoosesFile(file), Lands(m.nextRequest, UnderstandAnswer(Ok(i)), false),
                                        Lands(m.nextRequest + 1, ValidateAnswer(Ok(validation)), false), Confirms]);
            var after := Land(c, confirmed, m.nextRequest + 2, ImportAnswer(Ok(result)), false);
            && after.step == Ended(file, result)
            && after.log == m.log + [Understood(file, NOTHING_SAID, false, i)] + [Validated(file, i.proposal, validation)]
                            + [SentMatched(file, i.proposal, !i.profile.status.Recognized?, true)]
  {
    hide Land;
    hide Next;
    hide Run;
    hide NamedLike;
    var second := Lands(m.nextRequest, UnderstandAnswer(Ok(i)), false);
    var third := Lands(m.nextRequest + 1, ValidateAnswer(Ok(validation)), false);
    RunOfFour(c, m, ChoosesFile(file), second, third, Confirms);
    var chosen := Next(c, m, ChoosesFile(file));
    LandsIsLand(c, chosen, m.nextRequest, UnderstandAnswer(Ok(i)));
    LandsIsLand(c, Next(c, chosen, second), m.nextRequest + 1, ValidateAnswer(Ok(validation)));
    AProposalIsReady(c, m, file, i, validation);
    AReadyFileGoesThrough(c, Next(c, Next(c, chosen, second), third), result);
  }

  /** An invoice goes all the way: looked at, and imported when it can be. */
  lemma AnInvoiceGoesThrough(c: Config, m: Machine, file: File, preview: XmlPreview, result: ImportResult)
    requires c.domain.Costs? && NamedLike(file, {".xml"}) && preview.canImport
    ensures var shown := Land(c, Next(c, m, ChoosesFile(file)), m.nextRequest, PreviewAnswer(Ok(preview)), false);
            var after := Land(c, Next(c, shown, Confirms), m.nextRequest + 1, ImportAnswer(Ok(result)), false);
            && shown.step == Preview(file, preview) && after.step == Ended(file, result)
            && after.log == m.log + [Previewed(file, preview)] + [SentXml(file)]
  {
    hide NamedLike;
    WhatChoosingAFileDoes(c, m, file);
    var chosen := Next(c, m, ChoosesFile(file));
    WhatALookAtAnInvoiceShows(c, chosen, m.nextRequest, Ok(preview), false);
    var shown := Land(c, chosen, m.nextRequest, PreviewAnswer(Ok(preview)), false);
    WhatIsDoneWithAReadyFile(c, shown, true);
    WhatAnImportEndsIn(c, Next(c, shown, Confirms), m.nextRequest + 1, Ok(result), false);
    hide Land;
    hide Next;
  }
}
