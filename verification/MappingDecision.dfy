/** Which field each column or constant of a file stands for, and the edits of that matching
    (apps/web/lib/sources/mapping-decision.ts). */
module MappingDecision {
  import opened Basics

  type Field = string

  datatype ColumnChoice = ColumnChoice(header: string, field: Option<Field>)

  datatype ConstantValue = Word(text: string) | Number(value: real)

  /** The answers and the confirmation a decision issued by the server was made with. */
  datatype SmartImportRef = SmartImportRef(answers: string, confirmedDomain: bool)

  /** `layout` and `labels` are never looked into on the page; texts stand for them. */
  datatype Decision = Decision(
    sheetName: Member<string>,
    columns: seq<ColumnChoice>,
    constants: map<Field, ConstantValue>,
    dateOrder: Member<string>,
    decimalStyle: Member<string>,
    layout: Member<string>,
    labels: Member<string>,
    smartImport: Member<SmartImportRef>)

  datatype ColumnInfo = ColumnInfo(header: string, field: Option<Field>, notUsedReason: Option<string>)

  datatype ProfileStatus = NoProfile | Recognized | NeedsReview

  datatype Profile = Profile(status: ProfileStatus, mapping: Option<Decision>)

  // ---------------------------------------------------------------------------------------------
  // The decision, and the partial map from a field to its one source that it stands for
  // ---------------------------------------------------------------------------------------------

  datatype Source = FromColumn(header: string) | Fixed(value: ConstantValue)

  ghost predicate DistinctHeaders(columns: seq<ColumnChoice>) {
    forall i, j :: 0 <= i < j < |columns| ==> columns[i].header != columns[j].header
  }

  /** A field has at most one source: one column, or a fixed value, never both. */
  ghost predicate SingleSourced(d: Decision) {
    && (forall i, j :: 0 <= i < j < |d.columns| && d.columns[i].field.Some? ==> d.columns[i].field != d.columns[j].field)
    && (forall i :: 0 <= i < |d.columns| && d.columns[i].field.Some? ==> d.columns[i].field.value !in d.constants)
  }

  /** In `d` the field `f` has the source that `m` gives it, and no other. */
  ghost predicate SourceAgrees(d: Decision, m: map<Field, Source>, f: Field) {
    && (f in d.constants ==> f in m && m[f] == Fixed(d.constants[f]))
    && (forall i :: 0 <= i < |d.columns| && d.columns[i].field == Some(f) ==>
          f in m && m[f] == FromColumn(d.columns[i].header))
    && (f in m && m[f].Fixed? ==> f in d.constants)
    && (f in m && m[f].FromColumn? ==> ColumnChoice(m[f].header, Some(f)) in d.columns)
  }

  /** `d` says exactly what the partial map `m` says. */
  ghost predicate Represents(d: Decision, m: map<Field, Source>) {
    forall f :: SourceAgrees(d, m, f)
  }

  ghost function Headers(columns: seq<ColumnChoice>): set<string> {
    set c | c in columns :: c.header
  }

  /** The sources of every field: fixed values, then the columns. */
  ghost function SourcesOf(d: Decision): map<Field, Source> {
    (map f | f in d.constants :: Fixed(d.constants[f])) + ColumnSources(d.columns)
  }

  ghost function ColumnSources(columns: seq<ColumnChoice>): map<Field, Source> {
    if columns == [] then map[]
    else
      var last := columns[|columns| - 1];
      var rest := ColumnSources(columns[..|columns| - 1]);
      if last.field.Some? then rest[last.field.value := FromColumn(last.header)] else rest
  }

  lemma {:induction false} ColumnSourcesAre(columns: seq<ColumnChoice>)
    requires forall i, j :: 0 <= i < j < |columns| && columns[i].field.Some? ==> columns[i].field != columns[j].field
    ensures forall i :: 0 <= i < |columns| && columns[i].field.Some? ==>
              && columns[i].field.value in ColumnSources(columns)
              && ColumnSources(columns)[columns[i].field.value] == FromColumn(columns[i].header)
    ensures forall f :: f in ColumnSources(columns) ==>
              ColumnSources(columns)[f].FromColumn? && ColumnChoice(ColumnSources(columns)[f].header, Some(f)) in columns
  {
    if columns != [] {
      var front := columns[..|columns| - 1];
      ColumnSourcesAre(front);
      assert columns == front + [columns[|columns| - 1]];
      assert forall i :: 0 <= i < |front| ==> columns[i] == front[i];
    }
  }

  /** A decision stands for a partial map exactly when every field has one source; the map is then unique.
      Headers are distinct, as in every file the backend accepts. */
  lemma SingleSourcedIsAPartialMap(d: Decision)
    requires DistinctHeaders(d.columns)
    ensures SingleSourced(d) <==> exists m: map<Field, Source> :: Represents(d, m)
    ensures SingleSourced(d) ==> Represents(d, SourcesOf(d))
    ensures forall m, n :: Represents(d, m) && Represents(d, n) ==> m == n
  {
    if SingleSourced(d) {
      SourcesRepresent(d);
    }
    forall m | Represents(d, m)
      ensures SingleSourced(d)
    {
      RepresentedIsSingleSourced(d, m);
    }
    forall m, n | Represents(d, m) && Represents(d, n)
      ensures m == n
    {
      forall f ensures f in m <==> f in n
               ensures f in m ==> m[f] == n[f]
      {
        assert SourceAgrees(d, m, f) && SourceAgrees(d, n, f);
        OneSource(d, m, n, f);
        OneSource(d, n, m, f);
      }
    }
  }

  lemma SourcesRepresent(d: Decision)
    requires SingleSourced(d)
    ensures Represents(d, SourcesOf(d))
  {
    ColumnSourcesAre(d.columns);
    var m := SourcesOf(d);
    forall f ensures SourceAgrees(d, m, f) {
      if f in d.constants {
        assert f !in ColumnSources(d.columns);
      }
    }
  }

  lemma RepresentedIsSingleSourced(d: Decision, m: map<Field, Source>)
    requires DistinctHeaders(d.columns) && Represents(d, m)
    ensures SingleSourced(d)
  {
    forall i | 0 <= i < |d.columns| && d.columns[i].field.Some?
      ensures d.columns[i].field.value !in d.constants
      ensures forall j :: i < j < |d.columns| ==> d.columns[i].field != d.columns[j].field
    {
      assert SourceAgrees(d, m, d.columns[i].field.value);
    }
  }

  lemma OneSource(d: Decision, m: map<Field, Source>, n: map<Field, Source>, f: Field)
    requires SourceAgrees(d, m, f) && SourceAgrees(d, n, f)
    ensures f in m ==> f in n && n[f] == m[f]
  {
    if f in m && m[f].FromColumn? {
      var i :| 0 <= i < |d.columns| && d.columns[i] == ColumnChoice(m[f].header, Some(f));
    }
  }

  // ---------------------------------------------------------------------------------------------
  // Edits
  // ---------------------------------------------------------------------------------------------

  function RelabelledColumn(column: ColumnChoice, header: string, field: Option<Field>): ColumnChoice {
    if column.header == header then ColumnChoice(header, field)
    else if field.Some? && column.field == field then ColumnChoice(column.header, None)
    else column
  }

  function Relabelled(columns: seq<ColumnChoice>, header: string, field: Option<Field>): (r: seq<ColumnChoice>)
    ensures |r| == |columns|
    ensures forall i :: 0 <= i < |columns| ==> r[i] == RelabelledColumn(columns[i], header, field)
  {
    seq(|columns|, i requires 0 <= i < |columns| => RelabelledColumn(columns[i], header, field))
  }

  /** Gives `field` to the column and takes it from every other source. */
  function WithColumnField(d: Decision, header: string, field: Option<Field>): Decision {
    d.(columns := Relabelled(d.columns, header, field),
       constants := if field.Some? then d.constants - {field.value} else d.constants)
  }

  predicate IsEmpty(value: Option<ConstantValue>) {
    value.None? || value.value == Word("")
  }

  function FreedColumn(column: ColumnChoice, field: Field): ColumnChoice {
    if column.field == Some(field) then ColumnChoice(column.header, None) else column
  }

  function Freed(columns: seq<ColumnChoice>, field: Field): (r: seq<ColumnChoice>)
    ensures |r| == |columns|
    ensures forall i :: 0 <= i < |columns| ==> r[i] == FreedColumn(columns[i], field)
  {
    seq(|columns|, i requires 0 <= i < |columns| => FreedColumn(columns[i], field))
  }

  /** Sets or removes the constant of `field`; setting it frees the field's columns. */
  function WithConstant(d: Decision, field: Field, value: Option<ConstantValue>): Decision {
    if IsEmpty(value) then d.(constants := d.constants - {field})
    else d.(columns := Freed(d.columns, field), constants := d.constants[field := value.value])
  }

  function WithDateOrder(d: Decision, order: string): Decision {
    d.(dateOrder := Is(order))
  }

  function WithDecimalStyle(d: Decision, style: string): Decision {
    d.(decimalStyle := Is(style))
  }

  /** The same matching, whatever was answered about how dates and numbers are written. */
  predicate SameMatching(a: Decision, b: Decision) {
    a.(dateOrder := b.dateOrder, decimalStyle := b.decimalStyle) == b
  }

  // The same edits, on the partial map.

  ghost function Without(m: map<Field, Source>, header: string): map<Field, Source> {
    map f | f in m && m[f] != FromColumn(header) :: m[f]
  }

  ghost function AssignColumn(m: map<Field, Source>, headers: set<string>, header: string, field: Option<Field>): map<Field, Source> {
    match field
    case None => Without(m, header)
    case Some(f) =>
      if header in headers then Without(m, header)[f := FromColumn(header)] else m - {f}
  }

  ghost function AssignConstant(m: map<Field, Source>, field: Field, value: Option<ConstantValue>): map<Field, Source> {
    if value.Some? && value.value != Word("") then m[field := Fixed(value.value)]
    else if field in m && m[field].Fixed? then m - {field}
    else m
  }

  lemma SameHeaders(a: seq<ColumnChoice>, b: seq<ColumnChoice>)
    requires |a| == |b| && forall i :: 0 <= i < |a| ==> a[i].header == b[i].header
    ensures Headers(a) == Headers(b)
    ensures DistinctHeaders(a) ==> DistinctHeaders(b)
  {
    forall h | h in Headers(a) ensures h in Headers(b) {
      var i :| 0 <= i < |a| && a[i].header == h;
      assert b[i] in b;
    }
    forall h | h in Headers(b) ensures h in Headers(a) {
      var i :| 0 <= i < |b| && b[i].header == h;
      assert a[i] in a;
    }
  }

  /** Giving a column a meaning is a plain map update: the column loses what it meant, the field moves here. */
  lemma WithColumnFieldIsAMapUpdate(d: Decision, m: map<Field, Source>, header: string, field: Option<Field>)
    requires DistinctHeaders(d.columns) && Represents(d, m)
    ensures DistinctHeaders(WithColumnField(d, header, field).columns)
    ensures Headers(WithColumnField(d, header, field).columns) == Headers(d.columns)
    ensures Represents(WithColumnField(d, header, field), AssignColumn(m, Headers(d.columns), header, field))
  {
    SameHeaders(d.columns, WithColumnField(d, header, field).columns);
    forall f
      ensures SourceAgrees(WithColumnField(d, header, field), AssignColumn(m, Headers(d.columns), header, field), f)
    {
      assert SourceAgrees(d, m, f);
      RelabelledSource(d, m, header, field, f);
    }
  }

  lemma RelabelledSource(d: Decision, m: map<Field, Source>, header: string, field: Option<Field>, f: Field)
    requires DistinctHeaders(d.columns) && SourceAgrees(d, m, f)
    ensures SourceAgrees(WithColumnField(d, header, field), AssignColumn(m, Headers(d.columns), header, field), f)
  {
    var e := WithColumnField(d, header, field);
    var n := AssignColumn(m, Headers(d.columns), header, field);
    forall i | 0 <= i < |e.columns| && e.columns[i].field == Some(f)
      ensures f in n && n[f] == FromColumn(e.columns[i].header)
    {
      assert e.columns[i] == RelabelledColumn(d.columns[i], header, field);
      assert d.columns[i] in d.columns;
    }
    if f in n && n[f].FromColumn? {
      if field == Some(f) {
        var c :| c in d.columns && c.header == header;
        var i :| 0 <= i < |d.columns| && d.columns[i] == c;
        assert e.columns[i] == ColumnChoice(header, field);
      } else {
        var i :| 0 <= i < |d.columns| && d.columns[i] == ColumnChoice(m[f].header, Some(f));
        assert e.columns[i] == d.columns[i];
      }
    }
  }

  /** Giving a field a fixed value is a plain map update; taking a value away leaves a column alone. */
  lemma WithConstantIsAMapUpdate(d: Decision, m: map<Field, Source>, field: Field, value: Option<ConstantValue>)
    requires DistinctHeaders(d.columns) && Represents(d, m)
    ensures DistinctHeaders(WithConstant(d, field, value).columns)
    ensures Headers(WithConstant(d, field, value).columns) == Headers(d.columns)
    ensures Represents(WithConstant(d, field, value), AssignConstant(m, field, value))
  {
    SameHeaders(d.columns, WithConstant(d, field, value).columns);
    forall f
      ensures SourceAgrees(WithConstant(d, field, value), AssignConstant(m, field, value), f)
    {
      assert SourceAgrees(d, m, f);
      FixedSource(d, m, field, value, f);
    }
  }

  lemma FixedSource(d: Decision, m: map<Field, Source>, field: Field, value: Option<ConstantValue>, f: Field)
    requires SourceAgrees(d, m, f)
    ensures SourceAgrees(WithConstant(d, field, value), AssignConstant(m, field, value), f)
  {
    var e := WithConstant(d, field, value);
    var n := AssignConstant(m, field, value);
    if f in n && n[f].FromColumn? {
      var i :| 0 <= i < |d.columns| && d.columns[i] == ColumnChoice(m[f].header, Some(f));
      assert e.columns[i] == d.columns[i];
    }
  }

  datatype Edit =
    | ColumnField(header: string, field: Option<Field>)
    | Constant(key: Field, value: Option<ConstantValue>)
    | DateOrder(order: string)
    | DecimalStyle(style: string)

  function Apply(d: Decision, e: Edit): Decision {
    match e
    case ColumnField(h, f) => WithColumnField(d, h, f)
    case Constant(f, v) => WithConstant(d, f, v)
    case DateOrder(o) => WithDateOrder(d, o)
    case DecimalStyle(s) => WithDecimalStyle(d, s)
  }

  function ApplyAll(d: Decision, edits: seq<Edit>): Decision
    decreases |edits|
  {
    if edits == [] then d else ApplyAll(Apply(d, edits[0]), edits[1..])
  }

  ghost function MapApplyAll(m: map<Field, Source>, headers: set<string>, edits: seq<Edit>): map<Field, Source>
    decreases |edits|
  {
    if edits == [] then m
    else
      var next :=
        match edits[0]
        case ColumnField(h, f) => AssignColumn(m, headers, h, f)
        case Constant(f, v) => AssignConstant(m, f, v)
        case DateOrder(_) => m
        case DecimalStyle(_) => m;
      MapApplyAll(next, headers, edits[1..])
  }

  lemma SameSources(d: Decision, e: Decision, m: map<Field, Source>)
    requires Represents(d, m) && e.columns == d.columns && e.constants == d.constants
    ensures Represents(e, m)
  {
    forall f ensures SourceAgrees(e, m, f) {
      assert SourceAgrees(d, m, f);
    }
  }

  /** Any sequence of edits of a single-sourced decision leaves it single-sourced, and does to its columns and
      constants what the plain map updates do to the map from field to source. */
  lemma {:induction false} EditsRefineAPartialMap(d: Decision, m: map<Field, Source>, edits: seq<Edit>)
    requires DistinctHeaders(d.columns) && Represents(d, m)
    ensures DistinctHeaders(ApplyAll(d, edits).columns)
    ensures Represents(ApplyAll(d, edits), MapApplyAll(m, Headers(d.columns), edits))
    ensures SingleSourced(ApplyAll(d, edits))
    decreases |edits|
  {
    if edits == [] {
      SingleSourcedIsAPartialMap(d);
    } else {
      var e := Apply(d, edits[0]);
      match edits[0] {
        case ColumnField(h, f) =>
          WithColumnFieldIsAMapUpdate(d, m, h, f);
          EditsRefineAPartialMap(e, AssignColumn(m, Headers(d.columns), h, f), edits[1..]);
        case Constant(f, v) =>
          WithConstantIsAMapUpdate(d, m, f, v);
          EditsRefineAPartialMap(e, AssignConstant(m, f, v), edits[1..]);
        case DateOrder(_) =>
          SameSources(d, e, m);
          EditsRefineAPartialMap(e, m, edits[1..]);
        case DecimalStyle(_) =>
          SameSources(d, e, m);
          EditsRefineAPartialMap(e, m, edits[1..]);
      }
    }
  }

  /** The domain of the map that the decision stands for, collected column by column. */
  method FieldsInUse(d: Decision) returns (used: set<Field>)
    ensures forall f :: f in used <==> f in d.constants || exists c :: c in d.columns && c.field == Some(f)
    ensures forall m: map<Field, Source> :: Represents(d, m) ==> used == m.Keys
  {
    used := d.constants.Keys;
    for k := 0 to |d.columns|
      invariant forall f :: f in used <==> f in d.constants || exists c :: c in d.columns[..k] && c.field == Some(f)
    {
      var column := d.columns[k];
      if column.field.Some? {
        used := used + {column.field.value};
      }
      assert d.columns[..k + 1] == d.columns[..k] + [column];
    }
    assert d.columns[..|d.columns|] == d.columns;
    forall m: map<Field, Source> | Represents(d, m)
      ensures used == m.Keys
    {
      forall f ensures f in m <==> f in used {
        assert SourceAgrees(d, m, f);
        if f in m && m[f].FromColumn? {
          assert ColumnChoice(m[f].header, Some(f)).field == Some(f);
        }
      }
    }
  }

  // ---------------------------------------------------------------------------------------------
  // Where the matching of the columns starts
  // ---------------------------------------------------------------------------------------------

  predicate IsLockedColumn(column: ColumnInfo) {
    column.notUsedReason.Some?
  }

  function Suggested(column: ColumnInfo): Option<Field> {
    if IsLockedColumn(column) then None else column.field
  }

  function SuggestedChoices(columns: seq<ColumnInfo>): (r: seq<ColumnChoice>)
    ensures |r| == |columns|
    ensures forall i :: 0 <= i < |columns| ==> r[i] == ColumnChoice(columns[i].header, Suggested(columns[i]))
  {
    seq(|columns|, i requires 0 <= i < |columns| => ColumnChoice(columns[i].header, Suggested(columns[i])))
  }

  function NullableText(text: Option<string>): Member<string> {
    match text
    case Some(t) => Is(t)
    case None => Null
  }

  function DecisionFromSuggestions(sheetName: Option<string>, columns: seq<ColumnInfo>): Decision {
    Decision(NullableText(sheetName), SuggestedChoices(columns), map[], Absent, Absent, Absent, Absent, Absent)
  }

  /** What the saved columns say of `header`: the last of them with that header speaks. */
  function SavedField(saved: seq<ColumnChoice>, header: string): Option<Field> {
    if saved == [] then None
    else
      var last := saved[|saved| - 1];
      if last.header == header then last.field else SavedField(saved[..|saved| - 1], header)
  }

  function FieldsOf(columns: seq<ColumnChoice>): set<Field> {
    set c | c in columns && c.field.Some? :: c.field.value
  }

  function TakenBySaved(saved: Decision): set<Field> {
    FieldsOf(saved.columns) + saved.constants.Keys
  }

  /** The columns of the file, left to right: what was saved wins, a suggestion only fills a meaning that
      neither the saved configuration nor an earlier column has. */
  function StartingColumns(columns: seq<ColumnInfo>, saved: Decision): (r: seq<ColumnChoice>)
    ensures |r| == |columns|
    ensures forall i :: 0 <= i < |r| ==> r[i].header == columns[i].header
  {
    if columns == [] then []
    else
      var earlier := StartingColumns(columns[..|columns| - 1], saved);
      earlier + [StartingColumn(columns[|columns| - 1], saved, TakenBySaved(saved) + FieldsOf(earlier))]
  }

  function StartingColumn(column: ColumnInfo, saved: Decision, taken: set<Field>): ColumnChoice {
    var field := SavedField(saved.columns, column.header);
    var suggested := Suggested(column);
    if field.Some? then ColumnChoice(column.header, field)
    else if suggested.Some? && suggested.value !in taken then ColumnChoice(column.header, suggested)
    else ColumnChoice(column.header, None)
  }

  function OrNull(text: Member<string>): Member<string> {
    if text.Absent? then Null else text
  }

  function StartingDecision(sheetName: Option<string>, columns: seq<ColumnInfo>, profile: Profile): Decision {
    match profile.mapping
    case None => DecisionFromSuggestions(sheetName, columns)
    case Some(saved) =>
      Decision(NullableText(sheetName), StartingColumns(columns, saved),
               saved.constants, OrNull(saved.dateOrder), OrNull(saved.decimalStyle), Absent, Absent, Absent)
  }

  lemma FieldsOfLonger(columns: seq<ColumnChoice>, column: ColumnChoice)
    ensures FieldsOf(columns + [column]) == FieldsOf(columns) + (if column.field.Some? then {column.field.value} else {})
  {
    forall f | f in FieldsOf(columns) + (if column.field.Some? then {column.field.value} else {})
      ensures f in FieldsOf(columns + [column])
    {
      if f in FieldsOf(columns) {
        var c :| c in columns && c.field == Some(f);
        assert c in columns + [column];
      } else {
        assert column in columns + [column];
      }
    }
  }

  lemma StartingColumnsOneMore(columns: seq<ColumnInfo>, saved: Decision, k: nat)
    requires k < |columns|
    ensures var earlier := StartingColumns(columns[..k], saved);
            StartingColumns(columns[..k + 1], saved) == earlier + [StartingColumn(columns[k], saved, TakenBySaved(saved) + FieldsOf(earlier))]
  {
    assert columns[..k + 1][..k] == columns[..k];
  }

  lemma StartingColumnsOfNone(none: seq<ColumnInfo>, saved: Decision)
    requires none == []
    ensures StartingColumns(none, saved) == [] && FieldsOf(StartingColumns(none, saved)) == {}
  {
  }

  /** The loop of the original: `taken` grows while the columns are walked. */
  method StartingDecisionLoop(sheetName: Option<string>, columns: seq<ColumnInfo>, profile: Profile) returns (d: Decision)
    ensures d == StartingDecision(sheetName, columns, profile)
  {
    hide StartingColumns;
    hide FieldsOf;
    hide SavedField;
    var proposal := DecisionFromSuggestions(sheetName, columns);
    if profile.mapping.None? {
      return proposal;
    }
    var saved := profile.mapping.value;
    var taken := FieldsOf(saved.columns) + saved.constants.Keys;
    var choices: seq<ColumnChoice> := [];
    StartingColumnsOfNone(columns[..0], saved);
    for k := 0 to |columns|
      invariant choices == StartingColumns(columns[..k], saved)
      invariant taken == TakenBySaved(saved) + FieldsOf(choices)
    {
      var column := proposal.columns[k];
      StartingColumnsOneMore(columns, saved, k);
      var field := SavedField(saved.columns, column.header);
      var choice := ColumnChoice(column.header, None);
      if field.Some? {
        choice := ColumnChoice(column.header, field);
      } else if column.field.Some? && column.field.value !in taken {
        choice := column;
      }
      FieldsOfLonger(choices, choice);
      SavedFieldIsSaved(saved.columns, column.header);
      if field.None? && choice.field.Some? {
        taken := taken + {choice.field.value};
      }
      choices := choices + [choice];
    }
    assert columns[..|columns|] == columns;
    d := Decision(proposal.sheetName, choices, saved.constants, OrNull(saved.dateOrder), OrNull(saved.decimalStyle),
                  Absent, Absent, Absent);
  }

  /** What each column of the file starts as. */
  lemma {:induction false} StartingColumnIs(columns: seq<ColumnInfo>, saved: Decision, i: nat)
    requires i < |columns|
    ensures StartingColumns(columns, saved)[i]
         == StartingColumn(columns[i], saved, TakenBySaved(saved) + FieldsOf(StartingColumns(columns, saved)[..i]))
    decreases |columns|
  {
    var last := |columns| - 1;
    var earlier := StartingColumns(columns[..last], saved);
    assert StartingColumns(columns, saved)[..last] == earlier;
    if i < last {
      StartingColumnIs(columns[..last], saved, i);
      assert StartingColumns(columns, saved)[..i] == earlier[..i];
    }
  }

  lemma {:induction false} SavedFieldIsSaved(saved: seq<ColumnChoice>, header: string)
    ensures var field := SavedField(saved, header);
            field.Some? ==> ColumnChoice(header, field) in saved && field.value in FieldsOf(saved)
  {
    if saved != [] {
      SavedFieldIsSaved(saved[..|saved| - 1], header);
      assert saved[|saved| - 1] in saved;
    }
  }

  ghost predicate DistinctFileHeaders(columns: seq<ColumnInfo>) {
    forall i, j :: 0 <= i < j < |columns| ==> columns[i].header != columns[j].header
  }

  ghost predicate SuggestionsCollide(columns: seq<ColumnInfo>) {
    exists i, j :: 0 <= i < j < |columns| && Suggested(columns[i]).Some? && Suggested(columns[i]) == Suggested(columns[j])
  }

  /** With a single-sourced saved configuration every field starts with at most one source, whatever NINFA
      suggests. Without one the suggestions are the decision, so they must not collide. */
  lemma StartingDecisionIsSingleSourced(sheetName: Option<string>, columns: seq<ColumnInfo>, profile: Profile)
    requires DistinctFileHeaders(columns)
    requires profile.mapping.Some? ==> SingleSourced(profile.mapping.value)
    ensures DistinctHeaders(StartingDecision(sheetName, columns, profile).columns)
    ensures SingleSourced(StartingDecision(sheetName, columns, profile))
       <==> profile.mapping.Some? || !SuggestionsCollide(columns)
  {
    var d := StartingDecision(sheetName, columns, profile);
    if profile.mapping.Some? {
      var saved := profile.mapping.value;
      forall i | 0 <= i < |columns| && d.columns[i].field.Some?
        ensures d.columns[i].field.value !in d.constants
        ensures forall j :: 0 <= j < i ==> d.columns[j].field != d.columns[i].field
      {
        StartingFieldIsFree(columns, saved, i);
      }
    } else if SuggestionsCollide(columns) {
      var i, j :| 0 <= i < j < |columns| && Suggested(columns[i]).Some? && Suggested(columns[i]) == Suggested(columns[j]);
      assert d.columns[i].field == d.columns[j].field;
    }
  }

  const TWO_ARRIVALS := [ColumnInfo("Arrivo", Some("check_in"), None), ColumnInfo("Check-in", Some("check_in"), None)]

  /** Two columns that are both suggested as the check-in are both the check-in, when nothing was saved. */
  lemma SuggestionsMayCollide()
    ensures DistinctFileHeaders(TWO_ARRIVALS)
    ensures !SingleSourced(StartingDecision(None, TWO_ARRIVALS, Profile(NoProfile, None)))
  {
    assert TWO_ARRIVALS[0].header[0] == 'A' && TWO_ARRIVALS[1].header[0] == 'C';
    assert Suggested(TWO_ARRIVALS[0]) == Suggested(TWO_ARRIVALS[1]);
    StartingDecisionIsSingleSourced(None, TWO_ARRIVALS, Profile(NoProfile, None));
  }

  lemma {:induction false} StartingFieldIsFree(columns: seq<ColumnInfo>, saved: Decision, i: nat)
    requires DistinctFileHeaders(columns) && SingleSourced(saved)
    requires i < |columns| && StartingColumns(columns, saved)[i].field.Some?
    ensures var r := StartingColumns(columns, saved);
            r[i].field.value !in saved.constants && forall j :: 0 <= j < i ==> r[j].field != r[i].field
  {
    var r := StartingColumns(columns, saved);
    StartingColumnIs(columns, saved, i);
    SavedFieldIsSaved(saved.columns, columns[i].header);
    forall j | 0 <= j < i
      ensures r[j].field != r[i].field
    {
      StartingColumnIs(columns, saved, j);
      SavedFieldIsSaved(saved.columns, columns[j].header);
      assert r[j] in r[..i];
    }
  }
}
