/** What the columns of a file start as, column by column (`startingDecision` in apps/web/lib/sources/mapping-decision.ts). */
module MappingStart {
  import opened Basics
  import opened MappingDecision

  /** The saved configuration says that a column with this header is `f`; of several the last one speaks. */
  ghost predicate SavedAs(saved: Decision, header: string, f: Field) {
    exists k :: 0 <= k < |saved.columns| && saved.columns[k] == ColumnChoice(header, Some(f))
      && forall l :: k < l < |saved.columns| ==> saved.columns[l].header != header
  }

  /** No saved column, saved constant or column started before has this field. */
  ghost predicate StillFree(f: Field, saved: Decision, started: seq<ColumnChoice>) {
    && f !in saved.constants
    && (forall k :: 0 <= k < |saved.columns| ==> saved.columns[k].field != Some(f))
    && (forall j :: 0 <= j < |started| ==> started[j].field != Some(f))
  }

  lemma {:induction false} SavedAsIsSavedField(columns: seq<ColumnChoice>, saved: Decision, header: string, f: Field)
    requires saved.columns == columns
    ensures SavedAs(saved, header, f) <==> SavedField(columns, header) == Some(f)
    decreases |columns|
  {
    if columns != [] {
      var n := |columns| - 1;
      var earlier := saved.(columns := columns[..n]);
      SavedAsIsSavedField(columns[..n], earlier, header, f);
      if columns[n].header == header {
        assert SavedAs(saved, header, f) ==> columns[n].field == Some(f);
        if columns[n].field == Some(f) {
          assert saved.columns[n] == ColumnChoice(header, Some(f));
        }
      } else {
        OneMoreOfAnotherHeader(saved, header, f);
      }
    }
  }

  lemma OneMoreOfAnotherHeader(saved: Decision, header: string, f: Field)
    requires saved.columns != [] && saved.columns[|saved.columns| - 1].header != header
    ensures SavedAs(saved, header, f) <==> SavedAs(saved.(columns := saved.columns[..|saved.columns| - 1]), header, f)
  {
    var n := |saved.columns| - 1;
    var earlier := saved.(columns := saved.columns[..n]);
    if SavedAs(saved, header, f) {
      var k :| 0 <= k < |saved.columns| && saved.columns[k] == ColumnChoice(header, Some(f))
        && forall l :: k < l < |saved.columns| ==> saved.columns[l].header != header;
      assert earlier.columns[k] == ColumnChoice(header, Some(f));
      assert forall l :: k < l < n ==> earlier.columns[l] == saved.columns[l];
    }
    if SavedAs(earlier, header, f) {
      var k :| 0 <= k < n && earlier.columns[k] == ColumnChoice(header, Some(f))
        && forall l :: k < l < n ==> earlier.columns[l].header != header;
      assert saved.columns[k] == ColumnChoice(header, Some(f));
      assert forall l :: k < l < n ==> saved.columns[l] == earlier.columns[l];
    }
  }

  /** With distinct headers what is saved of a header is what stands beside it. */
  lemma SavedOnce(saved: Decision, header: string, f: Field)
    requires DistinctHeaders(saved.columns)
    ensures SavedAs(saved, header, f) <==> ColumnChoice(header, Some(f)) in saved.columns
  {
    if ColumnChoice(header, Some(f)) in saved.columns {
      var k :| 0 <= k < |saved.columns| && saved.columns[k] == ColumnChoice(header, Some(f));
      assert forall l :: k < l < |saved.columns| ==> saved.columns[l].header != header;
    }
  }

  lemma FreeIsNotTaken(f: Field, saved: Decision, started: seq<ColumnChoice>)
    ensures StillFree(f, saved, started) <==> f !in TakenBySaved(saved) + FieldsOf(started)
  {
    if f in FieldsOf(saved.columns) {
      var c :| c in saved.columns && c.field == Some(f);
    }
    if f in FieldsOf(started) {
      var c :| c in started && c.field == Some(f);
    }
    forall k | 0 <= k < |saved.columns| && saved.columns[k].field == Some(f) ensures f in FieldsOf(saved.columns) {
      assert saved.columns[k] in saved.columns;
    }
    forall j | 0 <= j < |started| && started[j].field == Some(f) ensures f in FieldsOf(started) {
      assert started[j] in started;
    }
  }

  /** A column starts as it was saved; one that was saved as nothing, or not at all, takes its suggestion exactly when it
      can be used and no saved column, saved constant or column before it has that field. */
  lemma WhereAColumnStarts(sheetName: Option<string>, columns: seq<ColumnInfo>, profile: Profile, i: nat)
    requires profile.mapping.Some? && i < |columns|
    ensures var saved, d := profile.mapping.value, StartingDecision(sheetName, columns, profile);
            && |d.columns| == |columns| && d.columns[i].header == columns[i].header
            && (forall f :: SavedAs(saved, columns[i].header, f) ==> d.columns[i].field == Some(f))
            && ((forall f :: !SavedAs(saved, columns[i].header, f)) ==>
                  forall f :: d.columns[i].field == Some(f)
                    <==> columns[i].field == Some(f) && columns[i].notUsedReason.None? && StillFree(f, saved, d.columns[..i]))
  {
    var saved := profile.mapping.value;
    var r := StartingColumns(columns, saved);
    var header := columns[i].header;
    StartingColumnIs(columns, saved, i);
    forall f ensures SavedAs(saved, header, f) <==> SavedField(saved.columns, header) == Some(f) {
      SavedAsIsSavedField(saved.columns, saved, header, f);
    }
    forall f ensures StillFree(f, saved, r[..i]) <==> f !in TakenBySaved(saved) + FieldsOf(r[..i]) {
      FreeIsNotTaken(f, saved, r[..i]);
    }
    hide SavedAs;
    hide StillFree;
    hide StartingColumns;
    hide SavedField;
    hide TakenBySaved;
    hide FieldsOf;
    if SavedField(saved.columns, header).Some? {
      assert SavedAs(saved, header, SavedField(saved.columns, header).value);
    }
  }

  /** The rest of the saved configuration is kept: its constants, and how dates and numbers are written; a new matching
      carries nothing else over. */
  lemma WhatElseIsKept(sheetName: Option<string>, columns: seq<ColumnInfo>, profile: Profile)
    requires profile.mapping.Some?
    ensures var saved, d := profile.mapping.value, StartingDecision(sheetName, columns, profile);
            && d.constants == saved.constants
            && d.dateOrder == (if saved.dateOrder.Absent? then Null else saved.dateOrder)
            && d.decimalStyle == (if saved.decimalStyle.Absent? then Null else saved.decimalStyle)
            && d.sheetName == (if sheetName.Some? then Is(sheetName.value) else Null)
            && d.layout.Absent? && d.labels.Absent? && d.smartImport.Absent?
  {
  }

  /** With nothing saved every column that can be used starts as suggested, and nothing else is said. */
  lemma WhereSuggestionsLead(sheetName: Option<string>, columns: seq<ColumnInfo>, profile: Profile, i: nat)
    requires profile.mapping.None? && i < |columns|
    ensures var d := StartingDecision(sheetName, columns, profile);
            && |d.columns| == |columns| && d.constants == map[]
            && d.columns[i] == ColumnChoice(columns[i].header, if columns[i].notUsedReason.Some? then None else columns[i].field)
            && d.sheetName == (if sheetName.Some? then Is(sheetName.value) else Null)
            && d.dateOrder.Absent? && d.decimalStyle.Absent? && d.layout.Absent? && d.labels.Absent? && d.smartImport.Absent?
  {
  }

  /** An edit of the columns or constants leaves everything else as it was, and the other edits say only how dates, or
      numbers, are written. */
  lemma EditsTouchOnlyTheirs(d: Decision, header: string, f: Option<Field>, key: Field, value: Option<ConstantValue>, text: string)
    ensures var after := Apply(d, ColumnField(header, f)); after == d.(columns := after.columns, constants := after.constants)
    ensures var after := Apply(d, Constant(key, value)); after == d.(columns := after.columns, constants := after.constants)
    ensures Apply(d, DateOrder(text)) == d.(dateOrder := Is(text)) && Apply(d, DecimalStyle(text)) == d.(decimalStyle := Is(text))
  {
  }
}
