/** The answers collected while a file is read, and how a newer one joins them
    (apps/web/lib/sources/mapping-decision.ts, `personAnswered` and `mergeAnswers`). */
module Answers {
  import opened Basics

  type Words = map<string, string>

  /** `columnFields` and `labels` left out mean the same as empty ones. */
  datatype UnderstandAnswers = UnderstandAnswers(
    sheetName: Member<string>,
    tableKey: Member<string>,
    periodStart: Member<string>,
    gridHours: Member<string>,
    departmentFrom: Member<string>,
    departmentValue: Member<string>,
    amountBasis: Member<string>,
    dateOrder: Member<string>,
    decimalStyle: Member<string>,
    columnFields: Words,
    labels: map<string, Words>)

  const NOTHING_SAID := UnderstandAnswers(Absent, Absent, Absent, Absent, Absent, Absent, Absent, Absent, Absent, map[], map[])

  predicate Said(answer: Member<string>) {
    answer.Is? && answer.value != ""
  }

  /** Answers that make saving the configuration the default: any but words, and the week of a grid is none. */
  predicate PersonAnswered(a: UnderstandAnswers) {
    || a.columnFields != map[]
    || Said(a.gridHours) || Said(a.amountBasis) || Said(a.dateOrder) || Said(a.decimalStyle)
    || Said(a.departmentFrom) || Said(a.departmentValue) || Said(a.tableKey) || Said(a.sheetName)
  }

  function Newer(base: Member<string>, patch: Member<string>): Member<string> {
    if patch.Absent? then base else patch
  }

  function WordsOf(labels: map<string, Words>, document: string): Words {
    if document in labels then labels[document] else map[]
  }

  function MergedLabels(base: map<string, Words>, patch: map<string, Words>): map<string, Words> {
    map d | d in base.Keys + patch.Keys :: WordsOf(base, d) + WordsOf(patch, d)
  }

  /** A map of columns or words grows, with the patch before the base; a single answer is taken from the patch when it has one. */
  function Merge(base: UnderstandAnswers, patch: UnderstandAnswers): UnderstandAnswers {
    UnderstandAnswers(
      Newer(base.sheetName, patch.sheetName),
      Newer(base.tableKey, patch.tableKey),
      Newer(base.periodStart, patch.periodStart),
      Newer(base.gridHours, patch.gridHours),
      Newer(base.departmentFrom, patch.departmentFrom),
      Newer(base.departmentValue, patch.departmentValue),
      Newer(base.amountBasis, patch.amountBasis),
      Newer(base.dateOrder, patch.dateOrder),
      Newer(base.decimalStyle, patch.decimalStyle),
      base.columnFields + patch.columnFields,
      MergedLabels(base.labels, patch.labels))
  }

  lemma PlusAssociates<K, V>(x: map<K, V>, y: map<K, V>, z: map<K, V>)
    ensures (x + y) + z == x + (y + z)
  {
  }

  lemma WordsOfMerged(a: map<string, Words>, b: map<string, Words>, document: string)
    ensures WordsOf(MergedLabels(a, b), document) == WordsOf(a, document) + WordsOf(b, document)
  {
    if document !in a && document !in b {
      var none: Words := map[];
      assert none + none == none;
    }
  }

  lemma SameLabels(l: map<string, Words>, r: map<string, Words>)
    requires l.Keys == r.Keys
    requires forall d :: d in l ==> WordsOf(l, d) == WordsOf(r, d)
    ensures l == r
  {
    assert forall d :: d in l ==> l[d] == WordsOf(l, d) && r[d] == WordsOf(r, d);
  }

  /** The loop of the original over the documents of the newer answer. */
  method MergeLabels(base: map<string, Words>, patch: map<string, Words>) returns (labels: map<string, Words>)
    ensures labels == MergedLabels(base, patch)
  {
    labels := base;
    var documents := patch.Keys;
    while documents != {}
      invariant documents <= patch.Keys
      invariant MergedExcept(base, patch, documents, labels)
      decreases |documents|
    {
      var document :| document in documents;
      OneMoreMerged(base, patch, documents, labels, document);
      labels := labels[document := WordsOf(labels, document) + patch[document]];
      documents := documents - {document};
    }
    AllMerged(base, patch, labels);
  }

  /** `labels` after the documents of `patch` other than `left` have been added to `base`. */
  ghost predicate MergedExcept(base: map<string, Words>, patch: map<string, Words>, left: set<string>, labels: map<string, Words>) {
    && labels.Keys == base.Keys + (patch.Keys - left)
    && forall d :: WordsOf(labels, d) == WordsMergedSoFar(base, patch, left, d)
  }

  lemma OneMoreMerged(base: map<string, Words>, patch: map<string, Words>, left: set<string>, labels: map<string, Words>, document: string)
    requires MergedExcept(base, patch, left, labels) && left <= patch.Keys && document in left
    ensures MergedExcept(base, patch, left - {document}, labels[document := WordsOf(labels, document) + patch[document]])
  {
    var after := labels[document := WordsOf(labels, document) + patch[document]];
    forall d ensures WordsOf(after, d) == WordsMergedSoFar(base, patch, left - {document}, d) {
      assert WordsOf(labels, d) == WordsMergedSoFar(base, patch, left, d);
    }
    assert after.Keys == labels.Keys + {document};
  }

  lemma AllMerged(base: map<string, Words>, patch: map<string, Words>, labels: map<string, Words>)
    requires MergedExcept(base, patch, {}, labels)
    ensures labels == MergedLabels(base, patch)
  {
    forall d ensures WordsOf(labels, d) == WordsOf(MergedLabels(base, patch), d) {
      WordsOfMerged(base, patch, d);
      AddNothing(WordsOf(base, d));
    }
    SameLabels(labels, MergedLabels(base, patch));
  }

  ghost function WordsMergedSoFar(base: map<string, Words>, patch: map<string, Words>, left: set<string>, d: string): Words {
    if d in patch && d !in left then WordsOf(base, d) + patch[d] else WordsOf(base, d)
  }

  lemma AddNothing(words: Words)
    ensures words + map[] == words
  {
  }

  lemma KeysOfMerged(a: map<string, Words>, b: map<string, Words>)
    ensures MergedLabels(a, b).Keys == a.Keys + b.Keys
  {
  }

  lemma LabelsAssociateAt(a: map<string, Words>, b: map<string, Words>, c: map<string, Words>, d: string)
    ensures WordsOf(MergedLabels(MergedLabels(a, b), c), d) == WordsOf(MergedLabels(a, MergedLabels(b, c)), d)
  {
    WordsOfMerged(a, b, d);
    WordsOfMerged(b, c, d);
    WordsOfMerged(MergedLabels(a, b), c, d);
    WordsOfMerged(a, MergedLabels(b, c), d);
    PlusAssociates(WordsOf(a, d), WordsOf(b, d), WordsOf(c, d));
  }

  lemma MergedLabelsAssociate(a: map<string, Words>, b: map<string, Words>, c: map<string, Words>)
    ensures MergedLabels(MergedLabels(a, b), c) == MergedLabels(a, MergedLabels(b, c))
  {
    KeysOfMerged(a, b);
    KeysOfMerged(b, c);
    KeysOfMerged(MergedLabels(a, b), c);
    KeysOfMerged(a, MergedLabels(b, c));
    hide MergedLabels;
    forall d
      ensures WordsOf(MergedLabels(MergedLabels(a, b), c), d) == WordsOf(MergedLabels(a, MergedLabels(b, c)), d)
    {
      LabelsAssociateAt(a, b, c, d);
    }
    SameLabels(MergedLabels(MergedLabels(a, b), c), MergedLabels(a, MergedLabels(b, c)));
  }

  /** Answers can be gathered in any grouping: only their order in time matters. */
  lemma MergeAssociates(a: UnderstandAnswers, b: UnderstandAnswers, c: UnderstandAnswers)
    ensures Merge(Merge(a, b), c) == Merge(a, Merge(b, c))
  {
    MergedLabelsAssociate(a.labels, b.labels, c.labels);
    PlusAssociates(a.columnFields, b.columnFields, c.columnFields);
  }

  function MergeAll(base: UnderstandAnswers, patches: seq<UnderstandAnswers>): UnderstandAnswers {
    if patches == [] then base else Merge(MergeAll(base, patches[..|patches| - 1]), patches[|patches| - 1])
  }

  ghost predicate SaysWord(a: UnderstandAnswers, document: string, word: string, meaning: string) {
    document in a.labels && word in a.labels[document] && a.labels[document][word] == meaning
  }

  ghost predicate Speaks(a: UnderstandAnswers, document: string, word: string) {
    document in a.labels && word in a.labels[document]
  }

  /** The answers that stand alone. */
  datatype Single =
    | SheetName | TableKey | PeriodStart | GridHours | DepartmentFrom | DepartmentValue | AmountBasis | DateOrder | DecimalStyle

  function SingleOf(a: UnderstandAnswers, s: Single): Member<string> {
    match s
    case SheetName => a.sheetName
    case TableKey => a.tableKey
    case PeriodStart => a.periodStart
    case GridHours => a.gridHours
    case DepartmentFrom => a.departmentFrom
    case DepartmentValue => a.departmentValue
    case AmountBasis => a.amountBasis
    case DateOrder => a.dateOrder
    case DecimalStyle => a.decimalStyle
  }

  lemma {:induction false} SingleIsKept(base: UnderstandAnswers, patches: seq<UnderstandAnswers>, k: nat, s: Single)
    requires k < |patches| && !SingleOf(patches[k], s).Absent?
    requires forall j :: k < j < |patches| ==> SingleOf(patches[j], s).Absent?
    ensures SingleOf(MergeAll(base, patches), s) == SingleOf(patches[k], s)
    decreases |patches|
  {
    var last := |patches| - 1;
    if k < last {
      SingleIsKept(base, patches[..last], k, s);
    }
  }

  /** However many answers follow, a single answer given at `k` stands until a later one gives it anew, and so does the
      meaning given to a column or to a word. */
  lemma NothingSaidIsLost(base: UnderstandAnswers, patches: seq<UnderstandAnswers>, k: nat)
    requires k < |patches|
    ensures forall s :: !SingleOf(patches[k], s).Absent? && (forall j :: k < j < |patches| ==> SingleOf(patches[j], s).Absent?) ==>
              SingleOf(MergeAll(base, patches), s) == SingleOf(patches[k], s)
    ensures forall h :: h in patches[k].columnFields && (forall j :: k < j < |patches| ==> h !in patches[j].columnFields) ==>
              h in MergeAll(base, patches).columnFields && MergeAll(base, patches).columnFields[h] == patches[k].columnFields[h]
    ensures forall d, w :: Speaks(patches[k], d, w) && (forall j :: k < j < |patches| ==> !Speaks(patches[j], d, w)) ==>
              SaysWord(MergeAll(base, patches), d, w, patches[k].labels[d][w])
  {
    hide MergeAll;
    forall s | !SingleOf(patches[k], s).Absent? && (forall j :: k < j < |patches| ==> SingleOf(patches[j], s).Absent?)
      ensures SingleOf(MergeAll(base, patches), s) == SingleOf(patches[k], s)
    {
      SingleIsKept(base, patches, k, s);
    }
    forall h | h in patches[k].columnFields && (forall j :: k < j < |patches| ==> h !in patches[j].columnFields)
      ensures h in MergeAll(base, patches).columnFields && MergeAll(base, patches).columnFields[h] == patches[k].columnFields[h]
    {
      ColumnIsKept(base, patches, k, h);
    }
    forall d, w | Speaks(patches[k], d, w) && (forall j :: k < j < |patches| ==> !Speaks(patches[j], d, w))
      ensures SaysWord(MergeAll(base, patches), d, w, patches[k].labels[d][w])
    {
      WordIsKept(base, patches, k, d, w);
    }
  }

  lemma {:induction false} ColumnIsKept(base: UnderstandAnswers, patches: seq<UnderstandAnswers>, k: nat, h: string)
    requires k < |patches| && h in patches[k].columnFields
    requires forall j :: k < j < |patches| ==> h !in patches[j].columnFields
    ensures h in MergeAll(base, patches).columnFields && MergeAll(base, patches).columnFields[h] == patches[k].columnFields[h]
    decreases |patches|
  {
    hide MergedLabels;
    var last := |patches| - 1;
    if k < last {
      ColumnIsKept(base, patches[..last], k, h);
    }
  }

  lemma {:induction false} WordIsKept(base: UnderstandAnswers, patches: seq<UnderstandAnswers>, k: nat, d: string, w: string)
    requires k < |patches| && Speaks(patches[k], d, w)
    requires forall j :: k < j < |patches| ==> !Speaks(patches[j], d, w)
    ensures SaysWord(MergeAll(base, patches), d, w, patches[k].labels[d][w])
    decreases |patches|
  {
    hide MergedLabels;
    hide Merge;
    var last := |patches| - 1;
    if k < last {
      WordIsKept(base, patches[..last], k, d, w);
    }
    MergedWord(MergeAll(base, patches[..last]), patches[last], d, w);
  }

  /** What a merge says of a word. */
  lemma MergedWord(base: UnderstandAnswers, patch: UnderstandAnswers, d: string, w: string)
    ensures Speaks(Merge(base, patch), d, w) <==> Speaks(base, d, w) || Speaks(patch, d, w)
    ensures Speaks(Merge(base, patch), d, w) ==>
              SaysWord(Merge(base, patch), d, w, if Speaks(patch, d, w) then patch.labels[d][w] else base.labels[d][w])
  {
    WordsOfMerged(base.labels, patch.labels, d);
  }

  /** An answer replaces only what it speaks about: a single answer it does not give, a column or a word it does not
      mention stay as they were. */
  lemma NewestWins(base: UnderstandAnswers, patch: UnderstandAnswers)
    ensures forall s :: SingleOf(Merge(base, patch), s) == if SingleOf(patch, s).Absent? then SingleOf(base, s) else SingleOf(patch, s)
    ensures forall h :: h in Merge(base, patch).columnFields <==> h in base.columnFields || h in patch.columnFields
    ensures forall h :: h in Merge(base, patch).columnFields ==>
              Merge(base, patch).columnFields[h] == if h in patch.columnFields then patch.columnFields[h] else base.columnFields[h]
    ensures forall d, w :: Speaks(Merge(base, patch), d, w) <==> Speaks(base, d, w) || Speaks(patch, d, w)
    ensures forall d, w :: Speaks(Merge(base, patch), d, w) ==>
              SaysWord(Merge(base, patch), d, w, if Speaks(patch, d, w) then patch.labels[d][w] else base.labels[d][w])
  {
    hide MergedLabels;
    forall d, w
      ensures Speaks(Merge(base, patch), d, w) <==> Speaks(base, d, w) || Speaks(patch, d, w)
      ensures Speaks(Merge(base, patch), d, w) ==>
                SaysWord(Merge(base, patch), d, w, if Speaks(patch, d, w) then patch.labels[d][w] else base.labels[d][w])
    {
      MergedWord(base, patch, d, w);
    }
  }
}
