/** The list of decisions and the strip of areas on the Home count the same feed
    (apps/web/lib/decisions/list-view-model.ts, apps/web/lib/home/domain-summary.ts). */
module DecisionLists {
  import opened Basics
  import opened Text
  import BusinessDates
  import Calendar

  datatype Area = Revenue | Distribution | Costs | Labor

  datatype DecisionType = RevPickupLow | RevOccupancyRisk | RevOtaDependency | CostCporAnomaly | LaborOverstaffing

  function DomainOf(kind: DecisionType): Area {
    match kind
    case RevPickupLow => Revenue
    case RevOccupancyRisk => Revenue
    case RevOtaDependency => Distribution
    case CostCporAnomaly => Costs
    case LaborOverstaffing => Labor
  }

  datatype Item = Item(decisionId: string, kind: DecisionType, rank: int, firstSeen: string)

  datatype Row = Row(decisionId: string, rank: int, area: Area, firstSeen: string)

  function RowOf(item: Item): Row {
    Row(item.decisionId, item.rank, DomainOf(item.kind), item.firstSeen)
  }

  /** The rows of a feed, in its own order. */
  function RowsOf(items: seq<Item>): seq<Row> {
    if items == [] then [] else RowsOf(items[..|items| - 1]) + [RowOf(items[|items| - 1])]
  }

  // ---------------------------------------------------------------------------------------------
  // Comparing rows
  // ---------------------------------------------------------------------------------------------

  datatype Sort = Priority | Recent | Oldest

  /** The comparison of `sortRows`. */
  function Compare(a: Row, b: Row, sort: Sort): int {
    var direction := if sort.Recent? then -1 else 1;
    if a.firstSeen != b.firstSeen then
      if TextBefore(a.firstSeen, b.firstSeen) then -direction else direction
    else a.rank - b.rank
  }

  /** `a` may stand before `b`. */
  predicate AtMost(a: Row, b: Row, sort: Sort) {
    Compare(a, b, sort) <= 0
  }

  lemma {:induction false} TextsAreOrdered(a: string, b: string)
    ensures !(TextBefore(a, b) && TextBefore(b, a))
    ensures a == b || TextBefore(a, b) || TextBefore(b, a)
    ensures !TextBefore(a, a)
    decreases |a|
  {
    if a != "" {
      TextsAreOrdered(a[1..], if b == "" then "" else b[1..]);
      FirstAndRest(a);
      if b != "" { FirstAndRest(b); }
    }
  }

  lemma {:induction false} TextsAreTransitive(a: string, b: string, c: string)
    requires TextBefore(a, b) && TextBefore(b, c)
    ensures TextBefore(a, c)
    decreases |a|
  {
    if a != "" && a[0] == b[0] == c[0] {
      TextsAreTransitive(a[1..], b[1..], c[1..]);
    }
  }

  /** The comparison is a total preorder: whatever the library's sort does with it is settled. */
  lemma ComparisonIsOrder(a: Row, b: Row, c: Row, sort: Sort)
    ensures AtMost(a, b, sort) || AtMost(b, a, sort)
    ensures AtMost(a, b, sort) && AtMost(b, c, sort) ==> AtMost(a, c, sort)
    ensures Compare(a, b, sort) == 0 <==> AtMost(a, b, sort) && AtMost(b, a, sort)
    ensures Compare(a, b, sort) == 0 <==> a.firstSeen == b.firstSeen && a.rank == b.rank
  {
    TextsAreOrdered(a.firstSeen, b.firstSeen);
    TextsAreOrdered(b.firstSeen, c.firstSeen);
    TextsAreOrdered(a.firstSeen, c.firstSeen);
    if TextBefore(a.firstSeen, b.firstSeen) && TextBefore(b.firstSeen, c.firstSeen) {
      TextsAreTransitive(a.firstSeen, b.firstSeen, c.firstSeen);
    }
    if TextBefore(c.firstSeen, b.firstSeen) && TextBefore(b.firstSeen, a.firstSeen) {
      TextsAreTransitive(c.firstSeen, b.firstSeen, a.firstSeen);
    }
    hide TextBefore;
  }

  // ---------------------------------------------------------------------------------------------
  // Sorting
  // ---------------------------------------------------------------------------------------------

  /** `row` after everything that may stand before it. */
  function Inserted(rows: seq<Row>, row: Row, sort: Sort): (r: seq<Row>)
    ensures |r| == |rows| + 1
  {
    if rows == [] then [row]
    else
      var n := |rows| - 1;
      if AtMost(rows[n], row, sort) then rows + [row]
      else Inserted(rows[..n], row, sort) + [rows[n]]
  }

  function Sorted(rows: seq<Row>, sort: Sort): seq<Row> {
    if rows == [] then [] else Inserted(Sorted(rows[..|rows| - 1], sort), rows[|rows| - 1], sort)
  }

  function SortRows(rows: seq<Row>, sort: Sort): seq<Row> {
    if sort.Priority? then rows else Sorted(rows, sort)
  }

  predicate InOrder(rows: seq<Row>, sort: Sort) {
    forall i, j :: 0 <= i < j < |rows| ==> AtMost(rows[i], rows[j], sort)
  }

  /** The rows that tie with `row`, in their order. */
  function Ties(rows: seq<Row>, row: Row, sort: Sort): seq<Row> {
    if rows == [] then []
    else Ties(rows[..|rows| - 1], row, sort) + if Compare(rows[|rows| - 1], row, sort) == 0 then [rows[|rows| - 1]] else []
  }

  /** What a stable sort must return: the same rows, in order, and those that tie in the order they came in. */
  ghost predicate IsStableSort(rows: seq<Row>, result: seq<Row>, sort: Sort) {
    && multiset(result) == multiset(rows)
    && InOrder(result, sort)
    && forall row :: Ties(result, row, sort) == Ties(rows, row, sort)
  }

  lemma {:induction false} InsertedRows(rows: seq<Row>, row: Row, sort: Sort)
    ensures multiset(Inserted(rows, row, sort)) == multiset(rows) + multiset{row}
    decreases |rows|
  {
    if rows != [] {
      var n := |rows| - 1;
      FrontAndLast(rows);
      if !AtMost(rows[n], row, sort) {
        InsertedRows(rows[..n], row, sort);
        MultisetOfParts(rows[..n], [rows[n]]);
        MultisetOfParts(Inserted(rows[..n], row, sort), [rows[n]]);
      } else {
        MultisetOfParts(rows, [row]);
      }
    }
  }

  lemma MultisetOfParts(a: seq<Row>, b: seq<Row>)
    ensures multiset(a + b) == multiset(a) + multiset(b)
  {
  }

  lemma MembersOf(rows: seq<Row>, others: seq<Row>, i: nat)
    requires i < |rows| && multiset(rows) == multiset(others)
    ensures rows[i] in others
  {
    assert rows[i] in multiset(rows);
  }

  lemma {:induction false} InsertedInOrder(rows: seq<Row>, row: Row, sort: Sort)
    requires InOrder(rows, sort)
    ensures InOrder(Inserted(rows, row, sort), sort)
    decreases |rows|
  {
    if rows != [] {
      var n := |rows| - 1;
      var front := rows[..n];
      if AtMost(rows[n], row, sort) {
        forall i | 0 <= i < n ensures AtMost(rows[i], row, sort) {
          ComparisonIsOrder(rows[i], rows[n], row, sort);
        }
      } else {
        InsertedInOrder(front, row, sort);
        var placed := Inserted(front, row, sort);
        InsertedRows(front, row, sort);
        ComparisonIsOrder(rows[n], row, row, sort);
        forall i | 0 <= i < |placed| ensures AtMost(placed[i], rows[n], sort) {
          assert placed[i] in multiset(placed);
          assert placed[i] in multiset(front) || placed[i] == row;
        }
      }
    }
  }

  lemma TiesOneMore(rows: seq<Row>, last: Row, row: Row, sort: Sort)
    ensures Ties(rows + [last], row, sort) == Ties(rows, row, sort) + if Compare(last, row, sort) == 0 then [last] else []
  {
    assert (rows + [last])[..|rows|] == rows;
  }

  lemma {:induction false} InsertedTies(rows: seq<Row>, row: Row, other: Row, sort: Sort)
    ensures Ties(Inserted(rows, row, sort), other, sort) == Ties(rows + [row], other, sort)
    decreases |rows|
  {
    hide TextBefore;
    if rows != [] && !AtMost(rows[|rows| - 1], row, sort) {
      var n := |rows| - 1;
      InsertedTies(rows[..n], row, other, sort);
      TiesOneMore(Inserted(rows[..n], row, sort), rows[n], other, sort);
      TiesOneMore(rows[..n], row, other, sort);
      TiesOneMore(rows, row, other, sort);
      FrontAndLast(rows);
      TiesOneMore(rows[..n], rows[n], other, sort);
      ComparisonIsOrder(rows[n], other, row, sort);
      ComparisonIsOrder(row, other, rows[n], sort);
    } else {
      assert [] + [row] == [row];
    }
  }

  /** The sort of the original is the stable sort. */
  lemma {:induction false} SortedIsStable(rows: seq<Row>, sort: Sort)
    ensures IsStableSort(rows, Sorted(rows, sort), sort)
    decreases |rows|
  {
    if rows != [] {
      var front, last := rows[..|rows| - 1], rows[|rows| - 1];
      SortedIsStable(front, sort);
      InsertedRows(Sorted(front, sort), last, sort);
      InsertedInOrder(Sorted(front, sort), last, sort);
      FrontAndLast(rows);
      MultisetOfParts(front, [last]);
      forall row ensures Ties(Sorted(rows, sort), row, sort) == Ties(rows, row, sort) {
        InsertedTies(Sorted(front, sort), last, row, sort);
        TiesOneMore(Sorted(front, sort), last, row, sort);
        TiesOneMore(front, last, row, sort);
      }
    }
  }

  lemma TiesAreOwn(rows: seq<Row>, sort: Sort)
    requires rows != []
    ensures var last := rows[|rows| - 1]; Ties(rows, last, sort) != [] && Ties(rows, last, sort)[|Ties(rows, last, sort)| - 1] == last
  {
    ComparisonIsOrder(rows[|rows| - 1], rows[|rows| - 1], rows[|rows| - 1], sort);
  }

  lemma {:induction false} TiesTie(rows: seq<Row>, row: Row, sort: Sort)
    ensures forall i :: 0 <= i < |Ties(rows, row, sort)| ==> Ties(rows, row, sort)[i] in rows && Compare(Ties(rows, row, sort)[i], row, sort) == 0
    decreases |rows|
  {
    if rows != [] { TiesTie(rows[..|rows| - 1], row, sort); }
  }

  lemma SameTiesWithoutTheLast(a: seq<Row>, b: seq<Row>, last: Row, row: Row, sort: Sort)
    requires Ties(a + [last], row, sort) == Ties(b + [last], row, sort)
    ensures Ties(a, row, sort) == Ties(b, row, sort)
  {
    TiesOneMore(a, last, row, sort);
    TiesOneMore(b, last, row, sort);
    SameFront(Ties(a, row, sort), Ties(b, row, sort), if Compare(last, row, sort) == 0 then [last] else []);
  }

  lemma SameRowsWithoutTheLast(a: seq<Row>, b: seq<Row>, last: Row)
    requires multiset(a + [last]) == multiset(b + [last])
    ensures multiset(a) == multiset(b)
  {
    MultisetOfParts(a, [last]);
    MultisetOfParts(b, [last]);
    assert multiset(a) == multiset(a + [last]) - multiset{last};
    assert multiset(b) == multiset(b + [last]) - multiset{last};
  }

  lemma SameLength(a: seq<Row>, b: seq<Row>)
    requires multiset(a) == multiset(b)
    ensures |a| == |b|
  {
    assert |a| == |multiset(a)| == |multiset(b)| == |b|;
  }

  lemma SameLast(a: seq<Row>, b: seq<Row>, sort: Sort)
    requires a != [] && |a| == |b| && multiset(a) == multiset(b) && InOrder(a, sort) && InOrder(b, sort)
    requires forall row :: Ties(a, row, sort) == Ties(b, row, sort)
    ensures a[|a| - 1] == b[|b| - 1]
  {
    var x, y := a[|a| - 1], b[|b| - 1];
    LastsTie(a, b, sort);
    TiesAreOwn(a, sort);
    TiesAreOwn(b, sort);
    SameTies(b, x, y, sort);
    assert Ties(a, x, sort) == Ties(b, x, sort);
  }

  /** There is only one stable sort of a list. */
  lemma {:induction false} StableSortIsUnique(a: seq<Row>, b: seq<Row>, sort: Sort)
    requires multiset(a) == multiset(b) && InOrder(a, sort) && InOrder(b, sort)
    requires forall row :: Ties(a, row, sort) == Ties(b, row, sort)
    ensures a == b
    decreases |a|
  {
    hide Ties;
    hide Compare;
    SameLength(a, b);
    if a != [] {
      var n := |a| - 1;
      SameLast(a, b, sort);
      FrontAndLast(a);
      FrontAndLast(b);
      SameRowsWithoutTheLast(a[..n], b[..n], a[n]);
      forall row ensures Ties(a[..n], row, sort) == Ties(b[..n], row, sort) {
        assert Ties(a, row, sort) == Ties(b, row, sort);
        SameTiesWithoutTheLast(a[..n], b[..n], a[n], row, sort);
      }
      StableSortIsUnique(a[..n], b[..n], sort);
    }
  }

  lemma LastsTie(a: seq<Row>, b: seq<Row>, sort: Sort)
    requires a != [] && multiset(a) == multiset(b) && InOrder(a, sort) && InOrder(b, sort) && |a| == |b|
    ensures Compare(a[|a| - 1], b[|b| - 1], sort) == 0
  {
    var x, y := a[|a| - 1], b[|b| - 1];
    MembersOf(a, b, |a| - 1);
    MembersOf(b, a, |b| - 1);
    ComparisonIsOrder(x, y, y, sort);
    ComparisonIsOrder(y, x, x, sort);
    ComparisonIsOrder(x, x, x, sort);
    ComparisonIsOrder(y, y, y, sort);
  }

  lemma {:induction false} SameTies(rows: seq<Row>, x: Row, y: Row, sort: Sort)
    requires Compare(x, y, sort) == 0
    ensures Ties(rows, x, sort) == Ties(rows, y, sort)
    decreases |rows|
  {
    if rows != [] {
      SameTies(rows[..|rows| - 1], x, y, sort);
      ComparisonIsOrder(x, y, y, sort);
      ComparisonIsOrder(rows[|rows| - 1], x, x, sort);
      ComparisonIsOrder(rows[|rows| - 1], y, y, sort);
    }
  }

  /** Different rows never tie; so it is when no rank is given twice. */
  predicate NoTies(rows: seq<Row>) {
    forall x, y :: x in rows && y in rows && x.firstSeen == y.firstSeen && x.rank == y.rank ==> x == y
  }

  /** The sorted list does not depend on the order the rows came in. */
  lemma SortIgnoresTheInputOrder(rows: seq<Row>, shuffled: seq<Row>, sort: Sort)
    requires multiset(rows) == multiset(shuffled) && NoTies(rows) && !sort.Priority?
    ensures SortRows(rows, sort) == SortRows(shuffled, sort)
  {
    SortedIsStable(rows, sort);
    SortedIsStable(shuffled, sort);
    var a, b := Sorted(rows, sort), Sorted(shuffled, sort);
    forall row ensures Ties(a, row, sort) == Ties(b, row, sort) {
      TiesAreCopies(rows, shuffled, row, sort);
    }
    StableSortIsUnique(a, b, sort);
  }

  lemma {:induction false} TiesCount(rows: seq<Row>, row: Row, x: Row, sort: Sort)
    ensures multiset(Ties(rows, row, sort))[x] == if Compare(x, row, sort) == 0 then multiset(rows)[x] else 0
    decreases |rows|
  {
    if rows != [] {
      var front, last := rows[..|rows| - 1], rows[|rows| - 1];
      TiesCount(front, row, x, sort);
      FrontAndLast(rows);
      MultisetOfParts(front, [last]);
      TiesOneMore(front, last, row, sort);
      if Compare(last, row, sort) == 0 {
        MultisetOfParts(Ties(front, row, sort), [last]);
      } else {
        assert Ties(front, row, sort) + [] == Ties(front, row, sort);
      }
    }
  }

  lemma TiesAreCopies(rows: seq<Row>, shuffled: seq<Row>, row: Row, sort: Sort)
    requires multiset(rows) == multiset(shuffled) && NoTies(rows)
    ensures Ties(rows, row, sort) == Ties(shuffled, row, sort)
  {
    var s, t := Ties(rows, row, sort), Ties(shuffled, row, sort);
    forall x ensures multiset(s)[x] == multiset(t)[x] {
      TiesCount(rows, row, x, sort);
      TiesCount(shuffled, row, x, sort);
    }
    assert multiset(s) == multiset(t);
    assert |s| == |multiset(s)| == |multiset(t)| == |t|;
    TiesTie(rows, row, sort);
    TiesTie(shuffled, row, sort);
    forall i | 0 <= i < |s| ensures s[i] == t[i] {
      MembersOf(t, s, i);
      ComparisonIsOrder(s[i], row, row, sort);
      ComparisonIsOrder(t[i], row, row, sort);
    }
  }

  /** Sorted rows run through the days, newest or oldest first, and through the ranks within a day. */
  lemma SortedByDay(rows: seq<Row>, sort: Sort, i: nat, j: nat, a: Calendar.Date, b: Calendar.Date)
    requires !sort.Priority? && i < j < |SortRows(rows, sort)|
    requires BusinessDates.Writable(a) && SortRows(rows, sort)[i].firstSeen == BusinessDates.Iso(a)
    requires BusinessDates.Writable(b) && SortRows(rows, sort)[j].firstSeen == BusinessDates.Iso(b)
    ensures sort.Recent? ==> Calendar.DayNumber(a) >= Calendar.DayNumber(b)
    ensures sort.Oldest? ==> Calendar.DayNumber(a) <= Calendar.DayNumber(b)
    ensures a == b ==> SortRows(rows, sort)[i].rank <= SortRows(rows, sort)[j].rank
  {
    hide BusinessDates.Iso;
    hide BusinessDates.Writable;
    hide Calendar.DayNumber;
    hide TextBefore;
    SortedIsStable(rows, sort);
    assert AtMost(SortRows(rows, sort)[i], SortRows(rows, sort)[j], sort);
    BusinessDates.TextOrderIsTimeOrder(a, b);
    BusinessDates.TextOrderIsTimeOrder(b, a);
  }

  // ---------------------------------------------------------------------------------------------
  // Filtering by area
  // ---------------------------------------------------------------------------------------------

  function InArea(rows: seq<Row>, area: Area): seq<Row> {
    if rows == [] then []
    else InArea(rows[..|rows| - 1], area) + if rows[|rows| - 1].area == area then [rows[|rows| - 1]] else []
  }

  /** What the page lists; None is the pill for all areas. */
  function Visible(rows: seq<Row>, sort: Sort, area: Option<Area>): seq<Row> {
    if area.None? then SortRows(rows, sort) else InArea(SortRows(rows, sort), area.value)
  }

  lemma InAreaOneMore(rows: seq<Row>, last: Row, area: Area)
    ensures InArea(rows + [last], area) == InArea(rows, area) + if last.area == area then [last] else []
  {
    assert (rows + [last])[..|rows|] == rows;
  }

  lemma {:induction false} InAreaIsPart(rows: seq<Row>, area: Area, i: nat)
    requires i < |InArea(rows, area)|
    ensures InArea(rows, area)[i] in rows
    decreases |rows|
  {
    var n := |rows| - 1;
    if i < |InArea(rows[..n], area)| { InAreaIsPart(rows[..n], area, i); }
  }

  lemma NothingToPass(rows: seq<Row>, row: Row, sort: Sort)
    requires rows == [] || AtMost(rows[|rows| - 1], row, sort)
    ensures Inserted(rows, row, sort) == rows + [row]
  {
  }

  lemma OnePassed(rows: seq<Row>, last: Row, row: Row, sort: Sort)
    requires !AtMost(last, row, sort)
    ensures Inserted(rows + [last], row, sort) == Inserted(rows, row, sort) + [last]
  {
    assert (rows + [last])[..|rows|] == rows;
  }

  predicate CommutesOn(rows: seq<Row>, row: Row, sort: Sort, area: Area) {
    InArea(Inserted(rows, row, sort), area) == if row.area == area then Inserted(InArea(rows, area), row, sort) else InArea(rows, area)
  }

  lemma CommutesAtTheEnd(rows: seq<Row>, row: Row, sort: Sort, area: Area)
    requires rows == [] || AtMost(rows[|rows| - 1], row, sort)
    requires var part := InArea(rows, area); part == [] || AtMost(part[|part| - 1], row, sort)
    ensures CommutesOn(rows, row, sort, area)
  {
    NothingToPass(rows, row, sort);
    NothingToPass(InArea(rows, area), row, sort);
    InAreaOneMore(rows, row, area);
    assert InArea(rows, area) + [] == InArea(rows, area);
  }

  lemma CommutesPast(front: seq<Row>, last: Row, row: Row, sort: Sort, area: Area)
    requires CommutesOn(front, row, sort, area) && !AtMost(last, row, sort)
    ensures CommutesOn(front + [last], row, sort, area)
  {
    hide InArea;
    hide Inserted;
    hide AtMost;
    var part, placed := InArea(front, area), Inserted(front, row, sort);
    OnePassed(front, last, row, sort);
    InAreaOneMore(front, last, area);
    InAreaOneMore(placed, last, area);
    if last.area == area {
      OnePassed(part, last, row, sort);
    } else {
      assert part + [] == part && InArea(placed, area) + [] == InArea(placed, area);
    }
  }

  lemma {:induction false} InsertedInArea(rows: seq<Row>, row: Row, sort: Sort, area: Area)
    requires InOrder(rows, sort)
    ensures CommutesOn(rows, row, sort, area)
    decreases |rows|
  {
    hide CommutesOn;
    if rows == [] {
      CommutesAtTheEnd(rows, row, sort, area);
    } else if AtMost(rows[|rows| - 1], row, sort) {
      LastInAreaIsAtMost(rows, row, sort, area);
      CommutesAtTheEnd(rows, row, sort, area);
    } else {
      var n := |rows| - 1;
      InsertedInArea(rows[..n], row, sort, area);
      FrontAndLast(rows);
      CommutesPast(rows[..n], rows[n], row, sort, area);
    }
  }

  lemma LastInAreaIsAtMost(rows: seq<Row>, row: Row, sort: Sort, area: Area)
    requires InOrder(rows, sort) && rows != [] && AtMost(rows[|rows| - 1], row, sort)
    ensures var part := InArea(rows, area); part == [] || AtMost(part[|part| - 1], row, sort)
  {
    var part := InArea(rows, area);
    if part != [] {
      InAreaIsPart(rows, area, |part| - 1);
      var i :| 0 <= i < |rows| && rows[i] == part[|part| - 1];
      ComparisonIsOrder(rows[i], rows[|rows| - 1], row, sort);
    }
  }

  /** Filtering what is sorted is sorting what is filtered. */
  lemma {:induction false} FilterCommutesWithSort(rows: seq<Row>, sort: Sort, area: Area)
    ensures InArea(SortRows(rows, sort), area) == SortRows(InArea(rows, area), sort)
    decreases |rows|
  {
    if rows != [] && !sort.Priority? {
      var front, last := rows[..|rows| - 1], rows[|rows| - 1];
      FilterCommutesWithSort(front, sort, area);
      SortedIsStable(front, sort);
      InsertedInArea(Sorted(front, sort), last, sort, area);
      if last.area == area {
        var part := InArea(front, area);
        assert (part + [last])[..|part|] == part;
      } else {
        assert InArea(front, area) + [] == InArea(front, area);
      }
    }
  }

  // ---------------------------------------------------------------------------------------------
  // Counting
  // ---------------------------------------------------------------------------------------------

  datatype Counts = Counts(revenue: nat, distribution: nat, costs: nat, labor: nat) {
    function Of(area: Area): nat {
      match area
      case Revenue => revenue
      case Distribution => distribution
      case Costs => costs
      case Labor => labor
    }

    function Increased(area: Area): Counts {
      match area
      case Revenue => this.(revenue := revenue + 1)
      case Distribution => this.(distribution := distribution + 1)
      case Costs => this.(costs := costs + 1)
      case Labor => this.(labor := labor + 1)
    }

    function Total(): nat {
      revenue + distribution + costs + labor
    }
  }

  /** The counters are those of these rows. */
  ghost predicate Counted(counts: Counts, rows: seq<Row>) {
    forall area :: counts.Of(area) == |InArea(rows, area)|
  }

  lemma CountedOneMore(counts: Counts, rows: seq<Row>, row: Row)
    requires Counted(counts, rows)
    ensures Counted(counts.Increased(row.area), rows + [row])
  {
    forall area ensures counts.Increased(row.area).Of(area) == |InArea(rows + [row], area)| {
      assert counts.Of(area) == |InArea(rows, area)|;
      InAreaOneMore(rows, row, area);
    }
  }

  lemma {:induction false} AreasAddUp(rows: seq<Row>)
    ensures |InArea(rows, Revenue)| + |InArea(rows, Distribution)| + |InArea(rows, Costs)| + |InArea(rows, Labor)| == |rows|
    decreases |rows|
  {
    if rows != [] { AreasAddUp(rows[..|rows| - 1]); }
  }

  lemma CountedTotal(counts: Counts, rows: seq<Row>)
    requires Counted(counts, rows)
    ensures counts.Total() == |rows|
  {
    AreasAddUp(rows);
    hide InArea;
    assert counts.Of(Revenue) + counts.Of(Distribution) + counts.Of(Costs) + counts.Of(Labor) == |rows|;
  }

  /** The number on each pill is the number of rows its filter shows, however they are sorted, and the numbers add up
      to all the rows. */
  method CountByArea(rows: seq<Row>) returns (counts: Counts)
    ensures forall area, sort :: counts.Of(area) == |Visible(rows, sort, Some(area))|
    ensures counts.Total() == |rows|
  {
    counts := Counts(0, 0, 0, 0);
    for k := 0 to |rows|
      invariant Counted(counts, rows[..k])
    {
      hide Counted;
      CountedOneMore(counts, rows[..k], rows[k]);
      counts := counts.Increased(rows[k].area);
      assert rows[..k + 1] == rows[..k] + [rows[k]];
    }
    assert rows[..|rows|] == rows;
    CountedTotal(counts, rows);
    hide InArea;
    hide Visible;
    forall area, sort ensures counts.Of(area) == |Visible(rows, sort, Some(area))| {
      ShownCount(rows, sort, area);
    }
  }

  lemma ShownCount(rows: seq<Row>, sort: Sort, area: Area)
    ensures |Visible(rows, sort, Some(area))| == |InArea(rows, area)|
  {
    FilterCommutesWithSort(rows, sort, area);
    SortedLength(InArea(rows, area), sort);
  }

  lemma {:induction false} SortedLength(rows: seq<Row>, sort: Sort)
    ensures |SortRows(rows, sort)| == |rows|
    decreases |rows|
  {
    if rows != [] { SortedLength(rows[..|rows| - 1], sort); }
  }

  // ---------------------------------------------------------------------------------------------
  // The strip of areas on the Home
  // ---------------------------------------------------------------------------------------------

  datatype FeedState = NotProcessed | ActionRequired | DataQualityLimited | NoActionRequired

  datatype Status = Evaluated | Skipped

  datatype Coverage = Coverage(domain: Area, status: Status)

  datatype Feed = Feed(state: FeedState, items: seq<Item>, coverage: seq<Coverage>)

  datatype Tone = Attention(count: nat) | Clear | Partial | Unavailable(skipped: bool)

  datatype Tile = Tile(domain: Area, tone: Tone)

  const DOMAIN_ORDER := [Revenue, Distribution, Costs, Labor]

  /** The decisions that require attention; only one feed state has any. */
  function DecisionCountOf(feed: Feed): nat {
    if feed.state.ActionRequired? then |feed.items| else 0
  }

  /** What the Home counts for an area. */
  function AttentionIn(feed: Feed, area: Area): nat {
    if feed.state.ActionRequired? then |InArea(RowsOf(feed.items), area)| else 0
  }

  method CountsByDomain(feed: Feed) returns (counts: map<Area, nat>)
    ensures forall area :: (if area in counts then counts[area] else 0) == AttentionIn(feed, area)
  {
    counts := map[];
    if !feed.state.ActionRequired? { return; }
    ghost var rows := RowsOf(feed.items);
    for k := 0 to |feed.items|
      invariant forall area :: (if area in counts then counts[area] else 0) == |InArea(RowsOf(feed.items[..k]), area)|
    {
      var domain := DomainOf(feed.items[k].kind);
      counts := counts[domain := (if domain in counts then counts[domain] else 0) + 1];
      assert feed.items[..k + 1][..k] == feed.items[..k];
      forall area ensures (if area in counts then counts[area] else 0) == |InArea(RowsOf(feed.items[..k + 1]), area)| {
        InAreaOneMore(RowsOf(feed.items[..k]), RowOf(feed.items[k]), area);
      }
    }
    assert feed.items[..|feed.items|] == feed.items;
  }

  /** The entry of a domain; of several the last, as in a `Map` built from pairs. */
  function CoverageOf(coverage: seq<Coverage>, domain: Area): Option<Coverage> {
    if coverage == [] then None
    else if coverage[|coverage| - 1].domain == domain then Some(coverage[|coverage| - 1])
    else CoverageOf(coverage[..|coverage| - 1], domain)
  }

  function TileOf(domain: Area, coverage: Option<Coverage>, count: nat, feed: Feed): Tile {
    Tile(domain,
      if count > 0 then Attention(count)
      else if coverage.None? then Unavailable(false)
      else if coverage.value.status.Skipped? then Unavailable(true)
      else if feed.state.DataQualityLimited? then Partial
      else Clear)
  }

  /** None hides the strip. */
  method BuildDomainSummary(feed: Feed) returns (tiles: Option<seq<Tile>>)
    ensures tiles == SummaryOf(feed)
  {
    if feed.state.NotProcessed? { return None; }
    var counts := CountsByDomain(feed);
    var strip: seq<Tile> := [];
    for k := 0 to 4
      invariant |strip| == k && forall i :: 0 <= i < k ==> strip[i] == TileAt(feed, i)
    {
      var domain := DOMAIN_ORDER[k];
      strip := strip + [TileOf(domain, CoverageOf(feed.coverage, domain), if domain in counts then counts[domain] else 0, feed)];
    }
    tiles := Some(strip);
    assert strip == [TileAt(feed, 0), TileAt(feed, 1), TileAt(feed, 2), TileAt(feed, 3)];
  }

  function TileAt(feed: Feed, i: nat): Tile
    requires i < 4
  {
    var domain := DOMAIN_ORDER[i];
    TileOf(domain, CoverageOf(feed.coverage, domain), AttentionIn(feed, domain), feed)
  }

  function SummaryOf(feed: Feed): Option<seq<Tile>> {
    if feed.state.NotProcessed? then None
    else Some([TileAt(feed, 0), TileAt(feed, 1), TileAt(feed, 2), TileAt(feed, 3)])
  }

  lemma {:induction false} RowsOfLength(items: seq<Item>)
    ensures |RowsOf(items)| == |items|
    decreases |items|
  {
    if items != [] { RowsOfLength(items[..|items| - 1]); }
  }

  /** The two screens agree: the Home's numbers add up to the decisions of the feed, and each is the number of rows
      the list shows for that area. */
  lemma HomeCountsTheList(feed: Feed, sort: Sort)
    ensures AttentionIn(feed, Revenue) + AttentionIn(feed, Distribution) + AttentionIn(feed, Costs) + AttentionIn(feed, Labor) == DecisionCountOf(feed)
    ensures feed.state.ActionRequired? ==> forall area :: AttentionIn(feed, area) == |Visible(RowsOf(feed.items), sort, Some(area))|
  {
    AreasAddUp(RowsOf(feed.items));
    RowsOfLength(feed.items);
    forall area ensures |InArea(RowsOf(feed.items), area)| == |Visible(RowsOf(feed.items), sort, Some(area))| {
      ShownCount(RowsOf(feed.items), sort, area);
    }
  }

  lemma {:induction false} NoneInArea(items: seq<Item>, area: Area)
    ensures InArea(RowsOf(items), area) == [] <==> forall i :: 0 <= i < |items| ==> DomainOf(items[i].kind) != area
    decreases |items|
  {
    if items != [] {
      var n := |items| - 1;
      NoneInArea(items[..n], area);
      InAreaOneMore(RowsOf(items[..n]), RowOf(items[n]), area);
      assert RowsOf(items) == RowsOf(items[..n]) + [RowOf(items[n])];
      hide InArea;
      hide RowsOf;
      hide DomainOf;
      FrontAndLast(items);
    }
  }

  /** The last entry of a domain in the coverage of a run says it was evaluated. */
  ghost predicate LastEvaluated(coverage: seq<Coverage>, domain: Area) {
    exists i :: 0 <= i < |coverage| && coverage[i] == Coverage(domain, Evaluated)
      && forall j :: i < j < |coverage| ==> coverage[j].domain != domain
  }

  lemma LastEvaluatedOneMore(coverage: seq<Coverage>, last: Coverage, domain: Area)
    requires last.domain != domain
    ensures LastEvaluated(coverage + [last], domain) <==> LastEvaluated(coverage, domain)
  {
    var longer := coverage + [last];
    if LastEvaluated(coverage, domain) {
      var i :| 0 <= i < |coverage| && coverage[i] == Coverage(domain, Evaluated)
        && forall j :: i < j < |coverage| ==> coverage[j].domain != domain;
      assert longer[i] == Coverage(domain, Evaluated);
    }
    if LastEvaluated(longer, domain) {
      var i :| 0 <= i < |longer| && longer[i] == Coverage(domain, Evaluated)
        && forall j :: i < j < |longer| ==> longer[j].domain != domain;
      assert coverage[i] == Coverage(domain, Evaluated);
      assert forall j :: i < j < |coverage| ==> coverage[j] == longer[j];
    }
  }

  lemma {:induction false} CoverageIsTheLast(coverage: seq<Coverage>, domain: Area)
    ensures CoverageOf(coverage, domain) == Some(Coverage(domain, Evaluated)) <==> LastEvaluated(coverage, domain)
    decreases |coverage|
  {
    if coverage != [] {
      var n := |coverage| - 1;
      if coverage[n].domain == domain {
        if coverage[n].status.Evaluated? {
          assert coverage[n] == Coverage(domain, Evaluated);
        }
      } else {
        CoverageIsTheLast(coverage[..n], domain);
        LastEvaluatedOneMore(coverage[..n], coverage[n], domain);
        FrontAndLast(coverage);
        hide LastEvaluated;
      }
    }
  }

  /** The strip says "clear" of an area exactly when the run evaluated it, was not limited by its data, and found
      nothing there; without a run there is no strip. */
  lemma ClearMeansEvaluatedAndEmpty(feed: Feed, i: nat)
    requires i < 4
    ensures SummaryOf(feed).Some? <==> !feed.state.NotProcessed?
    ensures SummaryOf(feed).Some? ==> |SummaryOf(feed).value| == 4 && SummaryOf(feed).value[i].domain == DOMAIN_ORDER[i]
    ensures SummaryOf(feed).Some? ==> (SummaryOf(feed).value[i].tone.Clear? <==>
              && LastEvaluated(feed.coverage, DOMAIN_ORDER[i]) && !feed.state.DataQualityLimited?
              && (feed.state.ActionRequired? ==> forall k :: 0 <= k < |feed.items| ==> DomainOf(feed.items[k].kind) != DOMAIN_ORDER[i]))
  {
    var domain := DOMAIN_ORDER[i];
    CoverageIsTheLast(feed.coverage, domain);
    CoverageNames(feed.coverage, domain);
    NoneInArea(feed.items, domain);
  }

  lemma {:induction false} CoverageNames(coverage: seq<Coverage>, domain: Area)
    ensures CoverageOf(coverage, domain).Some? ==> CoverageOf(coverage, domain).value.domain == domain
    decreases |coverage|
  {
    if coverage != [] { CoverageNames(coverage[..|coverage| - 1], domain); }
  }
}
