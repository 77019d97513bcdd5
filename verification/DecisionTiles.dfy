/** What the rows of the list and the tiles of the Home say, from the decisions of the feed
    (apps/web/lib/decisions/list-view-model.ts, apps/web/lib/home/domain-summary.ts). */
module DecisionTiles {
  import opened Basics
  import opened DecisionLists

  /** A decision of this kind is about this area. */
  predicate Concerns(kind: DecisionType, area: Area) {
    match area
    case Revenue => kind == RevPickupLow || kind == RevOccupancyRisk
    case Distribution => kind == RevOtaDependency
    case Costs => kind == CostCporAnomaly
    case Labor => kind == LaborOverstaffing
  }

  /** Each row shows its decision, under the area that concerns it, in the order of the feed. */
  lemma {:induction false} RowsAreDecisions(items: seq<Item>, i: nat)
    requires i < |items|
    ensures |RowsOf(items)| == |items|
    ensures var row := RowsOf(items)[i];
            && row == Row(items[i].decisionId, items[i].rank, row.area, items[i].firstSeen)
            && forall area :: Concerns(items[i].kind, area) <==> area == row.area
    decreases |items|
  {
    var n := |items| - 1;
    if n > 0 {
      RowsAreDecisions(items[..n], if i < n then i else 0);
    }
  }

  /** By priority the rows stay as they are; otherwise they are in order, and rows that tie stay as they were. */
  lemma WhatSortingDoes(rows: seq<Row>, sort: Sort)
    ensures sort.Priority? ==> SortRows(rows, sort) == rows
    ensures !sort.Priority? ==> IsStableSort(rows, SortRows(rows, sort), sort)
  {
    SortedIsStable(rows, sort);
    hide IsStableSort;
    hide Sorted;
  }

  /** With an area chosen exactly its rows are shown; with none all are. */
  lemma {:induction false} WhatIsShown(rows: seq<Row>, sort: Sort, area: Area, row: Row)
    ensures Visible(rows, sort, None) == SortRows(rows, sort)
    ensures multiset(Visible(rows, sort, Some(area)))[row] == if row.area == area then multiset(rows)[row] else 0
  {
    FilterCommutesWithSort(rows, sort, area);
    CopiesInArea(rows, area, row);
    WhatSortingDoes(InArea(rows, area), sort);
    hide InArea;
    hide SortRows;
  }

  lemma {:induction false} CopiesInArea(rows: seq<Row>, area: Area, row: Row)
    ensures multiset(InArea(rows, area))[row] == if row.area == area then multiset(rows)[row] else 0
    decreases |rows|
  {
    if rows != [] {
      var front, last := rows[..|rows| - 1], rows[|rows| - 1];
      CopiesInArea(front, area, row);
      FrontAndLast(rows);
      InAreaOneMore(front, last, area);
      hide InArea;
    }
  }

  // ---------------------------------------------------------------------------------------------
  // Tiles
  // ---------------------------------------------------------------------------------------------

  /** The decisions of the feed that concern an area, by where they stand; only a feed that asks for action has any. */
  function Concerning(feed: Feed, area: Area): set<nat> {
    if feed.state.ActionRequired? then Positions(feed.items, area) else {}
  }

  function Positions(items: seq<Item>, area: Area): set<nat> {
    set k: nat | k < |items| && Concerns(items[k].kind, area)
  }

  lemma {:induction false} CountedByPosition(items: seq<Item>, area: Area)
    ensures |InArea(RowsOf(items), area)| == |Positions(items, area)|
    decreases |items|
  {
    if items != [] {
      var n := |items| - 1;
      var front, last := items[..n], items[n];
      CountedByPosition(front, area);
      InAreaOneMore(RowsOf(front), RowOf(last), area);
      assert RowsOf(items) == RowsOf(front) + [RowOf(last)];
      hide InArea;
      hide RowsOf;
      OneMorePosition(items, area);
      hide Positions;
    }
  }

  lemma OneMorePosition(items: seq<Item>, area: Area)
    requires items != []
    ensures var n := |items| - 1;
            |Positions(items, area)| == |Positions(items[..n], area)| + if Concerns(items[n].kind, area) then 1 else 0
  {
    hide Concerns;
    var n := |items| - 1;
    var front, all := Positions(items[..n], area), Positions(items, area);
    forall k: nat ensures k in all <==> k in front || (k == n && Concerns(items[n].kind, area)) {
      if k < n {
        assert items[..n][k] == items[k];
      }
    }
    assert n !in front;
    hide Positions;
    assert all == front + if Concerns(items[n].kind, area) then {n} else {};
  }

  /** The last entry about a domain in the coverage of a run has this status. */
  ghost predicate LastSays(coverage: seq<Coverage>, domain: Area, status: Status) {
    exists i :: 0 <= i < |coverage| && coverage[i] == Coverage(domain, status)
      && forall j :: i < j < |coverage| ==> coverage[j].domain != domain
  }

  ghost predicate NothingSaid(coverage: seq<Coverage>, domain: Area) {
    forall i :: 0 <= i < |coverage| ==> coverage[i].domain != domain
  }

  lemma LastSaysOneMore(coverage: seq<Coverage>, last: Coverage, domain: Area, status: Status)
    requires last.domain != domain
    ensures LastSays(coverage + [last], domain, status) <==> LastSays(coverage, domain, status)
  {
    var longer := coverage + [last];
    if LastSays(coverage, domain, status) {
      var i :| 0 <= i < |coverage| && coverage[i] == Coverage(domain, status)
        && forall j :: i < j < |coverage| ==> coverage[j].domain != domain;
      assert longer[i] == Coverage(domain, status);
    }
    if LastSays(longer, domain, status) {
      var i :| 0 <= i < |longer| && longer[i] == Coverage(domain, status)
        && forall j :: i < j < |longer| ==> longer[j].domain != domain;
      assert coverage[i] == Coverage(domain, status);
      assert forall j :: i < j < |coverage| ==> coverage[j] == longer[j];
    }
  }

  lemma {:induction false} CoverageIs(coverage: seq<Coverage>, domain: Area, status: Status)
    ensures CoverageOf(coverage, domain) == Some(Coverage(domain, status)) <==> LastSays(coverage, domain, status)
    ensures CoverageOf(coverage, domain).None? <==> NothingSaid(coverage, domain)
    decreases |coverage|
  {
    if coverage != [] {
      var n := |coverage| - 1;
      if coverage[n].domain == domain {
        if coverage[n].status == status {
          assert coverage[n] == Coverage(domain, status);
        }
      } else {
        CoverageIs(coverage[..n], domain, status);
        LastSaysOneMore(coverage[..n], coverage[n], domain, status);
        FrontAndLast(coverage);
        hide LastSays;
        assert forall i :: 0 <= i < n ==> coverage[..n][i] == coverage[i];
      }
    }
  }

  /** What a tile says: the number of decisions about its area, if there are any; otherwise that the area was left out, that
      nothing is known of it, that the run could not conclude, or that all is well there. */
  lemma WhatATileSays(feed: Feed, i: nat)
    requires i < 4
    ensures SummaryOf(feed).None? <==> feed.state.NotProcessed?
    ensures SummaryOf(feed).Some? ==>
              var domain := [Revenue, Distribution, Costs, Labor][i];
              var n, tone := |Concerning(feed, domain)|, SummaryOf(feed).value[i].tone;
              && |SummaryOf(feed).value| == 4 && SummaryOf(feed).value[i].domain == domain
              && (n > 0 ==> tone == Attention(n))
              && (n == 0 ==> !tone.Attention?)
              && (n == 0 ==> (tone == Unavailable(true) <==> LastSays(feed.coverage, domain, Skipped)))
              && (n == 0 ==> (tone == Unavailable(false) <==> NothingSaid(feed.coverage, domain)))
              && (n == 0 ==> (tone == Partial <==> LastSays(feed.coverage, domain, Evaluated) && feed.state.DataQualityLimited?))
              && (n == 0 ==> (tone == Clear <==> LastSays(feed.coverage, domain, Evaluated) && !feed.state.DataQualityLimited?))
  {
    var domain := DOMAIN_ORDER[i];
    CountedByPosition(feed.items, domain);
    CoverageIs(feed.coverage, domain, Skipped);
    CoverageIs(feed.coverage, domain, Evaluated);
    CoverageNames(feed.coverage, domain);
    hide InArea;
    hide RowsOf;
    hide Positions;
    hide LastSays;
    hide CoverageOf;
  }
}
