/** What a reconciliation says of the provider's lines and the ledger's rows, told row by row. */
module ReconciliationMeaning {
  import opened Money
  import opened Tables
  import opened Reconciliation

  // ---------------------------------------------------------------- rows, days and refusals

  /** Live proxy traffic under the declaration the snapshot was pulled for, inside its period. */
  ghost predicate InScope(run: Run, row: Row) {
    && row.provider == "openai" && row.via == "proxy" && row.capture == "declared_unverified"
    && row.scope == Some(run.scope) && run.periodStart <= row.at && row.at < run.periodEnd
  }

  /** The UTC day that begins here holds the row. */
  ghost predicate OnDay(row: Row, day: int) { day % 86_400_000 == 0 && day <= row.at && row.at < day + 86_400_000 }

  /** Why an in-scope row cannot be compared. */
  ghost predicate Stops(row: Row, why: Refusal) {
    && row.amount.Exact?
    && ((why == LocalNotUsd && row.amount.currency != "USD")
        || (why == LocalNeedsQuantization && row.amount.currency == "USD" && row.amount.micros == None))
  }

  lemma DayHolds(row: Row, day: int)
    ensures DayStart(row.at) == day <==> OnDay(row, day)
  {
    DayFloor(row.at, day);
  }

  lemma DayFloor(at: int, day: int)
    ensures DayStart(at) % DAY == 0 && DayStart(at) <= at < DayStart(at) + DAY
    ensures DayStart(at) == day <==> day % DAY == 0 && day <= at < day + DAY
  {
    if day % DAY == 0 && day <= at < day + DAY {
      SameQuotient(at / DAY, day / DAY, at % DAY, at);
    }
  }

  lemma SameQuotient(q: int, k: int, rest: int, at: int)
    requires at == q * DAY + rest && 0 <= rest < DAY && k * DAY <= at < k * DAY + DAY
    ensures q == k
  {
    assert (q - k) * DAY < DAY && (k - q) * DAY < DAY;
  }

  /** The refusals decided before any row is looked at, in this order. */
  ghost predicate RefusedEarly(run: Run, lines: seq<Line>, now: int, why: Refusal) {
    var observed := run.succeeded && run.paginationComplete;
    var settled := observed && run.periodEnd <= now - 172_800_000;
    var mixed := exists a, b :: a in lines && b in lines && a.currency != b.currency;
    match why
    case NoProviderObservation => !observed
    case MayStillAccrue => observed && !settled
    case MultipleCurrencies => settled && mixed
    case CurrencyNotUsd => settled && !mixed && exists a :: a in lines && a.currency != "USD"
    case _ => false
  }

  lemma {:induction false} AtMostOne<T>(s: set<T>, x: T)
    requires x in s
    ensures |s| > 1 <==> exists y :: y in s && y != x
  {
    if y :| y in s && y != x {
      assert {x, y} <= s;
      Subset({x, y}, s);
      assert |{x, y}| == 2;
    } else {
      assert s == {x};
    }
  }

  lemma {:induction false} Subset<T>(a: set<T>, b: set<T>)
    requires a <= b
    ensures |a| <= |b|
    decreases a
  {
    if a != {} {
      var x :| x in a;
      Subset(a - {x}, b - {x});
    }
  }

  lemma RefusedEarlyExactly(run: Run, lines: seq<Line>, now: int)
    ensures forall why :: RefusedEarly(run, lines, now, why) <==> EarlyRefusal(run, lines, now) == Some(why)
  {
    if lines == [] {
      assert Currencies(lines) == {};
    } else {
      var x := lines[0].currency;
      assert x in Currencies(lines) && lines[0] in lines;
      AtMostOne(Currencies(lines), x);
      if y :| y in Currencies(lines) && y != x {
        var k :| 0 <= k < |lines| && lines[k].currency == y;
        assert lines[k] in lines;
      } else {
        forall a | a in lines ensures a.currency == x {
          var k :| 0 <= k < |lines| && lines[k] == a;
          assert a.currency in Currencies(lines);
        }
        assert Currencies(lines) == {x};
      }
    }
  }

  // ---------------------------------------------------------------- sums

  ghost function OfLine(day: int): Line -> real { (l: Line) => if l.day == day then l.micros as real else 0.0 }

  ghost function AnyLine(): Line -> real { (l: Line) => l.micros as real }

  ghost function Amount(row: Row): real {
    if row.amount.RateCard? then row.amount.estimate as real
    else if row.amount.micros.Some? then row.amount.micros.value as real
    else 0.0
  }

  ghost function OfRow(run: Run, day: int): Row -> real {
    (row: Row) => if InScope(run, row) && OnDay(row, day) then Amount(row) else 0.0
  }

  ghost function AnyRow(run: Run): Row -> real { (row: Row) => if InScope(run, row) then Amount(row) else 0.0 }

  ghost function OneRow(run: Run, day: int): Row -> real {
    (row: Row) => if InScope(run, row) && OnDay(row, day) then 1.0 else 0.0
  }

  lemma LinesPush(lines: seq<Line>, l: Line, day: int)
    ensures LinesOn(lines + [l], day) == LinesOn(lines, day) + if l.day == day then [l] else []
    ensures SumLines(lines + [l]) == SumLines(lines) + l.micros
    ensures forall f: Line -> real :: Total(f, lines + [l]) == Total(f, lines) + f(l)
  {
    assert (lines + [l])[..|lines|] == lines;
  }

  lemma {:induction false} LinesAddUp(lines: seq<Line>, day: int)
    ensures SumLines(LinesOn(lines, day)) as real == Total(OfLine(day), lines)
    ensures SumLines(lines) as real == Total(AnyLine(), lines)
    ensures forall l :: l in LinesOn(lines, day) <==> l in lines && l.day == day
    decreases |lines|
  {
    if lines != [] {
      var n := |lines| - 1;
      LinesAddUp(lines[..n], day);
      assert lines == lines[..n] + [lines[n]];
      LinesPush(lines[..n], lines[n], day);
      LinesPush(LinesOn(lines[..n], day), lines[n], day);
      assert LinesOn(lines[..n], day) + [] == LinesOn(lines[..n], day);
      hide LinesOn, SumLines, Total;
    }
  }

  lemma CountsInScope(run: Run, row: Row)
    ensures Counts(run, row) <==> InScope(run, row)
    ensures Captured(row) as real == Amount(row)
  {
  }

  /** What one more row adds on either side. */
  lemma RowPush(run: Run, rows: seq<Row>, row: Row, day: int)
    ensures LocalTotal(Counted(run, rows + [row]))
         == LocalTotal(Counted(run, rows)) + if InScope(run, row) then Captured(row) else 0
    ensures LocalOn(Counted(run, rows + [row]), day)
         == LocalOn(Counted(run, rows), day) + if InScope(run, row) && OnDay(row, day) then Captured(row) else 0
    ensures RequestsOn(Counted(run, rows + [row]), day)
         == RequestsOn(Counted(run, rows), day) + if InScope(run, row) && OnDay(row, day) then 1 else 0
  {
    hide InScope, Counts, OnDay, DayStart, Captured;
    CountsInScope(run, row);
    DayHolds(row, day);
    CountedPush(run, rows, row);
    LocalPush(Counted(run, rows), row);
    assert Counted(run, rows) + [] == Counted(run, rows);
    hide LocalOn, RequestsOn, LocalTotal, Counted;
  }

  lemma RowAdds(run: Run, row: Row, day: int)
    ensures AnyRow(run)(row) == (if InScope(run, row) then Captured(row) else 0) as real
    ensures OfRow(run, day)(row) == (if InScope(run, row) && OnDay(row, day) then Captured(row) else 0) as real
    ensures OneRow(run, day)(row) == (if InScope(run, row) && OnDay(row, day) then 1 else 0) as real
  {
    CountsInScope(run, row);
    hide InScope, OnDay, Captured, Amount;
  }

  lemma {:induction false} AmountsAddUp(run: Run, rows: seq<Row>, day: int)
    ensures LocalOn(Counted(run, rows), day) as real == Total(OfRow(run, day), rows)
    decreases |rows|
  {
    if rows != [] {
      var n := |rows| - 1;
      assert rows == rows[..n] + [rows[n]];
      hide InScope, OnDay, Captured, LocalOn, RequestsOn, LocalTotal, Counted, OfRow, OneRow, AnyRow;
      AmountsAddUp(run, rows[..n], day);
      RowPush(run, rows[..n], rows[n], day);
      RowAdds(run, rows[n], day);
    }
  }

  lemma {:induction false} RequestsAddUp(run: Run, rows: seq<Row>, day: int)
    ensures RequestsOn(Counted(run, rows), day) as real == Total(OneRow(run, day), rows)
    decreases |rows|
  {
    if rows != [] {
      var n := |rows| - 1;
      assert rows == rows[..n] + [rows[n]];
      hide InScope, OnDay, Captured, LocalOn, RequestsOn, LocalTotal, Counted, OfRow, OneRow, AnyRow;
      RequestsAddUp(run, rows[..n], day);
      RowPush(run, rows[..n], rows[n], day);
      RowAdds(run, rows[n], day);
    }
  }

  lemma {:induction false} WholeAddsUp(run: Run, rows: seq<Row>)
    ensures LocalTotal(Counted(run, rows)) as real == Total(AnyRow(run), rows)
    decreases |rows|
  {
    if rows != [] {
      var n := |rows| - 1;
      assert rows == rows[..n] + [rows[n]];
      hide InScope, OnDay, Captured, LocalOn, RequestsOn, LocalTotal, Counted, OfRow, OneRow, AnyRow;
      WholeAddsUp(run, rows[..n]);
      RowPush(run, rows[..n], rows[n], 0);
      RowAdds(run, rows[n], 0);
    }
  }

  lemma RowsAddUp(run: Run, rows: seq<Row>, day: int)
    ensures LocalOn(Counted(run, rows), day) as real == Total(OfRow(run, day), rows)
    ensures RequestsOn(Counted(run, rows), day) as real == Total(OneRow(run, day), rows)
    ensures LocalTotal(Counted(run, rows)) as real == Total(AnyRow(run), rows)
  {
    AmountsAddUp(run, rows, day);
    RequestsAddUp(run, rows, day);
    WholeAddsUp(run, rows);
  }

  lemma {:induction false} SomeRowCounts(run: Run, rows: seq<Row>, day: int)
    ensures RequestsOn(Counted(run, rows), day) > 0 <==> exists x :: x in rows && InScope(run, x) && OnDay(x, day)
    decreases |rows|
  {
    if rows != [] {
      var n := |rows| - 1;
      assert rows == rows[..n] + [rows[n]];
      hide InScope, OnDay, RequestsOn, Counted;
      SomeRowCounts(run, rows[..n], day);
      RowPush(run, rows[..n], rows[n], day);
    }
  }

  // ---------------------------------------------------------------- what a report says

  /** The provider lists something on the day, the ledger holds an in-scope row of it. */
  ghost predicate Listed(lines: seq<Line>, day: int) { exists l :: l in lines && l.day == day }

  ghost predicate Metered(run: Run, rows: seq<Row>, day: int) {
    exists x :: x in rows && InScope(run, x) && OnDay(x, day)
  }

  /** A day's line compares the sum of its provider lines with the sum of its rows. */
  ghost predicate DaySays(run: Run, lines: seq<Line>, rows: seq<Row>, materiality: int, d: DayLine) {
    && d.provider as real == Total(OfLine(d.day), lines)
    && d.local as real == Total(OfRow(run, d.day), rows)
    && d.requests as real == Total(OneRow(run, d.day), rows)
    && (d.material <==> d.provider > d.local + materiality || d.local > d.provider + materiality)
    && (forall item :: item in d.items <==> exists l :: l in lines && l.day == d.day && l.item == item)
    && (d.reason == NoLocal <==> !Metered(run, rows, d.day))
    && (d.reason == NoProvider <==> Metered(run, rows, d.day) && !Listed(lines, d.day))
    && (d.reason == ExactMatch <==>
          Metered(run, rows, d.day) && Listed(lines, d.day) && d.provider == d.local)
    && (d.reason == ProviderExceeds <==>
          Metered(run, rows, d.day) && Listed(lines, d.day) && d.provider > d.local)
    && (d.reason == LocalExceeds <==>
          Metered(run, rows, d.day) && Listed(lines, d.day) && d.provider < d.local)
  }

  /** How many days of a report are of a kind. */
  ghost function DaysWith(run: Run, lines: seq<Line>, rows: seq<Row>, listed: bool, metered: bool): DayLine -> real {
    (d: DayLine) => if Listed(lines, d.day) == listed && Metered(run, rows, d.day) == metered then 1.0 else 0.0
  }

  ghost function IsMaterial(): DayLine -> real { (d: DayLine) => if d.material then 1.0 else 0.0 }

  ghost predicate ReportSays(run: Run, lines: seq<Line>, rows: seq<Row>, prunedBefore: Option<int>, materiality: int,
                             r: Result) {
    && r.Reconciled?
    && (forall j, k :: 0 <= j < k < |r.days| ==> r.days[j].day < r.days[k].day)
    && (forall day :: (exists k :: 0 <= k < |r.days| && r.days[k].day == day)
                      <==> Listed(lines, day) || Metered(run, rows, day))
    && (forall k :: 0 <= k < |r.days| ==> DaySays(run, lines, rows, materiality, r.days[k]))
    && r.providerTotal as real == Total(AnyLine(), lines) && r.localTotal as real == Total(AnyRow(run), rows)
    && (r.bound == NoneLocalExceeds <==> r.providerTotal < r.localTotal)
    && (r.bound == UnknownTruncated <==>
          r.localTotal <= r.providerTotal && prunedBefore.Some? && run.periodStart < prunedBefore.value)
    && r.coverage.both as real == Total(DaysWith(run, lines, rows, true, true), r.days)
    && r.coverage.providerOnly as real == Total(DaysWith(run, lines, rows, true, false), r.days)
    && r.coverage.localOnly as real == Total(DaysWith(run, lines, rows, false, true), r.days)
    && r.coverage.providerDays == r.coverage.both + r.coverage.providerOnly
    && r.coverage.localDays == r.coverage.both + r.coverage.localOnly
    && r.coverage.material as real == Total(IsMaterial(), r.days)
  }

  lemma ActiveMeans(run: Run, lines: seq<Line>, rows: seq<Row>, day: int)
    ensures LinesOn(lines, day) != [] <==> Listed(lines, day)
    ensures RequestsOn(Counted(run, rows), day) > 0 <==> Metered(run, rows, day)
  {
    hide LinesOn, RequestsOn, Counted, InScope, OnDay;
    LinesAddUp(lines, day);
    SomeRowCounts(run, rows, day);
    if LinesOn(lines, day) != [] {
      assert LinesOn(lines, day)[0] in LinesOn(lines, day);
    }
  }

  lemma DayLineSays(run: Run, lines: seq<Line>, rows: seq<Row>, materiality: int, day: int)
    ensures DaySays(run, lines, rows, materiality, DayLineOf(lines, Counted(run, rows), materiality, day))
  {
    hide LinesOn, RequestsOn, Counted, InScope, OnDay, SumLines, LocalOn, Metered, Listed;
    ActiveMeans(run, lines, rows, day);
    LinesAddUp(lines, day);
    RowsAddUp(run, rows, day);
    var d, onDay := DayLineOf(lines, Counted(run, rows), materiality, day), LinesOn(lines, day);
    forall item ensures item in d.items <==> exists l :: l in lines && l.day == day && l.item == item {
      if l :| l in lines && l.day == day && l.item == item {
        var k :| 0 <= k < |onDay| && onDay[k] == l;
      }
      if item in d.items {
        var k :| 0 <= k < |onDay| && onDay[k].item == item;
        assert onDay[k] in onDay;
      }
    }
  }

  lemma {:induction false} CountsMean(run: Run, lines: seq<Line>, rows: seq<Row>, days: seq<DayLine>, p: bool, l: bool)
    ensures Count(lines, Counted(run, rows), DaysOf(days), p, l) as real
         == Total(DaysWith(run, lines, rows, p, l), days)
    ensures Material(days) as real == Total(IsMaterial(), days)
    decreases |days|
  {
    if days != [] {
      hide LinesOn, RequestsOn, Counted, Listed, Metered;
      var n := |days| - 1;
      CountsMean(run, lines, rows, days[..n], p, l);
      ActiveMeans(run, lines, rows, days[n].day);
      assert DaysOf(days)[..n] == DaysOf(days[..n]);
    }
  }

  lemma ReportIsSaid(run: Run, lines: seq<Line>, rows: seq<Row>, prunedBefore: Option<int>, materiality: int, r: Result)
    requires Reports(lines, Counted(run, rows), Truncated(run, prunedBefore), materiality, r)
    ensures ReportSays(run, lines, rows, prunedBefore, materiality, r)
  {
    hide LinesOn, RequestsOn, Counted, Listed, Metered, DayLineOf, DaySays, Count, Material, SumLines, LocalTotal,
         Total, DaysOf, AnyRow, DaysWith;
    forall day ensures (exists k :: 0 <= k < |r.days| && r.days[k].day == day)
                       <==> Listed(lines, day) || Metered(run, rows, day)
    {
      ActiveMeans(run, lines, rows, day);
      assert Active(lines, Counted(run, rows), day) <==> exists k :: 0 <= k < |r.days| && r.days[k].day == day;
    }
    forall k | 0 <= k < |r.days| ensures DaySays(run, lines, rows, materiality, r.days[k]) {
      DayLineSays(run, lines, rows, materiality, r.days[k].day);
    }
    LinesAddUp(lines, 0);
    RowsAddUp(run, rows, 0);
    CountsMean(run, lines, rows, r.days, true, true);
    CountsMean(run, lines, rows, r.days, true, false);
    CountsMean(run, lines, rows, r.days, false, true);
  }

  // ---------------------------------------------------------------- the whole result

  /** The first in-scope row that cannot be compared is this one. */
  ghost predicate FirstStop(run: Run, rows: seq<Row>, why: Refusal) {
    exists i :: 0 <= i < |rows| && InScope(run, rows[i]) && Stops(rows[i], why)
                && forall j :: 0 <= j < i && InScope(run, rows[j]) ==> !exists w :: Stops(rows[j], w)
  }

  ghost predicate NoStop(run: Run, rows: seq<Row>) {
    forall i :: 0 <= i < |rows| && InScope(run, rows[i]) ==> !exists w :: Stops(rows[i], w)
  }

  lemma StopsExactly(row: Row)
    ensures forall why :: Stops(row, why) <==> Problem(row) == Some(why)
    ensures Problem(row).Some? <==> exists w :: Stops(row, w)
  {
    if Problem(row).Some? {
      assert Stops(row, Problem(row).value);
    }
  }

  lemma StopPush(run: Run, rows: seq<Row>, row: Row)
    ensures NoStop(run, rows + [row]) <==> NoStop(run, rows) && (InScope(run, row) ==> Problem(row) == None)
    ensures forall why :: FirstStop(run, rows, why) ==> FirstStop(run, rows + [row], why)
    ensures forall why :: NoStop(run, rows) && InScope(run, row) && Problem(row) == Some(why)
                          ==> FirstStop(run, rows + [row], why)
  {
    hide InScope, Stops, Problem;
    StopsExactly(row);
    var longer := rows + [row];
    assert forall i :: 0 <= i < |rows| ==> longer[i] == rows[i];
    assert longer[|rows|] == row;
  }

  lemma {:induction false} FirstProblemStops(run: Run, rows: seq<Row>)
    ensures match FirstProblem(Counted(run, rows))
            case None => NoStop(run, rows)
            case Some(why) => FirstStop(run, rows, why)
    decreases |rows|
  {
    if rows != [] {
      hide InScope, Stops, Problem, Counts, NoStop, FirstStop;
      var n := |rows| - 1;
      FirstProblemStops(run, rows[..n]);
      CountsInScope(run, rows[n]);
      StopPush(run, rows[..n], rows[n]);
      assert rows == rows[..n] + [rows[n]];
      CountedPush(run, rows[..n], rows[n]);
      var before := Counted(run, rows[..n]);
      assert (before + [rows[n]])[..|before|] == before && before + [] == before;
    }
  }

  lemma NotBothStop(run: Run, rows: seq<Row>, why: Refusal)
    requires FirstStop(run, rows, why)
    ensures !NoStop(run, rows)
    ensures forall w :: FirstStop(run, rows, w) ==> w == why
  {
    hide InScope;
  }

  /** What a run concludes, exactly: the early refusals in their order, then the first row in scope that
      cannot be compared, and otherwise the report, told by the lines and the rows themselves. */
  lemma ConclusionSays(run: Run, lines: seq<Line>, rows: seq<Row>, prunedBefore: Option<int>, materiality: int,
                       now: int, r: Result)
    requires Concludes(run, lines, rows, prunedBefore, materiality, now, r)
    ensures forall why :: r == Refused(why) <==>
              RefusedEarly(run, lines, now, why)
              || (!(exists w :: RefusedEarly(run, lines, now, w)) && FirstStop(run, rows, why))
    ensures r.Reconciled? ==> ReportSays(run, lines, rows, prunedBefore, materiality, r)
  {
    hide EarlyRefusal, RefusedEarly, FirstProblem, Counted, FirstStop, NoStop, ReportSays;
    RefusedEarlyExactly(run, lines, now);
    FirstProblemStops(run, rows);
    var early := EarlyRefusal(run, lines, now);
    if early.Some? {
      assert RefusedEarly(run, lines, now, early.value);
    } else {
      forall why | FirstStop(run, rows, why) ensures !NoStop(run, rows) && r == Refused(why) {
        NotBothStop(run, rows, why);
      }
      if FirstProblem(Counted(run, rows)) == None {
        ReportIsSaid(run, lines, rows, prunedBefore, materiality, r);
      }
    }
  }
}
