/** The thresholds the coverage gate applies to a report. */
module GateVerdict {
  import opened CoverageGate
  import GoProfile

  const SLACK: real := 0.000000001
  const HALF_STEP: real := 0.00005

  /** round(x, 4): within half a unit of the fourth decimal. */
  ghost predicate RoundsToFour(round: real -> real) {
    forall x :: -HALF_STEP <= round(x) - x <= HALF_STEP
  }

  function Percent(count: Count): real {
    if count.statements == 0 then 100.0 else count.covered as real * 100.0 / count.statements as real
  }

  /** The percentage is the covered share; where there is nothing to cover, all is covered. */
  lemma PercentIsTheShare(count: Count)
    ensures if count.statements == 0 then Percent(count) == 100.0
            else Percent(count) * count.statements as real == 100.0 * count.covered as real
  {
  }

  datatype PackageRow = PackageRow(package: string, count: Count)

  datatype Failure = OverallLow | PackageLow(package: string)

  predicate Below(percent: real, minimum: real) {
    percent + SLACK < minimum
  }

  ghost predicate Applies(row: PackageRow) {
    row.count.statements > 0
  }

  method EvaluateGo(round: real -> real, overall: Count, rows: seq<PackageRow>, overallMinimum: real, packageMinimum: real)
    returns (failures: seq<Failure>)
    requires RoundsToFour(round)
    ensures OverallLow in failures <==> Below(round(Percent(overall)), overallMinimum)
    ensures forall p :: PackageLow(p) in failures <==>
              exists row :: row in rows && row.package == p && Applies(row) && Below(round(Percent(row.count)), packageMinimum)
    ensures failures == [] ==> Percent(overall) >= overallMinimum - HALF_STEP - SLACK
    ensures failures == [] ==> forall row :: row in rows && Applies(row) ==> Percent(row.count) >= packageMinimum - HALF_STEP - SLACK
    ensures Percent(overall) >= overallMinimum + HALF_STEP - SLACK
            && (forall row :: row in rows && Applies(row) ==> Percent(row.count) >= packageMinimum + HALF_STEP - SLACK)
            ==> failures == []
  {
    failures := [];
    assert -HALF_STEP <= round(Percent(overall)) - Percent(overall) <= HALF_STEP;
    if Below(round(Percent(overall)), overallMinimum) {
      failures := [OverallLow];
    }
    for i := 0 to |rows|
      invariant OverallLow in failures <==> Below(round(Percent(overall)), overallMinimum)
      invariant forall p :: PackageLow(p) in failures <==>
                  exists row :: row in rows[..i] && row.package == p && Applies(row) && Below(round(Percent(row.count)), packageMinimum)
    {
      var row := rows[i];
      assert rows[..i + 1] == rows[..i] + [row];
      if row.count.statements > 0 && Below(round(Percent(row.count)), packageMinimum) {
        failures := failures + [PackageLow(row.package)];
      }
    }
    assert rows[..|rows|] == rows;
    if failures == [] {
      assert !Below(round(Percent(overall)), overallMinimum);
      forall row | row in rows && Applies(row) ensures Percent(row.count) >= packageMinimum - HALF_STEP - SLACK {
        assert PackageLow(row.package) !in failures;
        assert round(Percent(row.count)) - Percent(row.count) <= HALF_STEP;
      }
    } else {
      assert failures[0] in failures;
      if failures[0].PackageLow? {
        ghost var row :| row in rows && row.package == failures[0].package && Applies(row)
                         && Below(round(Percent(row.count)), packageMinimum);
        assert -HALF_STEP <= round(Percent(row.count)) - Percent(row.count);
      }
    }
  }

  /** The rounded verdict differs from the exact comparison only in a narrow band. */
  lemma RoundedVerdictIsNearlyExact(round: real -> real, percent: real, minimum: real)
    requires RoundsToFour(round) && (Below(round(percent), minimum) <==> percent >= minimum)
    ensures -HALF_STEP - SLACK <= percent - minimum <= HALF_STEP + SLACK
  {
  }

  // ---- Packages against the whole ----

  predicate Reaches(count: Count, m: real) {
    count.covered as real * 100.0 >= m * count.statements as real
  }

  lemma ReachesIsPercent(count: Count, m: real)
    requires count.statements > 0
    ensures Reaches(count, m) <==> Percent(count) >= m
  {
  }

  lemma {:induction false} SumsReach(counts: map<string, Count>, packages: seq<string>, m: real)
    requires forall p :: p in packages ==> p in counts && (counts[p].statements > 0 ==> Reaches(counts[p], m))
    requires forall p :: p in packages ==> counts[p].covered <= counts[p].statements
    ensures Reaches(SumCounts(counts, packages), m)
    decreases |packages|
  {
    if packages != [] {
      var front, last := packages[..|packages| - 1], packages[|packages| - 1];
      assert packages == front + [last];
      SumsReach(counts, front, m);
      var a, b := SumCounts(counts, front), counts[last];
      assert b.statements == 0 ==> Reaches(b, m);
      assert m * (a.statements as real + b.statements as real) == m * a.statements as real + m * b.statements as real;
    }
  }

  /** If every package with statements reaches m percent, so does the whole. */
  lemma PackageMinimumCarriesOver(sources: Sources, lines: seq<string>, report: Report, m: real)
    requires sources.Valid() && Summarizes(sources, lines, report)
    requires forall i, j :: 0 <= i < j < |sources.packages| ==> sources.packages[i] != sources.packages[j]
    requires forall p :: p in sources.packages && report.sums.packages[p].statements > 0 ==> Percent(report.sums.packages[p]) >= m
    ensures Percent(Count(report.sums.covered, report.sums.statements)) >= m
  {
    PackageCountsAddUp(sources, lines, report);
    forall p | p in sources.packages
      ensures report.sums.packages[p].covered <= report.sums.packages[p].statements
      ensures report.sums.packages[p].statements > 0 ==> Reaches(report.sums.packages[p], m)
    {
      CoveredIsPart(sources, report.blocks, p);
      if report.sums.packages[p].statements > 0 {
        ReachesIsPercent(report.sums.packages[p], m);
      }
    }
    SumsReach(report.sums.packages, sources.packages, m);
    ReachesIsPercent(Count(report.sums.covered, report.sums.statements), m);
  }

  lemma CoveredIsPart(sources: Sources, blocks: map<GoProfile.Block, bool>, p: string)
    ensures CountOf(sources, blocks.Keys, CoveredIn(blocks), p).covered <= CountOf(sources, blocks.Keys, CoveredIn(blocks), p).statements
  {
    GoProfile.TotalSplits(OwnedBy(blocks.Keys, sources, p), OwnedBy(CoveredIn(blocks), sources, p));
  }
}
