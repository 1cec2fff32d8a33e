/**
 * The statistics summary (`create_stats_section`): six counters computed
 * from the runs and their iterations, and their rendering as a block of
 * labelled values.
 */
module Statistics {
  import opened Options
  import opened Records
  import opened Decimal
  import opened Template

  /** Python's `sum(f(x) for x in xs)`, accumulated left to right. */
  function Sum<T>(xs: seq<T>, f: T -> int): int {
    if xs == [] then 0 else Sum(xs[..|xs| - 1], f) + f(xs[|xs| - 1])
  }

  lemma {:induction false} SumAppend<T>(a: seq<T>, b: seq<T>, f: T -> int)
    ensures Sum(a + b, f) == Sum(a, f) + Sum(b, f)
    decreases |b|
  {
    if b == [] {
      assert a + b == a;
    } else {
      assert (a + b)[..|a + b| - 1] == a + b[..|b| - 1];
      SumAppend(a, b[..|b| - 1], f);
    }
  }

  /** A sum of zeros and ones lies between zero and the number of terms. */
  lemma {:induction false} SumOfFlagsBounded<T>(xs: seq<T>, f: T -> int)
    requires forall x :: f(x) == 0 || f(x) == 1
    ensures 0 <= Sum(xs, f) <= |xs|
  {
    if xs != [] {
      SumOfFlagsBounded(xs[..|xs| - 1], f);
    }
  }

  function FailedFlag(r: Run): int { if r.Failed() then 1 else 0 }

  function IterationsLength(r: Run): int { |r.Iterations()| }

  function CorrectOf(it: Iteration): int { it.Correct() }

  function ErrorsOf(it: Iteration): int { it.Errors() }

  function RunCorrect(r: Run): int { Sum(r.Iterations(), CorrectOf) }

  function RunErrors(r: Run): int { Sum(r.Iterations(), ErrorsOf) }

  /** All iterations of all runs, run by run, each run's in its own order. */
  function AllIterations(runs: seq<Run>): seq<Iteration> {
    if runs == [] then [] else AllIterations(runs[..|runs| - 1]) + runs[|runs| - 1].Iterations()
  }

  /** The positions of the runs counted as failed. */
  function FailedPositions(runs: seq<Run>): set<int> {
    set i | 0 <= i < |runs| && runs[i].Failed()
  }

  lemma {:induction false} FailedSumIsFailedPositions(runs: seq<Run>)
    ensures Sum(runs, FailedFlag) == |FailedPositions(runs)|
  {
    if runs != [] {
      var init := runs[..|runs| - 1];
      FailedSumIsFailedPositions(init);
      var last := |runs| - 1;
      if runs[last].Failed() {
        assert FailedPositions(runs) == FailedPositions(init) + {last};
      } else {
        assert FailedPositions(runs) == FailedPositions(init);
      }
    }
  }

  /** Summing per-run subtotals equals summing over the flattened iteration list. */
  lemma {:induction false} SumOverAllIterations(runs: seq<Run>, g: Iteration -> int, h: Run -> int)
    requires forall r :: h(r) == Sum(r.Iterations(), g)
    ensures Sum(AllIterations(runs), g) == Sum(runs, h)
  {
    if runs != [] {
      var init := runs[..|runs| - 1];
      SumOverAllIterations(init, g, h);
      SumAppend(AllIterations(init), runs[|runs| - 1].Iterations(), g);
    }
  }

  lemma {:induction false} IterationsLengthIsAllIterations(runs: seq<Run>)
    ensures Sum(runs, IterationsLength) == |AllIterations(runs)|
  {
    if runs != [] {
      IterationsLengthIsAllIterations(runs[..|runs| - 1]);
    }
  }

  /** The six counters of the summary. */
  datatype Stats = Stats(
    totalRuns: int,
    successfulRuns: int,
    failedRuns: int,
    totalIterations: int,
    totalCorrect: int,
    totalErrors: int)
  {
    function Plus(other: Stats): Stats {
      Stats(totalRuns + other.totalRuns, successfulRuns + other.successfulRuns,
            failedRuns + other.failedRuns, totalIterations + other.totalIterations,
            totalCorrect + other.totalCorrect, totalErrors + other.totalErrors)
    }
  }

  /**
   * The counters as `create_stats_section` computes them: failed runs are those whose
   * status is `failed`, every other run is successful, iterations are counted
   * over the runs' lists and the correct/error counters summed with 0 for a
   * missing counter.
   */
  function RunStats(runs: seq<Run>): (st: Stats)
    ensures st.totalRuns == |runs|
    ensures st.failedRuns == |FailedPositions(runs)|
    ensures 0 <= st.failedRuns <= st.totalRuns
    ensures st.successfulRuns + st.failedRuns == st.totalRuns
    ensures st.totalIterations == |AllIterations(runs)|
    ensures st.totalCorrect == Sum(AllIterations(runs), CorrectOf)
    ensures st.totalErrors == Sum(AllIterations(runs), ErrorsOf)
  {
    FailedSumIsFailedPositions(runs);
    SumOfFlagsBounded(runs, FailedFlag);
    IterationsLengthIsAllIterations(runs);
    SumOverAllIterations(runs, CorrectOf, RunCorrect);
    SumOverAllIterations(runs, ErrorsOf, RunErrors);
    var failed := Sum(runs, FailedFlag);
    Stats(|runs|, |runs| - failed, failed, Sum(runs, IterationsLength),
          Sum(runs, RunCorrect), Sum(runs, RunErrors))
  }

  /** `create_stats_section`'s counters for a whole document; a missing run list counts as empty. */
  function ComputeStats(d: Document): Stats {
    RunStats(d.Runs())
  }

  /** The summary of a concatenation of run lists is the sum of the two summaries. */
  lemma RunStatsAppend(a: seq<Run>, b: seq<Run>)
    ensures RunStats(a + b) == RunStats(a).Plus(RunStats(b))
  {
    SumAppend(a, b, FailedFlag);
    SumAppend(a, b, IterationsLength);
    SumAppend(a, b, RunCorrect);
    SumAppend(a, b, RunErrors);
  }

  /** The counter labels, in display order. */
  const StatLabels: seq<string> :=
    ["Total Runs", "Successful Runs", "Failed Runs", "Total Iterations", "Total Correct", "Total Errors"]

  function StatItemOpen(name: string): string {
    "\n            <div class=\"stat-item\">\n                <div class=\"stat-label\">" + name
      + "</div>\n                <div class=\"stat-value\">"
  }

  const StatItemClose: string := "</div>\n            </div>"

  /** The literal text of `create_stats_section` between the six counter values. */
  function StatsLiterals(): seq<string> {
    ["\n        <div class=\"stats\">" + StatItemOpen(StatLabels[0])]
      + seq(5, i requires 0 <= i < 5 => StatItemClose + StatItemOpen(StatLabels[i + 1]))
      + [StatItemClose + "\n        </div>"]
  }

  function StatValues(st: Stats): seq<string> {
    [IntToString(st.totalRuns), IntToString(st.successfulRuns), IntToString(st.failedRuns),
     IntToString(st.totalIterations), IntToString(st.totalCorrect), IntToString(st.totalErrors)]
  }

  /** The statistics block as the source builds it. */
  function StatsHtml(st: Stats): string {
    Fill(StatsLiterals(), StatValues(st))
  }

  /** Reads the six counters back from a statistics block, in display order. */
  function ReadStats(html: string): Option<Stats> {
    match Unfill(StatsLiterals(), html)
    case None => None
    case Some(vs) =>
      StatsOfValues(vs)
  }

  /** The counters named by six decimal texts, or `None` when one of them is not a number. */
  function StatsOfValues(vs: seq<string>): Option<Stats> {
    if |vs| != 6 then None
    else match (ParseInt(vs[0]), ParseInt(vs[1]), ParseInt(vs[2]), ParseInt(vs[3]), ParseInt(vs[4]), ParseInt(vs[5]))
      case (Some(a), Some(b), Some(c), Some(d), Some(e), Some(f)) => Some(Stats(a, b, c, d, e, f))
      case _ => None
  }

  lemma StatsLiteralsDelimited()
    ensures |StatsLiterals()| == 7 && Delimited(StatsLiterals())
  {
    var lits := StatsLiterals();
    forall i | 1 <= i < |lits| ensures lits[i] != [] && lits[i][0] == '<' {
      assert lits[i][..|StatItemClose|] == StatItemClose;
    }
  }

  /** The rendered block carries each counter after its own label, in the fixed order, recoverably. */
  lemma StatsRoundTrip(st: Stats)
    ensures ReadStats(StatsHtml(st)) == Some(st)
  {
    var vals := StatValues(st);
    forall i | 0 <= i < |vals| ensures '<' !in vals[i] {
    }
    StatsLiteralsDelimited();
    FillUnfill(StatsLiterals(), vals);
    assert Unfill(StatsLiterals(), StatsHtml(st)) == Some(vals);
    IntRoundTrip(st.totalRuns);
    IntRoundTrip(st.successfulRuns);
    IntRoundTrip(st.failedRuns);
    IntRoundTrip(st.totalIterations);
    IntRoundTrip(st.totalCorrect);
    IntRoundTrip(st.totalErrors);
  }
}
