/**
 * The block structure the renderer promises, stated directly on the input
 * record: which blocks each section opens, and in what order.
 */
module Layout {
  import opened Options
  import opened Records
  import opened Pieces

  /** Metadata items in the fixed order problem statement, timestamp, model, each only for a present key. */
  function MetadataOutline(m: Metadata): (bs: seq<Block>)
    ensures forall b :: b in bs ==> b.InMetadata()
  {
    [MetadataBlock]
      + (if m.problemStatement.Some? then [ProblemItem] else [])
      + (if m.timestamp.Some? then [TimestampItem] else [])
      + (if m.modelName.Some? then [ModelItem] else [])
  }

  /** Header, then the solution when its key is present, then the verification wrapper when its key is present. */
  function IterationOutline(it: Iteration): (bs: seq<Block>)
    ensures forall b :: b in bs ==> b.InIteration()
  {
    [IterationBlock]
      + (if it.correctedSolution.Some? then [SolutionBlock] else [])
      + (match it.verification
         case None => []
         case Some(v) => [VerificationBlock] + (if v.bugReport.Some? then [BugReportBlock] else []))
  }

  /** The iterations' outlines, in input order. */
  function IterationsOutline(its: seq<Iteration>): (bs: seq<Block>)
    ensures forall b :: b in bs ==> b.InIteration()
  {
    OutlineListBlocks(its, IterationOutline, (b: Block) => b.InIteration());
    OutlineList(its, IterationOutline)
  }

  /** Header, the reason when non-empty, and the iteration list only when there is at least one iteration. */
  function RunOutline(r: Run): (bs: seq<Block>)
    ensures forall b :: b in bs ==> b.InRun()
    ensures Count(bs, RunBlock) == 1
  {
    var its := r.Iterations();
    var reason := if r.Reason() != "" then [ReasonLine] else [];
    var iterations := if its != [] then [IterationsHeading] + IterationsOutline(its) else [];
    CountAbsent(IterationsOutline(its), RunBlock);
    CountAppend([IterationsHeading], IterationsOutline(its), RunBlock);
    CountAppend([RunBlock], reason, RunBlock);
    CountAppend([RunBlock] + reason, iterations, RunBlock);
    [RunBlock] + reason + iterations
  }

  /** The runs' outlines, in input order. */
  function RunsOutline(runs: seq<Run>): (bs: seq<Block>)
    ensures forall b :: b in bs ==> b.InRun()
    ensures Count(bs, RunBlock) == |runs|
  {
    OutlineListBlocks(runs, RunOutline, (b: Block) => b.InRun());
    OutlineListCount(runs, RunOutline, RunBlock);
    OutlineList(runs, RunOutline)
  }

  /** Metadata, statistics, and the attempts only when there are runs. */
  function DocumentOutline(d: Document): seq<Block> {
    MetadataOutline(d.Meta()) + [StatsBlock]
      + (if d.Runs() != [] then [AttemptsHeading] + RunsOutline(d.Runs()) else [])
  }
}
