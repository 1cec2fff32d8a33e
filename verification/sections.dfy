/**
 * The section renderers of the converter: the problem statement cleanup,
 * timestamp display, the metadata block, one run and one iteration.
 */
module Sections {
  import opened Options
  import opened Text
  import opened Decimal
  import opened Template
  import opened Records
  import opened Pieces
  import opened Layout

  /** The boilerplate line the solver puts in front of a problem statement. */
  const ProblemMarker: string := "*** Problem Statement ***\n\n"

  const NoProblemStatement: string := "No problem statement provided"

  /**
   * `format_problem_statement`: a placeholder for an empty statement,
   * otherwise every occurrence of the marker removed in one left-to-right
   * pass and the result stripped.
   */
  function FormatProblemStatement(statement: string): (r: string)
    ensures statement == [] ==> r == NoProblemStatement
    ensures statement != [] ==> Trimmed(r)
    ensures statement != [] && !Contains(statement, ProblemMarker) ==> r == Strip(statement)
  {
    if statement == [] then NoProblemStatement
    else Strip(ReplaceAll(statement, ProblemMarker, ""))
  }

  /** A statement that opens with the marker is shown as its body, stripped. */
  lemma ProblemStatementDropsMarker(body: string)
    requires !Contains(body, ProblemMarker)
    ensures FormatProblemStatement(ProblemMarker + body) == Strip(body)
  {
    ReplaceAtFront(ProblemMarker, body, "");
    assert "" + ReplaceAll(body, ProblemMarker, "") == body;
  }

  /** The text handed to the date parser: every `Z` replaced by an explicit zero UTC offset. */
  function IsoText(ts: string): string {
    ReplaceAll(ts, "Z", "+00:00")
  }

  /**
   * `format_timestamp`. The parse-and-reformat step (`datetime.fromisoformat`
   * followed by `strftime("%Y-%m-%d %H:%M:%S")`) is the library call `parse`;
   * when it fails the raw text is shown.
   */
  function FormatTimestamp(parse: string -> Option<string>, ts: string): string {
    match parse(IsoText(ts))
    case Some(shown) => shown
    case None => ts
  }

  /** The parser never sees a `Z`, and a text it rejects is displayed unchanged. */
  lemma TimestampFallback(parse: string -> Option<string>, ts: string)
    ensures 'Z' !in IsoText(ts)
    ensures 'Z' !in ts ==> IsoText(ts) == ts
    ensures parse(IsoText(ts)).None? ==> FormatTimestamp(parse, ts) == ts
    ensures parse(IsoText(ts)).Some? ==> FormatTimestamp(parse, ts) == parse(IsoText(ts)).value
  {
    ReplaceCharRemovesIt(ts, 'Z', "+00:00");
    if 'Z' !in ts {
      AbsentCharNotContained(ts, 'Z');
    }
  }

  /** The leftmost `Z` is spelled out as the zero UTC offset `+00:00`, and the rest is treated the same way. */
  lemma ZoneSpelledOut(a: string, b: string)
    requires 'Z' !in a
    ensures IsoText(a + "Z" + b) == a + "+00:00" + IsoText(b)
  {
    forall k | 0 <= k < |a| ensures !("Z" <= (a + "Z" + b)[k..]) {
      assert (a + "Z" + b)[k..][0] == a[k];
    }
    ReplaceLeftmost(a, "Z", b, "+00:00");
  }

  const MetadataOpen: string :=
    "<div class=\"metadata\">" + "<h2>Problem Information</h2>" + "<div class=\"metadata-grid\">"

  const MetadataClose: string := "</div></div>"

  function ItemOpen(name: string, valueClass: string): string {
    "\n        <div class=\"metadata-item\">\n            <div class=\"metadata-label\">" + name
      + "</div>\n            <div class=\"" + valueClass + "\">"
  }

  const ItemClose: string := "</div>\n        </div>"

  /** One metadata item: the marked opening, the value, the closing tags. */
  function Item(b: Block, name: string, valueClass: string, value: string): (ps: seq<Piece>)
    ensures Opened(ps, b) && ps[1].text == value
  {
    [Mark(b, ItemOpen(name, valueClass)), Plain(value), Plain(ItemClose)]
  }

  /** The item for a key: present exactly when the key is, showing the formatted value. */
  predicate ItemFor(ps: seq<Piece>, b: Block, shown: Option<string>) {
    && (ps == [] <==> shown.None?)
    && (ps != [] ==> Opened(ps, b) && ps[1].text == shown.value)
  }

  /** The value shown for each metadata key, or `None` for a missing key. */
  function ShownProblem(m: Metadata): Option<string> {
    match m.problemStatement
    case Some(s) => Some(FormatProblemStatement(s))
    case None => None
  }

  function ShownTimestamp(m: Metadata, parse: string -> Option<string>): Option<string> {
    match m.timestamp
    case Some(t) => Some(FormatTimestamp(parse, t))
    case None => None
  }

  function ItemPieces(b: Block, name: string, valueClass: string, shown: Option<string>): (ps: seq<Piece>)
    ensures ItemFor(ps, b, shown)
  {
    match shown
    case Some(v) => Item(b, name, valueClass, v)
    case None => []
  }

  /** An item opens its own block when its key is present, and nothing else. */
  lemma ItemShape(ps: seq<Piece>, b: Block, shown: Option<string>)
    requires ItemFor(ps, b, shown)
    ensures Closed(ps)
    ensures Outline(ps) == if shown.Some? then [b] else []
    ensures shown.Some? ==> ContentOf(ps, b) == shown
  {
    if ps != [] {
      OpenedLookup(ps, b);
    }
  }

  /** The metadata block around three items opens its own block, then the present items in order. */
  lemma MetadataFrameOutline(p: seq<Piece>, t: seq<Piece>, n: seq<Piece>,
                             sp: Option<string>, st: Option<string>, sn: Option<string>)
    requires ItemFor(p, ProblemItem, sp) && ItemFor(t, TimestampItem, st) && ItemFor(n, ModelItem, sn)
    ensures Outline([Mark(MetadataBlock, MetadataOpen)] + (p + (t + (n + [Plain(MetadataClose)])))) ==
              [MetadataBlock]
                + (if sp.Some? then [ProblemItem] else [])
                + (if st.Some? then [TimestampItem] else [])
                + (if sn.Some? then [ModelItem] else [])
  {
    var open, close := [Mark(MetadataBlock, MetadataOpen)], [Plain(MetadataClose)];
    ItemShape(p, ProblemItem, sp);
    ItemShape(t, TimestampItem, st);
    ItemShape(n, ModelItem, sn);
    AllPlainOpensNothing(close, ModelItem);
    assert Outline(open) == [MetadataBlock] by {
      assert open[1..] == [];
    }
    OutlineAppend(n, close);
    OutlineAppend4(open, p, t, n + close);
  }

  /** Each item's block, looked up in the metadata block, shows that item's value. */
  lemma MetadataFrameLookup(p: seq<Piece>, t: seq<Piece>, n: seq<Piece>,
                            sp: Option<string>, st: Option<string>, sn: Option<string>)
    requires ItemFor(p, ProblemItem, sp) && ItemFor(t, TimestampItem, st) && ItemFor(n, ModelItem, sn)
    ensures ContentOf([Mark(MetadataBlock, MetadataOpen)] + (p + (t + (n + [Plain(MetadataClose)]))), ProblemItem) == sp
    ensures ContentOf([Mark(MetadataBlock, MetadataOpen)] + (p + (t + (n + [Plain(MetadataClose)]))), TimestampItem) == st
    ensures ContentOf([Mark(MetadataBlock, MetadataOpen)] + (p + (t + (n + [Plain(MetadataClose)]))), ModelItem) == sn
  {
    var open, close := [Mark(MetadataBlock, MetadataOpen)], [Plain(MetadataClose)];
    ItemShape(p, ProblemItem, sp);
    ItemShape(t, TimestampItem, st);
    ItemShape(n, ModelItem, sn);
    assert Outline(open) == [MetadataBlock] by {
      assert open[1..] == [];
    }
    forall b | b in {ProblemItem, TimestampItem, ModelItem}
      ensures ContentOf(open + (p + (t + (n + close))), b) ==
                if b == ProblemItem then sp else if b == TimestampItem then st else sn
    {
      AllPlainOpensNothing(close, b);
      LookupAppend(n, close, b);
      LookupAppend(t, n + close, b);
      LookupAppend(p, t + (n + close), b);
      LookupAppend(open, p + (t + (n + close)), b);
    }
  }

  /**
   * `create_metadata_section`: one item per present key, in the fixed order
   * problem statement, timestamp, model, each showing its formatted value.
   */
  function MetadataPieces(m: Metadata, parse: string -> Option<string>): (ps: seq<Piece>)
    ensures Outline(ps) == MetadataOutline(m)
    ensures ContentOf(ps, ProblemItem) ==
              (match m.problemStatement case Some(s) => Some(FormatProblemStatement(s)) case None => None)
    ensures ContentOf(ps, TimestampItem) ==
              (match m.timestamp case Some(t) => Some(FormatTimestamp(parse, t)) case None => None)
    ensures ContentOf(ps, ModelItem) == m.modelName
  {
    var p := ItemPieces(ProblemItem, "Problem Statement", "problem-statement", ShownProblem(m));
    var t := ItemPieces(TimestampItem, "Timestamp", "metadata-value", ShownTimestamp(m, parse));
    var n := ItemPieces(ModelItem, "Model", "metadata-value", m.modelName);
    MetadataFrameOutline(p, t, n, ShownProblem(m), ShownTimestamp(m, parse), m.modelName);
    MetadataFrameLookup(p, t, n, ShownProblem(m), ShownTimestamp(m, parse), m.modelName);
    [Mark(MetadataBlock, MetadataOpen)] + (p + (t + (n + [Plain(MetadataClose)])))
  }

  /** What an iteration's header shows. */
  datatype IterationHeader = IterationHeader(
    number: string, badgeClass: string, badgeText: string, correct: string, errors: string)

  /**
   * The header values of `create_iteration_section`: the iteration number or
   * the position, a badge styled by `is_correct` alone and labelled with the
   * upper-cased `verification_result`, and the two counters.
   */
  function IterationHeaderOf(it: Iteration, position: int): IterationHeader {
    IterationHeader(
      IntToString(it.Label(position)),
      if it.Passed() then "success" else "failed",
      Upper(it.Result()),
      IntToString(it.Correct()),
      IntToString(it.Errors()))
  }

  /** The literal text of the `create_iteration_section` header between its five values. */
  const IterationLiterals: seq<string> := [
    "\n        <div class=\"iteration\">\n            <div class=\"iteration-header\">\n                <strong>Iteration ",
    "</strong>\n                <span class=\"status ",
    "\">\n                    ",
    "\n                </span>\n                <small style=\"margin-left: 15px;\">\n                    Correct: ",
    ", Errors: ",
    "\n                </small>\n            </div>"]

  function IterationHeaderHtml(h: IterationHeader): string {
    Fill(IterationLiterals, [h.number, h.badgeClass, h.badgeText, h.correct, h.errors])
  }

  /**
   * The header shows the iteration number, or the position when it is
   * missing, and both counters, zero when missing, as decimals that read
   * back; the badge style follows `is_correct` alone, and its text is the
   * result (`unknown` when missing) in capitals.
   */
  lemma IterationHeaderReadsBack(it: Iteration, position: int)
    ensures ParseInt(IterationHeaderOf(it, position).number) ==
              Some(if it.iteration.Some? then it.iteration.value else position)
    ensures ParseInt(IterationHeaderOf(it, position).correct) == Some(it.correctCount.GetOr(0))
    ensures ParseInt(IterationHeaderOf(it, position).errors) == Some(it.errorCount.GetOr(0))
    ensures IterationHeaderOf(it, position).badgeClass == (if it.isCorrect == Some(true) then "success" else "failed")
    ensures var text := IterationHeaderOf(it, position).badgeText;
            var result := it.verificationResult.GetOr("unknown");
            |text| == |result| && forall i :: 0 <= i < |text| ==> !IsAsciiLower(text[i]) && LowerChar(text[i]) == LowerChar(result[i])
  {
    IntRoundTrip(it.Label(position));
    IntRoundTrip(it.Correct());
    IntRoundTrip(it.Errors());
  }

  const SolutionOpen: string :=
    "\n            <button class=\"toggle-btn\">Show Solution</button>\n            <div class=\"solution-text\">"

  const VerificationOpen: string :=
    "<div class=\"verification\">" + "<div class=\"verification-header\">Verification Results</div>"

  const BugReportOpen: string := "<div class=\"bug-report\">" + "<strong>Bug Report:</strong><br>"

  const DivClose: string := "</div>"

  /** The solution toggle and block, with the solution text inserted as it is. */
  function SolutionPieces(solution: Option<string>): (ps: seq<Piece>)
    ensures ItemFor(ps, SolutionBlock, solution)
  {
    match solution
    case Some(text) => [Mark(SolutionBlock, SolutionOpen), Plain(text), Plain(DivClose)]
    case None => []
  }

  /** A bug report as displayed: every newline turned into `<br>`. */
  function BreakLines(report: string): string {
    ReplaceAll(report, "\n", "<br>")
  }

  /**
   * No newline of the report survives, each one grows the text by the three
   * extra characters of `<br>`, and a report without a `<br>` of its own can
   * be recovered from what is shown.
   */
  lemma BugReportLines(report: string)
    ensures '\n' !in BreakLines(report)
    ensures |BreakLines(report)| == |report| + 3 * Occurrences(report, '\n')
    ensures !Contains(report, "<br>") ==> ReplaceAll(BreakLines(report), "<br>", "\n") == report
  {
    ReplaceCharRemovesIt(report, '\n', "<br>");
    ReplaceCharLength(report, '\n', "<br>");
    if !Contains(report, "<br>") {
      BreaksRestoreNewlines(report);
    }
  }

  function ShownBugReport(ver: Option<Verification>): Option<string> {
    match ver
    case Some(Verification(Some(report))) => Some(BreakLines(report))
    case _ => None
  }

  function BugReportPieces(shown: Option<string>): (ps: seq<Piece>)
    ensures ItemFor(ps, BugReportBlock, shown)
  {
    match shown
    case Some(text) => [Mark(BugReportBlock, BugReportOpen), Plain(text), Plain(DivClose)]
    case None => []
  }

  /** The verification wrapper: present whenever the key is, with the bug report inside it when that key is. */
  function VerificationPieces(ver: Option<Verification>): (ps: seq<Piece>)
    ensures Closed(ps)
    ensures Outline(ps) ==
              match ver
              case None => []
              case Some(v) => [VerificationBlock] + (if v.bugReport.Some? then [BugReportBlock] else [])
    ensures ContentOf(ps, BugReportBlock) == ShownBugReport(ver)
    ensures SolutionBlock !in Outline(ps)
  {
    match ver
    case None => []
    case Some(v) =>
      var inner := BugReportPieces(ShownBugReport(ver));
      ItemShape(inner, BugReportBlock, ShownBugReport(ver));
      assert [Plain(DivClose)] + [] == [Plain(DivClose)];
      FrameLookup(Mark(VerificationBlock, VerificationOpen), inner, [], Plain(DivClose), BugReportBlock);
      AbsentLookup([], BugReportBlock);
      [Mark(VerificationBlock, VerificationOpen)] + (inner + ([] + [Plain(DivClose)]))
  }

  /**
   * `create_iteration_section`: the header, the solution block exactly when
   * `corrected_solution` is present (even when empty), the verification
   * wrapper exactly when `verification` is present, and inside it the bug
   * report exactly when `bug_report` is present, newlines turned into `<br>`.
   */
  function IterationPieces(it: Iteration, position: int): (ps: seq<Piece>)
    ensures Closed(ps)
    ensures Outline(ps) == IterationOutline(it)
    ensures MarkedText(ps, IterationBlock) == Some(IterationHeaderHtml(IterationHeaderOf(it, position)))
    ensures ContentOf(ps, SolutionBlock) == it.correctedSolution
    ensures ContentOf(ps, BugReportBlock) == ShownBugReport(it.verification)
  {
    var head := Mark(IterationBlock, IterationHeaderHtml(IterationHeaderOf(it, position)));
    var sol := SolutionPieces(it.correctedSolution);
    var ver := VerificationPieces(it.verification);
    IterationFrame(head, sol, ver, it.correctedSolution, ShownBugReport(it.verification));
    [head] + (sol + (ver + [Plain(DivClose)]))
  }

  /** The iteration section's shape, for any header, solution part and verification part. */
  lemma IterationFrame(head: Piece, sol: seq<Piece>, ver: seq<Piece>, solution: Option<string>, bug: Option<string>)
    requires head.Mark? && head.block == IterationBlock
    requires ItemFor(sol, SolutionBlock, solution)
    requires Closed(ver) && SolutionBlock !in Outline(ver) && ContentOf(ver, BugReportBlock) == bug
    ensures Closed([head] + (sol + (ver + [Plain(DivClose)])))
    ensures Outline([head] + (sol + (ver + [Plain(DivClose)]))) ==
              [IterationBlock] + (if solution.Some? then [SolutionBlock] else []) + Outline(ver)
    ensures MarkedText([head] + (sol + (ver + [Plain(DivClose)])), IterationBlock) == Some(head.text)
    ensures ContentOf([head] + (sol + (ver + [Plain(DivClose)])), SolutionBlock) == solution
    ensures ContentOf([head] + (sol + (ver + [Plain(DivClose)])), BugReportBlock) == bug
  {
    ItemShape(sol, SolutionBlock, solution);
    FrameLookup(head, sol, ver, Plain(DivClose), SolutionBlock);
    FrameLookup(head, sol, ver, Plain(DivClose), BugReportBlock);
    AbsentLookup(ver, SolutionBlock);
  }

  /** The iteration sections of a run, each numbered by its position when it has no number. */
  function IterationsPieces(its: seq<Iteration>): (ps: seq<Piece>)
    ensures Closed(ps)
    ensures Outline(ps) == IterationsOutline(its)
  {
    SectionListOutline(its, 0, IterationPieces, IterationOutline);
    SectionList(its, 0, IterationPieces)
  }

  /** What a run's header shows. */
  datatype RunHeader = RunHeader(number: string, statusClass: string, statusText: string, time: string)

  /**
   * The header values of `create_run_section`: the run number or the
   * position, a binary status class, the upper-cased status (`unknown` when
   * missing) and the formatted timestamp (of the empty text when missing).
   */
  function RunHeaderOf(r: Run, position: int, parse: string -> Option<string>): RunHeader {
    RunHeader(
      IntToString(r.Label(position)),
      if r.Status() == "failed" then "failed" else "success",
      Upper(r.Status()),
      FormatTimestamp(parse, r.timestamp.GetOr("")))
  }

  /**
   * The header shows the run number, or the position when it is missing, as
   * a decimal that reads back; the style is `failed` exactly for the status
   * `failed` (a missing status is not failed), and the status text is the
   * status (`unknown` when missing) in capitals.
   */
  lemma RunHeaderReadsBack(r: Run, position: int, parse: string -> Option<string>)
    ensures ParseInt(RunHeaderOf(r, position, parse).number) ==
              Some(if r.runNumber.Some? then r.runNumber.value else position)
    ensures RunHeaderOf(r, position, parse).statusClass == (if r.status == Some("failed") then "failed" else "success")
    ensures var text := RunHeaderOf(r, position, parse).statusText;
            var status := r.status.GetOr("unknown");
            |text| == |status| && forall i :: 0 <= i < |text| ==> !IsAsciiLower(text[i]) && LowerChar(text[i]) == LowerChar(status[i])
    ensures r.timestamp.None? ==> RunHeaderOf(r, position, parse).time == FormatTimestamp(parse, "")
    ensures r.timestamp.None? && parse("").None? ==> RunHeaderOf(r, position, parse).time == ""
  {
    IntRoundTrip(r.Label(position));
    assert "unknown" != "failed";
  }

  /** The literal text of the `create_run_section` header between its four values. */
  const RunLiterals: seq<string> := [
    "\n        <div class=\"run\">\n            <div class=\"run-header\">\n                <strong>Run ",
    "</strong>\n                <span class=\"status ",
    "\">",
    "</span>\n                <small style=\"float: right;\">",
    "</small>\n            </div>\n            <div class=\"run-content\">"]

  function RunHeaderHtml(h: RunHeader): string {
    Fill(RunLiterals, [h.number, h.statusClass, h.statusText, h.time])
  }

  /** The reason shown for a run: the `reason` text when it is non-empty. */
  function ShownReason(r: Run): Option<string> {
    if r.Reason() != "" then Some(r.Reason()) else None
  }

  function ReasonPieces(shown: Option<string>): (ps: seq<Piece>)
    ensures ItemFor(ps, ReasonLine, shown)
  {
    match shown
    case Some(text) => [Mark(ReasonLine, "<p><strong>Reason:</strong> "), Plain(text), Plain("</p>")]
    case None => []
  }

  /** The `Iterations (n)` heading of a run. */
  function CountHeading(count: string): (ps: seq<Piece>)
    ensures Opened(ps, IterationsHeading) && ps[1].text == count
  {
    [Mark(IterationsHeading, "<h3>Iterations ("), Plain(count), Plain(")</h3>")]
  }

  /** The count heading in front of a list of iteration sections. */
  function CountedList(count: string, body: seq<Piece>): (ps: seq<Piece>)
    requires Closed(body) && forall b :: b in Outline(body) ==> b.InIteration()
    ensures Closed(ps)
    ensures Outline(ps) == [IterationsHeading] + Outline(body)
    ensures ContentOf(ps, IterationsHeading) == Some(count)
    ensures forall b :: b in Outline(ps) ==> b == IterationsHeading || b.InIteration()
  {
    assert !IterationsHeading.InIteration();
    HeadedBody(CountHeading(count), body, IterationsHeading);
    CountHeading(count) + body
  }

  /** The count heading and the iteration sections, or nothing at all for an empty list. */
  function IterationListPieces(its: seq<Iteration>): (ps: seq<Piece>)
    ensures its == [] ==> ps == []
    ensures its != [] ==> Closed(ps) && Outline(ps) == [IterationsHeading] + IterationsOutline(its)
    ensures its != [] ==> ContentOf(ps, IterationsHeading) == Some(IntToString(|its|))
    ensures forall b :: b in Outline(ps) ==> b == IterationsHeading || b.InIteration()
  {
    if its == [] then [] else CountedList(IntToString(|its|), IterationsPieces(its))
  }

  /**
   * A run section assembled from its header mark, an optional reason item
   * and an iteration list that opens neither of the other two blocks.
   */
  lemma RunFrame(head: Piece, reason: seq<Piece>, list: seq<Piece>, shown: Option<string>)
    requires head.Mark? && head.block == RunBlock
    requires ItemFor(reason, ReasonLine, shown)
    requires Closed(list) && forall b :: b in Outline(list) ==> b == IterationsHeading || b.InIteration()
    ensures Closed([head] + (reason + (list + [Plain(RunClose)])))
    ensures Outline([head] + (reason + (list + [Plain(RunClose)]))) ==
              [RunBlock] + (if shown.Some? then [ReasonLine] else []) + Outline(list)
    ensures MarkedText([head] + (reason + (list + [Plain(RunClose)])), RunBlock) == Some(head.text)
    ensures ContentOf([head] + (reason + (list + [Plain(RunClose)])), ReasonLine) == shown
    ensures ContentOf([head] + (reason + (list + [Plain(RunClose)])), IterationsHeading) ==
              ContentOf(list, IterationsHeading)
  {
    assert RunBlock !in Outline(list) && ReasonLine !in Outline(list);
    ItemShape(reason, ReasonLine, shown);
    FrameLookup(head, reason, list, Plain(RunClose), ReasonLine);
    FrameLookup(head, reason, list, Plain(RunClose), IterationsHeading);
    AbsentLookup(list, ReasonLine);
    if shown.None? {
      AbsentLookup(reason, IterationsHeading);
    }
  }

  /** Closes the run content and the run. */
  const RunClose := "</div></div>"

  /**
   * `create_run_section`: the header, the reason line exactly when the
   * reason is non-empty, and the iteration count and sections exactly when
   * the run has at least one iteration.
   */
  function RunPieces(r: Run, position: int, parse: string -> Option<string>): (ps: seq<Piece>)
    ensures Closed(ps)
    ensures Outline(ps) == RunOutline(r)
    ensures MarkedText(ps, RunBlock) == Some(RunHeaderHtml(RunHeaderOf(r, position, parse)))
    ensures ContentOf(ps, ReasonLine) == ShownReason(r)
    ensures ContentOf(ps, IterationsHeading) ==
              if r.Iterations() != [] then Some(IntToString(|r.Iterations()|)) else None
  {
    var head := Mark(RunBlock, RunHeaderHtml(RunHeaderOf(r, position, parse)));
    var reason := ReasonPieces(ShownReason(r));
    var list := IterationListPieces(r.Iterations());
    RunFrame(head, reason, list, ShownReason(r));
    [head] + (reason + (list + [Plain(RunClose)]))
  }
}
