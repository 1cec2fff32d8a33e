/**
 * Assembly of the whole report page (`convert_json_to_html`): the page
 * shell, the metadata block, the statistics block, the attempts heading and
 * one section per run, and the closing shell.
 */
module Report {
  import opened Options
  import opened Text
  import opened Records
  import opened Statistics
  import opened Pieces
  import opened Layout
  import opened Sections

  /**
   * The style sheet and the script of the page shell. Their text is fixed
   * and depends on no input; it is not reproduced here.
   */
  const StyleRules: string := "\n        /* page style */"
  const ScriptBody: string := "\n        /* section toggles */"

  /** `create_html_header`: the page head, with the title both in `<title>` and in the top heading. */
  function Header(title: string): string {
    "<!DOCTYPE html>\n<html lang=\"en\">\n<head>\n    <meta charset=\"UTF-8\">\n"
      + "    <meta name=\"viewport\" content=\"width=device-width, initial-scale=1.0\">\n"
      + "    <title>" + title + "</title>\n    <style>" + StyleRules + "\n    </style>\n</head>\n<body>\n"
      + "    <div class=\"container\">\n        <h1>" + title + "</h1>"
  }

  /** `create_html_footer`: closes the container, the script, the body and the page. */
  const Footer: string := "\n    </div>\n    <script>" + ScriptBody + "\n    </script>\n</body>\n</html>"

  const TitlePrefix: string := "IMO25 Solution Analysis - "

  /** The words of the title: the input file stem with underscores read as spaces, then title case. */
  function TitleWords(stem: string): string {
    TitleCase(ReplaceAll(stem, "_", " "))
  }

  /** The page title for an input file stem. */
  function DocumentTitle(stem: string): string {
    TitlePrefix + TitleWords(stem)
  }

  /** The title words never show an underscore, and each word starts with a capital as in Python's `str.title`. */
  lemma TitleHasNoUnderscore(stem: string)
    ensures forall i :: 0 <= i < |TitleWords(stem)| ==> TitleWords(stem)[i] != '_'
    ensures forall i :: 0 <= i < |TitleWords(stem)| && IsLetter(TitleWords(stem)[i]) ==>
              (IsAsciiUpper(TitleWords(stem)[i]) <==> (i == 0 || !IsLetter(TitleWords(stem)[i - 1])))
  {
    var spaced := ReplaceAll(stem, "_", " ");
    var t := TitleWords(stem);
    ReplaceCharRemovesIt(stem, '_', " ");
    forall i | 0 <= i < |t| ensures t[i] != '_' {
      assert LowerChar(t[i]) == LowerChar(spaced[i]);
      assert spaced[i] != '_';
    }
    forall i | 0 <= i < |t| && IsLetter(t[i])
      ensures IsAsciiUpper(t[i]) <==> (i == 0 || !IsLetter(t[i - 1]))
    {
      assert IsLetter(spaced[i]);
      assert i > 0 ==> (IsLetter(t[i - 1]) <==> IsLetter(spaced[i - 1]));
    }
  }

  /** The title words spell the stem up to case, with each underscore shown as a space. */
  lemma TitleSpellsStem(stem: string)
    ensures |TitleWords(stem)| == |stem|
    ensures forall i :: 0 <= i < |stem| ==> LowerChar(TitleWords(stem)[i]) == LowerChar(if stem[i] == '_' then ' ' else stem[i])
  {
    ReplaceCharByChar(stem, '_', ' ');
  }

  /** A run section as a renderer of a list element and its position. */
  function RunRenderer(parse: string -> Option<string>): (Run, int) -> seq<Piece> {
    (r: Run, i: int) => RunPieces(r, i, parse)
  }

  /** Every run section, numbered from 0 by position when it has no number. */
  function RunsPieces(runs: seq<Run>, parse: string -> Option<string>): (ps: seq<Piece>)
    ensures Closed(ps)
    ensures Outline(ps) == RunsOutline(runs)
  {
    forall r, i ensures Outline(RunRenderer(parse)(r, i)) == RunOutline(r) && Closed(RunRenderer(parse)(r, i)) {
      assert RunRenderer(parse)(r, i) == RunPieces(r, i, parse);
    }
    SectionListOutline(runs, 0, RunRenderer(parse), RunOutline);
    SectionList(runs, 0, RunRenderer(parse))
  }

  const AttemptsHeadingText: string := "<h2>Solution Attempts</h2>"

  /** The attempts heading and the run sections, only when there is at least one run. */
  function AttemptsPieces(runs: seq<Run>, parse: string -> Option<string>): (ps: seq<Piece>)
    ensures runs == [] ==> ps == []
    ensures Outline(ps) == if runs != [] then [AttemptsHeading] + RunsOutline(runs) else []
  {
    if runs == [] then []
    else
      var heading := [Mark(AttemptsHeading, AttemptsHeadingText)];
      OutlineAppend(heading, RunsPieces(runs, parse));
      assert Outline(heading) == [AttemptsHeading] by {
        assert heading[1..] == [];
      }
      heading + RunsPieces(runs, parse)
  }

  /** The page content: the metadata part, the statistics, the attempts part. */
  function Content(meta: seq<Piece>, stats: string, attempts: seq<Piece>): seq<Piece> {
    meta + ([Mark(StatsBlock, stats)] + attempts)
  }

  /**
   * The content opens the metadata part's blocks, then the statistics, then
   * the attempts part's blocks; its statistics block holds the statistics text.
   */
  lemma ContentShape(meta: seq<Piece>, stats: string, attempts: seq<Piece>)
    requires forall b :: b in Outline(meta) ==> b.InMetadata()
    ensures Outline(Content(meta, stats, attempts)) == Outline(meta) + [StatsBlock] + Outline(attempts)
    ensures MarkedText(Content(meta, stats, attempts), StatsBlock) == Some(stats)
  {
    var s := [Mark(StatsBlock, stats)];
    assert Outline(s) == [StatsBlock] by { assert s[1..] == []; }
    OutlineAppend(s, attempts);
    OutlineAppend(meta, s + attempts);
    assert !StatsBlock.InMetadata();
    LookupAppend(meta, s + attempts, StatsBlock);
    assert MarkedText(s + attempts, StatsBlock) == Some(stats);
  }

  /**
   * The page content of a document: the metadata block, the statistics
   * computed over all runs, and the attempts when there are runs.
   */
  function ContentPieces(d: Document, parse: string -> Option<string>): (ps: seq<Piece>)
    ensures Outline(ps) == DocumentOutline(d)
    ensures MarkedText(ps, StatsBlock) == Some(StatsHtml(ComputeStats(d)))
  {
    var meta := MetadataPieces(d.Meta(), parse);
    var attempts := AttemptsPieces(d.Runs(), parse);
    ContentShape(meta, StatsHtml(ComputeStats(d)), attempts);
    Content(meta, StatsHtml(ComputeStats(d)), attempts)
  }

  /** The HTML page written for a document read from a file with the given stem. */
  function RenderDocument(d: Document, stem: string, parse: string -> Option<string>): string {
    Header(DocumentTitle(stem)) + Flatten(ContentPieces(d, parse)) + Footer
  }

  /** The statistics block of the page reads back as exactly the statistics of the document's runs. */
  lemma StatsReadBack(d: Document, parse: string -> Option<string>)
    ensures MarkedText(ContentPieces(d, parse), StatsBlock).Some?
    ensures ReadStats(MarkedText(ContentPieces(d, parse), StatsBlock).value) == Some(ComputeStats(d))
  {
    StatsRoundTrip(ComputeStats(d));
  }

  /** The attempts heading is on the page exactly when the document has at least one run. */
  lemma AttemptsShownIffRuns(d: Document)
    ensures AttemptsHeading in DocumentOutline(d) <==> d.Runs() != []
  {
    assert !AttemptsHeading.InRun();
    assert AttemptsHeading !in MetadataOutline(d.Meta());
  }

  /** The page holds one run section per run, as many as the statistics count. */
  lemma {:induction false} RunSectionsMatchStats(d: Document)
    ensures Count(DocumentOutline(d), RunBlock) == ComputeStats(d).totalRuns
  {
    var runs := d.Runs();
    var attempts := if runs != [] then [AttemptsHeading] + RunsOutline(runs) else [];
    CountAbsent(MetadataOutline(d.Meta()) + [StatsBlock], RunBlock);
    CountAppend([AttemptsHeading], RunsOutline(runs), RunBlock);
    CountAppend(MetadataOutline(d.Meta()) + [StatsBlock], attempts, RunBlock);
  }

  /**
   * The positions whose run header carries the `failed` style are exactly
   * the runs counted as failed, so the statistics count the red badges.
   */
  lemma FailedBadgesAreFailedRuns(runs: seq<Run>, parse: string -> Option<string>)
    ensures (set i | 0 <= i < |runs| && RunHeaderOf(runs[i], i, parse).statusClass == "failed") ==
              FailedPositions(runs)
    ensures |FailedPositions(runs)| == RunStats(runs).failedRuns
  {
    forall i | 0 <= i < |runs|
      ensures RunHeaderOf(runs[i], i, parse).statusClass == "failed" <==> runs[i].Failed()
    {
      assert "unknown" != "failed";
    }
  }

  /**
   * An iteration's badge style follows `is_correct` alone; its text is the
   * upper-cased `verification_result`, which may disagree with the style.
   */
  lemma BadgeFollowsIsCorrect(it: Iteration, position: int)
    ensures IterationHeaderOf(it, position).badgeClass == "success" <==> it.isCorrect == Some(true)
    ensures IterationHeaderOf(it, position).badgeClass == "failed" <==> it.isCorrect != Some(true)
    ensures forall result :: IterationHeaderOf(it.(verificationResult := result), position).badgeClass ==
                             IterationHeaderOf(it, position).badgeClass
  {
    assert "success" != "failed";
  }

  /**
   * A log with empty metadata and no runs renders an empty metadata block,
   * all-zero statistics and no attempts.
   */
  lemma EmptyDocument()
    ensures DocumentOutline(Document(Some(Metadata(None, None, None)), Some([]))) == [MetadataBlock, StatsBlock]
    ensures ComputeStats(Document(Some(Metadata(None, None, None)), Some([]))) == Stats(0, 0, 0, 0, 0, 0)
  {
  }
}
