/**
 * Rendered output as a list of pieces. Each piece is a run of output text;
 * a piece that opens one of the report's blocks is marked with that block.
 * The text of the list, concatenated, is the HTML the source builds with
 * `+=`. The marks let a property say which blocks appear, and in what order,
 * independently of the user text between them, which the source inserts
 * without escaping and which may therefore look like any markup at all.
 */
module Pieces {
  import opened Options

  datatype Block =
    | MetadataBlock | ProblemItem | TimestampItem | ModelItem | StatsBlock
    | AttemptsHeading | RunBlock | ReasonLine | IterationsHeading
    | IterationBlock | SolutionBlock | VerificationBlock | BugReportBlock
  {
    /** Blocks that occur inside the metadata block. */
    predicate InMetadata() {
      MetadataBlock? || ProblemItem? || TimestampItem? || ModelItem?
    }

    /** Blocks that occur inside one iteration's section. */
    predicate InIteration() {
      IterationBlock? || SolutionBlock? || VerificationBlock? || BugReportBlock?
    }

    /** Blocks that occur inside one run's section. */
    predicate InRun() {
      RunBlock? || ReasonLine? || IterationsHeading? || InIteration()
    }
  }

  datatype Piece = Plain(text: string) | Mark(block: Block, text: string)

  /** The output text: all pieces concatenated in order. */
  function Flatten(ps: seq<Piece>): string {
    if ps == [] then "" else ps[0].text + Flatten(ps[1..])
  }

  /** The blocks opened, in output order. */
  function Outline(ps: seq<Piece>): seq<Block> {
    if ps == [] then [] else (if ps[0].Mark? then [ps[0].block] else []) + Outline(ps[1..])
  }

  /** The text of the first piece that opens `b`. */
  function MarkedText(ps: seq<Piece>, b: Block): Option<string> {
    if ps == [] then None
    else if ps[0].Mark? && ps[0].block == b then Some(ps[0].text)
    else MarkedText(ps[1..], b)
  }

  /** The text of the piece right after the first piece that opens `b`: that block's content. */
  function ContentOf(ps: seq<Piece>, b: Block): Option<string> {
    if ps == [] then None
    else if ps[0].Mark? && ps[0].block == b then (if |ps| > 1 then Some(ps[1].text) else None)
    else ContentOf(ps[1..], b)
  }

  /** Number of times `b` occurs in an outline. */
  function Count(bs: seq<Block>, b: Block): nat {
    if bs == [] then 0 else (if bs[0] == b then 1 else 0) + Count(bs[1..], b)
  }

  lemma {:induction false} FlattenAppend(a: seq<Piece>, b: seq<Piece>)
    ensures Flatten(a + b) == Flatten(a) + Flatten(b)
  {
    if a == [] {
      assert a + b == b;
    } else {
      assert (a + b)[1..] == a[1..] + b;
      FlattenAppend(a[1..], b);
    }
  }

  lemma {:induction false} OutlineAppend(a: seq<Piece>, b: seq<Piece>)
    ensures Outline(a + b) == Outline(a) + Outline(b)
  {
    if a == [] {
      assert a + b == b;
    } else {
      var h := if a[0].Mark? then [a[0].block] else [];
      assert (a + b)[0] == a[0];
      assert (a + b)[1..] == a[1..] + b;
      assert Outline(a + b) == h + Outline(a[1..] + b);
      OutlineAppend(a[1..], b);
      assert h + (Outline(a[1..]) + Outline(b)) == (h + Outline(a[1..])) + Outline(b);
    }
  }

  lemma OutlineAppend4(a: seq<Piece>, b: seq<Piece>, c: seq<Piece>, d: seq<Piece>)
    ensures Outline(a + (b + (c + d))) == Outline(a) + Outline(b) + Outline(c) + Outline(d)
  {
    OutlineAppend(c, d);
    OutlineAppend(b, c + d);
    OutlineAppend(a, b + (c + d));
  }

  /** Every mark is followed by a piece of the same list: the list ends with plain text, or is empty. */
  predicate Closed(ps: seq<Piece>) {
    ps == [] || ps[|ps| - 1].Plain?
  }

  /** A fragment that opens block `b` and continues with plain text only. */
  predicate Opened(ps: seq<Piece>, b: Block) {
    && |ps| >= 2
    && ps[0].Mark? && ps[0].block == b
    && forall i :: 1 <= i < |ps| ==> ps[i].Plain?
  }

  lemma {:induction false} AllPlainOpensNothing(ps: seq<Piece>, b: Block)
    requires forall i :: 0 <= i < |ps| ==> ps[i].Plain?
    ensures Outline(ps) == []
    ensures ContentOf(ps, b) == None && MarkedText(ps, b) == None
  {
    if ps != [] {
      AllPlainOpensNothing(ps[1..], b);
    }
  }

  /** An opened fragment shows its own block once, with the piece after the mark as content. */
  lemma OpenedLookup(ps: seq<Piece>, b: Block)
    requires Opened(ps, b)
    ensures Closed(ps)
    ensures Outline(ps) == [b]
    ensures ContentOf(ps, b) == Some(ps[1].text)
    ensures MarkedText(ps, b) == Some(ps[0].text)
  {
    AllPlainOpensNothing(ps[1..], b);
  }

  /** In a list made of a closed front part and a back part, a block is looked up where it first occurs. */
  lemma {:induction false} LookupAppend(a: seq<Piece>, c: seq<Piece>, b: Block)
    requires Closed(a) || b !in Outline(a)
    ensures ContentOf(a + c, b) == if b in Outline(a) then ContentOf(a, b) else ContentOf(c, b)
    ensures MarkedText(a + c, b) == if b in Outline(a) then MarkedText(a, b) else MarkedText(c, b)
  {
    if a == [] {
      assert a + c == c;
    } else {
      assert (a + c)[1..] == a[1..] + c;
      assert Outline(a) == (if a[0].Mark? then [a[0].block] else []) + Outline(a[1..]);
      if a[0].Mark? && a[0].block == b {
        assert (a + c)[1] == a[1];
      } else {
        LookupAppend(a[1..], c, b);
      }
    }
  }

  /** A block absent from the outline has neither opening text nor content. */
  lemma AbsentLookup(ps: seq<Piece>, b: Block)
    requires b !in Outline(ps)
    ensures ContentOf(ps, b) == None && MarkedText(ps, b) == None
  {
    LookupAppend(ps, [], b);
    assert ps + [] == ps;
  }

  /**
   * A section: an opening mark, two closed parts, a closing plain piece. It
   * opens its own block and then the parts' blocks in order, and any other
   * block is found in the first part that opens it.
   */
  lemma FrameLookup(m: Piece, a: seq<Piece>, c: seq<Piece>, z: Piece, b: Block)
    requires m.Mark? && z.Plain? && Closed(a) && Closed(c)
    ensures Closed([m] + (a + (c + [z])))
    ensures Outline([m] + (a + (c + [z]))) == [m.block] + Outline(a) + Outline(c)
    ensures MarkedText([m] + (a + (c + [z])), m.block) == Some(m.text)
    ensures b != m.block ==>
              ContentOf([m] + (a + (c + [z])), b) == if b in Outline(a) then ContentOf(a, b) else ContentOf(c, b)
  {
    var zs := [z];
    AllPlainOpensNothing(zs, b);
    assert Outline([m]) == [m.block] by {
      assert [m][1..] == [];
    }
    OutlineAppend(c, zs);
    OutlineAppend4([m], a, c, zs);
    if b != m.block {
      LookupAppend([m], a + (c + zs), b);
    }
    LookupAppend(a, c + zs, b);
    LookupAppend(c, zs, b);
    if b !in Outline(c) {
      AbsentLookup(c, b);
    }
  }

  lemma ClosedAppend(a: seq<Piece>, c: seq<Piece>)
    requires Closed(a) && Closed(c)
    ensures Closed(a + c)
  {
  }

  lemma {:induction false} CountAppend(a: seq<Block>, c: seq<Block>, b: Block)
    ensures Count(a + c, b) == Count(a, b) + Count(c, b)
  {
    if a == [] {
      assert a + c == c;
    } else {
      assert (a + c)[1..] == a[1..] + c;
      CountAppend(a[1..], c, b);
    }
  }

  lemma {:induction false} CountAbsent(bs: seq<Block>, b: Block)
    requires b !in bs
    ensures Count(bs, b) == 0
  {
    if bs != [] {
      CountAbsent(bs[1..], b);
    }
  }

  /** Texts concatenated in order. */
  function Join(texts: seq<string>): string {
    if texts == [] then "" else texts[0] + Join(texts[1..])
  }

  /**
   * One section per element, in input order, each rendered with its
   * position counted from `start` (Python's `for i, x in enumerate(xs)`).
   */
  function SectionList<T>(xs: seq<T>, start: int, render: (T, int) -> seq<Piece>): seq<Piece> {
    if xs == [] then [] else render(xs[0], start) + SectionList(xs[1..], start + 1, render)
  }

  /** The list's text is each element's section text, in input order, with its own position. */
  lemma {:induction false} SectionListInOrder<T>(xs: seq<T>, start: int, render: (T, int) -> seq<Piece>)
    ensures Flatten(SectionList(xs, start, render)) ==
              Join(seq(|xs|, j requires 0 <= j < |xs| => Flatten(render(xs[j], start + j))))
  {
    var texts := seq(|xs|, j requires 0 <= j < |xs| => Flatten(render(xs[j], start + j)));
    if xs != [] {
      SectionListInOrder(xs[1..], start + 1, render);
      FlattenAppend(render(xs[0], start), SectionList(xs[1..], start + 1, render));
      assert texts[1..] == seq(|xs[1..]|, j requires 0 <= j < |xs[1..]| => Flatten(render(xs[1..][j], start + 1 + j)));
    }
  }

  /** Outlines of the elements, concatenated in order. */
  function OutlineList<T>(xs: seq<T>, spec: T -> seq<Block>): seq<Block> {
    if xs == [] then [] else spec(xs[0]) + OutlineList(xs[1..], spec)
  }

  /** When every section opens what `spec` says, the list opens the concatenation, and stays closed. */
  lemma {:induction false} SectionListOutline<T>(xs: seq<T>, start: int, render: (T, int) -> seq<Piece>,
                                                 spec: T -> seq<Block>)
    requires forall x, i :: Outline(render(x, i)) == spec(x) && Closed(render(x, i))
    ensures Outline(SectionList(xs, start, render)) == OutlineList(xs, spec)
    ensures Closed(SectionList(xs, start, render))
  {
    if xs != [] {
      SectionListOutline(xs[1..], start + 1, render, spec);
      OutlineAppend(render(xs[0], start), SectionList(xs[1..], start + 1, render));
      ClosedAppend(render(xs[0], start), SectionList(xs[1..], start + 1, render));
    }
  }

  /** A property shared by every block of every element's outline holds of the whole list's outline. */
  lemma {:induction false} OutlineListBlocks<T>(xs: seq<T>, spec: T -> seq<Block>, P: Block -> bool)
    requires forall x, b :: b in spec(x) ==> P(b)
    ensures forall b :: b in OutlineList(xs, spec) ==> P(b)
  {
    if xs != [] {
      OutlineListBlocks(xs[1..], spec, P);
    }
  }

  /** A block opened once per element is opened once per element of the list. */
  lemma {:induction false} OutlineListCount<T>(xs: seq<T>, spec: T -> seq<Block>, b: Block)
    requires forall x :: Count(spec(x), b) == 1
    ensures Count(OutlineList(xs, spec), b) == |xs|
  {
    if xs != [] {
      OutlineListCount(xs[1..], spec, b);
      CountAppend(spec(xs[0]), OutlineList(xs[1..], spec), b);
    }
  }

  /** An opened heading followed by a closed body that does not open the heading's block again. */
  lemma HeadedBody(heading: seq<Piece>, body: seq<Piece>, b: Block)
    requires Opened(heading, b) && Closed(body) && b !in Outline(body)
    ensures Closed(heading + body)
    ensures Outline(heading + body) == [b] + Outline(body)
    ensures ContentOf(heading + body, b) == Some(heading[1].text)
  {
    OpenedLookup(heading, b);
    OutlineAppend(heading, body);
    LookupAppend(heading, body, b);
    ClosedAppend(heading, body);
  }
}
