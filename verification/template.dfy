/**
 * Literal text with values interpolated between its pieces, as a Python
 * f-string or a chain of `+` builds it, and a reader that takes the values
 * back out when every value is free of `<` and every later piece starts with
 * a tag.
 */
module Template {
  import opened Options

  /** `literals[0] + values[0] + literals[1] + ... + values[n-1] + literals[n]`. */
  function Fill(literals: seq<string>, values: seq<string>): (r: string)
    requires |literals| == |values| + 1
    ensures literals[0] <= r
    decreases |values|
  {
    if values == [] then literals[0]
    else literals[0] + values[0] + Fill(literals[1..], values[1..])
  }

  /** The longest prefix of `s` without `stop`. */
  function TakeUntil(s: string, stop: char): (r: string)
    ensures r <= s && stop !in r
    ensures |r| == |s| || s[|r|] == stop
  {
    if s == [] || s[0] == stop then [] else [s[0]] + TakeUntil(s[1..], stop)
  }

  /** Matches the literals in order and reads each value up to the next `<`. */
  function Unfill(literals: seq<string>, s: string): (r: Option<seq<string>>)
    requires |literals| >= 1
    ensures r.Some? ==> |r.value| + 1 == |literals|
    ensures r.Some? ==> forall i :: 0 <= i < |r.value| ==> '<' !in r.value[i]
    decreases |literals|
  {
    if |literals| == 1 then (if s == literals[0] then Some([]) else None)
    else if !(literals[0] <= s) then None
    else
      var rest := s[|literals[0]|..];
      var v := TakeUntil(rest, '<');
      match Unfill(literals[1..], rest[|v|..])
      case None => None
      case Some(vs) => Some([v] + vs)
  }

  /** Every literal after the first opens with a tag. */
  predicate Delimited(literals: seq<string>) {
    forall i :: 1 <= i < |literals| ==> literals[i] != [] && literals[i][0] == '<'
  }

  /** Values free of `<` can be read back from the filled text, in order. */
  lemma {:induction false} FillUnfill(literals: seq<string>, values: seq<string>)
    requires |literals| == |values| + 1
    requires Delimited(literals)
    requires forall i :: 0 <= i < |values| ==> '<' !in values[i]
    ensures Unfill(literals, Fill(literals, values)) == Some(values)
    decreases |values|
  {
    if values != [] {
      var s := Fill(literals, values);
      var tail := Fill(literals[1..], values[1..]);
      assert s == literals[0] + (values[0] + tail);
      var rest := s[|literals[0]|..];
      assert rest == values[0] + tail;
      assert literals[1] <= tail;
      assert tail[0] == '<';
      TakeUntilStops(values[0], tail);
      assert rest[|values[0]|..] == tail;
      FillUnfill(literals[1..], values[1..]);
      assert [values[0]] + values[1..] == values;
    }
  }

  /** Reading up to `<` stops exactly at the end of a `<`-free value followed by a tag. */
  lemma {:induction false} TakeUntilStops(v: string, tail: string)
    requires '<' !in v
    requires tail != [] && tail[0] == '<'
    ensures TakeUntil(v + tail, '<') == v
    decreases |v|
  {
    if v != [] {
      assert (v + tail)[1..] == v[1..] + tail;
      TakeUntilStops(v[1..], tail);
    } else {
      assert v + tail == tail;
    }
  }
}
