/**
 * The Python string operations the renderer relies on: `str.strip()`,
 * `str.replace(old, new)`, `str.upper()` and `str.title()`. Case mapping is
 * restricted to ASCII letters; whitespace follows `str.isspace()` exactly.
 */
module Text {

  /** Python's `str.isspace()`: bidirectional class WS, B or S, or general category Zs. */
  predicate IsSpace(c: char) {
    || c == ' '
    || ('\t' <= c <= '\r')
    || ('\U{1C}' <= c <= '\U{1F}')
    || c == '\U{85}' || c == '\U{A0}' || c == '\U{1680}'
    || ('\U{2000}' <= c <= '\U{200A}')
    || c == '\U{2028}' || c == '\U{2029}' || c == '\U{202F}' || c == '\U{205F}' || c == '\U{3000}'
  }

  predicate AllSpace(s: string) {
    forall k :: 0 <= k < |s| ==> IsSpace(s[k])
  }

  /** Neither end of `s` is whitespace. */
  predicate Trimmed(s: string) {
    s == [] || (!IsSpace(s[0]) && !IsSpace(s[|s| - 1]))
  }

  /** Length of the longest all-whitespace prefix. */
  function LeadingSpace(s: string): (n: nat)
    ensures n <= |s|
    ensures AllSpace(s[..n])
    ensures n == |s| || !IsSpace(s[n])
  {
    if s == [] || !IsSpace(s[0]) then 0 else 1 + LeadingSpace(s[1..])
  }

  /** Length of the longest all-whitespace suffix. */
  function TrailingSpace(s: string): (n: nat)
    ensures n <= |s|
    ensures AllSpace(s[|s| - n..])
    ensures n == |s| || !IsSpace(s[|s| - 1 - n])
  {
    if s == [] || !IsSpace(s[|s| - 1]) then 0 else 1 + TrailingSpace(s[..|s| - 1])
  }

  /**
   * Python's `str.strip()` with no argument: `s` is the result framed by two
   * runs of whitespace, and the result itself starts and ends with a
   * non-whitespace character (or is empty).
   */
  function Strip(s: string): (r: string)
    ensures Trimmed(r)
    ensures LeadingSpace(s) + |r| <= |s|
    ensures r == s[LeadingSpace(s)..LeadingSpace(s) + |r|]
    ensures AllSpace(s[LeadingSpace(s) + |r|..])
  {
    var t := s[LeadingSpace(s)..];
    t[..|t| - TrailingSpace(t)]
  }

  /** Whitespace in front adds exactly its own length to the leading run. */
  lemma {:induction false} LeadingSpaceAppend(a: string, b: string)
    requires AllSpace(a)
    ensures LeadingSpace(a + b) == |a| + LeadingSpace(b)
  {
    if a != [] {
      assert (a + b)[1..] == a[1..] + b;
      LeadingSpaceAppend(a[1..], b);
    } else {
      assert a + b == b;
    }
  }

  /** Whitespace behind adds exactly its own length to the trailing run. */
  lemma {:induction false} TrailingSpaceAppend(a: string, b: string)
    requires AllSpace(b)
    ensures TrailingSpace(a + b) == |b| + TrailingSpace(a)
  {
    if b != [] {
      assert (a + b)[..|a + b| - 1] == a + b[..|b| - 1];
      TrailingSpaceAppend(a, b[..|b| - 1]);
    } else {
      assert a + b == a;
    }
  }

  /** Strip removes exactly the whitespace framing a trimmed text, and nothing else. */
  lemma StripUnique(front: string, x: string, back: string)
    requires AllSpace(front) && AllSpace(back) && Trimmed(x)
    ensures Strip(front + x + back) == x
  {
    var s := front + x + back;
    assert s == front + (x + back);
    LeadingSpaceAppend(front, x + back);
    var t := s[LeadingSpace(s)..];
    if x == [] {
      assert x + back == back + [];
      LeadingSpaceAppend(back, []);
      assert t == [];
    } else {
      assert LeadingSpace(x + back) == 0;
      assert t == x + back;
      TrailingSpaceAppend(x, back);
      assert TrailingSpace(x) == 0;
      assert t[..|t| - TrailingSpace(t)] == x;
    }
  }

  /** Stripping twice is stripping once. */
  lemma StripIdempotent(s: string)
    ensures Strip(Strip(s)) == Strip(s)
  {
    StripUnique([], Strip(s), []);
    assert [] + Strip(s) + [] == Strip(s);
  }

  /** `pattern` occurs somewhere in `s`. */
  predicate Contains(s: string, pattern: string) {
    pattern <= s || (s != [] && Contains(s[1..], pattern))
  }

  /**
   * Python's `str.replace(pattern, replacement)` for a non-empty pattern: scan
   * left to right and replace every non-overlapping occurrence, in one pass.
   */
  function ReplaceAll(s: string, pattern: string, replacement: string): (r: string)
    requires pattern != []
    ensures !Contains(s, pattern) ==> r == s
    ensures |replacement| <= |pattern| ==> |r| <= |s|
    ensures |pattern| <= |replacement| ==> |s| <= |r|
    decreases |s|
  {
    if s == [] then []
    else if pattern <= s then replacement + ReplaceAll(s[|pattern|..], pattern, replacement)
    else [s[0]] + ReplaceAll(s[1..], pattern, replacement)
  }

  /** An occurrence at the very front is replaced and the scan resumes right after it. */
  lemma ReplaceAtFront(pattern: string, body: string, replacement: string)
    requires pattern != []
    ensures ReplaceAll(pattern + body, pattern, replacement) == replacement + ReplaceAll(body, pattern, replacement)
  {
    var s := pattern + body;
    assert pattern <= s;
    assert s[|pattern|..] == body;
  }

  /**
   * The scan replaces the leftmost occurrence: text before it is copied,
   * the occurrence becomes the replacement, and the scan resumes after it.
   */
  lemma {:induction false} ReplaceLeftmost(a: string, pattern: string, b: string, replacement: string)
    requires pattern != []
    requires forall k :: 0 <= k < |a| ==> !(pattern <= (a + pattern + b)[k..])
    ensures ReplaceAll(a + pattern + b, pattern, replacement) == a + replacement + ReplaceAll(b, pattern, replacement)
    decreases |a|
  {
    var s := a + pattern + b;
    if a == [] {
      assert s == pattern + b;
      ReplaceAtFront(pattern, b, replacement);
    } else {
      assert !(pattern <= s[0..]);
      assert s[0..] == s;
      assert s[1..] == a[1..] + pattern + b;
      forall k | 0 <= k < |a[1..]| ensures !(pattern <= (a[1..] + pattern + b)[k..]) {
        assert (a[1..] + pattern + b)[k..] == s[k + 1..];
      }
      ReplaceLeftmost(a[1..], pattern, b, replacement);
      assert [a[0]] + a[1..] == a;
    }
  }

  /** Replacing one character by another changes exactly the positions holding it. */
  lemma {:induction false} ReplaceCharByChar(s: string, c: char, d: char)
    ensures |ReplaceAll(s, [c], [d])| == |s|
    ensures forall i :: 0 <= i < |s| ==> ReplaceAll(s, [c], [d])[i] == (if s[i] == c then d else s[i])
    decreases |s|
  {
    if s != [] {
      ReplaceCharByChar(s[1..], c, d);
      var rest := ReplaceAll(s[1..], [c], [d]);
      if [c] <= s {
        assert s[|[c]|..] == s[1..];
        assert ReplaceAll(s, [c], [d]) == [d] + rest;
      } else {
        assert ReplaceAll(s, [c], [d]) == [s[0]] + rest;
      }
    }
  }

  /** A character absent from `s` does not occur in it as a one-character pattern. */
  lemma {:induction false} AbsentCharNotContained(s: string, c: char)
    requires c !in s
    ensures !Contains(s, [c])
  {
    if s != [] {
      assert s[0] != c;
      assert c !in s[1..];
      AbsentCharNotContained(s[1..], c);
    }
  }

  /** Number of occurrences of `c` in `s`. */
  function Occurrences(s: string, c: char): nat {
    if s == [] then 0 else (if s[0] == c then 1 else 0) + Occurrences(s[1..], c)
  }

  /** Replacing one character by a text that lacks it leaves no occurrence of that character. */
  lemma {:induction false} ReplaceCharRemovesIt(s: string, c: char, replacement: string)
    requires c !in replacement
    ensures c !in ReplaceAll(s, [c], replacement)
    decreases |s|
  {
    if s != [] {
      ReplaceCharRemovesIt(s[1..], c, replacement);
      if [c] <= s {
        assert s[1..] == s[|[c]|..];
      }
    }
  }

  /** Each occurrence of the replaced character grows the text by `|replacement| - 1`. */
  lemma {:induction false} ReplaceCharLength(s: string, c: char, replacement: string)
    ensures |ReplaceAll(s, [c], replacement)| == |s| + Occurrences(s, c) * (|replacement| - 1)
    decreases |s|
  {
    if s != [] {
      ReplaceCharLength(s[1..], c, replacement);
      var k := Occurrences(s[1..], c);
      if [c] <= s {
        assert s[1..] == s[|[c]|..];
        assert (k + 1) * (|replacement| - 1) == k * (|replacement| - 1) + (|replacement| - 1);
      }
    }
  }

  /** A prefix free of `<` and of newlines that shows after newline-to-`<br>` substitution was already there. */
  lemma {:induction false} BreakFreePrefix(w: string, t: string)
    requires '<' !in w && '\n' !in w
    requires w <= ReplaceAll(t, "\n", "<br>")
    ensures w <= t
    decreases |t|
  {
    if w != [] && t != [] {
      var rt := ReplaceAll(t, "\n", "<br>");
      assert rt[0] == (if t[0] == '\n' then '<' else t[0]);
      assert rt == [t[0]] + ReplaceAll(t[1..], "\n", "<br>");
      assert w[1..] <= ReplaceAll(t[1..], "\n", "<br>");
      BreakFreePrefix(w[1..], t[1..]);
    }
  }

  /** A `<br>` that starts right at a character other than a newline was in the text before substitution. */
  lemma BreakAtFrontWasThere(c: char, t: string)
    requires c != '\n'
    requires "<br>" <= [c] + ReplaceAll(t, "\n", "<br>")
    ensures "<br>" <= [c] + t
  {
    var rest := ReplaceAll(t, "\n", "<br>");
    assert c == ([c] + rest)[0] == '<';
    assert ([c] + rest)[1..] == rest;
    assert "br>" <= rest;
    BreakFreePrefix("br>", t);
  }

  /**
   * Turning every newline into `<br>` loses nothing when the text had no
   * `<br>` of its own: turning every `<br>` back into a newline restores it.
   */
  lemma {:induction false} BreaksRestoreNewlines(s: string)
    requires !Contains(s, "<br>")
    ensures ReplaceAll(ReplaceAll(s, "\n", "<br>"), "<br>", "\n") == s
    decreases |s|
  {
    if s != [] {
      assert !Contains(s[1..], "<br>");
      BreaksRestoreNewlines(s[1..]);
      var rest := ReplaceAll(s[1..], "\n", "<br>");
      if "\n" <= s {
        assert s[1..] == s[|"\n"|..];
        var t := "<br>" + rest;
        assert "<br>" <= t;
        assert t[|"<br>"|..] == rest;
      } else {
        var t := [s[0]] + rest;
        assert t[1..] == rest;
        assert s[0] != '\n';
        assert [s[0]] + s[1..] == s;
        if "<br>" <= t {
          BreakAtFrontWasThere(s[0], s[1..]);
          assert false;
        }
      }
    }
  }

  predicate IsAsciiUpper(c: char) { 'A' <= c <= 'Z' }

  predicate IsAsciiLower(c: char) { 'a' <= c <= 'z' }

  /** The letters the model treats as cased. */
  predicate IsLetter(c: char) { IsAsciiUpper(c) || IsAsciiLower(c) }

  function UpperChar(c: char): char {
    if IsAsciiLower(c) then (c as int - 32) as char else c
  }

  function LowerChar(c: char): char {
    if IsAsciiUpper(c) then (c as int + 32) as char else c
  }

  /** Python's `str.upper()` on ASCII: every lower-case letter becomes its capital, nothing else moves. */
  function Upper(s: string): (r: string)
    ensures |r| == |s|
    ensures forall i :: 0 <= i < |s| ==> !IsAsciiLower(r[i])
    ensures forall i :: 0 <= i < |s| ==> LowerChar(r[i]) == LowerChar(s[i])
  {
    seq(|s|, i requires 0 <= i < |s| => UpperChar(s[i]))
  }

  /**
   * Python's `str.title()` on ASCII: a letter is capitalised when the
   * character before it is not a letter and lower-cased otherwise; other
   * characters are kept.
   */
  function TitleCase(s: string): (r: string)
    ensures |r| == |s|
    ensures forall i :: 0 <= i < |s| ==> LowerChar(r[i]) == LowerChar(s[i])
    ensures forall i :: 0 <= i < |s| ==> (IsLetter(r[i]) <==> IsLetter(s[i]))
    ensures forall i :: 0 <= i < |s| && IsLetter(s[i]) ==>
              (IsAsciiUpper(r[i]) <==> (i == 0 || !IsLetter(s[i - 1])))
  {
    seq(|s|, i requires 0 <= i < |s| =>
      if i > 0 && IsLetter(s[i - 1]) then LowerChar(s[i]) else UpperChar(s[i]))
  }

  /** Two letters that agree up to case and in being capitals are the same letter. */
  lemma SameLetter(a: char, b: char)
    requires LowerChar(a) == LowerChar(b)
    requires IsLetter(a) == IsLetter(b) && IsAsciiUpper(a) == IsAsciiUpper(b)
    ensures a == b
  {
  }

  /** Title-casing a title-cased text changes nothing. */
  lemma TitleCaseIdempotent(s: string)
    ensures TitleCase(TitleCase(s)) == TitleCase(s)
  {
    var t := TitleCase(s);
    var u := TitleCase(t);
    forall i | 0 <= i < |s| ensures u[i] == t[i] {
      if IsLetter(s[i]) {
        assert i > 0 ==> (IsLetter(t[i - 1]) <==> IsLetter(s[i - 1]));
      }
      SameLetter(u[i], t[i]);
    }
  }
}
