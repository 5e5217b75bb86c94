/**
  The response sanitiser: `removeMarkers` strips the first and the last line of
  the model's reply, meant for the fence lines a model wraps code in. The rule is
  purely positional: nothing checks that those lines are fences.
*/
module Sanitizer {
  import opened Text

  /**
    Drop the first and the last of the lines of `code`; fewer than two lines
    are kept as they are. The result is strictly shorter than the input
    exactly when the input has two lines or more.
  */
  function RemoveMarkers(code: string): (r: string)
    ensures |SplitLines(code)| >= 2 <==> |r| < |code|
    ensures |SplitLines(code)| < 2 ==> r == code
  {
    var lines := SplitLines(code);
    if |lines| >= 2 then
      InnerLinesShorter(code);
      Join(lines[1..|lines| - 1], "\n")
    else code
  }

  /** Re-joining the lines of `s` with `\n` never makes it longer: each break took at least one character. */
  lemma {:induction false} JoinedLinesNoLonger(s: string)
    ensures |Join(SplitLines(s), "\n")| <= |s|
    decreases |s|
  {
    if s != [] {
      var k := LineEnd(s);
      if k < |s| {
        var t := s[k + BreakWidth(s, k)..];
        var rest := SplitLines(t);
        assert SplitLines(s) == [s[..k]] + rest;
        if rest != [] {
          JoinCons(s[..k], rest, "\n");
          JoinedLinesNoLonger(t);
        }
      }
    }
  }

  /** Re-joining the lines of `code` without its first and last line gives a strictly shorter text. */
  lemma InnerLinesShorter(code: string)
    requires |SplitLines(code)| >= 2
    ensures |Join(SplitLines(code)[1..|SplitLines(code)| - 1], "\n")| < |code|
  {
    var lines := SplitLines(code);
    var n := |lines|;
    var middle := lines[1..n - 1];
    var last := lines[n - 1];
    assert lines == [lines[0]] + (middle + [last]);
    JoinCons(lines[0], middle + [last], "\n");
    if middle != [] {
      JoinSnoc(middle, last, "\n");
    }
    JoinedLinesNoLonger(code);
  }

  /**
    With two lines or more, the lines of the result are the lines of the input
    without the first and the last (when the last kept line is not empty,
    since `splitlines` would not report an empty line after a final break).
  */
  lemma RemoveMarkersKeepsInnerLines(code: string)
    requires |SplitLines(code)| >= 2
    requires |SplitLines(code)| > 2 ==> SplitLines(code)[|SplitLines(code)| - 2] != ""
    ensures SplitLines(RemoveMarkers(code)) == SplitLines(code)[1..|SplitLines(code)| - 1]
  {
    var lines := SplitLines(code);
    SplitLinesOfJoin(lines[1..|lines| - 1]);
  }

  /**
    A reply that wraps `code` in an opening and a closing fence line is
    restored to `code` exactly, when `code` breaks lines only with `\n` and the
    closing line is not empty.
  */
  lemma RemoveMarkersFenced(open: string, code: string, close: string)
    requires NoLineBreaks(open) && NoLineBreaks(close) && close != ""
    requires OnlyNewlineBreaks(code)
    ensures RemoveMarkers(open + "\n" + code + "\n" + close) == code
  {
    var parts := SplitOn(code, "\n");
    SplitOnNewlineLines(code);
    var lines := [open] + parts + [close];
    assert lines == [open] + (parts + [close]);
    JoinCons(open, parts + [close], "\n");
    JoinSnoc(parts, close, "\n");
    assert Join(lines, "\n") == open + "\n" + code + "\n" + close;
    forall i | 0 <= i < |lines| ensures NoLineBreaks(lines[i]) {
      if 0 < i < |lines| - 1 {
        assert lines[i] == parts[i - 1];
      }
    }
    SplitLinesOfJoin(lines);
    assert lines[1..|lines| - 1] == parts;
  }

  /** For an input written as lines joined by `\n`, the result is the inner lines joined by `\n`. */
  lemma RemoveMarkersOfJoin(lines: seq<string>)
    requires |lines| >= 2
    requires forall i :: 0 <= i < |lines| ==> NoLineBreaks(lines[i])
    requires lines[|lines| - 1] != ""
    ensures RemoveMarkers(Join(lines, "\n")) == Join(lines[1..|lines| - 1], "\n")
  {
    var code := Join(lines, "\n");
    SplitLinesOfJoin(lines);
    assert SplitLines(code) == lines;
  }

  /** Three lines joined by `\n`, the last one not empty, split back into those lines. */
  lemma ThreeLines(a: string, b: string, c: string)
    requires NoLineBreaks(a) && NoLineBreaks(b) && NoLineBreaks(c) && c != ""
    ensures Join([a, b, c], "\n") == a + "\n" + b + "\n" + c
  {
    JoinCons(b, [c], "\n");
    JoinCons(a, [b, c], "\n");
    assert [a] + [b, c] == [a, b, c];
    assert [b] + [c] == [b, c];
  }

  /** Three lines without breaks, joined by `\n`, break lines only with `\n`. */
  lemma ThreeLinesOnlyNewlines(a: string, b: string, c: string)
    requires NoLineBreaks(a) && NoLineBreaks(b) && NoLineBreaks(c)
    ensures OnlyNewlineBreaks(a + "\n" + b + "\n" + c)
  {
    var code := a + "\n" + b + "\n" + c;
    forall i | 0 <= i < |code| ensures IsLineBreak(code[i]) ==> code[i] == '\n' {
      if i < |a| {
        assert code[i] == a[i];
      } else if |a| < i < |a| + 1 + |b| {
        assert code[i] == b[i - |a| - 1];
      } else if i > |a| + 1 + |b| {
        assert code[i] == c[i - |a| - |b| - 2];
      }
    }
  }

  /**
    Without fences the rule still drops real code: of three lines of code,
    only the middle one is kept.
  */
  lemma RemoveMarkersDropsUnfencedLines(a: string, b: string, c: string)
    requires NoLineBreaks(a) && NoLineBreaks(b) && NoLineBreaks(c) && c != ""
    ensures RemoveMarkers(a + "\n" + b + "\n" + c) == b
  {
    ThreeLines(a, b, c);
    RemoveMarkersOfJoin([a, b, c]);
    assert [a, b, c][1..2] == [b];
  }

  /**
    The rule is not idempotent: once the fences around three lines of code are
    gone, a second pass strips the first and last line of the code.
  */
  lemma RemoveMarkersNotIdempotent(fence: string, a: string, b: string, c: string)
    requires NoLineBreaks(fence) && fence != ""
    requires NoLineBreaks(a) && NoLineBreaks(b) && NoLineBreaks(c) && c != ""
    ensures RemoveMarkers(fence + "\n" + a + "\n" + b + "\n" + c + "\n" + fence) == a + "\n" + b + "\n" + c
    ensures RemoveMarkers(RemoveMarkers(fence + "\n" + a + "\n" + b + "\n" + c + "\n" + fence)) == b
  {
    var code := a + "\n" + b + "\n" + c;
    ThreeLinesOnlyNewlines(a, b, c);
    RemoveMarkersFenced(fence, code, fence);
    assert fence + "\n" + code + "\n" + fence == fence + "\n" + a + "\n" + b + "\n" + c + "\n" + fence;
    RemoveMarkersDropsUnfencedLines(a, b, c);
  }
}
