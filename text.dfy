/**
  The Python string primitives the plugin relies on, written out so that their
  edge cases are explicit: `str.splitlines()`, `sep.join(parts)`, `s.split(sep)`,
  the ordering `<=` of names, and `"{}".format(n)` for a non-negative integer.
*/
module Text {
  import opened Wrappers

  // ---------------------------------------------------------------------------
  // Line boundaries and `splitlines`
  // ---------------------------------------------------------------------------

  /** The characters at which `splitlines` on a unicode string ends a line. */
  predicate IsLineBreak(c: char) {
    c == '\n' || c == '\r' || c == '\U{000B}' || c == '\U{000C}'
    || c == '\U{001C}' || c == '\U{001D}' || c == '\U{001E}'
    || c == '\U{0085}' || c == '\U{2028}' || c == '\U{2029}'
  }

  predicate NoLineBreaks(s: string) {
    forall i :: 0 <= i < |s| ==> !IsLineBreak(s[i])
  }

  /** Index of the first line break in `s`, or `|s|` when it has none. */
  function LineEnd(s: string): (k: nat)
    ensures k <= |s|
    ensures forall i :: 0 <= i < k ==> !IsLineBreak(s[i])
    ensures k < |s| ==> IsLineBreak(s[k])
  {
    if s == [] || IsLineBreak(s[0]) then 0 else 1 + LineEnd(s[1..])
  }

  /** Number of characters the break at `k` takes: `\r\n` is one break of two. */
  function BreakWidth(s: string, k: nat): (w: nat)
    requires k < |s|
    ensures w == 1 || w == 2
    ensures k + w <= |s|
    ensures w == 2 <==> s[k] == '\r' && k + 1 < |s| && s[k + 1] == '\n'
  {
    if s[k] == '\r' && k + 1 < |s| && s[k + 1] == '\n' then 2 else 1
  }

  /**
    `s.splitlines()`: the lines of `s` without their breaks. A break at the very
    end does not start another line, and the empty string has no lines.
  */
  function SplitLines(s: string): (lines: seq<string>)
    ensures forall i :: 0 <= i < |lines| ==> NoLineBreaks(lines[i])
    ensures lines == [] <==> s == []
    decreases |s|
  {
    if s == [] then []
    else
      var k := LineEnd(s);
      if k == |s| then [s]
      else
        var rest := SplitLines(s[k + BreakWidth(s, k)..]);
        assert NoLineBreaks(s[..k]);
        [s[..k]] + rest
  }

  /** A line followed by `\n` ends exactly there. */
  lemma LineEndBeforeNewline(line: string, t: string)
    requires NoLineBreaks(line)
    ensures LineEnd(line + "\n" + t) == |line|
    ensures BreakWidth(line + "\n" + t, |line|) == 1
  {
    var s := line + "\n" + t;
    var k := LineEnd(s);
    assert s[|line|] == '\n';
  }

  /** A non-empty text without breaks is a single line. */
  lemma SplitLinesSingle(line: string)
    requires line != [] && NoLineBreaks(line)
    ensures SplitLines(line) == [line]
  {
  }

  // ---------------------------------------------------------------------------
  // `join`
  // ---------------------------------------------------------------------------

  /** The total length of the pieces. */
  function TotalLength(parts: seq<string>): nat
  {
    if parts == [] then 0 else |parts[0]| + TotalLength(parts[1..])
  }

  /**
    `sep.join(parts)`: the pieces in order with `sep` between each two; its
    length is the pieces' lengths plus one separator per gap.
  */
  function Join(parts: seq<string>, sep: string): (r: string)
    ensures parts == [] ==> r == ""
    ensures parts != [] ==> |r| == TotalLength(parts) + (|parts| - 1) * |sep|
    ensures parts != [] ==> |r| >= |parts[0]| && r[..|parts[0]|] == parts[0]
  {
    if |parts| == 0 then ""
    else if |parts| == 1 then parts[0]
    else parts[0] + sep + Join(parts[1..], sep)
  }

  lemma JoinCons(first: string, rest: seq<string>, sep: string)
    requires rest != []
    ensures Join([first] + rest, sep) == first + sep + Join(rest, sep)
  {
    assert ([first] + rest)[1..] == rest;
  }

  lemma {:induction false} JoinSnoc(parts: seq<string>, last: string, sep: string)
    requires parts != []
    ensures Join(parts + [last], sep) == Join(parts, sep) + sep + last
  {
    if |parts| == 1 {
      assert parts + [last] == [parts[0]] + [last];
      JoinCons(parts[0], [last], sep);
    } else {
      assert parts + [last] == [parts[0]] + (parts[1..] + [last]);
      JoinCons(parts[0], parts[1..] + [last], sep);
      JoinSnoc(parts[1..], last, sep);
    }
  }

  /**
    Joining lines that hold no breaks with `\n` and splitting the result again
    gives the lines back, provided the last line is not empty (`splitlines`
    drops an empty line after a final break).
  */
  lemma {:induction false} SplitLinesOfJoin(lines: seq<string>)
    requires forall i :: 0 <= i < |lines| ==> NoLineBreaks(lines[i])
    requires lines != [] ==> lines[|lines| - 1] != ""
    ensures SplitLines(Join(lines, "\n")) == lines
  {
    if |lines| == 1 {
      SplitLinesSingle(lines[0]);
    } else if |lines| > 1 {
      var rest := lines[1..];
      assert lines == [lines[0]] + rest;
      JoinCons(lines[0], rest, "\n");
      var t := Join(rest, "\n");
      var s := lines[0] + "\n" + t;
      LineEndBeforeNewline(lines[0], t);
      assert s[|lines[0]| + 1..] == t;
      assert s[..|lines[0]|] == lines[0];
      SplitLinesOfJoin(rest);
    }
  }

  // ---------------------------------------------------------------------------
  // `find` and `split`
  // ---------------------------------------------------------------------------

  /** `sep` stands in `s` at index `j`. */
  predicate OccursAt(s: string, sep: string, j: nat) {
    j + |sep| <= |s| && s[j..j + |sep|] == sep
  }

  /** `s` holds `sep` somewhere. */
  predicate Contains(s: string, sep: string) {
    exists j: nat :: j <= |s| && OccursAt(s, sep, j)
  }

  lemma OccursShift(s: string, sep: string, j: nat)
    requires s != []
    ensures OccursAt(s, sep, j + 1) <==> OccursAt(s[1..], sep, j)
  {
    if j + 1 + |sep| <= |s| {
      assert s[j + 1..j + 1 + |sep|] == s[1..][j..j + |sep|];
    }
  }

  /** `s.find(sep)`: the leftmost index at which `sep` occurs, if any. */
  function Find(s: string, sep: string): (r: Option<nat>)
    requires sep != []
    ensures r.Some? ==> OccursAt(s, sep, r.value)
    ensures r.Some? ==> forall j: nat :: j < r.value ==> !OccursAt(s, sep, j)
    ensures r.None? ==> !Contains(s, sep)
    decreases |s|
  {
    if |s| < |sep| then None
    else if s[..|sep|] == sep then Some(0)
    else
      var tail := Find(s[1..], sep);
      assert forall j: nat :: OccursAt(s, sep, j + 1) <==> OccursAt(s[1..], sep, j) by {
        forall j: nat ensures OccursAt(s, sep, j + 1) <==> OccursAt(s[1..], sep, j) {
          OccursShift(s, sep, j);
        }
      }
      assert !OccursAt(s, sep, 0);
      match tail
      case None =>
        assert forall j: nat :: !OccursAt(s, sep, j) by {
          forall j: nat ensures !OccursAt(s, sep, j) {
            if j > 0 {
              assert !OccursAt(s[1..], sep, j - 1);
            }
          }
        }
        None
      case Some(i) =>
        assert forall j: nat :: j < i + 1 ==> !OccursAt(s, sep, j) by {
          forall j: nat | j < i + 1 ensures !OccursAt(s, sep, j) {
            if j > 0 {
              assert !OccursAt(s[1..], sep, j - 1);
            }
          }
        }
        Some(i + 1)
  }

  /**
    `s.split(sep)` for a non-empty separator: the pieces between the leftmost,
    non-overlapping occurrences of `sep`. Joining them with `sep` gives `s`.
  */
  function SplitOn(s: string, sep: string): (parts: seq<string>)
    requires sep != []
    ensures |parts| >= 1
    ensures Join(parts, sep) == s
    decreases |s|
  {
    match Find(s, sep)
    case None => [s]
    case Some(i) =>
      var rest := SplitOn(s[i + |sep|..], sep);
      JoinCons(s[..i], rest, sep);
      assert s == s[..i] + sep + s[i + |sep|..] by {
        assert s[i..i + |sep|] == sep;
      }
      [s[..i]] + rest
  }

  /** The text before the leftmost occurrence of `sep` holds no `sep`. */
  lemma NoneBeforeFirst(s: string, sep: string, i: nat)
    requires sep != [] && Find(s, sep) == Some(i)
    ensures !Contains(s[..i], sep)
  {
    forall j: nat | j <= i ensures !OccursAt(s[..i], sep, j) {
      if j + |sep| <= i {
        assert s[..i][j..j + |sep|] == s[j..j + |sep|];
        assert !OccursAt(s, sep, j);
      }
    }
  }

  /** The first piece of `s.split(sep)` ends at the first occurrence of `sep`. */
  lemma SplitOnFirst(s: string, sep: string)
    requires sep != []
    ensures Find(s, sep).None? ==> SplitOn(s, sep) == [s]
    ensures Find(s, sep).Some? ==>
      var i := Find(s, sep).value;
      SplitOn(s, sep) == [s[..i]] + SplitOn(s[i + |sep|..], sep)
  {
  }

  /** No piece of `s.split(sep)` holds `sep`. */
  lemma {:induction false} SplitOnPiecesHoldNoSeparator(s: string, sep: string)
    requires sep != []
    ensures forall p :: p in SplitOn(s, sep) ==> !Contains(p, sep)
    decreases |s|
  {
    SplitOnFirst(s, sep);
    match Find(s, sep)
    case None =>
    case Some(i) =>
      NoneBeforeFirst(s, sep, i);
      SplitOnPiecesHoldNoSeparator(s[i + |sep|..], sep);
  }

  /** The only line break `s` holds, if any, is `\n`. */
  predicate OnlyNewlineBreaks(s: string) {
    forall i :: 0 <= i < |s| ==> IsLineBreak(s[i]) ==> s[i] == '\n'
  }

  /** Before the first `\n` of such a text there is no line break. */
  lemma NewlineFreePrefix(s: string, i: nat)
    requires OnlyNewlineBreaks(s) && i <= |s|
    requires forall k: nat :: k < i ==> !OccursAt(s, "\n", k)
    ensures NoLineBreaks(s[..i])
  {
    forall k | 0 <= k < i ensures !IsLineBreak(s[..i][k]) {
      assert !OccursAt(s, "\n", k);
      assert s[k..k + 1] == [s[k]];
    }
  }

  /** What follows a position of such a text still breaks lines only with `\n`. */
  lemma OnlyNewlineBreaksSuffix(s: string, i: nat)
    requires OnlyNewlineBreaks(s) && i <= |s|
    ensures OnlyNewlineBreaks(s[i..])
  {
    forall k | 0 <= k < |s[i..]| ensures IsLineBreak(s[i..][k]) ==> s[i..][k] == '\n' {
      assert s[i..][k] == s[i + k];
    }
  }

  /** Splitting such a text at `\n` leaves pieces that hold no line break. */
  lemma {:induction false} SplitOnNewlineLines(s: string)
    requires OnlyNewlineBreaks(s)
    ensures forall p :: p in SplitOn(s, "\n") ==> NoLineBreaks(p)
    decreases |s|
  {
    SplitOnFirst(s, "\n");
    match Find(s, "\n")
    case None =>
      NewlineFreePrefix(s, |s|);
      assert s[..|s|] == s;
    case Some(i) =>
      NewlineFreePrefix(s, i);
      OnlyNewlineBreaksSuffix(s, i + 1);
      SplitOnNewlineLines(s[i + 1..]);
  }

  // ---------------------------------------------------------------------------
  // Ordering of names
  // ---------------------------------------------------------------------------

  /** Python's `a <= b` on strings: lexicographic by character code. */
  predicate NameLe(a: string, b: string)
    decreases |a|
  {
    a == [] || (b != [] && (a[0] < b[0] || (a[0] == b[0] && NameLe(a[1..], b[1..]))))
  }

  /** `a` is a prefix of `b`. */
  predicate IsPrefix(a: string, b: string) {
    |a| <= |b| && b[..|a|] == a
  }

  /** At the first position where `a` and `b` differ, `a` has the smaller character. */
  predicate SmallerAtFirstDifference(a: string, b: string) {
    exists k :: 0 <= k < |a| && k < |b| && a[..k] == b[..k] && a[k] < b[k]
  }

  lemma ConsIsPrefix(x: char, a: string, b: string)
    ensures IsPrefix([x] + a, [x] + b) <==> IsPrefix(a, b)
  {
    if |a| <= |b| {
      assert ([x] + b)[..|a| + 1] == [x] + b[..|a|];
      assert ([x] + b)[..|a| + 1] == [x] + a ==> b[..|a|] == ([x] + b)[..|a| + 1][1..] == a;
    }
  }

  lemma ConsSmallerAtFirstDifference(x: char, a: string, b: string)
    ensures SmallerAtFirstDifference([x] + a, [x] + b) <==> SmallerAtFirstDifference(a, b)
  {
    var a', b' := [x] + a, [x] + b;
    forall k | 0 <= k < |a| && k < |b| && a[..k] == b[..k] && a[k] < b[k]
      ensures 0 <= k + 1 < |a'| && k + 1 < |b'| && a'[..k + 1] == b'[..k + 1] && a'[k + 1] < b'[k + 1]
    {
      assert a'[..k + 1] == [x] + a[..k];
      assert b'[..k + 1] == [x] + b[..k];
    }
    forall k | 0 < k < |a'| && k < |b'| && a'[..k] == b'[..k] && a'[k] < b'[k]
      ensures 0 <= k - 1 < |a| && k - 1 < |b| && a[..k - 1] == b[..k - 1] && a[k - 1] < b[k - 1]
    {
      assert a[..k - 1] == a'[..k][1..];
      assert b[..k - 1] == b'[..k][1..];
    }
  }

  /**
    The same order stated through the first difference: `a <= b` exactly when
    `a` is a prefix of `b`, or at the first position where the two differ `a`
    has the smaller character.
  */
  lemma {:induction false} NameLeByFirstDifference(a: string, b: string)
    ensures NameLe(a, b) <==> IsPrefix(a, b) || SmallerAtFirstDifference(a, b)
    decreases |a|
  {
    if a == [] {
      assert b[..0] == a;
    } else if b == [] {
    } else if a[0] < b[0] {
      assert a[..0] == b[..0];
    } else if a[0] > b[0] {
      forall k | 0 < k < |a| && k < |b|
        ensures a[..k] != b[..k]
      {
        assert a[..k][0] == a[0] && b[..k][0] == b[0];
      }
      assert !IsPrefix(a, b) by {
        if |a| <= |b| {
          assert b[..|a|][0] == b[0];
        }
      }
    } else {
      NameLeByFirstDifference(a[1..], b[1..]);
      assert a == [a[0]] + a[1..] && b == [a[0]] + b[1..];
      ConsIsPrefix(a[0], a[1..], b[1..]);
      ConsSmallerAtFirstDifference(a[0], a[1..], b[1..]);
    }
  }

  lemma NameLeReflexive(a: string)
    ensures NameLe(a, a)
  {
  }

  lemma NameLeTotal(a: string, b: string)
    ensures NameLe(a, b) || NameLe(b, a)
  {
  }

  lemma NameLeTransitive(a: string, b: string, c: string)
    requires NameLe(a, b) && NameLe(b, c)
    ensures NameLe(a, c)
  {
  }

  // ---------------------------------------------------------------------------
  // Decimal formatting
  // ---------------------------------------------------------------------------

  predicate IsDigits(s: string) {
    forall i :: 0 <= i < |s| ==> '0' <= s[i] <= '9'
  }

  function DigitChar(d: nat): (c: char)
    requires d < 10
    ensures '0' <= c <= '9'
  {
    ('0' as int + d) as char
  }

  /** `"{}".format(n)` for `n >= 0`: decimal digits without leading zeros. */
  function DecimalString(n: nat): (s: string)
    ensures |s| >= 1 && IsDigits(s)
    ensures n > 0 ==> s[0] != '0'
    decreases n
  {
    if n < 10 then [DigitChar(n)] else DecimalString(n / 10) + [DigitChar(n % 10)]
  }

  /** The number a string of decimal digits denotes. */
  function DecimalValue(s: string): nat
    requires IsDigits(s)
  {
    if s == [] then 0
    else DecimalValue(s[..|s| - 1]) * 10 + (s[|s| - 1] as int - '0' as int)
  }

  /** Reading back what `DecimalString` wrote gives the number again. */
  lemma {:induction false} DecimalRoundTrip(n: nat)
    ensures DecimalValue(DecimalString(n)) == n
    decreases n
  {
    var s := DecimalString(n);
    if n >= 10 {
      DecimalRoundTrip(n / 10);
      assert s[..|s| - 1] == DecimalString(n / 10);
    }
  }

  function Pow10(k: nat): nat
  {
    if k == 0 then 1 else 10 * Pow10(k - 1)
  }

  /** A number with `k + 1` decimal digits is written with `k + 1` characters. */
  lemma {:induction false} DecimalLength(n: nat, k: nat)
    requires Pow10(k) <= n < Pow10(k + 1)
    ensures |DecimalString(n)| == k + 1
    decreases k
  {
    if k > 0 {
      assert Pow10(k) == 10 * Pow10(k - 1);
      assert Pow10(k + 1) == 10 * Pow10(k);
      DecimalLength(n / 10, k - 1);
    }
  }
}
