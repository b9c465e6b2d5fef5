/**
 * String operations the program relies on: JavaScript's `Array.prototype.join`,
 * splitting on a delimiter (how a reader takes a CSV file or a multipart body
 * apart), and decimal rendering of lengths.
 */
module Text {
  import opened Wrappers

  /** `d` occurs in `s` starting at index `j`. */
  predicate OccursAt(s: string, d: string, j: nat) {
    j + |d| <= |s| && s[j..j + |d|] == d
  }

  /** `d` occurs nowhere in `s`. */
  ghost predicate Free(s: string, d: string) {
    forall j: nat :: !OccursAt(s, d, j)
  }

  /** The leftmost occurrence of `d` in `s` at or after index `from`. */
  function FindFrom(s: string, d: string, from: nat): (r: Option<nat>)
    decreases |s| - from
    ensures r.Some? ==> from <= r.value && OccursAt(s, d, r.value)
    ensures forall j: nat :: from <= j && (r.None? || j < r.value) ==> !OccursAt(s, d, j)
  {
    if from + |d| > |s| then None
    else if s[from..from + |d|] == d then Some(from)
    else FindFrom(s, d, from + 1)
  }

  /**
   * Splits `s` at every (leftmost, non-overlapping) occurrence of `d`, as
   * JavaScript's `String.prototype.split` does with a string separator.
   */
  function Split(s: string, d: string): (r: seq<string>)
    requires |d| > 0
    decreases |s|
    ensures |r| > 0
    ensures forall k :: 0 <= k < |r| ==> Free(r[k], d)
  {
    match FindFrom(s, d, 0)
    case None => [s]
    case Some(i) =>
      assert Free(s[..i], d) by {
        forall j: nat ensures !OccursAt(s[..i], d, j) {
          if OccursAt(s[..i], d, j) {
            assert s[j..j + |d|] == s[..i][j..j + |d|];
            assert OccursAt(s, d, j);
          }
        }
      }
      [s[..i]] + Split(s[i + |d|..], d)
  }

  /** JavaScript's `items.join(sep)`: no separator before the first or after the last item. */
  function Join(items: seq<string>, sep: string): string {
    if |items| == 0 then ""
    else if |items| == 1 then items[0]
    else items[0] + sep + Join(items[1..], sep)
  }

  /** Every item followed by `sep`: the shape of a file written one line at a time. */
  function Terminated(items: seq<string>, sep: string): string {
    if |items| == 0 then "" else items[0] + sep + Terminated(items[1..], sep)
  }

  /**
   * No occurrence of `d` can begin inside `p`, whatever text follows `p`:
   * wherever `p` holds the first character of `d`, the next character is
   * still inside `p` and differs from the second character of `d`.
   */
  predicate Separable(p: string, d: string)
    requires |d| > 0
  {
    forall j :: 0 <= j < |p| && p[j] == d[0] ==> j + 1 < |p| && 1 < |d| && p[j + 1] != d[1]
  }

  lemma NoEarlyOccurrence(p: string, d: string, s: string)
    requires |d| > 0 && Separable(p, d) && p <= s
    ensures forall j: nat :: j < |p| ==> !OccursAt(s, d, j)
  {
    forall j: nat | j < |p| ensures !OccursAt(s, d, j) {
      if j + |d| <= |s| {
        var w := s[j..j + |d|];
        assert w[0] == p[j];
        if p[j] == d[0] {
          assert 1 < |d| && w[1] == p[j + 1] != d[1];
        }
      }
    }
  }

  /** A separable piece followed by the delimiter is found as the first field. */
  lemma FindAfterSeparable(p: string, d: string, rest: string)
    requires |d| > 0 && Separable(p, d)
    ensures FindFrom(p + d + rest, d, 0) == Some(|p|)
  {
    var s := p + d + rest;
    NoEarlyOccurrence(p, d, s);
    assert s[|p|..|p| + |d|] == d;
    assert OccursAt(s, d, |p|);
  }

  lemma {:induction false} SplitAfter(p: string, d: string, rest: string)
    requires |d| > 0 && Separable(p, d)
    ensures Split(p + d + rest, d) == [p] + Split(rest, d)
  {
    var s := p + d + rest;
    FindAfterSeparable(p, d, rest);
    assert s[..|p|] == p;
    assert s[|p| + |d|..] == rest;
  }

  lemma {:induction false} SplitWhole(p: string, d: string)
    requires |d| > 0 && Separable(p, d)
    ensures Split(p, d) == [p]
  {
    NoEarlyOccurrence(p, d, p);
  }

  /** Splitting a join of separable items gives the items back. */
  lemma {:induction false} SplitJoin(items: seq<string>, d: string)
    requires |d| > 0 && |items| > 0
    requires forall i :: 0 <= i < |items| ==> Separable(items[i], d)
    ensures Split(Join(items, d), d) == items
    decreases |items|
  {
    if |items| == 1 {
      SplitWhole(items[0], d);
    } else {
      SplitAfter(items[0], d, Join(items[1..], d));
      SplitJoin(items[1..], d);
    }
  }

  /** Splitting text in which every separable item is terminated by `d` gives the items and a final "". */
  lemma {:induction false} SplitTerminated(items: seq<string>, d: string)
    requires |d| > 0
    requires forall i :: 0 <= i < |items| ==> Separable(items[i], d)
    ensures Split(Terminated(items, d), d) == items + [""]
    decreases |items|
  {
    if |items| == 0 {
      assert FindFrom("", d, 0) == None;
    } else {
      var tail := items[1..];
      var rest := Terminated(tail, d);
      assert forall i :: 0 <= i < |tail| ==> tail[i] == items[i + 1];
      SplitAfter(items[0], d, rest);
      SplitTerminated(tail, d);
      assert items + [""] == [items[0]] + (tail + [""]);
    }
  }

  lemma {:induction false} JoinThenTerminate(items: seq<string>, d: string)
    requires |items| > 0
    ensures Join(items, d) + d == Terminated(items, d)
    decreases |items|
  {
    if |items| > 1 {
      JoinThenTerminate(items[1..], d);
      assert Terminated(items[1..], d) == Join(items[1..], d) + d;
    }
  }

  /** Joining after a prefix of items: each item of the prefix is followed by the separator. */
  lemma {:induction false} JoinAfterTerminated(xs: seq<string>, ys: seq<string>, sep: string)
    requires |ys| > 0
    ensures Join(xs + ys, sep) == Terminated(xs, sep) + Join(ys, sep)
    decreases |xs|
  {
    if |xs| > 0 {
      assert (xs + ys)[1..] == xs[1..] + ys;
      JoinAfterTerminated(xs[1..], ys, sep);
    } else {
      assert xs + ys == ys;
    }
  }

  lemma JoinThree(a: string, b: string, c: string, sep: string)
    ensures Join([a, b, c], sep) == a + sep + (b + sep + c)
  {
    var items := [a, b, c];
    assert items[1..] == [b, c] && items[1..][1..] == [c];
    assert Join([c], sep) == c;
    assert Join([b, c], sep) == b + sep + c;
  }

  /** Appending an item appends it and one more separator. */
  lemma {:induction false} TerminatedSnoc(items: seq<string>, x: string, sep: string)
    ensures Terminated(items + [x], sep) == Terminated(items, sep) + x + sep
    decreases |items|
  {
    if |items| > 0 {
      assert (items + [x])[1..] == items[1..] + [x];
      TerminatedSnoc(items[1..], x, sep);
    } else {
      assert Terminated([x], sep) == x + sep + Terminated([], sep);
    }
  }

  /** Splitting items joined by and wrapped in `d` gives "", the items, and "". */
  lemma {:induction false} SplitWrapped(items: seq<string>, d: string)
    requires |d| > 0 && |items| > 0
    requires forall i :: 0 <= i < |items| ==> Separable(items[i], d)
    ensures Split(d + Join(items, d) + d, d) == [""] + items + [""]
  {
    var rest := Terminated(items, d);
    JoinThenTerminate(items, d);
    assert Join(items, d) + d == rest;
    assert d + Join(items, d) + d == d + (Join(items, d) + d);
    assert d + Join(items, d) + d == "" + d + rest;
    SplitAfter("", d, rest);
    SplitTerminated(items, d);
  }

  /** A string without the one-character delimiter can be separated from what follows. */
  lemma LineSeparable(p: string, c: char)
    requires c !in p
    ensures Separable(p, [c])
  {
    forall j | 0 <= j < |p| ensures p[j] != c {
      assert p[j] in p;
    }
  }

  /**
   * Lines joined by "\n" can be separated from a delimiter that starts with "\n"
   * when no line after the first starts with the delimiter's second character
   * and the last line is not empty.
   */
  lemma {:induction false} JoinedLinesSeparable(lines: seq<string>, d: string)
    requires |lines| > 0 && |d| > 1 && d[0] == '\n' && d[1] != '\n'
    requires forall i :: 0 <= i < |lines| ==> '\n' !in lines[i]
    requires forall i :: 0 < i < |lines| ==> lines[i] == [] || lines[i][0] != d[1]
    requires lines[|lines| - 1] != []
    ensures Separable(Join(lines, "\n"), d)
    decreases |lines|
  {
    if |lines| == 1 {
      LineSeparable(lines[0], '\n');
    } else {
      var a, rest := lines[0], lines[1..];
      var tail := Join(rest, "\n");
      JoinedLinesSeparable(rest, d);
      assert |tail| > 0 && tail[0] != d[1] by {
        if |rest| == 1 {
          assert tail == rest[0] == lines[|lines| - 1];
        } else if rest[0] == [] {
          assert tail == rest[0] + "\n" + Join(rest[1..], "\n");
        } else {
          assert tail == rest[0] + "\n" + Join(rest[1..], "\n");
        }
      }
      var s := a + "\n" + tail;
      assert s == Join(lines, "\n");
      forall j | 0 <= j < |s| && s[j] == d[0] ensures j + 1 < |s| && s[j + 1] != d[1] {
        if j > |a| {
          assert s[j] == tail[j - |a| - 1];
          assert s[j + 1] == tail[j - |a|];
        }
      }
    }
  }

  /** The character for a decimal digit. */
  function DigitChar(k: nat): (c: char)
    requires k < 10
    ensures '0' <= c <= '9' && c as int - '0' as int == k
  {
    ('0' as int + k) as char
  }

  /** The decimal rendering of `n`, as a JavaScript template literal prints a length. */
  function Decimal(n: nat): (r: string)
    ensures |r| > 0 && IsDigits(r)
  {
    if n < 10 then [DigitChar(n)] else Decimal(n / 10) + [DigitChar(n % 10)]
  }

  predicate IsDigits(s: string) {
    forall i :: 0 <= i < |s| ==> '0' <= s[i] <= '9'
  }

  /** The value of a string of decimal digits. */
  function DigitsValue(s: string): nat
    requires IsDigits(s)
  {
    if |s| == 0 then 0 else DigitsValue(s[..|s| - 1]) * 10 + (s[|s| - 1] as int - '0' as int)
  }

  /** Reads a non-empty string of decimal digits; anything else is rejected. */
  function ParseDecimal(s: string): Option<nat> {
    if |s| > 0 && IsDigits(s) then Some(DigitsValue(s)) else None
  }

  /** Reading back a rendered number gives the number. */
  lemma {:induction false} ParseDecimalRoundTrip(n: nat)
    ensures ParseDecimal(Decimal(n)) == Some(n)
  {
    if n >= 10 {
      ParseDecimalRoundTrip(n / 10);
      var s := Decimal(n);
      assert s[..|s| - 1] == Decimal(n / 10);
      assert s[|s| - 1] as int - '0' as int == n % 10;
      assert DigitsValue(s) == DigitsValue(Decimal(n / 10)) * 10 + n % 10;
    }
  }
}
