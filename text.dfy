/** The few Python string and list operations that the ping parser and the
    argument handling rely on, with the Python semantics spelled out:
    `str.split(sep)` with a one-character separator, `str.splitlines()`,
    `str.rfind`, `str.index`, slicing, and the `while x in l: l.remove(x)`
    idiom. */
module Text {
  import opened Wrappers

  /* ---------------- str.split(sep) ---------------- */

  /** `s.split(sep)`: the pieces between separators, empty pieces included,
      so there is always at least one piece. */
  function Split(s: string, sep: char): (parts: seq<string>)
    ensures |parts| >= 1
    ensures forall i :: 0 <= i < |parts| ==> sep !in parts[i]
  {
    if s == [] then [[]]
    else
      var rest := Split(s[1..], sep);
      if s[0] == sep then [[]] + rest
      else [[s[0]] + rest[0]] + rest[1..]
  }

  /** `sep.join(parts)`, the inverse of `Split`. */
  function Join(parts: seq<string>, sep: char): string
  {
    if parts == [] then []
    else if |parts| == 1 then parts[0]
    else parts[0] + [sep] + Join(parts[1..], sep)
  }

  lemma {:induction false} SplitWithoutSeparator(s: string, sep: char)
    requires sep !in s
    ensures Split(s, sep) == [s]
  {
    if s != [] {
      SplitWithoutSeparator(s[1..], sep);
      assert [s[0]] + s[1..] == s;
    }
  }

  /** Cutting at the first separator: the first piece is everything before it. */
  lemma {:induction false} SplitAtFirst(a: string, sep: char, b: string)
    requires sep !in a
    ensures Split(a + [sep] + b, sep) == [a] + Split(b, sep)
  {
    if a == [] {
      assert a + [sep] + b == [sep] + b;
      assert ([sep] + b)[1..] == b;
    } else {
      SplitAtFirst(a[1..], sep, b);
      assert (a + [sep] + b)[1..] == a[1..] + [sep] + b;
      assert [a[0]] + a[1..] == a;
    }
  }

  /** Splitting what was joined gives back the pieces. */
  lemma {:induction false} SplitJoin(parts: seq<string>, sep: char)
    requires |parts| >= 1
    requires forall i :: 0 <= i < |parts| ==> sep !in parts[i]
    ensures Split(Join(parts, sep), sep) == parts
  {
    if |parts| == 1 {
      SplitWithoutSeparator(parts[0], sep);
    } else {
      SplitJoin(parts[1..], sep);
      SplitAtFirst(parts[0], sep, Join(parts[1..], sep));
      assert [parts[0]] + parts[1..] == parts;
    }
  }

  /** Joining what was split gives back the string. */
  lemma {:induction false} JoinSplit(s: string, sep: char)
    ensures Join(Split(s, sep), sep) == s
  {
    if s != [] {
      JoinSplit(s[1..], sep);
      var rest := Split(s[1..], sep);
      if s[0] == sep {
        assert ([[]] + rest)[1..] == rest;
      } else if |rest| > 1 {
        assert ([[s[0]] + rest[0]] + rest[1..])[1..] == rest[1..];
        assert rest[0] + [sep] + Join(rest[1..], sep) == s[1..];
      }
    }
  }

  /** The first piece is the longest prefix that holds no separator. */
  lemma {:induction false} FirstPiece(a: string, sep: char, b: string)
    requires sep !in a
    requires b == [] || b[0] == sep
    ensures Split(a + b, sep)[0] == a
  {
    if b == [] {
      assert a + b == a;
      SplitWithoutSeparator(a, sep);
    } else {
      assert a + b == a + [sep] + b[1..];
      SplitAtFirst(a, sep, b[1..]);
    }
  }

  /* ---------------- str.splitlines() ---------------- */

  /** The characters Python's `str.splitlines()` treats as line boundaries;
      "\r\n" counts as one boundary. */
  const LineBreaks: set<char> := {'\n', '\r', '\U{0b}', '\U{0c}', '\U{1c}', '\U{1d}', '\U{1e}',
                                  '\U{85}', '\U{2028}', '\U{2029}'}

  predicate NoLineBreak(s: string)
  {
    forall i :: 0 <= i < |s| ==> s[i] !in LineBreaks
  }

  lemma {:induction false} NoLineBreakAppend(a: string, b: string)
    ensures NoLineBreak(a + b) <==> NoLineBreak(a) && NoLineBreak(b)
  {
    assert forall i :: 0 <= i < |a| ==> (a + b)[i] == a[i];
    assert forall i :: |a| <= i < |a + b| ==> (a + b)[i] == b[i - |a|];
    assert forall j :: 0 <= j < |b| ==> b[j] == (a + b)[j + |a|];
  }

  /** Lines joined by a character that is not a line break form one line. */
  lemma {:induction false} JoinNoLineBreak(parts: seq<string>, sep: char)
    requires sep !in LineBreaks
    requires forall i :: 0 <= i < |parts| ==> NoLineBreak(parts[i])
    ensures NoLineBreak(Join(parts, sep))
  {
    if |parts| > 1 {
      JoinNoLineBreak(parts[1..], sep);
      NoLineBreakAppend(parts[0], [sep]);
      NoLineBreakAppend(parts[0] + [sep], Join(parts[1..], sep));
    }
  }

  /** `s.splitlines()`: no trailing empty line after a final boundary, and
      the empty string has no lines at all. */
  function SplitLines(s: string): (lines: seq<string>)
    ensures s != [] ==> |lines| >= 1
  {
    if s == [] then []
    else if s[0] in LineBreaks then
      var k := if s[0] == '\r' && |s| > 1 && s[1] == '\n' then 2 else 1;
      [[]] + SplitLines(s[k..])
    else
      var rest := SplitLines(s[1..]);
      if rest == [] then [[s[0]]] else [[s[0]] + rest[0]] + rest[1..]
  }

  /** Every line followed by "\n", which is how a program's output is printed. */
  function Unlines(lines: seq<string>): string
  {
    if lines == [] then [] else lines[0] + "\n" + Unlines(lines[1..])
  }

  lemma {:induction false} SplitLinesFirst(line: string, rest: string)
    requires NoLineBreak(line)
    ensures SplitLines(line + "\n" + rest) == [line] + SplitLines(rest)
  {
    var s := line + "\n" + rest;
    if line == [] {
      assert s == "\n" + rest;
      assert s[1..] == rest;
    } else {
      assert s[0] == line[0] && s[0] !in LineBreaks;
      assert s[1..] == line[1..] + "\n" + rest;
      SplitLinesFirst(line[1..], rest);
      assert [line[0]] + line[1..] == line;
    }
  }

  /** Printing lines and reading them back with `splitlines` is the identity. */
  lemma {:induction false} SplitLinesUnlines(lines: seq<string>)
    requires forall i :: 0 <= i < |lines| ==> NoLineBreak(lines[i])
    ensures SplitLines(Unlines(lines)) == lines
  {
    if lines != [] {
      SplitLinesFirst(lines[0], Unlines(lines[1..]));
      SplitLinesUnlines(lines[1..]);
    }
  }

  /* ---------------- rfind, index and slicing ---------------- */

  /** `s.rfind(c)` for a one-character needle: the last index of `c`, or -1. */
  function RFind(s: string, c: char): (i: int)
    ensures -1 <= i < |s|
    ensures i == -1 <==> c !in s
    ensures i >= 0 ==> s[i] == c
    ensures forall j :: i < j < |s| ==> s[j] != c
  {
    if s == [] then -1
    else if s[|s| - 1] == c then |s| - 1
    else
      assert s == s[..|s| - 1] + [s[|s| - 1]];
      RFind(s[..|s| - 1], c)
  }

  /** The index of the last `c` is the one position holding `c` that has
      none after it. */
  lemma {:induction false} RFindAt(s: string, c: char, k: nat)
    requires k < |s| && s[k] == c
    requires forall j :: k < j < |s| ==> s[j] != c
    ensures RFind(s, c) == k
  {
  }

  predicate OccursAt(s: string, t: string, k: nat)
  {
    k + |t| <= |s| && s[k..k + |t|] == t
  }

  lemma {:induction false} OccursShift(s: string, t: string, k: nat)
    requires s != []
    ensures OccursAt(s, t, k + 1) == OccursAt(s[1..], t, k)
  {
    if k + 1 + |t| <= |s| {
      assert s[k + 1..k + 1 + |t|] == s[1..][k..k + |t|];
    }
  }

  /** `s.index(t)`: the first position where `t` occurs; `None` is the
      `ValueError` Python raises when it does not occur. */
  function Find(s: string, t: string): (r: Option<nat>)
    ensures r.Some? ==> OccursAt(s, t, r.value)
    ensures r.Some? ==> forall k: nat :: k < r.value ==> !OccursAt(s, t, k)
    ensures r.None? ==> forall k: nat :: !OccursAt(s, t, k)
  {
    if |s| < |t| then None
    else if s[..|t|] == t then Some(0)
    else
      var r := Find(s[1..], t);
      assert !OccursAt(s, t, 0);
      assert forall k: nat :: OccursAt(s, t, k + 1) == OccursAt(s[1..], t, k) by {
        forall k: nat ensures OccursAt(s, t, k + 1) == OccursAt(s[1..], t, k) {
          OccursShift(s, t, k);
        }
      }
      assert forall k: nat :: k > 0 ==> OccursAt(s, t, k) == OccursAt(s[1..], t, k - 1) by {
        forall k: nat | k > 0 ensures OccursAt(s, t, k) == OccursAt(s[1..], t, k - 1) {
          OccursShift(s, t, k - 1);
        }
      }
      if r.None? then None else Some(r.value + 1)
  }

  /** The first occurrence is the one with none before it. */
  lemma {:induction false} FindAt(s: string, t: string, k: nat)
    requires OccursAt(s, t, k)
    requires forall j: nat :: j < k ==> !OccursAt(s, t, j)
    ensures Find(s, t) == Some(k)
  {
  }

  /** A one-character needle occurs exactly where that character stands. */
  lemma {:induction false} OccursChar(s: string, c: char, k: nat)
    ensures OccursAt(s, [c], k) <==> k < |s| && s[k] == c
  {
    if k < |s| {
      assert s[k..k + 1] == [s[k]];
    }
  }

  /** Python's normalisation of a slice bound against a length `n`. */
  function SliceBound(i: int, n: nat): (b: nat)
    ensures b <= n
  {
    if i < 0 then (if i + n < 0 then 0 else i + n) else if i > n then n else i
  }

  /** `s[i:j]`: bounds are normalised and clamped, never an error. */
  function Slice(s: string, i: int, j: int): (r: string)
    ensures |r| <= |s|
    ensures 0 <= i <= j <= |s| ==> r == s[i..j]
    ensures -|s| <= i < 0 && |s| <= j ==> r == s[|s| + i..]
    ensures 0 <= i <= |s| <= j ==> r == s[i..]
    ensures i <= -|s| && 0 <= j <= |s| ==> r == s[..j]
    ensures |s| <= i || j <= -|s| ==> r == []
  {
    var a, b := SliceBound(i, |s|), SliceBound(j, |s|);
    if a < b then s[a..b] else []
  }

  /* ---------------- while x in l: l.remove(x) ---------------- */

  /** The list with every occurrence of `x` removed, order kept. */
  function Without<T(==)>(xs: seq<T>, x: T): (ys: seq<T>)
    ensures x !in ys
    ensures forall i :: 0 <= i < |ys| ==> ys[i] in xs
    ensures forall i :: 0 <= i < |xs| && xs[i] != x ==> xs[i] in ys
  {
    if xs == [] then []
    else if xs[0] == x then Without(xs[1..], x)
    else [xs[0]] + Without(xs[1..], x)
  }

  /** A list made only of `x` is emptied. */
  lemma {:induction false} WithoutOnly<T>(xs: seq<T>, x: T)
    requires forall i :: 0 <= i < |xs| ==> xs[i] == x
    ensures Without(xs, x) == []
  {
    if xs != [] {
      WithoutOnly(xs[1..], x);
    }
  }

  /** `l.remove(x)`: drops the first occurrence only. */
  function RemoveFirst<T(==)>(xs: seq<T>, x: T): seq<T>
  {
    if xs == [] then []
    else if xs[0] == x then xs[1..]
    else [xs[0]] + RemoveFirst(xs[1..], x)
  }

  lemma {:induction false} RemoveFirstKeepsRest<T>(xs: seq<T>, x: T)
    requires x in xs
    ensures |RemoveFirst(xs, x)| == |xs| - 1
    ensures Without(RemoveFirst(xs, x), x) == Without(xs, x)
  {
    if xs[0] != x {
      RemoveFirstKeepsRest(xs[1..], x);
    }
  }

  lemma {:induction false} WithoutAbsent<T>(xs: seq<T>, x: T)
    requires x !in xs
    ensures Without(xs, x) == xs
  {
    if xs != [] {
      WithoutAbsent(xs[1..], x);
    }
  }

  lemma {:induction false} WithoutAppend<T>(xs: seq<T>, ys: seq<T>, x: T)
    ensures Without(xs + ys, x) == Without(xs, x) + Without(ys, x)
  {
    if xs != [] {
      assert (xs + ys)[1..] == xs[1..] + ys;
      WithoutAppend(xs[1..], ys, x);
    } else {
      assert xs + ys == ys;
    }
  }

  /** The `while x in l: l.remove(x)` loop, which removes one occurrence at a
      time until none is left. */
  method RemoveAll<T(==)>(xs: seq<T>, x: T) returns (ys: seq<T>)
    ensures ys == Without(xs, x)
  {
    ys := xs;
    while x in ys
      invariant Without(ys, x) == Without(xs, x)
      decreases |ys|
    {
      RemoveFirstKeepsRest(ys, x);
      ys := RemoveFirst(ys, x);
    }
    WithoutAbsent(ys, x);
  }
}
