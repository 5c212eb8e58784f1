/** `parsePing`: reads the latency summary out of the text printed by the
    system `ping`. The UNIX branch reads "... = a/b/c[/d] ms" after the last
    '='; the WINDOWS branch reads "Minimum = Xms, Maximum = Yms, Average = Zms".
    Outcomes are kept apart exactly as the Python code produces them: a
    triple of numbers, the `(None, None, None)` triple, or an exception that
    escapes the function. */
module PingParser {
  import opened Wrappers
  import opened Text
  import opened Decimal

  datatype Platform = Unix | Windows

  /** The exceptions that escape `parsePing`. */
  datatype Raised =
    | NoLines        // IndexError: every line of the output was empty
    | TooFewValues   // IndexError: fewer than three numbers were read
    | MissingMarker  // ValueError: a WINDOWS segment lacks "=" or "ms"
    | NotANumber     // ValueError: a WINDOWS segment is not a number

  datatype PingResult =
    | Rtts(first: real, second: real, third: real)
    | NoRtts                    // the (None, None, None) triple
    | Raises(error: Raised)

  /** `[float(v) for v in vals]`; `None` when one of them is not a number. */
  function ParseAll(vals: seq<string>): (r: Option<seq<real>>)
    ensures r.Some? <==> forall i :: 0 <= i < |vals| ==> ParseDecimal(vals[i]).Some?
    ensures r.Some? ==> |r.value| == |vals|
    ensures r.Some? ==> forall i :: 0 <= i < |vals| ==> ParseDecimal(vals[i]) == Some(r.value[i])
  {
    if vals == [] then Some([])
    else match (ParseDecimal(vals[0]), ParseAll(vals[1..]))
      case (Some(v), Some(vs)) => Some([v] + vs)
      case _ => None
  }

  /** The UNIX branch on the last line: slice from the last '=' (from the
      last character when there is none, since `rfind` gives -1), take the
      second space-separated field and read its '/'-separated numbers. Index
      and value errors inside the `try` give the `None` triple; the final
      indexing of the first three numbers is outside it. */
  function UnixStatistics(line: string): (r: PingResult)
    ensures r.Raises? ==> r.error == TooFewValues
  {
    var tail := Slice(line, RFind(line, '='), |line|);
    var fields := Split(tail, ' ');
    if |fields| < 2 then NoRtts
    else match ParseAll(Split(fields[1], '/'))
      case None => NoRtts
      case Some(rtts) => if |rtts| < 3 then Raises(TooFewValues) else Rtts(rtts[0], rtts[1], rtts[2])
  }

  /** `l[l.index("=") + 2:l.index("ms")]`; `None` when a marker is missing. */
  function SegmentValue(seg: string): (v: Option<string>)
    ensures v.Some? <==> Find(seg, "=").Some? && Find(seg, "ms").Some?
    ensures v.Some? ==> |v.value| <= |seg|
  {
    match (Find(seg, "="), Find(seg, "ms"))
    case (Some(e), Some(m)) => Some(Slice(seg, e + 2, m))
    case _ => None
  }

  function SegmentValues(segs: seq<string>): (r: Option<seq<string>>)
    ensures r.Some? <==> forall i :: 0 <= i < |segs| ==> SegmentValue(segs[i]).Some?
    ensures r.Some? ==> |r.value| == |segs|
    ensures r.Some? ==> forall i :: 0 <= i < |segs| ==> SegmentValue(segs[i]) == Some(r.value[i])
  {
    if segs == [] then Some([])
    else match (SegmentValue(segs[0]), SegmentValues(segs[1..]))
      case (Some(v), Some(vs)) => Some([v] + vs)
      case _ => None
  }

  /** The WINDOWS branch on the last line: one number per ','-separated
      segment, in line order, with no `try` around any of it. */
  function WindowsStatistics(line: string): (r: PingResult)
    ensures !r.NoRtts?
  {
    match SegmentValues(Split(line, ','))
    case None => Raises(MissingMarker)
    case Some(vals) =>
      match ParseAll(vals)
      case None => Raises(NotANumber)
      case Some(rtts) => if |rtts| < 3 then Raises(TooFewValues) else Rtts(rtts[0], rtts[1], rtts[2])
  }

  function LineStatistics(line: string, platform: Platform): PingResult
  {
    match platform
    case Unix => UnixStatistics(line)
    case Windows => WindowsStatistics(line)
  }

  /** `parsePing(pingOutput, platform)`: split into lines, drop the lines
      equal to "" (the `while "" in lines` loop, see `Text.RemoveAll`), and
      read the last remaining line. */
  function ParsePing(output: string, platform: Platform): (r: PingResult)
    ensures platform == Windows ==> !r.NoRtts?
    ensures platform == Unix && r.Raises? ==> r.error == NoLines || r.error == TooFewValues
  {
    var lines := Without(SplitLines(output), "");
    if lines == [] then Raises(NoLines) else LineStatistics(lines[|lines| - 1], platform)
  }

  /* ---------------- the output as a whole ---------------- */

  lemma {:induction false} NeverNoLines(line: string, platform: Platform)
    ensures LineStatistics(line, platform) != Raises(NoLines)
  {
  }

  predicate AllBlank(lines: seq<string>)
  {
    forall i :: 0 <= i < |lines| ==> lines[i] == ""
  }

  /** Only output whose every line is empty raises at the line lookup. */
  lemma {:induction false} NoLinesExactly(output: string, platform: Platform)
    ensures ParsePing(output, platform) == Raises(NoLines) <==> AllBlank(SplitLines(output))
  {
    var lines := SplitLines(output);
    var kept := Without(lines, "");
    if !AllBlank(lines) {
      var i :| 0 <= i < |lines| && lines[i] != "";
      assert lines[i] in kept;
      NeverNoLines(kept[|kept| - 1], platform);
    }
  }

  /** Output printed line by line is read from its last non-empty line,
      whatever the lines before it hold, empty ones included. */
  lemma {:induction false} ParsePrinted(lines: seq<string>, trailing: seq<string>, platform: Platform)
    requires lines != [] && lines[|lines| - 1] != "" && AllBlank(trailing)
    requires forall i :: 0 <= i < |lines| ==> NoLineBreak(lines[i])
    ensures ParsePing(Unlines(lines + trailing), platform) == LineStatistics(lines[|lines| - 1], platform)
  {
    var all := lines + trailing;
    assert forall i :: 0 <= i < |all| ==> NoLineBreak(all[i]) by {
      forall i | 0 <= i < |all| ensures NoLineBreak(all[i]) {
        if i >= |lines| {
          assert all[i] == trailing[i - |lines|];
        }
      }
    }
    SplitLinesUnlines(all);
    var last := lines[|lines| - 1];
    assert all == lines[..|lines| - 1] + [last] + trailing;
    WithoutAppend(lines[..|lines| - 1] + [last], trailing, "");
    WithoutAppend(lines[..|lines| - 1], [last], "");
    assert Without([last], "") == [last];
    WithoutOnly(trailing, "");
    var kept := Without(SplitLines(Unlines(all)), "");
    assert kept == Without(lines[..|lines| - 1], "") + [last];
  }

  /* ---------------- UNIX ---------------- */

  /** A last line without '=' gives the `None` triple. */
  lemma {:induction false} UnixWithoutEquals(line: string)
    requires '=' !in line
    ensures UnixStatistics(line) == NoRtts
  {
    if line != [] {
      var tail := Slice(line, RFind(line, '='), |line|);
      assert tail == [line[|line| - 1]];
      if tail[0] == ' ' {
        assert Split(tail, ' ') == [[]] + Split([], ' ');
      } else {
        SplitWithoutSeparator(tail, ' ');
      }
    }
  }

  predicate NoDelimiter(s: string)
  {
    '/' !in s && ' ' !in s && '=' !in s
  }

  /** A number holds none of the characters the UNIX branch splits on. */
  lemma {:induction false} NumberNoDelimiter(s: string)
    requires ParseDecimal(s).Some?
    ensures NoDelimiter(s)
  {
    assert forall k :: 0 <= k < |s| ==> NumberChar(s[k]);
  }

  lemma {:induction false} JoinChars(parts: seq<string>, sep: char, c: char)
    requires c != sep
    requires forall i :: 0 <= i < |parts| ==> c !in parts[i]
    ensures c !in Join(parts, sep)
  {
    if |parts| > 1 {
      JoinChars(parts[1..], sep, c);
    }
  }

  /** The summary line of UNIX `ping`: whatever precedes the last "= ", then
      '/'-separated numbers, then nothing or a space and a unit. Three or more
      numbers give the first three, extra ones such as mdev being ignored;
      fewer raise; one that is not a number gives the `None` triple. */
  lemma {:induction false} UnixSummary(prefix: string, numbers: seq<string>, rest: string)
    requires |numbers| >= 1
    requires forall i :: 0 <= i < |numbers| ==> NoDelimiter(numbers[i])
    requires '=' !in rest && (rest == [] || rest[0] == ' ')
    ensures var r := UnixStatistics(prefix + "= " + Join(numbers, '/') + rest);
      match ParseAll(numbers)
      case None => r == NoRtts
      case Some(v) => r == if |v| >= 3 then Rtts(v[0], v[1], v[2]) else Raises(TooFewValues)
  {
    var line := prefix + "= " + Join(numbers, '/') + rest;
    UnixField(line, prefix, numbers, rest);
    SplitJoin(numbers, '/');
    var fields := Split(Slice(line, RFind(line, '='), |line|), ' ');
    assert |fields| >= 2 && Split(fields[1], '/') == numbers;
  }

  /** The field the UNIX branch reads is the joined numbers. */
  lemma {:induction false} UnixField(line: string, prefix: string, numbers: seq<string>, rest: string)
    requires |numbers| >= 1
    requires forall i :: 0 <= i < |numbers| ==> NoDelimiter(numbers[i])
    requires '=' !in rest && (rest == [] || rest[0] == ' ')
    requires line == prefix + "= " + Join(numbers, '/') + rest
    ensures |Split(Slice(line, RFind(line, '='), |line|), ' ')| >= 2
    ensures Split(Slice(line, RFind(line, '='), |line|), ' ')[1] == Join(numbers, '/')
  {
    var joined := Join(numbers, '/');
    JoinChars(numbers, '/', '=');
    JoinChars(numbers, '/', ' ');
    var after := joined + rest;
    assert '=' !in after;
    var k := |prefix|;
    assert line == prefix + ("=" + [' '] + after);
    assert line[k..] == "=" + [' '] + after;
    forall j | k < j < |line| ensures line[j] != '=' {
      assert line[j] == line[k..][j - k];
    }
    RFindAt(line, '=', k);
    var tail := Slice(line, RFind(line, '='), |line|);
    assert tail == line[k..];
    SplitAtFirst("=", ' ', after);
    FirstPiece(joined, ' ', rest);
    assert Split(tail, ' ') == ["="] + Split(after, ' ');
  }

  /* ---------------- WINDOWS ---------------- */

  /** One segment of the WINDOWS summary line: a tag, "= ", the number,
      "ms", and anything after it up to the next ','. */
  datatype Reading = Reading(tag: string, number: string, trail: string)

  function Segment(r: Reading): string
  {
    r.tag + "= " + r.number + "ms" + r.trail
  }

  function Segments(rs: seq<Reading>): (segs: seq<string>)
    ensures |segs| == |rs|
    ensures forall i :: 0 <= i < |rs| ==> segs[i] == Segment(rs[i])
  {
    seq(|rs|, i requires 0 <= i < |rs| => Segment(rs[i]))
  }

  /** A tag that holds neither marker nor separator, and a number. */
  predicate WellFormed(r: Reading)
  {
    '=' !in r.tag && ',' !in r.tag && ',' !in r.trail
    && NoMs(r.tag)
    && ParseDecimal(r.number).Some?
  }

  /** No "ms" inside `s`. */
  predicate NoMs(s: string)
  {
    forall k :: 0 <= k < |s| - 1 ==> !(s[k] == 'm' && s[k + 1] == 's')
  }

  /** The first '=' of `tag + "=" + rest` is the one after the tag. */
  lemma {:induction false} FirstEquals(seg: string, tag: string, rest: string)
    requires seg == tag + "=" + rest && '=' !in tag
    ensures Find(seg, "=") == Some(|tag|)
  {
    forall j: nat ensures Text.OccursAt(seg, "=", j) <==> j < |seg| && seg[j] == '=' {
      OccursChar(seg, '=', j);
    }
    forall j: nat | j < |tag| ensures !Text.OccursAt(seg, "=", j) {
      assert seg[j] == tag[j];
    }
    FindAt(seg, "=", |tag|);
  }

  /** The first "ms" of `pre + "ms" + rest` is the one after `pre`, when
      `pre` holds none and does not end in 'm'. */
  lemma {:induction false} FirstMs(seg: string, pre: string, rest: string)
    requires seg == pre + "ms" + rest && NoMs(pre) && (pre == [] || pre[|pre| - 1] != 'm')
    ensures Find(seg, "ms") == Some(|pre|)
  {
    assert seg[|pre|..|pre| + 2] == "ms";
    forall j: nat | j < |pre| ensures !Text.OccursAt(seg, "ms", j) {
      assert seg[j] == pre[j];
      if j + 1 < |pre| {
        assert seg[j + 1] == pre[j + 1];
      } else {
        assert seg[j + 1] == 'm';
      }
    }
    FindAt(seg, "ms", |pre|);
  }

  /** A tag free of "ms", then "= ", then a number: no "ms" in it, and it
      does not end in 'm'. */
  lemma {:induction false} PrefixNoMs(tag: string, number: string)
    requires NoMs(tag)
    requires forall k :: 0 <= k < |number| ==> NumberChar(number[k])
    ensures var pre := tag + "= " + number; NoMs(pre) && pre[|pre| - 1] != 'm'
  {
    var pre := tag + "= " + number;
    var e := |tag|;
    forall k | 0 <= k < |pre| - 1 ensures !(pre[k] == 'm' && pre[k + 1] == 's') {
      if k + 1 < e {
        assert pre[k] == tag[k] && pre[k + 1] == tag[k + 1];
      } else if e + 2 <= k {
        assert pre[k] == number[k - e - 2];
      }
    }
    if number != [] {
      assert pre[|pre| - 1] == number[|number| - 1];
    }
  }

  lemma {:induction false} SegmentEquals(r: Reading)
    requires '=' !in r.tag
    ensures Find(Segment(r), "=") == Some(|r.tag|)
  {
    var seg := Segment(r);
    assert seg == r.tag + "=" + (" " + r.number + "ms" + r.trail);
    FirstEquals(seg, r.tag, " " + r.number + "ms" + r.trail);
  }

  lemma {:induction false} SegmentMs(r: Reading)
    requires NoMs(r.tag) && ParseDecimal(r.number).Some?
    ensures Find(Segment(r), "ms") == Some(|r.tag| + 2 + |r.number|)
  {
    var pre := r.tag + "= " + r.number;
    PrefixNoMs(r.tag, r.number);
    FirstMs(Segment(r), pre, r.trail);
  }

  lemma {:induction false} SegmentNumber(r: Reading)
    ensures |r.tag| + 2 + |r.number| <= |Segment(r)|
    ensures Segment(r)[|r.tag| + 2..|r.tag| + 2 + |r.number|] == r.number
  {
    var seg := Segment(r);
    var e := |r.tag| + 2;
    forall k | 0 <= k < |r.number| ensures seg[e + k] == r.number[k] {
    }
  }

  /** The text between "= " and "ms" of a well-formed segment is its number. */
  lemma {:induction false} SegmentValueOf(r: Reading)
    requires WellFormed(r)
    ensures SegmentValue(Segment(r)) == Some(r.number)
  {
    SegmentEquals(r);
    SegmentMs(r);
    SegmentNumber(r);
    SegmentValueAt(Segment(r), |r.tag|, |r.tag| + 2 + |r.number|, r.number);
  }

  lemma {:induction false} SegmentValueAt(seg: string, e: nat, m: nat, number: string)
    requires Find(seg, "=") == Some(e) && Find(seg, "ms") == Some(m)
    requires e + 2 <= m <= |seg| && seg[e + 2..m] == number
    ensures SegmentValue(seg) == Some(number)
  {
  }

  /** Well-formed segments hold no ',', so the line splits back into them. */
  lemma {:induction false} SegmentsWithoutComma(rs: seq<Reading>)
    requires forall i :: 0 <= i < |rs| ==> WellFormed(rs[i])
    ensures forall i :: 0 <= i < |Segments(rs)| ==> ',' !in Segments(rs)[i]
  {
    var segs := Segments(rs);
    forall i | 0 <= i < |segs| ensures ',' !in segs[i] {
      var r := rs[i];
      assert forall k :: 0 <= k < |r.number| ==> NumberChar(r.number[k]);
      assert segs[i] == r.tag + "= " + r.number + "ms" + r.trail;
    }
  }

  /** The WINDOWS summary line: each segment gives its number, in line
      order. Three or more give the first three; fewer raise. */
  lemma {:induction false} WindowsSummary(rs: seq<Reading>)
    requires |rs| >= 1
    requires forall i :: 0 <= i < |rs| ==> WellFormed(rs[i])
    ensures var numbers := seq(|rs|, i requires 0 <= i < |rs| => rs[i].number);
      var r := WindowsStatistics(Join(Segments(rs), ','));
      ParseAll(numbers).Some? &&
      var v := ParseAll(numbers).value;
      r == if |v| >= 3 then Rtts(v[0], v[1], v[2]) else Raises(TooFewValues)
  {
    var segs := Segments(rs);
    var numbers := seq(|rs|, i requires 0 <= i < |rs| => rs[i].number);
    SegmentsWithoutComma(rs);
    SplitJoin(segs, ',');
    forall i | 0 <= i < |segs| ensures SegmentValue(segs[i]) == Some(numbers[i]) {
      SegmentValueOf(rs[i]);
    }
    var vals := SegmentValues(segs);
    assert vals.Some?;
    assert vals.value == numbers;
    assert ParseAll(numbers).Some?;
  }

  /** The line WINDOWS `ping` prints gives (Minimum, Maximum, Average) in
      that order: the middle value, which the caller keeps as the round-trip
      time, is the Maximum. */
  lemma {:induction false} WindowsLineOrder(line: string, min: string, max: string, avg: string)
    requires line == "    Minimum = " + min + "ms, Maximum = " + max + "ms, Average = " + avg + "ms"
    requires ParseDecimal(min).Some? && ParseDecimal(max).Some? && ParseDecimal(avg).Some?
    ensures WindowsStatistics(line) == Rtts(ParseDecimal(min).value, ParseDecimal(max).value, ParseDecimal(avg).value)
  {
    var rs := SummaryReadings(min, max, avg);
    SummaryWellFormed(min, max, avg);
    SummarySegments(min, max, avg);
    var numbers := seq(|rs|, i requires 0 <= i < |rs| => rs[i].number);
    assert numbers == [min, max, avg];
    WindowsSummary(rs);
  }

  /** The three readings of the WINDOWS summary line, in the order printed. */
  function SummaryReadings(min: string, max: string, avg: string): seq<Reading>
  {
    [Reading("    Minimum ", min, ""), Reading(" Maximum ", max, ""), Reading(" Average ", avg, "")]
  }

  lemma {:induction false} SummaryWellFormed(min: string, max: string, avg: string)
    requires ParseDecimal(min).Some? && ParseDecimal(max).Some? && ParseDecimal(avg).Some?
    ensures forall i :: 0 <= i < 3 ==> WellFormed(SummaryReadings(min, max, avg)[i])
  {
    TagClean("    Minimum ");
    TagClean(" Maximum ");
    TagClean(" Average ");
  }

  lemma {:induction false} TagClean(tag: string)
    requires tag in {"    Minimum ", " Maximum ", " Average "}
    ensures '=' !in tag && ',' !in tag && NoMs(tag)
  {
  }

  lemma {:induction false} JoinThree(x: string, y: string, z: string, sep: char)
    ensures Join([x, y, z], sep) == x + [sep] + y + [sep] + z
  {
    var parts := [x, y, z];
    assert parts[1..] == [y, z] && parts[2..] == [z];
    assert Join([y, z], sep) == y + [sep] + z;
  }

  lemma {:induction false} SegmentShown(tag: string, number: string, shown: string)
    requires shown == tag + "= "
    ensures Segment(Reading(tag, number, "")) == shown + number + "ms"
  {
    var seg := shown + number + "ms";
    assert seg + "" == seg;
  }

  lemma {:induction false} SummaryRegrouped(x: string, y: string, z: string, min: string, max: string, avg: string)
    requires x == "    Minimum = " + min + "ms"
    requires y == " Maximum = " + max + "ms"
    requires z == " Average = " + avg + "ms"
    ensures x + [','] + y + [','] + z
         == "    Minimum = " + min + "ms, Maximum = " + max + "ms, Average = " + avg + "ms"
  {
    assert "ms" + [','] + " Maximum = " == "ms, Maximum = ";
    assert "ms" + [','] + " Average = " == "ms, Average = ";
  }

  lemma {:induction false} SummarySegments(min: string, max: string, avg: string)
    ensures Join(Segments(SummaryReadings(min, max, avg)), ',')
         == "    Minimum = " + min + "ms, Maximum = " + max + "ms, Average = " + avg + "ms"
  {
    var rs := SummaryReadings(min, max, avg);
    var x := "    Minimum = " + min + "ms";
    var y := " Maximum = " + max + "ms";
    var z := " Average = " + avg + "ms";
    SegmentShown(rs[0].tag, min, "    Minimum = ");
    SegmentShown(rs[1].tag, max, " Maximum = ");
    SegmentShown(rs[2].tag, avg, " Average = ");
    assert Segments(rs) == [x, y, z];
    JoinThree(x, y, z, ',');
    SummaryRegrouped(x, y, z, min, max, avg);
  }

  /** A segment without '=' makes the WINDOWS branch raise. */
  lemma {:induction false} WindowsMissingEquals(line: string, i: nat)
    requires i < |Split(line, ',')| && '=' !in Split(line, ',')[i]
    ensures WindowsStatistics(line) == Raises(MissingMarker)
  {
    var seg := Split(line, ',')[i];
    forall j: nat ensures !Text.OccursAt(seg, "=", j) {
      OccursChar(seg, '=', j);
    }
  }

  /** A segment without "ms" makes the WINDOWS branch raise. */
  lemma {:induction false} WindowsMissingMs(line: string, i: nat)
    requires i < |Split(line, ',')| && forall k: nat :: !OccursAt(Split(line, ',')[i], "ms", k)
    ensures WindowsStatistics(line) == Raises(MissingMarker)
  {
    var seg := Split(line, ',')[i];
    assert Find(seg, "ms").None?;
    assert SegmentValue(seg).None?;
  }

  /** A segment whose text is not a number makes the WINDOWS branch raise. */
  lemma {:induction false} WindowsNotANumber(line: string, i: nat)
    requires SegmentValues(Split(line, ',')).Some?
    requires i < |SegmentValues(Split(line, ',')).value|
    requires ParseDecimal(SegmentValues(Split(line, ',')).value[i]).None?
    ensures WindowsStatistics(line) == Raises(NotANumber)
  {
  }

  /** The WINDOWS branch never gives the `None` triple: what it cannot read,
      it raises on. */
  lemma {:induction false} WindowsNeverNone(output: string)
    ensures ParsePing(output, Windows) != NoRtts
  {
  }
}
