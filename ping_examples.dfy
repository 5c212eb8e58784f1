/** The outputs of `ping` that tests.py feeds to `parsePing`, and the
    triples it expects, proved about the model. */
module PingExamples {
  import opened Wrappers
  import opened Text
  import opened Decimal
  import opened PingParser

  /** The readings of the third UNIX output, as `ping` prints them. */
  lemma {:induction false} MinShown()
    ensures ShowNat(100) + "." + ShowNat(131) == "100.131"
  {
    assert ShowNat(100) == "100";
    assert ShowNat(131) == "131";
  }

  lemma {:induction false} AvgShown()
    ensures ShowNat(111) + "." + ShowNat(721) == "111.721"
  {
    assert ShowNat(111) == "111";
    assert ShowNat(721) == "721";
  }

  lemma {:induction false} MaxShown()
    ensures ShowNat(163) + "." + ShowNat(633) == "163.633"
  {
    assert ShowNat(163) == "163";
    assert ShowNat(633) == "633";
  }

  lemma {:induction false} MdevShown()
    ensures ShowNat(20) + "." + ShowNat(372) == "20.372"
  {
    assert ShowNat(20) == "20";
    assert ShowNat(372) == "372";
  }

  lemma {:induction false} UnixReadings(a: string, b: string, c: string, d: string)
    requires a == "100.131" && b == "111.721" && c == "163.633" && d == "20.372"
    ensures ParseDecimal(a) == Some(100.131)
    ensures ParseDecimal(b) == Some(111.721)
    ensures ParseDecimal(c) == Some(163.633)
    ensures ParseDecimal(d).Some?
  {
    MinShown();
    AvgShown();
    MaxShown();
    MdevShown();
    ParseShownMillis(a, 100, 131);
    ParseShownMillis(b, 111, 721);
    ParseShownMillis(c, 163, 633);
    ParseShownMillis(d, 20, 372);
  }

  lemma {:induction false} JoinFour(a: string, b: string, c: string, d: string, sep: char)
    ensures Join([a, b, c, d], sep) == a + [sep] + b + [sep] + c + [sep] + d
  {
    var parts := [a, b, c, d];
    assert parts[1..] == [b, c, d] && parts[2..] == [c, d] && parts[3..] == [d];
    assert Join([d], sep) == d;
    assert Join([c, d], sep) == c + [sep] + d;
    assert Join([b, c, d], sep) == b + [sep] + (c + [sep] + d);
  }

  lemma {:induction false} UnixLineSpelled(line: string, a: string, b: string, c: string, d: string)
    requires line == "rtt min/avg/max/mdev = 100.131/111.721/163.633/20.372 ms"
    requires a == "100.131" && b == "111.721" && c == "163.633" && d == "20.372"
    ensures line == "rtt min/avg/max/mdev = " + a + "/" + b + "/" + c + "/" + d + " ms"
  {
  }

  /** The summary line is a prefix, "= ", the four readings joined by '/'
      and " ms". */
  lemma {:induction false} UnixLineJoined(line: string, prefix: string, a: string, b: string, c: string, d: string)
    requires line == "rtt min/avg/max/mdev = " + a + "/" + b + "/" + c + "/" + d + " ms"
    requires prefix == "rtt min/avg/max/mdev "
    ensures line == prefix + "= " + Join([a, b, c, d], '/') + " ms"
  {
    JoinFour(a, b, c, d, '/');
    assert "rtt min/avg/max/mdev = " == prefix + "= ";
  }

  /** The summary line of the third UNIX output gives min, avg and max;
      mdev is read and dropped. */
  lemma {:induction false} UnixSummaryLine(line: string, prefix: string, a: string, b: string, c: string, d: string)
    requires line == prefix + "= " + Join([a, b, c, d], '/') + " ms"
    requires ParseDecimal(a) == Some(100.131) && ParseDecimal(b) == Some(111.721)
    requires ParseDecimal(c) == Some(163.633) && ParseDecimal(d).Some?
    ensures UnixStatistics(line) == Rtts(100.131, 111.721, 163.633)
  {
    NumberNoDelimiter(a);
    NumberNoDelimiter(b);
    NumberNoDelimiter(c);
    NumberNoDelimiter(d);
    var numbers := [a, b, c, d];
    assert forall i :: 0 <= i < |numbers| ==> NoDelimiter(numbers[i]);
    assert forall i :: 0 <= i < |numbers| ==> ParseDecimal(numbers[i]).Some?;
    var v := ParseAll(numbers).value;
    assert ParseDecimal(numbers[0]) == Some(v[0]);
    assert ParseDecimal(numbers[1]) == Some(v[1]);
    assert ParseDecimal(numbers[2]) == Some(v[2]);
    assert '=' !in " ms" && " ms"[0] == ' ';
    UnixSummary(prefix, numbers, " ms");
  }

  /** A summary line built from pieces that have no line break is one line. */
  lemma {:induction false} UnixLineSingle(line: string, prefix: string, numbers: seq<string>, rest: string)
    requires line == prefix + "= " + Join(numbers, '/') + rest
    requires NoLineBreak(prefix + "= ") && NoLineBreak(rest)
    requires forall i :: 0 <= i < |numbers| ==> NoLineBreak(numbers[i])
    ensures NoLineBreak(line)
  {
    JoinNoLineBreak(numbers, '/');
    var joined := Join(numbers, '/');
    NoLineBreakAppend(prefix + "= ", joined);
    NoLineBreakAppend(prefix + "= " + joined, rest);
  }

  lemma {:induction false} UnixReadingsSingle(a: string, b: string, c: string, d: string)
    requires ParseDecimal(a).Some? && ParseDecimal(b).Some? && ParseDecimal(c).Some? && ParseDecimal(d).Some?
    ensures forall i :: 0 <= i < 4 ==> NoLineBreak([a, b, c, d][i])
  {
    NumberOnOneLine(a);
    NumberOnOneLine(b);
    NumberOnOneLine(c);
    NumberOnOneLine(d);
  }

  /** Output whose last line is `line`, after lines without breaks and
      before blank lines, is read from `line`. */
  lemma {:induction false} PrintedLast(before: seq<string>, line: string, trailing: seq<string>, platform: Platform)
    requires forall i :: 0 <= i < |before| ==> NoLineBreak(before[i])
    requires NoLineBreak(line) && line != "" && AllBlank(trailing)
    ensures ParsePing(Unlines(before + [line] + trailing), platform) == LineStatistics(line, platform)
  {
    var lines := before + [line];
    forall i | 0 <= i < |lines| ensures NoLineBreak(lines[i]) {
      if i < |before| {
        assert lines[i] == before[i];
      }
    }
    ParsePrinted(lines, trailing, platform);
  }

  lemma {:induction false} UnixPiecesSingle(prefix: string, rest: string)
    requires prefix == "rtt min/avg/max/mdev " && rest == " ms"
    ensures NoLineBreak(prefix + "= ") && NoLineBreak(rest)
  {
  }

  /** The third UNIX summary line, in pieces, is read as its min, avg and
      max. */
  lemma {:induction false} UnixLineRead(line: string, prefix: string, a: string, b: string, c: string, d: string)
    requires line == prefix + "= " + Join([a, b, c, d], '/') + " ms"
    requires prefix == "rtt min/avg/max/mdev "
    requires a == "100.131" && b == "111.721" && c == "163.633" && d == "20.372"
    ensures NoLineBreak(line) && line != ""
    ensures UnixStatistics(line) == Rtts(100.131, 111.721, 163.633)
  {
    UnixReadings(a, b, c, d);
    UnixPiecesSingle(prefix, " ms");
    UnixReadingsSingle(a, b, c, d);
    UnixLineSingle(line, prefix, [a, b, c, d], " ms");
    UnixSummaryLine(line, prefix, a, b, c, d);
  }

  /** tests.py:20-26 and 45: the third UNIX output, whatever the lines
      printed before its summary line. */
  lemma {:induction false} UnixOutput(before: seq<string>, line: string)
    requires forall i :: 0 <= i < |before| ==> NoLineBreak(before[i])
    requires line == "rtt min/avg/max/mdev = 100.131/111.721/163.633/20.372 ms"
    ensures ParsePing(Unlines(before + [line]), Unix) == Rtts(100.131, 111.721, 163.633)
  {
    var a, b, c, d := "100.131", "111.721", "163.633", "20.372";
    var prefix := "rtt min/avg/max/mdev ";
    UnixLineSpelled(line, a, b, c, d);
    UnixLineJoined(line, prefix, a, b, c, d);
    UnixLineRead(line, prefix, a, b, c, d);
    PrintedLast(before, line, [], Unix);
    assert before + [line] + [] == before + [line];
  }

  lemma {:induction false} WindowsReading(s: string)
    requires s == "98"
    ensures ParseDecimal(s) == Some(98.0)
  {
    assert ShowNat(98) == "98";
    ParseShowNat(98);
  }

  lemma {:induction false} TagSingle(tag: string)
    requires tag in {"    Minimum ", " Maximum ", " Average "}
    ensures NoLineBreak(tag + "= ")
  {
  }

  /** Each reading of the WINDOWS summary line is on one line. */
  lemma {:induction false} SegmentSingle(tag: string, number: string)
    requires tag in {"    Minimum ", " Maximum ", " Average "}
    requires ParseDecimal(number).Some?
    ensures NoLineBreak(Segment(Reading(tag, number, "")))
  {
    TagSingle(tag);
    NumberOnOneLine(number);
    NoLineBreakAppend(tag + "= ", number);
    NoLineBreakAppend(tag + "= " + number, "ms");
    assert Segment(Reading(tag, number, "")) == tag + "= " + number + "ms";
  }

  lemma {:induction false} WindowsLineSingle(line: string, min: string, max: string, avg: string)
    requires line == "    Minimum = " + min + "ms, Maximum = " + max + "ms, Average = " + avg + "ms"
    requires ParseDecimal(min).Some? && ParseDecimal(max).Some? && ParseDecimal(avg).Some?
    ensures NoLineBreak(line)
  {
    var rs := SummaryReadings(min, max, avg);
    SegmentSingle(rs[0].tag, min);
    SegmentSingle(rs[1].tag, max);
    SegmentSingle(rs[2].tag, avg);
    SummarySegments(min, max, avg);
    JoinNoLineBreak(Segments(rs), ',');
  }

  lemma {:induction false} WindowsLineSpelled(line: string, n: string)
    requires line == "    Minimum = 98ms, Maximum = 98ms, Average = 98ms" && n == "98"
    ensures line == "    Minimum = " + n + "ms, Maximum = " + n + "ms, Average = " + n + "ms"
  {
  }

  /** tests.py:28-39 and 48: the WINDOWS output gives (98, 98, 98), whatever
      the lines printed before its summary line and with the empty line
      after it. */
  lemma {:induction false} WindowsOutput(before: seq<string>, line: string)
    requires forall i :: 0 <= i < |before| ==> NoLineBreak(before[i])
    requires line == "    Minimum = 98ms, Maximum = 98ms, Average = 98ms"
    ensures ParsePing(Unlines(before + [line] + [""]), Windows) == Rtts(98.0, 98.0, 98.0)
  {
    var n := "98";
    WindowsReading(n);
    WindowsLineSpelled(line, n);
    WindowsLineSingle(line, n, n, n);
    PrintedLast(before, line, [""], Windows);
    WindowsLineOrder(line, n, n, n);
  }
}
