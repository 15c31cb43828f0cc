/**
 * Region input (src/region.rs): the `chrom:start-end` region string, 1-based
 * and inclusive, turned into a 0-based half-open `Region`, and the lines of a
 * BED file, whose coordinates are 0-based half-open already.
 */
module Regions {
  import opened Wrappers
  import opened Text

  /** `Region`: a chromosome and the 0-based half-open interval `[start, end)`. */
  datatype Region = Region(chromosome: string, start: nat, end: nat)

  /** The ways `Region::from_str` fails, in the order it checks them. */
  datatype RegionError =
    | BadFormat   // not exactly one ':'
    | BadRange    // not exactly one '-' after the ':'
    | BadStart    // the start is no usize
    | BadEnd      // the end is no usize
    | ZeroStart   // a 1-based start of 0

  /** `Region::from_str`: commas are dropped first, then the rest is parsed. */
  function FromStr(s: string): Result<Region, RegionError>
  {
    FromStrPlain(Remove(s, ','))
  }

  /** The parse of the comma-free string. */
  function FromStrPlain(t: string): Result<Region, RegionError>
  {
    var parts := Split(t, ':');
    if |parts| != 2 then Err(BadFormat)
    else
      var range := Split(parts[1], '-');
      if |range| != 2 then Err(BadRange)
      else
        match ParseUsize(range[0])
        case None => Err(BadStart)
        case Some(start1) =>
          match ParseUsize(range[1])
          case None => Err(BadEnd)
          case Some(end1) =>
            if start1 == 0 then Err(ZeroStart) else Ok(Region(parts[0], start1 - 1, end1))
  }

  /** The region string the parser reads back as `r`: 1-based start, inclusive end. */
  function Format(r: Region): string
  {
    r.chromosome + ":" + NatToString(r.start + 1) + "-" + NatToString(r.end)
  }

  /** Exactly the strings with other than one ':' once commas are gone are refused as malformed. */
  lemma FromStrFormatError(s: string)
    ensures FromStr(s) == Err(BadFormat) <==> Count(Remove(s, ','), ':') != 1
  {
  }

  /** A successful parse moves the start one down and keeps the end. */
  lemma FromStrCoordinates(s: string)
    requires FromStr(s).Ok?
    ensures var t := Split(Remove(s, ','), ':');
      var range := Split(t[1], '-');
      && |t| == 2 && |range| == 2
      && FromStr(s).value.chromosome == t[0]
      && ParseUsize(range[0]) == Some(FromStr(s).value.start + 1)
      && ParseUsize(range[1]) == Some(FromStr(s).value.end)
  {
  }

  lemma {:induction false} RemoveAppend(a: string, b: string, c: char)
    ensures Remove(a + b, c) == Remove(a, c) + Remove(b, c)
    decreases |a|
  {
    if |a| > 0 {
      assert (a + b)[1..] == a[1..] + b;
      RemoveAppend(a[1..], b, c);
    } else {
      assert a + b == b;
    }
  }

  /** Thousands separators are ignored: a comma anywhere in the string changes nothing. */
  lemma FromStrIgnoresComma(a: string, b: string)
    ensures FromStr(a + "," + b) == FromStr(a + b)
  {
    RemoveAppend(a + ",", b, ',');
    RemoveAppend(a, ",", ',');
    RemoveAppend(a, b, ',');
    assert Remove(",", ',') == "";
    assert Remove(a, ',') + "" == Remove(a, ',');
    assert Remove(a + "," + b, ',') == Remove(a + b, ',');
  }

  lemma NatToStringPlain(n: nat)
    ensures ':' !in NatToString(n) && '-' !in NatToString(n) && ',' !in NatToString(n)
    ensures Count(NatToString(n), ':') == 0 && Count(NatToString(n), '-') == 0
  {
    var d := NatToString(n);
    assert forall i :: 0 <= i < |d| ==> IsDigit(d[i]);
    CountAbsent(d, ':');
    CountAbsent(d, '-');
  }

  lemma {:induction false} CountAbsent(s: string, c: char)
    requires c !in s
    ensures Count(s, c) == 0
    decreases |s|
  {
    if |s| > 0 {
      assert c !in s[1..] by {
        assert forall i :: 0 <= i < |s| - 1 ==> s[1..][i] == s[i + 1];
      }
      CountAbsent(s[1..], c);
    }
  }

  /**
   * Printing a region as `chrom:start+1-end` and parsing it gives the region
   * back, for a chromosome name without ':' or ',' and coordinates that fit
   * in a usize.
   */
  lemma FromStrOfFormat(r: Region)
    requires ':' !in r.chromosome && ',' !in r.chromosome
    requires r.start + 1 <= UsizeMax && r.end <= UsizeMax
    ensures FromStr(Format(r)) == Ok(r)
  {
    var a := NatToString(r.start + 1);
    var b := NatToString(r.end);
    NatToStringPlain(r.start + 1);
    NatToStringPlain(r.end);
    var range := a + "-" + b;
    assert Format(r) == r.chromosome + ":" + range;
    assert ',' !in range;
    RemoveAbsent(Format(r), ',');
    SplitJoin([r.chromosome, range], ':');
    assert Join([r.chromosome, range], [':']) == r.chromosome + ":" + range;
    SplitJoin([a, b], '-');
    assert Join([a, b], ['-']) == range;
    ParseUsizeOfNatToString(r.start + 1);
    ParseUsizeOfNatToString(r.end);
  }

  /** Nothing checks that the start lies before the end: "chr1:10-5" is accepted. */
  lemma FromStrAcceptsReversed()
    ensures FromStr("chr1:10-5") == Ok(Region("chr1", 9, 5))
  {
    assert NatToString(10) == "10";
    assert NatToString(5) == "5";
    assert Format(Region("chr1", 9, 5)) == "chr1:10-5";
    FromStrOfFormat(Region("chr1", 9, 5));
  }

  /** A 1-based start of 0 is refused, whatever the end. */
  lemma FromStrZeroStart(chrom: string, end: nat)
    requires ':' !in chrom && ',' !in chrom && end <= UsizeMax
    ensures FromStr(chrom + ":" + NatToString(0) + "-" + NatToString(end)) == Err(ZeroStart)
  {
    var a := NatToString(0);
    var b := NatToString(end);
    NatToStringPlain(0);
    NatToStringPlain(end);
    var s := chrom + ":" + a + "-" + b;
    var range := a + "-" + b;
    assert s == chrom + ":" + range;
    assert ',' !in range;
    RemoveAbsent(s, ',');
    SplitJoin([chrom, range], ':');
    assert Join([chrom, range], [':']) == chrom + ":" + range;
    SplitJoin([a, b], '-');
    assert Join([a, b], ['-']) == range;
    ParseUsizeOfNatToString(0);
    ParseUsizeOfNatToString(end);
  }

  // ---------------------------------------------------------------------
  // BED lines

  /** The ways a BED line aborts `parse_bed_file`. */
  datatype BedError = BadBedStart | BadBedEnd

  /** What one line contributes: nothing, a region, or the error that ends the parse. */
  datatype BedLine = Skip | Accept(region: Region) | Fail(error: BedError)

  /** `line.starts_with('#')`, on the line as read, before any trimming. */
  predicate IsComment(line: string)
  {
    |line| > 0 && line[0] == '#'
  }

  /** The loop body of `parse_bed_file` for one line. */
  function BedLineOf(line: string): BedLine
  {
    if IsBlank(line) || IsComment(line) then Skip
    else
      var fields := Fields(line);
      if |fields| < 3 then Skip
      else
        match ParseUsize(fields[1])
        case None => Fail(BadBedStart)
        case Some(start) =>
          match ParseUsize(fields[2])
          case None => Fail(BadBedEnd)
          case Some(end) => Accept(Region(fields[0], start, end))
  }

  /** `parse_bed_file` over the lines of the file, read from the front. */
  function ParseBed(lines: seq<string>): Result<seq<Region>, BedError>
    decreases |lines|
  {
    if |lines| == 0 then Ok([]) else Consume(ParseBed(lines[..|lines| - 1]), BedLineOf(lines[|lines| - 1]))
  }

  /** One more line: an error stays, a failing line becomes the error, an accepted one is pushed. */
  function Consume(acc: Result<seq<Region>, BedError>, o: BedLine): Result<seq<Region>, BedError>
  {
    match acc
    case Err(e) => Err(e)
    case Ok(regions) =>
      match o
      case Skip => Ok(regions)
      case Fail(e) => Err(e)
      case Accept(r) => Ok(regions + [r])
  }

  /** What each line contributes, line by line. */
  function Outcomes(lines: seq<string>): seq<BedLine>
  {
    seq(|lines|, i requires 0 <= i < |lines| => BedLineOf(lines[i]))
  }

  lemma OutcomesSnoc(lines: seq<string>, o: BedLine)
    requires |lines| > 0 && o == BedLineOf(lines[|lines| - 1])
    ensures Outcomes(lines) == Outcomes(lines[..|lines| - 1]) + [o]
  {
  }

  /** The regions of the accepted lines, in file order. */
  function Accepted(outs: seq<BedLine>): seq<Region>
    decreases |outs|
  {
    if |outs| == 0 then []
    else (if outs[0].Accept? then [outs[0].region] else []) + Accepted(outs[1..])
  }

  /** The error of the first failing line, if any. */
  function FirstFailure(outs: seq<BedLine>): (e: Option<BedError>)
    ensures e.None? <==> forall i :: 0 <= i < |outs| ==> !outs[i].Fail?
    decreases |outs|
  {
    if |outs| == 0 then None
    else if outs[0].Fail? then Some(outs[0].error)
    else
      var rest := FirstFailure(outs[1..]);
      assert forall i :: 1 <= i < |outs| ==> outs[i] == outs[1..][i - 1];
      rest
  }

  lemma {:induction false} AcceptedSnoc(outs: seq<BedLine>, o: BedLine)
    ensures Accepted(outs + [o]) == Accepted(outs) + (if o.Accept? then [o.region] else [])
    decreases |outs|
  {
    if |outs| == 0 {
      assert outs + [o] == [o];
      assert [o][1..] == [];
    } else {
      var head := if outs[0].Accept? then [outs[0].region] else [];
      assert (outs + [o])[0] == outs[0];
      assert (outs + [o])[1..] == outs[1..] + [o];
      assert Accepted(outs + [o]) == head + Accepted(outs[1..] + [o]);
      AcceptedSnoc(outs[1..], o);
      assert Accepted(outs) == head + Accepted(outs[1..]);
    }
  }

  lemma {:induction false} FirstFailureSnoc(outs: seq<BedLine>, o: BedLine)
    ensures FirstFailure(outs + [o]) ==
      if FirstFailure(outs).Some? then FirstFailure(outs)
      else if o.Fail? then Some(o.error)
      else None
    decreases |outs|
  {
    if |outs| == 0 {
      assert outs + [o] == [o];
      assert [o][1..] == [];
    } else {
      assert (outs + [o])[1..] == outs[1..] + [o];
      FirstFailureSnoc(outs[1..], o);
    }
  }

  /** The result the outcomes call for: the first failure, or else the accepted regions. */
  function Meaning(outs: seq<BedLine>): Result<seq<Region>, BedError>
  {
    match FirstFailure(outs)
    case Some(e) => Err(e)
    case None => Ok(Accepted(outs))
  }

  lemma MeaningSnoc(outs: seq<BedLine>, o: BedLine)
    ensures Meaning(outs + [o]) == Consume(Meaning(outs), o)
  {
    AcceptedSnoc(outs, o);
    FirstFailureSnoc(outs, o);
    if FirstFailure(outs).None? && o.Skip? {
      assert Accepted(outs) + [] == Accepted(outs);
    }
  }

  lemma ParseBedStep(lines: seq<string>)
    requires |lines| > 0
    requires ParseBed(lines[..|lines| - 1]) == Meaning(Outcomes(lines[..|lines| - 1]))
    ensures ParseBed(lines) == Meaning(Outcomes(lines))
  {
    var pre := lines[..|lines| - 1];
    var o := BedLineOf(lines[|lines| - 1]);
    assert ParseBed(lines) == Consume(ParseBed(pre), o);
    OutcomesSnoc(lines, o);
    MeaningSnoc(Outcomes(pre), o);
  }

  /**
   * The parse fails with the error of the first failing line; otherwise it
   * yields the regions of the accepted lines, in order, coordinates as
   * written.
   */
  lemma {:induction false} ParseBedMeaning(lines: seq<string>)
    ensures ParseBed(lines) == Meaning(Outcomes(lines))
    decreases |lines|
  {
    if |lines| > 0 {
      ParseBedMeaning(lines[..|lines| - 1]);
      ParseBedStep(lines);
    }
  }

  /** Blank lines and comment lines are skipped. */
  lemma BedSkipsBlankAndComment(line: string)
    requires IsBlank(line) || IsComment(line)
    ensures BedLineOf(line) == Skip
  {
  }

  /** A line that is not blank, not a comment, but has fewer than three fields is skipped. */
  lemma BedSkipsShort(line: string)
    requires !IsBlank(line) && !IsComment(line) && |Fields(line)| < 3
    ensures BedLineOf(line) == Skip
  {
  }

  lemma DigitsAreToken(n: nat)
    ensures IsToken(NatToString(n))
  {
    var d := NatToString(n);
    assert forall j :: 0 <= j < |d| ==> IsDigit(d[j]);
  }

  /**
   * A line of whitespace-separated fields `chrom start end ...` reads back as
   * the region `[start, end)` of `chrom`, coordinates unchanged, for a
   * chromosome token that does not start with '#'.
   */
  lemma BedLineOfFields(chrom: string, start: nat, end: nat, rest: seq<string>, w: char)
    requires IsWhitespace(w) && IsToken(chrom) && chrom[0] != '#'
    requires forall i :: 0 <= i < |rest| ==> IsToken(rest[i])
    requires start <= UsizeMax && end <= UsizeMax
    ensures BedLineOf(Join([chrom, NatToString(start), NatToString(end)] + rest, [w])) == Accept(Region(chrom, start, end))
  {
    var fs := [chrom, NatToString(start), NatToString(end)] + rest;
    DigitsAreToken(start);
    DigitsAreToken(end);
    assert forall i :: 0 <= i < |fs| ==> IsToken(fs[i]) by {
      forall i | 0 <= i < |fs| ensures IsToken(fs[i]) {
        if i >= 3 {
          assert fs[i] == rest[i - 3];
        }
      }
    }
    var line := Join(fs, [w]);
    FieldsOfJoin(fs, w);
    BlankIffNoFields(line);
    JoinHead(fs, [w]);
    assert fs[0] == chrom && fs[1] == NatToString(start) && fs[2] == NatToString(end);
    assert !IsComment(line);
    ParseUsizeOfNatToString(start);
    ParseUsizeOfNatToString(end);
    BedLineOfParsed(line, chrom, start, end);
  }

  lemma BedLineOfParsed(line: string, chrom: string, start: nat, end: nat)
    requires !IsBlank(line) && !IsComment(line)
    requires |Fields(line)| >= 3 && Fields(line)[0] == chrom
    requires ParseUsize(Fields(line)[1]) == Some(start) && ParseUsize(Fields(line)[2]) == Some(end)
    ensures BedLineOf(line) == Accept(Region(chrom, start, end))
  {
  }

  lemma {:induction false} JoinHead(parts: seq<string>, sep: string)
    requires |parts| > 0 && |parts[0]| > 0
    ensures |Join(parts, sep)| > 0 && Join(parts, sep)[0] == parts[0][0]
    decreases |parts|
  {
  }

  /** Once a line has failed, the lines after it change nothing. */
  lemma {:induction false} ParseBedKeepsError(lines: seq<string>, n: nat)
    requires n <= |lines| && ParseBed(lines[..n]).Err?
    ensures ParseBed(lines) == ParseBed(lines[..n])
    decreases |lines| - n
  {
    if n < |lines| {
      var pre := lines[..|lines| - 1];
      assert pre[..n] == lines[..n];
      ParseBedKeepsError(pre, n);
    } else {
      assert lines[..n] == lines;
    }
  }

  /**
   * `parse_bed_file` after the file is read: each line skipped, turned into
   * a region appended to `regions`, or ending the parse with its error.
   */
  method ParseBedLines(lines: seq<string>) returns (result: Result<seq<Region>, BedError>)
    ensures result == ParseBed(lines)
  {
    var regions: seq<Region> := [];
    var i := 0;
    while i < |lines|
      invariant 0 <= i <= |lines|
      invariant ParseBed(lines[..i]) == Ok(regions)
    {
      var line := lines[i];
      assert lines[..i + 1][..i] == lines[..i];
      i := i + 1;
      if IsBlank(line) || IsComment(line) {
        continue;
      }
      var fields := Fields(line);
      if |fields| < 3 {
        continue;
      }
      var start := ParseUsize(fields[1]);
      if start.None? {
        ParseBedKeepsError(lines, i);
        return Err(BadBedStart);
      }
      var end := ParseUsize(fields[2]);
      if end.None? {
        ParseBedKeepsError(lines, i);
        return Err(BadBedEnd);
      }
      regions := regions + [Region(fields[0], start.value, end.value)];
    }
    assert lines[..i] == lines;
    result := Ok(regions);
  }
}
