/**
 * The output row of the command-line tool (src/main.rs:133-172): one
 * tab-separated line per pileup position with the chromosome, the 1-based
 * position, the reference base, the depth and the concatenated base strings,
 * then one column for each optional output that is switched on, in the fixed
 * order read names, mapping qualities, base qualities, move values.
 */
module Render {
  import opened Wrappers
  import opened Text
  import opened Bam
  import opened Pileup

  /** `q + 33` stays a `u8` for every base quality of the position. */
  predicate QualitiesPrintable(p: PileupPos)
  {
    p.qualityScores.Some? ==> forall i :: 0 <= i < |p.qualityScores.value| ==> p.qualityScores.value[i] <= 222
  }

  /** The mapping-quality column: each value in decimal, with no separator. */
  function MapqColumn(mq: seq<Byte>): string
  {
    Concat(seq(|mq|, i requires 0 <= i < |mq| => NatToString(mq[i])))
  }

  /** The base-quality column: one Phred+33 character per base, which reads back as the quality. */
  function QualColumn(qs: seq<Byte>): (s: string)
    requires forall i :: 0 <= i < |qs| ==> qs[i] <= 222
    ensures |s| == |qs| && forall i :: 0 <= i < |qs| ==> s[i] as int - 33 == qs[i]
  {
    seq(|qs|, i requires 0 <= i < |qs| => (qs[i] + 33) as char)
  }

  /** The five columns every row has. */
  function FixedColumns(p: PileupPos): seq<string>
  {
    [p.chrom, NatToString(p.pos + 1), [p.refBase], NatToString(p.depth), Concat(p.bases)]
  }

  /** The number of optional outputs the row carries. */
  function Enabled(p: PileupPos): nat
  {
    (if p.readNames.Some? then 1 else 0) + (if p.mapQualities.Some? then 1 else 0)
    + (if p.qualityScores.Some? then 1 else 0) + (if p.mvValues.Some? then 1 else 0)
  }

  function NamesColumn(p: PileupPos): seq<string>
  {
    if p.readNames.Some? then [Join(p.readNames.value, ",")] else []
  }

  function MapqColumns(p: PileupPos): seq<string>
  {
    if p.mapQualities.Some? then [MapqColumn(p.mapQualities.value)] else []
  }

  function QualColumns(p: PileupPos): seq<string>
    requires QualitiesPrintable(p)
  {
    if p.qualityScores.Some? then [QualColumn(p.qualityScores.value)] else []
  }

  function MvColumns(p: PileupPos): seq<string>
  {
    if p.mvValues.Some? then [Join(p.mvValues.value, ";")] else []
  }

  /** The five fixed columns, then the optional ones in their fixed order. */
  function RowFields(p: PileupPos): (fs: seq<string>)
    requires QualitiesPrintable(p)
    ensures |fs| == 5 + Enabled(p)
  {
    FixedColumns(p) + NamesColumn(p) + MapqColumns(p) + QualColumns(p) + MvColumns(p)
  }

  /** The printed line, without its newline. */
  function Row(p: PileupPos): string
    requires QualitiesPrintable(p)
  {
    Join(RowFields(p), "\t")
  }

  /**
   * The row of one position, built as the source builds it: the five fixed
   * columns formatted at once, then a tab and a column pushed for each
   * optional output that is present.
   */
  method RenderRow(p: PileupPos) returns (line: string)
    requires QualitiesPrintable(p)
    ensures line == Row(p)
  {
    var basesStr := Concat(p.bases);
    line := p.chrom + "\t" + NatToString(p.pos + 1) + "\t" + [p.refBase] + "\t" + NatToString(p.depth) + "\t" + basesStr;
    ghost var fields := FixedColumns(p);
    JoinFive(p.chrom, NatToString(p.pos + 1), [p.refBase], NatToString(p.depth), basesStr);
    if p.readNames.Some? {
      var names := Join(p.readNames.value, ",");
      line := PushColumn(line, fields, names);
      fields := fields + [names];
    }
    assert fields == FixedColumns(p) + NamesColumn(p);
    if p.mapQualities.Some? {
      var mq := MapqColumn(p.mapQualities.value);
      line := PushColumn(line, fields, mq);
      fields := fields + [mq];
    }
    assert fields == FixedColumns(p) + NamesColumn(p) + MapqColumns(p);
    if p.qualityScores.Some? {
      var qs := QualColumn(p.qualityScores.value);
      line := PushColumn(line, fields, qs);
      fields := fields + [qs];
    }
    assert fields == FixedColumns(p) + NamesColumn(p) + MapqColumns(p) + QualColumns(p);
    if p.mvValues.Some? {
      var mvs := Join(p.mvValues.value, ";");
      line := PushColumn(line, fields, mvs);
      fields := fields + [mvs];
    }
    assert fields == RowFields(p);
  }

  /** `output.push('\t')` and `output.push_str(column)`: one more column on the line. */
  method PushColumn(line: string, ghost fields: seq<string>, column: string) returns (line': string)
    requires |fields| >= 1 && line == Join(fields, "\t")
    ensures line' == Join(fields + [column], "\t")
  {
    JoinSnoc(fields, column, "\t");
    line' := line + "\t" + column;
  }

  lemma JoinFive(a: string, b: string, c: string, d: string, e: string)
    ensures Join([a, b, c, d, e], "\t") == a + "\t" + b + "\t" + c + "\t" + d + "\t" + e
  {
    JoinSnoc([a], b, "\t");
    assert [a] + [b] == [a, b];
    JoinSnoc([a, b], c, "\t");
    assert [a, b] + [c] == [a, b, c];
    JoinSnoc([a, b, c], d, "\t");
    assert [a, b, c] + [d] == [a, b, c, d];
    JoinSnoc([a, b, c, d], e, "\t");
    assert [a, b, c, d] + [e] == [a, b, c, d, e];
  }

  /** The loop over the results: one line per position, in order. */
  method RenderRows(results: seq<PileupPos>) returns (lines: seq<string>)
    requires forall k :: 0 <= k < |results| ==> QualitiesPrintable(results[k])
    ensures |lines| == |results| && forall k :: 0 <= k < |results| ==> lines[k] == Row(results[k])
  {
    lines := [];
    for k := 0 to |results|
      invariant |lines| == k && forall j :: 0 <= j < k ==> lines[j] == Row(results[j])
    {
      var line := RenderRow(results[k]);
      lines := lines + [line];
    }
  }

  /** No column of the row holds a tab (the numeric and quality columns never do). */
  predicate TabFree(p: PileupPos)
  {
    && '\t' !in p.chrom && p.refBase != '\t'
    && (forall i :: 0 <= i < |p.bases| ==> '\t' !in p.bases[i])
    && (p.readNames.Some? ==> forall i :: 0 <= i < |p.readNames.value| ==> '\t' !in p.readNames.value[i])
    && (p.mvValues.Some? ==> forall i :: 0 <= i < |p.mvValues.value| ==> '\t' !in p.mvValues.value[i])
  }

  lemma DigitsTabFree(n: nat)
    ensures '\t' !in NatToString(n)
  {
    var d := NatToString(n);
    assert forall i :: 0 <= i < |d| ==> IsDigit(d[i]);
  }

  lemma MapqColumnTabFree(mq: seq<Byte>)
    ensures '\t' !in MapqColumn(mq)
  {
    var parts := seq(|mq|, i requires 0 <= i < |mq| => NatToString(mq[i]));
    forall i | 0 <= i < |parts| ensures '\t' !in parts[i] {
      DigitsTabFree(mq[i]);
    }
    NotInConcat(parts, '\t');
  }

  predicate NoTabIn(cols: seq<string>)
  {
    forall i :: 0 <= i < |cols| ==> '\t' !in cols[i]
  }

  lemma NoTabAppend(a: seq<string>, b: seq<string>)
    requires NoTabIn(a) && NoTabIn(b)
    ensures NoTabIn(a + b)
  {
    forall i | 0 <= i < |a + b| ensures '\t' !in (a + b)[i] {
      if i >= |a| {
        assert (a + b)[i] == b[i - |a|];
      }
    }
  }

  lemma ColumnsTabFree(p: PileupPos)
    requires QualitiesPrintable(p) && TabFree(p)
    ensures NoTabIn(RowFields(p))
  {
    DigitsTabFree(p.pos + 1);
    DigitsTabFree(p.depth);
    NotInConcat(p.bases, '\t');
    assert NoTabIn(FixedColumns(p));
    if p.readNames.Some? {
      NotInJoin(p.readNames.value, ",", '\t');
    }
    assert NoTabIn(NamesColumn(p));
    if p.mapQualities.Some? {
      MapqColumnTabFree(p.mapQualities.value);
    }
    assert NoTabIn(MapqColumns(p));
    if p.qualityScores.Some? {
      var qs := QualColumn(p.qualityScores.value);
      assert forall i :: 0 <= i < |qs| ==> qs[i] as int >= 33;
    }
    assert NoTabIn(QualColumns(p));
    if p.mvValues.Some? {
      NotInJoin(p.mvValues.value, ";", '\t');
    }
    assert NoTabIn(MvColumns(p));
    NoTabAppend(FixedColumns(p), NamesColumn(p));
    NoTabAppend(FixedColumns(p) + NamesColumn(p), MapqColumns(p));
    NoTabAppend(FixedColumns(p) + NamesColumn(p) + MapqColumns(p), QualColumns(p));
    NoTabAppend(FixedColumns(p) + NamesColumn(p) + MapqColumns(p) + QualColumns(p), MvColumns(p));
  }

  /** Splitting a printed row at its tabs gives back its columns: 5 fixed ones and one per enabled output. */
  lemma RowColumns(p: PileupPos)
    requires QualitiesPrintable(p) && TabFree(p)
    ensures Split(Row(p), '\t') == RowFields(p)
    ensures |Split(Row(p), '\t')| == 5 + Enabled(p)
  {
    ColumnsTabFree(p);
    SplitJoin(RowFields(p), '\t');
  }

  /**
   * The fixed columns read back: the chromosome, the position one up
   * (1-based), the reference base, the depth and the bases in order.
   */
  lemma RowFixedColumns(p: PileupPos)
    requires QualitiesPrintable(p) && TabFree(p)
    requires p.pos + 1 <= UsizeMax && p.depth <= UsizeMax
    ensures var cols := Split(Row(p), '\t');
      && |cols| >= 5 && cols[0] == p.chrom && ParseUsize(cols[1]) == Some(p.pos + 1)
      && cols[2] == [p.refBase] && ParseUsize(cols[3]) == Some(p.depth) && cols[4] == Concat(p.bases)
  {
    RowColumns(p);
    ParseUsizeOfNatToString(p.pos + 1);
    ParseUsizeOfNatToString(p.depth);
  }

  /** Where each optional column sits: after the fixed ones and the enabled outputs before it. */
  function NamesAt(p: PileupPos): nat { 5 }
  function MapqAt(p: PileupPos): nat { NamesAt(p) + |NamesColumn(p)| }
  function QualAt(p: PileupPos): nat { MapqAt(p) + |MapqColumns(p)| }
  function MvAt(p: PileupPos): nat
    requires QualitiesPrintable(p)
  {
    QualAt(p) + |QualColumns(p)|
  }

  /**
   * The optional columns read back: the read names split at ',', the base
   * qualities one character each minus 33, the move values split at ';',
   * when no name or move value holds its separator.
   */
  lemma RowOptionalColumns(p: PileupPos)
    requires QualitiesPrintable(p) && TabFree(p)
    ensures Split(Row(p), '\t') == RowFields(p)
    ensures var cols := Split(Row(p), '\t');
      && (p.readNames.Some? && |p.readNames.value| > 0
          && (forall i :: 0 <= i < |p.readNames.value| ==> ',' !in p.readNames.value[i])
          ==> Split(cols[NamesAt(p)], ',') == p.readNames.value)
      && (p.mapQualities.Some? ==> cols[MapqAt(p)] == MapqColumn(p.mapQualities.value))
      && (p.qualityScores.Some? ==>
          var qs := p.qualityScores.value;
          |cols[QualAt(p)]| == |qs| && forall i :: 0 <= i < |qs| ==> cols[QualAt(p)][i] as int - 33 == qs[i])
      && (p.mvValues.Some? && |p.mvValues.value| > 0
          && (forall i :: 0 <= i < |p.mvValues.value| ==> ';' !in p.mvValues.value[i])
          ==> Split(cols[MvAt(p)], ';') == p.mvValues.value)
  {
    RowColumns(p);
    var fs := RowFields(p);
    if p.readNames.Some? {
      assert fs[NamesAt(p)] == Join(p.readNames.value, ",");
      if |p.readNames.value| > 0 && forall i :: 0 <= i < |p.readNames.value| ==> ',' !in p.readNames.value[i] {
        SplitJoin(p.readNames.value, ',');
      }
    }
    if p.mvValues.Some? {
      assert fs[MvAt(p)] == Join(p.mvValues.value, ";");
      if |p.mvValues.value| > 0 && forall i :: 0 <= i < |p.mvValues.value| ==> ';' !in p.mvValues.value[i] {
        SplitJoin(p.mvValues.value, ';');
      }
    }
  }

  /** With every mapping quality below 10 the column is one digit per read. */
  lemma {:induction false} MapqColumnDigits(mq: seq<Byte>)
    requires forall i :: 0 <= i < |mq| ==> mq[i] < 10
    ensures |MapqColumn(mq)| == |mq| && forall i :: 0 <= i < |mq| ==> MapqColumn(mq)[i] as int - 48 == mq[i]
    decreases |mq|
  {
    if |mq| > 0 {
      MapqColumnDigits(mq[1..]);
      var parts := seq(|mq|, i requires 0 <= i < |mq| => NatToString(mq[i]));
      assert parts[1..] == seq(|mq| - 1, i requires 0 <= i < |mq| - 1 => NatToString(mq[1..][i]));
      assert MapqColumn(mq) == NatToString(mq[0]) + MapqColumn(mq[1..]);
    }
  }

  /** Without a separator the mapping qualities 1, 23 and 12, 3 print the same column. */
  lemma MapqColumnAmbiguous()
    ensures MapqColumn([1, 23]) == MapqColumn([12, 3]) == "123"
  {
    assert NatToString(1) == "1" && NatToString(3) == "3";
    assert NatToString(12) == "12" && NatToString(23) == "23";
    var a: seq<Byte> := [1, 23];
    var b: seq<Byte> := [12, 3];
    assert seq(|a|, i requires 0 <= i < |a| => NatToString(a[i])) == ["1", "23"];
    assert seq(|b|, i requires 0 <= i < |b| => NatToString(b[i])) == ["12", "3"];
    assert Concat(["1", "23"]) == "123";
    assert Concat(["12", "3"]) == "123";
  }
}
