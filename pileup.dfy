/**
 * The column scan of `nanopileup` (src/nanopileup.rs:343-473) and
 * `PileupPos` (src/nanopileup.rs:213-252): for one reference position, every
 * cached read that covers it with a good enough base contributes one base
 * string in pileup text encoding, visited in sorted read-id order.
 */
module Pileup {
  import opened Wrappers
  import opened Text
  import opened ReadOrder
  import opened Bam
  import opened Decode
  import opened Cache

  datatype PileupPos = PileupPos(
    chrom: string,
    pos: nat,
    refBase: char,
    depth: nat,
    bases: seq<string>,
    readNames: Option<seq<string>>,
    mapQualities: Option<seq<Byte>>,
    qualityScores: Option<seq<Byte>>,
    mvValues: Option<seq<string>>)

  /** What the scan of one region needs besides the cache. */
  datatype Scan = Scan(
    chrom: string,
    start: nat,
    reference: Option<string>,
    minBaseq: Byte,
    outputBq: bool,
    outputMapq: bool,
    outputReadName: bool,
    outputMv: bool)

  function EmptyIf(on: bool): Option<seq<string>>
  {
    if on then Some([]) else None
  }

  function EmptyBytesIf(on: bool): Option<seq<Byte>>
  {
    if on then Some([]) else None
  }

  /** `PileupPos::new`: no reads yet, an empty vector for every enabled output. */
  function NewPos(sc: Scan, pos: nat, refBase: char): (p: PileupPos)
    ensures p.chrom == sc.chrom && p.pos == pos && p.refBase == refBase
    ensures p.depth == 0 && InStep(p, sc)
  {
    PileupPos(sc.chrom, pos, refBase, 0, [], EmptyIf(sc.outputReadName), EmptyBytesIf(sc.outputMapq),
      EmptyBytesIf(sc.outputBq), EmptyIf(sc.outputMv))
  }

  /** The reference base at `pos`: 'N' without a reference or past its end. */
  function RefBase(reference: Option<string>, start: nat, pos: nat): (b: char)
    requires start <= pos
    ensures reference.Some? && pos - start < |reference.value| ==> b == reference.value[pos - start]
    ensures reference.None? || pos - start >= |reference.value| ==> b == 'N'
  {
    if reference.Some? && pos - start < |reference.value| then reference.value[pos - start] else 'N'
  }

  /** The called base: '.' or ',' for a reference match, the letter otherwise, lower case on the reverse strand. */
  function CalledBase(info: BaseInfo): char
  {
    if info.isReverse then (if info.base == '=' then ',' else AsciiLower(info.base))
    else (if info.base == '=' then '.' else info.base)
  }

  /** The read start marker and the mapping quality as the character `mapq + 33`. */
  function HeadPart(info: BaseInfo): string
    requires info.isHead ==> info.mapq <= 222
  {
    if info.isHead then ['^', (info.mapq + 33) as char] else ""
  }

  function InsPart(info: BaseInfo): string
  {
    match info.insertion
    case None => ""
    case Some(ins) => "+" + NatToString(|ins|) + (if info.isReverse then LowerAscii(ins) else UpperAscii(ins))
  }

  /** The deleted reference bases at `pos + 1 ..`, when there is a reference and it reaches that far. */
  function DeletedBases(reference: Option<string>, start: nat, pos: nat, len: nat): string
    requires start <= pos
  {
    var from := pos + 1 - start;
    if reference.Some? && from + len <= |reference.value| then reference.value[from .. from + len] else ""
  }

  function DelPart(info: BaseInfo, sc: Scan, pos: nat): string
    requires sc.start <= pos
  {
    match info.deletionLen
    case None => ""
    case Some(d) => "-" + NatToString(d) + DeletedBases(sc.reference, sc.start, pos, d)
  }

  function TailPart(info: BaseInfo): string
  {
    if info.isTail then "$" else ""
  }

  /** The base string of one read at one position. */
  function BaseString(info: BaseInfo, sc: Scan, pos: nat): string
    requires sc.start <= pos && (info.isHead ==> info.mapq <= 222)
  {
    HeadPart(info) + [CalledBase(info)] + InsPart(info) + DelPart(info, sc, pos) + TailPart(info)
  }

  /** The move values of a slot: decimal numbers joined with ",+", or "0" when there are none. */
  function MvText(mv: Option<seq<nat>>): string
  {
    match mv
    case None => "0"
    case Some(vals) => Join(seq(|vals|, i requires 0 <= i < |vals| => NatToString(vals[i])), ",+")
  }

  /** The slot of `read` at `pos`, if the read covers it and has one there. */
  function SlotAt(read: CachedRead, pos: int): Option<BaseInfo>
  {
    if read.refStart <= pos < read.refEnd && pos - read.refStart < |read.seqData|
    then read.seqData[pos - read.refStart]
    else None
  }

  /** A read contributes to the column at `pos`. */
  predicate Contributes(read: CachedRead, pos: int, minBaseq: Byte)
  {
    SlotAt(read, pos).Some? && SlotAt(read, pos).value.qual >= minBaseq
  }

  /** The start marker of every filled slot can be printed. */
  predicate HeadsPrintable(read: CachedRead)
  {
    forall k :: 0 <= k < |read.seqData| && read.seqData[k].Some? && read.seqData[k].value.isHead ==>
      read.seqData[k].value.mapq <= 222
  }

  predicate ScanReady(cache: Reads, ids: seq<string>)
  {
    forall i :: 0 <= i < |ids| ==> ids[i] in cache && HeadsPrintable(cache[ids[i]])
  }

  function Append<T>(v: Option<seq<T>>, x: T): Option<seq<T>>
  {
    match v
    case None => None
    case Some(s) => Some(s + [x])
  }

  /** One read of the scan loop. */
  function AddRead(p: PileupPos, read: CachedRead, sc: Scan): (q: PileupPos)
    requires sc.start <= p.pos && HeadsPrintable(read)
    ensures q.pos == p.pos
  {
    if !Contributes(read, p.pos, sc.minBaseq) then p
    else
      var info := SlotAt(read, p.pos).value;
      p.(bases := p.bases + [BaseString(info, sc, p.pos)],
         depth := p.depth + 1,
         readNames := if sc.outputReadName then Append(p.readNames, read.readId) else p.readNames,
         mapQualities := if sc.outputMapq then Append(p.mapQualities, info.mapq) else p.mapQualities,
         qualityScores := if sc.outputBq then Append(p.qualityScores, info.qual) else p.qualityScores,
         mvValues := if sc.outputMv then Append(p.mvValues, MvText(info.mvValue)) else p.mvValues)
  }

  /** The scan loop over the ids in the given order. */
  function AddReads(p: PileupPos, cache: Reads, ids: seq<string>, sc: Scan): (q: PileupPos)
    requires sc.start <= p.pos && ScanReady(cache, ids)
    ensures q.pos == p.pos
    decreases |ids|
  {
    if |ids| == 0 then p
    else AddRead(AddReads(p, cache, ids[..|ids| - 1], sc), cache[ids[|ids| - 1]], sc)
  }

  /** The column at `pos` for the reads visited in the order `ids`. */
  function Column(cache: Reads, ids: seq<string>, sc: Scan, pos: nat): PileupPos
    requires sc.start <= pos && ScanReady(cache, ids)
  {
    AddReads(NewPos(sc, pos, RefBase(sc.reference, sc.start, pos)), cache, ids, sc)
  }

  // ---------------------------------------------------------------------
  // The column described directly by the reads that contribute to it.

  /** The ids, in order, of the reads that contribute at `pos`. */
  function Contributors(cache: Reads, ids: seq<string>, pos: int, minBaseq: Byte): (cs: seq<string>)
    requires forall i :: 0 <= i < |ids| ==> ids[i] in cache
    ensures forall i :: 0 <= i < |cs| ==> cs[i] in cache && Contributes(cache[cs[i]], pos, minBaseq)
    ensures Elements(cs) == set x | x in Elements(ids) && Contributes(cache[x], pos, minBaseq)
    ensures StrictlySorted(ids) ==> StrictlySorted(cs)
    decreases |ids|
  {
    if |ids| == 0 then []
    else
      var pre := ids[..|ids| - 1];
      var x := ids[|ids| - 1];
      var cs := Contributors(cache, pre, pos, minBaseq);
      assert Elements(ids) == Elements(pre) + {x};
      if Contributes(cache[x], pos, minBaseq) then
        assert StrictlySorted(ids) ==> forall i :: 0 <= i < |cs| ==> LexLess(cs[i], x) by {
          if StrictlySorted(ids) {
            forall i | 0 <= i < |cs| ensures LexLess(cs[i], x) {
              assert cs[i] in Elements(cs);
              var j :| 0 <= j < |pre| && pre[j] == cs[i];
              assert ids[j] == cs[i];
            }
          }
        }
        assert Elements(cs + [x]) == Elements(cs) + {x};
        cs + [x]
      else
        cs
  }

  function ContribInfo(cache: Reads, id: string, pos: int, minBaseq: Byte): BaseInfo
    requires id in cache && Contributes(cache[id], pos, minBaseq)
  {
    SlotAt(cache[id], pos).value
  }

  /**
   * The column made from its contributors `cs`: one base string per
   * contributor in order, and every enabled vector parallel to it.
   */
  predicate ColumnOf(p: PileupPos, cache: Reads, cs: seq<string>, sc: Scan, pos: nat)
    requires sc.start <= pos
    requires forall i :: 0 <= i < |cs| ==>
      cs[i] in cache && Contributes(cache[cs[i]], pos, sc.minBaseq) && HeadsPrintable(cache[cs[i]])
  {
    && p.chrom == sc.chrom && p.pos == pos && p.refBase == RefBase(sc.reference, sc.start, pos)
    && p.depth == |cs| && |p.bases| == |cs|
    && (p.readNames.Some? <==> sc.outputReadName)
    && (p.mapQualities.Some? <==> sc.outputMapq)
    && (p.qualityScores.Some? <==> sc.outputBq)
    && (p.mvValues.Some? <==> sc.outputMv)
    && (p.readNames.Some? ==> |p.readNames.value| == |cs|)
    && (p.mapQualities.Some? ==> |p.mapQualities.value| == |cs|)
    && (p.qualityScores.Some? ==> |p.qualityScores.value| == |cs|)
    && (p.mvValues.Some? ==> |p.mvValues.value| == |cs|)
    && forall i :: 0 <= i < |cs| ==>
         var info := ContribInfo(cache, cs[i], pos, sc.minBaseq);
         HeadsPrintableInfo(cache[cs[i]], pos, info)
         && p.bases[i] == BaseString(info, sc, pos)
         && (p.readNames.Some? ==> p.readNames.value[i] == cache[cs[i]].readId)
         && (p.mapQualities.Some? ==> p.mapQualities.value[i] == info.mapq)
         && (p.qualityScores.Some? ==> p.qualityScores.value[i] == info.qual)
         && (p.mvValues.Some? ==> p.mvValues.value[i] == MvText(info.mvValue))
  }

  predicate HeadsPrintableInfo(read: CachedRead, pos: int, info: BaseInfo)
  {
    info.isHead ==> info.mapq <= 222
  }

  lemma SlotPrintable(read: CachedRead, pos: int, minBaseq: Byte)
    requires HeadsPrintable(read) && Contributes(read, pos, minBaseq)
    ensures HeadsPrintableInfo(read, pos, SlotAt(read, pos).value)
  {
    var k := pos - read.refStart;
    assert read.seqData[k].Some?;
  }

  /**
   * The scan loop builds exactly the column of the contributing reads: their
   * base strings in visiting order, and the enabled vectors in step with them.
   */
  lemma {:induction false} ColumnContents(cache: Reads, ids: seq<string>, sc: Scan, pos: nat)
    requires sc.start <= pos && ScanReady(cache, ids)
    ensures var cs := Contributors(cache, ids, pos, sc.minBaseq);
      (forall i :: 0 <= i < |cs| ==> HeadsPrintable(cache[cs[i]]))
      && ColumnOf(Column(cache, ids, sc, pos), cache, cs, sc, pos)
    decreases |ids|
  {
    var cs := Contributors(cache, ids, pos, sc.minBaseq);
    forall i | 0 <= i < |cs| ensures HeadsPrintable(cache[cs[i]]) {
      assert cs[i] in Elements(cs);
      var j :| 0 <= j < |ids| && ids[j] == cs[i];
    }
    if |ids| > 0 {
      var pre := ids[..|ids| - 1];
      var x := ids[|ids| - 1];
      assert ScanReady(cache, pre);
      ColumnContents(cache, pre, sc, pos);
      var csp := Contributors(cache, pre, pos, sc.minBaseq);
      var p := Column(cache, pre, sc, pos);
      assert Column(cache, ids, sc, pos) == AddRead(p, cache[x], sc);
      if Contributes(cache[x], pos, sc.minBaseq) {
        assert cs == csp + [x];
        ColumnStep(p, cache, csp, x, sc, pos);
      }
    }
  }

  /** Adding a contributing read extends the column by that read's entries. */
  lemma ColumnStep(p: PileupPos, cache: Reads, csp: seq<string>, x: string, sc: Scan, pos: nat)
    requires sc.start <= pos && p.pos == pos
    requires forall i :: 0 <= i < |csp| ==>
      csp[i] in cache && Contributes(cache[csp[i]], pos, sc.minBaseq) && HeadsPrintable(cache[csp[i]])
    requires x in cache && Contributes(cache[x], pos, sc.minBaseq) && HeadsPrintable(cache[x])
    requires ColumnOf(p, cache, csp, sc, pos)
    ensures ColumnOf(AddRead(p, cache[x], sc), cache, csp + [x], sc, pos)
  {
    var cs := csp + [x];
    SlotPrintable(cache[x], pos, sc.minBaseq);
    var q := AddRead(p, cache[x], sc);
    forall i | 0 <= i < |cs|
      ensures var info := ContribInfo(cache, cs[i], pos, sc.minBaseq);
        HeadsPrintableInfo(cache[cs[i]], pos, info)
        && q.bases[i] == BaseString(info, sc, pos)
        && (q.readNames.Some? ==> q.readNames.value[i] == cache[cs[i]].readId)
        && (q.mapQualities.Some? ==> q.mapQualities.value[i] == info.mapq)
        && (q.qualityScores.Some? ==> q.qualityScores.value[i] == info.qual)
        && (q.mvValues.Some? ==> q.mvValues.value[i] == MvText(info.mvValue))
    {
      if i < |csp| {
        assert cs[i] == csp[i];
      }
    }
  }


  lemma {:induction false} SortedCard(s: seq<string>)
    requires StrictlySorted(s)
    ensures |Elements(s)| == |s|
    decreases |s|
  {
    if |s| > 0 {
      var pre := s[..|s| - 1];
      var x := s[|s| - 1];
      assert StrictlySorted(pre);
      SortedCard(pre);
      LexLessIrreflexive(x);
      forall j | 0 <= j < |pre| ensures pre[j] != x {
        assert pre[j] == s[j] && LexLess(s[j], s[|s| - 1]);
      }
      assert x !in Elements(pre);
      assert Elements(s) == Elements(pre) + {x};
    }
  }

  /**
   * Scanning the cache in sorted id order, the depth of the column is the
   * number of cached reads that cover `pos` with a slot of good enough quality.
   */
  lemma ColumnDepth(cache: Reads, sc: Scan, pos: nat)
    requires sc.start <= pos
    requires forall id :: id in cache ==> HeadsPrintable(cache[id])
    ensures var ids := SortedKeys(cache.Keys);
      ScanReady(cache, ids)
      && Column(cache, ids, sc, pos).depth == |set id | id in cache && Contributes(cache[id], pos, sc.minBaseq)|
  {
    var ids := SortedKeys(cache.Keys);
    assert forall i :: 0 <= i < |ids| ==> ids[i] in Elements(ids);
    ColumnContents(cache, ids, sc, pos);
    var cs := Contributors(cache, ids, pos, sc.minBaseq);
    SortedCard(cs);
    assert Elements(cs) == set id | id in cache && Contributes(cache[id], pos, sc.minBaseq);
  }

  /**
   * A column's vectors are in step: the depth is the number of base strings,
   * and each enabled output vector is present with one entry per base
   * string while each disabled one is absent.
   */
  predicate InStep(p: PileupPos, sc: Scan)
  {
    && p.depth == |p.bases|
    && (p.readNames.Some? <==> sc.outputReadName) && (p.readNames.Some? ==> |p.readNames.value| == p.depth)
    && (p.mapQualities.Some? <==> sc.outputMapq) && (p.mapQualities.Some? ==> |p.mapQualities.value| == p.depth)
    && (p.qualityScores.Some? <==> sc.outputBq) && (p.qualityScores.Some? ==> |p.qualityScores.value| == p.depth)
    && (p.mvValues.Some? <==> sc.outputMv) && (p.mvValues.Some? ==> |p.mvValues.value| == p.depth)
  }

  /** Every scanned column is for the requested chromosome and position, and in step. */
  lemma ColumnShape(cache: Reads, ids: seq<string>, sc: Scan, pos: nat)
    requires sc.start <= pos && ScanReady(cache, ids)
    ensures var p := Column(cache, ids, sc, pos);
      p.chrom == sc.chrom && p.pos == pos && InStep(p, sc)
  {
    ColumnContents(cache, ids, sc, pos);
  }

  /** A base as the code table decodes it. */
  predicate IsCode(c: char)
  {
    c in BaseCodes
  }

  /** The slot holds bases decoded from the code table. */
  predicate CodedSlot(info: BaseInfo)
  {
    && IsCode(info.base)
    && (info.insertion.Some? ==> forall i :: 0 <= i < |info.insertion.value| ==> IsCode(info.insertion.value[i]))
  }

  lemma CodeCase(c: char)
    requires IsCode(c)
    ensures c != '^' && c != '$' && AsciiLower(c) != '^' && AsciiLower(c) != '$'
    ensures AsciiUpper(c) != '$'
  {
  }

  lemma InsPartLast(info: BaseInfo)
    requires CodedSlot(info) && info.insertion.Some?
    ensures var t := InsPart(info); |t| > 0 && t[|t| - 1] != '$'
  {
    var ins := info.insertion.value;
    var digits := NatToString(|ins|);
    var cased := if info.isReverse then LowerAscii(ins) else UpperAscii(ins);
    var t := InsPart(info);
    assert t == ("+" + digits) + cased;
    assert |cased| == |ins|;
    if |ins| > 0 {
      var c := ins[|ins| - 1];
      CodeCase(c);
      assert cased[|ins| - 1] == (if info.isReverse then AsciiLower(c) else AsciiUpper(c));
      assert t[|t| - 1] == cased[|ins| - 1];
    } else {
      assert t == "+" + digits;
      assert IsDigit(digits[|digits| - 1]);
    }
  }

  lemma DelPartLast(info: BaseInfo, sc: Scan, pos: nat)
    requires sc.start <= pos && info.deletionLen.Some?
    requires sc.reference.Some? ==> '$' !in sc.reference.value
    ensures var d := DelPart(info, sc, pos); |d| > 0 && d[|d| - 1] != '$'
  {
    var d := DelPart(info, sc, pos);
    var digits := NatToString(info.deletionLen.value);
    var del := DeletedBases(sc.reference, sc.start, pos, info.deletionLen.value);
    assert d == "-" + digits + del;
    if |del| > 0 {
      assert del[|del| - 1] in sc.reference.value;
      assert d[|d| - 1] == del[|del| - 1];
    } else {
      assert d[|d| - 1] == digits[|digits| - 1];
    }
  }

  /** The string before the end marker never ends in '$'. */
  lemma BodyLast(info: BaseInfo, sc: Scan, pos: nat)
    requires sc.start <= pos && CodedSlot(info)
    requires sc.reference.Some? ==> '$' !in sc.reference.value
    ensures var body := [CalledBase(info)] + InsPart(info) + DelPart(info, sc, pos);
      body[|body| - 1] != '$'
  {
    var i := InsPart(info);
    var d := DelPart(info, sc, pos);
    var body := [CalledBase(info)] + i + d;
    CodeCase(info.base);
    if info.deletionLen.Some? {
      DelPartLast(info, sc, pos);
      assert body[|body| - 1] == d[|d| - 1];
    } else if info.insertion.Some? {
      InsPartLast(info);
      assert body == [CalledBase(info)] + i;
      assert body[|body| - 1] == i[|i| - 1];
    } else {
      assert body == [CalledBase(info)];
    }
  }

  /** The start marker comes first exactly for the head, for a slot decoded from the code table. */
  lemma BaseStringHeadMarker(info: BaseInfo, sc: Scan, pos: nat)
    requires sc.start <= pos && (info.isHead ==> info.mapq <= 222) && CodedSlot(info)
    ensures var s := BaseString(info, sc, pos); |s| > 0 && (s[0] == '^' <==> info.isHead)
  {
    var body := [CalledBase(info)] + InsPart(info) + DelPart(info, sc, pos);
    BaseStringParts(info, sc, pos);
    CodeCase(info.base);
    assert body[0] == CalledBase(info) != '^';
    FirstOfParts(HeadPart(info), body, TailPart(info));
  }

  lemma FirstOfParts(h: string, body: string, t: string)
    requires |body| > 0
    ensures var s := h + body + t; |s| > 0 && s[0] == (if h == "" then body[0] else h[0])
  {
    if h == "" {
      assert h + body + t == body + t;
    }
  }

  /**
   * The end marker comes last exactly for the tail, for a slot decoded from
   * the code table and a reference without '$'.
   */
  lemma BaseStringTailMarker(info: BaseInfo, sc: Scan, pos: nat)
    requires sc.start <= pos && (info.isHead ==> info.mapq <= 222) && CodedSlot(info)
    requires sc.reference.Some? ==> '$' !in sc.reference.value
    ensures var s := BaseString(info, sc, pos); |s| > 0 && (s[|s| - 1] == '$' <==> info.isTail)
  {
    var body := [CalledBase(info)] + InsPart(info) + DelPart(info, sc, pos);
    BaseStringParts(info, sc, pos);
    if !info.isTail {
      BodyLast(info, sc, pos);
    }
    LastOfParts(HeadPart(info), body, TailPart(info));
  }

  lemma BaseStringParts(info: BaseInfo, sc: Scan, pos: nat)
    requires sc.start <= pos && (info.isHead ==> info.mapq <= 222)
    ensures BaseString(info, sc, pos)
      == HeadPart(info) + ([CalledBase(info)] + InsPart(info) + DelPart(info, sc, pos)) + TailPart(info)
  {
    var h, c, i, d, t := HeadPart(info), [CalledBase(info)], InsPart(info), DelPart(info, sc, pos), TailPart(info);
    assert h + c + i + d == h + (c + i + d);
  }

  lemma LastOfParts(h: string, body: string, t: string)
    requires |body| > 0 && (t == "" || t == "$")
    ensures var s := h + body + t; |s| > 0 && s[|s| - 1] == (if t == "" then body[|body| - 1] else '$')
  {
    if t == "" {
      assert h + body + t == h + body;
    }
  }



  /** Base strings of a few slots. */
  lemma BaseStringExamples(sc: Scan, pos: nat)
    requires sc.start <= pos
    ensures var plain := BaseInfo('=', 30, false, None, None, false, false, 60, None);
      && BaseString(plain, sc, pos) == "."
      && BaseString(plain.(isReverse := true), sc, pos) == ","
      && BaseString(plain.(base := 'G'), sc, pos) == "G"
      && BaseString(plain.(base := 'G', isReverse := true), sc, pos) == "g"
      && BaseString(plain.(isHead := true, mapq := 30), sc, pos) == "^?."
      && BaseString(plain.(insertion := Some("AC")), sc, pos) == ".+2AC"
      && BaseString(plain.(insertion := Some("AC"), isReverse := true), sc, pos) == ",+2ac"
      && BaseString(plain.(isTail := true), sc, pos) == ".$"
  {
    var plain := BaseInfo('=', 30, false, None, None, false, false, 60, None);
    assert NatToString(2) == "2";
    assert UpperAscii("AC") == "AC";
    assert LowerAscii("AC") == "ac";
  }

  /**
   * After the start marker comes the called base: '.' or ',' for a reference
   * match, else the base itself, lower-cased on the reverse strand.
   */
  lemma BaseStringCalled(info: BaseInfo, sc: Scan, pos: nat)
    requires sc.start <= pos && (info.isHead ==> info.mapq <= 222)
    ensures var s := BaseString(info, sc, pos); var h := |HeadPart(info)|;
      && h < |s|
      && s[h] == (if info.base == '=' then (if info.isReverse then ',' else '.')
                  else if info.isReverse then AsciiLower(info.base) else info.base)
  {
    var hd, c := HeadPart(info), [CalledBase(info)];
    var rest := InsPart(info) + DelPart(info, sc, pos) + TailPart(info);
    assert BaseString(info, sc, pos) == hd + c + rest;
    Spliced(BaseString(info, sc, pos), hd, c, rest);
  }

  /** The text of an insertion: '+', its length in decimal and its bases, cased by strand. */
  lemma InsPartChars(info: BaseInfo)
    requires info.insertion.Some?
    ensures var t := InsPart(info); var ins := info.insertion.value; var d := NatToString(|ins|);
      && |t| == 1 + |d| + |ins| && t[0] == '+' && t[1 .. 1 + |d|] == d
      && forall j :: 0 <= j < |ins| ==>
           t[1 + |d| + j] == (if info.isReverse then AsciiLower(ins[j]) else AsciiUpper(ins[j]))
  {
    var t := InsPart(info);
    var ins := info.insertion.value;
    var d := NatToString(|ins|);
    var cased := if info.isReverse then LowerAscii(ins) else UpperAscii(ins);
    assert t == "+" + d + cased;
    PlusSpliced(t, d, cased);
    forall j | 0 <= j < |ins|
      ensures t[1 + |d| + j] == (if info.isReverse then AsciiLower(ins[j]) else AsciiUpper(ins[j]))
    {
      assert t[1 + |d| + j] == cased[j];
    }
  }

  /** A '+', then `d`, then `c`: where each part sits. */
  lemma PlusSpliced(t: string, d: string, c: string)
    requires t == "+" + d + c
    ensures |t| == 1 + |d| + |c| && t[0] == '+' && t[1 .. 1 + |d|] == d
    ensures forall j :: 0 <= j < |c| ==> t[1 + |d| + j] == c[j]
  {
    Spliced(t, "+", d, c);
    assert t == "+" + d + c + "";
    Spliced(t, "+" + d, c, "");
  }


  /** The insertion text (see `InsPartChars`) follows the called base at once. */
  lemma BaseStringInsertion(info: BaseInfo, sc: Scan, pos: nat)
    requires sc.start <= pos && (info.isHead ==> info.mapq <= 222)
    ensures var s := BaseString(info, sc, pos); var h := |HeadPart(info)|; var t := InsPart(info);
      h + 1 + |t| <= |s| && s[h + 1 .. h + 1 + |t|] == t
  {
    var pre := HeadPart(info) + [CalledBase(info)];
    var post := DelPart(info, sc, pos) + TailPart(info);
    assert BaseString(info, sc, pos) == pre + InsPart(info) + post;
    Spliced(BaseString(info, sc, pos), pre, InsPart(info), post);
  }

  /** The middle part of a concatenation sits right after the first. */
  lemma Spliced(s: string, pre: string, mid: string, post: string)
    requires s == pre + mid + post
    ensures |pre| + |mid| <= |s| && s[|pre| .. |pre| + |mid|] == mid
    ensures forall j :: 0 <= j < |mid| ==> s[|pre| + j] == mid[j]
  {
  }

  /** A deletion of three reference bases TGA renders as "-3TGA". */
  lemma DeletionExample(info: BaseInfo, pos: nat)
    requires info == BaseInfo('=', 30, false, None, Some(3), false, false, 60, None)
    ensures BaseString(info, Scan("chr1", pos, Some("ATGAC"), 0, false, false, false, false), pos) == ".-3TGA"
  {
    assert NatToString(3) == "3";
    assert "ATGAC"[1..4] == "TGA";
  }

  // ---------------------------------------------------------------------
  // The scan as the source writes it.

  /** The move-value string of a slot, built value by value. */
  method BuildMvText(mv: Option<seq<nat>>) returns (s: string)
    ensures s == MvText(mv)
  {
    if mv.None? {
      return "0";
    }
    var vals := mv.value;
    ghost var parts := seq(|vals|, i requires 0 <= i < |vals| => NatToString(vals[i]));
    s := "";
    var i := 0;
    while i < |vals|
      invariant 0 <= i <= |vals|
      invariant s == Join(parts[..i], ",+")
    {
      if i > 0 {
        s := s + ",+";
      }
      s := s + NatToString(vals[i]);
      JoinSnoc(parts[..i], NatToString(vals[i]), ",+");
      assert parts[..i + 1] == parts[..i] + [NatToString(vals[i])];
      i := i + 1;
    }
    assert parts[..i] == parts;
  }

  method PushHead(s0: string, info: BaseInfo) returns (s: string)
    requires info.isHead ==> info.mapq <= 222
    ensures s == s0 + HeadPart(info)
  {
    s := s0;
    if info.isHead {
      s := s + ['^'];
      s := s + [(info.mapq + 33) as char];
    }
  }

  method PushInsertion(s0: string, info: BaseInfo) returns (s: string)
    ensures s == s0 + InsPart(info)
  {
    s := s0;
    if info.insertion.Some? {
      var ins := info.insertion.value;
      s := s + ['+'];
      s := s + NatToString(|ins|);
      if info.isReverse {
        s := s + LowerAscii(ins);
      } else {
        s := s + UpperAscii(ins);
      }
    }
  }

  method PushDeletion(s0: string, info: BaseInfo, sc: Scan, pos: nat) returns (s: string)
    requires sc.start <= pos
    ensures s == s0 + DelPart(info, sc, pos)
  {
    s := s0;
    if info.deletionLen.Some? {
      var d := info.deletionLen.value;
      s := s + ['-'];
      s := s + NatToString(d);
      if sc.reference.Some? {
        var startDel := pos + 1 - sc.start;
        var endDel := startDel + d;
        if endDel <= |sc.reference.value| {
          s := s + sc.reference.value[startDel..endDel];
        }
      }
    }
  }

  /** The base string of one read, pushed piece by piece. */
  method BuildBaseString(info: BaseInfo, sc: Scan, pos: nat) returns (s: string)
    requires sc.start <= pos && (info.isHead ==> info.mapq <= 222)
    ensures s == BaseString(info, sc, pos)
  {
    s := PushHead("", info);
    var b: char;
    if info.isReverse {
      b := if info.base == '=' then ',' else AsciiLower(info.base);
    } else {
      b := if info.base == '=' then '.' else info.base;
    }
    s := s + [b];
    s := PushInsertion(s, info);
    s := PushDeletion(s, info, sc, pos);
    if info.isTail {
      s := s + ['$'];
    }
    assert "" + HeadPart(info) == HeadPart(info);
  }

  /** One read of the scan loop: skip it unless it has a good slot at `p.pos`, else push its entries. */
  method ScanRead(p0: PileupPos, read: CachedRead, sc: Scan) returns (p: PileupPos)
    requires sc.start <= p0.pos && HeadsPrintable(read)
    ensures p == AddRead(p0, read, sc)
  {
    p := p0;
    var pos := p.pos;
    if !(read.refStart <= pos < read.refEnd) {
      return;
    }
    var idx := pos - read.refStart;
    if idx >= |read.seqData| || read.seqData[idx].None? {
      return;
    }
    var info := read.seqData[idx].value;
    if info.qual < sc.minBaseq {
      return;
    }
    var baseStr := BuildBaseString(info, sc, pos);
    p := p.(bases := p.bases + [baseStr], depth := p.depth + 1);
    if sc.outputReadName {
      p := p.(readNames := Append(p.readNames, read.readId));
    }
    if sc.outputMapq {
      p := p.(mapQualities := Append(p.mapQualities, info.mapq));
    }
    if sc.outputBq {
      p := p.(qualityScores := Append(p.qualityScores, info.qual));
    }
    if sc.outputMv {
      var mvs := BuildMvText(info.mvValue);
      p := p.(mvValues := Append(p.mvValues, mvs));
    }
  }

  /** The column at one position: the ids are visited in the given order. */
  method ScanPosition(cache: Reads, ids: seq<string>, sc: Scan, pos: nat) returns (p: PileupPos)
    requires sc.start <= pos && ScanReady(cache, ids)
    ensures p == Column(cache, ids, sc, pos)
  {
    var refBase := 'N';
    if sc.reference.Some? {
      var offset := pos - sc.start;
      if offset < |sc.reference.value| {
        refBase := sc.reference.value[offset];
      }
    }
    p := NewPos(sc, pos, refBase);
    var i := 0;
    while i < |ids|
      invariant 0 <= i <= |ids| && p.pos == pos
      invariant ScanReady(cache, ids[..i])
      invariant p == Column(cache, ids[..i], sc, pos)
    {
      assert ids[..i + 1][..i] == ids[..i];
      assert ids[..i + 1][i] == ids[i];
      assert ScanReady(cache, ids[..i + 1]);
      p := ScanRead(p, cache[ids[i]], sc);
      i := i + 1;
    }
    assert ids[..i] == ids;
  }
}
