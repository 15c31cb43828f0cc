/**
 * The alignment record as the pileup engine sees it through the indexed BAM
 * reader: position, CIGAR, 4-bit base codes (`bases`), base qualities, mapping quality,
 * flags, the `mv` move-table tag and the query name.
 */
module Bam {
  import opened Wrappers

  type Byte = b: int | 0 <= b < 256

  type Nibble = n: int | 0 <= n < 16

  /** The CIGAR operations of section 1.4 of the SAM format specification (SAMv1). */
  datatype OpKind = Match | Ins | Del | RefSkip | SoftClip | HardClip | Pad | Equal | Diff

  datatype CigarOp = CigarOp(kind: OpKind, len: nat)

  /** M, = and X: one query base aligned to one reference base per unit. */
  predicate IsAligned(k: OpKind)
  {
    k == Match || k == Equal || k == Diff
  }

  /** How far an operation moves along the reference (M, D, N, =, X). */
  function RefAdvance(op: CigarOp): nat
  {
    match op.kind
    case Match | Equal | Diff | Del | RefSkip => op.len
    case Ins | SoftClip | HardClip | Pad => 0
  }

  /** How far an operation moves along the query (M, I, S, =, X). */
  function QueryAdvance(op: CigarOp): nat
  {
    match op.kind
    case Match | Equal | Diff | Ins | SoftClip => op.len
    case Del | RefSkip | HardClip | Pad => 0
  }

  function RefLen(ops: seq<CigarOp>): nat
    decreases |ops|
  {
    if |ops| == 0 then 0 else RefLen(ops[..|ops| - 1]) + RefAdvance(ops[|ops| - 1])
  }

  function QueryLen(ops: seq<CigarOp>): nat
    decreases |ops|
  {
    if |ops| == 0 then 0 else QueryLen(ops[..|ops| - 1]) + QueryAdvance(ops[|ops| - 1])
  }

  lemma {:induction false} LengthsOfPrefix(ops: seq<CigarOp>, i: nat)
    requires i <= |ops|
    ensures RefLen(ops[..i]) <= RefLen(ops)
    ensures QueryLen(ops[..i]) <= QueryLen(ops)
    decreases |ops|
  {
    if i < |ops| {
      assert ops[..|ops| - 1][..i] == ops[..i];
      LengthsOfPrefix(ops[..|ops| - 1], i);
    } else {
      assert ops[..i] == ops;
    }
  }

  /**
   * One fetched record.  `mv` is the `mv` auxiliary array read as unsigned
   * bytes (an `i8` array is cast to `u8`); it is None when the tag is absent
   * or is not a byte array.
   */
  datatype Record = Record(
    qname: string,
    pos: int,
    cigar: seq<CigarOp>,
    bases: seq<Nibble>,
    qual: seq<Byte>,
    mapq: Byte,
    flags: bv16,
    mv: Option<seq<Byte>>)

  /** `cigar().end_pos()`: the exclusive end of the alignment on the reference. */
  function EndPos(r: Record): int
  {
    r.pos + RefLen(r.cigar)
  }

  /** `is_reverse()`: flag bit 0x10. */
  predicate IsReverse(r: Record)
  {
    r.flags & 0x10 != 0
  }

  /** The 4-bit base codes of section 4.2.3 of the SAM format specification. */
  const BaseCodes: string := "=ACMGRSVTWYHKDBN"

  function BaseChar(code: Nibble): char
  {
    BaseCodes[code]
  }

  /** Code 0 is the only one that decodes to '='; every other one is an upper-case letter. */
  lemma BaseCharCases(code: Nibble)
    ensures BaseChar(code) == '=' <==> code == 0
    ensures code != 0 ==> 'A' <= BaseChar(code) <= 'Z'
  {
  }

  /**
   * What `CachedRead::new` needs so that every base and quality it reads is in
   * range: one quality per base, and a CIGAR that consumes no more query bases
   * than the record holds (the SAM format requires exactly as many).
   */
  predicate WellFormed(r: Record)
  {
    |r.qual| == |r.bases| && (|r.bases| > 0 ==> QueryLen(r.cigar) <= |r.bases|)
  }
}
