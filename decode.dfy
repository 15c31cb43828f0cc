/**
 * `CachedRead::new` (src/nanopileup.rs:31-194): one alignment record decoded
 * into a dense vector of optional per-reference-position slots, by a walk over
 * the CIGAR with a reference cursor and a query cursor.
 */
module Decode {
  import opened Wrappers
  import opened Bam
  import opened Moves

  /** What one read says about one reference position. */
  datatype BaseInfo = BaseInfo(
    base: char,
    qual: Byte,
    isReverse: bool,
    insertion: Option<string>,
    deletionLen: Option<nat>,
    isHead: bool,
    isTail: bool,
    mapq: Byte,
    mvValue: Option<seq<nat>>)

  type Slots = seq<Option<BaseInfo>>

  /** A decoded read; slot k describes reference position `refStart + k`. */
  datatype CachedRead = CachedRead(
    readId: string,
    refStart: int,
    refEnd: int,
    mapq: Byte,
    seqData: Slots)

  /** The parts of the record that the walk reads but never changes. */
  datatype Ctx = Ctx(
    bases: seq<Nibble>,
    qual: seq<Byte>,
    refStart: int,
    isReverse: bool,
    mapq: Byte,
    moves: Option<seq<nat>>)

  predicate CtxValid(c: Ctx)
  {
    |c.qual| == |c.bases|
  }

  /** The walk's state: the slots and the two cursors. */
  datatype Walk = Walk(slots: Slots, refPos: int, queryPos: nat)

  /** The slot an aligned query base produces before any insertion, deletion or end mark is attached. */
  function UnitInfo(c: Ctx, qp: nat): BaseInfo
    requires CtxValid(c) && qp < |c.bases|
  {
    BaseInfo(BaseChar(c.bases[qp]), c.qual[qp], c.isReverse, None, None, false, false, c.mapq,
      if c.moves.Some? && qp < |c.moves.value| then Some([c.moves.value[qp]]) else None)
  }

  /** One unit of M, = or X: write the slot when the reference offset is inside the vector. */
  function MatchUnit(c: Ctx, w: Walk): Walk
    requires CtxValid(c) && w.queryPos < |c.bases|
  {
    var idx := w.refPos - c.refStart;
    Walk(if 0 <= idx < |w.slots| then w.slots[idx := Some(UnitInfo(c, w.queryPos))] else w.slots,
      w.refPos + 1, w.queryPos + 1)
  }

  function MatchRun(c: Ctx, w: Walk, n: nat): (r: Walk)
    requires CtxValid(c) && w.queryPos + n <= |c.bases|
    ensures r.refPos == w.refPos + n && r.queryPos == w.queryPos + n && |r.slots| == |w.slots|
    decreases n
  {
    if n == 0 then w else MatchUnit(c, MatchRun(c, w, n - 1))
  }

  /** The slot of the reference position before the cursor, where I and D attach. */
  function Anchor(c: Ctx, w: Walk): int
  {
    w.refPos - 1 - c.refStart
  }

  predicate Attaches(c: Ctx, w: Walk)
  {
    0 <= Anchor(c, w) < |w.slots| && w.slots[Anchor(c, w)].Some?
  }

  /** The `n` query bases from `qp` on, decoded. */
  function InsBases(c: Ctx, qp: nat, n: nat): (s: string)
    requires qp + n <= |c.bases|
    ensures |s| == n
  {
    seq(n, k requires 0 <= k < n => BaseChar(c.bases[qp + k]))
  }

  /** The move counts of the query bases `qp .. qp + n` that the counts vector has. */
  function InsMoves(moves: seq<nat>, qp: nat, n: nat): seq<nat>
    decreases n
  {
    if n == 0 then []
    else InsMoves(moves, qp, n - 1) + (if qp + n - 1 < |moves| then [moves[qp + n - 1]] else [])
  }

  /** I: the consumed bases become the anchor slot's insertion; otherwise only the query cursor moves. */
  function Insertion(c: Ctx, w: Walk, n: nat): Walk
    requires w.queryPos + n <= |c.bases|
  {
    if Attaches(c, w) then
      var a := Anchor(c, w);
      var info := w.slots[a].value;
      var mv := if c.moves.Some? && info.mvValue.Some?
        then Some(info.mvValue.value + InsMoves(c.moves.value, w.queryPos, n))
        else info.mvValue;
      var info' := info.(insertion := Some(InsBases(c, w.queryPos, n)), mvValue := mv);
      Walk(w.slots[a := Some(info')], w.refPos, w.queryPos + n)
    else
      Walk(w.slots, w.refPos, w.queryPos + n)
  }

  /** D: the anchor slot records the deletion length and a zero move count. */
  function Deletion(c: Ctx, w: Walk, n: nat): Walk
  {
    if Attaches(c, w) then
      var a := Anchor(c, w);
      var info := w.slots[a].value;
      var mv := if info.mvValue.Some? then Some(info.mvValue.value + [0]) else None;
      Walk(w.slots[a := Some(info.(deletionLen := Some(n), mvValue := mv))], w.refPos + n, w.queryPos)
    else
      Walk(w.slots, w.refPos + n, w.queryPos)
  }

  /** One CIGAR operation; every kind moves the cursors as SAMv1 section 1.4 says it consumes. */
  function Step(c: Ctx, w: Walk, op: CigarOp): (r: Walk)
    requires CtxValid(c) && w.queryPos + QueryAdvance(op) <= |c.bases|
    ensures r.refPos == w.refPos + RefAdvance(op)
    ensures r.queryPos == w.queryPos + QueryAdvance(op)
    ensures |r.slots| == |w.slots|
  {
    match op.kind
    case Match | Equal | Diff => MatchRun(c, w, op.len)
    case Ins => Insertion(c, w, op.len)
    case Del => Deletion(c, w, op.len)
    case RefSkip => w.(refPos := w.refPos + op.len)
    case SoftClip => w.(queryPos := w.queryPos + op.len)
    case HardClip | Pad => w
  }

  /** The whole CIGAR; the cursors end `RefLen` and `QueryLen` further on. */
  function WalkOps(c: Ctx, w: Walk, ops: seq<CigarOp>): (r: Walk)
    requires CtxValid(c) && w.queryPos + QueryLen(ops) <= |c.bases|
    ensures r.refPos == w.refPos + RefLen(ops)
    ensures r.queryPos == w.queryPos + QueryLen(ops)
    ensures |r.slots| == |w.slots|
    decreases |ops|
  {
    if |ops| == 0 then w
    else Step(c, WalkOps(c, w, ops[..|ops| - 1]), ops[|ops| - 1])
  }

  /** `iter().find_map`: the first filled slot. */
  function FirstSome(s: Slots): (r: Option<nat>)
    ensures r.Some? ==> r.value < |s| && s[r.value].Some? && forall k :: 0 <= k < r.value ==> s[k].None?
    ensures r.None? ==> forall k :: 0 <= k < |s| ==> s[k].None?
    decreases |s|
  {
    if |s| == 0 then None
    else if s[0].Some? then Some(0)
    else
      match FirstSome(s[1..])
      case None => None
      case Some(i) => Some(i + 1)
  }

  /** `iter().rev().find_map`: the last filled slot. */
  function LastSome(s: Slots): (r: Option<nat>)
    ensures r.Some? ==> r.value < |s| && s[r.value].Some? && forall k :: r.value < k < |s| ==> s[k].None?
    ensures r.None? ==> forall k :: 0 <= k < |s| ==> s[k].None?
    decreases |s|
  {
    if |s| == 0 then None
    else if s[|s| - 1].Some? then Some(|s| - 1)
    else LastSome(s[..|s| - 1])
  }

  function MarkHead(s: Slots): Slots
  {
    match FirstSome(s)
    case None => s
    case Some(i) => s[i := Some(s[i].value.(isHead := true))]
  }

  function MarkTail(s: Slots): Slots
  {
    match LastSome(s)
    case None => s
    case Some(i) => s[i := Some(s[i].value.(isTail := true))]
  }

  function MarkEnds(s: Slots): Slots
  {
    MarkTail(MarkHead(s))
  }

  function RecordCtx(r: Record, outputMv: bool): (c: Ctx)
    requires WellFormed(r)
    ensures CtxValid(c)
  {
    Ctx(r.bases, r.qual, r.pos, IsReverse(r), r.mapq,
      if outputMv then DecodedMoves(r.mv, |r.bases|, IsReverse(r)) else None)
  }

  function SlotCount(r: Record): nat
  {
    if EndPos(r) - r.pos > 0 then EndPos(r) - r.pos else 0
  }

  /** The decoded read `CachedRead::new(record, output_mv)` returns. */
  function DecodeSpec(r: Record, outputMv: bool): CachedRead
    requires WellFormed(r)
  {
    if |r.bases| == 0 then CachedRead(r.qname, r.pos, EndPos(r), r.mapq, [])
    else
      var c := RecordCtx(r, outputMv);
      var w := WalkOps(c, Walk(seq(SlotCount(r), _ => None), r.pos, 0), r.cigar);
      CachedRead(r.qname, r.pos, EndPos(r), r.mapq, MarkEnds(w.slots))
  }

  // ---------------------------------------------------------------------
  // An independent description of which reference position shows which
  // query base: the aligned pairs of SAMv1 section 1.4.

  /** The pairs of a run of `n` aligned bases starting at `rp` on the reference and `qp` on the query. */
  function RunPairs(rp: int, qp: nat, n: nat): (ps: seq<(int, nat)>)
    ensures |ps| == n && forall m :: 0 <= m < n ==> ps[m] == (rp + m, qp + m)
  {
    seq(n, m requires 0 <= m < n => (rp + m, qp + m))
  }

  /** (reference position, query offset) for every base of an M, = or X operation. */
  function AlignedPairs(ops: seq<CigarOp>, rp: int, qp: nat): (ps: seq<(int, nat)>)
    ensures forall j :: 0 <= j < |ps| ==> rp <= ps[j].0 < rp + RefLen(ops) && qp <= ps[j].1 < qp + QueryLen(ops)
    decreases |ops|
  {
    if |ops| == 0 then []
    else
      var pre := ops[..|ops| - 1];
      var op := ops[|ops| - 1];
      AlignedPairs(pre, rp, qp)
      + (if IsAligned(op.kind) then RunPairs(rp + RefLen(pre), qp + QueryLen(pre), op.len) else [])
  }

  /** A slot holds query base `q` of the read, unmarked. */
  predicate SlotFrom(c: Ctx, info: BaseInfo, q: nat)
  {
    && q < |c.bases| && q < |c.qual|
    && info.base == BaseChar(c.bases[q]) && info.qual == c.qual[q]
    && info.isReverse == c.isReverse && info.mapq == c.mapq
  }

  predicate Unmarked(s: Slots)
  {
    forall k :: 0 <= k < |s| && s[k].Some? ==> !s[k].value.isHead && !s[k].value.isTail
  }

  /** The slots show exactly the aligned pairs `ps`. */
  predicate Shows(c: Ctx, s: Slots, ps: seq<(int, nat)>)
  {
    && (forall k :: 0 <= k < |s| ==> (s[k].Some? <==> exists j :: 0 <= j < |ps| && ps[j].0 == c.refStart + k))
    && (forall k, j :: 0 <= k < |s| && 0 <= j < |ps| && ps[j].0 == c.refStart + k ==>
          s[k].Some? && SlotFrom(c, s[k].value, ps[j].1))
  }

  /** Two slot vectors that differ at most in insertions, deletions and move counts. */
  predicate SameBases(a: Slots, b: Slots)
  {
    && |a| == |b|
    && forall k :: 0 <= k < |a| ==>
         && a[k].Some? == b[k].Some?
         && (a[k].Some? ==> a[k].value.(insertion := None, deletionLen := None, mvValue := None)
                            == b[k].value.(insertion := None, deletionLen := None, mvValue := None))
  }

  /** Where a run of M writes, the slot holds the run's query base; elsewhere nothing changes. */
  lemma {:induction false} MatchRunSlots(c: Ctx, w: Walk, n: nat, k: nat)
    requires CtxValid(c) && w.queryPos + n <= |c.bases| && k < |w.slots|
    ensures var lo := w.refPos - c.refStart;
      MatchRun(c, w, n).slots[k]
      == if lo <= k < lo + n then Some(UnitInfo(c, w.queryPos + (k - lo))) else w.slots[k]
    decreases n
  {
    if n > 0 {
      MatchRunSlots(c, w, n - 1, k);
    }
  }

  lemma InsertionKeepsBases(c: Ctx, w: Walk, n: nat)
    requires w.queryPos + n <= |c.bases|
    ensures SameBases(w.slots, Insertion(c, w, n).slots)
  {
  }

  lemma DeletionKeepsBases(c: Ctx, w: Walk, n: nat)
    ensures SameBases(w.slots, Deletion(c, w, n).slots)
  {
  }

  /** The move counts gathered for an insertion are those of its query bases, when the counts vector covers them. */
  lemma {:induction false} InsMovesSlice(moves: seq<nat>, qp: nat, n: nat)
    requires qp + n <= |moves|
    ensures InsMoves(moves, qp, n) == moves[qp..qp + n]
    decreases n
  {
    if n > 0 {
      InsMovesSlice(moves, qp, n - 1);
      assert moves[qp..qp + n] == moves[qp..qp + n - 1] + [moves[qp + n - 1]];
    }
  }

  /**
   * An insertion moves only the query cursor; it changes only the anchor
   * slot, and only when that slot exists and is filled: the slot gets the
   * consumed bases as its insertion and, when it has move values, their move
   * counts appended.
   */
  lemma InsertionAnchors(c: Ctx, w: Walk, n: nat)
    requires w.queryPos + n <= |c.bases|
    ensures var r := Insertion(c, w, n);
      && r.refPos == w.refPos && r.queryPos == w.queryPos + n && |r.slots| == |w.slots|
      && (forall k :: 0 <= k < |w.slots| && k != Anchor(c, w) ==> r.slots[k] == w.slots[k])
      && (!Attaches(c, w) ==> r.slots == w.slots)
      && (Attaches(c, w) ==>
          var info := w.slots[Anchor(c, w)].value;
          var info' := r.slots[Anchor(c, w)];
          && info'.Some? && info'.value.insertion == Some(InsBases(c, w.queryPos, n))
          && info'.value.(insertion := info.insertion, mvValue := info.mvValue) == info
          && (info.mvValue.None? ==> info'.value.mvValue.None?)
          && (c.moves.Some? && info.mvValue.Some? && w.queryPos + n <= |c.moves.value| ==>
              info'.value.mvValue == Some(info.mvValue.value + c.moves.value[w.queryPos..w.queryPos + n])))
  {
    if c.moves.Some? && w.queryPos + n <= |c.moves.value| {
      InsMovesSlice(c.moves.value, w.queryPos, n);
    }
  }

  /**
   * A deletion moves only the reference cursor; it changes only the anchor
   * slot, and only when that slot exists and is filled: the slot records
   * the deletion length and, when it has move values, one more count of 0.
   */
  lemma DeletionAnchors(c: Ctx, w: Walk, n: nat)
    ensures var r := Deletion(c, w, n);
      && r.refPos == w.refPos + n && r.queryPos == w.queryPos && |r.slots| == |w.slots|
      && (forall k :: 0 <= k < |w.slots| && k != Anchor(c, w) ==> r.slots[k] == w.slots[k])
      && (!Attaches(c, w) ==> r.slots == w.slots)
      && (Attaches(c, w) ==>
          var info := w.slots[Anchor(c, w)].value;
          var info' := r.slots[Anchor(c, w)];
          && info'.Some? && info'.value.deletionLen == Some(n)
          && info'.value.(deletionLen := info.deletionLen, mvValue := info.mvValue) == info
          && info'.value.mvValue == (if info.mvValue.Some? then Some(info.mvValue.value + [0]) else None))
  {
  }

  lemma ShowsSameBases(c: Ctx, a: Slots, b: Slots, ps: seq<(int, nat)>)
    requires Shows(c, a, ps) && Unmarked(a) && SameBases(a, b)
    ensures Shows(c, b, ps) && Unmarked(b)
  {
    forall k, j | 0 <= k < |b| && 0 <= j < |ps| && ps[j].0 == c.refStart + k
      ensures b[k].Some? && SlotFrom(c, b[k].value, ps[j].1)
    {
      assert a[k].Some? && SlotFrom(c, a[k].value, ps[j].1);
      var x := a[k].value.(insertion := None, deletionLen := None, mvValue := None);
      assert x == b[k].value.(insertion := None, deletionLen := None, mvValue := None);
    }
    forall k | 0 <= k < |b| && b[k].Some?
      ensures !b[k].value.isHead && !b[k].value.isTail
    {
      var x := a[k].value.(insertion := None, deletionLen := None, mvValue := None);
      assert x == b[k].value.(insertion := None, deletionLen := None, mvValue := None);
    }
  }

  /** A run of M over fresh reference positions adds exactly its pairs to what the slots show. */
  lemma MatchRunShows(c: Ctx, w: Walk, n: nat, ps: seq<(int, nat)>)
    requires CtxValid(c) && w.queryPos + n <= |c.bases|
    requires Shows(c, w.slots, ps) && Unmarked(w.slots)
    requires forall j :: 0 <= j < |ps| ==> ps[j].0 < w.refPos
    ensures var ps' := ps + RunPairs(w.refPos, w.queryPos, n);
      Shows(c, MatchRun(c, w, n).slots, ps') && Unmarked(MatchRun(c, w, n).slots)
  {
    var ps' := ps + RunPairs(w.refPos, w.queryPos, n);
    var s := MatchRun(c, w, n).slots;
    var lo := w.refPos - c.refStart;
    forall k | 0 <= k < |s|
      ensures s[k].Some? <==> exists j :: 0 <= j < |ps'| && ps'[j].0 == c.refStart + k
      ensures s[k].Some? ==> !s[k].value.isHead && !s[k].value.isTail
    {
      MatchRunSlots(c, w, n, k);
      if lo <= k < lo + n {
        assert ps'[|ps| + (k - lo)].0 == c.refStart + k;
      } else {
        if exists j :: 0 <= j < |ps'| && ps'[j].0 == c.refStart + k {
          var j :| 0 <= j < |ps'| && ps'[j].0 == c.refStart + k;
          assert j < |ps|;
          assert ps'[j] == ps[j];
        }
        if exists j :: 0 <= j < |ps| && ps[j].0 == c.refStart + k {
          var j :| 0 <= j < |ps| && ps[j].0 == c.refStart + k;
          assert ps'[j] == ps[j];
        }
      }
    }
    forall k, j | 0 <= k < |s| && 0 <= j < |ps'| && ps'[j].0 == c.refStart + k
      ensures s[k].Some? && SlotFrom(c, s[k].value, ps'[j].1)
    {
      MatchRunSlots(c, w, n, k);
      if j < |ps| {
        assert ps'[j] == ps[j];
      } else {
        assert ps'[j] == (w.refPos + (j - |ps|), w.queryPos + (j - |ps|));
      }
    }
  }

  /** The pairs one operation contributes. */
  function OpPairs(op: CigarOp, rp: int, qp: nat): seq<(int, nat)>
  {
    if IsAligned(op.kind) then RunPairs(rp, qp, op.len) else []
  }

  /** One operation at the cursors adds its own pairs to what the slots show. */
  lemma StepShows(c: Ctx, w: Walk, op: CigarOp, ps: seq<(int, nat)>)
    requires CtxValid(c) && w.queryPos + QueryAdvance(op) <= |c.bases|
    requires Shows(c, w.slots, ps) && Unmarked(w.slots)
    requires forall j :: 0 <= j < |ps| ==> ps[j].0 < w.refPos
    ensures Shows(c, Step(c, w, op).slots, ps + OpPairs(op, w.refPos, w.queryPos))
    ensures Unmarked(Step(c, w, op).slots)
  {
    if IsAligned(op.kind) {
      MatchRunShows(c, w, op.len, ps);
    } else {
      assert ps + OpPairs(op, w.refPos, w.queryPos) == ps;
      if op.kind == Ins {
        InsertionKeepsBases(c, w, op.len);
        ShowsSameBases(c, w.slots, Insertion(c, w, op.len).slots, ps);
      } else if op.kind == Del {
        DeletionKeepsBases(c, w, op.len);
        ShowsSameBases(c, w.slots, Deletion(c, w, op.len).slots, ps);
      }
    }
  }

  /** After the operations, the slots show exactly their aligned pairs. */
  lemma {:induction false} WalkShows(c: Ctx, len: nat, ops: seq<CigarOp>)
    requires CtxValid(c) && QueryLen(ops) <= |c.bases|
    ensures var w := WalkOps(c, Walk(seq(len, _ => None), c.refStart, 0), ops);
      Shows(c, w.slots, AlignedPairs(ops, c.refStart, 0)) && Unmarked(w.slots)
    decreases |ops|
  {
    var w0 := Walk(seq(len, _ => None), c.refStart, 0);
    if |ops| > 0 {
      var pre := ops[..|ops| - 1];
      var op := ops[|ops| - 1];
      WalkShows(c, len, pre);
      var w := WalkOps(c, w0, pre);
      var ps := AlignedPairs(pre, c.refStart, 0);
      StepShows(c, w, op, ps);
      assert AlignedPairs(ops, c.refStart, 0) == ps + OpPairs(op, w.refPos, w.queryPos);
    }
  }

  /**
   * The end marks: exactly the first filled slot is the head and exactly the
   * last filled slot is the tail; a single filled slot is both; nothing else
   * about any slot changes.
   */
  lemma MarkEndsExact(s: Slots)
    requires Unmarked(s)
    ensures var m := MarkEnds(s);
      && |m| == |s|
      && (forall k :: 0 <= k < |s| ==> m[k].Some? == s[k].Some?)
      && (forall k :: 0 <= k < |s| && s[k].Some? ==> m[k].value.(isHead := false, isTail := false) == s[k].value)
      && (forall k :: 0 <= k < |s| && s[k].Some? ==>
            (m[k].value.isHead <==> forall j :: 0 <= j < k ==> s[j].None?))
      && (forall k :: 0 <= k < |s| && s[k].Some? ==>
            (m[k].value.isTail <==> forall j :: k < j < |s| ==> s[j].None?))
  {
    var h := MarkHead(s);
    assert forall k :: 0 <= k < |s| ==> h[k].Some? == s[k].Some?;
    assert FirstSome(h) == FirstSome(s);
    assert LastSome(h) == LastSome(s);
  }

  /**
   * The shape of a decoded read: the record's id, start, end and mapping
   * quality, and one slot per reference position of the alignment, none at
   * all for a record without sequence.
   */
  lemma DecodeShape(r: Record, outputMv: bool)
    requires WellFormed(r)
    ensures var d := DecodeSpec(r, outputMv);
      && d.readId == r.qname && d.refStart == r.pos && d.refEnd == EndPos(r) && d.mapq == r.mapq
      && |d.seqData| == (if |r.bases| == 0 then 0 else RefLen(r.cigar))
  {
  }

  /** The slots of a decoded read are the marked slots of the walk. */
  lemma DecodedSlots(r: Record, outputMv: bool)
    requires WellFormed(r) && |r.bases| > 0
    ensures var c := RecordCtx(r, outputMv);
      var w := WalkOps(c, Walk(seq(SlotCount(r), _ => None), r.pos, 0), r.cigar);
      && Shows(c, w.slots, AlignedPairs(r.cigar, r.pos, 0)) && Unmarked(w.slots)
      && DecodeSpec(r, outputMv).seqData == MarkEnds(w.slots)
  {
    WalkShows(RecordCtx(r, outputMv), SlotCount(r), r.cigar);
  }

  /**
   * Slot k of a decoded read is filled exactly when reference position
   * `pos + k` is aligned to a query base, and then it carries that base, its
   * quality, the read's strand and mapping quality.
   */
  lemma DecodeSlots(r: Record, outputMv: bool, k: nat)
    requires WellFormed(r) && |r.bases| > 0
    requires k < |DecodeSpec(r, outputMv).seqData|
    ensures var s := DecodeSpec(r, outputMv).seqData;
      var ps := AlignedPairs(r.cigar, r.pos, 0);
      && (s[k].Some? <==> exists j :: 0 <= j < |ps| && ps[j].0 == r.pos + k)
      && (forall j :: 0 <= j < |ps| && ps[j].0 == r.pos + k ==>
            && s[k].Some?
            && s[k].value.base == BaseChar(r.bases[ps[j].1])
            && s[k].value.qual == r.qual[ps[j].1]
            && s[k].value.isReverse == IsReverse(r)
            && s[k].value.mapq == r.mapq)
  {
    var c := RecordCtx(r, outputMv);
    var w := WalkOps(c, Walk(seq(SlotCount(r), _ => None), r.pos, 0), r.cigar);
    DecodedSlots(r, outputMv);
    MarkEndsExact(w.slots);
    var ps := AlignedPairs(r.cigar, r.pos, 0);
    var m := MarkEnds(w.slots);
    forall j | 0 <= j < |ps| && ps[j].0 == r.pos + k
      ensures m[k].Some? && m[k].value.base == BaseChar(r.bases[ps[j].1]) && m[k].value.qual == r.qual[ps[j].1]
      ensures m[k].value.isReverse == IsReverse(r) && m[k].value.mapq == r.mapq
    {
      assert SlotFrom(c, w.slots[k].value, ps[j].1);
      assert m[k].value.(isHead := false, isTail := false) == w.slots[k].value;
    }
  }

  /**
   * A filled slot of a decoded read is the head exactly when no earlier slot
   * is filled and the tail exactly when no later one is.
   */
  lemma DecodeEnds(r: Record, outputMv: bool, k: nat)
    requires WellFormed(r) && |r.bases| > 0
    requires k < |DecodeSpec(r, outputMv).seqData| && DecodeSpec(r, outputMv).seqData[k].Some?
    ensures var s := DecodeSpec(r, outputMv).seqData;
      && (s[k].value.isHead <==> forall i :: 0 <= i < k ==> s[i].None?)
      && (s[k].value.isTail <==> forall i :: k < i < |s| ==> s[i].None?)
  {
    var c := RecordCtx(r, outputMv);
    var w := WalkOps(c, Walk(seq(SlotCount(r), _ => None), r.pos, 0), r.cigar);
    DecodedSlots(r, outputMv);
    MarkEndsExact(w.slots);
  }

  /** Every filled slot of a decoded read carries the record's mapping quality. */
  lemma DecodeSlotMapq(r: Record, outputMv: bool)
    requires WellFormed(r)
    ensures var s := DecodeSpec(r, outputMv).seqData;
      forall k :: 0 <= k < |s| && s[k].Some? ==> s[k].value.mapq == r.mapq
  {
    if |r.bases| > 0 {
      var c := RecordCtx(r, outputMv);
      var w := WalkOps(c, Walk(seq(SlotCount(r), _ => None), r.pos, 0), r.cigar);
      DecodedSlots(r, outputMv);
      MarkEndsExact(w.slots);
      var ps := AlignedPairs(r.cigar, r.pos, 0);
      forall k | 0 <= k < |w.slots| && w.slots[k].Some?
        ensures w.slots[k].value.mapq == r.mapq
      {
        var j :| 0 <= j < |ps| && ps[j].0 == c.refStart + k;
        assert SlotFrom(c, w.slots[k].value, ps[j].1);
      }
    }
  }

  // ---------------------------------------------------------------------
  // The decoder as the source writes it: the vector is allocated and filled
  // in place while the cursors move.

  method ApplyMatch(slots: array<Option<BaseInfo>>, c: Ctx, rp0: int, qp0: nat, n: nat)
    returns (rp: int, qp: nat)
    requires CtxValid(c) && qp0 + n <= |c.bases|
    modifies slots
    ensures Walk(slots[..], rp, qp) == MatchRun(c, Walk(old(slots[..]), rp0, qp0), n)
  {
    ghost var w0 := Walk(slots[..], rp0, qp0);
    rp, qp := rp0, qp0;
    var i := 0;
    while i < n
      invariant 0 <= i <= n
      invariant Walk(slots[..], rp, qp) == MatchRun(c, w0, i)
    {
      var idx := rp - c.refStart;
      if 0 <= idx < slots.Length {
        slots[idx] := Some(UnitInfo(c, qp));
      }
      rp, qp := rp + 1, qp + 1;
      i := i + 1;
    }
  }

  method ApplyInsertion(slots: array<Option<BaseInfo>>, c: Ctx, rp: int, qp0: nat, n: nat)
    returns (qp: nat)
    requires qp0 + n <= |c.bases|
    modifies slots
    ensures Walk(slots[..], rp, qp) == Insertion(c, Walk(old(slots[..]), rp, qp0), n)
  {
    var a := rp - 1 - c.refStart;
    if 0 <= a < slots.Length && slots[a].Some? {
      var info := slots[a].value;
      var insSeq := "";
      var mv := info.mvValue;
      qp := qp0;
      var i := 0;
      assert mv.Some? ==> mv.value + [] == mv.value;
      while i < n
        invariant 0 <= i <= n && qp == qp0 + i
        invariant insSeq == InsBases(c, qp0, i)
        invariant mv == if c.moves.Some? && info.mvValue.Some?
          then Some(info.mvValue.value + InsMoves(c.moves.value, qp0, i)) else info.mvValue
      {
        assert InsBases(c, qp0, i + 1) == InsBases(c, qp0, i) + [BaseChar(c.bases[qp])];
        if c.moves.Some? && mv.Some? && qp < |c.moves.value| {
          assert InsMoves(c.moves.value, qp0, i + 1) == InsMoves(c.moves.value, qp0, i) + [c.moves.value[qp]];
          assert mv.value + [c.moves.value[qp]]
            == info.mvValue.value + (InsMoves(c.moves.value, qp0, i) + [c.moves.value[qp]]);
          mv := Some(mv.value + [c.moves.value[qp]]);
        } else if c.moves.Some? && qp >= |c.moves.value| {
          assert InsMoves(c.moves.value, qp0, i + 1) == InsMoves(c.moves.value, qp0, i) + [];
          assert InsMoves(c.moves.value, qp0, i) + [] == InsMoves(c.moves.value, qp0, i);
        }
        insSeq := insSeq + [BaseChar(c.bases[qp])];
        qp := qp + 1;
        i := i + 1;
      }
      slots[a] := Some(info.(insertion := Some(insSeq), mvValue := mv));
    } else {
      qp := qp0 + n;
    }
  }

  method ApplyDeletion(slots: array<Option<BaseInfo>>, c: Ctx, rp0: int, qp: nat, n: nat)
    returns (rp: int)
    modifies slots
    ensures Walk(slots[..], rp, qp) == Deletion(c, Walk(old(slots[..]), rp0, qp), n)
  {
    var a := rp0 - 1 - c.refStart;
    if 0 <= a < slots.Length && slots[a].Some? {
      var info := slots[a].value;
      var mv := if info.mvValue.Some? then Some(info.mvValue.value + [0]) else None;
      slots[a] := Some(info.(deletionLen := Some(n), mvValue := mv));
    }
    rp := rp0 + n;
  }

  /** Marks the first and the last filled slot, searching from each end. */
  method MarkHeadAndTail(slots: array<Option<BaseInfo>>)
    modifies slots
    ensures slots[..] == MarkEnds(old(slots[..]))
  {
    var i := 0;
    while i < slots.Length && slots[i].None?
      invariant 0 <= i <= slots.Length
      invariant forall k :: 0 <= k < i ==> slots[k].None?
    {
      i := i + 1;
    }
    if i < slots.Length {
      slots[i] := Some(slots[i].value.(isHead := true));
    }
    assert slots[..] == MarkHead(old(slots[..]));
    ghost var h := slots[..];
    var j := slots.Length;
    while j > 0 && slots[j - 1].None?
      invariant 0 <= j <= slots.Length
      invariant forall k :: j <= k < slots.Length ==> slots[k].None?
    {
      j := j - 1;
    }
    if j > 0 {
      slots[j - 1] := Some(slots[j - 1].value.(isTail := true));
    }
    assert slots[..] == MarkTail(h);
  }

  /** One pass of the CIGAR loop. */
  method ApplyOp(slots: array<Option<BaseInfo>>, c: Ctx, rp0: int, qp0: nat, op: CigarOp)
    returns (rp: int, qp: nat)
    requires CtxValid(c) && qp0 + QueryAdvance(op) <= |c.bases|
    modifies slots
    ensures Walk(slots[..], rp, qp) == Step(c, Walk(old(slots[..]), rp0, qp0), op)
  {
    rp, qp := rp0, qp0;
    match op.kind {
      case Match =>
        rp, qp := ApplyMatch(slots, c, rp0, qp0, op.len);
      case Equal =>
        rp, qp := ApplyMatch(slots, c, rp0, qp0, op.len);
      case Diff =>
        rp, qp := ApplyMatch(slots, c, rp0, qp0, op.len);
      case Ins =>
        qp := ApplyInsertion(slots, c, rp0, qp0, op.len);
      case Del =>
        rp := ApplyDeletion(slots, c, rp0, qp0, op.len);
      case RefSkip =>
        rp := rp0 + op.len;
      case SoftClip =>
        qp := qp0 + op.len;
      case HardClip =>
      case Pad =>
    }
  }

  /** `for cigar_entry in cigar.iter()`: the CIGAR loop with its two cursors. */
  method WalkCigar(slots: array<Option<BaseInfo>>, c: Ctx, ops: seq<CigarOp>)
    requires CtxValid(c) && QueryLen(ops) <= |c.bases|
    modifies slots
    ensures slots[..] == WalkOps(c, Walk(old(slots[..]), c.refStart, 0), ops).slots
  {
    ghost var w0 := Walk(slots[..], c.refStart, 0);
    var refPos := c.refStart;
    var queryPos: nat := 0;
    var i := 0;
    while i < |ops|
      invariant 0 <= i <= |ops|
      invariant QueryLen(ops[..i]) <= |c.bases|
      invariant Walk(slots[..], refPos, queryPos) == WalkOps(c, w0, ops[..i])
    {
      var op := ops[i];
      assert ops[..i + 1][..i] == ops[..i];
      assert ops[..i + 1][i] == op;
      LengthsOfPrefix(ops, i + 1);
      refPos, queryPos := ApplyOp(slots, c, refPos, queryPos, op);
      i := i + 1;
    }
    assert ops[..i] == ops;
  }

  /** `CachedRead::new`: what it returns is `DecodeSpec`. */
  method DecodeRead(r: Record, outputMv: bool) returns (d: CachedRead)
    requires WellFormed(r)
    ensures d == DecodeSpec(r, outputMv)
  {
    if |r.bases| == 0 {
      return CachedRead(r.qname, r.pos, EndPos(r), r.mapq, []);
    }
    var refEnd := r.pos + RefLen(r.cigar);
    var len := if refEnd - r.pos > 0 then refEnd - r.pos else 0;
    var slots := new Option<BaseInfo>[len](_ => None);
    var moves := None;
    if outputMv {
      moves := DecodeMoves(r.mv, |r.bases|, IsReverse(r));
    }
    var c := Ctx(r.bases, r.qual, r.pos, IsReverse(r), r.mapq, moves);
    assert c == RecordCtx(r, outputMv);
    assert slots[..] == seq(SlotCount(r), _ => None);
    WalkCigar(slots, c, r.cigar);
    MarkHeadAndTail(slots);
    d := CachedRead(r.qname, r.pos, refEnd, r.mapq, slots[..]);
  }
}
