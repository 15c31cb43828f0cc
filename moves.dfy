/**
 * Decoding of the `mv` move table into per-query-base signal-sample counts,
 * as `CachedRead::new` does it (src/nanopileup.rs:58-86).  The first array
 * element is a stride header and is skipped; each later element is a flag.
 */
module Moves {
  import opened Wrappers
  import opened Bam

  /** The number of flags equal to 1. */
  function Ones(raw: seq<Byte>): nat
    decreases |raw|
  {
    if |raw| == 0 then 0 else Ones(raw[..|raw| - 1]) + (if raw[|raw| - 1] == 1 then 1 else 0)
  }

  /**
   * The walk over the flags: a base index that starts at -1 and steps at every
   * flag equal to 1, and a count per query base that every flag increments
   * while the index is in range.
   */
  function MoveFold(raw: seq<Byte>, qlen: nat): (st: (int, seq<nat>))
    ensures st.0 == Ones(raw) - 1 && |st.1| == qlen
    decreases |raw|
  {
    if |raw| == 0 then (-1, seq(qlen, _ => 0))
    else
      var prev := MoveFold(raw[..|raw| - 1], qlen);
      var idx := if raw[|raw| - 1] == 1 then prev.0 + 1 else prev.0;
      (idx, if 0 <= idx < qlen then prev.1[idx := prev.1[idx] + 1] else prev.1)
  }

  function MoveCounts(raw: seq<Byte>, qlen: nat): seq<nat>
  {
    MoveFold(raw, qlen).1
  }

  function Reverse(s: seq<nat>): seq<nat>
  {
    seq(|s|, k requires 0 <= k < |s| => s[|s| - 1 - k])
  }

  function Sum(s: seq<nat>): nat
    decreases |s|
  {
    if |s| == 0 then 0 else s[0] + Sum(s[1..])
  }

  /**
   * The per-query-base counts `mv_per_query_base`: None without a move array
   * or with one that holds only its header; reversed for reverse-strand reads.
   */
  function DecodedMoves(mv: Option<seq<Byte>>, qlen: nat, reverse: bool): Option<seq<nat>>
  {
    if mv.None? || |mv.value| <= 1 then None
    else
      var counts := MoveCounts(mv.value[1..], qlen);
      Some(if reverse then Reverse(counts) else counts)
  }

  lemma {:induction false} SumIncrement(s: seq<nat>, i: nat)
    requires i < |s|
    ensures Sum(s[i := s[i] + 1]) == Sum(s) + 1
    decreases |s|
  {
    if i > 0 {
      SumIncrement(s[1..], i - 1);
      assert s[i := s[i] + 1][1..] == s[1..][i - 1 := s[i] + 1];
    }
  }

  lemma {:induction false} SumZeros(n: nat)
    ensures Sum(seq(n, _ => 0)) == 0
    decreases n
  {
    if n > 0 {
      SumZeros(n - 1);
      assert seq(n, _ => 0)[1..] == seq(n - 1, _ => 0);
    }
  }

  lemma {:induction false} SumAppend(s: seq<nat>, x: nat)
    ensures Sum(s + [x]) == Sum(s) + x
    decreases |s|
  {
    if |s| > 0 {
      SumAppend(s[1..], x);
      assert (s + [x])[1..] == s[1..] + [x];
    }
  }

  /** Reversing the counts keeps their total. */
  lemma {:induction false} SumReverse(s: seq<nat>)
    ensures Sum(Reverse(s)) == Sum(s)
    decreases |s|
  {
    if |s| > 0 {
      SumReverse(s[1..]);
      assert Reverse(s) == Reverse(s[1..]) + [s[0]];
      SumAppend(Reverse(s[1..]), s[0]);
    }
  }

  /** No flag is counted twice: the counts add up to at most the number of flags. */
  lemma {:induction false} MoveCountsSumBound(raw: seq<Byte>, qlen: nat)
    ensures Sum(MoveCounts(raw, qlen)) <= |raw|
    decreases |raw|
  {
    if |raw| == 0 {
      SumZeros(qlen);
    } else {
      var p := raw[..|raw| - 1];
      MoveCountsSumBound(p, qlen);
      var prev := MoveFold(p, qlen);
      var idx := MoveFold(raw, qlen).0;
      if 0 <= idx < qlen {
        SumIncrement(prev.1, idx);
      }
    }
  }

  lemma {:induction false} OnesOfLeadingOne(raw: seq<Byte>)
    requires |raw| > 0 && raw[0] == 1
    ensures Ones(raw) >= 1
    decreases |raw|
  {
    if |raw| > 1 {
      OnesOfLeadingOne(raw[..|raw| - 1]);
    }
  }

  /**
   * When the first flag opens the first base and no more bases are opened than
   * the read has, every flag is counted: the counts add up to the number of flags.
   */
  lemma {:induction false} MoveCountsSumExact(raw: seq<Byte>, qlen: nat)
    requires |raw| > 0 && raw[0] == 1 && Ones(raw) <= qlen
    ensures Sum(MoveCounts(raw, qlen)) == |raw|
    decreases |raw|
  {
    var p := raw[..|raw| - 1];
    var prev := MoveFold(p, qlen);
    if |p| == 0 {
      SumZeros(qlen);
    } else {
      assert p[0] == 1;
      MoveCountsSumExact(p, qlen);
      OnesOfLeadingOne(p);
    }
    var idx := MoveFold(raw, qlen).0;
    assert 0 <= idx < qlen;
    SumIncrement(prev.1, idx);
  }

  /** Base k gets a non-zero count exactly when at least k + 1 flags equal 1. */
  lemma {:induction false} MoveCountsPositive(raw: seq<Byte>, qlen: nat, k: nat)
    requires k < qlen
    ensures MoveCounts(raw, qlen)[k] > 0 <==> k < Ones(raw)
    decreases |raw|
  {
    if |raw| > 0 {
      MoveCountsPositive(raw[..|raw| - 1], qlen, k);
    }
  }

  /** The counts of a reverse-strand read are the forward counts read from the back. */
  lemma DecodedMovesShape(mv: Option<seq<Byte>>, qlen: nat, reverse: bool)
    ensures DecodedMoves(mv, qlen, reverse).Some? <==> mv.Some? && |mv.value| > 1
    ensures DecodedMoves(mv, qlen, reverse).Some? ==>
      var v := DecodedMoves(mv, qlen, reverse).value;
      var forward := MoveCounts(mv.value[1..], qlen);
      && |v| == qlen
      && Sum(v) <= |mv.value| - 1
      && forall k :: 0 <= k < qlen ==> v[k] == (if reverse then forward[qlen - 1 - k] else forward[k])
  {
    if mv.Some? && |mv.value| > 1 {
      var forward := MoveCounts(mv.value[1..], qlen);
      MoveCountsSumBound(mv.value[1..], qlen);
      if reverse {
        SumReverse(forward);
      }
    }
  }

  /** The flags 1,0,1,1,0 after the header give three bases the counts 2, 1 and 2. */
  lemma MoveExample()
    ensures DecodedMoves(Some([0, 1, 0, 1, 1, 0]), 3, false) == Some([2, 1, 2])
  {
    var a: seq<Byte> := [1, 0, 1, 1, 0];
    assert [0, 1, 0, 1, 1, 0][1..] == a;
    var z3: seq<nat> := seq(3, _ => 0);
    assert z3 == [0, 0, 0];
    assert a[..0] == [];
    assert MoveFold(a[..0], 3) == (-1, [0, 0, 0]);
    assert a[..1][..0] == a[..0];
    assert a[..1][0] == 1;
    assert [0, 0, 0][0 := 1] == [1, 0, 0];
    assert MoveFold(a[..1], 3) == (0, [1, 0, 0]);
    assert a[..2][..1] == a[..1];
    assert [1, 0, 0][0 := 2] == [2, 0, 0];
    assert MoveFold(a[..2], 3) == (0, [2, 0, 0]);
    assert a[..3][..2] == a[..2];
    assert [2, 0, 0][1 := 1] == [2, 1, 0];
    assert MoveFold(a[..3], 3) == (1, [2, 1, 0]);
    assert a[..4][..3] == a[..3];
    assert [2, 1, 0][2 := 1] == [2, 1, 1];
    assert MoveFold(a[..4], 3) == (2, [2, 1, 1]);
    assert a[..5][..4] == a[..4] && a[..5] == a;
    assert [2, 1, 1][2 := 2] == [2, 1, 2];
  }

  /**
   * The flags 1,1,0,0,1 over four bases give 1, 3, 1 and 0, and the same
   * counts from the back on a reverse-strand read; the fourth base, never
   * opened, keeps 0.
   */
  lemma MoveExampleReverse()
    ensures DecodedMoves(Some([5, 1, 1, 0, 0, 1]), 4, false) == Some([1, 3, 1, 0])
    ensures DecodedMoves(Some([5, 1, 1, 0, 0, 1]), 4, true) == Some([0, 1, 3, 1])
  {
    var b: seq<Byte> := [1, 1, 0, 0, 1];
    assert [5, 1, 1, 0, 0, 1][1..] == b;
    var z4: seq<nat> := seq(4, _ => 0);
    assert z4 == [0, 0, 0, 0];
    assert b[..0] == [];
    assert MoveFold(b[..0], 4) == (-1, [0, 0, 0, 0]);
    assert b[..1][..0] == b[..0];
    assert [0, 0, 0, 0][0 := 1] == [1, 0, 0, 0];
    assert MoveFold(b[..1], 4) == (0, [1, 0, 0, 0]);
    assert b[..2][..1] == b[..1];
    assert [1, 0, 0, 0][1 := 1] == [1, 1, 0, 0];
    assert MoveFold(b[..2], 4) == (1, [1, 1, 0, 0]);
    assert b[..3][..2] == b[..2];
    assert [1, 1, 0, 0][1 := 2] == [1, 2, 0, 0];
    assert MoveFold(b[..3], 4) == (1, [1, 2, 0, 0]);
    assert b[..4][..3] == b[..3];
    assert [1, 2, 0, 0][1 := 3] == [1, 3, 0, 0];
    assert MoveFold(b[..4], 4) == (1, [1, 3, 0, 0]);
    assert b[..5][..4] == b[..4] && b[..5] == b;
    assert [1, 3, 0, 0][2 := 1] == [1, 3, 1, 0];
    assert Reverse([1, 3, 1, 0]) == [0, 1, 3, 1];
  }

  method ReverseInPlace(a: array<nat>)
    modifies a
    ensures a[..] == Reverse(old(a[..]))
  {
    var n := a.Length;
    var lo, hi := 0, n;
    while lo + 1 < hi
      invariant 0 <= lo <= hi <= n && lo + hi == n
      invariant forall k :: 0 <= k < lo ==> a[k] == old(a[n - 1 - k]) && a[n - 1 - k] == old(a[k])
      invariant forall k :: lo <= k < hi ==> a[k] == old(a[k])
    {
      a[lo], a[hi - 1] := a[hi - 1], a[lo];
      lo, hi := lo + 1, hi - 1;
    }
  }

  /**
   * `mv_per_query_base` for a record whose moves are wanted: the counts vector
   * of `qlen` zeros filled by one pass over the flags, then reversed in place
   * for a reverse-strand read.
   */
  method DecodeMoves(mv: Option<seq<Byte>>, qlen: nat, reverse: bool) returns (r: Option<seq<nat>>)
    ensures r == DecodedMoves(mv, qlen, reverse)
  {
    if mv.None? || |mv.value| <= 1 {
      return None;
    }
    var raw := mv.value[1..];
    var counts := new nat[qlen](_ => 0);
    var baseIdx: int := -1;
    var j := 0;
    assert counts[..] == seq(qlen, _ => 0);
    while j < |raw|
      invariant 0 <= j <= |raw|
      invariant (baseIdx, counts[..]) == MoveFold(raw[..j], qlen)
    {
      assert raw[..j + 1][..j] == raw[..j];
      if raw[j] == 1 {
        baseIdx := baseIdx + 1;
      }
      if 0 <= baseIdx < qlen {
        counts[baseIdx] := counts[baseIdx] + 1;
      }
      j := j + 1;
    }
    assert raw[..j] == raw;
    if reverse {
      ReverseInPlace(counts);
    }
    r := Some(counts[..]);
  }
}
