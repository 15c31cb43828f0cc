/**
 * `ReadCache` (src/nanopileup.rs:197-211) and the per-window ingest step of
 * `nanopileup` (src/nanopileup.rs:308-335): decoded reads keyed by query name,
 * filled from the fetched records and pruned as the windows advance.
 */
module Cache {
  import opened Bam
  import opened Decode

  type Reads = map<string, CachedRead>

  /** The read filters of one run. */
  datatype Filter = Filter(minMapq: Byte, flagFilter: bv32, margin: nat, outputMv: bool)

  /** `usize::saturating_sub`. */
  function SatSub(a: nat, b: nat): (r: nat)
    ensures r == if a >= b then a - b else 0
  {
    if a >= b then a - b else 0
  }

  /**
   * A fetched record that is not already cached is decoded unless it lies
   * outside the window widened by the margin, maps with too low a quality,
   * or carries a filtered flag.
   */
  predicate Admits(r: Record, ws: nat, we: nat, f: Filter)
  {
    && !(r.pos >= we + f.margin || EndPos(r) <= SatSub(ws, f.margin))
    && r.mapq >= f.minMapq
    && (r.flags as bv32) & f.flagFilter == 0
  }

  /** One record of the fetch loop. */
  function Admit(m: Reads, r: Record, ws: nat, we: nat, f: Filter): Reads
    requires WellFormed(r)
  {
    if r.qname in m then m
    else if !Admits(r, ws, we, f) then m
    else m[r.qname := DecodeSpec(r, f.outputMv)]
  }

  predicate AllWellFormed(rs: seq<Record>)
  {
    forall i :: 0 <= i < |rs| ==> WellFormed(rs[i])
  }

  /** The fetch loop over all records of one window. */
  function IngestAll(m: Reads, rs: seq<Record>, ws: nat, we: nat, f: Filter): Reads
    requires AllWellFormed(rs)
    decreases |rs|
  {
    if |rs| == 0 then m
    else Admit(IngestAll(m, rs[..|rs| - 1], ws, we, f), rs[|rs| - 1], ws, we, f)
  }

  /** `retain(|_, read| read.ref_end > min_ref_pos)`: exactly the reads ending after the bound survive, unchanged. */
  function Pruned(m: Reads, minRefPos: int): (r: Reads)
    ensures forall k :: k in r <==> k in m && m[k].refEnd > minRefPos
    ensures forall k :: k in r ==> r[k] == m[k]
  {
    map k | k in m && m[k].refEnd > minRefPos :: m[k]
  }

  /** Pruning twice is pruning once at the larger bound. */
  lemma PruneTwice(m: Reads, a: int, b: int)
    ensures Pruned(Pruned(m, a), b) == Pruned(m, if a >= b then a else b)
  {
    assert Pruned(Pruned(m, a), b).Keys == Pruned(m, if a >= b then a else b).Keys;
  }

  /** Every cached read is filed under its own query name. */
  predicate KeyedById(m: Reads)
  {
    forall k :: k in m ==> m[k].readId == k
  }

  /** A record admitted by the filters and first seen at index `i`. */
  predicate FirstAdmitted(rs: seq<Record>, i: nat, ws: nat, we: nat, f: Filter)
  {
    && i < |rs| && Admits(rs[i], ws, we, f)
    && forall j :: 0 <= j < i ==> !(rs[j].qname == rs[i].qname && Admits(rs[j], ws, we, f))
  }

  /** A record admitted under the name `k` means a first such record. */
  lemma {:induction false} FirstAdmittedOf(rs: seq<Record>, ws: nat, we: nat, f: Filter, k: string) returns (i: nat)
    requires exists j :: 0 <= j < |rs| && rs[j].qname == k && Admits(rs[j], ws, we, f)
    ensures FirstAdmitted(rs, i, ws, we, f) && rs[i].qname == k
    decreases |rs|
  {
    var pre := rs[..|rs| - 1];
    if exists j :: 0 <= j < |pre| && pre[j].qname == k && Admits(pre[j], ws, we, f) {
      i := FirstAdmittedOf(pre, ws, we, f, k);
      assert forall j :: 0 <= j <= i ==> rs[j] == pre[j];
    } else {
      i := |rs| - 1;
      assert forall j :: 0 <= j < i ==> rs[j] == pre[j];
    }
  }

  lemma IngestStep(m: Reads, rs: seq<Record>, i: nat, ws: nat, we: nat, f: Filter)
    requires AllWellFormed(rs) && i < |rs|
    ensures AllWellFormed(rs[..i]) && AllWellFormed(rs[..i + 1])
    ensures IngestAll(m, rs[..i + 1], ws, we, f) == Admit(IngestAll(m, rs[..i], ws, we, f), rs[i], ws, we, f)
  {
    assert rs[..i + 1][..i] == rs[..i];
  }

  /** Ingest never replaces or drops a cached read. */
  lemma {:induction false} IngestKeeps(m: Reads, rs: seq<Record>, ws: nat, we: nat, f: Filter)
    requires AllWellFormed(rs)
    ensures forall k :: k in m ==> k in IngestAll(m, rs, ws, we, f) && IngestAll(m, rs, ws, we, f)[k] == m[k]
    decreases |rs|
  {
    if |rs| > 0 {
      IngestKeeps(m, rs[..|rs| - 1], ws, we, f);
    }
  }

  /** A name the cache lacked is present after ingest exactly when some fetched record with it is admitted. */
  lemma {:induction false} IngestHas(m: Reads, rs: seq<Record>, ws: nat, we: nat, f: Filter, k: string)
    requires AllWellFormed(rs) && k !in m
    ensures k in IngestAll(m, rs, ws, we, f) <==> exists i :: 0 <= i < |rs| && rs[i].qname == k && Admits(rs[i], ws, we, f)
    decreases |rs|
  {
    if |rs| > 0 {
      var pre := rs[..|rs| - 1];
      assert AllWellFormed(pre);
      IngestHas(m, pre, ws, we, f, k);
      if exists i :: 0 <= i < |pre| && pre[i].qname == k && Admits(pre[i], ws, we, f) {
        var i :| 0 <= i < |pre| && pre[i].qname == k && Admits(pre[i], ws, we, f);
        assert rs[i] == pre[i];
      }
      if exists i :: 0 <= i < |rs| && rs[i].qname == k && Admits(rs[i], ws, we, f) {
        var i :| 0 <= i < |rs| && rs[i].qname == k && Admits(rs[i], ws, we, f);
        if i < |pre| {
          assert pre[i] == rs[i];
        }
      }
    }
  }

  /** A name the cache lacked maps, after ingest, to the decoding of the first admitted record with that name. */
  lemma {:induction false} IngestFirst(m: Reads, rs: seq<Record>, ws: nat, we: nat, f: Filter, i: nat)
    requires AllWellFormed(rs) && i < |rs| && rs[i].qname !in m
    requires FirstAdmitted(rs, i, ws, we, f)
    ensures rs[i].qname in IngestAll(m, rs, ws, we, f)
    ensures IngestAll(m, rs, ws, we, f)[rs[i].qname] == DecodeSpec(rs[i], f.outputMv)
    decreases |rs|
  {
    var pre := rs[..|rs| - 1];
    var k := rs[i].qname;
    assert AllWellFormed(pre);
    if i < |pre| {
      assert pre[i] == rs[i];
      assert FirstAdmitted(pre, i, ws, we, f);
      IngestFirst(m, pre, ws, we, f, i);
    } else {
      IngestHas(m, pre, ws, we, f, k);
    }
  }

  /** Ingest keeps every read under its own name. */
  lemma {:induction false} IngestKeyedById(m: Reads, rs: seq<Record>, ws: nat, we: nat, f: Filter)
    requires AllWellFormed(rs) && KeyedById(m)
    ensures KeyedById(IngestAll(m, rs, ws, we, f))
    decreases |rs|
  {
    if |rs| > 0 {
      IngestKeyedById(m, rs[..|rs| - 1], ws, we, f);
      DecodeShape(rs[|rs| - 1], f.outputMv);
    }
  }

  /** When every admitted record is already cached, ingest changes nothing. */
  lemma {:induction false} IngestCovered(m: Reads, rs: seq<Record>, ws: nat, we: nat, f: Filter)
    requires AllWellFormed(rs)
    requires forall i :: 0 <= i < |rs| && Admits(rs[i], ws, we, f) ==> rs[i].qname in m
    ensures IngestAll(m, rs, ws, we, f) == m
    decreases |rs|
  {
    if |rs| > 0 {
      IngestCovered(m, rs[..|rs| - 1], ws, we, f);
    }
  }

  /** Ingesting the same records again is a no-op. */
  lemma IngestIdempotent(m: Reads, rs: seq<Record>, ws: nat, we: nat, f: Filter)
    requires AllWellFormed(rs)
    ensures IngestAll(IngestAll(m, rs, ws, we, f), rs, ws, we, f) == IngestAll(m, rs, ws, we, f)
  {
    var m' := IngestAll(m, rs, ws, we, f);
    IngestKeeps(m, rs, ws, we, f);
    forall i | 0 <= i < |rs| && Admits(rs[i], ws, we, f)
      ensures rs[i].qname in m'
    {
      if rs[i].qname !in m {
        IngestHas(m, rs, ws, we, f, rs[i].qname);
      }
    }
    IngestCovered(m', rs, ws, we, f);
  }

  /** The cache object; `entries` is the `reads` map the source mutates in place. */
  class ReadCache {
    var entries: Reads

    constructor()
      ensures entries == map[]
    {
      entries := map[];
    }

    /** `ReadCache::prune`. */
    method Prune(minRefPos: int)
      modifies this
      ensures entries == Pruned(old(entries), minRefPos)
    {
      entries := map k | k in entries && entries[k].refEnd > minRefPos :: entries[k];
    }

    /** The fetch loop of one window: skip cached names, filter, decode and insert. */
    method Ingest(rs: seq<Record>, ws: nat, we: nat, f: Filter)
      requires AllWellFormed(rs)
      modifies this
      ensures entries == IngestAll(old(entries), rs, ws, we, f)
    {
      var i := 0;
      while i < |rs|
        invariant 0 <= i <= |rs|
        invariant AllWellFormed(rs[..i])
        invariant entries == IngestAll(old(entries), rs[..i], ws, we, f)
      {
        IngestStep(old(entries), rs, i, ws, we, f);
        var record := rs[i];
        i := i + 1;
        if record.qname in entries {
          continue;
        }
        if record.pos >= we + f.margin || EndPos(record) <= SatSub(ws, f.margin) {
          continue;
        }
        if record.mapq < f.minMapq {
          continue;
        }
        if (record.flags as bv32) & f.flagFilter != 0 {
          continue;
        }
        var cached := DecodeRead(record, f.outputMv);
        entries := entries[record.qname := cached];
      }
      assert rs[..i] == rs;
    }
  }
}
