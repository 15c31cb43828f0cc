/**
 * The driver `nanopileup` (src/nanopileup.rs:254-478): the region is cut into
 * windows of `buffer_size` positions; for each window the records fetched
 * around it are ingested, the cache is pruned at the window start, and one
 * column is emitted per position of the window.
 */
module Driver {
  import opened Wrappers
  import opened Bam
  import opened ReadOrder
  import opened Decode
  import opened Cache
  import opened Pileup

  /** The parameters of one run over one region. */
  datatype Params = Params(
    chrom: string,
    start: nat,
    end: nat,
    minMapq: Byte,
    minBaseq: Byte,
    flagFilter: bv32,
    bufferSize: nat,
    margin: nat,
    outputBq: bool,
    outputMapq: bool,
    outputReadName: bool,
    outputMv: bool)

  /** The indexed reader: the records overlapping `[start, end)` of a chromosome, in file order. */
  type Fetch = (string, nat, nat) -> seq<Record>

  function FilterOf(prm: Params): Filter
  {
    Filter(prm.minMapq, prm.flagFilter, prm.margin, prm.outputMv)
  }

  function ScanOf(prm: Params, reference: Option<string>): Scan
  {
    Scan(prm.chrom, prm.start, reference, prm.minBaseq, prm.outputBq, prm.outputMapq, prm.outputReadName, prm.outputMv)
  }

  /**
   * What the model needs of fetched records: well formed, and with a mapping
   * quality whose start marker `mapq + 33` fits in a byte.
   */
  ghost predicate FetchOk(fetch: Fetch, chrom: string)
  {
    forall a: nat, b: nat, i :: 0 <= i < |fetch(chrom, a, b)| ==>
      WellFormed(fetch(chrom, a, b)[i]) && fetch(chrom, a, b)[i].mapq <= 222
  }

  predicate CacheOk(m: Reads)
  {
    forall id :: id in m ==> HeadsPrintable(m[id])
  }

  function Min(a: nat, b: nat): nat
  {
    if a <= b then a else b
  }

  /** The end of the window that starts at `ws`. */
  function WindowEnd(prm: Params, ws: nat): nat
  {
    Min(ws + prm.bufferSize, prm.end)
  }

  /** The records fetched for the window at `ws`: widened by the margin, saturating at 0. */
  function Fetched(fetch: Fetch, prm: Params, ws: nat): seq<Record>
  {
    fetch(prm.chrom, SatSub(ws, prm.margin), WindowEnd(prm, ws) + prm.margin)
  }

  lemma DecodePrintable(r: Record, outputMv: bool)
    requires WellFormed(r) && r.mapq <= 222
    ensures HeadsPrintable(DecodeSpec(r, outputMv))
  {
    DecodeSlotMapq(r, outputMv);
  }

  lemma {:induction false} IngestOk(m: Reads, rs: seq<Record>, ws: nat, we: nat, f: Filter)
    requires AllWellFormed(rs) && CacheOk(m)
    requires forall i :: 0 <= i < |rs| ==> rs[i].mapq <= 222
    ensures CacheOk(IngestAll(m, rs, ws, we, f))
    decreases |rs|
  {
    if |rs| > 0 {
      IngestOk(m, rs[..|rs| - 1], ws, we, f);
      DecodePrintable(rs[|rs| - 1], f.outputMv);
    }
  }

  /** The cache after the ingest and prune steps of the window at `ws`. */
  function WindowCache(fetch: Fetch, prm: Params, m: Reads, ws: nat): (r: Reads)
    requires FetchOk(fetch, prm.chrom) && CacheOk(m)
    ensures CacheOk(r)
  {
    var rs := Fetched(fetch, prm, ws);
    IngestOk(m, rs, ws, WindowEnd(prm, ws), FilterOf(prm));
    Pruned(IngestAll(m, rs, ws, WindowEnd(prm, ws), FilterOf(prm)), ws)
  }

  /** The column of `pos`, the cached reads visited in sorted id order. */
  ghost function SortedColumn(m: Reads, sc: Scan, pos: nat): PileupPos
    requires CacheOk(m) && sc.start <= pos
  {
    var ids := SortedKeys(m.Keys);
    assert ScanReady(m, ids) by {
      assert forall i :: 0 <= i < |ids| ==> ids[i] in Elements(ids);
    }
    Column(m, ids, sc, pos)
  }

  /** A visit of the scan: the cache state it reads and the position it emits. */
  type Visit = (Reads, nat)

  /**
   * How a window turns the cache it inherits into the one it scans, given
   * the window start.  The visit order below is described for any such step;
   * `WindowStep` is the one `nanopileup` takes.
   */
  type Step = (Reads, nat) --> Reads

  /** A step defined on every well-formed cache that keeps it well formed. */
  ghost predicate StepOk(step: Step)
  {
    forall m: Reads, ws: nat :: CacheOk(m) ==> step.requires(m, ws) && CacheOk(step(m, ws))
  }

  /** The refill-and-prune step of `nanopileup`. */
  ghost function WindowStep(fetch: Fetch, prm: Params): (step: Step)
    requires FetchOk(fetch, prm.chrom)
    ensures StepOk(step)
  {
    (m: Reads, ws: nat) requires CacheOk(m) => WindowCache(fetch, prm, m, ws)
  }

  /** `step` is the refill-and-prune step, on every cache `WindowCache` is asked about. */
  ghost predicate IsWindowStep(step: Step, fetch: Fetch, prm: Params)
  {
    && FetchOk(fetch, prm.chrom) && StepOk(step)
    && forall m: Reads, ws: nat {:trigger WindowCache(fetch, prm, m, ws)} ::
         CacheOk(m) ==> step(m, ws) == WindowCache(fetch, prm, m, ws)
  }

  lemma WindowStepIs(fetch: Fetch, prm: Params)
    requires FetchOk(fetch, prm.chrom)
    ensures IsWindowStep(WindowStep(fetch, prm), fetch, prm)
  {
  }

  /** The visits of positions `from .. to - 1`, all over the same cache. */
  function Visits(m: Reads, from: nat, to: nat): seq<Visit>
  {
    seq(if to >= from then to - from else 0, i => (m, from + i))
  }

  /** The start of the `k`-th window after the one at `ws`. */
  function NthStart(prm: Params, ws: nat, k: nat): (w: nat)
    ensures ws <= w && (k > 0 ==> ws + prm.bufferSize <= w)
    decreases k
  {
    if k == 0 then ws else NthStart(prm, ws + prm.bufferSize, k - 1)
  }

  lemma {:induction false} NthStartIs(prm: Params, ws: nat, k: nat)
    ensures NthStart(prm, ws, k) == ws + k * prm.bufferSize
    decreases k
  {
    if k > 0 {
      NthStartIs(prm, ws + prm.bufferSize, k - 1);
      MulPred(k, prm.bufferSize);
    }
  }

  /**
   * The cache carried into the `k`-th window after the one at `ws`, when `m`
   * is carried into that one: each window in between applies the step.
   */
  ghost function Carried(step: Step, prm: Params, m: Reads, ws: nat, k: nat): (r: Reads)
    requires StepOk(step) && CacheOk(m)
    ensures CacheOk(r)
    decreases k
  {
    if k == 0 then m else Carried(step, prm, step(m, ws), ws + prm.bufferSize, k - 1)
  }

  /** The `k + 1`-th window is carried what the `k`-th leaves. */
  lemma {:induction false} CarriedNext(step: Step, prm: Params, m: Reads, ws: nat, k: nat)
    requires StepOk(step) && CacheOk(m)
    ensures Carried(step, prm, m, ws, k + 1) == step(Carried(step, prm, m, ws, k), NthStart(prm, ws, k))
    decreases k
  {
    if k > 0 {
      CarriedNext(step, prm, step(m, ws), ws + prm.bufferSize, k - 1);
    }
  }

  /** The window number `a / b` of an offset `a`, and the offset's place in that window. */
  lemma DivBounds(a: nat, b: nat)
    requires b > 0
    ensures a / b * b <= a < a / b * b + b
  {
    assert a == a / b * b + a % b;
  }

  lemma MulPred(k: nat, b: nat)
    requires k > 0
    ensures k * b == (k - 1) * b + b && (k - 1) * b >= 0
  {
  }

  /**
   * The visits of the windows from `ws` on, given the cache carried into
   * them: each window applies the step to the cache, then visits its
   * positions in order.
   */
  ghost function Schedule(step: Step, prm: Params, m: Reads, ws: nat): (s: seq<Visit>)
    requires prm.bufferSize > 0 && StepOk(step) && CacheOk(m)
    ensures forall i :: 0 <= i < |s| ==> CacheOk(s[i].0) && ws <= s[i].1
    decreases if ws < prm.end then prm.end - ws else 0
  {
    if ws >= prm.end then []
    else
      var m' := step(m, ws);
      var here := Visits(m', ws, WindowEnd(prm, ws));
      var later := Schedule(step, prm, m', ws + prm.bufferSize);
      assert forall i :: |here| <= i < |here| + |later| ==> (here + later)[i] == later[i - |here|];
      here + later
  }

  /** The columns `nanopileup` emits for the region, in order. */
  ghost function Output(fetch: Fetch, prm: Params, reference: Option<string>): seq<PileupPos>
    requires prm.bufferSize > 0 && FetchOk(fetch, prm.chrom)
  {
    var s := Schedule(WindowStep(fetch, prm), prm, map[], prm.start);
    seq(|s|, i requires 0 <= i < |s| => SortedColumn(s[i].0, ScanOf(prm, reference), s[i].1))
  }

  /** The schedule visits every position of `[ws, end)` once, in increasing order. */
  lemma {:induction false} SchedulePositions(step: Step, prm: Params, m: Reads, ws: nat)
    requires prm.bufferSize > 0 && StepOk(step) && CacheOk(m)
    ensures var s := Schedule(step, prm, m, ws);
      && |s| == (if ws < prm.end then prm.end - ws else 0)
      && forall i :: 0 <= i < |s| ==> s[i].1 == ws + i
    decreases if ws < prm.end then prm.end - ws else 0
  {
    if ws < prm.end {
      var m' := step(m, ws);
      var here: seq<Visit> := Visits(m', ws, WindowEnd(prm, ws));
      var later: seq<Visit> := Schedule(step, prm, m', ws + prm.bufferSize);
      SchedulePositions(step, prm, m', ws + prm.bufferSize);
      assert Schedule(step, prm, m, ws) == here + later;
      assert |here| == WindowEnd(prm, ws) - ws;
      forall i | 0 <= i < |here| + |later| ensures (here + later)[i].1 == ws + i {
        if i >= |here| {
          assert |here| == prm.bufferSize;
          assert (here + later)[i] == later[i - |here|];
        }
      }
    }
  }

  /**
   * The first window's visits read the cache the step makes; each visit after
   * them is the matching visit of the windows from the next one on.
   */
  lemma ScheduleAt(step: Step, prm: Params, m: Reads, ws: nat, i: nat)
    requires prm.bufferSize > 0 && StepOk(step) && CacheOk(m) && ws < prm.end
    ensures var n := WindowEnd(prm, ws) - ws; var later := Schedule(step, prm, step(m, ws), ws + prm.bufferSize);
      && |Schedule(step, prm, m, ws)| == n + |later|
      && (i < n ==> Schedule(step, prm, m, ws)[i].0 == step(m, ws))
      && (n <= i < |Schedule(step, prm, m, ws)| ==> Schedule(step, prm, m, ws)[i] == later[i - n])
  {
    var here := Visits(step(m, ws), ws, WindowEnd(prm, ws));
    var later := Schedule(step, prm, step(m, ws), ws + prm.bufferSize);
    assert Schedule(step, prm, m, ws) == here + later;
    if i < |here| {
      assert (here + later)[i] == here[i];
    } else if i < |here| + |later| {
      assert (here + later)[i] == later[i - |here|];
    }
  }

  /**
   * The visit at position `pos`, which lies in the `k`-th window after `ws`,
   * reads the step applied to the cache carried into that window.
   */
  lemma {:induction false} ScheduleCache(step: Step, prm: Params, m: Reads, ws: nat, k: nat, pos: nat)
    requires prm.bufferSize > 0 && StepOk(step) && CacheOk(m)
    requires NthStart(prm, ws, k) <= pos < WindowEnd(prm, NthStart(prm, ws, k))
    ensures pos - ws < |Schedule(step, prm, m, ws)|
    ensures Schedule(step, prm, m, ws)[pos - ws].0 == step(Carried(step, prm, m, ws, k), NthStart(prm, ws, k))
    decreases k, 1
  {
    if k == 0 {
      ScheduleAt(step, prm, m, ws, pos - ws);
    } else {
      ScheduleCacheLater(step, prm, m, ws, k, pos);
    }
  }

  /** A visit past the first window is the matching visit of the windows after it. */
  lemma {:induction false} ScheduleCacheLater(step: Step, prm: Params, m: Reads, ws: nat, k: nat, pos: nat)
    requires prm.bufferSize > 0 && StepOk(step) && CacheOk(m) && k > 0
    requires NthStart(prm, ws, k) <= pos < WindowEnd(prm, NthStart(prm, ws, k))
    ensures pos - ws < |Schedule(step, prm, m, ws)|
    ensures Schedule(step, prm, m, ws)[pos - ws].0 == step(Carried(step, prm, m, ws, k), NthStart(prm, ws, k))
    decreases k, 0
  {
    var m', ws' := step(m, ws), ws + prm.bufferSize;
    assert NthStart(prm, ws, k) == NthStart(prm, ws', k - 1) && ws' <= pos;
    assert Carried(step, prm, m, ws, k) == Carried(step, prm, m', ws', k - 1);
    assert WindowEnd(prm, ws) - ws == prm.bufferSize;
    ScheduleAt(step, prm, m, ws, pos - ws);
    ScheduleCache(step, prm, m', ws', k - 1, pos);
    assert Schedule(step, prm, m, ws)[pos - ws] == Schedule(step, prm, m', ws')[pos - ws'];
  }

  /**
   * The output has one column per position of the region, in increasing
   * order, each for the region's chromosome and with its optional vectors in
   * step with its base strings.
   */
  lemma OutputShape(fetch: Fetch, prm: Params, reference: Option<string>)
    requires prm.bufferSize > 0 && FetchOk(fetch, prm.chrom)
    ensures var out := Output(fetch, prm, reference);
      && |out| == (if prm.start < prm.end then prm.end - prm.start else 0)
      && forall k :: 0 <= k < |out| ==>
           out[k].pos == prm.start + k && out[k].chrom == prm.chrom && InStep(out[k], ScanOf(prm, reference))
  {
    var step := WindowStep(fetch, prm);
    var s := Schedule(step, prm, map[], prm.start);
    var sc := ScanOf(prm, reference);
    SchedulePositions(step, prm, map[], prm.start);
    forall k | 0 <= k < |s|
      ensures var p := SortedColumn(s[k].0, sc, s[k].1);
        p.pos == prm.start + k && p.chrom == prm.chrom && InStep(p, sc)
    {
      var ids := SortedKeys(s[k].0.Keys);
      assert forall i :: 0 <= i < |ids| ==> ids[i] in Elements(ids);
      ColumnShape(s[k].0, ids, sc, s[k].1);
    }
  }

  /** The start of the `k`-th window of the region, on the `step_by(buffer_size)` grid. */
  function WindowStart(prm: Params, k: nat): nat
  {
    prm.start + k * prm.bufferSize
  }

  /**
   * The cache `nanopileup` carries into its `k`-th window: empty for the
   * first, else the one the window before it scanned.
   */
  function CacheBefore(fetch: Fetch, prm: Params, k: nat): (r: Reads)
    requires FetchOk(fetch, prm.chrom)
    ensures CacheOk(r)
    decreases k, 0
  {
    if k == 0 then map[] else ScannedCache(fetch, prm, k - 1)
  }

  /** The cache the `k`-th window scans: the carried cache refilled from its fetch and pruned at its start. */
  function ScannedCache(fetch: Fetch, prm: Params, k: nat): (r: Reads)
    requires FetchOk(fetch, prm.chrom)
    ensures CacheOk(r)
    decreases k, 1
  {
    WindowCache(fetch, prm, CacheBefore(fetch, prm, k), WindowStart(prm, k))
  }

  lemma {:induction false} CacheBeforeIs(step: Step, fetch: Fetch, prm: Params, k: nat)
    requires IsWindowStep(step, fetch, prm)
    ensures Carried(step, prm, map[], prm.start, k) == CacheBefore(fetch, prm, k)
    decreases k
  {
    if k > 0 {
      var prev := CacheBefore(fetch, prm, k - 1);
      var w := WindowStart(prm, k - 1);
      CacheBeforeIs(step, fetch, prm, k - 1);
      CarriedNext(step, prm, map[], prm.start, k - 1);
      NthStartIs(prm, prm.start, k - 1);
      assert Carried(step, prm, map[], prm.start, k) == step(prev, w);
      assert step(prev, w) == WindowCache(fetch, prm, prev, w) == ScannedCache(fetch, prm, k - 1);
    }
  }

  /** Position `pos` lies in window number `(pos - start) / buffer_size`. */
  lemma WindowOf(prm: Params, pos: nat)
    requires prm.bufferSize > 0 && prm.start <= pos < prm.end
    ensures var k := (pos - prm.start) / prm.bufferSize;
      && NthStart(prm, prm.start, k) == WindowStart(prm, k)
      && WindowStart(prm, k) <= pos < WindowEnd(prm, WindowStart(prm, k))
  {
    var k := (pos - prm.start) / prm.bufferSize;
    DivBounds(pos - prm.start, prm.bufferSize);
    NthStartIs(prm, prm.start, k);
  }

  /**
   * The column for position `pos` is the scan of `pos`, in sorted read-id
   * order, over the cache of the window holding it, window number
   * `k = (pos - start) / buffer_size`: the cache carried into that window,
   * refilled from its fetch and pruned at its start.
   */
  lemma OutputColumn(fetch: Fetch, prm: Params, reference: Option<string>, pos: nat)
    requires prm.bufferSize > 0 && FetchOk(fetch, prm.chrom)
    requires prm.start <= pos < prm.end
    ensures pos - prm.start < |Output(fetch, prm, reference)|
    ensures var k := (pos - prm.start) / prm.bufferSize; var w := WindowStart(prm, k);
      && w <= pos < WindowEnd(prm, w)
      && Output(fetch, prm, reference)[pos - prm.start]
           == SortedColumn(ScannedCache(fetch, prm, k), ScanOf(prm, reference), pos)
  {
    VisitAt(fetch, prm, pos);
    OutputAt(fetch, prm, reference, pos - prm.start);
  }

  lemma OutputAt(fetch: Fetch, prm: Params, reference: Option<string>, i: nat)
    requires prm.bufferSize > 0 && FetchOk(fetch, prm.chrom)
    requires i < |Schedule(WindowStep(fetch, prm), prm, map[], prm.start)|
    ensures var s := Schedule(WindowStep(fetch, prm), prm, map[], prm.start);
      i < |Output(fetch, prm, reference)|
      && Output(fetch, prm, reference)[i] == SortedColumn(s[i].0, ScanOf(prm, reference), s[i].1)
  {
  }

  /** The visit of `pos` in the schedule of `nanopileup`, in window number `k`. */
  lemma VisitAt(fetch: Fetch, prm: Params, pos: nat)
    requires prm.bufferSize > 0 && FetchOk(fetch, prm.chrom)
    requires prm.start <= pos < prm.end
    ensures var s := Schedule(WindowStep(fetch, prm), prm, map[], prm.start);
      var k := (pos - prm.start) / prm.bufferSize; var w := WindowStart(prm, k);
      && w <= pos < WindowEnd(prm, w)
      && pos - prm.start < |s| && s[pos - prm.start].1 == pos
      && s[pos - prm.start].0 == ScannedCache(fetch, prm, k)
  {
    var step := WindowStep(fetch, prm);
    var k := (pos - prm.start) / prm.bufferSize;
    WindowOf(prm, pos);
    SchedulePositions(step, prm, map[], prm.start);
    ScheduleCache(step, prm, map[], prm.start, k, pos);
    WindowStepIs(fetch, prm);
    CacheBeforeIs(step, fetch, prm, k);
  }

  /** The reads of the column at `pos` over the cache `m`, in sorted id order. */
  ghost function ColumnReads(m: Reads, minBaseq: Byte, pos: nat): (cs: seq<string>)
    ensures forall i :: 0 <= i < |cs| ==> cs[i] in m && Contributes(m[cs[i]], pos, minBaseq)
  {
    var ids := SortedKeys(m.Keys);
    assert forall i :: 0 <= i < |ids| ==> ids[i] in Elements(ids);
    Contributors(m, ids, pos, minBaseq)
  }

  /**
   * A read `id` new to the cache shows at `pos` after ingesting `rs` and
   * pruning at `ws`: the first record with that name the filters admit
   * decodes to a read that ends after `ws` and whose slot at `pos` is filled
   * with a quality of at least `minBaseq`.
   */
  ghost predicate NewShows(rs: seq<Record>, ws: nat, we: nat, f: Filter, id: string, pos: nat, minBaseq: Byte)
    requires AllWellFormed(rs)
  {
    exists i: nat ::
      && FirstAdmitted(rs, i, ws, we, f) && rs[i].qname == id
      && var r := DecodeSpec(rs[i], f.outputMv); r.refEnd > ws && Contributes(r, pos, minBaseq)
  }

  /**
   * The read `id` has a base string at `pos` after the window at `ws`, when
   * `m` is the cache carried in: the carried read, if it ends after `ws` and
   * its slot at `pos` is filled with a quality of at least `min_baseq`; a
   * read not carried in shows by `NewShows` over the window's fetch.
   */
  ghost predicate ShowsAt(fetch: Fetch, prm: Params, m: Reads, ws: nat, id: string, pos: nat)
    requires FetchOk(fetch, prm.chrom)
  {
    if id in m then m[id].refEnd > ws && Contributes(m[id], pos, prm.minBaseq)
    else
      var rs := Fetched(fetch, prm, ws);
      assert AllWellFormed(rs);
      NewShows(rs, ws, WindowEnd(prm, ws), FilterOf(prm), id, pos, prm.minBaseq)
  }

  lemma IngestPrunedShows(m: Reads, rs: seq<Record>, ws: nat, we: nat, f: Filter, id: string, pos: nat, minBaseq: Byte)
    requires AllWellFormed(rs) && id !in m
    ensures var c := Pruned(IngestAll(m, rs, ws, we, f), ws);
      (id in c && Contributes(c[id], pos, minBaseq)) <==> NewShows(rs, ws, we, f, id, pos, minBaseq)
  {
    var c := Pruned(IngestAll(m, rs, ws, we, f), ws);
    IngestHas(m, rs, ws, we, f, id);
    if id in c {
      var i := FirstAdmittedOf(rs, ws, we, f, id);
      IngestFirst(m, rs, ws, we, f, i);
    }
    if NewShows(rs, ws, we, f, id, pos, minBaseq) {
      var i: nat :| FirstAdmitted(rs, i, ws, we, f) && rs[i].qname == id
        && DecodeSpec(rs[i], f.outputMv).refEnd > ws && Contributes(DecodeSpec(rs[i], f.outputMv), pos, minBaseq);
      IngestFirst(m, rs, ws, we, f, i);
    }
  }

  /** The cache a window scans holds a contributing read `id` exactly when `ShowsAt` says so. */
  lemma WindowCacheShows(fetch: Fetch, prm: Params, m: Reads, ws: nat, id: string, pos: nat)
    requires FetchOk(fetch, prm.chrom) && CacheOk(m)
    ensures var c := WindowCache(fetch, prm, m, ws);
      (id in c && Contributes(c[id], pos, prm.minBaseq)) <==> ShowsAt(fetch, prm, m, ws, id, pos)
  {
    var rs := Fetched(fetch, prm, ws);
    var we := WindowEnd(prm, ws);
    var f := FilterOf(prm);
    assert AllWellFormed(rs);
    assert WindowCache(fetch, prm, m, ws) == Pruned(IngestAll(m, rs, ws, we, f), ws);
    if id in m {
      IngestKeeps(m, rs, ws, we, f);
    } else {
      IngestPrunedShows(m, rs, ws, we, f, id, pos, prm.minBaseq);
    }
  }

  /**
   * The column for `pos` shows exactly the reads `ShowsAt` names for the
   * window holding `pos` and the cache carried into it, in sorted id order,
   * one base string and one entry of every enabled vector per read.
   */
  lemma OutputReads(fetch: Fetch, prm: Params, reference: Option<string>, pos: nat, id: string)
    requires prm.bufferSize > 0 && FetchOk(fetch, prm.chrom)
    requires prm.start <= pos < prm.end
    ensures pos - prm.start < |Output(fetch, prm, reference)|
    ensures var k := (pos - prm.start) / prm.bufferSize; var w := WindowStart(prm, k);
      var c := ScannedCache(fetch, prm, k);
      var cs := ColumnReads(c, prm.minBaseq, pos);
      && w <= pos
      && ColumnOf(Output(fetch, prm, reference)[pos - prm.start], c, cs, ScanOf(prm, reference), pos)
      && (id in cs <==> ShowsAt(fetch, prm, CacheBefore(fetch, prm, k), w, id, pos))
  {
    var k := (pos - prm.start) / prm.bufferSize;
    var w := WindowStart(prm, k);
    var c := ScannedCache(fetch, prm, k);
    var sc := ScanOf(prm, reference);
    OutputColumn(fetch, prm, reference, pos);
    var ids := SortedKeys(c.Keys);
    assert ScanReady(c, ids) by {
      assert forall i :: 0 <= i < |ids| ==> ids[i] in Elements(ids);
    }
    ColumnContents(c, ids, sc, pos);
    var cs := ColumnReads(c, prm.minBaseq, pos);
    assert id in cs <==> id in Elements(cs);
    WindowCacheShows(fetch, prm, CacheBefore(fetch, prm, k), w, id, pos);
  }

  /** The visits still due from the cache `m` at window `ws`, after the visits `done`, make up `total`. */
  ghost predicate Pending(step: Step, prm: Params, done: seq<Visit>, m: Reads, ws: nat, total: seq<Visit>)
  {
    prm.bufferSize > 0 && StepOk(step) && CacheOk(m) && done + Schedule(step, prm, m, ws) == total
  }

  /** One window's visits come first, then those of the windows after it. */
  lemma ScheduleAdvance(step: Step, prm: Params, done: seq<Visit>, m: Reads, m': Reads, ws: nat, total: seq<Visit>)
    requires Pending(step, prm, done, m, ws, total)
    requires ws < prm.end && m' == step(m, ws)
    ensures Pending(step, prm, done + Visits(m', ws, WindowEnd(prm, ws)), m', ws + prm.bufferSize, total)
  {
    var here := Visits(m', ws, WindowEnd(prm, ws));
    var later := Schedule(step, prm, m', ws + prm.bufferSize);
    assert done + (here + later) == (done + here) + later;
  }

  /** The column `p` is the one the visit `v` emits. */
  ghost predicate EmittedAt(p: PileupPos, v: Visit, sc: Scan)
  {
    CacheOk(v.0) && sc.start <= v.1 && p == SortedColumn(v.0, sc, v.1)
  }

  /** The columns `results` are those of the visits `done`. */
  ghost predicate Emitted(results: seq<PileupPos>, done: seq<Visit>, sc: Scan)
  {
    |results| == |done| && forall i :: 0 <= i < |done| ==> EmittedAt(results[i], done[i], sc)
  }

  lemma EmittedAppend(results: seq<PileupPos>, done: seq<Visit>, cols: seq<PileupPos>, vs: seq<Visit>, sc: Scan)
    requires Emitted(results, done, sc) && Emitted(cols, vs, sc)
    ensures Emitted(results + cols, done + vs, sc)
  {
    forall i | 0 <= i < |done| + |vs|
      ensures EmittedAt((results + cols)[i], (done + vs)[i], sc)
    {
      if i >= |done| {
        assert (done + vs)[i] == vs[i - |done|];
        assert (results + cols)[i] == cols[i - |done|];
      } else {
        assert (done + vs)[i] == done[i];
        assert (results + cols)[i] == results[i];
      }
    }
  }

  /** The ingest and prune steps of the window at `ws`. */
  method FillWindow(cache: ReadCache, fetch: Fetch, prm: Params, ws: nat)
    requires FetchOk(fetch, prm.chrom) && CacheOk(cache.entries)
    modifies cache
    ensures cache.entries == WindowCache(fetch, prm, old(cache.entries), ws)
  {
    var we := WindowEnd(prm, ws);
    var records := fetch(prm.chrom, SatSub(ws, prm.margin), we + prm.margin);
    assert records == Fetched(fetch, prm, ws) && AllWellFormed(records);
    ghost var ingested := IngestAll(old(cache.entries), records, ws, we, FilterOf(prm));
    cache.Ingest(records, ws, we, FilterOf(prm));
    cache.Prune(ws);
    assert cache.entries == Pruned(ingested, ws);
  }

  /** The positions `ws .. we - 1`, each scanned over the cache `m` in sorted id order. */
  method ScanWindow(m: Reads, sc: Scan, ws: nat, we: nat) returns (cols: seq<PileupPos>)
    requires CacheOk(m) && sc.start <= ws <= we
    ensures Emitted(cols, Visits(m, ws, we), sc)
  {
    cols := [];
    var pos := ws;
    while pos < we
      invariant ws <= pos <= we
      invariant Emitted(cols, Visits(m, ws, pos), sc)
    {
      var ids := SortIds(m.Keys);
      assert ScanReady(m, ids) by {
        assert forall i :: 0 <= i < |ids| ==> ids[i] in Elements(ids);
      }
      var p := ScanPosition(m, ids, sc, pos);
      assert EmittedAt(p, (m, pos), sc);
      EmittedAppend(cols, Visits(m, ws, pos), [p], [(m, pos)], sc);
      assert Visits(m, ws, pos) + [(m, pos)] == Visits(m, ws, pos + 1);
      cols := cols + [p];
      pos := pos + 1;
    }
  }

  /**
   * One window: refill and prune the cache, then scan the window's
   * positions, appending one column per position to `results`.
   */
  method RunWindow(cache: ReadCache, fetch: Fetch, prm: Params, sc: Scan, ws: nat,
                   results: seq<PileupPos>, ghost step: Step, ghost done: seq<Visit>, ghost total: seq<Visit>)
    returns (results': seq<PileupPos>, ghost done': seq<Visit>)
    requires IsWindowStep(step, fetch, prm) && sc.start <= ws < prm.end
    requires Pending(step, prm, done, cache.entries, ws, total) && Emitted(results, done, sc)
    modifies cache
    ensures Pending(step, prm, done', cache.entries, ws + prm.bufferSize, total)
    ensures Emitted(results', done', sc)
  {
    ghost var m := cache.entries;
    FillWindow(cache, fetch, prm, ws);
    var cols := ScanWindow(cache.entries, sc, ws, WindowEnd(prm, ws));
    ScheduleAdvance(step, prm, done, m, cache.entries, ws, total);
    ghost var here := Visits(cache.entries, ws, WindowEnd(prm, ws));
    EmittedAppend(results, done, cols, here, sc);
    results' := results + cols;
    done' := done + here;
  }

  /** The window loop from `ws0` on, over the cache as it stands. */
  method RunFrom(cache: ReadCache, fetch: Fetch, prm: Params, reference: Option<string>, ws0: nat, ghost step: Step)
    returns (results: seq<PileupPos>)
    requires prm.bufferSize > 0 && prm.start <= ws0
    requires IsWindowStep(step, fetch, prm) && CacheOk(cache.entries)
    modifies cache
    ensures Emitted(results, Schedule(step, prm, old(cache.entries), ws0), ScanOf(prm, reference))
  {
    var sc := ScanOf(prm, reference);
    results := [];
    var ws := ws0;
    ghost var done: seq<Visit> := [];
    ghost var total := Schedule(step, prm, cache.entries, ws0);
    assert done + total == total;
    while ws < prm.end
      invariant sc.start <= ws
      invariant Pending(step, prm, done, cache.entries, ws, total)
      invariant Emitted(results, done, sc)
      decreases if ws < prm.end then prm.end - ws else 0
    {
      results, done := RunWindow(cache, fetch, prm, sc, ws, results, step, done, total);
      ws := ws + prm.bufferSize;
    }
    assert done + [] == done;
  }

  /**
   * `nanopileup` over one region, with the reference already fetched: the
   * windows in order, starting from an empty cache.
   */
  method Nanopileup(fetch: Fetch, prm: Params, reference: Option<string>) returns (results: seq<PileupPos>)
    requires prm.bufferSize > 0
    requires FetchOk(fetch, prm.chrom)
    ensures results == Output(fetch, prm, reference)
  {
    var cache := new ReadCache();
    WindowStepIs(fetch, prm);
    results := RunFrom(cache, fetch, prm, reference, prm.start, WindowStep(fetch, prm));
  }
}
