# nanopile: a verified model of the pileup engine

nanopile turns the reads of an indexed BAM file into a per-position pileup.
The region is read either as a `chrom:start-end` string or from BED lines.
The pileup has one row per reference position of the region. Each row holds:

- the reference base;
- the depth;
- one base string per covering read, in samtools-like pileup text encoding;
- optionally the read names, the mapping qualities, the base qualities, and the
  per-base nanopore move counts decoded from the `mv` tag.

This project models that engine in Dafny and proves properties of it:

| module | file | models |
|---|---|---|
| `Bam` | bam.dfy | the alignment record as the engine reads it: position, CIGAR, 4-bit base codes, qualities, mapping quality, flags, `mv` bytes, query name; `end_pos` |
| `Moves` | moves.dfy | the move-table decode of `CachedRead::new` |
| `Decode` | decode.dfy | `CachedRead::new`: the CIGAR walk into a slot array, the I/D anchoring, the head and tail marks |
| `ReadOrder` | read_order.dfy | the sorted enumeration of the cache's read ids |
| `Cache` | cache.dfy | `ReadCache` (a class whose `entries` map is mutated in place), `prune`, and the per-window ingest loop with its filters |
| `Pileup` | pileup.dfy | `PileupPos`, `PileupPos::new`, the column scan of one position, the base-string and mv-string builders |
| `Driver` | driver.dfy | the window loop of `nanopileup` over an abstract fetch oracle |
| `Regions` | regions.dfy | `Region::from_str` and the per-line logic of `parse_bed_file` |
| `Render` | render.dfy | the tab-separated row printer of the command-line tool |
| `Text`, `Wrappers` | text.dfy, wrappers.dfy | the pieces of Rust's string library the code uses (`to_string`, `parse::<usize>`, `split`, `join`, `replace`, `trim`, `split_whitespace`, ASCII case), and `Option`/`Result` |

Where the source mutates state, the model does too:

- the slot vector of a decoded read and the move counts are arrays filled and
  reversed in place;
- the cache is a class;
- the driver, scan, BED and row loops are methods with loop invariants.

Each such method is proved equal to a pure specification function. The
properties are then proved about that function.

Some behaviours of the code that a reader may not expect:

- The move flags `1,0,1,1,0` over three bases decode to `[2, 1, 2]`
  (`Moves.MoveExample`).
- The mapping-quality column prints each value in decimal with no
  separator (`Render.MapqColumn`), which is ambiguous
  (`Render.MapqColumnAmbiguous`).
- A BED line with a non-numeric start or end aborts the whole parse with an
  error (`Regions.ParseBedMeaning`).
- Nothing in `Region::from_str` checks that the start lies before the end
  (`Regions.FromStrAcceptsReversed`).

## Model

| member | source | states |
|---|---|---|
| Bam.BaseCharCases | src/nanopileup.rs:94-95 | the code table `=ACMGRSVTWYHKDBN` maps code 0, and only code 0, to '='; every other code maps to an upper-case letter |
| Moves.MoveFold | src/nanopileup.rs:66-78 | after the walk over the flags, the base index is the number of flags equal to 1, minus one; there is one count per query base |
| Moves.MoveCountsSumBound | src/nanopileup.rs:71-78 | the counts add up to at most the number of flags |
| Moves.MoveCountsSumExact | src/nanopileup.rs:71-78 | the counts add up to exactly the number of flags when the first flag is 1 and no more bases are opened than the read has |
| Moves.MoveCountsPositive | src/nanopileup.rs:71-78 | base k gets a non-zero count if and only if at least k+1 flags equal 1 |
| Moves.SumReverse | src/nanopileup.rs:80-82 | reversing the counts keeps their total |
| Moves.DecodedMovesShape | src/nanopileup.rs:57-86 | the result is Some iff the tag holds more than its stride header; then it has qlen entries, totals at most the number of flags, and for a reverse-strand read is the forward counts read from the back |
| Moves.MoveExample | src/nanopileup.rs:61-83 | header skipped, flags 1,0,1,1,0 over three bases give 2,1,2 |
| Moves.MoveExampleReverse | src/nanopileup.rs:61-83 | flags 1,1,0,0,1 over four bases give 1,3,1,0 forward and 0,1,3,1 reverse; an unopened base keeps 0 |
| Moves.ReverseInPlace | src/nanopileup.rs:80-82 | `counts.reverse()`: the array afterwards is the old contents reversed |
| Moves.DecodeMoves | src/nanopileup.rs:57-86 | the in-place counting loop and reversal compute `DecodedMoves` |
| Decode.MatchRun | src/nanopileup.rs:90-118 | a run of M, = or X advances both cursors by its length and keeps the slot count |
| Decode.InsBases | src/nanopileup.rs:124-130 | an insertion string has one base per consumed query position |
| Decode.Step | src/nanopileup.rs:88-175 | each CIGAR kind moves the reference cursor by `RefAdvance` and the query cursor by `QueryAdvance` (M/=/X both, I/S query only, D/N reference only, H/P neither) and keeps the slot count |
| Decode.WalkOps | src/nanopileup.rs:88-175 | the whole CIGAR moves the cursors by the reference and query lengths of the CIGAR |
| Decode.FirstSome | src/nanopileup.rs:179-181 | `find_map` finds the first filled slot, or None when every slot is empty |
| Decode.LastSome | src/nanopileup.rs:183-185 | the reverse `find_map` finds the last filled slot, or None when every slot is empty |
| Decode.AlignedPairs | src/nanopileup.rs:88-118 | every (reference, query) pair of an aligned base lies within the CIGAR's reference and query spans |
| Decode.MatchRunSlots | src/nanopileup.rs:93-117 | a run writes slot k if and only if k lies inside the run's reference window, and then with the run's query base; writes happen only at in-bounds indices |
| Decode.InsMovesSlice | src/nanopileup.rs:131-137 | the move counts an insertion appends are those of its consumed query bases |
| Decode.InsertionAnchors | src/nanopileup.rs:119-151 | I advances only the query cursor and changes only the anchor slot `ref_pos - 1 - ref_start`, and only when that slot is in bounds and filled; the slot then gets the consumed bases as insertion and their move counts appended to existing move values |
| Decode.DeletionAnchors | src/nanopileup.rs:152-165 | D advances only the reference cursor and changes only a filled in-bounds anchor slot, which records `deletion_len = len` and one extra move value 0 when it had move values |
| Decode.InsertionKeepsBases | src/nanopileup.rs:119-151 | an insertion never fills or empties a slot and never changes a slot's base, quality or strand |
| Decode.DeletionKeepsBases | src/nanopileup.rs:152-165 | a deletion never fills or empties a slot and never changes a slot's base, quality or strand |
| Decode.MatchRunShows | src/nanopileup.rs:90-118 | a run over fresh reference positions adds exactly its aligned pairs to what the slots show |
| Decode.StepShows | src/nanopileup.rs:88-175 | one operation adds exactly its own aligned pairs to what the slots show |
| Decode.WalkShows | src/nanopileup.rs:88-175 | after the CIGAR loop, the slots show exactly the CIGAR's aligned pairs and carry no end marks |
| Decode.MarkEndsExact | src/nanopileup.rs:177-185 | exactly the first filled slot becomes the head and exactly the last becomes the tail (one slot can be both); nothing else changes |
| Decode.DecodeShape | src/nanopileup.rs:31-50 | the decoded read keeps the record's id, start, end and mapping quality, and has `RefLen` slots, or none at all for a record without sequence |
| Decode.DecodedSlots | src/nanopileup.rs:48-194 | the slots of a decoded read are the walk's slots with the end marks applied |
| Decode.DecodeSlots | src/nanopileup.rs:88-118 | slot k is filled if and only if position `pos + k` is aligned to a query base; it then carries that base, its quality, the strand and the mapping quality |
| Decode.DecodeEnds | src/nanopileup.rs:177-185 | a filled slot is the head iff no earlier slot is filled, and the tail iff no later one is |
| Decode.DecodeSlotMapq | src/nanopileup.rs:100-112 | every filled slot carries the record's mapping quality |
| Decode.ApplyMatch | src/nanopileup.rs:90-118 | the in-place loop over a run computes `MatchRun` |
| Decode.ApplyInsertion | src/nanopileup.rs:119-151 | the in-place insertion step computes `Insertion` |
| Decode.ApplyDeletion | src/nanopileup.rs:152-165 | the in-place deletion step computes `Deletion` |
| Decode.MarkHeadAndTail | src/nanopileup.rs:177-185 | the two in-place searches compute `MarkEnds` |
| Decode.ApplyOp | src/nanopileup.rs:89-174 | one pass of the CIGAR loop computes `Step` |
| Decode.WalkCigar | src/nanopileup.rs:88-175 | the CIGAR loop over the slot array computes `WalkOps` |
| Decode.DecodeRead | src/nanopileup.rs:31-194 | `CachedRead::new` computes `DecodeSpec` (all of whose properties are above) |
| ReadOrder.LexLessIrreflexive | src/nanopileup.rs:370 | the string order used by `sort` is irreflexive |
| ReadOrder.LexLessAsymmetric | src/nanopileup.rs:370 | the order is asymmetric |
| ReadOrder.LexLessTransitive | src/nanopileup.rs:370 | the order is transitive |
| ReadOrder.LexLessTotal | src/nanopileup.rs:370 | any two different strings are ordered one way or the other |
| ReadOrder.InsertSorted | src/nanopileup.rs:369-370 | inserting an id into a sorted vector keeps it sorted, adds exactly that id, and adds one to its length |
| ReadOrder.SortedKeys | src/nanopileup.rs:369-370 | the sorted enumeration of the keys is strictly sorted and holds exactly the keys |
| ReadOrder.SortedUnique | src/nanopileup.rs:369-370 | a strictly sorted vector is determined by its elements, so the scan order is deterministic |
| ReadOrder.SortIds | src/nanopileup.rs:369-370 | collecting and sorting the keys gives the sorted enumeration |
| Cache.SatSub | src/nanopileup.rs:298 | `saturating_sub` is the difference, or 0 when it would go negative |
| Cache.Pruned | src/nanopileup.rs:208-210 | pruning keeps exactly the entries with `ref_end > min_ref_pos`, and those unchanged |
| Cache.PruneTwice | src/nanopileup.rs:208-210 | pruning twice is pruning once at the larger bound |
| Cache.IngestKeeps | src/nanopileup.rs:313-315 | ingest never replaces or drops a cached read |
| Cache.IngestHas | src/nanopileup.rs:312-334 | a name the cache lacked is present after ingest iff some fetched record with that name passes the window, mapping-quality and flag filters |
| Cache.IngestFirst | src/nanopileup.rs:312-334 | such a name maps to the decoding of the first admitted record with that name |
| Cache.FirstAdmittedOf | src/nanopileup.rs:312-334 | when some fetched record with a name passes the filters, there is a first such record |
| Cache.IngestKeyedById | src/nanopileup.rs:312-334 | every cached read stays filed under its own query name |
| Cache.IngestCovered | src/nanopileup.rs:313-315 | when every admitted record is already cached, ingest changes nothing |
| Cache.IngestIdempotent | src/nanopileup.rs:308-335 | ingesting the same records twice is the same as ingesting them once |
| Cache.ReadCache.constructor | src/nanopileup.rs:202-206 | a new cache is empty |
| Cache.ReadCache.Prune | src/nanopileup.rs:208-210 | `prune` replaces the entries by `Pruned` of the old ones |
| Cache.ReadCache.Ingest | src/nanopileup.rs:308-335 | the fetch loop, checking the cache and then each filter in the source's order, computes `IngestAll` |
| Pileup.NewPos | src/nanopileup.rs:226-251 | a new position has depth 0 and an empty vector exactly for each enabled output |
| Pileup.RefBase | src/nanopileup.rs:345-354 | the reference base is the reference character at the offset, or 'N' without a reference or past its end |
| Pileup.Contributors | src/nanopileup.rs:372-381 | the contributing reads are exactly those cached reads that cover the position with a filled slot of quality at least `min_baseq`, in visiting order |
| Pileup.ColumnContents | src/nanopileup.rs:365-473 | the scan builds exactly the column of the contributing reads: their base strings in order, with each enabled vector in step |
| Pileup.ColumnStep | src/nanopileup.rs:436-469 | one contributing read extends the base strings and every enabled vector by that read's entries |
| Pileup.ColumnDepth | src/nanopileup.rs:369-381 | in sorted id order, the depth is the number of cached reads that contribute at the position |
| Pileup.ColumnShape | src/nanopileup.rs:355-473 | a column has the requested chromosome and position, `depth == bases.len()`, and every enabled vector of that length |
| Pileup.BaseStringHeadMarker | src/nanopileup.rs:386-390 | a base string starts with '^' iff the slot is the read's head |
| Pileup.BaseStringTailMarker | src/nanopileup.rs:432-434 | a base string ends with '$' iff the slot is the read's tail, for a reference without '$' |
| Pileup.BaseStringExamples | src/nanopileup.rs:385-434 | examples: '=' prints `.` forward and `,` reverse; 'G' prints `G` forward and `g` reverse; a head with mapq 30 prints `^?.`; an insertion `AC` prints `.+2AC` forward and `,+2ac` reverse; a tail prints `.$` |
| Pileup.BaseStringCalled | src/nanopileup.rs:392-404 | for every slot, the character right after the head marker is '.' or ',' for '=' by strand, else the base, lower-cased on the reverse strand |
| Pileup.InsPartChars | src/nanopileup.rs:407-416 | the insertion text is '+', then its length in decimal, then each inserted base upper-cased forward and lower-cased reverse |
| Pileup.BaseStringInsertion | src/nanopileup.rs:392-416 | for every slot, the insertion text follows the called base at once |
| Pileup.DeletionExample | src/nanopileup.rs:419-429 | a deletion of three bases prints '-', 3 and the three deleted reference bases |
| Pileup.BuildMvText | src/nanopileup.rs:454-468 | the mv-string loop computes `MvText`: the values joined with ",+", or "0" without move values |
| Pileup.PushHead | src/nanopileup.rs:386-390 | the start-marker pushes append the head part |
| Pileup.PushInsertion | src/nanopileup.rs:407-416 | the insertion pushes append the insertion part |
| Pileup.PushDeletion | src/nanopileup.rs:419-429 | the deletion pushes append the deletion part |
| Pileup.BuildBaseString | src/nanopileup.rs:383-434 | the pushes together build `BaseString` |
| Pileup.ScanRead | src/nanopileup.rs:373-470 | one read of the scan loop computes `AddRead` |
| Pileup.ScanPosition | src/nanopileup.rs:355-473 | the scan of one position computes `Column` |
| Driver.WindowCache | src/nanopileup.rs:308-340 | the refilled and pruned cache keeps every head printable |
| Driver.WindowStep | src/nanopileup.rs:308-340 | the refill-and-prune step is defined on every printable cache and keeps it printable |
| Driver.Schedule | src/nanopileup.rs:294-296 | every visit of the window loop carries a printable cache and a position at or after the window start |
| Driver.SchedulePositions | src/nanopileup.rs:294-296 | the windows visit every position of the region once, in increasing order |
| Driver.NthStart | src/nanopileup.rs:294 | the k-th step of `step_by` is at or after the start, and a full step past it once k > 0 |
| Driver.NthStartIs | src/nanopileup.rs:294 | the k-th window of `step_by(buffer_size)` starts at `start + k * buffer_size` |
| Driver.Carried | src/nanopileup.rs:294-340 | the cache carried past k windows is always printable |
| Driver.CarriedNext | src/nanopileup.rs:294-340 | the cache carried past k+1 windows is the window step applied to the cache carried past k, at the k-th window start |
| Driver.ScheduleAt | src/nanopileup.rs:294-343 | the visits of one window all read the refilled and pruned cache, and the visits after it are the schedule of the next window |
| Driver.ScheduleCache | src/nanopileup.rs:294-343 | a position inside the k-th window is visited with the window step applied to the cache carried past k windows, at the k-th start |
| Driver.ScheduleCacheLater | src/nanopileup.rs:294-343 | the same for k > 0, by stepping past the first window |
| Driver.CacheBefore | src/nanopileup.rs:287-340 | the cache carried into window k, empty for the first and the previous window's scanned cache after it, is printable |
| Driver.ScannedCache | src/nanopileup.rs:308-340 | the cache window k scans, its carried cache refilled from its fetch and pruned at its start, is printable |
| Driver.CacheBeforeIs | src/nanopileup.rs:287-340 | the cache carried past k windows by the loop is `CacheBefore` of k |
| Driver.WindowOf | src/nanopileup.rs:294-296 | a position lies in window `(pos - start) / buffer_size`, which starts at `start + (pos - start) / buffer_size * buffer_size` |
| Driver.VisitAt | src/nanopileup.rs:294-343 | the visit for a position is at that position and reads the scanned cache of the window holding it |
| Driver.OutputAt | src/nanopileup.rs:343-474 | each output column is the sorted scan of its visit's cache at its visit's position |
| Driver.OutputShape | src/nanopileup.rs:294-474 | the output has one column per position of `[start, end)`, in increasing order, each for the region's chromosome and in step |
| Driver.OutputColumn | src/nanopileup.rs:294-474 | the column for a position is the sorted-order scan over the cache of window `(pos - start) / buffer_size`, at `start + (pos - start) / buffer_size * buffer_size` and holding the position, which is the cache carried into it refilled from its fetch and pruned at its start |
| Driver.ColumnReads | src/nanopileup.rs:369-381 | every read the scan keeps is cached, its slot at the position is filled, and its quality is at least `min_baseq` |
| Driver.IngestPrunedShows | src/nanopileup.rs:308-340 | a read not carried in is in the pruned cache with a kept slot iff the first record of that name the filters admit decodes to a read ending after the window start whose slot passes |
| Driver.WindowCacheShows | src/nanopileup.rs:308-381 | a read is in the window cache and kept at a position iff it was carried in and not pruned, or was admitted by the window's fetch and not pruned, and its slot there is filled with quality at least `min_baseq` |
| Driver.OutputReads | src/nanopileup.rs:294-474 | the column for a position holds one base string per read, in sorted-name order, and a read is among them iff it shows at the position by `ShowsAt` over its window |
| Driver.FillWindow | src/nanopileup.rs:308-340 | the ingest and prune steps leave the cache equal to `WindowCache` |
| Driver.ScanWindow | src/nanopileup.rs:343-474 | the positions of a window are scanned in order over the window's cache |
| Driver.RunWindow | src/nanopileup.rs:294-475 | one window emits exactly the next visits of the schedule |
| Driver.RunFrom | src/nanopileup.rs:294-475 | the window loop emits exactly the schedule |
| Driver.Nanopileup | src/nanopileup.rs:254-478 | `nanopileup` returns `Output`, whose shape, columns and reads are stated above |
| Regions.FromStrFormatError | src/region.rs:29-33 | the parser reports a malformed region iff the comma-free string has other than one ':' |
| Regions.FromStrCoordinates | src/region.rs:35-50 | a successful parse has one ':' and one '-', keeps the chromosome, and has a 1-based start one above the start and an end equal to the end |
| Regions.FromStrIgnoresComma | src/region.rs:29 | a comma anywhere in the string changes nothing |
| Regions.FromStrOfFormat | src/region.rs:27-51 | printing a region as `chrom:start+1-end` and parsing it gives the region back |
| Regions.FromStrAcceptsReversed | src/region.rs:50 | "chr1:10-5" is accepted as start 9, end 5 |
| Regions.FromStrZeroStart | src/region.rs:43-47 | a 1-based start of 0 is refused, whatever the end |
| Regions.FirstFailure | src/region.rs:70-71 | no error is found iff no line fails |
| Regions.ParseBedMeaning | src/region.rs:59-75 | the parse fails with the error of the first failing line; otherwise it gives the regions of the accepted lines, in file order, coordinates unchanged |
| Regions.BedSkipsBlankAndComment | src/region.rs:61-63 | blank lines and lines starting with '#' are skipped |
| Regions.BedSkipsShort | src/region.rs:64-67 | other lines with fewer than three fields are skipped |
| Regions.BedLineOfFields | src/region.rs:64-73 | a line `chrom start end ...` reads back as that region, coordinates unchanged |
| Regions.ParseBedKeepsError | src/region.rs:70-71 | once a line has failed, later lines change nothing |
| Regions.ParseBedLines | src/region.rs:59-75 | the line loop pushing regions computes `ParseBed` |
| Render.QualColumn | src/main.rs:160-165 | one character per base quality, which minus 33 gives the quality back |
| Render.RowFields | src/main.rs:134-170 | a row has the five fixed columns plus one per enabled output |
| Render.RenderRow | src/main.rs:133-172 | the `format!` and the tab-and-column pushes build `Row`: the columns joined by tabs |
| Render.PushColumn | src/main.rs:145-170 | pushing a tab and a column adds that column to the joined row |
| Render.RenderRows | src/main.rs:133-172 | one line per result, in order |
| Render.RowColumns | src/main.rs:134-170 | splitting a printed row at its tabs gives back its columns |
| Render.RowFixedColumns | src/main.rs:136-143 | the columns read back as chromosome, 1-based position `pos + 1`, reference base, depth and bases |
| Render.RowOptionalColumns | src/main.rs:145-170 | the optional columns sit in the order names, mapq, qualities, moves; names split back at ',', qualities decode as character minus 33, moves split back at ';' |
| Render.MapqColumnDigits | src/main.rs:151-156 | with every mapping quality below 10 the column is one decimal digit per read |
| Render.MapqColumnAmbiguous | src/main.rs:151-156 | the mapping qualities 1, 23 and 12, 3 print the same column "123" |
| Text.ParseUsizeOfNatToString | src/region.rs:40-41 | parsing a printed number gives it back |
| Text.ParseUsizeRejectsNonDigit | src/region.rs:40-41 | a string with a character that is neither a digit nor a leading '+' is not a usize |
| Text.JoinSplit | src/region.rs:30-35 | joining the parts of a split with the separator restores the string |
| Text.SplitJoin | src/main.rs:147 | splitting a join gives back the parts when no part holds the separator |
| Text.BlankIffNoFields | src/region.rs:61-64 | a line is blank after trimming iff it has no whitespace-separated fields |
| Text.FieldsOfJoin | src/region.rs:64 | splitting at whitespace undoes joining tokens with one whitespace character |

## Left out

- htslib I/O is not modelled: opening the BAM and its index, `fetch`, record iteration, `record.aux` and the FASTA reader. The fetch is a function parameter `Fetch` from (chromosome, start, end) to the records in file order. The reference is an `Option<string>` fetched once for the region.
- Errors from record iteration and from the FASTA reader (the `?` on those calls) are not modelled: the fetch oracle always answers.
- `Driver.Nanopileup`: requires `buffer_size > 0`, because `step_by(0)` panics.
- `Driver.FetchOk`: every fetched record has `|qual| == |seq|` and a CIGAR that consumes no more query bases than the sequence has. Records that break this would make `encoded_base` or `qual[query_pos]` panic.
- `Driver.FetchOk`, `Pileup.PushHead`, `Pileup.BuildBaseString`: require `mapq <= 222`, because `mapq + 33` overflows `u8` above that. The overflow itself (a panic, or wrap-around in a release build) is not modelled.
- `Render.RenderRow`, `Render.QualColumn`: require every base quality to be at most 222, for the same reason with `q + 33`.
- 64-bit arithmetic is not modelled. Positions and lengths are unbounded integers, and `i64`/`usize`/`u32` overflow and the `as usize` casts of reference offsets are absent. The cast of a negative offset is modelled as out of range, since that is where it ends up. `usize::MAX` is kept in `Text.ParseUsize`.
- Query names are Dafny strings. `from_utf8_lossy` is not modelled.
- The `mv` tag is an optional byte sequence. An `i8` array cast to `u8` and a tag of any other type (read as empty) are both covered by that input, not decoded from raw aux data.
- `parse_bed_file` reads a file and splits it into lines with `BufRead::lines`; the model starts from the sequence of lines. File-open and read errors are left out.
- The command line (src/main.rs:8-131), the Python binding (src/python.rs) and the test script (test.py) are not part of this model.
- `println!` is not modelled: `Render.RenderRows` returns the lines without their newlines.
- `Render.RowOptionalColumns`: split-back is stated only for non-empty name and move lists. An empty list prints an empty column, which splits to one empty part.
- `Pileup.RefBase`, `Pileup.DeletedBases`: the reference is taken to be ASCII. The source indexes its bytes (`as_bytes()[offset]` and a byte slice `seq[start..end]`), which agree with the character offsets of the model only for ASCII text; a non-ASCII reference could also make the slice panic off a character boundary.
- `Pileup.BaseStringTailMarker`: stated for a reference without '$' and for slots decoded from the code table, since a deleted reference base '$' would also end the string.
- The read-id order is a lexicographic comparison of Unicode scalar values. For valid UTF-8 this is the byte order `sort` uses on `String`.
