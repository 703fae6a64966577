/** The read loop of the fragment aggregator (`program_main`): records are
    filtered, the open chromosome is flushed and reset when an accepted
    record names another reference, and the leading mate of each pair is
    added to the bin of its midpoint. A final flush follows the stream. */
module Aggregation {
  import opened SamRecord
  import opened Median
  import opened Filter
  import opened Rounding
  import opened Flush

  datatype Option<T> = None | Some(value: T)

  /** The options of a run: the filter, the output, and `--bin-size`
      (0 disables binning). */
  datatype Config = Config(criteria: Criteria, sink: Sink, binSize: nat)

  /** The defaults set before option parsing: bin size 50, minimum mapping
      quality 50, no length bounds, reads minimum 0, console output. */
  const DEFAULT_CONFIG := Config(DEFAULT_CRITERIA, Sink(false, false, 0), 50)

  /** The records the model takes: reference ids are -1 or name a header
      entry, positions are -1 or more, template lengths fit a 32-bit `int`,
      and a midpoint plus one bin fits the `int` parameter of
      `roundPosition`. */
  predicate Admissible(r: Record, nTargets: nat, binSize: nat) {
    && -1 <= r.tid < nTargets
    && -1 <= r.pos
    && -INT32_MAX - 1 <= r.isize <= INT32_MAX
    && r.pos + Abs(r.isize) / 2 + binSize <= INT32_MAX
  }

  predicate AllAdmissible(records: seq<Record>, nTargets: nat, binSize: nat) {
    forall i :: 0 <= i < |records| ==> Admissible(records[i], nTargets, binSize)
  }

  /** Every bin holds one length per read, each a positive 32-bit length. */
  predicate BinValid(b: Bin) {
    && b.readCount == |b.lengths| >= 1
    && forall i :: 0 <= i < |b.lengths| ==> 1 <= b.lengths[i] <= INT32_MAX
  }

  /** The key list and the map agree: the keys are distinct, and a key is
      listed exactly when the map holds a bin for it. */
  predicate AggregateValid(agg: Aggregate) {
    && (forall i, j :: 0 <= i < j < |agg.keys| ==> agg.keys[i] != agg.keys[j])
    && (forall k :: k in agg.positions ==> k in agg.keys)
    && (forall i :: 0 <= i < |agg.keys| ==> agg.keys[i] in agg.positions)
    && (forall k :: k in agg.positions ==> BinValid(agg.positions[k]))
  }

  lemma ValidBinsFit(agg: Aggregate)
    requires AggregateValid(agg)
    ensures BinsFit(agg)
  {
  }

  /** The state of the read loop: the open chromosome (-1 for none), its
      bins, the counters and the rows written so far. */
  datatype Session = Session(current: int, agg: Aggregate, counters: Counters, out: seq<Row>)

  const START := Session(-1, EMPTY_AGGREGATE, NO_COUNTS, [])

  predicate Valid(s: Session, nTargets: nat) {
    -1 <= s.current < nTargets && AggregateValid(s.agg)
  }

  /** The bin key of a leading mate: its midpoint `pos + isize / 2`,
      rounded to the bin size unless that is 0. With a bin size of 2 or
      more the key is the one multiple of the bin size in the half-open
      window `(midpoint - binSize/2, midpoint + binSize - binSize/2]`
      (see `RoundPositionUnique`), so half a bin rounds up. */
  function BinKey(r: Record, binSize: nat): (key: nat)
    requires 0 <= r.pos && 1 <= r.isize
    ensures binSize <= 1 ==> key == r.pos + r.isize / 2
    ensures binSize != 0 ==> key % binSize == 0
    ensures binSize >= 2 ==> r.pos + r.isize / 2 - binSize / 2 < key <= r.pos + r.isize / 2 + (binSize - binSize / 2)
  {
    var midpoint := r.pos + r.isize / 2;
    if binSize != 0 then
      RoundPositionIsMultiple(midpoint, binSize);
      RoundPosition(midpoint, binSize)
    else midpoint
  }

  /** Any multiple of the bin size in the half-open window around the
      midpoint is the bin key: the key is the bin the midpoint rounds to. */
  lemma BinKeyUnique(r: Record, binSize: nat, m: int)
    requires 0 <= r.pos && 1 <= r.isize && 2 <= binSize
    requires m % binSize == 0
    requires r.pos + r.isize / 2 - binSize / 2 < m <= r.pos + r.isize / 2 + (binSize - binSize / 2)
    ensures m == BinKey(r, binSize)
  {
    RoundPositionUnique(r.pos + r.isize / 2, binSize, m);
  }

  /** A fragment at 100 with template length 50 has its midpoint at 125,
      half a bin past 100 with the default bin size of 50: it goes to the
      bin at 150. */
  lemma BinKeyTieExample()
    ensures BinKey(Record(0, 0, 100, 50, 30, 0), 50) == 150
  {
    BinKeyUnique(Record(0, 0, 100, 50, 30, 0), 50, 150);
  }

  /** Adding one fragment length to the bin of `key`: a key not yet in the
      map is appended to the key list and gets a fresh bin. */
  function AddFragment(agg: Aggregate, key: nat, length: nat): (res: Aggregate)
    requires AggregateValid(agg) && 1 <= length <= INT32_MAX
    ensures AggregateValid(res)
    ensures key in agg.positions ==> res.keys == agg.keys
    ensures key !in agg.positions ==> res.keys == agg.keys + [key]
    ensures res.positions.Keys == agg.positions.Keys + {key}
    ensures BinAt(res, key) == Bin(BinAt(agg, key).readCount + 1, BinAt(agg, key).lengths + [length])
    ensures forall k :: k != key ==> BinAt(res, k) == BinAt(agg, k)
  {
    var isNew := BinAt(agg, key).readCount == 0;
    var info := if isNew then Bin(0, []) else agg.positions[key];
    var keys := if isNew then agg.keys + [key] else agg.keys;
    if isNew then
      DistinctAppend(agg.keys, key);
      Aggregate(agg.positions[key := Bin(1, [length])], keys)
    else
      GrownBinValid(info, length);
      Aggregate(agg.positions[key := Bin(info.readCount + 1, info.lengths + [length])], keys)
  }

  lemma DistinctAppend(keys: seq<nat>, key: nat)
    requires forall i, j :: 0 <= i < j < |keys| ==> keys[i] != keys[j]
    requires key !in keys
    ensures forall i, j :: 0 <= i < j < |keys + [key]| ==> (keys + [key])[i] != (keys + [key])[j]
  {
  }

  lemma GrownBinValid(b: Bin, length: nat)
    requires BinValid(b) && 1 <= length <= INT32_MAX
    ensures BinValid(Bin(b.readCount + 1, b.lengths + [length]))
  {
  }

  /** An accepted record closes the open chromosome when one is open and
      the record names another reference. */
  predicate Switches(s: Session, r: Record) {
    s.current != -1 && r.tid != s.current
  }

  /** One record through the read loop. */
  function Step(cfg: Config, names: seq<string>, s: Session, r: Record): (t: Session)
    requires Valid(s, |names|) && Admissible(r, |names|, cfg.binSize)
    requires Classify(r, cfg.criteria) == Accept && Switches(s, r) ==> GapFillEnds(cfg.sink, s.agg)
    ensures Valid(t, |names|)
    ensures t.counters == Tally(s.counters, Classify(r, cfg.criteria))
    ensures s.out <= t.out
  {
    var verdict := Classify(r, cfg.criteria);
    var counters := Tally(s.counters, verdict);
    if verdict != Accept then s.(counters := counters)
    else
      var entered :=
        if Switches(s, r) then
          ValidBinsFit(s.agg);
          Session(r.tid, EMPTY_AGGREGATE, counters, s.out + FlushRows(cfg.sink, names[s.current], s.agg))
        else Session(r.tid, s.agg, counters, s.out);
      if r.isize < 1 then entered
      else entered.(agg := AddFragment(entered.agg, BinKey(r, cfg.binSize), r.isize))
  }

  /** A dropped record changes the counters and nothing else: not the open
      chromosome, not its bins, not the rows written. */
  lemma StepDropped(cfg: Config, names: seq<string>, s: Session, r: Record)
    requires Valid(s, |names|) && Admissible(r, |names|, cfg.binSize)
    requires Classify(r, cfg.criteria) != Accept
    ensures Step(cfg, names, s, r) == s.(counters := Tally(s.counters, Classify(r, cfg.criteria)))
  {
  }

  /** An accepted record on another reference writes the open chromosome's
      rows, opens the record's chromosome with empty bins and then adds the
      record; a record with a negative template length still switches. */
  lemma StepSwitch(cfg: Config, names: seq<string>, s: Session, r: Record)
    requires Valid(s, |names|) && Admissible(r, |names|, cfg.binSize)
    requires Classify(r, cfg.criteria) == Accept && Switches(s, r) && GapFillEnds(cfg.sink, s.agg)
    ensures BinsFit(s.agg)
    ensures Step(cfg, names, s, r).current == r.tid
    ensures Step(cfg, names, s, r).out == s.out + FlushRows(cfg.sink, names[s.current], s.agg)
    ensures r.isize < 1 ==> Step(cfg, names, s, r).agg == EMPTY_AGGREGATE
    ensures r.isize >= 1 ==> Step(cfg, names, s, r).agg == AddFragment(EMPTY_AGGREGATE, BinKey(r, cfg.binSize), r.isize)
  {
    ValidBinsFit(s.agg);
  }

  /** An accepted record on the open chromosome (or the first accepted
      record) writes nothing; only a leading mate (positive template
      length) is added to a bin. */
  lemma StepStay(cfg: Config, names: seq<string>, s: Session, r: Record)
    requires Valid(s, |names|) && Admissible(r, |names|, cfg.binSize)
    requires Classify(r, cfg.criteria) == Accept && !Switches(s, r)
    ensures Step(cfg, names, s, r).current == r.tid
    ensures Step(cfg, names, s, r).out == s.out
    ensures r.isize < 1 ==> Step(cfg, names, s, r).agg == s.agg
    ensures r.isize >= 1 ==> Step(cfg, names, s, r).agg == AddFragment(s.agg, BinKey(r, cfg.binSize), r.isize)
  {
  }

  /** Whether the flush that `r` would trigger runs away in its fill-in. */
  predicate Stalls(cfg: Config, s: Session, r: Record) {
    Classify(r, cfg.criteria) == Accept && Switches(s, r) && !GapFillEnds(cfg.sink, s.agg)
  }

  /** Feeding records to the read loop from state `s0`; `None` when some
      flush on the way would run away in its fill-in. Every record is
      counted, and rows once written are never taken back. */
  function Feed(cfg: Config, names: seq<string>, s0: Session, records: seq<Record>): (res: Option<Session>)
    requires Valid(s0, |names|) && AllAdmissible(records, |names|, cfg.binSize)
    ensures res.Some? ==> Valid(res.value, |names|)
    ensures res.Some? ==> res.value.counters.total == s0.counters.total + |records|
    ensures res.Some? ==> s0.out <= res.value.out
    decreases |records|
  {
    if records == [] then Some(s0)
    else
      var last := records[|records| - 1];
      match Feed(cfg, names, s0, records[..|records| - 1])
      case None => None
      case Some(s) => if Stalls(cfg, s, last) then None else Some(Step(cfg, names, s, last))
  }

  /** The flush after the stream ends. With no chromosome open the C code
      would index the header with -1; the model writes nothing there. It
      runs away exactly when the open chromosome's fill-in would, and
      otherwise writes one data row per written bin of that chromosome. */
  function FinalFlush(cfg: Config, names: seq<string>, s: Session): (tail: Option<seq<Row>>)
    requires Valid(s, |names|)
    ensures tail.None? <==> s.current != -1 && !GapFillEnds(cfg.sink, s.agg)
    ensures s.current == -1 ==> tail == Some([])
    ensures tail.Some? && s.current != -1 ==>
      && BinsFit(s.agg)
      && KindsMatch(cfg.sink, tail.value)
      && WithoutGaps(tail.value) == DataRows(cfg.sink, names[s.current], s.agg, ShownKeys(s.agg, cfg.sink.readsMin, |s.agg.keys|))
  {
    if s.current == -1 then Some([])
    else if !GapFillEnds(cfg.sink, s.agg) then None
    else
      ValidBinsFit(s.agg);
      FlushRowsShape(cfg.sink, names[s.current], s.agg);
      Some(FlushRows(cfg.sink, names[s.current], s.agg))
  }

  /** The whole run: every row written and the final counters, or `None`
      when a fill-in runs away. Every record is counted in `total`, and the
      final flush only appends to the rows written while reading. */
  function Run(cfg: Config, names: seq<string>, records: seq<Record>): (res: Option<(seq<Row>, Counters)>)
    requires AllAdmissible(records, |names|, cfg.binSize)
    ensures res.Some? ==> res.value.1.total == |records|
    ensures res.Some? ==> Feed(cfg, names, START, records).Some? && Feed(cfg, names, START, records).value.out <= res.value.0
  {
    match Feed(cfg, names, START, records)
    case None => None
    case Some(s) =>
      match FinalFlush(cfg, names, s)
      case None => None
      case Some(tail) => Some((s.out + tail, s.counters))
  }

  lemma {:induction false} FeedPrefix(cfg: Config, names: seq<string>, s0: Session, records: seq<Record>, k: nat)
    requires Valid(s0, |names|) && AllAdmissible(records, |names|, cfg.binSize)
    requires k <= |records| && Feed(cfg, names, s0, records).Some?
    ensures Feed(cfg, names, s0, records[..k]).Some?
    decreases |records|
  {
    if k < |records| {
      var shorter := records[..|records| - 1];
      FeedPrefix(cfg, names, s0, shorter, k);
      assert shorter[..k] == records[..k];
    } else {
      assert records[..k] == records;
    }
  }

  lemma FeedLast(cfg: Config, names: seq<string>, s0: Session, records: seq<Record>)
    requires Valid(s0, |names|) && AllAdmissible(records, |names|, cfg.binSize)
    requires records != [] && Feed(cfg, names, s0, records).Some?
    ensures Feed(cfg, names, s0, records[..|records| - 1]).Some?
    ensures var s := Feed(cfg, names, s0, records[..|records| - 1]).value;
      !Stalls(cfg, s, records[|records| - 1])
      && Feed(cfg, names, s0, records) == Some(Step(cfg, names, s, records[|records| - 1]))
  {
  }

  /** How many of `records` receive verdict `v`. */
  function CountOf(c: Criteria, records: seq<Record>, v: Verdict): (n: nat)
    ensures n <= |records|
  {
    if records == [] then 0
    else CountOf(c, records[..|records| - 1], v) + (if Classify(records[|records| - 1], c) == v then 1 else 0)
  }

  /** Every record read is counted once in `total`, and each skip counter
      grows by exactly the number of records its filter dropped. */
  lemma {:induction false} FeedCounts(cfg: Config, names: seq<string>, s0: Session, records: seq<Record>)
    requires Valid(s0, |names|) && AllAdmissible(records, |names|, cfg.binSize)
    requires Feed(cfg, names, s0, records).Some?
    ensures var c := Feed(cfg, names, s0, records).value.counters;
      && c.skipped == s0.counters.skipped + CountOf(cfg.criteria, records, SkipQuality)
      && c.noposSkipped == s0.counters.noposSkipped + CountOf(cfg.criteria, records, SkipNoPosition)
      && c.mapqSkipped == s0.counters.mapqSkipped + CountOf(cfg.criteria, records, SkipMapq)
      && c.lenSkipped == s0.counters.lenSkipped + CountOf(cfg.criteria, records, SkipLength)
      && c.rnextSkipped == s0.counters.rnextSkipped + CountOf(cfg.criteria, records, SkipRnext)
    decreases |records|
  {
    if records != [] {
      var prefix := records[..|records| - 1];
      FeedLast(cfg, names, s0, records);
      FeedCounts(cfg, names, s0, prefix);
    }
  }

  /** Every record receives exactly one verdict. */
  lemma {:induction false} VerdictsPartition(c: Criteria, records: seq<Record>)
    ensures CountOf(c, records, Accept) + CountOf(c, records, SkipQuality) + CountOf(c, records, SkipNoPosition)
      + CountOf(c, records, SkipMapq) + CountOf(c, records, SkipLength) + CountOf(c, records, SkipRnext) == |records|
  {
    if records != [] {
      VerdictsPartition(c, records[..|records| - 1]);
    }
  }

  /** The counters fed from the start: `total` is the number of records,
      `total` less every skip counts the accepted records, and the figure
      the summary prints counts the mate-reference skips as well. */
  lemma FeedSummary(cfg: Config, names: seq<string>, records: seq<Record>)
    requires AllAdmissible(records, |names|, cfg.binSize) && Feed(cfg, names, START, records).Some?
    ensures var c := Feed(cfg, names, START, records).value.counters;
      && c.total == |records|
      && Processed(c) == CountOf(cfg.criteria, records, Accept)
      && ProcessedAsWritten(c) == CountOf(cfg.criteria, records, Accept) + CountOf(cfg.criteria, records, SkipRnext)
  {
    var c := Feed(cfg, names, START, records).value.counters;
    assert c.total == |records|;
    FeedCounts(cfg, names, START, records);
    VerdictsPartition(cfg.criteria, records);
  }

  /** A run reports the counters of the fed session. */
  lemma RunCounters(cfg: Config, names: seq<string>, records: seq<Record>)
    requires AllAdmissible(records, |names|, cfg.binSize) && Run(cfg, names, records).Some?
    ensures Feed(cfg, names, START, records).Some?
    ensures Run(cfg, names, records).value.1 == Feed(cfg, names, START, records).value.counters
  {
  }

  /** The counters a run reports: `total` is the number of records, and
      `total` minus the skip counters is the number of accepted records. */
  lemma RunCounts(cfg: Config, names: seq<string>, records: seq<Record>)
    requires AllAdmissible(records, |names|, cfg.binSize) && Run(cfg, names, records).Some?
    ensures Run(cfg, names, records).value.1.total == |records|
    ensures Processed(Run(cfg, names, records).value.1) == CountOf(cfg.criteria, records, Accept)
  {
    RunCounters(cfg, names, records);
    FeedSummary(cfg, names, records);
  }

  /** The summary's "processed" figure as written counts the accepted
      records together with those dropped for their mate's reference. */
  lemma RunProcessedAsWritten(cfg: Config, names: seq<string>, records: seq<Record>)
    requires AllAdmissible(records, |names|, cfg.binSize) && Run(cfg, names, records).Some?
    ensures ProcessedAsWritten(Run(cfg, names, records).value.1)
      == CountOf(cfg.criteria, records, Accept) + CountOf(cfg.criteria, records, SkipRnext)
  {
    RunCounters(cfg, names, records);
    FeedSummary(cfg, names, records);
  }

  /** One record whose mate lies on another reference, under the default
      options: it is dropped, yet the summary reports one record
      processed. */
  lemma MateSkipReportedProcessed()
    ensures var records := [Record(0, 1, 1000, 300, 60, READ_PAIRED)];
      && AllAdmissible(records, 2, DEFAULT_CONFIG.binSize)
      && Run(DEFAULT_CONFIG, ["chr1", "chr2"], records).Some?
      && CountOf(DEFAULT_CRITERIA, records, Accept) == 0
      && ProcessedAsWritten(Run(DEFAULT_CONFIG, ["chr1", "chr2"], records).value.1) == 1
      && Processed(Run(DEFAULT_CONFIG, ["chr1", "chr2"], records).value.1) == 0
  {
    var records := [Record(0, 1, 1000, 300, 60, READ_PAIRED)];
    var names := ["chr1", "chr2"];
    assert Classify(records[0], DEFAULT_CRITERIA) == SkipRnext;
    assert records[..0] == [];
    assert CountOf(DEFAULT_CRITERIA, records, Accept) == 0;
    assert CountOf(DEFAULT_CRITERIA, records, SkipRnext) == 1;
    RunOneChromosome(DEFAULT_CONFIG, names, records, 0);
    RunCounts(DEFAULT_CONFIG, names, records);
    RunProcessedAsWritten(DEFAULT_CONFIG, names, records);
  }

  /** The reads held by the bins listed in `keys`. */
  function SumReads(positions: map<nat, Bin>, keys: seq<nat>): nat {
    if keys == [] then 0
    else
      var k := keys[|keys| - 1];
      SumReads(positions, keys[..|keys| - 1]) + (if k in positions then positions[k].readCount else 0)
  }

  lemma {:induction false} SumReadsUnlisted(positions: map<nat, Bin>, keys: seq<nat>, key: nat, b: Bin)
    requires key !in keys
    ensures SumReads(positions[key := b], keys) == SumReads(positions, keys)
  {
    if keys != [] {
      SumReadsUnlisted(positions, keys[..|keys| - 1], key, b);
    }
  }

  lemma {:induction false} SumReadsListed(positions: map<nat, Bin>, keys: seq<nat>, key: nat, b: Bin)
    requires forall i, j :: 0 <= i < j < |keys| ==> keys[i] != keys[j]
    requires key in keys && key in positions
    ensures SumReads(positions[key := b], keys) + positions[key].readCount == SumReads(positions, keys) + b.readCount
  {
    var prefix := keys[..|keys| - 1];
    if keys[|keys| - 1] == key {
      assert key !in prefix;
      SumReadsUnlisted(positions, prefix, key, b);
    } else {
      SumReadsListed(positions, prefix, key, b);
    }
  }

  /** Adding a fragment adds exactly one read to the aggregate. */
  lemma AddFragmentReads(agg: Aggregate, key: nat, length: nat)
    requires AggregateValid(agg) && 1 <= length <= INT32_MAX
    ensures SumReads(AddFragment(agg, key, length).positions, AddFragment(agg, key, length).keys)
      == SumReads(agg.positions, agg.keys) + 1
  {
    var res := AddFragment(agg, key, length);
    if key in agg.positions {
      SumReadsListed(agg.positions, agg.keys, key, res.positions[key]);
    } else {
      assert key !in agg.keys;
      SumReadsUnlisted(agg.positions, agg.keys, key, res.positions[key]);
      assert res.keys[..|res.keys| - 1] == agg.keys;
    }
  }

  /** Every accepted record lies on reference `tid`. */
  predicate OnChromosome(c: Criteria, records: seq<Record>, tid: int) {
    forall i :: 0 <= i < |records| && Classify(records[i], c) == Accept ==> records[i].tid == tid
  }

  /** The accepted leading mates: accepted records with a positive
      template length. */
  function LeadingCount(c: Criteria, records: seq<Record>): (n: nat)
    ensures n <= CountOf(c, records, Accept)
  {
    if records == [] then 0
    else
      var r := records[|records| - 1];
      LeadingCount(c, records[..|records| - 1]) + (if Classify(r, c) == Accept && r.isize >= 1 then 1 else 0)
  }

  /** Records that stay on the open chromosome never flush: nothing is
      written, no flush can stall, and every accepted leading mate adds
      exactly one read to the bins. */
  lemma {:induction false} FeedOneChromosome(cfg: Config, names: seq<string>, s0: Session, records: seq<Record>, tid: int)
    requires Valid(s0, |names|) && AllAdmissible(records, |names|, cfg.binSize)
    requires OnChromosome(cfg.criteria, records, tid) && (s0.current == -1 || s0.current == tid)
    ensures Feed(cfg, names, s0, records).Some?
    ensures var s := Feed(cfg, names, s0, records).value;
      && s.out == s0.out
      && (CountOf(cfg.criteria, records, Accept) == 0 ==> s.current == s0.current && s.agg == s0.agg)
      && (CountOf(cfg.criteria, records, Accept) > 0 ==> s.current == tid)
      && SumReads(s.agg.positions, s.agg.keys) == SumReads(s0.agg.positions, s0.agg.keys) + LeadingCount(cfg.criteria, records)
    decreases |records|
  {
    if records != [] {
      var prefix := records[..|records| - 1];
      var r := records[|records| - 1];
      assert OnChromosome(cfg.criteria, prefix, tid);
      FeedOneChromosome(cfg, names, s0, prefix, tid);
      var s := Feed(cfg, names, s0, prefix).value;
      assert !Switches(s, r) || Classify(r, cfg.criteria) != Accept;
      if Classify(r, cfg.criteria) != Accept {
        StepDropped(cfg, names, s, r);
      } else {
        StepStay(cfg, names, s, r);
        if r.isize >= 1 {
          AddFragmentReads(s.agg, BinKey(r, cfg.binSize), r.isize);
        }
      }
    }
  }

  /** A run over a single chromosome writes only the final flush: the rows
      of one aggregate holding one read per accepted leading mate. (An
      accepted record on reference -1 leaves no chromosome open, and its
      bins are not written.) */
  lemma RunOneChromosome(cfg: Config, names: seq<string>, records: seq<Record>, tid: int)
    requires AllAdmissible(records, |names|, cfg.binSize) && OnChromosome(cfg.criteria, records, tid)
    ensures Feed(cfg, names, START, records).Some?
    ensures var s := Feed(cfg, names, START, records).value;
      SumReads(s.agg.positions, s.agg.keys) == LeadingCount(cfg.criteria, records)
    ensures var s := Feed(cfg, names, START, records).value;
      CountOf(cfg.criteria, records, Accept) == 0 || tid == -1 ==> Run(cfg, names, records) == Some(([], s.counters))
    ensures var s := Feed(cfg, names, START, records).value;
      CountOf(cfg.criteria, records, Accept) > 0 && tid != -1 && GapFillEnds(cfg.sink, s.agg) ==>
        0 <= tid < |names| && BinsFit(s.agg)
        && Run(cfg, names, records) == Some((FlushRows(cfg.sink, names[tid], s.agg), s.counters))
  {
    FeedOneChromosome(cfg, names, START, records, tid);
    var s := Feed(cfg, names, START, records).value;
    ValidBinsFit(s.agg);
    assert s.out == [];
    assert s.current == -1 <==> CountOf(cfg.criteria, records, Accept) == 0 || tid == -1;
    if s.current == -1 {
      assert FinalFlush(cfg, names, s) == Some([]);
      assert Run(cfg, names, records) == Some((s.out + [], s.counters));
      assert s.out + [] == [];
    } else if GapFillEnds(cfg.sink, s.agg) {
      var rows := FlushRows(cfg.sink, names[tid], s.agg);
      assert FinalFlush(cfg, names, s) == Some(rows);
      assert Run(cfg, names, records) == Some((s.out + rows, s.counters));
      assert s.out + rows == rows;
    }
  }

  /** Feeding `a + b` is feeding `a`, then `b` from where `a` left off. */
  lemma {:induction false} FeedAppend(cfg: Config, names: seq<string>, s0: Session, a: seq<Record>, b: seq<Record>)
    requires Valid(s0, |names|)
    requires AllAdmissible(a, |names|, cfg.binSize) && AllAdmissible(b, |names|, cfg.binSize)
    ensures AllAdmissible(a + b, |names|, cfg.binSize)
    ensures Feed(cfg, names, s0, a + b) ==
      match Feed(cfg, names, s0, a)
      case None => None
      case Some(s) => Feed(cfg, names, s, b)
    decreases |b|
  {
    if b == [] {
      assert a + b == a;
    } else {
      var shorter := b[..|b| - 1];
      FeedAppend(cfg, names, s0, a, shorter);
      assert (a + b)[..|a + b| - 1] == a + shorter;
      assert (a + b)[|a + b| - 1] == b[|b| - 1];
    }
  }

  /** Records of chromosome `tid` fed after another chromosome's records:
      until the first accepted one nothing changes; from then on the
      other chromosome's rows have been written and the bins are those a
      fresh run over the same records builds. */
  lemma {:induction false} FeedAfterSwitch(cfg: Config, names: seq<string>, s0: Session, records: seq<Record>, tid: int)
    requires Valid(s0, |names|) && BinsFit(s0.agg) && GapFillEnds(cfg.sink, s0.agg)
    requires AllAdmissible(records, |names|, cfg.binSize) && OnChromosome(cfg.criteria, records, tid)
    requires s0.current != -1 && tid != s0.current && tid != -1
    ensures Feed(cfg, names, s0, records).Some? && Feed(cfg, names, START, records).Some?
    ensures var s := Feed(cfg, names, s0, records).value;
      CountOf(cfg.criteria, records, Accept) == 0 ==> s.current == s0.current && s.agg == s0.agg && s.out == s0.out
    ensures var s, alone := Feed(cfg, names, s0, records).value, Feed(cfg, names, START, records).value;
      CountOf(cfg.criteria, records, Accept) > 0 ==>
        && s.current == tid && s.agg == alone.agg
        && s.out == s0.out + FlushRows(cfg.sink, names[s0.current], s0.agg)
    decreases |records|
  {
    FeedOneChromosome(cfg, names, START, records, tid);
    if records != [] {
      var prefix := records[..|records| - 1];
      var r := records[|records| - 1];
      assert OnChromosome(cfg.criteria, prefix, tid);
      FeedAfterSwitch(cfg, names, s0, prefix, tid);
      FeedOneChromosome(cfg, names, START, prefix, tid);
      var s, alone := Feed(cfg, names, s0, prefix).value, Feed(cfg, names, START, prefix).value;
      if Classify(r, cfg.criteria) != Accept {
        StepDropped(cfg, names, s, r);
        StepDropped(cfg, names, alone, r);
      } else if CountOf(cfg.criteria, prefix, Accept) == 0 {
        assert !Stalls(cfg, s, r);
        StepSwitch(cfg, names, s, r);
        StepStay(cfg, names, alone, r);
      } else {
        StepStay(cfg, names, s, r);
        StepStay(cfg, names, alone, r);
      }
    }
  }

  /** Chromosome isolation: a run over the records of one chromosome
      followed by those of another writes the first chromosome's rows,
      flushed when the second one's first record is accepted, then the
      second one's rows from the final flush; each as a run over its own
      records alone would bin them. */
  lemma RunTwoChromosomes(cfg: Config, names: seq<string>, a: seq<Record>, b: seq<Record>, ta: int, tb: int)
    requires AllAdmissible(a, |names|, cfg.binSize) && AllAdmissible(b, |names|, cfg.binSize)
    requires OnChromosome(cfg.criteria, a, ta) && OnChromosome(cfg.criteria, b, tb)
    requires 0 <= ta < |names| && 0 <= tb < |names| && ta != tb
    requires CountOf(cfg.criteria, a, Accept) > 0 && CountOf(cfg.criteria, b, Accept) > 0
    ensures AllAdmissible(a + b, |names|, cfg.binSize)
    ensures Feed(cfg, names, START, a).Some? && Feed(cfg, names, START, b).Some?
    ensures var sa, sb := Feed(cfg, names, START, a).value, Feed(cfg, names, START, b).value;
      GapFillEnds(cfg.sink, sa.agg) && GapFillEnds(cfg.sink, sb.agg) ==>
        && BinsFit(sa.agg) && BinsFit(sb.agg)
        && Run(cfg, names, a + b).Some?
        && Run(cfg, names, a + b).value.0 == FlushRows(cfg.sink, names[ta], sa.agg) + FlushRows(cfg.sink, names[tb], sb.agg)
  {
    FeedAppend(cfg, names, START, a, b);
    FeedOneChromosome(cfg, names, START, a, ta);
    FeedOneChromosome(cfg, names, START, b, tb);
    var sa, sb := Feed(cfg, names, START, a).value, Feed(cfg, names, START, b).value;
    ValidBinsFit(sa.agg);
    ValidBinsFit(sb.agg);
    if GapFillEnds(cfg.sink, sa.agg) && GapFillEnds(cfg.sink, sb.agg) {
      FeedAfterSwitch(cfg, names, sa, b, tb);
      var s := Feed(cfg, names, sa, b).value;
      assert Feed(cfg, names, START, a + b) == Some(s);
      assert s.out == FlushRows(cfg.sink, names[ta], sa.agg);
      assert FinalFlush(cfg, names, s) == Some(FlushRows(cfg.sink, names[tb], sb.agg));
    }
  }

  /** The bin update of the read loop: a key whose bin reads zero is
      listed and given a fresh bin, then the bin counts the read and keeps
      its length. */
  method RecordFragment(positions: map<nat, Bin>, keys: seq<nat>, markPos: nat, length: nat)
    returns (positions': map<nat, Bin>, keys': seq<nat>)
    requires AggregateValid(Aggregate(positions, keys)) && 1 <= length <= INT32_MAX
    ensures Aggregate(positions', keys') == AddFragment(Aggregate(positions, keys), markPos, length)
  {
    positions', keys' := positions, keys;
    if BinAt(Aggregate(positions', keys'), markPos).readCount == 0 {
      keys' := keys' + [markPos];
      positions' := positions'[markPos := Bin(0, [])];
    }
    positions' := positions'[markPos := Bin(positions'[markPos].readCount + 1, positions'[markPos].lengths + [length])];
  }

  /** An accepted record in the read loop: the chromosome switch with its
      flush and reset, then the bin update for a leading mate. */
  method AcceptRecord(cfg: Config, names: seq<string>, current: int, positions: map<nat, Bin>, keys: seq<nat>,
                      rows: seq<Row>, r: Record, ghost counters: Counters)
    returns (current': int, positions': map<nat, Bin>, keys': seq<nat>, rows': seq<Row>)
    requires Valid(Session(current, Aggregate(positions, keys), counters, rows), |names|)
    requires Admissible(r, |names|, cfg.binSize) && Classify(r, cfg.criteria) == Accept
    requires !Stalls(cfg, Session(current, Aggregate(positions, keys), counters, rows), r)
    ensures Step(cfg, names, Session(current, Aggregate(positions, keys), counters, rows), r)
      == Session(current', Aggregate(positions', keys'), Tally(counters, Accept), rows')
  {
    ghost var s := Session(current, Aggregate(positions, keys), counters, rows);
    ghost var t := Step(cfg, names, s, r);
    if Switches(s, r) {
      StepSwitch(cfg, names, s, r);
    } else {
      StepStay(cfg, names, s, r);
    }
    current', positions', keys', rows' := current, positions, keys, rows;
    if current' == -1 {
      current' := r.tid;
    }
    if r.tid != current' {
      var flushed := FlushOut(cfg.sink, names[current'], Aggregate(positions', keys'));
      rows' := rows' + flushed;
      positions' := map[];
      keys' := [];
      current' := r.tid;
    }
    ghost var entered := Aggregate(positions', keys');
    assert rows' == t.out && current' == t.current;
    assert r.isize < 1 ==> entered == t.agg;
    if r.isize >= 1 {
      var midpoint := r.pos + r.isize / 2;
      var markPos := midpoint;
      if cfg.binSize != 0 {
        markPos := RoundPosition(midpoint, cfg.binSize);
      }
      assert markPos == BinKey(r, cfg.binSize);
      positions', keys' := RecordFragment(positions', keys', markPos, r.isize);
    }
  }

  /** One pass of the read loop: the record is counted, dropped by the
      first filter it fails (charging that filter's counter), or accepted. */
  method ReadRecord(cfg: Config, names: seq<string>, current: int, positions: map<nat, Bin>, keys: seq<nat>,
                    counters: Counters, rows: seq<Row>, r: Record)
    returns (current': int, positions': map<nat, Bin>, keys': seq<nat>, counters': Counters, rows': seq<Row>)
    requires Valid(Session(current, Aggregate(positions, keys), counters, rows), |names|)
    requires Admissible(r, |names|, cfg.binSize)
    requires !Stalls(cfg, Session(current, Aggregate(positions, keys), counters, rows), r)
    ensures Step(cfg, names, Session(current, Aggregate(positions, keys), counters, rows), r)
      == Session(current', Aggregate(positions', keys'), counters', rows')
  {
    ghost var s := Session(current, Aggregate(positions, keys), counters, rows);
    if Classify(r, cfg.criteria) != Accept {
      StepDropped(cfg, names, s, r);
    }
    current', positions', keys', rows' := current, positions, keys, rows;
    counters' := counters.(total := counters.total + 1);
    if !cfg.criteria.includeAll
      && (r.flag & READ_FAILED_QUALITY_CHECKS != 0 || r.flag & READ_PCR_OPTICAL_DUPLICATE != 0) {
      counters' := counters'.(skipped := counters'.skipped + 1);
    } else if r.pos == -1 || r.isize == 0 {
      counters' := counters'.(noposSkipped := counters'.noposSkipped + 1);
    } else if r.qual < cfg.criteria.mapqMin {
      counters' := counters'.(mapqSkipped := counters'.mapqSkipped + 1);
    } else if cfg.criteria.lengthMin != -1 && r.isize < cfg.criteria.lengthMin {
      counters' := counters'.(lenSkipped := counters'.lenSkipped + 1);
    } else if cfg.criteria.lengthMax != -1 && r.isize > cfg.criteria.lengthMax {
      counters' := counters'.(lenSkipped := counters'.lenSkipped + 1);
    } else if !cfg.criteria.rnextIneq && r.mtid != r.tid {
      counters' := counters'.(rnextSkipped := counters'.rnextSkipped + 1);
    } else {
      current', positions', keys', rows' := AcceptRecord(cfg, names, current, positions, keys, rows, r, counters);
    }
  }

  /** The read loop of `program_main` with the final flush after it. */
  method ProgramMain(cfg: Config, names: seq<string>, records: seq<Record>) returns (rows: seq<Row>, counters: Counters)
    requires AllAdmissible(records, |names|, cfg.binSize)
    requires Run(cfg, names, records).Some?
    ensures Run(cfg, names, records) == Some((rows, counters))
  {
    var current := -1;
    var positions: map<nat, Bin> := map[];
    var keys: seq<nat> := [];
    counters := NO_COUNTS;
    rows := [];
    var i := 0;
    assert records[..0] == [];
    assert Feed(cfg, names, START, records[..0]) == Some(START);
    while i < |records|
      invariant 0 <= i <= |records|
      invariant Feed(cfg, names, START, records[..i]) == Some(Session(current, Aggregate(positions, keys), counters, rows))
    {
      var r := records[i];
      ghost var s := Session(current, Aggregate(positions, keys), counters, rows);
      FeedPrefix(cfg, names, START, records, i + 1);
      assert records[..i + 1][..i] == records[..i];
      assert records[..i + 1][i] == r;
      assert !Stalls(cfg, s, r);
      current, positions, keys, counters, rows := ReadRecord(cfg, names, current, positions, keys, counters, rows, r);
      i := i + 1;
    }
    assert records[..i] == records;
    ghost var last := Session(current, Aggregate(positions, keys), counters, rows);
    assert FinalFlush(cfg, names, last).Some?;
    if current != -1 {
      var flushed := FlushOut(cfg.sink, names[current], Aggregate(positions, keys));
      assert FinalFlush(cfg, names, last) == Some(flushed);
      rows := rows + flushed;
    } else {
      assert FinalFlush(cfg, names, last) == Some([]);
      assert rows + [] == rows;
    }
  }
}
