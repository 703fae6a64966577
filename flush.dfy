/** Writing out the bins of one chromosome (`flushOut`): bins in the order
    their keys were first seen, bins below the reads minimum left out, the
    chromosome name without a leading "chr", and, for CSV output with
    fill-in, zero rows for the missing keys in steps of 50. */
module Flush {
  import opened SamRecord
  import opened Median

  /** The statistics of one bin (`position_info`). */
  datatype Bin = Bin(readCount: nat, lengths: seq<nat>)

  /** The bins of the open chromosome: the key-to-bin map and the keys in
      the order they were first seen (`positions`, `position_keys`). */
  datatype Aggregate = Aggregate(positions: map<nat, Bin>, keys: seq<nat>)

  const EMPTY_AGGREGATE := Aggregate(map[], [])

  /** One line of output: a CSV row of a bin, a CSV fill-in row `key,0,0`,
      or a console line. */
  datatype Row =
    | CsvRow(key: nat, readCount: nat, median: real, chromosome: string)
    | GapRow(key: nat)
    | ConsoleRow(key: nat, chromosome: string, readCount: nat, median: real)

  /** The output options: whether a CSV file is written (`--output`),
      `--fill-in` and `--reads-min`. */
  datatype Sink = Sink(csv: bool, fillIn: bool, readsMin: i32)

  /** The fill-in stride, fixed whatever the bin size. */
  const GAP_STRIDE: nat := 50

  /** The displayed chromosome name: a leading "chr" is dropped. */
  function StripChr(name: string): (shown: string)
    ensures |name| >= 3 && name[..3] == "chr" ==> name == "chr" + shown
    ensures !(|name| >= 3 && name[..3] == "chr") ==> shown == name
  {
    if |name| >= 3 && name[..3] == "chr" then name[3..] else name
  }

  /** `positions[key]`: a missing key reads as an empty bin. */
  function BinAt(agg: Aggregate, key: nat): Bin {
    if key in agg.positions then agg.positions[key] else Bin(0, [])
  }

  /** A bin is written unless `reads < reads_min`, where the `int`
      minimum is converted to `uint64_t` for the comparison. */
  predicate Shown(b: Bin, readsMin: i32) {
    !(b.readCount < AsU64(readsMin))
  }

  predicate BinsFit(agg: Aggregate) {
    forall k :: k in agg.positions ==> LengthsFit(agg.positions[k].lengths)
  }

  /** The fill-in loop of every written bin ends: the previous key is
      below the bin's key by a multiple of the stride. */
  predicate GapFillEnds(sink: Sink, agg: Aggregate) {
    sink.csv && sink.fillIn ==>
      forall i :: 0 < i < |agg.keys| && Shown(BinAt(agg, agg.keys[i]), sink.readsMin) ==>
        agg.keys[i - 1] < agg.keys[i] && (agg.keys[i] - agg.keys[i - 1]) % GAP_STRIDE == 0
  }

  lemma StrideStep(d: int)
    requires 0 < d && d % GAP_STRIDE == 0
    ensures GAP_STRIDE <= d && (d - GAP_STRIDE) % GAP_STRIDE == 0
  {
  }

  /** Fill-in rows for the keys `start, start + 50, ..., stop - 50`. */
  function GapRows(start: nat, stop: nat): seq<Row>
    requires start <= stop && (stop - start) % GAP_STRIDE == 0
    decreases stop
  {
    if start == stop then []
    else
      StrideStep(stop - start);
      GapRows(start, stop - GAP_STRIDE) + [GapRow(stop - GAP_STRIDE)]
  }

  /** Fill-in rows for the keys `start`, `start + 50`, ... in order. */
  predicate GapRun(rows: seq<Row>, start: nat) {
    forall j :: 0 <= j < |rows| ==> rows[j] == GapRow(start + GAP_STRIDE * j)
  }

  /** Fill-in rows written before the bin at index `i`. For `i == 0` both
      the last position and the expected one are 0, so none are written;
      otherwise the previous key in `keys` is used, written or not. */
  function GapsBefore(agg: Aggregate, i: nat): seq<Row>
    requires i < |agg.keys|
    requires i > 0 ==> agg.keys[i - 1] < agg.keys[i] && (agg.keys[i] - agg.keys[i - 1]) % GAP_STRIDE == 0
  {
    var lastPosition := if i == 0 then 0 else agg.keys[i - 1];
    var shouldBeLast := if i == 0 then 0 else agg.keys[i] - GAP_STRIDE;
    if shouldBeLast == lastPosition then []
    else
      StrideStep(agg.keys[i] - lastPosition);
      GapRows(lastPosition + GAP_STRIDE, agg.keys[i])
  }

  /** No fill-in rows before the first bin; before a later one, one row
      for every key strictly between the previous key and this one. */
  lemma GapsBeforeShape(agg: Aggregate, i: nat)
    requires i < |agg.keys|
    requires i > 0 ==> agg.keys[i - 1] < agg.keys[i] && (agg.keys[i] - agg.keys[i - 1]) % GAP_STRIDE == 0
    ensures i == 0 ==> GapsBefore(agg, i) == []
    ensures i > 0 ==> |GapsBefore(agg, i)| == (agg.keys[i] - agg.keys[i - 1]) / GAP_STRIDE - 1
    ensures i > 0 ==> GapRun(GapsBefore(agg, i), agg.keys[i - 1] + GAP_STRIDE)
  {
    if i > 0 && agg.keys[i] - GAP_STRIDE != agg.keys[i - 1] {
      StrideStep(agg.keys[i] - agg.keys[i - 1]);
      GapRowsShape(agg.keys[i - 1] + GAP_STRIDE, agg.keys[i]);
    }
  }

  /** The data row of one bin. */
  function DataRow(sink: Sink, name: string, agg: Aggregate, key: nat): Row
    requires BinsFit(agg)
  {
    var info := BinAt(agg, key);
    if sink.csv then CsvRow(key, info.readCount, CalcMedian(info.lengths), StripChr(name))
    else ConsoleRow(key, StripChr(name), info.readCount, CalcMedian(info.lengths))
  }

  /** Everything written for the bin at index `i`: nothing when the bin is
      below the reads minimum, otherwise its data row, after fill-in rows
      only in CSV output with fill-in on. */
  function BinRows(sink: Sink, name: string, agg: Aggregate, i: nat): seq<Row>
    requires i < |agg.keys| && BinsFit(agg) && GapFillEnds(sink, agg)
  {
    var key := agg.keys[i];
    if !Shown(BinAt(agg, key), sink.readsMin) then []
    else if sink.csv && sink.fillIn then GapsBefore(agg, i) + [DataRow(sink, name, agg, key)]
    else [DataRow(sink, name, agg, key)]
  }

  /** A bin writes something exactly when it reaches the reads minimum;
      what it writes ends with its data row, and anything before that row
      is the fill-in before it, in CSV output with fill-in on. */
  lemma BinRowsShape(sink: Sink, name: string, agg: Aggregate, i: nat)
    requires i < |agg.keys| && BinsFit(agg) && GapFillEnds(sink, agg)
    ensures BinRows(sink, name, agg, i) == [] <==> !Shown(BinAt(agg, agg.keys[i]), sink.readsMin)
    ensures var rows := BinRows(sink, name, agg, i);
      rows != [] ==> rows[|rows| - 1] == DataRow(sink, name, agg, agg.keys[i])
    ensures var rows := BinRows(sink, name, agg, i);
      |rows| > 1 ==> sink.csv && sink.fillIn && rows[..|rows| - 1] == GapsBefore(agg, i)
  {
    var key := agg.keys[i];
    if Shown(BinAt(agg, key), sink.readsMin) && sink.csv && sink.fillIn {
      var gaps := GapsBefore(agg, i);
      assert (gaps + [DataRow(sink, name, agg, key)])[..|gaps|] == gaps;
    }
  }

  /** Everything written for the first `n` bins. */
  function FlushPrefix(sink: Sink, name: string, agg: Aggregate, n: nat): seq<Row>
    requires n <= |agg.keys| && BinsFit(agg) && GapFillEnds(sink, agg)
  {
    if n == 0 then [] else FlushPrefix(sink, name, agg, n - 1) + BinRows(sink, name, agg, n - 1)
  }

  /** A whole flush: the rows of every bin, in first-seen key order. */
  function FlushRows(sink: Sink, name: string, agg: Aggregate): seq<Row>
    requires BinsFit(agg) && GapFillEnds(sink, agg)
  {
    FlushPrefix(sink, name, agg, |agg.keys|)
  }

  /** Console output is made of console lines only and CSV output of CSV
      rows only, with fill-in rows only when fill-in is on; leaving those
      aside, one data row per written bin, in first-seen key order, each
      with its bin's read count and median and the stripped chromosome
      name. */
  lemma FlushRowsShape(sink: Sink, name: string, agg: Aggregate)
    requires BinsFit(agg) && GapFillEnds(sink, agg)
    ensures KindsMatch(sink, FlushRows(sink, name, agg))
    ensures WithoutGaps(FlushRows(sink, name, agg)) == DataRows(sink, name, agg, ShownKeys(agg, sink.readsMin, |agg.keys|))
  {
    FlushPrefixRowKinds(sink, name, agg, |agg.keys|);
    FlushPrefixDataRows(sink, name, agg, |agg.keys|);
  }

  /** The fill-in loop of `flushOut`: one gap row for every stride between
      the previous key and the bin's key. */
  method WriteGaps(rows: seq<Row>, lastPosition: nat, positionKey: nat) returns (rows': seq<Row>)
    requires lastPosition < positionKey && (positionKey - lastPosition) % GAP_STRIDE == 0
    ensures lastPosition + GAP_STRIDE <= positionKey
    ensures rows' == rows + GapRows(lastPosition + GAP_STRIDE, positionKey)
  {
    StrideStep(positionKey - lastPosition);
    rows' := rows;
    var wrotePos := lastPosition + GAP_STRIDE;
    while wrotePos != positionKey
      invariant lastPosition + GAP_STRIDE <= wrotePos <= positionKey
      invariant (wrotePos - (lastPosition + GAP_STRIDE)) % GAP_STRIDE == 0
      invariant (positionKey - wrotePos) % GAP_STRIDE == 0
      invariant rows' == rows + GapRows(lastPosition + GAP_STRIDE, wrotePos)
      decreases positionKey - wrotePos
    {
      StrideStep(positionKey - wrotePos);
      rows' := rows' + [GapRow(wrotePos)];
      wrotePos := wrotePos + GAP_STRIDE;
    }
  }

  /** The body of the `flushOut` loop for the bin at index `i`: nothing
      below the reads minimum; otherwise, with fill-in, the gap rows since
      the previous key, then the bin's row. */
  method WriteBin(sink: Sink, name: string, agg: Aggregate, i: nat, rows: seq<Row>) returns (rows': seq<Row>)
    requires i < |agg.keys| && BinsFit(agg) && GapFillEnds(sink, agg)
    ensures rows' == rows + BinRows(sink, name, agg, i)
  {
    var chrName := StripChr(name);
    var keys := agg.keys;
    rows' := rows;
    var positionKey := keys[i];
    var info := BinAt(agg, positionKey);
    var median := CalcMedian(info.lengths);
    if !(info.readCount < AsU64(sink.readsMin)) {
      if sink.csv {
        if sink.fillIn {
          var lastPosition := 0;
          if i != 0 {
            lastPosition := keys[i - 1];
          }
          var shouldBeLast := positionKey - GAP_STRIDE;
          if i == 0 {
            shouldBeLast := 0;
          }
          if shouldBeLast != lastPosition {
            assert i > 0;
            rows' := WriteGaps(rows', lastPosition, positionKey);
          }
          assert rows' == rows + GapsBefore(agg, i);
        }
        rows' := rows' + [CsvRow(positionKey, info.readCount, median, chrName)];
      } else {
        rows' := rows' + [ConsoleRow(positionKey, chrName, info.readCount, median)];
      }
    }
  }

  /** `flushOut`: one pass over the keys, with an inner loop that writes
      the fill-in rows. */
  method FlushOut(sink: Sink, name: string, agg: Aggregate) returns (rows: seq<Row>)
    requires BinsFit(agg) && GapFillEnds(sink, agg)
    ensures rows == FlushRows(sink, name, agg)
  {
    rows := [];
    var i := 0;
    while i < |agg.keys|
      invariant 0 <= i <= |agg.keys|
      invariant rows == FlushPrefix(sink, name, agg, i)
    {
      rows := WriteBin(sink, name, agg, i, rows);
      i := i + 1;
    }
  }

  /** The fill-in rows run from `start` to `stop - 50` in steps of 50:
      `(stop - start) / 50` rows. */
  lemma {:induction false} GapRowsShape(start: nat, stop: nat)
    requires start <= stop && (stop - start) % GAP_STRIDE == 0
    ensures |GapRows(start, stop)| == (stop - start) / GAP_STRIDE
    ensures forall j :: 0 <= j < |GapRows(start, stop)| ==> GapRows(start, stop)[j] == GapRow(start + GAP_STRIDE * j)
    decreases stop
  {
    if start != stop {
      StrideStep(stop - start);
      GapRowsShape(start, stop - GAP_STRIDE);
    }
  }

  /** Around a written CSV bin with fill-in: the first bin gets no fill-in
      rows; a later one gets `(key - prev) / 50 - 1` rows `prev + 50, ...,
      key - 50`, where `prev` is the previous key in first-seen order,
      written or not. */
  lemma BinRowsWithFillIn(sink: Sink, name: string, agg: Aggregate, i: nat)
    requires i < |agg.keys| && BinsFit(agg) && GapFillEnds(sink, agg)
    requires sink.csv && sink.fillIn && Shown(BinAt(agg, agg.keys[i]), sink.readsMin)
    ensures i == 0 ==> BinRows(sink, name, agg, i) == [DataRow(sink, name, agg, agg.keys[i])]
    ensures i > 0 ==>
      var prev, key := agg.keys[i - 1], agg.keys[i];
      var rows := BinRows(sink, name, agg, i);
      && |rows| == (key - prev) / GAP_STRIDE
      && rows[|rows| - 1] == DataRow(sink, name, agg, key)
      && forall j :: 0 <= j < |rows| - 1 ==> rows[j] == GapRow(prev + GAP_STRIDE * (j + 1))
  {
    if i > 0 {
      var prev, key := agg.keys[i - 1], agg.keys[i];
      StrideStep(key - prev);
      GapRowsShape(prev + GAP_STRIDE, key);
    }
  }

  /** The rows of a flush with the fill-in rows taken out. */
  function WithoutGaps(rows: seq<Row>): seq<Row> {
    if rows == [] then []
    else WithoutGaps(rows[..|rows| - 1]) + (if rows[|rows| - 1].GapRow? then [] else [rows[|rows| - 1]])
  }

  lemma {:induction false} WithoutGapsAppend(a: seq<Row>, b: seq<Row>)
    ensures WithoutGaps(a + b) == WithoutGaps(a) + WithoutGaps(b)
    decreases |b|
  {
    if b != [] {
      var c := b[..|b| - 1];
      assert (a + b)[..|a + b| - 1] == a + c;
      WithoutGapsAppend(a, c);
    } else {
      assert a + b == a;
    }
  }

  lemma {:induction false} WithoutGapsOfGapRows(start: nat, stop: nat)
    requires start <= stop && (stop - start) % GAP_STRIDE == 0
    ensures WithoutGaps(GapRows(start, stop)) == []
    decreases stop
  {
    if start != stop {
      StrideStep(stop - start);
      WithoutGapsOfGapRows(start, stop - GAP_STRIDE);
      WithoutGapsAppend(GapRows(start, stop - GAP_STRIDE), [GapRow(stop - GAP_STRIDE)]);
    }
  }

  /** The keys among the first `n` whose bins are written, in order. */
  function ShownKeys(agg: Aggregate, readsMin: i32, n: nat): seq<nat>
    requires n <= |agg.keys|
  {
    if n == 0 then []
    else ShownKeys(agg, readsMin, n - 1) + (if Shown(BinAt(agg, agg.keys[n - 1]), readsMin) then [agg.keys[n - 1]] else [])
  }

  /** The data rows of a sequence of keys. */
  function DataRows(sink: Sink, name: string, agg: Aggregate, ks: seq<nat>): seq<Row>
    requires BinsFit(agg)
  {
    if ks == [] then [] else DataRows(sink, name, agg, ks[..|ks| - 1]) + [DataRow(sink, name, agg, ks[|ks| - 1])]
  }

  lemma BinRowsData(sink: Sink, name: string, agg: Aggregate, i: nat)
    requires i < |agg.keys| && BinsFit(agg) && GapFillEnds(sink, agg)
    ensures Shown(BinAt(agg, agg.keys[i]), sink.readsMin) ==>
      WithoutGaps(BinRows(sink, name, agg, i)) == [DataRow(sink, name, agg, agg.keys[i])]
    ensures !Shown(BinAt(agg, agg.keys[i]), sink.readsMin) ==> BinRows(sink, name, agg, i) == []
  {
    var key := agg.keys[i];
    var row := DataRow(sink, name, agg, key);
    if Shown(BinAt(agg, key), sink.readsMin) {
      SingleDataRow(row);
      if sink.csv && sink.fillIn {
        var gaps := GapsBefore(agg, i);
        GapsBeforeHoldNoData(agg, i);
        assert BinRows(sink, name, agg, i) == gaps + [row];
        WithoutGapsAppend(gaps, [row]);
      }
    }
  }

  lemma GapsBeforeHoldNoData(agg: Aggregate, i: nat)
    requires i < |agg.keys|
    requires i > 0 ==> agg.keys[i - 1] < agg.keys[i] && (agg.keys[i] - agg.keys[i - 1]) % GAP_STRIDE == 0
    ensures WithoutGaps(GapsBefore(agg, i)) == []
  {
    if i > 0 && agg.keys[i] - GAP_STRIDE != agg.keys[i - 1] {
      StrideStep(agg.keys[i] - agg.keys[i - 1]);
      WithoutGapsOfGapRows(agg.keys[i - 1] + GAP_STRIDE, agg.keys[i]);
    }
  }

  lemma SingleDataRow(row: Row)
    requires !row.GapRow?
    ensures WithoutGaps([row]) == [row]
  {
    assert [row][..0] == [];
  }

  lemma {:induction false} FlushPrefixDataRows(sink: Sink, name: string, agg: Aggregate, n: nat)
    requires n <= |agg.keys| && BinsFit(agg) && GapFillEnds(sink, agg)
    ensures WithoutGaps(FlushPrefix(sink, name, agg, n)) == DataRows(sink, name, agg, ShownKeys(agg, sink.readsMin, n))
  {
    if n > 0 {
      var i := n - 1;
      var before := FlushPrefix(sink, name, agg, i);
      var binRows := BinRows(sink, name, agg, i);
      var shown := ShownKeys(agg, sink.readsMin, i);
      var key := agg.keys[i];
      assert FlushPrefix(sink, name, agg, n) == before + binRows;
      FlushPrefixDataRows(sink, name, agg, i);
      WithoutGapsAppend(before, binRows);
      BinRowsData(sink, name, agg, i);
      if Shown(BinAt(agg, key), sink.readsMin) {
        assert ShownKeys(agg, sink.readsMin, n) == shown + [key];
        DataRowsAppend(sink, name, agg, shown, key);
      } else {
        assert ShownKeys(agg, sink.readsMin, n) == shown;
        assert WithoutGaps(binRows) == [];
      }
    }
  }

  lemma DataRowsAppend(sink: Sink, name: string, agg: Aggregate, ks: seq<nat>, key: nat)
    requires BinsFit(agg)
    ensures DataRows(sink, name, agg, ks + [key]) == DataRows(sink, name, agg, ks) + [DataRow(sink, name, agg, key)]
  {
    assert (ks + [key])[..|ks|] == ks;
  }

  /** A key is written exactly when its bin reaches the reads minimum;
      with a non-negative minimum that is `readCount >= readsMin`. */
  lemma {:induction false} ShownKeysMembership(agg: Aggregate, readsMin: i32, n: nat, k: nat)
    requires n <= |agg.keys|
    ensures k in ShownKeys(agg, readsMin, n) <==> k in agg.keys[..n] && Shown(BinAt(agg, k), readsMin)
    ensures readsMin >= 0 ==> (Shown(BinAt(agg, k), readsMin) <==> BinAt(agg, k).readCount >= readsMin)
  {
    if n > 0 {
      ShownKeysMembership(agg, readsMin, n - 1, k);
      assert agg.keys[..n] == agg.keys[..n - 1] + [agg.keys[n - 1]];
    }
  }

  /** A negative `--reads-min` becomes a huge unsigned minimum: no bin with
      fewer than 2^64 - 2^31 reads is written. */
  lemma NegativeReadsMinHidesAll(b: Bin, readsMin: i32)
    requires readsMin < 0 && b.readCount < U64 - INT32_MAX - 1
    ensures !Shown(b, readsMin)
  {
  }

  /** Console lines exactly when there is no CSV file, fill-in rows only
      in a CSV file with fill-in on. */
  predicate KindsMatch(sink: Sink, rows: seq<Row>) {
    && (forall row <- rows :: (row.ConsoleRow? <==> !sink.csv))
    && (forall row <- rows :: row.GapRow? ==> sink.csv && sink.fillIn)
  }

  lemma KindsMatchAppend(sink: Sink, a: seq<Row>, b: seq<Row>)
    requires KindsMatch(sink, a) && KindsMatch(sink, b)
    ensures KindsMatch(sink, a + b)
  {
    forall row: Row | row in a + b
      ensures (row.ConsoleRow? <==> !sink.csv) && (row.GapRow? ==> sink.csv && sink.fillIn)
    {
      assert row in a || row in b;
    }
  }

  lemma {:induction false} FlushPrefixRowKinds(sink: Sink, name: string, agg: Aggregate, n: nat)
    requires n <= |agg.keys| && BinsFit(agg) && GapFillEnds(sink, agg)
    ensures KindsMatch(sink, FlushPrefix(sink, name, agg, n))
  {
    if n > 0 {
      FlushPrefixRowKinds(sink, name, agg, n - 1);
      BinRowKinds(sink, name, agg, n - 1);
      KindsMatchAppend(sink, FlushPrefix(sink, name, agg, n - 1), BinRows(sink, name, agg, n - 1));
    }
  }

  lemma BinRowKinds(sink: Sink, name: string, agg: Aggregate, i: nat)
    requires i < |agg.keys| && BinsFit(agg) && GapFillEnds(sink, agg)
    ensures KindsMatch(sink, BinRows(sink, name, agg, i))
  {
    var key := agg.keys[i];
    if Shown(BinAt(agg, key), sink.readsMin) && sink.csv && sink.fillIn {
      if i > 0 && agg.keys[i] - GAP_STRIDE != agg.keys[i - 1] {
        StrideStep(agg.keys[i] - agg.keys[i - 1]);
        GapRowsShape(agg.keys[i - 1] + GAP_STRIDE, agg.keys[i]);
      }
    }
  }

  /** Bins seen at 100 and 250 with fill-in: zero rows at 150 and 200 come
      between their two rows. */
  lemma FillInExample(sink: Sink, name: string, agg: Aggregate)
    requires sink.csv && sink.fillIn && sink.readsMin == 1
    requires agg.keys == [100, 250] && BinsFit(agg)
    requires 100 in agg.positions && agg.positions[100].readCount == 3
    requires 250 in agg.positions && agg.positions[250].readCount == 1
    ensures GapFillEnds(sink, agg)
    ensures FlushRows(sink, name, agg) ==
      [DataRow(sink, name, agg, 100), GapRow(150), GapRow(200), DataRow(sink, name, agg, 250)]
  {
    assert FlushPrefix(sink, name, agg, 1) == [DataRow(sink, name, agg, 100)];
    BinRowsWithFillIn(sink, name, agg, 1);
  }

  /** The same keys with a bin at 150 that stays below the reads minimum:
      that bin is not written, yet the fill-in before 250 starts from 150,
      so only a zero row at 200 is written. */
  lemma FillInAfterHiddenBinExample(sink: Sink, name: string, agg: Aggregate)
    requires sink.csv && sink.fillIn && sink.readsMin == 2
    requires agg.keys == [100, 150, 250] && BinsFit(agg)
    requires 100 in agg.positions && agg.positions[100].readCount == 2
    requires 150 in agg.positions && agg.positions[150].readCount == 1
    requires 250 in agg.positions && agg.positions[250].readCount == 5
    ensures GapFillEnds(sink, agg)
    ensures FlushRows(sink, name, agg) ==
      [DataRow(sink, name, agg, 100), GapRow(200), DataRow(sink, name, agg, 250)]
  {
    assert !Shown(BinAt(agg, 150), sink.readsMin);
    assert GapFillEnds(sink, agg);
    assert BinRows(sink, name, agg, 0) == [DataRow(sink, name, agg, 100)];
    assert BinRows(sink, name, agg, 1) == [];
    assert FlushPrefix(sink, name, agg, 1) == [DataRow(sink, name, agg, 100)];
    assert FlushPrefix(sink, name, agg, 2) == [DataRow(sink, name, agg, 100)];
    BinRowsWithFillIn(sink, name, agg, 2);
  }

  /** Keys come in first-seen order, and midpoints need not rise along a
      position-sorted stream. The fill-in loop steps past a key below the
      one before it, or one not a multiple of 50 past it, and runs on
      until its 64-bit position wraps round (some 2^63 rows), or for ever
      when the two keys differ by an odd amount. */
  lemma FillInMissesKeyExamples(sink: Sink, agg: Aggregate)
    requires sink.csv && sink.fillIn && sink.readsMin == 0
    requires agg.keys == [300, 150] || agg.keys == [30, 60]
    ensures !GapFillEnds(sink, agg)
  {
    assert Shown(BinAt(agg, agg.keys[1]), sink.readsMin);
    assert !(agg.keys[0] < agg.keys[1] && (agg.keys[1] - agg.keys[0]) % GAP_STRIDE == 0);
  }
}
