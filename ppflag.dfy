/** The proper-pair fixer: every record of the stream is written back, and
    a paired record that qualifies gains the "mapped in proper pair" bit
    (0x2). `total` counts the records read and `edited` the records
    marked. */
module ProperPair {
  import opened SamRecord

  /** `--max-tlen` is held in a `uint64_t`; its default of -1 is stored as
      2^64 - 1 and means "no bound". */
  const NO_MAX_TLEN: u64 := U64 - 1

  const INT32_MIN: int := -INT32_MAX - 1

  /** The template length is a 32-bit `int` in the record. */
  predicate TlenFits(r: Record) {
    INT32_MIN <= r.isize <= INT32_MAX
  }

  /** C `abs` on a 32-bit `int`: the absolute value wrapped into the
      32-bit range, so the one value without a positive counterpart comes
      back unchanged. */
  function CAbs(v: i32): (a: i32)
    ensures (a - Abs(v)) % 0x1_0000_0000 == 0
  {
    if v == INT32_MIN then v else Abs(v)
  }

  /** The length bound: none at the default, otherwise the absolute
      template length, converted to `uint64_t`, must not exceed it. */
  predicate WithinMaxTlen(r: Record, maxTlen: u64)
    requires TlenFits(r)
  {
    maxTlen == NO_MAX_TLEN || AsU64(CAbs(r.isize)) <= maxTlen
  }

  /** The leftmost mate (positive length) needs its mate on the reverse
      strand; the rightmost mate (negative length) must itself be on the
      reverse strand. */
  predicate Oriented(r: Record) {
    (r.isize < 0 && HasFlag(r, READ_REVERSE_STRAND)) || (r.isize > 0 && HasFlag(r, MATE_REVERSE_STRAND))
  }

  /** The marking rule: within the length bound, both mates on one
      reference, paired, both mapped, a primary non-supplementary
      alignment, not yet marked, and oriented towards its mate. A record
      it picks has a non-zero template length and, under an explicit
      bound, an absolute length within it (the smallest `int` aside). */
  predicate ShouldMark(r: Record, maxTlen: u64)
    requires TlenFits(r)
    ensures ShouldMark(r, maxTlen) ==> r.isize != 0 && r.mtid == r.tid && !HasFlag(r, READ_MAPPED_PROPER_PAIR)
    ensures ShouldMark(r, maxTlen) && maxTlen != NO_MAX_TLEN && r.isize != INT32_MIN ==> Abs(r.isize) <= maxTlen
  {
    && WithinMaxTlen(r, maxTlen)
    && r.mtid == r.tid
    && HasFlag(r, READ_PAIRED)
    && !HasFlag(r, READ_UNMAPPED)
    && !HasFlag(r, MATE_UNMAPPED)
    && !HasFlag(r, READ_SUPPLEMENTARY)
    && !HasFlag(r, READ_SECONDARY_ALIGNMENT)
    && !HasFlag(r, READ_MAPPED_PROPER_PAIR)
    && Oriented(r)
  }

  /** The record as written back. Only the flag can change, only bit 0x2
      of it, and the record changes exactly when the rule holds. */
  function Fix(r: Record, maxTlen: u64): (f: Record)
    requires TlenFits(r)
    ensures f == r.(flag := f.flag)
    ensures f.flag & !READ_MAPPED_PROPER_PAIR == r.flag & !READ_MAPPED_PROPER_PAIR
    ensures HasFlag(f, READ_MAPPED_PROPER_PAIR) <==> HasFlag(r, READ_MAPPED_PROPER_PAIR) || ShouldMark(r, maxTlen)
    ensures f != r <==> ShouldMark(r, maxTlen)
  {
    if ShouldMark(r, maxTlen) then
      var flag := r.flag | READ_MAPPED_PROPER_PAIR;
      SetProperBit(r.flag);
      assert flag != r.flag;
      r.(flag := flag)
    else r
  }

  /** OR-ing in bit 0x2 sets that bit and leaves every other bit alone. */
  lemma SetProperBit(x: Flag)
    ensures (x | READ_MAPPED_PROPER_PAIR) & !READ_MAPPED_PROPER_PAIR == x & !READ_MAPPED_PROPER_PAIR
    ensures (x | READ_MAPPED_PROPER_PAIR) & READ_MAPPED_PROPER_PAIR != 0
    ensures x & READ_MAPPED_PROPER_PAIR == 0 ==> x | READ_MAPPED_PROPER_PAIR != x
  {
  }

  /** Fixing a fixed record changes nothing. */
  lemma FixIdempotent(r: Record, maxTlen: u64)
    requires TlenFits(r)
    ensures Fix(Fix(r, maxTlen), maxTlen) == Fix(r, maxTlen)
  {
  }

  /** A record already marked is written back as it was. */
  lemma MarkedUnchanged(r: Record, maxTlen: u64)
    requires TlenFits(r) && HasFlag(r, READ_MAPPED_PROPER_PAIR)
    ensures Fix(r, maxTlen) == r
  {
  }

  /** What a record must be for its flag to change. */
  lemma ChangeNeedsPairedMappedPrimary(r: Record, maxTlen: u64)
    requires TlenFits(r) && Fix(r, maxTlen) != r
    ensures r.mtid == r.tid
    ensures HasFlag(r, READ_PAIRED) && !HasFlag(r, READ_UNMAPPED) && !HasFlag(r, MATE_UNMAPPED)
    ensures !HasFlag(r, READ_SUPPLEMENTARY) && !HasFlag(r, READ_SECONDARY_ALIGNMENT)
    ensures r.isize < 0 ==> HasFlag(r, READ_REVERSE_STRAND)
    ensures r.isize > 0 ==> HasFlag(r, MATE_REVERSE_STRAND)
    ensures r.isize != 0
  {
  }

  /** A template length of 0 is never marked, whatever the flags. */
  lemma ZeroTlenNeverMarked(r: Record, maxTlen: u64)
    requires r.isize == 0
    ensures Fix(r, maxTlen) == r
  {
  }

  /** Under a bound other than the default, a changed record has an
      absolute template length within the bound. */
  lemma ChangeWithinBound(r: Record, maxTlen: u64)
    requires TlenFits(r) && r.isize != INT32_MIN && maxTlen != NO_MAX_TLEN && Fix(r, maxTlen) != r
    ensures Abs(r.isize) <= maxTlen
  {
  }

  /** A negative `--max-tlen` (stored as 2^64 + value) bounds nothing a
      32-bit template length can reach: the rule is the same as with no
      bound. */
  lemma NegativeMaxTlenUnbounded(r: Record, maxTlen: u64)
    requires TlenFits(r) && r.isize != INT32_MIN && maxTlen >= U64 - INT32_MAX - 1
    ensures Fix(r, maxTlen) == Fix(r, NO_MAX_TLEN)
  {
  }

  /** A properly oriented pair: the leftmost mate, forward strand, mate on
      the reverse strand, within the default bound, is marked. */
  lemma ForwardMateMarked(r: Record)
    requires r.tid == 1 && r.mtid == 1 && r.isize == 300
    requires r.flag == READ_PAIRED | MATE_REVERSE_STRAND | READ_FIRST_IN_PAIR
    ensures Fix(r, NO_MAX_TLEN).flag == r.flag | READ_MAPPED_PROPER_PAIR
  {
  }

  /** The number of records the rule marks. */
  function CountMarked(records: seq<Record>, maxTlen: u64): (n: nat)
    requires forall i :: 0 <= i < |records| ==> TlenFits(records[i])
    ensures n <= |records|
  {
    if records == [] then 0
    else
      CountMarked(records[..|records| - 1], maxTlen)
        + (if ShouldMark(records[|records| - 1], maxTlen) then 1 else 0)
  }

  /** The number of positions where two streams of equal length differ. */
  function Differences(a: seq<Record>, b: seq<Record>): (n: nat)
    requires |a| == |b|
    ensures n <= |a|
  {
    if a == [] then 0
    else Differences(a[..|a| - 1], b[..|b| - 1]) + (if a[|a| - 1] != b[|b| - 1] then 1 else 0)
  }

  /** The count of marked records is the number of records the fix
      changes. */
  lemma {:induction false} MarkedAreChanged(records: seq<Record>, out: seq<Record>, maxTlen: u64)
    requires forall i :: 0 <= i < |records| ==> TlenFits(records[i])
    requires |out| == |records| && forall i :: 0 <= i < |records| ==> out[i] == Fix(records[i], maxTlen)
    ensures CountMarked(records, maxTlen) == Differences(records, out)
  {
    if records != [] {
      MarkedAreChanged(records[..|records| - 1], out[..|out| - 1], maxTlen);
    }
  }

  /** The flag edit of one record, with the test written out bit by bit;
      `marked` says whether the record was edited. */
  method MarkIfProper(c: Record, maxTlen: u64) returns (c': Record, marked: bool)
    requires TlenFits(c)
    ensures c' == Fix(c, maxTlen) && marked == ShouldMark(c, maxTlen)
  {
    c', marked := c, false;
    var eligible := (maxTlen == NO_MAX_TLEN || AsU64(CAbs(c.isize)) <= maxTlen)
      && c.mtid == c.tid
      && c.flag & READ_PAIRED != 0
      && c.flag & READ_UNMAPPED == 0
      && c.flag & MATE_UNMAPPED == 0
      && c.flag & READ_SUPPLEMENTARY == 0
      && c.flag & READ_SECONDARY_ALIGNMENT == 0
      && c.flag & READ_MAPPED_PROPER_PAIR == 0
      && ((c.isize < 0 && c.flag & READ_REVERSE_STRAND != 0) || (c.isize > 0 && c.flag & MATE_REVERSE_STRAND != 0));
    assert eligible == ShouldMark(c, maxTlen);
    if eligible {
      c' := c.(flag := c.flag | READ_MAPPED_PROPER_PAIR);
      marked := true;
    }
  }

  /** The read loop: every record is written back, fixed, in input order;
      `total` counts the records and `edited` the marked ones. */
  method FixProperPairs(records: seq<Record>, maxTlen: u64) returns (out: seq<Record>, total: nat, edited: nat)
    requires forall i :: 0 <= i < |records| ==> TlenFits(records[i])
    ensures |out| == |records| && total == |records|
    ensures forall i :: 0 <= i < |records| ==> out[i] == Fix(records[i], maxTlen)
    ensures edited == CountMarked(records, maxTlen) == Differences(records, out)
    ensures edited <= total
  {
    out, total, edited := [], 0, 0;
    while total < |records|
      invariant total <= |records| && |out| == total
      invariant forall i :: 0 <= i < total ==> out[i] == Fix(records[i], maxTlen)
      invariant edited == CountMarked(records[..total], maxTlen)
    {
      var c, marked := MarkIfProper(records[total], maxTlen);
      assert records[..total + 1][..total] == records[..total];
      if marked {
        edited := edited + 1;
      }
      out := out + [c];
      total := total + 1;
    }
    assert records[..total] == records;
    MarkedAreChanged(records, out, maxTlen);
  }
}
