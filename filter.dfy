/** The record filter of the fragment aggregator: six checks in a fixed
    order, the first failing one dropping the record and charging exactly
    one skip counter. */
module Filter {
  import opened SamRecord

  /** The filtering options: `--include-all`, `--mapq-min`, `--length-min`,
      `--length-max` (-1 meaning no bound) and `--rnext-ineq`. */
  datatype Criteria = Criteria(includeAll: bool, mapqMin: int, lengthMin: int, lengthMax: int, rnextIneq: bool)

  /** The defaults set before option parsing. */
  const DEFAULT_CRITERIA := Criteria(false, 50, -1, -1, false)

  datatype Verdict = Accept | SkipQuality | SkipNoPosition | SkipMapq | SkipLength | SkipRnext

  /** Failed the vendor quality check or marked as a duplicate. */
  predicate FailsQuality(r: Record, c: Criteria) {
    !c.includeAll && (HasFlag(r, READ_FAILED_QUALITY_CHECKS) || HasFlag(r, READ_PCR_OPTICAL_DUPLICATE))
  }

  /** No position, or a template length of zero. */
  predicate FailsPosition(r: Record) {
    r.pos == -1 || r.isize == 0
  }

  predicate FailsMapq(r: Record, c: Criteria) {
    r.qual < c.mapqMin
  }

  /** The bounds are compared with the SIGNED template length. */
  predicate FailsLength(r: Record, c: Criteria) {
    (c.lengthMin != -1 && r.isize < c.lengthMin) || (c.lengthMax != -1 && r.isize > c.lengthMax)
  }

  /** The mate is on another reference and that is not allowed. */
  predicate FailsRnext(r: Record, c: Criteria) {
    !c.rnextIneq && r.mtid != r.tid
  }

  /** The filter chain: the verdict names the first check that fails. */
  function Classify(r: Record, c: Criteria): (v: Verdict)
    ensures v == Accept <==>
      !FailsQuality(r, c) && !FailsPosition(r) && !FailsMapq(r, c) && !FailsLength(r, c) && !FailsRnext(r, c)
    ensures v == SkipQuality <==> FailsQuality(r, c)
    ensures v == SkipNoPosition <==> !FailsQuality(r, c) && FailsPosition(r)
    ensures v == SkipMapq <==> !FailsQuality(r, c) && !FailsPosition(r) && FailsMapq(r, c)
    ensures v == SkipLength <==> !FailsQuality(r, c) && !FailsPosition(r) && !FailsMapq(r, c) && FailsLength(r, c)
    ensures v == SkipRnext <==>
      !FailsQuality(r, c) && !FailsPosition(r) && !FailsMapq(r, c) && !FailsLength(r, c) && FailsRnext(r, c)
  {
    if !c.includeAll && (r.flag & READ_FAILED_QUALITY_CHECKS != 0 || r.flag & READ_PCR_OPTICAL_DUPLICATE != 0) then SkipQuality
    else if r.pos == -1 || r.isize == 0 then SkipNoPosition
    else if r.qual < c.mapqMin then SkipMapq
    else if c.lengthMin != -1 && r.isize < c.lengthMin then SkipLength
    else if c.lengthMax != -1 && r.isize > c.lengthMax then SkipLength
    else if !c.rnextIneq && r.mtid != r.tid then SkipRnext
    else Accept
  }

  /** The run's skip counters and the count of every record read. */
  datatype Counters = Counters(total: nat, skipped: nat, noposSkipped: nat, mapqSkipped: nat, lenSkipped: nat, rnextSkipped: nat)

  const NO_COUNTS := Counters(0, 0, 0, 0, 0, 0)

  function SkipSum(c: Counters): nat {
    c.skipped + c.noposSkipped + c.mapqSkipped + c.lenSkipped + c.rnextSkipped
  }

  /** The "processed" figure of the run summary as the code computes it:
      `total` less the quality, position, mapping-quality and length skips.
      The mate-reference skips are not taken off. */
  function ProcessedAsWritten(c: Counters): int {
    c.total - c.skipped - c.mapqSkipped - c.lenSkipped - c.noposSkipped
  }

  /** The processed figure the summary means: `total` less every skip. */
  function Processed(c: Counters): int {
    c.total - SkipSum(c)
  }

  /** Counting one record: `total` always grows by one, and a skipped
      record charges exactly the counter of its verdict. */
  function Tally(c: Counters, v: Verdict): (d: Counters)
    ensures d.total == c.total + 1
    ensures SkipSum(d) == SkipSum(c) + (if v == Accept then 0 else 1)
    ensures d.skipped == c.skipped + (if v == SkipQuality then 1 else 0)
    ensures d.noposSkipped == c.noposSkipped + (if v == SkipNoPosition then 1 else 0)
    ensures d.mapqSkipped == c.mapqSkipped + (if v == SkipMapq then 1 else 0)
    ensures d.lenSkipped == c.lenSkipped + (if v == SkipLength then 1 else 0)
    ensures d.rnextSkipped == c.rnextSkipped + (if v == SkipRnext then 1 else 0)
  {
    var c := c.(total := c.total + 1);
    match v
    case Accept => c
    case SkipQuality => c.(skipped := c.skipped + 1)
    case SkipNoPosition => c.(noposSkipped := c.noposSkipped + 1)
    case SkipMapq => c.(mapqSkipped := c.mapqSkipped + 1)
    case SkipLength => c.(lenSkipped := c.lenSkipped + 1)
    case SkipRnext => c.(rnextSkipped := c.rnextSkipped + 1)
  }

  /** A template length of 0 is dropped whatever else the record holds,
      by the quality check or by the position check. */
  lemma ZeroLengthNeverAccepted(r: Record, c: Criteria)
    requires r.isize == 0
    ensures Classify(r, c) == SkipQuality || Classify(r, c) == SkipNoPosition
  {
  }

  /** A record whose mate lies on another reference is accepted only with
      `--rnext-ineq`. */
  lemma MateMismatchNeedsOption(r: Record, c: Criteria)
    requires r.mtid != r.tid && !c.rnextIneq
    ensures Classify(r, c) != Accept
  {
  }

  /** Mapping quality 49 under the default minimum of 50 is dropped by the
      quality threshold once the earlier checks pass. */
  lemma LowMapqExample(r: Record)
    requires r.qual == 49 && r.pos == 1000 && r.isize == 300 && r.flag == READ_PAIRED
    ensures Classify(r, DEFAULT_CRITERIA) == SkipMapq
  {
  }
}
