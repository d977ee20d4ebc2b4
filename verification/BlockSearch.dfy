/**
 The timestamp-to-block search behind the linked-balances query: interpolation
 guesses with a binary-search fallback, proved to agree with a linear scan.
 */
module BlockSearch {
  import opened Prelude

  /** A finalised block; `available` is false when the node cannot read its hash or timestamp. */
  datatype Block = Block(hash: string, timestamp: nat, available: bool)

  /** Blocks 0 to the latest finalised one. */
  type Chain = seq<Block>

  datatype BlockInfo = BlockInfo(number: nat, hash: string, timestamp: nat)

  datatype RpcError = BlockUnavailable(number: nat) | TimestampOverflow | ZeroBlockTime

  function BlockInfoAt(chain: Chain, number: nat): Result<BlockInfo, RpcError> {
    if number < |chain| && chain[number].available
    then Ok(BlockInfo(number, chain[number].hash, chain[number].timestamp))
    else Err(BlockUnavailable(number))
  }

  ghost predicate NonDecreasing(chain: Chain) {
    forall i, j :: 0 <= i < j < |chain| ==> chain[i].timestamp <= chain[j].timestamp
  }

  ghost predicate StrictlyIncreasing(chain: Chain) {
    forall i, j :: 0 <= i < j < |chain| ==> chain[i].timestamp < chain[j].timestamp
  }

  // ---------------------------------------------------------------- reference and cost

  /** The reference: walk back from block `from` to the first block at or before the target. */
  ghost function LinearScan(chain: Chain, from: nat, target: nat): (n: nat)
    requires from < |chain|
    ensures n <= from
    ensures n == 0 || chain[n].timestamp <= target
    ensures forall k :: n < k <= from ==> chain[k].timestamp > target
  {
    if from == 0 || chain[from].timestamp <= target then from
    else LinearScan(chain, from - 1, target)
  }

  /** The least `k` with `n <= 2^k`. */
  ghost function CeilLog2(n: nat): nat {
    if n <= 1 then 0 else 1 + CeilLog2((n + 1) / 2)
  }

  ghost function Pow2(k: nat): nat {
    if k == 0 then 1 else 2 * Pow2(k - 1)
  }

  lemma {:induction false} CeilLog2IsLeast(n: nat)
    requires n >= 1
    ensures n <= Pow2(CeilLog2(n))
    ensures n > 1 ==> Pow2(CeilLog2(n) - 1) < n
  {
    if n > 1 {
      CeilLog2IsLeast((n + 1) / 2);
    }
  }

  lemma {:induction false} CeilLog2Monotone(m: nat, n: nat)
    requires m <= n
    ensures CeilLog2(m) <= CeilLog2(n)
  {
    if m > 1 {
      CeilLog2Monotone((m + 1) / 2, (n + 1) / 2);
    }
  }

  // ---------------------------------------------------------------- the midpoint

  /** The upper midpoint, with the 32-bit sum the code forms. */
  function Midpoint(lo: nat, hi: nat): nat {
    ((lo + hi) % U32_RANGE + 1) / 2
  }

  /** A midpoint shrinks the range exactly when the 32-bit sum does not wrap. */
  lemma MidpointShrinksIff(lo: nat, hi: nat)
    requires lo < hi <= U32_MAX
    ensures lo < Midpoint(lo, hi) <= hi <==> lo + hi <= U32_MAX
  {
    if lo + hi > U32_MAX {
      assert (lo + hi) % U32_RANGE == lo + hi - U32_RANGE;
    }
  }

  /** So every midpoint of a chain is sound exactly when its last number is at most 2^31. */
  lemma AllMidpointsShrinkIff(latest: nat)
    requires latest <= U32_MAX
    ensures (forall lo: nat, hi: nat :: lo < hi <= latest ==> lo < Midpoint(lo, hi) <= hi)
       <==> latest <= 0x8000_0000
  {
    forall lo: nat, hi: nat | lo < hi <= latest
      ensures lo < Midpoint(lo, hi) <= hi <==> lo + hi <= U32_MAX
    {
      MidpointShrinksIff(lo, hi);
    }
    if latest > 0x8000_0000 {
      assert !(latest - 1 < Midpoint(latest - 1, latest) <= latest);
    }
  }

  // ---------------------------------------------------------------- the search

  function Clamp(n: nat, min: nat, max: nat): nat {
    Min(Max(n, min), max)
  }

  /**
   The floating-point projection is any function of the two probes; its guards,
   and the clamp to the current range, are the code's.
   */
  type Projection = (BlockInfo, BlockInfo, nat) -> nat

  function InterpolateNextGuess(a: BlockInfo, b: BlockInfo, target: nat, min: nat, max: nat, project: Projection)
    : (r: Option<nat>)
    requires min <= max
    ensures r.Some? ==> min <= r.value <= max
  {
    if b.number <= a.number then None
    else if b.timestamp <= a.timestamp then None
    else Some(Clamp(project(a, b, target), min, max))
  }

  /** The range still holds the answer. */
  ghost predicate Brackets(chain: Chain, lo: nat, hi: nat, target: nat) {
    && lo <= hi < |chain|
    && (lo == 0 || chain[lo].timestamp <= target)
    && (forall n :: hi < n < |chain| ==> chain[n].timestamp > target)
  }

  lemma BracketsHoldScan(chain: Chain, lo: nat, hi: nat, target: nat)
    requires NonDecreasing(chain) && Brackets(chain, lo, hi, target)
    ensures lo <= LinearScan(chain, |chain| - 1, target) <= hi
  {
    var n := LinearScan(chain, |chain| - 1, target);
    assert chain[n].timestamp <= target || n == 0;
  }

  ghost predicate SomeUnavailable(chain: Chain) {
    exists b :: b in chain && !b.available
  }

  lemma ReadFails(chain: Chain, n: nat)
    requires n < |chain|
    ensures BlockInfoAt(chain, n).Err? ==> SomeUnavailable(chain)
  {
    assert chain[n] in chain;
  }

  /** Either half of a range costs one probe less than the range. */
  lemma HalvingCost(lo: nat, hi: nat)
    requires lo < hi <= 0x8000_0000
    ensures lo < Midpoint(lo, hi) <= hi
    ensures CeilLog2(hi - Midpoint(lo, hi) + 1) < CeilLog2(hi - lo + 1)
    ensures CeilLog2(Midpoint(lo, hi) - lo) < CeilLog2(hi - lo + 1)
  {
    MidpointShrinksIff(lo, hi);
    var half := (hi - lo + 2) / 2;
    CeilLog2Monotone(hi - Midpoint(lo, hi) + 1, half);
    CeilLog2Monotone(Midpoint(lo, hi) - lo, half);
  }

  method BinarySearchRange(chain: Chain, from: nat, to: nat, target: nat)
    returns (r: Result<BlockInfo, RpcError>, ghost probes: nat)
    requires |chain| <= 0x8000_0001
    requires NonDecreasing(chain)
    requires Brackets(chain, from, to, target)
    ensures r.Ok? ==> r == BlockInfoAt(chain, LinearScan(chain, |chain| - 1, target))
    ensures r.Err? ==> SomeUnavailable(chain)
    ensures probes <= CeilLog2(to - from + 1) + 1
  {
    var lo, hi := from, to;
    probes := 0;
    while lo < hi
      invariant Brackets(chain, lo, hi, target)
      invariant probes + CeilLog2(hi - lo + 1) <= CeilLog2(to - from + 1)
      decreases hi - lo
    {
      HalvingCost(lo, hi);
      var mid := Midpoint(lo, hi);
      var info := BlockInfoAt(chain, mid);
      probes := probes + 1;
      ReadFails(chain, mid);
      if info.Err? {
        return Err(info.error), probes;
      }
      if info.value.timestamp <= target {
        lo := mid;
      } else {
        hi := mid - 1;
      }
    }
    r := BlockInfoAt(chain, lo);
    probes := probes + 1;
    BracketsHoldScan(chain, lo, hi, target);
    ReadFails(chain, lo);
  }

  /** What every exit of the search returns. */
  ghost predicate Answers(chain: Chain, target: nat, r: Result<BlockInfo, RpcError>) {
    match r
    case Err(_) => SomeUnavailable(chain)
    case Ok(info) =>
      && r == BlockInfoAt(chain, info.number)
      && (info.number == LinearScan(chain, |chain| - 1, target) || info.timestamp == target)
  }

  /** Narrows the range by a probe that missed the target. */
  function Narrow(lo: nat, hi: nat, probe: BlockInfo, target: nat): (nat, nat) {
    if probe.timestamp < target then (Max(lo, probe.number), hi) else (lo, Min(hi, probe.number))
  }

  lemma NarrowBrackets(chain: Chain, lo: nat, hi: nat, probe: BlockInfo, target: nat)
    requires NonDecreasing(chain) && Brackets(chain, lo, hi, target)
    requires lo <= probe.number <= hi && Ok(probe) == BlockInfoAt(chain, probe.number)
    requires probe.timestamp != target
    ensures var (lo', hi') := Narrow(lo, hi, probe, target);
            Brackets(chain, lo', hi', target) && lo <= lo' && hi' <= hi
  {
  }

  method FindBlockAtOrBeforeTimestamp(chain: Chain, target: nat, blockTime: nat, project: Projection)
    returns (r: Result<BlockInfo, RpcError>, ghost probes: nat)
    requires 0 < |chain| <= 0x8000_0001
    requires NonDecreasing(chain)
    requires target < chain[|chain| - 1].timestamp && blockTime > 0
    ensures Answers(chain, target, r)
    ensures probes <= 9 + CeilLog2(|chain|)
  {
    var latest := |chain| - 1;
    var blocksBack := ((chain[latest].timestamp - target) / blockTime) % U32_RANGE;
    var initialEstimate := SaturatingSub(latest, blocksBack);

    var info := BlockInfoAt(chain, initialEstimate);
    probes := 1;
    if info.Err? {
      assert chain[initialEstimate] in chain;
      return Err(info.error), probes;
    }
    var a := info.value;
    if a.timestamp == target {
      return BlockInfoAt(chain, a.number), probes + 1;
    }

    var (lo, hi) := if a.timestamp < target then (a.number, latest) else (0, a.number);
    var distance := if a.timestamp < target then target - a.timestamp else a.timestamp - target;
    var step := Max(distance / blockTime, 1) % U32_RANGE;
    var secondGuess := if a.timestamp < target
                       then Clamp(SaturatingAdd(a.number, step, U32_MAX), lo, hi)
                       else Clamp(SaturatingSub(a.number, step), lo, hi);
    CeilLog2Monotone(hi - lo + 1, |chain|);
    if secondGuess == a.number {
      ghost var more;
      r, more := BinarySearchRange(chain, lo, hi, target);
      return r, probes + more;
    }

    info := BlockInfoAt(chain, secondGuess);
    probes := 2;
    if info.Err? {
      assert chain[secondGuess] in chain;
      return Err(info.error), probes;
    }
    var b := info.value;
    if b.timestamp == target {
      return BlockInfoAt(chain, b.number), probes + 1;
    }
    NarrowBrackets(chain, lo, hi, b, target);
    var (lo', hi') := Narrow(lo, hi, b, target);
    r, probes := Interpolate(chain, a, b, lo', hi', target, project);
    probes := probes + 2;
  }

  /** The refinement loop: at most six interpolated probes, then binary search. */
  method Interpolate(chain: Chain, first: BlockInfo, second: BlockInfo, from: nat, to: nat, target: nat,
                     project: Projection)
    returns (r: Result<BlockInfo, RpcError>, ghost probes: nat)
    requires |chain| <= 0x8000_0001
    requires NonDecreasing(chain) && Brackets(chain, from, to, target)
    ensures Answers(chain, target, r)
    ensures probes <= 7 + CeilLog2(|chain|)
  {
    var a, b, lo, hi := first, second, from, to;
    probes := 0;
    for i := 0 to 6
      invariant Brackets(chain, lo, hi, target)
      invariant probes <= i
    {
      var nextGuess := InterpolateNextGuess(a, b, target, lo, hi, project);
      if nextGuess.None? || nextGuess.value == a.number || nextGuess.value == b.number {
        break;
      }
      var info := BlockInfoAt(chain, nextGuess.value);
      probes := probes + 1;
      if info.Err? {
        assert chain[nextGuess.value] in chain;
        return Err(info.error), probes;
      }
      var c := info.value;
      if c.timestamp == target {
        return BlockInfoAt(chain, c.number), probes + 1;
      }
      NarrowBrackets(chain, lo, hi, c, target);
      var (lo', hi') := Narrow(lo, hi, c, target);
      lo, hi := lo', hi';
      if SaturatingSub(hi, lo) <= 1 {
        break;
      }
      a, b := b, c;
    }
    CeilLog2Monotone(hi - lo + 1, |chain|);
    ghost var more;
    r, more := BinarySearchRange(chain, lo, hi, target);
    probes := probes + more;
  }

  // ---------------------------------------------------------------- the query

  /** The block the query takes balances at. */
  method BlockForTimestamp(chain: Chain, timestampSec: nat, blockTime: nat, project: Projection)
    returns (r: Result<BlockInfo, RpcError>, ghost probes: nat)
    requires 0 < |chain| <= 0x8000_0001
    requires NonDecreasing(chain)
    ensures timestampSec * 1000 > 0xFFFF_FFFF_FFFF_FFFF ==> r == Err(TimestampOverflow)
    ensures timestampSec * 1000 <= 0xFFFF_FFFF_FFFF_FFFF && blockTime == 0 ==> r == Err(ZeroBlockTime)
    ensures timestampSec * 1000 <= 0xFFFF_FFFF_FFFF_FFFF && blockTime > 0 && r.Err? ==> SomeUnavailable(chain)
    ensures r.Ok? ==> Serves(chain, timestampSec * 1000, r.value)
    ensures probes <= 9 + CeilLog2(|chain|)
  {
    probes := 0;
    var target := timestampSec * 1000;
    if target > 0xFFFF_FFFF_FFFF_FFFF {
      return Err(TimestampOverflow), probes;
    }
    if blockTime == 0 {
      return Err(ZeroBlockTime), probes;
    }
    var latest := |chain| - 1;
    if target >= chain[latest].timestamp {
      r := Ok(BlockInfo(latest, chain[latest].hash, chain[latest].timestamp));
    } else {
      r, probes := FindBlockAtOrBeforeTimestamp(chain, target, blockTime, project);
      if r.Ok? {
        AnswersServe(chain, target, r.value);
      }
    }
  }

  /**
   The meaning of an answer: it is at or before the target exactly when the first
   block is; it is as late as any such block; and it is the scan's block itself
   when timestamps strictly increase.
   */
  ghost predicate Serves(chain: Chain, target: nat, info: BlockInfo)
    requires chain != []
  {
    var scan := LinearScan(chain, |chain| - 1, target);
    && info.number < |chain|
    && info == BlockInfo(info.number, chain[info.number].hash, chain[info.number].timestamp)
    && info.timestamp == chain[scan].timestamp
    && (info.timestamp <= target <==> chain[0].timestamp <= target)
    && (StrictlyIncreasing(chain) ==> info.number == scan)
  }

  lemma AnswersServe(chain: Chain, target: nat, info: BlockInfo)
    requires chain != [] && NonDecreasing(chain)
    requires Answers(chain, target, Ok(info))
    ensures Serves(chain, target, info)
  {
    var scan := LinearScan(chain, |chain| - 1, target);
    if info.number != scan {
      assert info.timestamp == target;
      assert info.number <= scan;
      assert chain[info.number].timestamp <= chain[scan].timestamp;
      assert chain[0].timestamp <= chain[info.number].timestamp;
    }
    if scan != 0 {
      assert chain[0].timestamp <= chain[scan].timestamp;
    }
  }

  /** For strictly increasing timestamps the answer is the only block n with ts(n) <= target < ts(n+1). */
  lemma ServedBlockIsUnique(chain: Chain, target: nat, info: BlockInfo, n: nat)
    requires chain != [] && StrictlyIncreasing(chain) && Serves(chain, target, info)
    requires chain[0].timestamp <= target < chain[|chain| - 1].timestamp
    ensures n + 1 < |chain| && chain[n].timestamp <= target < chain[n + 1].timestamp <==> n == info.number
  {
    var scan := LinearScan(chain, |chain| - 1, target);
    if n + 1 < |chain| && chain[n].timestamp <= target < chain[n + 1].timestamp {
      assert chain[scan].timestamp <= target;
    }
  }

  // ---------------------------------------------------------------- past block 2^31

  /** One turn of the binary search's loop, in 32-bit arithmetic, over a chain whose blocks are all readable. */
  function SearchStep(chain: Chain, target: nat, lo: nat, hi: nat): (nat, nat) {
    var mid := Midpoint(lo, hi);
    if lo >= hi then (lo, hi)
    else if mid < |chain| && chain[mid].timestamp <= target then (mid, hi)
    else (lo, if mid == 0 then U32_MAX else mid - 1)
  }

  ghost function SearchSteps(chain: Chain, target: nat, lo: nat, hi: nat, k: nat): (nat, nat)
    decreases k
  {
    if k == 0 then (lo, hi)
    else var (lo', hi') := SearchStep(chain, target, lo, hi); SearchSteps(chain, target, lo', hi', k - 1)
  }

  /** After some number of turns the range is down to one block. */
  ghost predicate Ends(chain: Chain, target: nat, lo: nat, hi: nat) {
    exists k: nat :: Closed(SearchSteps(chain, target, lo, hi, k))
  }

  /** The search of the whole chain ends. */
  ghost predicate EndsOver(chain: Chain, target: nat)
    requires chain != []
  {
    Ends(chain, target, 0, |chain| - 1)
  }

  predicate Closed(range: (nat, nat)) {
    range.0 >= range.1
  }

  lemma {:induction false} EndsUpTo(chain: Chain, target: nat, lo: nat, hi: nat)
    requires lo <= hi <= 0x8000_0000 && hi < |chain|
    ensures Ends(chain, target, lo, hi)
    decreases hi - lo
  {
    if lo == hi {
      assert Closed(SearchSteps(chain, target, lo, hi, 0));
    } else {
      MidpointShrinksIff(lo, hi);
      var (lo', hi') := SearchStep(chain, target, lo, hi);
      EndsUpTo(chain, target, lo', hi');
      var k: nat :| Closed(SearchSteps(chain, target, lo', hi', k));
      assert Closed(SearchSteps(chain, target, lo, hi, k + 1));
    }
  }

  /** The last block past 2^31 is never the midpoint of a range that ends with it. */
  lemma LastIsNeverProbed(lo: nat, latest: nat)
    requires lo < latest && 0x8000_0000 < latest <= U32_MAX
    ensures Midpoint(lo, latest) < latest
  {
    if lo + latest > U32_MAX {
      assert (lo + latest) % U32_RANGE == lo + latest - U32_RANGE;
    }
  }

  /** With the last block alone after the target, the upper end never moves. */
  lemma {:induction false} NeverCloses(chain: Chain, target: nat, lo: nat, k: nat)
    requires 0x8000_0001 < |chain| <= U32_RANGE && lo < |chain| - 1
    requires forall n :: 0 <= n < |chain| - 1 ==> chain[n].timestamp <= target
    ensures !Closed(SearchSteps(chain, target, lo, |chain| - 1, k))
    decreases k
  {
    if k > 0 {
      var latest := |chain| - 1;
      LastIsNeverProbed(lo, latest);
      NeverCloses(chain, target, Midpoint(lo, latest), k - 1);
    }
  }

  /**
   Over a whole chain with increasing timestamps the loop ends for every target exactly when
   the last block number is at most 2^31; past that it runs on for every target between
   the last two blocks.
   */
  lemma SearchEndsIff(chain: Chain)
    requires chain != [] && |chain| <= U32_RANGE && StrictlyIncreasing(chain)
    ensures (forall target: nat :: EndsOver(chain, target)) <==> |chain| - 1 <= 0x8000_0000
  {
    var latest := |chain| - 1;
    if latest <= 0x8000_0000 {
      forall target: nat ensures EndsOver(chain, target) {
        EndsUpTo(chain, target, 0, latest);
      }
    } else {
      var target := chain[latest - 1].timestamp;
      forall k: nat ensures !Closed(SearchSteps(chain, target, 0, latest, k)) {
        NeverCloses(chain, target, 0, k);
      }
      assert !EndsOver(chain, target);
    }
  }
}
