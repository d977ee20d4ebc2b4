/** Fairness of the sweep: a pass of the cursor attempts every record it started with, whatever fails. */
module RewardSweep {
  import opened Prelude
  import opened SortedNats
  import opened Rewards

  // ---------------------------------------------------------------- the records after the cursor

  ghost function AfterCursor(cfg: Config, s: State): set<Key> {
    set k | k in s.unpaid && cfg.rank(k) > CursorRank(cfg, s.cursor)
  }

  ghost predicate RankAscending(cfg: Config, keys: seq<Key>) {
    forall i, j :: 0 <= i < j < |keys| ==> cfg.rank(keys[i]) < cfg.rank(keys[j])
  }

  /** The iteration yields exactly the records after the cursor, each once, in storage order. */
  lemma KeysAfterCursor(cfg: Config, s: State)
    requires ValidConfig(cfg)
    ensures RankAscending(cfg, KeysAfter(cfg, s))
    ensures Elements(KeysAfter(cfg, s)) == AfterCursor(cfg, s)
    ensures |KeysAfter(cfg, s)| == |AfterCursor(cfg, s)|
  {
    var ranks, keys := SortedList(RanksAfter(cfg, s)), KeysAfter(cfg, s);
    forall i | 0 <= i < |keys| ensures cfg.rank(keys[i]) == ranks[i] && keys[i] in AfterCursor(cfg, s) {
      assert ranks[i] in Elements(ranks);
      var k :| k in s.unpaid && cfg.rank(k) > CursorRank(cfg, s.cursor) && cfg.rank(k) == ranks[i];
      assert keys[i] == cfg.keyAt(cfg.rank(k)) == k;
    }
    forall k | k in AfterCursor(cfg, s) ensures k in keys {
      assert cfg.rank(k) in Elements(ranks);
      var i :| 0 <= i < |ranks| && ranks[i] == cfg.rank(k);
      assert keys[i] == cfg.keyAt(cfg.rank(k)) == k;
    }
    assert Distinct(keys);
    DistinctCount(keys);
  }

  /** Paying removes nothing but what it was given, and does not move the cursor. */
  lemma {:induction false} PayEachFrame(cfg: Config, s: State, keys: seq<Key>, attempts: Attempts)
    ensures var s' := PayEach(cfg, s, keys, attempts);
            && s'.unpaid.Keys <= s.unpaid.Keys
            && s.unpaid.Keys - s'.unpaid.Keys <= Elements(keys)
            && s'.cursor == s.cursor
    decreases |keys|
  {
    if keys != [] {
      var init, last := keys[..|keys| - 1], keys[|keys| - 1];
      PayEachFrame(cfg, s, init, attempts);
      assert Elements(keys) == Elements(init) + {last};
    }
  }

  // ---------------------------------------------------------------- a pass

  /** The records a pass began with, the keys its sweeps attempted, and the records claims settled meanwhile. */
  datatype Pass = Pass(start: set<Key>, swept: seq<Key>, claimed: set<Key>)

  ghost function SweepPass(cfg: Config, s: State, pass: Pass, capacity: nat, attempts: Attempts): Pass {
    if Exhausts(cfg, s, capacity) then Pass(Sweep(cfg, s, capacity, attempts).unpaid.Keys, [], {})
    else pass.(swept := pass.swept + BatchOf(cfg, s, capacity))
  }

  ghost function StepPass(cfg: Config, s: State, pass: Pass, c: Rewards.Call): Pass {
    match c
    case CallSweep(capacity, attempts) => SweepPass(cfg, s, pass, capacity, attempts)
    case CallProcessOutstanding(attempts) =>
      if BatchOf(cfg, s, cfg.maxPayouts) == [] then pass else SweepPass(cfg, s, pass, cfg.maxPayouts, attempts)
    case CallClaim(_, _, _) =>
      pass.(claimed := pass.claimed + (s.unpaid.Keys - Rewards.Step(cfg, s, c).unpaid.Keys))
    case _ => pass
  }

  /** Behind the cursor every starting record was attempted or claimed; ahead of it none was attempted. */
  ghost predicate PassOk(cfg: Config, s: State, pass: Pass) {
    var cursor := CursorRank(cfg, s.cursor);
    && RankAscending(cfg, pass.swept)
    && (forall k :: k in pass.swept ==> cfg.rank(k) <= cursor)
    && (forall k :: k in pass.start ==>
          k in pass.claimed || (if cfg.rank(k) <= cursor then k in pass.swept else k in s.unpaid))
  }

  lemma AppendAscending(cfg: Config, a: seq<Key>, b: seq<Key>, bound: int)
    requires RankAscending(cfg, a) && RankAscending(cfg, b)
    requires (forall k :: k in a ==> cfg.rank(k) <= bound) && (forall k :: k in b ==> cfg.rank(k) > bound)
    ensures RankAscending(cfg, a + b)
  {
    var c := a + b;
    forall i, j | 0 <= i < j < |c| ensures cfg.rank(c[i]) < cfg.rank(c[j]) {
      if i < |a| <= j {
        assert c[i] in a && c[j] in b;
      }
    }
  }

  /** The batch is the front of what is left, so it splits it by rank. */
  lemma BatchSplits(cfg: Config, s: State, capacity: nat)
    requires ValidConfig(cfg)
    ensures var batch := BatchOf(cfg, s, capacity);
            && RankAscending(cfg, batch)
            && (forall k :: k in batch ==> k in s.unpaid && cfg.rank(k) > CursorRank(cfg, s.cursor))
            && (Exhausts(cfg, s, capacity) ==> Elements(batch) == AfterCursor(cfg, s))
            && (!Exhausts(cfg, s, capacity) ==>
                  && |batch| == capacity
                  && (forall k :: k in batch ==> cfg.rank(k) <= CursorRank(cfg, AdvanceCursor(cfg, s, capacity)))
                  && (forall k :: k in AfterCursor(cfg, s) ==>
                        k in batch || cfg.rank(k) > CursorRank(cfg, AdvanceCursor(cfg, s, capacity))))
  {
    KeysAfterCursor(cfg, s);
    var keys, batch := KeysAfter(cfg, s), BatchOf(cfg, s, capacity);
    forall k | k in batch ensures k in AfterCursor(cfg, s) {
      assert k in keys && k in Elements(keys);
    }
    if !Exhausts(cfg, s, capacity) {
      FrontSplits(cfg, s, capacity);
    }
  }

  lemma FrontSplits(cfg: Config, s: State, capacity: nat)
    requires !Exhausts(cfg, s, capacity) && RankAscending(cfg, KeysAfter(cfg, s))
    requires Elements(KeysAfter(cfg, s)) == AfterCursor(cfg, s)
    ensures var batch, end := BatchOf(cfg, s, capacity), CursorRank(cfg, AdvanceCursor(cfg, s, capacity));
            && |batch| == capacity
            && (forall k :: k in batch ==> cfg.rank(k) <= end)
            && (forall k :: k in AfterCursor(cfg, s) ==> k in batch || cfg.rank(k) > end)
  {
    var keys, batch := KeysAfter(cfg, s), BatchOf(cfg, s, capacity);
    var end := CursorRank(cfg, AdvanceCursor(cfg, s, capacity));
    assert batch == keys[..capacity];
    forall k | k in batch ensures cfg.rank(k) <= end {
      var i :| 0 <= i < |batch| && batch[i] == k;
      assert end == cfg.rank(keys[capacity - 1]);
    }
    forall k | k in AfterCursor(cfg, s) ensures k in batch || cfg.rank(k) > end {
      assert k in Elements(keys);
      var i :| 0 <= i < |keys| && keys[i] == k;
      if i < capacity {
        assert batch[i] == k;
      } else if capacity > 0 {
        assert end == cfg.rank(keys[capacity - 1]);
      }
    }
  }

  /**
   By the time the cursor wraps, every record the pass started with has been attempted
   by a sweep exactly once, or was settled by a claim, whatever payouts failed.
   */
  lemma NoStarvation(cfg: Config, s: State, pass: Pass, capacity: nat)
    requires ValidConfig(cfg) && PassOk(cfg, s, pass) && Exhausts(cfg, s, capacity)
    ensures var attempted := pass.swept + BatchOf(cfg, s, capacity);
            && Distinct(attempted)
            && forall k :: k in pass.start ==> k in attempted || k in pass.claimed
  {
    BatchSplits(cfg, s, capacity);
    var batch := BatchOf(cfg, s, capacity);
    AppendAscending(cfg, pass.swept, batch, CursorRank(cfg, s.cursor));
    var attempted := pass.swept + batch;
    forall k | k in pass.start ensures k in attempted || k in pass.claimed {
      if cfg.rank(k) > CursorRank(cfg, s.cursor) && k in s.unpaid {
        assert k in Elements(batch);
      }
    }
    forall i, j | 0 <= i < j < |attempted| ensures attempted[i] != attempted[j] {
      assert cfg.rank(attempted[i]) < cfg.rank(attempted[j]);
    }
  }

  lemma SweepPassOk(cfg: Config, s: State, pass: Pass, capacity: nat, attempts: Attempts)
    requires ValidConfig(cfg) && PassOk(cfg, s, pass)
    ensures PassOk(cfg, Sweep(cfg, s, capacity, attempts), SweepPass(cfg, s, pass, capacity, attempts))
  {
    BatchSplits(cfg, s, capacity);
    var batch, moved := BatchOf(cfg, s, capacity), s.(cursor := AdvanceCursor(cfg, s, capacity));
    PayEachFrame(cfg, moved, batch, attempts);
    if !Exhausts(cfg, s, capacity) {
      AppendAscending(cfg, pass.swept, batch, CursorRank(cfg, s.cursor));
      var s', pass' := Sweep(cfg, s, capacity, attempts), pass.(swept := pass.swept + batch);
      assert CursorRank(cfg, s.cursor) <= CursorRank(cfg, s'.cursor) by {
        if batch != [] {
          assert batch[|batch| - 1] in batch;
        }
      }
      forall k | k in pass.start
        ensures k in pass'.claimed ||
                (if cfg.rank(k) <= CursorRank(cfg, s'.cursor) then k in pass'.swept else k in s'.unpaid)
      {
        assert k in pass'.swept <==> k in pass.swept || k in batch;
        if k !in pass.claimed && cfg.rank(k) > CursorRank(cfg, s.cursor) {
          assert k in AfterCursor(cfg, s);
          assert k in Elements(batch) || k in s'.unpaid;
        }
      }
    }
  }

  lemma ReclaimFrame(cfg: Config, s: State, p: Period)
    ensures TryReclaim(cfg, s, p).unpaid == s.unpaid && TryReclaim(cfg, s, p).cursor == s.cursor
  {
  }

  lemma StepPassOk(cfg: Config, s: State, pass: Pass, c: Rewards.Call)
    requires ValidConfig(cfg) && PassOk(cfg, s, pass)
    ensures PassOk(cfg, Rewards.Step(cfg, s, c), StepPass(cfg, s, pass, c))
  {
    match c
    case CallSweep(capacity, attempts) => SweepPassOk(cfg, s, pass, capacity, attempts);
    case CallProcessOutstanding(attempts) => SweepPassOk(cfg, s, pass, cfg.maxPayouts, attempts);
    case CallClaim(node, periods, attempts) => PayEachFrame(cfg, s, KeysOf(node, periods), attempts);
    case CallComplete(p) => ReclaimFrame(cfg, s.(completed := s.completed + {p}), p);
    case CallReclaim(p) => ReclaimFrame(cfg, s, p);
    case CallChains(_) =>
    case CallOpen(_) =>
    case CallRecord(_, _) =>
  }

  /** The pass a run is in. */
  ghost function RunPass(cfg: Config, s: State, pass: Pass, calls: seq<Rewards.Call>): Pass
    decreases |calls|
  {
    if calls == [] then pass
    else
      var init := calls[..|calls| - 1];
      StepPass(cfg, Rewards.Run(cfg, s, init), RunPass(cfg, s, pass, init), calls[|calls| - 1])
  }

  /** In every run, from any state with a fresh cursor, every pass is accounted for. */
  lemma {:induction false} RunPassOk(cfg: Config, s: State, pass: Pass, calls: seq<Rewards.Call>)
    requires ValidConfig(cfg) && PassOk(cfg, s, pass)
    ensures PassOk(cfg, Rewards.Run(cfg, s, calls), RunPass(cfg, s, pass, calls))
    decreases |calls|
  {
    if calls != [] {
      var init := calls[..|calls| - 1];
      RunPassOk(cfg, s, pass, init);
      StepPassOk(cfg, Rewards.Run(cfg, s, init), RunPass(cfg, s, pass, init), calls[|calls| - 1]);
    }
  }

  lemma FreshPassOk(cfg: Config, s: State)
    requires s.cursor.None?
    ensures PassOk(cfg, s, Pass(s.unpaid.Keys, [], {}))
  {
  }

  // ---------------------------------------------------------------- how soon the cursor wraps

  ghost predicate Wraps(cfg: Config, s: State, c: Rewards.Call) {
    || (c.CallSweep? && Exhausts(cfg, s, c.capacity))
    || (c.CallProcessOutstanding? && BatchOf(cfg, s, cfg.maxPayouts) != [] && Exhausts(cfg, s, cfg.maxPayouts))
  }

  lemma SweepShrinks(cfg: Config, s: State, capacity: nat, attempts: Attempts)
    requires ValidConfig(cfg) && !Exhausts(cfg, s, capacity)
    ensures |AfterCursor(cfg, Sweep(cfg, s, capacity, attempts))| + capacity <= |AfterCursor(cfg, s)|
  {
    BatchSplits(cfg, s, capacity);
    var batch, s' := BatchOf(cfg, s, capacity), Sweep(cfg, s, capacity, attempts);
    PayEachFrame(cfg, s.(cursor := AdvanceCursor(cfg, s, capacity)), batch, attempts);
    var left := AfterCursor(cfg, s) - Elements(batch);
    forall k | k in AfterCursor(cfg, s') ensures k in left {
      if batch != [] {
        assert batch[|batch| - 1] in batch;
      }
    }
    SubsetCount(AfterCursor(cfg, s'), left);
    assert Elements(batch) <= AfterCursor(cfg, s);
    forall i, j | 0 <= i < j < |batch| ensures batch[i] != batch[j] {
      assert cfg.rank(batch[i]) < cfg.rank(batch[j]);
    }
    DistinctCount(batch);
  }

  lemma OthersShrink(cfg: Config, s: State, c: Rewards.Call)
    requires ValidConfig(cfg) && !c.CallRecord? && !c.CallSweep? && !c.CallProcessOutstanding?
    ensures |AfterCursor(cfg, Rewards.Step(cfg, s, c))| <= |AfterCursor(cfg, s)|
  {
    var s' := Rewards.Step(cfg, s, c);
    match c {
      case CallClaim(node, periods, attempts) => PayEachFrame(cfg, s, KeysOf(node, periods), attempts);
      case CallComplete(p) => ReclaimFrame(cfg, s.(completed := s.completed + {p}), p);
      case CallReclaim(p) => ReclaimFrame(cfg, s, p);
      case CallChains(_) =>
      case CallOpen(_) =>
    }
    SubsetCount(AfterCursor(cfg, s'), AfterCursor(cfg, s));
  }

  /** No call of the run records a reward or wraps the cursor, and every sweep has room for `m` payouts. */
  ghost predicate QuietRun(cfg: Config, s: State, calls: seq<Rewards.Call>, m: nat)
    decreases |calls|
  {
    calls == [] ||
    (var init, c := calls[..|calls| - 1], calls[|calls| - 1];
     && QuietRun(cfg, s, init, m)
     && !c.CallRecord? && !Wraps(cfg, Rewards.Run(cfg, s, init), c)
     && (c.CallSweep? ==> c.capacity >= m))
  }

  ghost function SweepCount(calls: seq<Rewards.Call>): nat {
    if calls == [] then 0
    else SweepCount(calls[..|calls| - 1]) + if calls[|calls| - 1].CallSweep? then 1 else 0
  }

  /** The payouts the sweeps of a run have room for, at `m` each. */
  ghost function SweepRoom(calls: seq<Rewards.Call>, m: nat): nat {
    if calls == [] then 0
    else SweepRoom(calls[..|calls| - 1], m) + if calls[|calls| - 1].CallSweep? then m else 0
  }

  lemma {:induction false} SweepRoomIsProduct(calls: seq<Rewards.Call>, m: nat)
    ensures SweepRoom(calls, m) == SweepCount(calls) * m
    decreases |calls|
  {
    if calls != [] {
      SweepRoomIsProduct(calls[..|calls| - 1], m);
    }
  }

  lemma QuietStepShrinks(cfg: Config, s: State, c: Rewards.Call, m: nat)
    requires ValidConfig(cfg) && !c.CallRecord? && !Wraps(cfg, s, c) && (c.CallSweep? ==> c.capacity >= m)
    ensures |AfterCursor(cfg, Rewards.Step(cfg, s, c))| + (if c.CallSweep? then m else 0) <= |AfterCursor(cfg, s)|
  {
    if c.CallSweep? {
      SweepShrinks(cfg, s, c.capacity, c.attempts);
    } else if c.CallProcessOutstanding? {
      if BatchOf(cfg, s, cfg.maxPayouts) != [] {
        SweepShrinks(cfg, s, cfg.maxPayouts, c.attempts);
      }
    } else {
      OthersShrink(cfg, s, c);
    }
  }

  /** Each sweep that does not wrap uses up `m` of the records that were ahead of the cursor. */
  lemma {:induction false} SweepsUseUp(cfg: Config, s: State, calls: seq<Rewards.Call>, m: nat)
    requires ValidConfig(cfg) && QuietRun(cfg, s, calls, m)
    ensures SweepRoom(calls, m) + |AfterCursor(cfg, Rewards.Run(cfg, s, calls))| <= |AfterCursor(cfg, s)|
    decreases |calls|
  {
    if calls != [] {
      var init := calls[..|calls| - 1];
      SweepsUseUp(cfg, s, init, m);
      QuietStepShrinks(cfg, Rewards.Run(cfg, s, init), calls[|calls| - 1], m);
    }
  }

  /**
   From a fresh cursor over k records, with nothing recorded meanwhile and room for
   m payouts in every sweep, n sweeps can pass without a wrap only if n * m <= k:
   whatever else is interleaved, the wrap comes within k / m + 1 sweeps.
   */
  lemma WrapsInTime(cfg: Config, s: State, calls: seq<Rewards.Call>, m: nat)
    requires ValidConfig(cfg) && s.cursor.None? && QuietRun(cfg, s, calls, m)
    ensures SweepCount(calls) * m <= |s.unpaid|
  {
    SweepsUseUp(cfg, s, calls, m);
    SweepRoomIsProduct(calls, m);
    assert AfterCursor(cfg, s) == s.unpaid.Keys;
  }

  // ---------------------------------------------------------------- a pass in which no payout fails

  /** Every transfer a payout could need would succeed. */
  ghost predicate CanPay(attempts: Attempts) {
    forall k :: attempts(k).eligible <= attempts(k).payable
  }

  ghost predicate SweepsFunded(c: Rewards.Call) {
    c.CallSweep? || c.CallProcessOutstanding? ==> CanPay(c.attempts)
  }

  lemma {:induction false} FundedSettles(cfg: Config, s: State, keys: seq<Key>, attempts: Attempts)
    requires CanPay(attempts)
    ensures PayEach(cfg, s, keys, attempts).unpaid.Keys == s.unpaid.Keys - Elements(keys)
    decreases |keys|
  {
    if keys != [] {
      var init, last := keys[..|keys| - 1], keys[|keys| - 1];
      FundedSettles(cfg, s, init, attempts);
      assert Elements(keys) == Elements(init) + {last};
    } else {
      assert Elements(keys) == {};
    }
  }

  /** Nothing unpaid is left behind the cursor. */
  ghost predicate PaidBehind(cfg: Config, s: State) {
    forall k :: k in s.unpaid ==> cfg.rank(k) > CursorRank(cfg, s.cursor)
  }

  /** A funded sweep leaves nothing behind the cursor, and nothing at all if it wraps it. */
  lemma FundedSweep(cfg: Config, s: State, capacity: nat, attempts: Attempts)
    requires ValidConfig(cfg) && CanPay(attempts) && PaidBehind(cfg, s)
    ensures PaidBehind(cfg, Sweep(cfg, s, capacity, attempts))
    ensures Exhausts(cfg, s, capacity) ==> Sweep(cfg, s, capacity, attempts).unpaid == map[]
  {
    var batch, moved := BatchOf(cfg, s, capacity), s.(cursor := AdvanceCursor(cfg, s, capacity));
    BatchSplits(cfg, s, capacity);
    FundedSettles(cfg, moved, batch, attempts);
    PayEachFrame(cfg, moved, batch, attempts);
    assert AfterCursor(cfg, s) == s.unpaid.Keys;
    var s' := Sweep(cfg, s, capacity, attempts);
    forall k | k in s'.unpaid ensures !Exhausts(cfg, s, capacity) && cfg.rank(k) > CursorRank(cfg, s'.cursor) {
      assert k in AfterCursor(cfg, s) && k !in batch;
    }
  }

  lemma OthersPaidBehind(cfg: Config, s: State, c: Rewards.Call)
    requires ValidConfig(cfg) && PaidBehind(cfg, s) && !c.CallRecord? && !c.CallSweep? && !c.CallProcessOutstanding?
    ensures PaidBehind(cfg, Rewards.Step(cfg, s, c))
  {
    match c
    case CallClaim(node, periods, attempts) => PayEachFrame(cfg, s, KeysOf(node, periods), attempts);
    case CallComplete(p) => ReclaimFrame(cfg, s.(completed := s.completed + {p}), p);
    case CallReclaim(p) => ReclaimFrame(cfg, s, p);
    case CallChains(_) =>
    case CallOpen(_) =>
  }

  lemma {:induction false} PaidBehindRun(cfg: Config, s: State, calls: seq<Rewards.Call>, m: nat)
    requires ValidConfig(cfg) && PaidBehind(cfg, s) && QuietRun(cfg, s, calls, m)
    requires forall c :: c in calls ==> SweepsFunded(c)
    ensures PaidBehind(cfg, Rewards.Run(cfg, s, calls))
    decreases |calls|
  {
    if calls != [] {
      var init, c := calls[..|calls| - 1], calls[|calls| - 1];
      PaidBehindRun(cfg, s, init, m);
      assert c in calls;
      PaidBehindStep(cfg, Rewards.Run(cfg, s, init), c);
    }
  }

  lemma PaidBehindStep(cfg: Config, s: State, c: Rewards.Call)
    requires ValidConfig(cfg) && PaidBehind(cfg, s) && SweepsFunded(c) && !c.CallRecord?
    ensures PaidBehind(cfg, Rewards.Step(cfg, s, c))
  {
    match c
    case CallSweep(capacity, attempts) => FundedSweep(cfg, s, capacity, attempts);
    case CallProcessOutstanding(attempts) => FundedSweep(cfg, s, cfg.maxPayouts, attempts);
    case _ => OthersPaidBehind(cfg, s, c);
  }

  /**
   So if no payout of a pass fails, everything is paid at its wrap: from a fresh cursor
   over k records, with room for m payouts in every sweep, within k / m + 1 sweeps.
   */
  lemma AllPaidAtWrap(cfg: Config, s: State, calls: seq<Rewards.Call>, m: nat, capacity: nat, attempts: Attempts)
    requires ValidConfig(cfg) && s.cursor.None? && QuietRun(cfg, s, calls, m)
    requires (forall c :: c in calls ==> SweepsFunded(c)) && CanPay(attempts)
    requires Exhausts(cfg, Rewards.Run(cfg, s, calls), capacity)
    ensures Rewards.Run(cfg, s, calls + [CallSweep(capacity, attempts)]).unpaid == map[]
    ensures SweepCount(calls) * m <= |s.unpaid|
  {
    PaidBehindRun(cfg, s, calls, m);
    FundedSweep(cfg, Rewards.Run(cfg, s, calls), capacity, attempts);
    WrapsInTime(cfg, s, calls, m);
    var all := calls + [CallSweep(capacity, attempts)];
    assert all[..|all| - 1] == calls;
  }
}
