/** Conservation of rewards: what has been paid is an exact function of what was opened, recorded and settled. */
module RewardLedger {
  import opened Prelude
  import opened Sums
  import opened SortedNats
  import opened AppChains
  import opened Rewards

  /**
   What has happened so far: each period's snapshot as it was opened, every record
   ever made, the chains each settled record was eligible for when it was settled,
   and the periods reported complete.
   */
  datatype History = History(
    openings: map<Period, Snapshot>,
    recorded: map<Key, Record>,
    settled: map<Key, set<Asset>>,
    closed: set<Period>)

  ghost function KeysIn(keys: set<Key>, p: Period): set<Key> {
    set k | k in keys && k.period == p
  }

  ghost function Shares(recorded: map<Key, Record>): Key -> nat {
    k => if k in recorded then recorded[k].share else 0
  }

  ghost function TotalShares(recorded: map<Key, Record>, p: Period): nat {
    Sum(KeysIn(recorded.Keys, p), Shares(recorded))
  }

  /** No period hands out more than the whole. */
  ghost predicate SharesOk(recorded: map<Key, Record>) {
    forall p :: TotalShares(recorded, p) <= PERQUINTILL
  }

  ghost function TryPayHistory(s: State, h: History, key: Key, attempt: Attempt): History {
    if Pays(s, key, attempt) then h.(settled := h.settled[key := attempt.eligible]) else h
  }

  ghost function PayEachHistory(cfg: Config, s: State, h: History, keys: seq<Key>, attempts: Attempts): History
    decreases |keys|
  {
    if keys == [] then h
    else
      var init, last := keys[..|keys| - 1], keys[|keys| - 1];
      TryPayHistory(PayEach(cfg, s, init, attempts), PayEachHistory(cfg, s, h, init, attempts), last, attempts(last))
  }

  ghost function SweepHistory(cfg: Config, s: State, h: History, capacity: nat, attempts: Attempts): History {
    PayEachHistory(cfg, s.(cursor := AdvanceCursor(cfg, s, capacity)), h, BatchOf(cfg, s, capacity), attempts)
  }

  ghost function StepHistory(cfg: Config, s: State, h: History, c: Rewards.Call): History {
    match c
    case CallChains(_) => h
    case CallOpen(p) => OpenHistory(s, h, p)
    case CallRecord(key, record) => RecordHistory(s, h, key, record)
    case CallComplete(p) => h.(closed := h.closed + {p})
    case CallClaim(node, periods, attempts) => PayEachHistory(cfg, s, h, KeysOf(node, periods), attempts)
    case CallSweep(capacity, attempts) => SweepHistory(cfg, s, h, capacity, attempts)
    case CallProcessOutstanding(attempts) =>
      if BatchOf(cfg, s, cfg.maxPayouts) == [] then h else SweepHistory(cfg, s, h, cfg.maxPayouts, attempts)
    case CallReclaim(_) => h
  }

  /**
   The protocol the node manager follows: a period is opened once, before it is
   complete; a node is recorded at most once per period and not after completion;
   and a period's shares do not exceed the whole.
   */
  ghost predicate Allowed(h: History, c: Rewards.Call) {
    match c
    case CallOpen(p) => p !in h.openings && p !in h.closed
    case CallRecord(key, record) =>
      && key !in h.recorded && key.period !in h.closed
      && TotalShares(h.recorded, key.period) + record.share <= PERQUINTILL
    case _ => true
  }

  // ---------------------------------------------------------------- the invariant

  /** Records are unpaid or settled, indexed both ways, and belong to opened periods. */
  ghost predicate RecordsOk(s: State, h: History) {
    && s.byNode == s.unpaid.Keys
    && h.recorded.Keys == s.unpaid.Keys + h.settled.Keys
    && s.unpaid.Keys !! h.settled.Keys
    && (forall k :: k in s.unpaid ==> s.unpaid[k] == h.recorded[k])
    && (forall k :: k in h.recorded ==> k.period in h.openings)
  }

  /** A snapshot is as opened until the period is complete and settled, and then it is gone. */
  ghost predicate SnapshotOk(s: State, h: History, p: Period) {
    && SnapshotOf(s, p) == (if p in h.openings && (p !in h.closed || HasUnpaid(s, p)) then h.openings[p] else map[])
    && (p in s.completed <==> p in h.closed && HasUnpaid(s, p))
  }

  ghost predicate SnapshotsOk(s: State, h: History) {
    forall p :: SnapshotOk(s, h, p)
  }

  ghost predicate SnapshotsBounded(cfg: Config, h: History) {
    forall p :: p in h.openings ==> |h.openings[p]| <= cfg.limits.maxChains
  }

  /** What a line is owed: the share of the opened pool, once the record is settled and was eligible. */
  ghost function Owed(h: History, line: Line): nat {
    if && line.key in h.settled && line.asset in h.settled[line.key]
       && line.key in h.recorded
       && line.key.period in h.openings && line.asset in h.openings[line.key.period]
    then ShareOf(h.recorded[line.key].share, h.openings[line.key.period][line.asset].amount)
    else 0
  }

  /** Every line has been paid exactly what it is owed, to the recorded owner, in the opened token. */
  ghost predicate PaidOk(s: State, h: History) {
    forall line :: line in s.paid.Keys || Owed(h, line) > 0 ==>
      && line in s.paid && s.paid[line].amount == Owed(h, line) > 0
      && s.paid[line].owner == h.recorded[line.key].owner
      && s.paid[line].token == h.openings[line.key.period][line.asset].token
  }

  ghost predicate Inv(cfg: Config, s: State, h: History) {
    && ChainsOk(cfg.limits, s.chains)
    && RecordsOk(s, h)
    && SharesOk(h.recorded)
    && SnapshotsOk(s, h)
    && SnapshotsBounded(cfg, h)
    && PaidOk(s, h)
  }

  // ---------------------------------------------------------------- reclaim

  /** A snapshot within the bound is reclaimed in one call, or not at all. */
  ghost function Reclaimed(s: State, p: Period): State {
    if p in s.completed && !HasUnpaid(s, p)
    then s.(snapshots := s.snapshots - {p}, completed := s.completed - {p}) else s
  }

  lemma ReclaimInOneCall(cfg: Config, s: State, p: Period)
    requires |SnapshotOf(s, p)| <= cfg.limits.maxChains
    ensures TryReclaim(cfg, s, p) == Reclaimed(s, p)
  {
    ClearEmpties(SnapshotOf(s, p), cfg.limits.maxChains);
  }

  /** Reclaiming settles a period that is right but for its completion marker. */
  lemma ReclaimRestores(s: State, h: History, p: Period, q: Period)
    requires q != p ==> SnapshotOk(s, h, q)
    requires p in s.completed <==> p in h.closed
    requires SnapshotOf(s, p) == (if p in h.openings then h.openings[p] else map[])
          || (SnapshotOf(s, p) == map[] && p in h.closed && !HasUnpaid(s, p))
    ensures SnapshotOk(Reclaimed(s, p), h, q)
  {
    assert HasUnpaid(Reclaimed(s, p), q) <==> HasUnpaid(s, q);
  }

  // ---------------------------------------------------------------- payouts

  /** A state whose record is paid and gone, before its period is looked at. */
  ghost function Cleared(s: State, key: Key, eligible: set<Asset>): State
    requires key in s.unpaid
  {
    var record := s.unpaid[key];
    s.(paid := PayAllDue(s.paid, key, record, SnapshotOf(s, key.period), Due(s, key, record, eligible)),
       unpaid := s.unpaid - {key}, byNode := s.byNode - {key})
  }

  lemma LiveSnapshot(cfg: Config, s: State, h: History, key: Key)
    requires Inv(cfg, s, h) && key in s.unpaid
    ensures key in h.recorded && key.period in h.openings
    ensures SnapshotOf(s, key.period) == h.openings[key.period]
    ensures key.period in s.completed <==> key.period in h.closed
    ensures |SnapshotOf(s, key.period)| <= cfg.limits.maxChains
  {
    assert SnapshotOk(s, h, key.period);
    assert HasUnpaid(s, key.period);
  }

  lemma ClearedRecords(s: State, h: History, key: Key, eligible: set<Asset>)
    requires RecordsOk(s, h) && key in s.unpaid
    ensures RecordsOk(Cleared(s, key, eligible), h.(settled := h.settled[key := eligible]))
  {
  }

  lemma ClearedPaid(s: State, h: History, key: Key, eligible: set<Asset>)
    requires RecordsOk(s, h) && PaidOk(s, h) && key in s.unpaid
    requires SnapshotOf(s, key.period) == h.openings[key.period]
    ensures PaidOk(Cleared(s, key, eligible), h.(settled := h.settled[key := eligible]))
  {
    var s', h' := Cleared(s, key, eligible), h.(settled := h.settled[key := eligible]);
    forall line | line in s'.paid || Owed(h', line) > 0
      ensures line in s'.paid && s'.paid[line].amount == Owed(h', line) > 0
      ensures s'.paid[line].owner == h'.recorded[line.key].owner
      ensures s'.paid[line].token == h'.openings[line.key.period][line.asset].token
    {
      if line.key == key {
        assert Owed(h, line) == 0 && line !in s.paid;
      } else {
        assert Owed(h', line) == Owed(h, line);
        assert line in s'.paid <==> line in s.paid;
      }
    }
  }

  lemma ClearedSnapshots(s: State, h: History, key: Key, eligible: set<Asset>, q: Period)
    requires SnapshotOk(s, h, q) && key in s.unpaid && q != key.period
    ensures SnapshotOk(Cleared(s, key, eligible), h.(settled := h.settled[key := eligible]), q)
  {
    var s' := Cleared(s, key, eligible);
    assert HasUnpaid(s', q) <==> HasUnpaid(s, q) by {
      if k :| k in s.unpaid && k.period == q {
        assert k in s'.unpaid;
      }
    }
  }

  lemma SettledSnapshotsOk(cfg: Config, s: State, h: History, key: Key, eligible: set<Asset>)
    requires Inv(cfg, s, h) && key in s.unpaid
    ensures SnapshotsOk(Reclaimed(Cleared(s, key, eligible), key.period), h.(settled := h.settled[key := eligible]))
  {
    var s1, h', p := Cleared(s, key, eligible), h.(settled := h.settled[key := eligible]), key.period;
    LiveSnapshot(cfg, s, h, key);
    forall q ensures SnapshotOk(Reclaimed(s1, p), h', q) {
      if q != p {
        ClearedSnapshots(s, h, key, eligible, q);
      }
      ReclaimRestores(s1, h', p, q);
    }
  }

  lemma SettleInv(cfg: Config, s: State, h: History, key: Key, eligible: set<Asset>)
    requires Inv(cfg, s, h) && key in s.unpaid
    ensures Inv(cfg, Settle(cfg, s, key, eligible), h.(settled := h.settled[key := eligible]))
  {
    var s1, h' := Cleared(s, key, eligible), h.(settled := h.settled[key := eligible]);
    LiveSnapshot(cfg, s, h, key);
    ClearedRecords(s, h, key, eligible);
    ClearedPaid(s, h, key, eligible);
    ReclaimInOneCall(cfg, s1, key.period);
    SettledSnapshotsOk(cfg, s, h, key, eligible);
    ReclaimKeeps(s1, h', key.period);
    InvParts(cfg, Reclaimed(s1, key.period), h');
  }

  lemma ReclaimKeeps(s: State, h: History, p: Period)
    requires RecordsOk(s, h) && PaidOk(s, h)
    ensures RecordsOk(Reclaimed(s, p), h) && PaidOk(Reclaimed(s, p), h)
  {
  }

  lemma {:induction false} PayEachInv(cfg: Config, s: State, h: History, keys: seq<Key>, attempts: Attempts)
    requires Inv(cfg, s, h)
    ensures Inv(cfg, PayEach(cfg, s, keys, attempts), PayEachHistory(cfg, s, h, keys, attempts))
    decreases |keys|
  {
    if keys != [] {
      var init, last := keys[..|keys| - 1], keys[|keys| - 1];
      PayEachInv(cfg, s, h, init, attempts);
      var s1, h1 := PayEach(cfg, s, init, attempts), PayEachHistory(cfg, s, h, init, attempts);
      if Pays(s1, last, attempts(last)) {
        SettleInv(cfg, s1, h1, last, attempts(last).eligible);
      }
    }
  }

  // ---------------------------------------------------------------- every step

  /** Records do not depend on the snapshots, the markers or the completed periods. */
  lemma RecordsFrame(s: State, h: History, s': State, h': History)
    requires RecordsOk(s, h)
    requires s'.unpaid == s.unpaid && s'.byNode == s.byNode
    requires h'.recorded == h.recorded && h'.settled == h.settled && h.openings.Keys <= h'.openings.Keys
    ensures RecordsOk(s', h')
  {
  }

  lemma OpenSnapshots(s: State, h: History, h': History, p: Period, q: Period)
    requires SnapshotOk(s, h, p) && SnapshotOk(s, h, q) && p !in h.openings && p !in h.closed
    requires h' == h.(openings := h.openings[p := SnapshotOf(OpenPeriod(s, p), p)])
    ensures SnapshotOk(OpenPeriod(s, p), h', q)
  {
    var s' := OpenPeriod(s, p);
    assert HasUnpaid(s', q) <==> HasUnpaid(s, q);
  }

  lemma OpenedSnapshot(limits: Limits, s: State, p: Period)
    requires ChainsOk(limits, s.chains) && SnapshotOf(s, p) == map[]
    ensures SnapshotOf(OpenPeriod(s, p), p) == s.chains.rates
    ensures |SnapshotOf(OpenPeriod(s, p), p)| <= limits.maxChains
  {
    RatesBounded(limits, s.chains);
  }

  ghost function OpenHistory(s: State, h: History, p: Period): History {
    h.(openings := h.openings[p := SnapshotOf(OpenPeriod(s, p), p)])
  }

  lemma OpenInv(cfg: Config, s: State, h: History, p: Period)
    requires Inv(cfg, s, h) && Allowed(h, CallOpen(p))
    ensures Inv(cfg, OpenPeriod(s, p), OpenHistory(s, h, p))
  {
    OpenSnapshotsOk(s, h, p);
    OpenRecords(s, h, p);
    OpenBounded(cfg, s, h, p);
    OpenPaid(s, h, p);
    InvParts(cfg, OpenPeriod(s, p), OpenHistory(s, h, p));
  }

  lemma OpenSnapshotsOk(s: State, h: History, p: Period)
    requires SnapshotsOk(s, h) && p !in h.openings && p !in h.closed
    ensures SnapshotsOk(OpenPeriod(s, p), OpenHistory(s, h, p))
  {
    forall q ensures SnapshotOk(OpenPeriod(s, p), OpenHistory(s, h, p), q) {
      OpenSnapshots(s, h, OpenHistory(s, h, p), p, q);
    }
  }

  lemma OpenRecords(s: State, h: History, p: Period)
    requires RecordsOk(s, h)
    ensures RecordsOk(OpenPeriod(s, p), OpenHistory(s, h, p))
  {
    RecordsFrame(s, h, OpenPeriod(s, p), OpenHistory(s, h, p));
  }

  lemma OpenBounded(cfg: Config, s: State, h: History, p: Period)
    requires ChainsOk(cfg.limits, s.chains) && SnapshotsBounded(cfg, h)
    requires SnapshotOk(s, h, p) && p !in h.openings
    ensures SnapshotsBounded(cfg, OpenHistory(s, h, p))
  {
    OpenedSnapshot(cfg.limits, s, p);
  }

  lemma OpenPaid(s: State, h: History, p: Period)
    requires RecordsOk(s, h) && PaidOk(s, h) && p !in h.openings
    ensures PaidOk(OpenPeriod(s, p), OpenHistory(s, h, p))
  {
    OpenKeepsPaid(s, h, p, OpenPeriod(s, p), OpenHistory(s, h, p));
  }

  lemma OpenKeepsPaid(s: State, h: History, p: Period, s': State, h': History)
    requires RecordsOk(s, h) && PaidOk(s, h) && p !in h.openings
    requires s'.paid == s.paid && h' == h.(openings := h'.openings)
    requires h'.openings.Keys == h.openings.Keys + {p} && forall q :: q in h.openings ==> h'.openings[q] == h.openings[q]
    ensures PaidOk(s', h')
  {
    forall line ensures Owed(h', line) == Owed(h, line) {
      if line.key in h.recorded {
        assert line.key.period in h.openings;
      }
    }
  }

  lemma RecordInv(cfg: Config, s: State, h: History, key: Key, record: Record)
    requires Inv(cfg, s, h) && Allowed(h, CallRecord(key, record))
    ensures Inv(cfg, RecordReward(s, key, record), RecordHistory(s, h, key, record))
  {
    if Records(s, key, record) {
      var s', h' := RecordReward(s, key, record), RecordHistory(s, h, key, record);
      RecordedPeriod(s, h, key, record);
      RecordedRecords(s, h, key, record);
      RecordSharesOk(h.recorded, key, record);
      RecordSnapshotsOk(s, h, key, record);
      RecordedPaid(s, h, key, record);
      InvParts(cfg, s', h');
    }
  }

  ghost function RecordHistory(s: State, h: History, key: Key, record: Record): History {
    if !Records(s, key, record) then h else h.(recorded := h.recorded[key := record])
  }

  lemma RecordedPeriod(s: State, h: History, key: Key, record: Record)
    requires SnapshotOk(s, h, key.period) && Records(s, key, record)
    ensures key.period in h.openings
  {
  }

  lemma RecordedRecords(s: State, h: History, key: Key, record: Record)
    requires RecordsOk(s, h) && key !in h.recorded && key.period in h.openings && Records(s, key, record)
    ensures RecordsOk(RecordReward(s, key, record), RecordHistory(s, h, key, record))
  {
    RecordRecords(s, h, RecordReward(s, key, record), RecordHistory(s, h, key, record), key, record);
  }

  lemma RecordedPaid(s: State, h: History, key: Key, record: Record)
    requires RecordsOk(s, h) && PaidOk(s, h) && key !in h.recorded && Records(s, key, record)
    ensures PaidOk(RecordReward(s, key, record), RecordHistory(s, h, key, record))
  {
    RecordKeepsPaid(s, h, RecordReward(s, key, record), RecordHistory(s, h, key, record), key);
  }

  lemma RecordSnapshotsOk(s: State, h: History, key: Key, record: Record)
    requires SnapshotsOk(s, h) && key.period !in h.closed && Records(s, key, record)
    ensures SnapshotsOk(RecordReward(s, key, record), RecordHistory(s, h, key, record))
  {
    var s', h' := RecordReward(s, key, record), RecordHistory(s, h, key, record);
    forall q ensures SnapshotOk(s', h', q) {
      RecordSnapshots(s, h, s', h', key, record, q);
    }
  }

  lemma RecordSnapshots(s: State, h: History, s': State, h': History, key: Key, record: Record, q: Period)
    requires SnapshotOk(s, h, q) && key.period !in h.closed
    requires s' == s.(unpaid := s.unpaid[key := record], byNode := s'.byNode) && h' == h.(recorded := h'.recorded)
    ensures SnapshotOk(s', h', q)
  {
    RecordHasUnpaid(s, s', key, record, q);
  }

  lemma RecordRecords(s: State, h: History, s': State, h': History, key: Key, record: Record)
    requires RecordsOk(s, h) && key !in h.recorded && key.period in h.openings
    requires s'.unpaid == s.unpaid[key := record] && s'.byNode == s.byNode + {key}
    requires h' == h.(recorded := h.recorded[key := record])
    ensures RecordsOk(s', h')
  {
  }

  lemma RecordHasUnpaid(s: State, s': State, key: Key, record: Record, q: Period)
    requires s'.unpaid == s.unpaid[key := record]
    ensures HasUnpaid(s', q) <==> HasUnpaid(s, q) || q == key.period
  {
    assert key in s'.unpaid;
    if k :| k in s.unpaid && k.period == q {
      assert k in s'.unpaid;
    }
  }

  lemma RecordSharesOk(recorded: map<Key, Record>, key: Key, record: Record)
    requires SharesOk(recorded) && key !in recorded
    requires TotalShares(recorded, key.period) + record.share <= PERQUINTILL
    ensures SharesOk(recorded[key := record])
  {
    var recorded' := recorded[key := record];
    forall q ensures TotalShares(recorded', q) <= PERQUINTILL {
      RecordShares(recorded, key, record, q);
    }
  }

  lemma RecordShares(recorded: map<Key, Record>, key: Key, record: Record, q: Period)
    requires key !in recorded
    ensures TotalShares(recorded[key := record], q)
         == TotalShares(recorded, q) + if q == key.period then record.share else 0
  {
    var recorded', keys := recorded[key := record], KeysIn(recorded.Keys, q);
    SumSame(keys, Shares(recorded), Shares(recorded'));
    if q == key.period {
      assert KeysIn(recorded'.Keys, q) == keys + {key};
      SumInsert(keys, Shares(recorded'), key);
    } else {
      assert KeysIn(recorded'.Keys, q) == keys;
    }
  }

  lemma RecordKeepsPaid(s: State, h: History, s': State, h': History, key: Key)
    requires RecordsOk(s, h) && PaidOk(s, h) && key !in h.recorded
    requires s'.paid == s.paid && h' == h.(recorded := h'.recorded)
    requires h'.recorded.Keys == h.recorded.Keys + {key}
    requires forall k :: k in h.recorded ==> h'.recorded[k] == h.recorded[k]
    ensures PaidOk(s', h')
  {
    assert key !in h.settled;
    forall line ensures Owed(h', line) == Owed(h, line) {
    }
  }

  lemma CompleteSnapshots(s: State, h: History, p: Period, q: Period)
    requires SnapshotOk(s, h, p) && SnapshotOk(s, h, q)
    ensures SnapshotOk(Reclaimed(s.(completed := s.completed + {p}), p), h.(closed := h.closed + {p}), q)
  {
    var s1, h' := s.(completed := s.completed + {p}), h.(closed := h.closed + {p});
    assert HasUnpaid(s1, p) <==> HasUnpaid(s, p);
    assert HasUnpaid(s1, q) <==> HasUnpaid(s, q);
    ReclaimRestores(s1, h', p, q);
  }

  lemma ClosedKeepsPaid(s: State, h: History, s': State, h': History)
    requires PaidOk(s, h) && s'.paid == s.paid && h' == h.(closed := h'.closed)
    ensures PaidOk(s', h')
  {
    forall line ensures Owed(h', line) == Owed(h, line) {
    }
  }

  lemma SnapshotSmall(cfg: Config, s: State, h: History, p: Period)
    requires SnapshotsBounded(cfg, h) && SnapshotOk(s, h, p)
    ensures |SnapshotOf(s, p)| <= cfg.limits.maxChains
  {
  }

  /** The invariant, part by part. */
  lemma InvParts(cfg: Config, s: State, h: History)
    requires ChainsOk(cfg.limits, s.chains) && RecordsOk(s, h) && SharesOk(h.recorded)
    requires SnapshotsBounded(cfg, h) && PaidOk(s, h) && SnapshotsOk(s, h)
    ensures Inv(cfg, s, h)
  {
  }

  ghost function Completed(s: State, p: Period): State {
    Reclaimed(s.(completed := s.completed + {p}), p)
  }

  lemma CompleteInOneCall(cfg: Config, s: State, h: History, p: Period)
    requires SnapshotsBounded(cfg, h) && SnapshotOk(s, h, p)
    ensures CompletePeriod(cfg, s, p) == Completed(s, p)
  {
    SnapshotSmall(cfg, s, h, p);
    var s1 := s.(completed := s.completed + {p});
    assert SnapshotOf(s1, p) == SnapshotOf(s, p);
    ReclaimInOneCall(cfg, s1, p);
  }

  lemma CompleteSnapshotsOk(s: State, h: History, p: Period)
    requires SnapshotsOk(s, h)
    ensures SnapshotsOk(Completed(s, p), h.(closed := h.closed + {p}))
  {
    forall q ensures SnapshotOk(Completed(s, p), h.(closed := h.closed + {p}), q) {
      CompleteSnapshots(s, h, p, q);
    }
  }

  lemma CompleteInv(cfg: Config, s: State, h: History, p: Period)
    requires Inv(cfg, s, h)
    ensures Inv(cfg, CompletePeriod(cfg, s, p), StepHistory(cfg, s, h, CallComplete(p)))
  {
    var s', h' := Completed(s, p), h.(closed := h.closed + {p});
    CompleteInOneCall(cfg, s, h, p);
    CompleteSnapshotsOk(s, h, p);
    RecordsFrame(s, h, s', h');
    ClosedKeepsPaid(s, h, s', h');
    InvParts(cfg, s', h');
  }

  /** In every reachable state there is nothing left to reclaim by hand. */
  lemma ReclaimIsIdle(cfg: Config, s: State, h: History, p: Period)
    requires Inv(cfg, s, h)
    ensures TryReclaim(cfg, s, p) == s
  {
    assert SnapshotOk(s, h, p);
  }

  lemma CursorKeepsInv(cfg: Config, s: State, h: History, cursor: Option<Key>, chains: Chains)
    requires Inv(cfg, s, h) && ChainsOk(cfg.limits, chains)
    ensures Inv(cfg, s.(cursor := cursor, chains := chains), h)
  {
    var s' := s.(cursor := cursor, chains := chains);
    forall q ensures SnapshotOk(s', h, q) {
      assert SnapshotOk(s, h, q);
      assert HasUnpaid(s', q) <==> HasUnpaid(s, q);
    }
  }

  lemma SweepInv(cfg: Config, s: State, h: History, capacity: nat, attempts: Attempts)
    requires Inv(cfg, s, h)
    ensures Inv(cfg, Sweep(cfg, s, capacity, attempts), SweepHistory(cfg, s, h, capacity, attempts))
  {
    CursorKeepsInv(cfg, s, h, AdvanceCursor(cfg, s, capacity), s.chains);
    PayEachInv(cfg, s.(cursor := AdvanceCursor(cfg, s, capacity)), h, BatchOf(cfg, s, capacity), attempts);
  }

  lemma StepInv(cfg: Config, s: State, h: History, c: Rewards.Call)
    requires Inv(cfg, s, h) && Allowed(h, c)
    ensures Inv(cfg, Rewards.Step(cfg, s, c), StepHistory(cfg, s, h, c))
  {
    match c
    case CallChains(call) =>
      StepChainsOk(cfg.limits, s.chains, call);
      CursorKeepsInv(cfg, s, h, s.cursor, AppChains.Step(cfg.limits, s.chains, call));
    case CallOpen(p) => OpenInv(cfg, s, h, p);
    case CallRecord(key, record) => RecordInv(cfg, s, h, key, record);
    case CallComplete(p) => CompleteInv(cfg, s, h, p);
    case CallClaim(node, periods, attempts) => PayEachInv(cfg, s, h, KeysOf(node, periods), attempts);
    case CallSweep(capacity, attempts) => SweepInv(cfg, s, h, capacity, attempts);
    case CallProcessOutstanding(attempts) => SweepInv(cfg, s, h, cfg.maxPayouts, attempts);
    case CallReclaim(p) => ReclaimIsIdle(cfg, s, h, p);
  }

  // ---------------------------------------------------------------- runs

  /** The history of a run. */
  ghost function RunHistory(cfg: Config, s: State, h: History, calls: seq<Rewards.Call>): History
    decreases |calls|
  {
    if calls == [] then h
    else
      var init := calls[..|calls| - 1];
      StepHistory(cfg, Rewards.Run(cfg, s, init), RunHistory(cfg, s, h, init), calls[|calls| - 1])
  }

  /** Every call of the run follows the node manager's protocol. */
  ghost predicate AllowedRun(cfg: Config, s: State, h: History, calls: seq<Rewards.Call>)
    decreases |calls|
  {
    calls == [] ||
    (&& AllowedRun(cfg, s, h, calls[..|calls| - 1])
     && Allowed(RunHistory(cfg, s, h, calls[..|calls| - 1]), calls[|calls| - 1]))
  }

  lemma {:induction false} RunInv(cfg: Config, s: State, h: History, calls: seq<Rewards.Call>)
    requires Inv(cfg, s, h) && AllowedRun(cfg, s, h, calls)
    ensures Inv(cfg, Rewards.Run(cfg, s, calls), RunHistory(cfg, s, h, calls))
    decreases |calls|
  {
    if calls != [] {
      var init := calls[..|calls| - 1];
      RunInv(cfg, s, h, init);
      StepInv(cfg, Rewards.Run(cfg, s, init), RunHistory(cfg, s, h, init), calls[|calls| - 1]);
    }
  }

  lemma GenesisInv(cfg: Config, chains: Chains)
    requires ChainsOk(cfg.limits, chains)
    ensures Inv(cfg, Genesis(chains), History(map[], map[], map[], {}))
  {
    forall p ensures TotalShares(map[], p) == 0 {
      assert KeysIn({}, p) == {};
    }
    var s, h := Genesis(chains), History(map[], map[], map[], {});
    forall p ensures SnapshotOk(s, h, p) {
      assert !HasUnpaid(s, p);
    }
  }

  /** Opening a first period with some rate set and recording a first share leaves a record to be paid. */
  lemma FirstShare(cfg: Config, chains: Chains, p: Period, node: Node, record: Record)
    requires ChainsOk(cfg.limits, chains) && chains.rates != map[] && 0 < record.share <= PERQUINTILL
    ensures var s, h := Genesis(chains), History(map[], map[], map[], {});
            var first, opening := OpenPeriod(s, p), OpenHistory(s, h, p);
            && Allowed(h, CallOpen(p)) && Allowed(opening, CallRecord(Key(p, node), record))
            && Inv(cfg, RecordReward(first, Key(p, node), record), RecordHistory(first, opening, Key(p, node), record))
            && Key(p, node) in RecordReward(first, Key(p, node), record).unpaid
  {
    var s, h := Genesis(chains), History(map[], map[], map[], {});
    GenesisInv(cfg, chains);
    OpenedSnapshot(cfg.limits, s, p);
    OpenInv(cfg, s, h, p);
    assert KeysIn({}, p) == {};
    assert TotalShares(map[], p) == 0;
    RecordInv(cfg, OpenPeriod(s, p), OpenHistory(s, h, p), Key(p, node), record);
  }

  // ---------------------------------------------------------------- conservation

  /** What one chain has paid for one period, over all records settled so far. */
  ghost function TotalPaid(s: State, h: History, p: Period, a: Asset): nat {
    Sum(KeysIn(h.settled.Keys, p), (k: Key) => AmountPaid(s.paid, Line(k, a)))
  }

  /** The settled records that were eligible for the chain. */
  ghost function EligibleIn(h: History, p: Period, a: Asset): set<Key> {
    set k | k in h.settled && k.period == p && a in h.settled[k]
  }

  ghost function ShareFn(recorded: map<Key, Record>, total: nat): Key -> nat {
    k => if k in recorded then ShareOf(recorded[k].share, total) else 0
  }

  /** The amount is the share of the total, in parts of a Perquintill, rounded down. */
  predicate IsFloor(share: nat, total: nat, amount: nat) {
    amount * PERQUINTILL <= share * total < (amount + 1) * PERQUINTILL
  }

  lemma ShareIsFloor(share: nat, total: nat)
    ensures IsFloor(share, total, ShareOf(share, total))
  {
    FloorBounds(share * total);
  }

  lemma FloorBounds(x: nat)
    ensures x / PERQUINTILL * PERQUINTILL <= x < (x / PERQUINTILL + 1) * PERQUINTILL
  {
  }

  /** The bounds leave one amount. */
  lemma FloorIsUnique(share: nat, total: nat, amount: nat)
    requires IsFloor(share, total, amount)
    ensures amount == ShareOf(share, total)
  {
    ShareIsFloor(share, total);
  }

  lemma ShareOfWhole(total: nat)
    ensures ShareOf(PERQUINTILL, total) == total
  {
  }

  lemma ShareOfAdds(x: nat, y: nat, total: nat)
    ensures ShareOf(x, total) + ShareOf(y, total) <= ShareOf(x + y, total)
  {
    assert (x + y) * total == x * total + y * total;
    FloorAdds(x * total, y * total);
  }

  lemma FloorAdds(a: nat, b: nat)
    ensures a / PERQUINTILL + b / PERQUINTILL <= (a + b) / PERQUINTILL
  {
  }

  lemma ShareOfMonotone(x: nat, y: nat, total: nat)
    requires x <= y
    ensures ShareOf(x, total) <= ShareOf(y, total)
  {
    ShareOfAdds(x, y - x, total);
  }

  /** Rounding each share down never hands out more than rounding the sum down. */
  lemma {:induction false} SharesAddUp(keys: set<Key>, recorded: map<Key, Record>, total: nat)
    ensures Sum(keys, ShareFn(recorded, total)) <= ShareOf(Sum(keys, Shares(recorded)), total)
    decreases |keys|
  {
    if keys != {} {
      var k :| k in keys;
      SharesAddUp(keys - {k}, recorded, total);
      SumTake(keys, ShareFn(recorded, total), k);
      SumTake(keys, Shares(recorded), k);
      ShareOfAdds(Shares(recorded)(k), Sum(keys - {k}, Shares(recorded)), total);
    }
  }

  /**
   Over every interleaving of claims, sweeps, failed payouts, rate changes, disables
   and deregistrations: what a chain has paid for a period is the sum, over the
   settled records eligible for it, of the share of the amount it opened the period
   with, each rounded down, and never exceeds that amount. Nothing else was paid on its
   behalf.
   */
  lemma Conservation(cfg: Config, s: State, h: History, p: Period, a: Asset)
    requires Inv(cfg, s, h) && p in h.openings && a in h.openings[p]
    ensures var total := h.openings[p][a].amount;
            && TotalPaid(s, h, p, a) == Sum(EligibleIn(h, p, a), ShareFn(h.recorded, total))
            && TotalPaid(s, h, p, a) <= total
            && (forall k :: k in EligibleIn(h, p, a) ==>
                  k in h.recorded && IsFloor(h.recorded[k].share, total, AmountPaid(s.paid, Line(k, a))))
    ensures forall line :: line in s.paid ==>
              line.key in h.settled && line.asset in h.settled[line.key] && s.paid[line].amount > 0
  {
    var total := h.openings[p][a].amount;
    var settled, eligible := KeysIn(h.settled.Keys, p), EligibleIn(h, p, a);
    var paid := (k: Key) => AmountPaid(s.paid, Line(k, a));
    forall k | k in settled ensures paid(k) == if k in eligible then ShareFn(h.recorded, total)(k) else 0 {
      var line := Line(k, a);
      assert AmountPaid(s.paid, line) == Owed(h, line);
      assert k in h.recorded;
    }
    assert eligible <= settled;
    SumSupport(eligible, settled, paid);
    SumSame(eligible, paid, ShareFn(h.recorded, total));
    assert TotalPaid(s, h, p, a) == Sum(settled, paid);
    EligibleWithin(h, p, a, total);
    LinesAreFloors(s, h, p, a);
    PaidAreSettled(s, h);
  }

  lemma LinesAreFloors(s: State, h: History, p: Period, a: Asset)
    requires RecordsOk(s, h) && PaidOk(s, h) && p in h.openings && a in h.openings[p]
    ensures forall k :: k in EligibleIn(h, p, a) ==>
              && k in h.recorded
              && IsFloor(h.recorded[k].share, h.openings[p][a].amount, AmountPaid(s.paid, Line(k, a)))
  {
    forall k | k in EligibleIn(h, p, a)
      ensures k in h.recorded
      ensures IsFloor(h.recorded[k].share, h.openings[p][a].amount, AmountPaid(s.paid, Line(k, a)))
    {
      assert AmountPaid(s.paid, Line(k, a)) == Owed(h, Line(k, a));
      ShareIsFloor(h.recorded[k].share, h.openings[p][a].amount);
    }
  }

  lemma PaidAreSettled(s: State, h: History)
    requires PaidOk(s, h)
    ensures forall line :: line in s.paid ==>
              line.key in h.settled && line.asset in h.settled[line.key] && s.paid[line].amount > 0
  {
    forall line | line in s.paid
      ensures line.key in h.settled && line.asset in h.settled[line.key] && s.paid[line].amount > 0
    {
      assert Owed(h, line) > 0;
    }
  }

  lemma EligibleWithin(h: History, p: Period, a: Asset, total: nat)
    requires SharesOk(h.recorded) && h.settled.Keys <= h.recorded.Keys
    ensures Sum(EligibleIn(h, p, a), ShareFn(h.recorded, total)) <= total
  {
    var eligible, all := EligibleIn(h, p, a), KeysIn(h.recorded.Keys, p);
    SharesAddUp(eligible, h.recorded, total);
    SumSubset(eligible, all, Shares(h.recorded));
    assert Sum(all, Shares(h.recorded)) == TotalShares(h.recorded, p) <= PERQUINTILL;
    ShareOfMonotone(Sum(eligible, Shares(h.recorded)), PERQUINTILL, total);
    ShareOfWhole(total);
  }

  /**
   A settled record is never paid again: whatever call comes next, each of its lines
   keeps the amount, the owner and the token it was paid with.
   */
  lemma SettledIsFinal(cfg: Config, s: State, h: History, c: Rewards.Call, line: Line)
    requires Inv(cfg, s, h) && Allowed(h, c) && line.key in h.settled
    ensures var s' := Rewards.Step(cfg, s, c);
            (line in s'.paid <==> line in s.paid) && (line in s.paid ==> s'.paid[line] == s.paid[line])
  {
    var s', h' := Rewards.Step(cfg, s, c), StepHistory(cfg, s, h, c);
    assert PaidOk(s', h') by {
      StepInv(cfg, s, h, c);
    }
    SettledHistory(cfg, s, h, c, line.key);
    SameLine(s, h, s', h', line);
  }

  /** A line that is owed the same, by the same record and pool, has been paid the same. */
  lemma SameLine(s: State, h: History, s': State, h': History, line: Line)
    requires PaidOk(s, h) && PaidOk(s', h')
    requires line.key in h.settled && line.key in h'.settled && h'.settled[line.key] == h.settled[line.key]
    requires line.key in h.recorded && line.key in h'.recorded && h'.recorded[line.key] == h.recorded[line.key]
    requires line.key.period in h.openings && line.key.period in h'.openings
    requires h'.openings[line.key.period] == h.openings[line.key.period]
    ensures line in s'.paid <==> line in s.paid
    ensures line in s.paid ==> s'.paid[line] == s.paid[line]
  {
    assert Owed(h', line) == Owed(h, line);
  }

  lemma SettledHistory(cfg: Config, s: State, h: History, c: Rewards.Call, key: Key)
    requires RecordsOk(s, h) && Allowed(h, c) && key in h.settled
    ensures var h' := StepHistory(cfg, s, h, c);
            && key in h'.settled && h'.settled[key] == h.settled[key]
            && key in h.recorded && key in h'.recorded && h'.recorded[key] == h.recorded[key]
            && key.period in h.openings && key.period in h'.openings
            && h'.openings[key.period] == h.openings[key.period]
  {
    assert key in h.recorded && key.period in h.openings;
    match c
    case CallClaim(node, periods, attempts) =>
      PayEachSettled(cfg, s, h, KeysOf(node, periods), attempts, key);
    case CallSweep(capacity, attempts) =>
      SweepSettled(cfg, s, h, capacity, attempts, key);
    case CallProcessOutstanding(attempts) =>
      SweepSettled(cfg, s, h, cfg.maxPayouts, attempts, key);
    case _ =>
      assert StepHistory(cfg, s, h, c).settled == h.settled;
  }

  lemma SweepSettled(cfg: Config, s: State, h: History, capacity: nat, attempts: Attempts, key: Key)
    requires key in h.settled && key !in s.unpaid
    ensures var h' := SweepHistory(cfg, s, h, capacity, attempts);
            h' == h.(settled := h'.settled) && key in h'.settled && h'.settled[key] == h.settled[key]
  {
    PayEachSettled(cfg, s.(cursor := AdvanceCursor(cfg, s, capacity)), h, BatchOf(cfg, s, capacity), attempts, key);
  }

  lemma {:induction false} PayEachSettled(cfg: Config, s: State, h: History, keys: seq<Key>, attempts: Attempts,
                                          key: Key)
    requires key in h.settled && key !in s.unpaid
    ensures var h' := PayEachHistory(cfg, s, h, keys, attempts);
            h' == h.(settled := h'.settled) && key in h'.settled && h'.settled[key] == h.settled[key]
    ensures PayEach(cfg, s, keys, attempts).unpaid.Keys <= s.unpaid.Keys
    decreases |keys|
  {
    if keys != [] {
      var init := keys[..|keys| - 1];
      PayEachSettled(cfg, s, h, init, attempts, key);
    }
  }
}
