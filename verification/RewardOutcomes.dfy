/** What a payout attempt and a recorded share do, told by amounts. */
module RewardOutcomes {
  import opened AppChains
  import opened Rewards
  import opened RewardLedger

  /** The chain's share of the record comes to at least one unit. */
  ghost predicate Owes(pools: Snapshot, record: Record, a: Asset) {
    a in pools && record.share * pools[a].amount >= PERQUINTILL
  }

  lemma OwesIffShare(pools: Snapshot, record: Record, a: Asset)
    requires a in pools
    ensures Owes(pools, record, a) <==> ShareOf(record.share, pools[a].amount) > 0
  {
    ShareIsFloor(record.share, pools[a].amount);
  }

  lemma DueIffOwes(pools: Snapshot, record: Record, eligible: set<Asset>, a: Asset)
    ensures a in DueFrom(pools, record, eligible) <==> a in eligible && Owes(pools, record, a)
  {
    if a in pools {
      OwesIffShare(pools, record, a);
    }
  }

  /** The line was paid its share, rounded down, to the owner in the chain's token. */
  ghost predicate PaidShare(paid: map<Line, Payment>, line: Line, record: Record, pool: Pool) {
    && line in paid && paid[line].owner == record.owner && paid[line].token == pool.token
    && IsFloor(record.share, pool.amount, paid[line].amount)
  }

  /** A line of an eligible chain that owes something is paid; any other line is as before. */
  ghost predicate LineOut(before: map<Line, Payment>, after: map<Line, Payment>, key: Key, record: Record,
                          pools: Snapshot, eligible: set<Asset>, line: Line)
  {
    if line.key == key && line.asset in eligible && Owes(pools, record, line.asset) then
      PaidShare(after, line, record, pools[line.asset])
    else
      (line in after <==> line in before) && (line in before ==> after[line] == before[line])
  }

  ghost predicate PaidOut(before: map<Line, Payment>, after: map<Line, Payment>, key: Key, record: Record,
                          pools: Snapshot, eligible: set<Asset>)
  {
    forall line :: LineOut(before, after, key, record, pools, eligible, line)
  }

  lemma LinePaid(paid: map<Line, Payment>, key: Key, record: Record, pools: Snapshot, eligible: set<Asset>, line: Line)
    requires forall a :: Line(key, a) !in paid
    ensures LineOut(paid, PayAllDue(paid, key, record, pools, DueFrom(pools, record, eligible)), key, record, pools,
                    eligible, line)
  {
    var due := DueFrom(pools, record, eligible);
    DueIffOwes(pools, record, eligible, line.asset);
    if line.key == key && line.asset in due {
      ShareIsFloor(record.share, pools[line.asset].amount);
      assert line == Line(key, line.asset) && line !in paid;
    } else {
      assert line !in (set a | a in due :: Line(key, a));
    }
  }

  /** An unsettled record has no line yet. */
  lemma NoLineYet(s: State, h: History, key: Key)
    requires RecordsOk(s, h) && PaidOk(s, h) && key in s.unpaid
    ensures forall a :: Line(key, a) !in s.paid
  {
    forall a ensures Line(key, a) !in s.paid {
      assert key !in h.settled;
      assert Owed(h, Line(key, a)) == 0;
    }
  }

  lemma ClearedPaysOut(s: State, h: History, key: Key, eligible: set<Asset>)
    requires RecordsOk(s, h) && PaidOk(s, h) && key in s.unpaid
    ensures PaidOut(s.paid, Cleared(s, key, eligible).paid, key, s.unpaid[key], SnapshotOf(s, key.period), eligible)
  {
    NoLineYet(s, h, key);
    forall line
      ensures LineOut(s.paid, Cleared(s, key, eligible).paid, key, s.unpaid[key], SnapshotOf(s, key.period), eligible,
                      line)
    {
      LinePaid(s.paid, key, s.unpaid[key], SnapshotOf(s, key.period), eligible, line);
    }
  }

  /** Some eligible chain that owes the record something cannot pay. */
  ghost predicate Stopped(s: State, key: Key, attempt: Attempt)
    requires key in s.unpaid
  {
    exists a :: a in attempt.eligible && a !in attempt.payable && Owes(SnapshotOf(s, key.period), s.unpaid[key], a)
  }

  lemma PaysUnlessStopped(s: State, key: Key, attempt: Attempt)
    requires key in s.unpaid
    ensures Pays(s, key, attempt) <==> !Stopped(s, key, attempt)
  {
    forall a {
      DueIffOwes(SnapshotOf(s, key.period), s.unpaid[key], attempt.eligible, a);
    }
  }

  lemma SettleDoes(cfg: Config, s: State, h: History, key: Key, eligible: set<Asset>)
    requires Inv(cfg, s, h) && key in s.unpaid
    ensures var s' := Settle(cfg, s, key, eligible);
            && s'.unpaid == s.unpaid - {key} && s'.byNode == s.byNode - {key}
            && s'.paid == Cleared(s, key, eligible).paid && s'.chains == s.chains && s'.cursor == s.cursor
  {
    LiveSnapshot(cfg, s, h, key);
    ReclaimInOneCall(cfg, Cleared(s, key, eligible), key.period);
  }

  /**
   A payout attempt is all or nothing. If some eligible chain that owes the record cannot
   pay, nothing changes and the record is left for a retry; otherwise the record is gone
   and exactly the lines owed something have been paid, each its share rounded down.
   */
  lemma PayoutOutcome(cfg: Config, s: State, h: History, key: Key, attempt: Attempt)
    requires Inv(cfg, s, h)
    ensures var s' := TryPay(cfg, s, key, attempt);
            if key !in s.unpaid || Stopped(s, key, attempt) then s' == s
            else
              && s'.unpaid == s.unpaid - {key} && s'.byNode == s.byNode - {key}
              && s'.chains == s.chains && s'.cursor == s.cursor
              && PaidOut(s.paid, s'.paid, key, s.unpaid[key], SnapshotOf(s, key.period), attempt.eligible)
  {
    if key in s.unpaid {
      PaysUnlessStopped(s, key, attempt);
      SettleDoes(cfg, s, h, key, attempt.eligible);
      ClearedPaysOut(s, h, key, attempt.eligible);
    }
  }

  /** An allowed share is stored, with its index entry, exactly if it is not zero and some chain funded the period. */
  lemma RecordOutcome(cfg: Config, s: State, h: History, key: Key, record: Record)
    requires Inv(cfg, s, h) && Allowed(h, CallRecord(key, record))
    ensures var s' := RecordReward(s, key, record);
            if record.share != 0 && key.period in h.openings && h.openings[key.period] != map[] then
              s' == s.(unpaid := s.unpaid[key := record], byNode := s.byNode + {key})
            else s' == s
  {
    assert SnapshotOk(s, h, key.period);
  }

  /** Opening a period gives it the rates of the moment, every one of them and as they are. */
  lemma OpenOutcome(cfg: Config, s: State, h: History, p: Period)
    requires Inv(cfg, s, h) && Allowed(h, CallOpen(p))
    ensures OpenPeriod(s, p) == s.(snapshots := s.snapshots[p := s.chains.rates])
  {
    assert SnapshotOk(s, h, p);
    OpenedSnapshot(cfg.limits, s, p);
  }
}
