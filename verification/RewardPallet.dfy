/** The reward pallet over mutable storage, each hook and call proved against the accounting model. */
module RewardPallet {
  import opened Prelude
  import opened AppChains
  import opened Rewards
  import opened RewardLedger
  import opened RewardSweep

  class Pallet {
    const cfg: Config
    var chains: Chains
    var snapshots: map<Period, Snapshot>
    var unpaid: map<Key, Record>
    var byNode: set<Key>
    var completed: set<Period>
    var cursor: Option<Key>
    var paid: map<Line, Payment>
    ghost var history: History
    ghost var pass: Pass

    ghost function View(): State
      reads this
    {
      State(chains, snapshots, unpaid, byNode, completed, cursor, paid)
    }

    ghost predicate Valid()
      reads this
    {
      ValidConfig(cfg) && Inv(cfg, View(), history) && PassOk(cfg, View(), pass)
    }

    /** What a call does to storage and to the history of the run. */
    twostate predicate Performed(c: Rewards.Call)
      reads this
    {
      && View() == Rewards.Step(cfg, old(View()), c)
      && history == StepHistory(cfg, old(View()), old(history), c)
      && pass == StepPass(cfg, old(View()), old(pass), c)
    }

    constructor (cfg: Config, chains: Chains)
      requires ValidConfig(cfg) && ChainsOk(cfg.limits, chains)
      ensures Valid() && this.cfg == cfg && View() == Genesis(chains)
    {
      this.cfg, this.chains := cfg, chains;
      snapshots, unpaid, byNode, completed, cursor, paid := map[], map[], {}, {}, None, map[];
      history, pass := History(map[], map[], map[], {}), Pass({}, [], {});
      RewardLedger.GenesisInv(cfg, chains);
      FreshPassOk(cfg, Genesis(chains));
    }

    // -------------------------------------------------------------- node-manager hooks

    /** Adds every active rate to a snapshot, one chain at a time. */
    method CopyRates(start: Snapshot) returns (snapshot: Snapshot)
      ensures snapshot == start + Funded(chains.rates, chains.rates.Keys)
    {
      snapshot := start;
      var rest := chains.rates.Keys;
      ghost var done := {};
      NoneFunded(start, chains.rates);
      while rest != {}
        invariant done + rest == chains.rates.Keys && done !! rest
        invariant snapshot == start + Funded(chains.rates, done)
        decreases |rest|
      {
        var a :| a in rest;
        OneMoreFunded(start, chains.rates, done, a);
        if chains.rates[a].amount != 0 {
          snapshot := snapshot[a := chains.rates[a]];
        }
        rest, done := rest - {a}, done + {a};
      }
    }

    method OnNewRewardPeriod(p: Period)
      requires Valid() && Allowed(history, CallOpen(p))
      modifies this
      ensures Valid() && Performed(CallOpen(p))
    {
      StepInv(cfg, View(), history, CallOpen(p));
      StepPassOk(cfg, View(), pass, CallOpen(p));
      var snapshot := CopyRates(if p in snapshots then snapshots[p] else map[]);
      assert snapshot == SnapshotOf(OpenPeriod(View(), p), p);
      snapshots := snapshots[p := snapshot];
      history := history.(openings := history.openings[p := snapshot]);
    }

    method StoreRecord(key: Key, record: Record) returns (stored: bool)
      modifies `unpaid, `byNode
      ensures stored <==> Records(old(View()), key, record)
      ensures View() == RecordReward(old(View()), key, record)
    {
      if record.share == 0 {
        return false;
      }
      if key.period !in snapshots || snapshots[key.period] == map[] {
        return false;
      }
      unpaid := unpaid[key := record];
      byNode := byNode + {key};
      return true;
    }

    method OnRewardPaid(key: Key, record: Record)
      requires Valid() && Allowed(history, CallRecord(key, record))
      modifies this
      ensures Valid() && Performed(CallRecord(key, record))
    {
      StepInv(cfg, View(), history, CallRecord(key, record));
      StepPassOk(cfg, View(), pass, CallRecord(key, record));
      ghost var next := StepHistory(cfg, View(), history, CallRecord(key, record));
      var _ := StoreRecord(key, record);
      history := next;
    }

    method MarkCompleted(p: Period)
      requires |SnapshotOf(View(), p)| <= cfg.limits.maxChains
      modifies `snapshots, `completed
      ensures View() == CompletePeriod(cfg, old(View()), p)
    {
      completed := completed + {p};
      TryReclaimPeriod(p);
    }

    method OnRewardPeriodCompleted(p: Period)
      requires Valid()
      modifies this
      ensures Valid() && Performed(CallComplete(p))
    {
      ghost var s, next := View(), StepHistory(cfg, View(), history, CallComplete(p));
      CompletionKeeps(cfg, s, history, pass, p);
      history := next;
      MarkCompleted(p);
      assert View() == CompletePeriod(cfg, s, p) && history == next;
    }

    // -------------------------------------------------------------- reclaim

    method HasUnpaidRecords(p: Period) returns (r: bool)
      ensures r <==> HasUnpaid(View(), p)
    {
      var rest := unpaid.Keys;
      while rest != {}
        invariant rest <= unpaid.Keys
        invariant forall k :: k in unpaid.Keys - rest ==> k.period != p
        decreases |rest|
      {
        var k :| k in rest;
        if k.period == p {
          return true;
        }
        rest := rest - {k};
      }
      return false;
    }

    /** Removes at most `limit` entries, whichever come first. */
    static method DropEntries(snapshot: Snapshot, limit: nat) returns (rest: Snapshot)
      ensures |snapshot| <= limit ==> rest == map[]
      ensures rest.Keys <= snapshot.Keys && |rest| == SaturatingSub(|snapshot|, limit)
      ensures forall a :: a in rest ==> rest[a] == snapshot[a]
    {
      rest := snapshot;
      var removed := 0;
      while removed < limit && rest.Keys != {}
        invariant removed <= limit && rest.Keys <= snapshot.Keys
        invariant forall a :: a in rest ==> rest[a] == snapshot[a]
        invariant |rest.Keys| + removed == |snapshot.Keys|
      {
        var a :| a in rest.Keys;
        assert (rest - {a}).Keys == rest.Keys - {a};
        rest := rest - {a};
        removed := removed + 1;
      }
      assert |rest| == |rest.Keys| && |snapshot| == |snapshot.Keys|;
    }

    /** Clears at most the registered maximum of a settled period's entries, then its marker if none is left. */
    method TryReclaimPeriod(p: Period)
      modifies `snapshots, `completed
      ensures |SnapshotOf(old(View()), p)| <= cfg.limits.maxChains ==> View() == TryReclaim(cfg, old(View()), p)
      ensures p !in old(completed) || HasUnpaid(old(View()), p) ==> View() == old(View())
      ensures p in old(completed) && !HasUnpaid(old(View()), p) ==>
                ReclaimedUpTo(old(View()), View(), p, cfg.limits.maxChains)
    {
      ghost var s := View();
      if p !in completed {
        return;
      }
      var outstanding := HasUnpaidRecords(p);
      if outstanding {
        return;
      }
      var rest := DropEntries(if p in snapshots then snapshots[p] else map[], cfg.limits.maxChains);
      LeftWithReclaims(cfg, s, p, rest);
      snapshots := if rest == map[] then snapshots - {p} else snapshots[p := rest];
      if rest == map[] {
        completed := completed - {p};
      }
      assert View() == LeftWith(s, p, rest);
    }

    method ReclaimPeriod(p: Period)
      requires Valid()
      modifies this
      ensures Valid() && Performed(CallReclaim(p)) && View() == old(View())
    {
      ReclaimIsIdle(cfg, View(), history, p);
      SnapshotSmall(cfg, View(), history, p);
      TryReclaimPeriod(p);
    }

    // -------------------------------------------------------------- payouts

    /** Pays every due chain in turn inside a storage layer: the first failed transfer discards it. */
    static method PayChains(paid: map<Line, Payment>, key: Key, record: Record, pools: Snapshot, attempt: Attempt)
      returns (layer: Option<map<Line, Payment>>)
      ensures layer.Some? <==> DueFrom(pools, record, attempt.eligible) <= attempt.payable
      ensures layer.Some? ==>
                layer.value == PayAllDue(paid, key, record, pools, DueFrom(pools, record, attempt.eligible))
    {
      var log, rest := paid, pools.Keys;
      ghost var due, done := DueFrom(pools, record, attempt.eligible), {};
      NothingDue(paid, key, record, pools);
      while rest != {}
        invariant rest <= pools.Keys && done == due - rest && done <= attempt.payable
        invariant log == PayAllDue(paid, key, record, pools, done)
        decreases |rest|
      {
        var a :| a in rest;
        var amount := ShareOf(record.share, pools[a].amount);
        if a in attempt.eligible && amount != 0 {
          if a !in attempt.payable {
            assert a in due;
            return None;
          }
          OneMoreDue(paid, key, record, pools, done, a);
          log := Pay(log, Line(key, a), record.owner, pools[a].token, amount);
          done := done + {a};
        }
        rest := rest - {a};
      }
      assert done == due;
      return Some(log);
    }

    /** Settles one record, or leaves storage as it was for a retry. */
    method PayRecord(key: Key, attempt: Attempt) returns (ok: bool)
      requires key in unpaid ==> |SnapshotOf(View(), key.period)| <= cfg.limits.maxChains
      modifies `paid, `unpaid, `byNode, `snapshots, `completed
      ensures ok <==> Pays(old(View()), key, attempt)
      ensures View() == TryPay(cfg, old(View()), key, attempt)
    {
      if key !in unpaid {
        return false;
      }
      var record := unpaid[key];
      var pools := if key.period in snapshots then snapshots[key.period] else map[];
      var layer := PayChains(paid, key, record, pools, attempt);
      ok := layer.Some?;
      if ok {
        paid := layer.value;
        unpaid := unpaid - {key};
        byNode := byNode - {key};
        assert View() == Cleared(old(View()), key, attempt.eligible);
        TryReclaimPeriod(key.period);
      }
    }

    method TryPayNodePeriod(key: Key, attempt: Attempt) returns (ok: bool)
      requires Inv(cfg, View(), history)
      modifies `paid, `unpaid, `byNode, `snapshots, `completed, `history
      ensures Inv(cfg, View(), history)
      ensures ok <==> Pays(old(View()), key, attempt)
      ensures View() == TryPay(cfg, old(View()), key, attempt)
      ensures history == TryPayHistory(old(View()), old(history), key, attempt)
    {
      if key in unpaid {
        LiveSnapshot(cfg, View(), history, key);
        SettleInv(cfg, View(), history, key, attempt.eligible);
      }
      ok := PayRecord(key, attempt);
      if ok {
        history := history.(settled := history.settled[key := attempt.eligible]);
      }
    }

    method PayBatch(batch: seq<Key>, attempts: Attempts)
      requires Inv(cfg, View(), history)
      modifies `paid, `unpaid, `byNode, `snapshots, `completed, `history
      ensures Inv(cfg, View(), history)
      ensures View() == PayEach(cfg, old(View()), batch, attempts)
      ensures history == PayEachHistory(cfg, old(View()), old(history), batch, attempts)
    {
      for i := 0 to |batch|
        invariant Inv(cfg, View(), history)
        invariant View() == PayEach(cfg, old(View()), batch[..i], attempts)
        invariant history == PayEachHistory(cfg, old(View()), old(history), batch[..i], attempts)
      {
        assert batch[..i + 1][..i] == batch[..i];
        var _ := TryPayNodePeriod(batch[i], attempts(batch[i]));
      }
      assert batch[..|batch|] == batch;
    }

    // -------------------------------------------------------------- claims

    ghost function NodeKeys(node: Node): set<Key>
      reads this
    {
      set k | k in byNode && k.node == node
    }

    /** The first outstanding periods of a node, in whatever order its index yields them. */
    method CollectPeriods(node: Node, max: nat) returns (periods: seq<Period>)
      ensures |periods| == Min(max, |NodeKeys(node)|) && Distinct(periods)
      ensures forall p :: p in periods ==> Key(p, node) in byNode
    {
      periods := [];
      var rest := set k | k in byNode && k.node == node;
      while |periods| < max && rest != {}
        invariant rest <= NodeKeys(node) && |periods| <= max
        invariant |periods| + |rest| == |NodeKeys(node)|
        invariant Distinct(periods)
        invariant forall p :: p in periods ==> Key(p, node) in NodeKeys(node) && Key(p, node) !in rest
        decreases |rest|
      {
        var k :| k in rest;
        assert k == Key(k.period, node);
        periods := periods + [k.period];
        rest := rest - {k};
      }
    }

    method ClaimPeriods(node: Node, periods: seq<Period>, attempts: Attempts)
      requires Valid()
      modifies this
      ensures Valid() && Performed(CallClaim(node, periods, attempts))
    {
      ghost var c := CallClaim(node, periods, attempts);
      StepPassOk(cfg, View(), pass, c);
      var keys := seq(|periods|, i requires 0 <= i < |periods| => Key(periods[i], node));
      assert keys == KeysOf(node, periods);
      ghost var next := StepPass(cfg, View(), pass, c);
      PayBatch(keys, attempts);
      assert View() == Rewards.Step(cfg, old(View()), c);
      pass := next;
    }

    method Claim(node: Node, attempts: Attempts) returns (ok: bool, ghost periods: seq<Period>)
      requires Valid()
      modifies this
      ensures Valid() && Performed(CallClaim(node, periods, attempts))
      ensures |periods| == Min(cfg.maxPayouts, |old(NodeKeys(node))|) && Distinct(periods)
      ensures forall p :: p in periods ==> Key(p, node) in old(byNode)
      ensures ok <==> periods != []
    {
      var list := CollectPeriods(node, cfg.maxPayouts);
      periods := list;
      ClaimPeriods(node, list, attempts);
      ok := |list| > 0;
    }

    // -------------------------------------------------------------- the sweep

    /** The next record in storage order after a position. */
    method NextAfter(position: int) returns (r: Option<Key>)
      ensures r.None? ==> forall k :: k in unpaid ==> cfg.rank(k) <= position
      ensures r.Some? ==> r.value in unpaid && cfg.rank(r.value) > position
      ensures r.Some? ==> forall k :: k in unpaid && cfg.rank(k) > position ==> cfg.rank(r.value) <= cfg.rank(k)
    {
      r := None;
      var rest := unpaid.Keys;
      while rest != {}
        invariant rest <= unpaid.Keys
        invariant r.None? ==> forall k :: k in unpaid.Keys - rest ==> cfg.rank(k) <= position
        invariant r.Some? ==> r.value in unpaid && cfg.rank(r.value) > position
        invariant r.Some? ==> forall k :: k in unpaid.Keys - rest && cfg.rank(k) > position ==>
                                cfg.rank(r.value) <= cfg.rank(k)
        decreases |rest|
      {
        var k :| k in rest;
        if cfg.rank(k) > position && (r.None? || cfg.rank(k) < cfg.rank(r.value)) {
          r := Some(k);
        }
        rest := rest - {k};
      }
    }

    /** Collects up to `capacity` records from the cursor on; tells whether the iteration ran out first. */
    method CollectBatch(capacity: nat) returns (batch: seq<Key>, exhausted: bool)
      requires ValidConfig(cfg)
      ensures batch == Rewards.BatchOf(cfg, View(), capacity)
      ensures exhausted <==> Exhausts(cfg, View(), capacity)
    {
      batch, exhausted := [], false;
      var position := CursorRank(cfg, cursor);
      while |batch| < capacity
        invariant |batch| <= capacity && IsFront(cfg, View(), batch, position)
      {
        var next := NextAfter(position);
        if next.None? {
          FrontIsAll(cfg, View(), batch, position);
          exhausted := true;
          return;
        }
        FrontGrows(cfg, View(), batch, position, next.value);
        batch := batch + [next.value];
        position := cfg.rank(next.value);
      }
    }

    /** Moves the cursor by position, whatever the payouts do, then attempts the batch. */
    method SweepOutstanding(batch: seq<Key>, exhausted: bool, ghost capacity: nat, attempts: Attempts)
      requires Valid()
      requires batch == Rewards.BatchOf(cfg, View(), capacity) && (exhausted <==> Exhausts(cfg, View(), capacity))
      modifies this
      ensures Valid() && Performed(CallSweep(capacity, attempts))
    {
      StepPassOk(cfg, View(), pass, CallSweep(capacity, attempts));
      CursorKeepsInv(cfg, View(), history, AdvanceCursor(cfg, View(), capacity), chains);
      if exhausted {
        cursor := None;
      } else if batch != [] {
        cursor := Some(batch[|batch| - 1]);
      }
      assert View() == old(View()).(cursor := AdvanceCursor(cfg, old(View()), capacity));
      PayBatch(batch, attempts);
      if exhausted {
        pass := Pass(unpaid.Keys, [], {});
      } else {
        pass := pass.(swept := pass.swept + batch);
      }
    }

    /** `capacity` is the lesser of the payout bound and what the block's leftover weight allows. */
    method OnIdle(capacity: nat, attempts: Attempts)
      requires Valid() && capacity <= cfg.maxPayouts
      modifies this
      ensures Valid() && Performed(CallSweep(capacity, attempts))
    {
      var batch, exhausted := CollectBatch(capacity);
      SweepOutstanding(batch, exhausted, capacity, attempts);
    }

    /** A sweep that finds nothing fails, and the failed call leaves the cursor where it was. */
    method ProcessOutstandingRewards(attempts: Attempts) returns (ok: bool)
      requires Valid()
      modifies this
      ensures Valid() && Performed(CallProcessOutstanding(attempts))
      ensures ok <==> Rewards.BatchOf(cfg, old(View()), cfg.maxPayouts) != []
    {
      var batch, exhausted := CollectBatch(cfg.maxPayouts);
      OutstandingIsSweep(cfg, View(), history, pass, attempts);
      if batch == [] {
        return false;
      }
      SweepOutstanding(batch, exhausted, cfg.maxPayouts, attempts);
      return true;
    }

    // -------------------------------------------------------------- app chains

    /** Registration, rates, disabling and deregistration touch nothing a recorded reward depends on. */
    method ManageChains(call: AppChains.Call) returns (r: Result<(), AppChains.Error>)
      requires Valid()
      modifies this
      ensures Valid() && Performed(CallChains(call))
      ensures r.Ok? <==> Apply(cfg.limits, old(chains), call).Ok?
      ensures r.Err? ==> Apply(cfg.limits, old(chains), call) == Err(r.error)
    {
      StepInv(cfg, View(), history, CallChains(call));
      StepPassOk(cfg, View(), pass, CallChains(call));
      match Apply(cfg.limits, chains, call)
      case Ok(c) =>
        chains := c;
        r := Ok(());
      case Err(e) =>
        r := Err(e);
    }
  }

  // ---------------------------------------------------------------- facts the loops use

  /** The permissionless call is a sweep when there is something to attempt, and nothing otherwise. */
  lemma OutstandingIsSweep(cfg: Config, s: State, h: History, pass: Pass, attempts: Attempts)
    ensures var c := CallProcessOutstanding(attempts);
            if Rewards.BatchOf(cfg, s, cfg.maxPayouts) == [] then
              Rewards.Step(cfg, s, c) == s && StepHistory(cfg, s, h, c) == h && StepPass(cfg, s, pass, c) == pass
            else
              var d := CallSweep(cfg.maxPayouts, attempts);
              && Rewards.Step(cfg, s, c) == Rewards.Step(cfg, s, d)
              && StepHistory(cfg, s, h, c) == StepHistory(cfg, s, h, d)
              && StepPass(cfg, s, pass, c) == StepPass(cfg, s, pass, d)
  {
  }

  /**
   Up to `limit` entries of the period's snapshot are gone, whichever they are, the others
   as they were; the marker is gone with the last one, and nothing else has changed.
   */
  ghost predicate ReclaimedUpTo(s: State, s': State, p: Period, limit: nat) {
    var before, after := SnapshotOf(s, p), SnapshotOf(s', p);
    && after.Keys <= before.Keys && |after| == SaturatingSub(|before|, limit)
    && (forall a :: a in after ==> after[a] == before[a])
    && s'.completed == (if after == map[] then s.completed - {p} else s.completed)
    && s' == s.(snapshots := s'.snapshots, completed := s'.completed)
    && forall q :: q != p ==> SnapshotOf(s', q) == SnapshotOf(s, q)
  }

  /** The state whose snapshot of the period is down to `rest`. */
  ghost function LeftWith(s: State, p: Period, rest: Snapshot): State {
    if rest == map[] then s.(snapshots := s.snapshots - {p}, completed := s.completed - {p})
    else s.(snapshots := s.snapshots[p := rest])
  }

  lemma LeftWithReclaims(cfg: Config, s: State, p: Period, rest: Snapshot)
    requires p in s.completed && !HasUnpaid(s, p)
    requires rest.Keys <= SnapshotOf(s, p).Keys && |rest| == SaturatingSub(|SnapshotOf(s, p)|, cfg.limits.maxChains)
    requires forall a :: a in rest ==> rest[a] == SnapshotOf(s, p)[a]
    ensures ReclaimedUpTo(s, LeftWith(s, p, rest), p, cfg.limits.maxChains)
    ensures |SnapshotOf(s, p)| <= cfg.limits.maxChains ==> LeftWith(s, p, rest) == TryReclaim(cfg, s, p)
  {
    LeftWithSnapshots(s, p, rest);
    if |SnapshotOf(s, p)| <= cfg.limits.maxChains {
      assert rest == map[];
      LeftWithNothing(cfg, s, p);
    }
  }

  lemma LeftWithSnapshots(s: State, p: Period, rest: Snapshot)
    ensures SnapshotOf(LeftWith(s, p, rest), p) == rest
    ensures forall q :: q != p ==> SnapshotOf(LeftWith(s, p, rest), q) == SnapshotOf(s, q)
  {
  }

  lemma LeftWithNothing(cfg: Config, s: State, p: Period)
    requires p in s.completed && !HasUnpaid(s, p) && |SnapshotOf(s, p)| <= cfg.limits.maxChains
    ensures LeftWith(s, p, map[]) == TryReclaim(cfg, s, p)
  {
    ReclaimInOneCall(cfg, s, p);
  }

  lemma CompletionKeeps(cfg: Config, s: State, h: History, pass: Pass, p: Period)
    requires ValidConfig(cfg) && Inv(cfg, s, h) && PassOk(cfg, s, pass)
    ensures |SnapshotOf(s, p)| <= cfg.limits.maxChains
    ensures Rewards.Step(cfg, s, CallComplete(p)) == CompletePeriod(cfg, s, p)
    ensures Inv(cfg, CompletePeriod(cfg, s, p), StepHistory(cfg, s, h, CallComplete(p)))
    ensures PassOk(cfg, CompletePeriod(cfg, s, p), pass) && StepPass(cfg, s, pass, CallComplete(p)) == pass
  {
    SnapshotSmall(cfg, s, h, p);
    CompleteInv(cfg, s, h, p);
    StepPassOk(cfg, s, pass, CallComplete(p));
  }

  lemma NoneFunded(start: Snapshot, rates: map<Asset, Pool>)
    ensures start + Funded(rates, {}) == start
  {
  }

  lemma OneMoreFunded(start: Snapshot, rates: map<Asset, Pool>, done: set<Asset>, a: Asset)
    requires a in rates && a !in done
    ensures start + Funded(rates, done + {a})
         == if rates[a].amount != 0 then (start + Funded(rates, done))[a := rates[a]] else start + Funded(rates, done)
  {
    var before, after := start + Funded(rates, done), start + Funded(rates, done + {a});
    if rates[a].amount != 0 {
      assert after == before[a := rates[a]];
    } else {
      assert Funded(rates, done + {a}) == Funded(rates, done);
    }
  }

  lemma NothingDue(paid: map<Line, Payment>, key: Key, record: Record, pools: Snapshot)
    ensures PayAllDue(paid, key, record, pools, {}) == paid
  {
  }

  lemma OneMoreDue(paid: map<Line, Payment>, key: Key, record: Record, pools: Snapshot, due: set<Asset>, a: Asset)
    requires due <= pools.Keys && a in pools && a !in due
    ensures PayAllDue(paid, key, record, pools, due + {a})
         == Pay(PayAllDue(paid, key, record, pools, due), Line(key, a), record.owner, pools[a].token,
                ShareOf(record.share, pools[a].amount))
  {
    var before, after := PayAllDue(paid, key, record, pools, due), PayAllDue(paid, key, record, pools, due + {a});
    assert after.Keys == before.Keys + {Line(key, a)};
  }

  /** The batch so far is the front of the records after the cursor, and `position` its last rank. */
  ghost predicate IsFront(cfg: Config, s: State, batch: seq<Key>, position: int) {
    && |batch| <= |KeysAfter(cfg, s)| && batch == KeysAfter(cfg, s)[..|batch|]
    && position == if batch == [] then CursorRank(cfg, s.cursor) else cfg.rank(batch[|batch| - 1])
  }

  lemma LaterRanks(cfg: Config, s: State, batch: seq<Key>, position: int)
    requires ValidConfig(cfg) && IsFront(cfg, s, batch, position)
    ensures |batch| < |KeysAfter(cfg, s)| ==>
              KeysAfter(cfg, s)[|batch|] in s.unpaid && cfg.rank(KeysAfter(cfg, s)[|batch|]) > position
    ensures position >= CursorRank(cfg, s.cursor)
  {
    KeysAfterCursor(cfg, s);
    var keys := KeysAfter(cfg, s);
    assert forall i :: 0 <= i < |keys| ==> keys[i] in Elements(keys);
  }

  lemma FrontIsAll(cfg: Config, s: State, batch: seq<Key>, position: int)
    requires ValidConfig(cfg) && IsFront(cfg, s, batch, position)
    requires forall k :: k in s.unpaid ==> cfg.rank(k) <= position
    ensures batch == KeysAfter(cfg, s)
  {
    LaterRanks(cfg, s, batch, position);
  }

  lemma FrontGrows(cfg: Config, s: State, batch: seq<Key>, position: int, next: Key)
    requires ValidConfig(cfg) && IsFront(cfg, s, batch, position)
    requires next in s.unpaid && cfg.rank(next) > position
    requires forall k :: k in s.unpaid && cfg.rank(k) > position ==> cfg.rank(next) <= cfg.rank(k)
    ensures IsFront(cfg, s, batch + [next], cfg.rank(next))
  {
    NextIsHere(cfg, s, batch, position, next);
    var keys := KeysAfter(cfg, s);
    assert keys[..|batch| + 1] == keys[..|batch|] + [next];
  }

  lemma NextIsHere(cfg: Config, s: State, batch: seq<Key>, position: int, next: Key)
    requires ValidConfig(cfg) && IsFront(cfg, s, batch, position)
    requires next in s.unpaid && cfg.rank(next) > position
    requires forall k :: k in s.unpaid && cfg.rank(k) > position ==> cfg.rank(next) <= cfg.rank(k)
    ensures |batch| < |KeysAfter(cfg, s)| && KeysAfter(cfg, s)[|batch|] == next
  {
    KeysAfterCursor(cfg, s);
    LaterRanks(cfg, s, batch, position);
    var keys := KeysAfter(cfg, s);
    assert next in Elements(keys);
    assert forall k :: k in keys ==> k in Elements(keys);
    LeastIsNext(cfg, keys, |batch|, position, next);
  }

  /** In an ascending list the least element past a position is the one right after it. */
  lemma LeastIsNext(cfg: Config, keys: seq<Key>, n: nat, position: int, next: Key)
    requires RankAscending(cfg, keys) && n <= |keys| && next in keys
    requires n > 0 ==> cfg.rank(keys[n - 1]) <= position
    requires n < |keys| ==> cfg.rank(keys[n]) > position
    requires cfg.rank(next) > position
    requires forall k :: k in keys && cfg.rank(k) > position ==> cfg.rank(next) <= cfg.rank(k)
    ensures n < |keys| && keys[n] == next
  {
    var i :| 0 <= i < |keys| && keys[i] == next;
    assert n <= i;
    assert keys[n] in keys;
  }
}
