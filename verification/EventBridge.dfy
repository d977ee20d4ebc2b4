/** Event voting, delivery and migration over mutable storage, proved against the state machine. */
module EventBridge {
  import opened Prelude
  import opened Quorum
  import opened SortedNats
  import opened ProcessedEvents
  import opened EventVoting
  import opened EventHandover
  import RangeSelection

  class Bridge {
    const cfg: Config
    var instance: Instance
    var active: Option<ActiveRange>
    var eventVotes: PartitionVotes
    var blockVotes: RangeSelection.Ballots
    var rangeSize: nat
    var additional: set<TxHash>
    var processed: Ledger
    var delivered: seq<EventId>
    var approvals: seq<Approval>
    ghost var handed: set<TxHash>

    ghost function View(): State
      reads this
    {
      State(instance, active, eventVotes, blockVotes, rangeSize, additional, processed, delivered, approvals, handed)
    }

    ghost predicate Valid()
      reads this
    {
      ValidConfig(cfg) && Inv(cfg, View())
    }

    constructor (cfg: Config, instance: Instance, rangeSize: nat)
      requires ValidConfig(cfg)
      ensures Valid() && this.cfg == cfg && View() == Genesis(instance, rangeSize)
    {
      this.cfg, this.instance, this.rangeSize := cfg, instance, rangeSize;
      active, eventVotes, blockVotes, additional := None, map[], map[], {};
      processed, delivered, approvals, handed := map[], [], [], {};
      GenesisInv(cfg, instance, rangeSize);
    }

    // -------------------------------------------------------------- partition votes

    method AuthorHasCastEventVote(author: Account) returns (r: bool)
      ensures r <==> HasVoted(eventVotes, author)
    {
      var rest := eventVotes.Keys;
      while rest != {}
        invariant rest <= eventVotes.Keys
        invariant forall p :: p in eventVotes.Keys - rest ==> author !in eventVotes[p]
        decreases |rest|
      {
        var p :| p in rest;
        if author in eventVotes[p] {
          return true;
        }
        rest := rest - {p};
      }
      return false;
    }

    method DeliverEvents(range: ActiveRange, events: seq<Discovered>)
      modifies `processed, `delivered
      ensures (processed, delivered)
           == ProcessEvents(instance, instance.network, old(processed), old(delivered),
                            range.filter, range.range.EndBlock(), events)
    {
      for i := 0 to |events|
        invariant (processed, delivered)
               == ProcessEvents(instance, instance.network, old(processed), old(delivered),
                                range.filter, range.range.EndBlock(), events[..i])
      {
        assert events[..i + 1][..i] == events[..i];
        if Handled(range.filter, range.range.EndBlock(), events[i]) {
          var (ledger, log) := ProcessEvent(instance, instance.network, processed, delivered, events[i].id);
          processed, delivered := ledger, log;
        }
      }
      assert events[..|events|] == events;
    }

    /** Empties the vote map; what was in it is reported. */
    method DrainVotes() returns (reported: map<Partition, set<Account>>)
      modifies `eventVotes
      ensures eventVotes == map[] && reported == old(eventVotes)
    {
      reported := map[];
      while eventVotes.Keys != {}
        invariant reported.Keys + eventVotes.Keys == old(eventVotes).Keys
        invariant forall q :: q in reported ==> reported[q] == old(eventVotes)[q]
        invariant forall q :: q in eventVotes ==> eventVotes[q] == old(eventVotes)[q]
        decreases |eventVotes.Keys|
      {
        var q :| q in eventVotes.Keys;
        reported := reported[q := eventVotes[q]];
        assert (eventVotes - {q}).Keys == eventVotes.Keys - {q};
        eventVotes := eventVotes - {q};
      }
    }

    /** Hands the approved events on, then drains and reports the votes for other partitions. */
    method ProcessPartition(range: ActiveRange, p: Partition) returns (reported: map<Partition, set<Account>>)
      modifies `eventVotes, `processed, `delivered
      ensures eventVotes == map[]
      ensures reported == old(eventVotes) - {p}
      ensures (processed, delivered)
           == ProcessEvents(instance, instance.network, old(processed), old(delivered),
                            range.filter, range.range.EndBlock(), p.events)
    {
      eventVotes := eventVotes - {p};
      DeliverEvents(range, p.events);
      reported := DrainVotes();
    }

    method AdvancePartition(range: ActiveRange, approved: Partition)
      modifies `active, `additional
      ensures (active, additional)
           == (Some(Advance(cfg, range, approved, old(additional)).0), Advance(cfg, range, approved, old(additional)).1)
    {
      if approved.isLast {
        active := Some(ActiveRange(range.range.NextRange(), 0, cfg.handled, additional));
        additional := {};
      } else {
        active := Some(range.(partition := SaturatingAdd(range.partition, 1, U16_MAX)));
      }
    }

    method SubmitEthereumEvents(author: Account, p: Partition) returns (r: Result<(), Error>)
      requires Valid()
      modifies this
      ensures Valid()
      ensures (View(), r) == SubmitEvents(cfg, old(View()), author, p)
    {
      StepInv(cfg, View(), CallSubmitEvents(author, p));
      r := CastEventVote(author, p);
    }

    method CastEventVote(author: Account, p: Partition) returns (r: Result<(), Error>)
      modifies this
      ensures (View(), r) == SubmitEvents(cfg, old(View()), author, p)
    {
      if author !in cfg.validators {
        return Err(NotAnAuthor);
      }
      if !instance.valid {
        return Err(InvalidInstance);
      }
      if active.None? || p.range != active.value.range || p.index != active.value.partition {
        return Err(NonActiveEthereumRange);
      }
      var voted := AuthorHasCastEventVote(author);
      if voted {
        return Err(EventVoteExists);
      }
      var votes := VotesFor(eventVotes, p);
      if |votes| >= VOTERS_BOUND {
        return Err(EventVotesFull);
      }
      votes := votes + {author};
      if |votes| < RequiredFor(|cfg.validators|) {
        eventVotes := eventVotes[p := votes];
      } else {
        var range := active.value;
        var reported := ProcessPartition(range, p);
        AdvancePartition(range, p);
        approvals := approvals + [Approval(p, author, votes, reported)];
      }
      return Ok(());
    }

    // -------------------------------------------------------------- the first range

    method AuthorHasSubmittedLatestBlock(author: Account) returns (r: bool)
      ensures r <==> RangeSelection.HasSubmitted(blockVotes, author)
    {
      var rest := blockVotes.Keys;
      while rest != {}
        invariant rest <= blockVotes.Keys
        invariant forall b :: b in blockVotes.Keys - rest ==> author !in blockVotes[b]
        decreases |rest|
      {
        var b :| b in rest;
        if author in blockVotes[b] {
          return true;
        }
        rest := rest - {b};
      }
      return false;
    }

    /** Removes at most `limit` entries, whichever come first. */
    method ClearSubmittedBlocks(limit: nat)
      modifies `blockVotes
      ensures |old(blockVotes)| <= limit ==> blockVotes == map[]
    {
      var removed := 0;
      while removed < limit && blockVotes.Keys != {}
        invariant removed <= limit
        invariant |blockVotes.Keys| + removed == |old(blockVotes)|
      {
        var b :| b in blockVotes.Keys;
        assert (blockVotes - {b}).Keys == blockVotes.Keys - {b};
        blockVotes := blockVotes - {b};
        removed := removed + 1;
      }
      assert blockVotes.Keys == {} ==> blockVotes == map[];
    }

    method StartFirstRange(blocks: seq<nat>, threshold: nat)
      requires ValidConfig(cfg) && threshold == RequiredForSupermajority(|cfg.validators|)
      requires RangeSelection.OneVoteEach(blockVotes) && RangeSelection.Voters(blockVotes) <= cfg.validators
      requires blocks == SortedList(blockVotes.Keys)
      modifies `active, `additional, `blockVotes
      ensures View() == StartRange(cfg, old(View()), old(blockVotes))
    {
      assert forall b :: b in blocks ==> b in Elements(blocks);
      var chosen := RangeSelection.SelectBlock(blocks, blockVotes, threshold, RequiredFor(|cfg.validators|));
      var range := if chosen.Some? then BlockRange(chosen.value, rangeSize) else BlockRange(0, 0);
      active := Some(ActiveRange(range, 0, cfg.handled, additional));
      additional := {};
      BallotsClear(cfg, blockVotes);
      RangeSelection.EntriesAtMostVoters(blockVotes);
      SubsetCount(RangeSelection.Voters(blockVotes), cfg.validators);
      ClearSubmittedBlocks(VOTERS_BOUND);
    }

    /** Counts the ballots and, with a supermajority, starts the range they choose. */
    method TallyBallots()
      requires ValidConfig(cfg)
      requires RangeSelection.OneVoteEach(blockVotes) && RangeSelection.Voters(blockVotes) <= cfg.validators
      modifies `active, `additional, `blockVotes
      ensures View() == Tally(cfg, old(View()), old(blockVotes))
    {
      var blocks, total := RangeSelection.CollectSubmittedBlocks(blockVotes);
      AscendingUnique(blocks, SortedList(blockVotes.Keys));
      var threshold := RequiredForSupermajority(|cfg.validators|);
      if total >= threshold {
        StartFirstRange(blocks, threshold);
      }
    }

    method CheckLatestBlock(author: Account, latestSeen: nat) returns (r: Result<nat, Error>)
      ensures r == CheckBallot(cfg, View(), author, latestSeen)
    {
      if author !in cfg.validators {
        return Err(NotAnAuthor);
      }
      if !instance.valid {
        return Err(InvalidInstance);
      }
      if active.Some? {
        return Err(VotingEnded);
      }
      var submitted := AuthorHasSubmittedLatestBlock(author);
      if submitted {
        return Err(EventVoteExists);
      }
      var start := RangeSelection.ComputeStartBlock(latestSeen, rangeSize);
      if start.None? {
        return Err(InvalidEthereumBlockRange);
      }
      if start.value in blockVotes && |blockVotes[start.value]| >= VOTERS_BOUND {
        return Err(EventVotesFull);
      }
      return Ok(start.value);
    }

    method SubmitLatestEthereumBlock(author: Account, latestSeen: nat) returns (r: Result<(), Error>)
      requires Valid()
      modifies this
      ensures Valid()
      ensures (View(), r) == SubmitBlock(cfg, old(View()), author, latestSeen)
    {
      SubmitBlockInv(cfg, View(), author, latestSeen);
      var start := CheckLatestBlock(author, latestSeen);
      if start.Err? {
        return Err(start.error);
      }
      BallotCounts(cfg, View(), author, latestSeen);
      TallyReplaces(cfg, View(), RangeSelection.AddBallot(blockVotes, start.value, author));
      blockVotes := RangeSelection.AddBallot(blockVotes, start.value, author);
      TallyBallots();
      return Ok(());
    }

    // -------------------------------------------------------------- records

    method AddProcessedEvent(network: nat, id: EventId, accepted: bool) returns (ok: bool)
      requires Valid()
      modifies `processed
      ensures Valid()
      ensures View() == Step(cfg, old(View()), CallRecord(network, id, accepted))
      ensures ok <==> AddProcessedOn(instance, network, old(processed), id, accepted).Some?
    {
      StepInv(cfg, View(), CallRecord(network, id, accepted));
      match AddProcessedOn(instance, network, processed, id, accepted)
      case None =>
        ok := false;
      case Some(ledger) =>
        processed := ledger;
        ok := true;
    }

    // -------------------------------------------------------------- migration

    /** Takes the first entries in iteration order out of this instance. */
    method GetEventsToMigrate(network: nat, order: seq<TxHash>) returns (r: Option<seq<Migration>>)
      requires IterationOrder(order, processed)
      modifies `processed
      ensures forall h :: h in BatchOf(order) ==> h in old(processed)
      ensures r.None? ==> processed == old(processed)
      ensures r.None? <==> !instance.valid || instance.network != network || order == []
      ensures r.Some? ==> r.value == Entries(old(processed), BatchOf(order))
      ensures r.Some? ==> processed == old(processed) - Elements(BatchOf(order))
    {
      OrderCovers(order, processed);
      if !instance.valid || instance.network != network {
        return None;
      }
      var hashes := BatchOf(order);
      var batch := Entries(processed, hashes);
      if |batch| == 0 {
        return None;
      }
      for i := 0 to |hashes|
        invariant processed == old(processed) - Elements(hashes[..i])
      {
        assert hashes[..i + 1] == hashes[..i] + [hashes[i]];
        processed := processed - {hashes[i]};
      }
      assert hashes[..|hashes|] == hashes;
      return Some(batch);
    }

    /** Records each entry here, or gives it back to the instance it came from. */
    method MigrateEventsBatch(source: Bridge, network: nat, batch: seq<Migration>)
      requires source != this
      modifies this`processed, source`processed
      ensures (source.processed, processed)
           == MigrateBatch(instance, network, (old(source.processed), old(processed)), batch)
      ensures old(Valid()) ==> Valid()
    {
      for i := 0 to |batch|
        invariant Keeps(old(processed), processed)
        invariant (source.processed, processed)
               == MigrateBatch(instance, network, (old(source.processed), old(processed)), batch[..i])
      {
        assert batch[..i + 1][..i] == batch[..i];
        var m := batch[i];
        AddKeeps(processed, m.id, m.outcome);
        match AddProcessedOn(instance, network, processed, m.id, m.outcome)
        case Some(ledger) => processed := ledger;
        case None => source.processed := ReturnEntry(source.processed, m);
      }
      assert batch[..|batch|] == batch;
      if old(Valid()) {
        KeepsDelivered(old(processed), processed, delivered, handed);
      }
    }

    /** One idle-time migration step from `source`; `order` is the order its entries are iterated in. */
    method MigrateOnIdle(source: Bridge, order: seq<TxHash>)
      requires Valid() && source.Valid() && source != this && IterationOrder(order, source.processed)
      modifies this`processed, source`processed, source`handed
      ensures Valid() && source.Valid()
      ensures (source.View(), View()) == HandOver(old(source.View()), old(View()), order)
      ensures SameHistory((old(source.processed), old(processed)), (source.processed, processed))
    {
      ghost var from, to := source.View(), View();
      HandOverKeeps(source.cfg, cfg, from, to, order);
      HandOverConserves(from, to, order);
      MoveRecords(source, order);
    }

    method MoveRecords(source: Bridge, order: seq<TxHash>)
      requires source != this && IterationOrder(order, source.processed)
      modifies this`processed, source`processed, source`handed
      ensures (source.View(), View()) == HandOver(old(source.View()), old(View()), order)
    {
      HandOverIsMigration(source.View(), View(), order);
      ghost var moved := MovedBy(source.View(), View(), order);
      MoveBatch(source, order);
      source.handed := source.handed + moved;
    }

    /** Takes a batch out of `source` and records it here, entry by entry. */
    method MoveBatch(source: Bridge, order: seq<TxHash>)
      requires source != this && IterationOrder(order, source.processed)
      modifies this`processed, source`processed
      ensures (source.processed, processed)
           == if Connected(old(source.View()), old(View()))
              then Migrate(instance, instance.network, (old(source.processed), old(processed)), order)
              else (old(source.processed), old(processed))
    {
      if source.instance.valid && instance.network == source.instance.network && instance.valid {
        var batch := source.GetEventsToMigrate(instance.network, order);
        if batch.Some? {
          MigrateEventsBatch(source, instance.network, batch.value);
        } else {
          NoElements(order);
          assert source.processed - Elements(BatchOf(order)) == source.processed;
        }
      }
    }
  }
}
