/** When an instance delivers a transaction again after handing its record over, and a run in which it does. */
module EventRedelivery {
  import opened Prelude
  import opened Quorum
  import opened EventKinds
  import opened ProcessedEvents
  import opened EventVoting
  import opened EventHandover
  import opened EventLimits

  /**
   An approving vote delivers a transaction again exactly when its partition names it and
   it is off the record, which it can only be because its record was handed over.
   */
  lemma RedeliversIff(cfg: Config, s: State, author: Account, p: Partition, h: TxHash)
    requires Inv(cfg, s) && SubmitEvents(cfg, s, author, p).1.Ok? && Delivered(s, h)
    requires |VotesFor(s.eventVotes, p) + {author}| >= RequiredFor(|cfg.validators|)
    ensures s.active.Some?
    ensures var again := h in DeliveredFrom(SubmitEvents(cfg, s, author, p).0.delivered, |s.delivered|);
            && (again <==> h in Named(s.active.value.filter, s.active.value.range.EndBlock(), p.events)
                           && h !in s.processed)
            && (again ==> h in s.handed)
  {
    ApprovalEffects(cfg, s, author, p);
  }

  /** What was handed over can also be asked for again by root, given room in the queue. */
  lemma HandedOverCanBeQueued(source: State, target: State, order: seq<TxHash>, h: TxHash)
    requires h in MovedBy(source, target, order) && |source.additional| < ADDITIONAL_BOUND
    ensures QueueAdditional(HandOver(source, target, order).0, h).1 == Ok(())
  {
  }

  // ---------------------------------------------------------------- a run that delivers twice

  /** The event is wanted and not from a later range. */
  ghost predicate Wanted(s: State, e: Discovered) {
    s.active.Some? && Handled(s.active.value.filter, s.active.value.range.EndBlock(), e)
  }

  function Naming(range: BlockRange, index: nat, e: Discovered): Partition {
    Partition(range, index, false, [e])
  }

  lemma DeliversOne(instance: Instance, l: Ledger, delivered: seq<EventId>, filter: set<EventKind>, endBlock: nat,
                    e: Discovered)
    requires instance.valid && Handled(filter, endBlock, e) && e.id.txHash !in l
    ensures ProcessEvents(instance, instance.network, l, delivered, filter, endBlock, [e])
         == (l[e.id.txHash := Processed(TryFrom(e.id.signature).value, true)], delivered + [e.id])
  {
    assert [e][..0] == [];
    assert ProcessEvents(instance, instance.network, l, delivered, filter, endBlock, []) == (l, delivered);
  }

  /** One vote for a partition that names an unrecorded transaction delivers it. */
  lemma VoteDelivers(cfg: Config, s: State, author: Account, e: Discovered)
    requires Ready(cfg, s, author) && Wanted(s, e) && e.id.txHash !in s.processed
    ensures var p := Naming(s.active.value.range, s.active.value.partition, e);
            var s' := Step(cfg, s, CallSubmitEvents(author, p));
            && s'.delivered == s.delivered + [e.id]
            && s'.processed == s.processed[e.id.txHash := Processed(TryFrom(e.id.signature).value, true)]
            && Ready(cfg, s', author) && Wanted(s', e) && s'.instance == s.instance
  {
    var active := s.active.value;
    VoteApproves(cfg, s, author, Naming(active.range, active.partition, e));
    DeliversOne(s.instance, s.processed, s.delivered, active.filter, active.range.EndBlock(), e);
  }

  /** Handing the only record over leaves none. */
  lemma HandsOverAll(source: State, target: State, h: TxHash, entry: Processed)
    requires Connected(source, target) && source.processed == map[h := entry] && target.processed == map[]
    ensures IterationOrder([h], source.processed)
    ensures HandOver(source, target, [h]).0 == source.(processed := map[], handed := source.handed + {h})
  {
    assert MovedBy(source, target, [h]) == {h};
    assert source.processed - {h} == map[];
  }

  lemma RunBothAppend(sourceCfg: Config, targetCfg: Config, sys: System, events: seq<Event>, e: Event)
    ensures RunBoth(sourceCfg, targetCfg, sys, events + [e])
         == Next(sourceCfg, targetCfg, RunBoth(sourceCfg, targetCfg, sys, events), e)
  {
    var all := events + [e];
    assert all[..|all| - 1] == events;
  }

  /** From a started range: vote, migrate, vote. */
  lemma VoteMigrateVote(cfg: Config, targetCfg: Config, sys: System, author: Account, e: Discovered) returns (events: seq<Event>)
    requires Ready(cfg, sys.source, author) && Wanted(sys.source, e) && Connected(sys.source, sys.target)
    requires sys.source.processed == map[] && sys.target.processed == map[]
    ensures forall ev :: ev in events ==> Admissible(ev)
    ensures RunBoth(cfg, targetCfg, sys, events).source.delivered == sys.source.delivered + [e.id, e.id]
  {
    var s, h := sys.source, e.id.txHash;
    var vote := AtSource(CallSubmitEvents(author, Naming(s.active.value.range, s.active.value.partition, e)));
    VoteDelivers(cfg, s, author, e);
    var sys1 := Next(cfg, targetCfg, sys, vote);
    HandsOverAll(sys1.source, sys1.target, h, Processed(TryFrom(e.id.signature).value, true));
    var sys2 := Next(cfg, targetCfg, sys1, Migrating([h]));
    VoteDelivers(cfg, sys2.source, author, e);
    var active := sys2.source.active.value;
    var again := AtSource(CallSubmitEvents(author, Naming(active.range, active.partition, e)));
    RunBothAppend(cfg, targetCfg, sys, [], vote);
    RunBothAppend(cfg, targetCfg, sys, [] + [vote], Migrating([h]));
    RunBothAppend(cfg, targetCfg, sys, [] + [vote] + [Migrating([h])], again);
    events := [] + [vote] + [Migrating([h])] + [again];
    assert s.delivered + [e.id] + [e.id] == s.delivered + [e.id, e.id];
  }

  ghost predicate DeliveredTwice(s: State) {
    exists i, j :: 0 <= i < j < |s.delivered| && s.delivered[i].txHash == s.delivered[j].txHash
  }

  /** Two new instances on one network can do it: the source delivers an event, migrates its record, and delivers it again. */
  lemma SourceDeliversTwice(cfg: Config, targetCfg: Config, instance: Instance, rangeSize: nat, targetSize: nat,
                            author: Account, seen: nat, e: Discovered)
    requires |cfg.validators| == 2 && author in cfg.validators && instance.valid && rangeSize > 0
    requires TryFrom(e.id.signature).Some? && TryFrom(e.id.signature).value in cfg.handled && e.block == 0
    ensures exists events ::
              && (forall ev :: ev in events ==> Admissible(ev))
              && DeliveredTwice(RunBoth(cfg, targetCfg, System(Genesis(instance, rangeSize), Genesis(instance, targetSize)),
                                        events).source)
  {
    var sys := System(Genesis(instance, rangeSize), Genesis(instance, targetSize));
    var ballot := AtSource(CallSubmitBlock(author, seen));
    OneBallotStarts(cfg, instance, rangeSize, author, seen);
    var started := Next(cfg, targetCfg, sys, ballot);
    var events := VoteMigrateVote(cfg, targetCfg, started, author, e);
    RunBothAfter(cfg, targetCfg, sys, ballot, events);
    var all := [ballot] + events;
    var s := RunBoth(cfg, targetCfg, sys, all).source;
    assert s.delivered[0] == s.delivered[1] == e.id;
    assert DeliveredTwice(s) && forall ev :: ev in all ==> Admissible(ev);
  }

  lemma {:induction false} RunBothAfter(sourceCfg: Config, targetCfg: Config, sys: System, first: Event, events: seq<Event>)
    ensures RunBoth(sourceCfg, targetCfg, sys, [first] + events)
         == RunBoth(sourceCfg, targetCfg, Next(sourceCfg, targetCfg, sys, first), events)
    decreases |events|
  {
    var all := [first] + events;
    if events == [] {
      assert all[..0] == [];
      assert RunBoth(sourceCfg, targetCfg, sys, all[..|all| - 1]) == sys;
    } else {
      var init := events[..|events| - 1];
      RunBothAfter(sourceCfg, targetCfg, sys, first, init);
      assert all[..|all| - 1] == [first] + init;
    }
  }
}
