/** Two bridge instances, one migrating its records to the other while both go on voting and delivering. */
module EventHandover {
  import opened Quorum
  import opened ProcessedEvents
  import opened EventVoting

  /** A batch migrates only between valid instances on one network. */
  predicate Connected(source: State, target: State) {
    source.instance.valid && target.instance.valid && source.instance.network == target.instance.network
  }

  /** The transactions whose records a batch moves. */
  ghost function MovedBy(source: State, target: State, order: seq<TxHash>): set<TxHash> {
    if !Connected(source, target) then {}
    else Moving(target.instance, target.instance.network, target.processed, BatchOf(order))
  }

  /** One migration batch; `order` is the order the source's entries are iterated in. */
  ghost function HandOver(source: State, target: State, order: seq<TxHash>): (State, State) {
    var moved := MovedBy(source, target, order);
    (GiveAway(source, moved), TakeOver(target, Part(source.processed, moved)))
  }

  /** It does to the two records what migrating the batch entry by entry does. */
  lemma HandOverIsMigration(source: State, target: State, order: seq<TxHash>)
    requires IterationOrder(order, source.processed)
    ensures var ledgers := (source.processed, target.processed);
            var (source', target') := HandOver(source, target, order);
            (source'.processed, target'.processed)
            == if Connected(source, target) then Migrate(target.instance, target.instance.network, ledgers, order)
               else ledgers
  {
    var moved, ledgers := MovedBy(source, target, order), (source.processed, target.processed);
    if Connected(source, target) {
      MigrateMovesExactly(target.instance, target.instance.network, ledgers, order);
      AbsorbMoves(ledgers, moved);
    } else {
      AbsorbNothing(target.processed, source.processed);
      assert source.processed - {} == source.processed;
    }
  }

  /** Between them the two instances go on knowing what they knew. */
  lemma HandOverConserves(source: State, target: State, order: seq<TxHash>)
    requires IterationOrder(order, source.processed)
    ensures var (source', target') := HandOver(source, target, order);
            SameHistory((source.processed, target.processed), (source'.processed, target'.processed))
  {
    HandOverIsMigration(source, target, order);
    if Connected(source, target) {
      MigrateConserves(target.instance, target.instance.network, (source.processed, target.processed), order);
    }
  }

  /** Both keep their invariants. */
  lemma HandOverKeeps(sourceCfg: Config, targetCfg: Config, source: State, target: State, order: seq<TxHash>)
    requires Inv(sourceCfg, source) && Inv(targetCfg, target)
    ensures var (source', target') := HandOver(source, target, order);
            Inv(sourceCfg, source') && Inv(targetCfg, target')
  {
    var moved := MovedBy(source, target, order);
    GiveAwayInv(sourceCfg, source, moved);
    TakeOverInv(targetCfg, target, Part(source.processed, moved));
  }

  datatype System = System(source: State, target: State)

  datatype Event = AtSource(call: Call) | AtTarget(call: Call) | Migrating(order: seq<TxHash>)

  /** Anything may happen at either instance; records leave only by migration, and only the source's. */
  predicate Admissible(e: Event) {
    e.Migrating? || (!e.call.CallHandOver? && !e.call.CallReceive?)
  }

  ghost function Next(sourceCfg: Config, targetCfg: Config, sys: System, e: Event): System {
    match e
    case AtSource(c) => sys.(source := Step(sourceCfg, sys.source, c))
    case AtTarget(c) => sys.(target := Step(targetCfg, sys.target, c))
    case Migrating(order) =>
      if !IterationOrder(order, sys.source.processed) then sys
      else var (source, target) := HandOver(sys.source, sys.target, order); System(source, target)
  }

  ghost function RunBoth(sourceCfg: Config, targetCfg: Config, sys: System, events: seq<Event>): System
    decreases |events|
  {
    if events == [] then sys
    else Next(sourceCfg, targetCfg, RunBoth(sourceCfg, targetCfg, sys, events[..|events| - 1]), events[|events| - 1])
  }

  ghost predicate Delivered(s: State, h: TxHash) {
    exists i :: 0 <= i < |s.delivered| && s.delivered[i].txHash == h
  }

  /** What was handed over is on the target's record and was not delivered by the target. */
  ghost predicate Apart(sys: System) {
    && sys.target.handed == {}
    && forall h :: h in sys.source.handed ==> h in sys.target.processed && !Delivered(sys.target, h)
  }

  /** Nothing on record is forgotten, and nothing on record is delivered anew. */
  ghost predicate Remembers(s: State, s': State) {
    && s'.handed == s.handed && s.processed.Keys <= s'.processed.Keys
    && forall h :: h in s.processed && Delivered(s', h) ==> Delivered(s, h)
  }

  lemma DeliveredBefore(s: State, s': State, h: TxHash)
    requires s.delivered <= s'.delivered && Delivered(s', h)
    requires h !in DeliveredFrom(s'.delivered, |s.delivered|)
    ensures Delivered(s, h)
  {
    var i :| 0 <= i < |s'.delivered| && s'.delivered[i].txHash == h;
    assert i < |s.delivered| && s.delivered[i] == s'.delivered[i];
  }

  lemma ApprovalRemembers(cfg: Config, s: State, author: Account, p: Partition)
    requires Inv(cfg, s) && SubmitEvents(cfg, s, author, p).1.Ok?
    requires |VotesFor(s.eventVotes, p) + {author}| >= RequiredFor(|cfg.validators|)
    ensures Remembers(s, SubmitEvents(cfg, s, author, p).0)
  {
    ApprovalEffects(cfg, s, author, p);
    var s' := SubmitEvents(cfg, s, author, p).0;
    forall h | h in s.processed && Delivered(s', h) ensures Delivered(s, h) {
      DeliveredBefore(s, s', h);
    }
  }

  lemma SubmissionRemembers(cfg: Config, s: State, author: Account, p: Partition)
    requires Inv(cfg, s)
    ensures Remembers(s, SubmitEvents(cfg, s, author, p).0)
  {
    if SubmitEvents(cfg, s, author, p).1.Ok?
       && |VotesFor(s.eventVotes, p) + {author}| >= RequiredFor(|cfg.validators|)
    {
      ApprovalRemembers(cfg, s, author, p);
    }
  }

  lemma RecordRemembers(cfg: Config, s: State, network: nat, id: EventId, accepted: bool)
    ensures Remembers(s, Step(cfg, s, CallRecord(network, id, accepted)))
  {
    AddKeeps(s.processed, id, accepted);
    var s' := Step(cfg, s, CallRecord(network, id, accepted));
    SameDeliveries(s, s');
  }

  lemma BallotRemembers(cfg: Config, s: State, author: Account, seen: nat)
    ensures Remembers(s, SubmitBlock(cfg, s, author, seen).0)
  {
    SameDeliveries(s, SubmitBlock(cfg, s, author, seen).0);
  }

  lemma ReceiptRemembers(s: State, entries: Ledger)
    ensures Remembers(s, TakeOver(s, entries))
  {
    AbsorbKeeps(s.processed, entries);
    SameDeliveries(s, TakeOver(s, entries));
  }

  lemma AdminRemembers(cfg: Config, s: State, c: Call)
    requires c.CallQueueAdditional? || c.CallRestart? || c.CallSetInstance?
    ensures Remembers(s, Step(cfg, s, c))
  {
    SameDeliveries(s, Step(cfg, s, c));
  }

  lemma SameDeliveries(s: State, s': State)
    requires s'.delivered == s.delivered
    ensures forall h :: Delivered(s', h) <==> Delivered(s, h)
  {
  }

  lemma StepRemembers(cfg: Config, s: State, c: Call)
    requires Inv(cfg, s) && !c.CallHandOver?
    ensures Remembers(s, Step(cfg, s, c))
  {
    match c
    case CallSubmitEvents(author, p) =>
      SubmissionRemembers(cfg, s, author, p);
    case CallReceive(entries) =>
      ReceiptRemembers(s, entries);
    case CallRecord(network, id, accepted) =>
      RecordRemembers(cfg, s, network, id, accepted);
    case CallSubmitBlock(author, seen) =>
      BallotRemembers(cfg, s, author, seen);
    case _ =>
      AdminRemembers(cfg, s, c);
  }

  lemma MigrationApart(targetCfg: Config, sys: System, order: seq<TxHash>)
    requires Inv(targetCfg, sys.target) && Apart(sys) && IterationOrder(order, sys.source.processed)
    ensures var (source, target) := HandOver(sys.source, sys.target, order); Apart(System(source, target))
  {
    OrderCovers(order, sys.source.processed);
    var moved := MovedBy(sys.source, sys.target, order);
    forall h | h in moved ensures h in sys.source.processed && !Delivered(sys.target, h) {
      assert !AlreadyAccepted(sys.target.processed, h);
    }
  }

  lemma NextApart(sourceCfg: Config, targetCfg: Config, sys: System, e: Event)
    requires ValidConfig(sourceCfg) && ValidConfig(targetCfg) && Admissible(e)
    requires Inv(sourceCfg, sys.source) && Inv(targetCfg, sys.target) && Apart(sys)
    ensures var sys' := Next(sourceCfg, targetCfg, sys, e);
            Inv(sourceCfg, sys'.source) && Inv(targetCfg, sys'.target) && Apart(sys')
  {
    match e
    case AtSource(c) =>
      StepInv(sourceCfg, sys.source, c);
      StepRemembers(sourceCfg, sys.source, c);
    case AtTarget(c) =>
      StepInv(targetCfg, sys.target, c);
      StepRemembers(targetCfg, sys.target, c);
    case Migrating(order) =>
      if IterationOrder(order, sys.source.processed) {
        HandOverKeeps(sourceCfg, targetCfg, sys.source, sys.target, order);
        MigrationApart(targetCfg, sys, order);
      }
  }

  /**
   However migration is interleaved with voting at both instances, both keep their
   invariants, and the target never delivers a transaction whose record was handed to it.
   */
  lemma {:induction false} RunApart(sourceCfg: Config, targetCfg: Config, sys: System, events: seq<Event>)
    requires ValidConfig(sourceCfg) && ValidConfig(targetCfg)
    requires Inv(sourceCfg, sys.source) && Inv(targetCfg, sys.target) && Apart(sys)
    requires forall e :: e in events ==> Admissible(e)
    ensures var sys' := RunBoth(sourceCfg, targetCfg, sys, events);
            Inv(sourceCfg, sys'.source) && Inv(targetCfg, sys'.target) && Apart(sys')
    decreases |events|
  {
    if events != [] {
      RunApart(sourceCfg, targetCfg, sys, events[..|events| - 1]);
      assert events[|events| - 1] in events;
      NextApart(sourceCfg, targetCfg, RunBoth(sourceCfg, targetCfg, sys, events[..|events| - 1]), events[|events| - 1]);
    }
  }

  /** So a transaction both delivered was never handed over: each still has it on record as accepted. */
  lemma DeliveredByBoth(sourceCfg: Config, targetCfg: Config, sys: System, h: TxHash)
    requires Inv(sourceCfg, sys.source) && Inv(targetCfg, sys.target) && Apart(sys)
    requires Delivered(sys.source, h) && Delivered(sys.target, h)
    ensures h !in sys.source.handed
    ensures AlreadyAccepted(sys.source.processed, h) && AlreadyAccepted(sys.target.processed, h)
  {
  }
}
