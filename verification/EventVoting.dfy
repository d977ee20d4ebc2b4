/**
 Event discovery as a state machine: votes that pick the first Ethereum range,
 votes on the partitions of the active range, delivery of what a quorum approved,
 and the reporting of those who voted for something else.
 */
module EventVoting {
  import opened Prelude
  import opened Quorum
  import opened SortedNats
  import opened EventKinds
  import opened ProcessedEvents
  import RangeSelection

  type Account = RangeSelection.Account

  const VOTERS_BOUND: nat := 256
  const ADDITIONAL_BOUND: nat := 16

  datatype Error =
    | NotAnAuthor | InvalidInstance | NonActiveEthereumRange | EventVoteExists | EventVotesFull
    | VotingEnded | InvalidEthereumBlockRange | EventAlreadyAccepted | QuotaReachedForAdditionalEvents

  datatype BlockRange = BlockRange(start: nat, length: nat) {
    function NextRange(): BlockRange {
      BlockRange(SaturatingAdd(start, length, U32_MAX), length)
    }

    function EndBlock(): nat {
      SaturatingSub(SaturatingAdd(start, length, U32_MAX), 1)
    }
  }

  datatype Partition = Partition(range: BlockRange, index: nat, isLast: bool, events: seq<Discovered>)

  datatype ActiveRange =
    ActiveRange(range: BlockRange, partition: nat, filter: set<EventKind>, additional: set<TxHash>)

  /** An approved partition, the quorum behind it, and the votes reported as offences with it. */
  datatype Approval =
    Approval(partition: Partition, reporter: Account, winners: set<Account>, reported: map<Partition, set<Account>>)

  type PartitionVotes = map<Partition, set<Account>>

  /** `approvals` and `handed`, the transactions whose record was given to another instance, are history. */
  datatype State = State(
    instance: Instance,
    active: Option<ActiveRange>,
    eventVotes: PartitionVotes,
    blockVotes: RangeSelection.Ballots,
    rangeSize: nat,
    additional: set<TxHash>,
    processed: Ledger,
    delivered: seq<EventId>,
    approvals: seq<Approval>,
    handed: set<TxHash>)

  datatype Config = Config(validators: set<Account>, handled: set<EventKind>)

  predicate ValidConfig(cfg: Config) {
    |cfg.validators| <= VOTERS_BOUND
  }

  function Genesis(instance: Instance, rangeSize: nat): State {
    State(instance, None, map[], map[], rangeSize, {}, map[], [], [], {})
  }

  // ---------------------------------------------------------------- partition votes

  ghost predicate HasVoted(votes: PartitionVotes, author: Account) {
    exists p :: p in votes && author in votes[p]
  }

  function VotesFor(votes: PartitionVotes, p: Partition): set<Account> {
    if p in votes then votes[p] else {}
  }

  /** The range or partition that follows an approved one. */
  function Advance(cfg: Config, active: ActiveRange, approved: Partition, queued: set<TxHash>)
    : (ActiveRange, set<TxHash>)
  {
    if approved.isLast then
      (ActiveRange(active.range.NextRange(), 0, cfg.handled, queued), {})
    else
      (active.(partition := SaturatingAdd(active.partition, 1, U16_MAX)), queued)
  }

  ghost function Approve(cfg: Config, s: State, p: Partition, author: Account): State
    requires s.active.Some?
  {
    var active := s.active.value;
    var (ledger, delivered) :=
      ProcessEvents(s.instance, s.instance.network, s.processed, s.delivered,
                    active.filter, active.range.EndBlock(), p.events);
    var (next, queued) := Advance(cfg, active, p, s.additional);
    s.(active := Some(next), additional := queued, processed := ledger, delivered := delivered,
       eventVotes := map[],
       approvals := s.approvals
         + [Approval(p, author, VotesFor(s.eventVotes, p) + {author}, s.eventVotes - {p})])
  }

  ghost function SubmitEvents(cfg: Config, s: State, author: Account, p: Partition): (State, Result<(), Error>) {
    if author !in cfg.validators then (s, Err(NotAnAuthor))
    else if !s.instance.valid then (s, Err(InvalidInstance))
    else if s.active.None? then (s, Err(NonActiveEthereumRange))
    else if p.range != s.active.value.range || p.index != s.active.value.partition then
      (s, Err(NonActiveEthereumRange))
    else if HasVoted(s.eventVotes, author) then (s, Err(EventVoteExists))
    else if |VotesFor(s.eventVotes, p)| >= VOTERS_BOUND then (s, Err(EventVotesFull))
    else
      var votes := VotesFor(s.eventVotes, p) + {author};
      if |votes| < RequiredFor(|cfg.validators|) then (s.(eventVotes := s.eventVotes[p := votes]), Ok(()))
      else (Approve(cfg, s, p, author), Ok(()))
  }

  // ---------------------------------------------------------------- the first range

  ghost function StartRange(cfg: Config, s: State, votes: RangeSelection.Ballots): State {
    var n := |cfg.validators|;
    var chosen := RangeSelection.Select(SortedList(votes.Keys), votes, RequiredForSupermajority(n), RequiredFor(n));
    var range := if chosen.Some? then BlockRange(chosen.value, s.rangeSize) else BlockRange(0, 0);
    s.(active := Some(ActiveRange(range, 0, cfg.handled, s.additional)), additional := {},
       blockVotes := ClearUpTo(votes, VOTERS_BOUND))
  }

  /** The start block a ballot counts for, if it counts. */
  ghost function CheckBallot(cfg: Config, s: State, author: Account, seen: nat): Result<nat, Error> {
    if author !in cfg.validators then Err(NotAnAuthor)
    else if !s.instance.valid then Err(InvalidInstance)
    else if s.active.Some? then Err(VotingEnded)
    else if RangeSelection.HasSubmitted(s.blockVotes, author) then Err(EventVoteExists)
    else
      match RangeSelection.ComputeStartBlock(seen, s.rangeSize)
      case None => Err(InvalidEthereumBlockRange)
      case Some(block) =>
        if block in s.blockVotes && |s.blockVotes[block]| >= VOTERS_BOUND then Err(EventVotesFull) else Ok(block)
  }

  /** The state once the ballots are `votes`. */
  ghost function Tally(cfg: Config, s: State, votes: RangeSelection.Ballots): State {
    if |RangeSelection.Voters(votes)| >= RequiredForSupermajority(|cfg.validators|) then StartRange(cfg, s, votes)
    else s.(blockVotes := votes)
  }

  lemma TallyReplaces(cfg: Config, s: State, votes: RangeSelection.Ballots)
    ensures Tally(cfg, s.(blockVotes := votes), votes) == Tally(cfg, s, votes)
  {
  }

  /** A counted ballot meets the conditions for tallying. */
  lemma BallotCounts(cfg: Config, s: State, author: Account, seen: nat)
    requires Inv(cfg, s) && CheckBallot(cfg, s, author, seen).Ok?
    ensures var votes := RangeSelection.AddBallot(s.blockVotes, CheckBallot(cfg, s, author, seen).value, author);
            RangeSelection.OneVoteEach(votes) && RangeSelection.Voters(votes) <= cfg.validators
  {
    RangeSelection.AddBallotOk(s.blockVotes, CheckBallot(cfg, s, author, seen).value, author);
  }

  ghost function SubmitBlock(cfg: Config, s: State, author: Account, seen: nat): (State, Result<(), Error>) {
    match CheckBallot(cfg, s, author, seen)
    case Err(e) => (s, Err(e))
    case Ok(block) => (Tally(cfg, s, RangeSelection.AddBallot(s.blockVotes, block, author)), Ok(()))
  }

  // ---------------------------------------------------------------- administration and other pallets

  function QueueAdditional(s: State, h: TxHash): (State, Result<(), Error>) {
    if AlreadyAccepted(s.processed, h) then (s, Err(EventAlreadyAccepted))
    else if h !in s.additional && |s.additional| >= ADDITIONAL_BOUND then (s, Err(QuotaReachedForAdditionalEvents))
    else (s.(additional := s.additional + {h}), Ok(()))
  }

  /** The votes a bounded clear of at most `limit` entries leaves behind. */
  function ClearVotes(votes: PartitionVotes, limit: nat, kept: set<Partition>): PartitionVotes {
    if |votes| <= limit then map[] else map p | p in votes && p in kept :: votes[p]
  }

  /** The source's side of a migration: the records of some transactions leave for another instance. */
  function GiveAway(s: State, moved: set<TxHash>): State {
    s.(processed := s.processed - moved, handed := s.handed + moved)
  }

  /** The target's side: entries are recorded unless their transaction was already accepted. */
  function TakeOver(s: State, entries: Ledger): State {
    s.(processed := Absorb(s.processed, entries))
  }

  datatype Call =
    | CallSubmitEvents(author: Account, partition: Partition)
    | CallSubmitBlock(author: Account, seen: nat)
    | CallQueueAdditional(hash: TxHash)
    | CallRestart(kept: set<Partition>)
    | CallSetInstance(instance: Instance, kept: set<Partition>)
    | CallRecord(network: nat, id: EventId, accepted: bool)
    | CallHandOver(moved: set<TxHash>)
    | CallReceive(entries: Ledger)

  ghost function Step(cfg: Config, s: State, c: Call): State {
    match c
    case CallSubmitEvents(author, partition) => SubmitEvents(cfg, s, author, partition).0
    case CallSubmitBlock(author, seen) => SubmitBlock(cfg, s, author, seen).0
    case CallQueueAdditional(hash) => QueueAdditional(s, hash).0
    case CallRestart(kept) => s.(eventVotes := ClearVotes(s.eventVotes, 100, kept))
    case CallSetInstance(instance, kept) =>
      if !instance.valid then s
      else s.(eventVotes := ClearVotes(s.eventVotes, 101, kept), instance := instance)
    case CallRecord(network, id, accepted) =>
      (match AddProcessedOn(s.instance, network, s.processed, id, accepted)
       case None => s
       case Some(ledger) => s.(processed := ledger))
    case CallHandOver(moved) => GiveAway(s, moved)
    case CallReceive(entries) => TakeOver(s, entries)
  }

  ghost function Run(cfg: Config, s: State, calls: seq<Call>): State
    decreases |calls|
  {
    if calls == [] then s else Step(cfg, Run(cfg, s, calls[..|calls| - 1]), calls[|calls| - 1])
  }

  // ---------------------------------------------------------------- invariants

  /** Partition votes are for the active position, one per author, and short of a quorum. */
  ghost predicate PartitionVotesOk(cfg: Config, s: State) {
    && (forall p :: p in s.eventVotes ==>
          && s.active.Some? && p.range == s.active.value.range && p.index == s.active.value.partition
          && s.eventVotes[p] <= cfg.validators
          && |s.eventVotes[p]| < RequiredFor(|cfg.validators|))
    && (forall p, q :: p in s.eventVotes && q in s.eventVotes && p != q ==> s.eventVotes[p] !! s.eventVotes[q])
  }

  /** Block votes are one per author, short of a supermajority, and gone once a range is active. */
  ghost predicate BlockVotesOk(cfg: Config, s: State) {
    && RangeSelection.OneVoteEach(s.blockVotes)
    && RangeSelection.Voters(s.blockVotes) <= cfg.validators
    && (s.active.Some? ==> s.blockVotes == map[])
    && (s.blockVotes != map[] ==>
          |RangeSelection.Voters(s.blockVotes)| < RequiredForSupermajority(|cfg.validators|))
  }

  /** An approval rests on a quorum, none of which is reported. */
  ghost predicate ApprovalOk(cfg: Config, a: Approval) {
    && a.winners <= cfg.validators && |a.winners| >= RequiredFor(|cfg.validators|)
    && a.partition !in a.reported
    && forall q :: q in a.reported ==>
         a.reported[q] !! a.winners && q.range == a.partition.range && q.index == a.partition.index
  }

  /** Positions in order: by start block, then by partition. */
  predicate Before(range: BlockRange, index: nat, range': BlockRange, index': nat) {
    range.start < range'.start || (range == range' && index < index')
  }

  /** The counters have room to move past an approved position. */
  predicate Roomy(p: Partition) {
    if p.isLast then p.range.length > 0 && p.range.start < U32_MAX else p.index < U16_MAX
  }

  ghost predicate AllRoomy(approvals: seq<Approval>) {
    forall i :: 0 <= i < |approvals| ==> Roomy(approvals[i].partition)
  }

  /** As long as the counters have room, approved positions ascend and the active one is past them all. */
  ghost predicate PositionsAscend(s: State) {
    && (s.active.None? ==> s.approvals == [])
    && (AllRoomy(s.approvals) ==>
          && (forall i, j :: 0 <= i < j < |s.approvals| ==>
                Before(s.approvals[i].partition.range, s.approvals[i].partition.index,
                       s.approvals[j].partition.range, s.approvals[j].partition.index))
          && (forall i :: 0 <= i < |s.approvals| ==>
                Before(s.approvals[i].partition.range, s.approvals[i].partition.index,
                       s.active.value.range, s.active.value.partition)))
  }

  ghost predicate Inv(cfg: Config, s: State) {
    && PartitionVotesOk(cfg, s) && BlockVotesOk(cfg, s)
    && (forall i :: 0 <= i < |s.approvals| ==> ApprovalOk(cfg, s.approvals[i]))
    && PositionsAscend(s)
    && DeliveredOnce(s.processed, s.delivered, s.handed)
  }

  // ---------------------------------------------------------------- positions

  /** Moving on reaches a later position exactly when the counters have room. */
  lemma AdvanceAscendsIff(cfg: Config, active: ActiveRange, p: Partition, queued: set<TxHash>)
    requires p.range == active.range && p.index == active.partition
    requires p.index <= U16_MAX && p.range.start <= U32_MAX
    ensures var next := Advance(cfg, active, p, queued).0;
            Before(active.range, active.partition, next.range, next.partition) <==> Roomy(p)
  {
  }

  lemma BeforeTransitive(r1: BlockRange, i1: nat, r2: BlockRange, i2: nat, r3: BlockRange, i3: nat)
    requires Before(r1, i1, r2, i2) && Before(r2, i2, r3, i3)
    ensures Before(r1, i1, r3, i3)
  {
  }

  // ---------------------------------------------------------------- steps keep the invariant

  lemma RecordVote(cfg: Config, s: State, author: Account, p: Partition)
    requires Inv(cfg, s) && author in cfg.validators && !HasVoted(s.eventVotes, author)
    requires s.active.Some? && p.range == s.active.value.range && p.index == s.active.value.partition
    requires |VotesFor(s.eventVotes, p) + {author}| < RequiredFor(|cfg.validators|)
    ensures Inv(cfg, s.(eventVotes := s.eventVotes[p := VotesFor(s.eventVotes, p) + {author}]))
  {
  }

  /** The quorum that approves is disjoint from every other vote. */
  lemma WinnersApart(cfg: Config, s: State, author: Account, p: Partition)
    requires PartitionVotesOk(cfg, s) && author in cfg.validators && !HasVoted(s.eventVotes, author)
    requires s.active.Some? && p.range == s.active.value.range && p.index == s.active.value.partition
    requires |VotesFor(s.eventVotes, p) + {author}| >= RequiredFor(|cfg.validators|)
    ensures ApprovalOk(cfg, Approval(p, author, VotesFor(s.eventVotes, p) + {author}, s.eventVotes - {p}))
  {
  }

  lemma ApprovePositions(cfg: Config, s: State, author: Account, p: Partition)
    requires PositionsAscend(s)
    requires s.active.Some? && p.range == s.active.value.range && p.index == s.active.value.partition
    ensures PositionsAscend(Approve(cfg, s, p, author))
  {
    var s' := Approve(cfg, s, p, author);
    var k := |s.approvals|;
    if AllRoomy(s'.approvals) {
      assert forall i :: 0 <= i < k ==> s'.approvals[i] == s.approvals[i];
      assert AllRoomy(s.approvals);
      assert s'.approvals[k].partition == p && Roomy(p);
      var next := s'.active.value;
      assert Before(p.range, p.index, next.range, next.partition);
      forall i | 0 <= i < k
        ensures Before(s'.approvals[i].partition.range, s'.approvals[i].partition.index, next.range, next.partition)
      {
        var q := s.approvals[i].partition;
        BeforeTransitive(q.range, q.index, p.range, p.index, next.range, next.partition);
      }
    }
  }

  lemma ApproveInv(cfg: Config, s: State, author: Account, p: Partition)
    requires Inv(cfg, s) && author in cfg.validators && !HasVoted(s.eventVotes, author) && s.instance.valid
    requires s.active.Some? && p.range == s.active.value.range && p.index == s.active.value.partition
    requires |VotesFor(s.eventVotes, p) + {author}| >= RequiredFor(|cfg.validators|)
    ensures Inv(cfg, Approve(cfg, s, p, author))
  {
    WinnersApart(cfg, s, author, p);
    ApprovePositions(cfg, s, author, p);
    var active := s.active.value;
    BatchDelivery(s.instance, s.processed, s.delivered, s.handed, active.filter, active.range.EndBlock(),
                  p.events);
  }

  /** Enough ballots empty the vote map, since it has no more entries than there are validators. */
  lemma BallotsClear(cfg: Config, votes: RangeSelection.Ballots)
    requires ValidConfig(cfg) && RangeSelection.OneVoteEach(votes) && RangeSelection.Voters(votes) <= cfg.validators
    ensures ClearUpTo(votes, VOTERS_BOUND) == map[]
  {
    RangeSelection.EntriesAtMostVoters(votes);
    SubsetCount(RangeSelection.Voters(votes), cfg.validators);
    ClearEmpties(votes, VOTERS_BOUND);
  }

  lemma BallotInv(cfg: Config, s: State, votes: RangeSelection.Ballots)
    requires ValidConfig(cfg) && Inv(cfg, s) && s.active.None?
    requires RangeSelection.OneVoteEach(votes) && RangeSelection.Voters(votes) <= cfg.validators
    ensures Inv(cfg, Tally(cfg, s, votes))
  {
    BallotsClear(cfg, votes);
    RangeSelection.NoBallots();
  }

  lemma SubmitBlockInv(cfg: Config, s: State, author: Account, seen: nat)
    requires ValidConfig(cfg) && Inv(cfg, s)
    ensures Inv(cfg, SubmitBlock(cfg, s, author, seen).0)
  {
    var block := CheckBallot(cfg, s, author, seen);
    if block.Ok? {
      BallotCounts(cfg, s, author, seen);
      BallotInv(cfg, s, RangeSelection.AddBallot(s.blockVotes, block.value, author));
    }
  }

  lemma SubmitEventsInv(cfg: Config, s: State, author: Account, p: Partition)
    requires Inv(cfg, s)
    ensures Inv(cfg, SubmitEvents(cfg, s, author, p).0)
  {
    if SubmitEvents(cfg, s, author, p).1.Ok? {
      if |VotesFor(s.eventVotes, p) + {author}| < RequiredFor(|cfg.validators|) {
        RecordVote(cfg, s, author, p);
      } else {
        ApproveInv(cfg, s, author, p);
      }
    }
  }

  /** Forgetting votes, whatever is kept, and changing the instance break nothing. */
  lemma ForgetInv(cfg: Config, s: State, instance: Instance, limit: nat, kept: set<Partition>)
    requires Inv(cfg, s)
    ensures Inv(cfg, s.(eventVotes := ClearVotes(s.eventVotes, limit, kept), instance := instance))
  {
    var s' := s.(eventVotes := ClearVotes(s.eventVotes, limit, kept), instance := instance);
    assert PartitionVotesOk(cfg, s');
  }

  lemma RecordedInv(cfg: Config, s: State, network: nat, id: EventId, accepted: bool)
    requires Inv(cfg, s)
    ensures Inv(cfg, Step(cfg, s, CallRecord(network, id, accepted)))
  {
    var s' := Step(cfg, s, CallRecord(network, id, accepted));
    AddKeeps(s.processed, id, accepted);
    if s' != s {
      KeepsDelivered(s.processed, s'.processed, s.delivered, s.handed);
    }
  }

  lemma GiveAwayInv(cfg: Config, s: State, moved: set<TxHash>)
    requires Inv(cfg, s)
    ensures Inv(cfg, GiveAway(s, moved))
  {
  }

  lemma TakeOverInv(cfg: Config, s: State, entries: Ledger)
    requires Inv(cfg, s)
    ensures Inv(cfg, TakeOver(s, entries))
  {
    AbsorbKeeps(s.processed, entries);
    KeepsDelivered(s.processed, TakeOver(s, entries).processed, s.delivered, s.handed);
  }

  lemma StepInv(cfg: Config, s: State, c: Call)
    requires ValidConfig(cfg) && Inv(cfg, s)
    ensures Inv(cfg, Step(cfg, s, c))
  {
    match c
    case CallSubmitEvents(author, p) =>
      SubmitEventsInv(cfg, s, author, p);
    case CallSubmitBlock(author, seen) =>
      SubmitBlockInv(cfg, s, author, seen);
    case CallQueueAdditional(hash) =>
    case CallRestart(kept) =>
      ForgetInv(cfg, s, s.instance, 100, kept);
    case CallSetInstance(instance, kept) =>
      ForgetInv(cfg, s, instance, 101, kept);
    case CallRecord(network, id, accepted) =>
      RecordedInv(cfg, s, network, id, accepted);
    case CallHandOver(moved) =>
      GiveAwayInv(cfg, s, moved);
    case CallReceive(entries) =>
      TakeOverInv(cfg, s, entries);
  }

  /**
   In every run: votes stay one per author and tied to the active position; every
   approval rests on a quorum and reports none of it; approved positions ascend
   while the counters have room; and no transaction is delivered twice unless its record
   was handed over to another instance, across partitions, ranges, instance changes,
   records made by other pallets and migrations.
   */
  lemma {:induction false} RunInv(cfg: Config, s: State, calls: seq<Call>)
    requires ValidConfig(cfg) && Inv(cfg, s)
    ensures Inv(cfg, Run(cfg, s, calls))
    decreases |calls|
  {
    if calls != [] {
      RunInv(cfg, s, calls[..|calls| - 1]);
      StepInv(cfg, Run(cfg, s, calls[..|calls| - 1]), calls[|calls| - 1]);
    }
  }

  /** With nothing handed over, no transaction is delivered twice. */
  lemma {:induction false} AtMostOnce(cfg: Config, s: State, calls: seq<Call>)
    requires ValidConfig(cfg) && Inv(cfg, s) && s.handed == {}
    requires forall c :: c in calls ==> !c.CallHandOver?
    ensures var s' := Run(cfg, s, calls);
            s'.handed == {} && forall i, j :: 0 <= i < j < |s'.delivered| ==>
              s'.delivered[i].txHash != s'.delivered[j].txHash
    decreases |calls|
  {
    RunInv(cfg, s, calls);
    if calls != [] {
      var init := calls[..|calls| - 1];
      AtMostOnce(cfg, s, init);
      assert calls[|calls| - 1] in calls;
      HandedGrows(cfg, Run(cfg, s, init), calls[|calls| - 1]);
    }
    NoneTwice(Run(cfg, s, calls));
  }

  lemma HandedGrows(cfg: Config, s: State, c: Call)
    requires !c.CallHandOver?
    ensures Step(cfg, s, c).handed == s.handed
  {
  }

  lemma NoneTwice(s: State)
    requires DeliveredOnce(s.processed, s.delivered, s.handed)
    ensures s.handed == {} ==>
              forall i, j :: 0 <= i < j < |s.delivered| ==> s.delivered[i].txHash != s.delivered[j].txHash
  {
  }

  lemma GenesisInv(cfg: Config, instance: Instance, rangeSize: nat)
    ensures Inv(cfg, Genesis(instance, rangeSize))
  {
    RangeSelection.NoBallots();
  }

  // ---------------------------------------------------------------- what an approval does

  /**
   A vote that reaches the quorum reports exactly the votes for other partitions,
   delivers exactly the transactions the partition's handled events name that were
   not on record, and puts them on record.
   */
  lemma ApprovalEffects(cfg: Config, s: State, author: Account, p: Partition)
    requires Inv(cfg, s) && SubmitEvents(cfg, s, author, p).1.Ok?
    requires |VotesFor(s.eventVotes, p) + {author}| >= RequiredFor(|cfg.validators|)
    ensures s.active.Some?
    ensures var s' := SubmitEvents(cfg, s, author, p).0;
            var named := Named(s.active.value.filter, s.active.value.range.EndBlock(), p.events);
            && s'.eventVotes == map[]
            && s'.approvals == s.approvals
               + [Approval(p, author, VotesFor(s.eventVotes, p) + {author}, s.eventVotes - {p})]
            && s.delivered <= s'.delivered
            && DeliveredFrom(s'.delivered, |s.delivered|) == named - s.processed.Keys
            && s'.processed.Keys == s.processed.Keys + named
  {
    var active := s.active.value;
    BatchDelivery(s.instance, s.processed, s.delivered, s.handed, active.filter, active.range.EndBlock(),
                  p.events);
  }

  /**
   The ballot that completes a supermajority starts the range at the block of rank
   S - q among all submitted ones, which at least a quorum of distinct validators
   reached, and leaves no ballot behind.
   */
  lemma FirstRange(cfg: Config, s: State, author: Account, seen: nat)
    requires ValidConfig(cfg) && Inv(cfg, s) && |cfg.validators| >= 2
    requires s.active.None? && SubmitBlock(cfg, s, author, seen).0.active.Some?
    ensures CheckBallot(cfg, s, author, seen).Ok?
    ensures var n, s' := |cfg.validators|, SubmitBlock(cfg, s, author, seen).0;
            var votes := RangeSelection.AddBallot(s.blockVotes, CheckBallot(cfg, s, author, seen).value, author);
            var active := s'.active.value;
            && active.range.length == s.rangeSize && active.partition == 0
            && RangeSelection.HasRank(votes, active.range.start, RequiredForSupermajority(n) - RequiredFor(n))
            && |RangeSelection.VotersFrom(votes, active.range.start)| >= RequiredFor(n)
            && RangeSelection.Voters(votes) <= cfg.validators
            && s'.blockVotes == map[]
  {
    var block := CheckBallot(cfg, s, author, seen).value;
    var votes := RangeSelection.AddBallot(s.blockVotes, block, author);
    BallotCounts(cfg, s, author, seen);
    StartedRange(cfg, s, votes);
  }

  lemma StartedRange(cfg: Config, s: State, votes: RangeSelection.Ballots)
    requires ValidConfig(cfg) && |cfg.validators| >= 2
    requires RangeSelection.OneVoteEach(votes) && RangeSelection.Voters(votes) <= cfg.validators
    requires |RangeSelection.Voters(votes)| >= RequiredForSupermajority(|cfg.validators|)
    ensures var n, s' := |cfg.validators|, StartRange(cfg, s, votes);
            var active := s'.active.value;
            && active.range.length == s.rangeSize && active.partition == 0
            && RangeSelection.HasRank(votes, active.range.start, RequiredForSupermajority(n) - RequiredFor(n))
            && |RangeSelection.VotersFrom(votes, active.range.start)| >= RequiredFor(n)
            && s'.blockVotes == map[]
  {
    BallotsClear(cfg, votes);
    RangeSelection.SelectionIsOrderStatistic(SortedList(votes.Keys), votes, |cfg.validators|);
  }
}
