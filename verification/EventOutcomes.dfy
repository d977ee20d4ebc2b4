/** What every call to event discovery answers and does, and what a quorum of votes brings about. */
module EventOutcomes {
  import opened Prelude
  import opened Quorum
  import opened SortedNats
  import opened EventKinds
  import opened ProcessedEvents
  import opened EventVoting
  import opened EventLimits
  import RangeSelection

  // ---------------------------------------------------------------- votes on a partition

  ghost predicate AtActive(s: State, p: Partition) {
    s.active.Some? && p.range == s.active.value.range && p.index == s.active.value.partition
  }

  /** The vote is counted for its partition and nothing else changes. */
  ghost predicate VoteCounted(s: State, s': State, p: Partition, author: Account) {
    && s' == s.(eventVotes := s'.eventVotes) && s'.eventVotes.Keys == s.eventVotes.Keys + {p}
    && VotesFor(s'.eventVotes, p) == VotesFor(s.eventVotes, p) + {author}
    && forall q :: q in s.eventVotes && q != p ==> s'.eventVotes[q] == s.eventVotes[q]
  }

  /** The next partition of the range, or the range right after it with what was queued and the kinds now handled. */
  ghost predicate MovedPast(cfg: Config, s: State, s': State, p: Partition)
    requires s.active.Some?
  {
    var a := s.active.value;
    && s'.active.Some?
    && var a' := s'.active.value;
       if p.isLast then
         && a'.range.length == a.range.length && a'.partition == 0 && a'.filter == cfg.handled
         && a'.additional == s.additional && s'.additional == {}
         && a'.range.start == Min(a.range.start + a.range.length, U32_MAX)
         && (0 < a.range.start + a.range.length <= U32_MAX ==> a'.range.start == a.range.EndBlock() + 1)
       else
         && a'.range == a.range && a'.filter == a.filter && a'.additional == a.additional
         && a'.partition == Min(a.partition + 1, U16_MAX) && s'.additional == s.additional
  }

  /** The event is of a kind the range is looking for and was emitted within it or before. */
  ghost predicate Sought(a: ActiveRange, e: Discovered) {
    && e.id.signature.Of? && e.id.signature.kind in a.filter
    && e.block < Max(Min(a.range.start + a.range.length, U32_MAX), 1)
  }

  ghost predicate Names(a: ActiveRange, events: seq<Discovered>, h: TxHash) {
    exists i :: 0 <= i < |events| && Sought(a, events[i]) && events[i].id.txHash == h
  }

  /** The partition was approved by those who voted for it, and the other votes were reported. */
  ghost predicate Approves(cfg: Config, s: State, s': State, p: Partition, author: Account)
    requires s.active.Some?
  {
    && s'.approvals == s.approvals + [Approval(p, author, VotesFor(s.eventVotes, p) + {author}, s.eventVotes - {p})]
    && s'.eventVotes == map[] && MovedPast(cfg, s, s', p)
    && s'.instance == s.instance && s'.blockVotes == s.blockVotes && s'.rangeSize == s.rangeSize
    && s'.handed == s.handed
    && s.delivered <= s'.delivered
  }

  lemma ApproveDoes(cfg: Config, s: State, author: Account, p: Partition)
    requires Inv(cfg, s) && s.instance.valid && AtActive(s, p)
    ensures Approves(cfg, s, Approve(cfg, s, p, author), p, author)
  {
    var a := s.active.value;
    BatchDelivery(s.instance, s.processed, s.delivered, s.handed, a.filter, a.range.EndBlock(), p.events);
  }

  /** Nobody is turned away for lack of room: short of a quorum a partition has fewer votes than the bound. */
  lemma VotesHaveRoom(cfg: Config, s: State, p: Partition)
    requires ValidConfig(cfg) && PartitionVotesOk(cfg, s)
    ensures |VotesFor(s.eventVotes, p)| < VOTERS_BOUND
  {
    QuorumIsAThird(|cfg.validators|);
  }

  /**
   A vote is accepted exactly from a validator who has not voted, on a valid instance, for
   the active position. Short of a quorum it is counted; with it the partition is approved.
   */
  lemma EventVoteOutcome(cfg: Config, s: State, author: Account, p: Partition)
    requires ValidConfig(cfg) && Inv(cfg, s)
    ensures var (s', r) := SubmitEvents(cfg, s, author, p);
            if author !in cfg.validators then s' == s && r == Err(NotAnAuthor)
            else if !s.instance.valid then s' == s && r == Err(InvalidInstance)
            else if !AtActive(s, p) then s' == s && r == Err(NonActiveEthereumRange)
            else if exists q :: q in s.eventVotes && author in s.eventVotes[q] then s' == s && r == Err(EventVoteExists)
            else
              && r == Ok(())
              && if |VotesFor(s.eventVotes, p) + {author}| < RequiredFor(|cfg.validators|) then
                   VoteCounted(s, s', p, author)
                 else Approves(cfg, s, s', p, author)
  {
    VotesHaveRoom(cfg, s, p);
    VoteCounts(s, p, author);
    if AtActive(s, p) && s.instance.valid {
      ApproveDoes(cfg, s, author, p);
    }
  }

  lemma VoteCounts(s: State, p: Partition, author: Account)
    ensures var votes := VotesFor(s.eventVotes, p) + {author};
            VoteCounted(s, s.(eventVotes := s.eventVotes[p := votes]), p, author)
  {
  }

  // ---------------------------------------------------------------- a quorum approves

  ghost function VotesOf(p: Partition, voters: seq<Account>): (r: seq<Call>)
    ensures |r| == |voters| && forall i :: 0 <= i < |voters| ==> r[i] == CallSubmitEvents(voters[i], p)
  {
    seq(|voters|, i requires 0 <= i < |voters| => CallSubmitEvents(voters[i], p))
  }

  /** Distinct validators who have not voted yet. */
  ghost predicate Fresh(cfg: Config, votes: PartitionVotes, voters: seq<Account>) {
    && Distinct(voters)
    && forall i :: 0 <= i < |voters| ==> voters[i] in cfg.validators && !HasVoted(votes, voters[i])
  }

  lemma StillFresh(cfg: Config, s: State, s': State, p: Partition, voters: seq<Account>)
    requires voters != [] && Fresh(cfg, s.eventVotes, voters) && VoteCounted(s, s', p, voters[0])
    ensures Fresh(cfg, s'.eventVotes, voters[1..])
  {
    var rest := voters[1..];
    forall i | 0 <= i < |rest| ensures rest[i] in cfg.validators && !HasVoted(s'.eventVotes, rest[i]) {
      assert rest[i] == voters[i + 1] && voters[i + 1] != voters[0];
      assert forall q :: q in s.eventVotes ==> rest[i] !in s.eventVotes[q];
    }
  }

  lemma OneMoreFor(votes: PartitionVotes, p: Partition, author: Account)
    requires !HasVoted(votes, author)
    ensures |VotesFor(votes, p) + {author}| == |VotesFor(votes, p)| + 1
  {
    assert author !in VotesFor(votes, p);
  }

  lemma OthersReported(s: State, s': State, p: Partition, author: Account)
    requires VoteCounted(s, s', p, author)
    ensures s'.eventVotes - {p} == s.eventVotes - {p}
  {
  }

  /** The votes for the partition, in the end, are those it had and the new ones. */
  ghost predicate ApprovedBy(s: State, s': State, p: Partition, winners: set<Account>) {
    && |s'.approvals| == |s.approvals| + 1 && s.approvals <= s'.approvals && s'.eventVotes == map[]
    && var a := s'.approvals[|s.approvals|];
       a.partition == p && a.winners == winners && a.reported == s.eventVotes - {p}
  }

  /** The partition is the one to vote on, on a valid instance. */
  ghost predicate Voting(cfg: Config, s: State, p: Partition) {
    Inv(cfg, s) && s.instance.valid && AtActive(s, p)
  }

  lemma VoteStep(cfg: Config, s: State, p: Partition, author: Account)
    requires ValidConfig(cfg) && Voting(cfg, s, p) && author in cfg.validators && !HasVoted(s.eventVotes, author)
    ensures var s' := Step(cfg, s, CallSubmitEvents(author, p));
            if |VotesFor(s.eventVotes, p)| + 1 < RequiredFor(|cfg.validators|) then
              VoteCounted(s, s', p, author) && Voting(cfg, s', p)
            else ApprovedBy(s, s', p, VotesFor(s.eventVotes, p) + {author})
  {
    EventVoteOutcome(cfg, s, author, p);
    OneMoreFor(s.eventVotes, p, author);
    StepInv(cfg, s, CallSubmitEvents(author, p));
    if |VotesFor(s.eventVotes, p)| + 1 >= RequiredFor(|cfg.validators|) {
      ApprovedNow(cfg, s, Step(cfg, s, CallSubmitEvents(author, p)), p, author);
    }
  }

  lemma ApprovedNow(cfg: Config, s: State, s': State, p: Partition, author: Account)
    requires s.active.Some? && Approves(cfg, s, s', p, author)
    ensures ApprovedBy(s, s', p, VotesFor(s.eventVotes, p) + {author})
  {
  }

  lemma ApprovedLater(s: State, s': State, s'': State, p: Partition, voters: seq<Account>)
    requires voters != [] && VoteCounted(s, s', p, voters[0])
    requires ApprovedBy(s', s'', p, VotesFor(s'.eventVotes, p) + Elements(voters[1..]))
    ensures ApprovedBy(s, s'', p, VotesFor(s.eventVotes, p) + Elements(voters))
  {
    assert voters == [voters[0]] + voters[1..];
    OthersReported(s, s', p, voters[0]);
    assert VotesFor(s.eventVotes, p) + {voters[0]} + Elements(voters[1..])
        == VotesFor(s.eventVotes, p) + Elements(voters);
  }

  /**
   Any validators that complete a quorum for one partition of the active range approve it,
   in whatever order they vote: the approval names exactly those who voted for it and
   reports exactly the others' votes.
   */
  lemma {:induction false} QuorumApproves(cfg: Config, s: State, p: Partition, voters: seq<Account>)
    requires ValidConfig(cfg) && Voting(cfg, s, p) && voters != [] && Fresh(cfg, s.eventVotes, voters)
    requires |VotesFor(s.eventVotes, p)| + |voters| == RequiredFor(|cfg.validators|)
    ensures ApprovedBy(s, Run(cfg, s, VotesOf(p, voters)), p, VotesFor(s.eventVotes, p) + Elements(voters))
    decreases |voters|
  {
    var first, rest := CallSubmitEvents(voters[0], p), voters[1..];
    var s' := Step(cfg, s, first);
    VoteStep(cfg, s, p, voters[0]);
    VotesSplit(p, voters);
    RunAfter(cfg, s, first, VotesOf(p, rest));
    if rest == [] {
      OneElement(voters);
    } else {
      StillFresh(cfg, s, s', p, voters);
      OneMoreFor(s.eventVotes, p, voters[0]);
      QuorumApproves(cfg, s', p, rest);
      ApprovedLater(s, s', Run(cfg, s', VotesOf(p, rest)), p, voters);
    }
  }

  lemma VotesSplit(p: Partition, voters: seq<Account>)
    requires voters != []
    ensures VotesOf(p, voters) == [CallSubmitEvents(voters[0], p)] + VotesOf(p, voters[1..])
  {
  }

  lemma OneElement(voters: seq<Account>)
    requires voters != [] && voters[1..] == []
    ensures Elements(voters) == {voters[0]}
  {
  }

  // ---------------------------------------------------------------- what is delivered

  lemma NamedIffSought(a: ActiveRange, events: seq<Discovered>, h: TxHash)
    ensures h in Named(a.filter, a.range.EndBlock(), events) <==> Names(a, events, h)
  {
    if h in Named(a.filter, a.range.EndBlock(), events) {
      var e :| e in events && Handled(a.filter, a.range.EndBlock(), e) && e.id.txHash == h;
      var i :| 0 <= i < |events| && events[i] == e;
      assert Sought(a, events[i]);
    }
    if Names(a, events, h) {
      var i :| 0 <= i < |events| && Sought(a, events[i]) && events[i].id.txHash == h;
      assert events[i] in events && Handled(a.filter, a.range.EndBlock(), events[i]);
    }
  }

  /**
   An approval delivers a transaction exactly when an event of the partition names it, of a
   kind the range was looking for and from a block up to its last, and it is not on record.
   */
  lemma DeliversExactly(cfg: Config, s: State, author: Account, p: Partition, h: TxHash)
    requires ValidConfig(cfg) && Inv(cfg, s) && s.instance.valid && AtActive(s, p)
    requires author in cfg.validators && !HasVoted(s.eventVotes, author)
    requires |VotesFor(s.eventVotes, p) + {author}| >= RequiredFor(|cfg.validators|)
    ensures var s' := SubmitEvents(cfg, s, author, p).0;
            && (h in DeliveredFrom(s'.delivered, |s.delivered|)
                <==> Names(s.active.value, p.events, h) && h !in s.processed)
            && (h in s'.processed <==> h in s.processed || Names(s.active.value, p.events, h))
  {
    VotesHaveRoom(cfg, s, p);
    ApprovalEffects(cfg, s, author, p);
    NamedIffSought(s.active.value, p.events, h);
  }

  ghost predicate IsEvent(events: seq<Discovered>, id: EventId) {
    exists k :: 0 <= k < |events| && events[k].id == id
  }

  /** Everything delivered is an event of the batch, as it was found, and its kind goes on record. */
  ghost predicate FromBatch(l: Ledger, delivered: seq<EventId>, l': Ledger, d: seq<EventId>, events: seq<Discovered>) {
    && delivered <= d && l.Keys <= l'.Keys && (forall h :: h in l ==> l'[h] == l[h])
    && forall i :: |delivered| <= i < |d| ==>
         && IsEvent(events, d[i])
         && d[i].signature.Of? && d[i].txHash in l' && l'[d[i].txHash] == Processed(d[i].signature.kind, true)
  }

  lemma FromLongerBatch(l: Ledger, delivered: seq<EventId>, l': Ledger, d: seq<EventId>, init: seq<Discovered>,
                        e: Discovered)
    requires FromBatch(l, delivered, l', d, init)
    ensures FromBatch(l, delivered, l', d, init + [e])
  {
    var events := init + [e];
    forall i | |delivered| <= i < |d| ensures IsEvent(events, d[i]) {
      assert IsEvent(init, d[i]);
      var k :| 0 <= k < |init| && init[k].id == d[i];
      assert events[k].id == d[i];
    }
  }

  lemma FromBatchAndOne(l: Ledger, delivered: seq<EventId>, l': Ledger, d: seq<EventId>, init: seq<Discovered>,
                        e: Discovered)
    requires FromBatch(l, delivered, l', d, init) && e.id.txHash !in l' && e.id.signature.Of?
    ensures FromBatch(l, delivered, l'[e.id.txHash := Processed(e.id.signature.kind, true)], d + [e.id], init + [e])
  {
    FromLongerBatch(l, delivered, l', d, init, e);
    var events := init + [e];
    assert events[|init|].id == e.id;
  }

  lemma {:induction false} DeliveriesAreEvents(instance: Instance, l: Ledger, delivered: seq<EventId>,
                                               filter: set<EventKind>, endBlock: nat, events: seq<Discovered>)
    requires instance.valid
    ensures var (l', d) := ProcessEvents(instance, instance.network, l, delivered, filter, endBlock, events);
            FromBatch(l, delivered, l', d, events)
    decreases |events|
  {
    if events != [] {
      var init, e := events[..|events| - 1], events[|events| - 1];
      DeliveriesAreEvents(instance, l, delivered, filter, endBlock, init);
      var (l', d) := ProcessEvents(instance, instance.network, l, delivered, filter, endBlock, init);
      assert events == init + [e];
      FromLongerBatch(l, delivered, l', d, init, e);
      if Handled(filter, endBlock, e) && e.id.txHash !in l' {
        FromBatchAndOne(l, delivered, l', d, init, e);
      }
    }
  }

  // ---------------------------------------------------------------- votes on the first range

  /** The ballot is counted for its start block and nothing else changes. */
  ghost predicate BallotCounted(s: State, s': State, block: nat, author: Account) {
    && s' == s.(blockVotes := s'.blockVotes) && s'.blockVotes.Keys == s.blockVotes.Keys + {block}
    && s'.blockVotes[block] == (if block in s.blockVotes then s.blockVotes[block] else {}) + {author}
    && forall b :: b in s.blockVotes && b != block ==> s'.blockVotes[b] == s.blockVotes[b]
  }

  /** The first range is active, at its first partition, with what was queued and the kinds handled. */
  ghost predicate Started(cfg: Config, s: State, s': State) {
    && s'.active.Some? && s'.blockVotes == map[] && s'.additional == {}
    && var a := s'.active.value;
       && a.partition == 0 && a.filter == cfg.handled && a.additional == s.additional
       && s' == s.(active := s'.active, blockVotes := map[], additional := {})
  }

  lemma BallotsHaveRoom(cfg: Config, s: State, author: Account, block: nat)
    requires ValidConfig(cfg) && BlockVotesOk(cfg, s) && author in cfg.validators
    requires !RangeSelection.HasSubmitted(s.blockVotes, author) && block in s.blockVotes
    ensures |s.blockVotes[block]| < VOTERS_BOUND
  {
    var votes := s.blockVotes[block];
    assert votes <= RangeSelection.Voters(s.blockVotes);
    assert votes <= cfg.validators - {author};
    SubsetCount(votes, cfg.validators - {author});
  }

  /**
   A ballot is accepted exactly from a validator who has not submitted one, on a valid
   instance with a range length, while no range is active. Short of a supermajority it is
   counted, for the start block of what its author saw; with it the first range starts.
   */
  lemma BlockVoteOutcome(cfg: Config, s: State, author: Account, seen: nat)
    requires ValidConfig(cfg) && Inv(cfg, s)
    ensures var (s', r) := SubmitBlock(cfg, s, author, seen);
            if author !in cfg.validators then s' == s && r == Err(NotAnAuthor)
            else if !s.instance.valid then s' == s && r == Err(InvalidInstance)
            else if s.active.Some? then s' == s && r == Err(VotingEnded)
            else if author in RangeSelection.Voters(s.blockVotes) then s' == s && r == Err(EventVoteExists)
            else if s.rangeSize == 0 then s' == s && r == Err(InvalidEthereumBlockRange)
            else
              var block := RangeSelection.ComputeStartBlock(seen, s.rangeSize).value;
              && r == Ok(())
              && if |RangeSelection.Voters(s.blockVotes) + {author}| < RequiredForSupermajority(|cfg.validators|) then
                   BallotCounted(s, s', block, author)
                 else Started(cfg, s, s')
  {
    assert author in RangeSelection.Voters(s.blockVotes) <==> RangeSelection.HasSubmitted(s.blockVotes, author);
    if author in cfg.validators && s.instance.valid && s.active.None? && s.rangeSize > 0 {
      if !RangeSelection.HasSubmitted(s.blockVotes, author) {
        BallotAccepted(cfg, s, author, seen);
        TallyOutcome(cfg, s, RangeSelection.ComputeStartBlock(seen, s.rangeSize).value, author);
      }
    }
  }

  lemma BallotAccepted(cfg: Config, s: State, author: Account, seen: nat)
    requires ValidConfig(cfg) && BlockVotesOk(cfg, s) && author in cfg.validators && s.instance.valid
    requires s.active.None? && s.rangeSize > 0 && !RangeSelection.HasSubmitted(s.blockVotes, author)
    ensures RangeSelection.ComputeStartBlock(seen, s.rangeSize).Some?
    ensures CheckBallot(cfg, s, author, seen) == Ok(RangeSelection.ComputeStartBlock(seen, s.rangeSize).value)
  {
    var block := RangeSelection.ComputeStartBlock(seen, s.rangeSize).value;
    if block in s.blockVotes {
      BallotsHaveRoom(cfg, s, author, block);
    }
  }

  lemma StartDoes(cfg: Config, s: State, votes: RangeSelection.Ballots)
    requires ClearUpTo(votes, VOTERS_BOUND) == map[]
    ensures Started(cfg, s, StartRange(cfg, s, votes))
  {
  }

  lemma AddingCounts(s: State, block: nat, author: Account)
    ensures BallotCounted(s, s.(blockVotes := RangeSelection.AddBallot(s.blockVotes, block, author)), block, author)
  {
  }

  lemma TallyOutcome(cfg: Config, s: State, block: nat, author: Account)
    requires ValidConfig(cfg) && RangeSelection.OneVoteEach(s.blockVotes)
    requires RangeSelection.Voters(s.blockVotes) + {author} <= cfg.validators
    requires !RangeSelection.HasSubmitted(s.blockVotes, author)
    ensures var s' := Tally(cfg, s, RangeSelection.AddBallot(s.blockVotes, block, author));
            if |RangeSelection.Voters(s.blockVotes) + {author}| < RequiredForSupermajority(|cfg.validators|) then
              BallotCounted(s, s', block, author)
            else Started(cfg, s, s')
  {
    var votes := RangeSelection.AddBallot(s.blockVotes, block, author);
    RangeSelection.AddBallotOk(s.blockVotes, block, author);
    BallotsClear(cfg, votes);
    StartDoes(cfg, s, votes);
    AddingCounts(s, block, author);
  }

  /** The start block is the last multiple of the range length that is five ranges or more behind. */
  lemma StartBlockIsExact(seen: nat, length: nat)
    requires 0 < length && RangeSelection.START_MARGIN * length < U32_RANGE
    ensures var r := RangeSelection.ComputeStartBlock(seen, length);
            && r.Some? && (exists k: nat :: r.value == k * length)
            && if seen < RangeSelection.START_MARGIN * length then r.value == 0
               else r.value <= seen - RangeSelection.START_MARGIN * length < r.value + length
  {
    RangeSelection.StartBlockIsAligned(seen, length);
    SmallMod(RangeSelection.START_MARGIN * length, U32_RANGE);
    var behind := SaturatingSub(seen, RangeSelection.START_MARGIN * length);
    if seen < RangeSelection.START_MARGIN * length {
      SmallMod(0, length);
    }
    assert behind % length < length;
  }

  // ---------------------------------------------------------------- a supermajority starts

  ghost function BallotsOf(ballots: seq<(Account, nat)>): (r: seq<Call>)
    ensures |r| == |ballots| && forall i :: 0 <= i < |ballots| ==> r[i] == CallSubmitBlock(ballots[i].0, ballots[i].1)
  {
    seq(|ballots|, i requires 0 <= i < |ballots| => CallSubmitBlock(ballots[i].0, ballots[i].1))
  }

  /** Ballots of distinct validators who have not submitted one. */
  ghost predicate NewBallots(cfg: Config, votes: RangeSelection.Ballots, ballots: seq<(Account, nat)>) {
    && (forall i, j :: 0 <= i < j < |ballots| ==> ballots[i].0 != ballots[j].0)
    && forall i :: 0 <= i < |ballots| ==>
         ballots[i].0 in cfg.validators && ballots[i].0 !in RangeSelection.Voters(votes)
  }

  lemma CountedVoters(s: State, s': State, block: nat, author: Account)
    requires BallotCounted(s, s', block, author)
    ensures RangeSelection.Voters(s'.blockVotes) == RangeSelection.Voters(s.blockVotes) + {author}
  {
    assert s'.blockVotes == RangeSelection.AddBallot(s.blockVotes, block, author);
    RangeSelection.AddedVoters(s.blockVotes, block, author);
  }

  /** The first range is still to be chosen, and can be. */
  ghost predicate Open(cfg: Config, s: State) {
    Inv(cfg, s) && s.instance.valid && s.active.None? && s.rangeSize > 0
  }

  lemma BallotStep(cfg: Config, s: State, author: Account, seen: nat)
    requires ValidConfig(cfg) && Open(cfg, s)
    requires author in cfg.validators && author !in RangeSelection.Voters(s.blockVotes)
    ensures var s' := Step(cfg, s, CallSubmitBlock(author, seen));
            if |RangeSelection.Voters(s.blockVotes)| + 1 < RequiredForSupermajority(|cfg.validators|) then
              && s' == s.(blockVotes := s'.blockVotes) && Open(cfg, s')
              && RangeSelection.Voters(s'.blockVotes) == RangeSelection.Voters(s.blockVotes) + {author}
            else Started(cfg, s, s')
  {
    BlockVoteOutcome(cfg, s, author, seen);
    var voters := RangeSelection.Voters(s.blockVotes);
    assert |voters + {author}| == |voters| + 1;
    StepInv(cfg, s, CallSubmitBlock(author, seen));
    if |voters| + 1 < RequiredForSupermajority(|cfg.validators|) {
      CountedVoters(s, Step(cfg, s, CallSubmitBlock(author, seen)),
                    RangeSelection.ComputeStartBlock(seen, s.rangeSize).value, author);
    }
  }

  lemma RestAreNew(cfg: Config, s: State, s': State, ballots: seq<(Account, nat)>)
    requires ballots != [] && NewBallots(cfg, s.blockVotes, ballots)
    requires RangeSelection.Voters(s'.blockVotes) == RangeSelection.Voters(s.blockVotes) + {ballots[0].0}
    ensures NewBallots(cfg, s'.blockVotes, ballots[1..])
    ensures |RangeSelection.Voters(s'.blockVotes)| == |RangeSelection.Voters(s.blockVotes)| + 1
  {
    var rest := ballots[1..];
    assert forall i :: 0 <= i < |rest| ==> rest[i] == ballots[i + 1] && rest[i].0 != ballots[0].0;
  }

  lemma BallotsSplit(ballots: seq<(Account, nat)>)
    requires ballots != []
    ensures BallotsOf(ballots) == [CallSubmitBlock(ballots[0].0, ballots[0].1)] + BallotsOf(ballots[1..])
  {
  }

  /** Whatever blocks they saw, validators that complete a supermajority start the first range. */
  lemma {:induction false} SupermajorityStarts(cfg: Config, s: State, ballots: seq<(Account, nat)>)
    requires ValidConfig(cfg) && Open(cfg, s)
    requires ballots != [] && NewBallots(cfg, s.blockVotes, ballots)
    requires |RangeSelection.Voters(s.blockVotes)| + |ballots| == RequiredForSupermajority(|cfg.validators|)
    ensures Started(cfg, s, Run(cfg, s, BallotsOf(ballots)))
    decreases |ballots|
  {
    var first, rest := CallSubmitBlock(ballots[0].0, ballots[0].1), ballots[1..];
    var s' := Step(cfg, s, first);
    BallotStep(cfg, s, ballots[0].0, ballots[0].1);
    BallotsSplit(ballots);
    RunAfter(cfg, s, first, BallotsOf(rest));
    if rest != [] {
      RestAreNew(cfg, s, s', ballots);
      SupermajorityStarts(cfg, s', rest);
    }
  }

  // ---------------------------------------------------------------- the other calls

  /** A transaction can be asked for unless it was accepted or sixteen others already are. */
  lemma QueueOutcome(s: State, h: TxHash)
    ensures var (s', r) := QueueAdditional(s, h);
            if h in s.processed && s.processed[h].accepted then s' == s && r == Err(EventAlreadyAccepted)
            else if h !in s.additional && |s.additional| >= 16 then s' == s && r == Err(QuotaReachedForAdditionalEvents)
            else r == Ok(()) && s' == s.(additional := s.additional + {h})
  {
  }

  /** Restarting and a new valid instance forget the partition votes, up to a hundred entries or one more. */
  lemma AdminOutcome(cfg: Config, s: State, instance: Instance, kept: set<Partition>)
    ensures var s' := Step(cfg, s, CallRestart(kept));
            s' == s.(eventVotes := s'.eventVotes) && (|s.eventVotes| <= 100 ==> s'.eventVotes == map[])
    ensures var s' := Step(cfg, s, CallSetInstance(instance, kept));
            if instance.valid then
              s' == s.(eventVotes := s'.eventVotes, instance := instance)
              && (|s.eventVotes| <= 101 ==> s'.eventVotes == map[])
            else s' == s
  {
  }

  /** Another pallet's event is recorded, with its kind, on its own network unless its transaction was accepted. */
  lemma RecordOutcome(cfg: Config, s: State, network: nat, id: EventId, accepted: bool)
    ensures var s' := Step(cfg, s, CallRecord(network, id, accepted));
            var h := id.txHash;
            if s.instance.valid && s.instance.network == network && !id.signature.Foreign?
               && !(h in s.processed && s.processed[h].accepted)
            then
              s' == s.(processed := s.processed[h :=
                         Processed(if id.signature.Of? then id.signature.kind else Lifted, accepted)])
            else s' == s
  {
  }
}
