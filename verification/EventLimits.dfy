/** What happens when the 16-bit partition counter of event voting runs out of room. */
module EventLimits {
  import opened Prelude
  import opened ProcessedEvents
  import opened EventVoting
  import RangeSelection

  /** One vote is a quorum, and its author may cast it on the active partition. */
  ghost predicate Ready(cfg: Config, s: State, author: Account) {
    && |cfg.validators| == 2 && author in cfg.validators
    && s.instance.valid && s.active.Some? && s.eventVotes == map[]
  }

  /** A vote by such an author for the active partition approves it. */
  lemma VoteApproves(cfg: Config, s: State, author: Account, p: Partition)
    requires Ready(cfg, s, author) && p.range == s.active.value.range && p.index == s.active.value.partition
    ensures SubmitEvents(cfg, s, author, p) == (Approve(cfg, s, p, author), Ok(()))
  {
    assert VotesFor(s.eventVotes, p) + {author} == {author};
  }

  /** An empty partition that is not the last of its range. */
  function Empty(range: BlockRange, index: nat): Partition {
    Partition(range, index, false, [])
  }

  lemma OneVoteApproves(cfg: Config, s: State, author: Account)
    requires Ready(cfg, s, author)
    ensures var active := s.active.value;
            var p := Empty(active.range, active.partition);
            SubmitEvents(cfg, s, author, p)
            == (s.(active := Some(active.(partition := SaturatingAdd(active.partition, 1, U16_MAX))),
                   approvals := s.approvals + [Approval(p, author, {author}, map[])]), Ok(()))
  {
    var p := Empty(s.active.value.range, s.active.value.partition);
    VoteApproves(cfg, s, author, p);
    assert VotesFor(s.eventVotes, p) + {author} == {author};
    assert s.eventVotes - {p} == map[];
  }

  ghost function Votes(range: BlockRange, author: Account, k: nat): seq<Call> {
    if k == 0 then []
    else Votes(range, author, k - 1) + [CallSubmitEvents(author, Empty(range, Min(k - 1, U16_MAX)))]
  }

  ghost function Approvals(range: BlockRange, author: Account, k: nat): (r: seq<Approval>)
    ensures |r| == k
    ensures forall i :: 0 <= i < k ==> r[i] == Approval(Empty(range, Min(i, U16_MAX)), author, {author}, map[])
  {
    if k == 0 then []
    else Approvals(range, author, k - 1) + [Approval(Empty(range, Min(k - 1, U16_MAX)), author, {author}, map[])]
  }

  /** A vote for each partition in turn climbs to the last position a counter can name, and stays there. */
  lemma {:induction false} VotesClimb(cfg: Config, s: State, author: Account, k: nat)
    requires Ready(cfg, s, author) && s.active.value.partition == 0
    ensures var active := s.active.value;
            Run(cfg, s, Votes(active.range, author, k))
            == s.(active := Some(active.(partition := Min(k, U16_MAX))),
                  approvals := s.approvals + Approvals(active.range, author, k))
  {
    var range := s.active.value.range;
    var calls := Votes(range, author, k);
    if k == 0 {
      assert s.approvals + [] == s.approvals;
    } else {
      VotesClimb(cfg, s, author, k - 1);
      assert calls[..|calls| - 1] == Votes(range, author, k - 1);
      OneVoteApproves(cfg, Run(cfg, s, Votes(range, author, k - 1)), author);
    }
  }

  /** A new chain with two validators: one ballot starts the first range at partition zero. */
  lemma OneBallotStarts(cfg: Config, instance: Instance, rangeSize: nat, author: Account, seen: nat)
    requires |cfg.validators| == 2 && author in cfg.validators && instance.valid && rangeSize > 0
    ensures var s := Step(cfg, Genesis(instance, rangeSize), CallSubmitBlock(author, seen));
            && Ready(cfg, s, author) && s.active.value.partition == 0 && s.active.value.filter == cfg.handled
            && s.instance == instance && s.approvals == [] && s.processed == map[] && s.delivered == []
  {
    var s := Genesis(instance, rangeSize);
    RangeSelection.StartBlockIsAligned(seen, rangeSize);
    var block := CheckBallot(cfg, s, author, seen).value;
    RangeSelection.NoBallots();
    RangeSelection.AddedVoters(map[], block, author);
    assert {} + {author} == {author};
  }

  lemma TwoAtTheLimit(cfg: Config, s: State, author: Account, k: nat)
    requires Ready(cfg, s, author) && s.active.value.partition == 0 && s.approvals == [] && k > U16_MAX + 1
    ensures var approvals := Run(cfg, s, Votes(s.active.value.range, author, k)).approvals;
            |approvals| == k && approvals[k - 2].partition == approvals[k - 1].partition
  {
    VotesClimb(cfg, s, author, k);
    assert [] + Approvals(s.active.value.range, author, k) == Approvals(s.active.value.range, author, k);
  }

  /** Some position was approved twice. */
  ghost predicate ApprovedTwice(s: State) {
    exists i, j :: 0 <= i < j < |s.approvals| && s.approvals[i].partition == s.approvals[j].partition
  }

  /**
   From there 65537 votes approve position 65535 twice, so below the limit of the counter
   is as far as approved positions can be promised to ascend.
   */
  lemma PositionApprovedTwice(cfg: Config, instance: Instance, rangeSize: nat, author: Account, seen: nat)
    requires |cfg.validators| == 2 && author in cfg.validators && instance.valid && rangeSize > 0
    ensures exists calls :: ApprovedTwice(Run(cfg, Genesis(instance, rangeSize), calls))
  {
    var ballot := CallSubmitBlock(author, seen);
    OneBallotStarts(cfg, instance, rangeSize, author, seen);
    var s := Step(cfg, Genesis(instance, rangeSize), ballot);
    var k: nat :| k > U16_MAX + 1;
    TwoAtTheLimit(cfg, s, author, k);
    var votes := Votes(s.active.value.range, author, k);
    RunAfter(cfg, Genesis(instance, rangeSize), ballot, votes);
    assert ApprovedTwice(Run(cfg, Genesis(instance, rangeSize), [ballot] + votes));
  }

  lemma {:induction false} RunAfter(cfg: Config, s: State, first: Call, calls: seq<Call>)
    ensures Run(cfg, s, [first] + calls) == Run(cfg, Step(cfg, s, first), calls)
    decreases |calls|
  {
    var all := [first] + calls;
    if calls == [] {
      assert all[..0] == [];
      assert Run(cfg, s, all[..|all| - 1]) == s;
    } else {
      var init := calls[..|calls| - 1];
      RunAfter(cfg, s, first, init);
      assert all[..|all| - 1] == [first] + init;
    }
  }
}
