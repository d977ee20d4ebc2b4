/** The settled transactions on file: over every run exactly those a quorum settled, as they were settled. */
module Settlements {
  import opened Prelude
  import opened Requests
  import opened RequestTheorems
  import opened RequestContents
  import opened RequestOutcomes

  /** The call brings one side of the active transaction to a quorum that settles rather than replays it. */
  ghost predicate Settles(cfg: Config, s: State, t: Timed) {
    && Counts(cfg, s, t.call) && IsActive(s, t.call.id) && t.call.callbackOk
    && var c, tx, q := t.call, s.active.value.tx.value, CorroborationQuorum(cfg);
       && c.attempt == tx.replayAttempt && !ListsFull(tx, c.succeeded, c.hashValid)
       && |Side(tx, c)| >= q && !(!c.succeeded && |Disputes(tx, c)| >= q)
  }

  ghost function SettlementNotice(s: State, c: Call): Notice
    requires c.CallCorroborate? && s.active.Some?
  {
    Notice(s.active.value.request, if c.succeeded then Succeeded else Failed)
  }

  /** The notices of a run that were settlements, in order. */
  ghost function SettlementsOf(cfg: Config, s: State, calls: seq<Timed>): seq<Notice>
    decreases |calls|
  {
    if calls == [] then []
    else
      var init, last := calls[..|calls| - 1], calls[|calls| - 1];
      var before := Run(cfg, s, init);
      SettlementsOf(cfg, s, init) + if Settles(cfg, before, last) then [SettlementNotice(before, last.call)] else []
  }

  // ---------------------------------------------------------------- one call

  /** The outcome was notified and filed under the request's id, and nothing else on file changed. */
  ghost predicate Filed(s: State, s': State, c: Call)
    requires c.CallCorroborate? && s.active.Some? && s.active.value.request.Send?
  {
    var id := s.active.value.request.send.txId;
    && s.notices + [SettlementNotice(s, c)] <= s'.notices
    && s'.settled.Keys == s.settled.Keys + {id} && s'.settled[id].succeeded == c.succeeded
    && forall k :: k in s.settled && k != id ==> s'.settled[k] == s.settled[k]
  }

  lemma SettledFile(cfg: Config, s: State, t: Timed, s': State, r: Result<(), Error>)
    requires ActiveShape(s) && Settles(cfg, s, t) && Answered(cfg, s, t.call, t.now, s', r)
    ensures Filed(s, s', t.call)
  {
  }

  lemma SettlingCall(cfg: Config, s: State, t: Timed)
    requires ValidConfig(cfg) && Sound(cfg, s) && Settles(cfg, s, t)
    ensures Filed(s, Step(cfg, s, t), t.call)
  {
    DecisionsAreBacked(cfg, s, t.call, t.now);
    var (s', r) := Corroborate(cfg, s, t.call, t.now);
    SettledFile(cfg, s, t, s', r);
    StepCorroborates(cfg, s, t);
  }

  lemma KeptFile(cfg: Config, s: State, t: Timed, s': State, r: Result<(), Error>)
    requires ActiveShape(s) && t.call.CallCorroborate? && !Settles(cfg, s, t)
    requires Answered(cfg, s, t.call, t.now, s', r)
    ensures s'.settled == s.settled
  {
  }

  lemma OtherCorroboration(cfg: Config, s: State, t: Timed)
    requires ValidConfig(cfg) && Sound(cfg, s) && t.call.CallCorroborate? && !Settles(cfg, s, t)
    ensures Step(cfg, s, t).settled == s.settled
  {
    DecisionsAreBacked(cfg, s, t.call, t.now);
    var (s', r) := Corroborate(cfg, s, t.call, t.now);
    KeptFile(cfg, s, t, s', r);
    StepCorroborates(cfg, s, t);
  }

  lemma MoveOnKeepsFile(cfg: Config, s: State, outcome: Outcome, now: nat)
    requires ValidConfig(cfg) && s.active.Some?
    ensures MoveOn(cfg, s, s.(notices := s.notices + [Notice(s.active.value.request, outcome)]), now).0.settled
         == s.settled
  {
    ProcessNextFrame(cfg, s.(notices := s.notices + [Notice(s.active.value.request, outcome)]), now);
  }

  lemma ConfirmKeepsFile(cfg: Config, s: State, id: nat, confirmation: EcdsaSignature, author: Account, now: nat)
    requires ValidConfig(cfg)
    ensures AddConfirmation(cfg, s, id, confirmation, author, now).0.settled == s.settled
  {
    if s.active.Some? {
      MoveOnKeepsFile(cfg, s, Proof(s.active.value.confirmations + [confirmation]), now);
    }
  }

  lemma OtherKindOfCall(cfg: Config, s: State, t: Timed)
    requires ValidConfig(cfg) && !t.call.CallCorroborate?
    ensures Step(cfg, s, t).settled == s.settled
  {
    match t.call
    case CallConfirm(id, confirmation, author) =>
      ConfirmKeepsFile(cfg, s, id, confirmation, author, t.now);
    case CallRemoveActive =>
      if s.active.Some? {
        MoveOnKeepsFile(cfg, s, Failed, t.now);
      }
    case _ =>
  }

  /** No call that does not settle touches the file. */
  lemma OtherCall(cfg: Config, s: State, t: Timed)
    requires ValidConfig(cfg) && Sound(cfg, s) && !Settles(cfg, s, t)
    ensures Step(cfg, s, t).settled == s.settled
  {
    if t.call.CallCorroborate? {
      OtherCorroboration(cfg, s, t);
    } else {
      OtherKindOfCall(cfg, s, t);
    }
  }

  // ---------------------------------------------------------------- ids name requests

  lemma {:induction false} SendIdListed(reqs: seq<Request>, i: nat)
    requires i < |reqs| && reqs[i].Send?
    ensures reqs[i].send.txId in SendIds(reqs)
    decreases |reqs|
  {
    var init := reqs[..|reqs| - 1];
    if i < |init| {
      SendIdListed(init, i);
      assert init[i] == reqs[i];
    } else {
      assert SendIds(reqs) == SendIds(init) + [reqs[i].send.txId];
    }
  }

  lemma {:induction false} SendIdsOrdered(reqs: seq<Request>, bound: nat, i: nat, j: nat)
    requires Ascending(SendIds(reqs), bound) && i < j < |reqs| && reqs[i].Send? && reqs[j].Send?
    ensures reqs[i].send.txId < reqs[j].send.txId
    decreases |reqs|
  {
    var init, last := reqs[..|reqs| - 1], reqs[|reqs| - 1];
    var ids, all := SendIds(init), SendIds(reqs);
    assert all == if last.Send? then ids + [last.send.txId] else ids;
    assert forall k :: 0 <= k < |ids| ==> all[k] == ids[k];
    if j < |init| {
      SendIdsOrdered(init, bound, i, j);
    } else {
      SendIdListed(init, i);
      var k :| 0 <= k < |ids| && ids[k] == init[i].send.txId;
      assert all[k] < all[|ids|];
    }
  }

  /** A request notified before cannot share its id with the active one. */
  lemma ActiveIdIsNew(cfg: Config, s: State, n: Notice)
    requires Fifo(cfg, s) && Ascending(SendIds(s.accepted), s.nextTxId)
    requires n in s.notices && n.request.Send? && s.active.Some? && s.active.value.request.Send?
    ensures n.request.send.txId != s.active.value.request.send.txId
  {
    var i :| 0 <= i < |s.notices| && s.notices[i] == n;
    assert s.accepted[i] == n.request;
    assert s.accepted[|s.notices|] == s.active.value.request;
    SendIdsOrdered(s.accepted, s.nextTxId, i, |s.notices|);
  }

  // ---------------------------------------------------------------- runs

  /** The file holds the settlements and nothing else, each with the outcome its caller was told. */
  ghost predicate OnFile(s: State, done: seq<Notice>) {
    && (forall n :: n in done ==>
          && n in s.notices && n.request.Send?
          && n.request.send.txId in s.settled
          && n.outcome == if s.settled[n.request.send.txId].succeeded then Succeeded else Failed)
    && (forall id :: id in s.settled ==> exists n :: n in done && n.request.Send? && n.request.send.txId == id)
  }

  /** One more transaction on file, under an id of its own. */
  lemma FileGrows(s: State, s': State, done: seq<Notice>, notice: Notice)
    requires OnFile(s, done) && notice.request.Send? && s.notices + [notice] <= s'.notices
    requires forall n :: n in done ==> n.request.send.txId != notice.request.send.txId
    requires s'.settled.Keys == s.settled.Keys + {notice.request.send.txId}
    requires notice.outcome == if s'.settled[notice.request.send.txId].succeeded then Succeeded else Failed
    requires forall k :: k in s.settled && k != notice.request.send.txId ==> s'.settled[k] == s.settled[k]
    ensures OnFile(s', done + [notice])
  {
    var done' := done + [notice];
    assert (s.notices + [notice])[|s.notices|] == notice;
    forall n | n in done ensures n in s'.notices {
      KeptNotice(s, s', n);
    }
    forall k | k in s'.settled ensures exists n :: n in done' && n.request.Send? && n.request.send.txId == k {
      if k == notice.request.send.txId {
        assert notice in done';
      } else {
        var n :| n in done && n.request.Send? && n.request.send.txId == k;
        assert n in done';
      }
    }
  }

  lemma SettlingStep(cfg: Config, s: State, t: Timed, done: seq<Notice>)
    requires ValidConfig(cfg) && Sound(cfg, s) && Settles(cfg, s, t)
    requires Ascending(SendIds(s.accepted), s.nextTxId) && OnFile(s, done)
    ensures OnFile(Step(cfg, s, t), done + [SettlementNotice(s, t.call)])
  {
    SettlingCall(cfg, s, t);
    forall n | n in done ensures n.request.send.txId != s.active.value.request.send.txId {
      ActiveIdIsNew(cfg, s, n);
    }
    FileGrows(s, Step(cfg, s, t), done, SettlementNotice(s, t.call));
  }

  lemma KeptNotice(s: State, s': State, n: Notice)
    requires n in s.notices && s.notices <= s'.notices
    ensures n in s'.notices
  {
    var i :| 0 <= i < |s.notices| && s.notices[i] == n;
    assert s'.notices[i] == n;
  }

  lemma OtherStep(cfg: Config, s: State, t: Timed, done: seq<Notice>)
    requires ValidConfig(cfg) && Sound(cfg, s) && !Settles(cfg, s, t) && OnFile(s, done)
    ensures OnFile(Step(cfg, s, t), done)
  {
    OtherCall(cfg, s, t);
    StepNotices(cfg, s, t);
    forall n | n in done ensures n in Step(cfg, s, t).notices {
      KeptNotice(s, Step(cfg, s, t), n);
    }
  }

  /**
   In every run that neither resets nor wraps the transaction ids, the settled
   transactions on file are exactly those a quorum settled, each with the outcome its
   caller was notified of.
   */
  lemma {:induction false} SettlementsAreOnFile(cfg: Config, s: State, calls: seq<Timed>)
    requires ValidConfig(cfg) && Sound(cfg, s) && s.settled == map[]
    requires forall t :: t in calls ==> !t.call.CallSetTxId?
    requires Ascending(SendIds(s.accepted), s.nextTxId) && s.nextTxId + |calls| <= U32_MAX
    ensures OnFile(Run(cfg, s, calls), SettlementsOf(cfg, s, calls))
    decreases |calls|
  {
    if calls != [] {
      var init, last := calls[..|calls| - 1], calls[|calls| - 1];
      SettlementsAreOnFile(cfg, s, init);
      RunSound(cfg, s, init);
      TxIdsAscend(cfg, s, init);
      if Settles(cfg, Run(cfg, s, init), last) {
        SettlingStep(cfg, Run(cfg, s, init), last, SettlementsOf(cfg, s, init));
      } else {
        OtherStep(cfg, Run(cfg, s, init), last, SettlementsOf(cfg, s, init));
        assert SettlementsOf(cfg, s, init) + [] == SettlementsOf(cfg, s, init);
      }
    }
  }
}
