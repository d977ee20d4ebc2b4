/** Consequences of the request engine's invariant: who decides, when it can get stuck, what ids mean. */
module RequestTheorems {
  import opened Prelude
  import opened Quorum
  import opened Requests

  // ---------------------------------------------------------------- decisions

  /** The transaction a corroboration call is about, with the corroboration added. */
  ghost function VotedTx(s: State, c: Call): EthTransaction
    requires c.CallCorroborate? && s.active.Some? && s.active.value.tx.Some?
  {
    Corroborated(s.active.value.tx.value, c.author, c.succeeded, c.hashValid)
  }

  /** The authors who now say what the caller says about the outcome. */
  ghost function Side(tx: EthTransaction, c: Call): set<Account>
    requires c.CallCorroborate?
  {
    Elements(if c.succeeded then tx.success else tx.failure) + {c.author}
  }

  /** The authors who now say the transaction hash is wrong. */
  ghost function Disputes(tx: EthTransaction, c: Call): set<Account>
    requires c.CallCorroborate?
  {
    Elements(tx.invalidHash) + if c.hashValid then {} else {c.author}
  }

  /** The call is a corroboration of an active transaction, by a non-sender whose word is still out. */
  ghost predicate Counts(cfg: Config, s: State, c: Call) {
    && c.CallCorroborate? && s.active.Some? && s.active.value.tx.Some? && s.active.value.request.Send?
    && var tx := s.active.value.tx.value;
       c.author in cfg.validators && c.author != tx.sender && RequiresCorroboration(tx, c.author)
  }

  /** One more name on the first of two disjoint duplicate-free lists. */
  lemma OneMore(a: seq<Account>, b: seq<Account>, x: Account, allowed: set<Account>)
    requires Distinct(a + b) && x !in a && x !in b
    requires x in allowed && forall v :: v in a + b ==> v in allowed
    ensures |Elements(a)| == |a| && |Elements(a) + {x}| == |a| + 1
    ensures Elements(a) + {x} <= allowed && Elements(a) + {x} !! Elements(b)
  {
    PartsDistinct(a, b);
    DistinctCount(a);
    assert forall v :: v in a ==> v in a + b;
  }

  lemma DistinctSwap(a: seq<Account>, b: seq<Account>)
    requires Distinct(a + b)
    ensures Distinct(b + a) && forall v :: v in b + a <==> v in a + b
  {
    PartsDistinct(a, b);
    var c := b + a;
    forall i, j | 0 <= i < j < |c| ensures c[i] != c[j] {
      if i < |b| <= j {
        assert c[i] in Elements(b) && c[j] in Elements(a);
      }
    }
  }

  lemma SideCounts(cfg: Config, s: State, c: Call)
    requires Healthy(cfg, s) && Counts(cfg, s, c)
    ensures var tx, voted := s.active.value.tx.value, VotedTx(s, c);
            && |(if c.succeeded then voted.success else voted.failure)| == |Side(tx, c)|
            && Side(tx, c) <= Elements(cfg.validators) - {tx.sender}
            && Side(tx, c) !! Elements(if c.succeeded then tx.failure else tx.success)
  {
    var tx := s.active.value.tx.value;
    var others := Elements(cfg.validators) - {tx.sender};
    if c.succeeded {
      OneMore(tx.success, tx.failure, c.author, others);
    } else {
      DistinctSwap(tx.success, tx.failure);
      OneMore(tx.failure, tx.success, c.author, others);
    }
  }

  lemma DisputeCounts(cfg: Config, s: State, c: Call)
    requires Healthy(cfg, s) && Counts(cfg, s, c)
    ensures |VotedTx(s, c).invalidHash| == |Disputes(s.active.value.tx.value, c)|
  {
    var tx := s.active.value.tx.value;
    assert c.author !in Elements(tx.success + tx.failure);
    assert forall v :: v in tx.validHash + tx.invalidHash <==> v in Elements(tx.validHash + tx.invalidHash);
    DistinctSwap(tx.validHash, tx.invalidHash);
    OneMore(tx.invalidHash, tx.validHash, c.author, Elements(tx.validHash + tx.invalidHash) + {c.author});
  }

  lemma PartsDistinct(a: seq<Account>, b: seq<Account>)
    requires Distinct(a + b)
    ensures Distinct(a) && Distinct(b) && Elements(a) !! Elements(b)
    ensures Elements(a + b) == Elements(a) + Elements(b)
  {
    var c := a + b;
    assert forall i :: 0 <= i < |a| ==> c[i] == a[i];
    assert forall i :: 0 <= i < |b| ==> c[|a| + i] == b[i];
  }

  /** The same request is active again, one attempt later, and nobody was told anything. */
  ghost predicate Replayed(s: State, s': State)
    requires s.active.Some? && s.active.value.tx.Some?
  {
    && s'.notices == s.notices && s'.queue == s.queue && s'.offences == s.offences && s'.settled == s.settled
    && s'.active.Some? && s'.active.value.request == s.active.value.request && s'.active.value.tx.Some?
    && s'.active.value.tx.value.replayAttempt
       == SaturatingAdd(s.active.value.tx.value.replayAttempt, 1, U16_MAX)
  }

  /**
   The active request was notified, before any other, and only the losing side reported;
   it is on file with its outcome, without a hash that a quorum disputes.
   */
  ghost predicate SettledAs(s: State, s': State, succeeded: bool, disputed: bool)
    requires s.active.Some? && s.active.value.tx.Some? && s.active.value.request.Send?
  {
    var tx := s.active.value.tx.value;
    var losers := if succeeded then tx.failure else tx.success;
    var kind := if succeeded then ChallengeOnSuccessful else ChallengeOnUnsuccessful;
    && s.notices + [Notice(s.active.value.request, if succeeded then Succeeded else Failed)] <= s'.notices
    && s'.offences == s.offences + (if losers == [] then [] else [Offence(tx.sender, losers, kind)])
    && s'.settled == s.settled[s.active.value.request.send.txId :=
         Settled(tx.sender, if succeeded && disputed then ZERO_HASH else tx.ethTxHash, succeeded)]
  }

  lemma SettleOutcome(cfg: Config, s: State, voted: EthTransaction, c: Call, now: nat)
    requires ValidConfig(cfg) && Counts(cfg, s, c) && voted == VotedTx(s, c)
    ensures var r := ProcessNext(cfg, SettleActive(cfg, s, s.active.value.request.send, voted, c.succeeded), now);
            r.Ok? ==> SettledAs(s, r.value, c.succeeded, |voted.invalidHash| >= CorroborationQuorum(cfg))
  {
    ProcessNextFrame(cfg, SettleActive(cfg, s, s.active.value.request.send, voted, c.succeeded), now);
  }

  lemma ReplayOutcome(cfg: Config, s: State, voted: EthTransaction, now: nat)
    requires s.active.Some? && s.active.value.tx.Some? && s.active.value.request.Send?
    requires voted.replayAttempt == s.active.value.tx.value.replayAttempt
    ensures var r := SetUpActiveTx(cfg, s, s.active.value.request.send,
                                   Some(SaturatingAdd(voted.replayAttempt, 1, U16_MAX)), now);
            r.Ok? ==> Replayed(s, r.value)
  {
  }

  /**
   With two or more validators an undecided transaction always has an author left
   to ask.
   */
  lemma SomeoneHasNotCorroborated(cfg: Config, s: State) returns (author: Account)
    requires ValidConfig(cfg) && Inv(cfg, s) && |cfg.validators| >= 2
    requires s.active.Some? && s.active.value.tx.Some?
    ensures author in cfg.validators && author != s.active.value.tx.value.sender
    ensures RequiresCorroboration(s.active.value.tx.value, author)
  {
    var tx := s.active.value.tx.value;
    var voted, others := Elements(tx.success + tx.failure), Elements(cfg.validators) - {tx.sender};
    DistinctCount(tx.success + tx.failure);
    DistinctCount(cfg.validators);
    TwoMinoritiesLeaveOne(|cfg.validators| - 1, |tx.success|, |tx.failure|);
    if others <= voted {
      SubsetCount(others, voted);
      assert false;
    }
    author :| author in others && author !in voted;
    assert author !in tx.success + tx.failure;
  }

  // ---------------------------------------------------------------- transaction ids

  ghost function SendIds(reqs: seq<Request>): seq<nat> {
    if reqs == [] then []
    else
      var init, last := SendIds(reqs[..|reqs| - 1]), reqs[|reqs| - 1];
      if last.Send? then init + [last.send.txId] else init
  }

  ghost predicate Ascending(ids: seq<nat>, bound: nat) {
    && (forall i, j :: 0 <= i < j < |ids| ==> ids[i] < ids[j])
    && (forall i :: 0 <= i < |ids| ==> ids[i] < bound)
  }

  lemma StepIds(cfg: Config, s: State, t: Timed)
    requires ValidConfig(cfg) && !t.call.CallSetTxId?
    requires Ascending(SendIds(s.accepted), s.nextTxId) && s.nextTxId < U32_MAX
    ensures var s' := Step(cfg, s, t);
            && Ascending(SendIds(s'.accepted), s'.nextTxId)
            && s'.nextTxId <= s.nextTxId + 1
  {
    StepHistory(cfg, s, t);
    IdsGrow(s, Step(cfg, s, t));
  }

  /** At most one request more, numbered if it was published. */
  ghost predicate OneMoreAccepted(s: State, s': State) {
    || (s'.accepted == s.accepted && s'.nextTxId == s.nextTxId)
    || (exists req :: s'.accepted == s.accepted + [req]
          && if req.Send? then req.send.txId == s.nextTxId && s'.nextTxId == (s.nextTxId + 1) % U32_RANGE
             else s'.nextTxId == s.nextTxId)
  }

  lemma IdsGrow(s: State, s': State)
    requires OneMoreAccepted(s, s') && Ascending(SendIds(s.accepted), s.nextTxId) && s.nextTxId < U32_MAX
    ensures Ascending(SendIds(s'.accepted), s'.nextTxId) && s'.nextTxId <= s.nextTxId + 1
  {
    if s'.accepted != s.accepted {
      var req :| s'.accepted == s.accepted + [req]
        && if req.Send? then req.send.txId == s.nextTxId && s'.nextTxId == (s.nextTxId + 1) % U32_RANGE
           else s'.nextTxId == s.nextTxId;
      SmallMod(s.nextTxId + 1, U32_RANGE);
      IdsAppend(s.accepted, req, s.nextTxId);
    }
  }

  lemma IdsAppend(reqs: seq<Request>, req: Request, next: nat)
    requires Ascending(SendIds(reqs), next) && (req.Send? ==> req.send.txId == next)
    ensures Ascending(SendIds(reqs + [req]), if req.Send? then next + 1 else next)
  {
    var longer := reqs + [req];
    assert longer[..|longer| - 1] == reqs;
  }

  /** A call accepts at most one request, and only a published one takes an id. */
  lemma StepHistory(cfg: Config, s: State, t: Timed)
    requires ValidConfig(cfg) && !t.call.CallSetTxId?
    ensures OneMoreAccepted(s, Step(cfg, s, t))
  {
    match t.call
    case CallPublish(name, params, callerId) =>
      PublishHistory(cfg, s, name, params, callerId, t.now);
    case CallLowerProof(lowerId, params, callerId) =>
      var req := LowerProof(LowerRequest(lowerId, params, callerId));
      assert Step(cfg, s, t).accepted == s.accepted || Step(cfg, s, t).accepted == s.accepted + [req];
    case CallConfirm(id, confirmation, author) =>
      ConfirmHistory(cfg, s, id, confirmation, author, t.now);
    case CallTxHash(id, hash, author) =>
    case CallCorroborate(id, succeeded, hashValid, author, attempt, callbackOk) =>
      CorroborateHistory(cfg, s, t);
    case CallRemoveActive =>
      if s.active.Some? {
        ProcessNextFrame(cfg, s.(notices := s.notices + [Notice(s.active.value.request, Failed)]), t.now);
      }
    case CallSetInstance(instance) =>
    case CallSetLifetime(seconds) =>
  }

  lemma PublishHistory(cfg: Config, s: State, name: string, params: seq<Param>, callerId: string, now: nat)
    ensures OneMoreAccepted(s, Publish(cfg, s, name, params, callerId, now).0)
  {
    var s', req := Publish(cfg, s, name, params, callerId, now).0, Send(SendRequest(s.nextTxId, name, params, callerId));
    assert s'.accepted == s.accepted || s'.accepted == s.accepted + [req];
  }

  lemma ConfirmHistory(cfg: Config, s: State, id: nat, confirmation: EcdsaSignature, author: Account, now: nat)
    requires ValidConfig(cfg)
    ensures var s' := AddConfirmation(cfg, s, id, confirmation, author, now).0;
            s'.accepted == s.accepted && s'.nextTxId == s.nextTxId
  {
    if s.active.Some? {
      var a := s.active.value;
      ProcessNextFrame(cfg, s.(notices := s.notices + [Notice(a.request, Proof(a.confirmations + [confirmation]))]), now);
    }
  }

  lemma FinalizeHistory(cfg: Config, s: State, req: SendRequest, tx: EthTransaction, success: bool,
                        callbackOk: bool, now: nat)
    requires ValidConfig(cfg)
    ensures var r := FinalizeState(cfg, s, req, tx, success, callbackOk, now);
            r.Ok? ==> r.value.accepted == s.accepted && r.value.nextTxId == s.nextTxId
  {
    ProcessNextFrame(cfg, SettleActive(cfg, s, req, tx, success), now);
  }

  lemma CorroborateHistory(cfg: Config, s: State, t: Timed)
    requires ValidConfig(cfg) && t.call.CallCorroborate?
    ensures Step(cfg, s, t).accepted == s.accepted && Step(cfg, s, t).nextTxId == s.nextTxId
  {
    if s.active.Some? && s.active.value.tx.Some? && s.active.value.request.Send? {
      var a, c := s.active.value, t.call;
      FinalizeHistory(cfg, s, a.request.send, Corroborated(a.tx.value, c.author, c.succeeded, c.hashValid),
                      c.succeeded, c.callbackOk, t.now);
    }
  }

  /**
   Transaction ids name requests: they ascend in acceptance order in every run that
   is too short to wrap the 32-bit counter and in which root does not reset it.
   */
  lemma {:induction false} TxIdsAscend(cfg: Config, s: State, calls: seq<Timed>)
    requires ValidConfig(cfg) && forall t :: t in calls ==> !t.call.CallSetTxId?
    requires Ascending(SendIds(s.accepted), s.nextTxId) && s.nextTxId + |calls| <= U32_MAX
    ensures var s' := Run(cfg, s, calls);
            Ascending(SendIds(s'.accepted), s'.nextTxId) && s'.nextTxId <= s.nextTxId + |calls|
    decreases |calls|
  {
    if calls != [] {
      TxIdsAscend(cfg, s, calls[..|calls| - 1]);
      assert calls[|calls| - 1] in calls;
      StepIds(cfg, Run(cfg, s, calls[..|calls| - 1]), calls[|calls| - 1]);
    }
  }

  // ---------------------------------------------------------------- lower proofs

  predicate HoldsLowerProof(s: State, req: LowerRequest) {
    s.active.Some? && s.active.value.request == LowerProof(req)
  }

  lemma LowerProofStays(cfg: Config, s: State, req: LowerRequest, t: Timed)
    requires Inv(cfg, s) && HoldsLowerProof(s, req) && !t.call.CallRemoveActive?
    requires |cfg.validators| < 2 || |cfg.validators| > 151
    ensures HoldsLowerProof(Step(cfg, s, t), req) && Step(cfg, s, t).notices == s.notices
  {
    assert RequiredForSupermajority(|cfg.validators|) == 0
        || RequiredForSupermajority(|cfg.validators|) > CONFIRMATIONS_LIMIT;
  }

  /**
   With fewer than 2 or more than 151 validators nothing but the administrator's removal
   ever ends a lower proof: the supermajority is zero, which the early return treats as
   already reached, or above the 100 confirmations a request can hold.
   */
  lemma {:induction false} LowerProofBlocked(cfg: Config, s: State, req: LowerRequest, calls: seq<Timed>)
    requires ValidConfig(cfg) && Inv(cfg, s) && HoldsLowerProof(s, req)
    requires |cfg.validators| < 2 || |cfg.validators| > 151
    requires forall t :: t in calls ==> !t.call.CallRemoveActive?
    ensures var s' := Run(cfg, s, calls); HoldsLowerProof(s', req) && s'.notices == s.notices
    decreases |calls|
  {
    if calls != [] {
      var init, last := calls[..|calls| - 1], calls[|calls| - 1];
      LowerProofBlocked(cfg, s, req, init);
      RunInv(cfg, s, init);
      assert last in calls;
      LowerProofStays(cfg, Run(cfg, s, init), req, last);
    }
  }

  /** An idle bridge takes on any lower proof whose parameters hash, so both cases do occur. */
  lemma LowerProofStarts(cfg: Config, s: State, req: LowerRequest, now: nat)
    requires ValidConfig(cfg) && Inv(cfg, s) && s.active.None?
    requires |req.callerId| <= CALLER_ID_LIMIT && cfg.lowerHash(req.params, s.instance).Some?
    ensures var s' := Step(cfg, s, Timed(CallLowerProof(req.lowerId, req.params, req.callerId), now));
            && Inv(cfg, s') && HoldsLowerProof(s', req)
            && s'.active.value.confirmations == [] && s'.notices == s.notices && s'.queue == []
  {
    StepInv(cfg, s, Timed(CallLowerProof(req.lowerId, req.params, req.callerId), now));
  }

  /** Started on a new chain of such a size, a lower proof is never heard of again. */
  lemma LowerProofNeverEnds(cfg: Config, req: LowerRequest, calls: seq<Timed>)
    requires ValidConfig(cfg) && (|cfg.validators| < 2 || |cfg.validators| > 151)
    requires |req.callerId| <= CALLER_ID_LIMIT && cfg.lowerHash(req.params, 0).Some?
    requires forall t :: t in calls ==> !t.call.CallRemoveActive?
    ensures var s := Step(cfg, Genesis(0, 0, 0), Timed(CallLowerProof(req.lowerId, req.params, req.callerId), 0));
            Run(cfg, s, calls).notices == [] && HoldsLowerProof(Run(cfg, s, calls), req)
  {
    GenesisInv(cfg, 0, 0, 0);
    LowerProofStarts(cfg, Genesis(0, 0, 0), req, 0);
    LowerProofBlocked(cfg, Step(cfg, Genesis(0, 0, 0), Timed(CallLowerProof(req.lowerId, req.params, req.callerId), 0)),
                      req, calls);
  }

  /** The calls that hand in the given confirmations. */
  ghost function Confirmations(id: nat, votes: seq<(Account, EcdsaSignature)>, now: nat): (r: seq<Timed>)
    ensures |r| == |votes|
    ensures forall i :: 0 <= i < |votes| ==> r[i] == Timed(CallConfirm(id, votes[i].1, votes[i].0), now)
  {
    seq(|votes|, i requires 0 <= i < |votes| => Timed(CallConfirm(id, votes[i].1, votes[i].0), now))
  }

  ghost function SignaturesOf(votes: seq<(Account, EcdsaSignature)>): (r: seq<EcdsaSignature>)
    ensures |r| == |votes|
    ensures forall i :: 0 <= i < |votes| ==> r[i] == votes[i].1
  {
    seq(|votes|, i requires 0 <= i < |votes| => votes[i].1)
  }

  ghost predicate GoodConfirmations(cfg: Config, hash: Hash, votes: seq<(Account, EcdsaSignature)>) {
    && Distinct(SignaturesOf(votes))
    && forall i :: 0 <= i < |votes| ==> votes[i].0 in cfg.validators && cfg.signatureOk(hash, votes[i].0, votes[i].1)
  }

  lemma LastIsNew(init: seq<EcdsaSignature>, last: EcdsaSignature)
    requires Distinct(init + [last])
    ensures last !in init && Distinct(init)
  {
    var all := init + [last];
    assert forall i :: 0 <= i < |init| ==> all[i] == init[i] && all[i] != all[|init|];
  }

  /** The votes but the last are as good, and so is the run that hands them in. */
  lemma DropLastVote(cfg: Config, hash: Hash, id: nat, votes: seq<(Account, EcdsaSignature)>, now: nat)
    requires votes != [] && GoodConfirmations(cfg, hash, votes)
    ensures var init, last := votes[..|votes| - 1], votes[|votes| - 1];
            var calls := Confirmations(id, votes, now);
            && SignaturesOf(votes) == SignaturesOf(init) + [last.1]
            && calls[..|calls| - 1] == Confirmations(id, init, now)
            && GoodConfirmations(cfg, hash, init)
  {
    var init := votes[..|votes| - 1];
    assert forall i :: 0 <= i < |init| ==> init[i] == votes[i];
    assert forall i :: 0 <= i < |init| ==> SignaturesOf(init)[i] == SignaturesOf(votes)[i];
  }

  lemma OneMoreConfirmation(cfg: Config, s: State, req: LowerRequest, kept: seq<EcdsaSignature>, author: Account,
                            signature: EcdsaSignature, now: nat)
    requires HoldsLowerProof(s, req) && author in cfg.validators && signature !in kept
    requires cfg.signatureOk(s.active.value.msgHash, author, signature)
    requires |kept| + 1 < RequiredForSupermajority(|cfg.validators|) <= CONFIRMATIONS_LIMIT
    ensures Step(cfg, s.(active := Some(s.active.value.(confirmations := kept))),
                 Timed(CallConfirm(req.lowerId, signature, author), now))
         == s.(active := Some(s.active.value.(confirmations := kept + [signature])))
  {
  }

  lemma {:induction false} ConfirmationsAccumulate(cfg: Config, s: State, req: LowerRequest,
                                                   votes: seq<(Account, EcdsaSignature)>, now: nat)
    requires ValidConfig(cfg) && HoldsLowerProof(s, req) && s.active.value.confirmations == []
    requires |votes| < RequiredForSupermajority(|cfg.validators|) <= CONFIRMATIONS_LIMIT
    requires GoodConfirmations(cfg, s.active.value.msgHash, votes)
    ensures Run(cfg, s, Confirmations(req.lowerId, votes, now))
         == s.(active := Some(s.active.value.(confirmations := SignaturesOf(votes))))
    decreases |votes|
  {
    var calls := Confirmations(req.lowerId, votes, now);
    if votes != [] {
      var init, last := votes[..|votes| - 1], votes[|votes| - 1];
      DropLastVote(cfg, s.active.value.msgHash, req.lowerId, votes, now);
      ConfirmationsAccumulate(cfg, s, req, init, now);
      LastIsNew(SignaturesOf(init), last.1);
      OneMoreConfirmation(cfg, s, req, SignaturesOf(init), last.0, last.1, now);
    } else {
      assert SignaturesOf(votes) == [];
    }
  }

  /**
   With 2 to 151 validators any supermajority of distinct valid signatures does
   finish it, with a proof made of exactly those signatures.
   */
  lemma LowerProofCompletes(cfg: Config, s: State, req: LowerRequest, votes: seq<(Account, EcdsaSignature)>, now: nat)
    requires ValidConfig(cfg) && HoldsLowerProof(s, req) && s.active.value.confirmations == []
    requires 2 <= |cfg.validators| <= 151
    requires |votes| == RequiredForSupermajority(|cfg.validators|)
    requires GoodConfirmations(cfg, s.active.value.msgHash, votes)
    ensures s.notices + [Notice(LowerProof(req), Proof(SignaturesOf(votes)))]
         <= Run(cfg, s, Confirmations(req.lowerId, votes, now)).notices
  {
    var calls := Confirmations(req.lowerId, votes, now);
    var init, last := votes[..|votes| - 1], votes[|votes| - 1];
    DropLastVote(cfg, s.active.value.msgHash, req.lowerId, votes, now);
    ConfirmationsAccumulate(cfg, s, req, init, now);
    assert init + [last] == votes;
    LastConfirmation(cfg, s, req, init, last, now);
  }

  lemma LastConfirmation(cfg: Config, s: State, req: LowerRequest, init: seq<(Account, EcdsaSignature)>,
                         last: (Account, EcdsaSignature), now: nat)
    requires ValidConfig(cfg) && HoldsLowerProof(s, req)
    requires 2 <= |cfg.validators| <= 151
    requires |init| + 1 == RequiredForSupermajority(|cfg.validators|)
    requires GoodConfirmations(cfg, s.active.value.msgHash, init + [last])
    ensures var ready := s.(active := Some(s.active.value.(confirmations := SignaturesOf(init))));
            s.notices + [Notice(LowerProof(req), Proof(SignaturesOf(init) + [last.1]))]
            <= Step(cfg, ready, Timed(CallConfirm(req.lowerId, last.1, last.0), now)).notices
  {
    var votes := init + [last];
    assert SignaturesOf(votes) == SignaturesOf(init) + [last.1];
    LastIsNew(SignaturesOf(init), last.1);
    assert votes[|init|] == last;
    var ready := s.(active := Some(s.active.value.(confirmations := SignaturesOf(init))));
    var done := ready.(notices := s.notices + [Notice(LowerProof(req), Proof(SignaturesOf(init) + [last.1]))]);
    ProcessNextFrame(cfg, done, now);
    MovesOn(cfg, done, now);
    assert Step(cfg, ready, Timed(CallConfirm(req.lowerId, last.1, last.0), now)) == ProcessNext(cfg, done, now).value;
  }

  /** Short of 256 validators the queue never stops. */
  lemma {:induction false} MovesOn(cfg: Config, s: State, now: nat)
    requires |cfg.validators| < 256
    ensures ProcessNext(cfg, s, now).Ok?
    decreases |s.queue|
  {
    if s.queue != [] {
      var req, rest := s.queue[0], s.(active := None, queue := s.queue[1..]);
      if SetUp(cfg, rest, req, now).Err? {
        MovesOn(cfg, rest.(notices := rest.notices + [Notice(req, Failed)]), now);
      }
    }
  }

  // ---------------------------------------------------------------- notices

  /** The active request is told how it ended, if it ended, and every other request named that it failed. */
  ghost predicate NoticesGrow(s: State, s': State) {
    && s.notices <= s'.notices
    && forall i :: |s.notices| <= i < |s'.notices| ==>
         s'.notices[i].outcome == Failed || (s.active.Some? && s'.notices[i].request == s.active.value.request)
  }

  lemma MoveOnNotices(cfg: Config, s: State, done: State, outcome: Outcome, now: nat)
    requires ValidConfig(cfg) && s.active.Some?
    requires done.notices == s.notices + [Notice(s.active.value.request, outcome)]
    ensures NoticesGrow(s, MoveOn(cfg, s, done, now).0)
  {
    ProcessNextFrame(cfg, done, now);
  }

  lemma ConfirmNotices(cfg: Config, s: State, id: nat, confirmation: EcdsaSignature, author: Account, now: nat)
    requires ValidConfig(cfg)
    ensures NoticesGrow(s, AddConfirmation(cfg, s, id, confirmation, author, now).0)
  {
    if s.active.Some? {
      var a := s.active.value;
      var proof := Proof(a.confirmations + [confirmation]);
      MoveOnNotices(cfg, s, s.(notices := s.notices + [Notice(a.request, proof)]), proof, now);
    }
  }

  lemma CorroborateNotices(cfg: Config, s: State, id: nat, succeeded: bool, hashValid: bool, author: Account,
                           attempt: nat, callbackOk: bool, now: nat)
    requires ValidConfig(cfg) && ActiveShape(s)
    ensures NoticesGrow(s, AddCorroboration(cfg, s, id, succeeded, hashValid, author, attempt, callbackOk, now).0)
  {
    if s.active.Some? && s.active.value.tx.Some? {
      FinalizeNotices(cfg, s, Corroborated(s.active.value.tx.value, author, succeeded, hashValid), succeeded, callbackOk,
                      now);
    }
  }

  lemma FinalizeNotices(cfg: Config, s: State, tx: EthTransaction, success: bool, callbackOk: bool, now: nat)
    requires ValidConfig(cfg) && s.active.Some? && s.active.value.request.Send?
    ensures var r := FinalizeState(cfg, s, s.active.value.request.send, tx, success, callbackOk, now);
            r.Ok? ==> NoticesGrow(s, r.value)
  {
    MoveOnNotices(cfg, s, SettleActive(cfg, s, s.active.value.request.send, tx, success),
                  if success then Succeeded else Failed, now);
  }

  lemma StepNotices(cfg: Config, s: State, t: Timed)
    requires ValidConfig(cfg) && ActiveShape(s)
    ensures NoticesGrow(s, Step(cfg, s, t))
  {
    match t.call
    case CallConfirm(id, confirmation, author) =>
      ConfirmNotices(cfg, s, id, confirmation, author, t.now);
    case CallCorroborate(id, succeeded, hashValid, author, attempt, callbackOk) =>
      CorroborateNotices(cfg, s, id, succeeded, hashValid, author, attempt, callbackOk, t.now);
    case CallRemoveActive =>
      if s.active.Some? {
        MoveOnNotices(cfg, s, s.(notices := s.notices + [Notice(s.active.value.request, Failed)]), Failed, t.now);
      }
    case _ =>
  }
}
