/** What every call to the request engine answers and does, and what a quorum of calls brings about. */
module RequestOutcomes {
  import opened Prelude
  import opened Quorum
  import opened Requests
  import opened RequestTheorems
  import opened RequestLimits
  import opened RequestContents

  // ---------------------------------------------------------------- runs

  lemma {:induction false} RunSplit(cfg: Config, s: State, first: seq<Timed>, second: seq<Timed>)
    ensures Run(cfg, s, first + second) == Run(cfg, Run(cfg, s, first), second)
    decreases |second|
  {
    if second == [] {
      assert first + second == first;
    } else {
      var init, last := second[..|second| - 1], second[|second| - 1];
      RunSplit(cfg, s, first, init);
      assert first + second == first + init + [last];
      RunAppend(cfg, s, first + init, last);
    }
  }

  lemma RunFirst(cfg: Config, s: State, calls: seq<Timed>)
    requires calls != []
    ensures Run(cfg, s, calls) == Run(cfg, Step(cfg, s, calls[0]), calls[1..])
  {
    assert calls == [calls[0]] + calls[1..];
    RunOne(cfg, s, calls[0]);
    RunSplit(cfg, s, [calls[0]], calls[1..]);
  }

  // ---------------------------------------------------------------- finishing

  /** The active request was told its outcome and the first queued request that could be set up took its place. */
  ghost predicate TookNext(cfg: Config, s: State, s': State, outcome: Outcome, now: nat)
    requires s.active.Some?
  {
    exists k: nat :: MovedTo(cfg, s.(notices := s.notices + [Notice(s.active.value.request, outcome)]), s', k, now)
  }

  lemma FinishOutcome(cfg: Config, s: State, done: State, outcome: Outcome, now: nat)
    requires NoTrap(cfg) && s.active.Some?
    requires done.notices == s.notices + [Notice(s.active.value.request, outcome)]
    requires done.queue == s.queue && done.lifetime == s.lifetime && done.instance == s.instance
    ensures ProcessNext(cfg, done, now).Ok? && TookNext(cfg, s, ProcessNext(cfg, done, now).value, outcome, now)
  {
    var k := NextIsFirstThatCan(cfg, done, now);
    SameMove(cfg, done, s.(notices := s.notices + [Notice(s.active.value.request, outcome)]),
             ProcessNext(cfg, done, now).value, k, now);
  }

  lemma SameMove(cfg: Config, done: State, told: State, s': State, k: nat, now: nat)
    requires done.notices == told.notices && done.queue == told.queue
    requires done.lifetime == told.lifetime && done.instance == told.instance
    requires MovedTo(cfg, done, s', k, now)
    ensures MovedTo(cfg, told, s', k, now)
  {
    forall i | 0 <= i < |done.queue|
      ensures CanSetUp(cfg, done, done.queue[i], now) <==> CanSetUp(cfg, told, done.queue[i], now)
    {
      SameCanSetUp(cfg, done, told, done.queue[i], now);
    }
  }

  // ---------------------------------------------------------------- corroborations

  /** The list with the author added, if it is the list meant. */
  ghost function Added(list: seq<Account>, author: Account, meant: bool): seq<Account> {
    if meant then list + [author] else list
  }

  /** One name more on the two lists the call names, and nothing else. */
  ghost predicate Recorded(s: State, s': State, c: Call)
    requires c.CallCorroborate? && s.active.Some? && s.active.value.tx.Some?
  {
    var a, tx := s.active.value, s.active.value.tx.value;
    s' == s.(active := Some(a.(tx := Some(tx.(
      success := Added(tx.success, c.author, c.succeeded), failure := Added(tx.failure, c.author, !c.succeeded),
      validHash := Added(tx.validHash, c.author, c.hashValid),
      invalidHash := Added(tx.invalidHash, c.author, !c.hashValid))))))
  }

  /** What a corroboration that counts does: by the sets of distinct non-senders on its side and disputing the hash. */
  ghost predicate Decides(cfg: Config, s: State, c: Call, now: nat, s': State, r: Result<(), Error>)
    requires Counts(cfg, s, c)
  {
    var tx, send, q := s.active.value.tx.value, s.active.value.request.send, CorroborationQuorum(cfg);
    if |Side(tx, c)| < q then r == Ok(()) && Recorded(s, s', c)
    else if !c.succeeded && |Disputes(tx, c)| >= q then
      if CanSend(cfg, s, send, now) then
        r == Ok(()) && Replayed(s, s')
        && FreshTx(s, s'.active.value, send, SaturatingAdd(tx.replayAttempt, 1, U16_MAX), now)
      else r.Err? && s' == s
    else if !c.callbackOk then r == Err(HandlePublishingResultFailed) && s' == s
    else
      && r == Ok(()) && SettledAs(s, s', c.succeeded, |Disputes(tx, c)| >= q)
      && TookNext(cfg, s, s', if c.succeeded then Succeeded else Failed, now)
  }

  /** The call as the engine answers it. */
  ghost function Corroborate(cfg: Config, s: State, c: Call, now: nat): (State, Result<(), Error>)
    requires c.CallCorroborate?
  {
    AddCorroboration(cfg, s, c.id, c.succeeded, c.hashValid, c.author, c.attempt, c.callbackOk, now)
  }

  lemma StepCorroborates(cfg: Config, s: State, t: Timed)
    requires t.call.CallCorroborate?
    ensures Step(cfg, s, t) == Corroborate(cfg, s, t.call, t.now).0
  {
  }

  lemma VotedTxLists(s: State, c: Call)
    requires c.CallCorroborate? && s.active.Some? && s.active.value.tx.Some?
    ensures Recorded(s, s.(active := Some(s.active.value.(tx := Some(VotedTx(s, c))))), c)
  {
  }

  lemma ReplayDecides(cfg: Config, s: State, c: Call, now: nat)
    requires Counts(cfg, s, c)
    ensures var tx, send := s.active.value.tx.value, s.active.value.request.send;
            var attempt := SaturatingAdd(tx.replayAttempt, 1, U16_MAX);
            var r := SetUpActiveTx(cfg, s, send, Some(attempt), now);
            && (r.Ok? <==> CanSend(cfg, s, send, now))
            && (r.Ok? ==> Replayed(s, r.value) && FreshTx(s, r.value.active.value, send, attempt, now))
  {
    var tx, send := s.active.value.tx.value, s.active.value.request.send;
    SetUpOutcome(cfg, s, send, Some(SaturatingAdd(tx.replayAttempt, 1, U16_MAX)), now);
  }

  lemma SettleDecides(cfg: Config, s: State, c: Call, now: nat)
    requires ValidConfig(cfg) && NoTrap(cfg) && Counts(cfg, s, c)
    ensures var voted := VotedTx(s, c);
            var r := ProcessNext(cfg, SettleActive(cfg, s, s.active.value.request.send, voted, c.succeeded), now);
            && r.Ok? && SettledAs(s, r.value, c.succeeded, |voted.invalidHash| >= CorroborationQuorum(cfg))
            && TookNext(cfg, s, r.value, if c.succeeded then Succeeded else Failed, now)
  {
    var voted := VotedTx(s, c);
    SettleOutcome(cfg, s, voted, c, now);
    FinishOutcome(cfg, s, SettleActive(cfg, s, s.active.value.request.send, voted, c.succeeded),
                  if c.succeeded then Succeeded else Failed, now);
  }

  /** A heard corroboration by the lengths of the lists, as the engine compares them. */
  lemma CorroborateByLists(cfg: Config, s: State, c: Call, now: nat)
    requires Counts(cfg, s, c) && IsActive(s, c.id) && c.attempt == s.active.value.tx.value.replayAttempt
    requires !ListsFull(s.active.value.tx.value, c.succeeded, c.hashValid)
    ensures var voted, send, q := VotedTx(s, c), s.active.value.request.send, CorroborationQuorum(cfg);
            var answer := Corroborate(cfg, s, c, now);
            if |(if c.succeeded then voted.success else voted.failure)| < q then
              answer == (s.(active := Some(s.active.value.(tx := Some(voted)))), Ok(()))
            else if !c.succeeded && |voted.invalidHash| >= q then
              match SetUpActiveTx(cfg, s, send, Some(SaturatingAdd(voted.replayAttempt, 1, U16_MAX)), now)
              case Ok(s') => answer == (s', Ok(()))
              case Err(e) => answer == (s, Err(e))
            else if !c.callbackOk then answer == (s, Err(HandlePublishingResultFailed))
            else
              match ProcessNext(cfg, SettleActive(cfg, s, send, voted, c.succeeded), now)
              case Ok(s') => answer == (s', Ok(()))
              case Err(e) => answer == (s, Err(e))
  {
  }

  lemma CountedCorroboration(cfg: Config, s: State, c: Call, now: nat)
    requires ValidConfig(cfg) && Healthy(cfg, s) && NoTrap(cfg) && Counts(cfg, s, c)
    requires IsActive(s, c.id) && c.attempt == s.active.value.tx.value.replayAttempt
    requires !ListsFull(s.active.value.tx.value, c.succeeded, c.hashValid)
    ensures var (s', r) := Corroborate(cfg, s, c, now); Decides(cfg, s, c, now, s', r)
  {
    SideCounts(cfg, s, c);
    DisputeCounts(cfg, s, c);
    CorroborateByLists(cfg, s, c, now);
    VotedTxLists(s, c);
    ReplayDecides(cfg, s, c, now);
    SettleDecides(cfg, s, c, now);
  }

  /** The answer to a corroboration: who is turned away and how, and what one that is heard decides. */
  ghost predicate Answered(cfg: Config, s: State, c: Call, now: nat, s': State, r: Result<(), Error>)
    requires c.CallCorroborate? && ActiveShape(s)
  {
    if c.author !in cfg.validators then s' == s && r == Err(NotAnAuthor)
    else if !(s.active.Some? && s.active.value.request.Send? && s.active.value.request.send.txId == c.id) then
      s' == s && r == Ok(())
    else
      var tx := s.active.value.tx.value;
      if c.attempt != tx.replayAttempt then s' == s && r == Err(InvalidCorroborationData)
      else if c.author == tx.sender then s' == s && r == Err(CannotCorroborateOwnTransaction)
      else if c.author in tx.success + tx.failure then s' == s && r == Ok(())
      else if ListsFull(tx, c.succeeded, c.hashValid) then s' == s && r == Err(ExceedsCorroborationLimit)
      else
        && Counts(cfg, s, c) && Side(tx, c) <= Elements(cfg.validators) - {tx.sender}
        && Side(tx, c) !! Elements(if c.succeeded then tx.failure else tx.success)
        && Decides(cfg, s, c, now, s', r)
  }

  /**
   Every corroboration in every state a run can reach. Only a current validator other than
   the sender is heard, about the current attempt of the active transaction; and one that
   is heard for the first time, with room on its lists, does what its side decides: short
   of a quorum it is recorded; a quorum of failures with a quorum of disputed hashes replays
   the request; any other quorum settles it the way that side says, reports nobody of that
   side, and hands the slot to the next request.
   */
  lemma DecisionsAreBacked(cfg: Config, s: State, c: Call, now: nat)
    requires ValidConfig(cfg) && Sound(cfg, s) && c.CallCorroborate?
    ensures var (s', r) := Corroborate(cfg, s, c, now); Answered(cfg, s, c, now, s', r)
  {
    if s.active.Some? && s.active.value.tx.Some? {
      var tx := s.active.value.tx.value;
      assert forall v :: v in tx.success + tx.failure <==> v in tx.success || v in tx.failure;
      if && Counts(cfg, s, c) && IsActive(s, c.id) && c.attempt == tx.replayAttempt
         && !ListsFull(tx, c.succeeded, c.hashValid) {
        SideCounts(cfg, s, c);
        CountedCorroboration(cfg, s, c, now);
      }
    }
  }

  // ---------------------------------------------------------------- everyone answers

  /** Corroborations of the active transaction's current attempt, none by its sender. */
  ghost predicate Answers(cfg: Config, s: State, votes: seq<Timed>) {
    && s.active.Some? && s.active.value.request.Send? && s.active.value.tx.Some?
    && var send, tx := s.active.value.request.send, s.active.value.tx.value;
       forall t :: t in votes ==>
         && t.call.CallCorroborate? && t.call.id == send.txId && t.call.attempt == tx.replayAttempt
         && t.call.author in cfg.validators && t.call.author != tx.sender
  }

  /** Everyone still to be heard is among the callers. */
  ghost predicate Covers(cfg: Config, s: State, votes: seq<Timed>)
    requires Answers(cfg, s, votes)
  {
    var tx := s.active.value.tx.value;
    forall v :: v in cfg.validators && v != tx.sender && RequiresCorroboration(tx, v) ==>
      exists i :: 0 <= i < |votes| && votes[i].call.author == v
  }

  /** The same attempt of the same request, with at most more corroborations. */
  ghost predicate SameAttempt(s: State, s': State)
    requires s.active.Some? && s.active.value.tx.Some?
  {
    && s'.active.Some? && s'.active.value.tx.Some?
    && var a, a' := s.active.value, s'.active.value;
       && s' == s.(active := Some(a.(tx := a'.tx)))
       && a'.tx.value == a.tx.value.(success := a'.tx.value.success, failure := a'.tx.value.failure,
                                     validHash := a'.tx.value.validHash, invalidHash := a'.tx.value.invalidHash)
  }

  /** The call completes a quorum, and does what a quorum decides. */
  ghost predicate Decisive(cfg: Config, s: State, t: Timed) {
    && Counts(cfg, s, t.call) && |Side(s.active.value.tx.value, t.call)| >= CorroborationQuorum(cfg)
    && var (s', r) := Corroborate(cfg, s, t.call, t.now); Decides(cfg, s, t.call, t.now, s', r)
  }

  /** One answer: the deciding one, or one that leaves the same attempt and the others still to come. */
  lemma NextAnswer(cfg: Config, s: State, votes: seq<Timed>)
    requires ValidConfig(cfg) && Sound(cfg, s) && |cfg.validators| <= 151
    requires votes != [] && Answers(cfg, s, votes) && Covers(cfg, s, votes)
    ensures var t, s' := votes[0], Step(cfg, s, votes[0]);
            || Decisive(cfg, s, t)
            || (SameAttempt(s, s') && Answers(cfg, s', votes[1..]) && Covers(cfg, s', votes[1..]))
  {
    var t, tx := votes[0], s.active.value.tx.value;
    assert t in votes;
    if RequiresCorroboration(tx, t.call.author) {
      ListsStaySmall(cfg, tx);
      CountedAnswer(cfg, s, t);
    }
    if !Decisive(cfg, s, t) {
      AnswersStay(cfg, s, Step(cfg, s, t), votes);
    }
  }

  lemma CountedAnswer(cfg: Config, s: State, t: Timed)
    requires ValidConfig(cfg) && Healthy(cfg, s) && NoTrap(cfg) && Counts(cfg, s, t.call)
    requires IsActive(s, t.call.id) && t.call.attempt == s.active.value.tx.value.replayAttempt
    requires !ListsFull(s.active.value.tx.value, t.call.succeeded, t.call.hashValid)
    ensures Decisive(cfg, s, t) || Recorded(s, Step(cfg, s, t), t.call)
  {
    CountedCorroboration(cfg, s, t.call, t.now);
    assert Step(cfg, s, t) == Corroborate(cfg, s, t.call, t.now).0;
  }

  lemma AnswersStay(cfg: Config, s: State, s': State, votes: seq<Timed>)
    requires votes != [] && Answers(cfg, s, votes) && Covers(cfg, s, votes)
    requires (s' == s && !RequiresCorroboration(s.active.value.tx.value, votes[0].call.author))
          || Recorded(s, s', votes[0].call)
    ensures SameAttempt(s, s') && Answers(cfg, s', votes[1..]) && Covers(cfg, s', votes[1..])
  {
    var rest, tx, tx' := votes[1..], s.active.value.tx.value, s'.active.value.tx.value;
    forall v | v in cfg.validators && v != tx'.sender && RequiresCorroboration(tx', v)
      ensures exists i :: 0 <= i < |rest| && rest[i].call.author == v
    {
      assert RequiresCorroboration(tx, v);
      var i :| 0 <= i < |votes| && votes[i].call.author == v;
      assert i > 0;
      assert rest[i - 1] == votes[i];
    }
  }

  /** The first `k` calls leave the same attempt active and the next one is decisive. */
  ghost predicate DecidedAt(cfg: Config, s: State, votes: seq<Timed>, k: nat)
    requires s.active.Some? && s.active.value.tx.Some?
  {
    && k < |votes| && SameAttempt(s, Run(cfg, s, votes[..k])) && Decisive(cfg, Run(cfg, s, votes[..k]), votes[k])
  }

  lemma DecidedLater(cfg: Config, s: State, votes: seq<Timed>, m: nat)
    requires votes != [] && s.active.Some? && s.active.value.tx.Some?
    requires SameAttempt(s, Step(cfg, s, votes[0])) && DecidedAt(cfg, Step(cfg, s, votes[0]), votes[1..], m)
    ensures DecidedAt(cfg, s, votes, m + 1)
  {
    assert votes[..m + 1][1..] == votes[1..][..m];
    RunFirst(cfg, s, votes[..m + 1]);
  }

  /**
   Once everyone has answered it is decided: with 2 to 151 validators, among any
   corroborations that between them cover the non-senders still to be heard there is one
   that settles the transaction, or replays it, or is stopped by its caller's pallet or by a
   replay that cannot be set up.
   */
  lemma {:induction false} EveryoneAnswersDecides(cfg: Config, s: State, votes: seq<Timed>) returns (k: nat)
    requires ValidConfig(cfg) && Sound(cfg, s) && 2 <= |cfg.validators| <= 151
    requires Answers(cfg, s, votes) && Covers(cfg, s, votes)
    ensures DecidedAt(cfg, s, votes, k)
    decreases |votes|
  {
    if votes == [] {
      var author := SomeoneHasNotCorroborated(cfg, s);
      assert false;
    }
    NextAnswer(cfg, s, votes);
    k := 0;
    if Decisive(cfg, s, votes[0]) {
      assert votes[..0] == [];
    } else {
      StepSound(cfg, s, votes[0]);
      var m := EveryoneAnswersDecides(cfg, Step(cfg, s, votes[0]), votes[1..]);
      k := m + 1;
      DecidedLater(cfg, s, votes, m);
    }
  }

  // ---------------------------------------------------------------- a quorum that agrees

  /** Corroborations by distinct authors not heard before, who all say the same and accept the hash. */
  ghost predicate Agree(cfg: Config, s: State, votes: seq<Timed>, succeeded: bool) {
    && Answers(cfg, s, votes)
    && (forall i, j :: 0 <= i < j < |votes| ==> votes[i].call.author != votes[j].call.author)
    && (forall i :: 0 <= i < |votes| ==>
          && votes[i].call.succeeded == succeeded && votes[i].call.hashValid && votes[i].call.callbackOk
          && RequiresCorroboration(s.active.value.tx.value, votes[i].call.author))
  }

  ghost function Support(s: State, succeeded: bool): nat
    requires s.active.Some? && s.active.value.tx.Some?
  {
    |(if succeeded then s.active.value.tx.value.success else s.active.value.tx.value.failure)|
  }

  lemma FirstAgrees(cfg: Config, s: State, votes: seq<Timed>, succeeded: bool)
    requires ValidConfig(cfg) && Healthy(cfg, s) && |cfg.validators| <= 151
    requires votes != [] && Agree(cfg, s, votes, succeeded)
    ensures var c, tx := votes[0].call, s.active.value.tx.value;
            && Counts(cfg, s, c) && IsActive(s, c.id) && c.attempt == tx.replayAttempt
            && !ListsFull(tx, c.succeeded, c.hashValid) && |Side(tx, c)| == Support(s, succeeded) + 1
  {
    assert votes[0] in votes;
    ListsStaySmall(cfg, s.active.value.tx.value);
    SideCounts(cfg, s, votes[0].call);
  }

  lemma OneMoreAgrees(cfg: Config, s: State, votes: seq<Timed>, succeeded: bool)
    requires ValidConfig(cfg) && Healthy(cfg, s) && NoTrap(cfg) && |cfg.validators| <= 151
    requires votes != [] && Agree(cfg, s, votes, succeeded)
    ensures Counts(cfg, s, votes[0].call)
    ensures if Support(s, succeeded) + 1 < CorroborationQuorum(cfg) then
              Recorded(s, Step(cfg, s, votes[0]), votes[0].call)
            else Decisive(cfg, s, votes[0])
  {
    FirstAgrees(cfg, s, votes, succeeded);
    CountedCorroboration(cfg, s, votes[0].call, votes[0].now);
    assert Step(cfg, s, votes[0]) == Corroborate(cfg, s, votes[0].call, votes[0].now).0;
  }

  lemma StillAgree(cfg: Config, s: State, s': State, votes: seq<Timed>, succeeded: bool)
    requires votes != [] && Agree(cfg, s, votes, succeeded) && Recorded(s, s', votes[0].call)
    ensures Agree(cfg, s', votes[1..], succeeded) && Support(s', succeeded) == Support(s, succeeded) + 1
  {
    var rest := votes[1..];
    assert forall i :: 0 <= i < |rest| ==> rest[i] == votes[i + 1];
    assert forall t :: t in rest ==> t in votes;
  }

  /** The transaction was settled, in a way that keeps the hash its sender gave unless a quorum disputes it. */
  ghost predicate Ended(s: State, s': State, succeeded: bool)
    requires s.active.Some? && s.active.value.tx.Some? && s.active.value.request.Send?
  {
    var tx := s.active.value.tx.value;
    var id := s.active.value.request.send.txId;
    && s.notices + [Notice(s.active.value.request, if succeeded then Succeeded else Failed)] <= s'.notices
    && s'.settled == s.settled[id := Settled(tx.sender, tx.ethTxHash, succeeded)]
  }

  lemma DecidesEnds(cfg: Config, s: State, c: Call, now: nat, s': State, r: Result<(), Error>)
    requires Healthy(cfg, s) && Counts(cfg, s, c) && Decides(cfg, s, c, now, s', r) && c.callbackOk
    requires |Side(s.active.value.tx.value, c)| >= CorroborationQuorum(cfg)
    requires |Disputes(s.active.value.tx.value, c)| < CorroborationQuorum(cfg)
    ensures Ended(s, s', c.succeeded)
  {
  }

  lemma DecisiveEnds(cfg: Config, s: State, t: Timed)
    requires Healthy(cfg, s) && Decisive(cfg, s, t) && t.call.callbackOk
    requires |Disputes(s.active.value.tx.value, t.call)| < CorroborationQuorum(cfg)
    ensures Ended(s, Step(cfg, s, t), t.call.succeeded)
  {
    var answer := Corroborate(cfg, s, t.call, t.now);
    assert Step(cfg, s, t) == answer.0;
    DecidesEnds(cfg, s, t.call, t.now, answer.0, answer.1);
  }

  /**
   With up to 151 validators, corroborations that complete a quorum for one outcome settle
   the transaction that way, whatever was said before, as long as no quorum disputes the hash.
   */
  lemma {:induction false} QuorumSettles(cfg: Config, s: State, votes: seq<Timed>, succeeded: bool)
    requires ValidConfig(cfg) && Sound(cfg, s) && |cfg.validators| <= 151
    requires votes != [] && Agree(cfg, s, votes, succeeded)
    requires |s.active.value.tx.value.invalidHash| < CorroborationQuorum(cfg)
    requires Support(s, succeeded) + |votes| == CorroborationQuorum(cfg)
    ensures Ended(s, Run(cfg, s, votes), succeeded)
    decreases |votes|
  {
    OneMoreAgrees(cfg, s, votes, succeeded);
    RunFirst(cfg, s, votes);
    if |votes| > 1 {
      StillAgree(cfg, s, Step(cfg, s, votes[0]), votes, succeeded);
      StepSound(cfg, s, votes[0]);
      QuorumSettles(cfg, Step(cfg, s, votes[0]), votes[1..], succeeded);
    } else {
      assert votes[1..] == [];
      DisputeCounts(cfg, s, votes[0].call);
      DecisiveEnds(cfg, s, votes[0]);
    }
  }

  // ---------------------------------------------------------------- confirmations

  /**
   Every confirmation in every state a run can reach: turned away as the first three cases
   say; else appended, which for a lower proof may complete the supermajority and finish it.
   */
  lemma ConfirmationOutcome(cfg: Config, s: State, id: nat, c: EcdsaSignature, author: Account, now: nat)
    requires ValidConfig(cfg) && Inv(cfg, s)
    ensures var (s', r) := AddConfirmation(cfg, s, id, c, author, now);
            if author !in cfg.validators then s' == s && r == Err(NotAnAuthor)
            else if !IsActive(s, id) || HasEnoughConfirmations(cfg, s.active.value) then s' == s && r == Ok(())
            else
              var a := s.active.value;
              var n := |a.confirmations| + 1;
              if a.request.Send? && a.tx.value.sender == author then s' == s && r == Ok(())
              else if !cfg.signatureOk(a.msgHash, author, c) then s' == s && r == Err(InvalidECDSASignature)
              else if c in a.confirmations then s' == s && r == Err(DuplicateConfirmation)
              else if n > CONFIRMATIONS_LIMIT then s' == s && r == Err(ExceedsConfirmationLimit)
              else
                && r == Ok(())
                && if a.request.LowerProof? && n == RequiredForSupermajority(|cfg.validators|) then
                     TookNext(cfg, s, s', Proof(a.confirmations + [c]), now)
                   else s' == s.(active := Some(a.(confirmations := a.confirmations + [c])))
  {
    if s.active.Some? && s.active.value.request.LowerProof? {
      var a := s.active.value;
      if |a.confirmations| + 1 == RequiredForSupermajority(|cfg.validators|) <= CONFIRMATIONS_LIMIT {
        QuorumIsAThird(|cfg.validators|);
        SmallMod(|cfg.validators|, 256);
        var proof := Proof(a.confirmations + [c]);
        FinishOutcome(cfg, s, s.(notices := s.notices + [Notice(a.request, proof)]), proof, now);
      }
    }
  }

  /** Valid confirmations of the active transaction by non-senders, none of them held yet. */
  ghost predicate NewConfirmations(cfg: Config, s: State, votes: seq<(Account, EcdsaSignature)>) {
    && s.active.Some? && s.active.value.request.Send? && s.active.value.tx.Some?
    && var a := s.active.value;
       && GoodConfirmations(cfg, a.msgHash, votes)
       && forall i :: 0 <= i < |votes| ==> votes[i].0 != a.tx.value.sender && votes[i].1 !in a.confirmations
  }

  lemma OneMoreSendConfirmation(cfg: Config, s: State, kept: seq<EcdsaSignature>, author: Account, c: EcdsaSignature,
                                now: nat)
    requires s.active.Some? && s.active.value.request.Send? && s.active.value.tx.Some?
    requires author in cfg.validators && author != s.active.value.tx.value.sender
    requires cfg.signatureOk(s.active.value.msgHash, author, c) && c !in kept
    requires |kept| + 1 < RequiredFor(|cfg.validators|) && |kept| < CONFIRMATIONS_LIMIT
    ensures Step(cfg, s.(active := Some(s.active.value.(confirmations := kept))),
                 Timed(CallConfirm(s.active.value.request.send.txId, c, author), now))
         == s.(active := Some(s.active.value.(confirmations := kept + [c])))
  {
  }

  /** Until the quorum, less the sender, is reached every new confirmation is kept and nothing else changes. */
  lemma {:induction false} SendConfirmationsGather(cfg: Config, s: State, votes: seq<(Account, EcdsaSignature)>,
                                                   now: nat)
    requires NewConfirmations(cfg, s, votes)
    requires |s.active.value.confirmations| + |votes| < RequiredFor(|cfg.validators|)
    requires |s.active.value.confirmations| + |votes| <= CONFIRMATIONS_LIMIT
    ensures Run(cfg, s, Confirmations(s.active.value.request.send.txId, votes, now))
         == s.(active := Some(s.active.value.(confirmations := s.active.value.confirmations + SignaturesOf(votes))))
    decreases |votes|
  {
    var a, id := s.active.value, s.active.value.request.send.txId;
    if votes == [] {
      assert a.confirmations + SignaturesOf(votes) == a.confirmations;
    } else {
      var init, last := votes[..|votes| - 1], votes[|votes| - 1];
      DropLastVote(cfg, a.msgHash, id, votes, now);
      SendConfirmationsGather(cfg, s, init, now);
      LastIsNew(SignaturesOf(init), last.1);
      assert last.1 !in a.confirmations + SignaturesOf(init);
      OneMoreSendConfirmation(cfg, s, a.confirmations + SignaturesOf(init), last.0, last.1, now);
      assert a.confirmations + SignaturesOf(init) + [last.1] == a.confirmations + SignaturesOf(votes);
    }
  }

  /** One less than the quorum is then enough to send, the sender being the missing one. */
  lemma SendBecomesConfirmed(cfg: Config, s: State, votes: seq<(Account, EcdsaSignature)>, now: nat)
    requires NewConfirmations(cfg, s, votes)
    requires |s.active.value.confirmations| + |votes| + 1 == RequiredFor(|cfg.validators|) <= CONFIRMATIONS_LIMIT + 1
    ensures var s' := Run(cfg, s, Confirmations(s.active.value.request.send.txId, votes, now));
            && s'.active.Some? && HasEnoughConfirmations(cfg, s'.active.value)
            && s'.active.value.confirmations == s.active.value.confirmations + SignaturesOf(votes)
  {
    SendConfirmationsGather(cfg, s, votes, now);
  }

  /** With more than 303 validators the quorum does not fit the list, so no transaction ever has enough. */
  lemma SendNeverConfirmed(cfg: Config, s: State)
    requires Inv(cfg, s) && s.active.Some? && s.active.value.request.Send?
    ensures |cfg.validators| > 303 ==> !HasEnoughConfirmations(cfg, s.active.value)
    ensures |cfg.validators| <= 303 <==> RequiredFor(|cfg.validators|) <= CONFIRMATIONS_LIMIT + 1
  {
    QuorumIsAThird(|cfg.validators|);
  }

  // ---------------------------------------------------------------- the sender's hash

  /** The first hash is the sender's to give; every other caller is told why not. */
  lemma TxHashOutcome(cfg: Config, s: State, id: nat, hash: Hash, author: Account)
    requires Inv(cfg, s)
    ensures var (s', r) := AddEthTxHash(cfg, s, id, hash, author);
            if author !in cfg.validators then s' == s && r == Err(NotAnAuthor)
            else if !IsActive(s, id) || s.active.value.request.LowerProof? then s' == s && r == Ok(())
            else
              var a, tx := s.active.value, s.active.value.tx.value;
              if tx.ethTxHash != ZERO_HASH then s' == s && r == Err(EthTxHashAlreadySet)
              else if author != tx.sender then s' == s && r == Err(EthTxHashMustBeSetBySender)
              else r == Ok(()) && s' == s.(active := Some(a.(tx := Some(tx.(ethTxHash := hash)))))
  {
  }

  /** The call neither removes the active transaction, sets it up again nor completes a quorum. */
  ghost predicate Leaves(cfg: Config, s: State, t: Timed) {
    && !t.call.CallRemoveActive? && !t.call.CallSetInstance?
    && (Counts(cfg, s, t.call) ==> |Side(s.active.value.tx.value, t.call)| < CorroborationQuorum(cfg))
  }

  ghost predicate AllLeave(cfg: Config, s: State, calls: seq<Timed>) {
    forall i :: 0 <= i < |calls| ==> Leaves(cfg, Run(cfg, s, calls[..i]), calls[i])
  }

  /** The same request is active, with the same sender and the hash that sender gave. */
  ghost predicate HoldsHash(s: State, req: Request, sender: Account, hash: Hash) {
    && s.active.Some? && s.active.value.request == req && s.active.value.tx.Some?
    && s.active.value.tx.value.sender == sender && s.active.value.tx.value.ethTxHash == hash
  }

  lemma ShortOfQuorum(cfg: Config, s: State, c: Call, now: nat)
    requires c.CallCorroborate? && s.active.Some? && s.active.value.tx.Some? && s.active.value.request.Send?
    requires var voted := VotedTx(s, c);
             Counts(cfg, s, c) ==> |(if c.succeeded then voted.success else voted.failure)| < CorroborationQuorum(cfg)
    ensures var s' := Corroborate(cfg, s, c, now).0;
            s' == s || s' == s.(active := Some(s.active.value.(tx := Some(VotedTx(s, c)))))
  {
  }

  lemma CorroborationKeepsHash(cfg: Config, s: State, t: Timed, req: Request, sender: Account, hash: Hash)
    requires Healthy(cfg, s) && Leaves(cfg, s, t) && t.call.CallCorroborate?
    requires req.Send? && HoldsHash(s, req, sender, hash)
    ensures HoldsHash(Step(cfg, s, t), req, sender, hash)
  {
    if Counts(cfg, s, t.call) {
      SideCounts(cfg, s, t.call);
    }
    ShortOfQuorum(cfg, s, t.call, t.now);
  }

  lemma HashStays(cfg: Config, s: State, t: Timed, req: Request, sender: Account, hash: Hash)
    requires ValidConfig(cfg) && Healthy(cfg, s) && Leaves(cfg, s, t)
    requires req.Send? && hash != ZERO_HASH && HoldsHash(s, req, sender, hash)
    ensures HoldsHash(Step(cfg, s, t), req, sender, hash)
  {
    match t.call
    case CallCorroborate(_, _, _, _, _, _) =>
      CorroborationKeepsHash(cfg, s, t, req, sender, hash);
    case _ =>
  }

  lemma {:induction false} HashStaysOverRuns(cfg: Config, s: State, calls: seq<Timed>, req: Request, sender: Account,
                                             hash: Hash)
    requires ValidConfig(cfg) && Sound(cfg, s) && AllLeave(cfg, s, calls)
    requires req.Send? && hash != ZERO_HASH && HoldsHash(s, req, sender, hash)
    ensures HoldsHash(Run(cfg, s, calls), req, sender, hash)
    decreases |calls|
  {
    if calls != [] {
      var init, last := calls[..|calls| - 1], calls[|calls| - 1];
      assert forall i :: 0 <= i < |init| ==> init[i] == calls[i] && init[..i] == calls[..i];
      HashStaysOverRuns(cfg, s, init, req, sender, hash);
      RunSound(cfg, s, init);
      assert Leaves(cfg, Run(cfg, s, calls[..|calls| - 1]), calls[|calls| - 1]);
      HashStays(cfg, Run(cfg, s, init), last, req, sender, hash);
    }
  }

  /** The call settles the active transaction, and no quorum disputes the hash. */
  ghost predicate Settling(cfg: Config, s: State, t: Timed) {
    && Counts(cfg, s, t.call) && IsActive(s, t.call.id) && t.call.callbackOk
    && var tx, q := s.active.value.tx.value, CorroborationQuorum(cfg);
       && t.call.attempt == tx.replayAttempt && !ListsFull(tx, t.call.succeeded, t.call.hashValid)
       && |Side(tx, t.call)| >= q && |Disputes(tx, t.call)| < q
  }

  lemma SettlingFilesHash(cfg: Config, s: State, t: Timed)
    requires ValidConfig(cfg) && Sound(cfg, s) && Settling(cfg, s, t)
    ensures var id, tx := s.active.value.request.send.txId, s.active.value.tx.value;
            Step(cfg, s, t).settled == s.settled[id := Settled(tx.sender, tx.ethTxHash, t.call.succeeded)]
  {
    CountedCorroboration(cfg, s, t.call, t.now);
    DecisiveEnds(cfg, s, t);
  }

  /**
   The hash the sender gives is the one put on file: over any run that leaves the
   transaction active and ends with the corroboration that settles it. The zero hash
   stands for none given.
   */
  lemma SendersHashIsFiled(cfg: Config, s: State, hash: Hash, calls: seq<Timed>, t: Timed, now: nat)
    requires ValidConfig(cfg) && Sound(cfg, s) && hash != ZERO_HASH
    requires s.active.Some? && s.active.value.request.Send? && s.active.value.tx.value.ethTxHash == ZERO_HASH
    requires var tx, id := s.active.value.tx.value, s.active.value.request.send.txId;
             var given := Step(cfg, s, Timed(CallTxHash(id, hash, tx.sender), now));
             AllLeave(cfg, given, calls) && Settling(cfg, Run(cfg, given, calls), t)
    ensures var tx, id := s.active.value.tx.value, s.active.value.request.send.txId;
            var given := Step(cfg, s, Timed(CallTxHash(id, hash, tx.sender), now));
            var s' := Step(cfg, Run(cfg, given, calls), t);
            id in s'.settled && s'.settled[id] == Settled(tx.sender, hash, t.call.succeeded)
  {
    var tx, id := s.active.value.tx.value, s.active.value.request.send.txId;
    var giving := Timed(CallTxHash(id, hash, tx.sender), now);
    var given := Step(cfg, s, giving);
    assert HoldsHash(given, s.active.value.request, tx.sender, hash);
    StepSound(cfg, s, giving);
    HashStaysOverRuns(cfg, given, calls, s.active.value.request, tx.sender, hash);
    RunSound(cfg, given, calls);
    SettlingFilesHash(cfg, Run(cfg, given, calls), t);
  }

  // ---------------------------------------------------------------- taking requests on and removing them

  /** A request was taken on: it has the free slot, or the last place in the queue. */
  ghost predicate TakenOn(s: State, s': State, req: Request) {
    && s'.accepted == s.accepted + [req] && s'.notices == s.notices && s'.settled == s.settled
    && if s.active.None? then s'.active.Some? && s'.active.value.request == req && s'.queue == s.queue
       else s'.active == s.active && s'.queue == s.queue + [req]
  }

  /** It can be: the free slot takes what can be set up, the queue what it has room for. */
  ghost predicate CanTakeOn(cfg: Config, s: State, req: Request, now: nat) {
    if s.active.None? then CanSetUp(cfg, s, req, now) else |s.queue| < cfg.maxQueued
  }

  lemma AcceptOutcome(cfg: Config, s: State, req: Request, now: nat)
    ensures var r := Accept(cfg, s, req, now);
            && (r.Ok? <==> CanTakeOn(cfg, s, req, now))
            && (r.Ok? ==> TakenOn(s, r.value, req) && r.value.nextTxId == s.nextTxId)
  {
    SetUpEither(cfg, s.(accepted := s.accepted + [req]), req, now);
  }

  /** A published request is taken on under the next id, which is what the caller is given; or nothing changes. */
  lemma PublishOutcome(cfg: Config, s: State, name: string, params: seq<Param>, callerId: string, now: nat)
    ensures var (s', r) := Publish(cfg, s, name, params, callerId, now);
            var req := Send(SendRequest(s.nextTxId, name, params, callerId));
            && (r.Ok? <==>
                  && cfg.isUtf8(name) && 0 < |name| <= FUNCTION_LIMIT && |callerId| <= CALLER_ID_LIMIT
                  && |params| <= PARAMS_LIMIT
                  && (forall p :: p in params ==> |p.kind| <= TYPE_LIMIT && |p.value| <= VALUE_LIMIT)
                  && CanTakeOn(cfg, s, req, now))
            && (r.Ok? ==>
                  && r.value == s.nextTxId && TakenOn(s, s', req)
                  && s'.nextTxId == (s.nextTxId + 1) % U32_RANGE)
            && (r.Err? ==> s' == s)
  {
    AcceptOutcome(cfg, s.(nextTxId := (s.nextTxId + 1) % U32_RANGE),
                  Send(SendRequest(s.nextTxId, name, params, callerId)), now);
  }

  lemma LowerProofOutcome(cfg: Config, s: State, lowerId: nat, params: string, callerId: string, now: nat)
    ensures var (s', r) := GenerateLowerProof(cfg, s, lowerId, params, callerId, now);
            var req := LowerProof(LowerRequest(lowerId, params, callerId));
            && (r.Ok? <==> |callerId| <= CALLER_ID_LIMIT && CanTakeOn(cfg, s, req, now))
            && (r.Ok? ==> TakenOn(s, s', req) && s'.nextTxId == s.nextTxId)
            && (r.Err? ==> s' == s)
  {
    AcceptOutcome(cfg, s, LowerProof(LowerRequest(lowerId, params, callerId)), now);
  }

  /** Removing the active request fails it and moves on; there must be one, and a sender for the next. */
  lemma RemovalOutcome(cfg: Config, s: State, now: nat)
    requires NoTrap(cfg)
    ensures var (s', r) := RemoveActiveRequest(cfg, s, now);
            if s.active.None? then s' == s && r == Err(NoActiveRequest)
            else r == Ok(()) && TookNext(cfg, s, s', Failed, now)
  {
    if s.active.Some? {
      FinishOutcome(cfg, s, s.(notices := s.notices + [Notice(s.active.value.request, Failed)]), Failed, now);
    }
  }

  /** A new instance sets the active transaction up afresh, or is refused; any other request is left as it was. */
  lemma InstanceOutcome(cfg: Config, s: State, instance: Instance, now: nat)
    ensures var (s', r) := SetInstance(cfg, s, instance, now);
            var moved := s.(instance := instance);
            if s.active.Some? && s.active.value.request.Send? then
              var send := s.active.value.request.send;
              if CanSend(cfg, moved, send, now) then
                && r == Ok(()) && s' == moved.(active := s'.active, senderIndex := s'.senderIndex)
                && s'.active.Some? && FreshTx(moved, s'.active.value, send, 0, now)
              else s' == s && r.Err?
            else s' == moved && r == Ok(())
  {
    if s.active.Some? && s.active.value.request.Send? {
      SetUpOutcome(cfg, s.(instance := instance), s.active.value.request.send, None, now);
    }
  }
}
