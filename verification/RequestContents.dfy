/** What the active request holds over every run, how a request is set up, and which one is next. */
module RequestContents {
  import opened Prelude
  import opened Requests

  // ---------------------------------------------------------------- numbers as parameters

  /** The number a string of decimal digits denotes. */
  ghost function Numeral(digits: string): int {
    if digits == "" then 0
    else 10 * Numeral(digits[..|digits| - 1]) + (digits[|digits| - 1] as int - '0' as int)
  }

  /** Writing a number out and reading it back. */
  lemma {:induction false} NumeralOfDecimal(n: nat)
    ensures Decimal(n) != "" && Numeral(Decimal(n)) == n
    decreases n
  {
    if n < 10 {
      assert Decimal(n)[..0] == "";
    } else {
      NumeralOfDecimal(n / 10);
      var front, last := Decimal(n / 10), Decimal(n % 10);
      assert |last| == 1;
      assert (front + last)[..|front + last| - 1] == front;
    }
  }

  // ---------------------------------------------------------------- contents of the active request

  /** The parameters sent are the request's, then its expiry as a 256-bit and its id as a 32-bit number. */
  ghost predicate ParamsOk(send: SendRequest, params: seq<Param>, expiry: nat) {
    var n := |send.params|;
    && |params| == n + 2 && params[..n] == send.params
    && params[n].kind == "uint256" && Numeral(params[n].value) == expiry
    && params[n + 1].kind == "uint32" && Numeral(params[n + 1].value) == send.txId
  }

  /** A confirmation is some validator's signature of the hash. */
  ghost predicate Signed(cfg: Config, hash: Hash, c: EcdsaSignature) {
    exists v :: v in cfg.validators && cfg.signatureOk(hash, v, c)
  }

  ghost predicate SignaturesOk(cfg: Config, a: ActiveRequest) {
    Distinct(a.confirmations) && forall c :: c in a.confirmations ==> Signed(cfg, a.msgHash, c)
  }

  /** What is hashed and signed is the call to be sent, for the current instance, by the validator whose turn it is. */
  ghost predicate SendOk(cfg: Config, s: State, a: ActiveRequest) {
    a.request.Send? && a.tx.Some? ==>
      var tx := a.tx.value;
      && ParamsOk(a.request.send, tx.params, tx.expiry)
      && cfg.functionHash(a.request.send.functionName, tx.params, s.instance) == Some(a.msgHash)
      && |cfg.validators| % 256 != 0
      && s.senderIndex < |cfg.validators| && tx.sender == cfg.validators[s.senderIndex]
  }

  ghost predicate LowerOk(cfg: Config, a: ActiveRequest) {
    a.request.LowerProof? ==> exists instance :: cfg.lowerHash(a.request.lower.params, instance) == Some(a.msgHash)
  }

  ghost predicate Contents(cfg: Config, s: State) {
    s.active.Some? ==>
      && SignaturesOk(cfg, s.active.value) && SendOk(cfg, s, s.active.value) && LowerOk(cfg, s.active.value)
  }

  // ---------------------------------------------------------------- setting up

  /** The turn after `index`: the next validator, or the first again. */
  function Turn(count: nat, index: nat): nat
    requires count > 0
  {
    if index + 1 >= count then 0 else index + 1
  }

  lemma WrapMod(n: nat, k: nat)
    requires 0 < n && k <= n
    ensures k % n == if k == n then 0 else k
  {
    if k < n {
      SmallMod(k, n);
    } else {
      assert n == n * 1 + 0;
    }
  }

  /** Short of 256 validators the rotation goes round all of them, one after the other. */
  lemma RotationGoesRound(validators: seq<Account>, index: nat)
    requires 0 < |validators| < 256 && index < |validators|
    ensures NextSender(validators, index) == Next(validators[Turn(|validators|, index)], Turn(|validators|, index))
  {
    var n := |validators|;
    assert n % 256 == n by { SmallMod(n, 256); }
    WrapMod(n, index + 1);
    assert SaturatingAdd(index, 1, 255) == index + 1;
  }

  /** The senders of `k` rotations in a row. */
  ghost function Turns(count: nat, index: nat, k: nat): (r: seq<nat>)
    requires count > 0 && index < count
    ensures |r| == k && forall i :: 0 <= i < k ==> r[i] < count
    decreases k
  {
    if k == 0 then [] else [Turn(count, index)] + Turns(count, Turn(count, index), k - 1)
  }

  lemma {:induction false} TurnsAt(count: nat, index: nat, k: nat, i: nat)
    requires index < count && i < k <= count
    ensures Turns(count, index, k)[i] == if index + 1 + i < count then index + 1 + i else index + 1 + i - count
    decreases k
  {
    if i > 0 {
      TurnsAt(count, Turn(count, index), k - 1, i - 1);
    }
  }

  /** So in any stretch of rotations as long as there are validators each is the sender once. */
  lemma EveryoneHasATurn(count: nat, index: nat)
    requires index < count
    ensures Distinct(Turns(count, index, count))
  {
    var turns := Turns(count, index, count);
    forall i, j | 0 <= i < j < count ensures turns[i] != turns[j] {
      TurnsAt(count, index, count, i);
      TurnsAt(count, index, count, j);
    }
  }

  /** A send request can be set up: its parameters fit, they hash, and there is a sender to choose. */
  ghost predicate CanSend(cfg: Config, s: State, send: SendRequest, now: nat) {
    var params := ExtendParams(send, now + s.lifetime);
    && BoundParams(params).None?
    && cfg.functionHash(send.functionName, params, s.instance).Some?
    && |cfg.validators| % 256 != 0
  }

  ghost predicate CanSetUp(cfg: Config, s: State, req: Request, now: nat) {
    match req
    case Send(send) => CanSend(cfg, s, send, now)
    case LowerProof(lower) => cfg.lowerHash(lower.params, s.instance).Some?
  }

  /** A fresh transaction for the request: nothing confirmed, nothing corroborated, expiring a lifetime from now. */
  ghost predicate FreshTx(s: State, a: ActiveRequest, send: SendRequest, attempt: nat, now: nat) {
    && a.request == Send(send) && a.confirmations == [] && a.tx.Some?
    && var tx := a.tx.value;
       && tx.expiry == now + s.lifetime && tx.ethTxHash == ZERO_HASH && tx.replayAttempt == attempt
       && tx.success == tx.failure == tx.validHash == tx.invalidHash == []
  }

  /** Setting up succeeds exactly when it can; the slot then holds a fresh transaction and nothing else has changed. */
  lemma SetUpOutcome(cfg: Config, s: State, send: SendRequest, replay: Option<nat>, now: nat)
    ensures var r := SetUpActiveTx(cfg, s, send, replay, now);
            && (r.Ok? <==> CanSend(cfg, s, send, now))
            && (r.Ok? ==>
                  && r.value.active.Some?
                  && FreshTx(s, r.value.active.value, send, if replay.Some? then replay.value else 0, now)
                  && Contents(cfg, r.value)
                  && r.value == s.(active := r.value.active, senderIndex := r.value.senderIndex))
  {
    NumeralOfDecimal(now + s.lifetime);
    NumeralOfDecimal(send.txId);
  }

  /** And the sender is the one after the last. */
  lemma SetUpTakesTurns(cfg: Config, s: State, send: SendRequest, replay: Option<nat>, now: nat)
    requires |cfg.validators| < 256 && s.senderIndex < |cfg.validators|
    ensures var r := SetUpActiveTx(cfg, s, send, replay, now);
            r.Ok? ==> r.value.senderIndex == Turn(|cfg.validators|, s.senderIndex)
  {
    RotationGoesRound(cfg.validators, s.senderIndex);
  }

  lemma LowerSetUpOutcome(cfg: Config, s: State, lower: LowerRequest)
    ensures var r := SetUpActiveLowerProof(cfg, s, lower);
            && (r.Ok? <==> cfg.lowerHash(lower.params, s.instance).Some?)
            && (r.Ok? ==>
                  && r.value.active.Some? && r.value.active.value.request == LowerProof(lower)
                  && r.value.active.value.confirmations == [] && r.value.active.value.tx.None?
                  && Contents(cfg, r.value) && r.value == s.(active := r.value.active))
  {
  }

  lemma SetUpEither(cfg: Config, s: State, req: Request, now: nat)
    ensures var r := SetUp(cfg, s, req, now);
            && (r.Ok? <==> CanSetUp(cfg, s, req, now))
            && (r.Ok? ==>
                  && r.value.active.Some? && r.value.active.value.request == req && Contents(cfg, r.value)
                  && r.value == s.(active := r.value.active, senderIndex := r.value.senderIndex))
  {
    match req
    case Send(send) => SetUpOutcome(cfg, s, send, None, now);
    case LowerProof(lower) => LowerSetUpOutcome(cfg, s, lower);
  }

  // ---------------------------------------------------------------- moving on

  /** A sender can always be chosen, or there is nobody to choose. */
  predicate NoTrap(cfg: Config) {
    |cfg.validators| == 0 || |cfg.validators| % 256 != 0
  }

  ghost function Failures(reqs: seq<Request>): (r: seq<Notice>)
    ensures |r| == |reqs| && forall i :: 0 <= i < |r| ==> r[i] == Notice(reqs[i], Failed)
  {
    seq(|reqs|, i requires 0 <= i < |reqs| => Notice(reqs[i], Failed))
  }

  /** The first `k` queued requests failed and the next one, if there is one, took the slot. */
  ghost predicate MovedTo(cfg: Config, s: State, s': State, k: nat, now: nat) {
    && k <= |s.queue|
    && (forall i :: 0 <= i < k ==> !CanSetUp(cfg, s, s.queue[i], now))
    && s'.notices == s.notices + Failures(s.queue[..k])
    && if k == |s.queue| then s'.active.None? && s'.queue == []
       else
         && CanSetUp(cfg, s, s.queue[k], now) && s'.queue == s.queue[k + 1..]
         && s'.active.Some? && s'.active.value.request == s.queue[k]
  }

  lemma MovedNowhere(cfg: Config, s: State, now: nat)
    requires s.queue == []
    ensures MovedTo(cfg, s, s.(active := None), 0, now)
  {
    assert s.notices + Failures([]) == s.notices;
  }

  lemma MovedToFirst(cfg: Config, s: State, s': State, now: nat)
    requires s.queue != [] && CanSetUp(cfg, s, s.queue[0], now)
    requires s'.notices == s.notices && s'.queue == s.queue[1..]
    requires s'.active.Some? && s'.active.value.request == s.queue[0]
    ensures MovedTo(cfg, s, s', 0, now)
  {
    assert s.notices + Failures(s.queue[..0]) == s.notices;
  }

  lemma FailuresOfMore(notices: seq<Notice>, queue: seq<Request>, m: nat)
    requires m < |queue|
    ensures notices + [Notice(queue[0], Failed)] + Failures(queue[1..][..m]) == notices + Failures(queue[..m + 1])
  {
  }

  /** What can be set up does not depend on what else is going on. */
  lemma SameCanSetUp(cfg: Config, s: State, s': State, req: Request, now: nat)
    requires s.lifetime == s'.lifetime && s.instance == s'.instance
    ensures CanSetUp(cfg, s, req, now) <==> CanSetUp(cfg, s', req, now)
  {
  }

  lemma MovedOneMore(cfg: Config, s: State, failed: State, s': State, m: nat, now: nat)
    requires s.queue != [] && !CanSetUp(cfg, s, s.queue[0], now)
    requires failed.lifetime == s.lifetime && failed.instance == s.instance
    requires failed.queue == s.queue[1..] && failed.notices == s.notices + [Notice(s.queue[0], Failed)]
    requires MovedTo(cfg, failed, s', m, now)
    ensures MovedTo(cfg, s, s', m + 1, now)
  {
    FailuresOfMore(s.notices, s.queue, m);
    forall i | 0 < i <= |failed.queue| ensures s.queue[i] == failed.queue[i - 1]
      ensures CanSetUp(cfg, s, s.queue[i], now) <==> CanSetUp(cfg, failed, failed.queue[i - 1], now)
    {
      SameCanSetUp(cfg, s, failed, s.queue[i], now);
    }
  }

  /** Moving on takes the first request that can be set up, fails exactly those before it and leaves those after it. */
  lemma {:induction false} NextIsFirstThatCan(cfg: Config, s: State, now: nat) returns (k: nat)
    requires NoTrap(cfg)
    ensures ProcessNext(cfg, s, now).Ok? && MovedTo(cfg, s, ProcessNext(cfg, s, now).value, k, now)
    decreases |s.queue|
  {
    k := 0;
    if s.queue == [] {
      MovedNowhere(cfg, s, now);
    } else {
      var req, rest := s.queue[0], s.(active := None, queue := s.queue[1..]);
      SetUpEither(cfg, rest, req, now);
      SameCanSetUp(cfg, s, rest, req, now);
      if CanSetUp(cfg, s, req, now) {
        MovedToFirst(cfg, s, SetUp(cfg, rest, req, now).value, now);
      } else {
        var failed := rest.(notices := rest.notices + [Notice(req, Failed)]);
        SetUpNeverTraps(cfg, rest, req, now);
        var m := NextIsFirstThatCan(cfg, failed, now);
        k := m + 1;
        MovedOneMore(cfg, s, failed, ProcessNext(cfg, failed, now).value, m, now);
      }
    }
  }

  lemma SetUpNeverTraps(cfg: Config, s: State, req: Request, now: nat)
    requires NoTrap(cfg)
    ensures SetUp(cfg, s, req, now) != Err(Trapped)
  {
  }

  /** What a call that finishes the active request leaves. */
  lemma MoveOnOutcome(cfg: Config, s: State, done: State, now: nat) returns (k: nat)
    requires NoTrap(cfg)
    ensures var (s', r) := MoveOn(cfg, s, done, now);
            r == Ok(()) && MovedTo(cfg, done, s', k, now) && Contents(cfg, s')
  {
    k := NextIsFirstThatCan(cfg, done, now);
    ProcessNextContents(cfg, done, now);
  }

  // ---------------------------------------------------------------- contents over every run

  lemma {:induction false} ProcessNextContents(cfg: Config, s: State, now: nat)
    ensures ProcessNext(cfg, s, now).Ok? ==> Contents(cfg, ProcessNext(cfg, s, now).value)
    decreases |s.queue|
  {
    if s.queue != [] {
      var req, rest := s.queue[0], s.(active := None, queue := s.queue[1..]);
      SetUpEither(cfg, rest, req, now);
      if SetUp(cfg, rest, req, now).Err? {
        ProcessNextContents(cfg, rest.(notices := rest.notices + [Notice(req, Failed)]), now);
      }
    }
  }

  lemma MoveOnContents(cfg: Config, s: State, done: State, now: nat)
    requires Contents(cfg, s)
    ensures Contents(cfg, MoveOn(cfg, s, done, now).0)
  {
    ProcessNextContents(cfg, done, now);
  }

  lemma AcceptContents(cfg: Config, s: State, req: Request, now: nat)
    requires Contents(cfg, s)
    ensures Accept(cfg, s, req, now).Ok? ==> Contents(cfg, Accept(cfg, s, req, now).value)
  {
    SetUpEither(cfg, s.(accepted := s.accepted + [req]), req, now);
  }

  lemma OneMoreSigned(cfg: Config, a: ActiveRequest, author: Account, c: EcdsaSignature)
    requires SignaturesOk(cfg, a) && author in cfg.validators && cfg.signatureOk(a.msgHash, author, c)
    requires c !in a.confirmations
    ensures SignaturesOk(cfg, a.(confirmations := a.confirmations + [c]))
  {
    DistinctAppend(a.confirmations, c);
    assert Signed(cfg, a.msgHash, c);
  }

  lemma ConfirmContents(cfg: Config, s: State, id: nat, c: EcdsaSignature, author: Account, now: nat)
    requires Contents(cfg, s)
    ensures Contents(cfg, AddConfirmation(cfg, s, id, c, author, now).0)
  {
    if s.active.Some? {
      var a := s.active.value;
      MoveOnContents(cfg, s, s.(notices := s.notices + [Notice(a.request, Proof(a.confirmations + [c]))]), now);
      if author in cfg.validators && cfg.signatureOk(a.msgHash, author, c) && c !in a.confirmations {
        OneMoreSigned(cfg, a, author, c);
      }
    }
  }

  lemma FinalizeContents(cfg: Config, s: State, req: SendRequest, tx: EthTransaction, success: bool, callbackOk: bool,
                         now: nat)
    ensures var r := FinalizeState(cfg, s, req, tx, success, callbackOk, now); r.Ok? ==> Contents(cfg, r.value)
  {
    SetUpOutcome(cfg, s, req, Some(SaturatingAdd(tx.replayAttempt, 1, U16_MAX)), now);
    ProcessNextContents(cfg, SettleActive(cfg, s, req, tx, success), now);
  }

  lemma CorroborateContents(cfg: Config, s: State, id: nat, succeeded: bool, hashValid: bool, author: Account,
                            attempt: nat, callbackOk: bool, now: nat)
    requires Contents(cfg, s)
    ensures Contents(cfg, AddCorroboration(cfg, s, id, succeeded, hashValid, author, attempt, callbackOk, now).0)
  {
    if s.active.Some? && s.active.value.tx.Some? && s.active.value.request.Send? {
      var a := s.active.value;
      FinalizeContents(cfg, s, a.request.send, Corroborated(a.tx.value, author, succeeded, hashValid), succeeded,
                       callbackOk, now);
    }
  }

  lemma InstanceContents(cfg: Config, s: State, instance: Instance, now: nat)
    requires Contents(cfg, s)
    ensures Contents(cfg, SetInstance(cfg, s, instance, now).0)
  {
    if s.active.Some? && s.active.value.request.Send? {
      SetUpOutcome(cfg, s.(instance := instance), s.active.value.request.send, None, now);
    }
  }

  lemma StepContents(cfg: Config, s: State, t: Timed)
    requires Contents(cfg, s)
    ensures Contents(cfg, Step(cfg, s, t))
  {
    match t.call
    case CallPublish(name, params, callerId) =>
      AcceptContents(cfg, s.(nextTxId := (s.nextTxId + 1) % U32_RANGE),
                     Send(SendRequest(s.nextTxId, name, params, callerId)), t.now);
    case CallLowerProof(lowerId, params, callerId) =>
      AcceptContents(cfg, s, LowerProof(LowerRequest(lowerId, params, callerId)), t.now);
    case CallConfirm(id, c, author) =>
      ConfirmContents(cfg, s, id, c, author, t.now);
    case CallCorroborate(id, succeeded, hashValid, author, attempt, callbackOk) =>
      CorroborateContents(cfg, s, id, succeeded, hashValid, author, attempt, callbackOk, t.now);
    case CallRemoveActive =>
      if s.active.Some? {
        MoveOnContents(cfg, s, s.(notices := s.notices + [Notice(s.active.value.request, Failed)]), t.now);
      }
    case CallSetInstance(instance) =>
      InstanceContents(cfg, s, instance, t.now);
    case _ =>
  }

  /**
   In every run the active request's hash is of the very call to be sent, with its expiry
   and id readable from the parameters, for the current instance; its sender is the
   validator whose turn it is; and its confirmations are distinct validator signatures of it.
   */
  lemma {:induction false} RunContents(cfg: Config, s: State, calls: seq<Timed>)
    requires Contents(cfg, s)
    ensures Contents(cfg, Run(cfg, s, calls))
    decreases |calls|
  {
    if calls != [] {
      RunContents(cfg, s, calls[..|calls| - 1]);
      StepContents(cfg, Run(cfg, s, calls[..|calls| - 1]), calls[|calls| - 1]);
    }
  }

  // ---------------------------------------------------------------- both invariants

  ghost predicate Sound(cfg: Config, s: State) {
    Inv(cfg, s) && Contents(cfg, s)
  }

  lemma StepSound(cfg: Config, s: State, t: Timed)
    requires ValidConfig(cfg) && Sound(cfg, s)
    ensures Sound(cfg, Step(cfg, s, t))
  {
    StepInv(cfg, s, t);
    StepContents(cfg, s, t);
  }

  lemma RunSound(cfg: Config, s: State, calls: seq<Timed>)
    requires ValidConfig(cfg) && Sound(cfg, s)
    ensures Sound(cfg, Run(cfg, s, calls))
  {
    RunInv(cfg, s, calls);
    RunContents(cfg, s, calls);
  }
}
