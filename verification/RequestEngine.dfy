/** The request engine over mutable storage, each entry point proved against the state machine. */
module RequestEngine {
  import opened Prelude
  import opened Requests
  import opened RequestContents

  class Bridge {
    const cfg: Config
    var active: Option<ActiveRequest>
    var queue: seq<Request>
    var nextTxId: nat
    var lifetime: nat
    var instance: Instance
    var senderIndex: nat
    var settled: map<nat, Settled>
    var notices: seq<Notice>
    var offences: seq<Offence>
    ghost var accepted: seq<Request>

    ghost function View(): State
      reads this
    {
      State(active, queue, nextTxId, lifetime, instance, senderIndex, settled, notices, offences, accepted)
    }

    ghost predicate Valid()
      reads this
    {
      ValidConfig(cfg) && Sound(cfg, View())
    }

    constructor (cfg: Config, nextTxId: nat, lifetime: nat, instance: Instance)
      requires ValidConfig(cfg)
      ensures Valid() && this.cfg == cfg && View() == Genesis(nextTxId, lifetime, instance)
    {
      this.cfg := cfg;
      active, queue, settled, notices, offences := None, [], map[], [], [];
      this.nextTxId, this.lifetime, this.instance, senderIndex := nextTxId, lifetime, instance, 0;
      accepted := [];
    }

    // -------------------------------------------------------------- queue and set-up

    method QueueRequest(request: Request) returns (r: Result<(), Error>)
      modifies `queue
      ensures r.Ok? <==> |old(queue)| < cfg.maxQueued
      ensures r.Ok? ==> r == Ok(())
      ensures queue == if r.Ok? then old(queue) + [request] else old(queue)
      ensures r.Err? ==> r.error == TxRequestQueueFull
    {
      if |queue| < cfg.maxQueued {
        queue := queue + [request];
        return Ok(());
      }
      return Err(TxRequestQueueFull);
    }

    method DequeueRequest() returns (r: Option<Request>)
      modifies `queue
      ensures r.None? <==> old(queue) == []
      ensures r.Some? ==> old(queue) == [r.value] + queue
      ensures r.None? ==> queue == []
    {
      if queue == [] {
        return None;
      }
      r := Some(queue[0]);
      queue := queue[1..];
    }

    method SetUpActiveTx(req: SendRequest, replay: Option<nat>, now: nat) returns (r: Result<(), Error>)
      modifies `active, `senderIndex
      ensures match Requests.SetUpActiveTx(cfg, old(View()), req, replay, now)
              case Ok(s) => r == Ok(()) && View() == s
              case Err(e) => r == Err(e) && View() == old(View())
    {
      var expiry := now + lifetime;
      var params := ExtendParams(req, expiry);
      var bound := BoundParams(params);
      if bound.Some? {
        return Err(bound.value);
      }
      var msgHash := cfg.functionHash(req.functionName, params, instance);
      if msgHash.None? {
        return Err(MsgHashError);
      }
      var rotation := NextSender(cfg.validators, senderIndex);
      if rotation.NoValidators? {
        return Err(ErrorAssigningSender);
      }
      if rotation.DivisionByZero? {
        return Err(Trapped);
      }
      senderIndex := rotation.index;
      var attempt := if replay.Some? then replay.value else 0;
      active := Some(ActiveRequest(
        Send(req), msgHash.value, [],
        Some(EthTransaction(params, rotation.sender, expiry, ZERO_HASH, [], [], [], [], attempt))));
      return Ok(());
    }

    method SetUpActiveLowerProof(req: LowerRequest) returns (r: Result<(), Error>)
      modifies `active
      ensures match Requests.SetUpActiveLowerProof(cfg, old(View()), req)
              case Ok(s) => r == Ok(()) && View() == s
              case Err(e) => r == Err(e) && View() == old(View())
    {
      var msgHash := cfg.lowerHash(req.params, instance);
      if msgHash.None? {
        return Err(LowerParamsError);
      }
      active := Some(ActiveRequest(LowerProof(req), msgHash.value, [], None));
      return Ok(());
    }

    method SetUpRequest(req: Request, now: nat) returns (r: Result<(), Error>)
      modifies `active, `senderIndex
      ensures match SetUp(cfg, old(View()), req, now)
              case Ok(s) => r == Ok(()) && View() == s
              case Err(e) => r == Err(e) && View() == old(View())
    {
      match req
      case Send(send) => r := SetUpActiveTx(send, None, now);
      case LowerProof(lower) => r := SetUpActiveLowerProof(lower);
    }

    /** A trap puts back what was written. */
    method ProcessNextRequest(now: nat) returns (r: Result<(), Error>)
      modifies `active, `queue, `senderIndex, `notices
      ensures match ProcessNext(cfg, old(View()), now)
              case Ok(s) => r == Ok(()) && View() == s
              case Err(e) => r == Err(e) && View() == old(View())
      decreases |queue|
    {
      var active0, queue0, notices0 := active, queue, notices;
      active := None;
      var next := DequeueRequest();
      r := Ok(());
      if next.Some? {
        assert queue == old(queue)[1..];
        r := SetUpRequest(next.value, now);
        if r.Err? && r.error != Trapped {
          notices := notices + [Notice(next.value, Failed)];
          r := ProcessNextRequest(now);
        }
      }
      if r.Err? {
        active, queue, notices := active0, queue0, notices0;
      }
    }

    /** Both kinds of request are taken on alike. */
    method AddNewRequest(req: Request, now: nat) returns (r: Result<(), Error>)
      modifies `active, `queue, `senderIndex, `accepted
      ensures match Accept(cfg, old(View()), req, now)
              case Ok(s) => r == Ok(()) && View() == s
              case Err(e) => r == Err(e) && View() == old(View())
    {
      ghost var before := accepted;
      accepted := accepted + [req];
      if active.Some? {
        r := QueueRequest(req);
      } else {
        r := SetUpRequest(req, now);
      }
      if r.Err? {
        accepted := before;
      }
    }

    // -------------------------------------------------------------- entry points

    method Publish(name: string, params: seq<Param>, callerId: string, now: nat) returns (r: Result<nat, Error>)
      requires Valid()
      modifies this
      ensures Valid()
      ensures (View(), r) == Requests.Publish(cfg, old(View()), name, params, callerId, now)
    {
      StepSound(cfg, View(), Timed(CallPublish(name, params, callerId), now));
      if !cfg.isUtf8(name) {
        return Err(FunctionNameError);
      }
      if name == "" {
        return Err(EmptyFunctionName);
      }
      var txId := nextTxId;
      if |name| > FUNCTION_LIMIT {
        return Err(ExceedsFunctionNameLimit);
      }
      var bound := BoundParams(params);
      if bound.Some? {
        return Err(bound.value);
      }
      if |callerId| > CALLER_ID_LIMIT {
        return Err(CallerIdLengthExceeded);
      }
      nextTxId := (txId + 1) % U32_RANGE;
      var added := AddNewRequest(Send(SendRequest(txId, name, params, callerId)), now);
      if added.Err? {
        nextTxId := txId;
        return Err(added.error);
      }
      return Ok(txId);
    }

    method GenerateLowerProof(lowerId: nat, params: string, callerId: string, now: nat)
      returns (r: Result<(), Error>)
      requires Valid()
      modifies this
      ensures Valid()
      ensures (View(), r) == Requests.GenerateLowerProof(cfg, old(View()), lowerId, params, callerId, now)
    {
      StepSound(cfg, View(), Timed(CallLowerProof(lowerId, params, callerId), now));
      if |callerId| > CALLER_ID_LIMIT {
        return Err(CallerIdLengthExceeded);
      }
      r := AddNewRequest(LowerProof(LowerRequest(lowerId, params, callerId)), now);
    }

    method AddConfirmation(id: nat, confirmation: EcdsaSignature, author: Account, now: nat)
      returns (r: Result<(), Error>)
      requires Valid()
      modifies this
      ensures Valid()
      ensures (View(), r) == Requests.AddConfirmation(cfg, old(View()), id, confirmation, author, now)
    {
      StepSound(cfg, View(), Timed(CallConfirm(id, confirmation, author), now));
      if author !in cfg.validators {
        return Err(NotAnAuthor);
      }
      if active.None? || !active.value.request.IdMatches(id) {
        return Ok(());
      }
      var req := active.value;
      if HasEnoughConfirmations(cfg, req) {
        return Ok(());
      }
      if req.request.Send? && req.tx.Some? && req.tx.value.sender == author {
        return Ok(());
      }
      if !cfg.signatureOk(req.msgHash, author, confirmation) {
        return Err(InvalidECDSASignature);
      }
      if confirmation in req.confirmations {
        return Err(DuplicateConfirmation);
      }
      if |req.confirmations| >= CONFIRMATIONS_LIMIT {
        return Err(ExceedsConfirmationLimit);
      }
      req := req.(confirmations := req.confirmations + [confirmation]);
      if req.request.LowerProof? && HasEnoughConfirmations(cfg, req) {
        var notices0 := notices;
        notices := notices + [Notice(req.request, Proof(req.confirmations))];
        r := ProcessNextRequest(now);
        if r.Err? {
          notices := notices0;
        }
      } else {
        active := Some(req);
        r := Ok(());
      }
    }

    method AddEthTxHash(id: nat, hash: Hash, author: Account) returns (r: Result<(), Error>)
      requires Valid()
      modifies this
      ensures Valid()
      ensures (View(), r) == Requests.AddEthTxHash(cfg, old(View()), id, hash, author)
    {
      StepSound(cfg, View(), Timed(CallTxHash(id, hash, author), 0));
      if author !in cfg.validators {
        return Err(NotAnAuthor);
      }
      if active.Some? && active.value.request.IdMatches(id) && active.value.tx.Some? {
        var data := active.value.tx.value;
        if data.ethTxHash != ZERO_HASH {
          return Err(EthTxHashAlreadySet);
        }
        if data.sender != author {
          return Err(EthTxHashMustBeSetBySender);
        }
        data := data.(ethTxHash := hash);
        active := Some(active.value.(tx := Some(data)));
      }
      return Ok(());
    }

    method CompleteTransaction(req: SendRequest, tx: EthTransaction, success: bool, callbackOk: bool, now: nat)
      returns (r: Result<(), Error>)
      modifies this
      ensures !callbackOk ==> r == Err(HandlePublishingResultFailed) && View() == old(View())
      ensures callbackOk ==>
                match Requests.CompleteTransaction(cfg, old(View()), req, tx, success, now)
                case Ok(s) => r == Ok(()) && View() == s
                case Err(e) => r == Err(e) && View() == old(View())
    {
      if !callbackOk {
        return Err(HandlePublishingResultFailed);
      }
      var notices0, offences0, settled0 := notices, offences, settled;
      notices := notices + [Notice(Send(req), if success then Succeeded else Failed)];
      var data := tx;
      if success {
        if data.failure != [] {
          offences := offences + [Offence(data.sender, data.failure, ChallengeOnSuccessful)];
        }
        if |data.invalidHash| >= CorroborationQuorum(cfg) {
          data := data.(ethTxHash := ZERO_HASH);
        }
      } else if data.success != [] {
        offences := offences + [Offence(data.sender, data.success, ChallengeOnUnsuccessful)];
      }
      settled := settled[req.txId := Settled(data.sender, data.ethTxHash, success)];
      assert View() == SettleActive(cfg, old(View()), req, tx, success);
      r := ProcessNextRequest(now);
      if r.Err? {
        notices, offences, settled := notices0, offences0, settled0;
      }
    }

    method FinalizeState(req: SendRequest, tx: EthTransaction, success: bool, callbackOk: bool, now: nat)
      returns (r: Result<(), Error>)
      modifies this
      ensures match Requests.FinalizeState(cfg, old(View()), req, tx, success, callbackOk, now)
              case Ok(s) => r == Ok(()) && View() == s
              case Err(e) => r == Err(e) && View() == old(View())
    {
      if !success && |tx.invalidHash| >= CorroborationQuorum(cfg) {
        r := SetUpActiveTx(req, Some(SaturatingAdd(tx.replayAttempt, 1, U16_MAX)), now);
      } else {
        r := CompleteTransaction(req, tx, success, callbackOk, now);
      }
    }

    /** The two list pushes of a corroboration. */
    static method PushCorroboration(tx: EthTransaction, author: Account, succeeded: bool, hashValid: bool)
      returns (data: EthTransaction)
      ensures data == Corroborated(tx, author, succeeded, hashValid)
    {
      data := tx;
      if hashValid {
        data := data.(validHash := data.validHash + [author]);
      } else {
        data := data.(invalidHash := data.invalidHash + [author]);
      }
      if succeeded {
        data := data.(success := data.success + [author]);
      } else {
        data := data.(failure := data.failure + [author]);
      }
    }

    method AddCorroboration(id: nat, succeeded: bool, hashValid: bool, author: Account, attempt: nat,
                            callbackOk: bool, now: nat) returns (r: Result<(), Error>)
      requires Valid()
      modifies this
      ensures Valid()
      ensures (View(), r)
           == Requests.AddCorroboration(cfg, old(View()), id, succeeded, hashValid, author, attempt, callbackOk, now)
    {
      StepSound(cfg, View(), Timed(CallCorroborate(id, succeeded, hashValid, author, attempt, callbackOk), now));
      r := Corroborate(id, succeeded, hashValid, author, attempt, callbackOk, now);
    }

    method Corroborate(id: nat, succeeded: bool, hashValid: bool, author: Account, attempt: nat,
                       callbackOk: bool, now: nat) returns (r: Result<(), Error>)
      modifies this
      ensures (View(), r)
           == Requests.AddCorroboration(cfg, old(View()), id, succeeded, hashValid, author, attempt, callbackOk, now)
    {
      if author !in cfg.validators {
        return Err(NotAnAuthor);
      }
      if active.None? || !active.value.request.IdMatches(id) || active.value.tx.None? {
        return Ok(());
      }
      var req, data := active.value, active.value.tx.value;
      if attempt != data.replayAttempt {
        return Err(InvalidCorroborationData);
      }
      if author == data.sender {
        return Err(CannotCorroborateOwnTransaction);
      }
      if author in data.success || author in data.failure {
        return Ok(());
      }
      if ListsFull(data, succeeded, hashValid) {
        return Err(ExceedsCorroborationLimit);
      }
      data := PushCorroboration(data, author, succeeded, hashValid);
      if |(if succeeded then data.success else data.failure)| >= CorroborationQuorum(cfg) {
        if req.request.LowerProof? {
          return Err(InvalidSendRequest);
        }
        r := FinalizeState(req.request.send, data, succeeded, callbackOk, now);
      } else {
        active := Some(req.(tx := Some(data)));
        r := Ok(());
      }
    }

    method RemoveActiveRequest(now: nat) returns (r: Result<(), Error>)
      requires Valid()
      modifies this
      ensures Valid()
      ensures (View(), r) == Requests.RemoveActiveRequest(cfg, old(View()), now)
    {
      StepSound(cfg, View(), Timed(CallRemoveActive, now));
      if active.None? {
        return Err(NoActiveRequest);
      }
      var notices0 := notices;
      notices := notices + [Notice(active.value.request, Failed)];
      r := ProcessNextRequest(now);
      if r.Err? {
        notices := notices0;
      }
    }

    method SetInstance(newInstance: Instance, now: nat) returns (r: Result<(), Error>)
      requires Valid()
      modifies this
      ensures Valid()
      ensures (View(), r) == Requests.SetInstance(cfg, old(View()), newInstance, now)
    {
      StepSound(cfg, View(), Timed(CallSetInstance(newInstance), now));
      var previous := instance;
      instance := newInstance;
      r := Ok(());
      if active.Some? && active.value.request.Send? {
        r := SetUpActiveTx(active.value.request.send, None, now);
        if r.Err? {
          instance := previous;
        }
      }
    }
  }
}
