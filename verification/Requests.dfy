/**
 The Ethereum bridge's request engine as a state machine: one active request, a
 bounded queue, confirmations, corroborations, replay, settlement and the
 notification of the requesting pallet.
 */
module Requests {
  import opened Prelude
  import opened Quorum

  type Account = nat
  type EcdsaSignature = nat
  type Hash = nat
  type Instance = nat

  const ZERO_HASH: Hash := 0
  const CONFIRMATIONS_LIMIT: nat := 100
  const FUNCTION_LIMIT: nat := 32
  const CALLER_ID_LIMIT: nat := 50
  const PARAMS_LIMIT: nat := 5
  const TYPE_LIMIT: nat := 7
  const VALUE_LIMIT: nat := 130

  datatype Error =
    | FunctionNameError | EmptyFunctionName | ExceedsFunctionNameLimit
    | TypeNameLengthExceeded | ValueLengthExceeded | ParamsLimitExceeded
    | CallerIdLengthExceeded | TxRequestQueueFull | MsgHashError | LowerParamsError
    | ErrorAssigningSender | NotAnAuthor | InvalidECDSASignature | DuplicateConfirmation
    | ExceedsConfirmationLimit | EthTxHashAlreadySet | EthTxHashMustBeSetBySender
    | InvalidCorroborationData | CannotCorroborateOwnTransaction | ExceedsCorroborationLimit
    | HandlePublishingResultFailed | InvalidSendRequest | NoActiveRequest
    | Trapped // not an error value: the runtime aborts, and what the call wrote is discarded

  datatype Param = Param(kind: string, value: string)

  datatype SendRequest =
    SendRequest(txId: nat, functionName: string, params: seq<Param>, callerId: string)

  datatype LowerRequest = LowerRequest(lowerId: nat, params: string, callerId: string)

  datatype Request = Send(send: SendRequest) | LowerProof(lower: LowerRequest) {
    predicate IdMatches(id: nat) {
      match this
      case Send(req) => req.txId == id
      case LowerProof(req) => req.lowerId == id
    }
  }

  /** The transient data of the transaction being sent. */
  datatype EthTransaction = EthTransaction(
    params: seq<Param>,
    sender: Account,
    expiry: nat,
    ethTxHash: Hash,
    success: seq<Account>,
    failure: seq<Account>,
    validHash: seq<Account>,
    invalidHash: seq<Account>,
    replayAttempt: nat)

  datatype ActiveRequest = ActiveRequest(
    request: Request,
    msgHash: Hash,
    confirmations: seq<EcdsaSignature>,
    tx: Option<EthTransaction>)

  datatype Settled = Settled(sender: Account, ethTxHash: Hash, succeeded: bool)

  datatype Outcome = Succeeded | Failed | Proof(confirmations: seq<EcdsaSignature>)

  /** A terminal call to the requesting pallet. */
  datatype Notice = Notice(request: Request, outcome: Outcome)

  datatype OffenceType = ChallengeOnSuccessful | ChallengeOnUnsuccessful

  datatype Offence = Offence(reporter: Account, offenders: seq<Account>, kind: OffenceType)

  /** `accepted` is history: every request the pallet took on, in order. */
  datatype State = State(
    active: Option<ActiveRequest>,
    queue: seq<Request>,
    nextTxId: nat,
    lifetime: nat,
    instance: Instance,
    senderIndex: nat,
    settled: map<nat, Settled>,
    notices: seq<Notice>,
    offences: seq<Offence>,
    accepted: seq<Request>)

  /** What stays fixed in a run; the hash and signature primitives are arbitrary functions. */
  datatype Config = Config(
    validators: seq<Account>,
    maxQueued: nat,
    isUtf8: string -> bool,
    functionHash: (string, seq<Param>, Instance) -> Option<Hash>,
    lowerHash: (string, Instance) -> Option<Hash>,
    signatureOk: (Hash, Account, EcdsaSignature) -> bool)

  ghost predicate ValidConfig(cfg: Config) {
    Distinct(cfg.validators)
  }

  // ---------------------------------------------------------------- parameters

  function Decimal(n: nat): string {
    if n < 10 then [('0' as int + n) as char] else Decimal(n / 10) + Decimal(n % 10)
  }

  function BoundParam(p: Param): Option<Error> {
    if |p.kind| > TYPE_LIMIT then Some(TypeNameLengthExceeded)
    else if |p.value| > VALUE_LIMIT then Some(ValueLengthExceeded)
    else None
  }

  /** The first bound the parameters exceed, if any. */
  function BoundParams(params: seq<Param>): (r: Option<Error>)
    ensures r.None? <==> |params| <= PARAMS_LIMIT && forall p :: p in params ==> BoundParam(p).None?
    ensures r.Some? ==> r.value in {TypeNameLengthExceeded, ValueLengthExceeded, ParamsLimitExceeded}
  {
    BoundParamsFrom(params, |params|)
  }

  function BoundParamsFrom(params: seq<Param>, count: nat): (r: Option<Error>)
    ensures r.None? <==> count <= PARAMS_LIMIT && forall p :: p in params ==> BoundParam(p).None?
    ensures r.Some? ==> r.value in {TypeNameLengthExceeded, ValueLengthExceeded, ParamsLimitExceeded}
  {
    if params == [] then (if count > PARAMS_LIMIT then Some(ParamsLimitExceeded) else None)
    else if BoundParam(params[0]).Some? then BoundParam(params[0])
    else BoundParamsFrom(params[1..], count)
  }

  function ExtendParams(req: SendRequest, expiry: nat): seq<Param> {
    req.params + [Param("uint256", Decimal(expiry)), Param("uint32", Decimal(req.txId))]
  }

  // ---------------------------------------------------------------- sender rotation

  datatype Rotation = NoValidators | DivisionByZero | Next(sender: Account, index: nat)

  /** The next sender and its index; the validator count is cast to 8 bits before it divides. */
  function NextSender(validators: seq<Account>, index: nat): Rotation {
    var count := |validators| % 256;
    if validators == [] then NoValidators
    else if count == 0 then DivisionByZero
    else
      var next := SaturatingAdd(index, 1, 255) % count;
      Next(validators[next], next)
  }

  // ---------------------------------------------------------------- set-up and queue

  function SetUpActiveTx(cfg: Config, s: State, req: SendRequest, replay: Option<nat>, now: nat): Result<State, Error>
  {
    var expiry := now + s.lifetime;
    var params := ExtendParams(req, expiry);
    var bound := BoundParams(params);
    if bound.Some? then Err(bound.value)
    else
      var hash := cfg.functionHash(req.functionName, params, s.instance);
      if hash.None? then Err(MsgHashError)
      else
        match NextSender(cfg.validators, s.senderIndex)
        case NoValidators => Err(ErrorAssigningSender)
        case DivisionByZero => Err(Trapped)
        case Next(sender, index) =>
          var attempt := if replay.Some? then replay.value else 0;
          var tx := EthTransaction(params, sender, expiry, ZERO_HASH, [], [], [], [], attempt);
          Ok(s.(active := Some(ActiveRequest(Send(req), hash.value, [], Some(tx))), senderIndex := index))
  }

  function SetUpActiveLowerProof(cfg: Config, s: State, req: LowerRequest): Result<State, Error> {
    var hash := cfg.lowerHash(req.params, s.instance);
    if hash.None? then Err(LowerParamsError)
    else Ok(s.(active := Some(ActiveRequest(LowerProof(req), hash.value, [], None))))
  }

  function SetUp(cfg: Config, s: State, req: Request, now: nat): Result<State, Error>
  {
    match req
    case Send(send) => SetUpActiveTx(cfg, s, send, None, now)
    case LowerProof(lower) => SetUpActiveLowerProof(cfg, s, lower)
  }

  /** Frees the active slot and sets up the first queued request that can be, failing those before it, or traps. */
  function ProcessNext(cfg: Config, s: State, now: nat): (r: Result<State, Error>)
    ensures r.Err? ==> r.error == Trapped
    decreases |s.queue|
  {
    var idle := s.(active := None);
    if s.queue == [] then Ok(idle)
    else
      var req, rest := s.queue[0], idle.(queue := s.queue[1..]);
      match SetUp(cfg, rest, req, now)
      case Ok(next) => Ok(next)
      case Err(e) =>
        if e == Trapped then Err(Trapped)
        else ProcessNext(cfg, rest.(notices := rest.notices + [Notice(req, Failed)]), now)
  }

  /** A call that ends by moving on to the next request; one that traps leaves `s`, the state it found. */
  function MoveOn(cfg: Config, s: State, done: State, now: nat): (State, Result<(), Error>) {
    match ProcessNext(cfg, done, now)
    case Ok(s') => (s', Ok(()))
    case Err(e) => (s, Err(e))
  }

  /** Takes a request on: set up at once when nothing is active, queued otherwise. */
  function Accept(cfg: Config, s: State, req: Request, now: nat): Result<State, Error>
  {
    var logged := s.(accepted := s.accepted + [req]);
    if s.active.None? then SetUp(cfg, logged, req, now)
    else if |s.queue| < cfg.maxQueued then Ok(logged.(queue := s.queue + [req]))
    else Err(TxRequestQueueFull)
  }

  // ---------------------------------------------------------------- calls

  function Publish(cfg: Config, s: State, name: string, params: seq<Param>, callerId: string, now: nat)
    : (State, Result<nat, Error>)
  {
    if !cfg.isUtf8(name) then (s, Err(FunctionNameError))
    else if name == "" then (s, Err(EmptyFunctionName))
    else if |name| > FUNCTION_LIMIT then (s, Err(ExceedsFunctionNameLimit))
    else if BoundParams(params).Some? then (s, Err(BoundParams(params).value))
    else if |callerId| > CALLER_ID_LIMIT then (s, Err(CallerIdLengthExceeded))
    else
      var txId := s.nextTxId;
      var numbered := s.(nextTxId := (txId + 1) % U32_RANGE);
      match Accept(cfg, numbered, Send(SendRequest(txId, name, params, callerId)), now)
      case Ok(s') => (s', Ok(txId))
      case Err(e) => (s, Err(e))
  }

  function GenerateLowerProof(cfg: Config, s: State, lowerId: nat, params: string, callerId: string, now: nat)
    : (State, Result<(), Error>)
  {
    if |callerId| > CALLER_ID_LIMIT then (s, Err(CallerIdLengthExceeded))
    else
      match Accept(cfg, s, LowerProof(LowerRequest(lowerId, params, callerId)), now)
      case Ok(s') => (s', Ok(()))
      case Err(e) => (s, Err(e))
  }

  function HasEnoughConfirmations(cfg: Config, a: ActiveRequest): bool {
    match a.request
    case Send(_) => |a.confirmations| + 1 >= RequiredFor(|cfg.validators|)
    case LowerProof(_) => |a.confirmations| >= RequiredForSupermajority(|cfg.validators|)
  }

  predicate IsActive(s: State, id: nat) {
    s.active.Some? && s.active.value.request.IdMatches(id)
  }

  function AddConfirmation(cfg: Config, s: State, id: nat, confirmation: EcdsaSignature, author: Account, now: nat)
    : (State, Result<(), Error>)
  {
    if author !in cfg.validators then (s, Err(NotAnAuthor))
    else if !IsActive(s, id) then (s, Ok(()))
    else
      var a := s.active.value;
      if HasEnoughConfirmations(cfg, a) then (s, Ok(()))
      else if a.request.Send? && a.tx.Some? && a.tx.value.sender == author then (s, Ok(()))
      else if !cfg.signatureOk(a.msgHash, author, confirmation) then (s, Err(InvalidECDSASignature))
      else if confirmation in a.confirmations then (s, Err(DuplicateConfirmation))
      else if |a.confirmations| >= CONFIRMATIONS_LIMIT then (s, Err(ExceedsConfirmationLimit))
      else
        var a' := a.(confirmations := a.confirmations + [confirmation]);
        if a'.request.LowerProof? && HasEnoughConfirmations(cfg, a') then
          var done := s.(notices := s.notices + [Notice(a'.request, Proof(a'.confirmations))]);
          MoveOn(cfg, s, done, now)
        else (s.(active := Some(a')), Ok(()))
  }

  function AddEthTxHash(cfg: Config, s: State, id: nat, hash: Hash, author: Account): (State, Result<(), Error>) {
    if author !in cfg.validators then (s, Err(NotAnAuthor))
    else if !IsActive(s, id) || s.active.value.tx.None? then (s, Ok(()))
    else
      var a := s.active.value;
      var tx := a.tx.value;
      if tx.ethTxHash != ZERO_HASH then (s, Err(EthTxHashAlreadySet))
      else if tx.sender != author then (s, Err(EthTxHashMustBeSetBySender))
      else (s.(active := Some(a.(tx := Some(tx.(ethTxHash := hash))))), Ok(()))
  }

  /** The sender does not corroborate, so the quorum is taken over the others. */
  function CorroborationQuorum(cfg: Config): nat {
    RequiredFor(SaturatingSub(|cfg.validators|, 1))
  }

  /** A settled transaction: notice sent, losing side reported, record stored. */
  function SettleActive(cfg: Config, s: State, req: SendRequest, tx: EthTransaction, success: bool): State {
    var losers := if success then tx.failure else tx.success;
    var kind := if success then ChallengeOnSuccessful else ChallengeOnUnsuccessful;
    var hash := if success && |tx.invalidHash| >= CorroborationQuorum(cfg) then ZERO_HASH else tx.ethTxHash;
    s.(notices := s.notices + [Notice(Send(req), if success then Succeeded else Failed)],
       offences := if losers == [] then s.offences else s.offences + [Offence(tx.sender, losers, kind)],
       settled := s.settled[req.txId := Settled(tx.sender, hash, success)])
  }

  function CompleteTransaction(cfg: Config, s: State, req: SendRequest, tx: EthTransaction, success: bool, now: nat)
    : Result<State, Error>
  {
    ProcessNext(cfg, SettleActive(cfg, s, req, tx, success), now)
  }

  function FinalizeState(cfg: Config, s: State, req: SendRequest, tx: EthTransaction, success: bool,
                         callbackOk: bool, now: nat): Result<State, Error>
  {
    if !success && |tx.invalidHash| >= CorroborationQuorum(cfg) then
      SetUpActiveTx(cfg, s, req, Some(SaturatingAdd(tx.replayAttempt, 1, U16_MAX)), now)
    else if !callbackOk then Err(HandlePublishingResultFailed)
    else CompleteTransaction(cfg, s, req, tx, success, now)
  }

  predicate RequiresCorroboration(tx: EthTransaction, author: Account) {
    author !in tx.success && author !in tx.failure
  }

  /** The transaction with one more corroboration on the two lists it names. */
  function Corroborated(tx: EthTransaction, author: Account, succeeded: bool, hashValid: bool): EthTransaction {
    var hashed := if hashValid then tx.(validHash := tx.validHash + [author])
                  else tx.(invalidHash := tx.invalidHash + [author]);
    if succeeded then hashed.(success := tx.success + [author])
    else hashed.(failure := tx.failure + [author])
  }

  predicate ListsFull(tx: EthTransaction, succeeded: bool, hashValid: bool) {
    || |(if hashValid then tx.validHash else tx.invalidHash)| >= CONFIRMATIONS_LIMIT
    || |(if succeeded then tx.success else tx.failure)| >= CONFIRMATIONS_LIMIT
  }

  function AddCorroboration(cfg: Config, s: State, id: nat, succeeded: bool, hashValid: bool, author: Account,
                            attempt: nat, callbackOk: bool, now: nat): (State, Result<(), Error>)
  {
    if author !in cfg.validators then (s, Err(NotAnAuthor))
    else if !IsActive(s, id) || s.active.value.tx.None? then (s, Ok(()))
    else
      var a := s.active.value;
      var tx := a.tx.value;
      if attempt != tx.replayAttempt then (s, Err(InvalidCorroborationData))
      else if author == tx.sender then (s, Err(CannotCorroborateOwnTransaction))
      else if !RequiresCorroboration(tx, author) then (s, Ok(()))
      else if ListsFull(tx, succeeded, hashValid) then (s, Err(ExceedsCorroborationLimit))
      else
        var tx' := Corroborated(tx, author, succeeded, hashValid);
        var matching := if succeeded then tx'.success else tx'.failure;
        if |matching| < CorroborationQuorum(cfg) then (s.(active := Some(a.(tx := Some(tx')))), Ok(()))
        else if !a.request.Send? then (s, Err(InvalidSendRequest))
        else
          match FinalizeState(cfg, s, a.request.send, tx', succeeded, callbackOk, now)
          case Ok(s') => (s', Ok(()))
          case Err(e) => (s, Err(e))
  }

  function RemoveActiveRequest(cfg: Config, s: State, now: nat): (State, Result<(), Error>)
  {
    if s.active.None? then (s, Err(NoActiveRequest))
    else
      var failed := s.(notices := s.notices + [Notice(s.active.value.request, Failed)]);
      MoveOn(cfg, s, failed, now)
  }

  /** A new bridge instance; an active transaction is set up again for it. */
  function SetInstance(cfg: Config, s: State, instance: Instance, now: nat): (State, Result<(), Error>)
  {
    var moved := s.(instance := instance);
    if s.active.Some? && s.active.value.request.Send? then
      match SetUpActiveTx(cfg, moved, s.active.value.request.send, None, now)
      case Ok(s') => (s', Ok(()))
      case Err(e) => (s, Err(e))
    else (moved, Ok(()))
  }

  datatype Call =
    | CallPublish(name: string, params: seq<Param>, callerId: string)
    | CallLowerProof(lowerId: nat, lowerParams: string, callerId: string)
    | CallConfirm(id: nat, confirmation: EcdsaSignature, author: Account)
    | CallTxHash(id: nat, hash: Hash, author: Account)
    | CallCorroborate(id: nat, succeeded: bool, hashValid: bool, author: Account, attempt: nat, callbackOk: bool)
    | CallRemoveActive
    | CallSetInstance(instance: Instance)
    | CallSetLifetime(seconds: nat)
    | CallSetTxId(nextId: nat)

  datatype Timed = Timed(call: Call, now: nat)

  function Step(cfg: Config, s: State, t: Timed): State
  {
    match t.call
    case CallPublish(name, params, callerId) => Publish(cfg, s, name, params, callerId, t.now).0
    case CallLowerProof(lowerId, params, callerId) => GenerateLowerProof(cfg, s, lowerId, params, callerId, t.now).0
    case CallConfirm(id, confirmation, author) => AddConfirmation(cfg, s, id, confirmation, author, t.now).0
    case CallTxHash(id, hash, author) => AddEthTxHash(cfg, s, id, hash, author).0
    case CallCorroborate(id, succeeded, hashValid, author, attempt, callbackOk) =>
      AddCorroboration(cfg, s, id, succeeded, hashValid, author, attempt, callbackOk, t.now).0
    case CallRemoveActive => RemoveActiveRequest(cfg, s, t.now).0
    case CallSetInstance(instance) => SetInstance(cfg, s, instance, t.now).0
    case CallSetLifetime(seconds) => s.(lifetime := seconds)
    case CallSetTxId(nextId) => s.(nextTxId := nextId)
  }

  function Run(cfg: Config, s: State, calls: seq<Timed>): State
    decreases |calls|
  {
    if calls == [] then s else Step(cfg, Run(cfg, s, calls[..|calls| - 1]), calls[|calls| - 1])
  }

  lemma RunAppend(cfg: Config, s: State, calls: seq<Timed>, t: Timed)
    ensures Run(cfg, s, calls + [t]) == Step(cfg, Run(cfg, s, calls), t)
  {
    var all := calls + [t];
    assert all[..|all| - 1] == calls;
  }

  lemma RunOne(cfg: Config, s: State, t: Timed)
    ensures Run(cfg, s, [t]) == Step(cfg, s, t)
  {
    assert [] + [t] == [t];
    RunAppend(cfg, s, [], t);
  }

  function Genesis(nextTxId: nat, lifetime: nat, instance: Instance): State {
    State(None, [], nextTxId, lifetime, instance, 0, map[], [], [], [])
  }

  // ---------------------------------------------------------------- first in, first out

  ghost function Finished(notices: seq<Notice>): (r: seq<Request>)
    ensures |r| == |notices|
    ensures forall i :: 0 <= i < |r| ==> r[i] == notices[i].request
  {
    seq(|notices|, i requires 0 <= i < |notices| => notices[i].request)
  }

  ghost function InProgress(active: Option<ActiveRequest>): seq<Request> {
    if active.Some? then [active.value.request] else []
  }

  /** Everything accepted is finished, active or queued, in that order, and nothing waits while the slot is free. */
  ghost predicate Fifo(cfg: Config, s: State) {
    && s.accepted == Finished(s.notices) + InProgress(s.active) + s.queue
    && (s.queue != [] ==> s.active.Some?)
    && |s.queue| <= cfg.maxQueued
  }

  lemma FinishedAppend(notices: seq<Notice>, n: Notice)
    ensures Finished(notices + [n]) == Finished(notices) + [n.request]
  {
  }

  lemma SetUpFrame(cfg: Config, s: State, req: Request, now: nat)
    ensures var r := SetUp(cfg, s, req, now);
            r.Ok? ==>
              && r.value.active.Some? && r.value.active.value.request == req
              && r.value.accepted == s.accepted && r.value.notices == s.notices && r.value.queue == s.queue
  {
  }

  /** The bookkeeping of a freed slot: what was finished, then what still waits. */
  lemma {:induction false} ProcessNextFifo(cfg: Config, s: State, now: nat)
    requires s.accepted == Finished(s.notices) + s.queue && |s.queue| <= cfg.maxQueued
    ensures ProcessNext(cfg, s, now).Ok? ==> Fifo(cfg, ProcessNext(cfg, s, now).value)
    decreases |s.queue|
  {
    if s.queue != [] {
      var req := s.queue[0];
      var rest := s.(active := None, queue := s.queue[1..]);
      assert s.queue == [req] + rest.queue;
      assert s.accepted == Finished(s.notices) + [req] + rest.queue;
      if SetUp(cfg, rest, req, now).Err? {
        var failed := rest.(notices := rest.notices + [Notice(req, Failed)]);
        FinishedAppend(rest.notices, Notice(req, Failed));
        ProcessNextFifo(cfg, failed, now);
      } else {
        SetUpFrame(cfg, rest, req, now);
      }
    }
  }

  /** Finishing the active request with one notice keeps the order. */
  lemma FinishActiveFifo(cfg: Config, s: State, done: State, outcome: Outcome, now: nat)
    requires Fifo(cfg, s) && s.active.Some?
    requires done.notices == s.notices + [Notice(s.active.value.request, outcome)]
    requires done.queue == s.queue && done.accepted == s.accepted
    ensures Fifo(cfg, MoveOn(cfg, s, done, now).0)
  {
    FinishedAppend(s.notices, Notice(s.active.value.request, outcome));
    ProcessNextFifo(cfg, done, now);
  }

  lemma AcceptFifo(cfg: Config, s: State, req: Request, now: nat)
    requires Fifo(cfg, s)
    ensures Accept(cfg, s, req, now).Ok? ==> Fifo(cfg, Accept(cfg, s, req, now).value)
  {
    if s.active.Some? {
      assert s.accepted + [req] == Finished(s.notices) + InProgress(s.active) + (s.queue + [req]);
    } else {
      assert s.accepted + [req] == Finished(s.notices) + [req] + s.queue;
    }
  }

  lemma StepFifo(cfg: Config, s: State, t: Timed)
    requires Fifo(cfg, s) && ActiveShape(s)
    ensures Fifo(cfg, Step(cfg, s, t))
  {
    match t.call
    case CallPublish(name, params, callerId) =>
      PublishFifo(cfg, s, name, params, callerId, t.now);
    case CallLowerProof(lowerId, params, callerId) =>
      AcceptFifo(cfg, s, LowerProof(LowerRequest(lowerId, params, callerId)), t.now);
    case CallConfirm(id, confirmation, author) =>
      ConfirmFifo(cfg, s, id, confirmation, author, t.now);
    case CallTxHash(id, hash, author) =>
    case CallCorroborate(id, succeeded, hashValid, author, attempt, callbackOk) =>
      CorroborateFifo(cfg, s, id, succeeded, hashValid, author, attempt, callbackOk, t.now);
    case CallRemoveActive =>
      if s.active.Some? {
        FinishActiveFifo(cfg, s, s.(notices := s.notices + [Notice(s.active.value.request, Failed)]), Failed, t.now);
      }
    case CallSetInstance(instance) =>
      InstanceFifo(cfg, s, instance, t.now);
    case CallSetLifetime(seconds) =>
    case CallSetTxId(nextId) =>
  }

  lemma PublishFifo(cfg: Config, s: State, name: string, params: seq<Param>, callerId: string, now: nat)
    requires Fifo(cfg, s)
    ensures Fifo(cfg, Publish(cfg, s, name, params, callerId, now).0)
  {
    var numbered := s.(nextTxId := (s.nextTxId + 1) % U32_RANGE);
    AcceptFifo(cfg, numbered, Send(SendRequest(s.nextTxId, name, params, callerId)), now);
  }

  lemma InstanceFifo(cfg: Config, s: State, instance: Instance, now: nat)
    requires Fifo(cfg, s)
    ensures Fifo(cfg, SetInstance(cfg, s, instance, now).0)
  {
    var s' := SetInstance(cfg, s, instance, now).0;
    assert InProgress(s'.active) == InProgress(s.active);
  }

  lemma ConfirmFifo(cfg: Config, s: State, id: nat, confirmation: EcdsaSignature, author: Account, now: nat)
    requires Fifo(cfg, s) && ActiveShape(s)
    ensures Fifo(cfg, AddConfirmation(cfg, s, id, confirmation, author, now).0)
  {
    if s.active.Some? {
      var a := s.active.value;
      var proof := Proof(a.confirmations + [confirmation]);
      FinishActiveFifo(cfg, s, s.(notices := s.notices + [Notice(a.request, proof)]), proof, now);
    }
  }

  lemma CorroborateFifo(cfg: Config, s: State, id: nat, succeeded: bool, hashValid: bool, author: Account,
                        attempt: nat, callbackOk: bool, now: nat)
    requires Fifo(cfg, s) && ActiveShape(s)
    ensures Fifo(cfg, AddCorroboration(cfg, s, id, succeeded, hashValid, author, attempt, callbackOk, now).0)
  {
    if s.active.Some? && s.active.value.tx.Some? {
      FinalizeFifo(cfg, s, Corroborated(s.active.value.tx.value, author, succeeded, hashValid), succeeded, callbackOk, now);
    }
  }

  lemma FinalizeFifo(cfg: Config, s: State, tx: EthTransaction, success: bool, callbackOk: bool, now: nat)
    requires Fifo(cfg, s) && s.active.Some? && s.active.value.request.Send?
    ensures var r := FinalizeState(cfg, s, s.active.value.request.send, tx, success, callbackOk, now);
            r.Ok? ==> Fifo(cfg, r.value)
  {
    FinishActiveFifo(cfg, s, SettleActive(cfg, s, s.active.value.request.send, tx, success),
                     if success then Succeeded else Failed, now);
  }

  // ---------------------------------------------------------------- corroborations

  /**
   An active transaction is what a send request carries; its two extra parameters fit,
   and so do the confirmations.
   */
  ghost predicate ActiveShape(s: State) {
    s.active.Some? ==>
      var a := s.active.value;
      && (a.tx.Some? <==> a.request.Send?)
      && (a.request.Send? ==> |a.request.send.params| + 2 <= PARAMS_LIMIT)
      && |a.confirmations| <= CONFIRMATIONS_LIMIT
  }

  /** The two pairs of lists split one duplicate-free set of validators other than the sender. */
  ghost predicate Partitioned(cfg: Config, tx: EthTransaction) {
    && Distinct(tx.success + tx.failure)
    && Distinct(tx.validHash + tx.invalidHash)
    && Elements(tx.success + tx.failure) == Elements(tx.validHash + tx.invalidHash)
    && (forall v :: v in tx.success + tx.failure ==> v in cfg.validators && v != tx.sender)
    && tx.sender in cfg.validators
  }

  /** While a transaction is active neither side has reached the quorum. */
  ghost predicate Undecided(cfg: Config, tx: EthTransaction) {
    |cfg.validators| >= 2 ==>
      |tx.success| < CorroborationQuorum(cfg) && |tx.failure| < CorroborationQuorum(cfg)
  }

  ghost predicate Corroborations(cfg: Config, s: State) {
    s.active.Some? && s.active.value.tx.Some? ==>
      Partitioned(cfg, s.active.value.tx.value) && Undecided(cfg, s.active.value.tx.value)
  }

  ghost predicate Inv(cfg: Config, s: State) {
    Fifo(cfg, s) && Healthy(cfg, s)
  }

  /** What setting up and moving on leave alone, and what they start from. */
  lemma {:induction false} ProcessNextFrame(cfg: Config, s: State, now: nat)
    requires ValidConfig(cfg)
    ensures ProcessNext(cfg, s, now).Ok? ==>
              var s' := ProcessNext(cfg, s, now).value;
              && s.notices <= s'.notices
              && (forall i :: |s.notices| <= i < |s'.notices| ==> s'.notices[i].outcome == Failed)
              && s'.offences == s.offences && s'.settled == s.settled
              && s'.accepted == s.accepted && s'.nextTxId == s.nextTxId
              && ActiveShape(s') && Corroborations(cfg, s')
    decreases |s.queue|
  {
    if s.queue != [] {
      var req, rest := s.queue[0], s.(active := None, queue := s.queue[1..]);
      if SetUp(cfg, rest, req, now).Err? {
        ProcessNextFrame(cfg, rest.(notices := rest.notices + [Notice(req, Failed)]), now);
      } else {
        FreshCorroborations(cfg, SetUp(cfg, rest, req, now).value);
      }
    }
  }

  lemma FreshCorroborations(cfg: Config, s: State)
    requires ValidConfig(cfg)
    requires s.active.Some? && s.active.value.tx.Some? ==>
               var tx := s.active.value.tx.value;
               && tx.sender in cfg.validators
               && tx.success == tx.failure == tx.validHash == tx.invalidHash == []
    ensures Corroborations(cfg, s)
  {
    QuorumIsAThird(SaturatingSub(|cfg.validators|, 1));
  }

  lemma CorroboratedPartitioned(cfg: Config, tx: EthTransaction, author: Account, succeeded: bool, hashValid: bool)
    requires Partitioned(cfg, tx)
    requires author in cfg.validators && author != tx.sender && RequiresCorroboration(tx, author)
    ensures Partitioned(cfg, Corroborated(tx, author, succeeded, hashValid))
    ensures var tx' := Corroborated(tx, author, succeeded, hashValid);
            Elements(tx'.success + tx'.failure) == Elements(tx.success + tx.failure) + {author}
  {
    assert author !in Elements(tx.success + tx.failure);
    InsertOne(tx.success, tx.failure, author);
    InsertOne(tx.validHash, tx.invalidHash, author);
  }

  /** Adding a new value to either of two lists extends their duplicate-free union by it. */
  lemma InsertOne(a: seq<Account>, b: seq<Account>, x: Account)
    requires Distinct(a + b) && x !in Elements(a + b)
    ensures Distinct(a + [x] + b) && Elements(a + [x] + b) == Elements(a + b) + {x}
    ensures Distinct(a + (b + [x])) && Elements(a + (b + [x])) == Elements(a + b) + {x}
  {
    assert forall v :: v in a + b <==> v in Elements(a + b);
    forall i, j | 0 <= i < j < |a + [x] + b|
      ensures (a + [x] + b)[i] != (a + [x] + b)[j]
    {
      var c := a + b;
      var i' := if i <= |a| then i else i - 1;
      var j' := if j <= |a| then j else j - 1;
      assert i != |a| ==> (a + [x] + b)[i] == c[i'];
      assert j != |a| ==> (a + [x] + b)[j] == c[j'];
    }
    assert a + (b + [x]) == a + b + [x];
  }

  ghost predicate Healthy(cfg: Config, s: State) {
    ActiveShape(s) && Corroborations(cfg, s)
  }

  lemma SetUpHealthy(cfg: Config, s: State, req: Request, now: nat)
    requires ValidConfig(cfg)
    ensures SetUp(cfg, s, req, now).Ok? ==> Healthy(cfg, SetUp(cfg, s, req, now).value)
  {
    if SetUp(cfg, s, req, now).Ok? {
      FreshCorroborations(cfg, SetUp(cfg, s, req, now).value);
    }
  }

  lemma AcceptHealthy(cfg: Config, s: State, req: Request, now: nat)
    requires ValidConfig(cfg) && Healthy(cfg, s)
    ensures Accept(cfg, s, req, now).Ok? ==> Healthy(cfg, Accept(cfg, s, req, now).value)
  {
    SetUpHealthy(cfg, s.(accepted := s.accepted + [req]), req, now);
  }

  lemma ReplayHealthy(cfg: Config, s: State, req: SendRequest, replay: Option<nat>, now: nat)
    requires ValidConfig(cfg)
    ensures var r := SetUpActiveTx(cfg, s, req, replay, now); r.Ok? ==> Healthy(cfg, r.value)
  {
    var r := SetUpActiveTx(cfg, s, req, replay, now);
    if r.Ok? {
      FreshCorroborations(cfg, r.value);
    }
  }

  lemma ConfirmHealthy(cfg: Config, s: State, id: nat, confirmation: EcdsaSignature, author: Account, now: nat)
    requires ValidConfig(cfg) && Healthy(cfg, s)
    ensures Healthy(cfg, AddConfirmation(cfg, s, id, confirmation, author, now).0)
  {
    if s.active.Some? {
      var a := s.active.value;
      var proof := Proof(a.confirmations + [confirmation]);
      ProcessNextFrame(cfg, s.(notices := s.notices + [Notice(a.request, proof)]), now);
    }
  }

  lemma CorroborateHealthy(cfg: Config, s: State, id: nat, succeeded: bool, hashValid: bool, author: Account,
                           attempt: nat, callbackOk: bool, now: nat)
    requires ValidConfig(cfg) && Healthy(cfg, s)
    ensures Healthy(cfg, AddCorroboration(cfg, s, id, succeeded, hashValid, author, attempt, callbackOk, now).0)
  {
    var s' := AddCorroboration(cfg, s, id, succeeded, hashValid, author, attempt, callbackOk, now).0;
    if s' != s {
      var a, tx := s.active.value, s.active.value.tx.value;
      var tx' := Corroborated(tx, author, succeeded, hashValid);
      CorroboratedPartitioned(cfg, tx, author, succeeded, hashValid);
      if |(if succeeded then tx'.success else tx'.failure)| >= CorroborationQuorum(cfg) {
        ProcessNextFrame(cfg, SettleActive(cfg, s, a.request.send, tx', succeeded), now);
        ReplayHealthy(cfg, s, a.request.send, Some(SaturatingAdd(tx'.replayAttempt, 1, U16_MAX)), now);
      }
    }
  }

  lemma StepHealthy(cfg: Config, s: State, t: Timed)
    requires ValidConfig(cfg) && Healthy(cfg, s)
    ensures Healthy(cfg, Step(cfg, s, t))
  {
    match t.call
    case CallPublish(name, params, callerId) =>
      var numbered := s.(nextTxId := (s.nextTxId + 1) % U32_RANGE);
      AcceptHealthy(cfg, numbered, Send(SendRequest(s.nextTxId, name, params, callerId)), t.now);
    case CallLowerProof(lowerId, params, callerId) =>
      AcceptHealthy(cfg, s, LowerProof(LowerRequest(lowerId, params, callerId)), t.now);
    case CallConfirm(id, confirmation, author) =>
      ConfirmHealthy(cfg, s, id, confirmation, author, t.now);
    case CallTxHash(id, hash, author) =>
    case CallCorroborate(id, succeeded, hashValid, author, attempt, callbackOk) =>
      CorroborateHealthy(cfg, s, id, succeeded, hashValid, author, attempt, callbackOk, t.now);
    case CallRemoveActive =>
      if s.active.Some? {
        ProcessNextFrame(cfg, s.(notices := s.notices + [Notice(s.active.value.request, Failed)]), t.now);
      }
    case CallSetInstance(instance) =>
      if s.active.Some? && s.active.value.request.Send? {
        ReplayHealthy(cfg, s.(instance := instance), s.active.value.request.send, None, t.now);
      }
    case CallSetLifetime(seconds) =>
    case CallSetTxId(nextId) =>
  }

  lemma StepInv(cfg: Config, s: State, t: Timed)
    requires ValidConfig(cfg) && Inv(cfg, s)
    ensures Inv(cfg, Step(cfg, s, t))
  {
    StepFifo(cfg, s, t);
    StepHealthy(cfg, s, t);
  }

  /**
   In every run the requests accepted are the notified ones, then the active one,
   then the queue, in acceptance order, through replays, lower proofs, admin
   removal and set-up failures; and every active transaction's corroborations
   split a set of distinct non-senders, neither side of which has a quorum yet.
   */
  lemma {:induction false} RunInv(cfg: Config, s: State, calls: seq<Timed>)
    requires ValidConfig(cfg) && Inv(cfg, s)
    ensures Inv(cfg, Run(cfg, s, calls))
    decreases |calls|
  {
    if calls != [] {
      RunInv(cfg, s, calls[..|calls| - 1]);
      StepInv(cfg, Run(cfg, s, calls[..|calls| - 1]), calls[|calls| - 1]);
    }
  }

  lemma GenesisInv(cfg: Config, nextTxId: nat, lifetime: nat, instance: Instance)
    ensures Inv(cfg, Genesis(nextTxId, lifetime, instance))
  {
  }
}
