/** Where the request engine's bounds bite: full lists, too many parameters, and the 8-bit validator count. */
module RequestLimits {
  import opened Prelude
  import opened Quorum
  import opened Requests
  import opened RequestTheorems

  // ---------------------------------------------------------------- the list bound

  /** Up to 151 validators no corroboration is ever turned away for lack of room. */
  lemma CorroborationFits(cfg: Config, s: State, id: nat, succeeded: bool, hashValid: bool, author: Account,
                          attempt: nat, callbackOk: bool, now: nat)
    requires ValidConfig(cfg) && Inv(cfg, s) && |cfg.validators| <= 151
    ensures AddCorroboration(cfg, s, id, succeeded, hashValid, author, attempt, callbackOk, now).1
         != Err(ExceedsCorroborationLimit)
  {
    if s.active.Some? && s.active.value.tx.Some? {
      ListsStaySmall(cfg, s.active.value.tx.value);
      assert !ListsFull(s.active.value.tx.value, succeeded, hashValid);
    }
  }

  lemma ListsStaySmall(cfg: Config, tx: EthTransaction)
    requires ValidConfig(cfg) && |cfg.validators| <= 151 && Partitioned(cfg, tx) && Undecided(cfg, tx)
    ensures |tx.success| + |tx.failure| < CONFIRMATIONS_LIMIT
    ensures |tx.validHash| + |tx.invalidHash| < CONFIRMATIONS_LIMIT
  {
    DistinctCount(tx.success + tx.failure);
    DistinctCount(tx.validHash + tx.invalidHash);
    if |cfg.validators| < 2 {
      DistinctCount(cfg.validators);
      SubsetCount(Elements(tx.success + tx.failure), Elements(cfg.validators) - {tx.sender});
    }
  }

  /** A bridge that hashes everything and trusts every signature, with room for `maxQueued` requests. */
  ghost function OpenConfig(validators: seq<Account>, maxQueued: nat): Config {
    Config(validators, maxQueued, _ => true, (name, params, instance) => Some(1), (params, instance) => Some(1),
           (hash, author, signature) => true)
  }

  /** The index of the first sender: the second validator, unless the 8-bit count leaves only the first. */
  ghost function FirstSender(validators: seq<Account>): (r: nat)
    requires |validators| % 256 != 0
    ensures r <= 1 && r < |validators|
  {
    if |validators| % 256 == 1 then 0 else 1
  }

  lemma FirstRotation(validators: seq<Account>)
    requires |validators| % 256 != 0
    ensures NextSender(validators, 0) == Next(validators[FirstSender(validators)], FirstSender(validators))
  {
    var count := |validators| % 256;
    if count > 1 {
      SmallMod(1, count);
    }
  }

  const FIRST: SendRequest := SendRequest(0, "f", [], "")

  /** The first request's transaction, with the given corroborations. */
  ghost function FirstTx(validators: seq<Account>, success: seq<Account>, failure: seq<Account>,
                         validHash: seq<Account>): EthTransaction
    requires |validators| % 256 != 0
  {
    EthTransaction(ExtendParams(FIRST, 0), validators[FirstSender(validators)], 0, ZERO_HASH,
                   success, failure, validHash, [], 0)
  }

  /** The state of a new chain that has published one request. */
  ghost function FirstState(tx: EthTransaction, senderIndex: nat): State {
    Genesis(0, 0, 0).(
      active := Some(ActiveRequest(Send(FIRST), 1, [], Some(tx))),
      nextTxId := 1, senderIndex := senderIndex, accepted := [Send(FIRST)])
  }

  lemma ShortParams(send: SendRequest)
    requires send.params == [] && send.txId == 0
    ensures BoundParams(ExtendParams(send, 0)).None?
  {
    var params := ExtendParams(send, 0);
    assert |Decimal(0)| == 1;
    assert BoundParam(params[0]).None? && BoundParam(params[1]).None?;
    assert forall p :: p in params ==> p == params[0] || p == params[1];
  }

  lemma SetUpFirst(validators: seq<Account>, maxQueued: nat, s: State)
    requires |validators| % 256 != 0 && s == Genesis(0, 0, 0).(nextTxId := 1, accepted := [Send(FIRST)])
    ensures SetUpActiveTx(OpenConfig(validators, maxQueued), s, FIRST, None, 0)
         == Ok(FirstState(FirstTx(validators, [], [], []), FirstSender(validators)))
  {
    ShortParams(FIRST);
    FirstRotation(validators);
  }

  lemma PublishFirst(validators: seq<Account>, maxQueued: nat)
    requires |validators| % 256 != 0
    ensures Step(OpenConfig(validators, maxQueued), Genesis(0, 0, 0), Timed(CallPublish("f", [], ""), 0))
         == FirstState(FirstTx(validators, [], [], []), FirstSender(validators))
  {
    var numbered := Genesis(0, 0, 0).(nextTxId := 1);
    assert numbered.accepted + [Send(FIRST)] == [Send(FIRST)];
    SetUpFirst(validators, maxQueued, numbered.(accepted := [Send(FIRST)]));
    SmallMod(1, U32_RANGE);
  }

  /** A run that publishes one request and has `k` authors corroborate it, fifty each way, with the hash valid. */
  ghost function Split(validators: seq<Account>, k: nat): seq<Timed>
    requires k + 2 < |validators|
  {
    if k == 0 then [Timed(CallPublish("f", [], ""), 0)] else Split(validators, k - 1) + [SplitCall(validators, k)]
  }

  ghost function SplitCall(validators: seq<Account>, k: nat): Timed
    requires 0 < k && k + 2 < |validators|
  {
    Timed(CallCorroborate(0, k <= 50, true, validators[1 + k], 0, true), 0)
  }

  /** The validators such a run is made with: enough for the bound to bite, and a rotation that does not trap. */
  ghost predicate CanSplit(validators: seq<Account>) {
    Distinct(validators) && 152 <= |validators| && |validators| % 256 != 0
  }

  ghost function SplitTx(validators: seq<Account>, k: nat): EthTransaction
    requires CanSplit(validators) && k <= 100
  {
    var half := Min(k, 50);
    FirstTx(validators, validators[2..2 + half], validators[2 + half..2 + k], validators[2..2 + k])
  }

  ghost function SplitState(validators: seq<Account>, k: nat): State
    requires CanSplit(validators) && k <= 100
  {
    FirstState(SplitTx(validators, k), FirstSender(validators))
  }

  lemma SliceGrows(s: seq<Account>, from: nat, to: nat)
    requires from <= to < |s|
    ensures s[from..to] + [s[to]] == s[from..to + 1]
  {
  }

  lemma NotBefore(s: seq<Account>, from: nat, to: nat, n: nat)
    requires Distinct(s) && from <= to <= n < |s|
    ensures s[n] !in s[from..to]
  {
    forall i | 0 <= i < to - from ensures s[from..to][i] != s[n] {
      assert s[from..to][i] == s[from + i];
    }
  }

  /** The next author is not on any list, nor the sender. */
  lemma SplitAuthorIsNew(validators: seq<Account>, k: nat)
    requires CanSplit(validators) && 0 < k <= 101
    ensures var tx, author := SplitTx(validators, k - 1), validators[1 + k];
            RequiresCorroboration(tx, author) && author != tx.sender
  {
    var half := Min(k - 1, 50);
    NotBefore(validators, 2, 2 + half, 1 + k);
    NotBefore(validators, 2 + half, 1 + k, 1 + k);
  }

  lemma SplitTxStep(validators: seq<Account>, k: nat)
    requires CanSplit(validators) && 0 < k <= 100
    ensures Corroborated(SplitTx(validators, k - 1), validators[1 + k], k <= 50, true) == SplitTx(validators, k)
  {
    SliceGrows(validators, 2, 1 + k);
    if k <= 50 {
      assert validators[1 + k..1 + k] == validators[2 + k..2 + k] == [];
    } else {
      SliceGrows(validators, 52, 1 + k);
    }
  }

  /** Below fifty on either side the quorum of more than 151 authors is out of reach. */
  lemma SplitUndecided(validators: seq<Account>, maxQueued: nat, k: nat)
    requires CanSplit(validators) && k <= 100
    ensures var tx, q := SplitTx(validators, k), CorroborationQuorum(OpenConfig(validators, maxQueued));
            |tx.success| <= 50 < q && |tx.failure| <= 50
  {
  }

  lemma SplitStep(validators: seq<Account>, k: nat)
    requires CanSplit(validators) && 0 < k <= 100
    ensures Step(OpenConfig(validators, 0), SplitState(validators, k - 1), SplitCall(validators, k))
         == SplitState(validators, k)
  {
    SplitAuthorIsNew(validators, k);
    SplitTxStep(validators, k);
    SplitUndecided(validators, 0, k);
    SplitUndecided(validators, 0, k - 1);
  }

  lemma SplitStart(validators: seq<Account>)
    requires CanSplit(validators)
    ensures Run(OpenConfig(validators, 0), Genesis(0, 0, 0), Split(validators, 0)) == SplitState(validators, 0)
  {
    var cfg := OpenConfig(validators, 0);
    PublishFirst(validators, 0);
    RunOne(cfg, Genesis(0, 0, 0), Timed(CallPublish("f", [], ""), 0));
    assert validators[2..2] == [];
  }

  lemma {:induction false} SplitReaches(validators: seq<Account>, k: nat)
    requires CanSplit(validators) && k <= 100
    ensures Run(OpenConfig(validators, 0), Genesis(0, 0, 0), Split(validators, k)) == SplitState(validators, k)
  {
    if k == 0 {
      SplitStart(validators);
    } else {
      SplitReaches(validators, k - 1);
      SplitStep(validators, k);
      RunAppend(OpenConfig(validators, 0), Genesis(0, 0, 0), Split(validators, k - 1), SplitCall(validators, k));
    }
  }

  lemma SplitFills(validators: seq<Account>, k: nat)
    requires CanSplit(validators) && k == CONFIRMATIONS_LIMIT
    ensures AddCorroboration(OpenConfig(validators, 0), SplitState(validators, k), 0, true, true, validators[2 + k], 0,
                             true, 0).1
         == Err(ExceedsCorroborationLimit)
  {
    SplitAuthorIsNew(validators, k + 1);
  }

  /**
   From 152 validators on the bound does bite, unless no request is ever sent: a hundred
   authors who agree on the hash and split evenly on the outcome leave no room for the next.
   */
  lemma CorroborationListFills(validators: seq<Account>)
    requires CanSplit(validators)
    ensures exists calls, author :: author in validators &&
              AddCorroboration(OpenConfig(validators, 0), Run(OpenConfig(validators, 0), Genesis(0, 0, 0), calls), 0, true,
                               true, author, 0, true, 0).1
              == Err(ExceedsCorroborationLimit)
  {
    var k := CONFIRMATIONS_LIMIT;
    SplitReaches(validators, k);
    SplitFills(validators, k);
    assert validators[2 + k] in validators;
  }

  // ---------------------------------------------------------------- too many parameters

  /** A send request whose two extra parameters do not fit. */
  predicate Wide(req: Request) {
    req.Send? && |req.send.params| + 2 > PARAMS_LIMIT
  }

  ghost predicate WideOnlyFail(s: State) {
    forall i :: 0 <= i < |s.notices| ==> Wide(s.notices[i].request) ==> s.notices[i].outcome == Failed
  }

  lemma WideNotices(s: State, s': State)
    requires ActiveShape(s) && WideOnlyFail(s) && NoticesGrow(s, s')
    ensures WideOnlyFail(s')
  {
    forall i | 0 <= i < |s'.notices| && Wide(s'.notices[i].request) ensures s'.notices[i].outcome == Failed {
      if i < |s.notices| {
        assert s'.notices[i] == s.notices[i];
      }
    }
  }

  /** No run ever sends a request of more than three parameters: such a request is never active, and only ever fails. */
  lemma {:induction false} WideRequestsFail(cfg: Config, s: State, calls: seq<Timed>)
    requires ValidConfig(cfg) && Inv(cfg, s) && WideOnlyFail(s)
    ensures var s' := Run(cfg, s, calls);
            WideOnlyFail(s') && (s'.active.Some? ==> !Wide(s'.active.value.request))
    decreases |calls|
  {
    RunInv(cfg, s, calls);
    if calls != [] {
      var init, last := calls[..|calls| - 1], calls[|calls| - 1];
      WideRequestsFail(cfg, s, init);
      RunInv(cfg, s, init);
      StepNotices(cfg, Run(cfg, s, init), last);
      WideNotices(Run(cfg, s, init), Run(cfg, s, calls));
    }
  }

  /**
   The two limits disagree about such a request: with nothing active publishing it is an
   error, with something active it is queued like any other.
   */
  lemma WideRequestAcceptedIffQueued(cfg: Config, s: State, name: string, params: seq<Param>, callerId: string, now: nat)
    requires |params| + 2 > PARAMS_LIMIT && BoundParams(params).None?
    requires cfg.isUtf8(name) && 0 < |name| <= FUNCTION_LIMIT && |callerId| <= CALLER_ID_LIMIT
    ensures var (s', r) := Publish(cfg, s, name, params, callerId, now);
            && (r.Ok? <==> s.active.Some? && |s.queue| < cfg.maxQueued)
            && (r.Ok? ==> s'.queue == s.queue + [Send(SendRequest(s.nextTxId, name, params, callerId))])
            && (r.Err? ==> s' == s)
  {
  }

  /** A run with such a request: published, queued behind another, and failed when its turn comes. */
  lemma WideRequestRun(validators: seq<Account>, maxQueued: nat, params: seq<Param>)
    requires |validators| % 256 != 0 && maxQueued > 0
    requires |params| + 2 > PARAMS_LIMIT && BoundParams(params).None?
    ensures var cfg, wide := OpenConfig(validators, maxQueued), SendRequest(1, "f", params, "");
            var s1 := Step(cfg, Genesis(0, 0, 0), Timed(CallPublish("f", [], ""), 0));
            var s2 := Step(cfg, s1, Timed(CallPublish("f", params, ""), 0));
            var s3 := Step(cfg, s2, Timed(CallRemoveActive, 0));
            && s2.queue == [Send(wide)]
            && s3.notices == [Notice(Send(FIRST), Failed), Notice(Send(wide), Failed)] && s3.active.None?
  {
    var cfg, wide := OpenConfig(validators, maxQueued), SendRequest(1, "f", params, "");
    PublishFirst(validators, maxQueued);
    var s1 := FirstState(FirstTx(validators, [], [], []), FirstSender(validators));
    WideRequestAcceptedIffQueued(cfg, s1, "f", params, "", 0);
    var s2 := Step(cfg, s1, Timed(CallPublish("f", params, ""), 0));
    assert s1.queue + [Send(wide)] == [Send(wide)];
    WideIsSkipped(cfg, s2.(notices := [Notice(Send(FIRST), Failed)]), wide, 0);
    assert s2.notices + [Notice(Send(FIRST), Failed)] == [Notice(Send(FIRST), Failed)];
  }

  lemma WideIsSkipped(cfg: Config, s: State, wide: SendRequest, now: nat)
    requires s.queue == [Send(wide)] && Wide(Send(wide))
    ensures var r := ProcessNext(cfg, s, now);
            r.Ok? && r.value.active.None? && r.value.notices == s.notices + [Notice(Send(wide), Failed)]
  {
    assert s.queue[1..] == [];
    WideSetUpFails(cfg, s.(active := None, queue := []), wide, now);
  }

  lemma WideSetUpFails(cfg: Config, s: State, wide: SendRequest, now: nat)
    requires Wide(Send(wide))
    ensures var r := SetUpActiveTx(cfg, s, wide, None, now); r.Err? && r.error != Trapped
  {
  }

  // ---------------------------------------------------------------- the 8-bit validator count

  /** The rotation divides by zero exactly for a positive multiple of 256 validators; else it names one of them. */
  lemma RotationTrapsIff(validators: seq<Account>, index: nat)
    ensures NextSender(validators, index).DivisionByZero? <==> |validators| > 0 && |validators| % 256 == 0
    ensures |validators| <= 256 ==> (NextSender(validators, index).DivisionByZero? <==> |validators| == 256)
    ensures var r := NextSender(validators, index);
            r.Next? ==> r.index < |validators| && r.sender == validators[r.index]
  {
  }

  /** The state of a bridge that has never sent anything. */
  ghost predicate NeverSent(s: State) {
    && (s.active.Some? ==> s.active.value.request.LowerProof?)
    && s.settled == map[] && s.offences == []
    && forall i :: 0 <= i < |s.notices| ==> s.notices[i].request.Send? ==> s.notices[i].outcome == Failed
  }

  lemma {:induction false} MoveOnNeverSends(cfg: Config, s: State, now: nat)
    requires ValidConfig(cfg) && |cfg.validators| > 0 && |cfg.validators| % 256 == 0
    ensures var r := ProcessNext(cfg, s, now);
            r.Ok? && r.value.active.Some? ==> r.value.active.value.request.LowerProof?
    decreases |s.queue|
  {
    if s.queue != [] {
      var req, rest := s.queue[0], s.(active := None, queue := s.queue[1..]);
      if SetUp(cfg, rest, req, now).Err? {
        MoveOnNeverSends(cfg, rest.(notices := rest.notices + [Notice(req, Failed)]), now);
      }
    }
  }

  lemma MoveOnNeverSent(cfg: Config, s: State, done: State, outcome: Outcome, now: nat)
    requires ValidConfig(cfg) && |cfg.validators| > 0 && |cfg.validators| % 256 == 0
    requires NeverSent(s) && s.active.Some?
    requires done == s.(notices := s.notices + [Notice(s.active.value.request, outcome)])
    ensures NeverSent(MoveOn(cfg, s, done, now).0)
  {
    MoveOnNeverSends(cfg, done, now);
    ProcessNextFrame(cfg, done, now);
  }

  lemma NeverSentStep(cfg: Config, s: State, t: Timed)
    requires ValidConfig(cfg) && |cfg.validators| > 0 && |cfg.validators| % 256 == 0
    requires ActiveShape(s) && NeverSent(s)
    ensures NeverSent(Step(cfg, s, t))
  {
    match t.call
    case CallConfirm(id, confirmation, author) =>
      if s.active.Some? {
        var a := s.active.value;
        var proof := Proof(a.confirmations + [confirmation]);
        MoveOnNeverSent(cfg, s, s.(notices := s.notices + [Notice(a.request, proof)]), proof, t.now);
      }
    case CallRemoveActive =>
      if s.active.Some? {
        MoveOnNeverSent(cfg, s, s.(notices := s.notices + [Notice(s.active.value.request, Failed)]), Failed, t.now);
      }
    case _ =>
  }

  /** With a positive multiple of 256 validators no run ever has an active send request, settles one or reports anybody. */
  lemma {:induction false} NothingIsEverSent(cfg: Config, s: State, calls: seq<Timed>)
    requires ValidConfig(cfg) && |cfg.validators| > 0 && |cfg.validators| % 256 == 0
    requires Inv(cfg, s) && NeverSent(s)
    ensures NeverSent(Run(cfg, s, calls))
    decreases |calls|
  {
    if calls != [] {
      var init := calls[..|calls| - 1];
      NothingIsEverSent(cfg, s, init);
      RunInv(cfg, s, init);
      NeverSentStep(cfg, Run(cfg, s, init), calls[|calls| - 1]);
    }
  }

  /**
   A registry of 256 validators is one: publishing on a new chain traps and changes
   nothing, and no run from there ever sends anything.
   */
  lemma TrapsAt256(validators: seq<Account>, calls: seq<Timed>)
    requires Distinct(validators) && |validators| == 256
    ensures Publish(OpenConfig(validators, 0), Genesis(0, 0, 0), "f", [], "", 0) == (Genesis(0, 0, 0), Err(Trapped))
    ensures NeverSent(Run(OpenConfig(validators, 0), Genesis(0, 0, 0), calls))
  {
    var cfg := OpenConfig(validators, 0);
    ShortParams(FIRST);
    GenesisInv(cfg, 0, 0, 0);
    NothingIsEverSent(cfg, Genesis(0, 0, 0), calls);
  }

  // ---------------------------------------------------------------- a queue that stops for good

  const U64_MAX: nat := 0xFFFF_FFFF_FFFF_FFFF

  ghost function Pow10(d: nat): nat {
    if d == 0 then 1 else 10 * Pow10(d - 1)
  }

  lemma {:induction false} DecimalLength(n: nat, d: nat)
    requires d > 0 && n < Pow10(d)
    ensures |Decimal(n)| <= d
    decreases n
  {
    if n >= 10 {
      assert d > 1;
      DecimalLength(n / 10, d - 1);
    }
  }

  /** A 64-bit time plus a 64-bit lifetime has at most twenty digits. */
  lemma ExpiryFits(expiry: nat)
    requires expiry <= 2 * U64_MAX
    ensures |Decimal(expiry)| <= 20
  {
    assert Pow10(5) == 100000;
    assert Pow10(10) == 100000 * Pow10(5);
    assert Pow10(15) == 100000 * Pow10(10);
    assert Pow10(20) == 100000 * Pow10(15);
    DecimalLength(expiry, 20);
  }

  /** A request that passes every check before a sender is chosen, whenever that is. */
  ghost predicate Sendable(cfg: Config, send: SendRequest) {
    && !Wide(Send(send)) && send.txId <= U32_MAX
    && (forall p :: p in send.params ==> BoundParam(p).None?)
    && (forall params, instance :: cfg.functionHash(send.functionName, params, instance).Some?)
  }

  lemma SendableTraps(cfg: Config, s: State, send: SendRequest, replay: Option<nat>, now: nat)
    requires |cfg.validators| > 0 && |cfg.validators| % 256 == 0 && Sendable(cfg, send)
    requires s.lifetime <= U64_MAX && now <= U64_MAX
    ensures SetUpActiveTx(cfg, s, send, replay, now) == Err(Trapped)
  {
    var expiry := now + s.lifetime;
    var params := ExtendParams(send, expiry);
    ExpiryFits(expiry);
    ExpiryFits(send.txId);
    forall p | p in params ensures BoundParam(p).None? {
      assert p in send.params || p == Param("uint256", Decimal(expiry)) || p == Param("uint32", Decimal(send.txId));
    }
  }

  /** A lower proof is active with a sendable request first in the queue behind it. */
  ghost predicate Wedged(cfg: Config, s: State, req: LowerRequest, send: SendRequest) {
    && HoldsLowerProof(s, req) && s.lifetime <= U64_MAX
    && s.queue != [] && s.queue[0] == Send(send) && Sendable(cfg, send)
  }

  /** The clock and the lifetime are 64-bit. */
  predicate Timely(t: Timed) {
    t.now <= U64_MAX && (t.call.CallSetLifetime? ==> t.call.seconds <= U64_MAX)
  }

  /** Then not even the administrator can end the lower proof: the removal traps on the next request. */
  lemma RemovalTraps(cfg: Config, s: State, req: LowerRequest, send: SendRequest, now: nat)
    requires |cfg.validators| > 0 && |cfg.validators| % 256 == 0 && Wedged(cfg, s, req, send) && now <= U64_MAX
    ensures RemoveActiveRequest(cfg, s, now) == (s, Err(Trapped))
  {
    var failed := s.(notices := s.notices + [Notice(s.active.value.request, Failed)]);
    SendableTraps(cfg, failed.(active := None, queue := s.queue[1..]), send, None, now);
  }

  lemma WedgedStep(cfg: Config, s: State, req: LowerRequest, send: SendRequest, t: Timed)
    requires |cfg.validators| > 0 && |cfg.validators| % 256 == 0 && Inv(cfg, s)
    requires Wedged(cfg, s, req, send) && Timely(t)
    ensures Wedged(cfg, Step(cfg, s, t), req, send) && Step(cfg, s, t).notices == s.notices
  {
    if t.call.CallRemoveActive? {
      RemovalTraps(cfg, s, req, send, t.now);
    } else {
      LowerProofStays(cfg, s, req, t);
      QueueStays(cfg, s, req, t);
    }
  }

  lemma QueueStays(cfg: Config, s: State, req: LowerRequest, t: Timed)
    requires |cfg.validators| > 151 && Inv(cfg, s) && HoldsLowerProof(s, req) && !t.call.CallRemoveActive?
    requires s.lifetime <= U64_MAX && Timely(t)
    ensures s.queue <= Step(cfg, s, t).queue && Step(cfg, s, t).lifetime <= U64_MAX
  {
    assert RequiredForSupermajority(|cfg.validators|) > CONFIRMATIONS_LIMIT;
  }

  /**
   With a positive multiple of 256 validators a lower proof that has a sendable request
   queued next is never ended by anything, the administrator's removal included.
   */
  lemma {:induction false} WedgedForever(cfg: Config, s: State, req: LowerRequest, send: SendRequest, calls: seq<Timed>)
    requires ValidConfig(cfg) && |cfg.validators| > 0 && |cfg.validators| % 256 == 0 && Inv(cfg, s)
    requires Wedged(cfg, s, req, send) && forall t :: t in calls ==> Timely(t)
    ensures Wedged(cfg, Run(cfg, s, calls), req, send) && Run(cfg, s, calls).notices == s.notices
    decreases |calls|
  {
    if calls != [] {
      var init, last := calls[..|calls| - 1], calls[|calls| - 1];
      WedgedForever(cfg, s, req, send, init);
      RunInv(cfg, s, init);
      assert last in calls;
      WedgedStep(cfg, Run(cfg, s, init), req, send, last);
    }
  }

  /** It takes a lower proof and a publication on a new chain to get there. */
  lemma WedgedFromGenesis(validators: seq<Account>, maxQueued: nat, req: LowerRequest)
    requires Distinct(validators) && |validators| > 0 && |validators| % 256 == 0 && maxQueued > 0
    requires |req.callerId| <= CALLER_ID_LIMIT
    ensures var cfg := OpenConfig(validators, maxQueued);
            var s1 := Step(cfg, Genesis(0, 0, 0), Timed(CallLowerProof(req.lowerId, req.params, req.callerId), 0));
            var s2 := Step(cfg, s1, Timed(CallPublish("f", [], ""), 0));
            Inv(cfg, s2) && Wedged(cfg, s2, req, FIRST)
  {
    var cfg := OpenConfig(validators, maxQueued);
    GenesisInv(cfg, 0, 0, 0);
    LowerProofStarts(cfg, Genesis(0, 0, 0), req, 0);
    var s1 := Step(cfg, Genesis(0, 0, 0), Timed(CallLowerProof(req.lowerId, req.params, req.callerId), 0));
    StepInv(cfg, s1, Timed(CallPublish("f", [], ""), 0));
    assert [] + [Send(FIRST)] == [Send(FIRST)];
  }
}
