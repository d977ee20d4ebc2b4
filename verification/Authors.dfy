/**
 The author registry: authors join and leave in two phases, a request sent to
 Ethereum and a callback that completes it or undoes it.
 */
module Authors {
  import opened Prelude

  type Account = nat

  /** Public keys, numbered in the order storage iterates them. */
  type EthKey = nat
  type TxId = nat

  const MAX_AUTHORS: nat := 256

  datatype Error =
    | NoAuthors | AuthorAlreadyExists | AuthorEthKeyAlreadyExists | MaximumAuthorsReached
    | ErrorConvertingAccountIdToAuthorId | AuthorSessionKeysNotSet | ValidatorActionAlreadyInProgress
    | InvalidPublicKey | ErrorSubmitCandidateTxnToTier1 | MinimumAuthorsReached | AuthorNotFound
    | AuthorsActionDataNotFound

  datatype ActionType = Resignation | Slashed | Activation | Unknown | Registration {
    predicate IsDeregistration() { Resignation? || Slashed? }
  }

  datatype Status = AwaitingConfirmation | Confirmed | Actioned | Unset {
    predicate IsActive() { AwaitingConfirmation? || Confirmed? }
  }

  datatype ActionId = ActionId(account: Account, counter: nat)

  datatype Action = Action(status: Status, tx: TxId, kind: ActionType)

  datatype State = State(
    authors: Option<seq<Account>>,
    actions: map<ActionId, Action>,
    ethKeys: map<EthKey, Account>,
    accountKeys: map<Account, EthKey>,
    txToAction: map<TxId, ActionId>,
    ingress: nat)

  /** Account conversion and key decompression are arbitrary functions. */
  datatype Config = Config(minAuthors: nat, convertible: Account -> bool, decompresses: EthKey -> bool)

  // ---------------------------------------------------------------- requests

  predicate HasAnyActiveAction(s: State) {
    exists id :: id in s.actions && s.actions[id].status.IsActive()
  }

  function CheckAdd(cfg: Config, s: State, account: Account, key: EthKey, sessionKeysSet: bool): Option<Error> {
    if s.authors.None? || s.authors.value == [] then Some(NoAuthors)
    else if account in s.authors.value then Some(AuthorAlreadyExists)
    else if key in s.ethKeys then Some(AuthorEthKeyAlreadyExists)
    else if |s.authors.value| >= MAX_AUTHORS then Some(MaximumAuthorsReached)
    else if !cfg.convertible(account) then Some(ErrorConvertingAccountIdToAuthorId)
    else if !sessionKeysSet then Some(AuthorSessionKeysNotSet)
    else if HasAnyActiveAction(s) then Some(ValidatorActionAlreadyInProgress)
    else None
  }

  /** A published action: a fresh id awaiting confirmation, found again by its transaction. */
  function Publish(s: State, account: Account, kind: ActionType, tx: TxId): State {
    var id := ActionId(account, s.ingress + 1);
    s.(ingress := s.ingress + 1,
       actions := s.actions[id := Action(AwaitingConfirmation, tx, kind)],
       txToAction := s.txToAction[tx := id])
  }

  /** `published` is the bridge's answer. */
  function AddAuthor(cfg: Config, s: State, account: Account, key: EthKey, sessionKeysSet: bool,
                     published: Option<TxId>): (State, Result<(), Error>)
  {
    var rejected := CheckAdd(cfg, s, account, key, sessionKeysSet);
    if rejected.Some? then (s, Err(rejected.value))
    else if !cfg.decompresses(key) then (s, Err(InvalidPublicKey))
    else if published.None? then (s, Err(ErrorSubmitCandidateTxnToTier1))
    else
      var keyed := s.(ethKeys := s.ethKeys[key := account], accountKeys := s.accountKeys[account := key]);
      (Publish(keyed, account, Registration, published.value), Ok(()))
  }

  function CheckRemove(cfg: Config, s: State, account: Account): Option<Error> {
    if s.authors.None? then Some(NoAuthors)
    else if |s.authors.value| <= cfg.minAuthors then Some(MinimumAuthorsReached)
    else if account !in s.authors.value then Some(AuthorNotFound)
    else if HasAnyActiveAction(s) then Some(ValidatorActionAlreadyInProgress)
    else if account !in s.accountKeys then Some(AuthorNotFound)
    else if !cfg.decompresses(s.accountKeys[account]) then Some(InvalidPublicKey)
    else None
  }

  function RemoveAuthor(cfg: Config, s: State, account: Account, published: Option<TxId>): (State, Result<(), Error>) {
    var rejected := CheckRemove(cfg, s, account);
    if rejected.Some? then (s, Err(rejected.value))
    else if published.None? then (s, Err(ErrorSubmitCandidateTxnToTier1))
    else (Publish(s, account, Resignation, published.value), Ok(()))
  }

  function RotateKey(s: State, account: Account, oldKey: EthKey, newKey: EthKey): (State, Result<(), Error>) {
    if newKey in s.ethKeys then (s, Err(AuthorEthKeyAlreadyExists))
    else if oldKey == newKey then (s, Err(AuthorEthKeyAlreadyExists))
    else if oldKey !in s.ethKeys || s.ethKeys[oldKey] != account then (s, Err(AuthorNotFound))
    else (s.(ethKeys := (s.ethKeys - {oldKey})[newKey := account]), Ok(()))
  }

  // ---------------------------------------------------------------- the callback

  predicate IsFirstKey(ethKeys: map<EthKey, Account>, account: Account, key: EthKey) {
    && key in ethKeys && ethKeys[key] == account
    && forall k :: k in ethKeys && ethKeys[k] == account ==> key <= k
  }

  /** The keys without the first one that names the account, if any does. */
  ghost function DropKey(ethKeys: map<EthKey, Account>, account: Account): map<EthKey, Account> {
    if k :| IsFirstKey(ethKeys, account, k) then ethKeys - {k} else ethKeys
  }

  function SetAction(s: State, id: ActionId, status: Status, kind: ActionType): State
    requires id in s.actions
  {
    s.(actions := s.actions[id := s.actions[id].(status := status, kind := kind)])
  }

  /** A failed registration takes its keys back; any failed action is forgotten. */
  function Rollback(s: State, id: ActionId): State
    requires id in s.actions
  {
    var forgotten := s.(actions := s.actions - {id});
    if s.actions[id].kind.Registration? && id.account in s.accountKeys then
      forgotten.(ethKeys := s.ethKeys - {s.accountKeys[id.account]}, accountKeys := s.accountKeys - {id.account})
    else forgotten
  }

  function CompleteRegistration(cfg: Config, s: State, id: ActionId): Result<State, Error>
    requires id in s.actions
  {
    var authors := if s.authors.Some? then s.authors.value else [];
    if |authors| >= MAX_AUTHORS then Err(MaximumAuthorsReached)
    else if !cfg.convertible(id.account) then Err(ErrorConvertingAccountIdToAuthorId)
    else Ok(SetAction(s, id, Actioned, Activation).(authors := Some(authors + [id.account])))
  }

  ghost function CompleteDeregistration(s: State, id: ActionId): State
    requires id in s.actions
  {
    SetAction(s, id, Actioned, s.actions[id].kind).(
      authors := if s.authors.Some? then Some(Without(s.authors.value, id.account)) else None,
      ethKeys := DropKey(s.ethKeys, id.account))
  }

  ghost function ProcessResult(cfg: Config, s: State, tx: TxId, forUs: bool, succeeded: bool): (State, Result<(), Error>) {
    if !forUs || tx !in s.txToAction then (s, Ok(()))
    else
      var id := s.txToAction[tx];
      var taken := s.(txToAction := s.txToAction - {tx});
      if id !in s.actions then (s, Err(AuthorsActionDataNotFound))
      else if !succeeded then (Rollback(taken, id), Ok(()))
      else
        match s.actions[id].kind
        case Registration =>
          (match CompleteRegistration(cfg, taken, id)
           case Ok(s') => (s', Ok(()))
           case Err(e) => (s, Err(e)))
        case _ =>
          if s.actions[id].kind.IsDeregistration() then (CompleteDeregistration(taken, id), Ok(()))
          else (taken, Ok(()))
  }

  // ---------------------------------------------------------------- sessions

  predicate PermanentlyRemoved(active: seq<Account>, disabled: seq<Account>, account: Account) {
    account !in active && account !in disabled
  }

  /** What a new session does to one action. */
  ghost function ReviewAction(s: State, id: ActionId, active: seq<Account>, disabled: seq<Account>): State {
    if id !in s.actions || !s.actions[id].status.AwaitingConfirmation? then s
    else if s.actions[id].kind.IsDeregistration() && PermanentlyRemoved(active, disabled, id.account) then
      SetAction(s, id, Confirmed, s.actions[id].kind).(ethKeys := DropKey(s.ethKeys, id.account))
    else if s.actions[id].kind.Activation? then SetAction(s, id, Confirmed, Activation)
    else s
  }

  /** `order` is the order the actions are iterated in. */
  ghost function NewSession(s: State, order: seq<ActionId>, active: seq<Account>, disabled: seq<Account>): State
    decreases |order|
  {
    if order == [] then s
    else ReviewAction(NewSession(s, order[..|order| - 1], active, disabled), order[|order| - 1], active, disabled)
  }

  datatype Call =
    | CallAdd(account: Account, key: EthKey, sessionKeysSet: bool, published: Option<TxId>)
    | CallRemove(account: Account, published: Option<TxId>)
    | CallRotate(account: Account, key: EthKey, newKey: EthKey)
    | CallResult(tx: TxId, forUs: bool, succeeded: bool)
    | CallSession(order: seq<ActionId>, active: seq<Account>, disabled: seq<Account>)

  ghost function Step(cfg: Config, s: State, c: Call): State {
    match c
    case CallAdd(account, key, sessionKeysSet, published) => AddAuthor(cfg, s, account, key, sessionKeysSet, published).0
    case CallRemove(account, published) => RemoveAuthor(cfg, s, account, published).0
    case CallRotate(account, key, newKey) => RotateKey(s, account, key, newKey).0
    case CallResult(tx, forUs, succeeded) => ProcessResult(cfg, s, tx, forUs, succeeded).0
    case CallSession(order, active, disabled) => NewSession(s, order, active, disabled)
  }

  ghost function Run(cfg: Config, s: State, calls: seq<Call>): State
    decreases |calls|
  {
    if calls == [] then s else Step(cfg, Run(cfg, s, calls[..|calls| - 1]), calls[|calls| - 1])
  }

  // ---------------------------------------------------------------- the invariant

  /** The author list is there, without duplicates and within its bounds. */
  ghost predicate AuthorsOk(cfg: Config, s: State) {
    && s.authors.Some? && Distinct(s.authors.value)
    && cfg.minAuthors <= |s.authors.value| <= MAX_AUTHORS
  }

  ghost predicate InFlight(s: State, id: ActionId) {
    id in s.actions && s.actions[id].status.IsActive()
  }

  /** At most one action is in flight, and transactions and in-flight actions name each other. */
  ghost predicate FlightsOk(s: State) {
    && (forall a, b :: InFlight(s, a) && InFlight(s, b) ==> a == b)
    && (forall id :: InFlight(s, id) ==> s.actions[id].tx in s.txToAction && s.txToAction[s.actions[id].tx] == id)
    && (forall tx :: tx in s.txToAction ==>
          InFlight(s, s.txToAction[tx]) && s.actions[s.txToAction[tx]].tx == tx)
    && (forall id :: id in s.actions ==> id.counter <= s.ingress)
  }

  /** An in-flight action can still be completed: there is room for whom it adds, or someone to spare. */
  ghost predicate Completable(cfg: Config, s: State, id: ActionId)
    requires AuthorsOk(cfg, s) && id in s.actions
  {
    var authors := s.authors.value;
    match s.actions[id].kind
    case Registration => id.account !in authors && |authors| < MAX_AUTHORS && cfg.convertible(id.account)
    case Resignation => id.account in authors && |authors| > cfg.minAuthors
    case _ => false
  }

  ghost predicate Inv(cfg: Config, s: State) {
    && AuthorsOk(cfg, s)
    && FlightsOk(s)
    && (forall id :: InFlight(s, id) ==> Completable(cfg, s, id))
  }

  /** The registry as the genesis list builds it, one author at a time. */
  function Genesis(list: seq<(Account, EthKey)>): State {
    if list == [] then State(None, map[], map[], map[], map[], 0)
    else
      var s, (account, key) := Genesis(list[..|list| - 1]), list[|list| - 1];
      s.(authors := Some((if s.authors.Some? then s.authors.value else []) + [account]),
         ethKeys := s.ethKeys[key := account],
         accountKeys := s.accountKeys[account := key])
  }

  lemma {:induction false} GenesisAuthors(list: seq<(Account, EthKey)>)
    requires list != []
    ensures var s := Genesis(list);
            && s.authors.Some? && |s.authors.value| == |list|
            && (forall i :: 0 <= i < |list| ==> s.authors.value[i] == list[i].0)
            && s.actions == map[] && s.txToAction == map[] && s.ingress == 0
    decreases |list|
  {
    if |list| > 1 {
      GenesisAuthors(list[..|list| - 1]);
    } else {
      assert list[..0] == [];
    }
  }

  lemma GenesisInv(cfg: Config, list: seq<(Account, EthKey)>)
    requires list != [] && cfg.minAuthors <= |list| <= MAX_AUTHORS
    requires forall i, j :: 0 <= i < j < |list| ==> list[i].0 != list[j].0
    ensures Inv(cfg, Genesis(list))
  {
    GenesisAuthors(list);
    var s := Genesis(list);
    assert FlightsOk(s) && forall id :: !InFlight(s, id);
    assert Distinct(s.authors.value);
  }

  // ---------------------------------------------------------------- steps keep the invariant

  lemma NothingInFlight(cfg: Config, s: State)
    requires Inv(cfg, s) && !HasAnyActiveAction(s)
    ensures s.txToAction == map[] && forall id :: !InFlight(s, id)
  {
    assert forall tx :: tx in s.txToAction ==> InFlight(s, s.txToAction[tx]);
  }

  /** With nothing in flight a published action is the only one, under a new id and the only mapping. */
  lemma PublishInv(cfg: Config, s: State, account: Account, kind: ActionType, tx: TxId)
    requires Inv(cfg, s) && !HasAnyActiveAction(s)
    requires kind.Registration? ==>
               account !in s.authors.value && |s.authors.value| < MAX_AUTHORS && cfg.convertible(account)
    requires kind.Resignation? ==> account in s.authors.value && |s.authors.value| > cfg.minAuthors
    requires kind.Registration? || kind.Resignation?
    ensures Inv(cfg, Publish(s, account, kind, tx))
  {
    NothingInFlight(cfg, s);
    var s', id := Publish(s, account, kind, tx), ActionId(account, s.ingress + 1);
    forall a | InFlight(s', a) ensures a == id {
      assert a == id || InFlight(s, a);
    }
  }

  lemma AddInv(cfg: Config, s: State, account: Account, key: EthKey, sessionKeysSet: bool, published: Option<TxId>)
    requires Inv(cfg, s)
    ensures Inv(cfg, AddAuthor(cfg, s, account, key, sessionKeysSet, published).0)
  {
    if AddAuthor(cfg, s, account, key, sessionKeysSet, published).1.Ok? {
      var keyed := s.(ethKeys := s.ethKeys[key := account], accountKeys := s.accountKeys[account := key]);
      KeysDoNotMatter(cfg, s, keyed.ethKeys, keyed.accountKeys);
      assert HasAnyActiveAction(keyed) <==> HasAnyActiveAction(s);
      PublishInv(cfg, keyed, account, Registration, published.value);
    }
  }

  lemma KeysDoNotMatter(cfg: Config, s: State, ethKeys: map<EthKey, Account>, accountKeys: map<Account, EthKey>)
    requires Inv(cfg, s)
    ensures Inv(cfg, s.(ethKeys := ethKeys, accountKeys := accountKeys))
  {
    var s' := s.(ethKeys := ethKeys, accountKeys := accountKeys);
    assert forall id :: InFlight(s', id) <==> InFlight(s, id);
  }

  /** Once the transaction is taken and the action leaves flight, nothing is in flight. */
  lemma LandedInv(cfg: Config, s: State, s': State, id: ActionId, tx: TxId)
    requires FlightsOk(s) && tx in s.txToAction && s.txToAction[tx] == id
    requires s'.txToAction == s.txToAction - {tx} && s'.ingress == s.ingress
    requires s'.actions.Keys <= s.actions.Keys
    requires forall a :: a in s'.actions && a != id ==> s'.actions[a] == s.actions[a]
    requires !InFlight(s', id)
    requires AuthorsOk(cfg, s')
    ensures Inv(cfg, s')
  {
    forall a ensures !InFlight(s', a) {
      assert InFlight(s', a) ==> InFlight(s, a);
    }
    forall t | t in s.txToAction ensures t == tx {
      assert InFlight(s, s.txToAction[t]) && InFlight(s, id);
    }
  }

  lemma ResultInv(cfg: Config, s: State, tx: TxId, forUs: bool, succeeded: bool)
    requires Inv(cfg, s)
    ensures Inv(cfg, ProcessResult(cfg, s, tx, forUs, succeeded).0)
    ensures ProcessResult(cfg, s, tx, forUs, succeeded).1.Ok?
  {
    if forUs && tx in s.txToAction {
      var id, s' := s.txToAction[tx], ProcessResult(cfg, s, tx, forUs, succeeded).0;
      assert InFlight(s, id) && Completable(cfg, s, id);
      if succeeded && s.actions[id].kind.Registration? {
        DistinctAppend(s.authors.value, id.account);
      } else if succeeded {
        WithoutOne(s.authors.value, id.account);
      }
      LandedInv(cfg, s, s', id, tx);
    }
  }

  lemma ReviewInv(cfg: Config, s: State, id: ActionId, active: seq<Account>, disabled: seq<Account>)
    requires Inv(cfg, s)
    ensures Inv(cfg, ReviewAction(s, id, active, disabled))
  {
    var s' := ReviewAction(s, id, active, disabled);
    assert forall a :: InFlight(s', a) <==> InFlight(s, a);
    if id in s.actions {
      assert InFlight(s, id) ==> Completable(cfg, s, id);
    }
  }

  lemma {:induction false} SessionInv(cfg: Config, s: State, order: seq<ActionId>, active: seq<Account>,
                                      disabled: seq<Account>)
    requires Inv(cfg, s)
    ensures Inv(cfg, NewSession(s, order, active, disabled))
    decreases |order|
  {
    if order != [] {
      var init := order[..|order| - 1];
      SessionInv(cfg, s, init, active, disabled);
      ReviewInv(cfg, NewSession(s, init, active, disabled), order[|order| - 1], active, disabled);
    }
  }

  lemma StepInv(cfg: Config, s: State, c: Call)
    requires Inv(cfg, s)
    ensures Inv(cfg, Step(cfg, s, c))
  {
    match c
    case CallAdd(account, key, sessionKeysSet, published) =>
      AddInv(cfg, s, account, key, sessionKeysSet, published);
    case CallRemove(account, published) =>
      if RemoveAuthor(cfg, s, account, published).1.Ok? {
        PublishInv(cfg, s, account, Resignation, published.value);
      }
    case CallRotate(account, key, newKey) =>
      KeysDoNotMatter(cfg, s, RotateKey(s, account, key, newKey).0.ethKeys, s.accountKeys);
    case CallResult(tx, forUs, succeeded) =>
      ResultInv(cfg, s, tx, forUs, succeeded);
    case CallSession(order, active, disabled) =>
      SessionInv(cfg, s, order, active, disabled);
  }

  /**
   From a duplicate-free genesis within bounds, every run keeps the author list
   duplicate-free and within bounds, with at most one action in flight and exactly
   one transaction for it; so no callback ever overflows the list or finds its
   action gone.
   */
  lemma {:induction false} RunInv(cfg: Config, s: State, calls: seq<Call>)
    requires Inv(cfg, s)
    ensures Inv(cfg, Run(cfg, s, calls))
    ensures forall tx, forUs, succeeded :: ProcessResult(cfg, Run(cfg, s, calls), tx, forUs, succeeded).1.Ok?
    decreases |calls|
  {
    if calls != [] {
      RunInv(cfg, s, calls[..|calls| - 1]);
      StepInv(cfg, Run(cfg, s, calls[..|calls| - 1]), calls[|calls| - 1]);
    }
    forall tx, forUs, succeeded ensures ProcessResult(cfg, Run(cfg, s, calls), tx, forUs, succeeded).1.Ok? {
      ResultInv(cfg, Run(cfg, s, calls), tx, forUs, succeeded);
    }
  }

  // ---------------------------------------------------------------- round trips

  /** A registration that fails on Ethereum leaves, but for the used-up counter, no account key behind. */
  lemma FailedRegistration(cfg: Config, s: State, account: Account, key: EthKey, tx: TxId)
    requires Inv(cfg, s)
    requires AddAuthor(cfg, s, account, key, true, Some(tx)).1.Ok?
    ensures var requested := AddAuthor(cfg, s, account, key, true, Some(tx)).0;
            ProcessResult(cfg, requested, tx, true, false)
            == (s.(ingress := s.ingress + 1, accountKeys := s.accountKeys - {account}), Ok(()))
  {
    NothingInFlight(cfg, s);
    var requested := AddAuthor(cfg, s, account, key, true, Some(tx)).0;
    var id, after := ActionId(account, s.ingress + 1), ProcessResult(cfg, requested, tx, true, false).0;
    assert id !in s.actions;
    assert after.actions == s.actions && after.txToAction == s.txToAction;
    assert after.ethKeys == s.ethKeys;
    assert after.accountKeys == s.accountKeys - {account};
  }

  /**
   So it is undone exactly when the account had no key on file: re-registering a former
   author overwrites the old key, which the rollback then drops.
   */
  lemma FailedRegistrationUndoneIff(cfg: Config, s: State, account: Account, key: EthKey, tx: TxId)
    requires Inv(cfg, s)
    requires AddAuthor(cfg, s, account, key, true, Some(tx)).1.Ok?
    ensures var requested := AddAuthor(cfg, s, account, key, true, Some(tx)).0;
            ProcessResult(cfg, requested, tx, true, false) == (s.(ingress := s.ingress + 1), Ok(()))
            <==> account !in s.accountKeys
  {
    FailedRegistration(cfg, s, account, key, tx);
    assert account !in s.accountKeys ==> s.accountKeys - {account} == s.accountKeys;
    assert account !in s.accountKeys - {account};
  }

  /** A removal that fails on Ethereum with no session in between leaves everything but the counter as it was. */
  lemma FailedRemovalUndone(cfg: Config, s: State, account: Account, tx: TxId)
    requires Inv(cfg, s)
    requires RemoveAuthor(cfg, s, account, Some(tx)).1.Ok?
    ensures var requested := RemoveAuthor(cfg, s, account, Some(tx)).0;
            ProcessResult(cfg, requested, tx, true, false) == (s.(ingress := s.ingress + 1), Ok(()))
  {
    NothingInFlight(cfg, s);
    var requested := RemoveAuthor(cfg, s, account, Some(tx)).0;
    var id, after := ActionId(account, s.ingress + 1), ProcessResult(cfg, requested, tx, true, false).0;
    assert id !in s.actions;
    assert after.actions == s.actions && after.txToAction == s.txToAction;
  }

  /** A session reviews the one action in flight, once however often it is iterated, and nothing else. */
  lemma {:induction false} SessionReviewsFlight(cfg: Config, s: State, id: ActionId, order: seq<ActionId>,
                                                active: seq<Account>, disabled: seq<Account>)
    requires Inv(cfg, s) && InFlight(s, id)
    ensures NewSession(s, order, active, disabled) == if id in order then ReviewAction(s, id, active, disabled) else s
    decreases |order|
  {
    if order != [] {
      var init, last := order[..|order| - 1], order[|order| - 1];
      SessionReviewsFlight(cfg, s, id, init, active, disabled);
      assert id in order <==> id in init || id == last;
      ReviewsFlight(cfg, s, id, last, active, disabled);
    }
  }

  lemma ReviewsFlight(cfg: Config, s: State, id: ActionId, other: ActionId, active: seq<Account>, disabled: seq<Account>)
    requires Inv(cfg, s) && InFlight(s, id)
    ensures var reviewed := ReviewAction(s, id, active, disabled);
            ReviewAction(reviewed, other, active, disabled) == reviewed
    ensures other != id ==> ReviewAction(s, other, active, disabled) == s
  {
    assert Completable(cfg, s, id);
    if other != id {
      assert !InFlight(s, other);
    }
  }

  /** A removal is lost sight of by a session that iterates it without having the author in any list. */
  predicate DropsKey(s: State, account: Account, order: seq<ActionId>, active: seq<Account>, disabled: seq<Account>) {
    ActionId(account, s.ingress + 1) in order && PermanentlyRemoved(active, disabled, account)
  }

  /**
   With a new session in between, a failed removal leaves the author listed, but undoes
   everything else only if the session still has the author or no key names them:
   otherwise their first Ethereum key is gone.
   */
  lemma FailedRemovalUndoneIff(cfg: Config, s: State, account: Account, tx: TxId, order: seq<ActionId>,
                               active: seq<Account>, disabled: seq<Account>)
    requires Inv(cfg, s)
    requires RemoveAuthor(cfg, s, account, Some(tx)).1.Ok?
    ensures var session := NewSession(RemoveAuthor(cfg, s, account, Some(tx)).0, order, active, disabled);
            var undone := s.(ingress := s.ingress + 1);
            var lost := DropsKey(s, account, order, active, disabled);
            var after := ProcessResult(cfg, session, tx, true, false);
            && after == (undone.(ethKeys := if lost then DropKey(s.ethKeys, account) else s.ethKeys), Ok(()))
            && (after == (undone, Ok(())) <==> !(lost && account in s.ethKeys.Values))
  {
    SessionOfRemoval(cfg, s, account, tx, order, active, disabled);
    DropKeyIdleIff(s.ethKeys, account);
    var session := NewSession(RemoveAuthor(cfg, s, account, Some(tx)).0, order, active, disabled);
    var after := ProcessResult(cfg, session, tx, true, false).0;
    assert after.actions == s.actions && after.txToAction == s.txToAction;
  }

  lemma SessionOfRemoval(cfg: Config, s: State, account: Account, tx: TxId, order: seq<ActionId>,
                         active: seq<Account>, disabled: seq<Account>)
    requires Inv(cfg, s)
    requires RemoveAuthor(cfg, s, account, Some(tx)).1.Ok?
    ensures var id := ActionId(account, s.ingress + 1);
            var lost := DropsKey(s, account, order, active, disabled);
            id !in s.actions && s.txToAction == map[]
            && NewSession(RemoveAuthor(cfg, s, account, Some(tx)).0, order, active, disabled)
               == s.(ingress := s.ingress + 1,
                     actions := s.actions[id := Action(if lost then Confirmed else AwaitingConfirmation, tx, Resignation)],
                     txToAction := map[tx := id],
                     ethKeys := if lost then DropKey(s.ethKeys, account) else s.ethKeys)
  {
    var requested, id := RemoveAuthor(cfg, s, account, Some(tx)).0, ActionId(account, s.ingress + 1);
    NothingInFlight(cfg, s);
    StepInv(cfg, s, CallRemove(account, Some(tx)));
    assert InFlight(requested, id);
    SessionReviewsFlight(cfg, requested, id, order, active, disabled);
  }

  /** Dropping a key changes something exactly when some key names the account. */
  lemma DropKeyIdleIff(ethKeys: map<EthKey, Account>, account: Account)
    ensures DropKey(ethKeys, account) != ethKeys <==> account in ethKeys.Values
  {
    if account in ethKeys.Values {
      var k :| k in ethKeys && ethKeys[k] == account;
      var first := FirstKey(ethKeys, account, k);
      DropsFirst(ethKeys, account, first);
      assert first !in ethKeys - {first};
    } else {
      assert forall k :: k in ethKeys ==> ethKeys[k] in ethKeys.Values;
    }
  }

  lemma {:induction false} FirstKey(ethKeys: map<EthKey, Account>, account: Account, bound: EthKey) returns (k: EthKey)
    requires bound in ethKeys && ethKeys[bound] == account
    ensures IsFirstKey(ethKeys, account, k)
    decreases bound
  {
    if IsFirstKey(ethKeys, account, bound) {
      k := bound;
    } else {
      var smaller :| smaller in ethKeys && ethKeys[smaller] == account && smaller < bound;
      k := FirstKey(ethKeys, account, smaller);
    }
  }

  lemma DropsFirst(ethKeys: map<EthKey, Account>, account: Account, key: EthKey)
    requires IsFirstKey(ethKeys, account, key)
    ensures DropKey(ethKeys, account) == ethKeys - {key}
  {
    assert forall k :: IsFirstKey(ethKeys, account, k) ==> k == key;
  }

  /** Registering an author and removing them again, both confirmed, gives back the author list. */
  lemma AddThenRemove(cfg: Config, s: State, account: Account, key: EthKey, tx: TxId, tx': TxId)
    requires Inv(cfg, s)
    requires AddAuthor(cfg, s, account, key, true, Some(tx)).1.Ok?
    ensures var added := ProcessResult(cfg, AddAuthor(cfg, s, account, key, true, Some(tx)).0, tx, true, true).0;
            && added.authors == Some(s.authors.value + [account])
            && (RemoveAuthor(cfg, added, account, Some(tx')).1.Ok? ==>
                  ProcessResult(cfg, RemoveAuthor(cfg, added, account, Some(tx')).0, tx', true, true).0.authors
                  == s.authors)
  {
    var requested := AddAuthor(cfg, s, account, key, true, Some(tx)).0;
    var added := ProcessResult(cfg, requested, tx, true, true).0;
    AddInv(cfg, s, account, key, true, Some(tx));
    ResultInv(cfg, requested, tx, true, true);
    WithoutAbsent(s.authors.value, account);
    var longer := s.authors.value + [account];
    assert longer[..|longer| - 1] == s.authors.value;
  }

  // ---------------------------------------------------------------- runs in which something is lost

  lemma RunTwo(cfg: Config, s: State, a: Call, b: Call)
    ensures Run(cfg, s, [a, b]) == Step(cfg, Step(cfg, s, a), b)
  {
    assert [a, b][..1] == [a] && [a][..0] == [];
    assert Run(cfg, s, [a]) == Step(cfg, Run(cfg, s, []), a);
  }

  /** The state after a confirmed registration. */
  ghost function Joined(cfg: Config, s: State, account: Account, key: EthKey, tx: TxId): State {
    Run(cfg, s, [CallAdd(account, key, true, Some(tx)), CallResult(tx, true, true)])
  }

  /** The state after a confirmed removal. */
  ghost function Left(cfg: Config, s: State, account: Account, tx: TxId): State {
    Run(cfg, s, [CallRemove(account, Some(tx)), CallResult(tx, true, true)])
  }

  lemma Joins(cfg: Config, s: State, account: Account, key: EthKey, tx: TxId)
    requires Inv(cfg, s) && AddAuthor(cfg, s, account, key, true, Some(tx)).1.Ok?
    ensures var s' := Joined(cfg, s, account, key, tx);
            && Inv(cfg, s') && !HasAnyActiveAction(s')
            && s'.authors == Some(s.authors.value + [account])
            && s'.accountKeys == s.accountKeys[account := key] && s'.ethKeys == s.ethKeys[key := account]
  {
    var add, confirm := CallAdd(account, key, true, Some(tx)), CallResult(tx, true, true);
    RunTwo(cfg, s, add, confirm);
    NothingInFlight(cfg, s);
    StepInv(cfg, s, add);
    StepInv(cfg, Step(cfg, s, add), confirm);
    assert forall id :: InFlight(Step(cfg, s, add), id) ==> id == ActionId(account, s.ingress + 1);
    assert forall id :: !InFlight(Joined(cfg, s, account, key, tx), id);
  }

  lemma Leaves(cfg: Config, s: State, account: Account, tx: TxId)
    requires Inv(cfg, s) && RemoveAuthor(cfg, s, account, Some(tx)).1.Ok?
    ensures var s' := Left(cfg, s, account, tx);
            && Inv(cfg, s') && !HasAnyActiveAction(s')
            && s'.authors == Some(Without(s.authors.value, account))
            && s'.accountKeys == s.accountKeys && s'.ethKeys == DropKey(s.ethKeys, account)
  {
    var remove, confirm := CallRemove(account, Some(tx)), CallResult(tx, true, true);
    RunTwo(cfg, s, remove, confirm);
    NothingInFlight(cfg, s);
    StepInv(cfg, s, remove);
    StepInv(cfg, Step(cfg, s, remove), confirm);
    assert forall id :: InFlight(Step(cfg, s, remove), id) ==> id == ActionId(account, s.ingress + 1);
    assert forall id :: !InFlight(Left(cfg, s, account, tx), id);
  }

  /** A new author can be removed again at once. */
  lemma CanLeave(cfg: Config, s: State, account: Account, key: EthKey, tx: TxId, tx': TxId)
    requires Inv(cfg, s) && AddAuthor(cfg, s, account, key, true, Some(tx)).1.Ok?
    ensures RemoveAuthor(cfg, Joined(cfg, s, account, key, tx), account, Some(tx')).1.Ok?
  {
    Joins(cfg, s, account, key, tx);
  }

  /** Coming and going, both confirmed, leaves the list as it was, the account key on file and other keys free. */
  lemma ComesAndGoes(cfg: Config, s: State, account: Account, key: EthKey, tx: TxId, tx': TxId)
    requires Inv(cfg, s) && AddAuthor(cfg, s, account, key, true, Some(tx)).1.Ok?
    ensures var left := Left(cfg, Joined(cfg, s, account, key, tx), account, tx');
            && Inv(cfg, left) && !HasAnyActiveAction(left)
            && left.authors == s.authors && account in left.accountKeys
            && left.ethKeys.Keys <= s.ethKeys.Keys + {key}
  {
    Joins(cfg, s, account, key, tx);
    CanLeave(cfg, s, account, key, tx, tx');
    Leaves(cfg, Joined(cfg, s, account, key, tx), account, tx');
    WithoutLast(s.authors.value, account);
  }

  lemma WithoutLast(authors: seq<Account>, account: Account)
    requires account !in authors
    ensures Without(authors + [account], account) == authors
  {
    var longer := authors + [account];
    assert longer[..|longer| - 1] == authors;
    WithoutAbsent(authors, account);
  }

  /**
   Whoever joins, leaves and fails to rejoin under another key ends up off the list as
   before, but without the account key that leaving had kept on file.
   */
  lemma FailedRejoinLosesKey(cfg: Config, s: State, account: Account, key: EthKey, key': EthKey,
                             tx: TxId, tx': TxId, tx'': TxId)
    requires Inv(cfg, s) && AddAuthor(cfg, s, account, key, true, Some(tx)).1.Ok?
    requires key' !in s.ethKeys && key' != key && cfg.decompresses(key')
    ensures var left := Left(cfg, Joined(cfg, s, account, key, tx), account, tx');
            var failed := Run(cfg, left, [CallAdd(account, key', true, Some(tx'')), CallResult(tx'', true, false)]);
            && left.authors == failed.authors == s.authors
            && account in left.accountKeys && account !in failed.accountKeys
  {
    var left := Left(cfg, Joined(cfg, s, account, key, tx), account, tx');
    ComesAndGoes(cfg, s, account, key, tx, tx');
    RunTwo(cfg, left, CallAdd(account, key', true, Some(tx'')), CallResult(tx'', true, false));
    FailedRegistration(cfg, left, account, key', tx'');
  }

  lemma {:induction false} GenesisKeys(list: seq<(Account, EthKey)>, i: nat)
    requires i < |list|
    requires forall j, k :: 0 <= j < k < |list| ==> list[j].0 != list[k].0 && list[j].1 != list[k].1
    ensures var s := Genesis(list);
            && list[i].0 in s.accountKeys && s.accountKeys[list[i].0] == list[i].1
            && list[i].1 in s.ethKeys && s.ethKeys[list[i].1] == list[i].0
    decreases |list|
  {
    var init, last := list[..|list| - 1], list[|list| - 1];
    if i < |init| {
      GenesisKeys(init, i);
      assert list[i] == init[i] && list[i].0 != last.0 && list[i].1 != last.1;
    }
  }

  lemma {:induction false} GenesisFreeKey(list: seq<(Account, EthKey)>, key: EthKey)
    requires forall i :: 0 <= i < |list| ==> list[i].1 != key
    ensures key !in Genesis(list).ethKeys
    decreases |list|
  {
    if list != [] {
      GenesisFreeKey(list[..|list| - 1], key);
    }
  }

  /** A genesis key names the account it is listed with. */
  lemma {:induction false} GenesisKeyOwner(list: seq<(Account, EthKey)>, key: EthKey) returns (i: nat)
    requires key in Genesis(list).ethKeys
    ensures i < |list| && list[i] == (Genesis(list).ethKeys[key], key)
    decreases |list|
  {
    var last := list[|list| - 1];
    if last.1 == key {
      i := |list| - 1;
    } else {
      i := GenesisKeyOwner(list[..|list| - 1], key);
    }
  }

  /** So with no account listed twice each has one key. */
  lemma OnlyKey(list: seq<(Account, EthKey)>, i: nat)
    requires i < |list|
    requires forall j, k :: 0 <= j < k < |list| ==> list[j].0 != list[k].0 && list[j].1 != list[k].1
    ensures var keys := Genesis(list).ethKeys;
            && IsFirstKey(keys, list[i].0, list[i].1)
            && list[i].0 !in (keys - {list[i].1}).Values
  {
    var keys := Genesis(list).ethKeys;
    GenesisKeys(list, i);
    forall k | k in keys && keys[k] == list[i].0 ensures k == list[i].1 {
      var j := GenesisKeyOwner(list, k);
      assert !(j < i) && !(i < j);
    }
  }

  /** Both losses happen in runs from every genesis with room for one more author: here the failed registration. */
  lemma FailedRejoinFromGenesis(cfg: Config, list: seq<(Account, EthKey)>, account: Account, key: EthKey, key': EthKey,
                                tx: TxId, tx': TxId, tx'': TxId)
    requires list != [] && cfg.minAuthors <= |list| < MAX_AUTHORS
    requires forall i, j :: 0 <= i < j < |list| ==> list[i].0 != list[j].0 && list[i].1 != list[j].1
    requires forall i :: 0 <= i < |list| ==> list[i].0 != account && list[i].1 != key && list[i].1 != key'
    requires key != key' && cfg.convertible(account) && cfg.decompresses(key) && cfg.decompresses(key')
    ensures var left := Left(cfg, Joined(cfg, Genesis(list), account, key, tx), account, tx');
            var failed := Run(cfg, left, [CallAdd(account, key', true, Some(tx'')), CallResult(tx'', true, false)]);
            left.authors == failed.authors && account in left.accountKeys && account !in failed.accountKeys
  {
    GenesisInv(cfg, list);
    GenesisAuthors(list);
    GenesisFreeKey(list, key);
    GenesisFreeKey(list, key');
    assert AddAuthor(cfg, Genesis(list), account, key, true, Some(tx)).1.Ok?;
    FailedRejoinLosesKey(cfg, Genesis(list), account, key, key', tx, tx', tx'');
  }

  /** And here the failed removal: still an author, with no Ethereum key. */
  lemma FailedRemovalFromGenesis(cfg: Config, list: seq<(Account, EthKey)>, i: nat, tx: TxId, order: seq<ActionId>,
                                 active: seq<Account>, disabled: seq<Account>)
    requires cfg.minAuthors < |list| <= MAX_AUTHORS && i < |list| && cfg.decompresses(list[i].1)
    requires forall j, k :: 0 <= j < k < |list| ==> list[j].0 != list[k].0 && list[j].1 != list[k].1
    requires ActionId(list[i].0, 1) in order && PermanentlyRemoved(active, disabled, list[i].0)
    ensures var s := Genesis(list);
            var session := NewSession(RemoveAuthor(cfg, s, list[i].0, Some(tx)).0, order, active, disabled);
            var failed := ProcessResult(cfg, session, tx, true, false).0;
            && failed.authors.Some? && list[i].0 in failed.authors.value && list[i].0 in failed.accountKeys
            && list[i].1 in s.ethKeys && failed.ethKeys == s.ethKeys - {list[i].1}
            && list[i].0 !in failed.ethKeys.Values
  {
    GenesisInv(cfg, list);
    GenesisAuthors(list);
    GenesisKeys(list, i);
    OnlyKey(list, i);
    DropsFirst(Genesis(list).ethKeys, list[i].0, list[i].1);
    assert Genesis(list).authors.value[i] == list[i].0;
    assert Genesis(list).ethKeys[list[i].1] in Genesis(list).ethKeys.Values;
    FailedRemovalUndoneIff(cfg, Genesis(list), list[i].0, tx, order, active, disabled);
  }
}
