/** The author registry over mutable storage, each call and callback proved against the lifecycle model. */
module AuthorRegistry {
  import opened Prelude
  import opened Authors

  class Registry {
    const cfg: Config
    var authors: Option<seq<Account>>
    var actions: map<ActionId, Action>
    var ethKeys: map<EthKey, Account>
    var accountKeys: map<Account, EthKey>
    var txToAction: map<TxId, ActionId>
    var ingress: nat

    ghost function View(): State
      reads this
    {
      State(authors, actions, ethKeys, accountKeys, txToAction, ingress)
    }

    ghost predicate Valid()
      reads this
    {
      Inv(cfg, View())
    }

    constructor (cfg: Config, list: seq<(Account, EthKey)>)
      requires list != [] && cfg.minAuthors <= |list| <= MAX_AUTHORS
      requires forall i, j :: 0 <= i < j < |list| ==> list[i].0 != list[j].0
      ensures Valid() && this.cfg == cfg && View() == Genesis(list)
    {
      this.cfg := cfg;
      authors, actions, ethKeys, accountKeys, txToAction, ingress := None, map[], map[], map[], map[], 0;
      new;
      for i := 0 to |list|
        invariant this.cfg == cfg && View() == Genesis(list[..i])
      {
        assert list[..i + 1][..i] == list[..i];
        authors := Some((if authors.Some? then authors.value else []) + [list[i].0]);
        ethKeys := ethKeys[list[i].1 := list[i].0];
        accountKeys := accountKeys[list[i].0 := list[i].1];
      }
      assert list[..|list|] == list;
      GenesisInv(cfg, list);
    }

    // -------------------------------------------------------------- requests

    method AnyActiveAction() returns (r: bool)
      ensures r <==> HasAnyActiveAction(View())
    {
      var rest := actions.Keys;
      while rest != {}
        invariant rest <= actions.Keys
        invariant forall id :: id in actions.Keys - rest ==> !actions[id].status.IsActive()
        decreases |rest|
      {
        var id :| id in rest;
        if actions[id].status.IsActive() {
          return true;
        }
        rest := rest - {id};
      }
      return false;
    }

    method ValidateRegistration(account: Account, key: EthKey, sessionKeysSet: bool) returns (rejected: Option<Error>)
      ensures rejected == CheckAdd(cfg, View(), account, key, sessionKeysSet)
    {
      if authors.None? || authors.value == [] {
        return Some(NoAuthors);
      }
      if account in authors.value {
        return Some(AuthorAlreadyExists);
      }
      if key in ethKeys {
        return Some(AuthorEthKeyAlreadyExists);
      }
      if |authors.value| >= MAX_AUTHORS {
        return Some(MaximumAuthorsReached);
      }
      if !cfg.convertible(account) {
        return Some(ErrorConvertingAccountIdToAuthorId);
      }
      if !sessionKeysSet {
        return Some(AuthorSessionKeysNotSet);
      }
      var busy := AnyActiveAction();
      return if busy then Some(ValidatorActionAlreadyInProgress) else None;
    }

    method RecordAction(account: Account, kind: ActionType, tx: TxId)
      modifies `ingress, `actions, `txToAction
      ensures View() == Publish(old(View()), account, kind, tx)
    {
      ingress := ingress + 1;
      actions := actions[ActionId(account, ingress) := Action(AwaitingConfirmation, tx, kind)];
      txToAction := txToAction[tx := ActionId(account, ingress)];
    }

    method AddAuthor(account: Account, key: EthKey, sessionKeysSet: bool, published: Option<TxId>)
      returns (r: Result<(), Error>)
      requires Valid()
      modifies this
      ensures Valid()
      ensures (View(), r) == Authors.AddAuthor(cfg, old(View()), account, key, sessionKeysSet, published)
    {
      AddInv(cfg, View(), account, key, sessionKeysSet, published);
      var rejected := ValidateRegistration(account, key, sessionKeysSet);
      if rejected.Some? {
        return Err(rejected.value);
      }
      if !cfg.decompresses(key) {
        return Err(InvalidPublicKey);
      }
      if published.None? {
        return Err(ErrorSubmitCandidateTxnToTier1);
      }
      ethKeys := ethKeys[key := account];
      accountKeys := accountKeys[account := key];
      RecordAction(account, Registration, published.value);
      return Ok(());
    }

    method ValidateDeregistration(account: Account) returns (rejected: Option<Error>)
      ensures rejected == CheckRemove(cfg, View(), account)
    {
      if authors.None? {
        return Some(NoAuthors);
      }
      if |authors.value| <= cfg.minAuthors {
        return Some(MinimumAuthorsReached);
      }
      if account !in authors.value {
        return Some(AuthorNotFound);
      }
      var busy := AnyActiveAction();
      if busy {
        return Some(ValidatorActionAlreadyInProgress);
      }
      if account !in accountKeys {
        return Some(AuthorNotFound);
      }
      return if cfg.decompresses(accountKeys[account]) then None else Some(InvalidPublicKey);
    }

    method RemoveAuthor(account: Account, published: Option<TxId>) returns (r: Result<(), Error>)
      requires Valid()
      modifies this
      ensures Valid()
      ensures (View(), r) == Authors.RemoveAuthor(cfg, old(View()), account, published)
    {
      StepInv(cfg, View(), CallRemove(account, published));
      var rejected := ValidateDeregistration(account);
      if rejected.Some? {
        return Err(rejected.value);
      }
      if published.None? {
        return Err(ErrorSubmitCandidateTxnToTier1);
      }
      RecordAction(account, Resignation, published.value);
      return Ok(());
    }

    method RotateAuthorEthereumKey(account: Account, oldKey: EthKey, newKey: EthKey) returns (r: Result<(), Error>)
      requires Valid()
      modifies this
      ensures Valid()
      ensures (View(), r) == RotateKey(old(View()), account, oldKey, newKey)
    {
      StepInv(cfg, View(), CallRotate(account, oldKey, newKey));
      if newKey in ethKeys || oldKey == newKey {
        return Err(AuthorEthKeyAlreadyExists);
      }
      if oldKey !in ethKeys || ethKeys[oldKey] != account {
        return Err(AuthorNotFound);
      }
      ethKeys := ethKeys - {oldKey};
      ethKeys := ethKeys[newKey := account];
      return Ok(());
    }

    // -------------------------------------------------------------- the callback

    /** Removes the first key, in iteration order, that names the account. */
    method RemoveEthereumKey(account: Account)
      modifies `ethKeys
      ensures ethKeys == DropKey(old(ethKeys), account)
    {
      var first: Option<EthKey> := None;
      var rest := ethKeys.Keys;
      while rest != {}
        invariant rest <= ethKeys.Keys && ethKeys == old(ethKeys)
        invariant first.None? ==> forall k :: k in ethKeys.Keys - rest ==> ethKeys[k] != account
        invariant first.Some? ==> first.value in ethKeys && ethKeys[first.value] == account
        invariant first.Some? ==> forall k :: k in ethKeys.Keys - rest && ethKeys[k] == account ==> first.value <= k
        decreases |rest|
      {
        var k :| k in rest;
        if ethKeys[k] == account && (first.None? || k < first.value) {
          first := Some(k);
        }
        rest := rest - {k};
      }
      if first.Some? {
        DropsFirst(ethKeys, account, first.value);
        ethKeys := ethKeys - {first.value};
      }
    }

    method ProcessResult(tx: TxId, forUs: bool, succeeded: bool) returns (r: Result<(), Error>)
      requires Valid()
      modifies this
      ensures Valid() && r.Ok?
      ensures (View(), r) == Authors.ProcessResult(cfg, old(View()), tx, forUs, succeeded)
    {
      ResultInv(cfg, View(), tx, forUs, succeeded);
      if !forUs || tx !in txToAction {
        return Ok(());
      }
      var id := txToAction[tx];
      assert InFlight(View(), id) && Completable(cfg, View(), id);
      txToAction := txToAction - {tx};
      var kind := actions[id].kind;
      if !succeeded {
        RollbackFailedAction(id);
      } else if kind.Registration? {
        authors := Some(authors.value + [id.account]);
        actions := actions[id := actions[id].(kind := Activation, status := Actioned)];
      } else {
        authors := Some(Without(authors.value, id.account));
        RemoveEthereumKey(id.account);
        actions := actions[id := actions[id].(status := Actioned)];
      }
      return Ok(());
    }

    method RollbackFailedAction(id: ActionId)
      requires id in actions
      modifies `ethKeys, `accountKeys, `actions
      ensures View() == Rollback(old(View()), id)
    {
      if actions[id].kind.Registration? && id.account in accountKeys {
        ethKeys := ethKeys - {accountKeys[id.account]};
        accountKeys := accountKeys - {id.account};
      }
      actions := actions - {id};
    }

    // -------------------------------------------------------------- sessions

    method ReviewOne(id: ActionId, active: seq<Account>, disabled: seq<Account>)
      modifies `actions, `ethKeys
      ensures View() == ReviewAction(old(View()), id, active, disabled)
    {
      if id in actions && actions[id].status.AwaitingConfirmation? {
        if actions[id].kind.IsDeregistration() && PermanentlyRemoved(active, disabled, id.account) {
          actions := actions[id := actions[id].(status := Confirmed)];
          RemoveEthereumKey(id.account);
        } else if actions[id].kind.Activation? {
          actions := actions[id := actions[id].(status := Confirmed)];
        }
      }
    }

    /** `order` is the order the stored actions are iterated in. */
    method OnNewSession(order: seq<ActionId>, active: seq<Account>, disabled: seq<Account>)
      requires Valid()
      modifies this
      ensures Valid()
      ensures View() == NewSession(old(View()), order, active, disabled)
    {
      SessionInv(cfg, View(), order, active, disabled);
      for i := 0 to |order|
        invariant View() == NewSession(old(View()), order[..i], active, disabled)
      {
        assert order[..i + 1][..i] == order[..i];
        ReviewOne(order[i], active, disabled);
      }
      assert order[..|order|] == order;
    }
  }
}
