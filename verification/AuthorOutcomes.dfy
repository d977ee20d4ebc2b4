/** When the registry's calls are accepted, and what each then changes. */
module AuthorOutcomes {
  import opened Prelude
  import opened Authors

  /** Something is in flight exactly while some transaction is awaited. */
  lemma BusyIffAwaiting(cfg: Config, s: State)
    requires Inv(cfg, s)
    ensures HasAnyActiveAction(s) <==> s.txToAction != map[]
  {
    if HasAnyActiveAction(s) {
      var id :| id in s.actions && s.actions[id].status.IsActive();
      assert InFlight(s, id);
    } else {
      NothingInFlight(cfg, s);
    }
  }

  /** One action more, awaiting confirmation under the next id and found by its transaction; the list is as it was. */
  ghost predicate Requested(s: State, s': State, account: Account, kind: ActionType, tx: TxId) {
    var id := ActionId(account, s.ingress + 1);
    && s'.authors == s.authors && s'.ingress == s.ingress + 1
    && s'.txToAction == map[tx := id] && id !in s.actions
    && s'.actions == s.actions[id := Action(AwaitingConfirmation, tx, kind)]
  }

  /**
   An author can be added exactly if the account is new, the key is free and valid, there is
   room, the account converts and has session keys, nothing else is in flight and the bridge
   takes the request; the account and key then name each other, and the list is not yet changed.
   */
  lemma AddOutcome(cfg: Config, s: State, account: Account, key: EthKey, sessionKeysSet: bool, published: Option<TxId>)
    requires Inv(cfg, s)
    ensures var (s', r) := AddAuthor(cfg, s, account, key, sessionKeysSet, published);
            && (r.Ok? <==>
                  && s.authors.value != [] && account !in s.authors.value && |s.authors.value| < 256
                  && key !in s.ethKeys && cfg.decompresses(key) && cfg.convertible(account) && sessionKeysSet
                  && s.txToAction == map[] && published.Some?)
            && (r.Ok? ==>
                  && Requested(s, s', account, Registration, published.value)
                  && s'.ethKeys == s.ethKeys[key := account] && s'.accountKeys == s.accountKeys[account := key])
            && (r.Err? ==> s' == s)
  {
    BusyIffAwaiting(cfg, s);
  }

  /**
   An author can be removed exactly if listed with a valid key on file, if enough others
   remain, nothing else is in flight and the bridge takes the request.
   */
  lemma RemoveOutcome(cfg: Config, s: State, account: Account, published: Option<TxId>)
    requires Inv(cfg, s)
    ensures var (s', r) := RemoveAuthor(cfg, s, account, published);
            && (r.Ok? <==>
                  && account in s.authors.value && |s.authors.value| > cfg.minAuthors
                  && account in s.accountKeys && cfg.decompresses(s.accountKeys[account])
                  && s.txToAction == map[] && published.Some?)
            && (r.Ok? ==>
                  && Requested(s, s', account, Resignation, published.value)
                  && s'.ethKeys == s.ethKeys && s'.accountKeys == s.accountKeys)
            && (r.Err? ==> s' == s)
  {
    BusyIffAwaiting(cfg, s);
  }

  /** A key is rotated exactly to a free one, by whom the old one names; the account's own entry keeps the old key. */
  lemma RotateOutcome(s: State, account: Account, oldKey: EthKey, newKey: EthKey)
    ensures var (s', r) := RotateKey(s, account, oldKey, newKey);
            && (r.Ok? <==> newKey !in s.ethKeys && oldKey in s.ethKeys && s.ethKeys[oldKey] == account)
            && (r.Ok? ==>
                  && s' == s.(ethKeys := s'.ethKeys) && newKey in s'.ethKeys && s'.ethKeys[newKey] == account
                  && s'.ethKeys.Keys == s.ethKeys.Keys - {oldKey} + {newKey}
                  && forall k :: k in s.ethKeys && k != oldKey ==> s'.ethKeys[k] == s.ethKeys[k])
            && (r.Err? ==> s' == s)
  {
  }

  /** A result is acted on only if it is for this pallet and its transaction is the one awaited; then none is. */
  lemma ResultOutcome(cfg: Config, s: State, tx: TxId, forUs: bool, succeeded: bool)
    requires Inv(cfg, s)
    ensures var (s', r) := ProcessResult(cfg, s, tx, forUs, succeeded);
            && r == Ok(())
            && if !forUs || tx !in s.txToAction then s' == s
               else
                 var id := s.txToAction[tx];
                 && s'.txToAction == map[] && s.authors.Some? && s'.authors.Some?
                 && if !succeeded then s'.authors == s.authors && s'.actions == s.actions - {id}
                    else if s.actions[id].kind.Registration? then
                      s'.authors.value == s.authors.value + [id.account]
                      && s'.actions == s.actions[id := Action(Actioned, tx, Activation)]
                    else
                      Elements(s'.authors.value) == Elements(s.authors.value) - {id.account}
                      && s'.actions == s.actions[id := Action(Actioned, tx, Resignation)]
  {
    ResultInv(cfg, s, tx, forUs, succeeded);
    if forUs && tx in s.txToAction {
      var id, s' := s.txToAction[tx], ProcessResult(cfg, s, tx, forUs, succeeded).0;
      assert InFlight(s, id) && Completable(cfg, s, id);
      forall t | t in s.txToAction ensures t == tx {
        assert InFlight(s, s.txToAction[t]);
      }
      assert s'.txToAction == s.txToAction - {tx};
    }
  }
}
