/** The app-chain calls over mutable storage, each proved against the registration model. */
module ChainRegistry {
  import opened Prelude
  import opened AppChains
  import opened AppChainTheorems

  class Registry {
    const limits: Limits
    var handlers: map<Account, nat>
    var assetChain: map<Asset, nat>
    var registered: seq<Asset>
    var nextChainId: nat
    var registry: map<Asset, Meta>
    var rates: map<Asset, Pool>

    ghost function View(): Chains
      reads this
    {
      Chains(handlers, assetChain, registered, nextChainId, registry, rates)
    }

    ghost predicate Valid()
      reads this
    {
      RegistryOk(limits, View())
    }

    constructor (limits: Limits)
      ensures Valid() && this.limits == limits && View() == Genesis()
    {
      this.limits := limits;
      handlers, assetChain, registered, nextChainId, registry, rates := map[], map[], [], 0, map[], map[];
      GenesisRegistryOk(limits);
    }

    method RegisterAppchain(handler: Account, name: string, symbol: string, token: Token, asset: Asset)
      returns (r: Result<nat, Error>)
      requires Valid()
      modifies this
      ensures Valid() && View() == Step(limits, old(View()), CallRegister(handler, name, symbol, token, asset))
      ensures r.Ok? <==> Register(limits, old(View()), handler, name, symbol, token, asset).Ok?
      ensures r.Err? ==> Register(limits, old(View()), handler, name, symbol, token, asset) == Err(r.error)
      ensures r.Ok? ==> r.value == old(nextChainId)
    {
      StepRegistryOk(limits, View(), CallRegister(handler, name, symbol, token, asset));
      r := Enrol(handler, name, symbol, token, asset);
    }

    /** The checks in order, then the four insertions; a failed check leaves storage as it was. */
    method Enrol(handler: Account, name: string, symbol: string, token: Token, asset: Asset)
      returns (r: Result<nat, Error>)
      modifies this
      ensures match Register(limits, old(View()), handler, name, symbol, token, asset)
              case Ok(c) => r == Ok(old(nextChainId)) && View() == c
              case Err(e) => r == Err(e) && View() == old(View())
    {
      if handler in handlers {
        return Err(HandlerAlreadyRegistered);
      }
      if name == "" {
        return Err(EmptyChainName);
      }
      if symbol == "" {
        return Err(EmptyTokenSymbol);
      }
      if exists a :: a in registry && registry[a].location == Some(token) {
        return Err(TokenLocationAlreadyRegistered);
      }
      if |name| > limits.stringLimit {
        return Err(ChainNameTooLongForRegistry);
      }
      if |symbol| > limits.stringLimit {
        return Err(TokenSymbolTooLongForRegistry);
      }
      if nextChainId >= U32_MAX {
        return Err(NoAvailableChainId);
      }
      if asset in registry {
        return Err(AssetAlreadyRegistered);
      }
      if |registered| >= limits.maxChains {
        return Err(MaxAppChainsReached);
      }
      var chainId := nextChainId;
      nextChainId := chainId + 1;
      handlers := handlers[handler := chainId];
      registry := registry[asset := Meta(Some(token), true)];
      assetChain := assetChain[asset := chainId];
      registered := registered + [asset];
      return Ok(chainId);
    }

    method SetAppchainPeriodReward(sender: Option<Account>, asset: Asset, amount: nat)
      returns (r: Result<(), Error>)
      requires Valid()
      modifies this
      ensures Valid() && View() == Step(limits, old(View()), CallSetRate(sender, asset, amount))
      ensures r.Ok? <==> SetRate(old(View()), sender, asset, amount).Ok?
      ensures r.Err? ==> SetRate(old(View()), sender, asset, amount) == Err(r.error)
    {
      StepRegistryOk(limits, View(), CallSetRate(sender, asset, amount));
      var denied := RewardManagerCheck(sender, asset);
      if denied.Some? {
        return Err(denied.value);
      }
      if amount == 0 {
        return Err(ZeroRewardAmount);
      }
      if asset !in registry {
        return Err(AppChainTokenNotResolvable);
      }
      if !registry[asset].native {
        return Err(AssetNotAppChainNative);
      }
      if registry[asset].location.None? {
        return Err(AppChainTokenNotResolvable);
      }
      rates := rates[asset := Pool(registry[asset].location.value, amount)];
      return Ok(());
    }

    /** Root may manage any registered chain's rate, a signer only that of the chain they handle. */
    method RewardManagerCheck(sender: Option<Account>, asset: Asset) returns (denied: Option<Error>)
      requires Valid()
      ensures denied.None? <==> asset in registered && (sender.None? || Handles(View(), sender.value, asset))
      ensures denied == Some(AppChainAssetNotRegistered) <==> asset !in registered
      ensures denied.Some? ==> denied.value in {AppChainAssetNotRegistered, NotAppChainHandler}
      ensures denied == EnsureRewardManager(View(), sender, asset)
    {
      assert asset in registered <==> asset in Elements(registered);
      if asset !in assetChain {
        return Some(AppChainAssetNotRegistered);
      }
      if sender.Some? && !(sender.value in handlers && handlers[sender.value] == assetChain[asset]) {
        return Some(NotAppChainHandler);
      }
      return None;
    }

    method DisableAppchain(sender: Option<Account>, asset: Asset) returns (r: Result<(), Error>)
      requires Valid()
      modifies this
      ensures Valid() && View() == Step(limits, old(View()), CallDisable(sender, asset))
      ensures r.Ok? <==> Disable(old(View()), sender, asset).Ok?
      ensures r.Err? ==> Disable(old(View()), sender, asset) == Err(r.error)
    {
      StepRegistryOk(limits, View(), CallDisable(sender, asset));
      var denied := RewardManagerCheck(sender, asset);
      if denied.Some? {
        return Err(denied.value);
      }
      if asset !in rates || rates[asset].amount == 0 {
        return Err(AppChainNotActive);
      }
      rates := rates - {asset};
      return Ok(());
    }

    method DeregisterAppchain(handler: Account, asset: Asset) returns (r: Result<(), Error>)
      requires Valid()
      modifies this
      ensures Valid() && View() == Step(limits, old(View()), CallDeregister(handler, asset))
      ensures r.Ok? <==> Deregister(old(View()), handler, asset).Ok?
      ensures r.Err? ==> Deregister(old(View()), handler, asset) == Err(r.error)
    {
      StepRegistryOk(limits, View(), CallDeregister(handler, asset));
      if asset !in assetChain {
        return Err(AppChainAssetNotRegistered);
      }
      if !(handler in handlers && handlers[handler] == assetChain[asset]) {
        return Err(NotAppChainHandler);
      }
      if asset in rates && rates[asset].amount > 0 {
        return Err(AppChainNotDisabled);
      }
      if asset !in registry {
        return Err(AppChainAssetNotRegistered);
      }
      registry := registry[asset := registry[asset].(native := false)];
      registered := Without(registered, asset);
      assetChain := assetChain - {asset};
      handlers := handlers - {handler};
      rates := rates - {asset};
      return Ok(());
    }

    method UpdateChainHandler(oldHandler: Account, newHandler: Account) returns (r: Result<(), Error>)
      requires Valid()
      modifies this
      ensures Valid() && View() == Step(limits, old(View()), CallUpdateHandler(oldHandler, newHandler))
      ensures r.Ok? <==> UpdateHandler(old(View()), oldHandler, newHandler).Ok?
      ensures r.Err? ==> UpdateHandler(old(View()), oldHandler, newHandler) == Err(r.error)
    {
      StepRegistryOk(limits, View(), CallUpdateHandler(oldHandler, newHandler));
      if newHandler in handlers {
        return Err(HandlerAlreadyRegistered);
      }
      if oldHandler !in handlers {
        return Err(ChainNotRegistered);
      }
      handlers := handlers[newHandler := handlers[oldHandler]];
      handlers := handlers - {oldHandler};
      return Ok(());
    }
  }
}
