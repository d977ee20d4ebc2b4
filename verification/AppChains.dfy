/** Registration of app chains and the reward rates their handlers set. */
module AppChains {
  import opened Prelude

  type Account = nat
  type Asset = nat
  type Token = nat

  datatype Error =
    | HandlerAlreadyRegistered | EmptyChainName | EmptyTokenSymbol | TokenLocationAlreadyRegistered
    | ChainNameTooLongForRegistry | TokenSymbolTooLongForRegistry | NoAvailableChainId
    | AssetAlreadyRegistered | MaxAppChainsReached | AppChainAssetNotRegistered | NotAppChainHandler
    | ZeroRewardAmount | AppChainTokenNotResolvable | AssetNotAppChainNative | AppChainNotActive
    | AppChainNotDisabled | ChainNotRegistered

  /** What a chain pays per period, and in which token. */
  datatype Pool = Pool(token: Token, amount: nat)

  /** An entry of the asset registry. */
  datatype Meta = Meta(location: Option<Token>, native: bool)

  datatype Chains = Chains(
    handlers: map<Account, nat>,
    assetChain: map<Asset, nat>,
    registered: seq<Asset>,
    nextChainId: nat,
    registry: map<Asset, Meta>,
    rates: map<Asset, Pool>)

  /** `stringLimit` bounds the registry's names; `maxChains` bounds the registered chains. */
  datatype Limits = Limits(maxChains: nat, stringLimit: nat)

  predicate LocationTaken(c: Chains, token: Token) {
    exists a :: a in c.registry && c.registry[a].location == Some(token)
  }

  function Register(limits: Limits, c: Chains, handler: Account, name: string, symbol: string, token: Token,
                    asset: Asset): Result<Chains, Error>
  {
    if handler in c.handlers then Err(HandlerAlreadyRegistered)
    else if name == "" then Err(EmptyChainName)
    else if symbol == "" then Err(EmptyTokenSymbol)
    else if LocationTaken(c, token) then Err(TokenLocationAlreadyRegistered)
    else if |name| > limits.stringLimit then Err(ChainNameTooLongForRegistry)
    else if |symbol| > limits.stringLimit then Err(TokenSymbolTooLongForRegistry)
    else if c.nextChainId >= U32_MAX then Err(NoAvailableChainId)
    else if asset in c.registry then Err(AssetAlreadyRegistered)
    else if |c.registered| >= limits.maxChains then Err(MaxAppChainsReached)
    else Ok(c.(
      handlers := c.handlers[handler := c.nextChainId],
      assetChain := c.assetChain[asset := c.nextChainId],
      registered := c.registered + [asset],
      nextChainId := c.nextChainId + 1,
      registry := c.registry[asset := Meta(Some(token), true)]))
  }

  /** Root (no sender) or the chain's handler manages its rate. */
  function EnsureRewardManager(c: Chains, sender: Option<Account>, asset: Asset): Option<Error> {
    if asset !in c.assetChain then Some(AppChainAssetNotRegistered)
    else if sender.Some? && !(sender.value in c.handlers && c.handlers[sender.value] == c.assetChain[asset])
    then Some(NotAppChainHandler)
    else None
  }

  predicate IsActive(c: Chains, asset: Asset) {
    asset in c.rates && c.rates[asset].amount > 0
  }

  function ResolvePayoutToken(c: Chains, asset: Asset): Result<Token, Error> {
    if asset !in c.registry then Err(AppChainTokenNotResolvable)
    else if !c.registry[asset].native then Err(AssetNotAppChainNative)
    else if c.registry[asset].location.None? then Err(AppChainTokenNotResolvable)
    else Ok(c.registry[asset].location.value)
  }

  function SetRate(c: Chains, sender: Option<Account>, asset: Asset, amount: nat): Result<Chains, Error> {
    var denied := EnsureRewardManager(c, sender, asset);
    if denied.Some? then Err(denied.value)
    else if amount == 0 then Err(ZeroRewardAmount)
    else
      match ResolvePayoutToken(c, asset)
      case Err(e) => Err(e)
      case Ok(token) => Ok(c.(rates := c.rates[asset := Pool(token, amount)]))
  }

  function Disable(c: Chains, sender: Option<Account>, asset: Asset): Result<Chains, Error> {
    var denied := EnsureRewardManager(c, sender, asset);
    if denied.Some? then Err(denied.value)
    else if !IsActive(c, asset) then Err(AppChainNotActive)
    else Ok(c.(rates := c.rates - {asset}))
  }

  function Deregister(c: Chains, handler: Account, asset: Asset): Result<Chains, Error> {
    if asset !in c.assetChain then Err(AppChainAssetNotRegistered)
    else if !(handler in c.handlers && c.handlers[handler] == c.assetChain[asset]) then Err(NotAppChainHandler)
    else if IsActive(c, asset) then Err(AppChainNotDisabled)
    else if asset !in c.registry then Err(AppChainAssetNotRegistered)
    else Ok(c.(
      registry := c.registry[asset := c.registry[asset].(native := false)],
      registered := Without(c.registered, asset),
      assetChain := c.assetChain - {asset},
      handlers := c.handlers - {handler},
      rates := c.rates - {asset}))
  }

  function UpdateHandler(c: Chains, oldHandler: Account, newHandler: Account): Result<Chains, Error> {
    if newHandler in c.handlers then Err(HandlerAlreadyRegistered)
    else if oldHandler !in c.handlers then Err(ChainNotRegistered)
    else Ok(c.(handlers := c.handlers[newHandler := c.handlers[oldHandler]] - {oldHandler}))
  }

  datatype Call =
    | CallRegister(handler: Account, name: string, symbol: string, token: Token, asset: Asset)
    | CallSetRate(sender: Option<Account>, asset: Asset, amount: nat)
    | CallDisable(sender: Option<Account>, asset: Asset)
    | CallDeregister(handler: Account, asset: Asset)
    | CallUpdateHandler(handler: Account, newHandler: Account)

  function Apply(limits: Limits, c: Chains, call: Call): Result<Chains, Error> {
    match call
    case CallRegister(handler, name, symbol, token, asset) => Register(limits, c, handler, name, symbol, token, asset)
    case CallSetRate(sender, asset, amount) => SetRate(c, sender, asset, amount)
    case CallDisable(sender, asset) => Disable(c, sender, asset)
    case CallDeregister(handler, asset) => Deregister(c, handler, asset)
    case CallUpdateHandler(handler, newHandler) => UpdateHandler(c, handler, newHandler)
  }

  function Step(limits: Limits, c: Chains, call: Call): Chains {
    match Apply(limits, c, call)
    case Ok(c') => c'
    case Err(_) => c
  }

  /** Only registered chains have rates, all rates are positive, and the list is within its bound. */
  ghost predicate ChainsOk(limits: Limits, c: Chains) {
    && |c.registered| <= limits.maxChains
    && c.assetChain.Keys <= Elements(c.registered)
    && c.rates.Keys <= c.assetChain.Keys
    && (forall a :: a in c.rates ==> c.rates[a].amount > 0)
  }

  lemma StepChainsOk(limits: Limits, c: Chains, call: Call)
    requires ChainsOk(limits, c)
    ensures ChainsOk(limits, Step(limits, c, call))
  {
    match call
    case CallRegister(handler, name, symbol, token, asset) =>
      assert Elements(c.registered + [asset]) == Elements(c.registered) + {asset};
    case CallSetRate(sender, asset, amount) =>
    case CallDisable(sender, asset) =>
    case CallDeregister(handler, asset) =>
    case CallUpdateHandler(handler, newHandler) =>
  }

  lemma {:induction false} ElementsBound(s: seq<Asset>)
    ensures |Elements(s)| <= |s|
  {
    if s != [] {
      ElementsBound(s[1..]);
      assert Elements(s) == {s[0]} + Elements(s[1..]) by {
        assert s == [s[0]] + s[1..];
      }
    } else {
      assert Elements(s) == {};
    }
  }

  /** So there are never more rates than chains may register. */
  lemma RatesBounded(limits: Limits, c: Chains)
    requires ChainsOk(limits, c)
    ensures |c.rates| <= limits.maxChains
  {
    assert |c.rates| == |c.rates.Keys|;
    SubsetCount(c.rates.Keys, Elements(c.registered));
    ElementsBound(c.registered);
  }
}
