/** What every run of app-chain calls keeps: identities, handlers, authority over rates, and retirement. */
module AppChainTheorems {
  import opened Prelude
  import opened AppChains

  /** `handler` handles the chain of `asset`. */
  predicate Handles(c: Chains, handler: Account, asset: Asset) {
    handler in c.handlers && asset in c.assetChain && c.handlers[handler] == c.assetChain[asset]
  }

  /** No two keys share a value. */
  ghost predicate Injective(m: map<nat, nat>) {
    forall a, b :: a in m && b in m && m[a] == m[b] ==> a == b
  }

  /** Chains are listed once each, under ids already given out and never shared. */
  ghost predicate IdsOk(c: Chains) {
    && Distinct(c.registered) && Elements(c.registered) == c.assetChain.Keys
    && Injective(c.assetChain) && Injective(c.handlers)
    && (forall a :: a in c.assetChain ==> c.assetChain[a] < c.nextChainId)
    && (forall h :: h in c.handlers ==> c.handlers[h] < c.nextChainId)
  }

  /** Every chain has a handler, which by `IdsOk` is its only one. */
  ghost predicate HandledOk(c: Chains) {
    forall a :: a in c.assetChain ==> exists h :: Handles(c, h, a)
  }

  predicate SameToken(a: Meta, b: Meta) {
    a.location.Some? && a.location == b.location
  }

  /** Every chain's asset is a native entry of the registry with a token of its own, which its rate is paid in. */
  ghost predicate TokensOk(c: Chains) {
    && (forall a :: a in c.assetChain ==> a in c.registry && c.registry[a].native && c.registry[a].location.Some?)
    && (forall a, b :: a in c.registry && b in c.registry && SameToken(c.registry[a], c.registry[b]) ==> a == b)
    && (forall a :: a in c.rates ==> a in c.assetChain && Some(c.rates[a].token) == c.registry[a].location)
  }

  ghost predicate RegistryOk(limits: Limits, c: Chains) {
    ChainsOk(limits, c) && IdsOk(c) && HandledOk(c) && TokensOk(c)
  }

  lemma StepIdsOk(limits: Limits, c: Chains, call: Call)
    requires IdsOk(c) && TokensOk(c)
    ensures IdsOk(Step(limits, c, call))
  {
    match call
    case CallRegister(handler, name, symbol, token, asset) =>
      if Apply(limits, c, call).Ok? {
        RegisterIdsOk(c, Apply(limits, c, call).value, handler, asset);
      }
    case CallDeregister(handler, asset) =>
      if Apply(limits, c, call).Ok? {
        DeregisterIdsOk(c, Apply(limits, c, call).value, handler, asset);
      }
    case CallUpdateHandler(handler, newHandler) =>
      if Apply(limits, c, call).Ok? {
        UpdateIdsOk(c, Apply(limits, c, call).value, handler, newHandler);
      }
    case _ =>
  }

  lemma RegisterIdsOk(c: Chains, c': Chains, handler: Account, asset: Asset)
    requires IdsOk(c) && asset !in c.assetChain && handler !in c.handlers
    requires c'.handlers == c.handlers[handler := c.nextChainId]
    requires c'.assetChain == c.assetChain[asset := c.nextChainId]
    requires c'.registered == c.registered + [asset] && c'.nextChainId == c.nextChainId + 1
    ensures IdsOk(c')
  {
    assert asset !in Elements(c.registered);
    DistinctAppend(c.registered, asset);
  }

  lemma DeregisterIdsOk(c: Chains, c': Chains, handler: Account, asset: Asset)
    requires IdsOk(c) && c'.registered == Without(c.registered, asset)
    requires c'.assetChain == c.assetChain - {asset} && c'.handlers == c.handlers - {handler}
    requires c'.nextChainId == c.nextChainId
    ensures IdsOk(c')
  {
    WithoutOne(c.registered, asset);
    assert forall a :: a in c.registered <==> a in Elements(c.registered);
    assert Elements(c'.registered) == c'.assetChain.Keys;
  }

  lemma UpdateIdsOk(c: Chains, c': Chains, handler: Account, newHandler: Account)
    requires IdsOk(c) && handler in c.handlers && newHandler !in c.handlers
    requires c' == c.(handlers := c.handlers[newHandler := c.handlers[handler]] - {handler})
    ensures IdsOk(c')
  {
  }

  lemma StepHandledOk(limits: Limits, c: Chains, call: Call)
    requires IdsOk(c) && HandledOk(c)
    ensures HandledOk(Step(limits, c, call))
  {
    var c' := Step(limits, c, call);
    forall a | a in c'.assetChain ensures exists h :: Handles(c', h, a) {
      HandledAfter(limits, c, call, a);
    }
  }

  lemma HandledAfter(limits: Limits, c: Chains, call: Call, a: Asset)
    requires IdsOk(c) && HandledOk(c) && a in Step(limits, c, call).assetChain
    ensures exists h :: Handles(Step(limits, c, call), h, a)
  {
    var c' := Step(limits, c, call);
    if a in c.assetChain && c'.assetChain[a] == c.assetChain[a] {
      var h :| Handles(c, h, a);
      StillHandled(limits, c, call, h, a);
    } else {
      FreshlyHandled(limits, c, call, a);
    }
  }

  lemma FreshlyHandled(limits: Limits, c: Chains, call: Call, a: Asset)
    requires var c' := Step(limits, c, call);
             a in c'.assetChain && !(a in c.assetChain && c'.assetChain[a] == c.assetChain[a])
    ensures call.CallRegister? && Handles(Step(limits, c, call), call.handler, a)
  {
  }

  lemma StillHandled(limits: Limits, c: Chains, call: Call, h: Account, a: Asset)
    requires IdsOk(c) && Handles(c, h, a)
    requires var c' := Step(limits, c, call); a in c'.assetChain && c'.assetChain[a] == c.assetChain[a]
    ensures exists h' :: Handles(Step(limits, c, call), h', a)
  {
    var c' := Step(limits, c, call);
    if call.CallUpdateHandler? && call.handler == h && c' != c {
      assert Handles(c', call.newHandler, a);
    } else {
      assert Handles(c', h, a);
    }
  }

  lemma StepTokensOk(limits: Limits, c: Chains, call: Call)
    requires TokensOk(c)
    ensures TokensOk(Step(limits, c, call))
  {
    match call
    case CallRegister(handler, name, symbol, token, asset) =>
      if Apply(limits, c, call).Ok? {
        RegisterTokensOk(c, Apply(limits, c, call).value, token, asset);
      }
    case CallDeregister(handler, asset) =>
      if Apply(limits, c, call).Ok? {
        DeregisterTokensOk(c, Apply(limits, c, call).value, asset);
      }
    case _ =>
  }

  lemma RegisterTokensOk(c: Chains, c': Chains, token: Token, asset: Asset)
    requires TokensOk(c) && asset !in c.registry && !LocationTaken(c, token)
    requires c'.registry == c.registry[asset := Meta(Some(token), true)]
    requires c'.assetChain.Keys == c.assetChain.Keys + {asset} && c'.rates == c.rates
    ensures TokensOk(c')
  {
  }

  lemma DeregisterTokensOk(c: Chains, c': Chains, asset: Asset)
    requires TokensOk(c) && asset in c.registry
    requires c'.registry == c.registry[asset := c.registry[asset].(native := false)]
    requires c'.assetChain == c.assetChain - {asset} && c'.rates == c.rates - {asset}
    ensures TokensOk(c')
  {
  }

  lemma StepRegistryOk(limits: Limits, c: Chains, call: Call)
    requires RegistryOk(limits, c)
    ensures RegistryOk(limits, Step(limits, c, call))
  {
    StepChainsOk(limits, c, call);
    StepIdsOk(limits, c, call);
    StepHandledOk(limits, c, call);
    StepTokensOk(limits, c, call);
  }

  ghost function Run(limits: Limits, c: Chains, calls: seq<Call>): Chains
    decreases |calls|
  {
    if calls == [] then c else Step(limits, Run(limits, c, calls[..|calls| - 1]), calls[|calls| - 1])
  }

  function Genesis(): Chains {
    Chains(map[], map[], [], 0, map[], map[])
  }

  lemma GenesisRegistryOk(limits: Limits)
    ensures RegistryOk(limits, Genesis())
  {
    assert Elements(Genesis().registered) == {};
  }

  /**
   In every run each registered chain has one id, one handler, one registry entry and one
   token, none of them shared with another chain, and a rate only while it is registered.
   */
  lemma {:induction false} RunRegistryOk(limits: Limits, c: Chains, calls: seq<Call>)
    requires RegistryOk(limits, c)
    ensures RegistryOk(limits, Run(limits, c, calls))
    decreases |calls|
  {
    if calls != [] {
      RunRegistryOk(limits, c, calls[..|calls| - 1]);
      StepRegistryOk(limits, Run(limits, c, calls[..|calls| - 1]), calls[|calls| - 1]);
    }
  }

  // ---------------------------------------------------------------- ids are never reused

  lemma {:induction false} IdsGrow(limits: Limits, c: Chains, calls: seq<Call>)
    ensures c.nextChainId <= Run(limits, c, calls).nextChainId
    decreases |calls|
  {
    if calls != [] {
      IdsGrow(limits, c, calls[..|calls| - 1]);
    }
  }

  /** A chain registered later gets an id that no chain and no handler had before, deregistered since or not. */
  lemma IdsNeverReused(limits: Limits, c: Chains, calls: seq<Call>, handler: Account, name: string, symbol: string,
                       token: Token, asset: Asset)
    requires RegistryOk(limits, c)
    requires Register(limits, Run(limits, c, calls), handler, name, symbol, token, asset).Ok?
    ensures var c' := Register(limits, Run(limits, c, calls), handler, name, symbol, token, asset).value;
            && asset in c'.assetChain
            && c'.assetChain[asset] !in c.assetChain.Values && c'.assetChain[asset] !in c.handlers.Values
  {
    IdsGrow(limits, c, calls);
  }

  // ---------------------------------------------------------------- authority over rates

  function RateOf(c: Chains, asset: Asset): Option<Pool> {
    if asset in c.rates then Some(c.rates[asset]) else None
  }

  /** The only calls that change a chain's rate are setting and disabling it, by root or by the chain's handler. */
  lemma RatesAreManaged(limits: Limits, c: Chains, call: Call, asset: Asset)
    requires ChainsOk(limits, c) && RateOf(Step(limits, c, call), asset) != RateOf(c, asset)
    ensures (call.CallSetRate? || call.CallDisable?) && call.asset == asset
    ensures call.sender.None? || Handles(c, call.sender.value, asset)
  {
  }

  // ---------------------------------------------------------------- retirement

  /** The asset was registered with the token and its registry entry remains; no chain has it any more. */
  ghost predicate Retired(c: Chains, asset: Asset, token: Token) {
    && asset in c.registry && c.registry[asset].location == Some(token)
    && asset !in c.assetChain
  }

  lemma DeregisterRetires(limits: Limits, c: Chains, handler: Account, asset: Asset)
    requires RegistryOk(limits, c) && Deregister(c, handler, asset).Ok?
    ensures c.registry[asset].location.Some?
    ensures Retired(Deregister(c, handler, asset).value, asset, c.registry[asset].location.value)
  {
  }

  lemma StepRetired(limits: Limits, c: Chains, call: Call, asset: Asset, token: Token)
    requires Retired(c, asset, token)
    ensures Retired(Step(limits, c, call), asset, token)
  {
  }

  /**
   Once a chain is deregistered neither its asset nor its token can ever be registered
   again, in any run, nor a rate be set for the asset.
   */
  lemma {:induction false} RetiredForever(limits: Limits, c: Chains, calls: seq<Call>, asset: Asset, token: Token)
    requires Retired(c, asset, token)
    ensures var c' := Run(limits, c, calls);
            && Retired(c', asset, token)
            && (forall handler, name, symbol, other ::
                  Register(limits, c', handler, name, symbol, other, asset).Err?
                  && Register(limits, c', handler, name, symbol, token, other).Err?)
            && (forall sender, amount :: SetRate(c', sender, asset, amount).Err?)
    decreases |calls|
  {
    if calls != [] {
      RetiredForever(limits, c, calls[..|calls| - 1], asset, token);
      StepRetired(limits, Run(limits, c, calls[..|calls| - 1]), calls[|calls| - 1], asset, token);
    }
    assert LocationTaken(Run(limits, c, calls), token);
  }

  // ---------------------------------------------------------------- what each call does

  /** Root, or the handler of the chain. */
  predicate Manages(c: Chains, sender: Option<Account>, asset: Asset) {
    asset in c.assetChain && (sender.None? || Handles(c, sender.value, asset))
  }

  /** A rate is accepted exactly from a manager and if positive; it is stored as given, in the chain's token. */
  lemma SetRateOutcome(limits: Limits, c: Chains, sender: Option<Account>, asset: Asset, amount: nat)
    requires RegistryOk(limits, c)
    ensures var r := SetRate(c, sender, asset, amount);
            && (r.Ok? <==> Manages(c, sender, asset) && amount > 0)
            && (r.Ok? ==>
                  && asset in c.registry && c.registry[asset].location.Some?
                  && r.value == c.(rates := c.rates[asset := Pool(c.registry[asset].location.value, amount)]))
  {
  }

  /** A rate is disabled exactly by a manager and while there is one; no other rate is touched. */
  lemma DisableOutcome(limits: Limits, c: Chains, sender: Option<Account>, asset: Asset)
    requires RegistryOk(limits, c)
    ensures var r := Disable(c, sender, asset);
            && (r.Ok? <==> Manages(c, sender, asset) && asset in c.rates)
            && (r.Ok? ==> asset !in r.value.rates && r.value == c.(rates := r.value.rates))
            && (r.Ok? ==> forall a :: a != asset ==> RateOf(r.value, a) == RateOf(c, a))
  {
  }

  /** A chain is registered exactly under a new handler, asset and token, named within bounds, while there is room. */
  lemma RegisterOutcome(limits: Limits, c: Chains, handler: Account, name: string, symbol: string, token: Token,
                        asset: Asset)
    requires RegistryOk(limits, c)
    ensures var r := Register(limits, c, handler, name, symbol, token, asset);
            && (r.Ok? <==>
                  && handler !in c.handlers && asset !in c.registry
                  && (forall a :: a in c.registry ==> c.registry[a].location != Some(token))
                  && 0 < |name| <= limits.stringLimit && 0 < |symbol| <= limits.stringLimit
                  && c.nextChainId < U32_MAX && |c.registered| < limits.maxChains)
            && (r.Ok? ==>
                  && Handles(r.value, handler, asset) && r.value.handlers[handler] == c.nextChainId
                  && r.value.registered == c.registered + [asset] && r.value.nextChainId == c.nextChainId + 1
                  && r.value.registry == c.registry[asset := Meta(Some(token), true)] && r.value.rates == c.rates
                  && r.value.handlers.Keys == c.handlers.Keys + {handler}
                  && (forall h :: h in c.handlers ==> r.value.handlers[h] == c.handlers[h])
                  && (forall a :: a in c.assetChain ==> r.value.assetChain[a] == c.assetChain[a]))
  {
  }

  /** A chain is deregistered exactly by its handler once its rate is disabled; every other chain keeps what it had. */
  lemma DeregisterOutcome(limits: Limits, c: Chains, handler: Account, asset: Asset)
    requires RegistryOk(limits, c)
    ensures var r := Deregister(c, handler, asset);
            && (r.Ok? <==> Handles(c, handler, asset) && asset !in c.rates)
            && (r.Ok? ==>
                  && r.value.assetChain == c.assetChain - {asset} && r.value.handlers == c.handlers - {handler}
                  && r.value.rates == c.rates && r.value.nextChainId == c.nextChainId
                  && Elements(r.value.registered) == Elements(c.registered) - {asset}
                  && asset in c.registry && r.value.registry.Keys == c.registry.Keys
                  && r.value.registry[asset] == c.registry[asset].(native := false)
                  && forall a :: a in c.registry && a != asset ==> r.value.registry[a] == c.registry[a])
  {
    if Deregister(c, handler, asset).Ok? {
      assert c.rates - {asset} == c.rates;
    }
  }

  /** A handler hands all it handles to a new one, exactly if that one handles nothing yet. */
  lemma UpdateHandlerOutcome(c: Chains, oldHandler: Account, newHandler: Account)
    ensures var r := UpdateHandler(c, oldHandler, newHandler);
            && (r.Ok? <==> oldHandler in c.handlers && newHandler !in c.handlers)
            && (r.Ok? ==>
                  && r.value == c.(handlers := r.value.handlers)
                  && forall a, h :: Handles(r.value, h, a) <==>
                       if h == newHandler then Handles(c, oldHandler, a) else h != oldHandler && Handles(c, h, a))
  {
  }
}
