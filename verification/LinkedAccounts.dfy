/** Accounts linked to Ethereum identities for voting, and the weight an identity votes with. */
module LinkedAccounts {
  import opened Prelude
  import opened Sums

  type Account = nat
  type Identity = nat

  const BALANCE_RANGE: nat := 0x1_0000_0000_0000_0000_0000_0000_0000_0000

  datatype Error =
    | CallerMustBeLinkedAccount | InvalidAction | BadEcdsaSignature | SignerIdentityMismatch
    | AccountLinkedToDifferentIdentity | LinkedAccountsLimitReached | AccountNotLinkedToIdentity

  datatype Action = Link | Unlink

  datatype Payload = Payload(action: Action, identity: Identity, account: Account)

  datatype State = State(linked: map<Identity, seq<Account>>, identityOf: map<Account, Identity>)

  function LinkedTo(s: State, identity: Identity): seq<Account> {
    if identity in s.linked then s.linked[identity] else []
  }

  // ---------------------------------------------------------------- calls

  /** `recovered` is the identity the signature was made by, if it is a signature at all. */
  function LinkAccount(max: nat, s: State, signer: Account, p: Payload, recovered: Option<Identity>)
    : (State, Result<(), Error>)
  {
    if signer != p.account then (s, Err(CallerMustBeLinkedAccount))
    else if p.action != Link then (s, Err(InvalidAction))
    else if recovered.None? then (s, Err(BadEcdsaSignature))
    else if recovered.value != p.identity then (s, Err(SignerIdentityMismatch))
    else if p.account in s.identityOf then
      if s.identityOf[p.account] != p.identity then (s, Err(AccountLinkedToDifferentIdentity)) else (s, Ok(()))
    else
      var list := LinkedTo(s, p.identity);
      if p.account !in list && |list| >= max then (s, Err(LinkedAccountsLimitReached))
      else
        var list' := if p.account in list then list else list + [p.account];
        (State(s.linked[p.identity := list'], s.identityOf[p.account := p.identity]), Ok(()))
  }

  /** The list with its last entry moved into the place of the first occurrence of `account`. */
  function SwapRemove(list: seq<Account>, i: nat): seq<Account>
    requires i < |list|
  {
    list[i := list[|list| - 1]][..|list| - 1]
  }

  function Position(list: seq<Account>, account: Account): (r: Option<nat>)
    ensures r.None? <==> account !in list
    ensures r.Some? ==> r.value < |list| && list[r.value] == account && account !in list[..r.value]
  {
    if list == [] then None
    else if list[0] == account then Some(0)
    else
      match Position(list[1..], account)
      case None => None
      case Some(i) => Some(i + 1)
  }

  function UnlinkAccount(s: State, signer: Account, p: Payload): (State, Result<(), Error>) {
    if signer != p.account then (s, Err(CallerMustBeLinkedAccount))
    else if p.action != Unlink then (s, Err(InvalidAction))
    else if p.account !in s.identityOf then (s, Err(AccountNotLinkedToIdentity))
    else if s.identityOf[p.account] != p.identity then (s, Err(AccountNotLinkedToIdentity))
    else
      var list := LinkedTo(s, p.identity);
      var at := Position(list, p.account);
      var list' := if at.Some? then SwapRemove(list, at.value) else list;
      (State(s.linked[p.identity := list'], s.identityOf - {p.account}), Ok(()))
  }

  datatype Call =
    | CallLink(signer: Account, payload: Payload, recovered: Option<Identity>)
    | CallUnlink(signer: Account, payload: Payload)

  function Step(max: nat, s: State, c: Call): State {
    match c
    case CallLink(signer, payload, recovered) => LinkAccount(max, s, signer, payload, recovered).0
    case CallUnlink(signer, payload) => UnlinkAccount(s, signer, payload).0
  }

  function Run(max: nat, s: State, calls: seq<Call>): State {
    if calls == [] then s else Step(max, Run(max, s, calls[..|calls| - 1]), calls[|calls| - 1])
  }

  // ---------------------------------------------------------------- the two maps agree

  /** An identity lists exactly the accounts that name it, each once, within the bound. */
  ghost predicate Inv(max: nat, s: State) {
    && (forall identity, account :: account in LinkedTo(s, identity) <==>
          account in s.identityOf && s.identityOf[account] == identity)
    && (forall identity :: Distinct(LinkedTo(s, identity)) && |LinkedTo(s, identity)| <= max)
  }

  lemma SwapRemoved(list: seq<Account>, i: nat)
    requires Distinct(list) && i < |list|
    ensures Distinct(SwapRemove(list, i))
    ensures forall a :: a in SwapRemove(list, i) <==> a in list && a != list[i]
  {
    var r, n := SwapRemove(list, i), |list|;
    assert forall j :: 0 <= j < |r| ==> r[j] == if j == i then list[n - 1] else list[j];
    forall a | a in list && a != list[i] ensures a in r {
      var j :| 0 <= j < n && list[j] == a;
      if j == n - 1 {
        assert r[i] == a;
      } else {
        assert r[j] == a;
      }
    }
  }

  lemma UnlinkInv(max: nat, s: State, signer: Account, p: Payload)
    requires Inv(max, s)
    ensures Inv(max, UnlinkAccount(s, signer, p).0)
  {
    var s' := UnlinkAccount(s, signer, p).0;
    if s' != s {
      var list := LinkedTo(s, p.identity);
      assert p.account in list;
      SwapRemoved(list, Position(list, p.account).value);
      forall identity | identity != p.identity ensures LinkedTo(s', identity) == LinkedTo(s, identity) {
      }
    }
  }

  lemma LinkInv(max: nat, s: State, signer: Account, p: Payload, recovered: Option<Identity>)
    requires Inv(max, s)
    ensures Inv(max, LinkAccount(max, s, signer, p, recovered).0)
  {
    var s' := LinkAccount(max, s, signer, p, recovered).0;
    if s' != s {
      var list := LinkedTo(s, p.identity);
      assert p.account !in list;
      DistinctAppend(list, p.account);
      forall identity | identity != p.identity ensures LinkedTo(s', identity) == LinkedTo(s, identity) {
      }
      assert LinkedTo(s', p.identity) == list + [p.account];
    }
  }

  /** In every run the two maps stay each other's inverse. */
  lemma {:induction false} RunInv(max: nat, s: State, calls: seq<Call>)
    requires Inv(max, s)
    ensures Inv(max, Run(max, s, calls))
    decreases |calls|
  {
    if calls != [] {
      var init := calls[..|calls| - 1];
      RunInv(max, s, init);
      match calls[|calls| - 1]
      case CallLink(signer, payload, recovered) => LinkInv(max, Run(max, s, init), signer, payload, recovered);
      case CallUnlink(signer, payload) => UnlinkInv(max, Run(max, s, init), signer, payload);
    }
  }

  lemma PushThenRemove(list: seq<Account>, account: Account)
    requires account !in list
    ensures Position(list + [account], account) == Some(|list|)
    ensures SwapRemove(list + [account], |list|) == list
  {
    var longer := list + [account];
    assert longer[|list|] == account;
  }

  /** Linking a new account and unlinking it again changes nothing anyone can see. */
  lemma LinkThenUnlink(max: nat, s: State, account: Account, identity: Identity)
    requires Inv(max, s) && account !in s.identityOf
    requires LinkAccount(max, s, account, Payload(Link, identity, account), Some(identity)).1.Ok?
    ensures var linked := LinkAccount(max, s, account, Payload(Link, identity, account), Some(identity)).0;
            var (s', r) := UnlinkAccount(linked, account, Payload(Unlink, identity, account));
            r.Ok? && s'.identityOf == s.identityOf && forall i :: LinkedTo(s', i) == LinkedTo(s, i)
  {
    var list := LinkedTo(s, identity);
    assert account !in list;
    LinksNew(max, s, account, identity);
    UnlinksLast(State(s.linked[identity := list + [account]], s.identityOf[account := identity]), account, identity, list);
    assert s.identityOf[account := identity] - {account} == s.identityOf;
  }

  /** Linking an account that is new to an identity's list puts it last. */
  lemma LinksNew(max: nat, s: State, account: Account, identity: Identity)
    requires account !in s.identityOf && account !in LinkedTo(s, identity)
    requires LinkAccount(max, s, account, Payload(Link, identity, account), Some(identity)).1.Ok?
    ensures LinkAccount(max, s, account, Payload(Link, identity, account), Some(identity)).0
         == State(s.linked[identity := LinkedTo(s, identity) + [account]], s.identityOf[account := identity])
  {
  }

  /** Unlinking the account that is last on its identity's list leaves the others. */
  lemma UnlinksLast(s: State, account: Account, identity: Identity, list: seq<Account>)
    requires account in s.identityOf && s.identityOf[account] == identity
    requires LinkedTo(s, identity) == list + [account] && account !in list
    ensures UnlinkAccount(s, account, Payload(Unlink, identity, account))
         == (State(s.linked[identity := list], s.identityOf - {account}), Ok(()))
  {
    PushThenRemove(list, account);
  }

  // ---------------------------------------------------------------- who can link and unlink

  /** Everyone's list but one is as it was. */
  ghost predicate OnlyChanges(s: State, s': State, identity: Identity) {
    forall i :: i != identity ==> LinkedTo(s', i) == LinkedTo(s, i)
  }

  /**
   An account is linked exactly by its own signed request together with a signature the
   identity made, if it is linked to no other identity and, when new, the identity has room;
   it then names the identity and ends its list, and nothing else changes.
   */
  lemma LinkOutcome(max: nat, s: State, signer: Account, p: Payload, recovered: Option<Identity>)
    requires Inv(max, s)
    ensures var (s', r) := LinkAccount(max, s, signer, p, recovered);
            && (r.Ok? <==>
                  && signer == p.account && p.action == Link && recovered == Some(p.identity)
                  && if p.account in s.identityOf then s.identityOf[p.account] == p.identity
                     else |LinkedTo(s, p.identity)| < max)
            && (r.Ok? ==>
                  && s'.identityOf == s.identityOf[p.account := p.identity] && OnlyChanges(s, s', p.identity)
                  && LinkedTo(s', p.identity)
                     == if p.account in s.identityOf then LinkedTo(s, p.identity)
                        else LinkedTo(s, p.identity) + [p.account])
            && (r.Err? ==> s' == s)
  {
    assert p.account in LinkedTo(s, p.identity) <==>
      p.account in s.identityOf && s.identityOf[p.account] == p.identity;
  }

  /** An account is unlinked exactly by its own signed request, from the identity it is linked to, and from no other. */
  lemma UnlinkOutcome(max: nat, s: State, signer: Account, p: Payload)
    requires Inv(max, s)
    ensures var (s', r) := UnlinkAccount(s, signer, p);
            && (r.Ok? <==> signer == p.account && p.action == Unlink && p.account in LinkedTo(s, p.identity))
            && (r.Ok? ==>
                  && s'.identityOf == s.identityOf - {p.account} && OnlyChanges(s, s', p.identity)
                  && Elements(LinkedTo(s', p.identity)) == Elements(LinkedTo(s, p.identity)) - {p.account}
                  && |LinkedTo(s', p.identity)| == |LinkedTo(s, p.identity)| - 1)
            && (r.Err? ==> s' == s)
  {
    var list := LinkedTo(s, p.identity);
    assert p.account in list <==> p.account in s.identityOf && s.identityOf[p.account] == p.identity;
    if p.account in list {
      SwapRemoved(list, Position(list, p.account).value);
    }
  }

  // ---------------------------------------------------------------- voting weight

  /** The balances of a list of accounts, added exactly. */
  ghost function ListTotal(list: seq<Account>, balance: Account -> nat): nat {
    if list == [] then 0 else ListTotal(list[..|list| - 1], balance) + balance(list[|list| - 1])
  }

  lemma {:induction false} ListTotalIsSum(list: seq<Account>, balance: Account -> nat)
    requires Distinct(list)
    ensures ListTotal(list, balance) == Sum(Elements(list), balance)
    decreases |list|
  {
    if list == [] {
      assert Elements(list) == {};
    } else {
      var init, last := list[..|list| - 1], list[|list| - 1];
      ListTotalIsSum(init, balance);
      assert Elements(list) == Elements(init) + {last} && last !in Elements(init);
      SumInsert(Elements(init), balance, last);
    }
  }

  ghost function Weight(s: State, balance: Account -> nat): Identity -> nat {
    identity => ListTotal(LinkedTo(s, identity), balance)
  }

  /** The accounts linked to any of the given identities. */
  ghost function AccountsOf(s: State, identities: set<Identity>): set<Account> {
    set a | a in s.identityOf && s.identityOf[a] in identities
  }

  lemma AccountsSplit(max: nat, s: State, identities: set<Identity>, i: Identity)
    requires Inv(max, s) && i in identities
    ensures AccountsOf(s, identities) == AccountsOf(s, identities - {i}) + Elements(LinkedTo(s, i))
    ensures AccountsOf(s, identities - {i}) !! Elements(LinkedTo(s, i))
  {
    var rest, mine := AccountsOf(s, identities - {i}), Elements(LinkedTo(s, i));
    forall a ensures a in mine <==> a in s.identityOf && s.identityOf[a] == i {
      assert a in mine <==> a in LinkedTo(s, i);
    }
    forall a ensures a in AccountsOf(s, identities) <==> a in rest || a in mine {
    }
  }

  /**
   No account is counted twice: over any set of identities the weights add up to the
   balances of the accounts linked to them, each taken once.
   */
  lemma {:induction false} WeightsAddUp(max: nat, s: State, identities: set<Identity>, balance: Account -> nat)
    requires Inv(max, s)
    ensures Sum(identities, Weight(s, balance)) == Sum(AccountsOf(s, identities), balance)
    decreases |identities|
  {
    if identities == {} {
      assert AccountsOf(s, identities) == {};
    } else {
      var i :| i in identities;
      WeightsAddUp(max, s, identities - {i}, balance);
      OneMoreWeight(max, s, identities, i, balance);
    }
  }

  lemma OneMoreWeight(max: nat, s: State, identities: set<Identity>, i: Identity, balance: Account -> nat)
    requires Inv(max, s) && i in identities
    ensures Sum(identities, Weight(s, balance)) - Sum(identities - {i}, Weight(s, balance))
         == Sum(AccountsOf(s, identities), balance) - Sum(AccountsOf(s, identities - {i}), balance)
  {
    var list := LinkedTo(s, i);
    SumTake(identities, Weight(s, balance), i);
    assert Weight(s, balance)(i) == Sum(Elements(list), balance) by {
      ListTotalIsSum(list, balance);
    }
    AccountsSplit(max, s, identities, i);
    SumUnion(AccountsOf(s, identities - {i}), Elements(list), balance);
  }

  /** So the weight of any identities together is at most everything there is. */
  lemma WeightsWithinIssuance(max: nat, s: State, identities: set<Identity>, balance: Account -> nat,
                              accounts: set<Account>)
    requires Inv(max, s) && s.identityOf.Keys <= accounts
    ensures Sum(identities, Weight(s, balance)) <= Sum(accounts, balance)
  {
    WeightsAddUp(max, s, identities, balance);
    SumSubset(AccountsOf(s, identities), accounts, balance);
  }

  /** Addition of the runtime's 128-bit balances. */
  function WrappingAdd(a: nat, b: nat): nat {
    (a + b) % BALANCE_RANGE
  }

  /**
   An identity's fold does not leave the 128-bit range when the balances of all
   accounts together fit in it.
   */
  lemma WeightFits(max: nat, s: State, identity: Identity, balance: Account -> nat, accounts: set<Account>)
    requires Inv(max, s) && s.identityOf.Keys <= accounts
    requires Sum(accounts, balance) < BALANCE_RANGE
    ensures Weight(s, balance)(identity) % BALANCE_RANGE == Weight(s, balance)(identity)
  {
    WeightsWithinIssuance(max, s, {identity}, balance, accounts);
    SumTake({identity}, Weight(s, balance), identity);
    assert {identity} - {identity} == {};
  }
}
