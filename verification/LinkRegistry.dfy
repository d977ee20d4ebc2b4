/** The storage of the linked-account pallet and the calls that update it. */
module LinkRegistry {
  import opened Prelude
  import L = LinkedAccounts
  import opened LinkedAccounts

  class Links {
    const max: nat
    var linked: map<Identity, seq<Account>>
    var identityOf: map<Account, Identity>

    ghost function View(): State
      reads this
    {
      State(linked, identityOf)
    }

    ghost predicate Valid()
      reads this
    {
      Inv(max, View())
    }

    constructor (max: nat)
      ensures Valid() && this.max == max && View() == State(map[], map[])
    {
      this.max := max;
      linked, identityOf := map[], map[];
    }

    method LinkAccount(signer: Account, p: Payload, recovered: Option<Identity>) returns (r: Result<(), Error>)
      requires Valid()
      modifies this
      ensures Valid()
      ensures (View(), r) == L.LinkAccount(max, old(View()), signer, p, recovered)
    {
      LinkInv(max, View(), signer, p, recovered);
      if signer != p.account {
        return Err(CallerMustBeLinkedAccount);
      }
      if p.action != Link {
        return Err(InvalidAction);
      }
      if recovered.None? {
        return Err(BadEcdsaSignature);
      }
      if recovered.value != p.identity {
        return Err(SignerIdentityMismatch);
      }
      if p.account in identityOf {
        if identityOf[p.account] != p.identity {
          return Err(AccountLinkedToDifferentIdentity);
        }
        return Ok(());
      }
      var list := if p.identity in linked then linked[p.identity] else [];
      if p.account !in list {
        if |list| >= max {
          return Err(LinkedAccountsLimitReached);
        }
        list := list + [p.account];
      }
      linked := linked[p.identity := list];
      identityOf := identityOf[p.account := p.identity];
      return Ok(());
    }

    method UnlinkAccount(signer: Account, p: Payload) returns (r: Result<(), Error>)
      requires Valid()
      modifies this
      ensures Valid()
      ensures (View(), r) == L.UnlinkAccount(old(View()), signer, p)
    {
      UnlinkInv(max, View(), signer, p);
      if signer != p.account {
        return Err(CallerMustBeLinkedAccount);
      }
      if p.action != Unlink {
        return Err(InvalidAction);
      }
      if p.account !in identityOf || identityOf[p.account] != p.identity {
        return Err(AccountNotLinkedToIdentity);
      }
      var list := if p.identity in linked then linked[p.identity] else [];
      var at := Position(list, p.account);
      if at.Some? {
        list := SwapRemove(list, at.value);
      }
      linked := linked[p.identity := list];
      identityOf := identityOf - {p.account};
      return Ok(());
    }

    method GetTotalLinkedBalance(identity: Identity, balance: Account -> nat) returns (total: nat)
      ensures total == Weight(View(), balance)(identity) % BALANCE_RANGE
    {
      var list := if identity in linked then linked[identity] else [];
      total := 0;
      for i := 0 to |list|
        invariant total == ListTotal(list[..i], balance) % BALANCE_RANGE
      {
        assert list[..i + 1][..i] == list[..i];
        total := WrappingAdd(total, balance(list[i]));
      }
      assert list[..|list|] == list;
    }

    method GetTotalLinkedBalances(identities: seq<Identity>, balance: Account -> nat) returns (totals: seq<nat>)
      ensures |totals| == |identities|
      ensures forall i :: 0 <= i < |totals| ==>
                totals[i] == Weight(View(), balance)(identities[i]) % BALANCE_RANGE
    {
      totals := [];
      for i := 0 to |identities|
        invariant |totals| == i
        invariant forall j :: 0 <= j < i ==>
                    totals[j] == Weight(View(), balance)(identities[j]) % BALANCE_RANGE
      {
        var total := GetTotalLinkedBalance(identities[i], balance);
        totals := totals + [total];
      }
    }
  }
}
