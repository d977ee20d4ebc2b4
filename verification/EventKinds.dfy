/** The Ethereum events the bridge knows, and the signatures that name them. */
module EventKinds {
  import opened Prelude

  datatype EventKind =
    | AddedValidator | Lifted | NftMint | NftTransferTo | NftCancelListing | NftEndBatchListing
    | AvtGrowthLifted | AvtLowerClaimed | LiftedToPredictionMarket | Erc20DirectTransfer
    | LowerReverted | AvtRewardsMinted
  {
    /** Secondary events are emitted by token contracts rather than the bridge contract. */
    predicate IsPrimary() {
      !Erc20DirectTransfer?
    }
  }

  /** A topic hash: the signature of a known event, one of two retired lift signatures, or anything else. */
  datatype Signature = Of(kind: EventKind) | LegacyLift(version: nat) | Foreign(topic: nat)

  function TryFrom(signature: Signature): Option<EventKind> {
    if signature.Of? then Some(signature.kind) else None
  }
}
