/**
 The record of processed Ethereum events: delivery of approved events at most once
 per transaction, and migration of the record between two pallet instances.
 */
module ProcessedEvents {
  import opened Prelude
  import opened EventKinds

  type TxHash = nat

  datatype EventId = EventId(signature: Signature, txHash: TxHash)

  datatype Processed = Processed(kind: EventKind, accepted: bool)

  type Ledger = map<TxHash, Processed>

  datatype Instance = Instance(network: nat, valid: bool)

  datatype Discovered = Discovered(id: EventId, block: nat)

  const BATCH_BOUND: nat := 64

  predicate AlreadyAccepted(l: Ledger, h: TxHash) {
    h in l && l[h].accepted
  }

  /** Records an event unless its transaction was already accepted or its signature is unknown. */
  function AddProcessed(l: Ledger, id: EventId, accepted: bool): Option<Ledger> {
    if AlreadyAccepted(l, id.txHash) then None
    else if id.signature.LegacyLift? then Some(l[id.txHash := Processed(Lifted, accepted)])
    else if TryFrom(id.signature).None? then None
    else Some(l[id.txHash := Processed(TryFrom(id.signature).value, accepted)])
  }

  /** The network-aware form: only a valid instance on the named network records. */
  function AddProcessedOn(instance: Instance, network: nat, l: Ledger, id: EventId, accepted: bool): Option<Ledger> {
    if !instance.valid || instance.network != network then None else AddProcessed(l, id, accepted)
  }

  predicate ProcessedExists(instance: Instance, network: nat, l: Ledger, id: EventId) {
    instance.valid && instance.network == network && id.txHash in l
  }

  // ---------------------------------------------------------------- delivery

  /** An approved event is handed on only if its kind is wanted and it is not from a later range. */
  predicate Handled(filter: set<EventKind>, endBlock: nat, e: Discovered) {
    TryFrom(e.id.signature).Some? && TryFrom(e.id.signature).value in filter && e.block <= endBlock
  }

  /** The record and the deliveries after one event. */
  function ProcessEvent(instance: Instance, network: nat, l: Ledger, delivered: seq<EventId>, id: EventId)
    : (Ledger, seq<EventId>)
  {
    if ProcessedExists(instance, network, l, id) then (l, delivered)
    else
      match AddProcessedOn(instance, network, l, id, true)
      case None => (l, delivered)
      case Some(l') => (l', delivered + [id])
  }

  function ProcessEvents(instance: Instance, network: nat, l: Ledger, delivered: seq<EventId>,
                         filter: set<EventKind>, endBlock: nat, events: seq<Discovered>): (Ledger, seq<EventId>)
  {
    if events == [] then (l, delivered)
    else
      var (l', delivered') :=
        ProcessEvents(instance, network, l, delivered, filter, endBlock, events[..|events| - 1]);
      var e := events[|events| - 1];
      if Handled(filter, endBlock, e) then ProcessEvent(instance, network, l', delivered', e.id)
      else (l', delivered')
  }

  /**
   No two deliveries are for one transaction, and every delivered transaction is recorded
   as accepted, except for those whose record was handed over to another instance.
   */
  ghost predicate DeliveredOnce(l: Ledger, delivered: seq<EventId>, handed: set<TxHash>) {
    && (forall i, j :: 0 <= i < j < |delivered| && delivered[i].txHash == delivered[j].txHash ==>
          delivered[i].txHash in handed)
    && (forall i :: 0 <= i < |delivered| ==>
          AlreadyAccepted(l, delivered[i].txHash) || delivered[i].txHash in handed)
  }

  /** An entry of one record is kept by another, up to a rejected one being replaced. */
  ghost predicate Keeps(l: Ledger, l': Ledger) {
    && l.Keys <= l'.Keys
    && forall h :: h in l && l[h].accepted ==> l'[h] == l[h]
  }

  lemma AddKeeps(l: Ledger, id: EventId, accepted: bool)
    ensures AddProcessed(l, id, accepted).Some? ==> Keeps(l, AddProcessed(l, id, accepted).value)
  {
  }

  lemma KeepsDelivered(l: Ledger, l': Ledger, delivered: seq<EventId>, handed: set<TxHash>)
    requires DeliveredOnce(l, delivered, handed) && Keeps(l, l')
    ensures DeliveredOnce(l', delivered, handed)
  {
  }

  lemma ProcessEventOnce(instance: Instance, l: Ledger, delivered: seq<EventId>, handed: set<TxHash>, id: EventId)
    requires instance.valid && TryFrom(id.signature).Some? && DeliveredOnce(l, delivered, handed)
    ensures var (l', d) := ProcessEvent(instance, instance.network, l, delivered, id);
            && DeliveredOnce(l', d, handed) && Keeps(l, l') && delivered <= d
            && l'.Keys == l.Keys + {id.txHash}
            && d == if id.txHash in l then delivered else delivered + [id]
  {
  }

  /** The transactions named by the events of a batch that are to be handled. */
  ghost function Named(filter: set<EventKind>, endBlock: nat, events: seq<Discovered>): set<TxHash> {
    set e | e in events && Handled(filter, endBlock, e) :: e.id.txHash
  }

  /** The transactions delivered from position `start` on. */
  ghost function DeliveredFrom(delivered: seq<EventId>, start: nat): set<TxHash> {
    set i | start <= i < |delivered| :: delivered[i].txHash
  }

  lemma NamedAppend(filter: set<EventKind>, endBlock: nat, init: seq<Discovered>, e: Discovered)
    ensures Named(filter, endBlock, init + [e])
         == Named(filter, endBlock, init) + if Handled(filter, endBlock, e) then {e.id.txHash} else {}
  {
    assert forall x :: x in init + [e] <==> x in init || x == e;
  }

  lemma DeliveredAppend(delivered: seq<EventId>, id: EventId, start: nat)
    requires start <= |delivered|
    ensures DeliveredFrom(delivered + [id], start) == DeliveredFrom(delivered, start) + {id.txHash}
  {
    var d := delivered + [id];
    assert forall i :: 0 <= i < |delivered| ==> d[i] == delivered[i];
    assert d[|delivered|] == id;
  }

  /** How far `l'` and `d'` are from `l` and `delivered` once the transactions `named` are dealt with. */
  ghost predicate DealtWith(l: Ledger, delivered: seq<EventId>, l': Ledger, d': seq<EventId>, handed: set<TxHash>,
                            named: set<TxHash>)
  {
    && DeliveredOnce(l', d', handed) && Keeps(l, l') && delivered <= d'
    && l'.Keys == l.Keys + named
    && DeliveredFrom(d', |delivered|) == named - l.Keys
  }

  lemma DeliverOneMore(instance: Instance, l: Ledger, delivered: seq<EventId>, l1: Ledger, d1: seq<EventId>,
                       handed: set<TxHash>, named: set<TxHash>, id: EventId)
    requires instance.valid && TryFrom(id.signature).Some? && DealtWith(l, delivered, l1, d1, handed, named)
    ensures var (l', d) := ProcessEvent(instance, instance.network, l1, d1, id);
            DealtWith(l, delivered, l', d, handed, named + {id.txHash})
  {
    ProcessEventOnce(instance, l1, d1, handed, id);
    DeliveredAppend(d1, id, |delivered|);
    KeepsTransitive(l, l1, ProcessEvent(instance, instance.network, l1, d1, id).0);
    if id.txHash in l1 {
      assert (named + {id.txHash}) - l.Keys == named - l.Keys;
    } else {
      assert (named + {id.txHash}) - l.Keys == (named - l.Keys) + {id.txHash};
    }
  }

  lemma KeepsTransitive(a: Ledger, b: Ledger, c: Ledger)
    requires Keeps(a, b) && Keeps(b, c)
    ensures Keeps(a, c)
  {
  }

  /**
   An approved batch is delivered exactly: the transactions delivered are those its
   handled events name, less those on record before; each is delivered once and put
   on record, and what was on record stays there.
   */
  lemma {:induction false} BatchDelivery(instance: Instance, l: Ledger, delivered: seq<EventId>, handed: set<TxHash>,
                                         filter: set<EventKind>, endBlock: nat, events: seq<Discovered>)
    requires instance.valid && DeliveredOnce(l, delivered, handed)
    ensures var (l', d) := ProcessEvents(instance, instance.network, l, delivered, filter, endBlock, events);
            DealtWith(l, delivered, l', d, handed, Named(filter, endBlock, events))
    decreases |events|
  {
    if events == [] {
      assert Named(filter, endBlock, events) == {};
      assert DeliveredFrom(delivered, |delivered|) == {};
    } else {
      var init, e := events[..|events| - 1], events[|events| - 1];
      BatchDelivery(instance, l, delivered, handed, filter, endBlock, init);
      var (l1, d1) := ProcessEvents(instance, instance.network, l, delivered, filter, endBlock, init);
      assert events == init + [e];
      NamedAppend(filter, endBlock, init, e);
      if Handled(filter, endBlock, e) {
        DeliverOneMore(instance, l, delivered, l1, d1, handed, Named(filter, endBlock, init), e.id);
      }
    }
  }

  // ---------------------------------------------------------------- migration

  datatype Migration = Migration(id: EventId, outcome: bool)

  /** The entry a migration would put back into the instance it came from. */
  function ReturnEntry(source: Ledger, m: Migration): Ledger {
    match TryFrom(m.id.signature)
    case None => source
    case Some(kind) => source[m.id.txHash := Processed(kind, m.outcome)]
  }

  function EntryOf(source: Ledger, h: TxHash): Migration
    requires h in source
  {
    Migration(EventId(Of(source[h].kind), h), source[h].accepted)
  }

  /** `order` is the order in which the source's storage map is iterated. */
  ghost predicate IterationOrder(order: seq<TxHash>, l: Ledger) {
    Distinct(order) && Elements(order) == l.Keys
  }

  function BatchOf(order: seq<TxHash>): seq<TxHash> {
    if |order| <= BATCH_BOUND then order else order[..BATCH_BOUND]
  }

  function Entries(source: Ledger, hashes: seq<TxHash>): (r: seq<Migration>)
    requires forall h :: h in hashes ==> h in source
    ensures |r| == |hashes|
    ensures forall i :: 0 <= i < |r| ==> r[i] == EntryOf(source, hashes[i])
  {
    seq(|hashes|, i requires 0 <= i < |hashes| => EntryOf(source, hashes[i]))
  }

  /** One migrated entry: recorded by the target, or returned to the source. */
  function MigrateOne(target: Instance, network: nat, ledgers: (Ledger, Ledger), m: Migration): (Ledger, Ledger) {
    match AddProcessedOn(target, network, ledgers.1, m.id, m.outcome)
    case Some(l) => (ledgers.0, l)
    case None => (ReturnEntry(ledgers.0, m), ledgers.1)
  }

  function MigrateBatch(target: Instance, network: nat, ledgers: (Ledger, Ledger), batch: seq<Migration>)
    : (Ledger, Ledger)
  {
    if batch == [] then ledgers
    else
      MigrateOne(target, network, MigrateBatch(target, network, ledgers, batch[..|batch| - 1]), batch[|batch| - 1])
  }

  /** A whole batch: the first entries in iteration order leave the source, then each is recorded or returned. */
  ghost function Migrate(target: Instance, network: nat, ledgers: (Ledger, Ledger), order: seq<TxHash>)
    : (Ledger, Ledger)
    requires IterationOrder(order, ledgers.0)
  {
    var hashes := BatchOf(order);
    OrderCovers(order, ledgers.0);
    MigrateBatch(target, network, (ledgers.0 - Elements(hashes), ledgers.1), Entries(ledgers.0, hashes))
  }

  lemma OrderCovers(order: seq<TxHash>, l: Ledger)
    requires IterationOrder(order, l)
    ensures forall h :: h in BatchOf(order) ==> h in l
    ensures Distinct(BatchOf(order))
  {
    assert forall h :: h in order ==> h in Elements(order);
  }

  ghost predicate Recorded(ledgers: (Ledger, Ledger), h: TxHash) {
    h in ledgers.0 || h in ledgers.1
  }

  /** The transaction was accepted, as this kind of event, by one of the two instances. */
  ghost predicate AcceptedAs(ledgers: (Ledger, Ledger), h: TxHash, kind: EventKind) {
    || (h in ledgers.0 && ledgers.0[h] == Processed(kind, true))
    || (h in ledgers.1 && ledgers.1[h] == Processed(kind, true))
  }

  ghost predicate SameHistory(a: (Ledger, Ledger), b: (Ledger, Ledger)) {
    && (forall h :: Recorded(a, h) <==> Recorded(b, h))
    && (forall h, kind :: AcceptedAs(a, h, kind) <==> AcceptedAs(b, h, kind))
  }

  /** The target turns an entry away: it does not record for this network, or has the transaction accepted. */
  predicate Refused(target: Instance, network: nat, l: Ledger, h: TxHash) {
    !target.valid || target.network != network || AlreadyAccepted(l, h)
  }

  /** The entries among `hashes` that move. */
  ghost function Moving(target: Instance, network: nat, l: Ledger, hashes: seq<TxHash>): set<TxHash> {
    set h | h in hashes && !Refused(target, network, l, h)
  }

  ghost function MoveEntries(ledgers: (Ledger, Ledger), moved: set<TxHash>): (Ledger, Ledger)
    requires moved <= ledgers.0.Keys
  {
    (ledgers.0 - moved, ledgers.1 + (map h | h in moved :: ledgers.0[h]))
  }

  lemma MoveNothing(ledgers: (Ledger, Ledger))
    ensures ledgers.0 - {} == ledgers.0 && MoveEntries(ledgers, {}).1 == ledgers.1
  {
  }

  lemma MoveOneMore(ledgers: (Ledger, Ledger), moved: set<TxHash>, h: TxHash)
    requires moved + {h} <= ledgers.0.Keys && h !in moved
    ensures MoveEntries(ledgers, moved + {h}).1 == MoveEntries(ledgers, moved).1[h := ledgers.0[h]]
  {
  }

  lemma OneMoves(target: Instance, network: nat, ledgers: (Ledger, Ledger), moved: set<TxHash>,
                 pending: set<TxHash>, h: TxHash)
    requires moved + pending + {h} <= ledgers.0.Keys && h !in moved && h !in pending && moved !! pending
    ensures var before := (ledgers.0 - moved - pending - {h}, MoveEntries(ledgers, moved).1);
            var moved' := if Refused(target, network, ledgers.1, h) then moved else moved + {h};
            MigrateOne(target, network, before, EntryOf(ledgers.0, h))
            == (ledgers.0 - moved' - pending, MoveEntries(ledgers, moved').1)
  {
    var before := (ledgers.0 - moved - pending - {h}, MoveEntries(ledgers, moved).1);
    var after := MigrateOne(target, network, before, EntryOf(ledgers.0, h));
    if Refused(target, network, ledgers.1, h) {
      assert after.0 == ledgers.0 - moved - pending;
    } else {
      assert after.0 == ledgers.0 - (moved + {h}) - pending;
      MoveOneMore(ledgers, moved, h);
    }
  }

  lemma SplitHashes(target: Instance, network: nat, l: Ledger, hashes: seq<TxHash>, k: nat)
    requires Distinct(hashes) && k < |hashes|
    ensures var h, rest, moved := hashes[k], Elements(hashes[k + 1..]), Moving(target, network, l, hashes[..k]);
            && Elements(hashes[k..]) == rest + {h} && h !in rest && h !in moved && moved !! rest
            && Moving(target, network, l, hashes[..k + 1])
               == if Refused(target, network, l, h) then moved else moved + {h}
  {
    assert hashes[k..] == [hashes[k]] + hashes[k + 1..];
    assert hashes[..k + 1] == hashes[..k] + [hashes[k]];
  }

  /** The two records once the first `k` of `hashes` are dealt with and the rest are still out. */
  ghost function Midway(target: Instance, network: nat, ledgers: (Ledger, Ledger), hashes: seq<TxHash>, k: nat)
    : (Ledger, Ledger)
    requires k <= |hashes| && forall h :: h in hashes ==> h in ledgers.0
  {
    var moved := Moving(target, network, ledgers.1, hashes[..k]);
    (ledgers.0 - moved - Elements(hashes[k..]), MoveEntries(ledgers, moved).1)
  }

  lemma MidwayStep(target: Instance, network: nat, ledgers: (Ledger, Ledger), hashes: seq<TxHash>, k: nat)
    requires Distinct(hashes) && k < |hashes| && forall h :: h in hashes ==> h in ledgers.0
    ensures MigrateOne(target, network, Midway(target, network, ledgers, hashes, k), EntryOf(ledgers.0, hashes[k]))
         == Midway(target, network, ledgers, hashes, k + 1)
  {
    SplitHashes(target, network, ledgers.1, hashes, k);
    var h, rest := hashes[k], Elements(hashes[k + 1..]);
    var moved := Moving(target, network, ledgers.1, hashes[..k]);
    assert ledgers.0 - moved - (rest + {h}) == ledgers.0 - moved - rest - {h};
    OneMoves(target, network, ledgers, moved, rest, h);
  }

  lemma MidwayStart(target: Instance, network: nat, ledgers: (Ledger, Ledger), hashes: seq<TxHash>)
    requires forall h :: h in hashes ==> h in ledgers.0
    ensures Midway(target, network, ledgers, hashes, 0) == (ledgers.0 - Elements(hashes), ledgers.1)
  {
    assert hashes[0..] == hashes && hashes[..0] == [];
    assert Moving(target, network, ledgers.1, hashes[..0]) == {};
    MoveNothing(ledgers);
  }

  lemma {:induction false} BatchMoves(target: Instance, network: nat, ledgers: (Ledger, Ledger),
                                      hashes: seq<TxHash>, k: nat)
    requires Distinct(hashes) && k <= |hashes| && forall h :: h in hashes ==> h in ledgers.0
    ensures MigrateBatch(target, network, (ledgers.0 - Elements(hashes), ledgers.1), Entries(ledgers.0, hashes)[..k])
         == Midway(target, network, ledgers, hashes, k)
  {
    var batch := Entries(ledgers.0, hashes);
    if k == 0 {
      assert batch[..0] == [];
      MidwayStart(target, network, ledgers, hashes);
    } else {
      BatchMoves(target, network, ledgers, hashes, k - 1);
      assert batch[..k][..k - 1] == batch[..k - 1];
      MidwayStep(target, network, ledgers, hashes, k - 1);
    }
  }

  /**
   A batch moves, of the first entries in iteration order, exactly those the target
   does not refuse, each as it was, and leaves everything else where it was.
   */
  lemma MigrateMovesExactly(target: Instance, network: nat, ledgers: (Ledger, Ledger), order: seq<TxHash>)
    requires IterationOrder(order, ledgers.0)
    ensures var moved := Moving(target, network, ledgers.1, BatchOf(order));
            moved <= ledgers.0.Keys && Migrate(target, network, ledgers, order) == MoveEntries(ledgers, moved)
  {
    var hashes := BatchOf(order);
    OrderCovers(order, ledgers.0);
    BatchMoves(target, network, ledgers, hashes, |hashes|);
    var batch := Entries(ledgers.0, hashes);
    assert batch[..|hashes|] == batch && hashes[..|hashes|] == hashes && hashes[|hashes|..] == [];
    var moved := Moving(target, network, ledgers.1, hashes);
    assert Elements(hashes[|hashes|..]) == {};
    assert ledgers.0 - moved - {} == ledgers.0 - moved;
  }

  /** The entries of some transactions. */
  function Part(l: Ledger, hashes: set<TxHash>): Ledger {
    map h | h in hashes && h in l :: l[h]
  }

  /** A record that takes entries in, except for transactions it has accepted. */
  function Absorb(l: Ledger, entries: Ledger): Ledger {
    l + map h | h in entries && !AlreadyAccepted(l, h) :: entries[h]
  }

  lemma AbsorbKeeps(l: Ledger, entries: Ledger)
    ensures Keeps(l, Absorb(l, entries))
  {
  }

  lemma AbsorbNothing(l: Ledger, source: Ledger)
    ensures Absorb(l, Part(source, {})) == l
  {
    assert Part(source, {}) == map[];
  }

  lemma AbsorbMoves(ledgers: (Ledger, Ledger), moved: set<TxHash>)
    requires moved <= ledgers.0.Keys && forall h :: h in moved ==> !AlreadyAccepted(ledgers.1, h)
    ensures Absorb(ledgers.1, Part(ledgers.0, moved)) == MoveEntries(ledgers, moved).1
  {
    assert Part(ledgers.0, moved).Keys == moved;
  }

  /** One batch neither loses nor invents a record or an acceptance, returned entries included. */
  lemma MigrateConserves(target: Instance, network: nat, ledgers: (Ledger, Ledger), order: seq<TxHash>)
    requires IterationOrder(order, ledgers.0)
    ensures SameHistory(ledgers, Migrate(target, network, ledgers, order))
  {
    MigrateMovesExactly(target, network, ledgers, order);
  }

  /** A batch changes nothing exactly when all of the first entries in iteration order are refused. */
  lemma MigrateStallsIff(target: Instance, network: nat, ledgers: (Ledger, Ledger), order: seq<TxHash>)
    requires IterationOrder(order, ledgers.0)
    ensures Migrate(target, network, ledgers, order) == ledgers
       <==> forall h :: h in BatchOf(order) ==> Refused(target, network, ledgers.1, h)
  {
    MigrateMovesExactly(target, network, ledgers, order);
    OrderCovers(order, ledgers.0);
    var moved := Moving(target, network, ledgers.1, BatchOf(order));
    if moved == {} {
      assert MoveEntries(ledgers, moved).0 == ledgers.0 && MoveEntries(ledgers, moved).1 == ledgers.1;
    } else {
      var h :| h in moved;
      assert h !in MoveEntries(ledgers, moved).0;
    }
  }

  /** Two instances that both accepted one transaction are such a case: the entry never gets across. */
  lemma BothAcceptedStalls(target: Instance, network: nat, id: EventId, kind: EventKind)
    requires TryFrom(id.signature) == Some(kind)
    ensures var l := map[id.txHash := Processed(kind, true)];
            && AddProcessed(map[], id, true) == Some(l)
            && IterationOrder([id.txHash], l)
            && Migrate(target, network, (l, l), [id.txHash]) == (l, l)
  {
    var l: Ledger := map[id.txHash := Processed(kind, true)];
    assert Elements([id.txHash]) == l.Keys;
    MigrateStallsIff(target, network, (l, l), [id.txHash]);
  }

  /** A batch request: the network it is for, and the iteration order it finds. */
  datatype Batch = Batch(target: Instance, network: nat, order: seq<TxHash>)

  ghost predicate MigrationRun(trace: seq<(Ledger, Ledger)>, batches: seq<Batch>) {
    && |trace| == |batches| + 1
    && forall i :: 0 <= i < |batches| ==>
         && IterationOrder(batches[i].order, trace[i].0)
         && trace[i + 1] == Migrate(batches[i].target, batches[i].network, trace[i], batches[i].order)
  }

  /** So any sequence of batches keeps what the two instances know between them. */
  lemma {:induction false} MigrationConserves(trace: seq<(Ledger, Ledger)>, batches: seq<Batch>, k: nat)
    requires MigrationRun(trace, batches) && k < |trace|
    ensures SameHistory(trace[0], trace[k])
  {
    if k > 0 {
      MigrationConserves(trace, batches, k - 1);
      MigrateConserves(batches[k - 1].target, batches[k - 1].network, trace[k - 1], batches[k - 1].order);
      assert trace[k] == Migrate(batches[k - 1].target, batches[k - 1].network, trace[k - 1], batches[k - 1].order);
    }
  }

  /** Each entry of the one record can go to the other. */
  ghost predicate AllWelcome(target: Instance, network: nat, ledgers: (Ledger, Ledger)) {
    forall h :: h in ledgers.0 ==> !Refused(target, network, ledgers.1, h)
  }

  lemma BatchSize(order: seq<TxHash>, l: Ledger)
    requires IterationOrder(order, l)
    ensures |Elements(BatchOf(order))| == Min(|l|, 64) && Elements(BatchOf(order)) <= l.Keys
  {
    OrderCovers(order, l);
    DistinctCount(order);
    DistinctCount(BatchOf(order));
    assert |l| == |l.Keys|;
  }

  /** A batch the target welcomes takes the first 64 entries, or all there are. */
  lemma BatchDrains(target: Instance, network: nat, ledgers: (Ledger, Ledger), order: seq<TxHash>)
    requires IterationOrder(order, ledgers.0) && AllWelcome(target, network, ledgers)
    ensures var after := Migrate(target, network, ledgers, order);
            |after.0| == SaturatingSub(|ledgers.0|, 64) && AllWelcome(target, network, after)
  {
    MigrateMovesExactly(target, network, ledgers, order);
    BatchSize(order, ledgers.0);
    var moved := Moving(target, network, ledgers.1, BatchOf(order));
    OrderCovers(order, ledgers.0);
    assert moved == Elements(BatchOf(order));
    var after := MoveEntries(ledgers, moved);
    assert |after.0| == |after.0.Keys| && after.0.Keys == ledgers.0.Keys - moved;
  }

  /** So k batches to a target that welcomes them leave n - 64 k of n entries: none is skipped, none sent twice. */
  lemma {:induction false} MigrationDrains(trace: seq<(Ledger, Ledger)>, batches: seq<Batch>, target: Instance,
                                           network: nat, k: nat)
    requires MigrationRun(trace, batches) && k < |trace| && AllWelcome(target, network, trace[0])
    requires forall i :: 0 <= i < |batches| ==> batches[i].target == target && batches[i].network == network
    ensures |trace[k].0| == SaturatingSub(|trace[0].0|, 64 * k) && AllWelcome(target, network, trace[k])
  {
    if k > 0 {
      MigrationDrains(trace, batches, target, network, k - 1);
      assert trace[k] == Migrate(batches[k - 1].target, batches[k - 1].network, trace[k - 1], batches[k - 1].order);
      BatchDrains(target, network, trace[k - 1], batches[k - 1].order);
    }
  }
}
