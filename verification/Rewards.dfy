/**
 App-chain reward accounting: per-period snapshots, recorded shares, atomic payouts
 with retry, the cursor-based sweep and the reclaim of a finished period's snapshot.
 */
module Rewards {
  import opened Prelude
  import opened SortedNats
  import opened AppChains

  type Period = nat
  type Node = nat

  /** A Perquintill holds parts of 10^18. */
  const PERQUINTILL: nat := 1_000_000_000_000_000_000

  datatype Record = Record(owner: Account, share: nat, expiry: nat)

  datatype Key = Key(period: Period, node: Node)

  /** A payout line: one chain's reward to one node for one period. */
  datatype Line = Line(key: Key, asset: Asset)

  datatype Payment = Payment(owner: Account, token: Token, amount: nat)

  type Snapshot = map<Asset, Pool>

  datatype State = State(
    chains: Chains,
    snapshots: map<Period, Snapshot>,
    unpaid: map<Key, Record>,
    byNode: set<Key>,
    completed: set<Period>,
    cursor: Option<Key>,
    paid: map<Line, Payment>)

  /**
   `rank` is the fixed order in which storage iterates the unpaid records, and
   `keyAt` its inverse; both are arbitrary.
   */
  datatype Config = Config(limits: Limits, maxPayouts: nat, rank: Key -> nat, keyAt: nat -> Key)

  ghost predicate ValidConfig(cfg: Config) {
    forall k :: cfg.keyAt(cfg.rank(k)) == k
  }

  /** What one payout attempt meets: the chains the node is eligible for, and the transfers that would succeed. */
  datatype Attempt = Attempt(eligible: set<Asset>, payable: set<Asset>)

  type Attempts = Key -> Attempt

  // ---------------------------------------------------------------- snapshots and shares

  function SnapshotOf(s: State, p: Period): Snapshot {
    if p in s.snapshots then s.snapshots[p] else map[]
  }

  /** The rates of the given chains that are not zero. */
  function Funded(rates: map<Asset, Pool>, assets: set<Asset>): Snapshot {
    map a | a in assets && a in rates && rates[a].amount != 0 :: rates[a]
  }

  function OpenPeriod(s: State, p: Period): State {
    s.(snapshots := s.snapshots[p := SnapshotOf(s, p) + Funded(s.chains.rates, s.chains.rates.Keys)])
  }

  /** A share is recorded if there is one and some chain funded the period. */
  predicate Records(s: State, key: Key, record: Record) {
    record.share != 0 && SnapshotOf(s, key.period) != map[]
  }

  function RecordReward(s: State, key: Key, record: Record): State {
    if !Records(s, key, record) then s
    else s.(unpaid := s.unpaid[key := record], byNode := s.byNode + {key})
  }

  /** `share * total`, rounded down. */
  function ShareOf(share: nat, total: nat): nat {
    share * total / PERQUINTILL
  }

  predicate HasUnpaid(s: State, p: Period) {
    exists k :: k in s.unpaid && k.period == p
  }

  ghost function TryReclaim(cfg: Config, s: State, p: Period): State {
    if p !in s.completed || HasUnpaid(s, p) then s
    else
      var rest := ClearUpTo(SnapshotOf(s, p), cfg.limits.maxChains);
      if rest == map[] then s.(snapshots := s.snapshots - {p}, completed := s.completed - {p})
      else s.(snapshots := s.snapshots[p := rest])
  }

  ghost function CompletePeriod(cfg: Config, s: State, p: Period): State {
    TryReclaim(cfg, s.(completed := s.completed + {p}), p)
  }

  // ---------------------------------------------------------------- payouts

  /** The chains of a snapshot that owe a record something. */
  function DueFrom(pools: Snapshot, record: Record, eligible: set<Asset>): set<Asset> {
    set a | a in pools && a in eligible && ShareOf(record.share, pools[a].amount) > 0
  }

  function Due(s: State, key: Key, record: Record, eligible: set<Asset>): set<Asset> {
    DueFrom(SnapshotOf(s, key.period), record, eligible)
  }

  function AmountPaid(paid: map<Line, Payment>, line: Line): nat {
    if line in paid then paid[line].amount else 0
  }

  /** The payout log with one more payment; a second payment on a line would add up. */
  function Pay(paid: map<Line, Payment>, line: Line, owner: Account, token: Token, amount: nat): map<Line, Payment> {
    paid[line := Payment(owner, token, AmountPaid(paid, line) + amount)]
  }

  /** The log after every due chain has paid the record. */
  function PayAllDue(paid: map<Line, Payment>, key: Key, record: Record, pools: Snapshot, due: set<Asset>)
    : map<Line, Payment>
    requires due <= pools.Keys
  {
    map line | line in paid.Keys + (set a | a in due :: Line(key, a)) ::
      if line.key == key && line.asset in due
      then Payment(record.owner, pools[line.asset].token,
                   AmountPaid(paid, line) + ShareOf(record.share, pools[line.asset].amount))
      else paid[line]
  }

  /** A settled record: everything due is paid, the record and its index entry are gone. */
  ghost function Settle(cfg: Config, s: State, key: Key, eligible: set<Asset>): State
    requires key in s.unpaid
  {
    var record := s.unpaid[key];
    var paid := PayAllDue(s.paid, key, record, SnapshotOf(s, key.period), Due(s, key, record, eligible));
    TryReclaim(cfg, s.(paid := paid, unpaid := s.unpaid - {key}, byNode := s.byNode - {key}), key.period)
  }

  predicate Pays(s: State, key: Key, attempt: Attempt) {
    key in s.unpaid && Due(s, key, s.unpaid[key], attempt.eligible) <= attempt.payable
  }

  /** All or nothing: a failed transfer leaves the record for a retry. */
  ghost function TryPay(cfg: Config, s: State, key: Key, attempt: Attempt): State {
    if Pays(s, key, attempt) then Settle(cfg, s, key, attempt.eligible) else s
  }

  ghost function PayEach(cfg: Config, s: State, keys: seq<Key>, attempts: Attempts): State
    decreases |keys|
  {
    if keys == [] then s
    else
      var last := keys[|keys| - 1];
      TryPay(cfg, PayEach(cfg, s, keys[..|keys| - 1], attempts), last, attempts(last))
  }

  // ---------------------------------------------------------------- the sweep

  /** The storage position the next sweep resumes after. */
  function CursorRank(cfg: Config, cursor: Option<Key>): int {
    if cursor.None? then -1 else cfg.rank(cursor.value)
  }

  ghost function RanksAfter(cfg: Config, s: State): set<nat> {
    set k | k in s.unpaid && cfg.rank(k) > CursorRank(cfg, s.cursor) :: cfg.rank(k)
  }

  /** The records from the cursor on, in storage order. */
  ghost function KeysAfter(cfg: Config, s: State): seq<Key> {
    var ranks := SortedList(RanksAfter(cfg, s));
    seq(|ranks|, i requires 0 <= i < |ranks| => cfg.keyAt(ranks[i]))
  }

  ghost function BatchOf(cfg: Config, s: State, capacity: nat): seq<Key> {
    var keys := KeysAfter(cfg, s);
    if |keys| <= capacity then keys else keys[..capacity]
  }

  /** The iteration ran out of records before the batch was full. */
  ghost predicate Exhausts(cfg: Config, s: State, capacity: nat) {
    |KeysAfter(cfg, s)| < capacity
  }

  ghost function AdvanceCursor(cfg: Config, s: State, capacity: nat): Option<Key> {
    var batch := BatchOf(cfg, s, capacity);
    if Exhausts(cfg, s, capacity) then None
    else if batch != [] then Some(batch[|batch| - 1])
    else s.cursor
  }

  /** `capacity` is the lesser of the payout bound and what the weight meter allows. */
  ghost function Sweep(cfg: Config, s: State, capacity: nat, attempts: Attempts): State {
    PayEach(cfg, s.(cursor := AdvanceCursor(cfg, s, capacity)), BatchOf(cfg, s, capacity), attempts)
  }

  // ---------------------------------------------------------------- calls

  ghost function KeysOf(node: Node, periods: seq<Period>): (r: seq<Key>)
    ensures |r| == |periods|
    ensures forall i :: 0 <= i < |r| ==> r[i] == Key(periods[i], node)
  {
    seq(|periods|, i requires 0 <= i < |periods| => Key(periods[i], node))
  }

  datatype Call =
    | CallChains(chainsCall: AppChains.Call)
    | CallOpen(period: Period)
    | CallRecord(key: Key, record: Record)
    | CallComplete(period: Period)
    | CallClaim(node: Node, periods: seq<Period>, attempts: Attempts)
    | CallSweep(capacity: nat, attempts: Attempts)
    | CallProcessOutstanding(attempts: Attempts)
    | CallReclaim(period: Period)

  ghost function Step(cfg: Config, s: State, c: Call): State {
    match c
    case CallChains(call) => s.(chains := AppChains.Step(cfg.limits, s.chains, call))
    case CallOpen(p) => OpenPeriod(s, p)
    case CallRecord(key, record) => RecordReward(s, key, record)
    case CallComplete(p) => CompletePeriod(cfg, s, p)
    case CallClaim(node, periods, attempts) => PayEach(cfg, s, KeysOf(node, periods), attempts)
    case CallSweep(capacity, attempts) => Sweep(cfg, s, capacity, attempts)
    case CallProcessOutstanding(attempts) =>
      if BatchOf(cfg, s, cfg.maxPayouts) == [] then s else Sweep(cfg, s, cfg.maxPayouts, attempts)
    case CallReclaim(p) => TryReclaim(cfg, s, p)
  }

  ghost function Run(cfg: Config, s: State, calls: seq<Call>): State
    decreases |calls|
  {
    if calls == [] then s else Step(cfg, Run(cfg, s, calls[..|calls| - 1]), calls[|calls| - 1])
  }

  function Genesis(chains: Chains): State {
    State(chains, map[], map[], {}, {}, None, map[])
  }
}
