/** Merging the bridge's own event logs with token-contract logs, one event per transaction. */
module EventDiscovery {
  import opened Prelude
  import opened EventKinds

  type TxHash = nat
  type Address = nat

  datatype AppError =
    | ErrorGettingEventLogs | MissingEventSignature | MissingTransactionHash | MissingBlockNumber | ErrorParsingEventLogs

  datatype Log = Log(address: Address, txHash: Option<TxHash>, topics: seq<Signature>, block: Option<nat>, data: string)

  /** What a log says; an ERC-20 transfer also names its token contract. */
  datatype EventData = Erc20Transfer(token: Address, payload: string) | OtherData(payload: string)

  datatype Event = Event(signature: Signature, txHash: TxHash, block: nat, data: EventData)

  /** A parser of a log's data, if it carries any, and its topics. */
  type Parser = (Option<string>, seq<Signature>) -> Result<EventData, AppError>

  /** The parsers, by event signature. */
  type Registry = map<Signature, Parser>

  function ParseLog(registry: Registry, log: Log): Result<Event, AppError> {
    if log.topics == [] then Err(MissingEventSignature)
    else if log.txHash.None? then Err(MissingTransactionHash)
    else if log.block.None? then Err(MissingBlockNumber)
    else if log.topics[0] !in registry then Err(ErrorParsingEventLogs)
    else
      var data := if log.data == "" then None else Some(log.data);
      match registry[log.topics[0]](data, log.topics)
      case Err(e) => Err(e)
      case Ok(parsed) => Ok(Event(log.topics[0], log.txHash.value, log.block.value, WithToken(parsed, log.address)))
  }

  /** A transfer without a token contract is of the contract that logged it. */
  function WithToken(data: EventData, address: Address): EventData {
    if data.Erc20Transfer? && data.token == 0 then data.(token := address) else data
  }

  type Found = map<TxHash, Event>

  /** One event per transaction, the first log's; a log without a transaction is passed over. */
  ghost function Merge(registry: Registry, logs: seq<Log>): Result<Found, AppError> {
    if logs == [] then Ok(map[])
    else
      match Merge(registry, logs[..|logs| - 1])
      case Err(e) => Err(e)
      case Ok(found) => MergeOne(registry, found, logs[|logs| - 1])
  }

  function MergeOne(registry: Registry, found: Found, log: Log): Result<Found, AppError> {
    if log.txHash.None? || log.txHash.value in found then Ok(found)
    else
      match ParseLog(registry, log)
      case Err(e) => Err(e)
      case Ok(event) => Ok(found[log.txHash.value := event])
  }

  function Wanted(found: Found, wanted: seq<Signature>): Found {
    map h | h in found && found[h].signature in wanted :: found[h]
  }

  predicate WantsSecondary(wanted: seq<Signature>) {
    exists sig :: sig in wanted && TryFrom(sig).Some? && !TryFrom(sig).value.IsPrimary()
  }

  /** The logs that are merged: the secondary query is made only when a secondary event is wanted. */
  function LogsToMerge(primary: seq<Log>, secondary: seq<Log>, wanted: seq<Signature>): seq<Log> {
    primary + if WantsSecondary(wanted) then secondary else []
  }

  /** The two queries are what the node would answer. */
  ghost function Identify(registry: Registry, primary: Result<seq<Log>, AppError>, secondary: Result<seq<Log>, AppError>,
                          wanted: seq<Signature>): Result<Found, AppError>
  {
    if primary.Err? then Err(primary.error)
    else if WantsSecondary(wanted) && secondary.Err? then Err(secondary.error)
    else
      var others := if secondary.Ok? then secondary.value else [];
      match Merge(registry, LogsToMerge(primary.value, others, wanted))
      case Err(e) => Err(e)
      case Ok(found) => Ok(Wanted(found, wanted))
  }

  method MergeLogs(registry: Registry, logs: seq<Log>) returns (r: Result<Found, AppError>)
    ensures r == Merge(registry, logs)
  {
    var unique: Found := map[];
    for i := 0 to |logs|
      invariant Merge(registry, logs[..i]) == Ok(unique)
    {
      assert logs[..i + 1][..i] == logs[..i];
      var log := logs[i];
      if log.txHash.Some? && log.txHash.value !in unique {
        var parsed := ParseLog(registry, log);
        if parsed.Err? {
          MergeStops(registry, logs, i + 1, parsed.error);
          return Err(parsed.error);
        }
        unique := unique[log.txHash.value := parsed.value];
      }
    }
    assert logs[..|logs|] == logs;
    return Ok(unique);
  }

  lemma {:induction false} MergeStops(registry: Registry, logs: seq<Log>, k: nat, e: AppError)
    requires k <= |logs| && Merge(registry, logs[..k]) == Err(e)
    ensures Merge(registry, logs) == Err(e)
    decreases |logs|
  {
    if k == |logs| {
      assert logs[..k] == logs;
    } else {
      assert logs[..|logs| - 1][..k] == logs[..k];
      MergeStops(registry, logs[..|logs| - 1], k, e);
    }
  }

  method IdentifyEvents(registry: Registry, primary: Result<seq<Log>, AppError>, secondary: Result<seq<Log>, AppError>,
                        wanted: seq<Signature>) returns (r: Result<Found, AppError>)
    ensures r == Identify(registry, primary, secondary, wanted)
  {
    if primary.Err? {
      return Err(primary.error);
    }
    var extend := false;
    for i := 0 to |wanted|
      invariant extend <==> WantsSecondary(wanted[..i])
    {
      assert wanted[..i + 1] == wanted[..i] + [wanted[i]];
      var kind := TryFrom(wanted[i]);
      if kind.Some? && !kind.value.IsPrimary() {
        extend := true;
      }
    }
    assert wanted[..|wanted|] == wanted;
    var others := [];
    if extend {
      if secondary.Err? {
        return Err(secondary.error);
      }
      others := secondary.value;
    }
    var merged := MergeLogs(registry, primary.value + others);
    if merged.Err? {
      return merged;
    }
    return Ok(Wanted(merged.value, wanted));
  }

  // ---------------------------------------------------------------- the canonical map

  /** The log at `i` is the first one of its transaction. */
  ghost predicate FirstOf(logs: seq<Log>, i: nat, h: TxHash) {
    && i < |logs| && logs[i].txHash == Some(h)
    && forall j :: 0 <= j < i ==> logs[j].txHash != Some(h)
  }

  /** A merge that succeeds holds exactly the transactions of the logs, each as its first log parses. */
  lemma {:induction false} MergeTakesFirst(registry: Registry, logs: seq<Log>, h: TxHash)
    requires Merge(registry, logs).Ok?
    ensures var found := Merge(registry, logs).value;
            && (h in found <==> exists i: nat :: FirstOf(logs, i, h))
            && (forall i: nat :: FirstOf(logs, i, h) ==> h in found && Ok(found[h]) == ParseLog(registry, logs[i]))
    decreases |logs|
  {
    if logs != [] {
      var init, n := logs[..|logs| - 1], |logs| - 1;
      MergeTakesFirst(registry, init, h);
      forall i: nat | FirstOf(logs, i, h) && i < n ensures FirstOf(init, i, h) {
        assert forall j :: 0 <= j < i ==> init[j] == logs[j];
      }
      if i: nat :| FirstOf(init, i, h) {
        assert FirstOf(logs, i, h) by {
          assert forall j :: 0 <= j <= i ==> init[j] == logs[j];
        }
      } else if logs[n].txHash == Some(h) {
        assert FirstOf(logs, n, h) by {
          FirstExists(init, h);
        }
      }
    }
  }

  /** A transaction that occurs at all has a first log. */
  lemma {:induction false} FirstExists(logs: seq<Log>, h: TxHash)
    ensures (exists i: nat :: FirstOf(logs, i, h)) || forall j :: 0 <= j < |logs| ==> logs[j].txHash != Some(h)
    decreases |logs|
  {
    if logs != [] {
      var init, n := logs[..|logs| - 1], |logs| - 1;
      FirstExists(init, h);
      if i: nat :| FirstOf(init, i, h) {
        assert FirstOf(logs, i, h) by {
          assert forall j :: 0 <= j <= i ==> init[j] == logs[j];
        }
      } else if logs[n].txHash == Some(h) {
        assert FirstOf(logs, n, h) by {
          assert forall j :: 0 <= j < n ==> init[j] == logs[j];
        }
      }
    }
  }

  // ---------------------------------------------------------------- skipping the secondary query

  /** The node answers the secondary query with secondary events only. */
  ghost predicate AllSecondary(logs: seq<Log>) {
    forall i :: 0 <= i < |logs| ==>
      logs[i].topics != [] && logs[i].topics[0].Of? && !logs[i].topics[0].kind.IsPrimary()
  }

  /** Later logs only add transactions, and what they add carries their signatures. */
  lemma {:induction false} MergeExtends(registry: Registry, primary: seq<Log>, secondary: seq<Log>)
    requires AllSecondary(secondary) && Merge(registry, primary + secondary).Ok?
    ensures Merge(registry, primary).Ok?
    ensures var all, some := Merge(registry, primary + secondary).value, Merge(registry, primary).value;
            && (forall h :: h in some ==> h in all && all[h] == some[h])
            && (forall h :: h in all && h !in some ==>
                  all[h].signature.Of? && !all[h].signature.kind.IsPrimary())
    decreases |secondary|
  {
    if secondary == [] {
      assert primary + secondary == primary;
    } else {
      var init := secondary[..|secondary| - 1];
      assert (primary + secondary)[..|primary + secondary| - 1] == primary + init;
      MergeExtends(registry, primary, init);
    }
  }

  /**
   Skipping is sound: if the node's answers merge at all, the events identified are
   those of the full merge that are wanted, whether or not the secondary query was made.
   */
  lemma SkippingIsSound(registry: Registry, primary: seq<Log>, secondary: seq<Log>, wanted: seq<Signature>)
    requires AllSecondary(secondary) && Merge(registry, primary + secondary).Ok?
    ensures Identify(registry, Ok(primary), Ok(secondary), wanted)
         == Ok(Wanted(Merge(registry, primary + secondary).value, wanted))
  {
    if !WantsSecondary(wanted) {
      MergeExtends(registry, primary, secondary);
      assert primary + [] == primary;
      var all, some := Merge(registry, primary + secondary).value, Merge(registry, primary).value;
      forall h | h in all && h !in some ensures all[h].signature !in wanted {
        assert TryFrom(all[h].signature).Some?;
      }
      assert Wanted(all, wanted) == Wanted(some, wanted);
    }
  }

  /** A skipped query cannot turn an answer into a failure: what fails without it fails with it, and alike. */
  lemma SkippingFailsLess(registry: Registry, primary: seq<Log>, secondary: seq<Log>, wanted: seq<Signature>)
    requires Identify(registry, Ok(primary), Ok(secondary), wanted).Err?
    ensures Merge(registry, primary + secondary) == Identify(registry, Ok(primary), Ok(secondary), wanted)
  {
    if !WantsSecondary(wanted) {
      assert primary + [] == primary;
      assert (primary + secondary)[..|primary|] == primary;
      MergeStops(registry, primary + secondary, |primary|, Merge(registry, primary).error);
    }
  }

  // ---------------------------------------------------------------- what is identified

  /** The one secondary kind is the plain token transfer. */
  lemma OnlyTransfersAreSecondary(wanted: seq<Signature>)
    ensures WantsSecondary(wanted) <==> Of(Erc20DirectTransfer) in wanted
  {
    if Of(Erc20DirectTransfer) in wanted {
      assert TryFrom(Of(Erc20DirectTransfer)).Some?;
    }
  }

  /** A parsed event is the log's: its first topic, transaction and block, and the data its parser read. */
  lemma ParsedEvent(registry: Registry, log: Log)
    ensures var r := ParseLog(registry, log);
            var data := if log.data == "" then None else Some(log.data);
            && (r.Ok? <==> log.topics != [] && log.txHash.Some? && log.block.Some? && log.topics[0] in registry
                           && registry[log.topics[0]](data, log.topics).Ok?)
            && (r.Ok? ==>
                  && r.value.signature == log.topics[0] && Some(r.value.txHash) == log.txHash
                  && Some(r.value.block) == log.block
                  && match registry[log.topics[0]](data, log.topics).value
                     case Erc20Transfer(token, payload) =>
                       r.value.data == Erc20Transfer(if token == 0 then log.address else token, payload)
                     case OtherData(payload) => r.value.data == OtherData(payload))
  {
  }

  /** Every transaction's first log parses. */
  ghost predicate FirstLogsParse(registry: Registry, logs: seq<Log>) {
    forall i: nat, h :: FirstOf(logs, i, h) ==> ParseLog(registry, logs[i]).Ok?
  }

  lemma FirstInPrefix(logs: seq<Log>, i: nat, h: TxHash)
    requires logs != []
    ensures var init := logs[..|logs| - 1];
            FirstOf(init, i, h) <==> FirstOf(logs, i, h) && i < |init|
  {
    var init := logs[..|logs| - 1];
    assert forall j :: 0 <= j < |init| ==> init[j] == logs[j];
  }

  /** A merge succeeds exactly when every transaction's first log parses; the others are never looked at. */
  lemma {:induction false} MergesIffFirstLogsParse(registry: Registry, logs: seq<Log>)
    ensures Merge(registry, logs).Ok? <==> FirstLogsParse(registry, logs)
    decreases |logs|
  {
    if logs != [] {
      var init, last := logs[..|logs| - 1], |logs| - 1;
      MergesIffFirstLogsParse(registry, init);
      forall i: nat, h ensures FirstOf(init, i, h) <==> FirstOf(logs, i, h) && i < last {
        FirstInPrefix(logs, i, h);
      }
      if Merge(registry, init).Err? {
        var i: nat, h :| FirstOf(init, i, h) && ParseLog(registry, init[i]).Err?;
        assert FirstOf(logs, i, h) && logs[i] == init[i];
      } else if logs[last].txHash.Some? {
        var h := logs[last].txHash.value;
        MergeTakesFirst(registry, init, h);
        FirstExists(init, h);
        assert FirstOf(logs, last, h) <==> h !in Merge(registry, init).value;
      }
    }
  }

  /** The transaction's first log is of a wanted event. */
  ghost predicate FirstIsWanted(registry: Registry, logs: seq<Log>, wanted: seq<Signature>, h: TxHash) {
    exists i: nat :: FirstOf(logs, i, h) && ParseLog(registry, logs[i]).Ok?
                     && ParseLog(registry, logs[i]).value.signature in wanted
  }

  lemma WantedOfMerge(registry: Registry, logs: seq<Log>, wanted: seq<Signature>, h: TxHash)
    requires Merge(registry, logs).Ok?
    ensures var found := Wanted(Merge(registry, logs).value, wanted);
            && (h in found <==> FirstIsWanted(registry, logs, wanted, h))
            && (forall i: nat :: h in found && FirstOf(logs, i, h) ==> Ok(found[h]) == ParseLog(registry, logs[i]))
  {
    MergeTakesFirst(registry, logs, h);
    var all := Merge(registry, logs).value;
    if h in all && all[h].signature in wanted {
      var i: nat :| FirstOf(logs, i, h);
      assert Ok(all[h]) == ParseLog(registry, logs[i]);
    }
  }

  /**
   Exactly what is identified: if every transaction's first log parses, over the bridge's
   logs and then the token contracts', a transaction is found if and only if its first log
   is of a wanted event, and as that log parses; whether or not the second query was made.
   */
  lemma IdentifiesFirstLogs(registry: Registry, primary: seq<Log>, secondary: seq<Log>, wanted: seq<Signature>, h: TxHash)
    requires AllSecondary(secondary) && FirstLogsParse(registry, primary + secondary)
    ensures var logs, r := primary + secondary, Identify(registry, Ok(primary), Ok(secondary), wanted);
            && r.Ok? && (h in r.value <==> FirstIsWanted(registry, logs, wanted, h))
            && (forall i: nat :: h in r.value && FirstOf(logs, i, h) ==> Ok(r.value[h]) == ParseLog(registry, logs[i]))
  {
    MergesIffFirstLogsParse(registry, primary + secondary);
    SkippingIsSound(registry, primary, secondary, wanted);
    WantedOfMerge(registry, primary + secondary, wanted, h);
  }

  /**
   Whatever the node answers: a failed bridge query fails the call; a failed token query
   does exactly when transfers are wanted; and otherwise the call succeeds exactly when the
   first logs of what was queried parse.
   */
  lemma IdentifyOutcome(registry: Registry, primary: Result<seq<Log>, AppError>, secondary: Result<seq<Log>, AppError>,
                        wanted: seq<Signature>, h: TxHash)
    ensures var r := Identify(registry, primary, secondary, wanted);
            var transfers := Of(Erc20DirectTransfer) in wanted;
            if primary.Err? then r == Err(primary.error)
            else if transfers && secondary.Err? then r == Err(secondary.error)
            else
              var logs := if transfers then primary.value + secondary.value else primary.value;
              && (r.Ok? <==> FirstLogsParse(registry, logs))
              && (r.Ok? ==>
                    && (h in r.value <==> FirstIsWanted(registry, logs, wanted, h))
                    && forall i: nat :: h in r.value && FirstOf(logs, i, h) ==>
                         Ok(r.value[h]) == ParseLog(registry, logs[i]))
  {
    OnlyTransfersAreSecondary(wanted);
    if primary.Ok? && !(WantsSecondary(wanted) && secondary.Err?) {
      var logs := if WantsSecondary(wanted) then primary.value + secondary.value else primary.value;
      assert LogsToMerge(primary.value, if secondary.Ok? then secondary.value else [], wanted) == logs;
      MergesIffFirstLogsParse(registry, logs);
      if Merge(registry, logs).Ok? {
        WantedOfMerge(registry, logs, wanted, h);
      }
    }
  }
}
