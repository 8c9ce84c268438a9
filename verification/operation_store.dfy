/**
 The durable record of signed operations: one file of idempotency keys per
 space, bounded by pruning (internal/operation/store.go, status.go).

 The file is the state. A write either takes effect or does not, and the
 caller may be told of a failure in both cases, because an atomic write can
 still fail after its rename.
 */
module OperationStore {
  import opened Wrappers

  // ---------------------------------------------------------------- statuses

  datatype Status =
    | Building
    | Broadcasting
    | Pending
    | Confirmed
    | Failed
    | BroadcastUnknown
    | Unrecognised(text: string)

  /** A transaction with this status may exist on chain. */
  predicate InFlight(status: Status) {
    match status
    case Broadcasting | BroadcastUnknown | Pending | Confirmed => true
    case _ => false
  }

  /** The record has reached a final state. */
  predicate Resolved(status: Status) {
    status == Confirmed || status == Failed
  }

  // -------------------------------------------------------------------- keys

  /** The characters strings.TrimSpace removes. */
  predicate IsSpace(c: char) {
    || '\t' <= c <= '\r' || c == ' ' || c == '\U{85}' || c == '\U{A0}' || c == '\U{1680}'
    || '\U{2000}' <= c <= '\U{200A}' || c == '\U{2028}' || c == '\U{2029}' || c == '\U{202F}'
    || c == '\U{205F}' || c == '\U{3000}'
  }

  function NormalizeKey(key: string): string {
    if key == "" then ""
    else if IsSpace(key[0]) then NormalizeKey(key[1..])
    else if IsSpace(key[|key| - 1]) then NormalizeKey(key[..|key| - 1])
    else key
  }

  /** How many bytes the key takes in UTF-8, which is what its limit counts. */
  function Utf8Length(key: string): nat {
    if key == "" then 0
    else
      var c := key[0];
      (if c < '\U{80}' then 1 else if c < '\U{800}' then 2 else if c < '\U{10000}' then 3 else 4)
      + Utf8Length(key[1..])
  }

  predicate AcceptableKey(key: string) {
    key != "" && Utf8Length(key) <= 128
  }

  predicate Blank(text: string) {
    forall i :: 0 <= i < |text| ==> IsSpace(text[i])
  }

  predicate Trimmed(text: string) {
    text != "" ==> !IsSpace(text[0]) && !IsSpace(text[|text| - 1])
  }

  /** The key with something blank on either side. */
  predicate Padded(key: string, left: string, core: string, right: string) {
    key == left + core + right && Blank(left) && Blank(right)
  }

  lemma PaddedMore(key: string, left: string, core: string, right: string, c: char)
    requires Padded(key, left, core, right) && IsSpace(c)
    ensures Padded([c] + key, [c] + left, core, right) && Padded(key + [c], left, core, right + [c])
  {
    assert [c] + key == [c] + left + core + right;
    assert key + [c] == left + core + (right + [c]);
  }

  /** What trimming takes off is blank, and nothing blank is left at either end. */
  lemma {:induction false} NormalizeKeyTrims(key: string) returns (left: string, right: string)
    ensures Padded(key, left, NormalizeKey(key), right) && Trimmed(NormalizeKey(key))
    decreases |key|
  {
    left, right := "", "";
    var n := |key|;
    if key == "" {
    } else if IsSpace(key[0]) {
      left, right := NormalizeKeyTrims(key[1..]);
      PaddedMore(key[1..], left, NormalizeKey(key), right, key[0]);
      assert key == [key[0]] + key[1..];
      left := [key[0]] + left;
    } else if IsSpace(key[n - 1]) {
      left, right := NormalizeKeyTrims(key[..n - 1]);
      PaddedMore(key[..n - 1], left, NormalizeKey(key), right, key[n - 1]);
      assert key == key[..n - 1] + [key[n - 1]];
      right := right + [key[n - 1]];
    } else {
      assert key == "" + key + "";
    }
  }

  /** Every entry point agrees on the stored spelling of a key. */
  lemma {:induction false} NormalizeKeyIsStable(key: string)
    ensures NormalizeKey(NormalizeKey(key)) == NormalizeKey(key)
    ensures NormalizeKey(key) == "" <==> Blank(key)
    decreases |key|
  {
    if key == "" {
    } else if IsSpace(key[0]) {
      NormalizeKeyIsStable(key[1..]);
    } else if IsSpace(key[|key| - 1]) {
      NormalizeKeyIsStable(key[..|key| - 1]);
    }
  }

  // ----------------------------------------------------------------- records

  datatype Operation = Operation(
    key: string,
    requestHash: string,
    networkID: string,
    txHash: string,
    status: Status,
    createdAt: int,
    updatedAt: int,
    lastValidBlockHeight: nat)

  type Records = map<string, Operation>

  const MAX_OPERATIONS: nat := 512
  /** Thirty days in nanoseconds. */
  const RETENTION: int := 30 * 24 * 3_600_000_000_000

  predicate Droppable(item: Operation, now: int) {
    Resolved(item.status) || now - item.updatedAt >= RETENTION
  }

  function Live(operations: Records, now: int): set<string> {
    set k | k in operations && !Droppable(operations[k], now)
  }

  predicate CanMakeRoom(operations: Records, now: int) {
    |operations| < MAX_OPERATIONS || |Live(operations, now)| < MAX_OPERATIONS
  }

  /** Every record sits under its own, normalized key. */
  predicate Keyed(operations: Records) {
    forall k :: k in operations ==> operations[k].key == k && NormalizeKey(k) == k
  }

  predicate WellFormed(operations: Records) {
    Keyed(operations) && |operations| <= MAX_OPERATIONS
  }

  /**
   `kept` is a legitimate outcome of pruning: only droppable records left,
   none of them newer than a droppable record that stayed, and no more of them
   than it takes to get below the limit.
   */
  predicate Pruned(operations: Records, now: int, kept: Records) {
    && kept.Keys <= operations.Keys
    && (forall k :: k in kept ==> kept[k] == operations[k])
    && (forall k :: k in operations && k !in kept ==> Droppable(operations[k], now))
    && (forall d, k :: d in operations && d !in kept && k in kept && Droppable(kept[k], now)
                       ==> operations[d].updatedAt <= kept[k].updatedAt)
    && (if |operations| < MAX_OPERATIONS then kept == operations else |kept| == MAX_OPERATIONS - 1)
  }

  /** A record that is neither confirmed nor failed and not thirty days old. */
  predicate MustStay(item: Operation, now: int) {
    item.status != Confirmed && item.status != Failed && now < item.updatedAt + RETENTION
  }

  /** Such a record survives pruning, and only others are ever dropped. */
  lemma PruneSparesLive(operations: Records, now: int, kept: Records, k: string)
    requires Pruned(operations, now, kept) && k in operations
    ensures MustStay(operations[k], now) ==> k in kept && kept[k] == operations[k]
    ensures MustStay(operations[k], now) <==> k in Live(operations, now)
  {
  }

  /** Whatever else makes room by dropping records drops at least as many. */
  lemma PruneDropsFewest(operations: Records, now: int, kept: Records, other: Records)
    requires Pruned(operations, now, kept)
    requires other.Keys <= operations.Keys && |other| < MAX_OPERATIONS
    ensures |other| <= |kept|
  {
    if |operations| < MAX_OPERATIONS {
      SubsetSize(other.Keys, operations.Keys);
    }
  }

  /** Pruning succeeds exactly when fewer than the limit are live. */
  lemma PruneIsPossibleIff(operations: Records, now: int)
    ensures CanMakeRoom(operations, now) ==> exists kept :: Pruned(operations, now, kept)
    ensures !CanMakeRoom(operations, now) ==> forall kept :: !Pruned(operations, now, kept)
  {
    if !CanMakeRoom(operations, now) {
      forall kept | Pruned(operations, now, kept) ensures false {
        assert Live(operations, now) <= kept.Keys;
        SubsetSize(Live(operations, now), kept.Keys);
      }
    } else {
      var kept := DropOldest(operations, now, operations);
    }
  }

  /** Dropping a single oldest droppable record at a time reaches the limit. */
  lemma DropOldest(operations: Records, now: int, from: Records) returns (kept: Records)
    requires CanMakeRoom(operations, now)
    requires from.Keys <= operations.Keys && (forall k :: k in from ==> from[k] == operations[k])
    requires forall k :: k in operations && k !in from ==> Droppable(operations[k], now)
    requires forall d, k :: d in operations && d !in from && k in from && Droppable(from[k], now)
                            ==> operations[d].updatedAt <= from[k].updatedAt
    requires |operations| < MAX_OPERATIONS ==> from == operations
    requires |operations| >= MAX_OPERATIONS ==> |from| >= MAX_OPERATIONS - 1
    ensures Pruned(operations, now, kept)
    decreases |from|
  {
    if |from| < MAX_OPERATIONS {
      kept := from;
    } else {
      var candidates := set k | k in from && Droppable(from[k], now);
      if candidates == {} {
        forall k | k in from ensures k in Live(operations, now) {
          assert k !in candidates;
        }
        SubsetSize(from.Keys, Live(operations, now));
        assert false;
      }
      var oldest := Oldest(from, candidates);
      kept := DropOldest(operations, now, from - {oldest});
    }
  }

  lemma Oldest(from: Records, candidates: set<string>) returns (oldest: string)
    requires candidates <= from.Keys && candidates != {}
    ensures oldest in candidates
    ensures forall k :: k in candidates ==> from[oldest].updatedAt <= from[k].updatedAt
    decreases candidates
  {
    var first :| first in candidates;
    oldest := first;
    if candidates != {first} {
      var other := Oldest(from, candidates - {first});
      if from[other].updatedAt < from[first].updatedAt { oldest := other; }
    }
  }

  // ------------------------------------------------------------------ writes

  datatype Write = Written | Lost | WrittenThenFailed

  function Landed(write: Write, before: Records, after: Records): Records {
    if write == Lost then before else after
  }

  datatype BeginError = InvalidKey | Conflict | TooManyInProgress | WriteFailed

  datatype BeginResult =
    | Created(operation: Operation)
    | Repeated(operation: Operation)
    | Refused(error: BeginError)

  function NewOperation(key: string, requestHash: string, networkID: string, now: int): Operation {
    Operation(key, requestHash, networkID, "", Building, now, now, 0)
  }

  /** Reserving a key, given what pruning would leave. */
  function BeginOutcome(
    operations: Records, rawKey: string, requestHash: string, networkID: string, now: int,
    kept: Records, write: Write): (BeginResult, Records)
  {
    var key := NormalizeKey(rawKey);
    if !AcceptableKey(key) then (Refused(InvalidKey), operations)
    else if key in operations then
      if operations[key].requestHash != requestHash then (Refused(Conflict), operations)
      else (Repeated(operations[key]), operations)
    else if !CanMakeRoom(operations, now) then (Refused(TooManyInProgress), operations)
    else
      var created := NewOperation(key, requestHash, networkID, now);
      (if write == Written then Created(created) else Refused(WriteFailed),
       Landed(write, operations, kept[key := created]))
  }

  datatype UpdateError = NotFound | NeedsIdAndHeight | UpdateWriteFailed

  /** The record after an update: a known id or height is never erased. */
  function Updated(item: Operation, txHash: string, status: Status, lastValid: nat, now: int): Operation {
    item.(txHash := if txHash != "" then txHash else item.txHash,
          lastValidBlockHeight := if lastValid != 0 then lastValid else item.lastValidBlockHeight,
          status := status,
          updatedAt := now)
  }

  function UpdateOutcome(
    operations: Records, rawKey: string, txHash: string, status: Status, lastValid: nat, now: int,
    write: Write): (Result<Operation, UpdateError>, Records)
  {
    var key := NormalizeKey(rawKey);
    if key !in operations then (Err(NotFound), operations)
    else
      var item := Updated(operations[key], txHash, status, lastValid, now);
      (if write == Written then Ok(item) else Err(UpdateWriteFailed),
       Landed(write, operations, operations[key := item]))
  }

  function UpdateExpiringOutcome(
    operations: Records, rawKey: string, txHash: string, status: Status, lastValid: nat, now: int,
    write: Write): (Result<Operation, UpdateError>, Records)
  {
    if txHash == "" || lastValid == 0 then (Err(NeedsIdAndHeight), operations)
    else UpdateOutcome(operations, rawKey, txHash, status, lastValid, now, write)
  }

  /** Which record a lookup by transaction id may answer with. */
  predicate Names(operations: Records, txHash: string, key: string) {
    txHash != "" && key in operations && operations[key].txHash == txHash
  }

  predicate NamesNone(operations: Records, txHash: string) {
    txHash == "" || forall k :: k in operations ==> operations[k].txHash != txHash
  }

  function UpdateByTxHashOutcome(
    operations: Records, txHash: string, status: Status, now: int, found: Option<string>,
    write: Write): (Result<bool, UpdateError>, Records)
    requires found.Some? ==> Names(operations, txHash, found.value)
  {
    if found.None? then (Ok(false), operations)
    else
      var item := operations[found.value];
      if item.status == status then (Ok(true), operations)
      else
        (if write == Written then Ok(true) else Err(UpdateWriteFailed),
         Landed(write, operations, operations[found.value := item.(status := status, updatedAt := now)]))
  }

  // ------------------------------------------------ what reserving and writing do

  /** A record just reserved: nothing is signed, nothing sent. */
  predicate JustReserved(item: Operation, key: string, requestHash: string, networkID: string, now: int) {
    && item.key == key && item.requestHash == requestHash && item.networkID == networkID
    && item.createdAt == now && item.updatedAt == now
    && item.txHash == "" && item.lastValidBlockHeight == 0 && item.status == Building
  }

  /** All records but one are the same. */
  ghost predicate SameButFor(before: Records, after: Records, key: string) {
    forall k :: k != key ==> (k in after <==> k in before) && (k in before ==> after[k] == before[k])
  }

  /** Reserving a new key writes a fresh record under it, or leaves the file as it is. */
  lemma ReservingANewKey(operations: Records, rawKey: string, requestHash: string, networkID: string, now: int,
    kept: Records, write: Write)
    requires AcceptableKey(NormalizeKey(rawKey)) && NormalizeKey(rawKey) !in operations
    ensures var key := NormalizeKey(rawKey);
            var (result, after) := BeginOutcome(operations, rawKey, requestHash, networkID, now, kept, write);
            if !CanMakeRoom(operations, now) then result == Refused(TooManyInProgress) && after == operations
            else
              && (write == Lost ==> after == operations)
              && (write != Lost ==>
                    SameButFor(kept, after, key) && key in after
                    && JustReserved(after[key], key, requestHash, networkID, now))
              && result == if write == Written then Created(after[key]) else Refused(WriteFailed)
  {
  }

  /**
   Two reservations of one key, however it is spelled: the first may have failed after
   its rename. The second never signs again: it gets the first one's record if it asks
   for the same, and a conflict if not, whatever the file can hold.
   */
  lemma RepeatGetsItsRecord(operations: Records, rawKey: string, requestHash: string, networkID: string, now: int,
    kept: Records, write: Write, again: string, hash: string, network: string, later: int, keptLater: Records,
    writeLater: Write)
    requires NormalizeKey(again) == NormalizeKey(rawKey)
    ensures var key := NormalizeKey(rawKey);
            var (first, between) := BeginOutcome(operations, rawKey, requestHash, networkID, now, kept, write);
            var (second, after) := BeginOutcome(between, again, hash, network, later, keptLater, writeLater);
            && (first.Created? ==> key in between && first.operation == between[key])
            && (first.Repeated? ==> key in between && first.operation == between[key] && between == operations)
            && (AcceptableKey(key) && key in between ==>
                  after == between
                  && second == if between[key].requestHash == hash then Repeated(between[key]) else Refused(Conflict))
            && (key !in operations && key in between ==> between[key].requestHash == requestHash)
            && (first == Refused(Conflict) ==> key in operations && operations[key].requestHash != requestHash)
            && (!AcceptableKey(key) ==>
                  first == Refused(InvalidKey) && second == Refused(InvalidKey) && after == operations)
  {
  }

  /** An update never changes what was asked for, nor takes back an id or a height. */
  predicate Follows(before: Operation, after: Operation, txHash: string, status: Status, lastValid: nat, now: int) {
    && after.key == before.key && after.requestHash == before.requestHash && after.networkID == before.networkID
    && after.createdAt == before.createdAt
    && after.status == status && after.updatedAt == now
    && (txHash != "" ==> after.txHash == txHash) && (txHash == "" ==> after.txHash == before.txHash)
    && (lastValid > 0 ==> after.lastValidBlockHeight == lastValid)
    && (lastValid == 0 ==> after.lastValidBlockHeight == before.lastValidBlockHeight)
  }

  /** An update that is written follows the record it names and leaves the others. */
  lemma UpdatingFollows(operations: Records, rawKey: string, txHash: string, status: Status, lastValid: nat, now: int,
    write: Write)
    ensures var key := NormalizeKey(rawKey);
            var (result, after) := UpdateOutcome(operations, rawKey, txHash, status, lastValid, now, write);
            if key !in operations then result == Err(NotFound) && after == operations
            else
              && SameButFor(operations, after, key) && key in after
              && (write == Lost ==> after == operations)
              && (write != Lost ==> Follows(operations[key], after[key], txHash, status, lastValid, now))
              && result == if write == Written then Ok(after[key]) else Err(UpdateWriteFailed)
  {
  }

  /** The status of the record found follows; one that has it already is not written. */
  lemma StatusFollowsTheTransaction(operations: Records, txHash: string, status: Status, now: int,
    found: Option<string>, write: Write)
    requires if found.Some? then Names(operations, txHash, found.value) else NamesNone(operations, txHash)
    ensures var (result, after) := UpdateByTxHashOutcome(operations, txHash, status, now, found, write);
            && (found.None? ==> result == Ok(false) && after == operations)
            && (found.Some? ==>
                  && SameButFor(operations, after, found.value) && found.value in after
                  && (result == Ok(true) ==> after[found.value].status == status)
                  && (result != Ok(true) ==> result == Err(UpdateWriteFailed) && write != Written)
                  && if operations[found.value].status == status || write == Lost then after == operations
                     else Follows(operations[found.value], after[found.value], "", status, 0, now))
  {
  }

  // ------------------------------------------------------------------- store

  /** The bounded file of one space. */
  class Store {
    var operations: Records

    ghost predicate Valid()
      reads this
    {
      WellFormed(operations)
    }

    constructor ()
      ensures Valid() && operations == map[]
    {
      operations := map[];
    }

    /** Reserves an idempotency key, or answers with the record that holds it. */
    method Begin(rawKey: string, requestHash: string, networkID: string, now: int, write: Write)
      returns (result: BeginResult, ghost kept: Records)
      requires Valid()
      modifies this
      ensures Valid()
      ensures CanMakeRoom(old(operations), now) ==> Pruned(old(operations), now, kept)
      ensures (result, operations) == BeginOutcome(old(operations), rawKey, requestHash, networkID, now, kept, write)
    {
      var key := NormalizeKey(rawKey);
      NormalizeKeyIsStable(rawKey);
      kept := if CanMakeRoom(operations, now) then PruneWitness(operations, now) else operations;
      if !AcceptableKey(key) { return Refused(InvalidKey), kept; }
      if key in operations {
        var previous := operations[key];
        if previous.requestHash != requestHash { return Refused(Conflict), kept; }
        return Repeated(previous), kept;
      }
      var current, ok := Prune(operations, now);
      if !ok { return Refused(TooManyInProgress), kept; }
      kept := current;
      var created := NewOperation(key, requestHash, networkID, now);
      ReservationKeepsWellFormed(operations, now, current, created);
      if write != Lost { operations := current[key := created]; }
      result := if write == Written then Created(created) else Refused(WriteFailed);
    }

    method Update(rawKey: string, txHash: string, status: Status, now: int, write: Write)
      returns (result: Result<Operation, UpdateError>)
      requires Valid()
      modifies this
      ensures Valid()
      ensures (result, operations) == UpdateOutcome(old(operations), rawKey, txHash, status, 0, now, write)
    {
      result := Apply(rawKey, txHash, status, 0, now, write);
    }

    method UpdateExpiring(
      rawKey: string, txHash: string, status: Status, lastValid: nat, now: int, write: Write)
      returns (result: Result<Operation, UpdateError>)
      requires Valid()
      modifies this
      ensures Valid()
      ensures (result, operations)
              == UpdateExpiringOutcome(old(operations), rawKey, txHash, status, lastValid, now, write)
    {
      if txHash == "" || lastValid == 0 { return Err(NeedsIdAndHeight); }
      result := Apply(rawKey, txHash, status, lastValid, now, write);
    }

    method Apply(rawKey: string, txHash: string, status: Status, lastValid: nat, now: int, write: Write)
      returns (result: Result<Operation, UpdateError>)
      requires Valid()
      modifies this
      ensures Valid()
      ensures (result, operations) == UpdateOutcome(old(operations), rawKey, txHash, status, lastValid, now, write)
    {
      var key := NormalizeKey(rawKey);
      if key !in operations { return Err(NotFound); }
      var item := operations[key];
      if txHash != "" { item := item.(txHash := txHash); }
      if lastValid != 0 { item := item.(lastValidBlockHeight := lastValid); }
      item := item.(status := status, updatedAt := now);
      if write != Lost {
        ReplaceKeepsSize(operations, key, item);
        operations := operations[key := item];
      }
      result := if write == Written then Ok(item) else Err(UpdateWriteFailed);
    }

    /** Writes the status of the first record found to name the transaction. */
    method UpdateByTxHash(txHash: string, status: Status, now: int, write: Write)
      returns (result: Result<bool, UpdateError>, ghost found: Option<string>)
      requires Valid()
      modifies this
      ensures Valid()
      ensures if found.Some? then Names(old(operations), txHash, found.value) else NamesNone(old(operations), txHash)
      ensures (result, operations) == UpdateByTxHashOutcome(old(operations), txHash, status, now, found, write)
    {
      found := None;
      if txHash == "" { return Ok(false), None; }
      var pending := operations.Keys;
      while pending != {}
        invariant pending <= operations.Keys && operations == old(operations)
        invariant forall k :: k in operations && k !in pending ==> operations[k].txHash != txHash
        decreases pending
      {
        var key :| key in pending;
        var item := operations[key];
        if item.txHash == txHash {
          found := Some(key);
          if item.status == status { return Ok(true), found; }
          item := item.(status := status, updatedAt := now);
          if write != Lost {
            ReplaceKeepsSize(operations, key, item);
            operations := operations[key := item];
          }
          return if write == Written then Ok(true) else Err(UpdateWriteFailed), found;
        }
        pending := pending - {key};
      }
      result := Ok(false);
    }

    /** The operation that recorded a transaction. */
    method FindByTxHash(txHash: string) returns (found: Option<Operation>)
      requires Valid()
      ensures match found
              case Some(item) => Names(operations, txHash, item.key) && operations[item.key] == item
              case None => NamesNone(operations, txHash)
    {
      if txHash == "" { return None; }
      var pending := operations.Keys;
      while pending != {}
        invariant pending <= operations.Keys
        invariant forall k :: k in operations && k !in pending ==> operations[k].txHash != txHash
        decreases pending
      {
        var key :| key in pending;
        if operations[key].txHash == txHash { return Some(operations[key]); }
        pending := pending - {key};
      }
      found := None;
    }
  }

  lemma ReservationKeepsWellFormed(operations: Records, now: int, kept: Records, created: Operation)
    requires WellFormed(operations) && Pruned(operations, now, kept)
    requires NormalizeKey(created.key) == created.key
    ensures WellFormed(kept[created.key := created])
  {
    PrunedHasRoom(operations, now, kept);
    OneMoreRecord(kept, created.key, created);
  }

  lemma PrunedHasRoom(operations: Records, now: int, kept: Records)
    requires Pruned(operations, now, kept)
    ensures |kept| < MAX_OPERATIONS
  {
  }

  lemma OneMoreRecord(records: Records, key: string, item: Operation)
    ensures |records[key := item]| <= |records| + 1
  {
    assert records[key := item].Keys == records.Keys + {key};
  }

  lemma ReplaceKeepsSize(operations: Records, key: string, item: Operation)
    requires key in operations
    ensures |operations[key := item]| == |operations|
  {
    assert operations[key := item].Keys == operations.Keys;
  }

  ghost function PruneWitness(operations: Records, now: int): (kept: Records)
    requires CanMakeRoom(operations, now)
    ensures Pruned(operations, now, kept)
  {
    PruneIsPossibleIff(operations, now);
    var kept :| Pruned(operations, now, kept);
    kept
  }

  // ----------------------------------------------------------------- pruning

  predicate SortedByAge(items: seq<Operation>) {
    forall i, j :: 0 <= i < j < |items| ==> items[i].updatedAt <= items[j].updatedAt
  }

  function Inserted(sorted: seq<Operation>, at: nat, item: Operation): seq<Operation>
    requires at <= |sorted|
  {
    sorted[..at] + [item] + sorted[at..]
  }

  lemma InsertedKeepsItems(sorted: seq<Operation>, at: nat, item: Operation)
    requires at <= |sorted|
    ensures multiset(Inserted(sorted, at, item)) == multiset(sorted) + multiset{item}
  {
    assert sorted == sorted[..at] + sorted[at..];
  }

  lemma InsertedStaysSorted(sorted: seq<Operation>, at: nat, item: Operation)
    requires at <= |sorted| && SortedByAge(sorted)
    requires at == 0 || sorted[at - 1].updatedAt <= item.updatedAt
    requires at == |sorted| || item.updatedAt <= sorted[at].updatedAt
    ensures SortedByAge(Inserted(sorted, at, item))
  {
  }

  method PlaceFor(sorted: seq<Operation>, item: Operation) returns (at: nat)
    requires SortedByAge(sorted)
    ensures at <= |sorted|
    ensures at == 0 || sorted[at - 1].updatedAt <= item.updatedAt
    ensures at == |sorted| || item.updatedAt <= sorted[at].updatedAt
  {
    at := |sorted|;
    while at > 0 && sorted[at - 1].updatedAt > item.updatedAt
      invariant at <= |sorted|
      invariant at == |sorted| || sorted[at].updatedAt > item.updatedAt
    {
      at := at - 1;
    }
  }

  method InsertByAge(sorted: seq<Operation>, item: Operation) returns (longer: seq<Operation>)
    requires SortedByAge(sorted)
    ensures SortedByAge(longer)
    ensures multiset(longer) == multiset(sorted) + multiset{item}
  {
    var at := PlaceFor(sorted, item);
    InsertedStaysSorted(sorted, at, item);
    InsertedKeepsItems(sorted, at, item);
    longer := Inserted(sorted, at, item);
  }

  lemma PrefixItems(items: seq<Operation>, n: nat)
    requires n < |items|
    ensures multiset(items[..n + 1]) == multiset(items[..n]) + multiset{items[n]}
  {
    assert items[..n + 1] == items[..n] + [items[n]];
  }

  method SortByAge(items: seq<Operation>) returns (sorted: seq<Operation>)
    ensures SortedByAge(sorted)
    ensures multiset(sorted) == multiset(items)
  {
    sorted := [];
    for n := 0 to |items|
      invariant SortedByAge(sorted)
      invariant multiset(sorted) == multiset(items[..n])
    {
      PrefixItems(items, n);
      sorted := InsertByAge(sorted, items[n]);
    }
    assert items[..|items|] == items;
  }

  method CollectDroppable(operations: Records, now: int) returns (droppable: seq<Operation>)
    ensures forall x :: x in droppable <==>
              exists k :: k in operations && Droppable(operations[k], now) && operations[k] == x
  {
    droppable := [];
    var pending := operations.Keys;
    while pending != {}
      invariant pending <= operations.Keys
      invariant forall x :: x in droppable <==>
        exists k :: k in operations && k !in pending && Droppable(operations[k], now) && operations[k] == x
      decreases pending
    {
      var key :| key in pending;
      if Droppable(operations[key], now) { droppable := droppable + [operations[key]]; }
      pending := pending - {key};
    }
  }

  /** What deleting the first n of a listing leaves. */
  predicate FirstDeleted(operations: Records, listing: seq<Operation>, n: nat, kept: Records)
    requires n <= |listing|
  {
    && kept.Keys <= operations.Keys
    && (forall k :: k in kept ==> kept[k] == operations[k])
    && (forall k :: k in operations ==> (k !in kept <==> exists i :: 0 <= i < n && listing[i].key == k))
  }

  /** The listing holds exactly the droppable records, oldest first. */
  ghost predicate ListsDroppable(operations: Records, now: int, listing: seq<Operation>) {
    && SortedByAge(listing)
    && (forall x :: x in listing ==> x.key in operations && operations[x.key] == x && Droppable(x, now))
    && (forall k :: k in operations && Droppable(operations[k], now) ==> operations[k] in listing)
  }

  lemma DeleteOneMore(operations: Records, listing: seq<Operation>, n: nat, kept: Records)
    requires n < |listing| && FirstDeleted(operations, listing, n, kept)
    ensures FirstDeleted(operations, listing, n + 1, kept - {listing[n].key})
  {
    RemoveOne(kept, listing[n].key);
  }

  method DeleteOldest(operations: Records, listing: seq<Operation>) returns (kept: Records, n: nat)
    requires |operations| >= MAX_OPERATIONS
    ensures n <= |listing| && FirstDeleted(operations, listing, n, kept)
    ensures |kept| >= MAX_OPERATIONS - 1
    ensures |kept| < MAX_OPERATIONS || n == |listing|
  {
    kept, n := operations, 0;
    while n < |listing| && |kept| >= MAX_OPERATIONS
      invariant n <= |listing| && FirstDeleted(operations, listing, n, kept)
      invariant |kept| >= MAX_OPERATIONS - 1
    {
      var key := listing[n].key;
      RemoveOne(kept, key);
      DeleteOneMore(operations, listing, n, kept);
      kept := kept - {key};
      n := n + 1;
    }
  }

  lemma DeletedOldestIsPruned(operations: Records, now: int, listing: seq<Operation>, n: nat, kept: Records)
    requires Keyed(operations) && ListsDroppable(operations, now, listing)
    requires n <= |listing| && FirstDeleted(operations, listing, n, kept)
    requires |operations| >= MAX_OPERATIONS && |kept| == MAX_OPERATIONS - 1
    ensures Pruned(operations, now, kept)
  {
    forall k | k in operations && k !in kept ensures Droppable(operations[k], now) {
      var i :| 0 <= i < n && listing[i].key == k;
      assert listing[i] in listing;
    }
    forall d, k | d in operations && d !in kept && k in kept && Droppable(kept[k], now)
      ensures operations[d].updatedAt <= kept[k].updatedAt
    {
      var i :| 0 <= i < n && listing[i].key == d;
      assert listing[i] in listing;
      var j :| 0 <= j < |listing| && listing[j] == operations[k];
      assert listing[j].key == k;
    }
  }

  lemma AllDeletedLeavesLive(operations: Records, now: int, listing: seq<Operation>, kept: Records)
    requires Keyed(operations) && ListsDroppable(operations, now, listing)
    requires FirstDeleted(operations, listing, |listing|, kept)
    ensures kept.Keys == Live(operations, now)
  {
    forall i | 0 <= i < |listing| ensures Droppable(operations[listing[i].key], now) {
      assert listing[i] in listing;
    }
    forall k | k in operations ensures k in kept <==> k in Live(operations, now) {
      if Droppable(operations[k], now) {
        var j :| 0 <= j < |listing| && listing[j] == operations[k];
        assert listing[j].key == k;
      }
    }
  }

  lemma SameItems(a: seq<Operation>, b: seq<Operation>)
    requires multiset(a) == multiset(b)
    ensures forall x :: x in a <==> x in b
  {
    assert forall x :: x in a <==> x in multiset(a);
    assert forall x :: x in b <==> x in multiset(b);
  }

  /** Drops the oldest droppable records, and only as far as it has to. */
  method Prune(operations: Records, now: int) returns (kept: Records, ok: bool)
    requires Keyed(operations)
    ensures ok == CanMakeRoom(operations, now)
    ensures ok ==> Pruned(operations, now, kept)
  {
    if |operations| < MAX_OPERATIONS { return operations, true; }
    var collected := CollectDroppable(operations, now);
    var droppable := SortByAge(collected);
    SameItems(collected, droppable);
    var n;
    kept, n := DeleteOldest(operations, droppable);
    ok := |kept| < MAX_OPERATIONS;
    if ok {
      DeletedOldestIsPruned(operations, now, droppable, n, kept);
      PruneIsPossibleIff(operations, now);
    } else {
      AllDeletedLeavesLive(operations, now, droppable, kept);
    }
  }

  lemma RemoveOne(operations: Records, key: string)
    ensures |operations - {key}| >= |operations| - 1
    ensures (operations - {key}).Keys == operations.Keys - {key}
  {
    var rest := operations - {key};
    assert rest.Keys == operations.Keys - {key};
    assert operations.Keys <= rest.Keys + {key};
    SubsetSize(operations.Keys, rest.Keys + {key});
  }
}
