/**
 The sign-once protocol: reserve an idempotency key, record the transaction id,
 sign, broadcast once, classify the answer (internal/httpapi/platform.go,
 internal/tron/service.go, internal/chain/solana/transfer.go).

 Requests run concurrently over one operations file, so the protocol is a state
 machine. The events carry everything the environment decides: which request
 moves, what pruning leaves, whether a write lands, what a node answers, when
 the process dies. An event that cannot happen changes nothing, so a run is any
 sequence of events.
 */
module SignOnce {
  import opened Wrappers
  import opened OperationStore

  datatype Family = Tron | Solana | Evm

  /** How far a request that reserved its key has come. */
  datatype Phase =
    | Reserved                                      // nothing signed
    | Announced(height: nat)                        // Solana: the expiry height is known
    | Withheld(txHash: string, height: nat)         // Solana: signed, inside the recording signer
    | Named(txHash: string)                         // Tron: the id is recorded, nothing signed
    | Signed(txHash: string, height: nat)           // the adapter holds the signature
    | Sent(txHash: string, height: nat)             // the bytes have left for a node
    | Finishing(txHash: string, status: Status)     // classified, to be written down

  /** `birth` numbers the record the request created. */
  datatype Handler = Handler(family: Family, rawKey: string, birth: nat, phase: Phase) {
    function Key(): string { NormalizeKey(rawKey) }
  }

  /** Something signed, or something that left, for a key and a lifetime of its record. */
  datatype Entry =
    | Signature(key: string, birth: nat, txHash: string)
    | Release(key: string, birth: nat, family: Family, txHash: string, height: nat)

  /**
   `lifetimes` lists the key of every record ever reserved, `births` says which of them
   the record under a key is; `log` is everything signed and everything that left;
   `travelling` are lifetimes whose bytes a node may still take, `accepted` those one
   took, `reported` those an execution or a status lookup called failed.
   */
  datatype State = State(
    records: Records,
    births: map<string, nat>,
    lifetimes: seq<string>,
    handlers: map<nat, Handler>,
    log: seq<Entry>,
    travelling: set<nat>,
    accepted: set<nat>,
    reported: set<nat>)

  datatype Answer = Taken | Rejected | AnswerLost | Executed(failed: bool)

  datatype Event =
    | Begin(id: nat, family: Family, rawKey: string, requestHash: string, networkID: string, now: int,
            kept: Records, write: Write)
    | Announce(id: nat, height: nat)
    | Record(id: nat, txHash: string, now: int, write: Write)
    | Sign(id: nat, txHash: string)
    | Refuse(id: nat)
    | Send(id: nat)
    | Deliver(birth: nat)
    | Receive(id: nat, answer: Answer)
    | Finish(id: nat, now: int, write: Write)
    | Poll(txHash: string, status: Status, found: Option<string>, now: int, write: Write)
    | Crash

  const INITIAL := State(map[], map[], [], map[], [], {}, {}, {})

  function Step(s: State, e: Event): State {
    match e
    case Begin(_, _, _, _, _, _, _, _) => BeginStep(s, e)
    case Announce(id, height) => AnnounceStep(s, id, height)
    case Record(id, txHash, now, write) => RecordStep(s, id, txHash, now, write)
    case Sign(id, txHash) => SignStep(s, id, txHash)
    case Refuse(id) => RefuseStep(s, id)
    case Send(id) => SendStep(s, id)
    case Deliver(birth) => DeliverStep(s, birth)
    case Receive(id, answer) => ReceiveStep(s, id, answer)
    case Finish(id, now, write) => FinishStep(s, id, now, write)
    case Poll(txHash, status, found, now, write) => PollStep(s, txHash, status, found, now, write)
    case Crash => s.(handlers := map[])
  }

  /** Solana says when a transaction expires before it is signed. */
  function AnnounceStep(s: State, id: nat, height: nat): State {
    if id in s.handlers && s.handlers[id].family == Solana && s.handlers[id].phase == Reserved
    then Move(s, id, Announced(height)) else s
  }

  /** A request may fail at any point before its bytes leave. */
  function RefuseStep(s: State, id: nat): State {
    if id in s.handlers && !s.handlers[id].phase.Sent? && !s.handlers[id].phase.Finishing?
    then Move(s, id, Finishing("", Failed)) else s
  }

  function SendStep(s: State, id: nat): State {
    if id in s.handlers && s.handlers[id].phase.Signed? then
      var h := s.handlers[id];
      Move(s, id, Sent(h.phase.txHash, h.phase.height))
        .(log := s.log + [Release(h.Key(), h.birth, h.family, h.phase.txHash, h.phase.height)],
          travelling := s.travelling + {h.birth})
    else s
  }

  function DeliverStep(s: State, birth: nat): State {
    if birth in s.travelling then s.(accepted := s.accepted + {birth}) else s
  }

  /** The outcome is written down, and the request is over whether or not that lands. */
  function FinishStep(s: State, id: nat, now: int, write: Write): State {
    if id in s.handlers && s.handlers[id].phase.Finishing? then
      var h := s.handlers[id];
      s.(records := UpdateOutcome(s.records, h.rawKey, h.phase.txHash, h.phase.status, 0, now, write).1,
         handlers := s.handlers - {id})
    else s
  }

  function Move(s: State, id: nat, phase: Phase): State
    requires id in s.handlers
  {
    s.(handlers := s.handlers[id := s.handlers[id].(phase := phase)])
  }

  /** The record under `key` starts a new lifetime; the others go on. */
  function Lifetimes(births: map<string, nat>, records: Records, key: string, next: nat): (after: map<string, nat>)
    ensures after.Keys == records.Keys
  {
    map k | k in records :: if k in births && k != key then births[k] else next
  }

  function BeginStep(s: State, e: Event): State
    requires e.Begin?
  {
    if e.id in s.handlers || (CanMakeRoom(s.records, e.now) && !Pruned(s.records, e.now, e.kept)) then s
    else
      var (result, records) :=
        BeginOutcome(s.records, e.rawKey, e.requestHash, e.networkID, e.now, e.kept, e.write);
      if records == s.records then s
      else Reserve(s, e.id, Handler(e.family, e.rawKey, |s.lifetimes|, Reserved), records, result.Created?)
  }

  /** A new record is on disk; a request goes on from it unless the write was reported failed. */
  function Reserve(s: State, id: nat, h: Handler, records: Records, proceeds: bool): State {
    s.(records := records,
       births := Lifetimes(s.births, records, h.Key(), |s.lifetimes|),
       lifetimes := s.lifetimes + [h.Key()],
       handlers := if proceeds then s.handlers[id := h] else s.handlers)
  }

  /**
   The recording signers. Tron writes the id, which is the digest, before
   signing; Solana writes its signature with the expiry height before handing it
   back. A failed write withholds the signature.
   */
  function RecordStep(s: State, id: nat, txHash: string, now: int, write: Write): State {
    if id !in s.handlers then s
    else if s.handlers[id].family == Tron && s.handlers[id].phase == Reserved && txHash != "" then
      RecordDigest(s, id, txHash, now, write)
    else if s.handlers[id].phase.Withheld? then RecordSignature(s, id, now, write)
    else s
  }

  function RecordDigest(s: State, id: nat, txHash: string, now: int, write: Write): State
    requires id in s.handlers
  {
    var (result, records) := UpdateOutcome(s.records, s.handlers[id].rawKey, txHash, Broadcasting, 0, now, write);
    Move(s.(records := records), id, if result.Ok? then Named(txHash) else Finishing("", Failed))
  }

  function RecordSignature(s: State, id: nat, now: int, write: Write): State
    requires id in s.handlers && s.handlers[id].phase.Withheld?
  {
    var h := s.handlers[id];
    var (result, records) :=
      UpdateExpiringOutcome(s.records, h.rawKey, h.phase.txHash, Broadcasting, h.phase.height, now, write);
    Move(s.(records := records), id,
         if result.Ok? then Signed(h.phase.txHash, h.phase.height) else Finishing("", Failed))
  }

  function SignStep(s: State, id: nat, txHash: string): State {
    if id !in s.handlers then s
    else
      var h := s.handlers[id];
      if h.phase.Named? then
        Move(s, id, Signed(h.phase.txHash, 0)).(log := s.log + [Signature(h.Key(), h.birth, h.phase.txHash)])
      else if h.phase.Announced? then
        Move(s, id, Withheld(txHash, h.phase.height)).(log := s.log + [Signature(h.Key(), h.birth, txHash)])
      else if h.family == Evm && h.phase == Reserved then
        Move(s, id, Signed(txHash, 0)).(log := s.log + [Signature(h.Key(), h.birth, txHash)])
      else s
  }

  /**
   What the broadcast came back with. A node that rejects did not take the
   bytes; a lost answer says nothing; only a transaction a node took can be
   executed.
   */
  function ReceiveStep(s: State, id: nat, answer: Answer): State {
    if id !in s.handlers || !s.handlers[id].phase.Sent? then s
    else
      var h := s.handlers[id];
      match answer
      case Taken =>
        if h.birth in s.accepted then Move(s, id, Finishing(h.phase.txHash, Pending)) else s
      case Rejected =>
        if h.birth in s.accepted then s
        else Move(s, id, Finishing(h.phase.txHash, Failed)).(travelling := s.travelling - {h.birth})
      case AnswerLost => Move(s, id, Finishing(h.phase.txHash, BroadcastUnknown))
      case Executed(failed) =>
        if h.birth !in s.accepted then s
        else Move(s, id, Finishing(h.phase.txHash, if failed then Failed else Confirmed))
               .(reported := if failed then s.reported + {h.birth} else s.reported)
  }

  /** The status lookup writes what the chain reported over the record. */
  function PollStep(
    s: State, txHash: string, status: Status, found: Option<string>, now: int, write: Write): State
  {
    if found.Some? && !Names(s.records, txHash, found.value) then s
    else
      var records := UpdateByTxHashOutcome(s.records, txHash, status, now, found, write).1;
      var reported := if found.Some? && found.value in s.births && status == Failed
                      then {s.births[found.value]} else {};
      s.(records := records, reported := s.reported + reported)
  }

  function Run(events: seq<Event>): State {
    if events == [] then INITIAL else Step(Run(events[..|events| - 1]), events[|events| - 1])
  }

  // ------------------------------------------------------------ at most once

  predicate SignedOnce(log: seq<Entry>) {
    forall i, j :: 0 <= i < j < |log| && log[i].Signature? && log[j].Signature? ==> log[i].birth != log[j].birth
  }

  predicate ReleasedOnce(log: seq<Entry>) {
    forall i, j :: 0 <= i < j < |log| && log[i].Release? && log[j].Release? ==> log[i].birth != log[j].birth
  }

  /** What leaves is what was signed for the same record. */
  predicate ReleasesAreSigned(log: seq<Entry>) {
    forall i :: 0 <= i < |log| && log[i].Release? ==> Signature(log[i].key, log[i].birth, log[i].txHash) in log
  }

  predicate NoSignature(log: seq<Entry>, birth: nat) {
    forall x :: x in log && x.Signature? ==> x.birth != birth
  }

  predicate NoRelease(log: seq<Entry>, birth: nat) {
    forall x :: x in log && x.Release? ==> x.birth != birth
  }

  predicate PhaseMatchesLog(h: Handler, log: seq<Entry>) {
    match h.phase
    case Reserved | Announced(_) | Named(_) => NoSignature(log, h.birth) && NoRelease(log, h.birth)
    case Withheld(txHash, _) => Signature(h.Key(), h.birth, txHash) in log && NoRelease(log, h.birth)
    case Signed(txHash, _) => Signature(h.Key(), h.birth, txHash) in log && NoRelease(log, h.birth)
    case Sent(txHash, _) => true
    case Finishing(_, _) => true
  }

  /** A lifetime of the key: it was reserved under it. */
  predicate Lifetime(lifetimes: seq<string>, birth: nat, key: string) {
    birth < |lifetimes| && lifetimes[birth] == key
  }

  /** Each request has a lifetime of its own key to itself, and entries are of lifetimes of theirs. */
  predicate OwnLifetimes(handlers: map<nat, Handler>, lifetimes: seq<string>, log: seq<Entry>) {
    && (forall id :: id in handlers ==> Lifetime(lifetimes, handlers[id].birth, handlers[id].Key()))
    && (forall i, j :: i in handlers && j in handlers && i != j ==> handlers[i].birth != handlers[j].birth)
    && (forall x :: x in log ==> Lifetime(lifetimes, x.birth, x.key))
  }

  predicate Once(handlers: map<nat, Handler>, lifetimes: seq<string>, log: seq<Entry>) {
    && OwnLifetimes(handlers, lifetimes, log)
    && SignedOnce(log) && ReleasedOnce(log) && ReleasesAreSigned(log)
    && (forall id :: id in handlers ==> PhaseMatchesLog(handlers[id], log))
  }

  /** Every record is the lifetime of its key that `births` says. */
  predicate RecordsLive(records: Records, births: map<string, nat>, lifetimes: seq<string>) {
    births.Keys == records.Keys && forall k :: k in births ==> Lifetime(lifetimes, births[k], k)
  }

  predicate OnceInvariant(s: State) {
    Once(s.handlers, s.lifetimes, s.log) && RecordsLive(s.records, s.births, s.lifetimes)
  }

  /** An entry a handler may add: a first signature, or a first release of what it signed. */
  predicate MayAdd(log: seq<Entry>, entry: Entry) {
    match entry
    case Signature(_, birth, _) => NoSignature(log, birth) && NoRelease(log, birth)
    case Release(key, birth, _, txHash, _) => NoRelease(log, birth) && Signature(key, birth, txHash) in log
  }

  lemma AddingKeepsLog(log: seq<Entry>, entry: Entry)
    requires SignedOnce(log) && ReleasedOnce(log) && ReleasesAreSigned(log) && MayAdd(log, entry)
    ensures SignedOnce(log + [entry]) && ReleasedOnce(log + [entry]) && ReleasesAreSigned(log + [entry])
  {
    var longer := log + [entry];
    forall i | 0 <= i < |log| ensures longer[i] == log[i] && longer[i] in log { }
    forall i | 0 <= i < |longer| && longer[i].Release?
      ensures Signature(longer[i].key, longer[i].birth, longer[i].txHash) in longer
    {
      if i < |log| {
        assert Signature(log[i].key, log[i].birth, log[i].txHash) in log;
      }
    }
  }

  lemma AddingKeepsOthers(log: seq<Entry>, entry: Entry, h: Handler)
    requires PhaseMatchesLog(h, log) && entry.birth != h.birth
    ensures PhaseMatchesLog(h, log + [entry])
  {
    assert forall x :: x in log + [entry] <==> x in log || x == entry;
  }

  lemma AddingKeepsOnce(
    handlers: map<nat, Handler>, lifetimes: seq<string>, log: seq<Entry>, id: nat, phase: Phase, entry: Entry)
    requires Once(handlers, lifetimes, log)
    requires id in handlers && entry.birth == handlers[id].birth && entry.key == handlers[id].Key()
              && MayAdd(log, entry)
    requires PhaseMatchesLog(handlers[id].(phase := phase), log + [entry])
    ensures Once(handlers[id := handlers[id].(phase := phase)], lifetimes, log + [entry])
  {
    AddingKeepsLog(log, entry);
    var after := handlers[id := handlers[id].(phase := phase)];
    assert forall x :: x in log + [entry] <==> x in log || x == entry;
    forall k | k in after ensures PhaseMatchesLog(after[k], log + [entry]) {
      if k != id { AddingKeepsOthers(log, entry, handlers[k]); }
    }
  }

  lemma MovingKeepsOnce(handlers: map<nat, Handler>, lifetimes: seq<string>, log: seq<Entry>, id: nat, phase: Phase)
    requires Once(handlers, lifetimes, log) && id in handlers
    requires PhaseMatchesLog(handlers[id].(phase := phase), log)
    ensures Once(handlers[id := handlers[id].(phase := phase)], lifetimes, log)
  {
  }

  lemma SigningKeepsOnce(s: State, id: nat, txHash: string)
    requires OnceInvariant(s)
    ensures OnceInvariant(SignStep(s, id, txHash))
  {
    if id in s.handlers {
      var h := s.handlers[id];
      if h.phase.Named? {
        AddingKeepsOnce(s.handlers, s.lifetimes, s.log, id, Signed(h.phase.txHash, 0),
          Signature(h.Key(), h.birth, h.phase.txHash));
      } else if h.phase.Announced? {
        AddingKeepsOnce(s.handlers, s.lifetimes, s.log, id, Withheld(txHash, h.phase.height),
          Signature(h.Key(), h.birth, txHash));
      } else if h.family == Evm && h.phase == Reserved {
        AddingKeepsOnce(s.handlers, s.lifetimes, s.log, id, Signed(txHash, 0), Signature(h.Key(), h.birth, txHash));
      }
    }
  }

  // -------------------------------------------------- reserving and forgetting

  /** A Begin that reserves: an acceptable new key, room made by pruning, and a write that lands. */
  predicate Reserves(s: State, e: Event) {
    && e.Begin? && e.id !in s.handlers && e.write != Lost
    && AcceptableKey(NormalizeKey(e.rawKey)) && NormalizeKey(e.rawKey) !in s.records
    && CanMakeRoom(s.records, e.now) && Pruned(s.records, e.now, e.kept)
  }

  /** A reservation whose pruning drops the record under k. */
  predicate Forgets(s: State, e: Event, k: string) {
    Reserves(s, e) && k in s.records && k !in e.kept
  }

  /** Only a full file is pruned, and only of a resolved record or one thirty days old. */
  lemma ForgottenWasDroppable(s: State, e: Event, k: string)
    requires Forgets(s, e, k)
    ensures |s.records| >= MAX_OPERATIONS && Droppable(s.records[k], e.now) && k != NormalizeKey(e.rawKey)
  {
  }

  lemma BeginReserves(s: State, e: Event)
    requires e.Begin?
    ensures !Reserves(s, e) ==> BeginStep(s, e) == s
    ensures Reserves(s, e) ==>
              var key := NormalizeKey(e.rawKey);
              BeginStep(s, e) == Reserve(s, e.id, Handler(e.family, e.rawKey, |s.lifetimes|, Reserved),
                e.kept[key := NewOperation(key, e.requestHash, e.networkID, e.now)], e.write == Written)
  {
  }

  lemma NewLifetimeKeepsRecords(
    records: Records, births: map<string, nat>, lifetimes: seq<string>, key: string, after: Records)
    requires RecordsLive(records, births, lifetimes)
    requires forall k :: k in after && k != key ==> k in records
    ensures RecordsLive(after, Lifetimes(births, after, key, |lifetimes|), lifetimes + [key])
      || key !in after
  {
    if key in after {
      forall k | k in after ensures Lifetime(lifetimes + [key], Lifetimes(births, after, key, |lifetimes|)[k], k) {
        if k != key { assert k in births && Lifetime(lifetimes, births[k], k); }
      }
    }
  }

  lemma BeginningKeepsOnce(s: State, e: Event)
    requires e.Begin? && OnceInvariant(s)
    ensures OnceInvariant(BeginStep(s, e))
  {
    BeginReserves(s, e);
    if Reserves(s, e) {
      var key := NormalizeKey(e.rawKey);
      var h := Handler(e.family, e.rawKey, |s.lifetimes|, Reserved);
      NewHandlerKeepsOnce(s.handlers, s.lifetimes, s.log, e.id, h);
      NewLifetimeKeepsRecords(s.records, s.births, s.lifetimes, key,
        e.kept[key := NewOperation(key, e.requestHash, e.networkID, e.now)]);
    }
  }

  lemma NewHandlerKeepsOnce(handlers: map<nat, Handler>, lifetimes: seq<string>, log: seq<Entry>, id: nat, h: Handler)
    requires Once(handlers, lifetimes, log) && id !in handlers
    requires h.phase == Reserved && h.birth == |lifetimes|
    ensures Once(handlers[id := h], lifetimes + [h.Key()], log)
    ensures Once(handlers, lifetimes + [h.Key()], log)
  {
    assert NoSignature(log, |lifetimes|) && NoRelease(log, |lifetimes|);
    forall b, k | Lifetime(lifetimes, b, k) ensures Lifetime(lifetimes + [h.Key()], b, k) { }
  }

  /** The same records under the same lifetimes. */
  predicate KeepsLifetimes(s: State, t: State) {
    t.records.Keys == s.records.Keys && t.births == s.births && t.lifetimes == s.lifetimes
  }

  /** Nothing but reserving changes which records there are, or whose they are. */
  lemma OnlyReservingChangesLifetimes(s: State, e: Event)
    requires !e.Begin?
    ensures KeepsLifetimes(s, Step(s, e))
  {
  }

  /** A request moves on and the file's records change, but not which there are. */
  lemma WritingKeepsOnce(s: State, id: nat, phase: Phase, records: Records)
    requires OnceInvariant(s) && id in s.handlers && records.Keys == s.records.Keys
    requires PhaseMatchesLog(s.handlers[id].(phase := phase), s.log)
    ensures OnceInvariant(Move(s.(records := records), id, phase))
  {
    MovingKeepsOnce(s.handlers, s.lifetimes, s.log, id, phase);
  }

  lemma UpdatesKeepKeys(
    records: Records, rawKey: string, txHash: string, status: Status, height: nat, now: int, write: Write)
    ensures UpdateOutcome(records, rawKey, txHash, status, height, now, write).1.Keys == records.Keys
    ensures UpdateExpiringOutcome(records, rawKey, txHash, status, height, now, write).1.Keys == records.Keys
  {
  }

  lemma RecordingDigestKeepsOnce(s: State, id: nat, txHash: string, now: int, write: Write)
    requires OnceInvariant(s) && id in s.handlers && s.handlers[id].phase == Reserved
    ensures OnceInvariant(RecordDigest(s, id, txHash, now, write))
  {
    var (result, records) := UpdateOutcome(s.records, s.handlers[id].rawKey, txHash, Broadcasting, 0, now, write);
    UpdatesKeepKeys(s.records, s.handlers[id].rawKey, txHash, Broadcasting, 0, now, write);
    WritingKeepsOnce(s, id, if result.Ok? then Named(txHash) else Finishing("", Failed), records);
  }

  lemma RecordingSignatureKeepsOnce(s: State, id: nat, now: int, write: Write)
    requires OnceInvariant(s) && id in s.handlers && s.handlers[id].phase.Withheld?
    ensures OnceInvariant(RecordSignature(s, id, now, write))
  {
    var h := s.handlers[id];
    var (result, records) :=
      UpdateExpiringOutcome(s.records, h.rawKey, h.phase.txHash, Broadcasting, h.phase.height, now, write);
    UpdatesKeepKeys(s.records, h.rawKey, h.phase.txHash, Broadcasting, h.phase.height, now, write);
    WritingKeepsOnce(s, id,
      if result.Ok? then Signed(h.phase.txHash, h.phase.height) else Finishing("", Failed), records);
  }

  lemma RecordingKeepsOnce(s: State, id: nat, txHash: string, now: int, write: Write)
    requires OnceInvariant(s)
    ensures OnceInvariant(RecordStep(s, id, txHash, now, write))
  {
    if id in s.handlers {
      if s.handlers[id].phase.Withheld? {
        RecordingSignatureKeepsOnce(s, id, now, write);
      } else if s.handlers[id].phase == Reserved {
        RecordingDigestKeepsOnce(s, id, txHash, now, write);
      }
    }
  }

  lemma ReceivingKeepsOnce(s: State, id: nat, answer: Answer)
    requires OnceInvariant(s)
    ensures OnceInvariant(ReceiveStep(s, id, answer))
  {
    var after := ReceiveStep(s, id, answer);
    if after.handlers != s.handlers {
      MovingKeepsOnce(s.handlers, s.lifetimes, s.log, id, after.handlers[id].phase);
    }
  }

  lemma SendingKeepsOnce(s: State, id: nat)
    requires OnceInvariant(s)
    ensures OnceInvariant(SendStep(s, id))
  {
    if id in s.handlers && s.handlers[id].phase.Signed? {
      var h := s.handlers[id];
      AddingKeepsOnce(s.handlers, s.lifetimes, s.log, id, Sent(h.phase.txHash, h.phase.height),
        Release(h.Key(), h.birth, h.family, h.phase.txHash, h.phase.height));
    }
  }

  lemma EndingKeepsOnce(handlers: map<nat, Handler>, lifetimes: seq<string>, log: seq<Entry>, ended: set<nat>)
    requires Once(handlers, lifetimes, log)
    ensures Once(handlers - ended, lifetimes, log)
  {
  }

  lemma FinishingKeepsOnce(s: State, id: nat, now: int, write: Write)
    requires OnceInvariant(s)
    ensures OnceInvariant(FinishStep(s, id, now, write))
  {
    EndingKeepsOnce(s.handlers, s.lifetimes, s.log, {id});
  }

  lemma CrashingKeepsOnce(s: State)
    requires OnceInvariant(s)
    ensures OnceInvariant(s.(handlers := map[]))
  {
    EndingKeepsOnce(s.handlers, s.lifetimes, s.log, s.handlers.Keys);
    assert s.handlers - s.handlers.Keys == map[];
  }

  lemma PollingKeepsOnce(s: State, txHash: string, status: Status, found: Option<string>, now: int, write: Write)
    requires OnceInvariant(s)
    ensures OnceInvariant(PollStep(s, txHash, status, found, now, write))
  {
  }

  lemma AnnouncingKeepsOnce(s: State, id: nat, height: nat)
    requires OnceInvariant(s)
    ensures OnceInvariant(AnnounceStep(s, id, height))
  {
    if AnnounceStep(s, id, height) != s {
      MovingKeepsOnce(s.handlers, s.lifetimes, s.log, id, Announced(height));
    }
  }

  lemma RefusingKeepsOnce(s: State, id: nat)
    requires OnceInvariant(s)
    ensures OnceInvariant(RefuseStep(s, id))
  {
    if RefuseStep(s, id) != s { MovingKeepsOnce(s.handlers, s.lifetimes, s.log, id, Finishing("", Failed)); }
  }

  lemma OnceIsKept(s: State, e: Event)
    requires OnceInvariant(s)
    ensures OnceInvariant(Step(s, e))
  {
    match e
    case Begin(_, _, _, _, _, _, _, _) => BeginningKeepsOnce(s, e);
    case Announce(id, height) => AnnouncingKeepsOnce(s, id, height);
    case Record(id, txHash, now, write) => RecordingKeepsOnce(s, id, txHash, now, write);
    case Sign(id, txHash) => SigningKeepsOnce(s, id, txHash);
    case Refuse(id) => RefusingKeepsOnce(s, id);
    case Send(id) => SendingKeepsOnce(s, id);
    case Deliver(_) =>
    case Receive(id, answer) => ReceivingKeepsOnce(s, id, answer);
    case Finish(id, now, write) => FinishingKeepsOnce(s, id, now, write);
    case Poll(txHash, status, found, now, write) => PollingKeepsOnce(s, txHash, status, found, now, write);
    case Crash => CrashingKeepsOnce(s);
  }

  /**
   In every run, whatever crashes, prunes or gets lost, a record's lifetime sees
   at most one signature and at most one transaction leave, and what leaves is
   what was signed.
   */
  lemma {:induction false} AtMostOneTransactionPerRecord(events: seq<Event>)
    ensures OnceInvariant(Run(events))
    ensures SignedOnce(Run(events).log) && ReleasedOnce(Run(events).log) && ReleasesAreSigned(Run(events).log)
  {
    if events == [] {
    } else {
      AtMostOneTransactionPerRecord(events[..|events| - 1]);
      OnceIsKept(Run(events[..|events| - 1]), events[|events| - 1]);
    }
  }
}
