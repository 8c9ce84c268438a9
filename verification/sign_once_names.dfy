/**
 The record names the transaction of its lifetime before the bytes leave and ever after
 (internal/httpapi/platform.go:1656-1717), and the one thing that can spoil it: a write by
 a request whose own record was forgotten, over a record that already holds another id.
 */
module SignOnceNames {
  import opened Wrappers
  import opened OperationStore
  import opened SignOnce
  import opened SignOnceKeys
  import opened SignOnceRecord

  predicate NamesTransaction(item: Operation, family: Family, txHash: string, height: nat) {
    family != Evm ==> item.txHash == txHash && (family == Solana ==> item.lastValidBlockHeight == height)
  }

  /** What a running request has recorded, signed or sent is what its record names. */
  predicate PhaseNamed(item: Operation, h: Handler) {
    match h.phase
    case Named(txHash) => item.txHash == txHash
    case Signed(txHash, height) => NamesTransaction(item, h.family, txHash, height)
    case Sent(txHash, height) => NamesTransaction(item, h.family, txHash, height)
    case Finishing(txHash, _) => h.family != Evm && txHash != "" ==> item.txHash == txHash
    case _ => true
  }

  /** Everything that left for this lifetime is what the record names. */
  ghost predicate ReleasesNamed(log: seq<Entry>, item: Operation, birth: nat) {
    forall x :: x in log && x.Release? && x.birth == birth ==> NamesTransaction(item, x.family, x.txHash, x.height)
  }

  ghost predicate RequestNamed(s: State, h: Handler) {
    Owns(s, h) ==> h.Key() in s.records && PhaseNamed(s.records[h.Key()], h)
  }

  ghost predicate RecordNamed(s: State, k: string) {
    k in s.records && k in s.births ==> ReleasesNamed(s.log, s.records[k], s.births[k])
  }

  /** Every live record names what its lifetime has recorded, signed and sent. */
  ghost predicate Named(s: State) {
    && (forall id :: id in s.handlers ==> RequestNamed(s, s.handlers[id]))
    && (forall k :: RecordNamed(s, k))
  }

  // ----------------------------------------------------- what a request writes

  /** What a request writes into the record under its key. */
  datatype Note = Note(id: nat, txHash: string, height: nat, status: Status)

  /** The note an event writes, if it finds a record and the write lands. */
  function NoteOf(s: State, e: Event): Option<Note> {
    match e
    case Record(id, txHash, _, write) =>
      if id !in s.handlers || s.handlers[id].Key() !in s.records || write == Lost then None
      else
        var h := s.handlers[id];
        if h.family == Tron && h.phase == Reserved && txHash != "" then Some(Note(id, txHash, 0, Broadcasting))
        else if h.phase.Withheld? && h.phase.txHash != "" && h.phase.height != 0 then
          Some(Note(id, h.phase.txHash, h.phase.height, Broadcasting))
        else None
    case Finish(id, _, write) =>
      if id !in s.handlers || s.handlers[id].Key() !in s.records || write == Lost then None
      else if s.handlers[id].phase.Finishing? then
        Some(Note(id, s.handlers[id].phase.txHash, 0, s.handlers[id].phase.status))
      else None
    case _ => None
  }

  function Noted(records: Records, key: string, n: Note, now: int): Records
    requires key in records
  {
    records[key := Updated(records[key], n.txHash, n.status, n.height, now)]
  }

  /** Recording and finishing write their note and move their own request, nothing else. */
  lemma NotesAreWritten(s: State, e: Event)
    requires e.Record? || e.Finish?
    ensures var t := Step(s, e);
            && t == s.(records := t.records, handlers := t.handlers)
            && (NoteOf(s, e).None? ==> t.records == s.records)
            && (NoteOf(s, e).Some? ==>
                  && NoteOf(s, e).value.id == e.id
                  && s.handlers[e.id].Key() in s.records
                  && t.records == Noted(s.records, s.handlers[e.id].Key(), NoteOf(s, e).value, e.now))
  {
    if e.Record? { RecordWrites(s, e); } else { FinishWrites(s, e); }
  }

  lemma RecordWrites(s: State, e: Event)
    requires e.Record?
    ensures var t := RecordStep(s, e.id, e.txHash, e.now, e.write);
            && t == s.(records := t.records, handlers := t.handlers)
            && (NoteOf(s, e).None? ==> t.records == s.records)
            && (NoteOf(s, e).Some? ==>
                  t.records == Noted(s.records, s.handlers[e.id].Key(), NoteOf(s, e).value, e.now))
  {
  }

  lemma FinishWrites(s: State, e: Event)
    requires e.Finish?
    ensures var t := FinishStep(s, e.id, e.now, e.write);
            && t == s.(records := t.records, handlers := t.handlers)
            && (NoteOf(s, e).None? ==> t.records == s.records)
            && (NoteOf(s, e).Some? ==>
                  t.records == Noted(s.records, s.handlers[e.id].Key(), NoteOf(s, e).value, e.now))
  {
  }

  /** How a request goes on after recording. */
  lemma RecordMoves(s: State, e: Event)
    requires e.Record?
    ensures var t := RecordStep(s, e.id, e.txHash, e.now, e.write);
            && (e.id !in s.handlers ==> t.handlers == s.handlers)
            && (e.id in s.handlers ==>
                  var h := s.handlers[e.id];
                  || t == s
                  || t.handlers == s.handlers[e.id := h.(phase := Finishing("", Failed))]
                  || (NoteOf(s, e).Some? && h.phase == Reserved && h.family == Tron
                      && t.handlers == s.handlers[e.id := h.(phase := Phase.Named(e.txHash))])
                  || (NoteOf(s, e).Some? && h.phase.Withheld?
                      && t.handlers == s.handlers[e.id := h.(phase := Signed(h.phase.txHash, h.phase.height))]))
  {
  }

  // ------------------------------------------------- the one way to spoil it

  /** A running request that has committed to the id its record holds. */
  predicate CommitsToId(h: Handler) {
    match h.phase
    case Named(_) => true
    case Signed(_, _) | Sent(_, _) => h.family != Evm
    case Finishing(txHash, _) => h.family != Evm && txHash != ""
    case _ => false
  }

  predicate CommitsToHeight(h: Handler) {
    h.family == Solana && (h.phase.Signed? || h.phase.Sent?)
  }

  predicate Runs(s: State, id: nat, k: string, birth: nat) {
    id in s.handlers && s.handlers[id].Key() == k && s.handlers[id].birth == birth
  }

  /** Something of this lifetime rests on the id the record holds. */
  ghost predicate HoldsId(s: State, k: string)
    requires k in s.births
  {
    || (exists x :: x in s.log && x.Release? && x.birth == s.births[k] && x.family != Evm)
    || (exists id :: Runs(s, id, k, s.births[k]) && CommitsToId(s.handlers[id]))
  }

  ghost predicate HoldsHeight(s: State, k: string)
    requires k in s.births
  {
    || (exists x :: x in s.log && x.Release? && x.birth == s.births[k] && x.family == Solana)
    || (exists id :: Runs(s, id, k, s.births[k]) && CommitsToHeight(s.handlers[id]))
  }

  /** The note gives the record another id, or another height, than one that is relied on. */
  ghost predicate Replaces(s: State, k: string, n: Note)
    requires k in s.records && k in s.births
  {
    || (n.txHash != "" && n.txHash != s.records[k].txHash && HoldsId(s, k))
    || (n.height != 0 && n.height != s.records[k].lastValidBlockHeight && HoldsHeight(s, k))
  }

  /**
   A request whose own record was forgotten writes a different id over the record now
   under its key, which holds one already.
   */
  ghost predicate Overwrites(s: State, e: Event) {
    match NoteOf(s, e)
    case None => false
    case Some(n) =>
      var k := s.handlers[n.id].Key();
      !Owns(s, s.handlers[n.id]) && k in s.births && Replaces(s, k, n)
  }

  // ------------------------------------------------------ steps that write none

  /** Nothing that names or is named changes but one request and its lifetime's entries. */
  lemma MoveKeepsNames(s: State, t: State, id: nat)
    requires OnceInvariant(s) && Named(s) && id in s.handlers
    requires t.records == s.records && t.births == s.births
    requires id in t.handlers && t.handlers == s.handlers[id := t.handlers[id]]
    requires t.handlers[id].(phase := s.handlers[id].phase) == s.handlers[id]
    requires RequestNamed(t, t.handlers[id])
    requires forall x :: x in t.log && x !in s.log && x.Release? ==>
               && x.birth == s.handlers[id].birth
               && (Owns(s, s.handlers[id]) ==>
                     (s.handlers[id].Key() in s.records
                      && NamesTransaction(s.records[s.handlers[id].Key()], x.family, x.txHash, x.height)))
    ensures Named(t)
  {
    forall j | j in t.handlers ensures RequestNamed(t, t.handlers[j]) {
      if j != id { assert RequestNamed(s, s.handlers[j]); }
    }
    forall k ensures RecordNamed(t, k) {
      assert RecordNamed(s, k);
      if k in t.records && k in t.births && t.births[k] == s.handlers[id].birth {
        assert Lifetime(s.lifetimes, s.births[k], k)
            && Lifetime(s.lifetimes, s.handlers[id].birth, s.handlers[id].Key());
      }
    }
  }

  lemma SignKeepsNames(s: State, id: nat, txHash: string)
    requires Sound(s) && Named(s)
    ensures Named(SignStep(s, id, txHash))
  {
    var t := SignStep(s, id, txHash);
    if t != s {
      RequestBefore(s, id);
      assert RequestNamed(s, s.handlers[id]);
      MoveKeepsNames(s, t, id);
    }
  }

  lemma SendKeepsNames(s: State, id: nat)
    requires Sound(s) && Named(s)
    ensures Named(SendStep(s, id))
  {
    var t := SendStep(s, id);
    if t != s {
      assert RequestNamed(s, s.handlers[id]);
      MoveKeepsNames(s, t, id);
    }
  }

  lemma ReceiveKeepsNames(s: State, id: nat, answer: Answer)
    requires Sound(s) && Named(s)
    ensures Named(ReceiveStep(s, id, answer))
  {
    var t := ReceiveStep(s, id, answer);
    if t != s {
      assert RequestNamed(s, s.handlers[id]);
      MoveKeepsNames(s, t, id);
    }
  }

  lemma QuietMovesKeepNames(s: State, id: nat, height: nat)
    requires Sound(s) && Named(s)
    ensures Named(AnnounceStep(s, id, height)) && Named(RefuseStep(s, id))
  {
    if AnnounceStep(s, id, height) != s { MoveKeepsNames(s, AnnounceStep(s, id, height), id); }
    if RefuseStep(s, id) != s { MoveKeepsNames(s, RefuseStep(s, id), id); }
  }

  lemma PollKeepsIds(s: State, txHash: string, status: Status, found: Option<string>, now: int, write: Write)
    ensures var t := PollStep(s, txHash, status, found, now, write);
            && t.records.Keys == s.records.Keys
            && forall k :: k in s.records ==>
                 t.records[k].txHash == s.records[k].txHash
                 && t.records[k].lastValidBlockHeight == s.records[k].lastValidBlockHeight
  {
  }

  /** Requests come and go and statuses change, but no id, height, lifetime or entry does. */
  lemma FewerRequestsKeepNames(s: State, t: State)
    requires Named(s) && t.records.Keys == s.records.Keys && t.births == s.births && t.log == s.log
    requires forall k :: k in s.records ==>
               t.records[k].txHash == s.records[k].txHash
               && t.records[k].lastValidBlockHeight == s.records[k].lastValidBlockHeight
    requires forall id :: id in t.handlers ==> id in s.handlers && t.handlers[id] == s.handlers[id]
    ensures Named(t)
  {
    forall id | id in t.handlers ensures RequestNamed(t, t.handlers[id]) { assert RequestNamed(s, s.handlers[id]); }
    forall k ensures RecordNamed(t, k) { assert RecordNamed(s, k); }
  }

  lemma ReservedIsNamed(s: State, e: Event, id: nat)
    requires Reserves(s, e) && Sound(s) && Named(s) && id in BeginStep(s, e).handlers
    ensures RequestNamed(BeginStep(s, e), BeginStep(s, e).handlers[id])
  {
    BeginReserves(s, e);
    if id in s.handlers {
      RequestBefore(s, id);
      assert RequestNamed(s, s.handlers[id]);
    }
  }

  lemma KeptIsNamed(s: State, e: Event, k: string)
    requires Reserves(s, e) && Sound(s) && Named(s)
    ensures RecordNamed(BeginStep(s, e), k)
  {
    BeginReserves(s, e);
    NothingIsKnownOfTheNext(s);
    assert RecordNamed(s, k);
  }

  lemma BeginKeepsNames(s: State, e: Event)
    requires e.Begin? && Sound(s) && Named(s)
    ensures Named(BeginStep(s, e))
  {
    var t := BeginStep(s, e);
    if Reserves(s, e) {
      forall id | id in t.handlers ensures RequestNamed(t, t.handlers[id]) { ReservedIsNamed(s, e, id); }
      forall k ensures RecordNamed(t, k) { KeptIsNamed(s, e, k); }
    } else {
      BeginReserves(s, e);
    }
  }

  lemma PollKeepsNames(s: State, txHash: string, status: Status, found: Option<string>, now: int, write: Write)
    requires Sound(s) && Named(s)
    ensures Named(PollStep(s, txHash, status, found, now, write))
  {
    PollKeepsIds(s, txHash, status, found, now, write);
    PollOnlyReports(s, txHash, status, found, now, write);
    FewerRequestsKeepNames(s, PollStep(s, txHash, status, found, now, write));
  }

  lemma EnvironmentKeepsNames(s: State, e: Event)
    requires Sound(s) && Named(s) && (e.Begin? || e.Deliver? || e.Poll? || e.Crash?)
    ensures Named(Step(s, e))
  {
    match e
    case Begin(_, _, _, _, _, _, _, _) => BeginKeepsNames(s, e);
    case Deliver(birth) => FewerRequestsKeepNames(s, DeliverStep(s, birth));
    case Poll(txHash, status, found, now, write) => PollKeepsNames(s, txHash, status, found, now, write);
    case Crash => FewerRequestsKeepNames(s, s.(handlers := map[]));
  }

  lemma OthersKeepNames(s: State, e: Event)
    requires Sound(s) && Named(s) && !e.Record? && !e.Finish?
    ensures Named(Step(s, e))
  {
    match e
    case Announce(id, height) => QuietMovesKeepNames(s, id, height);
    case Sign(id, txHash) => SignKeepsNames(s, id, txHash);
    case Refuse(id) => QuietMovesKeepNames(s, id, 0);
    case Send(id) => SendKeepsNames(s, id);
    case Receive(id, answer) => ReceiveKeepsNames(s, id, answer);
    case _ => EnvironmentKeepsNames(s, e);
  }

  // ---------------------------------------------------------- steps that write

  /** The record of the key a request writes to is somebody's. */
  lemma NotedIsLive(s: State, e: Event)
    requires Sound(s) && NoteOf(s, e).Some?
    ensures (e.Record? || e.Finish?) && NoteOf(s, e).value.id == e.id && e.id in s.handlers
    ensures s.handlers[e.id].Key() in s.records && s.handlers[e.id].Key() in s.births
  {
  }

  /** A request never replaces what its own record is relied on for. */
  lemma OwnNotesReplaceNothing(s: State, e: Event)
    requires Sound(s) && Named(s) && NoteOf(s, e).Some? && Owns(s, s.handlers[NoteOf(s, e).value.id])
    ensures s.handlers[e.id].Key() in s.records && !Replaces(s, s.handlers[e.id].Key(), NoteOf(s, e).value)
  {
    NotedIsLive(s, e);
    var h := s.handlers[e.id];
    RequestBefore(s, e.id);
    assert RequestNamed(s, h);
    forall id | Runs(s, id, h.Key(), h.birth) ensures id == e.id { }
  }

  /** What replaces nothing leaves a running owner's names as they are. */
  lemma NotedPhaseStaysNamed(s: State, j: nat, k: string, n: Note, now: int)
    requires k in s.records && k in s.births && !Replaces(s, k, n)
    requires Runs(s, j, k, s.births[k]) && PhaseFits(s.handlers[j]) && PhaseNamed(s.records[k], s.handlers[j])
    ensures PhaseNamed(Updated(s.records[k], n.txHash, n.status, n.height, now), s.handlers[j])
  {
  }

  lemma NotedRequestStaysNamed(s: State, e: Event, j: nat)
    requires Sound(s) && Named(s) && NoteOf(s, e).Some? && e.id in s.handlers && s.handlers[e.id].Key() in s.records
    requires s.handlers[e.id].Key() in s.births && !Replaces(s, s.handlers[e.id].Key(), NoteOf(s, e).value)
    requires j in s.handlers && j != e.id && j in Step(s, e).handlers && Step(s, e).handlers[j] == s.handlers[j]
    ensures RequestNamed(Step(s, e), Step(s, e).handlers[j])
  {
    NotedIsLive(s, e);
    NotesAreWritten(s, e);
    RequestBefore(s, j);
    var h, k := s.handlers[j], s.handlers[e.id].Key();
    assert RequestNamed(s, h);
    if Owns(s, h) && h.Key() == k { NotedPhaseStaysNamed(s, j, k, NoteOf(s, e).value, e.now); }
  }

  lemma NotedRecordStaysNamed(s: State, e: Event, k: string)
    requires Sound(s) && Named(s) && NoteOf(s, e).Some? && e.id in s.handlers && s.handlers[e.id].Key() in s.records
    requires s.handlers[e.id].Key() in s.births && !Replaces(s, s.handlers[e.id].Key(), NoteOf(s, e).value)
    ensures RecordNamed(Step(s, e), k)
  {
    NotedIsLive(s, e);
    NotesAreWritten(s, e);
    assert RecordNamed(s, k);
  }

  lemma OwnRequestStaysNamed(s: State, e: Event)
    requires Sound(s) && Named(s) && (e.Record? || e.Finish?) && e.id in s.handlers && e.id in Step(s, e).handlers
    ensures RequestNamed(Step(s, e), Step(s, e).handlers[e.id])
  {
    assert RequestNamed(s, s.handlers[e.id]);
    if e.Record? { RecorderStaysNamed(s, e); } else { UnfinishedStays(s, e); }
  }

  /** Finishing ends the request, or does nothing. */
  lemma UnfinishedStays(s: State, e: Event)
    requires e.Finish? && e.id in s.handlers && e.id in Step(s, e).handlers
    ensures Step(s, e) == s
  {
  }

  lemma RecorderStaysNamed(s: State, e: Event)
    requires Sound(s) && Named(s) && e.Record?
    requires e.id in s.handlers && e.id in RecordStep(s, e.id, e.txHash, e.now, e.write).handlers
    ensures var t := RecordStep(s, e.id, e.txHash, e.now, e.write); RequestNamed(t, t.handlers[e.id])
  {
    RecordWrites(s, e);
    RecordMoves(s, e);
    assert RequestNamed(s, s.handlers[e.id]);
  }

  lemma OnlyItsRequestMoves(s: State, e: Event)
    requires e.Record? || e.Finish?
    ensures forall j :: j in Step(s, e).handlers ==>
              j in s.handlers && (j != e.id ==> Step(s, e).handlers[j] == s.handlers[j])
    ensures forall j :: j in s.handlers && j != e.id ==> j in Step(s, e).handlers
  {
  }

  lemma WritesKeepNames(s: State, e: Event)
    requires Sound(s) && Named(s) && (e.Record? || e.Finish?) && !Overwrites(s, e)
    ensures Named(Step(s, e))
  {
    var t := Step(s, e);
    NotesAreWritten(s, e);
    OnlyItsRequestMoves(s, e);
    if NoteOf(s, e).Some? {
      NotedIsLive(s, e);
      if Owns(s, s.handlers[e.id]) { OwnNotesReplaceNothing(s, e); }
    }
    forall j | j in t.handlers ensures RequestNamed(t, t.handlers[j]) {
      if j == e.id {
        OwnRequestStaysNamed(s, e);
      } else if NoteOf(s, e).Some? {
        NotedRequestStaysNamed(s, e, j);
      } else {
        assert RequestNamed(s, s.handlers[j]);
      }
    }
    forall k ensures RecordNamed(t, k) {
      if NoteOf(s, e).Some? { NotedRecordStaysNamed(s, e, k); } else { assert RecordNamed(s, k); }
    }
  }

  lemma OverwritingUnnames(s: State, e: Event)
    requires Sound(s) && Named(s) && Overwrites(s, e)
    ensures !Named(Step(s, e))
  {
    var t := Step(s, e);
    NotedIsLive(s, e);
    NotesAreWritten(s, e);
    OnlyItsRequestMoves(s, e);
    var n := NoteOf(s, e).value;
    var k := s.handlers[e.id].Key();
    assert RecordNamed(s, k);
    if n.txHash != "" && n.txHash != s.records[k].txHash && HoldsId(s, k) {
      UnnamedId(s, t, k, e.id);
    } else {
      UnnamedHeight(s, t, k, e.id);
    }
  }

  lemma UnnamedId(s: State, t: State, k: string, writer: nat)
    requires Named(s) && k in s.births && k in s.records && k in t.records && t.records[k].txHash != s.records[k].txHash
    requires HoldsId(s, k) && t.births == s.births && t.log == s.log
    requires writer in s.handlers && !Owns(s, s.handlers[writer]) && s.handlers[writer].Key() == k
    requires forall j :: j in s.handlers && j != writer ==> j in t.handlers && t.handlers[j] == s.handlers[j]
    ensures !Named(t)
  {
    assert RecordNamed(s, k);
    if x :| x in s.log && x.Release? && x.birth == s.births[k] && x.family != Evm {
      assert !RecordNamed(t, k);
    } else {
      var j :| Runs(s, j, k, s.births[k]) && CommitsToId(s.handlers[j]);
      assert RequestNamed(s, s.handlers[j]) && !RequestNamed(t, t.handlers[j]);
    }
  }

  lemma UnnamedHeight(s: State, t: State, k: string, writer: nat)
    requires Named(s) && k in s.births && k in s.records && k in t.records
    requires t.records[k].lastValidBlockHeight != s.records[k].lastValidBlockHeight
    requires HoldsHeight(s, k) && t.births == s.births && t.log == s.log
    requires writer in s.handlers && !Owns(s, s.handlers[writer]) && s.handlers[writer].Key() == k
    requires forall j :: j in s.handlers && j != writer ==> j in t.handlers && t.handlers[j] == s.handlers[j]
    ensures !Named(t)
  {
    assert RecordNamed(s, k);
    if x :| x in s.log && x.Release? && x.birth == s.births[k] && x.family == Solana {
      assert !RecordNamed(t, k);
    } else {
      var j :| Runs(s, j, k, s.births[k]) && CommitsToHeight(s.handlers[j]);
      assert RequestNamed(s, s.handlers[j]) && !RequestNamed(t, t.handlers[j]);
    }
  }

  /** Names are kept by every step but such a write, and lost by every such write. */
  lemma NamesAreKeptIff(s: State, e: Event)
    requires Sound(s) && Named(s)
    ensures Named(Step(s, e)) <==> !Overwrites(s, e)
  {
    if Overwrites(s, e) {
      OverwritingUnnames(s, e);
    } else if e.Record? || e.Finish? {
      WritesKeepNames(s, e);
    } else {
      OthersKeepNames(s, e);
    }
  }

  // ---------------------------------------------------------------- whole runs

  ghost predicate NeverOverwritten(events: seq<Event>) {
    forall m :: 0 <= m < |events| ==> !Overwrites(At(events, m), events[m])
  }

  ghost predicate AlwaysNamed(events: seq<Event>) {
    forall m :: 0 <= m <= |events| ==> Named(At(events, m))
  }

  lemma {:induction false} NamedUpTo(events: seq<Event>, n: nat)
    requires n <= |events| && NeverOverwritten(events)
    ensures Named(At(events, n))
  {
    if n == 0 {
      assert At(events, 0) == INITIAL;
    } else {
      NamedUpTo(events, n - 1);
      NextAt(events, n - 1);
      RunsAreSound(events[..n - 1]);
      NamesAreKeptIff(At(events, n - 1), events[n - 1]);
    }
  }

  /** Every live record names its transaction throughout a run exactly when no step of it overwrites one. */
  lemma RunsStayNamedIff(events: seq<Event>)
    ensures AlwaysNamed(events) <==> NeverOverwritten(events)
  {
    if NeverOverwritten(events) {
      forall m | 0 <= m <= |events| ensures Named(At(events, m)) { NamedUpTo(events, m); }
    }
    if AlwaysNamed(events) {
      forall m | 0 <= m < |events| ensures !Overwrites(At(events, m), events[m]) {
        NextAt(events, m);
        RunsAreSound(events[..m]);
        NamesAreKeptIff(At(events, m), events[m]);
      }
    }
  }

  /**
   Whatever has left for a Tron or Solana transaction, the record of that lifetime names
   it for as long as the record lives, Solana with its expiry.
   */
  lemma RecordNamesWhatLeft(events: seq<Event>, x: Entry, k: string)
    requires NeverOverwritten(events)
    requires x in Run(events).log && x.Release? && x.family != Evm
    requires k in Run(events).births && Run(events).births[k] == x.birth
    ensures k in Run(events).records && Run(events).records[k].txHash == x.txHash
    ensures x.family == Solana ==> Run(events).records[k].lastValidBlockHeight == x.height
  {
    assert events[..|events|] == events;
    NamedUpTo(events, |events|);
    InOrderAt(events, |events|);
    assert RecordNamed(Run(events), k);
  }

  ghost predicate AboutToSend(s: State, id: nat) {
    id in s.handlers && s.handlers[id].phase.Signed? && s.handlers[id].family != Evm
  }

  lemma SendingReleases(s: State, id: nat)
    requires AboutToSend(s, id)
    ensures var h := s.handlers[id];
            Step(s, Send(id)).log == s.log + [Release(h.Key(), h.birth, h.family, h.phase.txHash, h.phase.height)]
  {
  }

  /** The live record of this lifetime names this transaction, Solana with its expiry. */
  predicate DurablyNamed(s: State, h: Handler, txHash: string, height: nat) {
    h.Key() in s.records && NamesTransaction(s.records[h.Key()], h.family, txHash, height)
  }

  lemma NamedBeforeSending(s: State, id: nat)
    requires Named(s) && AboutToSend(s, id) && Owns(s, s.handlers[id])
    ensures DurablyNamed(s, s.handlers[id], s.handlers[id].phase.txHash, s.handlers[id].phase.height)
  {
    assert RequestNamed(s, s.handlers[id]);
  }

  /** The record already names the transaction when its bytes leave, while it is still the request's own. */
  lemma RecordNamesBeforeSending(events: seq<Event>, id: nat)
    requires NeverOverwritten(events) && AboutToSend(Run(events), id)
    ensures var s := Run(events); var h := s.handlers[id];
            && Step(s, Send(id)).log == s.log + [Release(h.Key(), h.birth, h.family, h.phase.txHash, h.phase.height)]
            && (Owns(s, h) ==> DurablyNamed(s, h, h.phase.txHash, h.phase.height))
  {
    assert events[..|events|] == events;
    NamedUpTo(events, |events|);
    SendingReleases(Run(events), id);
    if Owns(Run(events), Run(events).handlers[id]) { NamedBeforeSending(Run(events), id); }
  }
}
