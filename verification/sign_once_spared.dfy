/**
 When pruning is harmless (internal/operation/store.go:96-130): the record of a request
 that can still write an id, or still write `failed`, has to survive it. Where it does,
 no record is ever overwritten or misreported; once it does not, some continuation does it.
 */
module SignOnceSpared {
  import opened Wrappers
  import opened OperationStore
  import opened SignOnce
  import opened SignOnceKeys
  import opened SignOnceRecord
  import opened SignOnceNames
  import opened SignOnceReplays

  /** What a request can still write under its key. */
  datatype Writing = AnId | AFailure

  predicate CanStillWrite(h: Handler, what: Writing) {
    match what
    case AnId => (
      match h.phase
      case Reserved => true
      case Announced(height) => height != 0
      case Withheld(txHash, height) => txHash != "" && height != 0
      case Named(txHash) => txHash != ""
      case Signed(txHash, _) => txHash != ""
      case Sent(txHash, _) => txHash != ""
      case Finishing(txHash, _) => txHash != "")
    case AFailure => h.phase.Finishing? ==> h.phase.status == Failed
  }

  /** The step forgets no record whose request can still write such a note. */
  predicate Spares(s: State, e: Event, what: Writing) {
    forall id :: id in s.handlers && CanStillWrite(s.handlers[id], what) ==> !Forgets(s, e, s.handlers[id].Key())
  }

  /** Pruning takes neither a young unresolved record nor anything of a file with room. */
  lemma YoungUnresolvedRecordsAreSpared(s: State, e: Event, what: Writing)
    requires |s.records| >= MAX_OPERATIONS && e.Begin? ==>
               forall id :: id in s.handlers && CanStillWrite(s.handlers[id], what)
                            && s.handlers[id].Key() in s.records ==>
                 !Droppable(s.records[s.handlers[id].Key()], e.now)
    ensures Spares(s, e, what)
  {
    forall id | id in s.handlers && CanStillWrite(s.handlers[id], what) ensures !Forgets(s, e, s.handlers[id].Key()) {
      if Forgets(s, e, s.handlers[id].Key()) { ForgottenWasDroppable(s, e, s.handlers[id].Key()); }
    }
  }

  predicate WritersOwn(s: State, what: Writing) {
    forall id :: id in s.handlers && CanStillWrite(s.handlers[id], what) ==> Owns(s, s.handlers[id])
  }

  predicate AlwaysSpares(events: seq<Event>, what: Writing) {
    forall m :: 0 <= m < |events| ==> Spares(At(events, m), events[m], what)
  }

  /** A request goes on as itself, and regains nothing it could not write. */
  predicate GoesOn(before: Handler, after: Handler, what: Writing) {
    after.(phase := before.phase) == before && (CanStillWrite(after, what) ==> CanStillWrite(before, what))
  }

  lemma RecordedGoesOn(s: State, e: Event, id: nat, what: Writing)
    requires e.Record? && id in RecordStep(s, e.id, e.txHash, e.now, e.write).handlers
    ensures id in s.handlers
    ensures GoesOn(s.handlers[id], RecordStep(s, e.id, e.txHash, e.now, e.write).handlers[id], what)
  {
    RecordMoves(s, e);
  }

  lemma SignedGoesOn(s: State, id: nat, txHash: string, j: nat, what: Writing)
    requires j in SignStep(s, id, txHash).handlers
    ensures j in s.handlers && GoesOn(s.handlers[j], SignStep(s, id, txHash).handlers[j], what)
  {
  }

  lemma AnsweredGoesOn(s: State, id: nat, answer: Answer, j: nat, what: Writing)
    requires j in ReceiveStep(s, id, answer).handlers
    ensures j in s.handlers && GoesOn(s.handlers[j], ReceiveStep(s, id, answer).handlers[j], what)
  {
  }

  lemma RequestsGoOn(s: State, e: Event, id: nat, what: Writing)
    requires !e.Begin? && id in Step(s, e).handlers
    ensures id in s.handlers && GoesOn(s.handlers[id], Step(s, e).handlers[id], what)
  {
    match e
    case Record(_, _, _, _) => RecordedGoesOn(s, e, id, what);
    case Announce(_, _) =>
    case Sign(signer, txHash) => SignedGoesOn(s, signer, txHash, id, what);
    case Refuse(_) =>
    case Send(_) =>
    case Deliver(_) =>
    case Receive(receiver, answer) => AnsweredGoesOn(s, receiver, answer, id, what);
    case Finish(_, _, _) =>
    case Poll(_, _, _, _, _) =>
    case Crash =>
  }

  lemma SparingKeepsWritersOwn(s: State, e: Event, what: Writing)
    requires OnceInvariant(s) && WritersOwn(s, what) && Spares(s, e, what)
    ensures WritersOwn(Step(s, e), what)
  {
    if e.Begin? {
      ReservingKeepsWritersOwn(s, e, what);
    } else {
      var t := Step(s, e);
      OnlyReservingChangesLifetimes(s, e);
      forall id | id in t.handlers && CanStillWrite(t.handlers[id], what) ensures Owns(t, t.handlers[id]) {
        RequestsGoOn(s, e, id, what);
        assert Owns(s, s.handlers[id]);
      }
    }
  }

  lemma ReservingKeepsWritersOwn(s: State, e: Event, what: Writing)
    requires e.Begin? && OnceInvariant(s) && WritersOwn(s, what) && Spares(s, e, what)
    ensures WritersOwn(BeginStep(s, e), what)
  {
    BeginReserves(s, e);
    var t := BeginStep(s, e);
    forall id | id in t.handlers && CanStillWrite(t.handlers[id], what) ensures Owns(t, t.handlers[id]) {
      if id in s.handlers && t.handlers[id] == s.handlers[id] {
        assert Owns(s, s.handlers[id]);
        RecordsLiveUntilForgotten(s, e, s.handlers[id].Key());
      }
    }
  }

  lemma {:induction false} WritersOwnUpTo(events: seq<Event>, n: nat, what: Writing)
    requires n <= |events| && AlwaysSpares(events, what)
    ensures WritersOwn(At(events, n), what)
  {
    if n == 0 {
      assert At(events, 0) == INITIAL;
    } else {
      WritersOwnUpTo(events, n - 1, what);
      NextAt(events, n - 1);
      InOrderAt(events, n - 1);
      SparingKeepsWritersOwn(At(events, n - 1), events[n - 1], what);
    }
  }

  lemma OnlyWritersOverwrite(s: State, e: Event)
    ensures WritersOwn(s, AnId) ==> !Overwrites(s, e)
    ensures WritersOwn(s, AFailure) ==> !Misreports(s, e)
  {
  }

  /** While pruning spares what can still be written, every record keeps naming its transaction. */
  lemma SparedRunsAreNeverOverwritten(events: seq<Event>)
    requires AlwaysSpares(events, AnId)
    ensures NeverOverwritten(events)
  {
    forall m | 0 <= m < |events| ensures !Overwrites(At(events, m), events[m]) {
      WritersOwnUpTo(events, m, AnId);
      OnlyWritersOverwrite(At(events, m), events[m]);
    }
  }

  lemma SparedRunsAreNeverMisreported(events: seq<Event>)
    requires AlwaysSpares(events, AFailure)
    ensures NeverMisreported(events)
  {
    forall m | 0 <= m < |events| ensures !Misreports(At(events, m), events[m]) {
      WritersOwnUpTo(events, m, AFailure);
      OnlyWritersOverwrite(At(events, m), events[m]);
    }
  }

  /** While pruning spares what can still be written, the record names what is about to leave. */
  lemma SparedRunsNameBeforeSending(events: seq<Event>, id: nat)
    requires AlwaysSpares(events, AnId) && AboutToSend(Run(events), id)
    ensures var s := Run(events); var h := s.handlers[id];
            Owns(s, h) && DurablyNamed(s, h, h.phase.txHash, h.phase.height)
  {
    assert events[..|events|] == events;
    SparedRunsAreNeverOverwritten(events);
    NamedUpTo(events, |events|);
    WritersOwnUpTo(events, |events|, AnId);
    RunsAreSound(events);
    RequestBefore(Run(events), id);
    NamedBeforeSending(Run(events), id);
  }
}
