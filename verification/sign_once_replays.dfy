/**
 What a repeat of a request is told (internal/httpapi/platform.go:1803-1830), and why a
 retry with a new key is safe advice: the old transaction was reported failed, or no node
 has its bytes and none ever will. A report may be the chain's own word on an execution or,
 for Solana, the wallet's verdict that the transaction expired; SolanaRetry judges that.
 */
module SignOnceReplays {
  import opened Wrappers
  import opened OperationStore
  import opened SignOnce
  import opened SignOnceKeys
  import opened SignOnceRecord
  import opened SignOnceNames

  datatype ReplayAnswer = ShowRecord | StillInProgress | RetryWithNewKey

  function AnswerReplay(status: Status): ReplayAnswer {
    if InFlight(status) then ShowRecord
    else if status == Building then StillInProgress
    else if status == Failed then RetryWithNewKey
    else ShowRecord
  }

  /** A repeat of this key's request is told to use a new key. */
  predicate AdvisesRetry(s: State, key: string) {
    key in s.records && AnswerReplay(s.records[key].status) == RetryWithNewKey
  }

  predicate NobodyRuns(s: State, birth: nat) {
    forall id :: id in s.handlers ==> s.handlers[id].birth != birth
  }

  /** A record says `failed` because that was reported, or once nobody is left to send its bytes. */
  predicate RecordAccounted(s: State, k: string) {
    k in s.records && k in s.births && s.records[k].status == Failed ==>
      s.births[k] in s.reported || (NeverTaken(s, s.births[k]) && NobodyRuns(s, s.births[k]))
  }

  ghost predicate Accounted(s: State) {
    forall k :: RecordAccounted(s, k)
  }

  /**
   A request whose own record was forgotten writes `failed` over the record now under its
   key, though that one's transaction is out or its request still runs.
   */
  predicate Misreports(s: State, e: Event) {
    match NoteOf(s, e)
    case None => false
    case Some(n) =>
      var k := s.handlers[n.id].Key();
      && !Owns(s, s.handlers[n.id]) && n.status == Failed && k in s.births && s.births[k] !in s.reported
      && !(NeverTaken(s, s.births[k]) && NobodyRuns(s, s.births[k]))
  }

  // ------------------------------------------------------ steps that write none

  /** A request moves and its bytes may leave; a record of its lifetime was reported if it says failed. */
  lemma MoveStaysAccounted(s: State, t: State, id: nat)
    requires Accounted(s) && id in s.handlers && t.records == s.records && t.births == s.births
    requires s.reported <= t.reported
    requires forall j :: j in t.handlers ==> j in s.handlers && t.handlers[j].birth == s.handlers[j].birth
    requires t.travelling <= s.travelling + {s.handlers[id].birth} && t.accepted <= s.accepted
    ensures Accounted(t)
  {
    forall k ensures RecordAccounted(t, k) { assert RecordAccounted(s, k); }
  }

  lemma PollStaysAccounted(s: State, txHash: string, status: Status, found: Option<string>, now: int, write: Write)
    requires Sound(s) && Accounted(s)
    ensures Accounted(PollStep(s, txHash, status, found, now, write))
  {
    var t := PollStep(s, txHash, status, found, now, write);
    PollOnlyReports(s, txHash, status, found, now, write);
    PollWritesReports(s, txHash, status, found, now, write);
    forall k ensures RecordAccounted(t, k) { assert RecordAccounted(s, k); }
  }

  lemma PollWritesReports(s: State, txHash: string, status: Status, found: Option<string>, now: int, write: Write)
    requires s.births.Keys == s.records.Keys
    ensures var t := PollStep(s, txHash, status, found, now, write);
            && t.records.Keys == s.records.Keys
            && forall k :: k in s.records && t.records[k].status == Failed ==>
                 s.records[k].status == Failed || (k in s.births && s.births[k] in t.reported)
  {
  }

  lemma NewcomersAreNobodyElse(s: State, e: Event, birth: nat)
    requires Reserves(s, e) && birth < |s.lifetimes| && NobodyRuns(s, birth)
    ensures NobodyRuns(BeginStep(s, e), birth)
  {
    BeginReserves(s, e);
  }

  lemma OldRecordsStay(s: State, e: Event, k: string)
    requires Reserves(s, e) && OnceInvariant(s) && k in BeginStep(s, e).records
    requires BeginStep(s, e).records[k].status == Failed
    ensures k in s.records && k in s.births && s.births[k] < |s.lifetimes| && s.records[k].status == Failed
    ensures k in BeginStep(s, e).births && BeginStep(s, e).births[k] == s.births[k]
  {
    BeginReserves(s, e);
    if k in s.births { assert Lifetime(s.lifetimes, s.births[k], k); }
  }

  lemma KeptStaysAccounted(s: State, e: Event, k: string)
    requires Reserves(s, e) && Sound(s) && RecordAccounted(s, k)
    ensures RecordAccounted(BeginStep(s, e), k)
  {
    var t := BeginStep(s, e);
    if k in t.records && k in t.births && t.records[k].status == Failed {
      OldRecordsStay(s, e, k);
      if NobodyRuns(s, s.births[k]) { NewcomersAreNobodyElse(s, e, s.births[k]); }
    }
  }

  lemma BeginStaysAccounted(s: State, e: Event)
    requires e.Begin? && Sound(s) && Accounted(s)
    ensures Accounted(BeginStep(s, e))
  {
    if Reserves(s, e) {
      forall k ensures RecordAccounted(BeginStep(s, e), k) {
        assert RecordAccounted(s, k);
        KeptStaysAccounted(s, e, k);
      }
    } else {
      BeginReserves(s, e);
    }
  }

  lemma DeliverStaysAccounted(s: State, birth: nat)
    requires Accounted(s)
    ensures Accounted(DeliverStep(s, birth))
  {
    forall k ensures RecordAccounted(DeliverStep(s, birth), k) { assert RecordAccounted(s, k); }
  }

  lemma CrashStaysAccounted(s: State)
    requires Accounted(s)
    ensures Accounted(s.(handlers := map[]))
  {
    forall k ensures RecordAccounted(s.(handlers := map[]), k) { assert RecordAccounted(s, k); }
  }

  lemma SignMoves(s: State, id: nat, txHash: string)
    ensures var t := SignStep(s, id, txHash);
            && t == s.(handlers := t.handlers, log := t.log) && t.handlers.Keys == s.handlers.Keys
            && forall j :: j in t.handlers ==> t.handlers[j].birth == s.handlers[j].birth
  {
  }

  lemma ReceiveMoves(s: State, id: nat, answer: Answer)
    ensures var t := ReceiveStep(s, id, answer);
            && t == s.(handlers := t.handlers, travelling := t.travelling, reported := t.reported)
            && t.travelling <= s.travelling && s.reported <= t.reported && t.handlers.Keys == s.handlers.Keys
            && forall j :: j in t.handlers ==> t.handlers[j].birth == s.handlers[j].birth
  {
  }

  lemma MovesStayAccounted(s: State, id: nat, height: nat, txHash: string, answer: Answer)
    requires Accounted(s) && id in s.handlers
    ensures Accounted(AnnounceStep(s, id, height)) && Accounted(RefuseStep(s, id)) && Accounted(SendStep(s, id))
    ensures Accounted(SignStep(s, id, txHash)) && Accounted(ReceiveStep(s, id, answer))
  {
    MoveStaysAccounted(s, AnnounceStep(s, id, height), id);
    MoveStaysAccounted(s, RefuseStep(s, id), id);
    MoveStaysAccounted(s, SendStep(s, id), id);
    SignMoves(s, id, txHash);
    MoveStaysAccounted(s, SignStep(s, id, txHash), id);
    ReceiveMoves(s, id, answer);
    MoveStaysAccounted(s, ReceiveStep(s, id, answer), id);
  }

  lemma OthersStayAccounted(s: State, e: Event)
    requires Sound(s) && Accounted(s) && !e.Record? && !e.Finish?
    ensures Accounted(Step(s, e))
  {
    match e
    case Begin(_, _, _, _, _, _, _, _) => BeginStaysAccounted(s, e);
    case Announce(id, height) => if id in s.handlers { MovesStayAccounted(s, id, height, "", Taken); }
    case Sign(id, txHash) => if id in s.handlers { MovesStayAccounted(s, id, 0, txHash, Taken); }
    case Refuse(id) => if id in s.handlers { MovesStayAccounted(s, id, 0, "", Taken); }
    case Send(id) => if id in s.handlers { MovesStayAccounted(s, id, 0, "", Taken); }
    case Deliver(birth) => DeliverStaysAccounted(s, birth);
    case Receive(id, answer) => if id in s.handlers { MovesStayAccounted(s, id, 0, "", answer); }
    case Poll(txHash, status, found, now, write) => PollStaysAccounted(s, txHash, status, found, now, write);
    case Crash => CrashStaysAccounted(s);
  }

  // ---------------------------------------------------------- steps that write

  lemma WritersKeepTheirLifetimes(s: State, e: Event)
    requires e.Record? || e.Finish?
    ensures forall j :: j in Step(s, e).handlers ==>
              j in s.handlers && Step(s, e).handlers[j].birth == s.handlers[j].birth
    ensures e.Finish? && NoteOf(s, e).Some? ==> Step(s, e).handlers == s.handlers - {e.id}
    ensures NoteOf(s, e).Some? && NoteOf(s, e).value.status == Failed ==> e.Finish? && s.handlers[e.id].phase.Finishing?
  {
  }

  lemma NotedRecordStaysAccounted(s: State, e: Event, k: string)
    requires Sound(s) && Accounted(s) && (e.Record? || e.Finish?) && NoteOf(s, e).Some? && !Misreports(s, e)
    requires e.id in s.handlers && k == s.handlers[e.id].Key()
    ensures RecordAccounted(Step(s, e), k)
  {
    NotedIsLive(s, e);
    NotesAreWritten(s, e);
    WritersKeepTheirLifetimes(s, e);
    assert RecordAccounted(s, k);
    if NoteOf(s, e).value.status == Failed { RequestBefore(s, e.id); }
  }

  lemma WritesStayAccounted(s: State, e: Event)
    requires Sound(s) && Accounted(s) && (e.Record? || e.Finish?) && !Misreports(s, e)
    ensures Accounted(Step(s, e))
  {
    NotesAreWritten(s, e);
    WritersKeepTheirLifetimes(s, e);
    forall k ensures RecordAccounted(Step(s, e), k) {
      if NoteOf(s, e).Some? && e.id in s.handlers && k == s.handlers[e.id].Key() {
        NotedRecordStaysAccounted(s, e, k);
      } else {
        assert RecordAccounted(s, k);
      }
    }
  }

  lemma MisreportingIsUnaccounted(s: State, e: Event)
    requires Sound(s) && Misreports(s, e)
    ensures !Accounted(Step(s, e))
  {
    var t := Step(s, e);
    NotedIsLive(s, e);
    NotesAreWritten(s, e);
    WritersKeepTheirLifetimes(s, e);
    var k := s.handlers[e.id].Key();
    if !NobodyRuns(s, s.births[k]) {
      var id :| id in s.handlers && s.handlers[id].birth == s.births[k];
      assert id != e.id && id in t.handlers;
    }
    assert !RecordAccounted(t, k);
  }

  /** `failed` stays accounted for by every step but such a write, and by no such write. */
  lemma AccountsAreKeptIff(s: State, e: Event)
    requires Sound(s) && Accounted(s)
    ensures Accounted(Step(s, e)) <==> !Misreports(s, e)
  {
    if Misreports(s, e) {
      MisreportingIsUnaccounted(s, e);
    } else if e.Record? || e.Finish? {
      WritesStayAccounted(s, e);
    } else {
      OthersStayAccounted(s, e);
    }
  }

  // ---------------------------------------------------------------- whole runs

  predicate NeverMisreported(events: seq<Event>) {
    forall m :: 0 <= m < |events| ==> !Misreports(At(events, m), events[m])
  }

  ghost predicate AlwaysAccounted(events: seq<Event>) {
    forall m :: 0 <= m <= |events| ==> Accounted(At(events, m))
  }

  lemma {:induction false} AccountedUpTo(events: seq<Event>, n: nat)
    requires n <= |events| && NeverMisreported(events)
    ensures Accounted(At(events, n))
  {
    if n == 0 {
      assert At(events, 0) == INITIAL;
    } else {
      AccountedUpTo(events, n - 1);
      NextAt(events, n - 1);
      RunsAreSound(events[..n - 1]);
      AccountsAreKeptIff(At(events, n - 1), events[n - 1]);
    }
  }

  /** `failed` is accounted for throughout a run exactly when no step of it misreports. */
  lemma RunsStayAccountedIff(events: seq<Event>)
    ensures AlwaysAccounted(events) <==> NeverMisreported(events)
  {
    if NeverMisreported(events) {
      forall m | 0 <= m <= |events| ensures Accounted(At(events, m)) { AccountedUpTo(events, m); }
    }
    if AlwaysAccounted(events) {
      forall m | 0 <= m < |events| ensures !Misreports(At(events, m), events[m]) {
        NextAt(events, m);
        RunsAreSound(events[..m]);
        AccountsAreKeptIff(At(events, m), events[m]);
      }
    }
  }

  /** No node has the bytes of this lifetime, and nobody is left to send them. */
  predicate Settled(s: State, birth: nat) {
    birth < |s.lifetimes| && NeverTaken(s, birth) && NobodyRuns(s, birth)
  }

  lemma SettledStaysSettled(s: State, e: Event, birth: nat)
    requires Settled(s, birth)
    ensures Settled(Step(s, e), birth)
  {
  }

  lemma {:induction false} SettledForever(s: State, more: seq<Event>, birth: nat)
    requires Settled(s, birth)
    ensures Settled(After(s, more), birth)
    decreases |more|
  {
    if more == [] {
    } else {
      SettledStaysSettled(s, more[0], birth);
      SettledForever(Step(s, more[0]), more[1..], birth);
    }
  }

  /**
   A replay is told to use a new key only when the old transaction was reported failed, or
   when no node took it and none ever will, whatever happens next.
   */
  lemma RetryAdviceIsSafe(events: seq<Event>, more: seq<Event>, key: string)
    requires NeverMisreported(events) && AdvisesRetry(Run(events), key)
    ensures key in Run(events).births
    ensures Run(events).births[key] in Run(events).reported
            || NeverTaken(After(Run(events), more), Run(events).births[key])
  {
    var s := Run(events);
    assert events[..|events|] == events;
    AccountedUpTo(events, |events|);
    InOrderAt(events, |events|);
    assert RecordAccounted(s, key);
    if s.births[key] !in s.reported { SettledForever(s, more, s.births[key]); }
  }
}
