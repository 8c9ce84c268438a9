/**
 What the durable record says about the transaction of its lifetime
 (internal/httpapi/platform.go, internal/operation/store.go): which id it names, when a
 write by another lifetime's request spoils that, and what a repeat is told.
 */
module SignOnceRecord {
  import opened Wrappers
  import opened OperationStore
  import opened SignOnce
  import opened SignOnceKeys

  /** The record under the request's key is still the one it reserved. */
  predicate Owns(s: State, h: Handler) {
    h.Key() in s.births && s.births[h.Key()] == h.birth
  }

  // -------------------------------------------------- what holds in every run

  predicate PhaseFits(h: Handler) {
    match h.phase
    case Named(txHash) => h.family == Tron && txHash != ""
    case Withheld(_, _) | Announced(_) => h.family == Solana
    case Signed(txHash, _) => h.family != Evm ==> txHash != ""
    case Sent(txHash, _) => h.family != Evm ==> txHash != ""
    case _ => true
  }

  /** No node has the bytes of this lifetime or will. */
  predicate NeverTaken(s: State, birth: nat) {
    birth !in s.travelling && birth !in s.accepted
  }

  /** `failed` without a report of it means no node has the bytes or will. */
  predicate PhaseAccounted(s: State, h: Handler) {
    match h.phase
    case Finishing(_, status) => status == Failed ==> h.birth in s.reported || NeverTaken(s, h.birth)
    case Sent(_, _) => true
    case _ => NeverTaken(s, h.birth)
  }

  ghost predicate ReleasedBy(log: seq<Entry>, birth: nat, family: Family) {
    forall x :: x in log && x.Release? && x.birth == birth ==> x.family == family
  }

  ghost predicate RequestSound(s: State, h: Handler) {
    PhaseFits(h) && PhaseAccounted(s, h) && ReleasedBy(s.log, h.birth, h.family)
  }

  ghost predicate TakenWasReleased(s: State, birth: nat) {
    birth in s.travelling || birth in s.accepted ==> !NoRelease(s.log, birth)
  }

  ghost predicate Sound(s: State) {
    && OnceInvariant(s)
    && (forall id :: id in s.handlers ==> RequestSound(s, s.handlers[id]))
    && (forall b :: TakenWasReleased(s, b))
  }

  ghost predicate SameBut(a: set<nat>, b: set<nat>, birth: nat) {
    forall x :: x != birth ==> (x in a <==> x in b)
  }

  /** The step concerns one running request's lifetime, and may write its record's key. */
  ghost predicate LocalTo(s: State, t: State, id: nat)
    requires id in s.handlers
  {
    var h := s.handlers[id];
    && t.births == s.births && t.lifetimes == s.lifetimes && t.records.Keys == s.records.Keys
    && (forall k :: k in s.records && k != h.Key() ==> t.records[k] == s.records[k])
    && (forall j :: j in t.handlers && j != id ==> j in s.handlers && t.handlers[j] == s.handlers[j])
    && (forall j :: j in s.handlers && j != id ==> j in t.handlers)
    && SameBut(t.travelling, s.travelling, h.birth)
    && SameBut(t.accepted, s.accepted, h.birth)
    && SameBut(t.reported, s.reported, h.birth)
    && (t.log == s.log || exists x: Entry :: x.birth == h.birth && t.log == s.log + [x])
  }

  lemma LogOfOthersIsUnchanged(s: State, t: State, id: nat, x: Entry)
    requires id in s.handlers && LocalTo(s, t, id) && x.birth != s.handlers[id].birth
    ensures x in t.log <==> x in s.log
  {
  }

  lemma OtherRequestsStaySound(s: State, t: State, id: nat, j: nat)
    requires Sound(s) && id in s.handlers && LocalTo(s, t, id) && j in t.handlers && j != id
    ensures RequestSound(t, t.handlers[j])
  {
    assert RequestSound(s, s.handlers[j]) && s.handlers[j].birth != s.handlers[id].birth;
  }

  lemma OtherReleasesStay(s: State, t: State, id: nat, b: nat)
    requires id in s.handlers && LocalTo(s, t, id)
    requires b != s.handlers[id].birth && TakenWasReleased(s, b)
    ensures TakenWasReleased(t, b)
  {
    if b in t.travelling || b in t.accepted {
      var x :| x in s.log && x.Release? && x.birth == b;
      LogOfOthersIsUnchanged(s, t, id, x);
    }
  }

  /** What is left to show of a local step is about its own request. */
  lemma LocalStepStaysSound(s: State, t: State, id: nat)
    requires Sound(s) && OnceInvariant(t) && id in s.handlers && LocalTo(s, t, id)
    requires id in t.handlers ==> RequestSound(t, t.handlers[id])
    requires TakenWasReleased(t, s.handlers[id].birth)
    ensures Sound(t)
  {
    forall j | j in t.handlers ensures RequestSound(t, t.handlers[j]) {
      if j != id { OtherRequestsStaySound(s, t, id, j); }
    }
    forall b ensures TakenWasReleased(t, b) {
      if b != s.handlers[id].birth { OtherReleasesStay(s, t, id, b); }
    }
  }

  lemma RequestBefore(s: State, id: nat)
    requires Sound(s) && id in s.handlers
    ensures RequestSound(s, s.handlers[id]) && PhaseMatchesLog(s.handlers[id], s.log)
    ensures TakenWasReleased(s, s.handlers[id].birth)
    ensures Lifetime(s.lifetimes, s.handlers[id].birth, s.handlers[id].Key())
  {
  }

  /** A request moves on: perhaps its record's key is written, perhaps it leaves the list. */
  lemma MoveStaysSound(s: State, t: State, id: nat)
    requires Sound(s) && OnceInvariant(t) && id in s.handlers && LocalTo(s, t, id)
    requires t == s.(records := t.records, handlers := t.handlers)
    requires id in t.handlers ==> t.handlers[id].(phase := s.handlers[id].phase) == s.handlers[id]
                                  && PhaseFits(t.handlers[id]) && PhaseAccounted(t, t.handlers[id])
    ensures Sound(t)
  {
    RequestBefore(s, id);
    LocalStepStaysSound(s, t, id);
  }

  lemma AnnounceStaysSound(s: State, id: nat, height: nat)
    requires Sound(s)
    ensures Sound(AnnounceStep(s, id, height))
  {
    var t := AnnounceStep(s, id, height);
    AnnouncingKeepsOnce(s, id, height);
    if t != s {
      RequestBefore(s, id);
      MoveStaysSound(s, t, id);
    }
  }

  lemma RefuseStaysSound(s: State, id: nat)
    requires Sound(s)
    ensures Sound(RefuseStep(s, id))
  {
    var t := RefuseStep(s, id);
    RefusingKeepsOnce(s, id);
    if t != s {
      RequestBefore(s, id);
      MoveStaysSound(s, t, id);
    }
  }

  lemma RecordStaysSound(s: State, id: nat, txHash: string, now: int, write: Write)
    requires Sound(s)
    ensures Sound(RecordStep(s, id, txHash, now, write))
  {
    if id !in s.handlers {
    } else if s.handlers[id].family == Tron && s.handlers[id].phase == Reserved && txHash != "" {
      DigestStaysSound(s, id, txHash, now, write);
    } else if s.handlers[id].phase.Withheld? {
      SignatureStaysSound(s, id, now, write);
    }
  }

  lemma DigestIsLocal(s: State, id: nat, txHash: string, now: int, write: Write)
    requires id in s.handlers
    ensures LocalTo(s, RecordDigest(s, id, txHash, now, write), id)
  {
  }

  lemma DigestStaysSound(s: State, id: nat, txHash: string, now: int, write: Write)
    requires Sound(s) && id in s.handlers
    requires s.handlers[id].family == Tron && s.handlers[id].phase == Reserved && txHash != ""
    ensures Sound(RecordDigest(s, id, txHash, now, write))
  {
    RecordingDigestKeepsOnce(s, id, txHash, now, write);
    RequestBefore(s, id);
    DigestIsLocal(s, id, txHash, now, write);
    MoveStaysSound(s, RecordDigest(s, id, txHash, now, write), id);
  }

  lemma SignatureIsLocal(s: State, id: nat, now: int, write: Write)
    requires id in s.handlers && s.handlers[id].phase.Withheld?
    ensures LocalTo(s, RecordSignature(s, id, now, write), id)
  {
  }

  lemma SignatureStaysSound(s: State, id: nat, now: int, write: Write)
    requires Sound(s) && id in s.handlers && s.handlers[id].phase.Withheld?
    ensures Sound(RecordSignature(s, id, now, write))
  {
    RecordingSignatureKeepsOnce(s, id, now, write);
    RequestBefore(s, id);
    SignatureIsLocal(s, id, now, write);
    MoveStaysSound(s, RecordSignature(s, id, now, write), id);
  }

  lemma FinishStaysSound(s: State, id: nat, now: int, write: Write)
    requires Sound(s)
    ensures Sound(FinishStep(s, id, now, write))
  {
    var t := FinishStep(s, id, now, write);
    FinishingKeepsOnce(s, id, now, write);
    if t != s {
      RequestBefore(s, id);
      MoveStaysSound(s, t, id);
    }
  }

  /** Signing and sending: one entry is added for a request whose bytes have not left. */
  lemma LoggingStaysSound(s: State, t: State, id: nat, phase: Phase, x: Entry)
    requires Sound(s) && OnceInvariant(t) && id in s.handlers
    requires NoRelease(s.log, s.handlers[id].birth) && x.birth == s.handlers[id].birth
    requires t == Move(s, id, phase).(log := s.log + [x], travelling := t.travelling)
    requires SameBut(t.travelling, s.travelling, x.birth) && !phase.Finishing? && PhaseFits(t.handlers[id])
    requires !s.handlers[id].phase.Finishing? && !s.handlers[id].phase.Sent?
    requires if x.Release? then phase.Sent? && x.family == s.handlers[id].family else t.travelling == s.travelling
    ensures Sound(t)
  {
    RequestBefore(s, id);
    assert x in t.log && forall y :: y in t.log <==> y in s.log || y == x;
    LocalStepStaysSound(s, t, id);
  }

  lemma SignStaysSound(s: State, id: nat, txHash: string)
    requires Sound(s)
    ensures Sound(SignStep(s, id, txHash))
  {
    var t := SignStep(s, id, txHash);
    SigningKeepsOnce(s, id, txHash);
    if t != s {
      RequestBefore(s, id);
      LoggingStaysSound(s, t, id, t.handlers[id].phase, t.log[|s.log|]);
    }
  }

  lemma SendStaysSound(s: State, id: nat)
    requires Sound(s)
    ensures Sound(SendStep(s, id))
  {
    var t := SendStep(s, id);
    SendingKeepsOnce(s, id);
    if t != s {
      RequestBefore(s, id);
      LoggingStaysSound(s, t, id, t.handlers[id].phase, t.log[|s.log|]);
    }
  }

  /** The broadcast is classified: `failed` only with the bytes nowhere, or reported so. */
  lemma ClassifyStaysSound(s: State, t: State, id: nat, status: Status)
    requires Sound(s) && OnceInvariant(t) && id in s.handlers && s.handlers[id].phase.Sent?
    requires t == Move(s, id, Finishing(s.handlers[id].phase.txHash, status))
                    .(travelling := t.travelling, reported := t.reported)
    requires t.travelling <= s.travelling && SameBut(t.travelling, s.travelling, s.handlers[id].birth)
    requires s.reported <= t.reported && SameBut(t.reported, s.reported, s.handlers[id].birth)
    requires status == Failed ==> s.handlers[id].birth in t.reported || NeverTaken(t, s.handlers[id].birth)
    ensures Sound(t)
  {
    RequestBefore(s, id);
    LocalStepStaysSound(s, t, id);
  }

  lemma ReceiveStaysSound(s: State, id: nat, answer: Answer)
    requires Sound(s)
    ensures Sound(ReceiveStep(s, id, answer))
  {
    var t := ReceiveStep(s, id, answer);
    ReceivingKeepsOnce(s, id, answer);
    if t != s { ClassifyStaysSound(s, t, id, t.handlers[id].phase.status); }
  }

  lemma DeliverStaysSound(s: State, birth: nat)
    requires Sound(s)
    ensures Sound(DeliverStep(s, birth))
  {
    var t := DeliverStep(s, birth);
    if t != s {
      forall id | id in t.handlers ensures RequestSound(t, t.handlers[id]) { assert RequestSound(s, s.handlers[id]); }
      forall b ensures TakenWasReleased(t, b) { assert TakenWasReleased(s, b); }
    }
  }

  lemma PollStaysSound(s: State, txHash: string, status: Status, found: Option<string>, now: int, write: Write)
    requires Sound(s)
    ensures Sound(PollStep(s, txHash, status, found, now, write))
  {
    var t := PollStep(s, txHash, status, found, now, write);
    PollingKeepsOnce(s, txHash, status, found, now, write);
    PollOnlyReports(s, txHash, status, found, now, write);
    forall id | id in t.handlers ensures RequestSound(t, t.handlers[id]) { assert RequestSound(s, s.handlers[id]); }
    forall b ensures TakenWasReleased(t, b) { assert TakenWasReleased(s, b); }
  }

  lemma PollOnlyReports(s: State, txHash: string, status: Status, found: Option<string>, now: int, write: Write)
    ensures var t := PollStep(s, txHash, status, found, now, write);
            t == s.(records := t.records, reported := t.reported) && s.reported <= t.reported
  {
  }

  /** What is newly reported: the lifetime a lookup found, or one whose execution was the answer. */
  lemma NewReports(s: State, e: Event, b: nat)
    requires b in Step(s, e).reported && b !in s.reported
    ensures (e.Poll? && e.status == Failed && e.found.Some? && Names(s.records, e.txHash, e.found.value)
             && e.found.value in s.births && b == s.births[e.found.value])
            || (e.Receive? && e.answer.Executed? && e.id in s.handlers && b == s.handlers[e.id].birth)
  {
  }

  lemma CrashStaysSound(s: State)
    requires Sound(s)
    ensures Sound(s.(handlers := map[]))
  {
    var t := s.(handlers := map[]);
    CrashingKeepsOnce(s);
    forall b ensures TakenWasReleased(t, b) { assert TakenWasReleased(s, b); }
  }

  lemma BeginStaysSound(s: State, e: Event)
    requires e.Begin? && Sound(s)
    ensures Sound(BeginStep(s, e))
  {
    var t := BeginStep(s, e);
    BeginningKeepsOnce(s, e);
    BeginReserves(s, e);
    if Reserves(s, e) {
      assert TakenWasReleased(s, |s.lifetimes|);
      NothingIsKnownOfTheNext(s);
      forall id | id in t.handlers ensures RequestSound(t, t.handlers[id]) {
        if id in s.handlers && t.handlers[id] == s.handlers[id] { assert RequestSound(s, s.handlers[id]); }
      }
      forall b ensures TakenWasReleased(t, b) { assert TakenWasReleased(s, b); }
    }
  }

  lemma NothingIsKnownOfTheNext(s: State)
    requires Sound(s)
    ensures NoRelease(s.log, |s.lifetimes|) && NeverTaken(s, |s.lifetimes|)
  {
    assert forall x :: x in s.log ==> x.birth < |s.lifetimes|;
    assert TakenWasReleased(s, |s.lifetimes|);
  }

  lemma StepStaysSound(s: State, e: Event)
    requires Sound(s)
    ensures Sound(Step(s, e))
  {
    match e
    case Begin(_, _, _, _, _, _, _, _) => BeginStaysSound(s, e);
    case Announce(id, height) => AnnounceStaysSound(s, id, height);
    case Record(id, txHash, now, write) => RecordStaysSound(s, id, txHash, now, write);
    case Sign(id, txHash) => SignStaysSound(s, id, txHash);
    case Refuse(id) => RefuseStaysSound(s, id);
    case Send(id) => SendStaysSound(s, id);
    case Deliver(birth) => DeliverStaysSound(s, birth);
    case Receive(id, answer) => ReceiveStaysSound(s, id, answer);
    case Finish(id, now, write) => FinishStaysSound(s, id, now, write);
    case Poll(txHash, status, found, now, write) => PollStaysSound(s, txHash, status, found, now, write);
    case Crash => CrashStaysSound(s);
  }

  lemma {:induction false} RunsAreSound(events: seq<Event>)
    ensures Sound(Run(events))
  {
    if events == [] {
      assert Sound(INITIAL);
    } else {
      RunsAreSound(events[..|events| - 1]);
      StepStaysSound(Run(events[..|events| - 1]), events[|events| - 1]);
    }
  }
}
