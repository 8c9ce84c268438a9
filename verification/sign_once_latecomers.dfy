/**
 Why pruning has to spare what can still be written: once the record of such a request is
 forgotten, its key can be reserved and sent again, and the first request can then finish
 over the second one's record, with its own id or with `failed`.
 */
module SignOnceLatecomers {
  import opened Wrappers
  import opened OperationStore
  import opened SignOnce
  import opened SignOnceKeys
  import opened SignOnceRecord
  import opened SignOnceNames
  import opened SignOnceReplays
  import opened SignOnceSpared

  /** A transaction left for the record under the key, and the record names another. */
  ghost predicate LostItsTransaction(s: State, key: string) {
    && key in s.births && key in s.records
    && exists x :: x in s.log && x.Release? && x.family != Evm && x.birth == s.births[key]
                   && s.records[key].txHash != x.txHash
  }

  /** A repeat is told to use a new key, though a node has the transaction and nobody called it failed. */
  predicate MisleadsTheRepeat(s: State, key: string) {
    && AdvisesRetry(s, key)
    && key in s.births && s.births[key] in s.accepted && s.births[key] !in s.reported
  }

  // ------------------------------------------------------ what holds in all runs

  predicate ReportsKnown(s: State) {
    forall b :: b in s.reported ==> b < |s.lifetimes|
  }

  lemma ReportsStayKnown(s: State, e: Event)
    requires OnceInvariant(s) && ReportsKnown(s)
    ensures ReportsKnown(Step(s, e))
  {
    LifetimesOnlyGrow(s, e);
    forall b | b in Step(s, e).reported ensures b < |s.lifetimes| {
      if b !in s.reported {
        NewReports(s, e, b);
        if e.Poll? {
          assert Lifetime(s.lifetimes, b, e.found.value);
        } else {
          assert Lifetime(s.lifetimes, b, s.handlers[e.id].Key());
        }
      }
    }
  }

  lemma {:induction false} OnlyLifetimesAreReported(events: seq<Event>)
    ensures ReportsKnown(Run(events))
  {
    if events == [] {
    } else {
      OnlyLifetimesAreReported(events[..|events| - 1]);
      AtMostOneTransactionPerRecord(events[..|events| - 1]);
      ReportsStayKnown(Run(events[..|events| - 1]), events[|events| - 1]);
    }
  }

  /** A request's key was acceptable and normalized when it was reserved. */
  lemma KeysAreAcceptable(events: seq<Event>, id: nat)
    requires id in Run(events).handlers
    ensures AcceptableKey(Run(events).handlers[id].Key())
    ensures NormalizeKey(Run(events).handlers[id].Key()) == Run(events).handlers[id].Key()
  {
    AtMostOneTransactionPerRecord(events);
    var h := Run(events).handlers[id];
    assert events[..|events|] == events;
    var q := EveryLifetimeWasReserved(events, |events|, h.birth);
    NormalizeKeyIsStable(h.rawKey);
  }

  // -------------------------------------------------- the key is sent out again

  lemma {:induction false} RoomInTime(records: Records) returns (now: int)
    ensures forall k :: k in records ==> now - records[k].updatedAt >= RETENTION
    decreases |records|
  {
    if records == map[] {
      now := 0;
    } else {
      var k :| k in records;
      var rest := RoomInTime(records - {k});
      assert forall j :: j in records ==> j == k || j in records - {k};
      now := if rest - records[k].updatedAt >= RETENTION then rest else records[k].updatedAt + RETENTION;
    }
  }

  lemma {:induction false} FreshId(handlers: map<nat, Handler>) returns (n: nat)
    ensures forall id :: id in handlers ==> id < n
    decreases |handlers|
  {
    if handlers == map[] {
      n := 0;
    } else {
      var id :| id in handlers;
      var rest := FreshId(handlers - {id});
      assert forall j :: j in handlers ==> j == id || j in handlers - {id};
      n := if id < rest then rest else id + 1;
    }
  }

  /** Request n of the key has come to the phase, and the latecomer still waits. */
  predicate Waits(s: State, n: nat, key: string, birth: nat, phase: Phase, id: nat, late: Handler) {
    && n in s.handlers && s.handlers[n] == Handler(Tron, key, birth, phase)
    && id in s.handlers && s.handlers[id] == late && id != n
    && key in s.records && key in s.births && s.births[key] == birth && birth !in s.reported
  }

  lemma ReservesAgain(s: State, key: string, id: nat) returns (e: Event, n: nat)
    requires AcceptableKey(key) && NormalizeKey(key) == key && key !in s.records
    requires id in s.handlers && ReportsKnown(s)
    ensures Waits(Step(s, e), n, key, |s.lifetimes|, Reserved, id, s.handlers[id])
  {
    var now := RoomInTime(s.records);
    n := FreshId(s.handlers);
    assert Live(s.records, now) == {};
    PruneIsPossibleIff(s.records, now);
    var kept :| Pruned(s.records, now, kept);
    e := Event.Begin(n, Tron, key, "", "", now, kept, Written);
    BeginReserves(s, e);
  }

  lemma RecordsAgain(s: State, n: nat, key: string, birth: nat, txHash: string, id: nat, late: Handler)
    requires Waits(s, n, key, birth, Reserved, id, late) && txHash != "" && NormalizeKey(key) == key
    ensures Waits(Step(s, Record(n, txHash, 0, Written)), n, key, birth, Phase.Named(txHash), id, late)
  {
  }

  lemma SignsAgain(s: State, n: nat, key: string, birth: nat, txHash: string, id: nat, late: Handler)
    requires Waits(s, n, key, birth, Phase.Named(txHash), id, late)
    ensures Waits(Step(s, Sign(n, "")), n, key, birth, Signed(txHash, 0), id, late)
  {
  }

  lemma SendsAgain(s: State, n: nat, key: string, birth: nat, txHash: string, id: nat, late: Handler)
    requires Waits(s, n, key, birth, Signed(txHash, 0), id, late) && NormalizeKey(key) == key
    ensures var t := Step(Step(s, Send(n)), Deliver(birth));
            && Waits(t, n, key, birth, Sent(txHash, 0), id, late)
            && Release(key, birth, Tron, txHash, 0) in t.log && birth in t.accepted
  {
    var t := Step(s, Send(n));
    assert Release(key, birth, Tron, txHash, 0) in t.log && birth in t.travelling;
  }

  /** A key without a record can be reserved, signed for and sent. */
  lemma KeyGoesOutAgain(s: State, key: string, txHash: string, id: nat) returns (more: seq<Event>, n: nat)
    requires AcceptableKey(key) && NormalizeKey(key) == key && key !in s.records && txHash != ""
    requires id in s.handlers && ReportsKnown(s)
    ensures var t, birth := After(s, more), |s.lifetimes|;
            && Waits(t, n, key, birth, Sent(txHash, 0), id, s.handlers[id])
            && Release(key, birth, Tron, txHash, 0) in t.log && birth in t.accepted
  {
    var birth, late := |s.lifetimes|, s.handlers[id];
    var e;
    e, n := ReservesAgain(s, key, id);
    AfterOneMore(s, [], e);
    RecordsAgain(Step(s, e), n, key, birth, txHash, id, late);
    AfterOneMore(s, [e], Record(n, txHash, 0, Written));
    more := [e] + [Record(n, txHash, 0, Written)];
    SignsAgain(After(s, more), n, key, birth, txHash, id, late);
    AfterOneMore(s, more, Sign(n, ""));
    more := more + [Sign(n, "")];
    SendsAgain(After(s, more), n, key, birth, txHash, id, late);
    AfterOneMore(s, more, Send(n));
    AfterOneMore(s, more + [Send(n)], Deliver(birth));
    more := more + [Send(n)] + [Deliver(birth)];
  }

  // ------------------------------------------------------- the latecomer finishes

  /** The request can end with this id written under its key. */
  predicate CanWriteId(h: Handler, txHash: string) {
    && CanStillWrite(h, AnId) && txHash != ""
    && match h.phase
       case Reserved | Announced(_) => true
       case Withheld(own, _) => own == txHash
       case Named(own) => own == txHash
       case Signed(own, _) => own == txHash
       case Sent(own, _) => own == txHash
       case Finishing(own, _) => own == txHash
  }

  function Remaining(phase: Phase): nat {
    match phase
    case Reserved => 6
    case Announced(_) => 5
    case Withheld(_, _) => 4
    case Named(_) => 4
    case Signed(_, _) => 3
    case Sent(_, _) => 2
    case Finishing(_, _) => 1
  }

  function NextOf(id: nat, h: Handler, txHash: string): Event {
    match h.phase
    case Reserved =>
      if h.family == Tron then Record(id, txHash, 0, Written)
      else if h.family == Solana then Announce(id, 1)
      else Sign(id, txHash)
    case Announced(_) => Sign(id, txHash)
    case Withheld(_, _) => Record(id, txHash, 0, Written)
    case Named(_) => Sign(id, txHash)
    case Signed(_, _) => Send(id)
    case Sent(_, _) => Receive(id, AnswerLost)
    case Finishing(_, _) => Finish(id, 0, Written)
  }

  /** Nothing is forgotten: records, lifetimes and history go on. */
  predicate Continues(s: State, t: State) {
    t.records.Keys == s.records.Keys && t.births == s.births && s.log <= t.log
  }

  /** The request has come closer to writing its id. */
  predicate Closer(s: State, t: State, id: nat, txHash: string)
    requires id in s.handlers
  {
    var h := s.handlers[id];
    && Continues(s, t) && id in t.handlers && t.handlers[id].(phase := h.phase) == h
    && CanWriteId(t.handlers[id], txHash) && Remaining(t.handlers[id].phase) < Remaining(h.phase)
  }

  lemma RecordingIsCloser(s: State, id: nat, txHash: string)
    requires id in s.handlers && CanWriteId(s.handlers[id], txHash) && s.handlers[id].Key() in s.records
    requires s.handlers[id].phase.Withheld? || (s.handlers[id].family == Tron && s.handlers[id].phase == Reserved)
    ensures Closer(s, RecordStep(s, id, txHash, 0, Written), id, txHash)
  {
  }

  lemma SigningIsCloser(s: State, id: nat, txHash: string)
    requires id in s.handlers && CanWriteId(s.handlers[id], txHash)
    requires s.handlers[id].phase.Named? || s.handlers[id].phase.Announced?
             || (s.handlers[id].family == Evm && s.handlers[id].phase == Reserved)
    ensures Closer(s, SignStep(s, id, txHash), id, txHash)
  {
  }

  lemma GettingAnswersIsCloser(s: State, id: nat, txHash: string)
    requires id in s.handlers && CanWriteId(s.handlers[id], txHash)
    ensures s.handlers[id].phase.Sent? ==> Closer(s, ReceiveStep(s, id, AnswerLost), id, txHash)
    ensures s.handlers[id].phase.Signed? ==> Closer(s, SendStep(s, id), id, txHash)
    ensures s.handlers[id].family == Solana && s.handlers[id].phase == Reserved ==>
              Closer(s, AnnounceStep(s, id, 1), id, txHash)
  {
  }

  lemma OneStepFurther(s: State, id: nat, txHash: string)
    requires id in s.handlers && CanWriteId(s.handlers[id], txHash) && !s.handlers[id].phase.Finishing?
    requires s.handlers[id].Key() in s.records
    ensures Closer(s, Step(s, NextOf(id, s.handlers[id], txHash)), id, txHash)
  {
    match NextOf(id, s.handlers[id], txHash)
    case Record(_, _, _, _) => RecordingIsCloser(s, id, txHash);
    case Sign(_, _) => SigningIsCloser(s, id, txHash);
    case _ => GettingAnswersIsCloser(s, id, txHash);
  }

  lemma LastStep(s: State, id: nat, txHash: string)
    requires id in s.handlers && s.handlers[id].phase.Finishing? && s.handlers[id].Key() in s.records
    ensures var h := s.handlers[id]; var t := Step(s, Finish(id, 0, Written));
            && Continues(s, t) && t.accepted == s.accepted && t.reported == s.reported
            && t.records[h.Key()].status == h.phase.status
            && (h.phase.txHash != "" ==> t.records[h.Key()].txHash == h.phase.txHash)
  {
  }

  lemma {:induction false} WritesItsId(s: State, id: nat, txHash: string) returns (more: seq<Event>)
    requires id in s.handlers && CanWriteId(s.handlers[id], txHash) && s.handlers[id].Key() in s.records
    ensures Continues(s, After(s, more)) && After(s, more).records[s.handlers[id].Key()].txHash == txHash
    decreases Remaining(s.handlers[id].phase)
  {
    var h := s.handlers[id];
    var e := NextOf(id, h, txHash);
    if h.phase.Finishing? {
      LastStep(s, id, txHash);
      AfterOneMore(s, [], e);
      more := [] + [e];
    } else {
      OneStepFurther(s, id, txHash);
      var rest := WritesItsId(Step(s, e), id, txHash);
      AfterOneMore(s, [], e);
      AfterJoins(s, [] + [e], rest);
      more := [] + [e] + rest;
    }
  }

  /** How a request that can still write `failed` comes to do so. */
  function FailsBy(s: State, id: nat): Event
    requires id in s.handlers
  {
    var h := s.handlers[id];
    if !h.phase.Sent? then Refuse(id)
    else Receive(id, if h.birth in s.accepted then Executed(true) else Answer.Rejected)
  }

  lemma ComesToFail(s: State, id: nat)
    requires id in s.handlers && CanStillWrite(s.handlers[id], AFailure)
    ensures var h := s.handlers[id]; var t := Step(s, FailsBy(s, id));
            && Continues(s, t) && t.accepted == s.accepted && t.reported <= s.reported + {h.birth}
            && id in t.handlers && t.handlers[id].(phase := h.phase) == h
            && t.handlers[id].phase.Finishing? && t.handlers[id].phase.status == Failed
  {
  }

  lemma WritesItsFailure(s: State, id: nat) returns (more: seq<Event>)
    requires id in s.handlers && CanStillWrite(s.handlers[id], AFailure) && s.handlers[id].Key() in s.records
    ensures Continues(s, After(s, more)) && After(s, more).records[s.handlers[id].Key()].status == Failed
    ensures After(s, more).accepted == s.accepted && After(s, more).reported <= s.reported + {s.handlers[id].birth}
  {
    var e := FailsBy(s, id);
    ComesToFail(s, id);
    LastStep(Step(s, e), id, "");
    AfterOneMore(s, [], e);
    AfterOneMore(s, [] + [e], Finish(id, 0, Written));
    more := [] + [e] + [Finish(id, 0, Written)];
  }

  // ------------------------------------------------------------- main results

  /** Any run whose last event forgets the record of a running request. */
  ghost predicate Forgot(events: seq<Event>, e: Event, id: nat, what: Writing) {
    var s := Run(events);
    id in s.handlers && CanStillWrite(s.handlers[id], what) && Forgets(s, e, s.handlers[id].Key())
  }

  lemma AfterForgetting(events: seq<Event>, e: Event, id: nat, what: Writing)
    requires Forgot(events, e, id, what)
    ensures var s, t := Run(events), Run(events + [e]); var h := s.handlers[id];
            && AcceptableKey(h.Key()) && NormalizeKey(h.Key()) == h.Key() && h.Key() !in t.records
            && ReportsKnown(t) && id in t.handlers && t.handlers[id] == h && h.birth < |t.lifetimes|
  {
    var s := Run(events);
    KeysAreAcceptable(events, id);
    RunOneMore(events, e);
    AtMostOneTransactionPerRecord(events);
    OnlyLifetimesAreReported(events + [e]);
    BeginReserves(s, e);
    assert Lifetime(s.lifetimes, s.handlers[id].birth, s.handlers[id].Key());
  }

  function OtherThan(txHash: string): string { if txHash == "theirs" then "others" else "theirs" }

  function IdToWrite(phase: Phase): string {
    match phase
    case Reserved | Announced(_) => "mine"
    case Withheld(own, _) => own
    case Named(own) => own
    case Signed(own, _) => own
    case Sent(own, _) => own
    case Finishing(own, _) => own
  }

  lemma RunsJoin(events: seq<Event>, e: Event, first: seq<Event>, second: seq<Event>)
    ensures Run((events + [e]) + (first + second)) == After(After(Run(events + [e]), first), second)
  {
    RunGoesOn(events + [e], first + second);
    AfterJoins(Run(events + [e]), first, second);
  }

  /** Forgetting the record of a request that can still write an id lets a live record lose its transaction. */
  lemma ForgettingCanLoseATransaction(events: seq<Event>, e: Event, id: nat) returns (more: seq<Event>)
    requires Forgot(events, e, id, AnId)
    ensures LostItsTransaction(Run((events + [e]) + more), Run(events).handlers[id].Key())
  {
    var s, h := Run(events + [e]), Run(events).handlers[id];
    var mine := IdToWrite(h.phase);
    AfterForgetting(events, e, id, AnId);
    var out, n := KeyGoesOutAgain(s, h.Key(), OtherThan(mine), id);
    var late := WritesItsId(After(s, out), id, mine);
    more := out + late;
    RunsJoin(events, e, out, late);
    var x := Release(h.Key(), |s.lifetimes|, Tron, OtherThan(mine), 0);
    assert x in After(After(s, out), late).log;
  }

  /** Forgetting the record of a request that can still write `failed` lets a repeat be misled. */
  lemma ForgettingCanMislead(events: seq<Event>, e: Event, id: nat) returns (more: seq<Event>)
    requires Forgot(events, e, id, AFailure)
    ensures MisleadsTheRepeat(Run((events + [e]) + more), Run(events).handlers[id].Key())
  {
    var s, h := Run(events + [e]), Run(events).handlers[id];
    AfterForgetting(events, e, id, AFailure);
    var out, n := KeyGoesOutAgain(s, h.Key(), "theirs", id);
    var late := WritesItsFailure(After(s, out), id);
    more := out + late;
    RunsJoin(events, e, out, late);
  }
}
