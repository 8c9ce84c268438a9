/**
 One idempotency key over a whole run (internal/operation/store.go, platform.go): while its
 record is not forgotten it is signed for once, and between two transactions of one key
 the record of the first was pruned from a full file, resolved or thirty days old.
 */
module SignOnceKeys {
  import opened Wrappers
  import opened OperationStore
  import opened SignOnce

  /** The state before event m, or at the end. */
  function At(events: seq<Event>, m: nat): State
    requires m <= |events|
  {
    Run(events[..m])
  }

  lemma NextAt(events: seq<Event>, m: nat)
    requires m < |events|
    ensures At(events, m + 1) == Step(At(events, m), events[m])
  {
    assert events[..m + 1][..m] == events[..m];
  }

  /** Where any further events lead. */
  function After(s: State, more: seq<Event>): State
    decreases |more|
  {
    if more == [] then s else After(Step(s, more[0]), more[1..])
  }

  lemma {:induction false} AfterJoins(s: State, a: seq<Event>, b: seq<Event>)
    ensures After(s, a + b) == After(After(s, a), b)
    decreases |a|
  {
    if a == [] {
      assert a + b == b;
    } else {
      assert (a + b)[1..] == a[1..] + b;
      AfterJoins(Step(s, a[0]), a[1..], b);
    }
  }

  lemma AfterOneMore(s: State, more: seq<Event>, e: Event)
    ensures After(s, more + [e]) == Step(After(s, more), e)
  {
    AfterJoins(s, more, [e]);
    assert [e][1..] == [];
    assert After(After(s, more), [e]) == After(Step(After(s, more), e), []);
  }

  lemma RunOneMore(events: seq<Event>, e: Event)
    ensures Run(events + [e]) == Step(Run(events), e)
  {
    assert (events + [e])[..|events|] == events;
  }

  lemma {:induction false} RunGoesOn(events: seq<Event>, more: seq<Event>)
    ensures Run(events + more) == After(Run(events), more)
    decreases |more|
  {
    if more == [] {
      assert events + more == events;
    } else {
      assert events + more == (events + [more[0]]) + more[1..];
      RunOneMore(events, more[0]);
      RunGoesOn(events + [more[0]], more[1..]);
    }
  }

  lemma InOrderAt(events: seq<Event>, m: nat)
    requires m <= |events|
    ensures OnceInvariant(At(events, m))
  {
    AtMostOneTransactionPerRecord(events[..m]);
  }

  // ------------------------------------------------------- the life of a record

  /** A record keeps its lifetime until it is forgotten, and then has none. */
  lemma RecordsLiveUntilForgotten(s: State, e: Event, k: string)
    requires OnceInvariant(s) && k in s.records
    ensures if Forgets(s, e, k) then k !in Step(s, e).records
            else k in Step(s, e).records && k in Step(s, e).births && Step(s, e).births[k] == s.births[k]
  {
    if e.Begin? { BeginReserves(s, e); } else { OnlyReservingChangesLifetimes(s, e); }
  }

  lemma LifetimesOnlyGrow(s: State, e: Event)
    ensures s.lifetimes <= Step(s, e).lifetimes
    ensures |Step(s, e).lifetimes| == |s.lifetimes| + if Reserves(s, e) then 1 else 0
    ensures Reserves(s, e) ==> Step(s, e).lifetimes[|s.lifetimes|] == NormalizeKey(e.rawKey)
  {
    if e.Begin? { BeginReserves(s, e); } else { OnlyReservingChangesLifetimes(s, e); }
  }

  lemma LogGrows(s: State, e: Event)
    ensures s.log <= Step(s, e).log
  {
  }

  lemma GrowsAt(events: seq<Event>, m: nat)
    requires m < |events|
    ensures At(events, m).lifetimes <= At(events, m + 1).lifetimes && At(events, m).log <= At(events, m + 1).log
  {
    NextAt(events, m);
    LifetimesOnlyGrow(At(events, m), events[m]);
    LogGrows(At(events, m), events[m]);
  }

  /** Nothing is ever struck from the history. */
  lemma {:induction false} GrowsOver(events: seq<Event>, p: nat, q: nat)
    requires p <= q <= |events|
    ensures At(events, p).lifetimes <= At(events, q).lifetimes && At(events, p).log <= At(events, q).log
    decreases q - p
  {
    if p == q {
    } else {
      GrowsAt(events, p);
      GrowsOver(events, p + 1, q);
    }
  }

  /** Event q reserved the key, as the lifetime numbered so. */
  predicate ReservedAt(events: seq<Event>, q: nat, key: string, birth: nat)
    requires q < |events|
  {
    Reserves(At(events, q), events[q]) && NormalizeKey(events[q].rawKey) == key && |At(events, q).lifetimes| == birth
  }

  lemma {:induction false} EveryLifetimeWasReserved(events: seq<Event>, n: nat, birth: nat) returns (q: nat)
    requires n <= |events| && birth < |At(events, n).lifetimes|
    ensures q < n && ReservedAt(events, q, At(events, n).lifetimes[birth], birth)
    decreases n
  {
    if n == 0 {
      assert false;
    } else {
      var before := At(events, n - 1);
      NextAt(events, n - 1);
      LifetimesOnlyGrow(before, events[n - 1]);
      if birth < |before.lifetimes| {
        q := EveryLifetimeWasReserved(events, n - 1, birth);
      } else {
        q := n - 1;
      }
    }
  }

  lemma ReservingStartsALife(events: seq<Event>, q: nat, key: string, birth: nat)
    requires q < |events| && ReservedAt(events, q, key, birth)
    ensures key !in At(events, q).records
    ensures key in At(events, q + 1).records && key in At(events, q + 1).births
              && At(events, q + 1).births[key] == birth
  {
    NextAt(events, q);
    BeginReserves(At(events, q), events[q]);
  }

  /** Event m forgot the record of this lifetime, in a full file and rightly. */
  predicate ForgottenAt(events: seq<Event>, m: nat, key: string, birth: nat)
    requires m < |events|
  {
    var s := At(events, m);
    && Forgets(s, events[m], key) && key in s.births && s.births[key] == birth
    && |s.records| >= MAX_OPERATIONS && Droppable(s.records[key], events[m].now)
  }

  /** If the record under a key is another's later, it was forgotten in between. */
  lemma {:induction false} ChangedMeansForgotten(events: seq<Event>, p: nat, q: nat, key: string, birth: nat)
    returns (m: nat)
    requires p <= q <= |events|
    requires key in At(events, p).births && At(events, p).births[key] == birth
    requires key in At(events, q).births ==> At(events, q).births[key] != birth
    ensures p <= m < q && ForgottenAt(events, m, key, birth)
    decreases q - p
  {
    if p == q {
      assert false;
    } else {
      var s := At(events, p);
      InOrderAt(events, p);
      NextAt(events, p);
      RecordsLiveUntilForgotten(s, events[p], key);
      if Forgets(s, events[p], key) {
        ForgottenWasDroppable(s, events[p], key);
        m := p;
      } else {
        m := ChangedMeansForgotten(events, p + 1, q, key, birth);
      }
    }
  }

  // ------------------------------------------------------------- main results

  predicate SameKind(x: Entry, y: Entry) {
    x.Signature? == y.Signature?
  }

  /** The earlier lifetime of a key was forgotten before the later one was reserved. */
  lemma LifetimesOfAKeyAreApart(events: seq<Event>, key: string, birth: nat, later: nat) returns (m: nat)
    requires birth < later < |Run(events).lifetimes|
    requires Run(events).lifetimes[birth] == key && Run(events).lifetimes[later] == key
    ensures m < |events| && ForgottenAt(events, m, key, birth) && |At(events, m).lifetimes| <= later
  {
    assert events[..|events|] == events;
    var p := EveryLifetimeWasReserved(events, |events|, birth);
    var q := EveryLifetimeWasReserved(events, |events|, later);
    if q <= p { GrowsOver(events, q, p); }
    ReservingStartsALife(events, p, key, birth);
    ReservingStartsALife(events, q, key, later);
    InOrderAt(events, q);
    m := ChangedMeansForgotten(events, p + 1, q, key, birth);
    GrowsOver(events, m, q);
  }

  /**
   In every run, two signatures for one key, or two transactions of it that left, belong
   to two lifetimes of its record, and the earlier one was forgotten before the later was
   reserved: pruned from a full file, resolved or thirty days old.
   */
  lemma TwoTransactionsNeedAForgottenRecord(events: seq<Event>, i: nat, j: nat) returns (m: nat)
    requires i < |Run(events).log| && j < |Run(events).log| && i != j
    requires SameKind(Run(events).log[i], Run(events).log[j]) && Run(events).log[i].key == Run(events).log[j].key
    ensures var x, y := Run(events).log[i], Run(events).log[j];
            var birth := if x.birth < y.birth then x.birth else y.birth;
            var later := if x.birth < y.birth then y.birth else x.birth;
            birth < later && m < |events| && ForgottenAt(events, m, x.key, birth) && |At(events, m).lifetimes| <= later
  {
    AtMostOneTransactionPerRecord(events);
    var s := Run(events);
    var x, y := s.log[i], s.log[j];
    assert x in s.log && y in s.log;
    assert x.birth != y.birth;
    m := LifetimesOfAKeyAreApart(events, x.key, if x.birth < y.birth then x.birth else y.birth,
      if x.birth < y.birth then y.birth else x.birth);
  }

  predicate NeverForgotten(events: seq<Event>, key: string) {
    forall m :: 0 <= m < |events| ==> !Forgets(At(events, m), events[m], key)
  }

  /** One intent, one transaction: while its record is never forgotten, a key is signed for once and sent once. */
  lemma OneTransactionPerKey(events: seq<Event>, key: string, i: nat, j: nat)
    requires NeverForgotten(events, key)
    requires i < |Run(events).log| && j < |Run(events).log|
    requires Run(events).log[i].key == key && Run(events).log[j].key == key
    requires SameKind(Run(events).log[i], Run(events).log[j])
    ensures i == j
  {
    if i != j {
      var m := TwoTransactionsNeedAForgottenRecord(events, i, j);
      assert false;
    }
  }

  /** Event p adds the entry while the record under its key is of its own lifetime. */
  predicate AddsLive(events: seq<Event>, p: nat, x: Entry)
    requires p < |events|
  {
    && !events[p].Begin? && At(events, p + 1).log == At(events, p).log + [x]
    && x.key in At(events, p).births && At(events, p).births[x.key] == x.birth
  }

  lemma EntriesOfOneLifetimeDiffer(before: seq<Entry>, x: Entry, after: seq<Entry>, y: Entry)
    requires before + [x] <= after && SignedOnce(after + [y]) && ReleasedOnce(after + [y]) && SameKind(x, y)
    ensures x.birth != y.birth
  {
    var log := after + [y];
    assert log[|before|] == x && log[|after|] == y;
  }

  lemma LiveEntriesDiffer(events: seq<Event>, p: nat, q: nat, x: Entry, y: Entry)
    requires p < q < |events| && SameKind(x, y)
    requires At(events, p + 1).log == At(events, p).log + [x] && At(events, q + 1).log == At(events, q).log + [y]
    ensures x.birth != y.birth
  {
    GrowsOver(events, p + 1, q);
    AtMostOneTransactionPerRecord(events[..q + 1]);
    EntriesOfOneLifetimeDiffer(At(events, p).log, x, At(events, q).log, y);
  }

  lemma BirthsStayAt(events: seq<Event>, p: nat)
    requires p < |events| && !events[p].Begin?
    ensures At(events, p + 1).births == At(events, p).births
  {
    NextAt(events, p);
    OnlyReservingChangesLifetimes(At(events, p), events[p]);
  }

  /** Requests that sign, or send, while their records live are separated by the forgetting itself. */
  lemma LiveTransactionsAreSeparated(events: seq<Event>, p: nat, q: nat, x: Entry, y: Entry) returns (m: nat)
    requires p < q < |events| && AddsLive(events, p, x) && AddsLive(events, q, y)
    requires x.key == y.key && SameKind(x, y)
    ensures p < m < q && ForgottenAt(events, m, x.key, x.birth)
  {
    LiveEntriesDiffer(events, p, q, x, y);
    BirthsStayAt(events, p);
    m := ChangedMeansForgotten(events, p + 1, q, x.key, x.birth);
  }
}
