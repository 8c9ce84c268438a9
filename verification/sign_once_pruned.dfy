/**
 It happens: a status lookup resolves the record of a request that is still waiting for its
 broadcast to answer, a full file makes room, and that record is the one forgotten. From
 there a live record can lose its transaction, and a repeat can be misled.
 */
module SignOncePruned {
  import opened Wrappers
  import opened OperationStore
  import opened SignOnce
  import opened SignOnceKeys
  import opened SignOnceSpared
  import opened SignOnceLatecomers

  // --------------------------------------------------------- filling the store

  /** Two letters each, all different. */
  function FillerKey(i: nat): string
    requires i < 676
  {
    [('A' as int + i / 26) as char, ('a' as int + i % 26) as char]
  }

  function IndexOf(key: string): int
    requires |key| == 2
  {
    (key[0] as int - 'A' as int) * 26 + (key[1] as int - 'a' as int)
  }

  /** n records of requests that stopped while building. */
  predicate Filled(f: Records, n: nat) {
    |f| == n && forall k :: k in f ==> |k| == 2 && IndexOf(k) < n && f[k].status == Building && f[k].updatedAt == 0
  }

  predicate Plain(key: string) {
    NormalizeKey(key) == key && AcceptableKey(key)
  }

  lemma {:induction false} LettersAreShort(key: string)
    requires forall i :: 0 <= i < |key| ==> 'A' <= key[i] <= 'z'
    ensures Utf8Length(key) == |key|
    decreases |key|
  {
    if key == "" {
    } else {
      LettersAreShort(key[1..]);
    }
  }

  lemma LettersArePlain(key: string)
    requires 1 <= |key| <= 128 && forall i :: 0 <= i < |key| ==> 'A' <= key[i] <= 'z'
    ensures Plain(key)
  {
    LettersAreShort(key);
  }

  function Ask(id: nat, family: Family, key: string, kept: Records): Event {
    Event.Begin(id, family, key, "hash", "net", 0, kept, Written)
  }

  function Made(key: string): Operation { NewOperation(key, "hash", "net", 0) }

  /** Reserving a new plain key does what it says. */
  lemma AskReserves(s: State, id: nat, family: Family, key: string, kept: Records)
    requires Plain(key) && key !in s.records && id !in s.handlers
    requires CanMakeRoom(s.records, 0) && Pruned(s.records, 0, kept)
    ensures Step(s, Ask(id, family, key, kept))
         == Reserve(s, id, Handler(family, key, |s.lifetimes|, Reserved), kept[key := Made(key)], true)
  {
    assert key in kept[key := Made(key)];
  }

  lemma OneMoreFiller(f: Records, n: nat)
    requires Filled(f, n) && n < 676
    ensures FillerKey(n) !in f && Plain(FillerKey(n)) && Filled(f[FillerKey(n) := Made(FillerKey(n))], n + 1)
  {
    LettersArePlain(FillerKey(n));
    assert IndexOf(FillerKey(n)) == n;
  }

  predicate Ready(s: State, n: nat) {
    Filled(s.records, n) && s.log == [] && forall id :: id in s.handlers ==> id < n
  }

  lemma FillStep(s: State, n: nat)
    requires Ready(s, n) && n < MAX_OPERATIONS - 1
    ensures Ready(Step(s, Ask(n, Evm, FillerKey(n), s.records)), n + 1)
  {
    OneMoreFiller(s.records, n);
    AskReserves(s, n, Evm, FillerKey(n), s.records);
    ReservedIsReady(s, n, Handler(Evm, FillerKey(n), |s.lifetimes|, Reserved));
  }

  lemma ReservedIsReady(s: State, n: nat, h: Handler)
    requires Ready(s, n) && n < 676 && Filled(s.records[FillerKey(n) := Made(FillerKey(n))], n + 1)
    ensures Ready(Reserve(s, n, h, s.records[FillerKey(n) := Made(FillerKey(n))], true), n + 1)
  {
  }

  lemma {:induction false} FillUp(n: nat) returns (events: seq<Event>)
    requires n <= MAX_OPERATIONS - 1
    ensures Ready(Run(events), n)
    decreases n
  {
    if n == 0 {
      events := [];
    } else {
      var before := FillUp(n - 1);
      var e := Ask(n - 1, Evm, FillerKey(n - 1), Run(before).records);
      events := before + [e];
      RunOneMore(before, e);
      FillStep(Run(before), n - 1);
    }
  }

  /** One record short of full, and nobody at work: the process was restarted. */
  predicate Waiting(s: State, f: Records) {
    Filled(f, MAX_OPERATIONS - 1) && s.records == f && s.handlers == map[] && s.log == []
  }

  lemma StoreCanFillUp() returns (events: seq<Event>)
    ensures Waiting(Run(events), Run(events).records)
  {
    var before := FillUp(MAX_OPERATIONS - 1);
    events := before + [Crash];
    RunOneMore(before, Crash);
  }

  // ------------------------------------------------------------------ the run

  /** Only a resolved record can make room among the fillers, and it does. */
  lemma ResolvedMakesRoom(f: Records, key: string, item: Operation)
    requires Filled(f, MAX_OPERATIONS - 1) && |key| > 2 && Resolved(item.status)
    ensures CanMakeRoom(f[key := item], 0) && Pruned(f[key := item], 0, f)
  {
    var full := f[key := item];
    assert key !in f;
    assert Live(full, 0) <= f.Keys;
    SubsetSize(Live(full, 0), f.Keys);
  }

  /** The last request of a full file, gone as far as the phase. */
  predicate Last(s: State, f: Records, key: string, item: Operation, birth: nat, phase: Phase) {
    && Filled(f, MAX_OPERATIONS - 1) && |key| > 2 && Plain(key) && s.records == f[key := item]
    && s.handlers == map[MAX_OPERATIONS := Handler(Tron, key, birth, phase)]
  }

  function Item(key: string, status: Status): Operation {
    Made(key).(txHash := "mine", status := status)
  }

  lemma LastReserves(s: State, f: Records, key: string)
    requires Waiting(s, f) && |key| > 2 && Plain(key)
    ensures Last(Step(s, Ask(MAX_OPERATIONS, Tron, key, f)), f, key, Made(key), |s.lifetimes|, Reserved)
  {
    AskReserves(s, MAX_OPERATIONS, Tron, key, f);
  }

  lemma LastRecords(s: State, f: Records, key: string, birth: nat)
    requires Last(s, f, key, Made(key), birth, Reserved)
    ensures Last(Step(s, Record(MAX_OPERATIONS, "mine", 0, Written)), f, key, Item(key, Broadcasting), birth,
              Named("mine"))
  {
    var t := Step(s, Record(MAX_OPERATIONS, "mine", 0, Written));
    assert t.records == f[key := Made(key)][key := Item(key, Broadcasting)];
  }

  lemma LastSends(s: State, f: Records, key: string, birth: nat)
    requires Last(s, f, key, Item(key, Broadcasting), birth, Named("mine"))
    ensures var t := Step(Step(s, Sign(MAX_OPERATIONS, "")), Send(MAX_OPERATIONS));
            Last(t, f, key, Item(key, Broadcasting), birth, Sent("mine", 0)) && birth in t.travelling
  {
    var t := Step(s, Sign(MAX_OPERATIONS, ""));
    assert Last(t, f, key, Item(key, Broadcasting), birth, Signed("mine", 0));
  }

  /** A node takes the bytes, and a status lookup finds them executed before the broadcast is answered. */
  lemma LastIsResolved(s: State, f: Records, key: string, birth: nat, verdict: Status)
    requires Last(s, f, key, Item(key, Broadcasting), birth, Sent("mine", 0)) && birth in s.travelling
    requires Resolved(verdict)
    ensures var t := Step(Step(s, Deliver(birth)), Poll("mine", verdict, Some(key), 0, Written));
            Last(t, f, key, Item(key, verdict), birth, Sent("mine", 0)) && birth in t.accepted
  {
    var t := Step(s, Deliver(birth));
    assert t == s.(accepted := s.accepted + {birth});
    LastIsPolled(t, f, key, birth, verdict);
  }

  lemma LastIsPolled(s: State, f: Records, key: string, birth: nat, verdict: Status)
    requires Last(s, f, key, Item(key, Broadcasting), birth, Sent("mine", 0))
    ensures var t := PollStep(s, "mine", verdict, Some(key), 0, Written);
            Last(t, f, key, Item(key, verdict), birth, Sent("mine", 0)) && t.accepted == s.accepted
  {
    assert Names(s.records, "mine", key);
    assert f[key := Item(key, Broadcasting)][key := Item(key, verdict)] == f[key := Item(key, verdict)];
  }

  predicate Word(key: string) {
    3 <= |key| <= 128 && forall i :: 0 <= i < |key| ==> 'A' <= key[i] <= 'z'
  }

  lemma ResolvedEarly(key: string, verdict: Status) returns (events: seq<Event>, f: Records, birth: nat)
    requires Word(key) && Resolved(verdict)
    ensures Last(Run(events), f, key, Item(key, verdict), birth, Sent("mine", 0)) && birth in Run(events).accepted
  {
    LettersArePlain(key);
    var filled := StoreCanFillUp();
    var s := Run(filled);
    f, birth := s.records, |s.lifetimes|;
    var a, b := Ask(MAX_OPERATIONS, Tron, key, f), Record(MAX_OPERATIONS, "mine", 0, Written);
    var signing, sending := Sign(MAX_OPERATIONS, ""), Send(MAX_OPERATIONS);
    var arriving, polling := Deliver(birth), Poll("mine", verdict, Some(key), 0, Written);
    RunOneMore(filled, a);
    LastReserves(s, f, key);
    RunOneMore(filled + [a], b);
    LastRecords(Step(s, a), f, key, birth);
    events := filled + [a] + [b];
    RunOneMore(events, signing);
    RunOneMore(events + [signing], sending);
    LastSends(Run(events), f, key, birth);
    events := events + [signing] + [sending];
    RunOneMore(events, arriving);
    RunOneMore(events + [arriving], polling);
    LastIsResolved(Run(events), f, key, birth, verdict);
    events := events + [arriving] + [polling];
  }

  /** The request is forgotten while it waits, for a key that takes its place. */
  lemma ARunningRequestCanBeForgotten(key: string, other: string, verdict: Status)
    returns (events: seq<Event>, e: Event)
    requires Word(key) && Word(other) && key != other && Resolved(verdict)
    ensures Forgot(events, e, MAX_OPERATIONS, AnId) && Forgot(events, e, MAX_OPERATIONS, AFailure)
    ensures Run(events).handlers[MAX_OPERATIONS].Key() == key
  {
    var f, birth;
    events, f, birth := ResolvedEarly(key, verdict);
    e := Ask(MAX_OPERATIONS + 1, Evm, other, f);
    ResolvedIsForgotten(Run(events), f, key, birth, verdict, other);
  }

  lemma ResolvedIsForgotten(s: State, f: Records, key: string, birth: nat, verdict: Status, other: string)
    requires Last(s, f, key, Item(key, verdict), birth, Sent("mine", 0)) && Resolved(verdict)
    requires Word(other) && other != key
    ensures Forgets(s, Ask(MAX_OPERATIONS + 1, Evm, other, f), key)
    ensures MAX_OPERATIONS in s.handlers && s.handlers[MAX_OPERATIONS].Key() == key
    ensures s.handlers[MAX_OPERATIONS].phase == Sent("mine", 0)
  {
    LettersArePlain(other);
    ResolvedMakesRoom(f, key, Item(key, verdict));
  }

  /** So there is a run after which a transaction left for a live record, and the record names another one. */
  lemma ARecordCanLoseItsTransaction(key: string, other: string) returns (events: seq<Event>)
    requires Word(key) && Word(other) && key != other
    ensures LostItsTransaction(Run(events), key)
  {
    var before, e := ARunningRequestCanBeForgotten(key, other, Confirmed);
    var more := ForgettingCanLoseATransaction(before, e, MAX_OPERATIONS);
    events := (before + [e]) + more;
  }

  /** And one after which a repeat is told to use a new key while its transaction is with a node. */
  lemma ARepeatCanBeMisled(key: string, other: string) returns (events: seq<Event>)
    requires Word(key) && Word(other) && key != other
    ensures MisleadsTheRepeat(Run(events), key)
  {
    var before, e := ARunningRequestCanBeForgotten(key, other, Failed);
    var more := ForgettingCanMislead(before, e, MAX_OPERATIONS);
    events := (before + [e]) + more;
  }
}
