/**
 When a Solana transaction no node knows may be called failed
 (internal/chain/solana/transaction.go, internal/httpapi/platform.go).

 A book in memory remembers the last block height at which each signed
 transaction can land. A status lookup asks for the signature, then for the
 finalized height, then for the signature again. The cluster moves on between
 the questions and every answer comes from a node that lags behind it.
 */
module SolanaExpiry {
  import opened Wrappers
  import opened OperationStore

  const EXPIRY_MARGIN: nat := 150
  const MAX_EXPIRY_RECORDS: nat := 4096

  datatype Key = Key(networkID: string, signature: string)

  // -------------------------------------------------------------------- book

  /** The bounded book of expiry heights. */
  class ExpiryBook {
    var items: map<Key, nat>

    ghost predicate Valid()
      reads this
    {
      |items| <= MAX_EXPIRY_RECORDS
    }

    constructor ()
      ensures Valid() && items == map[]
    {
      items := map[];
    }

    /** A full book drops one entry of its choice for a new one. */
    method Record(networkID: string, signature: string, lastValid: nat) returns (ghost dropped: set<Key>)
      requires Valid()
      modifies this
      ensures Valid()
      ensures |dropped| <= 1 && dropped <= old(items).Keys && Key(networkID, signature) !in dropped
      ensures items == (old(items) - dropped)[Key(networkID, signature) := lastValid]
      ensures dropped != {} ==> |old(items)| == MAX_EXPIRY_RECORDS && Key(networkID, signature) !in old(items)
    {
      var key := Key(networkID, signature);
      dropped := {};
      if key !in items && |items| >= MAX_EXPIRY_RECORDS {
        var evicted :| evicted in items;
        dropped := {evicted};
        assert (items - {evicted}).Keys == items.Keys - {evicted};
        items := items - {evicted};
      }
      assert items[key := lastValid].Keys == items.Keys + {key};
      items := items[key := lastValid];
    }

    function Lookup(networkID: string, signature: string): (lastValid: Option<nat>)
      reads this
      ensures lastValid.Some? <==> Key(networkID, signature) in items
    {
      var key := Key(networkID, signature);
      if key in items then Some(items[key]) else None
    }

    method Forget(networkID: string, signature: string)
      requires Valid()
      modifies this
      ensures Valid()
      ensures items == old(items) - {Key(networkID, signature)}
    {
      var key := Key(networkID, signature);
      assert (items - {key}).Keys == items.Keys - {key};
      items := items - {key};
    }
  }

  // ------------------------------------------------------------------ lookup

  datatype Confirmation = Processed | ConfirmedByVote | Finalized | UnknownConfirmation(text: string)

  /** What a node answers about one signature. */
  datatype StatusAnswer = NoAnswer | Missing | Found(confirmation: Confirmation, erred: bool)

  datatype LookupError = StatusUnreadable | HeightUnreadable | UnknownStatus

  /** A known signature's status; None when the node knows nothing of it. */
  function SignatureStatus(answer: StatusAnswer): Result<Option<Status>, LookupError> {
    match answer
    case NoAnswer => Err(StatusUnreadable)
    case Missing => Ok(None)
    case Found(Processed, _) => Ok(Some(Pending))
    case Found(ConfirmedByVote, erred) => Ok(Some(if erred then Failed else Confirmed))
    case Found(Finalized, erred) => Ok(Some(if erred then Failed else Confirmed))
    case Found(UnknownConfirmation(_), _) => Err(UnknownStatus)
  }

  /** The verdict of one lookup on the three answers and the book. */
  function Verdict(
    first: StatusAnswer, lastValid: Option<nat>, height: Option<nat>, second: StatusAnswer)
    : Result<Status, LookupError>
  {
    match SignatureStatus(first)
    case Err(e) => Err(e)
    case Ok(Some(status)) => Ok(status)
    case Ok(None) =>
      if lastValid.None? then Ok(Pending)
      else if height.None? then Err(HeightUnreadable)
      else if height.value <= lastValid.value + EXPIRY_MARGIN then Ok(Pending)
      else
        match SignatureStatus(second)
        case Err(e) => Err(e)
        case Ok(Some(status)) => Ok(status)
        case Ok(None) => Ok(Failed)
  }

  /** The status lookup; anything but pending lets the book forget the transaction. */
  method Transaction(
    book: ExpiryBook, networkID: string, signature: string,
    first: StatusAnswer, height: Option<nat>, second: StatusAnswer)
    returns (result: Result<Status, LookupError>)
    requires book.Valid()
    modifies book
    ensures book.Valid()
    ensures result == Verdict(first, old(book.Lookup(networkID, signature)), height, second)
    ensures book.items == if result.Ok? && result.value != Pending
                          then old(book.items) - {Key(networkID, signature)} else old(book.items)
  {
    var found := SignatureStatus(first);
    if found.Err? { return Err(found.error); }
    if found.value.Some? {
      if found.value.value != Pending { book.Forget(networkID, signature); }
      return Ok(found.value.value);
    }
    var lastValid := book.Lookup(networkID, signature);
    if lastValid.None? { return Ok(Pending); }
    if height.None? { return Err(HeightUnreadable); }
    if height.value <= lastValid.value + EXPIRY_MARGIN { return Ok(Pending); }
    found := SignatureStatus(second);
    if found.Err? { return Err(found.error); }
    if found.value.Some? {
      if found.value.value != Pending { book.Forget(networkID, signature); }
      return Ok(found.value.value);
    }
    book.Forget(networkID, signature);
    result := Ok(Failed);
  }

  /** A forgotten or evicted entry can only turn a verdict into pending. */
  lemma ForgettingOnlyYieldsPending(
    first: StatusAnswer, lastValid: Option<nat>, height: Option<nat>, second: StatusAnswer)
    ensures Verdict(first, None, height, second) == Verdict(first, lastValid, height, second)
            || (first == Missing && Verdict(first, None, height, second) == Ok(Pending))
  {
  }

  // ----------------------------------------------------------------- cluster

  /** How far a lookup has come; `height` is the finalized height it was told. */
  datatype Lookup =
    | Started
    | AskedOnce(lastValid: nat)
    | KnowsHeight(lastValid: nat, height: nat)

  /** What a lookup answered about a signature. */
  datatype Told = Told(signature: string, status: Status)

  /**
   One network: its height, the height at which each transaction landed and
   which of them failed when executed, what the wallet remembers in memory and
   on disk, the lookups under way and what lookups answered.
   */
  datatype Cluster = Cluster(
    height: nat,
    landed: map<string, nat>,
    reverted: set<string>,
    book: map<string, nat>,
    disk: map<string, nat>,
    lookups: map<nat, (string, Lookup)>,
    told: set<Told>)

  /** `lastValidOf` is what the cluster will enforce for each transaction. */
  datatype Event =
    | Advance
    | Land(signature: string, fails: bool)
    | Remember(signature: string)                    // signed: book and disk
    | Evict(signature: string)
    | Restore(signature: string)                     // disk to book, before a lookup
    | Restart
    | Ask(id: nat, signature: string)
    | FirstAnswer(id: nat, view: nat, answer: StatusAnswer)
    | HeightAnswer(id: nat, height: nat)
    | SecondAnswer(id: nat, view: nat, answer: StatusAnswer)

  /** A node whose view ends at height `view` knows what landed up to there. */
  predicate Knows(c: Cluster, signature: string, view: nat) {
    signature in c.landed && c.landed[signature] <= view
  }

  /** A status node's view is at most `lag` heights behind the cluster. */
  predicate CanAnswer(c: Cluster, view: nat, lag: nat) {
    view <= c.height && c.height <= view + lag
  }

  /**
   What a node with that view may say: nothing or something unreadable; of what it knows,
   how it was executed, voted on or finalized; of what it does not, that it is missing; and
   of anything that some fork executed it, whatever came of that there.
   */
  predicate MayAnswer(c: Cluster, signature: string, view: nat, answer: StatusAnswer) {
    match answer
    case NoAnswer => true
    case Missing => !Knows(c, signature, view)
    case Found(confirmation, erred) =>
      confirmation.Processed? || confirmation.UnknownConfirmation?
      || (Knows(c, signature, view) && (erred <==> signature in c.reverted))
  }

  ghost function Step(c: Cluster, e: Event, lastValidOf: string -> nat, lag: nat): Cluster {
    match e
    case Advance => c.(height := c.height + 1)
    case Land(signature, fails) =>
      if signature !in c.landed && c.height <= lastValidOf(signature)
      then c.(landed := c.landed[signature := c.height],
              reverted := if fails then c.reverted + {signature} else c.reverted)
      else c
    case Remember(signature) =>
      c.(book := c.book[signature := lastValidOf(signature)], disk := c.disk[signature := lastValidOf(signature)])
    case Evict(signature) => c.(book := c.book - {signature})
    case Restore(signature) =>
      if signature in c.disk then c.(book := c.book[signature := c.disk[signature]]) else c
    case Restart => c.(book := map[], lookups := map[])
    case Ask(id, signature) => c.(lookups := c.lookups[id := (signature, Started)])
    case FirstAnswer(id, view, answer) =>
      if id in c.lookups && c.lookups[id].1.Started? && CanAnswer(c, view, lag)
         && MayAnswer(c, c.lookups[id].0, view, answer)
      then FirstStep(c, id, answer) else c
    case HeightAnswer(id, height) =>
      // A finalized height, from however far behind, was reached by the cluster.
      if id in c.lookups && c.lookups[id].1.AskedOnce? && height <= c.height then
        var (signature, at) := c.lookups[id];
        c.(lookups := c.lookups[id := (signature, KnowsHeight(at.lastValid, height))])
      else c
    case SecondAnswer(id, view, answer) =>
      if id in c.lookups && c.lookups[id].1.KnowsHeight? && CanAnswer(c, view, lag)
         && MayAnswer(c, c.lookups[id].0, view, answer)
      then SecondStep(c, id, answer) else c
  }

  /** A lookup ends: it answers, and anything but pending lets the book forget the transaction. */
  function Close(c: Cluster, id: nat, result: Result<Status, LookupError>): Cluster
    requires id in c.lookups
  {
    var signature := c.lookups[id].0;
    var done := c.(lookups := c.lookups - {id});
    match result
    case Err(_) => done
    case Ok(status) =>
      done.(told := c.told + {Told(signature, status)},
            book := if status != Pending then c.book - {signature} else c.book)
  }

  /** A lookup goes on only if the node knows nothing and the book something. */
  function FirstStep(c: Cluster, id: nat, answer: StatusAnswer): Cluster
    requires id in c.lookups
  {
    var signature := c.lookups[id].0;
    if answer == Missing && signature in c.book
    then c.(lookups := c.lookups[id := (signature, AskedOnce(c.book[signature]))])
    else Close(c, id, Verdict(answer, None, None, NoAnswer))
  }

  function SecondStep(c: Cluster, id: nat, answer: StatusAnswer): Cluster
    requires id in c.lookups && c.lookups[id].1.KnowsHeight?
  {
    var at := c.lookups[id].1;
    Close(c, id, Verdict(Missing, Some(at.lastValid), Some(at.height), answer))
  }

  const GENESIS := Cluster(0, map[], {}, map[], map[], map[], {})

  ghost function After(c: Cluster, events: seq<Event>, lastValidOf: string -> nat, lag: nat): Cluster
    decreases |events|
  {
    if events == [] then c else After(Step(c, events[0], lastValidOf, lag), events[1..], lastValidOf, lag)
  }

  ghost function Run(events: seq<Event>, lastValidOf: string -> nat, lag: nat): Cluster {
    After(GENESIS, events, lastValidOf, lag)
  }

  /** The transaction is not on chain and can never land. */
  ghost predicate Dead(c: Cluster, signature: string, lastValidOf: string -> nat) {
    signature !in c.landed && lastValidOf(signature) < c.height
  }

  /** What is told is so: failed of what was executed and failed or is dead, confirmed of what succeeded. */
  ghost predicate IsTrue(c: Cluster, t: Told, lastValidOf: string -> nat) {
    match t.status
    case Failed => t.signature in c.reverted || Dead(c, t.signature, lastValidOf)
    case Confirmed => t.signature in c.landed && t.signature !in c.reverted
    case Pending => true
    case _ => false
  }

  ghost predicate Sound(c: Cluster, lastValidOf: string -> nat) {
    && (forall s :: s in c.landed ==> c.landed[s] <= lastValidOf(s))
    && c.reverted <= c.landed.Keys
    && (forall s :: s in c.book ==> c.book[s] == lastValidOf(s))
    && (forall s :: s in c.disk ==> c.disk[s] == lastValidOf(s))
    && (forall id :: id in c.lookups ==> LookupSound(c, c.lookups[id].0, c.lookups[id].1, lastValidOf))
    && (forall t :: t in c.told ==> IsTrue(c, t, lastValidOf))
  }

  ghost predicate LookupSound(c: Cluster, signature: string, at: Lookup, lastValidOf: string -> nat) {
    match at
    case Started => true
    case AskedOnce(lastValid) => lastValid == lastValidOf(signature)
    case KnowsHeight(lastValid, height) =>
      lastValid == lastValidOf(signature) && height <= c.height
  }

  /** A lookup that ends with the truth leaves everything sound. */
  lemma CloseIsSound(c: Cluster, id: nat, result: Result<Status, LookupError>, lastValidOf: string -> nat)
    requires Sound(c, lastValidOf) && id in c.lookups
    requires result.Ok? ==> IsTrue(c, Told(c.lookups[id].0, result.value), lastValidOf)
    ensures Sound(Close(c, id, result), lastValidOf)
  {
    var d := Close(c, id, result);
    forall t | t in d.told ensures IsTrue(d, t, lastValidOf) {
      if t in c.told { assert IsTrue(c, t, lastValidOf); }
    }
    forall j | j in d.lookups ensures LookupSound(d, d.lookups[j].0, d.lookups[j].1, lastValidOf) {
      assert LookupSound(c, c.lookups[j].0, c.lookups[j].1, lastValidOf);
    }
  }

  /**
   What the lookup says on answers a node may give: of a transaction found, how it was
   executed, once that is voted on, and pending before; of one missing twice, failed only
   when it is dead.
   */
  lemma VerdictIsTrue(
    c: Cluster, signature: string, first: StatusAnswer, lastValid: Option<nat>, height: Option<nat>,
    second: StatusAnswer, view: nat, lastValidOf: string -> nat, lag: nat)
    requires Sound(c, lastValidOf) && lag <= EXPIRY_MARGIN + 1 && CanAnswer(c, view, lag)
    requires MayAnswer(c, signature, view, if first == Missing && lastValid.Some? then second else first)
    requires lastValid.Some? ==> lastValid.value == lastValidOf(signature)
    requires height.Some? ==> height.value <= c.height
    ensures var result := Verdict(first, lastValid, height, second);
            result.Ok? ==> IsTrue(c, Told(signature, result.value), lastValidOf)
  {
  }

  lemma SecondStepIsSound(
    c: Cluster, id: nat, view: nat, answer: StatusAnswer, lastValidOf: string -> nat, lag: nat)
    requires Sound(c, lastValidOf) && lag <= EXPIRY_MARGIN + 1
    requires id in c.lookups && c.lookups[id].1.KnowsHeight? && CanAnswer(c, view, lag)
    requires MayAnswer(c, c.lookups[id].0, view, answer)
    ensures Sound(SecondStep(c, id, answer), lastValidOf)
  {
    var (signature, at) := c.lookups[id];
    assert LookupSound(c, signature, at, lastValidOf);
    VerdictIsTrue(c, signature, Missing, Some(at.lastValid), Some(at.height), answer, view, lastValidOf, lag);
    CloseIsSound(c, id, Verdict(Missing, Some(at.lastValid), Some(at.height), answer), lastValidOf);
  }

  lemma FirstStepIsSound(c: Cluster, id: nat, view: nat, answer: StatusAnswer, lastValidOf: string -> nat)
    requires Sound(c, lastValidOf) && id in c.lookups && MayAnswer(c, c.lookups[id].0, view, answer)
    ensures Sound(FirstStep(c, id, answer), lastValidOf)
  {
    var signature := c.lookups[id].0;
    if answer == Missing && signature in c.book {
      ProgressIsSound(c, id, AskedOnce(c.book[signature]), lastValidOf);
    } else {
      CloseIsSound(c, id, Verdict(answer, None, None, NoAnswer), lastValidOf);
    }
  }

  lemma ProgressIsSound(c: Cluster, id: nat, at: Lookup, lastValidOf: string -> nat)
    requires Sound(c, lastValidOf) && id in c.lookups && LookupSound(c, c.lookups[id].0, at, lastValidOf)
    ensures Sound(c.(lookups := c.lookups[id := (c.lookups[id].0, at)]), lastValidOf)
  {
    var d := c.(lookups := c.lookups[id := (c.lookups[id].0, at)]);
    forall t | t in d.told ensures IsTrue(d, t, lastValidOf) { assert IsTrue(c, t, lastValidOf); }
    forall j | j in d.lookups ensures LookupSound(d, d.lookups[j].0, d.lookups[j].1, lastValidOf) {
      if j != id { assert LookupSound(c, c.lookups[j].0, c.lookups[j].1, lastValidOf); }
    }
  }

  lemma HeightStepIsSound(c: Cluster, id: nat, height: nat, lastValidOf: string -> nat, lag: nat)
    requires Sound(c, lastValidOf)
    ensures Sound(Step(c, HeightAnswer(id, height), lastValidOf, lag), lastValidOf)
  {
    if id in c.lookups && c.lookups[id].1.AskedOnce? && height <= c.height {
      assert LookupSound(c, c.lookups[id].0, c.lookups[id].1, lastValidOf);
      ProgressIsSound(c, id, KnowsHeight(c.lookups[id].1.lastValid, height), lastValidOf);
    }
  }

  lemma LandIsSound(c: Cluster, signature: string, fails: bool, lastValidOf: string -> nat, lag: nat)
    requires Sound(c, lastValidOf)
    ensures Sound(Step(c, Land(signature, fails), lastValidOf, lag), lastValidOf)
  {
    var d := Step(c, Land(signature, fails), lastValidOf, lag);
    forall t | t in d.told ensures IsTrue(d, t, lastValidOf) { assert IsTrue(c, t, lastValidOf); }
    forall j | j in d.lookups ensures LookupSound(d, d.lookups[j].0, d.lookups[j].1, lastValidOf) {
      assert LookupSound(c, c.lookups[j].0, c.lookups[j].1, lastValidOf);
    }
  }

  /** Neither time nor what the wallet remembers makes anything told untrue. */
  lemma QuietStepIsSound(c: Cluster, e: Event, lastValidOf: string -> nat, lag: nat)
    requires Sound(c, lastValidOf)
    requires e.Advance? || e.Remember? || e.Evict? || e.Restore? || e.Restart? || e.Ask?
    ensures Sound(Step(c, e, lastValidOf, lag), lastValidOf)
  {
    var d := Step(c, e, lastValidOf, lag);
    forall t | t in d.told ensures IsTrue(d, t, lastValidOf) { assert IsTrue(c, t, lastValidOf); }
    forall j | j in d.lookups ensures LookupSound(d, d.lookups[j].0, d.lookups[j].1, lastValidOf) {
      if j in c.lookups && d.lookups[j] == c.lookups[j] {
        assert LookupSound(c, c.lookups[j].0, c.lookups[j].1, lastValidOf);
      }
    }
  }

  lemma StepIsSound(c: Cluster, e: Event, lastValidOf: string -> nat, lag: nat)
    requires Sound(c, lastValidOf) && lag <= EXPIRY_MARGIN + 1
    ensures Sound(Step(c, e, lastValidOf, lag), lastValidOf)
  {
    match e
    case SecondAnswer(id, view, answer) =>
      if Step(c, e, lastValidOf, lag) != c { SecondStepIsSound(c, id, view, answer, lastValidOf, lag); }
    case FirstAnswer(id, view, answer) =>
      if Step(c, e, lastValidOf, lag) != c { FirstStepIsSound(c, id, view, answer, lastValidOf); }
    case HeightAnswer(id, height) => HeightStepIsSound(c, id, height, lastValidOf, lag);
    case Land(signature, fails) => LandIsSound(c, signature, fails, lastValidOf, lag);
    case _ => QuietStepIsSound(c, e, lastValidOf, lag);
  }

  lemma {:induction false} AfterIsSound(c: Cluster, events: seq<Event>, lastValidOf: string -> nat, lag: nat)
    requires Sound(c, lastValidOf) && lag <= EXPIRY_MARGIN + 1
    ensures Sound(After(c, events, lastValidOf, lag), lastValidOf)
    decreases |events|
  {
    if events == [] {
    } else {
      StepIsSound(c, events[0], lastValidOf, lag);
      AfterIsSound(Step(c, events[0], lastValidOf, lag), events[1..], lastValidOf, lag);
    }
  }

  /**
   Everything lookups ever answer is and stays true, across concurrent lookups, evictions
   and restarts, with status nodes lagging by up to the margin and one more: failed only of
   a transaction that was executed and failed, or is not on chain and can never land;
   confirmed only of one that landed and succeeded.
   */
  lemma ExpiryIsSound(events: seq<Event>, lastValidOf: string -> nat, lag: nat, t: Told)
    requires lag <= EXPIRY_MARGIN + 1
    requires t in Run(events, lastValidOf, lag).told
    ensures IsTrue(Run(events, lastValidOf, lag), t, lastValidOf)
  {
    AfterIsSound(GENESIS, events, lastValidOf, lag);
  }

  /** The readings a lookup of a missing transaction goes through. */
  function LookupEvents(id: nat, signature: string, view: nat, height: nat): seq<Event> {
    [Ask(id, signature), FirstAnswer(id, view, Missing), HeightAnswer(id, height), SecondAnswer(id, view, Missing)]
  }

  /** A remembered transaction that is missing is called failed once the margin is over, and pending before. */
  lemma DeadIsTold(
    c: Cluster, id: nat, signature: string, view: nat, height: nat, lastValidOf: string -> nat, lag: nat)
    requires signature in c.book && !Knows(c, signature, view) && CanAnswer(c, view, lag) && height <= c.height
    ensures var d := After(c, LookupEvents(id, signature, view, height), lastValidOf, lag);
            && Told(signature, if c.book[signature] + EXPIRY_MARGIN < height then Failed else Pending) in d.told
            && d.disk == c.disk && d.height == c.height && d.landed == c.landed && d.reverted == c.reverted
  {
    var asked := Step(c, Ask(id, signature), lastValidOf, lag);
    var first := Step(asked, FirstAnswer(id, view, Missing), lastValidOf, lag);
    var known := Step(first, HeightAnswer(id, height), lastValidOf, lag);
    var rest := [FirstAnswer(id, view, Missing), HeightAnswer(id, height), SecondAnswer(id, view, Missing)];
    assert LookupEvents(id, signature, view, height)[1..] == rest;
    assert rest[1..] == [HeightAnswer(id, height), SecondAnswer(id, view, Missing)];
    assert rest[1..][1..] == [SecondAnswer(id, view, Missing)];
    assert After(c, LookupEvents(id, signature, view, height), lastValidOf, lag)
        == After(asked, rest, lastValidOf, lag);
    assert After(asked, rest, lastValidOf, lag) == After(first, rest[1..], lastValidOf, lag);
    assert After(first, rest[1..], lastValidOf, lag) == After(known, rest[1..][1..], lastValidOf, lag);
    assert first.lookups[id] == (signature, AskedOnce(c.book[signature]));
    assert known.lookups[id] == (signature, KnowsHeight(c.book[signature], height));
    assert [SecondAnswer(id, view, Missing)][1..] == [];
    assert After(known, [SecondAnswer(id, view, Missing)], lastValidOf, lag)
        == Step(known, SecondAnswer(id, view, Missing), lastValidOf, lag);
  }

  /** And a node that knows settles the lookup: the answer is how the transaction was executed. */
  lemma KnownIsTold(
    c: Cluster, id: nat, view: nat, erred: bool, finalized: bool, lastValidOf: string -> nat, lag: nat)
    requires id in c.lookups && c.lookups[id].1.Started? && CanAnswer(c, view, lag) && Knows(c, c.lookups[id].0, view)
    ensures var signature := c.lookups[id].0;
            var answer := Found(if finalized then Finalized else ConfirmedByVote, signature in c.reverted);
            var d := Step(c, FirstAnswer(id, view, answer), lastValidOf, lag);
            && Told(signature, if signature in c.reverted then Failed else Confirmed) in d.told
            && id !in d.lookups && signature !in d.book
  {
  }

  // ------------------------------------------------------------ exact margin

  /** No run ever answers what is not so. */
  ghost predicate NeverWrong(lag: nat) {
    forall events: seq<Event>, lastValidOf: string -> nat, t: Told ::
      t in Run(events, lastValidOf, lag).told ==> IsTrue(Run(events, lastValidOf, lag), t, lastValidOf)
  }

  function Wait(n: nat): seq<Event> {
    if n == 0 then [] else [Advance] + Wait(n - 1)
  }

  lemma {:induction false} WaitingOnlyAdvances(
    c: Cluster, n: nat, rest: seq<Event>, lastValidOf: string -> nat, lag: nat)
    ensures After(c, Wait(n) + rest, lastValidOf, lag) == After(c.(height := c.height + n), rest, lastValidOf, lag)
    decreases n
  {
    if n == 0 {
      assert Wait(0) + rest == rest;
    } else {
      var events := Wait(n) + rest;
      assert events[0] == Advance && events[1..] == Wait(n - 1) + rest;
      WaitingOnlyAdvances(c.(height := c.height + 1), n - 1, rest, lastValidOf, lag);
    }
  }

  const LATE := "sig"
  const LANDED := Cluster(1, map[LATE := 1], {}, map[LATE := 1], map[LATE := 1], map[], {})

  lemma LandsInTime(rest: seq<Event>, lastValidOf: string -> nat, lag: nat)
    requires lastValidOf(LATE) == 1
    ensures After(GENESIS, [Remember(LATE), Advance, Land(LATE, false)] + rest, lastValidOf, lag)
            == After(LANDED, rest, lastValidOf, lag)
  {
    var events := [Remember(LATE), Advance, Land(LATE, false)] + rest;
    var c1 := Step(GENESIS, events[0], lastValidOf, lag);
    assert c1 == Cluster(0, map[], {}, map[LATE := 1], map[LATE := 1], map[], {});
    var c2 := Step(c1, events[1], lastValidOf, lag);
    assert Step(c2, events[2], lastValidOf, lag) == LANDED;
    var e1 := events[1..];
    var e2 := e1[1..];
    assert e1[0] == events[1] && e2[0] == events[2] && e2[1..] == rest;
    assert After(GENESIS, events, lastValidOf, lag) == After(c1, e1, lastValidOf, lag);
    assert After(c1, e1, lastValidOf, lag) == After(c2, e2, lastValidOf, lag);
    assert After(c2, e2, lastValidOf, lag) == After(LANDED, rest, lastValidOf, lag);
  }

  lemma IsMissed(lastValidOf: string -> nat, lag: nat)
    requires lag > EXPIRY_MARGIN + 1
    ensures var c := LANDED.(height := EXPIRY_MARGIN + 2);
            var asked := c.(lookups := map[0 := (LATE, Started)]);
            var once := c.(lookups := map[0 := (LATE, AskedOnce(1))]);
            var told := c.(lookups := map[0 := (LATE, KnowsHeight(1, EXPIRY_MARGIN + 2))]);
            && Step(c, Ask(0, LATE), lastValidOf, lag) == asked
            && Step(asked, FirstAnswer(0, 0, Missing), lastValidOf, lag) == once
            && Step(once, HeightAnswer(0, EXPIRY_MARGIN + 2), lastValidOf, lag) == told
            && Step(told, SecondAnswer(0, 0, Missing), lastValidOf, lag).told == {Told(LATE, Failed)}
            && Step(told, SecondAnswer(0, 0, Missing), lastValidOf, lag).landed == c.landed
            && Step(told, SecondAnswer(0, 0, Missing), lastValidOf, lag).reverted == {}
  {
  }

  /** What happens once the transaction is remembered: it lands, time passes, and a lookup misses it. */
  function LateEvents(): seq<Event> {
    var asks := [Ask(0, LATE), FirstAnswer(0, 0, Missing), HeightAnswer(0, EXPIRY_MARGIN + 2),
                 SecondAnswer(0, 0, Missing)];
    [Advance, Land(LATE, false)] + (Wait(EXPIRY_MARGIN + 1) + asks)
  }

  /** It was called failed, though it landed and succeeded. */
  predicate MisledAbout(c: Cluster) {
    Told(LATE, Failed) in c.told && LATE in c.landed && LATE !in c.reverted
  }

  /** A transaction lands in time, and a node a little too far behind has not seen it. */
  lemma LateEventsMislead(lastValidOf: string -> nat, lag: nat)
    requires lag > EXPIRY_MARGIN + 1 && lastValidOf(LATE) == 1
    ensures var c := Run([Remember(LATE)] + LateEvents(), lastValidOf, lag); MisledAbout(c)
  {
    var asks := [Ask(0, LATE), FirstAnswer(0, 0, Missing), HeightAnswer(0, EXPIRY_MARGIN + 2),
                 SecondAnswer(0, 0, Missing)];
    assert [Remember(LATE)] + LateEvents()
        == [Remember(LATE), Advance, Land(LATE, false)] + (Wait(EXPIRY_MARGIN + 1) + asks);
    LandsInTime(Wait(EXPIRY_MARGIN + 1) + asks, lastValidOf, lag);
    WaitingOnlyAdvances(LANDED, EXPIRY_MARGIN + 1, asks, lastValidOf, lag);
    IsMissed(lastValidOf, lag);
    FourSteps(LANDED.(height := EXPIRY_MARGIN + 2), asks, lastValidOf, lag);
  }

  lemma LaggingNodeMisleads(lag: nat) returns (events: seq<Event>, lastValidOf: string -> nat)
    requires lag > EXPIRY_MARGIN + 1
    ensures MisledAbout(Run(events, lastValidOf, lag))
  {
    lastValidOf := (s: string) => 1;
    events := [Remember(LATE)] + LateEvents();
    LateEventsMislead(lastValidOf, lag);
  }

  lemma FourSteps(c: Cluster, events: seq<Event>, lastValidOf: string -> nat, lag: nat)
    requires |events| == 4
    ensures After(c, events, lastValidOf, lag)
            == Step(Step(Step(Step(c, events[0], lastValidOf, lag), events[1], lastValidOf, lag),
                         events[2], lastValidOf, lag), events[3], lastValidOf, lag)
  {
    var c1 := Step(c, events[0], lastValidOf, lag);
    var c2 := Step(c1, events[1], lastValidOf, lag);
    var c3 := Step(c2, events[2], lastValidOf, lag);
    assert After(c, events, lastValidOf, lag) == After(c1, events[1..], lastValidOf, lag);
    assert After(c1, events[1..], lastValidOf, lag) == After(c2, events[1..][1..], lastValidOf, lag);
    assert After(c2, events[1..][1..], lastValidOf, lag) == After(c3, events[1..][1..][1..], lastValidOf, lag);
  }

  /** The margin covers exactly the status nodes that lag by up to it and one more. */
  lemma MarginIsExact(lag: nat)
    ensures NeverWrong(lag) <==> lag <= EXPIRY_MARGIN + 1
  {
    if lag <= EXPIRY_MARGIN + 1 {
      forall events: seq<Event>, lastValidOf: string -> nat, t: Told
        | t in Run(events, lastValidOf, lag).told
        ensures IsTrue(Run(events, lastValidOf, lag), t, lastValidOf)
      {
        ExpiryIsSound(events, lastValidOf, lag, t);
      }
    } else {
      var events, lastValidOf := LaggingNodeMisleads(lag);
    }
  }
}
