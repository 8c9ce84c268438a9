/**
 Retrying on Solana (internal/httpapi/platform.go:1677-1705, 1803-1830,
 internal/chain/solana/transaction.go:14-133): the requests and records of SignOnce beside
 the cluster of SolanaExpiry. The expiry height a record keeps is the one the wallet's
 verdict is made with, so a repeat told to use a new key never doubles a transaction.
 */
module SolanaRetry {
  import opened Wrappers
  import opened OperationStore
  import opened SignOnce
  import opened SignOnceRecord
  import opened SignOnceNames
  import opened SignOnceReplays
  import opened SignOnceSpared
  import SolanaExpiry

  /** Requests and records beside the cluster. */
  datatype World = World(wallet: State, cluster: SolanaExpiry.Cluster)

  datatype Moment =
    | Wallet(e: Event)
    | Chain(c: SolanaExpiry.Event)
    | Remember(id: nat)                         // the adapter keeps the expiry of what it signed
    | Restore(key: string)                      // a lookup takes the expiry from the record

  /** What the cluster will enforce for each transaction. */
  type Validity = string -> nat

  const START := World(INITIAL, SolanaExpiry.GENESIS)

  /**
   What the wallet is told fits the cluster: a message signed after its expiry was
   announced expires then, the status written over a record with an expiry is one a lookup
   of its transaction answered, and a Solana broadcast is never answered with an execution.
   */
  predicate Fits(w: World, e: Event, lastValidOf: Validity) {
    var s := w.wallet;
    match e
    case Sign(id, txHash) =>
      id in s.handlers && s.handlers[id].phase.Announced? ==> lastValidOf(txHash) == s.handlers[id].phase.height
    case Poll(txHash, status, found, _, _) =>
      found.Some? && found.value in s.records && s.records[found.value].lastValidBlockHeight != 0 ==>
        SolanaExpiry.Told(txHash, status) in w.cluster.told
    case Receive(id, answer) => answer.Executed? && id in s.handlers ==> s.handlers[id].family != Solana
    case _ => true
  }

  function Learn(c: SolanaExpiry.Cluster, signature: string, height: nat): SolanaExpiry.Cluster {
    c.(book := c.book[signature := height], disk := c.disk[signature := height])
  }

  /** The adapter remembers what the request's signature expires at. */
  function RememberIn(w: World, id: nat): World {
    if id in w.wallet.handlers && w.wallet.handlers[id].family == Solana && w.wallet.handlers[id].phase.Signed?
    then w.(cluster := Learn(w.cluster, w.wallet.handlers[id].phase.txHash, w.wallet.handlers[id].phase.height))
    else w
  }

  /** After a restart the expiry is read back from the record. */
  function RestoreIn(w: World, key: string): World {
    if key in w.wallet.records && w.wallet.records[key].lastValidBlockHeight != 0
    then w.(cluster := Learn(w.cluster, w.wallet.records[key].txHash, w.wallet.records[key].lastValidBlockHeight))
    else w
  }

  ghost function Next(w: World, m: Moment, lastValidOf: Validity, lag: nat): World {
    match m
    case Wallet(e) => if Fits(w, e, lastValidOf) then w.(wallet := Step(w.wallet, e)) else w
    case Chain(c) =>
      if c.Remember? || c.Restore? then w else w.(cluster := SolanaExpiry.Step(w.cluster, c, lastValidOf, lag))
    case Remember(id) => RememberIn(w, id)
    case Restore(key) => RestoreIn(w, key)
  }

  ghost function Follow(w: World, more: seq<Moment>, lastValidOf: Validity, lag: nat): World
    decreases |more|
  {
    if more == [] then w else Follow(Next(w, more[0], lastValidOf, lag), more[1..], lastValidOf, lag)
  }

  /** Pruning spares what can still be written, at every step of the wallet's. */
  predicate SparesAt(w: World, m: Moment) {
    m.Wallet? ==> Spares(w.wallet, m.e, AnId) && Spares(w.wallet, m.e, AFailure)
  }

  ghost predicate SparesThroughout(w: World, more: seq<Moment>, lastValidOf: Validity, lag: nat)
    decreases |more|
  {
    more != [] ==>
      SparesAt(w, more[0]) && SparesThroughout(Next(w, more[0], lastValidOf, lag), more[1..], lastValidOf, lag)
  }

  // --------------------------------------------------------- heights are true

  predicate RecordDated(item: Operation, lastValidOf: Validity) {
    item.lastValidBlockHeight != 0 ==> item.lastValidBlockHeight == lastValidOf(item.txHash)
  }

  predicate PhaseDated(h: Handler, lastValidOf: Validity) {
    h.family == Solana ==>
      match h.phase
      case Withheld(txHash, height) => height == lastValidOf(txHash)
      case Signed(txHash, height) => height != 0 && height == lastValidOf(txHash)
      case Sent(txHash, height) => height != 0 && height == lastValidOf(txHash)
      case _ => true
  }

  /** Before a request records an id its record has none, and only Solana's keep a height. */
  predicate Unwritten(item: Operation, h: Handler) {
    && (h.phase.Reserved? || h.phase.Announced? || h.phase.Withheld? ==>
          item.txHash == "" && item.lastValidBlockHeight == 0)
    && (h.family != Solana ==> item.lastValidBlockHeight == 0)
  }

  ghost predicate ReleaseDated(x: Entry, lastValidOf: Validity) {
    x.Release? && x.family == Solana ==> x.height != 0 && x.height == lastValidOf(x.txHash)
  }

  predicate RequestDated(s: State, h: Handler, lastValidOf: Validity) {
    PhaseDated(h, lastValidOf) && (Owns(s, h) && h.Key() in s.records ==> Unwritten(s.records[h.Key()], h))
  }

  /** Every height the wallet keeps is the one the cluster enforces. */
  ghost predicate Dated(s: State, lastValidOf: Validity) {
    && (forall k :: k in s.records ==> RecordDated(s.records[k], lastValidOf))
    && (forall id :: id in s.handlers ==> RequestDated(s, s.handlers[id], lastValidOf))
    && (forall x :: x in s.log ==> ReleaseDated(x, lastValidOf))
  }

  /** A request whose own record was forgotten has no id left to write. */
  lemma OthersNameNothing(s: State, e: Event)
    requires WritersOwn(s, AnId) && NoteOf(s, e).Some? && !Owns(s, s.handlers[NoteOf(s, e).value.id])
    ensures NoteOf(s, e).value.txHash == "" && NoteOf(s, e).value.height == 0
  {
  }

  /** One request moves; ids, heights and the rest of the requests stay. */
  lemma MoveStaysDated(s: State, t: State, id: nat, lastValidOf: Validity)
    requires Dated(s, lastValidOf) && id in s.handlers
    requires t.records == s.records && t.births == s.births
    requires id in t.handlers && t.handlers == s.handlers[id := t.handlers[id]]
    requires t.handlers[id].(phase := s.handlers[id].phase) == s.handlers[id]
    requires PhaseDated(t.handlers[id], lastValidOf)
    requires t.handlers[id].phase.Withheld? || t.handlers[id].phase.Announced? ==>
               (s.handlers[id].phase.Reserved? || s.handlers[id].phase.Announced?)
    requires !t.handlers[id].phase.Reserved?
    requires forall x :: x in t.log ==> x in s.log || ReleaseDated(x, lastValidOf)
    ensures Dated(t, lastValidOf)
  {
    forall j | j in t.handlers ensures RequestDated(t, t.handlers[j], lastValidOf) {
      assert RequestDated(s, s.handlers[j], lastValidOf);
    }
    forall x | x in t.log ensures ReleaseDated(x, lastValidOf) {
      if x in s.log { assert ReleaseDated(x, lastValidOf); }
    }
  }

  lemma SignStaysDated(s: State, id: nat, txHash: string, lastValidOf: Validity)
    requires Sound(s) && Dated(s, lastValidOf)
    requires id in s.handlers && s.handlers[id].phase.Announced? ==> lastValidOf(txHash) == s.handlers[id].phase.height
    ensures Dated(SignStep(s, id, txHash), lastValidOf)
  {
    var t := SignStep(s, id, txHash);
    if t != s {
      RequestBefore(s, id);
      assert RequestDated(s, s.handlers[id], lastValidOf);
      MoveStaysDated(s, t, id, lastValidOf);
    }
  }

  lemma SendStaysDated(s: State, id: nat, lastValidOf: Validity)
    requires Dated(s, lastValidOf)
    ensures Dated(SendStep(s, id), lastValidOf)
  {
    var t := SendStep(s, id);
    if t != s {
      assert RequestDated(s, s.handlers[id], lastValidOf);
      MoveStaysDated(s, t, id, lastValidOf);
    }
  }

  lemma QuietMovesStayDated(s: State, id: nat, height: nat, answer: Answer, lastValidOf: Validity)
    requires Dated(s, lastValidOf)
    ensures Dated(AnnounceStep(s, id, height), lastValidOf) && Dated(RefuseStep(s, id), lastValidOf)
    ensures Dated(ReceiveStep(s, id, answer), lastValidOf)
  {
    if AnnounceStep(s, id, height) != s { MoveStaysDated(s, AnnounceStep(s, id, height), id, lastValidOf); }
    if RefuseStep(s, id) != s { MoveStaysDated(s, RefuseStep(s, id), id, lastValidOf); }
    if ReceiveStep(s, id, answer) != s { MoveStaysDated(s, ReceiveStep(s, id, answer), id, lastValidOf); }
  }

  /** Requests come and go and statuses change, but no id, height, lifetime or entry does. */
  lemma FewerStayDated(s: State, t: State, lastValidOf: Validity)
    requires Dated(s, lastValidOf) && t.records.Keys == s.records.Keys && t.births == s.births && t.log == s.log
    requires forall k :: k in s.records ==>
               t.records[k].txHash == s.records[k].txHash
               && t.records[k].lastValidBlockHeight == s.records[k].lastValidBlockHeight
    requires forall id :: id in t.handlers ==> id in s.handlers && t.handlers[id] == s.handlers[id]
    ensures Dated(t, lastValidOf)
  {
    forall k | k in t.records ensures RecordDated(t.records[k], lastValidOf) {
      assert RecordDated(s.records[k], lastValidOf);
    }
    forall id | id in t.handlers ensures RequestDated(t, t.handlers[id], lastValidOf) {
      assert RequestDated(s, s.handlers[id], lastValidOf);
    }
  }

  lemma BeginStaysDated(s: State, e: Event, lastValidOf: Validity)
    requires e.Begin? && Sound(s) && Dated(s, lastValidOf)
    ensures Dated(BeginStep(s, e), lastValidOf)
  {
    BeginReserves(s, e);
    if Reserves(s, e) {
      var t := BeginStep(s, e);
      forall k | k in t.records ensures RecordDated(t.records[k], lastValidOf) {
        if k in s.records { assert RecordDated(s.records[k], lastValidOf); }
      }
      forall id | id in t.handlers ensures RequestDated(t, t.handlers[id], lastValidOf) {
        ReservedIsDated(s, e, id, lastValidOf);
      }
    }
  }

  lemma ReservedIsDated(s: State, e: Event, id: nat, lastValidOf: Validity)
    requires Reserves(s, e) && Sound(s) && Dated(s, lastValidOf) && id in BeginStep(s, e).handlers
    ensures RequestDated(BeginStep(s, e), BeginStep(s, e).handlers[id], lastValidOf)
  {
    BeginReserves(s, e);
    if id in s.handlers { RunningIsDated(s, e, id, lastValidOf); }
  }

  lemma RunningIsDated(s: State, e: Event, id: nat, lastValidOf: Validity)
    requires Reserves(s, e) && Sound(s) && Dated(s, lastValidOf) && id in s.handlers
    ensures RequestDated(BeginStep(s, e), s.handlers[id], lastValidOf)
  {
    BeginReserves(s, e);
    var h := s.handlers[id];
    assert RequestDated(s, h, lastValidOf);
    assert Lifetime(s.lifetimes, h.birth, h.Key());
  }

  /** Recording and finishing: an owner writes an id with the height it expires at, or the one that is there. */
  lemma NotedStaysDated(s: State, e: Event, lastValidOf: Validity)
    requires Sound(s) && SignOnceNames.Named(s) && WritersOwn(s, AnId) && Dated(s, lastValidOf) && NoteOf(s, e).Some?
    requires e.id in s.handlers && s.handlers[e.id].Key() in s.records && NoteOf(s, e).value.id == e.id
    ensures var n := NoteOf(s, e).value; var item := s.records[s.handlers[e.id].Key()];
            RecordDated(Updated(item, n.txHash, n.status, n.height, e.now), lastValidOf)
  {
    var h := s.handlers[e.id];
    RequestBefore(s, e.id);
    assert RecordDated(s.records[h.Key()], lastValidOf);
    assert RequestDated(s, h, lastValidOf) && RequestNamed(s, h);
    if !Owns(s, h) { OthersNameNothing(s, e); }
  }

  /** How the request that writes goes on: what it has signed keeps its height. */
  lemma WriterStaysDated(s: State, e: Event, lastValidOf: Validity)
    requires Sound(s) && SignOnceNames.Named(s) && WritersOwn(s, AnId) && Dated(s, lastValidOf)
    requires (e.Record? || e.Finish?) && e.id in s.handlers && e.id in Step(s, e).handlers
    ensures RequestDated(Step(s, e), Step(s, e).handlers[e.id], lastValidOf)
  {
    assert RequestDated(s, s.handlers[e.id], lastValidOf);
    if e.Record? { RecorderStaysDated(s, e, lastValidOf); } else { UnfinishedStays(s, e); }
  }

  lemma RecorderStaysDated(s: State, e: Event, lastValidOf: Validity)
    requires Sound(s) && Dated(s, lastValidOf) && e.Record?
    requires e.id in s.handlers && e.id in RecordStep(s, e.id, e.txHash, e.now, e.write).handlers
    ensures var t := RecordStep(s, e.id, e.txHash, e.now, e.write);
            RequestDated(t, t.handlers[e.id], lastValidOf)
  {
    RecordWrites(s, e);
    RecordMoves(s, e);
    RequestBefore(s, e.id);
    assert RequestDated(s, s.handlers[e.id], lastValidOf);
  }

  lemma OtherRequestStaysDated(s: State, e: Event, j: nat, lastValidOf: Validity)
    requires Sound(s) && WritersOwn(s, AnId) && Dated(s, lastValidOf) && (e.Record? || e.Finish?)
    requires j in s.handlers && j != e.id && j in Step(s, e).handlers && Step(s, e).handlers[j] == s.handlers[j]
    ensures RequestDated(Step(s, e), Step(s, e).handlers[j], lastValidOf)
  {
    NotesAreWritten(s, e);
    var t, h := Step(s, e), s.handlers[j];
    assert RequestDated(s, h, lastValidOf);
    if Owns(t, h) && h.Key() in t.records { OthersRecordStays(s, t, e, h.Key()); }
  }

  /** A note on another request's own record is of one whose record was forgotten, and names nothing. */
  lemma OthersRecordStays(s: State, t: State, e: Event, k: string)
    requires WritersOwn(s, AnId) && OnceInvariant(s) && k in t.records && k in s.births && (e.Record? || e.Finish?)
    requires NoteOf(s, e).None? ==> t.records == s.records
    requires NoteOf(s, e).Some? ==>
               && e.id in s.handlers && NoteOf(s, e).value.id == e.id && s.handlers[e.id].Key() in s.records
               && t.records == Noted(s.records, s.handlers[e.id].Key(), NoteOf(s, e).value, e.now)
    requires e.id in s.handlers ==> s.handlers[e.id].birth != s.births[k]
    ensures k in s.records && t.records[k].txHash == s.records[k].txHash
    ensures t.records[k].lastValidBlockHeight == s.records[k].lastValidBlockHeight
  {
    if NoteOf(s, e).Some? && !Owns(s, s.handlers[e.id]) { OthersNameNothing(s, e); }
  }

  lemma NotedRecordsStayDated(s: State, e: Event, k: string, lastValidOf: Validity)
    requires Sound(s) && SignOnceNames.Named(s) && WritersOwn(s, AnId) && Dated(s, lastValidOf)
    requires (e.Record? || e.Finish?) && k in Step(s, e).records
    ensures RecordDated(Step(s, e).records[k], lastValidOf)
  {
    NotesAreWritten(s, e);
    assert k in s.records ==> RecordDated(s.records[k], lastValidOf);
    if NoteOf(s, e).Some? {
      NotedIsLive(s, e);
      NotedStaysDated(s, e, lastValidOf);
    }
  }

  lemma WritesStayDated(s: State, e: Event, lastValidOf: Validity)
    requires Sound(s) && SignOnceNames.Named(s) && WritersOwn(s, AnId) && Dated(s, lastValidOf)
    requires e.Record? || e.Finish?
    ensures Dated(Step(s, e), lastValidOf)
  {
    var t := Step(s, e);
    assert t.log == s.log by { NotesAreWritten(s, e); }
    forall k | k in t.records ensures RecordDated(t.records[k], lastValidOf) {
      NotedRecordsStayDated(s, e, k, lastValidOf);
    }
    forall j | j in t.handlers ensures RequestDated(t, t.handlers[j], lastValidOf) {
      OnlyItsRequestMoves(s, e);
      if j == e.id { WriterStaysDated(s, e, lastValidOf); } else { OtherRequestStaysDated(s, e, j, lastValidOf); }
    }
  }

  lemma StepStaysDated(w: World, e: Event, lastValidOf: Validity)
    requires Sound(w.wallet) && SignOnceNames.Named(w.wallet) && WritersOwn(w.wallet, AnId)
    requires Dated(w.wallet, lastValidOf) && Fits(w, e, lastValidOf)
    ensures Dated(Step(w.wallet, e), lastValidOf)
  {
    var s := w.wallet;
    match e
    case Begin(_, _, _, _, _, _, _, _) => BeginStaysDated(s, e, lastValidOf);
    case Announce(id, height) => QuietMovesStayDated(s, id, height, Taken, lastValidOf);
    case Record(_, _, _, _) => WritesStayDated(s, e, lastValidOf);
    case Sign(id, txHash) => SignStaysDated(s, id, txHash, lastValidOf);
    case Refuse(id) => QuietMovesStayDated(s, id, 0, Taken, lastValidOf);
    case Send(id) => SendStaysDated(s, id, lastValidOf);
    case Deliver(birth) => FewerStayDated(s, DeliverStep(s, birth), lastValidOf);
    case Receive(id, answer) => QuietMovesStayDated(s, id, 0, answer, lastValidOf);
    case Finish(_, _, _) => WritesStayDated(s, e, lastValidOf);
    case Poll(txHash, status, found, now, write) =>
      PollKeepsIds(s, txHash, status, found, now, write);
      PollOnlyReports(s, txHash, status, found, now, write);
      FewerStayDated(s, PollStep(s, txHash, status, found, now, write), lastValidOf);
    case Crash => FewerStayDated(s, s.(handlers := map[]), lastValidOf);
  }

  // ------------------------------------------------------------ what is doomed

  /** The transaction has no effect on the chain and never will. */
  ghost predicate Gone(w: World, signature: string, lastValidOf: Validity) {
    SolanaExpiry.Dead(w.cluster, signature, lastValidOf) || signature in w.cluster.reverted
  }

  ghost predicate PhaseDoomed(w: World, phase: Phase, lastValidOf: Validity) {
    match phase
    case Signed(txHash, _) => Gone(w, txHash, lastValidOf)
    case Sent(txHash, _) => Gone(w, txHash, lastValidOf)
    case Finishing(_, _) => true
    case _ => false
  }

  /** Whatever left or may still leave for this lifetime is gone. */
  ghost predicate Doomed(w: World, birth: nat, lastValidOf: Validity) {
    && birth < |w.wallet.lifetimes|
    && (forall x :: x in w.wallet.log && x.Release? && x.birth == birth && x.family == Solana ==>
          Gone(w, x.txHash, lastValidOf))
    && (forall id :: id in w.wallet.handlers && w.wallet.handlers[id].birth == birth
                     && w.wallet.handlers[id].family == Solana ==>
          PhaseDoomed(w, w.wallet.handlers[id].phase, lastValidOf))
  }

  /** Only what is doomed was reported failed. */
  ghost predicate ReportsHold(w: World, lastValidOf: Validity) {
    forall b :: b in w.wallet.reported ==> Doomed(w, b, lastValidOf)
  }

  /** Neither landing nor time brings a transaction back. */
  predicate OnlyForward(w: World, v: World) {
    && w.cluster.height <= v.cluster.height
    && w.cluster.reverted <= v.cluster.reverted
    && (forall x :: x in w.cluster.landed ==> x in v.cluster.landed)
  }

  ghost predicate LandsInTime(w: World, v: World, lastValidOf: Validity) {
    forall x :: x in v.cluster.landed && x !in w.cluster.landed ==> w.cluster.height <= lastValidOf(x)
  }

  lemma GoneStaysGone(w: World, v: World, signature: string, lastValidOf: Validity)
    requires Gone(w, signature, lastValidOf) && OnlyForward(w, v) && LandsInTime(w, v, lastValidOf)
    ensures Gone(v, signature, lastValidOf)
  {
  }

  lemma ClusterGoesForward(w: World, m: Moment, lastValidOf: Validity, lag: nat)
    ensures OnlyForward(w, Next(w, m, lastValidOf, lag)) && LandsInTime(w, Next(w, m, lastValidOf, lag), lastValidOf)
  {
  }

  /** The wallet's part is untouched. */
  lemma DoomedStaysForward(w: World, v: World, birth: nat, lastValidOf: Validity)
    requires Doomed(w, birth, lastValidOf) && v.wallet == w.wallet
    requires OnlyForward(w, v) && LandsInTime(w, v, lastValidOf)
    ensures Doomed(v, birth, lastValidOf)
  {
    forall x | x in v.wallet.log && x.Release? && x.birth == birth && x.family == Solana
      ensures Gone(v, x.txHash, lastValidOf)
    {
      GoneStaysGone(w, v, x.txHash, lastValidOf);
    }
    forall id | id in v.wallet.handlers && v.wallet.handlers[id].birth == birth
                && v.wallet.handlers[id].family == Solana
      ensures PhaseDoomed(v, v.wallet.handlers[id].phase, lastValidOf)
    {
      var phase := w.wallet.handlers[id].phase;
      assert PhaseDoomed(w, phase, lastValidOf);
      if phase.Signed? || phase.Sent? { GoneStaysGone(w, v, phase.txHash, lastValidOf); }
    }
  }

  /** What a step adds for this lifetime: nothing, or the release of what is signed already. */
  lemma ReleasesComeFromSigned(s: State, e: Event, x: Entry)
    requires x in Step(s, e).log && x !in s.log && x.Release?
    ensures e.Send? && e.id in s.handlers && s.handlers[e.id].phase.Signed?
    ensures x == Release(s.handlers[e.id].Key(), s.handlers[e.id].birth, s.handlers[e.id].family,
                   s.handlers[e.id].phase.txHash, s.handlers[e.id].phase.height)
  {
  }

  /** A request past signing goes on with what it signed. */
  predicate Past(before: Phase, after: Phase) {
    match before
    case Signed(txHash, height) => after == before || after == Sent(txHash, height) || after.Finishing?
    case Sent(_, _) => after == before || after.Finishing?
    case Finishing(_, _) => after == before
    case _ => true
  }

  predicate GoesPast(before: Handler, after: Handler) {
    after.(phase := before.phase) == before && Past(before.phase, after.phase)
  }

  lemma RecordedGoesPast(s: State, e: Event, id: nat)
    requires e.Record? && id in RecordStep(s, e.id, e.txHash, e.now, e.write).handlers
    ensures id in s.handlers
    ensures GoesPast(s.handlers[id], RecordStep(s, e.id, e.txHash, e.now, e.write).handlers[id])
  {
    RecordMoves(s, e);
  }

  lemma SignedGoesPast(s: State, id: nat, txHash: string, j: nat)
    requires j in SignStep(s, id, txHash).handlers
    ensures j in s.handlers && GoesPast(s.handlers[j], SignStep(s, id, txHash).handlers[j])
  {
  }

  lemma AnsweredGoesPast(s: State, id: nat, answer: Answer, j: nat)
    requires j in ReceiveStep(s, id, answer).handlers
    ensures j in s.handlers && GoesPast(s.handlers[j], ReceiveStep(s, id, answer).handlers[j])
  {
  }

  lemma RunningGoesPast(s: State, e: Event, id: nat)
    requires !e.Begin? && id in Step(s, e).handlers
    ensures id in s.handlers && GoesPast(s.handlers[id], Step(s, e).handlers[id])
  {
    match e
    case Record(_, _, _, _) => RecordedGoesPast(s, e, id);
    case Announce(_, _) =>
    case Sign(signer, txHash) => SignedGoesPast(s, signer, txHash, id);
    case Refuse(_) =>
    case Send(_) =>
    case Deliver(_) =>
    case Receive(receiver, answer) => AnsweredGoesPast(s, receiver, answer, id);
    case Finish(_, _, _) =>
    case Poll(_, _, _, _, _) =>
    case Crash =>
  }

  lemma RequestsGoPast(s: State, e: Event, id: nat)
    requires id in Step(s, e).handlers
    ensures id in s.handlers ==> GoesPast(s.handlers[id], Step(s, e).handlers[id])
    ensures id !in s.handlers ==> Step(s, e).handlers[id].birth == |s.lifetimes|
  {
    if e.Begin? { BeginReserves(s, e); } else { RunningGoesPast(s, e, id); }
  }

  lemma DoomedStaysStepping(w: World, e: Event, birth: nat, lastValidOf: Validity)
    requires Doomed(w, birth, lastValidOf)
    ensures Doomed(w.(wallet := Step(w.wallet, e)), birth, lastValidOf)
  {
    var s, t := w.wallet, Step(w.wallet, e);
    var v := w.(wallet := t);
    forall x | x in t.log && x.Release? && x.birth == birth && x.family == Solana
      ensures Gone(v, x.txHash, lastValidOf)
    {
      if x !in s.log {
        ReleasesComeFromSigned(s, e, x);
        assert PhaseDoomed(w, s.handlers[e.id].phase, lastValidOf);
      } else {
        assert Gone(w, x.txHash, lastValidOf);
      }
    }
    forall id | id in t.handlers && t.handlers[id].birth == birth && t.handlers[id].family == Solana
      ensures PhaseDoomed(v, t.handlers[id].phase, lastValidOf)
    {
      RequestsGoPast(s, e, id);
      assert PhaseDoomed(w, s.handlers[id].phase, lastValidOf);
    }
  }

  /** A lookup calls a record's transaction failed: what it names is all its lifetime has, and it is gone. */
  lemma ReportIsDoomed(w: World, e: Event, lastValidOf: Validity)
    requires Sound(w.wallet) && SignOnceNames.Named(w.wallet) && Dated(w.wallet, lastValidOf)
    requires SolanaExpiry.Sound(w.cluster, lastValidOf)
    requires e.Poll? && Fits(w, e, lastValidOf) && e.status == Failed && e.found.Some?
    requires Names(w.wallet.records, e.txHash, e.found.value) && e.found.value in w.wallet.births
    ensures Doomed(w, w.wallet.births[e.found.value], lastValidOf)
  {
    var s, k := w.wallet, e.found.value;
    var birth := s.births[k];
    assert Lifetime(s.lifetimes, birth, k) && RecordNamed(s, k);
    forall x | x in s.log && x.Release? && x.birth == birth && x.family == Solana
      ensures Gone(w, x.txHash, lastValidOf)
    {
      assert ReleaseDated(x, lastValidOf) && NamesTransaction(s.records[k], x.family, x.txHash, x.height);
    }
    forall id | id in s.handlers && s.handlers[id].birth == birth && s.handlers[id].family == Solana
      ensures PhaseDoomed(w, s.handlers[id].phase, lastValidOf)
    {
      RunningIsDoomed(w, e, id, lastValidOf);
    }
  }

  lemma RunningIsDoomed(w: World, e: Event, id: nat, lastValidOf: Validity)
    requires Sound(w.wallet) && SignOnceNames.Named(w.wallet) && Dated(w.wallet, lastValidOf)
    requires SolanaExpiry.Sound(w.cluster, lastValidOf)
    requires e.Poll? && Fits(w, e, lastValidOf) && e.status == Failed && e.found.Some?
    requires Names(w.wallet.records, e.txHash, e.found.value) && e.found.value in w.wallet.births
    requires id in w.wallet.handlers && w.wallet.handlers[id].birth == w.wallet.births[e.found.value]
    requires w.wallet.handlers[id].family == Solana
    ensures PhaseDoomed(w, w.wallet.handlers[id].phase, lastValidOf)
  {
    var s, h, k := w.wallet, w.wallet.handlers[id], e.found.value;
    RequestBefore(s, id);
    assert Lifetime(s.lifetimes, s.births[k], k);
    assert Owns(s, h);
    assert RequestDated(s, h, lastValidOf) && RequestNamed(s, h);
  }

  /** An execution is never the answer to a Solana broadcast. */
  lemma ExecutedIsNotSolana(w: World, e: Event, lastValidOf: Validity)
    requires Sound(w.wallet) && e.Receive? && e.answer.Executed? && Fits(w, e, lastValidOf) && e.id in w.wallet.handlers
    ensures Doomed(w, w.wallet.handlers[e.id].birth, lastValidOf)
  {
    RequestBefore(w.wallet, e.id);
  }

  lemma ReportsStayHeld(w: World, e: Event, lastValidOf: Validity)
    requires Sound(w.wallet) && SignOnceNames.Named(w.wallet) && Dated(w.wallet, lastValidOf)
    requires SolanaExpiry.Sound(w.cluster, lastValidOf) && ReportsHold(w, lastValidOf) && Fits(w, e, lastValidOf)
    ensures ReportsHold(w.(wallet := Step(w.wallet, e)), lastValidOf)
  {
    var v := w.(wallet := Step(w.wallet, e));
    forall b | b in v.wallet.reported ensures Doomed(v, b, lastValidOf) {
      if b !in w.wallet.reported {
        NewReports(w.wallet, e, b);
        if e.Poll? { ReportIsDoomed(w, e, lastValidOf); } else { ExecutedIsNotSolana(w, e, lastValidOf); }
      }
      DoomedStaysStepping(w, e, b, lastValidOf);
    }
  }

  // ---------------------------------------------------------------- whole runs

  /** What holds of requests and records while pruning spares what can still be written. */
  ghost predicate Orderly(s: State) {
    && Sound(s) && SignOnceNames.Named(s) && Accounted(s)
    && WritersOwn(s, AnId) && WritersOwn(s, AFailure)
  }

  ghost predicate Good(w: World, lastValidOf: Validity) {
    && Orderly(w.wallet) && Dated(w.wallet, lastValidOf)
    && SolanaExpiry.Sound(w.cluster, lastValidOf) && ReportsHold(w, lastValidOf)
  }

  lemma StepStaysOrderly(s: State, e: Event)
    requires Orderly(s) && Spares(s, e, AnId) && Spares(s, e, AFailure)
    ensures Orderly(Step(s, e))
  {
    OnlyWritersOverwrite(s, e);
    StepStaysSound(s, e);
    NamesAreKeptIff(s, e);
    AccountsAreKeptIff(s, e);
    SparingKeepsWritersOwn(s, e, AnId);
    SparingKeepsWritersOwn(s, e, AFailure);
  }

  lemma WalletStaysGood(w: World, e: Event, lastValidOf: Validity)
    requires Good(w, lastValidOf) && Fits(w, e, lastValidOf)
    requires Spares(w.wallet, e, AnId) && Spares(w.wallet, e, AFailure)
    ensures Good(w.(wallet := Step(w.wallet, e)), lastValidOf)
  {
    StepStaysOrderly(w.wallet, e);
    StepStaysDated(w, e, lastValidOf);
    ReportsStayHeld(w, e, lastValidOf);
  }

  lemma ClusterStaysGood(w: World, v: World, lastValidOf: Validity)
    requires Good(w, lastValidOf) && v.wallet == w.wallet && SolanaExpiry.Sound(v.cluster, lastValidOf)
    requires OnlyForward(w, v) && LandsInTime(w, v, lastValidOf)
    ensures Good(v, lastValidOf)
  {
    forall b | b in v.wallet.reported ensures Doomed(v, b, lastValidOf) {
      DoomedStaysForward(w, v, b, lastValidOf);
    }
  }

  /** The height a request or a record keeps is what remembering it assumes. */
  lemma LearnIsRemember(c: SolanaExpiry.Cluster, signature: string, lastValidOf: Validity, lag: nat)
    ensures Learn(c, signature, lastValidOf(signature))
         == SolanaExpiry.Step(c, SolanaExpiry.Remember(signature), lastValidOf, lag)
  {
  }

  lemma LearningIsSound(w: World, m: Moment, lastValidOf: Validity, lag: nat)
    requires Good(w, lastValidOf) && lag <= SolanaExpiry.EXPIRY_MARGIN + 1 && (m.Remember? || m.Restore?)
    ensures SolanaExpiry.Sound(Next(w, m, lastValidOf, lag).cluster, lastValidOf)
  {
    var s := w.wallet;
    var signature := "";
    if m.Remember? && m.id in s.handlers && s.handlers[m.id].phase.Signed? {
      signature := s.handlers[m.id].phase.txHash;
      assert RequestDated(s, s.handlers[m.id], lastValidOf);
    } else if m.Restore? && m.key in s.records {
      signature := s.records[m.key].txHash;
      assert RecordDated(s.records[m.key], lastValidOf);
    }
    LearnIsRemember(w.cluster, signature, lastValidOf, lag);
    SolanaExpiry.StepIsSound(w.cluster, SolanaExpiry.Remember(signature), lastValidOf, lag);
  }

  lemma NextStaysGood(w: World, m: Moment, lastValidOf: Validity, lag: nat)
    requires Good(w, lastValidOf) && SparesAt(w, m) && lag <= SolanaExpiry.EXPIRY_MARGIN + 1
    ensures Good(Next(w, m, lastValidOf, lag), lastValidOf)
  {
    match m
    case Wallet(e) => if Fits(w, e, lastValidOf) { WalletStaysGood(w, e, lastValidOf); }
    case Chain(c) =>
      SolanaExpiry.StepIsSound(w.cluster, c, lastValidOf, lag);
      ClusterGoesForward(w, m, lastValidOf, lag);
      ClusterStaysGood(w, Next(w, m, lastValidOf, lag), lastValidOf);
    case _ =>
      LearningIsSound(w, m, lastValidOf, lag);
      ClusterGoesForward(w, m, lastValidOf, lag);
      ClusterStaysGood(w, Next(w, m, lastValidOf, lag), lastValidOf);
  }

  lemma {:induction false} FollowStaysGood(w: World, more: seq<Moment>, lastValidOf: Validity, lag: nat)
    requires Good(w, lastValidOf) && SparesThroughout(w, more, lastValidOf, lag)
    requires lag <= SolanaExpiry.EXPIRY_MARGIN + 1
    ensures Good(Follow(w, more, lastValidOf, lag), lastValidOf)
    decreases |more|
  {
    if more == [] {
    } else {
      NextStaysGood(w, more[0], lastValidOf, lag);
      FollowStaysGood(Next(w, more[0], lastValidOf, lag), more[1..], lastValidOf, lag);
    }
  }

  /** A lifetime that can have no effect: nothing of it was taken, or all of it is gone. */
  ghost predicate Harmless(w: World, birth: nat, lastValidOf: Validity) {
    Settled(w.wallet, birth) || Doomed(w, birth, lastValidOf)
  }

  lemma HarmlessStaysHarmless(w: World, m: Moment, birth: nat, lastValidOf: Validity, lag: nat)
    requires Harmless(w, birth, lastValidOf)
    ensures Harmless(Next(w, m, lastValidOf, lag), birth, lastValidOf)
  {
    var v := Next(w, m, lastValidOf, lag);
    if m.Wallet? {
      if Settled(w.wallet, birth) { SettledStaysSettled(w.wallet, m.e, birth); }
      if Doomed(w, birth, lastValidOf) { DoomedStaysStepping(w, m.e, birth, lastValidOf); }
    } else if Doomed(w, birth, lastValidOf) {
      ClusterGoesForward(w, m, lastValidOf, lag);
      DoomedStaysForward(w, v, birth, lastValidOf);
    }
  }

  lemma {:induction false} HarmlessForever(
    w: World, more: seq<Moment>, birth: nat, lastValidOf: Validity, lag: nat)
    requires Harmless(w, birth, lastValidOf)
    ensures Harmless(Follow(w, more, lastValidOf, lag), birth, lastValidOf)
    decreases |more|
  {
    if more == [] {
    } else {
      HarmlessStaysHarmless(w, more[0], birth, lastValidOf, lag);
      HarmlessForever(Next(w, more[0], lastValidOf, lag), more[1..], birth, lastValidOf, lag);
    }
  }

  /** A node took the lifetime's bytes, and its Solana transaction landed and did what it says. */
  ghost predicate TookEffect(w: World, birth: nat) {
    && birth in w.wallet.accepted
    && exists x :: x in w.wallet.log && x.Release? && x.birth == birth && x.family == Solana
                   && x.txHash in w.cluster.landed && x.txHash !in w.cluster.reverted
  }

  lemma HarmlessTakesNoEffect(w: World, birth: nat, lastValidOf: Validity)
    requires Harmless(w, birth, lastValidOf)
    ensures !TookEffect(w, birth)
  {
  }

  lemma StartIsGood(lastValidOf: Validity)
    ensures Good(START, lastValidOf)
  {
  }

  /**
   With nodes that lag at most 151 blocks, and pruning that spares what can still be
   written: when a repeat is told to use a new key, the old Solana transaction has had no
   effect and never will, whatever happens next. One intent never takes effect twice.
   */
  lemma SolanaRetryIsSafe(
    moments: seq<Moment>, more: seq<Moment>, key: string, lastValidOf: Validity, lag: nat)
    requires lag <= SolanaExpiry.EXPIRY_MARGIN + 1 && SparesThroughout(START, moments, lastValidOf, lag)
    requires AdvisesRetry(Follow(START, moments, lastValidOf, lag).wallet, key)
    ensures var w := Follow(START, moments, lastValidOf, lag);
            key in w.wallet.births && !TookEffect(Follow(w, more, lastValidOf, lag), w.wallet.births[key])
  {
    var w := Follow(START, moments, lastValidOf, lag);
    StartIsGood(lastValidOf);
    FollowStaysGood(START, moments, lastValidOf, lag);
    var birth := w.wallet.births[key];
    assert RecordAccounted(w.wallet, key) && Lifetime(w.wallet.lifetimes, birth, key);
    HarmlessForever(w, more, birth, lastValidOf, lag);
    HarmlessTakesNoEffect(Follow(w, more, lastValidOf, lag), birth, lastValidOf);
  }

  // -------------------------------------------------------- and only up to that lag

  /** Advice to retry is never wrong on Solana, with nodes that lag so far. */
  ghost predicate AlwaysSafe(lag: nat) {
    forall moments: seq<Moment>, more: seq<Moment>, key: string, lastValidOf: Validity ::
      (SparesThroughout(START, moments, lastValidOf, lag)
       && AdvisesRetry(Follow(START, moments, lastValidOf, lag).wallet, key))
      ==> SafeAfter(Follow(START, moments, lastValidOf, lag), more, key, lastValidOf, lag)
  }

  ghost predicate SafeAfter(w: World, more: seq<Moment>, key: string, lastValidOf: Validity, lag: nat) {
    key in w.wallet.births && !TookEffect(Follow(w, more, lastValidOf, lag), w.wallet.births[key])
  }

  lemma {:induction false} FollowOneMore(w: World, more: seq<Moment>, m: Moment, lastValidOf: Validity, lag: nat)
    ensures Follow(w, more + [m], lastValidOf, lag) == Next(Follow(w, more, lastValidOf, lag), m, lastValidOf, lag)
    ensures SparesThroughout(w, more, lastValidOf, lag) && SparesAt(Follow(w, more, lastValidOf, lag), m) ==>
              SparesThroughout(w, more + [m], lastValidOf, lag)
    decreases |more|
  {
    if more == [] {
      assert [m][1..] == [] && more + [m] == [m];
    } else {
      assert (more + [m])[1..] == more[1..] + [m];
      FollowOneMore(Next(w, more[0], lastValidOf, lag), more[1..], m, lastValidOf, lag);
    }
  }

  predicate Plain(key: string) { AcceptableKey(key) && NormalizeKey(key) == key }

  function Item(key: string, txHash: string, height: nat, status: Status): Operation {
    NewOperation(key, "", "", 0).(txHash := txHash, lastValidBlockHeight := height, status := status)
  }

  /** One request alone in the file. */
  function Alone(key: string, item: Operation, phase: Phase, log: seq<Entry>, nodes: set<nat>): State {
    State(map[key := item], map[key := 0], [key], map[0 := Handler(Solana, key, 0, phase)], log, nodes, {}, {})
  }

  const LATE := SolanaExpiry.LATE

  function LateSignature(key: string): Entry { Signature(key, 0, LATE) }
  function LateRelease(key: string): Entry { Release(key, 0, Solana, LATE, 1) }

  lemma LateReserved(key: string)
    requires Plain(key)
    ensures Step(INITIAL, Event.Begin(0, Solana, key, "", "", 0, map[], Written))
         == Alone(key, Item(key, "", 0, Building), Reserved, [], {})
  {
    var e := Event.Begin(0, Solana, key, "", "", 0, map[], Written);
    assert Pruned(map[], 0, map[]) && CanMakeRoom(map[], 0);
    BeginReserves(INITIAL, e);
  }

  lemma LateSigned(key: string)
    requires Plain(key)
    ensures Step(Alone(key, Item(key, "", 0, Building), Reserved, [], {}), Announce(0, 1))
         == Alone(key, Item(key, "", 0, Building), Announced(1), [], {})
    ensures Step(Alone(key, Item(key, "", 0, Building), Announced(1), [], {}), Sign(0, LATE))
         == Alone(key, Item(key, "", 0, Building), Withheld(LATE, 1), [LateSignature(key)], {})
  {
  }

  lemma LateRecorded(key: string)
    requires Plain(key)
    ensures Step(Alone(key, Item(key, "", 0, Building), Withheld(LATE, 1), [LateSignature(key)], {}),
              Event.Record(0, "", 0, Written))
         == Alone(key, Item(key, LATE, 1, Broadcasting), Signed(LATE, 1), [LateSignature(key)], {})
  {
  }

  lemma LateSent(key: string)
    requires Plain(key)
    ensures Step(Alone(key, Item(key, LATE, 1, Broadcasting), Signed(LATE, 1), [LateSignature(key)], {}), Send(0))
         == Alone(key, Item(key, LATE, 1, Broadcasting), Sent(LATE, 1), [LateSignature(key), LateRelease(key)], {0})
  {
  }

  lemma SparesWithoutReserving(w: World, m: Moment)
    requires m.Wallet? ==> !m.e.Begin? || w.wallet.handlers == map[]
    ensures SparesAt(w, m)
  {
  }

  /** One more moment of a run that spares, if it reserves nothing over running requests. */
  lemma OneMore(run: seq<Moment>, m: Moment, w: World, lastValidOf: Validity, lag: nat)
    requires SparesThroughout(START, run, lastValidOf, lag) && Follow(START, run, lastValidOf, lag) == w
    requires m.Wallet? ==> (!m.e.Begin? || w.wallet.handlers == map[])
    ensures SparesThroughout(START, run + [m], lastValidOf, lag)
    ensures Follow(START, run + [m], lastValidOf, lag) == Next(w, m, lastValidOf, lag)
  {
    SparesWithoutReserving(w, m);
    FollowOneMore(START, run, m, lastValidOf, lag);
  }

  predicate OnlyTheCluster(events: seq<SolanaExpiry.Event>) {
    forall i :: 0 <= i < |events| ==> !events[i].Remember? && !events[i].Restore?
  }

  function ChainOf(events: seq<SolanaExpiry.Event>): seq<Moment> {
    seq(|events|, i requires 0 <= i < |events| => Chain(events[i]))
  }

  lemma {:induction false} FollowChain(
    run: seq<Moment>, w: World, events: seq<SolanaExpiry.Event>, lastValidOf: Validity, lag: nat)
    requires SparesThroughout(START, run, lastValidOf, lag) && Follow(START, run, lastValidOf, lag) == w
    requires OnlyTheCluster(events)
    ensures SparesThroughout(START, run + ChainOf(events), lastValidOf, lag)
    ensures Follow(START, run + ChainOf(events), lastValidOf, lag)
         == w.(cluster := SolanaExpiry.After(w.cluster, events, lastValidOf, lag))
    decreases |events|
  {
    if events == [] {
      assert run + ChainOf(events) == run;
    } else {
      OneMore(run, Chain(events[0]), w, lastValidOf, lag);
      var v := Next(w, Chain(events[0]), lastValidOf, lag);
      FollowChain(run + [Chain(events[0])], v, events[1..], lastValidOf, lag);
      assert run + ChainOf(events) == run + [Chain(events[0])] + ChainOf(events[1..]);
    }
  }

  lemma {:induction false} WaitingIsTheCluster(n: nat)
    ensures OnlyTheCluster(SolanaExpiry.Wait(n))
  {
    if n == 0 {
    } else {
      WaitingIsTheCluster(n - 1);
    }
  }

  lemma LateEventsAreTheCluster()
    ensures OnlyTheCluster(SolanaExpiry.LateEvents())
  {
    WaitingIsTheCluster(SolanaExpiry.EXPIRY_MARGIN + 1);
  }

  /** Reserved, announced and signed, the id on the record. */
  lemma LateIsRecorded(key: string, lastValidOf: Validity, lag: nat) returns (run: seq<Moment>)
    requires Plain(key) && lastValidOf(LATE) == 1
    ensures SparesThroughout(START, run, lastValidOf, lag)
    ensures Follow(START, run, lastValidOf, lag)
         == START.(wallet := Alone(key, Item(key, LATE, 1, Broadcasting), Signed(LATE, 1), [LateSignature(key)], {}))
  {
    var a, b := Wallet(Event.Begin(0, Solana, key, "", "", 0, map[], Written)), Wallet(Announce(0, 1));
    var c, d := Wallet(Sign(0, LATE)), Wallet(Event.Record(0, "", 0, Written));
    LateReserved(key);
    OneMore([], a, START, lastValidOf, lag);
    var w := Next(START, a, lastValidOf, lag);
    run := [] + [a];
    LateSigned(key);
    OneMore(run, b, w, lastValidOf, lag);
    w := Next(w, b, lastValidOf, lag);
    run := run + [b];
    OneMore(run, c, w, lastValidOf, lag);
    w := Next(w, c, lastValidOf, lag);
    run := run + [c];
    LateRecorded(key);
    OneMore(run, d, w, lastValidOf, lag);
    run := run + [d];
  }

  lemma LateIsRemembered(key: string, lastValidOf: Validity, lag: nat) returns (run: seq<Moment>, w: World)
    requires Plain(key) && lastValidOf(LATE) == 1
    ensures SparesThroughout(START, run, lastValidOf, lag) && Follow(START, run, lastValidOf, lag) == w
    ensures w.cluster == SolanaExpiry.Step(SolanaExpiry.GENESIS, SolanaExpiry.Remember(LATE), lastValidOf, lag)
    ensures w.wallet == Alone(key, Item(key, LATE, 1, Broadcasting), Signed(LATE, 1), [LateSignature(key)], {})
  {
    run := LateIsRecorded(key, lastValidOf, lag);
    w := Follow(START, run, lastValidOf, lag);
    OneMore(run, Moment.Remember(0), w, lastValidOf, lag);
    LearnIsRemember(w.cluster, LATE, lastValidOf, lag);
    w := Next(w, Moment.Remember(0), lastValidOf, lag);
    run := run + [Moment.Remember(0)];
  }

  /** The request has sent what it signed. */
  function LateWallet(key: string, accepted: set<nat>): State {
    Alone(key, Item(key, LATE, 1, Broadcasting), Sent(LATE, 1), [LateSignature(key), LateRelease(key)], {0})
      .(accepted := accepted)
  }

  lemma LateLeaves(w: World, key: string, lastValidOf: Validity, lag: nat)
    requires Plain(key)
    requires w.wallet == Alone(key, Item(key, LATE, 1, Broadcasting), Signed(LATE, 1), [LateSignature(key)], {})
    ensures Next(w, Wallet(Send(0)), lastValidOf, lag) == w.(wallet := LateWallet(key, {}))
  {
    LateSent(key);
  }

  lemma LateArrives(w: World, key: string, lastValidOf: Validity, lag: nat)
    requires w.wallet == LateWallet(key, {})
    ensures Next(w, Wallet(Deliver(0)), lastValidOf, lag) == w.(wallet := LateWallet(key, {0}))
  {
  }

  /** The adapter remembers it, the bytes leave, and a node takes them. */
  lemma LateIsTaken(key: string, lastValidOf: Validity, lag: nat) returns (run: seq<Moment>, w: World)
    requires Plain(key) && lastValidOf(LATE) == 1
    ensures SparesThroughout(START, run, lastValidOf, lag) && Follow(START, run, lastValidOf, lag) == w
    ensures w.cluster == SolanaExpiry.Step(SolanaExpiry.GENESIS, SolanaExpiry.Remember(LATE), lastValidOf, lag)
    ensures w.wallet == LateWallet(key, {0})
  {
    var remembered, v := LateIsRemembered(key, lastValidOf, lag);
    OneMore(remembered, Wallet(Send(0)), v, lastValidOf, lag);
    LateLeaves(v, key, lastValidOf, lag);
    var sent := v.(wallet := LateWallet(key, {}));
    OneMore(remembered + [Wallet(Send(0))], Wallet(Deliver(0)), sent, lastValidOf, lag);
    LateArrives(sent, key, lastValidOf, lag);
    run, w := remembered + [Wallet(Send(0))] + [Wallet(Deliver(0))], sent.(wallet := LateWallet(key, {0}));
  }

  /** A lookup writes the verdict down, and a repeat is told to use a new key. */
  lemma LateIsCalledFailed(w: World, key: string, lastValidOf: Validity, lag: nat)
    requires Plain(key) && SolanaExpiry.MisledAbout(w.cluster)
    requires w.wallet == LateWallet(key, {0})
    ensures var v := Next(w, Wallet(Poll(LATE, Failed, Some(key), 0, Written)), lastValidOf, lag);
            AdvisesRetry(v.wallet, key) && key in v.wallet.births && TookEffect(v, v.wallet.births[key])
  {
    var v := Next(w, Wallet(Poll(LATE, Failed, Some(key), 0, Written)), lastValidOf, lag);
    assert LateRelease(key) in v.wallet.log;
  }

  /** With nodes further behind, a repeat is told to use a new key after its transaction took effect. */
  lemma LaggingRetryDoubles(key: string, lag: nat) returns (moments: seq<Moment>, lastValidOf: Validity)
    requires Plain(key) && lag > SolanaExpiry.EXPIRY_MARGIN + 1
    ensures SparesThroughout(START, moments, lastValidOf, lag)
    ensures var w := Follow(START, moments, lastValidOf, lag);
            AdvisesRetry(w.wallet, key) && key in w.wallet.births && TookEffect(w, w.wallet.births[key])
  {
    lastValidOf := (signature: string) => 1;
    var run, w := LateIsTaken(key, lastValidOf, lag);
    LateEventsAreTheCluster();
    SolanaExpiry.LateEventsMislead(lastValidOf, lag);
    FollowChain(run, w, SolanaExpiry.LateEvents(), lastValidOf, lag);
    var missed := run + ChainOf(SolanaExpiry.LateEvents());
    var late := Wallet(Poll(LATE, Failed, Some(key), 0, Written));
    var v := Follow(START, missed, lastValidOf, lag);
    MisledCluster(w.cluster, lastValidOf, lag);
    OneMore(missed, late, v, lastValidOf, lag);
    LateIsCalledFailed(v, key, lastValidOf, lag);
    moments := missed + [late];
  }

  lemma MisledCluster(c: SolanaExpiry.Cluster, lastValidOf: Validity, lag: nat)
    requires c == SolanaExpiry.Step(SolanaExpiry.GENESIS, SolanaExpiry.Remember(LATE), lastValidOf, lag)
    ensures SolanaExpiry.Run([SolanaExpiry.Remember(LATE)] + SolanaExpiry.LateEvents(), lastValidOf, lag)
         == SolanaExpiry.After(c, SolanaExpiry.LateEvents(), lastValidOf, lag)
  {
    var events := [SolanaExpiry.Remember(LATE)] + SolanaExpiry.LateEvents();
    assert events[0] == SolanaExpiry.Remember(LATE) && events[1..] == SolanaExpiry.LateEvents();
  }

  lemma SomeKeyIsPlain() returns (key: string)
    ensures Plain(key)
  {
    key := "A";
    assert key[1..] == "" && Utf8Length(key[1..]) == 0;
  }

  /** Advice to retry is safe on Solana exactly with nodes that lag at most 151 blocks. */
  lemma SolanaRetryIsSafeIff(lag: nat)
    ensures AlwaysSafe(lag) <==> lag <= SolanaExpiry.EXPIRY_MARGIN + 1
  {
    if lag <= SolanaExpiry.EXPIRY_MARGIN + 1 {
      forall moments: seq<Moment>, more: seq<Moment>, key: string, lastValidOf: Validity
        | SparesThroughout(START, moments, lastValidOf, lag)
          && AdvisesRetry(Follow(START, moments, lastValidOf, lag).wallet, key)
        ensures SafeAfter(Follow(START, moments, lastValidOf, lag), more, key, lastValidOf, lag)
      {
        SolanaRetryIsSafe(moments, more, key, lastValidOf, lag);
      }
    } else {
      var key := SomeKeyIsPlain();
      var moments, lastValidOf := LaggingRetryDoubles(key, lag);
      var w := Follow(START, moments, lastValidOf, lag);
      assert Follow(w, [], lastValidOf, lag) == w;
      assert !SafeAfter(w, [], key, lastValidOf, lag);
    }
  }

  // --------------------------------------------------- a dead one is settled

  lemma {:induction false} FollowTheCluster(
    w: World, events: seq<SolanaExpiry.Event>, lastValidOf: Validity, lag: nat)
    requires OnlyTheCluster(events)
    ensures Follow(w, ChainOf(events), lastValidOf, lag)
         == w.(cluster := SolanaExpiry.After(w.cluster, events, lastValidOf, lag))
    decreases |events|
  {
    if events == [] {
    } else {
      var next := w.(cluster := SolanaExpiry.Step(w.cluster, events[0], lastValidOf, lag));
      assert ChainOf(events)[0] == Chain(events[0]) && ChainOf(events)[1..] == ChainOf(events[1..]);
      FollowTheCluster(next, events[1..], lastValidOf, lag);
    }
  }

  /** The restart forgets every expiry; the lookup of a record's transaction reads its own back first. */
  function Settling(key: string, txHash: string, id: nat, view: nat, height: nat): seq<Moment> {
    [Chain(SolanaExpiry.Restart), Restore(key)] + ChainOf(SolanaExpiry.LookupEvents(id, txHash, view, height))
  }

  /** A record's transaction nobody will ever see on chain: the margin is over, and the node knows nothing of it. */
  predicate IsOver(w: World, key: string, view: nat, height: nat, lag: nat) {
    && key in w.wallet.records && w.wallet.records[key].txHash != "" && w.wallet.records[key].lastValidBlockHeight != 0
    && !SolanaExpiry.Knows(w.cluster, w.wallet.records[key].txHash, view)
    && SolanaExpiry.CanAnswer(w.cluster, view, lag)
    && w.wallet.records[key].lastValidBlockHeight + SolanaExpiry.EXPIRY_MARGIN < height <= w.cluster.height
  }

  lemma SettlingTells(w: World, key: string, id: nat, view: nat, height: nat, lastValidOf: Validity, lag: nat)
    requires IsOver(w, key, view, height, lag)
    ensures var x := w.wallet.records[key].txHash;
            var after := Follow(w, Settling(key, x, id, view, height), lastValidOf, lag);
            after.wallet == w.wallet && SolanaExpiry.Told(x, Failed) in after.cluster.told
  {
    var item := w.wallet.records[key];
    var events := SolanaExpiry.LookupEvents(id, item.txHash, view, height);
    var all := Settling(key, item.txHash, id, view, height);
    var restarted := Next(w, Chain(SolanaExpiry.Restart), lastValidOf, lag);
    var restored := Next(restarted, Restore(key), lastValidOf, lag);
    assert all[1..] == [Restore(key)] + ChainOf(events) && all[1..][1..] == ChainOf(events);
    assert Follow(w, all, lastValidOf, lag) == Follow(restarted, all[1..], lastValidOf, lag);
    assert Follow(restarted, all[1..], lastValidOf, lag) == Follow(restored, ChainOf(events), lastValidOf, lag);
    FollowTheCluster(restored, events, lastValidOf, lag);
    SolanaExpiry.DeadIsTold(restored.cluster, id, item.txHash, view, height, lastValidOf, lag);
  }

  /**
   Even over a restart, a transaction that never landed is settled: once the margin is over, a
   lookup made from its record says failed and the poll writes that down, so a repeat is told
   to use a new key.
   */
  lemma DeadIsSettled(
    w: World, key: string, id: nat, view: nat, height: nat, now: int, lastValidOf: Validity, lag: nat)
    requires IsOver(w, key, view, height, lag)
    ensures var x := w.wallet.records[key].txHash;
            var poll := Wallet(Poll(x, Failed, Some(key), now, Written));
            var after := Follow(w, Settling(key, x, id, view, height) + [poll], lastValidOf, lag);
            key in after.wallet.records && after.wallet.records[key].status == Failed
            && after.wallet.records[key].txHash == x
  {
    var x := w.wallet.records[key].txHash;
    var poll := Wallet(Poll(x, Failed, Some(key), now, Written));
    SettlingTells(w, key, id, view, height, lastValidOf, lag);
    FollowOneMore(w, Settling(key, x, id, view, height), poll, lastValidOf, lag);
  }
}
