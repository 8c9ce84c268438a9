/**
 Shared balance reads (internal/tron/service.go, internal/chain/solana/balance.go):
 callers asking for the same address share one read, which takes a slot before it
 touches a node. Every critical section, select branch and answer is one event, in any
 order.
 */
module SingleFlight {
  type Address = nat

  /** Solana lets a refresh pass by a read already sent; Tron does not look. */
  datatype Config = Config(sendAware: bool, capacity: nat)

  datatype Answer = Value | Failure | Cancellation

  datatype Phase = Queued | InSlot | Returning(answer: Answer) | Finished(answer: Answer) | Closed(answer: Answer)

  datatype Flight = Flight(address: Address, phase: Phase, cancelled: bool, sent: bool, sentAt: nat, waiters: int) {
    predicate Over() { phase.Finished? || phase.Closed? }
    predicate Answered(a: Answer) {
      (phase.Returning? || phase.Finished? || phase.Closed?) && phase.answer == a
    }
  }

  /** Waiting, left because its own context ended, or answered. */
  datatype Stance = Waiting | Left | Got(answer: Answer, sentAt: nat)

  datatype Caller = Caller(flight: nat, refresh: bool, askedAt: nat, live: bool, stance: Stance)

  datatype State = State(
    now: nat, flights: seq<Flight>, callers: seq<Caller>, shared: map<Address, nat>, used: nat)

  datatype Event =
    | Tick(elapsed: nat)
    | Ask(address: Address, refresh: bool)
    | EndContext(caller: nat)
    | Leave(caller: nat)
    | Receive(caller: nat)
    | Acquire(flight: nat)
    | Abandon(flight: nat)
    | Send(flight: nat)
    | Reply(flight: nat, answer: Answer)
    | Finish(flight: nat)
    | CloseDone(flight: nat)

  function Init(): State { State(0, [], [], map[], 0) }

  function Without(shared: map<Address, nat>, address: Address, flight: nat): map<Address, nat> {
    if address in shared && shared[address] == flight then map a | a in shared && a != address :: shared[a] else shared
  }

  /** The read a new caller joins, if there is one to join. */
  predicate Joins(cfg: Config, s: State, address: Address, refresh: bool) {
    && address in s.shared && s.shared[address] < |s.flights|
    && !(cfg.sendAware && refresh && s.flights[s.shared[address]].sent)
  }

  function DoAsk(cfg: Config, s: State, address: Address, refresh: bool): State {
    if Joins(cfg, s, address, refresh) then
      var f := s.shared[address];
      s.(flights := s.flights[f := s.flights[f].(waiters := s.flights[f].waiters + 1)],
         callers := s.callers + [Caller(f, refresh, s.now, true, Waiting)])
    else
      var f := |s.flights|;
      s.(flights := s.flights + [Flight(address, Queued, false, false, 0, 1)],
         callers := s.callers + [Caller(f, refresh, s.now, true, Waiting)],
         shared := s.shared[address := f])
  }

  predicate Waits(s: State, c: nat) {
    c < |s.callers| && s.callers[c].stance == Waiting && s.callers[c].flight < |s.flights|
  }

  /** The last one to leave cancels the read and takes it out of the map at once. */
  function DoLeave(s: State, c: nat): State {
    if !Waits(s, c) || s.callers[c].live then s
    else
      var f := s.callers[c].flight;
      var flight := s.flights[f];
      var last := flight.waiters == 1;
      s.(callers := s.callers[c := s.callers[c].(stance := Left)],
         flights := s.flights[f := flight.(waiters := flight.waiters - 1, cancelled := flight.cancelled || last)],
         shared := if last then Without(s.shared, flight.address, f) else s.shared)
  }

  function DoReceive(s: State, c: nat): State {
    if !Waits(s, c) || !s.flights[s.callers[c].flight].phase.Closed? then s
    else
      var flight := s.flights[s.callers[c].flight];
      s.(callers := s.callers[c := s.callers[c].(stance := Got(flight.phase.answer, flight.sentAt))])
  }

  function With(s: State, f: nat, flight: Flight): State
    requires f < |s.flights|
  {
    s.(flights := s.flights[f := flight])
  }

  /** A cancelled read may still pick the slot: the select takes either branch. */
  function DoAcquire(cfg: Config, s: State, f: nat): State {
    if f < |s.flights| && s.flights[f].phase.Queued? && s.used < cfg.capacity then
      With(s, f, s.flights[f].(phase := InSlot)).(used := s.used + 1)
    else s
  }

  function DoAbandon(s: State, f: nat): State {
    if f < |s.flights| && s.flights[f].phase.Queued? && s.flights[f].cancelled then
      With(s, f, s.flights[f].(phase := Returning(Cancellation)))
    else s
  }

  function DoSend(s: State, f: nat): State {
    if f < |s.flights| && s.flights[f].phase.InSlot? then
      With(s, f, s.flights[f].(sent := true, sentAt := s.now))
    else s
  }

  /** A value comes from a request that was sent, a cancellation from a cancel. */
  function DoReply(s: State, f: nat, answer: Answer): State {
    if f < |s.flights| && s.flights[f].phase.InSlot? && s.used > 0
       && (answer.Value? ==> s.flights[f].sent) && (answer.Cancellation? ==> s.flights[f].cancelled)
    then With(s, f, s.flights[f].(phase := Returning(answer))).(used := s.used - 1)
    else s
  }

  function DoFinish(s: State, f: nat): State {
    if f < |s.flights| && s.flights[f].phase.Returning? then
      With(s, f, s.flights[f].(phase := Finished(s.flights[f].phase.answer)))
        .(shared := Without(s.shared, s.flights[f].address, f))
    else s
  }

  function DoClose(s: State, f: nat): State {
    if f < |s.flights| && s.flights[f].phase.Finished? then
      With(s, f, s.flights[f].(phase := Closed(s.flights[f].phase.answer)))
    else s
  }

  function DoEnd(s: State, c: nat): State {
    if c < |s.callers| then s.(callers := s.callers[c := s.callers[c].(live := false)]) else s
  }

  function Step(cfg: Config, s: State, e: Event): State {
    match e
    case Tick(elapsed) => s.(now := s.now + elapsed)
    case Ask(address, refresh) => DoAsk(cfg, s, address, refresh)
    case EndContext(c) => DoEnd(s, c)
    case Leave(c) => DoLeave(s, c)
    case Receive(c) => DoReceive(s, c)
    case Acquire(f) => DoAcquire(cfg, s, f)
    case Abandon(f) => DoAbandon(s, f)
    case Send(f) => DoSend(s, f)
    case Reply(f, answer) => DoReply(s, f, answer)
    case Finish(f) => DoFinish(s, f)
    case CloseDone(f) => DoClose(s, f)
  }

  function Run(cfg: Config, events: seq<Event>): State {
    if events == [] then Init() else Step(cfg, Run(cfg, events[..|events| - 1]), events[|events| - 1])
  }

  // ---------------------------------------------------------------- invariant

  /** The callers of a read that have not left it. */
  function Staying(callers: seq<Caller>, f: nat): set<nat> {
    set c | 0 <= c < |callers| && callers[c].flight == f && callers[c].stance != Left
  }

  predicate Shares(shared: map<Address, nat>, address: Address, f: nat) {
    address in shared && shared[address] == f
  }

  /** What a read's own fields and place in the map say of each other. */
  predicate FlightOk(cfg: Config, shared: map<Address, nat>, now: nat, flight: Flight, f: nat) {
    && (flight.cancelled && !flight.Over() ==> flight.waiters == 0)
    && (flight.Answered(Cancellation) ==> flight.cancelled && flight.waiters == 0)
    && (flight.cancelled || flight.Over() ==> !Shares(shared, flight.address, f))
    && (!flight.cancelled && !flight.Over() ==>
          Shares(shared, flight.address, f) || (cfg.sendAware && flight.sent))
    && (flight.Answered(Value) ==> flight.sent)
    && flight.sentAt <= now
  }

  /** What a caller may have, given the read it joined. */
  predicate CallerOk(cfg: Config, now: nat, caller: Caller, flight: Flight) {
    && caller.askedAt <= now
    && (caller.stance.Got? ==>
          flight.phase == Closed(caller.stance.answer) && caller.stance.sentAt == flight.sentAt
          && !caller.stance.answer.Cancellation?)
    && (caller.stance.Left? ==> !caller.live)
    && (cfg.sendAware && caller.refresh && flight.sent ==> caller.askedAt <= flight.sentAt)
  }

  predicate FlightsOk(cfg: Config, s: State) {
    forall f :: 0 <= f < |s.flights| ==> FlightOk(cfg, s.shared, s.now, s.flights[f], f)
  }

  predicate CountsOk(s: State) {
    forall f :: 0 <= f < |s.flights| ==> s.flights[f].waiters == |Staying(s.callers, f)|
  }

  predicate CallersOk(cfg: Config, s: State) {
    forall c :: 0 <= c < |s.callers| ==>
      s.callers[c].flight < |s.flights| && CallerOk(cfg, s.now, s.callers[c], s.flights[s.callers[c].flight])
  }

  predicate MapOk(s: State) {
    forall a :: a in s.shared ==> s.shared[a] < |s.flights| && s.flights[s.shared[a]].address == a
  }

  function Holders(flights: seq<Flight>): set<nat> {
    set f | 0 <= f < |flights| && flights[f].phase.InSlot?
  }

  predicate SlotsOk(cfg: Config, s: State) {
    s.used == |Holders(s.flights)| && s.used <= cfg.capacity
  }

  predicate Inv(cfg: Config, s: State) {
    FlightsOk(cfg, s) && CountsOk(s) && CallersOk(cfg, s) && MapOk(s) && SlotsOk(cfg, s)
  }

  // ------------------------------------------------------------- preservation

  lemma StayingJoin(callers: seq<Caller>, caller: Caller, f: nat)
    requires caller.stance != Left
    ensures |Staying(callers + [caller], f)| == |Staying(callers, f)| + if caller.flight == f then 1 else 0
  {
    var after := callers + [caller];
    if caller.flight == f {
      assert Staying(after, f) == Staying(callers, f) + {|callers|};
    } else {
      assert Staying(after, f) == Staying(callers, f);
    }
  }

  lemma StayingLeave(callers: seq<Caller>, c: nat, f: nat)
    requires c < |callers| && callers[c].stance == Waiting
    ensures |Staying(callers[c := callers[c].(stance := Left)], f)|
            == |Staying(callers, f)| - if callers[c].flight == f then 1 else 0
  {
    var after := callers[c := callers[c].(stance := Left)];
    if callers[c].flight == f {
      assert Staying(after, f) == Staying(callers, f) - {c};
    } else {
      assert Staying(after, f) == Staying(callers, f);
    }
  }

  lemma StayingSame(callers: seq<Caller>, c: nat, caller: Caller, f: nat)
    requires c < |callers| && caller.flight == callers[c].flight
    requires caller.stance == Left <==> callers[c].stance == Left
    ensures Staying(callers[c := caller], f) == Staying(callers, f)
  {
  }

  lemma HoldersSame(flights: seq<Flight>, f: nat, flight: Flight)
    requires f < |flights| && (flight.phase.InSlot? <==> flights[f].phase.InSlot?)
    ensures Holders(flights[f := flight]) == Holders(flights)
  {
  }

  lemma HoldersGain(flights: seq<Flight>, f: nat, flight: Flight)
    requires f < |flights| && flight.phase.InSlot? && !flights[f].phase.InSlot?
    ensures |Holders(flights[f := flight])| == |Holders(flights)| + 1
  {
    assert Holders(flights[f := flight]) == Holders(flights) + {f};
  }

  lemma HoldersLose(flights: seq<Flight>, f: nat, flight: Flight)
    requires f < |flights| && !flight.phase.InSlot? && flights[f].phase.InSlot?
    ensures |Holders(flights[f := flight])| == |Holders(flights)| - 1
  {
    assert Holders(flights[f := flight]) == Holders(flights) - {f};
  }

  lemma HoldersAppend(flights: seq<Flight>, flight: Flight)
    requires !flight.phase.InSlot?
    ensures Holders(flights + [flight]) == Holders(flights)
  {
  }

  lemma JoinKeeps(cfg: Config, s: State, address: Address, refresh: bool)
    requires Inv(cfg, s) && Joins(cfg, s, address, refresh)
    ensures Inv(cfg, DoAsk(cfg, s, address, refresh))
  {
    var t := DoAsk(cfg, s, address, refresh);
    var f := s.shared[address];
    assert FlightOk(cfg, s.shared, s.now, s.flights[f], f);
    forall g | 0 <= g < |t.flights| ensures t.flights[g].waiters == |Staying(t.callers, g)| {
      StayingJoin(s.callers, t.callers[|s.callers|], g);
    }
    HoldersSame(s.flights, f, t.flights[f]);
    forall c | 0 <= c < |t.callers|
      ensures t.callers[c].flight < |t.flights| && CallerOk(cfg, t.now, t.callers[c], t.flights[t.callers[c].flight])
    {
      if c < |s.callers| {
        assert CallerOk(cfg, s.now, s.callers[c], s.flights[s.callers[c].flight]);
      }
    }
  }

  lemma NewFlightCounts(s: State, address: Address, caller: Caller)
    requires CountsOk(s) && caller.flight == |s.flights| && caller.stance == Waiting
    requires forall c :: 0 <= c < |s.callers| ==> s.callers[c].flight < |s.flights|
    ensures CountsOk(s.(flights := s.flights + [Flight(address, Queued, false, false, 0, 1)],
              callers := s.callers + [caller]))
  {
    var flights := s.flights + [Flight(address, Queued, false, false, 0, 1)];
    forall g | 0 <= g < |flights| ensures flights[g].waiters == |Staying(s.callers + [caller], g)| {
      StayingJoin(s.callers, caller, g);
      if g == |s.flights| { assert Staying(s.callers, g) == {}; }
    }
  }

  lemma StartKeeps(cfg: Config, s: State, address: Address, refresh: bool)
    requires Inv(cfg, s) && !Joins(cfg, s, address, refresh)
    ensures Inv(cfg, DoAsk(cfg, s, address, refresh))
  {
    var t := DoAsk(cfg, s, address, refresh);
    NewFlightCounts(s, address, t.callers[|s.callers|]);
    HoldersAppend(s.flights, t.flights[|s.flights|]);
    forall g | 0 <= g < |t.flights| ensures FlightOk(cfg, t.shared, t.now, t.flights[g], g) {
      if g < |s.flights| {
        assert FlightOk(cfg, s.shared, s.now, s.flights[g], g);
      }
    }
    forall c | 0 <= c < |t.callers|
      ensures t.callers[c].flight < |t.flights| && CallerOk(cfg, t.now, t.callers[c], t.flights[t.callers[c].flight])
    {
      if c < |s.callers| {
        assert CallerOk(cfg, s.now, s.callers[c], s.flights[s.callers[c].flight]);
      }
    }
  }

  lemma LeaveKeeps(cfg: Config, s: State, c: nat)
    requires Inv(cfg, s)
    ensures Inv(cfg, DoLeave(s, c))
  {
    var t := DoLeave(s, c);
    if Waits(s, c) && !s.callers[c].live {
      var f := s.callers[c].flight;
      HoldersSame(s.flights, f, t.flights[f]);
      forall g | 0 <= g < |t.flights| ensures t.flights[g].waiters == |Staying(t.callers, g)| {
        StayingLeave(s.callers, c, g);
      }
      forall g | 0 <= g < |t.flights| ensures FlightOk(cfg, t.shared, t.now, t.flights[g], g) {
        assert FlightOk(cfg, s.shared, s.now, s.flights[g], g);
      }
      forall d | 0 <= d < |t.callers|
        ensures t.callers[d].flight < |t.flights| && CallerOk(cfg, t.now, t.callers[d], t.flights[t.callers[d].flight])
      {
        assert CallerOk(cfg, s.now, s.callers[d], s.flights[s.callers[d].flight]);
      }
    }
  }

  /** The heart of it: a caller still waiting is never handed a cancellation. */
  lemma WaitingIsNotCancelled(cfg: Config, s: State, c: nat)
    requires Inv(cfg, s) && Waits(s, c)
    ensures !s.flights[s.callers[c].flight].Answered(Cancellation)
    ensures s.flights[s.callers[c].flight].cancelled ==> s.flights[s.callers[c].flight].Over()
  {
    var f := s.callers[c].flight;
    assert FlightOk(cfg, s.shared, s.now, s.flights[f], f);
    assert c in Staying(s.callers, f);
  }

  lemma CallerChangeKeeps(cfg: Config, s: State, c: nat, caller: Caller)
    requires Inv(cfg, s) && c < |s.callers|
    requires caller.flight == s.callers[c].flight && (caller.stance == Left <==> s.callers[c].stance == Left)
    requires CallerOk(cfg, s.now, caller, s.flights[caller.flight])
    ensures Inv(cfg, s.(callers := s.callers[c := caller]))
  {
    var t := s.(callers := s.callers[c := caller]);
    forall g | 0 <= g < |t.flights| ensures t.flights[g].waiters == |Staying(t.callers, g)| {
      StayingSame(s.callers, c, caller, g);
    }
  }

  lemma ReceiveKeeps(cfg: Config, s: State, c: nat)
    requires Inv(cfg, s)
    ensures Inv(cfg, DoReceive(s, c))
  {
    if Waits(s, c) && s.flights[s.callers[c].flight].phase.Closed? {
      var flight := s.flights[s.callers[c].flight];
      WaitingIsNotCancelled(cfg, s, c);
      assert CallerOk(cfg, s.now, s.callers[c], flight);
      CallerChangeKeeps(cfg, s, c, s.callers[c].(stance := Got(flight.phase.answer, flight.sentAt)));
    }
  }

  lemma EndKeeps(cfg: Config, s: State, c: nat)
    requires Inv(cfg, s)
    ensures Inv(cfg, DoEnd(s, c))
  {
    if c < |s.callers| {
      assert CallerOk(cfg, s.now, s.callers[c], s.flights[s.callers[c].flight]);
      CallerChangeKeeps(cfg, s, c, s.callers[c].(live := false));
    }
  }

  /** A read changes on its own: same address and callers, nothing taken back. */
  predicate Advances(cfg: Config, now: nat, before: Flight, after: Flight) {
    && after.address == before.address && after.waiters == before.waiters
    && (before.phase.Closed? ==> after == before)
    && (after.sent && after.sentAt != before.sentAt ==> after.sentAt == now)
    && (after.sent && !before.sent ==> after.sentAt == now)
  }

  lemma FlightChangeKeeps(cfg: Config, s: State, f: nat, flight: Flight, shared: map<Address, nat>, used: nat)
    requires Inv(cfg, s) && f < |s.flights|
    requires Advances(cfg, s.now, s.flights[f], flight)
    requires shared == s.shared || shared == Without(s.shared, flight.address, f)
    requires FlightOk(cfg, shared, s.now, flight, f)
    requires SlotsOk(cfg, With(s, f, flight).(used := used))
    ensures Inv(cfg, With(s, f, flight).(shared := shared, used := used))
  {
    var t := With(s, f, flight).(shared := shared, used := used);
    forall g | 0 <= g < |t.flights| ensures FlightOk(cfg, t.shared, t.now, t.flights[g], g) {
      assert FlightOk(cfg, s.shared, s.now, s.flights[g], g);
    }
    forall c | 0 <= c < |t.callers|
      ensures t.callers[c].flight < |t.flights| && CallerOk(cfg, t.now, t.callers[c], t.flights[t.callers[c].flight])
    {
      assert CallerOk(cfg, s.now, s.callers[c], s.flights[s.callers[c].flight]);
    }
  }

  lemma AcquireKeeps(cfg: Config, s: State, f: nat)
    requires Inv(cfg, s)
    ensures Inv(cfg, DoAcquire(cfg, s, f))
  {
    if f < |s.flights| && s.flights[f].phase.Queued? && s.used < cfg.capacity {
      assert FlightOk(cfg, s.shared, s.now, s.flights[f], f);
      HoldersGain(s.flights, f, s.flights[f].(phase := InSlot));
      FlightChangeKeeps(cfg, s, f, s.flights[f].(phase := InSlot), s.shared, s.used + 1);
    }
  }

  lemma AbandonKeeps(cfg: Config, s: State, f: nat)
    requires Inv(cfg, s)
    ensures Inv(cfg, DoAbandon(s, f))
  {
    if f < |s.flights| && s.flights[f].phase.Queued? && s.flights[f].cancelled {
      var flight := s.flights[f].(phase := Returning(Cancellation));
      assert FlightOk(cfg, s.shared, s.now, s.flights[f], f);
      HoldersSame(s.flights, f, flight);
      FlightChangeKeeps(cfg, s, f, flight, s.shared, s.used);
    }
  }

  lemma SendKeeps(cfg: Config, s: State, f: nat)
    requires Inv(cfg, s)
    ensures Inv(cfg, DoSend(s, f))
  {
    if f < |s.flights| && s.flights[f].phase.InSlot? {
      var flight := s.flights[f].(sent := true, sentAt := s.now);
      assert FlightOk(cfg, s.shared, s.now, s.flights[f], f);
      HoldersSame(s.flights, f, flight);
      FlightChangeKeeps(cfg, s, f, flight, s.shared, s.used);
    }
  }

  lemma ReplyKeeps(cfg: Config, s: State, f: nat, answer: Answer)
    requires Inv(cfg, s)
    ensures Inv(cfg, DoReply(s, f, answer))
  {
    if DoReply(s, f, answer) != s {
      var flight := s.flights[f].(phase := Returning(answer));
      assert FlightOk(cfg, s.shared, s.now, s.flights[f], f);
      HoldersLose(s.flights, f, flight);
      FlightChangeKeeps(cfg, s, f, flight, s.shared, s.used - 1);
    }
  }

  lemma FinishKeeps(cfg: Config, s: State, f: nat)
    requires Inv(cfg, s)
    ensures Inv(cfg, DoFinish(s, f))
  {
    if f < |s.flights| && s.flights[f].phase.Returning? {
      var flight := s.flights[f].(phase := Finished(s.flights[f].phase.answer));
      assert FlightOk(cfg, s.shared, s.now, s.flights[f], f);
      HoldersSame(s.flights, f, flight);
      FlightChangeKeeps(cfg, s, f, flight, Without(s.shared, flight.address, f), s.used);
    }
  }

  lemma CloseKeeps(cfg: Config, s: State, f: nat)
    requires Inv(cfg, s)
    ensures Inv(cfg, DoClose(s, f))
  {
    if f < |s.flights| && s.flights[f].phase.Finished? {
      var flight := s.flights[f].(phase := Closed(s.flights[f].phase.answer));
      assert FlightOk(cfg, s.shared, s.now, s.flights[f], f);
      HoldersSame(s.flights, f, flight);
      FlightChangeKeeps(cfg, s, f, flight, s.shared, s.used);
    }
  }

  lemma TickKeeps(cfg: Config, s: State, elapsed: nat)
    requires Inv(cfg, s)
    ensures Inv(cfg, s.(now := s.now + elapsed))
  {
    var t := s.(now := s.now + elapsed);
    forall g | 0 <= g < |t.flights| ensures FlightOk(cfg, t.shared, t.now, t.flights[g], g) {
      assert FlightOk(cfg, s.shared, s.now, s.flights[g], g);
    }
    forall c | 0 <= c < |t.callers| ensures CallerOk(cfg, t.now, t.callers[c], t.flights[t.callers[c].flight]) {
      assert CallerOk(cfg, s.now, s.callers[c], s.flights[s.callers[c].flight]);
    }
  }

  lemma StepKeeps(cfg: Config, s: State, e: Event)
    requires Inv(cfg, s)
    ensures Inv(cfg, Step(cfg, s, e))
  {
    match e
    case Tick(elapsed) => TickKeeps(cfg, s, elapsed);
    case Ask(address, refresh) =>
      if Joins(cfg, s, address, refresh) {
        JoinKeeps(cfg, s, address, refresh);
      } else {
        StartKeeps(cfg, s, address, refresh);
      }
    case EndContext(c) => EndKeeps(cfg, s, c);
    case Leave(c) => LeaveKeeps(cfg, s, c);
    case Receive(c) => ReceiveKeeps(cfg, s, c);
    case Acquire(f) => AcquireKeeps(cfg, s, f);
    case Abandon(f) => AbandonKeeps(cfg, s, f);
    case Send(f) => SendKeeps(cfg, s, f);
    case Reply(f, answer) => ReplyKeeps(cfg, s, f, answer);
    case Finish(f) => FinishKeeps(cfg, s, f);
    case CloseDone(f) => CloseKeeps(cfg, s, f);
  }

  lemma {:induction false} RunKeeps(cfg: Config, events: seq<Event>)
    ensures Inv(cfg, Run(cfg, events))
    decreases |events|
  {
    if events == [] {
    } else {
      RunKeeps(cfg, events[..|events| - 1]);
      StepKeeps(cfg, Run(cfg, events[..|events| - 1]), events[|events| - 1]);
    }
  }

  // ------------------------------------------------------------- main results

  /** A read new callers can join is never cancelled, and never over. */
  lemma SharedIsNeverCancelled(cfg: Config, events: seq<Event>, address: Address)
    requires address in Run(cfg, events).shared
    ensures var s := Run(cfg, events);
            && s.shared[address] < |s.flights|
            && s.flights[s.shared[address]].address == address
            && !s.flights[s.shared[address]].cancelled && !s.flights[s.shared[address]].Over()
  {
    RunKeeps(cfg, events);
    var s := Run(cfg, events);
    assert FlightOk(cfg, s.shared, s.now, s.flights[s.shared[address]], s.shared[address]);
  }

  /** An unfinished read is cancelled only once every caller left, and none can join. */
  lemma CancelledIsUnwanted(cfg: Config, events: seq<Event>, f: nat)
    requires f < |Run(cfg, events).flights|
    requires Run(cfg, events).flights[f].cancelled && !Run(cfg, events).flights[f].Over()
    ensures var s := Run(cfg, events);
            && (forall c :: 0 <= c < |s.callers| && s.callers[c].flight == f ==>
                  s.callers[c].stance == Left && !s.callers[c].live)
            && (forall a :: a in s.shared ==> s.shared[a] != f)
  {
    RunKeeps(cfg, events);
    var s := Run(cfg, events);
    assert FlightOk(cfg, s.shared, s.now, s.flights[f], f);
    forall c | 0 <= c < |s.callers| && s.callers[c].flight == f
      ensures s.callers[c].stance == Left && !s.callers[c].live
    {
      assert s.callers[c].stance != Left ==> c in Staying(s.callers, f);
      assert CallerOk(cfg, s.now, s.callers[c], s.flights[s.callers[c].flight]);
    }
  }

  /** Whoever stays gets a value or a failure of the read, never another's leaving. */
  lemma NobodyGetsAnothersCancellation(cfg: Config, events: seq<Event>, c: nat)
    requires c < |Run(cfg, events).callers|
    ensures Run(cfg, events).callers[c].stance.Got? ==> !Run(cfg, events).callers[c].stance.answer.Cancellation?
    ensures Run(cfg, events).callers[c].stance.Left? ==> !Run(cfg, events).callers[c].live
  {
    RunKeeps(cfg, events);
  }

  /** A refresh is only ever answered by a request sent after it asked. */
  lemma RefreshIsAnsweredFresh(cfg: Config, events: seq<Event>, c: nat)
    requires cfg.sendAware && c < |Run(cfg, events).callers|
    requires Run(cfg, events).callers[c].refresh && Run(cfg, events).callers[c].stance.Got?
    requires Run(cfg, events).callers[c].stance.answer.Value?
    ensures Run(cfg, events).callers[c].askedAt <= Run(cfg, events).callers[c].stance.sentAt
  {
    RunKeeps(cfg, events);
    var s := Run(cfg, events);
    assert CallerOk(cfg, s.now, s.callers[c], s.flights[s.callers[c].flight]);
    assert FlightOk(cfg, s.shared, s.now, s.flights[s.callers[c].flight], s.callers[c].flight);
  }

  /** Slots taken are exactly the reads holding one, never more than there are. */
  lemma SlotsMatchHolders(cfg: Config, events: seq<Event>)
    ensures Run(cfg, events).used == |Holders(Run(cfg, events).flights)| <= cfg.capacity
  {
    RunKeeps(cfg, events);
  }

  predicate Wanted(cfg: Config, flight: Flight, address: Address) {
    flight.address == address && !flight.cancelled && !flight.Over() && !(cfg.sendAware && flight.sent)
  }

  /** At most one read per address is under way: for Solana, under way and not sent. */
  lemma OneReadPerAddress(cfg: Config, events: seq<Event>, f: nat, g: nat, address: Address)
    requires f < |Run(cfg, events).flights| && g < |Run(cfg, events).flights|
    requires Wanted(cfg, Run(cfg, events).flights[f], address) && Wanted(cfg, Run(cfg, events).flights[g], address)
    ensures f == g
  {
    RunKeeps(cfg, events);
    var s := Run(cfg, events);
    assert FlightOk(cfg, s.shared, s.now, s.flights[f], f) && FlightOk(cfg, s.shared, s.now, s.flights[g], g);
  }
}
