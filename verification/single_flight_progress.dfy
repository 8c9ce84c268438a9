/**
 What becomes of a shared read (internal/tron/service.go, internal/chain/solana/balance.go):
 when asking starts one, and that everyone who waits can be answered.
 */
module SingleFlightProgress {
  import opened SingleFlight

  // ------------------------------------------------------------------- asking

  predicate IsSent(s: State, f: nat) {
    f < |s.flights| && s.flights[f].sent
  }

  /**
   Asking takes part in the read of the address that others can join, unless it is a
   refresh and the program looks whether the request is out already; only then, or where
   there is none, does it start a read, which everyone after it can join.
   */
  lemma AskingStartsAReadIff(cfg: Config, events: seq<Event>, address: Address, refresh: bool)
    ensures var s, after := Run(cfg, events), Run(cfg, events + [Ask(address, refresh)]);
            var mine := |s.callers|;
            && |after.callers| == mine + 1 && after.callers[..mine] == s.callers
            && Waits(after, mine) && after.callers[mine].live
            && after.callers[mine].refresh == refresh && after.callers[mine].askedAt == s.now
            && address in after.shared && after.callers[mine].flight == after.shared[address]
            && (|after.flights| == |s.flights| + 1
                <==> address !in s.shared || (cfg.sendAware && refresh && IsSent(s, s.shared[address])))
            && (|after.flights| == |s.flights| <==> after.shared == s.shared)
            && |s.flights| <= |after.flights| <= |s.flights| + 1
            && after.callers[mine].flight < |after.flights|
            && after.flights[after.callers[mine].flight].address == address
  {
    RunKeeps(cfg, events);
    assert (events + [Ask(address, refresh)])[..|events|] == events;
    var s := Run(cfg, events);
    if address in s.shared { assert s.flights[s.shared[address]].address == address; }
  }

  // ----------------------------------------------------------------- progress

  function Steps(cfg: Config, s: State, more: seq<Event>): State
    decreases |more|
  {
    if more == [] then s else Steps(cfg, Step(cfg, s, more[0]), more[1..])
  }

  lemma {:induction false} RunThenSteps(cfg: Config, events: seq<Event>, more: seq<Event>)
    ensures Run(cfg, events + more) == Steps(cfg, Run(cfg, events), more)
    decreases |more|
  {
    if more == [] {
      assert events + more == events;
    } else {
      assert (events + [more[0]])[..|events|] == events;
      assert events + more == events + [more[0]] + more[1..];
      RunThenSteps(cfg, events + [more[0]], more[1..]);
    }
  }

  lemma OneThenSteps(cfg: Config, s: State, e: Event, rest: seq<Event>)
    ensures Steps(cfg, s, [e] + rest) == Steps(cfg, Step(cfg, s, e), rest)
  {
    assert ([e] + rest)[1..] == rest;
  }

  /** The caller waits for a read in this phase. */
  predicate WaitsIn(s: State, c: nat, phase: Phase) {
    Waits(s, c) && s.flights[s.callers[c].flight].phase == phase
  }

  predicate GotAnswer(s: State, c: nat, answer: Answer) {
    c < |s.callers| && s.callers[c].stance.Got? && s.callers[c].stance.answer == answer
  }

  /** An answer that came back reaches the caller. */
  lemma Delivered(cfg: Config, s: State, c: nat, answer: Answer) returns (more: seq<Event>)
    requires WaitsIn(s, c, Returning(answer)) || WaitsIn(s, c, Finished(answer)) || WaitsIn(s, c, Closed(answer))
    ensures GotAnswer(Steps(cfg, s, more), c, answer)
    decreases if WaitsIn(s, c, Returning(answer)) then 2 else if WaitsIn(s, c, Finished(answer)) then 1 else 0
  {
    var f := s.callers[c].flight;
    if WaitsIn(s, c, Closed(answer)) {
      more := [Receive(c)];
    } else {
      var e := if WaitsIn(s, c, Returning(answer)) then Finish(f) else CloseDone(f);
      var rest := Delivered(cfg, Step(cfg, s, e), c, answer);
      more := [e] + rest;
      OneThenSteps(cfg, s, e, rest);
    }
  }

  /** A read with a slot can send its request, hear the node's answer and pass it on. */
  lemma Answered(cfg: Config, s: State, c: nat) returns (more: seq<Event>)
    requires WaitsIn(s, c, InSlot) && s.used > 0
    ensures GotAnswer(Steps(cfg, s, more), c, Value)
  {
    var f := s.callers[c].flight;
    var sent := Step(cfg, s, Send(f));
    var replied := Step(cfg, sent, Reply(f, Value));
    var rest := Delivered(cfg, replied, c, Value);
    OneThenSteps(cfg, sent, Reply(f, Value), rest);
    OneThenSteps(cfg, s, Send(f), [Reply(f, Value)] + rest);
    more := [Send(f)] + ([Reply(f, Value)] + rest);
  }

  /** A queued read takes a free slot, or the slot of a read whose node answers. */
  lemma Served(cfg: Config, s: State, c: nat) returns (more: seq<Event>)
    requires WaitsIn(s, c, Queued) && SlotsOk(cfg, s) && cfg.capacity > 0
    ensures GotAnswer(Steps(cfg, s, more), c, Value)
  {
    var f := s.callers[c].flight;
    if s.used < cfg.capacity {
      var rest := Answered(cfg, Step(cfg, s, Acquire(f)), c);
      OneThenSteps(cfg, s, Acquire(f), rest);
      more := [Acquire(f)] + rest;
    } else {
      var g :| g in Holders(s.flights);
      var freed := Step(cfg, s, Reply(g, Failure));
      var rest := Answered(cfg, Step(cfg, freed, Acquire(f)), c);
      OneThenSteps(cfg, freed, Acquire(f), rest);
      OneThenSteps(cfg, s, Reply(g, Failure), [Acquire(f)] + rest);
      more := [Reply(g, Failure)] + ([Acquire(f)] + rest);
    }
  }

  /** Nothing has come back for the read yet. */
  predicate StillRead(flight: Flight) {
    flight.phase.Queued? || flight.phase.InSlot?
  }

  /**
   From any moment of any run, however full the slots are and whoever left, a caller that
   waits can be answered: with a value if nothing has come back, else with what did.
   */
  lemma EveryoneCanBeAnswered(cfg: Config, events: seq<Event>, c: nat) returns (more: seq<Event>, answer: Answer)
    requires cfg.capacity > 0 && Waits(Run(cfg, events), c)
    ensures GotAnswer(Run(cfg, events + more), c, answer)
    ensures var s := Run(cfg, events);
            var flight := s.flights[s.callers[c].flight];
            answer == if StillRead(flight) then Value else flight.phase.answer
  {
    RunKeeps(cfg, events);
    var s := Run(cfg, events);
    var f := s.callers[c].flight;
    match s.flights[f].phase {
      case Queued =>
        more := Served(cfg, s, c);
        answer := Value;
      case InSlot =>
        assert f in Holders(s.flights);
        more := Answered(cfg, s, c);
        answer := Value;
      case Returning(a) =>
        more := Delivered(cfg, s, c, a);
        answer := a;
      case Finished(a) =>
        more := Delivered(cfg, s, c, a);
        answer := a;
      case Closed(a) =>
        more := Delivered(cfg, s, c, a);
        answer := a;
    }
    RunThenSteps(cfg, events, more);
  }

  /** And one whose own context ends can leave; as the last, it takes the read along. */
  lemma AnyoneCanLeave(cfg: Config, events: seq<Event>, c: nat)
    requires Waits(Run(cfg, events), c)
    ensures var s, after := Run(cfg, events), Run(cfg, events + [EndContext(c), Leave(c)]);
            var f := s.callers[c].flight;
            && c < |after.callers| && after.callers[c].stance == Left && f < |after.flights|
            && after.flights[f].waiters == s.flights[f].waiters - 1
            && (after.flights[f].cancelled <==> s.flights[f].cancelled || s.flights[f].waiters == 1)
            && (s.flights[f].waiters == 1 ==> forall a :: a in after.shared ==> after.shared[a] != f)
  {
    RunKeeps(cfg, events);
    RunThenSteps(cfg, events, [EndContext(c), Leave(c)]);
    var s := Run(cfg, events);
    OneThenSteps(cfg, s, EndContext(c), [Leave(c)]);
    OneThenSteps(cfg, Step(cfg, s, EndContext(c)), Leave(c), []);
    assert [EndContext(c)] + [Leave(c)] == [EndContext(c), Leave(c)];
    assert [Leave(c)] + [] == [Leave(c)];
    forall a | a in s.shared ensures s.flights[s.shared[a]].address == a {
    }
  }

  /** A cancelled read that has no slot yet can end without one, telling nobody anything but that. */
  lemma CancelledCanEnd(cfg: Config, events: seq<Event>, f: nat)
    requires f < |Run(cfg, events).flights|
    requires Run(cfg, events).flights[f].cancelled && Run(cfg, events).flights[f].phase.Queued?
    ensures var s, after := Run(cfg, events), Run(cfg, events + [Abandon(f), Finish(f), CloseDone(f)]);
            && f < |after.flights| && after.flights[f].phase == Closed(Cancellation)
            && after.used == s.used && after.callers == s.callers
  {
    var s := Run(cfg, events);
    var t := Step(cfg, s, Abandon(f));
    var u := Step(cfg, t, Finish(f));
    RunThenSteps(cfg, events, [Abandon(f), Finish(f), CloseDone(f)]);
    OneThenSteps(cfg, s, Abandon(f), [Finish(f), CloseDone(f)]);
    OneThenSteps(cfg, t, Finish(f), [CloseDone(f)]);
    assert [Abandon(f)] + [Finish(f), CloseDone(f)] == [Abandon(f), Finish(f), CloseDone(f)];
    assert [Finish(f)] + [CloseDone(f)] == [Finish(f), CloseDone(f)];
    assert Steps(cfg, u, [CloseDone(f)]) == Step(cfg, u, CloseDone(f));
  }
}
