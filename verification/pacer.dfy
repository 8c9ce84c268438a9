/**
 Spacing requests to a public node (internal/chain/solana/rpc.go): each call reserves
 the next free instant, overall and for its method, and waits for it. Instants are in
 milliseconds; what is spaced is what was reserved, not when a caller wakes up.
 */
module Pacer {
  const INTERVAL: nat := 100
  const METHOD_INTERVAL: nat := 250

  /** The one clock of the endpoint, or that of one method. */
  datatype Key = Overall | Method(name: string)

  datatype Slot = Slot(name: string, at: nat)

  function Max(a: nat, b: nat): nat { if a < b then b else a }

  function Instants(log: seq<Slot>): seq<nat> {
    seq(|log|, i requires 0 <= i < |log| => log[i].at)
  }

  /** The instants reserved for one method. */
  function InstantsOf(log: seq<Slot>, name: string): seq<nat> {
    if log == [] then []
    else
      InstantsOf(log[..|log| - 1], name) + if log[|log| - 1].name == name then [log[|log| - 1].at] else []
  }

  predicate Spaced(instants: seq<nat>, gap: nat) {
    forall i, j :: 0 <= i < j < |instants| ==> instants[i] + gap <= instants[j]
  }

  /** The next instant free for a name comes a gap after its last one. */
  predicate Promised(instants: seq<nat>, gap: nat, next: map<Key, nat>, key: Key) {
    && Spaced(instants, gap)
    && (instants != [] ==> key in next && instants[|instants| - 1] + gap <= next[key])
  }

  ghost predicate AllPromised(log: seq<Slot>, next: map<Key, nat>) {
    && Promised(Instants(log), INTERVAL, next, Overall)
    && forall name :: Promised(InstantsOf(log, name), METHOD_INTERVAL, next, Method(name))
  }

  /** The free instant: now, or what was promised overall and for the method. */
  function Free(next: map<Key, nat>, name: string, now: nat): nat {
    Max(Max(now, if Overall in next then next[Overall] else 0), if Method(name) in next then next[Method(name)] else 0)
  }

  function After(next: map<Key, nat>, name: string, at: nat): map<Key, nat> {
    next[Overall := at + INTERVAL][Method(name) := at + METHOD_INTERVAL]
  }

  lemma OneMoreSpaced(instants: seq<nat>, gap: nat, at: nat)
    requires Spaced(instants, gap) && (instants != [] ==> instants[|instants| - 1] + gap <= at)
    ensures Spaced(instants + [at], gap)
  {
  }

  lemma InstantsOneMore(log: seq<Slot>, slot: Slot, name: string)
    ensures Instants(log + [slot]) == Instants(log) + [slot.at]
    ensures InstantsOf(log + [slot], name) == InstantsOf(log, name) + if slot.name == name then [slot.at] else []
  {
    assert (log + [slot])[..|log|] == log;
  }

  lemma ReserveKeeps(log: seq<Slot>, next: map<Key, nat>, name: string, now: nat)
    requires AllPromised(log, next)
    ensures AllPromised(log + [Slot(name, Free(next, name, now))], After(next, name, Free(next, name, now)))
  {
    var at := Free(next, name, now);
    var slot := Slot(name, at);
    InstantsOneMore(log, slot, name);
    OneMoreSpaced(Instants(log), INTERVAL, at);
    forall other
      ensures Promised(InstantsOf(log + [slot], other), METHOD_INTERVAL, After(next, name, at), Method(other))
    {
      InstantsOneMore(log, slot, other);
      assert Promised(InstantsOf(log, other), METHOD_INTERVAL, next, Method(other));
      if other == name { OneMoreSpaced(InstantsOf(log, other), METHOD_INTERVAL, at); }
    }
  }

  class Pacer {
    var next: map<Key, nat>
    ghost var calls: seq<Call>

    /** The map is what the calls so far left. */
    ghost predicate Valid()
      reads this
    {
      next == Reservations(calls).1
    }

    constructor ()
      ensures Valid() && calls == []
    {
      next := map[];
      calls := [];
    }

    /** Reserves an instant no earlier than now and returns how long to wait for it. */
    method Reserve(name: string, now: nat) returns (delay: nat)
      requires Valid()
      modifies this
      ensures Valid() && calls == old(calls) + [Call(name, now)]
      ensures Reservations(calls).0 == Reservations(old(calls)).0 + [Slot(name, now + delay)]
    {
      var at := now;
      if Overall in next && next[Overall] > at { at := next[Overall]; }
      if Method(name) in next && next[Method(name)] > at { at := next[Method(name)]; }
      next := next[Overall := at + INTERVAL];
      next := next[Method(name) := at + METHOD_INTERVAL];
      assert (calls + [Call(name, now)])[..|calls|] == calls;
      calls := calls + [Call(name, now)];
      delay := at - now;
    }
  }

  // --------------------------------------------------------------- whole runs

  datatype Call = Call(name: string, now: nat)

  /** The instants handed out to a sequence of calls, whatever their clocks say. */
  function Reservations(calls: seq<Call>): (seq<Slot>, map<Key, nat>) {
    if calls == [] then ([], map[])
    else
      var (log, next) := Reservations(calls[..|calls| - 1]);
      var c := calls[|calls| - 1];
      var at := Free(next, c.name, c.now);
      (log + [Slot(c.name, at)], After(next, c.name, at))
  }

  lemma {:induction false} ReservationsArePromised(calls: seq<Call>)
    ensures AllPromised(Reservations(calls).0, Reservations(calls).1)
    decreases |calls|
  {
    if calls == [] {
      assert Instants([]) == [];
    } else {
      ReservationsArePromised(calls[..|calls| - 1]);
      var (log, next) := Reservations(calls[..|calls| - 1]);
      ReserveKeeps(log, next, calls[|calls| - 1].name, calls[|calls| - 1].now);
    }
  }

  /** In call order, 100 ms apart overall and 250 ms apart for each method. */
  lemma RequestsAreSpaced(calls: seq<Call>, name: string)
    ensures Spaced(Instants(Reservations(calls).0), INTERVAL)
    ensures Spaced(InstantsOf(Reservations(calls).0, name), METHOD_INTERVAL)
  {
    ReservationsArePromised(calls);
  }

  /** A clock is set by the last reservation it follows, a gap before. */
  ghost predicate SetBy(log: seq<Slot>, next: map<Key, nat>) {
    && (Overall in next ==> exists k :: 0 <= k < |log| && log[k].at + INTERVAL == next[Overall])
    && forall name :: Method(name) in next ==>
         exists k :: 0 <= k < |log| && log[k].name == name && log[k].at + METHOD_INTERVAL == next[Method(name)]
  }

  lemma {:induction false} ClocksAreSet(calls: seq<Call>)
    ensures |Reservations(calls).0| == |calls|
    ensures SetBy(Reservations(calls).0, Reservations(calls).1)
    decreases |calls|
  {
    if calls == [] {
    } else {
      ClocksAreSet(calls[..|calls| - 1]);
      var (log, next) := Reservations(calls[..|calls| - 1]);
      var (after, clocks) := Reservations(calls);
      var n := |log|;
      assert after[n].at + INTERVAL == clocks[Overall];
      forall name | Method(name) in clocks
        ensures exists k :: 0 <= k < |after| && after[k].name == name
                            && after[k].at + METHOD_INTERVAL == clocks[Method(name)]
      {
        if name == calls[|calls| - 1].name {
          assert after[n].name == name && after[n].at + METHOD_INTERVAL == clocks[Method(name)];
        } else {
          var k :| 0 <= k < |log| && log[k].name == name && log[k].at + METHOD_INTERVAL == next[Method(name)];
          assert after[k] == log[k];
        }
      }
    }
  }

  /** Nobody waits without need: a call is due when it asks, or just a gap after an earlier one. */
  lemma NoNeedlessWait(calls: seq<Call>, c: Call)
    ensures var log := Reservations(calls).0;
            var after := Reservations(calls + [c]).0;
            && |after| == |log| + 1 && after[..|log|] == log && after[|log|].name == c.name
            && c.now <= after[|log|].at
            && (after[|log|].at > c.now ==>
                  exists k :: 0 <= k < |log|
                    && (log[k].at + INTERVAL == after[|log|].at
                        || (log[k].name == c.name && log[k].at + METHOD_INTERVAL == after[|log|].at)))
  {
    assert (calls + [c])[..|calls|] == calls;
    ClocksAreSet(calls);
    var (log, next) := Reservations(calls);
    var at := Free(next, c.name, c.now);
    if at > c.now {
      if Method(c.name) in next && at == next[Method(c.name)] {
        var k :| 0 <= k < |log| && log[k].name == c.name && log[k].at + METHOD_INTERVAL == next[Method(c.name)];
        assert log[k].at + METHOD_INTERVAL == at;
      } else {
        var k :| 0 <= k < |log| && log[k].at + INTERVAL == next[Overall];
        assert log[k].at + INTERVAL == at;
      }
    }
  }

  /** How many instants lie in [from, end). */
  function Within(instants: seq<nat>, from: nat, end: nat): nat {
    if instants == [] then 0
    else
      var last := instants[|instants| - 1];
      Within(instants[..|instants| - 1], from, end) + if from <= last < end then 1 else 0
  }

  function Inside(instants: seq<nat>, from: nat, end: nat): set<nat> {
    set i | 0 <= i < |instants| && from <= instants[i] < end
  }

  lemma InsideOneMore(front: seq<nat>, last: nat, from: nat, end: nat)
    ensures Inside(front + [last], from, end)
         == Inside(front, from, end) + if from <= last < end then {|front|} else {}
  {
  }

  /** That is, how many of them. */
  lemma {:induction false} WithinCounts(instants: seq<nat>, from: nat, end: nat)
    ensures Within(instants, from, end) == |Inside(instants, from, end)|
    decreases |instants|
  {
    if instants == [] {
    } else {
      var front, last := instants[..|instants| - 1], instants[|instants| - 1];
      WithinCounts(front, from, end);
      InsideOneMore(front, last, from, end);
      assert instants == front + [last];
    }
  }

  lemma {:induction false} NoneBefore(instants: seq<nat>, from: nat, end: nat)
    requires forall i :: 0 <= i < |instants| ==> instants[i] < from
    ensures Within(instants, from, end) == 0
    decreases |instants|
  {
    if instants == [] {
    } else {
      NoneBefore(instants[..|instants| - 1], from, end);
    }
  }

  lemma {:induction false} ShorterWindow(instants: seq<nat>, from: nat, end: nat, less: nat)
    requires less <= end && forall i :: 0 <= i < |instants| ==> instants[i] < less
    ensures Within(instants, from, end) == Within(instants, from, less)
    decreases |instants|
  {
    if instants == [] {
    } else {
      ShorterWindow(instants[..|instants| - 1], from, end, less);
    }
  }

  lemma OneMore(n: nat, gap: nat)
    ensures (1 + n) * gap == gap + n * gap
  {
  }

  /** A window of length L holds fewer instants than L over the gap, plus one. */
  lemma {:induction false} WindowIsBounded(instants: seq<nat>, gap: nat, from: nat, end: nat)
    requires Spaced(instants, gap) && gap > 0 && from <= end
    ensures Within(instants, from, end) * gap < end - from + gap
    decreases |instants|
  {
    if instants == [] {
    } else {
      var front, last := instants[..|instants| - 1], instants[|instants| - 1];
      if last < from || end <= last {
        WindowIsBounded(front, gap, from, end);
      } else if last + 1 < from + gap {
        NoneBefore(front, from, end);
      } else {
        var less := last + 1 - gap;
        ShorterWindow(front, from, end, less);
        WindowIsBounded(front, gap, from, less);
        OneMore(Within(front, from, less), gap);
      }
    }
  }

  function Ceiling(a: nat, b: nat): (r: nat)
    requires b > 0
    ensures a <= r * b < a + b
  {
    (a + b - 1) / b
  }

  /** However callers interleave or give up, a node sees no burst. */
  lemma NoBursts(calls: seq<Call>, name: string, from: nat, end: nat)
    requires from <= end
    ensures |Inside(Instants(Reservations(calls).0), from, end)| <= Ceiling(end - from, INTERVAL)
    ensures |Inside(InstantsOf(Reservations(calls).0, name), from, end)| <= Ceiling(end - from, METHOD_INTERVAL)
  {
    WithinCounts(Instants(Reservations(calls).0), from, end);
    WithinCounts(InstantsOf(Reservations(calls).0, name), from, end);
    RequestsAreSpaced(calls, name);
    WindowIsBounded(Instants(Reservations(calls).0), INTERVAL, from, end);
    WindowIsBounded(InstantsOf(Reservations(calls).0, name), METHOD_INTERVAL, from, end);
  }
}
