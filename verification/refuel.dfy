/**
 Gas top-ups of one space (internal/refuel/store.go): at most one may be under way for a
 wallet on a network, however many were quoted.
 */
module Refuel {
  import opened Wrappers

  type Id = nat
  type Network = nat
  type AccountId = nat

  datatype Plan = Plan(
    network: Network, account: AccountId, expiresAt: int, started: bool, finished: bool, createdAt: int)
  {
    /** Under way: the deposit may be on its way. */
    predicate Active() { started && !finished }
  }

  type Plans = map<Id, Plan>

  const MAX_PLANS: nat := 512
  const WEEK: int := 7 * 24 * 3_600_000_000_000

  predicate Outdated(p: Plan, now: int) {
    (!p.started && now > p.expiresAt) || (p.finished && now - p.createdAt > WEEK)
  }

  predicate SameWallet(p: Plan, q: Plan) {
    p.network == q.network && p.account == q.account
  }

  function Current(plans: Plans, now: int): Plans {
    map id | id in plans && !Outdated(plans[id], now) :: plans[id]
  }

  /** Some other plan is under way for the wallet. */
  predicate Rivals(plans: Plans, id: Id)
    requires id in plans
  {
    exists other :: other in plans && other != id && plans[other].Active() && SameWallet(plans[other], plans[id])
  }

  function Put(plans: Plans, id: Id, plan: Plan, now: int, written: bool): Plans {
    var current := Current(plans, now);
    if |current| >= MAX_PLANS || !written then plans else current[id := plan.(createdAt := now)]
  }

  ghost function Claim(plans: Plans, id: Id, written: bool): Plans {
    if id !in plans || Rivals(plans, id) || !written then plans else plans[id := plans[id].(started := true)]
  }

  function Mark(plans: Plans, id: Id, finished: bool, written: bool): Plans {
    if id !in plans || !written then plans else plans[id := plans[id].(started := true, finished := finished)]
  }

  class Store {
    var plans: Plans

    constructor ()
      ensures plans == map[]
    {
      plans := map[];
    }

    /** Outdated plans make room; a new one is kept under a new id. */
    method PutPlan(id: Id, plan: Plan, now: int, written: bool) returns (ok: bool)
      modifies this
      ensures plans == Put(old(plans), id, plan, now, written)
      ensures ok <==> |Current(old(plans), now)| < MAX_PLANS && written
    {
      var left, current := plans.Keys, plans;
      while left != {}
        invariant left <= plans.Keys
        invariant forall k :: k in current <==> k in plans && (k in left || !Outdated(plans[k], now))
        invariant forall k :: k in current ==> current[k] == plans[k]
        decreases left
      {
        var k :| k in left;
        if Outdated(plans[k], now) { current := map other | other in current && other != k :: current[other]; }
        left := left - {k};
      }
      var kept := Current(plans, now);
      assert forall k :: k in current <==> k in kept;
      assert forall k :: k in current ==> current[k] == kept[k];
      assert current == kept;
      if |current| >= MAX_PLANS || !written { return false; }
      plans := current[id := plan.(createdAt := now)];
      ok := true;
    }

    method ClaimPlan(id: Id, written: bool) returns (ok: bool)
      modifies this
      ensures plans == Claim(old(plans), id, written)
      ensures ok <==> id in old(plans) && !Rivals(old(plans), id) && written
    {
      if id !in plans { return false; }
      var left := plans.Keys;
      while left != {}
        invariant left <= plans.Keys
        invariant forall k :: k in plans && k !in left ==>
                    k == id || !plans[k].Active() || !SameWallet(plans[k], plans[id])
        decreases left
      {
        var k :| k in left;
        if k != id && plans[k].Active() && SameWallet(plans[k], plans[id]) { return false; }
        left := left - {k};
      }
      if !written { return false; }
      plans := plans[id := plans[id].(started := true)];
      ok := true;
    }

    method MarkPlan(id: Id, finished: bool, written: bool)
      modifies this
      ensures plans == Mark(old(plans), id, finished, written)
    {
      if id !in plans || !written { return; }
      plans := plans[id := plans[id].(started := true, finished := finished)];
    }
  }

  // ------------------------------------------------------------ one at a time

  predicate OneAtATime(plans: Plans) {
    forall i, j :: i in plans && j in plans && i != j && plans[i].Active() && plans[j].Active() ==>
      plans[i].network != plans[j].network || plans[i].account != plans[j].account
  }

  datatype Event =
    | PutEvent(id: Id, plan: Plan, now: int, written: bool)
    | ClaimEvent(id: Id, written: bool)
    | MarkEvent(id: Id, finished: bool, written: bool)

  ghost function Step(plans: Plans, e: Event): Plans {
    match e
    case PutEvent(id, plan, now, written) =>
      if id in plans || plan.started then plans else Put(plans, id, plan, now, written)
    case ClaimEvent(id, written) => Claim(plans, id, written)
    case MarkEvent(id, finished, written) => Mark(plans, id, finished, written)
  }

  ghost function Run(events: seq<Event>): Plans {
    if events == [] then map[] else Step(Run(events[..|events| - 1]), events[|events| - 1])
  }

  /** A mark that finishes a plan, as every caller makes it, or leaves one without rivals. */
  lemma MarkKeepsOneAtATimeIff(plans: Plans, id: Id, finished: bool)
    requires OneAtATime(plans) && id in plans
    ensures OneAtATime(Mark(plans, id, finished, true)) <==> finished || !Rivals(plans, id)
  {
    var after := Mark(plans, id, finished, true);
    if !finished && Rivals(plans, id) {
      var other :| other in plans && other != id && plans[other].Active() && SameWallet(plans[other], plans[id]);
      assert after[other].Active() && after[id].Active();
    }
  }

  /** Whatever is quoted, claimed and finished, a wallet has at most one top-up under way. */
  lemma {:induction false} OneTopUpAtATime(events: seq<Event>)
    requires forall i :: 0 <= i < |events| && events[i].MarkEvent? ==> events[i].finished
    ensures OneAtATime(Run(events))
    decreases |events|
  {
    if events == [] {
    } else {
      OneTopUpAtATime(events[..|events| - 1]);
      var e := events[|events| - 1];
      if e.MarkEvent? && e.id in Run(events[..|events| - 1]) && e.written {
        MarkKeepsOneAtATimeIff(Run(events[..|events| - 1]), e.id, e.finished);
      }
    }
  }

  // ---------------------------------------------------------- what calls change

  /** All plans but one are the same. */
  ghost predicate SameButFor(before: Plans, after: Plans, id: Id) {
    forall k :: k != id ==> (k in after <==> k in before) && (k in before ==> after[k] == before[k])
  }

  /** A quote nobody took up in time, or a top-up over for more than a week. */
  predicate MayGo(p: Plan, now: int) {
    (!p.started && p.expiresAt < now) || (p.finished && p.createdAt + WEEK < now)
  }

  /** A plan kept is the one given, dated now; only plans that may go make room for it. */
  lemma PuttingKeeps(plans: Plans, id: Id, plan: Plan, now: int, written: bool)
    requires id !in plans
    ensures var after := Put(plans, id, plan, now, written);
            && (after != plans ==> id in after)
            && (id !in after ==> after == plans)
            && (id in after ==>
                  && written && after[id] == plan.(createdAt := now) && |after| <= MAX_PLANS
                  && forall k :: k != id ==>
                       (k in after <==> k in plans && !MayGo(plans[k], now)) && (k in after ==> after[k] == plans[k]))
            && (written && |plans| < MAX_PLANS ==> id in after)
  {
    var current := Current(plans, now);
    SubsetSize(current.Keys, plans.Keys);
    if |current| < MAX_PLANS && written {
      assert Put(plans, id, plan, now, written).Keys == current.Keys + {id};
    }
  }

  /** A claim puts the plan under way exactly if no other is for its wallet; a finish ends it. */
  lemma ClaimingStarts(plans: Plans, id: Id)
    requires id in plans && !plans[id].finished
    ensures var after := Claim(plans, id, true);
            && SameButFor(plans, after, id) && id in after && SameWallet(after[id], plans[id])
            && (after[id].Active() <==>
                  plans[id].Active()
                  || forall k :: k in plans && k != id && plans[k].Active() ==>
                       plans[k].network != plans[id].network || plans[k].account != plans[id].account)
            && var over := Mark(after, id, true, true);
               SameButFor(after, over, id) && id in over && over[id].finished && SameWallet(over[id], plans[id])
  {
  }

  /** A top-up under way is never forgotten: only a mark that finishes it ends it. */
  lemma {:induction false} UnderWayStays(events: seq<Event>, m: nat, id: Id)
    requires m <= |events| && id in Run(events[..m]) && Run(events[..m])[id].Active()
    requires forall i :: m <= i < |events| && events[i].MarkEvent? ==> events[i].id != id || !events[i].finished
    ensures id in Run(events) && Run(events)[id].Active() && SameWallet(Run(events)[id], Run(events[..m])[id])
    decreases |events|
  {
    if m == |events| {
      assert events[..m] == events;
    } else {
      var front := events[..|events| - 1];
      assert front[..m] == events[..m];
      UnderWayStays(front, m, id);
    }
  }

  /** After any run a quote can be taken up if there is room and nothing is under way for its wallet. */
  lemma ATopUpCanStart(events: seq<Event>, id: Id, plan: Plan, now: int)
    requires id !in Run(events) && |Run(events)| < MAX_PLANS && !plan.started && !plan.finished
    requires forall k :: k in Run(events) && Run(events)[k].Active() ==>
               Run(events)[k].network != plan.network || Run(events)[k].account != plan.account
    ensures var after := Run(events + [PutEvent(id, plan, now, true), ClaimEvent(id, true)]);
            id in after && after[id] == plan.(createdAt := now, started := true)
    ensures var over := Run(events + [PutEvent(id, plan, now, true), ClaimEvent(id, true), MarkEvent(id, true, true)]);
            id in over && !over[id].Active()
  {
    var put, claim, mark := PutEvent(id, plan, now, true), ClaimEvent(id, true), MarkEvent(id, true, true);
    assert (events + [put])[..|events|] == events;
    assert (events + [put, claim])[..|events| + 1] == events + [put];
    assert (events + [put, claim, mark])[..|events| + 2] == events + [put, claim];
    PuttingKeeps(Run(events), id, plan, now, true);
    assert Run(events + [put]) == Put(Run(events), id, plan, now, true);
    ClaimingStarts(Run(events + [put]), id);
  }
}
