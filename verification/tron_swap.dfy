/**
 A Tron swap as the steps it still needs (internal/tron/swap.go): approve, grant, swap,
 judged by the allowances on chain, and what those steps cost.
 */
module TronSwap {
  import opened Wrappers

  datatype Protocol = V2 | V3 | V4
  datatype Kind = Approve | Permit2 | Swap
  datatype Spender = V2Router | V3Router | Permit2Contract

  const SECOND: nat := 1_000_000_000
  const SWAP_DEADLINE: nat := 180 * SECOND
  const PERMIT2_LIFETIME: nat := 3600 * SECOND
  const PERMIT2_UNLIMITED_LIFETIME: nat := 30 * 24 * 3600 * SECOND
  const UINT48: nat := 0x1_0000_0000_0000
  const MAX_UINT160: nat := 0xFFFF_FFFF_FFFF_FFFF_FFFF_FFFF_FFFF_FFFF_FFFF_FFFF
  const MAX_UINT256: nat := 0xFFFF_FFFF_FFFF_FFFF_FFFF_FFFF_FFFF_FFFF_FFFF_FFFF_FFFF_FFFF_FFFF_FFFF_FFFF_FFFF

  /** What fits the token contract's words; amounts are positive. */
  type Amount = n: nat | 0 < n <= MAX_UINT256 witness 1

  /** Whole seconds, rounded down. */
  function Seconds(t: nat): (r: nat)
    ensures InSeconds(t, r)
  {
    t / SECOND
  }

  predicate InSeconds(t: nat, seconds: nat) {
    seconds * SECOND <= t < (seconds + 1) * SECOND
  }

  datatype Plan = Plan(trxIn: bool, amountIn: Amount, minOut: nat, protocol: Protocol, unlimited: bool)

  /** What the chain says the router and the universal router may draw. */
  datatype Ledger = Ledger(allowances: map<Spender, nat>, grant: nat, expiration: nat)

  /** A grant is held in 160 bits and its expiry in 48. */
  predicate OnChain(l: Ledger) {
    && (forall s :: s in l.allowances ==> l.allowances[s] <= MAX_UINT256)
    && l.grant <= MAX_UINT160 && l.expiration < UINT48
  }

  datatype Call =
    | ApproveCall(spender: Spender, amount: nat)
    | PermitCall(amount: nat, expiration: nat)
    | SwapCall(protocol: Protocol, amount: nat, minOut: nat, deadline: nat)
  {
    function Kind(): Kind {
      match this case ApproveCall(_, _) => Approve case PermitCall(_, _) => Permit2 case SwapCall(_, _, _, _) => Swap
    }
  }

  /** The encoder refuses a grant that is none or past 160 bits, and a V4 minimum past 160 bits. */
  predicate Packs(c: Call) {
    match c
    case ApproveCall(_, _) => true
    case PermitCall(amount, expiration) => 0 < amount <= MAX_UINT160 && expiration < UINT48
    case SwapCall(protocol, _, minOut, _) => protocol == V4 ==> minOut <= MAX_UINT160
  }

  function SpenderOf(p: Protocol): Spender {
    match p case V2 => V2Router case V3 => V3Router case V4 => Permit2Contract
  }

  function Allowance(l: Ledger, s: Spender): nat {
    if s in l.allowances then l.allowances[s] else 0
  }

  predicate Approved(p: Plan, l: Ledger) {
    p.trxIn || p.amountIn <= Allowance(l, SpenderOf(p.protocol))
  }

  /** The grant covers the amount and outlives a swap signed now. */
  predicate Granted(p: Plan, l: Ledger, now: nat) {
    p.trxIn || p.protocol != V4 || (p.amountIn <= l.grant && Seconds(now + SWAP_DEADLINE) <= l.expiration)
  }

  function ApproveFor(p: Plan): Call {
    ApproveCall(SpenderOf(p.protocol), if p.unlimited then MAX_UINT256 else p.amountIn)
  }

  function PermitFor(p: Plan, now: nat): Call {
    if p.unlimited then PermitCall(MAX_UINT160, Seconds(now + PERMIT2_UNLIMITED_LIFETIME))
    else PermitCall(p.amountIn, Seconds(now + PERMIT2_LIFETIME))
  }

  function SwapFor(p: Plan, now: nat): Call {
    SwapCall(p.protocol, p.amountIn, p.minOut, Seconds(now + SWAP_DEADLINE))
  }

  /** The transactions a swap still needs, in order. */
  function Needed(p: Plan, l: Ledger, now: nat): (r: seq<Call>)
    ensures r != []
  {
    (if Approved(p, l) then [] else [ApproveFor(p)])
    + (if Granted(p, l, now) then [] else [PermitFor(p, now)])
    + [SwapFor(p, now)]
  }

  /** Nothing is offered unless all of it can be encoded. */
  function Calls(p: Plan, l: Ledger, now: nat): (r: Option<seq<Call>>)
    ensures r.Some? ==> r.value != []
  {
    if forall i :: 0 <= i < |Needed(p, l, now)| ==> Packs(Needed(p, l, now)[i]) then Some(Needed(p, l, now)) else None
  }

  /** Each call is there if it is needed, and all of them pack. */
  lemma AllPackIff(p: Plan, l: Ledger, now: nat)
    ensures Calls(p, l, now).Some? <==> (Granted(p, l, now) || Packs(PermitFor(p, now))) && Packs(SwapFor(p, now))
  {
    var needed := Needed(p, l, now);
    var n := |needed|;
    assert needed[n - 1] == SwapFor(p, now);
    if !Granted(p, l, now) { assert needed[n - 2] == PermitFor(p, now); }
    if !Approved(p, l) { assert needed[0] == ApproveFor(p); }
  }

  /** The list as the planner appends it, given up at the first call that cannot be encoded. */
  method SwapCalls(p: Plan, l: Ledger, now: nat) returns (result: Option<seq<Call>>)
    ensures result == Calls(p, l, now)
  {
    AllPackIff(p, l, now);
    var calls := [];
    if !p.trxIn {
      var spender := V2Router;
      match p.protocol {
        case V2 =>
        case V3 => spender := V3Router;
        case V4 => spender := Permit2Contract;
      }
      if Allowance(l, spender) < p.amountIn {
        calls := calls + [ApproveCall(spender, if p.unlimited then MAX_UINT256 else p.amountIn)];
      }
      if p.protocol == V4 && (l.grant < p.amountIn || l.expiration < Seconds(now + SWAP_DEADLINE)) {
        var grant: nat, lifetime := p.amountIn, PERMIT2_LIFETIME;
        if p.unlimited { grant, lifetime := MAX_UINT160, PERMIT2_UNLIMITED_LIFETIME; }
        if grant == 0 || grant > MAX_UINT160 || Seconds(now + lifetime) >= UINT48 { return None; }
        calls := calls + [PermitCall(grant, Seconds(now + lifetime))];
      }
    }
    if p.protocol == V4 && p.minOut > MAX_UINT160 { return None; }
    calls := calls + [SwapCall(p.protocol, p.amountIn, p.minOut, Seconds(now + SWAP_DEADLINE))];
    assert calls == Needed(p, l, now);
    result := Some(calls);
  }

  function Kinds(calls: seq<Call>): seq<Kind> {
    seq(|calls|, i requires 0 <= i < |calls| => calls[i].Kind())
  }

  function Rank(k: Kind): nat {
    match k case Approve => 0 case Permit2 => 1 case Swap => 2
  }

  predicate Increasing(kinds: seq<Kind>) {
    forall i, j :: 0 <= i < j < |kinds| ==> Rank(kinds[i]) < Rank(kinds[j])
  }

  /** Always in order, each kind at most once, the swap last. */
  lemma StepsAreOrdered(p: Plan, l: Ledger, now: nat)
    ensures var kinds := Kinds(Needed(p, l, now));
            && Increasing(kinds) && 1 <= |kinds| <= 3 && kinds[|kinds| - 1] == Swap
            && (Permit2 in kinds ==> p.protocol == V4) && (p.trxIn ==> kinds == [Swap])
            && (Approve in kinds <==> !Approved(p, l)) && (Permit2 in kinds <==> !Granted(p, l, now))
  {
    var kinds := Kinds(Needed(p, l, now));
    if !Approved(p, l) { assert kinds[0] == Approve; }
    if !Granted(p, l, now) { assert kinds[|kinds| - 2] == Permit2; }
  }

  // ------------------------------------------------------------ which step goes

  datatype Verdict = Sign(call: Call) | AlreadyInPlace | NotConfirmedYet | CannotBuild

  /** A requested step is signed only if it is the next one needed. */
  function Next(p: Plan, l: Ledger, now: nat, requested: Kind): Verdict {
    match Calls(p, l, now)
    case None => CannotBuild
    case Some(calls) =>
      var next := calls[0];
      if next.Kind() == requested then Sign(next)
      else if Rank(requested) < Rank(next.Kind()) then AlreadyInPlace
      else NotConfirmedYet
  }

  /** What V4 needs to be encoded: a minimum, and where one is needed a grant, in their words. */
  predicate Encodable(p: Plan, l: Ledger, now: nat) {
    p.protocol == V4 ==>
      && p.minOut <= MAX_UINT160
      && (Granted(p, l, now)
          || (if p.unlimited then Seconds(now + PERMIT2_UNLIMITED_LIFETIME) < UINT48
              else p.amountIn <= MAX_UINT160 && Seconds(now + PERMIT2_LIFETIME) < UINT48))
  }

  /**
   The refusals mean what they say: a step called in place is not needed, and a step
   told to wait has one before it that is.
   */
  lemma VerdictsAreRight(p: Plan, l: Ledger, now: nat, requested: Kind)
    ensures Next(p, l, now, requested) == AlreadyInPlace ==> requested !in Kinds(Needed(p, l, now))
    ensures Next(p, l, now, requested) == NotConfirmedYet ==>
              exists k :: k in Kinds(Needed(p, l, now)) && Rank(k) < Rank(requested)
    ensures Next(p, l, now, requested).Sign? ==>
              match requested
              case Approve => !Approved(p, l)
              case Permit2 => Approved(p, l) && !Granted(p, l, now)
              case Swap => Approved(p, l) && Granted(p, l, now)
    ensures Next(p, l, now, requested) == CannotBuild <==> !Encodable(p, l, now)
  {
    StepsAreOrdered(p, l, now);
    AllPackIff(p, l, now);
    var kinds := Kinds(Needed(p, l, now));
    assert kinds[0] == Needed(p, l, now)[0].Kind() && kinds[0] in kinds;
  }

  // ------------------------------------------------------- confirming the steps

  /** The ledger once a step is on chain. */
  function Confirm(l: Ledger, c: Call): Ledger {
    match c
    case ApproveCall(s, amount) => l.(allowances := l.allowances[s := amount])
    case PermitCall(amount, expiration) => l.(grant := amount, expiration := expiration)
    case SwapCall(_, _, _, _) => l
  }

  /** Selling through V4 needs a grant, and no grant holds more than 160 bits. */
  predicate Grantable(p: Plan) {
    p.trxIn || p.protocol != V4 || p.amountIn <= MAX_UINT160
  }

  /** The last moment a grant made now can still be written down. */
  predicate InEra(now: nat) {
    Seconds(now + PERMIT2_UNLIMITED_LIFETIME) < UINT48
  }

  lemma SecondsOrder(a: nat, b: nat)
    requires a <= b
    ensures Seconds(a) <= Seconds(b)
  {
  }

  /** What can be granted can be offered, on any ledger. */
  lemma GrantableIsOffered(p: Plan, l: Ledger, now: nat)
    requires Grantable(p) && Packs(SwapFor(p, now)) && InEra(now)
    ensures Calls(p, l, now) == Some(Needed(p, l, now))
  {
    AllPackIff(p, l, now);
    SecondsOrder(now + PERMIT2_LIFETIME, now + PERMIT2_UNLIMITED_LIFETIME);
  }

  /** A swap that cannot be granted is never signed, whatever is on chain; without an unlimited grant nothing is. */
  lemma UngrantableIsNeverSigned(p: Plan, l: Ledger, now: nat)
    requires !Grantable(p) && OnChain(l)
    ensures !Next(p, l, now, Swap).Sign?
    ensures !p.unlimited ==> forall k :: Next(p, l, now, k) == CannotBuild
  {
    AllPackIff(p, l, now);
    VerdictsAreRight(p, l, now, Swap);
  }

  /** A swap can be signed on some ledger exactly when its amount can be granted and its minimum encoded. */
  lemma SwapIsSignableIff(p: Plan, now: nat)
    requires InEra(now)
    ensures (exists l: Ledger :: OnChain(l) && Next(p, l, now, Swap).Sign?)
            <==> Grantable(p) && (p.protocol == V4 ==> p.minOut <= MAX_UINT160)
  {
    if Grantable(p) && Packs(SwapFor(p, now)) {
      var l := Ledger(map[SpenderOf(p.protocol) := MAX_UINT256], MAX_UINT160, UINT48 - 1);
      SecondsOrder(now + SWAP_DEADLINE, now + PERMIT2_UNLIMITED_LIFETIME);
      AllPackIff(p, l, now);
      assert OnChain(l) && Next(p, l, now, Swap).Sign?;
    }
    forall l: Ledger | OnChain(l) && Next(p, l, now, Swap).Sign?
      ensures Grantable(p) && Packs(SwapFor(p, now))
    {
      if !Grantable(p) { UngrantableIsNeverSigned(p, l, now); }
      AllPackIff(p, l, now);
    }
  }

  /** One unit past 160 bits, sold through V4: no step is offered, or a grant is offered that never suffices. */
  lemma OnePastTheGrant(unlimited: bool, l: Ledger, now: nat)
    requires OnChain(l) && InEra(now)
    ensures var p := Plan(false, MAX_UINT160 + 1, 1, V4, unlimited);
            && !Next(p, l, now, Swap).Sign?
            && (!unlimited ==> Calls(p, l, now).None?)
            && (unlimited && Approved(p, l) ==>
                  && Next(p, l, now, Permit2) == Sign(PermitFor(p, now))
                  && Next(p, Confirm(l, PermitFor(p, now)), now, Permit2) == Sign(PermitFor(p, now)))
  {
    var p := Plan(false, MAX_UINT160 + 1, 1, V4, unlimited);
    UngrantableIsNeverSigned(p, l, now);
    AllPackIff(p, l, now);
    AllPackIff(p, Confirm(l, PermitFor(p, now)), now);
  }

  lemma PermitLives(p: Plan, l: Ledger, now: nat, later: nat)
    requires !p.trxIn && p.protocol == V4 && now <= later <= now + PERMIT2_LIFETIME - SWAP_DEADLINE
    requires Grantable(p)
    ensures Granted(p, Confirm(l, PermitFor(p, now)), later)
  {
    SecondsOrder(later + SWAP_DEADLINE, now + PERMIT2_LIFETIME);
    SecondsOrder(now + PERMIT2_LIFETIME, now + PERMIT2_UNLIMITED_LIFETIME);
  }

  /** The grant that was good enough is good enough still. */
  predicate GrantLasts(p: Plan, l: Ledger, now: nat, later: nat) {
    now <= later && (Granted(p, l, now) ==> Granted(p, l, later))
  }

  /** What confirming a step is meant to do: the steps still needed are the others. */
  predicate LeavesTheRest(p: Plan, l: Ledger, now: nat, later: nat) {
    Kinds(Needed(p, Confirm(l, Needed(p, l, now)[0]), later)) == Kinds(Needed(p, l, now))[1..]
  }

  /**
   Confirming the first step leaves exactly the others, for as long as the grants made
   for this swap live.
   */
  lemma ConfirmingLeavesTheRest(p: Plan, l: Ledger, now: nat, later: nat)
    requires |Needed(p, l, now)| > 1 && (Approved(p, l) ==> Grantable(p))
    requires later <= now + PERMIT2_LIFETIME - SWAP_DEADLINE && GrantLasts(p, l, now, later)
    ensures LeavesTheRest(p, l, now, later)
  {
    var after := Confirm(l, Needed(p, l, now)[0]);
    if !Approved(p, l) {
      assert Approved(p, after);
      if !Granted(p, l, now) { GrantNeverRevives(p, l, now, later); }
      assert Granted(p, after, later) <==> Granted(p, l, now);
    } else {
      PermitLives(p, l, now, later);
    }
  }

  lemma GrantNeverRevives(p: Plan, l: Ledger, now: nat, later: nat)
    requires now <= later && !Granted(p, l, now)
    ensures !Granted(p, l, later)
  {
    SecondsOrder(now + SWAP_DEADLINE, later + SWAP_DEADLINE);
  }

  /** An offered step is done once confirmed, except a grant of all 160 bits for an amount past them. */
  lemma FirstStepIsDoneIff(p: Plan, l: Ledger, now: nat)
    requires Calls(p, l, now).Some? && |Calls(p, l, now).value| > 1
    ensures LeavesTheRest(p, l, now, now) <==> Grantable(p) || !Approved(p, l)
  {
    var first := Needed(p, l, now)[0];
    if Grantable(p) || !Approved(p, l) {
      ConfirmingLeavesTheRest(p, l, now, now);
    } else {
      assert Packs(first);
      var kinds := Kinds(Needed(p, Confirm(l, first), now));
      assert kinds[0] == first.Kind() && Kinds(Needed(p, l, now))[0] == kinds[0];
      StepsAreOrdered(p, l, now);
      var all := Kinds(Needed(p, l, now));
      assert Rank(all[0]) < Rank(all[1]) && all[1..][0] == all[1];
    }
  }

  /** The ledger after the first n steps asked for, one at each of the times. */
  function After(p: Plan, l: Ledger, times: seq<nat>, n: nat): Ledger
    requires n <= |times|
  {
    if n == 0 then l else Confirm(After(p, l, times, n - 1), Needed(p, After(p, l, times, n - 1), times[n - 1])[0])
  }

  /** A moment within the life of a grant made for a swap taken up now. */
  predicate InLife(now: nat, at: nat) {
    now <= at <= now + PERMIT2_LIFETIME - SWAP_DEADLINE
  }

  /** Times in order, within that life. */
  predicate Within(times: seq<nat>, now: nat) {
    && (forall i :: 0 <= i < |times| ==> InLife(now, times[i]))
    && (forall i, j :: 0 <= i < j < |times| ==> times[i] <= times[j])
  }

  /** A grant that is good enough now is so throughout. */
  ghost predicate GrantsLast(p: Plan, l: Ledger, now: nat) {
    forall t :: InLife(now, t) ==> GrantLasts(p, l, now, t)
  }

  lemma AsManyKinds(calls: seq<Call>)
    ensures |Kinds(calls)| == |calls|
  {
  }

  /** Two moments that need the same steps: the first is done at the later one once confirmed. */
  lemma OneStepOn(p: Plan, before: Ledger, t: nat, at: nat)
    requires Grantable(p) && InLife(t, at) && |Needed(p, before, t)| > 1
    requires Kinds(Needed(p, before, t)) == Kinds(Needed(p, before, at))
    ensures LeavesTheRest(p, before, t, at)
  {
    GrantOutlasts(p, before, t, at);
    ConfirmingLeavesTheRest(p, before, t, at);
  }

  /** One step on from the last kinds of a list, one kind fewer is left. */
  lemma OneKindFewer(p: Plan, before: Ledger, t: nat, at: nat, kinds: seq<Kind>, n: nat)
    requires Grantable(p) && InLife(t, at) && 0 < n < |kinds|
    requires Kinds(Needed(p, before, t)) == kinds[n - 1..] && Kinds(Needed(p, before, at)) == kinds[n - 1..]
    ensures Kinds(Needed(p, Confirm(before, Needed(p, before, t)[0]), at)) == kinds[n..]
  {
    AsManyKinds(Needed(p, before, t));
    OneStepOn(p, before, t, at);
    assert kinds[n - 1..][1..] == kinds[n..];
  }

  lemma {:induction false} LeftAfter(
    p: Plan, l: Ledger, now: nat, times: seq<nat>, n: nat, at: nat, kinds: seq<Kind>)
    requires Grantable(p) && GrantsLast(p, l, now) && kinds == Kinds(Needed(p, l, now))
    requires Within(times, now) && n <= |times| && n < |kinds| && InLife(now, at)
    requires n > 0 ==> times[n - 1] <= at
    ensures Kinds(Needed(p, After(p, l, times, n), at)) == kinds[n..]
    decreases n
  {
    if n == 0 {
      LedgerLasts(p, l, now, at);
      assert kinds[0..] == kinds;
    } else {
      var t := times[n - 1];
      LeftAfter(p, l, now, times, n - 1, t, kinds);
      LeftAfter(p, l, now, times, n - 1, at, kinds);
      OneKindFewer(p, After(p, l, times, n - 1), t, at, kinds, n);
    }
  }

  /**
   A swap takes as many signatures as steps it needs at the start, never more than
   three, each for the next step needed: whenever it is taken up again within the life
   of the grants, what is left is the list less the steps confirmed, and can be offered.
   */
  lemma SwapFinishes(p: Plan, l: Ledger, now: nat, times: seq<nat>, n: nat, at: nat)
    requires Grantable(p) && Packs(SwapFor(p, now)) && InEra(at) && GrantsLast(p, l, now)
    requires Within(times, now) && n <= |times| && n < |Needed(p, l, now)| && InLife(now, at)
    requires n > 0 ==> times[n - 1] <= at
    ensures Kinds(Needed(p, After(p, l, times, n), at)) == Kinds(Needed(p, l, now))[n..]
    ensures Calls(p, After(p, l, times, n), at) == Some(Needed(p, After(p, l, times, n), at))
  {
    AsManyKinds(Needed(p, l, now));
    LeftAfter(p, l, now, times, n, at, Kinds(Needed(p, l, now)));
    GrantableIsOffered(p, After(p, l, times, n), at);
  }

  lemma LedgerLasts(p: Plan, l: Ledger, now: nat, at: nat)
    requires GrantLasts(p, l, now, at)
    ensures Kinds(Needed(p, l, at)) == Kinds(Needed(p, l, now))
  {
    if !Granted(p, l, now) { GrantNeverRevives(p, l, now, at); }
  }

  /** Two moments that need the same steps need the same grant. */
  lemma GrantOutlasts(p: Plan, l: Ledger, t: nat, at: nat)
    requires t <= at && Kinds(Needed(p, l, t)) == Kinds(Needed(p, l, at))
    ensures GrantLasts(p, l, t, at)
  {
    StepsAreOrdered(p, l, t);
    StepsAreOrdered(p, l, at);
  }

  // --------------------------------------------------------- what is signed away

  /** Whom a protocol's swap needs an allowance for: its router, or Permit2 for V4. */
  predicate DrawsThrough(protocol: Protocol, s: Spender) {
    match s
    case V2Router => protocol == V2
    case V3Router => protocol == V3
    case Permit2Contract => protocol == V4
  }

  /** A swap of an amount that is on chain by a deadline gets its tokens. */
  ghost predicate CanDraw(l: Ledger, protocol: Protocol, amount: nat, deadline: nat) {
    && (forall s :: DrawsThrough(protocol, s) ==> amount <= Allowance(l, s))
    && (protocol == V4 ==> amount <= l.grant && deadline <= l.expiration)
  }

  /** The amount sold, unless the user asked for everything the word holds. */
  predicate AsAsked(p: Plan, amount: nat, everything: nat) {
    amount == if p.unlimited then everything else p.amountIn
  }

  /** Only the allowance of the protocol's own router changed, to what was asked for. */
  ghost predicate OnlyApproves(p: Plan, l: Ledger, after: Ledger) {
    && after.grant == l.grant && after.expiration == l.expiration
    && forall s :: if DrawsThrough(p.protocol, s) then AsAsked(p, Allowance(after, s), MAX_UINT256)
                   else Allowance(after, s) == Allowance(l, s)
  }

  /** Only the grant changed, to what was asked for, and it ends within its lifetime of now. */
  predicate OnlyGrants(p: Plan, l: Ledger, after: Ledger, now: nat) {
    && after.allowances == l.allowances && AsAsked(p, after.grant, MAX_UINT160)
    && InSeconds(now + if p.unlimited then PERMIT2_UNLIMITED_LIFETIME else PERMIT2_LIFETIME, after.expiration)
  }

  /**
   What each signature gives away. An approval lets only the route's own router draw, and
   a grant only the universal router, exactly the amount sold unless the user asked for no
   limit; a swap carries the plan's amount and minimum and dies three minutes from now.
   */
  lemma SignedStepGives(p: Plan, l: Ledger, now: nat, requested: Kind)
    requires Next(p, l, now, requested).Sign?
    ensures var call := Next(p, l, now, requested).call;
            match requested
            case Approve => !p.trxIn && OnlyApproves(p, l, Confirm(l, call))
            case Permit2 => !p.trxIn && p.protocol == V4 && OnlyGrants(p, l, Confirm(l, call), now)
            case Swap =>
              && call.SwapCall? && call.protocol == p.protocol && call.amount == p.amountIn && call.minOut == p.minOut
              && InSeconds(now + SWAP_DEADLINE, call.deadline)
  {
    VerdictsAreRight(p, l, now, requested);
  }

  /** A swap is signed exactly when it can be encoded and can draw its amount until its deadline. */
  lemma SignedSwapCanDraw(p: Plan, l: Ledger, now: nat, deadline: nat)
    requires InSeconds(now + SWAP_DEADLINE, deadline)
    ensures Next(p, l, now, Swap).Sign?
       <==> (p.protocol == V4 ==> p.minOut <= MAX_UINT160) && (p.trxIn || CanDraw(l, p.protocol, p.amountIn, deadline))
  {
    assert deadline == Seconds(now + SWAP_DEADLINE);
    VerdictsAreRight(p, l, now, Swap);
    StepsAreOrdered(p, l, now);
    assert DrawsThrough(p.protocol, SpenderOf(p.protocol));
  }

  /** An approval or a grant is asked for only where a swap signed now could not draw. */
  lemma NothingIsAskedTwice(p: Plan, l: Ledger, now: nat, requested: Kind, deadline: nat)
    requires Next(p, l, now, requested).Sign? && requested != Swap && InSeconds(now + SWAP_DEADLINE, deadline)
    ensures !CanDraw(l, p.protocol, p.amountIn, deadline)
  {
    VerdictsAreRight(p, l, now, requested);
    assert deadline == Seconds(now + SWAP_DEADLINE);
    assert DrawsThrough(p.protocol, SpenderOf(p.protocol));
  }

  /** No more than there was, or than the amount sold. */
  predicate NoMore(p: Plan, before: nat, after: nat) {
    after <= before || after <= p.amountIn
  }

  /**
   However often and whenever its steps are signed, a swap without unlimited approvals
   never lets anyone draw more than they could before or than the amount sold.
   */
  lemma {:induction false} ExactSwapsGiveNoMore(p: Plan, l: Ledger, times: seq<nat>, n: nat)
    requires !p.unlimited && n <= |times|
    ensures forall s :: NoMore(p, Allowance(l, s), Allowance(After(p, l, times, n), s))
    ensures forall s :: !DrawsThrough(p.protocol, s) ==> Allowance(After(p, l, times, n), s) == Allowance(l, s)
    ensures NoMore(p, l.grant, After(p, l, times, n).grant)
  {
    if n == 0 {
    } else {
      ExactSwapsGiveNoMore(p, l, times, n - 1);
    }
  }

  // ---------------------------------------------------------------------- price

  /** A step to price: its bytes on chain and what a simulation of it would say. */
  datatype Priced = Priced(kind: Kind, size: nat, simulated: Option<nat>)

  datatype Pools = Pools(energy: int, staked: int, free: int)

  function Larger(a: int, b: int): (r: int)
    ensures a <= r && b <= r && (r == a || r == b)
  {
    if a < b then b else a
  }

  /** The energy a step is taken to use; None when it cannot be told. */
  function EnergyOf(step: Priced, blocked: bool, typical: nat): Option<nat> {
    if (!blocked || step.kind == Permit2) && step.simulated.Some? then step.simulated
    else if (!blocked || step.kind == Permit2) && step.kind != Swap then None
    else Some(typical)
  }

  /** After an approval, what needs it cannot be simulated. */
  predicate BlockedBefore(steps: seq<Priced>, i: nat)
    requires i <= |steps|
  {
    exists j :: 0 <= j < i && steps[j].kind == Approve
  }

  function Energies(steps: seq<Priced>, typical: nat): Option<seq<nat>> {
    if steps == [] then Some([])
    else match Energies(steps[..|steps| - 1], typical)
      case None => None
      case Some(front) =>
        match EnergyOf(steps[|steps| - 1], BlockedBefore(steps, |steps| - 1), typical)
        case None => None
        case Some(e) => Some(front + [e])
  }

  /** A step that is simulated: nothing before it waits for an approval, or it is a grant. */
  predicate CanBeRun(steps: seq<Priced>, i: nat)
    requires i < |steps|
  {
    steps[i].kind == Permit2 || forall j :: 0 <= j < i ==> steps[j].kind != Approve
  }

  /** Each step's energy is what its simulation said, and typical for one that could not be run. */
  predicate EnergiesTold(steps: seq<Priced>, energies: seq<nat>, typical: nat) {
    && |energies| == |steps|
    && forall i :: 0 <= i < |steps| ==>
         energies[i] == if CanBeRun(steps, i) && steps[i].simulated.Some? then steps[i].simulated.value else typical
  }

  /** An approval or a grant that fails when it is run: nothing tells what it costs. */
  predicate FailsToRun(steps: seq<Priced>, i: nat)
    requires i < |steps|
  {
    CanBeRun(steps, i) && steps[i].simulated.None? && steps[i].kind != Swap
  }

  /** There are energies exactly when no approval or grant fails, and they are the ones told. */
  lemma {:induction false} EnergiesAreTold(steps: seq<Priced>, typical: nat)
    ensures Energies(steps, typical).None? <==> exists i :: 0 <= i < |steps| && FailsToRun(steps, i)
    ensures Energies(steps, typical).Some? ==> EnergiesTold(steps, Energies(steps, typical).value, typical)
  {
    if steps == [] {
    } else {
      var n := |steps| - 1;
      var front := steps[..n];
      EnergiesAreTold(front, typical);
      assert CanBeRun(steps, n) <==> !BlockedBefore(steps, n) || steps[n].kind == Permit2;
      forall i | 0 <= i < n
        ensures CanBeRun(front, i) <==> CanBeRun(steps, i)
        ensures FailsToRun(front, i) <==> FailsToRun(steps, i)
      {
      }
      if Energies(steps, typical).None? && Energies(front, typical).Some? { assert FailsToRun(steps, n); }
      if Energies(front, typical).None? {
        var i :| 0 <= i < n && FailsToRun(front, i);
        assert FailsToRun(steps, i);
      }
    }
  }

  function Sum(s: seq<nat>): nat {
    if s == [] then 0 else Sum(s[..|s| - 1]) + s[|s| - 1]
  }

  datatype Source = Staked | Free | Burned

  /** Bytes paid from one pool. */
  function Paid(sizes: seq<nat>, sources: seq<Source>, from: Source): nat
    requires |sizes| == |sources|
  {
    if sizes == [] then 0
    else Paid(sizes[..|sizes| - 1], sources[..|sources| - 1], from)
         + if sources[|sources| - 1] == from then sizes[|sizes| - 1] else 0
  }

  function Sizes(steps: seq<Priced>): seq<nat> {
    seq(|steps|, i requires 0 <= i < |steps| => steps[i].size)
  }

  /** Each step takes its bytes whole: staked if that holds them, else free, else burned. */
  predicate WholeFrom(pools: Pools, sizes: seq<nat>, sources: seq<Source>, i: nat)
    requires i < |sizes| == |sources|
  {
    var staked := pools.staked - Paid(sizes[..i], sources[..i], Staked);
    var free := pools.free - Paid(sizes[..i], sources[..i], Free);
    match sources[i]
    case Staked => sizes[i] <= staked
    case Free => staked < sizes[i] <= free
    case Burned => staked < sizes[i] && free < sizes[i]
  }

  lemma OneMoreEnergy(steps: seq<Priced>, i: nat, typical: nat)
    requires i < |steps|
    ensures Energies(steps[..i + 1], typical) ==
            match Energies(steps[..i], typical)
            case None => None
            case Some(front) =>
              match EnergyOf(steps[i], BlockedBefore(steps, i), typical)
              case None => None
              case Some(e) => Some(front + [e])
  {
    assert steps[..i + 1][..i] == steps[..i];
    assert BlockedBefore(steps[..i + 1], i) == BlockedBefore(steps, i);
  }

  lemma {:induction false} EnergiesGrow(steps: seq<Priced>, i: nat, typical: nat)
    requires i <= |steps| && Energies(steps[..i], typical).None?
    ensures Energies(steps, typical).None?
    decreases |steps| - i
  {
    if i == |steps| {
      assert steps[..i] == steps;
    } else {
      OneMoreEnergy(steps, i, typical);
      EnergiesGrow(steps, i + 1, typical);
    }
  }

  lemma OneMorePaid(sizes: seq<nat>, sources: seq<Source>, size: nat, source: Source, from: Source)
    requires |sizes| == |sources|
    ensures Paid(sizes + [size], sources + [source], from)
         == Paid(sizes, sources, from) + if source == from then size else 0
  {
    assert (sizes + [size])[..|sizes|] == sizes && (sources + [source])[..|sources|] == sources;
  }

  /** What the first steps burned and took, one pool each, is what was priced so far. */
  predicate PricedSoFar(pools: Pools, sizes: seq<nat>, energies: seq<nat>, sources: seq<Source>,
    burned: int, left: int, staked: int, free: int, bytes: nat)
  {
    && |sources| == |sizes| == |energies|
    && burned == (if sizes == [] then 0 else Larger(0, Sum(energies) - pools.energy))
    && left == (if sizes == [] then pools.energy else Larger(0, pools.energy - Sum(energies)))
    && staked == pools.staked - Paid(sizes, sources, Staked)
    && free == pools.free - Paid(sizes, sources, Free)
    && bytes == Paid(sizes, sources, Burned)
    && forall i :: 0 <= i < |sizes| ==> WholeFrom(pools, sizes, sources, i)
  }

  lemma PricedOneMore(pools: Pools, sizes: seq<nat>, energies: seq<nat>, sources: seq<Source>,
    burned: int, left: int, staked: int, free: int, bytes: nat, size: nat, energy: nat)
    returns (source: Source)
    requires PricedSoFar(pools, sizes, energies, sources, burned, left, staked, free, bytes)
    ensures source == if staked >= size then Staked else if free >= size then Free else Burned
    ensures PricedSoFar(pools, sizes + [size], energies + [energy], sources + [source],
              burned + Larger(0, energy - left), Larger(0, left - energy),
              if source == Staked then staked - size else staked, if source == Free then free - size else free,
              if source == Burned then bytes + size else bytes)
  {
    source := if staked >= size then Staked else if free >= size then Free else Burned;
    assert (energies + [energy])[..|energies|] == energies;
    OneMorePaid(sizes, sources, size, source, Staked);
    OneMorePaid(sizes, sources, size, source, Free);
    OneMorePaid(sizes, sources, size, source, Burned);
    WholeOneMore(pools, sizes, sources, size, source);
  }

  lemma WholeOneMore(pools: Pools, sizes: seq<nat>, sources: seq<Source>, size: nat, source: Source)
    requires |sizes| == |sources| && forall i :: 0 <= i < |sizes| ==> WholeFrom(pools, sizes, sources, i)
    requires var staked := pools.staked - Paid(sizes, sources, Staked);
             var free := pools.free - Paid(sizes, sources, Free);
             source == if staked >= size then Staked else if free >= size then Free else Burned
    ensures forall i :: 0 <= i < |sizes| + 1 ==> WholeFrom(pools, sizes + [size], sources + [source], i)
  {
    forall i | 0 <= i < |sizes| + 1 ensures WholeFrom(pools, sizes + [size], sources + [source], i) {
      if i < |sizes| {
        assert WholeFrom(pools, sizes, sources, i);
        assert (sizes + [size])[..i] == sizes[..i] && (sources + [source])[..i] == sources[..i];
      } else {
        assert (sizes + [size])[..i] == sizes && (sources + [source])[..i] == sources;
      }
    }
  }

  /** Fees so far: energy and bytes burned, each at its price. */
  predicate Fees(total: int, burned: int, bytes: nat, energyPrice: nat, bytePrice: nat) {
    total == burned * energyPrice + bytes * bytePrice
  }

  lemma FeesAdd(total: int, burned: int, bytes: nat, burn: int, more: nat, energyPrice: nat, bytePrice: nat)
    requires Fees(total, burned, bytes, energyPrice, bytePrice)
    ensures Fees(total + (burn * energyPrice + more * bytePrice), burned + burn, bytes + more, energyPrice, bytePrice)
  {
  }

  /** One step's fee on top of the others, and what it leaves of the pools. */
  method PriceStep(
    total: int, energy: nat, size: nat, left: int, staked: int, free: int, energyPrice: nat, bytePrice: nat,
    ghost pools: Pools, ghost sizes: seq<nat>, ghost energies: seq<nat>, ghost sources: seq<Source>,
    ghost burned: int, ghost bytes: nat)
    returns (
      total': int, left': int, staked': int, free': int, ghost source: Source, ghost burned': int, ghost bytes': nat)
    requires PricedSoFar(pools, sizes, energies, sources, burned, left, staked, free, bytes)
    requires Fees(total, burned, bytes, energyPrice, bytePrice)
    ensures Fees(total', burned', bytes', energyPrice, bytePrice)
    ensures PricedSoFar(pools, sizes + [size], energies + [energy], sources + [source],
              burned', left', staked', free', bytes')
  {
    source := PricedOneMore(pools, sizes, energies, sources, burned, left, staked, free, bytes, size, energy);
    ghost var burn, more: nat := Larger(0, energy - left), 0;
    left', staked', free' := Larger(0, left - energy), staked, free;
    var fee := Larger(0, energy - left) * energyPrice;
    if staked >= size {
      staked' := staked - size;
    } else if free >= size {
      free' := free - size;
    } else {
      fee := fee + size * bytePrice;
      more := size;
    }
    FeesAdd(total, burned, bytes, burn, more, energyPrice, bytePrice);
    total', burned', bytes' := total + fee, burned + burn, bytes + more;
  }

  /** What the first k steps take, and whether an approval is among them. */
  predicate TakenSoFar(steps: seq<Priced>, k: nat, typical: nat, energies: seq<nat>, blocked: bool)
    requires k <= |steps|
  {
    Energies(steps[..k], typical) == Some(energies) && blocked == BlockedBefore(steps, k)
  }

  /** The energy of step k, or that the route has no price. */
  method TakeStep(steps: seq<Priced>, k: nat, typical: nat, blocked: bool, ghost energies: seq<nat>)
    returns (energy: Option<nat>, blocked': bool)
    requires k < |steps| && TakenSoFar(steps, k, typical, energies, blocked)
    ensures energy.None? ==> Energies(steps, typical).None?
    ensures energy.Some? ==> TakenSoFar(steps, k + 1, typical, energies + [energy.value], blocked')
  {
    OneMoreEnergy(steps, k, typical);
    energy := EnergyOf(steps[k], blocked, typical);
    blocked' := blocked || steps[k].kind == Approve;
    if energy.None? { EnergiesGrow(steps, k + 1, typical); }
  }

  /** Every step is priced, burning what the pools do not hold. */
  predicate PricedAll(
    steps: seq<Priced>, pools: Pools, energies: seq<nat>, sources: seq<Source>, fee: int, energyPrice: nat,
    bytePrice: nat)
  {
    && |energies| == |sources| == |steps|
    && (steps != [] ==>
          fee == Larger(0, Sum(energies) - pools.energy) * energyPrice
                 + Paid(Sizes(steps), sources, Burned) * bytePrice)
    && forall i :: 0 <= i < |steps| ==> WholeFrom(pools, Sizes(steps), sources, i)
  }

  /** What has been priced: the energies taken, the pools that paid the bytes, what was burned. */
  datatype Tally = Tally(energies: seq<nat>, sources: seq<Source>, burned: int, bytes: nat)

  /** What is left of the pools, what is owed, and whether an approval came before. */
  datatype Bill = Bill(total: int, left: int, staked: int, free: int, blocked: bool)

  /** The first k steps are priced. */
  ghost predicate RouteSoFar(
    steps: seq<Priced>, k: nat, pools: Pools, typical: nat, energyPrice: nat, bytePrice: nat, bill: Bill, tally: Tally)
    requires k <= |steps|
  {
    && TakenSoFar(steps, k, typical, tally.energies, bill.blocked)
    && PricedSoFar(pools, Sizes(steps)[..k], tally.energies, tally.sources, tally.burned, bill.left, bill.staked,
         bill.free, tally.bytes)
    && Fees(bill.total, tally.burned, tally.bytes, energyPrice, bytePrice)
  }

  lemma RouteStarts(steps: seq<Priced>, pools: Pools, typical: nat, energyPrice: nat, bytePrice: nat)
    ensures RouteSoFar(steps, 0, pools, typical, energyPrice, bytePrice,
              Bill(0, pools.energy, pools.staked, pools.free, false), Tally([], [], 0, 0))
  {
  }

  lemma RouteEnds(
    steps: seq<Priced>, pools: Pools, typical: nat, energyPrice: nat, bytePrice: nat, bill: Bill, tally: Tally)
    requires RouteSoFar(steps, |steps|, pools, typical, energyPrice, bytePrice, bill, tally)
    ensures Energies(steps, typical) == Some(tally.energies)
    ensures PricedAll(steps, pools, tally.energies, tally.sources, bill.total, energyPrice, bytePrice)
  {
    assert steps[..|steps|] == steps && Sizes(steps)[..|steps|] == Sizes(steps);
  }

  /** The next step, or that the route has no price. */
  method PriceNext(
    steps: seq<Priced>, k: nat, pools: Pools, typical: nat, energyPrice: nat, bytePrice: nat, bill: Bill,
    ghost tally: Tally) returns (next: Option<Bill>, ghost tally': Tally)
    requires k < |steps| && RouteSoFar(steps, k, pools, typical, energyPrice, bytePrice, bill, tally)
    ensures next.None? ==> Energies(steps, typical).None?
    ensures next.Some? ==> RouteSoFar(steps, k + 1, pools, typical, energyPrice, bytePrice, next.value, tally')
  {
    tally' := tally;
    var energy, blocked := TakeStep(steps, k, typical, bill.blocked, tally.energies);
    if energy.None? { return None, tally; }
    ghost var sizes := Sizes(steps);
    var total, left, staked, free;
    ghost var source, burned, bytes;
    total, left, staked, free, source, burned, bytes := PriceStep(bill.total, energy.value, steps[k].size, bill.left,
      bill.staked, bill.free, energyPrice, bytePrice, pools, sizes[..k], tally.energies, tally.sources, tally.burned,
      tally.bytes);
    assert sizes[..k + 1] == sizes[..k] + [steps[k].size];
    next := Some(Bill(total, left, staked, free, blocked));
    tally' := Tally(tally.energies + [energy.value], tally.sources + [source], burned, bytes);
  }

  /**
   The price of a route in sun: energy beyond what is available is burned once over all
   steps, and each step's bandwidth comes whole from one pool or is burned.
   */
  method PriceRoute(steps: seq<Priced>, pools: Pools, typical: nat, energyPrice: nat, bytePrice: nat)
    returns (fee: Option<int>, ghost energies: seq<nat>, ghost sources: seq<Source>)
    ensures fee.None? <==> exists i :: 0 <= i < |steps| && FailsToRun(steps, i)
    ensures fee.Some? ==> EnergiesTold(steps, energies, typical)
    ensures fee.Some? ==> PricedAll(steps, pools, energies, sources, fee.value, energyPrice, bytePrice)
  {
    var bill := Bill(0, pools.energy, pools.staked, pools.free, false);
    ghost var tally := Tally([], [], 0, 0);
    RouteStarts(steps, pools, typical, energyPrice, bytePrice);
    EnergiesAreTold(steps, typical);
    for k := 0 to |steps|
      invariant RouteSoFar(steps, k, pools, typical, energyPrice, bytePrice, bill, tally)
    {
      var next;
      next, tally := PriceNext(steps, k, pools, typical, energyPrice, bytePrice, bill, tally);
      if next.None? { return None, [], []; }
      bill := next.value;
    }
    RouteEnds(steps, pools, typical, energyPrice, bytePrice, bill, tally);
    return Some(bill.total), tally.energies, tally.sources;
  }
}
