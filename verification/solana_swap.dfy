/**
 Planning a Raydium swap (internal/chain/solana/swap.go): the route check, the choice
 of accounts, the instructions of each stage, and what the signed ones do.
 */
module SolanaSwap {
  import opened Wrappers
  import opened SolanaCodec
  import opened LittleEndian
  import opened SwapLedger
  import Fees

  datatype Hop = Hop(pool: Key, inMint: Key, outMint: Key)

  /** One or two pools that connect the mints, the middle one worth holding. */
  predicate RouteOk(hops: seq<Hop>, inMint: Key, outMint: Key, intermediates: set<Key>) {
    && 1 <= |hops| <= Fees.MAX_HOPS
    && hops[0].inMint == inMint && hops[|hops| - 1].outMint == outMint
    && (forall i :: 0 <= i < |hops| ==> hops[i].inMint != hops[i].outMint)
    && (|hops| == 2 ==>
          && hops[0].outMint == hops[1].inMint
          && hops[0].pool != hops[1].pool
          && hops[0].outMint != inMint
          && hops[0].outMint in intermediates)
  }

  method CheckHops(hops: seq<Hop>, inMint: Key, outMint: Key, intermediates: set<Key>) returns (ok: bool)
    ensures ok <==> RouteOk(hops, inMint, outMint, intermediates)
  {
    if |hops| == 0 || |hops| > Fees.MAX_HOPS { return false; }
    var from := inMint;
    for i := 0 to |hops|
      invariant from == if i == 0 then inMint else hops[i - 1].outMint
      invariant i > 0 ==> hops[0].inMint == inMint
      invariant forall k :: 0 <= k < i ==> hops[k].inMint != hops[k].outMint
      invariant i == 2 ==> hops[0].outMint == hops[1].inMint
    {
      if hops[i].inMint != from || hops[i].outMint == hops[i].inMint { return false; }
      from := hops[i].outMint;
    }
    if from != outMint { return false; }
    if |hops| == 2 && (hops[0].pool == hops[1].pool || hops[0].outMint == inMint) { return false; }
    if |hops| == 2 && hops[0].outMint !in intermediates { return false; }
    return true;
  }

  datatype Create = Create(account: Key, mint: Key)

  /** A swap whose accounts are chosen; measuring it fills the amounts. */
  datatype Plan = Plan(
    inMint: Key,
    outMint: Key,
    amountIn: nat,
    hops: seq<Hop>,
    wsol: Option<Key>,
    source: Key,
    mid: Option<Key>,
    dest: Key,
    creates: seq<Create>,
    wsolCreate: bool,
    hopIn: seq<nat>,
    hopMin: seq<nat>)

  /** The asset as a mint: wrapped SOL may only be named as SOL. */
  datatype Asset = Sol | Token(mint: Key)

  function MintOf(asset: Asset, wrapped: Key): Option<Key> {
    match asset
    case Sol => Some(wrapped)
    case Token(mint) => if mint == wrapped then None else Some(mint)
  }

  datatype Refusal = NoSuchAsset | SameAsset | BadRoute | NoBalance

  function MidMint(hops: seq<Hop>): Option<Key> {
    if |hops| == 2 then Some(hops[0].outMint) else None
  }

  predicate UsesSol(w: World, inMint: Key, outMint: Key, hops: seq<Hop>) {
    inMint == w.wrapped || outMint == w.wrapped || MidMint(hops) == Some(w.wrapped)
  }

  /** An account to open, unless it is there or is the wrapped-SOL one. */
  function Missing(l: Ledger, w: World, usesSol: bool, mint: Key): seq<Create> {
    if (usesSol && w.at(mint) == w.at(w.wrapped)) || w.at(mint) in l.accounts then [] else [Create(w.at(mint), mint)]
  }

  function Creates(l: Ledger, w: World, inMint: Key, outMint: Key, hops: seq<Hop>): seq<Create> {
    var usesSol := UsesSol(w, inMint, outMint, hops);
    (if usesSol && w.at(w.wrapped) !in l.accounts then [Create(w.at(w.wrapped), w.wrapped)] else [])
    + (match MidMint(hops) case None => [] case Some(mid) => Missing(l, w, usesSol, mid))
    + Missing(l, w, usesSol, outMint)
  }

  /** The accounts a swap of these mints uses, and those it has to open. */
  function Drafted(l: Ledger, w: World, inMint: Key, outMint: Key, amountIn: nat, hops: seq<Hop>): Plan {
    var usesSol := UsesSol(w, inMint, outMint, hops);
    Plan(inMint, outMint, amountIn, hops,
      if usesSol then Some(w.at(w.wrapped)) else None,
      w.at(inMint),
      match MidMint(hops) case None => None case Some(mid) => Some(w.at(mid)),
      w.at(outMint),
      Creates(l, w, inMint, outMint, hops),
      usesSol && w.at(w.wrapped) !in l.accounts,
      if |hops| == 2 then [amountIn, 0] else [amountIn],
      if |hops| == 2 then [0, 0] else [0])
  }

  /** What a swap is planned as against a ledger, or why it is not. */
  function Load(
    l: Ledger, w: World, intermediates: set<Key>, sell: Asset, buy: Asset, amountIn: nat, hops: seq<Hop>)
    : Result<Plan, Refusal>
  {
    match (MintOf(sell, w.wrapped), MintOf(buy, w.wrapped))
    case (Some(inMint), Some(outMint)) =>
      if inMint == outMint then Err(SameAsset)
      else if !RouteOk(hops, inMint, outMint, intermediates) then Err(BadRoute)
      else if sell.Token? && (w.at(inMint) !in l.accounts || l.accounts[w.at(inMint)].amount < amountIn)
          then Err(NoBalance)
      else Ok(Drafted(l, w, inMint, outMint, amountIn, hops))
    case _ => Err(NoSuchAsset)
  }

  // --------------------------------------------------------- measured amounts

  /** The second hop sells what the first one guarantees. */
  function Measured(p: Plan, midOut: u64, bps: nat): Plan
    requires bps <= 10000 && |p.hopIn| == |p.hopMin| == |p.hops|
  {
    if |p.hops| == 2 then
      var guaranteed := Fees.WithSlippage(midOut, bps);
      p.(hopIn := p.hopIn[1 := guaranteed], hopMin := p.hopMin[0 := guaranteed])
    else p
  }

  function Limited(p: Plan, minOut: nat): Plan
    requires 0 < |p.hops| == |p.hopMin|
  {
    p.(hopMin := p.hopMin[|p.hops| - 1 := minOut])
  }

  // ------------------------------------------------------------- instructions

  datatype Stage = Middle | Measure | Final

  /** Every hop has its amounts, and two hops an account between them. */
  predicate Complete(p: Plan) {
    1 <= |p.hops| <= Fees.MAX_HOPS && |p.hopIn| == |p.hopMin| == |p.hops| && (p.mid.Some? <==> |p.hops| == 2)
  }

  function OpensOf(creates: seq<Create>): seq<Op> {
    seq(|creates|, i requires 0 <= i < |creates| => Open(creates[i].account, creates[i].mint))
  }

  function Wraps(p: Plan, sellsSol: bool): seq<Op> {
    if sellsSol && p.wsol.Some? then [Fund(p.wsol.value, p.amountIn), Sync(p.wsol.value)] else []
  }

  function TradeOf(hop: Hop, source: Key, destination: Key, amount: nat, minOut: nat): Op {
    Trade(hop.pool, hop.inMint, hop.outMint, source, destination, amount, minOut)
  }

  function Trades(p: Plan, stage: Stage): seq<Op>
    requires Complete(p)
  {
    var minOut := if stage == Final then p.hopMin[|p.hops| - 1] else 1;
    if |p.hops| == 1 then [TradeOf(p.hops[0], p.source, p.dest, p.amountIn, minOut)]
    else if stage == Middle then [TradeOf(p.hops[0], p.source, p.mid.value, p.amountIn, 1)]
    else
      [TradeOf(p.hops[0], p.source, p.mid.value, p.amountIn, p.hopMin[0]),
       TradeOf(p.hops[1], p.mid.value, p.dest, p.hopIn[1], minOut)]
  }

  function Closes(p: Plan, stage: Stage): seq<Op> {
    if stage == Final && p.wsol.Some? then [SwapLedger.Close(p.wsol.value)] else []
  }

  /** What a stage's instructions do, in order. */
  function Instructions(p: Plan, sellsSol: bool, stage: Stage): seq<Op>
    requires Complete(p)
  {
    OpensOf(p.creates) + Wraps(p, sellsSol) + Trades(p, stage) + Closes(p, stage)
  }

  /** The list as the planner appends it. */
  method LayOut(p: Plan, sellsSol: bool, stage: Stage) returns (out: seq<Op>)
    requires Complete(p) && (sellsSol ==> p.wsol.Some?)
    ensures out == Instructions(p, sellsSol, stage)
  {
    out := [];
    for i := 0 to |p.creates|
      invariant out == OpensOf(p.creates[..i])
    {
      out := out + [Open(p.creates[i].account, p.creates[i].mint)];
    }
    assert p.creates[..|p.creates|] == p.creates;
    if sellsSol { out := out + [Fund(p.wsol.value, p.amountIn)] + [Sync(p.wsol.value)]; }
    assert out == OpensOf(p.creates) + Wraps(p, sellsSol);
    var minOut := if stage == Final then p.hopMin[|p.hops| - 1] else 1;
    if |p.hops| == 1 {
      out := out + [TradeOf(p.hops[0], p.source, p.dest, p.amountIn, minOut)];
    } else if stage == Middle {
      out := out + [TradeOf(p.hops[0], p.source, p.mid.value, p.amountIn, 1)];
    } else {
      out := out + [TradeOf(p.hops[0], p.source, p.mid.value, p.amountIn, p.hopMin[0])];
      out := out + [TradeOf(p.hops[1], p.mid.value, p.dest, p.hopIn[1], minOut)];
    }
    assert out == OpensOf(p.creates) + Wraps(p, sellsSol) + Trades(p, stage);
    if stage == Final && p.wsol.Some? { out := out + [SwapLedger.Close(p.wsol.value)]; }
  }

  // --------------------------------------------------- what the signed ones do

  /** A plan whose accounts are the wallet's own for the route's mints. */
  predicate Chosen(p: Plan, w: World, intermediates: set<Key>) {
    && Complete(p)
    && RouteOk(p.hops, p.inMint, p.outMint, intermediates)
    && p.source == w.at(p.inMint) && p.dest == w.at(p.outMint)
    && (|p.hops| == 2 ==> p.mid == Some(w.at(p.hops[0].outMint)))
    && p.wsol == (if UsesSol(w, p.inMint, p.outMint, p.hops) then Some(w.at(w.wrapped)) else None)
    && (forall i :: 0 <= i < |p.creates| ==> p.creates[i].account == w.at(p.creates[i].mint))
  }

  /** The second hop sells the first one's minimum, the first one the amount sold. */
  predicate Chained(p: Plan) {
    Complete(p) && (|p.hops| == 2 ==> p.hopIn[1] == p.hopMin[0])
  }

  lemma DraftedIsChosen(
    l: Ledger, w: World, intermediates: set<Key>, inMint: Key, outMint: Key, amountIn: nat, hops: seq<Hop>,
    midOut: u64, bps: nat, minOut: nat)
    requires RouteOk(hops, inMint, outMint, intermediates) && bps <= Fees.MAX_SLIPPAGE
    ensures var p := Drafted(l, w, inMint, outMint, amountIn, hops);
            var q := Limited(Measured(p, midOut, bps), minOut);
            Complete(p) && Chosen(q, w, intermediates) && Chained(q)
  {
  }

  predicate NoTrade(ops: seq<Op>) {
    forall i :: 0 <= i < |ops| ==> !ops[i].Trade?
  }

  lemma {:induction false} NothingMovedBefore(a: seq<Op>, b: seq<Op>, paid: seq<nat>, m: Key)
    requires NoTrade(a)
    ensures TotalMoved(a + b, paid, m) == TotalMoved(b, paid, m)
    decreases |a|
  {
    if a == [] {
      assert a + b == b;
    } else {
      assert (a + b)[1..] == a[1..] + b && !a[0].Trade?;
      NothingMovedBefore(a[1..], b, paid, m);
    }
  }

  lemma NothingMovedAfter(b: seq<Op>, paid: seq<nat>, m: Key)
    requires NoTrade(b)
    ensures TotalMoved(b, paid, m) == 0
  {
    NothingMovedBefore(b, [], paid, m);
    assert b + [] == b;
  }

  function HopMoves(hop: Hop, amount: nat, paid: nat, m: Key): int {
    (if m == hop.outMint then paid else 0) - (if m == hop.inMint then amount else 0)
  }

  /** What the hops move, given what the pools paid. */
  function HopsMove(p: Plan, paid: seq<nat>, m: Key): int
    requires Complete(p) && |paid| == |p.hops|
  {
    HopMoves(p.hops[0], p.amountIn, paid[0], m)
    + if |p.hops| == 2 then HopMoves(p.hops[1], p.hopIn[1], paid[1], m) else 0
  }

  lemma FinalMoves(p: Plan, sellsSol: bool, paid: seq<nat>, m: Key)
    requires Complete(p) && |paid| == |p.hops|
    ensures TotalMoved(Instructions(p, sellsSol, Final), paid, m) == HopsMove(p, paid, m)
  {
    var before, trades, after := OpensOf(p.creates) + Wraps(p, sellsSol), Trades(p, Final), Closes(p, Final);
    var tail := trades + after;
    assert Instructions(p, sellsSol, Final) == before + tail;
    NothingMovedBefore(before, tail, paid, m);
    TradesMove(p, paid, m);
  }

  lemma TradesMove(p: Plan, paid: seq<nat>, m: Key)
    requires Complete(p) && |paid| == |p.hops|
    ensures TotalMoved(Trades(p, Final) + Closes(p, Final), paid, m) == HopsMove(p, paid, m)
  {
    var trades, after := Trades(p, Final), Closes(p, Final);
    var tail := trades + after;
    NothingMovedAfter(after, [], m);
    if |p.hops| == 1 {
      assert tail[1..] == after && paid[1..] == [];
    } else {
      assert tail[1..][1..] == after && tail[1..][0] == trades[1] && paid[1..][1..] == [] && paid[1..][0] == paid[1];
    }
  }

  /** Every trade got its minimum, or there was no transaction. */
  lemma {:induction false} PaidAtLeast(ops: seq<Op>, l: Ledger, w: World, paid: seq<nat>)
    requires Execute(ops, l, w, paid).Some?
    ensures EveryMinimum(ops, paid)
    decreases |ops|
  {
    if ops == [] {
    } else {
      PaidAtLeast(ops[1..], Run(ops[0], l, w, Answer(ops[0], paid)).value, w, Rest(ops[0], paid));
    }
  }

  predicate EveryMinimum(ops: seq<Op>, paid: seq<nat>) {
    ops != [] ==>
      && (ops[0].Trade? ==> ops[0].minOut <= Answer(ops[0], paid))
      && EveryMinimum(ops[1..], Rest(ops[0], paid))
  }

  lemma {:induction false} MinimumsBefore(a: seq<Op>, b: seq<Op>, paid: seq<nat>)
    requires NoTrade(a) && EveryMinimum(a + b, paid)
    ensures EveryMinimum(b, paid)
    decreases |a|
  {
    if a == [] {
      assert a + b == b;
    } else {
      assert (a + b)[1..] == a[1..] + b && !a[0].Trade?;
      MinimumsBefore(a[1..], b, paid);
    }
  }

  lemma FinalMinimums(p: Plan, sellsSol: bool, l: Ledger, w: World, paid: seq<nat>)
    requires Complete(p) && |paid| == |p.hops|
    requires Execute(Instructions(p, sellsSol, Final), l, w, paid).Some?
    ensures forall i :: 0 <= i < |p.hops| ==> p.hopMin[i] <= paid[i]
  {
    var before, tail := OpensOf(p.creates) + Wraps(p, sellsSol), Trades(p, Final) + Closes(p, Final);
    assert Instructions(p, sellsSol, Final) == before + tail;
    PaidAtLeast(before + tail, l, w, paid);
    MinimumsBefore(before, tail, paid);
    assert tail[0].minOut <= paid[0];
    if |p.hops| == 2 {
      assert EveryMinimum(tail[1..], paid[1..]) && tail[1..][0].minOut <= paid[1..][0];
    }
  }

  lemma {:induction false} OpensJoin(a: seq<Op>, b: seq<Op>, w: World)
    ensures Opens(a + b, w) == Opens(a, w) + Opens(b, w)
    decreases |a|
  {
    if a == [] {
      assert a + b == b;
    } else {
      assert (a + b)[1..] == a[1..] + b;
      OpensJoin(a[1..], b, w);
    }
  }

  /** How many accounts the plan leaves open: all but the wrapped-SOL one. */
  function PersistentCreates(p: Plan): int {
    |p.creates| - if p.wsolCreate then 1 else 0
  }

  /** The accounts a plan opens, wrapped SOL first and only when it says so. */
  predicate OpensAsSaid(p: Plan, w: World) {
    && (p.wsolCreate ==> |p.creates| > 0 && p.creates[0].mint == w.wrapped)
    && (forall i :: (if p.wsolCreate then 1 else 0) <= i < |p.creates| ==> p.creates[i].mint != w.wrapped)
  }

  lemma DraftedOpensAsSaid(l: Ledger, w: World, inMint: Key, outMint: Key, amountIn: nat, hops: seq<Hop>)
    requires w.OneAccountEach()
    ensures OpensAsSaid(Drafted(l, w, inMint, outMint, amountIn, hops), w)
  {
  }

  lemma {:induction false} AllStayOpen(creates: seq<Create>, w: World)
    requires forall i :: 0 <= i < |creates| ==> creates[i].mint != w.wrapped
    ensures Opens(OpensOf(creates), w) == |creates|
    decreases |creates|
  {
    if creates == [] {
    } else {
      assert OpensOf(creates)[1..] == OpensOf(creates[1..]);
      AllStayOpen(creates[1..], w);
    }
  }

  lemma {:induction false} NoneOpen(ops: seq<Op>, w: World)
    requires forall i :: 0 <= i < |ops| ==> !ops[i].Open?
    ensures Opens(ops, w) == 0
    decreases |ops|
  {
    if ops == [] {
    } else {
      NoneOpen(ops[1..], w);
    }
  }

  lemma CreatesStayOpen(p: Plan, w: World)
    requires OpensAsSaid(p, w)
    ensures Opens(OpensOf(p.creates), w) == PersistentCreates(p)
  {
    if p.wsolCreate {
      assert OpensOf(p.creates)[1..] == OpensOf(p.creates[1..]);
      AllStayOpen(p.creates[1..], w);
    } else {
      AllStayOpen(p.creates, w);
    }
  }

  /** What follows the openings. */
  function Body(p: Plan, sellsSol: bool): seq<Op>
    requires Complete(p)
  {
    Wraps(p, sellsSol) + (Trades(p, Final) + Closes(p, Final))
  }

  lemma Parts(p: Plan, sellsSol: bool)
    requires Complete(p)
    ensures Instructions(p, sellsSol, Final) == OpensOf(p.creates) + Body(p, sellsSol)
    ensures NoTrade(OpensOf(p.creates)) && NoTrade(Wraps(p, sellsSol)) && NoTrade(Closes(p, Final))
  {
  }

  lemma BodyOpensNone(p: Plan, sellsSol: bool)
    requires Complete(p)
    ensures forall i :: 0 <= i < |Body(p, sellsSol)| ==> !Body(p, sellsSol)[i].Open?
  {
  }

  lemma PlanOpens(p: Plan, sellsSol: bool, w: World)
    requires Complete(p) && OpensAsSaid(p, w)
    ensures Opens(Instructions(p, sellsSol, Final), w) == PersistentCreates(p)
  {
    Parts(p, sellsSol);
    OpensJoin(OpensOf(p.creates), Body(p, sellsSol), w);
    BodyOpensNone(p, sellsSol);
    NoneOpen(Body(p, sellsSol), w);
    CreatesStayOpen(p, w);
  }

  lemma PlanOwns(p: Plan, sellsSol: bool, w: World, intermediates: set<Key>)
    requires Chosen(p, w, intermediates)
    ensures AllOwn(Instructions(p, sellsSol, Final), w)
  {
    var ops := Instructions(p, sellsSol, Final);
    var a := |p.creates|;
    forall i | 0 <= i < |ops| ensures Own(ops[i], w) {
      if i < a {
        assert ops[i] == OpensOf(p.creates)[i];
      } else {
        assert ops[i] == (Wraps(p, sellsSol) + Trades(p, Final) + Closes(p, Final))[i - a];
      }
    }
  }

  lemma {:induction false} LastClosed(ops: seq<Op>, l: Ledger, w: World, paid: seq<nat>)
    requires ops != [] && ops[|ops| - 1].Close? && Execute(ops, l, w, paid).Some?
    ensures ops[|ops| - 1].account !in Execute(ops, l, w, paid).value.accounts
    decreases |ops|
  {
    var next := Run(ops[0], l, w, Answer(ops[0], paid)).value;
    if |ops| > 1 { LastClosed(ops[1..], next, w, Rest(ops[0], paid)); }
  }

  /** What the swap changes in the holding of m, but for the rent of new accounts. */
  function Change(p: Plan, paid: seq<nat>, m: Key): int
    requires Complete(p) && |paid| == |p.hops|
  {
    (if m == p.outMint then paid[|p.hops| - 1] else 0)
    - (if m == p.inMint then p.amountIn else 0)
    + (if |p.hops| == 2 && m == p.hops[0].outMint then paid[0] else 0)
    - (if |p.hops| == 2 && m == p.hops[0].outMint then p.hopMin[0] else 0)
  }

  predicate SettledFor(p: Plan, before: Ledger, after: Ledger, w: World, paid: seq<nat>, rent: nat, m: Key)
    requires Complete(p) && |paid| == |p.hops|
  {
    Held(after, w, m) == Held(before, w, m) + Change(p, paid, m) - if m == w.wrapped then rent else 0
  }

  ghost predicate Settled(p: Plan, before: Ledger, after: Ledger, w: World, paid: seq<nat>, rent: nat)
    requires Complete(p) && |paid| == |p.hops|
  {
    forall m :: SettledFor(p, before, after, w, paid, rent, m)
  }

  lemma MovesAsSettled(p: Plan, w: World, intermediates: set<Key>, paid: seq<nat>, m: Key)
    requires Chosen(p, w, intermediates) && Chained(p) && |paid| == |p.hops|
    ensures HopsMove(p, paid, m) == Change(p, paid, m)
  {
  }

  /**
   Whatever the pools do, a swap that happens sold exactly the amount, received at
   least every minimum, sold for its second hop no more than its first one paid, and
   left no wrapped SOL behind. The rent is at most that of the accounts announced.
   */
  lemma FinalSwap(
    p: Plan, sellsSol: bool, w: World, intermediates: set<Key>, before: Ledger, paid: seq<nat>)
    returns (rent: nat)
    requires w.OneAccountEach() && Sound(before, w)
    requires Chosen(p, w, intermediates) && Chained(p) && OpensAsSaid(p, w) && |paid| == |p.hops|
    requires Execute(Instructions(p, sellsSol, Final), before, w, paid).Some?
    ensures var after := Execute(Instructions(p, sellsSol, Final), before, w, paid).value;
            && Settled(p, before, after, w, paid, rent)
            && (p.wsol.Some? ==> w.at(w.wrapped) !in after.accounts)
    ensures forall i :: 0 <= i < |p.hops| ==> p.hopMin[i] <= paid[i]
    ensures |p.hops| == 2 ==> p.hopIn[1] <= paid[0]
    ensures rent <= w.rent * PersistentCreates(p)
  {
    var ops := Instructions(p, sellsSol, Final);
    var after := Execute(ops, before, w, paid).value;
    rent := TotalRent(ops, before, w, paid);
    PlanOwns(p, sellsSol, w, intermediates);
    RentIsBounded(ops, before, w, paid);
    PlanOpens(p, sellsSol, w);
    FinalMinimums(p, sellsSol, before, w, paid);
    if p.wsol.Some? {
      assert ops[|ops| - 1] == SwapLedger.Close(w.at(w.wrapped));
      LastClosed(ops, before, w, paid);
    }
    forall m ensures SettledFor(p, before, after, w, paid, rent, m) {
      Conserved(ops, before, w, paid, m);
      FinalMoves(p, sellsSol, paid, m);
      MovesAsSettled(p, w, intermediates, paid, m);
    }
  }

  // ------------------------------------------------------ and it goes through

  lemma {:induction false} ExecuteJoin(a: seq<Op>, b: seq<Op>, l: Ledger, w: World, paid: seq<nat>)
    requires NoTrade(a) && Execute(a, l, w, paid).Some?
    ensures Execute(a + b, l, w, paid) == Execute(b, Execute(a, l, w, paid).value, w, paid)
    decreases |a|
  {
    if a == [] {
      assert a + b == b;
    } else {
      assert (a + b)[1..] == a[1..] + b && !a[0].Trade?;
      ExecuteJoin(a[1..], b, Run(a[0], l, w, 0).value, w, paid);
    }
  }

  predicate Kept(before: Ledger, after: Ledger) {
    forall k :: k in before.accounts ==> k in after.accounts && after.accounts[k] == before.accounts[k]
  }

  lemma {:induction false} OpensRun(creates: seq<Create>, l: Ledger, w: World, paid: seq<nat>)
    requires w.OneAccountEach() && Sound(l, w) && w.rent * |creates| <= l.sol
    requires forall i :: 0 <= i < |creates| ==> creates[i].account == w.at(creates[i].mint)
    ensures Execute(OpensOf(creates), l, w, paid).Some?
    ensures var r := Execute(OpensOf(creates), l, w, paid).value;
            && Sound(r, w) && Kept(l, r) && l.sol - w.rent * |creates| <= r.sol
            && forall i :: 0 <= i < |creates| ==> creates[i].account in r.accounts
    decreases |creates|
  {
    if creates == [] {
    } else {
      var ops := OpensOf(creates);
      assert ops[1..] == OpensOf(creates[1..]);
      OneMoreRent(w.rent, |creates| - 1);
      var next := Run(ops[0], l, w, 0).value;
      OpenMoves(l, w, creates[0].mint, w.wrapped);
      OpensRun(creates[1..], next, w, paid);
    }
  }

  /** The wallet has an account for the mint with at least so much in it. */
  predicate Holds(l: Ledger, w: World, m: Key, amount: nat) {
    w.at(m) in l.accounts && l.accounts[w.at(m)].amount >= amount
  }

  lemma WrapsRun(p: Plan, sellsSol: bool, l: Ledger, w: World, paid: seq<nat>)
    requires w.OneAccountEach() && Sound(l, w) && p.source == w.at(p.inMint)
    requires sellsSol ==> p.wsol == Some(w.at(w.wrapped)) && w.at(w.wrapped) in l.accounts
                          && p.amountIn <= l.sol && p.inMint == w.wrapped
    requires !sellsSol ==> Holds(l, w, p.inMint, p.amountIn)
    ensures Execute(Wraps(p, sellsSol), l, w, paid).Some?
    ensures var r := Execute(Wraps(p, sellsSol), l, w, paid).value;
            Sound(r, w) && r.accounts.Keys == l.accounts.Keys && Holds(r, w, p.inMint, p.amountIn)
  {
    if sellsSol {
      var ops := Wraps(p, sellsSol);
      var funded := RunFund(l, w.at(w.wrapped), p.amountIn).value;
      FundMoves(l, w, p.amountIn, w.wrapped);
      SyncMoves(funded, w, w.wrapped);
      var synced := RunSync(funded, w, w.at(w.wrapped)).value;
      assert ops[1..] == [Sync(w.at(w.wrapped))] && ops[1..][1..] == [];
      assert Execute(ops[1..], funded, w, paid) == Some(synced);
    }
  }

  lemma TradeRuns(l: Ledger, w: World, hop: Hop, amount: nat, minOut: nat, paid: nat)
    requires w.OneAccountEach() && Sound(l, w) && hop.inMint != hop.outMint
    requires Holds(l, w, hop.inMint, amount) && Holds(l, w, hop.outMint, 0) && minOut <= paid
    ensures var op := TradeOf(hop, w.at(hop.inMint), w.at(hop.outMint), amount, minOut);
            && Run(op, l, w, paid).Some?
            && Sound(Run(op, l, w, paid).value, w)
            && Run(op, l, w, paid).value.accounts.Keys == l.accounts.Keys
            && Holds(Run(op, l, w, paid).value, w, hop.outMint, paid)
  {
    var op := TradeOf(hop, w.at(hop.inMint), w.at(hop.outMint), amount, minOut);
    assert Run(op, l, w, paid).Some?;
    TradeMoves(l, w, hop.inMint, hop.outMint, amount, minOut, paid, hop.inMint);
  }

  lemma ClosesRun(p: Plan, l: Ledger, w: World)
    requires p.wsol.Some? ==> p.wsol.value == w.at(w.wrapped) && w.at(w.wrapped) in l.accounts
    requires Sound(l, w)
    ensures Execute(Closes(p, Final), l, w, []).Some?
  {
    if p.wsol.Some? { assert Closes(p, Final)[1..] == []; }
  }

  /** The route's accounts are all there, and the first holds what is sold. */
  predicate Ready(p: Plan, l: Ledger, w: World)
    requires Complete(p)
  {
    && Holds(l, w, p.inMint, p.amountIn)
    && w.at(p.outMint) in l.accounts
    && (|p.hops| == 2 ==> w.at(p.hops[0].outMint) in l.accounts)
    && (p.wsol.Some? ==> w.at(w.wrapped) in l.accounts)
  }

  lemma TradesRun(p: Plan, l: Ledger, w: World, intermediates: set<Key>, paid: seq<nat>)
    requires w.OneAccountEach() && Sound(l, w) && Chosen(p, w, intermediates) && Chained(p) && Ready(p, l, w)
    requires |paid| == |p.hops| && forall i :: 0 <= i < |p.hops| ==> p.hopMin[i] <= paid[i]
    ensures Execute(Trades(p, Final) + Closes(p, Final), l, w, paid).Some?
  {
    var closes := Closes(p, Final);
    var ops := Trades(p, Final) + closes;
    TradeRuns(l, w, p.hops[0], p.amountIn, p.hopMin[0], paid[0]);
    var first := Run(ops[0], l, w, paid[0]).value;
    if |p.hops| == 1 {
      assert ops[1..] == closes && paid[1..] == [];
      ClosesRun(p, first, w);
    } else {
      assert ops[1..] == [Trades(p, Final)[1]] + closes && paid[1..] == [paid[1]];
      SecondTradeRuns(p, first, w, intermediates, paid[1]);
    }
  }

  lemma SecondTradeRuns(p: Plan, l: Ledger, w: World, intermediates: set<Key>, paid: nat)
    requires w.OneAccountEach() && Sound(l, w) && Chosen(p, w, intermediates) && |p.hops| == 2
    requires Holds(l, w, p.hops[1].inMint, p.hopIn[1]) && Holds(l, w, p.hops[1].outMint, 0) && p.hopMin[1] <= paid
    requires p.wsol.Some? ==> w.at(w.wrapped) in l.accounts
    ensures Execute([Trades(p, Final)[1]] + Closes(p, Final), l, w, [paid]).Some?
  {
    var ops := [Trades(p, Final)[1]] + Closes(p, Final);
    TradeRuns(l, w, p.hops[1], p.hopIn[1], p.hopMin[1], paid);
    assert ops[1..] == Closes(p, Final) && [paid][1..] == [];
    ClosesRun(p, Run(ops[0], l, w, paid).value, w);
  }

  /** The wallet's account for m is there or is opened. */
  predicate Provided(p: Plan, l: Ledger, w: World, m: Key) {
    w.at(m) in l.accounts || exists i :: 0 <= i < |p.creates| && p.creates[i].account == w.at(m)
  }

  /** Every account the plan uses is provided, and what is sold is there. */
  predicate Prepared(p: Plan, sellsSol: bool, l: Ledger, w: World)
    requires Complete(p)
  {
    && Provided(p, l, w, p.outMint)
    && (|p.hops| == 2 ==> Provided(p, l, w, p.hops[0].outMint))
    && (p.wsol.Some? ==> Provided(p, l, w, w.wrapped))
    && (if sellsSol then p.inMint == w.wrapped && p.wsol.Some? else Holds(l, w, p.inMint, p.amountIn))
    && w.rent * |p.creates| + (if sellsSol then p.amountIn else 0) <= l.sol
  }

  lemma OpensPrepare(p: Plan, sellsSol: bool, l: Ledger, w: World, intermediates: set<Key>, paid: seq<nat>)
    requires w.OneAccountEach() && Sound(l, w) && Chosen(p, w, intermediates) && Prepared(p, sellsSol, l, w)
    ensures Execute(OpensOf(p.creates) + Wraps(p, sellsSol), l, w, paid).Some?
    ensures var r := Execute(OpensOf(p.creates) + Wraps(p, sellsSol), l, w, paid).value; Sound(r, w) && Ready(p, r, w)
  {
    var opens, wraps := OpensOf(p.creates), Wraps(p, sellsSol);
    OpensRun(p.creates, l, w, paid);
    var r := Execute(opens, l, w, paid).value;
    WrapsRun(p, sellsSol, r, w, paid);
    ExecuteJoin(opens, wraps, l, w, paid);
  }

  lemma PlanGoesThrough(p: Plan, sellsSol: bool, l: Ledger, w: World, intermediates: set<Key>, paid: seq<nat>)
    requires w.OneAccountEach() && Sound(l, w)
    requires Chosen(p, w, intermediates) && Chained(p) && Prepared(p, sellsSol, l, w)
    requires |paid| == |p.hops| && forall i :: 0 <= i < |p.hops| ==> p.hopMin[i] <= paid[i]
    ensures Execute(Instructions(p, sellsSol, Final), l, w, paid).Some?
  {
    var before, tail := OpensOf(p.creates) + Wraps(p, sellsSol), Trades(p, Final) + Closes(p, Final);
    assert Instructions(p, sellsSol, Final) == before + tail;
    OpensPrepare(p, sellsSol, l, w, intermediates, paid);
    ExecuteJoin(before, tail, l, w, paid);
    TradesRun(p, Execute(before, l, w, paid).value, w, intermediates, paid);
  }

  /** The plan that is signed: measured, with the minimum the user saw. */
  function Signed(
    l: Ledger, w: World, intermediates: set<Key>, sell: Asset, buy: Asset, amountIn: nat, hops: seq<Hop>,
    midOut: u64, bps: nat, minOut: nat): Option<Plan>
    requires bps <= Fees.MAX_SLIPPAGE
  {
    match Load(l, w, intermediates, sell, buy, amountIn, hops)
    case Err(_) => None
    case Ok(p) => Some(Limited(Measured(p, midOut, bps), minOut))
  }

  /** Pool by pool the hops lead from one mint to another. */
  predicate Connects(hops: seq<Hop>, from: Key, to: Key) {
    if hops == [] then from == to
    else hops[0].inMint == from && hops[0].outMint != from && Connects(hops[1..], hops[0].outMint, to)
  }

  /** One or two different pools that lead there, through a middle mint worth holding. */
  predicate IsRoute(hops: seq<Hop>, from: Key, to: Key, intermediates: set<Key>) {
    && (|hops| == 1 || |hops| == 2) && Connects(hops, from, to)
    && (forall i, j :: 0 <= i < j < |hops| ==> hops[i].pool != hops[j].pool)
    && (forall i :: 0 <= i < |hops| - 1 ==> hops[i].outMint in intermediates && hops[i].outMint != from)
  }

  lemma OneHopLeads(h: Hop, from: Key, to: Key)
    ensures Connects([h], from, to) <==> h.inMint == from && h.outMint != from && h.outMint == to
  {
    assert [h][1..] == [];
  }

  lemma TwoHopsLead(g: Hop, h: Hop, from: Key, to: Key)
    ensures Connects([g, h], from, to)
       <==> g.inMint == from && g.outMint != from && h.inMint == g.outMint && h.outMint != g.outMint && h.outMint == to
  {
    assert [g, h][1..] == [h];
    OneHopLeads(h, g.outMint, to);
  }

  lemma RouteLeadsThere(hops: seq<Hop>, from: Key, to: Key, intermediates: set<Key>)
    ensures RouteOk(hops, from, to, intermediates) <==> IsRoute(hops, from, to, intermediates)
  {
    if |hops| == 1 {
      assert hops == [hops[0]];
      OneHopLeads(hops[0], from, to);
    } else if |hops| == 2 {
      var g, h := hops[0], hops[1];
      assert hops == [g, h];
      TwoHopsLead(g, h, from, to);
      if IsRoute(hops, from, to, intermediates) {
        assert hops[0].pool != hops[1].pool && hops[0].outMint in intermediates;
      }
    }
  }

  /** SOL is named as SOL and any other mint as a token. */
  predicate Names(asset: Asset, mint: Key, wrapped: Key) {
    if mint == wrapped then asset == Sol else asset == Token(mint)
  }

  /**
   A swap is planned if and only if it trades two different assets along a route and the
   wallet has the tokens it sells.
   */
  lemma PlannedIff(
    l: Ledger, w: World, intermediates: set<Key>, sell: Asset, buy: Asset, amountIn: nat, hops: seq<Hop>,
    midOut: u64, bps: nat, minOut: nat)
    requires bps <= Fees.MAX_SLIPPAGE
    ensures Signed(l, w, intermediates, sell, buy, amountIn, hops, midOut, bps, minOut).Some?
       <==> exists from, to ::
              && Names(sell, from, w.wrapped) && Names(buy, to, w.wrapped) && from != to
              && IsRoute(hops, from, to, intermediates)
              && (sell.Token? ==> w.at(from) in l.accounts && amountIn <= l.accounts[w.at(from)].amount)
  {
    match (MintOf(sell, w.wrapped), MintOf(buy, w.wrapped))
    case (Some(from), Some(to)) =>
      RouteLeadsThere(hops, from, to, intermediates);
      assert Names(sell, from, w.wrapped) && Names(buy, to, w.wrapped);
      forall a, b | Names(sell, a, w.wrapped) && Names(buy, b, w.wrapped) ensures a == from && b == to {
      }
    case _ =>
  }

  /**
   It sells the amount for the minimum, and through two pools the second sells exactly what
   the first guarantees: what it was seen to pay less the slippage, rounded down.
   */
  lemma PlannedAmounts(
    l: Ledger, w: World, intermediates: set<Key>, sell: Asset, buy: Asset, amountIn: nat, hops: seq<Hop>,
    midOut: u64, bps: nat, minOut: nat)
    requires bps <= Fees.MAX_SLIPPAGE
    requires Signed(l, w, intermediates, sell, buy, amountIn, hops, midOut, bps, minOut).Some?
    ensures var p := Signed(l, w, intermediates, sell, buy, amountIn, hops, midOut, bps, minOut).value;
            && p.hops == hops && p.amountIn == amountIn && |p.hopIn| == |p.hopMin| == |hops| > 0
            && p.hopIn[0] == amountIn && p.hopMin[|hops| - 1] == minOut
            && (|hops| == 2 ==>
                  p.hopIn[1] == p.hopMin[0]
                  && 10000 * p.hopMin[0] <= midOut * (10000 - bps) <= 10000 * p.hopMin[0] + 9999)
  {
    Fees.WithSlippageIsFloor(midOut, bps);
    var inMint, outMint := SignedMeans(l, w, intermediates, sell, buy, amountIn, hops, midOut, bps, minOut);
  }

  lemma CreatesProvide(l: Ledger, w: World, inMint: Key, outMint: Key, amountIn: nat, hops: seq<Hop>, m: Key)
    requires m == outMint || MidMint(hops) == Some(m) || (m == w.wrapped && UsesSol(w, inMint, outMint, hops))
    requires w.OneAccountEach()
    ensures Provided(Drafted(l, w, inMint, outMint, amountIn, hops), l, w, m)
  {
    var usesSol := UsesSol(w, inMint, outMint, hops);
    var all := Creates(l, w, inMint, outMint, hops);
    var wsol := if usesSol && w.at(w.wrapped) !in l.accounts then [Create(w.at(w.wrapped), w.wrapped)] else [];
    var mid := match MidMint(hops) case None => [] case Some(k) => Missing(l, w, usesSol, k);
    var dest := Missing(l, w, usesSol, outMint);
    assert all == wsol + mid + dest;
    if w.at(m) !in l.accounts {
      if usesSol && m == w.wrapped {
        assert all[0].account == w.at(m);
      } else if m == outMint {
        assert all[|wsol| + |mid|].account == w.at(m);
      } else {
        assert all[|wsol|].account == w.at(m);
      }
    }
  }

  /** The signed plan is the draft for its two mints, with its amounts. */
  lemma SignedMeans(
    l: Ledger, w: World, intermediates: set<Key>, sell: Asset, buy: Asset, amountIn: nat, hops: seq<Hop>,
    midOut: u64, bps: nat, minOut: nat)
    returns (inMint: Key, outMint: Key)
    requires bps <= Fees.MAX_SLIPPAGE
    requires Signed(l, w, intermediates, sell, buy, amountIn, hops, midOut, bps, minOut).Some?
    ensures Some(inMint) == MintOf(sell, w.wrapped) && Some(outMint) == MintOf(buy, w.wrapped)
    ensures RouteOk(hops, inMint, outMint, intermediates)
    ensures sell.Token? ==> Holds(l, w, inMint, amountIn)
    ensures Signed(l, w, intermediates, sell, buy, amountIn, hops, midOut, bps, minOut)
         == Some(Limited(Measured(Drafted(l, w, inMint, outMint, amountIn, hops), midOut, bps), minOut))
  {
    inMint, outMint := MintOf(sell, w.wrapped).value, MintOf(buy, w.wrapped).value;
  }

  lemma DraftedIsPrepared(
    l: Ledger, w: World, sellsSol: bool, inMint: Key, outMint: Key, amountIn: nat, hops: seq<Hop>,
    midOut: u64, bps: nat, minOut: nat)
    requires w.OneAccountEach() && bps <= Fees.MAX_SLIPPAGE && 1 <= |hops| <= Fees.MAX_HOPS
    requires if sellsSol then inMint == w.wrapped else Holds(l, w, inMint, amountIn)
    requires w.rent * |Drafted(l, w, inMint, outMint, amountIn, hops).creates|
             + (if sellsSol then amountIn else 0) <= l.sol
    ensures var p := Limited(Measured(Drafted(l, w, inMint, outMint, amountIn, hops), midOut, bps), minOut);
            Complete(p) && Prepared(p, sellsSol, l, w)
  {
    CreatesProvide(l, w, inMint, outMint, amountIn, hops, outMint);
    if |hops| == 2 { CreatesProvide(l, w, inMint, outMint, amountIn, hops, hops[0].outMint); }
    if UsesSol(w, inMint, outMint, hops) { CreatesProvide(l, w, inMint, outMint, amountIn, hops, w.wrapped); }
  }

  /**
   A swap planned against a ledger whose SOL covers the new accounts and the SOL sold
   goes through on that ledger whenever every pool pays its minimum.
   */
  lemma FinalGoesThrough(
    l: Ledger, w: World, intermediates: set<Key>, sell: Asset, buy: Asset, amountIn: nat, hops: seq<Hop>,
    midOut: u64, bps: nat, minOut: nat, paid: seq<nat>)
    requires w.OneAccountEach() && Sound(l, w) && bps <= Fees.MAX_SLIPPAGE
    requires Signed(l, w, intermediates, sell, buy, amountIn, hops, midOut, bps, minOut).Some?
    requires var p := Signed(l, w, intermediates, sell, buy, amountIn, hops, midOut, bps, minOut).value;
             && w.rent * |p.creates| + (if sell.Sol? then amountIn else 0) <= l.sol
             && |paid| == |p.hops| == |p.hopMin| && forall i :: 0 <= i < |p.hops| ==> p.hopMin[i] <= paid[i]
    ensures var p := Signed(l, w, intermediates, sell, buy, amountIn, hops, midOut, bps, minOut).value;
            Complete(p) && Execute(Instructions(p, sell.Sol?, Final), l, w, paid).Some?
  {
    var inMint, outMint := SignedMeans(l, w, intermediates, sell, buy, amountIn, hops, midOut, bps, minOut);
    var p := Limited(Measured(Drafted(l, w, inMint, outMint, amountIn, hops), midOut, bps), minOut);
    DraftedIsChosen(l, w, intermediates, inMint, outMint, amountIn, hops, midOut, bps, minOut);
    DraftedIsPrepared(l, w, sell.Sol?, inMint, outMint, amountIn, hops, midOut, bps, minOut);
    PlanGoesThrough(p, sell.Sol?, l, w, intermediates, paid);
  }

  /** The holdings of a wallet after a swap the user was promised at least minOut from. */
  ghost predicate Honoured(
    p: Plan, amountIn: nat, minOut: nat, before: Ledger, after: Ledger, w: World, paid: seq<nat>, rent: nat)
  {
    && Complete(p) && |p.hops| == |paid|
    && p.amountIn == amountIn && minOut <= paid[|paid| - 1]
    && Settled(p, before, after, w, paid, rent)
    && (|p.hops| == 2 ==> p.hopMin[0] <= paid[0])
    && rent <= w.rent * PersistentCreates(p)
    && (p.wsol.Some? ==> w.at(w.wrapped) !in after.accounts)
  }

  lemma FinalIsHonoured(
    p: Plan, sellsSol: bool, w: World, intermediates: set<Key>, before: Ledger, paid: seq<nat>)
    returns (rent: nat)
    requires w.OneAccountEach() && Sound(before, w)
    requires Chosen(p, w, intermediates) && Chained(p) && OpensAsSaid(p, w) && |paid| == |p.hops|
    requires Execute(Instructions(p, sellsSol, Final), before, w, paid).Some?
    ensures var after := Execute(Instructions(p, sellsSol, Final), before, w, paid).value;
            Honoured(p, p.amountIn, p.hopMin[|p.hops| - 1], before, after, w, paid, rent)
  {
    rent := FinalSwap(p, sellsSol, w, intermediates, before, paid);
  }

  /** A signed plan keeps the user's amounts, on accounts chosen for its route. */
  ghost predicate ChosenFor(p: Plan, w: World, intermediates: set<Key>, amountIn: nat, hops: seq<Hop>, minOut: nat) {
    && Complete(p) && Chosen(p, w, intermediates) && Chained(p) && OpensAsSaid(p, w)
    && p.hops == hops && p.amountIn == amountIn && p.hopMin[|hops| - 1] == minOut
  }

  lemma SignedIsChosen(
    planned: Ledger, w: World, intermediates: set<Key>, sell: Asset, buy: Asset, amountIn: nat, hops: seq<Hop>,
    midOut: u64, bps: nat, minOut: nat)
    requires w.OneAccountEach() && bps <= Fees.MAX_SLIPPAGE
    requires Signed(planned, w, intermediates, sell, buy, amountIn, hops, midOut, bps, minOut).Some?
    ensures ChosenFor(Signed(planned, w, intermediates, sell, buy, amountIn, hops, midOut, bps, minOut).value,
              w, intermediates, amountIn, hops, minOut)
  {
    var inMint, outMint := SignedMeans(planned, w, intermediates, sell, buy, amountIn, hops, midOut, bps, minOut);
    DraftedIsChosen(planned, w, intermediates, inMint, outMint, amountIn, hops, midOut, bps, minOut);
    DraftedOpensAsSaid(planned, w, inMint, outMint, amountIn, hops);
  }

  lemma ChosenIsHonoured(
    p: Plan, sellsSol: bool, w: World, intermediates: set<Key>, amountIn: nat, hops: seq<Hop>, minOut: nat,
    before: Ledger, paid: seq<nat>)
    returns (rent: nat)
    requires w.OneAccountEach() && Sound(before, w) && |paid| == |hops|
    requires ChosenFor(p, w, intermediates, amountIn, hops, minOut)
    ensures var after := Execute(Instructions(p, sellsSol, Final), before, w, paid);
            after.Some? ==> Honoured(p, amountIn, minOut, before, after.value, w, paid, rent)
  {
    rent := 0;
    if Execute(Instructions(p, sellsSol, Final), before, w, paid).Some? {
      rent := FinalIsHonoured(p, sellsSol, w, intermediates, before, paid);
    }
  }

  /** What FinalSwap says, of any swap planned against one ledger and run on another. */
  lemma SignedSwap(
    planned: Ledger, w: World, intermediates: set<Key>, sell: Asset, buy: Asset, amountIn: nat, hops: seq<Hop>,
    midOut: u64, bps: nat, minOut: nat, before: Ledger, paid: seq<nat>)
    returns (rent: nat)
    requires w.OneAccountEach() && Sound(before, w) && bps <= Fees.MAX_SLIPPAGE && |paid| == |hops|
    ensures Signed(planned, w, intermediates, sell, buy, amountIn, hops, midOut, bps, minOut).Some? ==>
              var p := Signed(planned, w, intermediates, sell, buy, amountIn, hops, midOut, bps, minOut).value;
              && Complete(p)
              && var after := Execute(Instructions(p, sell.Sol?, Final), before, w, paid);
              after.Some? ==> Honoured(p, amountIn, minOut, before, after.value, w, paid, rent)
  {
    rent := 0;
    if Signed(planned, w, intermediates, sell, buy, amountIn, hops, midOut, bps, minOut).Some? {
      var p := Signed(planned, w, intermediates, sell, buy, amountIn, hops, midOut, bps, minOut).value;
      SignedIsChosen(planned, w, intermediates, sell, buy, amountIn, hops, midOut, bps, minOut);
      rent := ChosenIsHonoured(p, sell.Sol?, w, intermediates, amountIn, hops, minOut, before, paid);
    }
  }

  // ------------------------------------------------------------ what is measured

  /** The tokens in the wallet's account for a mint. */
  function Amount(l: Ledger, w: World, m: Key): int {
    if w.at(m) in l.accounts then l.accounts[w.at(m)].amount else 0
  }

  /** Nothing but trades changes the tokens of m. */
  predicate OnlyTrades(op: Op, w: World, m: Key) {
    op.Open? || op.Trade? || ((op.Fund? || op.Sync?) && m != w.wrapped)
  }

  lemma RunMovesAmount(op: Op, l: Ledger, w: World, paid: nat, m: Key)
    requires w.OneAccountEach() && Sound(l, w) && Own(op, w) && OnlyTrades(op, w, m) && Run(op, l, w, paid).Some?
    ensures Amount(Run(op, l, w, paid).value, w, m) == Amount(l, w, m) + Moved(op, paid, m)
  {
    match op
    case Open(account, mint) =>
    case Fund(account, n) =>
    case Sync(account) =>
    case Trade(_, i, o, source, destination, amount, minOut) =>
  }

  lemma {:induction false} AmountsMove(ops: seq<Op>, l: Ledger, w: World, paid: seq<nat>, m: Key)
    requires w.OneAccountEach() && Sound(l, w) && AllOwn(ops, w) && Execute(ops, l, w, paid).Some?
    requires forall i :: 0 <= i < |ops| ==> OnlyTrades(ops[i], w, m)
    ensures Amount(Execute(ops, l, w, paid).value, w, m) == Amount(l, w, m) + TotalMoved(ops, paid, m)
    decreases |ops|
  {
    if ops == [] {
    } else {
      var answer := Answer(ops[0], paid);
      RunMoves(ops[0], l, w, answer, m);
      RunMovesAmount(ops[0], l, w, answer, m);
      AmountsMove(ops[1..], Run(ops[0], l, w, answer).value, w, Rest(ops[0], paid), m);
    }
  }

  /** What comes before the trades touches only the wrapped-SOL account's balance. */
  lemma StageIsOwn(p: Plan, sellsSol: bool, w: World, intermediates: set<Key>, stage: Stage, m: Key)
    requires Chosen(p, w, intermediates) && stage != Final && (sellsSol ==> m != w.wrapped)
    ensures var ops := Instructions(p, sellsSol, stage);
            AllOwn(ops, w) && forall i :: 0 <= i < |ops| ==> OnlyTrades(ops[i], w, m)
  {
    var ops, a := Instructions(p, sellsSol, stage), |p.creates|;
    forall i | 0 <= i < |ops| ensures Own(ops[i], w) && OnlyTrades(ops[i], w, m) {
      if i < a {
        assert ops[i] == OpensOf(p.creates)[i];
      } else {
        assert ops[i] == (Wraps(p, sellsSol) + Trades(p, stage))[i - a];
      }
    }
  }

  lemma StageMoves(p: Plan, sellsSol: bool, stage: Stage, paid: seq<nat>, m: Key)
    requires Complete(p) && stage != Final
    ensures TotalMoved(Instructions(p, sellsSol, stage), paid, m) == TotalMoved(Trades(p, stage), paid, m)
  {
    var before := OpensOf(p.creates) + Wraps(p, sellsSol);
    assert Instructions(p, sellsSol, stage) == before + Trades(p, stage);
    NothingMovedBefore(before, Trades(p, stage), paid, m);
  }

  /**
   The measuring stages show exactly what the pools pay: the tokens the receiving
   account gains are the last pool's payment and, with the first hop alone, the
   intermediate account's gain is the first pool's.
   */
  lemma MeasuringIsExact(
    p: Plan, sellsSol: bool, w: World, intermediates: set<Key>, stage: Stage, l: Ledger, paid: seq<nat>)
    requires w.OneAccountEach() && Sound(l, w) && Chosen(p, w, intermediates)
    requires (sellsSol <==> p.inMint == w.wrapped) && p.inMint != p.outMint
    requires stage == Measure || (stage == Middle && |p.hops| == 2)
    requires |paid| == |Trades(p, stage)| && Execute(Instructions(p, sellsSol, stage), l, w, paid).Some?
    ensures var m := if stage == Measure then p.outMint else p.hops[0].outMint;
            Amount(Execute(Instructions(p, sellsSol, stage), l, w, paid).value, w, m)
            == Amount(l, w, m) + paid[|paid| - 1]
  {
    var m := if stage == Measure then p.outMint else p.hops[0].outMint;
    StageIsOwn(p, sellsSol, w, intermediates, stage, m);
    AmountsMove(Instructions(p, sellsSol, stage), l, w, paid, m);
    StageMoves(p, sellsSol, stage, paid, m);
    LastTradePays(p, w, intermediates, stage, paid, m);
  }

  lemma LastTradePays(p: Plan, w: World, intermediates: set<Key>, stage: Stage, paid: seq<nat>, m: Key)
    requires Chosen(p, w, intermediates) && p.inMint != p.outMint
    requires stage == Measure || (stage == Middle && |p.hops| == 2)
    requires |paid| == |Trades(p, stage)| && m == if stage == Measure then p.outMint else p.hops[0].outMint
    ensures TotalMoved(Trades(p, stage), paid, m) == paid[|paid| - 1]
  {
    var trades := Trades(p, stage);
    if |trades| == 1 {
      assert trades[1..] == [];
    } else {
      assert trades[1..] == [trades[1]] && paid[1..] == [paid[1]] && [trades[1]][1..] == [];
      assert TotalMoved([trades[1]], [paid[1]], m) == Moved(trades[1], paid[1], m);
    }
  }
}
