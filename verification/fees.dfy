/**
 What a Solana transaction costs, what the user approved, and the gates between them
 (internal/chain/solana/transfer.go, close.go, swap.go). Sums are taken as the program
 takes them, in 64 bits.
 */
module Fees {
  import opened Wrappers
  import opened LittleEndian
  import opened Decimals

  const LAMPORTS_PER_SIGNATURE: u64 := 5000
  const MAX_LIMIT: u32 := 1_400_000
  const MAX_PRICE: u64 := 1_000_000
  const MIN_PRICE: u64 := 1_000
  const MICRO: nat := 1_000_000

  function Wrap(n: nat): u64 { n % 0x1_0000_0000_0000_0000 }

  /** A sum as 64 bits hold it. */
  function Plus(a: u64, b: u64): u64 { Wrap(a + b) }

  function Min(a: nat, b: nat): nat { if a < b then a else b }
  function Max(a: nat, b: nat): nat { if a < b then b else a }

  // ----------------------------------------------------------- priority prices

  /** Micro-lamports in whole lamports. */
  function RoundedUp(x: nat): nat { (x + 999_999) / MICRO }

  function PriorityFee(limit: u32, price: u64): u64 {
    Wrap(RoundedUp(limit * price))
  }

  /** The recent price and a quarter, within the wallet's bounds. */
  function OfferedPrice(recent: u64): u64 {
    Min(Max(Wrap(recent + recent / 4), MIN_PRICE), MAX_PRICE)
  }

  /** A fifth more than was used, and a thousand units. */
  function LimitFor(used: u64): u32 {
    Min(Wrap(used + used / 5 + 1000), MAX_LIMIT)
  }

  lemma ProductBound(a: nat, b: nat, c: nat, d: nat)
    requires a <= c && b <= d
    ensures 0 <= a * b <= c * d
  {
    assert a * b <= c * b by { assert c * b == a * b + (c - a) * b; }
    assert c * b <= c * d by { assert c * d == c * b + c * (d - b); }
  }

  /** Within the wallet's bounds the fee is the exact price, rounded up to a lamport. */
  lemma PriorityFeeIsTheCeiling(limit: u32, price: u64)
    requires limit <= MAX_LIMIT && price <= MAX_PRICE
    ensures limit * price <= PriorityFee(limit, price) * MICRO < limit * price + MICRO
    ensures PriorityFee(limit, price) <= MAX_LIMIT
  {
    ProductBound(limit, price, MAX_LIMIT, MAX_PRICE);
    RoundedFee(limit * price);
  }

  lemma RoundedFee(x: nat)
    requires x <= MAX_LIMIT * MAX_PRICE
    ensures x <= Wrap(RoundedUp(x)) * MICRO < x + MICRO && Wrap(RoundedUp(x)) <= MAX_LIMIT
  {
    PlainIsUnwrapped(RoundedUp(x));
  }

  lemma PlainIsUnwrapped(n: nat)
    requires n <= MAX_U64
    ensures Wrap(n) == n
  {
  }

  /** An offer covers the recent price exactly when that is within the ceiling. */
  lemma OfferCoversRecentIff(recent: u64)
    ensures recent <= OfferedPrice(recent) <==> recent <= MAX_PRICE
    ensures recent <= MAX_PRICE ==> OfferedPrice(recent) >= Min(recent + recent / 4, MAX_PRICE)
    ensures MIN_PRICE <= OfferedPrice(recent) <= MAX_PRICE
  {
  }

  /** The least use whose fifth more and thousand units pass 64 bits. */
  const WRAPPING_USE: nat := 15372286728091292180

  /**
   The limit covers the use, or is the ceiling, except in one band of uses just past where
   the sum wraps; further on the wrapped sum is above the ceiling again.
   */
  lemma LimitCoversUseIff(used: u64)
    ensures Min(used, MAX_LIMIT) <= LimitFor(used) <==> used < WRAPPING_USE || used >= WRAPPING_USE + 1_166_667
    ensures used >= WRAPPING_USE <==> used + used / 5 + 1000 > MAX_U64
    ensures LimitFor(used) <= MAX_LIMIT
  {
  }

  /** One use gives a limit of nothing. */
  lemma LimitIsNothingIff(used: u64)
    ensures LimitFor(used) == 0 <==> used == WRAPPING_USE
  {
  }

  /** Below the ceiling the headroom is a fifth, rounded down, and a thousand, unless the sum wraps. */
  lemma LimitHasHeadroomIff(used: u64)
    requires LimitFor(used) < MAX_LIMIT
    ensures 5 * (LimitFor(used) - 1000) <= 6 * used <= 5 * (LimitFor(used) - 1000) + 4 <==> used < WRAPPING_USE
  {
  }

  function AtMost(prices: seq<u64>, p: nat): nat {
    if prices == [] then 0 else AtMost(prices[..|prices| - 1], p) + if prices[|prices| - 1] <= p then 1 else 0
  }

  predicate Sorted(prices: seq<u64>) {
    forall i, j :: 0 <= i < j < |prices| ==> prices[i] <= prices[j]
  }

  lemma {:induction false} AtMostJoins(a: seq<u64>, b: seq<u64>, p: nat)
    ensures AtMost(a + b, p) == AtMost(a, p) + AtMost(b, p)
    decreases |b|
  {
    if b == [] {
      assert a + b == a;
    } else {
      AtMostJoins(a, b[..|b| - 1], p);
      assert (a + b)[..|a + b| - 1] == a + b[..|b| - 1];
    }
  }

  /** Sorting by insertion changes no count. */
  method SortPrices(prices: seq<u64>) returns (sorted: seq<u64>)
    ensures Sorted(sorted) && |sorted| == |prices|
    ensures forall p: nat :: AtMost(sorted, p) == AtMost(prices, p)
  {
    sorted := [];
    for i := 0 to |prices|
      invariant Sorted(sorted) && |sorted| == i
      invariant forall p: nat :: AtMost(sorted, p) == AtMost(prices[..i], p)
    {
      var k := Place(sorted, prices[i]);
      forall p: nat ensures AtMost(sorted[..k] + [prices[i]] + sorted[k..], p) == AtMost(prices[..i + 1], p) {
        Inserted(sorted, k, prices[i], p);
        AtMostJoins(prices[..i], [prices[i]], p);
        assert prices[..i + 1] == prices[..i] + [prices[i]];
      }
      sorted := sorted[..k] + [prices[i]] + sorted[k..];
    }
    assert prices[..|prices|] == prices;
  }

  lemma Inserted(sorted: seq<u64>, k: nat, x: u64, p: nat)
    requires k <= |sorted|
    ensures AtMost(sorted[..k] + [x] + sorted[k..], p) == AtMost(sorted, p) + AtMost([x], p)
  {
    AtMostJoins(sorted[..k] + [x], sorted[k..], p);
    AtMostJoins(sorted[..k], [x], p);
    AtMostJoins(sorted[..k], sorted[k..], p);
    assert sorted[..k] + sorted[k..] == sorted;
  }

  method Place(sorted: seq<u64>, x: u64) returns (k: nat)
    requires Sorted(sorted)
    ensures k <= |sorted|
    ensures forall i :: 0 <= i < k ==> sorted[i] <= x
    ensures forall i :: k <= i < |sorted| ==> x <= sorted[i]
  {
    k := |sorted|;
    while k > 0 && sorted[k - 1] > x
      invariant k <= |sorted| && forall i :: k <= i < |sorted| ==> x <= sorted[i]
    {
      k := k - 1;
    }
  }

  lemma {:induction false} CountUpTo(sorted: seq<u64>, k: nat)
    requires Sorted(sorted) && k < |sorted|
    ensures AtMost(sorted, sorted[k]) >= k + 1
    ensures sorted[k] > 0 ==> AtMost(sorted, sorted[k] - 1) <= k
    decreases |sorted|
  {
    var n := |sorted| - 1;
    if k < n {
      CountUpTo(sorted[..n], k);
    } else {
      AllAtMost(sorted, sorted[k]);
      if sorted[k] > 0 { NotMoreThanAll(sorted[..n], sorted[k] - 1); }
    }
  }

  lemma {:induction false} AllAtMost(prices: seq<u64>, p: nat)
    requires forall i :: 0 <= i < |prices| ==> prices[i] <= p
    ensures AtMost(prices, p) == |prices|
    decreases |prices|
  {
    if prices == [] {
    } else {
      AllAtMost(prices[..|prices| - 1], p);
    }
  }

  lemma {:induction false} NotMoreThanAll(prices: seq<u64>, p: nat)
    ensures AtMost(prices, p) <= |prices|
    decreases |prices|
  {
    if prices == [] {
    } else {
      NotMoreThanAll(prices[..|prices| - 1], p);
    }
  }

  /** Three quarters of the samples are at most p, and fewer are below it. */
  predicate UpperQuartile(prices: seq<u64>, p: u64) {
    && 4 * AtMost(prices, p) >= 3 * |prices|
    && (p > 0 ==> 4 * AtMost(prices, p - 1) < 3 * |prices|)
  }

  /** The price of these samples: the 75th percentile, capped, or 0 when nothing was paid. */
  ghost predicate Sampled(prices: seq<u64>, price: u64) {
    && (prices == [] ==> price == 0)
    && (prices != [] ==> exists p: u64 :: UpperQuartile(prices, p) && price == Min(p, MAX_PRICE))
  }

  /** The 75th percentile of the recent prices, capped; nothing paid is a price of 0. */
  method PriorityPrice(prices: seq<u64>) returns (price: u64)
    ensures Sampled(prices, price)
  {
    if prices == [] { return 0; }
    var sorted := SortPrices(prices);
    var k := (|sorted| * 3 + 3) / 4 - 1;
    CountUpTo(sorted, k);
    assert UpperQuartile(prices, sorted[k]);
    price := Min(sorted[k], MAX_PRICE);
  }

  lemma SampledIsCapped(prices: seq<u64>, price: u64)
    requires Sampled(prices, price)
    ensures price <= MAX_PRICE
  {
  }

  // ------------------------------------------------------------------ approvals

  /** The fee as the user saw it, echoed back. */
  datatype FeeApproval = FeeApproval(model: string, limit: u64, price: u64, creates: bool, rent: string, fee: string)

  datatype Approval = Approval(limit: u32, price: u64, creates: bool, rent: u64, fee: u64)

  datatype Refusal = WrongModel | BadLimit | BadPrice | BadRent | BadFee | NotTheSum

  function NetworkFee(limit: u32, price: u64): u64 {
    Wrap(LAMPORTS_PER_SIGNATURE + PriorityFee(limit, price))
  }

  function TotalFee(limit: u32, price: u64, rent: u64): u64 {
    Plus(NetworkFee(limit, price), rent)
  }

  function ParseRent(a: FeeApproval): Option<u64> {
    if a.creates then
      match Lamports(a.rent) case None => None case Some(n) => if n == 0 then None else Some(n)
    else if a.rent == "" then Some(0)
    else match Lamports(a.rent) case None => None case Some(n) => if n == 0 then Some(0) else None
  }

  function ParseApproval(a: FeeApproval): Result<Approval, Refusal> {
    if a.model != "" && a.model != "solana" then Err(WrongModel)
    else if a.limit == 0 || a.limit > MAX_LIMIT then Err(BadLimit)
    else if a.price > MAX_PRICE then Err(BadPrice)
    else match ParseRent(a)
      case None => Err(BadRent)
      case Some(rent) => Summed(a, rent, TotalFee(a.limit, a.price, rent))
  }

  /** The fee shown has to be the sum of its parts. */
  function Summed(a: FeeApproval, rent: u64, total: u64): Result<Approval, Refusal>
    requires a.limit <= MAX_LIMIT
  {
    match Lamports(a.fee)
    case None => Err(BadFee)
    case Some(fee) =>
      if total != fee then Err(NotTheSum) else Ok(Approval(a.limit, a.price, a.creates, rent, fee))
  }

  /** The parts of an approval add up without wrapping. */
  predicate AddsUp(a: Approval) {
    NetworkFee(a.limit, a.price) + a.rent <= MAX_U64
  }

  // ------------------------------------------------------------------ transfers

  /** What the chain answers about a transfer. */
  datatype Reading = Reading(balance: u64, used: u64, recent: u64, creates: bool, rent: u64)

  datatype Plan = Plan(
    token: bool, amount: u64, balance: u64, creates: bool, rent: u64, base: u64, price: u64, needed: u32, limit: u32)
  {
    function Cost(): u64 {
      TotalFee(limit, price, if creates then rent else 0)
    }
  }

  /** A SOL transfer opens no token account. */
  function Prepared(token: bool, amount: u64, r: Reading): Plan {
    var limit := LimitFor(r.used);
    Plan(token, amount, r.balance, token && r.creates, r.rent, r.recent, OfferedPrice(r.recent), limit, limit)
  }

  /** The balance covers the cost, and the amount if it is SOL. */
  predicate Affordable(p: Plan) {
    p.Cost() <= p.balance && (!p.token ==> p.amount <= p.balance - p.Cost())
  }

  datatype Change = NeedsMoreCompute | PriceRose | AccountToOpen | RentRose | CannotPay

  /** What the send gates let through: the plan at the approved limit and price. */
  function Gate(p: Plan, a: Approval): Result<Plan, Change> {
    if p.needed > a.limit then Err(NeedsMoreCompute)
    else if p.base > a.price then Err(PriceRose)
    else if p.creates && !a.creates then Err(AccountToOpen)
    else if p.creates && p.rent > a.rent then Err(RentRose)
    else
      var q := p.(limit := a.limit, price := a.price);
      if Affordable(q) then Ok(q) else Err(CannotPay)
  }

  lemma NetworkFeeIsSmall(limit: u32, price: u64)
    requires limit <= MAX_LIMIT && price <= MAX_PRICE
    ensures NetworkFee(limit, price) == LAMPORTS_PER_SIGNATURE + PriorityFee(limit, price) <= 2_000_000
  {
    PriorityFeeIsTheCeiling(limit, price);
  }

  lemma ParsedIsBounded(f: FeeApproval)
    ensures ParseApproval(f).Ok? ==> Fit(ParseApproval(f).value)
  {
  }

  /** Fit to sign: what parsing an approval guarantees of it. */
  predicate Fit(a: Approval) {
    && 0 < a.limit <= MAX_LIMIT && a.price <= MAX_PRICE
    && a.fee == TotalFee(a.limit, a.price, a.rent)
    && (a.creates <==> a.rent > 0)
  }

  /** What a refusal says of a transfer and what was approved. */
  predicate Holds(c: Change, p: Plan, a: Approval) {
    match c
    case NeedsMoreCompute => p.needed > a.limit
    case PriceRose => p.base > a.price
    case AccountToOpen => p.creates && !a.creates
    case RentRose => p.creates && p.rent > a.rent
    case CannotPay =>
      p.balance < TotalFee(a.limit, a.price, if p.creates then p.rent else 0) + if p.token then 0 else p.amount
  }

  /** The rent shown as text: something if an account is opened, and otherwise nothing, left out or written as zero. */
  predicate RentShown(opens: bool, text: string, rent: u64) {
    (opens <==> rent > 0) && (Lamports(text) == Some(rent) || (!opens && text == ""))
  }

  ghost predicate NoRentShown(opens: bool, text: string) {
    forall rent: u64 :: !RentShown(opens, text, rent)
  }

  /** An approval is taken exactly when it is in bounds and the fee shown is the sum of what else is shown. */
  lemma ApprovalIsTakenIff(f: FeeApproval)
    ensures ParseApproval(f).Ok?
       <==> (f.model == "" || f.model == "solana") && 1 <= f.limit <= MAX_LIMIT && f.price <= MAX_PRICE
            && exists rent: u64 :: RentShown(f.creates, f.rent, rent)
                                   && Lamports(f.fee) == Some(TotalFee(f.limit, f.price, rent))
    ensures ParseApproval(f).Ok? ==>
              var a := ParseApproval(f).value;
              && a.limit == f.limit && a.price == f.price && a.creates == f.creates
              && RentShown(f.creates, f.rent, a.rent) && Lamports(f.fee) == Some(a.fee)
    ensures ParseApproval(f).Err? ==>
              match ParseApproval(f).error
              case WrongModel => f.model != "" && f.model != "solana"
              case BadLimit => f.limit == 0 || f.limit > MAX_LIMIT
              case BadPrice => f.price > MAX_PRICE
              case BadRent => NoRentShown(f.creates, f.rent)
              case BadFee => Lamports(f.fee).None?
              case NotTheSum => Lamports(f.fee).Some?
  {
    if ParseRent(f).Some? { assert RentShown(f.creates, f.rent, ParseRent(f).value); }
    forall rent: u64 | RentShown(f.creates, f.rent, rent) ensures ParseRent(f) == Some(rent) { NoTextIsNoNumber(); }
  }

  lemma NoTextIsNoNumber()
    ensures Lamports("").None?
  {
  }

  /** A transfer passes exactly when nothing speaks against it, and is refused with what does. */
  lemma GateMeans(p: Plan, a: Approval)
    ensures Gate(p, a).Ok? <==> forall c: Change :: !Holds(c, p, a)
    ensures Gate(p, a).Ok? ==> Gate(p, a).value == p.(limit := a.limit, price := a.price)
    ensures Gate(p, a).Ok? ==> Affordable(Gate(p, a).value)
    ensures Gate(p, a).Err? ==> Holds(Gate(p, a).error, p, a)
  {
    if Gate(p, a).Ok? {
      assert forall c: Change :: !Holds(c, p, a);
    } else {
      assert Holds(Gate(p, a).error, p, a);
    }
  }

  /** Without wrapping, less rent costs no more, and the network fee is what is left. */
  lemma FeeBound(limit: u32, price: u64, rent: u64, fee: u64, less: u64)
    requires fee == TotalFee(limit, price, rent) && NetworkFee(limit, price) + rent <= MAX_U64 && less <= rent
    ensures TotalFee(limit, price, less) <= fee && NetworkFee(limit, price) == fee - rent
  {
    NoWrapBound(NetworkFee(limit, price), rent, less);
  }

  lemma NoWrapBound(net: u64, rent: u64, less: u64)
    requires net + rent <= MAX_U64 && less <= rent
    ensures Plus(net, less) == net + less && Plus(net, rent) == net + rent
  {
  }

  /** The approval is well-formed, its parts add up, and the transfer passes the gates. */
  predicate Passes(p: Plan, f: FeeApproval) {
    ParseApproval(f).Ok? && AddsUp(ParseApproval(f).value) && Gate(p, ParseApproval(f).value).Ok?
  }

  /**
   What gets signed has exactly the network fee that was approved, and costs no more
   than the approved fee.
   */
  lemma SentAsApproved(p: Plan, f: FeeApproval)
    ensures Passes(p, f) ==>
            var a, q := ParseApproval(f).value, Gate(p, ParseApproval(f).value).value;
            && NetworkFee(q.limit, q.price) == a.fee - a.rent
            && q.Cost() <= a.fee
            && (!a.creates ==> q.Cost() == a.fee)
            && q == p.(limit := a.limit, price := a.price)
            && p.needed <= q.limit && p.base <= q.price
            && (p.creates ==> a.creates && p.rent <= a.rent)
            && q.Cost() + (if p.token then 0 else p.amount) <= p.balance
  {
    if Passes(p, f) {
      var a := ParseApproval(f).value;
      ParsedIsBounded(f);
      GateMeans(p, a);
      assert !Holds(NeedsMoreCompute, p, a) && !Holds(PriceRose, p, a) && !Holds(AccountToOpen, p, a);
      assert !Holds(RentRose, p, a) && !Holds(CannotPay, p, a);
      FeeBound(a.limit, a.price, a.rent, a.fee, if p.creates then p.rent else 0);
    }
  }

  /**
   What passes was prepared from what the chain says when it is sent: the signed limit
   covers the use just simulated and the price is the recent one or more, an account is
   opened only for a token and where it is missing, and the balance covers all of it.
   */
  lemma SentCoversTheChain(token: bool, amount: u64, r: Reading, f: FeeApproval)
    ensures Passes(Prepared(token, amount, r), f) ==>
            var a, q := ParseApproval(f).value, Gate(Prepared(token, amount, r), ParseApproval(f).value).value;
            var rent := if token && r.creates then r.rent else 0;
            && (r.used < WRAPPING_USE ==> Min(r.used, MAX_LIMIT) <= q.limit <= MAX_LIMIT)
            && r.recent <= q.price <= MAX_PRICE
            && (token && r.creates ==> a.creates && r.rent <= a.rent)
            && NetworkFee(q.limit, q.price) + rent + (if token then 0 else amount) <= r.balance
            && q.token == token && q.amount == amount
  {
    if Passes(Prepared(token, amount, r), f) {
      var p, a := Prepared(token, amount, r), ParseApproval(f).value;
      LimitCoversUseIff(r.used);
      ParsedIsBounded(f);
      SentAsApproved(p, f);
      NoWrapBound(NetworkFee(a.limit, a.price), a.rent, if p.creates then p.rent else 0);
    }
  }

  /** Some transfer passes the gates and costs more than was approved. */
  ghost predicate CanCostMore(a: Approval) {
    exists p: Plan :: Gate(p, a).Ok? && Gate(p, a).value.Cost() > a.fee
  }

  /** A token transfer whose account rent fills 64 bits. */
  function DearestTransfer(net: u64): Plan {
    Plan(true, 1, MAX_U64, true, MAX_U64 - net, 0, 0, 0, 0)
  }

  lemma WrappedCanExceed(net: u64, rent: u64)
    requires net + rent > MAX_U64 && 0 < net
    ensures MAX_U64 - net <= rent && Plus(net, MAX_U64 - net) == MAX_U64 > Plus(net, rent)
  {
  }

  lemma WrappedApprovalIsExceeded(a: Approval)
    requires Fit(a) && !AddsUp(a)
    ensures CanCostMore(a)
  {
    var net := NetworkFee(a.limit, a.price);
    NetworkFeeIsSmall(a.limit, a.price);
    WrappedCanExceed(net, a.rent);
    var p := DearestTransfer(net);
    assert Gate(p, a).Ok? && Gate(p, a).value.Cost() == MAX_U64;
  }

  lemma PlainApprovalBinds(p: Plan, a: Approval)
    requires Fit(a) && AddsUp(a) && Gate(p, a).Ok?
    ensures Gate(p, a).value.Cost() <= a.fee
  {
    GateMeans(p, a);
    assert !Holds(RentRose, p, a) && !Holds(AccountToOpen, p, a);
    FeeBound(a.limit, a.price, a.rent, a.fee, if p.creates then p.rent else 0);
  }

  /** The guard is exact: a transfer can pass and cost more than was approved just when the parts wrap. */
  lemma ApprovalBindsIff(f: FeeApproval)
    ensures ParseApproval(f).Ok? ==>
              (!CanCostMore(ParseApproval(f).value) <==> AddsUp(ParseApproval(f).value))
  {
    if ParseApproval(f).Ok? {
      var a := ParseApproval(f).value;
      ParsedIsBounded(f);
      if AddsUp(a) {
        forall p: Plan | Gate(p, a).Ok? ensures Gate(p, a).value.Cost() <= a.fee { PlainApprovalBinds(p, a); }
      } else {
        WrappedApprovalIsExceeded(a);
      }
    }
  }

  lemma TextParses(limit: u32, price: u64, rent: u64, fee: u64) returns (f: FeeApproval)
    requires 0 < limit <= MAX_LIMIT && price <= MAX_PRICE && rent > 0 && fee == TotalFee(limit, price, rent)
    ensures ParseApproval(f) == Ok(Approval(limit, price, true, rent, fee))
  {
    SolReadsBack(rent);
    SolReadsBack(fee);
    f := SomeText(limit, price, rent, fee, Sol(rent), Sol(fee));
  }

  lemma SomeText(limit: u32, price: u64, rent: u64, fee: u64, rentText: string, feeText: string)
    returns (f: FeeApproval)
    requires 0 < limit <= MAX_LIMIT && price <= MAX_PRICE && rent > 0 && fee == TotalFee(limit, price, rent)
    requires Lamports(rentText) == Some(rent) && Lamports(feeText) == Some(fee)
    ensures ParseApproval(f) == Ok(Approval(limit, price, true, rent, fee))
  {
    f := FeeApproval("solana", limit, price, true, rentText, feeText);
    assert ParseRent(f) == Some(rent);
    SummedIsTaken(f, rent, fee);
  }

  lemma SummedIsTaken(f: FeeApproval, rent: u64, fee: u64)
    requires f.limit <= MAX_LIMIT && Lamports(f.fee) == Some(fee)
    ensures Summed(f, rent, fee) == Ok(Approval(f.limit, f.price, f.creates, rent, fee))
  {
  }

  /** And such an approval is taken: all of 64 bits for rent, and a fee a lamport short of the signature's. */
  lemma AnApprovalCanBeExceeded() returns (f: FeeApproval)
    ensures ParseApproval(f) == Ok(Approval(200_000, 0, true, MAX_U64, 4999))
    ensures CanCostMore(ParseApproval(f).value)
  {
    f := TextParses(200_000, 0, MAX_U64, 4999);
    ApprovalBindsIff(f);
  }

  // ---------------------------------------------------------- echoed estimates

  /** What an estimate shows, as the client sends it back. */
  function Echo(p: Plan): FeeApproval {
    FeeApproval("solana", p.limit, p.price, p.creates, if p.creates then Sol(p.rent) else "", Sol(p.Cost()))
  }

  /** The one compute use and the missing rent with which an estimate cannot be sent as shown. */
  predicate Sendable(used: u64, opens: bool, rent: u64) {
    used != WRAPPING_USE && (opens ==> rent > 0)
  }

  /** What a fee shown as text parses to. */
  lemma ShownParsesIff(limit: u32, price: u64, creates: bool, rent: u64, rentText: string, feeText: string)
    requires limit <= MAX_LIMIT && price <= MAX_PRICE
              && Lamports(feeText) == Some(TotalFee(limit, price, if creates then rent else 0))
    requires if creates then Lamports(rentText) == Some(rent) else rentText == ""
    ensures var a := ParseApproval(FeeApproval("solana", limit, price, creates, rentText, feeText));
            && (a.Ok? <==> limit > 0 && (creates ==> rent > 0))
            && (a.Ok? ==> a.value == Approval(limit, price, creates, if creates then rent else 0,
                                              TotalFee(limit, price, if creates then rent else 0)))
  {
  }

  lemma EchoParsesIff(token: bool, amount: u64, r: Reading)
    ensures var p := Prepared(token, amount, r);
            && (ParseApproval(Echo(p)).Ok? <==> r.used != WRAPPING_USE && (p.creates ==> p.rent > 0))
            && (ParseApproval(Echo(p)).Ok? ==>
                  ParseApproval(Echo(p)).value
                  == Approval(p.limit, p.price, p.creates, if p.creates then p.rent else 0, p.Cost()))
  {
    var p := Prepared(token, amount, r);
    LimitIsNothingIff(r.used);
    OfferCoversRecentIff(r.recent);
    SolReadsBack(p.rent);
    SolReadsBack(p.Cost());
    ShownParsesIff(p.limit, p.price, p.creates, p.rent, if p.creates then Sol(p.rent) else "", Sol(p.Cost()));
  }

  /** The approval echoed from an estimate is taken, and sends just that. */
  predicate EchoSends(p: Plan) {
    ParseApproval(Echo(p)).Ok? && Gate(p, ParseApproval(Echo(p)).value) == Ok(p)
  }

  lemma EchoAtAnyPriceIff(token: bool, amount: u64, r: Reading)
    ensures var p := Prepared(token, amount, r);
            Affordable(p) ==> (EchoSends(p) <==> Sendable(r.used, p.creates, p.rent) && r.recent <= MAX_PRICE)
  {
    EchoParsesIff(token, amount, r);
    OfferCoversRecentIff(r.recent);
  }

  /**
   An approval echoed from an affordable estimate passes every gate of the send when the
   chain answers the same, whatever prices were sampled, and nothing is changed, exactly for
   the readings that are sendable.
   */
  lemma EchoedEstimateIsSentIff(token: bool, amount: u64, r: Reading, prices: seq<u64>)
    requires Sampled(prices, r.recent)
    ensures var p := Prepared(token, amount, r);
            Affordable(p) ==> (EchoSends(p) <==> Sendable(r.used, p.creates, p.rent))
  {
    SampledIsCapped(prices, r.recent);
    EchoAtAnyPriceIff(token, amount, r);
  }

  /** The most SOL there is to send: all but the cost, leaving exactly nothing. */
  function MaxAmount(r: Reading): Option<u64> {
    var cost := Prepared(false, 0, r).Cost();
    if r.balance <= cost then None else Some(r.balance - cost)
  }

  lemma MaximumLeavesNothing(r: Reading, prices: seq<u64>)
    ensures MaxAmount(r).Some? ==>
            var p := Prepared(false, MaxAmount(r).value, r);
            && Affordable(p) && p.amount + p.Cost() == p.balance
            && (Sampled(prices, r.recent) ==> (EchoSends(p) <==> Sendable(r.used, false, 0)))
    ensures forall amount: u64 ::
              Affordable(Prepared(false, amount, r)) && amount > 0 ==>
                MaxAmount(r).Some? && amount <= MaxAmount(r).value
  {
    if MaxAmount(r).Some? && Sampled(prices, r.recent) {
      EchoedEstimateIsSentIff(false, MaxAmount(r).value, r, prices);
    }
  }

  // --------------------------------------------------- closing token accounts

  /** A closing pays the network fee alone and opens nothing. */
  function CloseGate(needed: u32, base: u64, a: Approval): Result<u64, Change> {
    if a.creates then Err(AccountToOpen)
    else if needed > a.limit then Err(NeedsMoreCompute)
    else if base > a.price then Err(PriceRose)
    else Ok(NetworkFee(a.limit, a.price))
  }

  /** A closing passes exactly when it opens nothing and needs no more than approved, and costs the approved fee. */
  lemma ClosedAsApproved(needed: u32, base: u64, f: FeeApproval)
    ensures ParseApproval(f).Ok? ==>
              var a := ParseApproval(f).value;
              && (CloseGate(needed, base, a).Ok? <==> needed <= a.limit && base <= a.price && a.rent == 0)
              && (CloseGate(needed, base, a).Ok? ==> CloseGate(needed, base, a) == Ok(a.fee))
              && (CloseGate(needed, base, a).Err? ==>
                    match CloseGate(needed, base, a).error
                    case AccountToOpen => a.rent > 0
                    case NeedsMoreCompute => needed > a.limit
                    case PriceRose => base > a.price
                    case _ => false)
  {
    if ParseApproval(f).Ok? {
      ParsedIsBounded(f);
      NetworkFeeIsSmall(ParseApproval(f).value.limit, ParseApproval(f).value.price);
    }
  }

  lemma EchoedCloseIsSentIff(r: Reading, prices: seq<u64>)
    requires Sampled(prices, r.recent)
    ensures var p := Prepared(false, 0, r);
            (ParseApproval(Echo(p)).Ok?
             && CloseGate(LimitFor(r.used), r.recent, ParseApproval(Echo(p)).value) == Ok(p.Cost()))
            <==> Sendable(r.used, false, 0)
  {
    var p := Prepared(false, 0, r);
    EchoParsesIff(false, 0, r);
    SampledIsCapped(prices, r.recent);
    OfferCoversRecentIff(r.recent);
    ClosedAsApproved(LimitFor(r.used), r.recent, Echo(p));
  }

  // ---------------------------------------------------------------------- swaps

  const MAX_HOPS: nat := 2

  datatype SwapApproval = SwapApproval(limit: u64, price: u64, created: int, rent: string, fee: string)

  datatype SwapFee = SwapFee(limit: u32, price: u64, created: nat, rent: u64, fee: u64)

  datatype SwapRefusal = LimitRange | PriceRange | CountRange | RentText | FeeText | SumMismatch

  function ParseSwapRent(a: SwapApproval): Option<u64> {
    if a.created > 0 then
      match Lamports(a.rent) case None => None case Some(n) => if n == 0 then None else Some(n)
    else if a.rent == "" then Some(0)
    else match Lamports(a.rent) case None => None case Some(n) => if n == 0 then Some(0) else None
  }

  function ParseSwapApproval(a: SwapApproval): Result<SwapFee, SwapRefusal> {
    if a.limit == 0 || a.limit > MAX_LIMIT then Err(LimitRange)
    else if a.price > MAX_PRICE then Err(PriceRange)
    else if a.created < 0 || a.created > MAX_HOPS then Err(CountRange)
    else match ParseSwapRent(a)
      case None => Err(RentText)
      case Some(rent) =>
        match Lamports(a.fee)
        case None => Err(FeeText)
        case Some(fee) =>
          if TotalFee(a.limit, a.price, rent) != fee then Err(SumMismatch)
          else Ok(SwapFee(a.limit, a.price, a.created, rent, fee))
  }

  /** The rent of the accounts a swap opens and leaves open. */
  function RentFor(created: nat, tokenRent: u64): u64 { Wrap(created * tokenRent) }

  /** What a swap means for the SOL balance: what it opens, and what it sells of it. */
  datatype Spending = Spending(
    balance: u64, created: nat, tokenRent: u64, opensWrapped: bool, opensMiddle: bool, sold: Option<u64>)
  {
    function Rent(): u64 { RentFor(created, tokenRent) }

    function Upfront(): u64 { if opensWrapped then tokenRent else 0 }

    function Sold(): u64 { if sold.Some? then sold.value else 0 }

    /** What the balance has to cover for this network fee. */
    function Need(fee: u64): u64 { Plus(Plus(Plus(fee, Rent()), Upfront()), Sold()) }

    /** The same without wrapping. */
    function ExactNeed(fee: u64): nat {
      fee + created * tokenRent + (if opensWrapped then tokenRent else 0) + match sold case None => 0 case Some(n) => n
    }

    function MiddleRent(): u64 { if opensMiddle then tokenRent else 0 }
  }

  /** A measured swap: what it needs, what it spends, what it pays. */
  datatype Swap = Swap(
    needed: u32, limit: u32, base: u64, price: u64, spending: Spending, expectedOut: u64, minOut: u64)
  {
    function Cost(): u64 { TotalFee(limit, price, spending.Rent()) }

    function Need(): u64 { spending.Need(NetworkFee(limit, price)) }
  }

  /** Wrapped back below zero, as 64 bits do. */
  function Minus(a: u64, b: u64): u64 { if b <= a then a - b else a + 0x1_0000_0000_0000_0000 - b }

  /** A balance that is short only by the rent of the route's middle account speaks against the route alone. */
  function Precheck(s: Swap): Option<SwapChange> {
    if s.spending.balance >= s.Need() then None
    else Some(CannotCover(s.spending.balance >= Minus(s.Need(), s.spending.MiddleRent())))
  }

  lemma PlainSum(a: nat, b: nat, c: nat, d: nat)
    requires a + b + c + d <= MAX_U64
    ensures Plus(Plus(Plus(a, Wrap(b)), c), d) == a + b + c + d
  {
    PlainIsUnwrapped(b);
    PlainIsUnwrapped(a + b);
    PlainIsUnwrapped(a + b + c);
    PlainIsUnwrapped(a + b + c + d);
  }

  lemma NeedIsExact(p: Spending, fee: u64)
    requires p.ExactNeed(fee) <= MAX_U64
    ensures p.Need(fee) == p.ExactNeed(fee)
  {
    PlainSum(fee, p.created * p.tokenRent, p.Upfront(), p.Sold());
  }

  /** A sum that wraps comes out smaller. */
  lemma NeedIsLess(p: Spending, fee: u64)
    ensures p.Need(fee) <= MAX_U64 && (p.ExactNeed(fee) > MAX_U64 ==> p.Need(fee) < p.ExactNeed(fee))
  {
  }

  /** A balance that passes covers everything the swap takes exactly when the sum does not wrap. */
  lemma PrecheckCoversIff(s: Swap)
    ensures (forall balance: u64 :: Precheck(s.(spending := s.spending.(balance := balance))).None? ==>
               s.spending.ExactNeed(NetworkFee(s.limit, s.price)) <= balance)
            <==> s.spending.ExactNeed(NetworkFee(s.limit, s.price)) <= MAX_U64
  {
    var fee := NetworkFee(s.limit, s.price);
    NeedIsLess(s.spending, fee);
    if s.spending.ExactNeed(fee) <= MAX_U64 {
      NeedIsExact(s.spending, fee);
    } else {
      var balance: u64 := s.Need();
      assert Precheck(s.(spending := s.spending.(balance := balance))).None?;
    }
  }

  /** The middle account's rent is part of what is needed. */
  lemma MiddleIsIncluded(p: Spending, fee: u64)
    requires p.opensMiddle ==> p.created > 0 || p.opensWrapped
    ensures p.MiddleRent() <= p.ExactNeed(fee)
  {
    if p.created > 0 { ProductBound(1, p.tokenRent, p.created, p.tokenRent); }
  }

  /**
   A refusal is the route's alone exactly when the balance would do without the route's
   middle account, provided nothing wraps.
   */
  lemma RouteIsBlamedIff(s: Swap)
    requires s.spending.opensMiddle ==> s.spending.created > 0 || s.spending.opensWrapped
    requires s.spending.ExactNeed(NetworkFee(s.limit, s.price)) <= MAX_U64
    ensures var p := s.spending;
            var need := p.ExactNeed(NetworkFee(s.limit, s.price));
            && (Precheck(s).None? <==> need <= p.balance)
            && (Precheck(s).Some? ==> Precheck(s).value.CannotCover?)
            && (Precheck(s).Some? ==>
                  (Precheck(s).value == CannotCover(true) <==> p.opensMiddle && need <= p.balance + p.tokenRent))
  {
    var need := s.Need();
    NeedIsExact(s.spending, NetworkFee(s.limit, s.price));
    MiddleIsIncluded(s.spending, NetworkFee(s.limit, s.price));
    assert Minus(need, s.spending.MiddleRent()) == need - s.spending.MiddleRent();
  }

  const MAX_SLIPPAGE: nat := 500

  /** Rounded down. */
  function WithSlippage(amount: u64, bps: nat): u64
    requires bps <= 10000
  {
    Wrap(amount * (10000 - bps) / 10000)
  }

  lemma FloorOf(x: nat, amount: u64)
    requires x <= amount * 10000
    ensures Wrap(x / 10000) <= amount
    ensures 10000 * Wrap(x / 10000) <= x <= 10000 * Wrap(x / 10000) + 9999
  {
  }

  /** The exact share rounded down, never wrapped. */
  lemma WithSlippageIsFloor(amount: u64, bps: nat)
    requires bps <= 10000
    ensures WithSlippage(amount, bps) <= amount
    ensures 10000 * WithSlippage(amount, bps) <= amount * (10000 - bps) <= 10000 * WithSlippage(amount, bps) + 9999
  {
    ProductBound(amount, 10000 - bps, amount, 10000);
    FloorOf(amount * (10000 - bps), amount);
  }

  lemma WithSlippageOrder(amount: u64, small: nat, large: nat)
    requires small <= large <= 10000
    ensures WithSlippage(amount, large) <= WithSlippage(amount, small)
  {
    WithSlippageIsFloor(amount, small);
    WithSlippageIsFloor(amount, large);
    ProductBound(amount, 10000 - large, amount, 10000 - small);
  }

  datatype SwapChange =
    | PaysLess | MinimumTooLow | MoreCompute | PriceUp | MoreAccounts | RentUp | CannotCover(onlyThisRoute: bool)

  /** What the swap gates let through: the approved fee and the minimum the user saw, if the balance covers it. */
  function SwapGate(s: Swap, a: SwapFee, minOut: u64): Result<Swap, SwapChange> {
    if s.expectedOut < minOut then Err(PaysLess)
    else if minOut < WithSlippage(s.expectedOut, MAX_SLIPPAGE) then Err(MinimumTooLow)
    else if s.needed > a.limit then Err(MoreCompute)
    else if s.base > a.price then Err(PriceUp)
    else if s.spending.created > a.created then Err(MoreAccounts)
    else if s.spending.Rent() > a.rent then Err(RentUp)
    else
      var q := s.(limit := a.limit, price := a.price, minOut := minOut);
      match Precheck(q) case Some(change) => Err(change) case None => Ok(q)
  }

  predicate SwapAddsUp(a: SwapFee) {
    NetworkFee(a.limit, a.price) + a.rent <= MAX_U64
  }

  predicate FitSwap(a: SwapFee) {
    && 0 < a.limit <= MAX_LIMIT && a.price <= MAX_PRICE && a.created <= MAX_HOPS
    && a.fee == TotalFee(a.limit, a.price, a.rent) && (a.created > 0 <==> a.rent > 0)
  }

  lemma ParsedSwapIsFit(f: SwapApproval)
    ensures ParseSwapApproval(f).Ok? ==> FitSwap(ParseSwapApproval(f).value)
  {
  }

  /** A swap's approval is taken exactly when it is in bounds and adds up in the same way. */
  lemma SwapApprovalIsTakenIff(f: SwapApproval)
    ensures ParseSwapApproval(f).Ok?
       <==> 1 <= f.limit <= MAX_LIMIT && f.price <= MAX_PRICE && 0 <= f.created <= MAX_HOPS
            && exists rent: u64 :: RentShown(f.created > 0, f.rent, rent)
                                   && Lamports(f.fee) == Some(TotalFee(f.limit, f.price, rent))
    ensures ParseSwapApproval(f).Ok? ==>
              var a := ParseSwapApproval(f).value;
              && a.limit == f.limit && a.price == f.price && a.created == f.created
              && RentShown(f.created > 0, f.rent, a.rent) && Lamports(f.fee) == Some(a.fee)
    ensures ParseSwapApproval(f).Err? ==>
              match ParseSwapApproval(f).error
              case LimitRange => f.limit == 0 || f.limit > MAX_LIMIT
              case PriceRange => f.price > MAX_PRICE
              case CountRange => f.created < 0 || f.created > MAX_HOPS
              case RentText => NoRentShown(f.created > 0, f.rent)
              case FeeText => Lamports(f.fee).None?
              case SumMismatch => Lamports(f.fee).Some?
  {
    if ParseSwapRent(f).Some? { assert RentShown(f.created > 0, f.rent, ParseSwapRent(f).value); }
    forall rent: u64 | RentShown(f.created > 0, f.rent, rent) ensures ParseSwapRent(f) == Some(rent) {
      NoTextIsNoNumber();
    }
  }

  /** What a refusal says of a swap, what was approved and the minimum shown. */
  predicate SwapHolds(c: SwapChange, s: Swap, a: SwapFee, minOut: u64) {
    match c
    case PaysLess => s.expectedOut < minOut
    case MinimumTooLow => 10000 * minOut + 9999 < s.expectedOut * (10000 - MAX_SLIPPAGE)
    case MoreCompute => s.needed > a.limit
    case PriceUp => s.base > a.price
    case MoreAccounts => s.spending.created > a.created
    case RentUp => s.spending.Rent() > a.rent
    case CannotCover(_) => s.spending.balance < s.spending.Need(NetworkFee(a.limit, a.price))
  }

  /** The least minimum is the expected output less five percent, rounded down. */
  lemma LeastMinimum(expectedOut: u64, minOut: u64)
    ensures minOut < WithSlippage(expectedOut, MAX_SLIPPAGE)
       <==> 10000 * minOut + 9999 < expectedOut * (10000 - MAX_SLIPPAGE)
  {
    WithSlippageIsFloor(expectedOut, MAX_SLIPPAGE);
  }

  /** A swap passes exactly when nothing speaks against it, and is refused with what does. */
  lemma SwapGateMeans(s: Swap, a: SwapFee, minOut: u64)
    ensures SwapGate(s, a, minOut).Ok? <==> forall c: SwapChange :: !SwapHolds(c, s, a, minOut)
    ensures SwapGate(s, a, minOut).Ok? ==>
              SwapGate(s, a, minOut).value == s.(limit := a.limit, price := a.price, minOut := minOut)
    ensures SwapGate(s, a, minOut).Err? ==> SwapHolds(SwapGate(s, a, minOut).error, s, a, minOut)
  {
    LeastMinimum(s.expectedOut, minOut);
    if SwapGate(s, a, minOut).Ok? {
      assert forall c: SwapChange :: !SwapHolds(c, s, a, minOut);
    } else {
      assert SwapHolds(SwapGate(s, a, minOut).error, s, a, minOut);
    }
  }

  lemma SwapChecks(s: Swap, a: SwapFee, minOut: u64)
    requires forall c: SwapChange :: !SwapHolds(c, s, a, minOut)
    ensures minOut <= s.expectedOut && 10000 * minOut + 9999 >= s.expectedOut * (10000 - MAX_SLIPPAGE)
    ensures s.needed <= a.limit && s.base <= a.price
    ensures s.spending.created <= a.created && s.spending.Rent() <= a.rent
    ensures s.spending.Need(NetworkFee(a.limit, a.price)) <= s.spending.balance
  {
    assert !SwapHolds(PaysLess, s, a, minOut) && !SwapHolds(MinimumTooLow, s, a, minOut);
    assert !SwapHolds(MoreCompute, s, a, minOut) && !SwapHolds(PriceUp, s, a, minOut);
    assert !SwapHolds(MoreAccounts, s, a, minOut) && !SwapHolds(RentUp, s, a, minOut);
    assert !SwapHolds(CannotCover(true), s, a, minOut);
  }

  predicate SwapPasses(s: Swap, f: SwapApproval, minOut: u64) {
    && ParseSwapApproval(f).Ok? && SwapAddsUp(ParseSwapApproval(f).value)
    && SwapGate(s, ParseSwapApproval(f).value, minOut).Ok?
  }

  /**
   A signed swap has the approved network fee, costs at most the approved fee, opens no
   more accounts than approved, and promises the minimum the user saw, which is within
   the largest slippage of what the swap pays now. The balance covers it.
   */
  lemma SwappedAsApproved(s: Swap, f: SwapApproval, minOut: u64)
    ensures SwapPasses(s, f, minOut) ==>
            var a, q := ParseSwapApproval(f).value, SwapGate(s, ParseSwapApproval(f).value, minOut).value;
            && NetworkFee(q.limit, q.price) == a.fee - a.rent && q.Cost() <= a.fee
            && q.spending == s.spending && q.spending.created <= a.created <= MAX_HOPS
            && q.minOut == minOut <= q.expectedOut
            && 10000 * minOut + 9999 >= q.expectedOut * (10000 - MAX_SLIPPAGE)
            && q.Need() <= q.spending.balance
            && s.needed <= q.limit && s.base <= q.price
  {
    if SwapPasses(s, f, minOut) {
      var a := ParseSwapApproval(f).value;
      ParsedSwapIsFit(f);
      SwapGateMeans(s, a, minOut);
      SwapChecks(s, a, minOut);
      FeeBound(a.limit, a.price, a.rent, a.fee, s.spending.Rent());
    }
  }

  /** What passes was measured when it is sent: the limit covers that use, the price the recent one. */
  lemma SwapCoversTheChain(
    used: u64, recent: u64, spending: Spending, expectedOut: u64, bps: nat, f: SwapApproval, minOut: u64)
    requires bps <= MAX_SLIPPAGE
    ensures var s := Quoted(used, recent, spending, expectedOut, bps);
            SwapPasses(s, f, minOut) ==>
              var q := SwapGate(s, ParseSwapApproval(f).value, minOut).value;
              && (used < WRAPPING_USE ==> Min(used, MAX_LIMIT) <= q.limit <= MAX_LIMIT)
              && recent <= q.price <= MAX_PRICE && q.spending == spending
              && q.minOut == minOut <= expectedOut
  {
    LimitCoversUseIff(used);
    SwappedAsApproved(Quoted(used, recent, spending, expectedOut, bps), f, minOut);
    ParsedSwapIsFit(f);
  }

  /** Some swap for at least one unit passes the gates and costs more than was approved. */
  ghost predicate SwapCanCostMore(a: SwapFee) {
    exists s: Swap :: SwapGate(s, a, 1).Ok? && SwapGate(s, a, 1).value.Cost() > a.fee
  }

  lemma WrappedSwapIsExceeded(a: SwapFee)
    requires FitSwap(a) && !SwapAddsUp(a)
    ensures SwapCanCostMore(a)
  {
    var net := NetworkFee(a.limit, a.price);
    NetworkFeeIsSmall(a.limit, a.price);
    WrappedCanExceed(net, a.rent);
    var spending := Spending(MAX_U64, 1, MAX_U64 - net, false, false, None);
    var s := Swap(0, 0, 0, 0, spending, 1, 1);
    assert WithSlippage(1, MAX_SLIPPAGE) == 0;
    assert spending.Rent() == MAX_U64 - net;
    assert SwapGate(s, a, 1).Ok? && SwapGate(s, a, 1).value.Cost() == MAX_U64;
  }

  lemma PlainSwapBinds(s: Swap, a: SwapFee, minOut: u64)
    requires FitSwap(a) && SwapAddsUp(a) && SwapGate(s, a, minOut).Ok?
    ensures SwapGate(s, a, minOut).value.Cost() <= a.fee
  {
    SwapGateMeans(s, a, minOut);
    SwapChecks(s, a, minOut);
    FeeBound(a.limit, a.price, a.rent, a.fee, s.spending.Rent());
  }

  /** The same guard is exact for swaps. */
  lemma SwapApprovalBindsIff(f: SwapApproval)
    ensures ParseSwapApproval(f).Ok? ==>
              (!SwapCanCostMore(ParseSwapApproval(f).value) <==> SwapAddsUp(ParseSwapApproval(f).value))
  {
    if ParseSwapApproval(f).Ok? {
      var a := ParseSwapApproval(f).value;
      ParsedSwapIsFit(f);
      if SwapAddsUp(a) {
        forall s: Swap | SwapGate(s, a, 1).Ok? ensures SwapGate(s, a, 1).value.Cost() <= a.fee {
          PlainSwapBinds(s, a, 1);
        }
      } else {
        WrappedSwapIsExceeded(a);
      }
    }
  }

  /** A quote as the client sends it back. */
  function EchoSwap(s: Swap): SwapApproval {
    var p := s.spending;
    SwapApproval(s.limit, s.price, p.created, if p.created > 0 then Sol(p.Rent()) else "", Sol(s.Cost()))
  }

  function Quoted(used: u64, recent: u64, spending: Spending, expectedOut: u64, bps: nat): Swap
    requires bps <= MAX_SLIPPAGE
  {
    var limit := LimitFor(used);
    Swap(limit, limit, recent, OfferedPrice(recent), spending, expectedOut, WithSlippage(expectedOut, bps))
  }

  lemma NoAccountsNoRent(tokenRent: u64)
    ensures RentFor(0, tokenRent) == 0
  {
  }

  lemma EchoRentParsesIff(s: Swap)
    ensures var p := s.spending;
            ParseSwapRent(EchoSwap(s)) == if p.created > 0 && p.Rent() == 0 then None else Some(p.Rent())
  {
    SolReadsBack(s.spending.Rent());
    if s.spending.created == 0 { NoAccountsNoRent(s.spending.tokenRent); }
  }

  lemma ShownSwapParsesIff(limit: u32, price: u64, created: nat, rent: u64, rentText: string, feeText: string)
    requires limit <= MAX_LIMIT && price <= MAX_PRICE && created <= MAX_HOPS
    requires Lamports(feeText) == Some(TotalFee(limit, price, rent))
    requires ParseSwapRent(SwapApproval(limit, price, created, rentText, feeText))
          == if created > 0 && rent == 0 then None else Some(rent)
    ensures var a := ParseSwapApproval(SwapApproval(limit, price, created, rentText, feeText));
            && (a.Ok? <==> limit > 0 && (created > 0 ==> rent > 0))
            && (a.Ok? ==> a.value == SwapFee(limit, price, created, rent, TotalFee(limit, price, rent)))
  {
  }

  lemma EchoSwapParsesIff(s: Swap)
    requires s.limit <= MAX_LIMIT && s.price <= MAX_PRICE && s.spending.created <= MAX_HOPS
    ensures var p := s.spending;
            && (ParseSwapApproval(EchoSwap(s)).Ok? <==> s.limit > 0 && (p.created > 0 ==> p.Rent() > 0))
            && (ParseSwapApproval(EchoSwap(s)).Ok? ==>
                  ParseSwapApproval(EchoSwap(s)).value == SwapFee(s.limit, s.price, p.created, p.Rent(), s.Cost()))
  {
    EchoRentParsesIff(s);
    SolReadsBack(s.Cost());
    ShownSwapParsesIff(s.limit, s.price, s.spending.created, s.spending.Rent(), EchoSwap(s).rent, Sol(s.Cost()));
  }

  /** The rent of what is opened comes to nothing for no rent, or for two accounts that wrap exactly. */
  lemma RentIsNothingIff(created: nat, tokenRent: u64)
    requires 0 < created <= MAX_HOPS
    ensures RentFor(created, tokenRent) == 0
            <==> tokenRent == 0 || (created == 2 && tokenRent == 0x8000_0000_0000_0000)
  {
    assert created * tokenRent == if created == 1 then tokenRent else 2 * tokenRent;
  }

  /** A covered quote sent back unchanged passes every gate when the chain answers the same, exactly when sendable. */
  lemma EchoedQuoteIsSwappedIff(
    used: u64, recent: u64, prices: seq<u64>, spending: Spending, expectedOut: u64, bps: nat)
    requires bps <= MAX_SLIPPAGE && spending.created <= MAX_HOPS && Sampled(prices, recent)
    ensures var s := Quoted(used, recent, spending, expectedOut, bps);
            Precheck(s).None? ==>
              ((ParseSwapApproval(EchoSwap(s)).Ok?
                && SwapGate(s, ParseSwapApproval(EchoSwap(s)).value, s.minOut) == Ok(s))
               <==> Sendable(used, spending.created > 0, spending.Rent()))
  {
    var s := Quoted(used, recent, spending, expectedOut, bps);
    LimitIsNothingIff(used);
    LimitCoversUseIff(used);
    SampledIsCapped(prices, recent);
    OfferCoversRecentIff(recent);
    EchoSwapParsesIff(s);
    WithSlippageOrder(expectedOut, bps, MAX_SLIPPAGE);
    WithSlippageIsFloor(expectedOut, bps);
  }
}
