/**
 The signed list of a swap, byte by byte (internal/chain/solana/swap.go, swap_message.go):
 what the planner appends, that every such list makes a message the checker accepts, legacy
 or versioned as its size decides, and that an accepted message does what was planned.
 */
module SolanaSwapMessages {
  import opened Wrappers
  import opened SolanaCodec
  import opened LittleEndian
  import opened SolanaChecker
  import opened SolanaSwapChecker
  import opened SolanaCompiler
  import opened SolanaCalls
  import opened SolanaPlans
  import opened SwapLedger
  import SolanaSwap
  import Fees

  /** One hop as its pool's program is asked for it. */
  datatype Order = Order(
    pool: Key, inMint: Key, outMint: Key, user: Key, source: Key, destination: Key, amount: u64, minOut: u64)

  /** The instruction the exchange library writes for an order, and the swap that is meant by it. */
  datatype Encoder<!S> = Encoder(encode: Order -> Planned, meant: Order -> S, order: S -> Order)

  const MAX_POOL_ACCOUNTS: nat := 32

  /** The strict decoder reads back the swap that was meant; only the user signs; it names a pool's accounts. */
  predicate ReadsBack<S(==)>(encoder: Encoder<S>, exchange: Exchange<S>, o: Order) {
    var want := encoder.encode(o);
    && exchange.isSwap(want.program)
    && Decoded(exchange, Asked(want)) == Some(encoder.meant(o))
    && encoder.order(encoder.meant(o)) == o
    && SignsAlone(want.accounts, o.user)
    && |want.accounts| <= MAX_POOL_ACCOUNTS && |want.data| < 128
  }

  /** The five programs are five, and the wallet's own four are no exchange. */
  predicate Apart<S>(chain: Chain, exchange: Exchange<S>) {
    && chain.computeBudget != chain.system && chain.computeBudget != chain.token
    && chain.computeBudget != chain.associatedToken && chain.system != chain.token
    && chain.system != chain.associatedToken && chain.token != chain.associatedToken
    && !exchange.isSwap(chain.computeBudget) && !exchange.isSwap(chain.system)
    && !exchange.isSwap(chain.token) && !exchange.isSwap(chain.associatedToken)
  }

  /** A swap to lay out: its plan, who signs, whether SOL is sold, and the stage's compute budget. */
  datatype Draft = Draft(plan: SolanaSwap.Plan, user: Key, sellsSol: bool, limit: u32, price: u64)

  predicate Fits(n: nat) { n <= MAX_U64 }

  /** A complete plan, with amounts of 64 bits, at most three accounts to open, and wrapped SOL if SOL is sold. */
  predicate Ready(d: Draft) {
    && SolanaSwap.Complete(d.plan) && |d.plan.creates| <= 3 && (d.sellsSol ==> d.plan.wsol.Some?)
    && Fits(d.plan.amountIn)
    && forall i :: 0 <= i < |d.plan.hops| ==> Fits(d.plan.hopIn[i]) && Fits(d.plan.hopMin[i])
  }

  function OrderOf(user: Key, hop: SolanaSwap.Hop, source: Key, destination: Key, amount: u64, minOut: u64): Order {
    Order(hop.pool, hop.inMint, hop.outMint, user, source, destination, amount, minOut)
  }

  /** The hops of a stage, as orders. */
  function Orders(d: Draft, stage: SolanaSwap.Stage): seq<Order>
    requires Ready(d)
  {
    var p := d.plan;
    var minOut := if stage == SolanaSwap.Final then p.hopMin[|p.hops| - 1] else 1;
    if |p.hops| == 1 then [OrderOf(d.user, p.hops[0], p.source, p.dest, p.amountIn, minOut)]
    else if stage == SolanaSwap.Middle then [OrderOf(d.user, p.hops[0], p.source, p.mid.value, p.amountIn, 1)]
    else
      [OrderOf(d.user, p.hops[0], p.source, p.mid.value, p.amountIn, p.hopMin[0]),
       OrderOf(d.user, p.hops[1], p.mid.value, p.dest, p.hopIn[1], minOut)]
  }

  function OpenAll(chain: Chain, user: Key, creates: seq<SolanaSwap.Create>): seq<Planned> {
    seq(|creates|, i requires 0 <= i < |creates| => OpenAccount(chain, user, creates[i].account, user, creates[i].mint))
  }

  function SyncNative(chain: Chain, account: Key): Planned {
    Planned(chain.token, [Writes(account)], [17])
  }

  /** SOL to sell is moved to the wrapped-SOL account first. */
  function Wrapping(chain: Chain, d: Draft): seq<Planned>
    requires Ready(d)
  {
    if d.sellsSol then
      [SendSol(chain, d.user, d.plan.wsol.value, d.plan.amountIn), SyncNative(chain, d.plan.wsol.value)]
    else []
  }

  function Hops<S>(encoder: Encoder<S>, orders: seq<Order>): seq<Planned> {
    seq(|orders|, i requires 0 <= i < |orders| => encoder.encode(orders[i]))
  }

  function Meant<S>(encoder: Encoder<S>, orders: seq<Order>): seq<S> {
    seq(|orders|, i requires 0 <= i < |orders| => encoder.meant(orders[i]))
  }

  function Unwrapping(chain: Chain, d: Draft, stage: SolanaSwap.Stage): seq<Planned> {
    if stage == SolanaSwap.Final && d.plan.wsol.Some? then [CloseOne(chain, d.user, d.plan.wsol.value)] else []
  }

  /** Only the final stage is paid for; the others measure with all the compute there is. */
  function StageLimit(d: Draft, stage: SolanaSwap.Stage): u32 {
    if stage == SolanaSwap.Final then d.limit else Fees.MAX_LIMIT
  }

  function StagePrice(d: Draft, stage: SolanaSwap.Stage): u64 {
    if stage == SolanaSwap.Final then d.price else 0
  }

  function StageBudget(chain: Chain, d: Draft, stage: SolanaSwap.Stage): seq<Planned> {
    Budget(chain, StageLimit(d, stage), StagePrice(d, stage))
  }

  /** The whole list of a stage. */
  function Laid<S>(chain: Chain, encoder: Encoder<S>, d: Draft, stage: SolanaSwap.Stage): seq<Planned>
    requires Ready(d)
  {
    StageBudget(chain, d, stage)
    + (OpenAll(chain, d.user, d.plan.creates)
       + (Wrapping(chain, d) + (Hops(encoder, Orders(d, stage)) + Unwrapping(chain, d, stage))))
  }

  /** The list as the planner appends it, with the swaps it is meant to make. */
  method BuildSwap<S>(chain: Chain, encoder: Encoder<S>, d: Draft, stage: SolanaSwap.Stage)
    returns (out: seq<Planned>, swaps: seq<S>)
    requires Ready(d)
    ensures out == Laid(chain, encoder, d, stage) && swaps == Meant(encoder, Orders(d, stage))
  {
    var limit: u32, price: u64 := Fees.MAX_LIMIT, 0;
    if stage == SolanaSwap.Final { limit, price := d.limit, d.price; }
    assert limit == StageLimit(d, stage) && price == StagePrice(d, stage);
    var opens := AddOpens(chain, d);
    var wraps := [];
    if d.sellsSol {
      wraps := [SendSol(chain, d.user, d.plan.wsol.value, d.plan.amountIn)] + [SyncNative(chain, d.plan.wsol.value)];
    }
    var hops;
    hops, swaps := AddHops(encoder, d, stage);
    var close := [];
    if stage == SolanaSwap.Final && d.plan.wsol.Some? { close := [CloseOne(chain, d.user, d.plan.wsol.value)]; }
    assert wraps == Wrapping(chain, d) && close == Unwrapping(chain, d, stage);
    out := Budget(chain, limit, price) + (opens + (wraps + (hops + close)));
  }

  method AddOpens(chain: Chain, d: Draft) returns (out: seq<Planned>)
    ensures out == OpenAll(chain, d.user, d.plan.creates)
  {
    var creates := d.plan.creates;
    out := [];
    for i := 0 to |creates|
      invariant out == OpenAll(chain, d.user, creates[..i])
    {
      out := out + [OpenAccount(chain, d.user, creates[i].account, d.user, creates[i].mint)];
    }
    assert creates[..|creates|] == creates;
  }

  method AddHops<S>(encoder: Encoder<S>, d: Draft, stage: SolanaSwap.Stage) returns (out: seq<Planned>, swaps: seq<S>)
    requires Ready(d)
    ensures out == Hops(encoder, Orders(d, stage)) && swaps == Meant(encoder, Orders(d, stage))
  {
    var p := d.plan;
    var last := |p.hops| - 1;
    var minOut: u64 := 1;
    if stage == SolanaSwap.Final { minOut := p.hopMin[last]; }
    if last == 0 {
      out, swaps := AddHop(encoder, OrderOf(d.user, p.hops[0], p.source, p.dest, p.amountIn, minOut), [], []);
    } else if stage == SolanaSwap.Middle {
      out, swaps := AddHop(encoder, OrderOf(d.user, p.hops[0], p.source, p.mid.value, p.amountIn, 1), [], []);
    } else {
      out, swaps := AddHop(encoder, OrderOf(d.user, p.hops[0], p.source, p.mid.value, p.amountIn, p.hopMin[0]), [], []);
      out, swaps := AddHop(encoder, OrderOf(d.user, p.hops[1], p.mid.value, p.dest, p.hopIn[1], minOut), out, swaps);
    }
  }

  method AddHop<S>(encoder: Encoder<S>, o: Order, out0: seq<Planned>, swaps0: seq<S>)
    returns (out: seq<Planned>, swaps: seq<S>)
    ensures out == out0 + [encoder.encode(o)] && swaps == swaps0 + [encoder.meant(o)]
  {
    out, swaps := out0 + [encoder.encode(o)], swaps0 + [encoder.meant(o)];
  }

  // ------------------------------------------------- every swap list passes

  /** The encoder and the decoder agree on what this draft asks for. */
  predicate Exchanges<S(==)>(encoder: Encoder<S>, exchange: Exchange<S>, orders: seq<Order>) {
    forall i :: 0 <= i < |orders| ==> ReadsBack(encoder, exchange, orders[i])
  }

  lemma {:induction false} SwapsJoin<S>(exchange: Exchange<S>, a: seq<Planned>, b: seq<Planned>)
    ensures SwapsIn(exchange, a + b) == SwapsIn(exchange, a) + SwapsIn(exchange, b)
    decreases |b|
  {
    if b == [] {
      assert a + b == a;
    } else {
      SwapsJoin(exchange, a, b[..|b| - 1]);
      assert (a + b)[..|a + b| - 1] == a + b[..|b| - 1];
    }
  }

  lemma {:induction false} NoSwapsIn<S>(exchange: Exchange<S>, a: seq<Planned>)
    requires forall i :: 0 <= i < |a| ==> !exchange.isSwap(a[i].program)
    ensures SwapsIn(exchange, a) == []
    decreases |a|
  {
    if a == [] {
    } else {
      NoSwapsIn(exchange, a[..|a| - 1]);
    }
  }

  lemma {:induction false} HopsAreMeant<S>(encoder: Encoder<S>, exchange: Exchange<S>, orders: seq<Order>)
    requires Exchanges(encoder, exchange, orders)
    ensures SwapsIn(exchange, Hops(encoder, orders)) == Wanted(Meant(encoder, orders))
    decreases |orders|
  {
    if orders == [] {
    } else {
      var n := |orders| - 1;
      HopsAreMeant(encoder, exchange, orders[..n]);
      assert ReadsBack(encoder, exchange, orders[n]);
      assert Hops(encoder, orders)[..n] == Hops(encoder, orders[..n]);
      assert Wanted(Meant(encoder, orders)) == Wanted(Meant(encoder, orders[..n])) + [Some(encoder.meant(orders[n]))];
    }
  }

  /** The decoder finds exactly the swaps that were meant. */
  lemma LaidIsMeant<S>(chain: Chain, encoder: Encoder<S>, exchange: Exchange<S>, d: Draft, stage: SolanaSwap.Stage)
    requires Ready(d) && Apart(chain, exchange) && Exchanges(encoder, exchange, Orders(d, stage))
    ensures SwapsIn(exchange, Laid(chain, encoder, d, stage)) == Wanted(Meant(encoder, Orders(d, stage)))
  {
    var budget, opens := StageBudget(chain, d, stage), OpenAll(chain, d.user, d.plan.creates);
    var wraps, hops, close := Wrapping(chain, d), Hops(encoder, Orders(d, stage)), Unwrapping(chain, d, stage);
    NoSwapsIn(exchange, budget);
    NoSwapsIn(exchange, opens);
    NoSwapsIn(exchange, wraps);
    NoSwapsIn(exchange, close);
    HopsAreMeant(encoder, exchange, Orders(d, stage));
    SwapsJoin(exchange, hops, close);
    SwapsJoin(exchange, wraps, hops + close);
    SwapsJoin(exchange, opens, wraps + (hops + close));
    SwapsJoin(exchange, budget, opens + (wraps + (hops + close)));
  }

  predicate Modest(want: Planned, user: Key) {
    SignsAlone(want.accounts, user) && |want.accounts| <= MAX_POOL_ACCOUNTS && |want.data| < 128
  }

  predicate AllModest(want: seq<Planned>, user: Key) {
    forall i :: 0 <= i < |want| ==> Modest(want[i], user)
  }

  lemma ModestJoin(a: seq<Planned>, b: seq<Planned>, user: Key)
    requires AllModest(a, user) && AllModest(b, user)
    ensures AllModest(a + b, user)
  {
  }

  lemma HopsAreModest<S>(encoder: Encoder<S>, exchange: Exchange<S>, d: Draft, stage: SolanaSwap.Stage)
    requires Ready(d) && Exchanges(encoder, exchange, Orders(d, stage))
    ensures AllModest(Hops(encoder, Orders(d, stage)), d.user)
  {
    var orders := Orders(d, stage);
    forall i | 0 <= i < |orders| ensures Modest(Hops(encoder, orders)[i], d.user) {
      assert ReadsBack(encoder, exchange, orders[i]) && orders[i].user == d.user;
    }
  }

  lemma PartsAreModest(chain: Chain, d: Draft, stage: SolanaSwap.Stage)
    requires Ready(d)
    ensures AllModest(StageBudget(chain, d, stage), d.user) && AllModest(OpenAll(chain, d.user, d.plan.creates), d.user)
    ensures AllModest(Wrapping(chain, d), d.user) && AllModest(Unwrapping(chain, d, stage), d.user)
  {
  }

  lemma LaidIsModest<S>(chain: Chain, encoder: Encoder<S>, exchange: Exchange<S>, d: Draft, stage: SolanaSwap.Stage)
    requires Ready(d) && Exchanges(encoder, exchange, Orders(d, stage))
    ensures AllModest(Laid(chain, encoder, d, stage), d.user) && |Laid(chain, encoder, d, stage)| <= 10
  {
    var budget, opens := StageBudget(chain, d, stage), OpenAll(chain, d.user, d.plan.creates);
    var wraps, hops, close := Wrapping(chain, d), Hops(encoder, Orders(d, stage)), Unwrapping(chain, d, stage);
    PartsAreModest(chain, d, stage);
    HopsAreModest(encoder, exchange, d, stage);
    ModestJoin(hops, close, d.user);
    ModestJoin(wraps, hops + close, d.user);
    ModestJoin(opens, wraps + (hops + close), d.user);
    ModestJoin(budget, opens + (wraps + (hops + close)), d.user);
  }

  lemma ModestPasses(want: seq<Planned>, user: Key)
    requires AllModest(want, user) && |want| <= 10
    ensures PayerSignsAlone(want, user) && Encodable(want)
  {
    forall i | 0 <= i < |want| ensures SignsAlone(want[i].accounts, user) { assert Modest(want[i], user); }
    forall i | 0 <= i < |want| ensures |want[i].accounts| < SIZE_LIMIT && |want[i].data| < SIZE_LIMIT {
      assert Modest(want[i], user);
    }
  }

  /** Layouts a serializer may choose: one without lookup tables, one that loads what it can from them. */
  datatype Choice = Choice(plain: Layout, loading: Layout, lookups: seq<Lookup>)

  ghost predicate Possible(c: Choice, payer: Key, want: seq<Planned>, tables: Tables) {
    && c.plain.Lays(payer, want) && c.plain.writable == [] && c.plain.readonly == []
    && c.loading.Lays(payer, want) && Loads(c.loading, c.lookups, tables)
    && |c.lookups| < SIZE_LIMIT && forall l :: l in c.lookups ==> EncodableLookup(l)
  }

  function PlainMessage(c: Choice, payer: Key, blockhash: Key, want: seq<Planned>, tables: Tables): Bytes
    requires Possible(c, payer, want, tables) && Encodable(want)
  {
    LegacyCompiles(c.plain, payer, blockhash, want);
    EncodeLegacy(Message(c.plain.Header(), c.plain.staticKeys, blockhash, Compile(c.plain, payer, want)))
  }

  function LoadingMessage(c: Choice, payer: Key, blockhash: Key, want: seq<Planned>, tables: Tables): Bytes
    requires Possible(c, payer, want, tables) && Encodable(want)
  {
    CompiledIsEncodable(c.loading, payer, blockhash, want);
    EncodeV0(Opening(c.loading.Header(), c.loading.staticKeys, blockhash), Compile(c.loading, payer, want), c.lookups)
  }

  /** A legacy message when the signed transaction fits or nothing can be loaded, otherwise a version 0 message. */
  function BuildMessage(c: Choice, payer: Key, blockhash: Key, want: seq<Planned>, tables: Tables): Bytes
    requires Possible(c, payer, want, tables) && Encodable(want)
  {
    var plain := PlainMessage(c, payer, blockhash, want, tables);
    if |plain| + SIGNATURE <= MAX_TRANSACTION || tables == map[] then plain
    else LoadingMessage(c, payer, blockhash, want, tables)
  }

  /** Both messages of any choice pass. */
  lemma EitherMessagePasses<S>(
    c: Choice, payer: Key, blockhash: Key, want: seq<Planned>, tables: Tables, swaps: seq<S>, exchange: Exchange<S>)
    requires Possible(c, payer, want, tables) && Encodable(want) && PayerSignsAlone(want, payer)
    requires SwapsIn(exchange, want) == Wanted(swaps)
    ensures SwapIs(PlainMessage(c, payer, blockhash, want, tables), payer, blockhash, want, swaps, tables, exchange)
    ensures SwapIs(LoadingMessage(c, payer, blockhash, want, tables), payer, blockhash, want, swaps, tables, exchange)
  {
    LegacySwapCompiles(c.plain, payer, blockhash, want, tables, swaps, exchange);
    V0Compiles(c.loading, payer, blockhash, want, c.lookups, tables, swaps, exchange);
  }

  /** What the checker asks of a list beside its message. */
  predicate Passes<S(==)>(exchange: Exchange<S>, want: seq<Planned>, payer: Key, swaps: seq<S>) {
    Encodable(want) && PayerSignsAlone(want, payer) && SwapsIn(exchange, want) == Wanted(swaps)
  }

  lemma LaidPasses<S>(chain: Chain, encoder: Encoder<S>, exchange: Exchange<S>, d: Draft, stage: SolanaSwap.Stage)
    requires Ready(d) && Apart(chain, exchange) && Exchanges(encoder, exchange, Orders(d, stage))
    ensures Passes(exchange, Laid(chain, encoder, d, stage), d.user, Meant(encoder, Orders(d, stage)))
  {
    LaidIsMeant(chain, encoder, exchange, d, stage);
    LaidIsModest(chain, encoder, exchange, d, stage);
    ModestPasses(Laid(chain, encoder, d, stage), d.user);
  }

  /** The message built for any list that passes is accepted. */
  lemma BuiltPasses<S>(
    c: Choice, payer: Key, blockhash: Key, want: seq<Planned>, tables: Tables, swaps: seq<S>, exchange: Exchange<S>)
    requires Possible(c, payer, want, tables) && Passes(exchange, want, payer, swaps)
    ensures SwapIs(BuildMessage(c, payer, blockhash, want, tables), payer, blockhash, want, swaps, tables, exchange)
  {
    EitherMessagePasses(c, payer, blockhash, want, tables, swaps, exchange);
  }

  /** A message that takes no more than a transaction holds, once signed. */
  predicate HoldsSigned(message: Bytes) {
    |message| + SIGNATURE <= MAX_TRANSACTION
  }

  /**
   The message built fits exactly if one of the two does, a version 0 one only counting where
   there are tables to load from, and it is a version 0 one only where it has to be.
   */
  lemma SmallestIsBuilt(c: Choice, payer: Key, blockhash: Key, want: seq<Planned>, tables: Tables)
    requires Possible(c, payer, want, tables) && Encodable(want)
    ensures var plain := PlainMessage(c, payer, blockhash, want, tables);
            var loading := LoadingMessage(c, payer, blockhash, want, tables);
            var built := BuildMessage(c, payer, blockhash, want, tables);
            && (HoldsSigned(built) <==> HoldsSigned(plain) || (tables != map[] && HoldsSigned(loading)))
            && (|built| > 0 && built[0] == 128 <==> !HoldsSigned(plain) && tables != map[])
  {
    LegacyCompiles(c.plain, payer, blockhash, want);
    CompiledIsEncodable(c.loading, payer, blockhash, want);
    FirstByteIsTheHeader(Message(c.plain.Header(), c.plain.staticKeys, blockhash, Compile(c.plain, payer, want)));
  }

  /**
   Every swap the planner lays out passes its check, whichever version its size calls for and
   whatever order of accounts the serializer chose.
   */
  lemma EverySwapPasses<S>(
    chain: Chain, encoder: Encoder<S>, exchange: Exchange<S>, d: Draft, stage: SolanaSwap.Stage, c: Choice,
    blockhash: Key, tables: Tables)
    requires Ready(d) && Apart(chain, exchange) && Exchanges(encoder, exchange, Orders(d, stage))
    requires Possible(c, d.user, Laid(chain, encoder, d, stage), tables)
    ensures var want := Laid(chain, encoder, d, stage);
            && Encodable(want)
            && SwapIs(BuildMessage(c, d.user, blockhash, want, tables), d.user, blockhash, want,
                      Meant(encoder, Orders(d, stage)), tables, exchange)
  {
    LaidPasses(chain, encoder, exchange, d, stage);
    BuiltPasses(c, d.user, blockhash, Laid(chain, encoder, d, stage), tables,
        Meant(encoder, Orders(d, stage)), exchange);
  }

  // --------------------------------------------------------- there are layouts

  /** How many programs and accounts the instructions mention, counting repetitions. */
  function Mentions(want: seq<Planned>): nat {
    if want == [] then 0 else Mentions(want[..|want| - 1]) + |want[|want| - 1].accounts| + 1
  }

  lemma {:induction false} MentionsJoin(a: seq<Planned>, b: seq<Planned>)
    ensures Mentions(a + b) == Mentions(a) + Mentions(b)
    decreases |b|
  {
    if b == [] {
      assert a + b == a;
    } else {
      MentionsJoin(a, b[..|b| - 1]);
      assert (a + b)[..|a + b| - 1] == a + b[..|b| - 1];
    }
  }

  lemma {:induction false} EachMentionsAtMost(want: seq<Planned>, n: nat)
    requires forall i :: 0 <= i < |want| ==> |want[i].accounts| < n
    ensures Mentions(want) <= n * |want|
    decreases |want|
  {
    if want == [] {
    } else {
      EachMentionsAtMost(want[..|want| - 1], n);
      assert n * |want| == n * (|want| - 1) + n;
    }
  }

  lemma UsesAtMost(want: Planned)
    ensures |UsedBy(want)| <= |want.accounts| + 1
  {
    AtMostAsMany([want.program] + KeysOf(want.accounts));
    forall k | k in UsedBy(want) ensures k in KeySet([want.program] + KeysOf(want.accounts)) {
      if k != want.program {
        var j :| 0 <= j < |want.accounts| && want.accounts[j].key == k;
        assert ([want.program] + KeysOf(want.accounts))[j + 1] == k;
      }
    }
    SubsetSize(UsedBy(want), KeySet([want.program] + KeysOf(want.accounts)));
  }

  lemma {:induction false} TouchesAtMost(want: seq<Planned>)
    ensures |Touched(want)| <= Mentions(want)
    decreases |want|
  {
    if want == [] {
      assert Touched(want) == {};
    } else {
      var n := |want| - 1;
      TouchesAtMost(want[..n]);
      OneMorePlanned(want, n);
      assert want[..n + 1] == want;
      UsesAtMost(want[n]);
    }
  }

  lemma PartsMention(chain: Chain, d: Draft, stage: SolanaSwap.Stage)
    requires Ready(d)
    ensures Mentions(StageBudget(chain, d, stage)) <= 2 && Mentions(OpenAll(chain, d.user, d.plan.creates)) <= 21
    ensures Mentions(Wrapping(chain, d)) <= 8 && Mentions(Unwrapping(chain, d, stage)) <= 4
  {
    EachMentionsAtMost(StageBudget(chain, d, stage), 1);
    EachMentionsAtMost(OpenAll(chain, d.user, d.plan.creates), 7);
    EachMentionsAtMost(Wrapping(chain, d), 4);
    EachMentionsAtMost(Unwrapping(chain, d, stage), 4);
  }

  lemma HopsMention<S>(encoder: Encoder<S>, exchange: Exchange<S>, d: Draft, stage: SolanaSwap.Stage)
    requires Ready(d) && Exchanges(encoder, exchange, Orders(d, stage))
    ensures Mentions(Hops(encoder, Orders(d, stage))) <= 66
  {
    var hops := Hops(encoder, Orders(d, stage));
    HopsAreModest(encoder, exchange, d, stage);
    forall i | 0 <= i < |hops| ensures |hops[i].accounts| < 33 { assert Modest(hops[i], d.user); }
    EachMentionsAtMost(hops, 33);
  }

  lemma LaidMentions<S>(chain: Chain, encoder: Encoder<S>, exchange: Exchange<S>, d: Draft, stage: SolanaSwap.Stage)
    requires Ready(d) && Exchanges(encoder, exchange, Orders(d, stage))
    ensures Mentions(Laid(chain, encoder, d, stage)) <= 101
  {
    var budget, opens := StageBudget(chain, d, stage), OpenAll(chain, d.user, d.plan.creates);
    var wraps, hops, close := Wrapping(chain, d), Hops(encoder, Orders(d, stage)), Unwrapping(chain, d, stage);
    PartsMention(chain, d, stage);
    HopsMention(encoder, exchange, d, stage);
    MentionsJoin(hops, close);
    MentionsJoin(wraps, hops + close);
    MentionsJoin(opens, wraps + (hops + close));
    MentionsJoin(budget, opens + (wraps + (hops + close)));
  }

  /** A serializer always has a choice, so some message of the swap passes its check. */
  lemma EverySwapHasAMessage<S>(
    chain: Chain, encoder: Encoder<S>, exchange: Exchange<S>, d: Draft, stage: SolanaSwap.Stage, blockhash: Key,
    tables: Tables) returns (c: Choice)
    requires Ready(d) && Apart(chain, exchange) && Exchanges(encoder, exchange, Orders(d, stage))
    ensures var want := Laid(chain, encoder, d, stage);
            && Possible(c, d.user, want, tables) && Encodable(want)
            && SwapIs(BuildMessage(c, d.user, blockhash, want, tables), d.user, blockhash, want,
                      Meant(encoder, Orders(d, stage)), tables, exchange)
  {
    var want := Laid(chain, encoder, d, stage);
    LaidMentions(chain, encoder, exchange, d, stage);
    TouchesAtMost(want);
    var layout := EveryPlanHasALayout(d.user, want);
    c := Choice(layout, layout, []);
    EverySwapPasses(chain, encoder, exchange, d, stage, c, blockhash, tables);
  }

  // --------------------------------------- what an accepted message really does

  /** What one call does to the user's wallet, read from its accounts and bytes; None for anything else. */
  function Does<S>(chain: Chain, encoder: Encoder<S>, exchange: Exchange<S>, user: Key, call: Call): Option<seq<Op>> {
    var accounts, data := call.accounts, call.data;
    if call.program == chain.computeBudget then Some([])
    else if call.program == chain.associatedToken then
      if |accounts| == 6 && accounts[0] == user && accounts[2] == user && data == [1]
      then Some([Open(accounts[1], accounts[3])]) else None
    else if call.program == chain.system then
      if |accounts| == 2 && accounts[0] == user && |data| == 12 && data[..4] == U32(2)
      then Some([Fund(accounts[1], FromLE(data[4..]))]) else None
    else if call.program == chain.token then
      if |accounts| == 1 && data == [17] then Some([Sync(accounts[0])])
      else if |accounts| == 3 && accounts[1] == user && accounts[2] == user && data == [9]
      then Some([SwapLedger.Close(accounts[0])]) else None
    else if exchange.isSwap(call.program) then
      match Decoded(exchange, call)
      case None => None
      case Some(swap) =>
        var o := encoder.order(swap);
        if o.user == user then Some([Trade(o.pool, o.inMint, o.outMint, o.source, o.destination, o.amount, o.minOut)])
        else None
    else None
  }

  function DoAll<S>(
    chain: Chain, encoder: Encoder<S>, exchange: Exchange<S>, user: Key, calls: seq<Call>): Option<seq<Op>>
  {
    if calls == [] then Some([])
    else match (Does(chain, encoder, exchange, user, calls[0]), DoAll(chain, encoder, exchange, user, calls[1..]))
      case (Some(first), Some(rest)) => Some(first + rest)
      case _ => None
  }

  lemma JoinsAssociate(a: seq<Op>, b: seq<Op>, c: seq<Op>)
    ensures a + (b + c) == (a + b) + c
  {
  }

  lemma {:induction false} DoAllJoins<S>(
    chain: Chain, encoder: Encoder<S>, exchange: Exchange<S>, user: Key, a: seq<Call>, b: seq<Call>,
    x: seq<Op>, y: seq<Op>)
    requires DoAll(chain, encoder, exchange, user, a) == Some(x)
    requires DoAll(chain, encoder, exchange, user, b) == Some(y)
    ensures DoAll(chain, encoder, exchange, user, a + b) == Some(x + y)
    decreases |a|
  {
    if a == [] {
      assert a + b == b && x + y == y;
    } else {
      var first := Does(chain, encoder, exchange, user, a[0]).value;
      var rest := DoAll(chain, encoder, exchange, user, a[1..]).value;
      DoAllJoins(chain, encoder, exchange, user, a[1..], b, rest, y);
      assert (a + b)[0] == a[0] && (a + b)[1..] == a[1..] + b;
      JoinsAssociate(first, rest, y);
    }
  }

  lemma {:induction false} EachDoes<S>(
    chain: Chain, encoder: Encoder<S>, exchange: Exchange<S>, user: Key, calls: seq<Call>, ops: seq<Op>)
    requires |calls| == |ops|
    requires forall i :: 0 <= i < |calls| ==> Does(chain, encoder, exchange, user, calls[i]) == Some([ops[i]])
    ensures DoAll(chain, encoder, exchange, user, calls) == Some(ops)
    decreases |calls|
  {
    if calls == [] {
    } else {
      EachDoes(chain, encoder, exchange, user, calls[1..], ops[1..]);
      assert [ops[0]] + ops[1..] == ops;
    }
  }

  lemma {:induction false} BudgetsDoNothing<S>(
    chain: Chain, encoder: Encoder<S>, exchange: Exchange<S>, user: Key, calls: seq<Call>)
    requires forall i :: 0 <= i < |calls| ==> calls[i].program == chain.computeBudget
    ensures DoAll(chain, encoder, exchange, user, calls) == Some([])
    decreases |calls|
  {
    if calls == [] {
    } else {
      BudgetsDoNothing(chain, encoder, exchange, user, calls[1..]);
      var none: seq<Op> := [];
      assert none + none == none;
    }
  }

  lemma OpeningDoes<S>(
    chain: Chain, encoder: Encoder<S>, exchange: Exchange<S>, user: Key, creates: seq<SolanaSwap.Create>)
    requires Apart(chain, exchange)
    ensures DoAll(chain, encoder, exchange, user, AskedAll(OpenAll(chain, user, creates)))
         == Some(SolanaSwap.OpensOf(creates))
  {
    var calls, ops := AskedAll(OpenAll(chain, user, creates)), SolanaSwap.OpensOf(creates);
    forall i | 0 <= i < |calls| ensures Does(chain, encoder, exchange, user, calls[i]) == Some([ops[i]]) {
      assert calls[i].accounts == [user, creates[i].account, user, creates[i].mint, chain.system, chain.token];
    }
    EachDoes(chain, encoder, exchange, user, calls, ops);
  }

  lemma FundingDoes<S>(
    chain: Chain, encoder: Encoder<S>, exchange: Exchange<S>, user: Key, account: Key, amount: u64)
    requires Apart(chain, exchange)
    ensures Does(chain, encoder, exchange, user, Asked(SendSol(chain, user, account, amount)))
              == Some([Fund(account, amount)])
    ensures Does(chain, encoder, exchange, user, Asked(SyncNative(chain, account))) == Some([Sync(account)])
    ensures Does(chain, encoder, exchange, user, Asked(CloseOne(chain, user, account)))
         == Some([SwapLedger.Close(account)])
  {
    var data := U32(2) + U64(amount);
    assert data[..4] == U32(2) && data[4..] == U64(amount);
    U64ReadsBack(amount);
    assert KeysOf([Pays(user), Writes(account)]) == [user, account];
    assert KeysOf([Writes(account)]) == [account];
    assert KeysOf([Writes(account), Writes(user), Signs(user)]) == [account, user, user];
  }

  lemma WrappingDoes<S>(chain: Chain, encoder: Encoder<S>, exchange: Exchange<S>, d: Draft, stage: SolanaSwap.Stage)
    requires Ready(d) && Apart(chain, exchange)
    ensures DoAll(chain, encoder, exchange, d.user, AskedAll(Wrapping(chain, d)))
         == Some(SolanaSwap.Wraps(d.plan, d.sellsSol))
    ensures DoAll(chain, encoder, exchange, d.user, AskedAll(Unwrapping(chain, d, stage)))
         == Some(SolanaSwap.Closes(d.plan, stage))
  {
    if d.plan.wsol.Some? { FundingDoes(chain, encoder, exchange, d.user, d.plan.wsol.value, d.plan.amountIn); }
    EachDoes(chain, encoder, exchange, d.user, AskedAll(Wrapping(chain, d)), SolanaSwap.Wraps(d.plan, d.sellsSol));
    EachDoes(chain, encoder, exchange, d.user, AskedAll(Unwrapping(chain, d, stage)), SolanaSwap.Closes(d.plan, stage));
  }

  lemma HopsDo<S>(chain: Chain, encoder: Encoder<S>, exchange: Exchange<S>, d: Draft, stage: SolanaSwap.Stage)
    requires Ready(d) && Apart(chain, exchange) && Exchanges(encoder, exchange, Orders(d, stage))
    ensures DoAll(chain, encoder, exchange, d.user, AskedAll(Hops(encoder, Orders(d, stage))))
         == Some(SolanaSwap.Trades(d.plan, stage))
  {
    var orders, ops := Orders(d, stage), SolanaSwap.Trades(d.plan, stage);
    var calls := AskedAll(Hops(encoder, orders));
    assert |orders| == |ops|;
    forall i | 0 <= i < |calls| ensures Does(chain, encoder, exchange, d.user, calls[i]) == Some([ops[i]]) {
      assert ReadsBack(encoder, exchange, orders[i]);
    }
    EachDoes(chain, encoder, exchange, d.user, calls, ops);
  }

  lemma PlannedJoins<S>(
    chain: Chain, encoder: Encoder<S>, exchange: Exchange<S>, user: Key, a: seq<Planned>, b: seq<Planned>,
    x: seq<Op>, y: seq<Op>)
    requires DoAll(chain, encoder, exchange, user, AskedAll(a)) == Some(x)
    requires DoAll(chain, encoder, exchange, user, AskedAll(b)) == Some(y)
    ensures DoAll(chain, encoder, exchange, user, AskedAll(a + b)) == Some(x + y)
  {
    AskedJoin(a, b);
    DoAllJoins(chain, encoder, exchange, user, AskedAll(a), AskedAll(b), x, y);
  }

  /** What follows the compute budget and the openings. */
  lemma BodyDoes<S>(chain: Chain, encoder: Encoder<S>, exchange: Exchange<S>, d: Draft, stage: SolanaSwap.Stage)
    requires Ready(d) && Apart(chain, exchange) && Exchanges(encoder, exchange, Orders(d, stage))
    ensures DoAll(chain, encoder, exchange, d.user,
              AskedAll(Wrapping(chain, d) + (Hops(encoder, Orders(d, stage)) + Unwrapping(chain, d, stage))))
         == Some(SolanaSwap.Wraps(d.plan, d.sellsSol)
                 + (SolanaSwap.Trades(d.plan, stage) + SolanaSwap.Closes(d.plan, stage)))
  {
    var wraps, hops, close := Wrapping(chain, d), Hops(encoder, Orders(d, stage)), Unwrapping(chain, d, stage);
    var trades, closing := SolanaSwap.Trades(d.plan, stage), SolanaSwap.Closes(d.plan, stage);
    WrappingDoes(chain, encoder, exchange, d, stage);
    HopsDo(chain, encoder, exchange, d, stage);
    PlannedJoins(chain, encoder, exchange, d.user, hops, close, trades, closing);
    PlannedJoins(chain, encoder, exchange, d.user, wraps, hops + close, SolanaSwap.Wraps(d.plan, d.sellsSol),
      trades + closing);
  }

  /** The bytes of a stage do what the plan's operations say, and nothing else. */
  lemma LaidDoes<S>(chain: Chain, encoder: Encoder<S>, exchange: Exchange<S>, d: Draft, stage: SolanaSwap.Stage)
    requires Ready(d) && Apart(chain, exchange) && Exchanges(encoder, exchange, Orders(d, stage))
    ensures DoAll(chain, encoder, exchange, d.user, AskedAll(Laid(chain, encoder, d, stage)))
         == Some(SolanaSwap.Instructions(d.plan, d.sellsSol, stage))
  {
    var budget, opens := StageBudget(chain, d, stage), OpenAll(chain, d.user, d.plan.creates);
    var body := Wrapping(chain, d) + (Hops(encoder, Orders(d, stage)) + Unwrapping(chain, d, stage));
    var opening, rest := SolanaSwap.OpensOf(d.plan.creates), SolanaSwap.Wraps(d.plan, d.sellsSol)
      + (SolanaSwap.Trades(d.plan, stage) + SolanaSwap.Closes(d.plan, stage));
    BudgetsDoNothing(chain, encoder, exchange, d.user, AskedAll(budget));
    OpeningDoes(chain, encoder, exchange, d.user, d.plan.creates);
    BodyDoes(chain, encoder, exchange, d, stage);
    PlannedJoins(chain, encoder, exchange, d.user, opens, body, opening, rest);
    PlannedJoins(chain, encoder, exchange, d.user, budget, opens + body, [], opening + rest);
    InstructionsAre(d.plan, d.sellsSol, stage);
  }

  lemma InstructionsAre(p: SolanaSwap.Plan, sellsSol: bool, stage: SolanaSwap.Stage)
    requires SolanaSwap.Complete(p)
    ensures SolanaSwap.Instructions(p, sellsSol, stage)
         == [] + (SolanaSwap.OpensOf(p.creates)
                  + (SolanaSwap.Wraps(p, sellsSol) + (SolanaSwap.Trades(p, stage) + SolanaSwap.Closes(p, stage))))
  {
  }

  lemma AcceptedCalls<S>(
    message: Bytes, payer: Key, blockhash: Key, want: seq<Planned>, swaps: seq<S>, tables: Tables,
    exchange: Exchange<S>)
    requires SwapIs(message, payer, blockhash, want, swaps, tables, exchange)
    ensures var m := DecodeSwap(message, tables).value;
            AllResolvable(m.instructions, |m.keys|, |m.keys|) && CallsOf(m) == AskedAll(want)
  {
    var m := DecodeSwap(message, tables).value;
    SwapIsResolvable(message, tables);
    StaticIsEnough(m.instructions, m.staticKeys, |m.keys|);
    ExactCalls(m, payer, blockhash, want);
  }

  /** What the calls of a message do to the user's wallet. */
  function Effects<S>(
    chain: Chain, encoder: Encoder<S>, exchange: Exchange<S>, user: Key, message: Bytes,
    tables: Tables): Option<seq<Op>>
  {
    match DecodeSwap(message, tables)
    case None => None
    case Some(m) =>
      if AllResolvable(m.instructions, |m.keys|, |m.keys|)
          then DoAll(chain, encoder, exchange, user, CallsOf(m)) else None
  }

  predicate NoneRuns(want: seq<Planned>, program: Key) {
    forall i :: 0 <= i < |want| ==> want[i].program != program
  }

  lemma NoneRunsJoin(a: seq<Planned>, b: seq<Planned>, program: Key)
    requires NoneRuns(a, program) && NoneRuns(b, program)
    ensures NoneRuns(a + b, program)
  {
  }

  lemma BudgetedList(chain: Chain, limit: u32, price: u64, rest: seq<Planned>)
    requires NoneRuns(rest, chain.computeBudget)
    ensures Budgeted(chain.computeBudget, AskedAll(Budget(chain, limit, price) + rest), limit, price)
  {
    var all := Budget(chain, limit, price) + rest;
    BudgetIsRead(chain, limit, price);
    assert all[0] == Budget(chain, limit, price)[0] && all[1] == Budget(chain, limit, price)[1];
    forall i | 2 <= i < |all| ensures all[i].program != chain.computeBudget { assert all[i] == rest[i - 2]; }
  }

  lemma PartsRunNoBudget<S>(
    chain: Chain, encoder: Encoder<S>, exchange: Exchange<S>, d: Draft, stage: SolanaSwap.Stage)
    requires Ready(d) && Apart(chain, exchange) && Exchanges(encoder, exchange, Orders(d, stage))
    ensures NoneRuns(OpenAll(chain, d.user, d.plan.creates), chain.computeBudget)
    ensures NoneRuns(Wrapping(chain, d), chain.computeBudget)
    ensures NoneRuns(Hops(encoder, Orders(d, stage)), chain.computeBudget)
    ensures NoneRuns(Unwrapping(chain, d, stage), chain.computeBudget)
  {
    var orders := Orders(d, stage);
    forall i | 0 <= i < |orders| ensures Hops(encoder, orders)[i].program != chain.computeBudget {
      assert ReadsBack(encoder, exchange, orders[i]);
    }
  }

  /** Nothing but the first two calls touches the compute budget. */
  lemma LaidIsBudgeted<S>(chain: Chain, encoder: Encoder<S>, exchange: Exchange<S>, d: Draft, stage: SolanaSwap.Stage)
    requires Ready(d) && Apart(chain, exchange) && Exchanges(encoder, exchange, Orders(d, stage))
    ensures Budgeted(chain.computeBudget, AskedAll(Laid(chain, encoder, d, stage)),
              StageLimit(d, stage), StagePrice(d, stage))
  {
    var opens, wraps := OpenAll(chain, d.user, d.plan.creates), Wrapping(chain, d);
    var hops, close := Hops(encoder, Orders(d, stage)), Unwrapping(chain, d, stage);
    PartsRunNoBudget(chain, encoder, exchange, d, stage);
    NoneRunsJoin(hops, close, chain.computeBudget);
    NoneRunsJoin(wraps, hops + close, chain.computeBudget);
    NoneRunsJoin(opens, wraps + (hops + close), chain.computeBudget);
    BudgetedList(chain, StageLimit(d, stage), StagePrice(d, stage), opens + (wraps + (hops + close)));
  }

  /** A message the checker accepts for a stage does exactly the planned operations. */
  lemma AcceptedSwapDoesThePlan<S>(
    chain: Chain, encoder: Encoder<S>, exchange: Exchange<S>, d: Draft, stage: SolanaSwap.Stage,
    message: Bytes, blockhash: Key, swaps: seq<S>, tables: Tables)
    requires Ready(d) && Apart(chain, exchange) && Exchanges(encoder, exchange, Orders(d, stage))
    requires SwapIs(message, d.user, blockhash, Laid(chain, encoder, d, stage), swaps, tables, exchange)
    ensures Effects(chain, encoder, exchange, d.user, message, tables)
         == Some(SolanaSwap.Instructions(d.plan, d.sellsSol, stage))
  {
    AcceptedCalls(message, d.user, blockhash, Laid(chain, encoder, d, stage), swaps, tables, exchange);
    LaidDoes(chain, encoder, exchange, d, stage);
  }

  /** A message that passes for two signed swaps has one signer, one fee, and one effect. */
  lemma OneSwapPerMessage<S>(
    chain: Chain, encoder: Encoder<S>, exchange: Exchange<S>, a: Draft, b: Draft, message: Bytes,
    ha: Key, hb: Key, sa: seq<S>, sb: seq<S>, tables: Tables)
    requires Ready(a) && Apart(chain, exchange) && Exchanges(encoder, exchange, Orders(a, SolanaSwap.Final))
    requires Ready(b) && Exchanges(encoder, exchange, Orders(b, SolanaSwap.Final))
    requires SwapIs(message, a.user, ha, Laid(chain, encoder, a, SolanaSwap.Final), sa, tables, exchange)
    requires SwapIs(message, b.user, hb, Laid(chain, encoder, b, SolanaSwap.Final), sb, tables, exchange)
    ensures a.user == b.user && a.limit == b.limit && a.price == b.price && ha == hb && sa == sb
    ensures SolanaSwap.Instructions(a.plan, a.sellsSol, SolanaSwap.Final)
         == SolanaSwap.Instructions(b.plan, b.sellsSol, SolanaSwap.Final)
  {
    var x, y := Laid(chain, encoder, a, SolanaSwap.Final), Laid(chain, encoder, b, SolanaSwap.Final);
    var m := DecodeSwap(message, tables).value;
    ExactlyFixesCalls(m, a.user, b.user, ha, hb, x, y);
    BudgetFixes(chain, a.limit, a.price, b.limit, b.price, x[2..], y[2..]);
    AcceptedSwapDoesThePlan(chain, encoder, exchange, a, SolanaSwap.Final, message, ha, sa, tables);
    AcceptedSwapDoesThePlan(chain, encoder, exchange, b, SolanaSwap.Final, message, hb, sb, tables);
    SameSwapsAsked(exchange, x, y);
    forall i | 0 <= i < |sa| ensures i < |sb| && sa[i] == sb[i] {
      assert Wanted(sa)[i] == Wanted(sb)[i];
    }
  }

  lemma {:induction false} SameSwapsAsked<S>(exchange: Exchange<S>, x: seq<Planned>, y: seq<Planned>)
    requires SameAsked(x, y)
    ensures SwapsIn(exchange, x) == SwapsIn(exchange, y)
    decreases |x|
  {
    if x == [] {
    } else {
      SameSwapsAsked(exchange, x[..|x| - 1], y[..|y| - 1]);
      assert Asked(x[|x| - 1]) == Asked(y[|y| - 1]);
    }
  }

  /** The draft of the swap that is signed. */
  function SignedDraft(p: SolanaSwap.Plan, user: Key, sell: SolanaSwap.Asset, limit: u32, price: u64): Draft {
    Draft(p, user, sell.Sol?, limit, price)
  }

  /**
   What the user is promised, of the bytes themselves: they set the approved compute limit
   and price; run the calls of an accepted message on any ledger, and whatever the pools do,
   it honours the minimum, sells exactly the amount, leaves no wrapped SOL behind and keeps
   open only what was announced.
   */
  lemma AcceptedMessageIsHonoured<S>(
    chain: Chain, encoder: Encoder<S>, exchange: Exchange<S>, user: Key, limit: u32, price: u64, message: Bytes,
    blockhash: Key, swaps: seq<S>, tables: Tables, planned: Ledger, w: World, intermediates: set<Key>,
    sell: SolanaSwap.Asset, buy: SolanaSwap.Asset, amountIn: nat, hops: seq<SolanaSwap.Hop>, midOut: u64, bps: nat,
    minOut: nat, before: Ledger, paid: seq<nat>) returns (rent: nat)
    requires w.OneAccountEach() && Sound(before, w) && bps <= Fees.MAX_SLIPPAGE && |paid| == |hops|
    requires SolanaSwap.Signed(planned, w, intermediates, sell, buy, amountIn, hops, midOut, bps, minOut).Some?
    requires var p :=
               SolanaSwap.Signed(planned, w, intermediates, sell, buy, amountIn, hops, midOut, bps, minOut).value;
             var d := SignedDraft(p, user, sell, limit, price);
             && Ready(d) && Apart(chain, exchange) && Exchanges(encoder, exchange, Orders(d, SolanaSwap.Final))
             && SwapIs(message, user, blockhash, Laid(chain, encoder, d, SolanaSwap.Final), swaps, tables, exchange)
    ensures Effects(chain, encoder, exchange, user, message, tables).Some?
    ensures var m := DecodeSwap(message, tables).value;
            && AllResolvable(m.instructions, |m.keys|, |m.keys|)
            && Budgeted(chain.computeBudget, CallsOf(m), limit, price)
    ensures var p := SolanaSwap.Signed(planned, w, intermediates, sell, buy, amountIn, hops, midOut, bps, minOut).value;
            var after := Execute(Effects(chain, encoder, exchange, user, message, tables).value, before, w, paid);
            after.Some? ==> SolanaSwap.Honoured(p, amountIn, minOut, before, after.value, w, paid, rent)
  {
    var p := SolanaSwap.Signed(planned, w, intermediates, sell, buy, amountIn, hops, midOut, bps, minOut).value;
    var d := SignedDraft(p, user, sell, limit, price);
    AcceptedCalls(message, user, blockhash, Laid(chain, encoder, d, SolanaSwap.Final), swaps, tables, exchange);
    LaidIsBudgeted(chain, encoder, exchange, d, SolanaSwap.Final);
    AcceptedSwapDoesThePlan(chain, encoder, exchange, d, SolanaSwap.Final, message, blockhash, swaps, tables);
    rent := SolanaSwap.SignedSwap(planned, w, intermediates, sell, buy, amountIn, hops, midOut, bps, minOut,
        before, paid);
  }
}
