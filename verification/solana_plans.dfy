/**
 What a transfer or a closing of token accounts is compiled from, and what it is
 checked against (internal/chain/solana/transfer.go, intent.go, close.go). The two
 lists are derived separately; the results say when they meet, that one message
 answers to one intent only, and that every plan makes a message that passes.
 */
module SolanaPlans {
  import opened Wrappers
  import opened SolanaCodec
  import opened LittleEndian
  import opened SolanaChecker
  import opened SolanaCalls
  import opened SolanaCompiler

  /** Program ids, and the derivation of a wallet's account for a mint. */
  datatype Chain = Chain(
    computeBudget: Key, system: Key, token: Key, associatedToken: Key, associated: (Key, Key) -> Key)
  {
    /** No two wallets share an account, no two mints do. */
    ghost predicate Injective() {
      forall a, m, b, n :: associated(a, m) == associated(b, n) ==> a == b && m == n
    }
  }

  function Writes(key: Key): Meta { Meta(key, true, false) }
  function Reads(key: Key): Meta { Meta(key, false, false) }
  function Signs(key: Key): Meta { Meta(key, false, true) }
  function Pays(key: Key): Meta { Meta(key, true, true) }

  function Budget(chain: Chain, limit: u32, price: u64): seq<Planned> {
    [Planned(chain.computeBudget, [], [2] + U32(limit)), Planned(chain.computeBudget, [], [3] + U64(price))]
  }

  /** The runtime reads the limit and the price it was given. */
  lemma BudgetIsRead(chain: Chain, limit: u32, price: u64)
    ensures SetsLimit(chain.computeBudget, Asked(Budget(chain, limit, price)[0]), limit)
    ensures SetsPrice(chain.computeBudget, Asked(Budget(chain, limit, price)[1]), price)
  {
    U32ReadsBack(limit);
    U64ReadsBack(price);
    assert ([2] + U32(limit))[1..] == U32(limit) && ([3] + U64(price))[1..] == U64(price);
  }

  // ---------------------------------------------------------------- transfers

  datatype TokenPlan = TokenPlan(mint: Key, decimals: byte, source: Key, destination: Key, createAccount: bool)

  datatype Plan = Plan(from: Key, to: Key, amount: u64, token: Option<TokenPlan>, limit: u32, price: u64)

  datatype TokenIntent = TokenIntent(mint: Key, decimals: byte, createAccount: bool)

  /** What the user asked for: no token account is named. */
  datatype Intent = Intent(payer: Key, to: Key, amount: u64, token: Option<TokenIntent>, limit: u32, price: u64)

  function IntentOf(p: Plan): Intent {
    Intent(p.from, p.to, p.amount,
      match p.token case None => None case Some(t) => Some(TokenIntent(t.mint, t.decimals, t.createAccount)),
      p.limit, p.price)
  }

  function SendSol(chain: Chain, from: Key, to: Key, amount: u64): Planned {
    Planned(chain.system, [Pays(from), Writes(to)], U32(2) + U64(amount))
  }

  function OpenAccount(chain: Chain, payer: Key, account: Key, owner: Key, mint: Key): Planned {
    Planned(chain.associatedToken,
      [Pays(payer), Writes(account), Reads(owner), Reads(mint), Reads(chain.system), Reads(chain.token)], [1])
  }

  function SendToken(chain: Chain, from: Key, source: Key, mint: Key, destination: Key, amount: u64, decimals: byte)
    : Planned
  {
    Planned(chain.token, [Writes(source), Reads(mint), Writes(destination), Signs(from)],
        [12] + U64(amount) + [decimals])
  }

  /** What the transfer is compiled from: the accounts the plan carries. */
  function Built(chain: Chain, p: Plan): seq<Planned> {
    Budget(chain, p.limit, p.price) +
    match p.token
    case None => [SendSol(chain, p.from, p.to, p.amount)]
    case Some(t) =>
      (if t.createAccount then [OpenAccount(chain, p.from, t.destination, p.to, t.mint)] else [])
      + [SendToken(chain, p.from, t.source, t.mint, t.destination, p.amount, t.decimals)]
  }

  /** What it is checked against: the accounts derived again from wallets and mint. */
  function Expected(chain: Chain, i: Intent): seq<Planned> {
    Budget(chain, i.limit, i.price) +
    match i.token
    case None => [SendSol(chain, i.payer, i.to, i.amount)]
    case Some(t) =>
      var source, destination := chain.associated(i.payer, t.mint), chain.associated(i.to, t.mint);
      (if t.createAccount then [OpenAccount(chain, i.payer, destination, i.to, t.mint)] else [])
      + [SendToken(chain, i.payer, source, t.mint, destination, i.amount, t.decimals)]
  }

  /** The plan's token accounts are the wallets' own. */
  predicate OwnAccounts(chain: Chain, p: Plan) {
    match p.token
    case None => true
    case Some(t) => t.source == chain.associated(p.from, t.mint) && t.destination == chain.associated(p.to, t.mint)
  }

  /** The two lists meet exactly when the plan named the right token accounts. */
  lemma BuiltIsExpectedIff(chain: Chain, p: Plan)
    ensures Built(chain, p) == Expected(chain, IntentOf(p)) <==> OwnAccounts(chain, p)
  {
    match p.token
    case None =>
    case Some(t) =>
      var built, expected := Built(chain, p), Expected(chain, IntentOf(p));
      var last := |built| - 1;
      assert built[last] == SendToken(chain, p.from, t.source, t.mint, t.destination, p.amount, t.decimals);
      if built == expected {
        assert built[last].accounts[0] == expected[last].accounts[0];
        assert built[last].accounts[2] == expected[last].accounts[2];
      }
  }

  lemma U32Differ(a: u32, b: u32)
    requires U32(a) == U32(b)
    ensures a == b
  {
    U32ReadsBack(a);
    U32ReadsBack(b);
  }

  lemma U64Differ(a: u64, b: u64)
    requires U64(a) == U64(b)
    ensures a == b
  {
    U64ReadsBack(a);
    U64ReadsBack(b);
  }

  /** The same calls were asked for. */
  predicate SameAsked(a: seq<Planned>, b: seq<Planned>) {
    |a| == |b| && forall i :: 0 <= i < |a| ==> Asked(a[i]) == Asked(b[i])
  }

  lemma ExactlyFixesCalls(m: SwapMessage, pa: Key, pb: Key, ha: Key, hb: Key, a: seq<Planned>, b: seq<Planned>)
    requires Exactly(m, pa, ha, a) && Exactly(m, pb, hb, b)
    ensures pa == pb && ha == hb && SameAsked(a, b)
  {
    forall i | 0 <= i < |a| ensures Asked(a[i]) == Asked(b[i]) {
      assert SameCall(m.keys, m.instructions[i], a[i]) && SameCall(m.keys, m.instructions[i], b[i]);
    }
  }

  lemma BudgetFixes(chain: Chain, l: u32, p: u64, k: u32, q: u64, a: seq<Planned>, b: seq<Planned>)
    requires SameAsked(Budget(chain, l, p) + a, Budget(chain, k, q) + b)
    ensures l == k && p == q && SameAsked(a, b)
  {
    var x, y := Budget(chain, l, p) + a, Budget(chain, k, q) + b;
    assert Asked(x[0]) == Asked(y[0]) && Asked(x[1]) == Asked(y[1]);
    assert ([2] + U32(l))[1..] == U32(l) && ([2] + U32(k))[1..] == U32(k);
    assert ([3] + U64(p))[1..] == U64(p) && ([3] + U64(q))[1..] == U64(q);
    U32Differ(l, k);
    U64Differ(p, q);
    forall i | 0 <= i < |a| ensures Asked(a[i]) == Asked(b[i]) {
      assert x[i + 2] == a[i] && y[i + 2] == b[i];
    }
  }

  lemma SendSolFixes(chain: Chain, f: Key, t: Key, n: u64, g: Key, u: Key, m: u64)
    requires Asked(SendSol(chain, f, t, n)) == Asked(SendSol(chain, g, u, m))
    ensures f == g && t == u && n == m
  {
    assert KeysOf([Pays(f), Writes(t)])[0] == f && KeysOf([Pays(f), Writes(t)])[1] == t;
    assert KeysOf([Pays(g), Writes(u)])[0] == g && KeysOf([Pays(g), Writes(u)])[1] == u;
    assert (U32(2) + U64(n))[4..] == U64(n) && (U32(2) + U64(m))[4..] == U64(m);
    U64Differ(n, m);
  }

  lemma SendTokenFixes(
    chain: Chain, f: Key, s: Key, c: Key, d: Key, n: u64, e: byte, g: Key, t: Key, k: Key, u: Key, m: u64, h: byte)
    requires Asked(SendToken(chain, f, s, c, d, n, e)) == Asked(SendToken(chain, g, t, k, u, m, h))
    ensures f == g && s == t && c == k && d == u && n == m && e == h
  {
    var x, y := [Writes(s), Reads(c), Writes(d), Signs(f)], [Writes(t), Reads(k), Writes(u), Signs(g)];
    assert KeysOf(x)[0] == s && KeysOf(x)[1] == c && KeysOf(x)[2] == d && KeysOf(x)[3] == f;
    assert KeysOf(y)[0] == t && KeysOf(y)[1] == k && KeysOf(y)[2] == u && KeysOf(y)[3] == g;
    var p, q := [12] + U64(n) + [e], [12] + U64(m) + [h];
    assert p[1..9] == U64(n) && q[1..9] == U64(m) && p[9] == e && q[9] == h;
    U64Differ(n, m);
  }

  /** What follows the compute budget. */
  function Body(chain: Chain, i: Intent): seq<Planned> {
    Expected(chain, i)[2..]
  }

  lemma ExpectedParts(chain: Chain, i: Intent)
    ensures Expected(chain, i) == Budget(chain, i.limit, i.price) + Body(chain, i)
  {
  }

  lemma TokenBodyFixes(chain: Chain, a: Intent, b: Intent)
    requires chain.Injective() && a.token.Some? && b.token.Some?
    requires SameAsked(Body(chain, a), Body(chain, b))
    ensures a.payer == b.payer && a.to == b.to && a.amount == b.amount && a.token == b.token
  {
    var x, y := Body(chain, a), Body(chain, b);
    var last := |x| - 1;
    assert Asked(x[last]) == Asked(y[last]);
    var s, t := a.token.value, b.token.value;
    SendTokenFixes(chain, a.payer, chain.associated(a.payer, s.mint), s.mint, chain.associated(a.to, s.mint), a.amount,
      s.decimals, b.payer, chain.associated(b.payer, t.mint), t.mint, chain.associated(b.to, t.mint), b.amount,
      t.decimals);
  }

  lemma BodyFixes(chain: Chain, a: Intent, b: Intent)
    requires chain.Injective() && chain.system != chain.token
    requires SameAsked(Body(chain, a), Body(chain, b))
    ensures a.payer == b.payer && a.to == b.to && a.amount == b.amount && a.token == b.token
  {
    var x, y := Body(chain, a), Body(chain, b);
    var last := |x| - 1;
    assert Asked(x[last]) == Asked(y[last]);
    if a.token.Some? && b.token.Some? {
      TokenBodyFixes(chain, a, b);
    } else {
      assert Asked(x[last]).program == Asked(y[last]).program;
      SendSolFixes(chain, a.payer, a.to, a.amount, b.payer, b.to, b.amount);
    }
  }

  /**
   A message that passes for two intents passes for one: it fixes the payer, the
   recipient, the amount, the token, whether an account is opened, and both parts
   of the fee.
   */
  lemma OneIntentPerMessage(chain: Chain, message: Bytes, a: Intent, ha: Key, b: Intent, hb: Key)
    requires chain.Injective() && chain.system != chain.token
    requires LegacyIs(message, a.payer, ha, Expected(chain, a))
    requires LegacyIs(message, b.payer, hb, Expected(chain, b))
    ensures a == b && ha == hb
  {
    var m := AsSwap(DecodeLegacy(message).value);
    ExactlyFixesCalls(m, a.payer, b.payer, ha, hb, Expected(chain, a), Expected(chain, b));
    ExpectedParts(chain, a);
    ExpectedParts(chain, b);
    BudgetFixes(chain, a.limit, a.price, b.limit, b.price, Body(chain, a), Body(chain, b));
    BodyFixes(chain, a, b);
  }

  // ------------------------------------------------------------------- closing

  datatype ClosePlan = ClosePlan(owner: Key, accounts: seq<Key>, limit: u32, price: u64)

  const MAX_CLOSE_ACCOUNTS: nat := 20

  function CloseOne(chain: Chain, owner: Key, account: Key): Planned {
    Planned(chain.token, [Writes(account), Writes(owner), Signs(owner)], [9])
  }

  function Closings(chain: Chain, owner: Key, accounts: seq<Key>): seq<Planned> {
    seq(|accounts|, i requires 0 <= i < |accounts| => CloseOne(chain, owner, accounts[i]))
  }

  /** The list the message is checked against, one closing for each account in order. */
  function Closing(chain: Chain, c: ClosePlan): seq<Planned> {
    Budget(chain, c.limit, c.price) + Closings(chain, c.owner, c.accounts)
  }

  /** The list the message is compiled from, appended account by account. */
  method BuildClosing(chain: Chain, c: ClosePlan) returns (out: seq<Planned>)
    ensures out == Closing(chain, c)
  {
    out := [];
    for i := 0 to |c.accounts|
      invariant out == Closings(chain, c.owner, c.accounts[..i])
    {
      out := out + [CloseOne(chain, c.owner, c.accounts[i])];
    }
    assert c.accounts[..|c.accounts|] == c.accounts;
    out := Budget(chain, c.limit, c.price) + out;
  }

  /** A message that passes for two closings passes for one. */
  lemma OneClosingPerMessage(chain: Chain, message: Bytes, a: ClosePlan, ha: Key, b: ClosePlan, hb: Key)
    requires LegacyIs(message, a.owner, ha, Closing(chain, a))
    requires LegacyIs(message, b.owner, hb, Closing(chain, b))
    ensures a == b && ha == hb
  {
    var m := AsSwap(DecodeLegacy(message).value);
    ExactlyFixesCalls(m, a.owner, b.owner, ha, hb, Closing(chain, a), Closing(chain, b));
    var x, y := Closings(chain, a.owner, a.accounts), Closings(chain, b.owner, b.accounts);
    BudgetFixes(chain, a.limit, a.price, b.limit, b.price, x, y);
    forall i | 0 <= i < |a.accounts| ensures a.accounts[i] == b.accounts[i] {
      assert Asked(x[i]) == Asked(y[i]);
      assert KeysOf(x[i].accounts)[0] == a.accounts[i] && KeysOf(y[i].accounts)[0] == b.accounts[i];
    }
    assert a.accounts == b.accounts;
  }

  lemma TransferIsNoClosing(chain: Chain, a: Intent, c: ClosePlan)
    ensures !SameAsked(Expected(chain, a), Closing(chain, c))
  {
    var x, y := Expected(chain, a), Closing(chain, c);
    var last := |x| - 1;
    assert last >= 2 && |Asked(x[last]).data| >= 10;
    if |x| == |y| {
      assert y[last] == Closings(chain, c.owner, c.accounts)[last - 2];
      assert Asked(x[last]) != Asked(y[last]);
    }
  }

  /** A message cannot pass both for a transfer and for a closing of accounts. */
  lemma NeverBothTransferAndClosing(chain: Chain, message: Bytes, a: Intent, ha: Key, c: ClosePlan, hc: Key)
    requires LegacyIs(message, a.payer, ha, Expected(chain, a))
    ensures !LegacyIs(message, c.owner, hc, Closing(chain, c))
  {
    TransferIsNoClosing(chain, a, c);
    if LegacyIs(message, c.owner, hc, Closing(chain, c)) {
      var m := AsSwap(DecodeLegacy(message).value);
      ExactlyFixesCalls(m, a.payer, c.owner, ha, hc, Expected(chain, a), Closing(chain, c));
      assert false;
    }
  }

  // ------------------------------------------- every plan makes such a message

  /** Some message, of a length known in advance, passes for the list. */
  ghost predicate Passable(payer: Key, blockhash: Key, want: seq<Planned>, size: nat) {
    exists message: Bytes :: |message| <= size && LegacyIs(message, payer, blockhash, want)
  }

  function SizeOf(want: seq<Planned>): nat {
    if want == [] then 0 else SizeOf(want[..|want| - 1]) + 3 + |want[|want| - 1].accounts| + |want[|want| - 1].data|
  }

  predicate Small(want: seq<Planned>) {
    |want| < 128 && forall i :: 0 <= i < |want| ==> |want[i].accounts| < 128 && |want[i].data| < 128
  }

  lemma {:induction false} KeysTake32Each(keys: seq<Key>)
    ensures |EncodeAll(EncodeKey, keys)| == 32 * |keys|
  {
    if keys == [] {
    } else {
      KeysTake32Each(keys[1..]);
    }
  }

  lemma {:induction false} EncodedAppend<T(!new)>(encode: T -> Bytes, xs: seq<T>, last: T)
    ensures EncodeAll(encode, xs + [last]) == EncodeAll(encode, xs) + encode(last)
    decreases |xs|
  {
    var all := xs + [last];
    if xs == [] {
      assert all[1..] == [];
      assert EncodeAll(encode, all) == encode(last) + EncodeAll(encode, []);
    } else {
      EncodedAppend(encode, xs[1..], last);
      assert all[1..] == xs[1..] + [last];
    }
  }

  lemma {:induction false} InstructionsTake(keys: seq<Key>, raws: seq<Instruction>, want: seq<Planned>)
    requires SameCalls(keys, raws, want) && Small(want)
    requires forall i :: 0 <= i < |raws| ==> raws[i].program < 256
    ensures |EncodeAll(EncodeRaw, raws)| == SizeOf(want)
    decreases |raws|
  {
    if raws == [] {
    } else {
      var n := |raws| - 1;
      forall i | 0 <= i < n ensures SameCall(keys, raws[..n][i], want[..n][i]) {
        assert SameCall(keys, raws[i], want[i]);
      }
      InstructionsTake(keys, raws[..n], want[..n]);
      assert raws == raws[..n] + [raws[n]];
      EncodedAppend(EncodeRaw, raws[..n], raws[n]);
      InstructionTakes(keys, raws[n], want[n]);
    }
  }

  lemma InstructionTakes(keys: seq<Key>, raw: Instruction, want: Planned)
    requires SameCall(keys, raw, want) && raw.program < 256 && |want.accounts| < 128 && |want.data| < 128
    ensures |EncodeRaw(raw)| == 3 + |want.accounts| + |want.data|
  {
    assert |At(keys, raw.accounts)| == |KeysOf(want.accounts)|;
  }

  /** The compiled message of any small plan: its size, and that it passes. */
  lemma SmallPlanPasses(payer: Key, blockhash: Key, want: seq<Planned>)
    requires Small(want) && |{payer} + Touched(want)| < 128
    ensures Passable(payer, blockhash, want, 37 + 32 * |{payer} + Touched(want)| + SizeOf(want))
  {
    var layout := EveryPlanHasALayout(payer, want);
    LegacyCompiles(layout, payer, blockhash, want);
    var m := Message(layout.Header(), layout.staticKeys, blockhash, Compile(layout, payer, want));
    assert layout.Keys() == layout.staticKeys;
    DistinctCount(layout.staticKeys);
    KeysTake32Each(m.keys);
    forall i | 0 <= i < |m.instructions| ensures m.instructions[i].program < 256 {
      assert Resolvable(m.instructions[i], |m.keys|, |m.keys|);
    }
    InstructionsTake(m.keys, m.instructions, want);
    assert |EncodeLegacy(m)| == 37 + 32 * |m.keys| + SizeOf(want);
  }

  lemma {:induction false} AtMostAsMany(keys: seq<Key>)
    ensures |KeySet(keys)| <= |keys|
    decreases |keys|
  {
    if keys == [] {
      assert KeySet(keys) == {};
    } else {
      AtMostAsMany(keys[1..]);
      assert KeySet(keys) == {keys[0]} + KeySet(keys[1..]);
    }
  }

  lemma AccountsAmong(payer: Key, want: seq<Planned>, among: seq<Key>)
    requires payer in among && forall i :: 0 <= i < |want| ==> UsedBy(want[i]) <= KeySet(among)
    ensures |{payer} + Touched(want)| <= |among|
  {
    AtMostAsMany(among);
    forall k | k in Touched(want) ensures k in KeySet(among) {
      var i :| 0 <= i < |want| && k in UsedBy(want[i]);
    }
    SubsetSize({payer} + Touched(want), KeySet(among));
  }

  /** The accounts a transfer can involve. */
  function TransferAccounts(chain: Chain, p: Plan): seq<Key> {
    match p.token
    case None => [p.from, p.to, chain.computeBudget, chain.system]
    case Some(t) =>
      [p.from, p.to, chain.computeBudget, chain.system, t.source, t.destination, t.mint, chain.token,
       chain.associatedToken]
  }

  lemma TransferUses(chain: Chain, p: Plan, i: nat)
    requires i < |Built(chain, p)|
    ensures UsedBy(Built(chain, p)[i]) <= KeySet(TransferAccounts(chain, p))
  {
  }

  lemma TransferPartsAreSmall(chain: Chain, p: Plan)
    ensures Small(Built(chain, p))
  {
  }

  lemma TransferIsSmall(chain: Chain, p: Plan)
    ensures |{p.from} + Touched(Built(chain, p))| <= 9
  {
    var want, among := Built(chain, p), TransferAccounts(chain, p);
    forall i | 0 <= i < |want| ensures UsedBy(want[i]) <= KeySet(among) {
      TransferUses(chain, p, i);
    }
    AccountsAmong(p.from, want, among);
  }

  lemma {:induction false} SizeOfTail(want: seq<Planned>, last: Planned)
    ensures SizeOf(want + [last]) == SizeOf(want) + 3 + |last.accounts| + |last.data|
  {
    assert (want + [last])[..|want|] == want;
  }

  lemma BudgetSize(chain: Chain, limit: u32, price: u64)
    ensures SizeOf(Budget(chain, limit, price)) == 20
  {
    var first := Planned(chain.computeBudget, [], [2] + U32(limit));
    var second := Planned(chain.computeBudget, [], [3] + U64(price));
    SizeOfTail([], first);
    SizeOfTail([first], second);
    assert [] + [first] == [first] && [first] + [second] == Budget(chain, limit, price);
  }

  lemma TransferSize(chain: Chain, p: Plan)
    ensures SizeOf(Built(chain, p)) <= 47
  {
    var budget := Budget(chain, p.limit, p.price);
    BudgetSize(chain, p.limit, p.price);
    match p.token
    case None => SizeOfTail(budget, SendSol(chain, p.from, p.to, p.amount));
    case Some(t) =>
      var send := SendToken(chain, p.from, t.source, t.mint, t.destination, p.amount, t.decimals);
      if t.createAccount {
        var open := OpenAccount(chain, p.from, t.destination, p.to, t.mint);
        SizeOfTail(budget, open);
        SizeOfTail(budget + [open], send);
        assert Built(chain, p) == budget + [open] + [send];
      } else {
        SizeOfTail(budget, send);
        assert Built(chain, p) == budget + [send];
      }
  }

  const MAX_TRANSACTION: nat := 1232
  const SIGNATURE: nat := 65

  /**
   Every transfer whose token accounts are the wallets' own compiles to a message
   that passes the check derived from the intent, and fits one transaction.
   */
  lemma EveryTransferPasses(chain: Chain, p: Plan, blockhash: Key)
    requires OwnAccounts(chain, p)
    ensures Passable(p.from, blockhash, Expected(chain, IntentOf(p)), MAX_TRANSACTION - SIGNATURE)
  {
    BuiltIsExpectedIff(chain, p);
    TransferPartsAreSmall(chain, p);
    TransferIsSmall(chain, p);
    TransferSize(chain, p);
    SmallPlanPasses(p.from, blockhash, Built(chain, p));
  }

  lemma {:induction false} ClosingsSize(chain: Chain, before: seq<Planned>, owner: Key, accounts: seq<Key>)
    ensures SizeOf(before + Closings(chain, owner, accounts)) == SizeOf(before) + 7 * |accounts|
    decreases |accounts|
  {
    var all := before + Closings(chain, owner, accounts);
    if accounts == [] {
      assert all == before;
    } else {
      var n := |accounts| - 1;
      ClosingsSize(chain, before, owner, accounts[..n]);
      SizeOfTail(before + Closings(chain, owner, accounts[..n]), CloseOne(chain, owner, accounts[n]));
      assert all == before + Closings(chain, owner, accounts[..n]) + [CloseOne(chain, owner, accounts[n])];
    }
  }

  function ClosingAccounts(chain: Chain, c: ClosePlan): seq<Key> {
    [c.owner, chain.computeBudget, chain.token] + c.accounts
  }

  lemma ClosingIsSmall(chain: Chain, c: ClosePlan)
    requires |c.accounts| <= MAX_CLOSE_ACCOUNTS
    ensures Small(Closing(chain, c))
    ensures |{c.owner} + Touched(Closing(chain, c))| <= 3 + |c.accounts|
  {
    var want, among := Closing(chain, c), ClosingAccounts(chain, c);
    forall i | 0 <= i < |want| ensures UsedBy(want[i]) <= KeySet(among) {
      if i >= 2 {
        assert want[i] == CloseOne(chain, c.owner, c.accounts[i - 2]) && among[i + 1] == c.accounts[i - 2];
      }
    }
    AccountsAmong(c.owner, want, among);
  }

  /** Closing n accounts takes at most 218 + 39n bytes once signed, so twenty fit. */
  lemma EveryClosingPasses(chain: Chain, c: ClosePlan, blockhash: Key)
    requires |c.accounts| <= MAX_CLOSE_ACCOUNTS
    ensures Passable(c.owner, blockhash, Closing(chain, c), 218 + 39 * |c.accounts| - SIGNATURE)
    ensures 218 + 39 * |c.accounts| <= MAX_TRANSACTION
  {
    ClosingIsSmall(chain, c);
    BudgetSize(chain, c.limit, c.price);
    ClosingsSize(chain, Budget(chain, c.limit, c.price), c.owner, c.accounts);
    SmallPlanPasses(c.owner, blockhash, Closing(chain, c));
  }
}
