/**
 What an accepted transfer or closing does (internal/chain/solana/transfer.go, intent.go,
 close.go): its calls are read as the programs read them, from accounts and bytes, and run
 on a ledger of every wallet. The lists it was built from and checked against do not matter
 here, only what the runtime makes of them.
 */
module SolanaTransfers {
  import opened Wrappers
  import opened SolanaCodec
  import opened LittleEndian
  import opened SolanaChecker
  import opened SolanaCalls
  import opened SolanaCompiler
  import opened SolanaPlans

  // ------------------------------------------------------------------ runtime

  datatype TokenAccount = TokenAccount(mint: Key, owner: Key, amount: nat, lamports: nat)

  /** What wallets hold: lamports, and token accounts. */
  datatype Bank = Bank(sol: map<Key, nat>, tokens: map<Key, TokenAccount>)

  /** The rent of a token account, and the decimals of each mint. */
  datatype Rules = Rules(rent: nat, decimals: Key -> byte)

  datatype Op =
    | Pay(from: Key, to: Key, lamports: nat)
    | Open(payer: Key, account: Key, owner: Key, mint: Key)
    | Move(source: Key, mint: Key, destination: Key, authority: Key, amount: nat, decimals: byte)
    | Close(account: Key, destination: Key, authority: Key)

  function Balance(b: Bank, k: Key): nat {
    if k in b.sol then b.sol[k] else 0
  }

  function Credit(b: Bank, k: Key, lamports: nat): Bank {
    b.(sol := b.sol[k := Balance(b, k) + lamports])
  }

  function RunPay(b: Bank, signer: Key, from: Key, to: Key, lamports: nat): Option<Bank> {
    if from != signer || Balance(b, from) < lamports then None
    else Some(Credit(b.(sol := b.sol[from := Balance(b, from) - lamports]), to, lamports))
  }

  /** An account that is there has to be the wallet's for the mint; a new one costs its rent. */
  function RunOpen(b: Bank, rules: Rules, signer: Key, payer: Key, account: Key, owner: Key, mint: Key): Option<Bank> {
    if account in b.tokens then
      if b.tokens[account].owner == owner && b.tokens[account].mint == mint then Some(b) else None
    else if payer != signer || Balance(b, payer) < rules.rent then None
    else
      Some(Bank(b.sol[payer := Balance(b, payer) - rules.rent],
                b.tokens[account := TokenAccount(mint, owner, 0, rules.rent)]))
  }

  /** Tokens of one mint move between two accounts by the word of the source's owner. */
  function RunMove(
    b: Bank, rules: Rules, signer: Key, source: Key, mint: Key, destination: Key, authority: Key, amount: nat,
    decimals: byte): Option<Bank>
  {
    if source !in b.tokens || destination !in b.tokens then None
    else if b.tokens[source].mint != mint || b.tokens[destination].mint != mint then None
    else if authority != signer || b.tokens[source].owner != authority then None
    else if decimals != rules.decimals(mint) || b.tokens[source].amount < amount then None
    else
      var less := b.tokens[source := b.tokens[source].(amount := b.tokens[source].amount - amount)];
      Some(b.(tokens := less[destination := less[destination].(amount := less[destination].amount + amount)]))
  }

  /** An empty account goes, and its lamports with it. */
  function RunClose(b: Bank, signer: Key, account: Key, destination: Key, authority: Key): Option<Bank> {
    if account !in b.tokens || b.tokens[account].amount != 0 then None
    else if authority != signer || b.tokens[account].owner != authority then None
    else Some(Credit(b.(tokens := b.tokens - {account}), destination, b.tokens[account].lamports))
  }

  function Run(op: Op, b: Bank, rules: Rules, signer: Key): Option<Bank> {
    match op
    case Pay(from, to, lamports) => RunPay(b, signer, from, to, lamports)
    case Open(payer, account, owner, mint) => RunOpen(b, rules, signer, payer, account, owner, mint)
    case Move(source, mint, destination, authority, amount, decimals) =>
      RunMove(b, rules, signer, source, mint, destination, authority, amount, decimals)
    case Close(account, destination, authority) => RunClose(b, signer, account, destination, authority)
  }

  /** All of the operations, or None: nothing happened. */
  function Execute(ops: seq<Op>, b: Bank, rules: Rules, signer: Key): Option<Bank> {
    if ops == [] then Some(b)
    else match Run(ops[0], b, rules, signer)
      case None => None
      case Some(next) => Execute(ops[1..], next, rules, signer)
  }

  // ------------------------------------------------------------------ reading

  /** What a call asks of its program, by its accounts and bytes. */
  function Meaning(chain: Chain, call: Call): Option<Op> {
    var accounts, data := call.accounts, call.data;
    if call.program == chain.system then
      if |accounts| == 2 && |data| == 12 && FromLE(data[..4]) == 2
      then Some(Pay(accounts[0], accounts[1], FromLE(data[4..]))) else None
    else if call.program == chain.associatedToken then
      if |accounts| == 6 && data == [1] then Some(Open(accounts[0], accounts[1], accounts[2], accounts[3])) else None
    else if call.program == chain.token then
      if |accounts| == 4 && |data| == 10 && data[0] == 12
      then Some(Move(accounts[0], accounts[1], accounts[2], accounts[3], FromLE(data[1..9]), data[9]))
      else if |accounts| == 3 && data == [9] then Some(Close(accounts[0], accounts[1], accounts[2]))
      else None
    else None
  }

  predicate Mean(chain: Chain, calls: seq<Call>, ops: seq<Op>) {
    |calls| == |ops| && forall i :: 0 <= i < |calls| ==> Meaning(chain, calls[i]) == Some(ops[i])
  }

  /** The message sets this compute budget and does these things, and nothing else. */
  predicate Does(chain: Chain, message: Bytes, ops: seq<Op>, limit: nat, price: nat) {
    match DecodeLegacy(message)
    case None => false
    case Some(decoded) =>
      var m := AsSwap(decoded);
      && AllResolvable(m.instructions, |m.keys|, |m.keys|)
      && Budgeted(chain.computeBudget, CallsOf(m), limit, price)
      && Mean(chain, CallsOf(m)[2..], ops)
  }

  /** What a message does is told by its bytes alone. */
  lemma OneMeaning(
    chain: Chain, message: Bytes, a: seq<Op>, la: nat, pa: nat, b: seq<Op>, lb: nat, pb: nat)
    requires Does(chain, message, a, la, pa) && Does(chain, message, b, lb, pb)
    ensures a == b && la == lb && pa == pb
  {
    var m := AsSwap(DecodeLegacy(message).value);
    var calls := CallsOf(m)[2..];
    forall i | 0 <= i < |a| ensures a[i] == b[i] { assert Meaning(chain, calls[i]) == Some(a[i]); }
  }

  /** The programs are five different ones. */
  predicate Apart(chain: Chain) {
    && chain.computeBudget != chain.system && chain.computeBudget != chain.token
    && chain.computeBudget != chain.associatedToken && chain.system != chain.token
    && chain.system != chain.associatedToken && chain.token != chain.associatedToken
  }

  lemma SendSolMeans(chain: Chain, from: Key, to: Key, amount: u64)
    ensures Meaning(chain, Asked(SendSol(chain, from, to, amount))) == Some(Pay(from, to, amount))
  {
    var data := U32(2) + U64(amount);
    U32ReadsBack(2);
    U64ReadsBack(amount);
    assert data[..4] == U32(2) && data[4..] == U64(amount);
    assert KeysOf([Pays(from), Writes(to)]) == [from, to];
  }

  lemma SendTokenMeans(
    chain: Chain, from: Key, source: Key, mint: Key, destination: Key, amount: u64, decimals: byte)
    requires Apart(chain)
    ensures Meaning(chain, Asked(SendToken(chain, from, source, mint, destination, amount, decimals)))
         == Some(Move(source, mint, destination, from, amount, decimals))
  {
    var data := [12] + U64(amount) + [decimals];
    U64ReadsBack(amount);
    assert data[1..9] == U64(amount);
    assert KeysOf([Writes(source), Reads(mint), Writes(destination), Signs(from)]) == [source, mint, destination, from];
  }

  lemma OpenMeans(chain: Chain, payer: Key, account: Key, owner: Key, mint: Key)
    requires Apart(chain)
    ensures Meaning(chain, Asked(OpenAccount(chain, payer, account, owner, mint)))
         == Some(Open(payer, account, owner, mint))
  {
    assert KeysOf([Pays(payer), Writes(account), Reads(owner), Reads(mint), Reads(chain.system), Reads(chain.token)])
        == [payer, account, owner, mint, chain.system, chain.token];
  }

  lemma CloseMeans(chain: Chain, owner: Key, account: Key)
    requires Apart(chain)
    ensures Meaning(chain, Asked(CloseOne(chain, owner, account))) == Some(Close(account, owner, owner))
  {
    assert KeysOf([Writes(account), Writes(owner), Signs(owner)]) == [account, owner, owner];
  }

  /** A list of a budget and a body, once accepted, does what the body means. */
  lemma AcceptedDoes(
    chain: Chain, message: Bytes, payer: Key, blockhash: Key, limit: u32, price: u64, body: seq<Planned>, ops: seq<Op>)
    requires Apart(chain) && LegacyIs(message, payer, blockhash, Budget(chain, limit, price) + body)
    requires Mean(chain, AskedAll(body), ops)
    ensures Does(chain, message, ops, limit, price)
  {
    var m := AsSwap(DecodeLegacy(message).value);
    LegacyIsResolvable(message);
    ExactCalls(m, payer, blockhash, Budget(chain, limit, price) + body);
    AskedJoin(Budget(chain, limit, price), body);
    BudgetIsRead(chain, limit, price);
    var calls := CallsOf(m);
    assert calls[2..] == AskedAll(body);
    forall i | 2 <= i < |calls| ensures calls[i].program != chain.computeBudget {
      assert calls[i] == AskedAll(body)[i - 2] && Meaning(chain, calls[i]) == Some(ops[i - 2]);
    }
  }

  // ---------------------------------------------------------------- transfers

  /** What the user asked for, on the wallets' own accounts. */
  function Wanted(chain: Chain, i: Intent): seq<Op> {
    match i.token
    case None => [Pay(i.payer, i.to, i.amount)]
    case Some(t) =>
      var source, destination := chain.associated(i.payer, t.mint), chain.associated(i.to, t.mint);
      (if t.createAccount then [Open(i.payer, destination, i.to, t.mint)] else [])
      + [Move(source, t.mint, destination, i.payer, i.amount, t.decimals)]
  }

  lemma BodyMeans(chain: Chain, i: Intent)
    requires Apart(chain)
    ensures Mean(chain, AskedAll(Body(chain, i)), Wanted(chain, i))
  {
    match i.token
    case None => SendSolMeans(chain, i.payer, i.to, i.amount);
    case Some(t) =>
      var source, destination := chain.associated(i.payer, t.mint), chain.associated(i.to, t.mint);
      OpenMeans(chain, i.payer, destination, i.to, t.mint);
      SendTokenMeans(chain, i.payer, source, t.mint, destination, i.amount, t.decimals);
  }

  /** An accepted message does what was asked for at the approved limit and price, and nothing else. */
  lemma AcceptedTransferDoes(chain: Chain, message: Bytes, blockhash: Key, i: Intent)
    requires Apart(chain) && LegacyIs(message, i.payer, blockhash, Expected(chain, i))
    ensures Does(chain, message, Wanted(chain, i), i.limit, i.price)
  {
    ExpectedParts(chain, i);
    BodyMeans(chain, i);
    AcceptedDoes(chain, message, i.payer, blockhash, i.limit, i.price, Body(chain, i), Wanted(chain, i));
  }

  // ---------------------------------------------------------------- privileges

  /** What an operation alters, and the runtime must be allowed to write. */
  function Alters(op: Op): set<Key> {
    match op
    case Pay(from, to, _) => {from, to}
    case Open(payer, account, _, _) => {payer, account}
    case Move(source, _, destination, _, _, _) => {source, destination}
    case Close(account, destination, _) => {account, destination}
  }

  /** Whose word it takes. */
  function WordOf(op: Op): Key {
    match op
    case Pay(from, _, _) => from
    case Open(payer, _, _, _) => payer
    case Move(_, _, _, authority, _, _) => authority
    case Close(_, _, authority) => authority
  }

  function AllAltered(ops: seq<Op>): set<Key> {
    set i, k | 0 <= i < |ops| && k in Alters(ops[i]) :: k
  }

  /** It asks to write what it alters, and for the one signature it takes. */
  predicate AsksForItsNeeds(want: Planned, op: Op) {
    && Marked(want.accounts) == Alters(op)
    && (forall j :: 0 <= j < |want.accounts| && want.accounts[j].signer ==> want.accounts[j].key == WordOf(op))
    && (exists j :: 0 <= j < |want.accounts| && want.accounts[j].signer)
  }

  lemma SendSolAsks(chain: Chain, from: Key, to: Key, amount: u64)
    ensures AsksForItsNeeds(SendSol(chain, from, to, amount), Pay(from, to, amount))
  {
    var metas := SendSol(chain, from, to, amount).accounts;
    assert metas[0].signer && metas[0].writable && metas[1].writable;
    assert from in Marked(metas) && to in Marked(metas);
  }

  lemma OpenAsks(chain: Chain, payer: Key, account: Key, owner: Key, mint: Key)
    ensures AsksForItsNeeds(OpenAccount(chain, payer, account, owner, mint), Open(payer, account, owner, mint))
  {
    var metas := OpenAccount(chain, payer, account, owner, mint).accounts;
    assert metas[0].signer && metas[0].writable && metas[1].writable;
    assert payer in Marked(metas) && account in Marked(metas);
  }

  lemma SendTokenAsks(
    chain: Chain, from: Key, source: Key, mint: Key, destination: Key, amount: u64, decimals: byte)
    ensures AsksForItsNeeds(SendToken(chain, from, source, mint, destination, amount, decimals),
                            Move(source, mint, destination, from, amount, decimals))
  {
    var metas := SendToken(chain, from, source, mint, destination, amount, decimals).accounts;
    assert metas[0].writable && metas[2].writable && metas[3].signer;
    assert source in Marked(metas) && destination in Marked(metas);
  }

  lemma CloseAsks(chain: Chain, owner: Key, account: Key)
    ensures AsksForItsNeeds(CloseOne(chain, owner, account), Close(account, owner, owner))
  {
    var metas := CloseOne(chain, owner, account).accounts;
    assert metas[0].writable && metas[1].writable && metas[2].signer;
    assert account in Marked(metas) && owner in Marked(metas);
  }

  predicate AllAsk(body: seq<Planned>, ops: seq<Op>) {
    |body| == |ops| && forall i :: 0 <= i < |body| ==> AsksForItsNeeds(body[i], ops[i])
  }

  lemma AllMarked(chain: Chain, limit: u32, price: u64, body: seq<Planned>, ops: seq<Op>)
    requires AllAsk(body, ops)
    ensures Written(Budget(chain, limit, price) + body) == AllAltered(ops)
  {
    var budget := Budget(chain, limit, price);
    var all := budget + body;
    forall k | k in Written(all) ensures k in AllAltered(ops) {
      var i :| 0 <= i < |all| && k in Marked(all[i].accounts);
      assert i >= 2 && all[i] == body[i - 2] && AsksForItsNeeds(body[i - 2], ops[i - 2]);
    }
    forall k | k in AllAltered(ops) ensures k in Written(all) {
      var i :| 0 <= i < |ops| && k in Alters(ops[i]);
      assert AsksForItsNeeds(body[i], ops[i]) && all[i + 2] == body[i];
    }
  }

  /** The payer is its one signer, and it may write the payer and what the operations alter, and nothing else. */
  predicate LeastPrivilege(message: Bytes, payer: Key, ops: seq<Op>) {
    match DecodeLegacy(message)
    case None => false
    case Some(decoded) =>
      var m := AsSwap(decoded);
      && m.header.signers == 1 && |m.keys| > 0 && m.keys[0] == payer
      && WritableKeys(m) == {payer} + AllAltered(ops)
      && forall i :: 0 <= i < |ops| ==> WordOf(ops[i]) == payer
  }

  lemma AcceptedIsLeast(
    chain: Chain, message: Bytes, payer: Key, blockhash: Key, limit: u32, price: u64, body: seq<Planned>, ops: seq<Op>)
    requires LegacyIs(message, payer, blockhash, Budget(chain, limit, price) + body) && AllAsk(body, ops)
    requires forall i :: 0 <= i < |ops| ==> WordOf(ops[i]) == payer
    ensures LeastPrivilege(message, payer, ops)
  {
    AcceptedPrivileges(AsSwap(DecodeLegacy(message).value), payer, blockhash, Budget(chain, limit, price) + body);
    AllMarked(chain, limit, price, body, ops);
  }

  lemma BodyAsks(chain: Chain, i: Intent)
    ensures AllAsk(Body(chain, i), Wanted(chain, i))
  {
    var body, ops := Body(chain, i), Wanted(chain, i);
    match i.token
    case None =>
      SendSolAsks(chain, i.payer, i.to, i.amount);
      assert body == [SendSol(chain, i.payer, i.to, i.amount)];
    case Some(t) =>
      var source, destination := chain.associated(i.payer, t.mint), chain.associated(i.to, t.mint);
      var open, send := OpenAccount(chain, i.payer, destination, i.to, t.mint),
                        SendToken(chain, i.payer, source, t.mint, destination, i.amount, t.decimals);
      OpenAsks(chain, i.payer, destination, i.to, t.mint);
      SendTokenAsks(chain, i.payer, source, t.mint, destination, i.amount, t.decimals);
      assert body == if t.createAccount then [open, send] else [send];
  }

  /** An accepted transfer can do what it is for, and is given no more than that takes. */
  lemma AcceptedTransferIsLeast(chain: Chain, message: Bytes, blockhash: Key, i: Intent)
    requires LegacyIs(message, i.payer, blockhash, Expected(chain, i))
    ensures LeastPrivilege(message, i.payer, Wanted(chain, i))
  {
    ExpectedParts(chain, i);
    BodyAsks(chain, i);
    AcceptedIsLeast(chain, message, i.payer, blockhash, i.limit, i.price, Body(chain, i), Wanted(chain, i));
  }

  function TokensAt(b: Bank, account: Key): nat {
    if account in b.tokens then b.tokens[account].amount else 0
  }

  /** What n units from one to another change for k. */
  function Shift(k: Key, from: Key, to: Key, n: nat): int {
    (if k == to then n else 0) - (if k == from then n else 0)
  }

  /** Exactly the amount of SOL left the payer for the recipient. */
  ghost predicate SolDelivered(i: Intent, before: Bank, after: Bank) {
    && after.tokens == before.tokens
    && forall k: Key ::
         Balance(after, k) == Balance(before, k) + Shift(k, i.payer, i.to, i.amount)
  }

  /** An account that was there is the same account, but for its amount. */
  predicate SameAccounts(before: Bank, after: Bank) {
    forall k :: k in before.tokens ==>
      k in after.tokens && after.tokens[k].(amount := before.tokens[k].amount) == before.tokens[k]
  }

  /**
   Exactly the amount of the mint left the payer's own account for the recipient's; that
   account was opened, for the recipient and at the payer's cost, only if it was missing and
   the user agreed to it; nobody else's tokens or SOL changed.
   */
  ghost predicate TokensDelivered(chain: Chain, rules: Rules, i: Intent, before: Bank, after: Bank)
    requires i.token.Some?
  {
    var mint := i.token.value.mint;
    var source, destination := chain.associated(i.payer, mint), chain.associated(i.to, mint);
    var isNew := destination !in before.tokens;
    && (forall k :: k in after.tokens ==>
          TokensAt(after, k) == TokensAt(before, k) + Shift(k, source, destination, i.amount))
    && SameAccounts(before, after)
    && after.tokens.Keys == before.tokens.Keys + {destination}
    && source in after.tokens && after.tokens[source].owner == i.payer && after.tokens[source].mint == mint
    && after.tokens[destination].mint == mint
    && (isNew ==> i.token.value.createAccount && after.tokens[destination].owner == i.to)
    && (forall k: Key ::
          Balance(after, k) == Balance(before, k) - if isNew && k == i.payer then rules.rent else 0)
  }

  ghost predicate Delivered(chain: Chain, rules: Rules, i: Intent, before: Bank, after: Bank) {
    if i.token.None? then SolDelivered(i, before, after) else TokensDelivered(chain, rules, i, before, after)
  }

  lemma ExecuteOne(op: Op, b: Bank, rules: Rules, signer: Key)
    ensures Execute([op], b, rules, signer) == Run(op, b, rules, signer)
  {
    assert [op][1..] == [];
  }

  lemma ExecuteTwo(x: Op, y: Op, b: Bank, rules: Rules, signer: Key)
    ensures Execute([x, y], b, rules, signer)
         == match Run(x, b, rules, signer) case None => None case Some(next) => Run(y, next, rules, signer)
  {
    assert [x, y][1..] == [y];
    if Run(x, b, rules, signer).Some? { ExecuteOne(y, Run(x, b, rules, signer).value, rules, signer); }
  }

  lemma MoveDelivers(
    b: Bank, rules: Rules, signer: Key, source: Key, mint: Key, destination: Key, authority: Key, amount: nat,
    decimals: byte)
    requires RunMove(b, rules, signer, source, mint, destination, authority, amount, decimals).Some?
    ensures var after := RunMove(b, rules, signer, source, mint, destination, authority, amount, decimals).value;
            && after.sol == b.sol && after.tokens.Keys == b.tokens.Keys && SameAccounts(b, after)
            && source in b.tokens && b.tokens[source].owner == signer == authority && b.tokens[source].mint == mint
            && destination in b.tokens && b.tokens[destination].mint == mint
            && forall k :: k in b.tokens ==>
                 TokensAt(after, k) == TokensAt(b, k) + Shift(k, source, destination, amount)
  {
  }

  lemma OpenDelivers(b: Bank, rules: Rules, signer: Key, payer: Key, account: Key, owner: Key, mint: Key)
    requires RunOpen(b, rules, signer, payer, account, owner, mint).Some?
    ensures var after := RunOpen(b, rules, signer, payer, account, owner, mint).value;
            && after.tokens.Keys == b.tokens.Keys + {account}
            && (forall k :: k in b.tokens ==> k in after.tokens && after.tokens[k] == b.tokens[k])
            && (account !in b.tokens ==>
                  && after.tokens[account] == TokenAccount(mint, owner, 0, rules.rent)
                  && payer == signer && rules.rent <= Balance(b, payer)
                  && after.sol == b.sol[payer := Balance(b, payer) - rules.rent])
            && (account in b.tokens ==> after == b)
  {
  }

  lemma SolIsDelivered(chain: Chain, rules: Rules, i: Intent, before: Bank)
    requires i.token.None? && Execute(Wanted(chain, i), before, rules, i.payer).Some?
    ensures SolDelivered(i, before, Execute(Wanted(chain, i), before, rules, i.payer).value)
  {
    ExecuteOne(Pay(i.payer, i.to, i.amount), before, rules, i.payer);
  }

  lemma MovedIsDelivered(chain: Chain, rules: Rules, i: Intent, before: Bank)
    requires i.token.Some? && !i.token.value.createAccount && Execute(Wanted(chain, i), before, rules, i.payer).Some?
    ensures TokensDelivered(chain, rules, i, before, Execute(Wanted(chain, i), before, rules, i.payer).value)
  {
    var t := i.token.value;
    var source, destination := chain.associated(i.payer, t.mint), chain.associated(i.to, t.mint);
    var move := Move(source, t.mint, destination, i.payer, i.amount, t.decimals);
    assert Wanted(chain, i) == [move];
    ExecuteOne(move, before, rules, i.payer);
    MoveDelivers(before, rules, i.payer, source, t.mint, destination, i.payer, i.amount, t.decimals);
  }

  lemma OpenedAndMovedIsDelivered(chain: Chain, rules: Rules, i: Intent, before: Bank)
    requires i.token.Some? && i.token.value.createAccount && Execute(Wanted(chain, i), before, rules, i.payer).Some?
    ensures TokensDelivered(chain, rules, i, before, Execute(Wanted(chain, i), before, rules, i.payer).value)
  {
    var t := i.token.value;
    var source, destination := chain.associated(i.payer, t.mint), chain.associated(i.to, t.mint);
    var open := Open(i.payer, destination, i.to, t.mint);
    var move := Move(source, t.mint, destination, i.payer, i.amount, t.decimals);
    assert Wanted(chain, i) == [open, move];
    ExecuteTwo(open, move, before, rules, i.payer);
    OpenDelivers(before, rules, i.payer, i.payer, destination, i.to, t.mint);
    var next := Run(open, before, rules, i.payer).value;
    MoveDelivers(next, rules, i.payer, source, t.mint, destination, i.payer, i.amount, t.decimals);
  }

  lemma TokensAreDelivered(chain: Chain, rules: Rules, i: Intent, before: Bank)
    requires i.token.Some? && Execute(Wanted(chain, i), before, rules, i.payer).Some?
    ensures TokensDelivered(chain, rules, i, before, Execute(Wanted(chain, i), before, rules, i.payer).value)
  {
    if i.token.value.createAccount {
      OpenedAndMovedIsDelivered(chain, rules, i, before);
    } else {
      MovedIsDelivered(chain, rules, i, before);
    }
  }

  /**
   A message accepted for an intent sets the approved limit and price and, run on any ledger,
   moves exactly what was asked for, or nothing happens.
   */
  lemma AcceptedTransferIsHonoured(
    chain: Chain, rules: Rules, message: Bytes, blockhash: Key, i: Intent, ops: seq<Op>, limit: nat, price: nat,
    before: Bank)
    requires Apart(chain) && LegacyIs(message, i.payer, blockhash, Expected(chain, i))
    requires Does(chain, message, ops, limit, price)
    ensures limit == i.limit && price == i.price
    ensures Execute(ops, before, rules, i.payer).Some? ==>
              Delivered(chain, rules, i, before, Execute(ops, before, rules, i.payer).value)
  {
    AcceptedTransferDoes(chain, message, blockhash, i);
    OneMeaning(chain, message, ops, limit, price, Wanted(chain, i), i.limit, i.price);
    if Execute(ops, before, rules, i.payer).Some? {
      if i.token.None? {
        SolIsDelivered(chain, rules, i, before);
      } else {
        TokensAreDelivered(chain, rules, i, before);
      }
    }
  }

  /** The payer has what is asked for, and for a token the accounts or the rent of the one to open. */
  predicate Payable(chain: Chain, rules: Rules, i: Intent, b: Bank) {
    match i.token
    case None => Balance(b, i.payer) >= i.amount
    case Some(t) =>
      var source, destination := chain.associated(i.payer, t.mint), chain.associated(i.to, t.mint);
      && source in b.tokens && b.tokens[source].owner == i.payer && b.tokens[source].mint == t.mint
      && b.tokens[source].amount >= i.amount && t.decimals == rules.decimals(t.mint)
      && (if destination in b.tokens
          then b.tokens[destination].mint == t.mint && (t.createAccount ==> b.tokens[destination].owner == i.to)
          else t.createAccount && Balance(b, i.payer) >= rules.rent)
  }

  /** And it happens whenever it can. */
  lemma PayableGoesThrough(chain: Chain, rules: Rules, i: Intent, before: Bank)
    requires Payable(chain, rules, i, before)
    ensures Execute(Wanted(chain, i), before, rules, i.payer).Some?
  {
    match i.token
    case None => ExecuteOne(Pay(i.payer, i.to, i.amount), before, rules, i.payer);
    case Some(t) =>
      var source, destination := chain.associated(i.payer, t.mint), chain.associated(i.to, t.mint);
      var move := Move(source, t.mint, destination, i.payer, i.amount, t.decimals);
      if t.createAccount {
        var open := Open(i.payer, destination, i.to, t.mint);
        assert Wanted(chain, i) == [open, move];
        ExecuteTwo(open, move, before, rules, i.payer);
        OpenDelivers(before, rules, i.payer, i.payer, destination, i.to, t.mint);
      } else {
        assert Wanted(chain, i) == [move];
        ExecuteOne(move, before, rules, i.payer);
      }
  }

  // ------------------------------------------------------------------ closings

  function Closes(owner: Key, accounts: seq<Key>): seq<Op> {
    seq(|accounts|, i requires 0 <= i < |accounts| => Close(accounts[i], owner, owner))
  }

  lemma AcceptedClosingDoes(chain: Chain, message: Bytes, blockhash: Key, c: ClosePlan)
    requires Apart(chain) && LegacyIs(message, c.owner, blockhash, Closing(chain, c))
    ensures Does(chain, message, Closes(c.owner, c.accounts), c.limit, c.price)
  {
    var body, ops := Closings(chain, c.owner, c.accounts), Closes(c.owner, c.accounts);
    forall i | 0 <= i < |body| ensures Meaning(chain, AskedAll(body)[i]) == Some(ops[i]) {
      CloseMeans(chain, c.owner, c.accounts[i]);
    }
    AcceptedDoes(chain, message, c.owner, blockhash, c.limit, c.price, body, ops);
  }

  lemma AcceptedClosingIsLeast(chain: Chain, message: Bytes, blockhash: Key, c: ClosePlan)
    requires LegacyIs(message, c.owner, blockhash, Closing(chain, c))
    ensures LeastPrivilege(message, c.owner, Closes(c.owner, c.accounts))
  {
    var body, ops := Closings(chain, c.owner, c.accounts), Closes(c.owner, c.accounts);
    forall i | 0 <= i < |body| ensures AsksForItsNeeds(body[i], ops[i]) { CloseAsks(chain, c.owner, c.accounts[i]); }
    AcceptedIsLeast(chain, message, c.owner, blockhash, c.limit, c.price, body, ops);
  }

  /** What the accounts hold in lamports. */
  function Rents(b: Bank, accounts: seq<Key>): nat {
    if accounts == [] then 0
    else Rents(b, accounts[1..]) + if accounts[0] in b.tokens then b.tokens[accounts[0]].lamports else 0
  }

  function Listed(accounts: seq<Key>): set<Key> {
    set k | k in accounts
  }

  /** The owner's empty accounts named are gone and all they held is the owner's; nothing else changed. */
  ghost predicate Closed(owner: Key, accounts: seq<Key>, before: Bank, after: Bank) {
    && (forall k :: k in accounts ==>
          k in before.tokens && before.tokens[k].owner == owner && before.tokens[k].amount == 0)
    && after.tokens == before.tokens - Listed(accounts)
    && forall k: Key :: Balance(after, k) == Balance(before, k) + if k == owner then Rents(before, accounts) else 0
  }

  lemma {:induction false} RentsWithout(b: Bank, accounts: seq<Key>, gone: Key)
    requires gone !in accounts
    ensures Rents(b.(tokens := b.tokens - {gone}), accounts) == Rents(b, accounts)
    decreases |accounts|
  {
    if accounts == [] {
    } else {
      RentsWithout(b, accounts[1..], gone);
    }
  }

  lemma {:induction false} RentsIgnoreSol(b: Bank, sol: map<Key, nat>, accounts: seq<Key>)
    ensures Rents(b.(sol := sol), accounts) == Rents(b, accounts)
    decreases |accounts|
  {
    if accounts == [] {
    } else {
      RentsIgnoreSol(b, sol, accounts[1..]);
    }
  }

  lemma {:induction false} ClosingCloses(owner: Key, accounts: seq<Key>, rules: Rules, before: Bank)
    requires Execute(Closes(owner, accounts), before, rules, owner).Some?
    ensures Closed(owner, accounts, before, Execute(Closes(owner, accounts), before, rules, owner).value)
    decreases |accounts|
  {
    var ops := Closes(owner, accounts);
    if accounts == [] {
      assert before.tokens - Listed(accounts) == before.tokens;
    } else {
      var next := Run(ops[0], before, rules, owner).value;
      assert ops[1..] == Closes(owner, accounts[1..]);
      ClosingCloses(owner, accounts[1..], rules, next);
      OneMoreClosed(owner, accounts, before, next, Execute(ops, before, rules, owner).value);
    }
  }

  lemma OneMoreClosed(owner: Key, accounts: seq<Key>, before: Bank, next: Bank, after: Bank)
    requires accounts != [] && RunClose(before, owner, accounts[0], owner, owner) == Some(next)
    requires Closed(owner, accounts[1..], next, after)
    ensures Closed(owner, accounts, before, after)
  {
    assert accounts[0] !in accounts[1..];
    RentsIgnoreSol(before.(tokens := before.tokens - {accounts[0]}), next.sol, accounts[1..]);
    RentsWithout(before, accounts[1..], accounts[0]);
    assert Listed(accounts) == Listed(accounts[1..]) + {accounts[0]};
    assert before.tokens - Listed(accounts) == next.tokens - Listed(accounts[1..]);
    forall k | k in accounts
      ensures k in before.tokens && before.tokens[k].owner == owner && before.tokens[k].amount == 0
    {
      if k != accounts[0] { assert k in accounts[1..]; }
    }
  }

  /** A message accepted for a closing, run on any ledger, closes exactly the accounts named, for their owner. */
  lemma AcceptedClosingIsHonoured(
    chain: Chain, rules: Rules, message: Bytes, blockhash: Key, c: ClosePlan, ops: seq<Op>, limit: nat, price: nat,
    before: Bank)
    requires Apart(chain) && LegacyIs(message, c.owner, blockhash, Closing(chain, c))
    requires Does(chain, message, ops, limit, price)
    ensures limit == c.limit && price == c.price
    ensures Execute(ops, before, rules, c.owner).Some? ==>
              Closed(c.owner, c.accounts, before, Execute(ops, before, rules, c.owner).value)
  {
    AcceptedClosingDoes(chain, message, blockhash, c);
    OneMeaning(chain, message, ops, limit, price, Closes(c.owner, c.accounts), c.limit, c.price);
    if Execute(ops, before, rules, c.owner).Some? { ClosingCloses(c.owner, c.accounts, rules, before); }
  }
}
