/**
 A swap's final instructions run on a ledger (internal/chain/solana/swap.go). A pool
 pays what it likes, at least the minimum it was given, or the whole transaction is
 undone. Fees are charged apart from this ledger.
 */
module SwapLedger {
  import opened Wrappers
  import opened SolanaCodec

  /** A token account: its mint, its tokens, and the lamports it holds. */
  datatype TokenAccount = TokenAccount(mint: Key, amount: nat, lamports: nat)

  /** One wallet's SOL and token accounts. */
  datatype Ledger = Ledger(sol: nat, accounts: map<Key, TokenAccount>)

  /** The mint of wrapped SOL, the rent of a token account, the wallet's account for a mint. */
  datatype World = World(wrapped: Key, rent: nat, at: Key -> Key) {
    ghost predicate OneAccountEach() {
      forall m, n :: at(m) == at(n) ==> m == n
    }
  }

  /** The instructions of a swap that move anything. */
  datatype Op =
    | Open(account: Key, mint: Key)
    | Fund(account: Key, lamports: nat)
    | Sync(account: Key)
    | Trade(pool: Key, inMint: Key, outMint: Key, source: Key, destination: Key, amount: nat, minOut: nat)
    | Close(account: Key)

  // ------------------------------------------------------------------ runtime

  /** Opening an account that is there changes nothing; a new one costs its rent. */
  function RunOpen(l: Ledger, w: World, account: Key, mint: Key): Option<Ledger> {
    if account in l.accounts then
      if l.accounts[account].mint == mint then Some(l) else None
    else if l.sol < w.rent then None
    else Some(Ledger(l.sol - w.rent, l.accounts[account := TokenAccount(mint, 0, w.rent)]))
  }

  function RunFund(l: Ledger, account: Key, lamports: nat): Option<Ledger> {
    if l.sol < lamports || account !in l.accounts then None
    else
      var a := l.accounts[account];
      Some(Ledger(l.sol - lamports, l.accounts[account := a.(lamports := a.lamports + lamports)]))
  }

  /** Wrapped SOL catches up with the lamports beyond the account's rent. */
  function RunSync(l: Ledger, w: World, account: Key): Option<Ledger> {
    if account !in l.accounts || l.accounts[account].mint != w.wrapped
        || l.accounts[account].lamports < w.rent then None
    else
      var a := l.accounts[account];
      Some(l.(accounts := l.accounts[account := a.(amount := a.lamports - w.rent)]))
  }

  /** Wrapped SOL takes its lamports along. */
  function Minus(w: World, a: TokenAccount, n: nat): TokenAccount
    requires n <= a.amount
  {
    if a.mint == w.wrapped then
      TokenAccount(a.mint, a.amount - n, if n <= a.lamports then a.lamports - n else 0)
    else TokenAccount(a.mint, a.amount - n, a.lamports)
  }

  function Plus(w: World, a: TokenAccount, n: nat): TokenAccount {
    TokenAccount(a.mint, a.amount + n, if a.mint == w.wrapped then a.lamports + n else a.lamports)
  }

  function RunTrade(
    l: Ledger, w: World, inMint: Key, outMint: Key, source: Key, destination: Key, amount: nat, minOut: nat, paid: nat)
    : Option<Ledger>
  {
    if source !in l.accounts || destination !in l.accounts || source == destination then None
    else if l.accounts[source].mint != inMint || l.accounts[destination].mint != outMint then None
    else if l.accounts[source].amount < amount || paid < minOut then None
    else
      var taken := l.accounts[source := Minus(w, l.accounts[source], amount)];
      Some(l.(accounts := taken[destination := Plus(w, taken[destination], paid)]))
  }

  /** Only wrapped SOL may be closed with a balance; all its lamports come back. */
  function RunClose(l: Ledger, w: World, account: Key): Option<Ledger> {
    if account !in l.accounts || !(l.accounts[account].mint == w.wrapped || l.accounts[account].amount == 0) then None
    else Some(Ledger(l.sol + l.accounts[account].lamports, map k | k in l.accounts && k != account :: l.accounts[k]))
  }

  function Run(op: Op, l: Ledger, w: World, paid: nat): Option<Ledger> {
    match op
    case Open(account, mint) => RunOpen(l, w, account, mint)
    case Fund(account, lamports) => RunFund(l, account, lamports)
    case Sync(account) => RunSync(l, w, account)
    case Trade(_, i, o, source, destination, amount, minOut) =>
      RunTrade(l, w, i, o, source, destination, amount, minOut, paid)
    case Close(account) => RunClose(l, w, account)
  }

  /** What the pool answers this instruction, and what is left for those after it. */
  function Answer(op: Op, paid: seq<nat>): nat {
    if op.Trade? && |paid| > 0 then paid[0] else 0
  }

  function Rest(op: Op, paid: seq<nat>): seq<nat> {
    if op.Trade? && |paid| > 0 then paid[1..] else paid
  }

  /** All of the instructions, or None: nothing happened. */
  function Execute(ops: seq<Op>, l: Ledger, w: World, paid: seq<nat>): Option<Ledger> {
    if ops == [] then Some(l)
    else match Run(ops[0], l, w, Answer(ops[0], paid))
      case None => None
      case Some(next) => Execute(ops[1..], next, w, Rest(ops[0], paid))
  }

  // ------------------------------------------------------------ what one holds

  /** A wallet's holding of a mint; SOL counts wrapped or not. */
  function Held(l: Ledger, w: World, m: Key): int {
    var account := w.at(m);
    if m == w.wrapped then l.sol + if account in l.accounts then l.accounts[account].lamports else 0
    else if account in l.accounts then l.accounts[account].amount else 0
  }

  /** The wallet's accounts hold what they are for, wrapped SOL beside its rent. */
  ghost predicate Sound(l: Ledger, w: World) {
    && (forall m :: w.at(m) in l.accounts ==> l.accounts[w.at(m)].mint == m)
    && (w.at(w.wrapped) in l.accounts ==>
          l.accounts[w.at(w.wrapped)].amount + w.rent <= l.accounts[w.at(w.wrapped)].lamports)
  }

  /** An instruction on the wallet's own accounts, each used for its mint. */
  predicate Own(op: Op, w: World) {
    match op
    case Open(account, mint) => account == w.at(mint)
    case Fund(account, _) => account == w.at(w.wrapped)
    case Sync(account) => account == w.at(w.wrapped)
    case Trade(_, i, o, source, destination, _, _) => source == w.at(i) && destination == w.at(o) && i != o
    case Close(account) => account == w.at(w.wrapped)
  }

  /** The rent an instruction takes for good: that of a token account that was not there. */
  function RentOf(op: Op, l: Ledger, w: World): nat {
    if op.Open? && op.mint != w.wrapped && op.account !in l.accounts then w.rent else 0
  }

  /** What an instruction does to the holding of m. */
  function Moved(op: Op, paid: nat, m: Key): int {
    if op.Trade? then (if m == op.outMint then paid else 0) - (if m == op.inMint then op.amount else 0) else 0
  }

  lemma OpenMoves(l: Ledger, w: World, mint: Key, m: Key)
    requires w.OneAccountEach() && Sound(l, w) && RunOpen(l, w, w.at(mint), mint).Some?
    ensures var r := RunOpen(l, w, w.at(mint), mint).value;
            && Sound(r, w)
            && Held(r, w, m) == Held(l, w, m) - if m == w.wrapped then RentOf(Open(w.at(mint), mint), l, w) else 0
  {
  }

  lemma FundMoves(l: Ledger, w: World, n: nat, m: Key)
    requires w.OneAccountEach() && Sound(l, w) && RunFund(l, w.at(w.wrapped), n).Some?
    ensures var r := RunFund(l, w.at(w.wrapped), n).value; Sound(r, w) && Held(r, w, m) == Held(l, w, m)
  {
  }

  lemma SyncMoves(l: Ledger, w: World, m: Key)
    requires w.OneAccountEach() && Sound(l, w) && RunSync(l, w, w.at(w.wrapped)).Some?
    ensures var r := RunSync(l, w, w.at(w.wrapped)).value; Sound(r, w) && Held(r, w, m) == Held(l, w, m)
  {
  }

  lemma TradeMoves(l: Ledger, w: World, i: Key, o: Key, amount: nat, minOut: nat, paid: nat, m: Key)
    requires w.OneAccountEach() && Sound(l, w) && i != o
    requires RunTrade(l, w, i, o, w.at(i), w.at(o), amount, minOut, paid).Some?
    ensures var r := RunTrade(l, w, i, o, w.at(i), w.at(o), amount, minOut, paid).value;
            && Sound(r, w)
            && Held(r, w, m) == Held(l, w, m) + (if m == o then paid else 0) - (if m == i then amount else 0)
  {
  }

  lemma CloseMoves(l: Ledger, w: World, m: Key)
    requires w.OneAccountEach() && Sound(l, w) && RunClose(l, w, w.at(w.wrapped)).Some?
    ensures var r := RunClose(l, w, w.at(w.wrapped)).value; Sound(r, w) && Held(r, w, m) == Held(l, w, m)
  {
  }

  /** Each instruction moves what it says, and only that. */
  lemma RunMoves(op: Op, l: Ledger, w: World, paid: nat, m: Key)
    requires w.OneAccountEach() && Sound(l, w) && Own(op, w) && Run(op, l, w, paid).Some?
    ensures var r := Run(op, l, w, paid).value;
            && Sound(r, w)
            && Held(r, w, m) == Held(l, w, m) + Moved(op, paid, m) - if m == w.wrapped then RentOf(op, l, w) else 0
  {
    match op
    case Open(account, mint) => OpenMoves(l, w, mint, m);
    case Fund(account, n) => FundMoves(l, w, n, m);
    case Sync(account) => SyncMoves(l, w, m);
    case Trade(_, i, o, source, destination, amount, minOut) => TradeMoves(l, w, i, o, amount, minOut, paid, m);
    case Close(account) => CloseMoves(l, w, m);
  }

  // ------------------------------------------------------- whole transactions

  predicate AllOwn(ops: seq<Op>, w: World) {
    forall i :: 0 <= i < |ops| ==> Own(ops[i], w)
  }

  function TotalMoved(ops: seq<Op>, paid: seq<nat>, m: Key): int {
    if ops == [] then 0 else Moved(ops[0], Answer(ops[0], paid), m) + TotalMoved(ops[1..], Rest(ops[0], paid), m)
  }

  /** The rent kept by accounts the run opened. */
  function TotalRent(ops: seq<Op>, l: Ledger, w: World, paid: seq<nat>): nat {
    if ops == [] then 0
    else match Run(ops[0], l, w, Answer(ops[0], paid))
      case None => 0
      case Some(next) => RentOf(ops[0], l, w) + TotalRent(ops[1..], next, w, Rest(ops[0], paid))
  }

  /** Nothing is gained or lost between the wallet, the pools and the rent. */
  lemma {:induction false} Conserved(ops: seq<Op>, l: Ledger, w: World, paid: seq<nat>, m: Key)
    requires w.OneAccountEach() && Sound(l, w) && AllOwn(ops, w)
    requires Execute(ops, l, w, paid).Some?
    ensures var r := Execute(ops, l, w, paid).value;
            && Sound(r, w)
            && Held(r, w, m) == Held(l, w, m) + TotalMoved(ops, paid, m)
                                - if m == w.wrapped then TotalRent(ops, l, w, paid) else 0
    decreases |ops|
  {
    if ops == [] {
    } else {
      RunMoves(ops[0], l, w, Answer(ops[0], paid), m);
      var next := Run(ops[0], l, w, Answer(ops[0], paid)).value;
      Conserved(ops[1..], next, w, Rest(ops[0], paid), m);
    }
  }

  predicate StaysOpen(op: Op, w: World) {
    op.Open? && op.mint != w.wrapped
  }

  /** How many accounts that stay open the instructions may open. */
  function Opens(ops: seq<Op>, w: World): nat {
    if ops == [] then 0 else (if StaysOpen(ops[0], w) then 1 else 0) + Opens(ops[1..], w)
  }

  lemma OneMoreRent(rent: nat, n: nat)
    ensures rent * (1 + n) == rent + rent * n
  {
  }

  lemma {:induction false} RentIsBounded(ops: seq<Op>, l: Ledger, w: World, paid: seq<nat>)
    ensures TotalRent(ops, l, w, paid) <= w.rent * Opens(ops, w)
    decreases |ops|
  {
    if ops == [] || Run(ops[0], l, w, Answer(ops[0], paid)).None? {
    } else {
      RentIsBounded(ops[1..], Run(ops[0], l, w, Answer(ops[0], paid)).value, w, Rest(ops[0], paid));
      OneMoreRent(w.rent, Opens(ops[1..], w));
    }
  }

  predicate Uses(op: Op, account: Key) {
    if op.Trade? then op.source == account || op.destination == account else op.account == account
  }

  /** An account no instruction names is as it was. */
  lemma {:induction false} OthersUntouched(ops: seq<Op>, l: Ledger, w: World, paid: seq<nat>, k: Key)
    requires Execute(ops, l, w, paid).Some?
    requires forall i :: 0 <= i < |ops| ==> !Uses(ops[i], k)
    ensures var r := Execute(ops, l, w, paid).value;
            (k in r.accounts <==> k in l.accounts) && (k in l.accounts ==> r.accounts[k] == l.accounts[k])
    decreases |ops|
  {
    if ops == [] {
    } else {
      assert !Uses(ops[0], k);
      OthersUntouched(ops[1..], Run(ops[0], l, w, Answer(ops[0], paid)).value, w, Rest(ops[0], paid), k);
    }
  }
}
