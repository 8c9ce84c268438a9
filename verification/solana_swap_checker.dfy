/**
 verifySwapMessage (internal/chain/solana/swap_message.go): the plan's checks, and
 every Raydium instruction decoded again and compared with the swap derived from
 the pool's state. The decoders of the exchange are a parameter.
 */
module SolanaSwapChecker {
  import opened Wrappers
  import opened SolanaCodec
  import opened SolanaReader
  import opened SolanaChecker

  /** Which programs are exchanges, and their strict instruction decoder. */
  datatype Exchange<!S> = Exchange(isSwap: Key -> bool, decode: (Key, seq<Key>, Bytes) -> Option<S>)

  function Decoded<S>(exchange: Exchange<S>, call: Call): Option<S> {
    exchange.decode(call.program, call.accounts, call.data)
  }

  /** Every swap the calls make, in order; None for one that does not decode. */
  function SwapsIn<S>(exchange: Exchange<S>, want: seq<Planned>): seq<Option<S>> {
    if want == [] then []
    else
      var last := Asked(want[|want| - 1]);
      SwapsIn(exchange, want[..|want| - 1]) + if exchange.isSwap(last.program) then [Decoded(exchange, last)] else []
  }

  function Wanted<S>(swaps: seq<S>): seq<Option<S>> {
    seq(|swaps|, i requires 0 <= i < |swaps| => Some(swaps[i]))
  }

  predicate SignsAlone(accounts: seq<Meta>, payer: Key) {
    forall j :: 0 <= j < |accounts| ==> accounts[j].signer ==> accounts[j].key == payer
  }

  predicate PayerSignsAlone(want: seq<Planned>, payer: Key) {
    forall i :: 0 <= i < |want| ==> SignsAlone(want[i].accounts, payer)
  }

  /** The message is the planned swap. */
  predicate SwapIs<S(==)>(
    message: Bytes, payer: Key, blockhash: Key, want: seq<Planned>, swaps: seq<S>, tables: Tables,
    exchange: Exchange<S>)
  {
    match DecodeSwap(message, tables)
    case None => false
    case Some(m) =>
      && Exactly(m, payer, blockhash, want)
      && PayerSignsAlone(want, payer)
      && SwapsIn(exchange, want) == Wanted(swaps)
  }

  lemma SwapsOneMore<S>(exchange: Exchange<S>, want: seq<Planned>, i: nat)
    requires i < |want|
    ensures SwapsIn(exchange, want[..i + 1]) == SwapsIn(exchange, want[..i])
              + if exchange.isSwap(want[i].program) then [Decoded(exchange, Asked(want[i]))] else []
  {
    assert want[..i + 1][..i] == want[..i];
  }

  lemma {:induction false} SwapsGrow<S>(exchange: Exchange<S>, want: seq<Planned>, i: nat)
    requires i <= |want|
    ensures SwapsIn(exchange, want[..i]) <= SwapsIn(exchange, want)
    decreases |want| - i
  {
    if i == |want| {
      assert want[..i] == want;
    } else {
      SwapsOneMore(exchange, want, i);
      SwapsGrow(exchange, want, i + 1);
    }
  }

  method SignersAllowed(accounts: seq<Meta>, payer: Key) returns (ok: bool)
    ensures ok <==> SignsAlone(accounts, payer)
  {
    for j := 0 to |accounts|
      invariant SignsAlone(accounts[..j], payer)
    {
      if accounts[j].signer && accounts[j].key != payer { return false; }
    }
    assert accounts[..|accounts|] == accounts;
    ok := true;
  }

  /** The first i planned instructions make exactly the first `next` swaps. */
  predicate Matched<S(==)>(exchange: Exchange<S>, want: seq<Planned>, i: nat, swaps: seq<S>, next: nat)
    requires i <= |want|
  {
    next <= |swaps| && SwapsIn(exchange, want[..i]) == Wanted(swaps)[..next]
  }

  lemma MatchedAtEnds<S>(exchange: Exchange<S>, want: seq<Planned>, swaps: seq<S>)
    ensures Matched(exchange, want, 0, swaps, 0)
    ensures forall next: nat :: Matched(exchange, want, |want|, swaps, next) ==>
              (next == |swaps| <==> SwapsIn(exchange, want) == Wanted(swaps))
  {
    assert want[..|want|] == want;
    forall next: nat | Matched(exchange, want, |want|, swaps, next)
      ensures next == |swaps| <==> SwapsIn(exchange, want) == Wanted(swaps)
    {
      assert next == |swaps| ==> Wanted(swaps)[..next] == Wanted(swaps);
    }
  }

  /** The swap an instruction makes, against the next planned one. */
  method NextSwap<S(==)>(exchange: Exchange<S>, want: seq<Planned>, i: nat, swaps: seq<S>, next: nat)
    returns (ok: bool, after: nat)
    requires i < |want| && Matched(exchange, want, i, swaps, next)
    ensures ok ==> Matched(exchange, want, i + 1, swaps, after)
    ensures !ok ==> SwapsIn(exchange, want) != Wanted(swaps)
  {
    SwapsOneMore(exchange, want, i);
    SwapsGrow(exchange, want, i + 1);
    after := next;
    var call := Asked(want[i]);
    if exchange.isSwap(call.program) {
      var sofar := SwapsIn(exchange, want[..i + 1]);
      assert sofar[next] == Decoded(exchange, call) && |sofar| == next + 1;
      if next >= |swaps| { return false, next; }
      if exchange.decode(call.program, call.accounts, call.data) != Some(swaps[next]) {
        assert SwapsIn(exchange, want)[next] != Wanted(swaps)[next];
        return false, next;
      }
      after := next + 1;
      assert Wanted(swaps)[..after] == Wanted(swaps)[..next] + [Some(swaps[next])];
    }
    ok := true;
  }

  predicate Cleared(keys: seq<Key>, got: Instruction, want: Planned, payer: Key) {
    SameCall(keys, got, want) && SignsAlone(want.accounts, payer)
  }

  predicate AllCleared(keys: seq<Key>, instructions: seq<Instruction>, want: seq<Planned>, payer: Key) {
    |instructions| == |want| && forall i :: 0 <= i < |want| ==> Cleared(keys, instructions[i], want[i], payer)
  }

  lemma ClearedMeans(keys: seq<Key>, instructions: seq<Instruction>, want: seq<Planned>, payer: Key)
    requires |instructions| == |want|
    ensures AllCleared(keys, instructions, want, payer) <==>
            SameCalls(keys, instructions, want) && PayerSignsAlone(want, payer)
  {
    if SameCalls(keys, instructions, want) && PayerSignsAlone(want, payer) {
      forall i | 0 <= i < |want| ensures Cleared(keys, instructions[i], want[i], payer) {
        assert SameCall(keys, instructions[i], want[i]);
      }
    }
    if AllCleared(keys, instructions, want, payer) {
      forall i | 0 <= i < |want|
        ensures SameCall(keys, instructions[i], want[i]) && SignsAlone(want[i].accounts, payer)
      {
        assert Cleared(keys, instructions[i], want[i], payer);
      }
    }
  }

  predicate ClearedUpTo(keys: seq<Key>, instructions: seq<Instruction>, want: seq<Planned>, payer: Key, i: nat)
    requires i <= |want| == |instructions|
  {
    forall k :: 0 <= k < i ==> Cleared(keys, instructions[k], want[k], payer)
  }

  method ClearInstruction(
    keys: seq<Key>, got: Instruction, want: Planned, payer: Key, used0: set<Key>, writable0: set<Key>)
    returns (ok: bool, used: set<Key>, writable: set<Key>)
    requires Resolvable(got, |keys|, |keys|)
    ensures ok <==> Cleared(keys, got, want, payer)
    ensures ok ==> used == used0 + UsedBy(want)
    ensures ok ==> writable == writable0 + Marked(want.accounts)
  {
    ok, used, writable := SameInstruction(keys, got, want, used0, writable0);
    if !ok { return; }
    ok := SignersAllowed(want.accounts, payer);
  }

  /** Instruction i, after i that were as planned. */
  method ClearNext(
    keys: seq<Key>, instructions: seq<Instruction>, payer: Key, want: seq<Planned>, i: nat,
    used0: set<Key>, writable0: set<Key>)
    returns (ok: bool, used: set<Key>, writable: set<Key>)
    requires i < |want| == |instructions| && AllResolvable(instructions, |keys|, |keys|)
    requires ClearedUpTo(keys, instructions, want, payer, i) && Noted(payer, want, i, used0, writable0)
    ensures ok ==> ClearedUpTo(keys, instructions, want, payer, i + 1) && Noted(payer, want, i + 1, used, writable)
    ensures !ok ==> !AllCleared(keys, instructions, want, payer)
  {
    NotedOneMore(payer, want, i, used0, writable0);
    ok, used, writable := ClearInstruction(keys, instructions[i], want[i], payer, used0, writable0);
    assert ok <==> Cleared(keys, instructions[i], want[i], payer);
  }

  /** The instruction list of verifySwapMessage, compared one by one. */
  method SameSwapInstructions<S(==)>(
    keys: seq<Key>, instructions: seq<Instruction>, payer: Key, want: seq<Planned>, swaps: seq<S>,
        exchange: Exchange<S>)
    returns (ok: bool, used: set<Key>, writable: set<Key>)
    requires AllResolvable(instructions, |keys|, |keys|) && |instructions| == |want|
    ensures ok <==> AllCleared(keys, instructions, want, payer) && SwapsIn(exchange, want) == Wanted(swaps)
    ensures ok ==> Noted(payer, want, |want|, used, writable)
  {
    used, writable := {payer}, {payer};
    var next: nat := 0;
    NotedAtEnds(payer, want);
    MatchedAtEnds(exchange, want, swaps);
    for i := 0 to |want|
      invariant ClearedUpTo(keys, instructions, want, payer, i)
      invariant Matched(exchange, want, i, swaps, next)
      invariant Noted(payer, want, i, used, writable)
    {
      ok, used, writable := ClearNext(keys, instructions, payer, want, i, used, writable);
      if !ok { return; }
      ok, next := NextSwap(exchange, want, i, swaps, next);
      if !ok { return; }
    }
    ok := next == |swaps|;
  }

  /** Accepts exactly the messages that are the planned swap. */
  method VerifySwapMessage<S(==)>(
    message: Bytes, payer: Key, blockhash: Key, want: seq<Planned>, swaps: seq<S>, tables: Tables,
    exchange: Exchange<S>)
    returns (ok: bool)
    ensures ok <==> SwapIs(message, payer, blockhash, want, swaps, tables, exchange)
  {
    var decoded := DecodeSwapMessage(message, tables);
    if decoded.None? { return false; }
    var m := decoded.value;
    SwapIsResolvable(message, tables);
    StaticIsEnough(m.instructions, m.staticKeys, |m.keys|);
    if m.header.signers != 1 || m.header.readonlySigned != 0 { return false; }
    if m.staticKeys == 0 || m.keys[0] != payer { return false; }
    if m.blockhash != blockhash { return false; }
    ok := AllDistinct(m.keys);
    if !ok { return; }
    if |m.instructions| != |want| { return false; }
    var used, writable;
    ok, used, writable := SameSwapInstructions(m.keys, m.instructions, payer, want, swaps, exchange);
    ClearedMeans(m.keys, m.instructions, want, payer);
    if !ok { return; }
    NotedAtEnds(payer, want);
    ok := AllJustified(m, used, writable);
  }
}
