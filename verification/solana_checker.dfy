/**
 The two checkers that decode a message on its own before it is signed and
 compare it with the plan (internal/chain/solana/intent.go, swap_message.go).
 */
module SolanaChecker {
  import opened Wrappers
  import opened SolanaCodec
  import opened SolanaReader

  datatype Meta = Meta(key: Key, writable: bool, signer: bool)

  /** One instruction of a plan. */
  datatype Planned = Planned(program: Key, accounts: seq<Meta>, data: Bytes)

  /** What the runtime is asked to do, with every account named. */
  datatype Call = Call(program: Key, accounts: seq<Key>, data: Bytes)

  function KeysOf(accounts: seq<Meta>): seq<Key> {
    seq(|accounts|, j requires 0 <= j < |accounts| => accounts[j].key)
  }

  function At(keys: seq<Key>, indexes: Bytes): seq<Key>
    requires IndexesBelow(indexes, |keys|)
  {
    seq(|indexes|, j requires 0 <= j < |indexes| => keys[indexes[j]])
  }

  function Asked(want: Planned): Call {
    Call(want.program, KeysOf(want.accounts), want.data)
  }

  function Made(keys: seq<Key>, i: Instruction): Call
    requires Resolvable(i, |keys|, |keys|)
  {
    Call(keys[i.program], At(keys, i.accounts), i.data)
  }

  function Named(accounts: seq<Meta>): set<Key> {
    set j | 0 <= j < |accounts| :: accounts[j].key
  }

  function Marked(accounts: seq<Meta>): set<Key> {
    set j | 0 <= j < |accounts| && accounts[j].writable :: accounts[j].key
  }

  function UsedBy(want: Planned): set<Key> {
    {want.program} + Named(want.accounts)
  }

  /** Every account the plan names, as a program or as an argument. */
  function Touched(want: seq<Planned>): set<Key> {
    set i, k | 0 <= i < |want| && k in UsedBy(want[i]) :: k
  }

  /** Every account some planned instruction writes. */
  function Written(want: seq<Planned>): set<Key> {
    set i, k | 0 <= i < |want| && k in Marked(want[i].accounts) :: k
  }

  predicate Distinct(keys: seq<Key>) {
    forall i, j :: 0 <= i < j < |keys| ==> keys[i] != keys[j]
  }

  predicate SameCalls(keys: seq<Key>, instructions: seq<Instruction>, want: seq<Planned>) {
    && |instructions| == |want|
    && forall i :: 0 <= i < |want| ==> SameCall(keys, instructions[i], want[i])
  }

  /** The payer is the first key and the one signer, and may be written. */
  predicate PaidBy(m: SwapMessage, payer: Key) {
    m.header.signers == 1 && m.header.readonlySigned == 0 && 0 < m.staticKeys && 0 < |m.keys| && m.keys[0] == payer
  }

  /** Account k is there for a reason and is writable exactly if something writes it. */
  predicate Justified(m: SwapMessage, used: set<Key>, writable: set<Key>, k: nat)
    requires k < |m.keys|
  {
    m.keys[k] in used && (IsWritableSwap(m, k) <==> m.keys[k] in writable)
  }

  /** The message is the plan: nothing else, and no privilege beyond it. */
  predicate Exactly(m: SwapMessage, payer: Key, blockhash: Key, want: seq<Planned>) {
    && PaidBy(m, payer)
    && m.blockhash == blockhash
    && Distinct(m.keys)
    && SameCalls(m.keys, m.instructions, want)
    && forall k :: 0 <= k < |m.keys| ==> Justified(m, {payer} + Touched(want), {payer} + Written(want), k)
  }

  // ---------------------------------------------------------- shared checks

  method AllDistinct(keys: seq<Key>) returns (ok: bool)
    ensures ok <==> Distinct(keys)
  {
    var seen: set<Key> := {};
    for i := 0 to |keys|
      invariant forall k :: k in seen <==> k in keys[..i]
      invariant Distinct(keys[..i])
    {
      assert keys[..i + 1] == keys[..i] + [keys[i]];
      if keys[i] in seen {
        assert keys[i] in keys[..i];
        return false;
      }
      seen := seen + {keys[i]};
    }
    assert keys[..|keys|] == keys;
    return true;
  }

  lemma OneMoreAccount(accounts: seq<Meta>, j: nat)
    requires j < |accounts|
    ensures Named(accounts[..j + 1]) == Named(accounts[..j]) + {accounts[j].key}
    ensures Marked(accounts[..j + 1]) == Marked(accounts[..j]) + if accounts[j].writable then {accounts[j].key} else {}
  {
    assert accounts[..j + 1] == accounts[..j] + [accounts[j]];
  }

  lemma OneMorePlanned(want: seq<Planned>, i: nat)
    requires i < |want|
    ensures Touched(want[..i + 1]) == Touched(want[..i]) + UsedBy(want[i])
    ensures Written(want[..i + 1]) == Written(want[..i]) + Marked(want[i].accounts)
  {
    assert want[..i + 1] == want[..i] + [want[i]];
  }

  /** One instruction against its plan, noting what it uses and writes. */
  method SameInstruction(keys: seq<Key>, got: Instruction, want: Planned, used0: set<Key>, writable0: set<Key>)
    returns (ok: bool, used: set<Key>, writable: set<Key>)
    requires Resolvable(got, |keys|, |keys|)
    ensures ok <==> SameCall(keys, got, want)
    ensures ok ==> used == used0 + UsedBy(want)
    ensures ok ==> writable == writable0 + Marked(want.accounts)
  {
    used, writable := used0, writable0;
    if keys[got.program] != want.program { return false, used, writable; }
    used := used + {want.program};
    if got.data != want.data { return false, used, writable; }
    if |got.accounts| != |want.accounts| {
      assert |Made(keys, got).accounts| != |Asked(want).accounts|;
      return false, used, writable;
    }
    ok, used, writable := SameAccounts(keys, got.accounts, want.accounts, used, writable);
    assert Made(keys, got).accounts == At(keys, got.accounts) && Asked(want).accounts == KeysOf(want.accounts);
  }

  /** The accounts of one instruction, in order. */
  method SameAccounts(keys: seq<Key>, got: Bytes, want: seq<Meta>, used0: set<Key>, writable0: set<Key>)
    returns (ok: bool, used: set<Key>, writable: set<Key>)
    requires IndexesBelow(got, |keys|) && |got| == |want|
    ensures ok <==> At(keys, got) == KeysOf(want)
    ensures ok ==> used == used0 + Named(want) && writable == writable0 + Marked(want)
  {
    used, writable := used0, writable0;
    for j := 0 to |want|
      invariant forall k :: 0 <= k < j ==> At(keys, got)[k] == KeysOf(want)[k]
      invariant used == used0 + Named(want[..j])
      invariant writable == writable0 + Marked(want[..j])
    {
      OneMoreAccount(want, j);
      var meta := want[j];
      if keys[got[j]] != meta.key {
        assert At(keys, got)[j] != KeysOf(want)[j];
        return false, used, writable;
      }
      used := used + {meta.key};
      if meta.writable { writable := writable + {meta.key}; }
    }
    assert want[..|want|] == want;
    ok := true;
  }

  /** Every account is used and has the flag it needs. */
  method AllJustified(m: SwapMessage, used: set<Key>, writable: set<Key>) returns (ok: bool)
    ensures ok <==> forall k :: 0 <= k < |m.keys| ==> Justified(m, used, writable, k)
  {
    for k := 0 to |m.keys|
      invariant forall i :: 0 <= i < k ==> Justified(m, used, writable, i)
    {
      if m.keys[k] !in used || IsWritableSwap(m, k) != (m.keys[k] in writable) {
        assert !Justified(m, used, writable, k);
        return false;
      }
    }
    return true;
  }

  // -------------------------------------------------- transfers and closing

  /** What the first i planned instructions use and write. */
  predicate Noted(payer: Key, want: seq<Planned>, i: nat, used: set<Key>, writable: set<Key>)
    requires i <= |want|
  {
    used == {payer} + Touched(want[..i]) && writable == {payer} + Written(want[..i])
  }

  lemma NotedOneMore(payer: Key, want: seq<Planned>, i: nat, used: set<Key>, writable: set<Key>)
    requires i < |want| && Noted(payer, want, i, used, writable)
    ensures Noted(payer, want, i + 1,
              used + UsedBy(want[i]), writable + Marked(want[i].accounts))
  {
    OneMorePlanned(want, i);
  }

  lemma NotedAtEnds(payer: Key, want: seq<Planned>)
    ensures Noted(payer, want, 0, {payer}, {payer})
    ensures forall used, writable :: Noted(payer, want, |want|, used, writable) ==>
              used == {payer} + Touched(want) && writable == {payer} + Written(want)
  {
    assert want[..|want|] == want;
  }

  predicate SameCall(keys: seq<Key>, got: Instruction, want: Planned) {
    Resolvable(got, |keys|, |keys|) && Made(keys, got) == Asked(want)
  }

  /** The instruction list of verifyInstructions, compared one by one. */
  method SameInstructions(keys: seq<Key>, instructions: seq<Instruction>, payer: Key, want: seq<Planned>)
    returns (ok: bool, used: set<Key>, writable: set<Key>)
    requires AllResolvable(instructions, |keys|, |keys|)
    requires |instructions| == |want|
    ensures ok <==> SameCalls(keys, instructions, want)
    ensures ok ==> used == {payer} + Touched(want) && writable == {payer} + Written(want)
  {
    used, writable := {payer}, {payer};
    NotedAtEnds(payer, want);
    for i := 0 to |want|
      invariant forall k :: 0 <= k < i ==> SameCall(keys, instructions[k], want[k])
      invariant Noted(payer, want, i, used, writable)
    {
      NotedOneMore(payer, want, i, used, writable);
      ok, used, writable := SameInstruction(keys, instructions[i], want[i], used, writable);
      if !ok {
        assert !SameCall(keys, instructions[i], want[i]);
        return;
      }
    }
    ok := true;
  }

  lemma LegacyIsResolvable(message: Bytes)
    requires DecodeLegacy(message).Some?
    ensures var m := DecodeLegacy(message).value; AllResolvable(m.instructions, |m.keys|, |m.keys|)
  {
    DecodersAgree(message, map[]);
    SwapIsResolvable(message, map[]);
  }

  lemma SwapIsResolvable(message: Bytes, tables: Tables)
    requires DecodeSwap(message, tables).Some?
    ensures var m := DecodeSwap(message, tables).value;
            m.staticKeys <= |m.keys| && AllResolvable(m.instructions, m.staticKeys, |m.keys|)
  {
  }

  lemma StaticIsEnough(instructions: seq<Instruction>, programs: nat, keys: nat)
    requires programs <= keys && AllResolvable(instructions, programs, keys)
    ensures AllResolvable(instructions, keys, keys)
  {
    forall i | 0 <= i < |instructions| ensures Resolvable(instructions[i], keys, keys) {
      assert Resolvable(instructions[i], programs, keys);
    }
  }

  predicate LegacyIs(message: Bytes, payer: Key, blockhash: Key, want: seq<Planned>) {
    match DecodeLegacy(message) case None => false case Some(m) => Exactly(AsSwap(m), payer, blockhash, want)
  }

  /** Accepts exactly the legacy messages that are the plan. */
  method VerifyInstructions(message: Bytes, payer: Key, blockhash: Key, want: seq<Planned>) returns (ok: bool)
    ensures ok <==> LegacyIs(message, payer, blockhash, want)
  {
    var decoded := DecodeLegacyMessage(message);
    if decoded.None? { return false; }
    LegacyIsResolvable(message);
    ok := VerifyDecoded(AsSwap(decoded.value), payer, blockhash, want);
  }

  method VerifyDecoded(m: SwapMessage, payer: Key, blockhash: Key, want: seq<Planned>) returns (ok: bool)
    requires AllResolvable(m.instructions, |m.keys|, |m.keys|) && m.staticKeys <= |m.keys|
    ensures ok <==> Exactly(m, payer, blockhash, want)
  {
    if m.header.signers != 1 || m.header.readonlySigned != 0 { return false; }
    if m.staticKeys == 0 || m.keys[0] != payer { return false; }
    if m.blockhash != blockhash { return false; }
    ok := AllDistinct(m.keys);
    if !ok { return; }
    if |m.instructions| != |want| { return false; }
    var used, writable;
    ok, used, writable := SameInstructions(m.keys, m.instructions, payer, want);
    if !ok { return; }
    ok := AllJustified(m, used, writable);
  }
}
