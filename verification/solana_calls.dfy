/**
 Reading a message as the runtime does: the calls it makes, each with its accounts and
 bytes, and the compute budget its first two set.
 */
module SolanaCalls {
  import opened Wrappers
  import opened SolanaCodec
  import opened LittleEndian
  import opened SolanaChecker

  /** Every call a decoded message makes, in order. */
  function CallsOf(m: SwapMessage): seq<Call>
    requires AllResolvable(m.instructions, |m.keys|, |m.keys|)
  {
    seq(|m.instructions|, i requires 0 <= i < |m.instructions| => Made(m.keys, m.instructions[i]))
  }

  function AskedAll(want: seq<Planned>): seq<Call> {
    seq(|want|, i requires 0 <= i < |want| => Asked(want[i]))
  }

  lemma AskedJoin(a: seq<Planned>, b: seq<Planned>)
    ensures AskedAll(a + b) == AskedAll(a) + AskedAll(b)
  {
  }

  /** The calls of a message that is exactly a plan are the planned ones. */
  lemma ExactCalls(m: SwapMessage, payer: Key, blockhash: Key, want: seq<Planned>)
    requires Exactly(m, payer, blockhash, want) && AllResolvable(m.instructions, |m.keys|, |m.keys|)
    ensures CallsOf(m) == AskedAll(want)
  {
    forall i | 0 <= i < |want| ensures Made(m.keys, m.instructions[i]) == Asked(want[i]) {
      assert SameCall(m.keys, m.instructions[i], want[i]);
    }
  }

  /** The number of compute units a call asks for, read from its bytes. */
  predicate SetsLimit(computeBudget: Key, call: Call, limit: nat) {
    && call.program == computeBudget && |call.data| == 5 && call.data[0] == 2 && FromLE(call.data[1..]) == limit
  }

  /** The price of a unit in millionths of a lamport. */
  predicate SetsPrice(computeBudget: Key, call: Call, price: nat) {
    && call.program == computeBudget && |call.data| == 9 && call.data[0] == 3 && FromLE(call.data[1..]) == price
  }

  /** The first two calls set the compute budget, and no other does. */
  predicate Budgeted(computeBudget: Key, calls: seq<Call>, limit: nat, price: nat) {
    && |calls| >= 2 && SetsLimit(computeBudget, calls[0], limit) && SetsPrice(computeBudget, calls[1], price)
    && forall i :: 2 <= i < |calls| ==> calls[i].program != computeBudget
  }
}
