/**
 A reference compiler from plans to messages, in any account order a serializer may
 choose. Whatever it produces passes the checkers, and any two messages that pass
 for one plan run the same calls with the same privileges.
 */
module SolanaCompiler {
  import opened Wrappers
  import opened SolanaCodec
  import opened SolanaChecker
  import opened SolanaSwapChecker

  // ----------------------------------------------------- acceptance is exact

  /** Which accounts the runtime lets the message's instructions write. */
  function WritableKeys(m: SwapMessage): set<Key> {
    set k | 0 <= k < |m.keys| && IsWritableSwap(m, k) :: m.keys[k]
  }

  function KeySet(keys: seq<Key>): set<Key> {
    set k | k in keys
  }

  lemma UsedKeysAreThere(m: SwapMessage, payer: Key, blockhash: Key, want: seq<Planned>)
    requires Exactly(m, payer, blockhash, want)
    ensures {payer} + Touched(want) <= KeySet(m.keys)
  {
    forall i, k | 0 <= i < |want| && k in UsedBy(want[i]) ensures k in m.keys {
      assert SameCall(m.keys, m.instructions[i], want[i]);
      if k != want[i].program {
        var j :| 0 <= j < |want[i].accounts| && k == want[i].accounts[j].key;
        assert KeysOf(want[i].accounts)[j] == k;
        assert At(m.keys, m.instructions[i].accounts)[j] == k;
      }
    }
  }

  lemma WrittenIsTouched(want: seq<Planned>)
    ensures Written(want) <= Touched(want)
  {
    forall k | k in Written(want) ensures k in Touched(want) {
      var i :| 0 <= i < |want| && k in Marked(want[i].accounts);
      assert k in UsedBy(want[i]);
    }
  }

  /**
   An accepted message has the planned accounts and no other, and may write
   exactly the payer and what the plan writes.
   */
  lemma AcceptedPrivileges(m: SwapMessage, payer: Key, blockhash: Key, want: seq<Planned>)
    requires Exactly(m, payer, blockhash, want)
    ensures KeySet(m.keys) == {payer} + Touched(want)
    ensures WritableKeys(m) == {payer} + Written(want)
  {
    UsedKeysAreThere(m, payer, blockhash, want);
    WrittenIsTouched(want);
    var used, written := {payer} + Touched(want), {payer} + Written(want);
    forall k | 0 <= k < |m.keys|
      ensures m.keys[k] in used && (IsWritableSwap(m, k) <==> m.keys[k] in written)
    {
      assert Justified(m, used, written, k);
    }
    forall key | key in written ensures key in WritableKeys(m) {
      assert key in KeySet(m.keys);
      var k :| 0 <= k < |m.keys| && m.keys[k] == key;
      assert IsWritableSwap(m, k);
    }
  }

  /** A plan leaves an accepted message no freedom that the runtime can see. */
  lemma AcceptedMessagesAgree(a: SwapMessage, b: SwapMessage, payer: Key, blockhash: Key, want: seq<Planned>)
    requires Exactly(a, payer, blockhash, want) && Exactly(b, payer, blockhash, want)
    ensures KeySet(a.keys) == KeySet(b.keys) && WritableKeys(a) == WritableKeys(b)
    ensures |a.keys| == |b.keys| && a.keys[0] == b.keys[0]
    ensures |a.instructions| == |b.instructions|
    ensures forall i :: 0 <= i < |a.instructions| ==>
              && Resolvable(a.instructions[i], |a.keys|, |a.keys|) && Resolvable(b.instructions[i], |b.keys|, |b.keys|)
              && Made(a.keys, a.instructions[i]) == Made(b.keys, b.instructions[i])
  {
    AcceptedPrivileges(a, payer, blockhash, want);
    AcceptedPrivileges(b, payer, blockhash, want);
    DistinctCount(a.keys);
    DistinctCount(b.keys);
    forall i | 0 <= i < |a.instructions|
      ensures Resolvable(a.instructions[i], |a.keys|, |a.keys|) && Resolvable(b.instructions[i], |b.keys|, |b.keys|)
              && Made(a.keys, a.instructions[i]) == Made(b.keys, b.instructions[i])
    {
      assert SameCall(a.keys, a.instructions[i], want[i]) && SameCall(b.keys, b.instructions[i], want[i]);
    }
  }

  lemma {:induction false} DistinctCount(keys: seq<Key>)
    requires Distinct(keys)
    ensures |KeySet(keys)| == |keys|
    decreases |keys|
  {
    if keys == [] {
      assert KeySet(keys) == {};
    } else {
      var front, last := keys[..|keys| - 1], keys[|keys| - 1];
      DistinctCount(front);
      assert last !in KeySet(front);
      assert KeySet(keys) == KeySet(front) + {last};
    }
  }

  // ------------------------------------------------------- reference compiler

  function Position(keys: seq<Key>, key: Key): (k: nat)
    requires key in keys
    ensures k < |keys| && keys[k] == key
  {
    if keys[0] == key then 0 else 1 + Position(keys[1..], key)
  }

  function Indexed(keys: seq<Key>, accounts: seq<Meta>): (r: Bytes)
    requires |keys| <= 256 && Named(accounts) <= KeySet(keys)
    ensures IndexesBelow(r, |keys|) && At(keys, r) == KeysOf(accounts)
  {
    if accounts == [] then []
    else
      assert accounts[0].key in Named(accounts);
      NamedTail(accounts);
      var rest := Indexed(keys, accounts[1..]);
      FirstAndRest(keys, Position(keys, accounts[0].key), rest, accounts);
      [Position(keys, accounts[0].key)] + rest
  }

  lemma FirstAndRest(keys: seq<Key>, first: byte, rest: Bytes, accounts: seq<Meta>)
    requires accounts != [] && first < |keys| && keys[first] == accounts[0].key
    requires IndexesBelow(rest, |keys|) && At(keys, rest) == KeysOf(accounts[1..])
    ensures IndexesBelow([first] + rest, |keys|) && At(keys, [first] + rest) == KeysOf(accounts)
  {
    var all := [first] + rest;
    assert |rest| == |At(keys, rest)| == |accounts| - 1;
    forall j | 0 <= j < |all| ensures all[j] < |keys| && keys[all[j]] == KeysOf(accounts)[j] {
      if j > 0 { assert At(keys, rest)[j - 1] == KeysOf(accounts[1..])[j - 1]; }
    }
  }

  lemma NamedTail(accounts: seq<Meta>)
    requires accounts != []
    ensures Named(accounts[1..]) <= Named(accounts)
  {
    forall j | 0 <= j < |accounts[1..]| ensures accounts[1..][j].key in Named(accounts) {
      assert accounts[j + 1].key in Named(accounts);
    }
  }

  predicate Available(keys: seq<Key>, programs: nat, want: Planned) {
    && programs <= |keys| <= 256
    && want.program in keys[..programs]
    && Named(want.accounts) <= KeySet(keys)
  }

  function CompileOne(keys: seq<Key>, programs: nat, want: Planned): (r: Instruction)
    requires Available(keys, programs, want)
    ensures Resolvable(r, programs, |keys|) && SameCall(keys, r, want)
  {
    Instruction(Position(keys[..programs], want.program), Indexed(keys, want.accounts), want.data)
  }

  function CompileAll(keys: seq<Key>, programs: nat, want: seq<Planned>): (r: seq<Instruction>)
    requires forall i :: 0 <= i < |want| ==> Available(keys, programs, want[i])
    ensures SameCalls(keys, r, want)
    ensures AllResolvable(r, programs, |keys|)
  {
    seq(|want|, i requires 0 <= i < |want| => CompileOne(keys, programs, want[i]))
  }

  /**
   Any order of accounts a serializer may choose: the payer first, the programs
   among the static keys, every account once, and the writable flags, which the
   order and the counts encode, on the payer and what the plan writes.
   */
  datatype Layout = Layout(staticKeys: seq<Key>, writable: seq<Key>, readonly: seq<Key>, readonlyStatic: nat) {
    function Keys(): seq<Key> { staticKeys + writable + readonly }
    function Header(): SolanaCodec.Header { SolanaCodec.Header(1, 0, readonlyStatic) }

    predicate Lays(payer: Key, want: seq<Planned>) {
      && 0 < |staticKeys| && |Keys()| <= 256 && Keys()[0] == payer
      && readonlyStatic < |staticKeys|
      && Distinct(Keys())
      && KeySet(Keys()) == {payer} + Touched(want)
      && (forall i :: 0 <= i < |want| ==> want[i].program in staticKeys)
      && (forall k :: 0 <= k < |Keys()| ==> (Flag(k) <==> Keys()[k] in {payer} + Written(want)))
    }

    predicate Flag(k: nat) {
      k < |staticKeys| - readonlyStatic || |staticKeys| <= k < |staticKeys| + |writable|
    }
  }

  lemma LaidOutIsAvailable(layout: Layout, payer: Key, want: seq<Planned>, i: nat)
    requires layout.Lays(payer, want) && i < |want|
    ensures Available(layout.Keys(), |layout.staticKeys|, want[i])
  {
    var keys, n := layout.Keys(), |layout.staticKeys|;
    assert keys[..n] == layout.staticKeys;
    forall k | k in Named(want[i].accounts) ensures k in KeySet(keys) {
      assert k in UsedBy(want[i]) && k in Touched(want);
    }
  }

  /** The raw instructions of the compiled message. */
  function Compile(layout: Layout, payer: Key, want: seq<Planned>): (r: seq<Instruction>)
    requires layout.Lays(payer, want)
    ensures SameCalls(layout.Keys(), r, want)
    ensures AllResolvable(r, |layout.staticKeys|, |layout.Keys()|)
  {
    assert forall i :: 0 <= i < |want| ==> Available(layout.Keys(), |layout.staticKeys|, want[i]) by {
      forall i | 0 <= i < |want| ensures Available(layout.Keys(), |layout.staticKeys|, want[i]) {
        LaidOutIsAvailable(layout, payer, want, i);
      }
    }
    CompileAll(layout.Keys(), |layout.staticKeys|, want)
  }

  /** The message a layout stands for, once decoded and resolved. */
  function MessageOf(
    layout: Layout, versioned: bool, payer: Key, blockhash: Key, want: seq<Planned>, lookups: seq<Lookup>): SwapMessage
    requires layout.Lays(payer, want)
  {
    SwapMessage(versioned, layout.Header(), |layout.staticKeys|, layout.Keys(), |layout.writable|, blockhash,
      Compile(layout, payer, want), lookups)
  }

  /** Whatever order was chosen, the compiled message is exactly the plan. */
  lemma CompiledIsExact(
    layout: Layout, versioned: bool, payer: Key, blockhash: Key, want: seq<Planned>, lookups: seq<Lookup>)
    requires layout.Lays(payer, want)
    ensures Exactly(MessageOf(layout, versioned, payer, blockhash, want, lookups), payer, blockhash, want)
  {
    var m := MessageOf(layout, versioned, payer, blockhash, want, lookups);
    var used, written := {payer} + Touched(want), {payer} + Written(want);
    forall k | 0 <= k < |m.keys| ensures Justified(m, used, written, k) {
      assert m.keys[k] in KeySet(layout.Keys());
      assert IsWritableSwap(m, k) <==> layout.Flag(k);
    }
  }

  /** Sizes the format can carry. */
  predicate Encodable(want: seq<Planned>) {
    |want| < SIZE_LIMIT && forall i :: 0 <= i < |want| ==>
        |want[i].accounts| < SIZE_LIMIT && |want[i].data| < SIZE_LIMIT
  }

  lemma CompiledIsEncodable(layout: Layout, payer: Key, blockhash: Key, want: seq<Planned>)
    requires layout.Lays(payer, want) && Encodable(want)
    ensures EncodableParts(Opening(layout.Header(), layout.staticKeys, blockhash), Compile(layout, payer, want))
  {
    var raws := Compile(layout, payer, want);
    forall raw | raw in raws ensures EncodableRaw(raw) {
      var i :| 0 <= i < |raws| && raws[i] == raw;
      assert Resolvable(raws[i], |layout.staticKeys|, |layout.Keys()|);
      assert SameCall(layout.Keys(), raws[i], want[i]);
      assert |At(layout.Keys(), raws[i].accounts)| == |KeysOf(want[i].accounts)|;
    }
  }

  /** A compiled legacy message, serialized and read back, passes the checker. */
  lemma LegacyCompiles(layout: Layout, payer: Key, blockhash: Key, want: seq<Planned>)
    requires layout.Lays(payer, want) && Encodable(want)
    requires layout.writable == [] && layout.readonly == []
    ensures var m := Message(layout.Header(), layout.staticKeys, blockhash, Compile(layout, payer, want));
            WellFormed(m) && LegacyIs(EncodeLegacy(m), payer, blockhash, want)
  {
    assert layout.Keys() == layout.staticKeys;
    CompiledIsEncodable(layout, payer, blockhash, want);
    CompiledIsExact(layout, false, payer, blockhash, want, []);
    LegacyRoundTrip(Message(layout.Header(), layout.staticKeys, blockhash, Compile(layout, payer, want)));
  }

  /** The lookups load what the layout says they load. */
  predicate Loads(layout: Layout, lookups: seq<Lookup>, tables: Tables) {
    && LoadAll(tables, lookups, true) == Some(layout.writable)
    && LoadAll(tables, lookups, false) == Some(layout.readonly)
  }

  /** A compiled v0 message, serialized and read back, passes the swap checker. */
  lemma V0Compiles<S>(
    layout: Layout, payer: Key, blockhash: Key, want: seq<Planned>, lookups: seq<Lookup>, tables: Tables,
    swaps: seq<S>, exchange: Exchange<S>)
    requires layout.Lays(payer, want) && Encodable(want) && Loads(layout, lookups, tables)
    requires |lookups| < SIZE_LIMIT && forall l :: l in lookups ==> EncodableLookup(l)
    requires PayerSignsAlone(want, payer) && SwapsIn(exchange, want) == Wanted(swaps)
    ensures var opening := Opening(layout.Header(), layout.staticKeys, blockhash);
            var raws := Compile(layout, payer, want);
            && EncodableParts(opening, raws)
            && SwapIs(EncodeV0(opening, raws, lookups), payer, blockhash, want, swaps, tables, exchange)
  {
    var opening := Opening(layout.Header(), layout.staticKeys, blockhash);
    var raws := Compile(layout, payer, want);
    CompiledIsEncodable(layout, payer, blockhash, want);
    V0RoundTrip(opening, raws, lookups, tables);
    CompiledIsExact(layout, true, payer, blockhash, want, lookups);
  }

  /** A swap that needs no lookup tables is serialized as a legacy message, and passes too. */
  lemma LegacySwapCompiles<S>(
    layout: Layout, payer: Key, blockhash: Key, want: seq<Planned>, tables: Tables, swaps: seq<S>,
    exchange: Exchange<S>)
    requires layout.Lays(payer, want) && Encodable(want) && layout.writable == [] && layout.readonly == []
    requires PayerSignsAlone(want, payer) && SwapsIn(exchange, want) == Wanted(swaps)
    ensures var m := Message(layout.Header(), layout.staticKeys, blockhash, Compile(layout, payer, want));
            WellFormed(m) && SwapIs(EncodeLegacy(m), payer, blockhash, want, swaps, tables, exchange)
  {
    LegacyCompiles(layout, payer, blockhash, want);
    var m := Message(layout.Header(), layout.staticKeys, blockhash, Compile(layout, payer, want));
    LegacyRoundTrip(m);
    FirstByteIsTheHeader(m);
    DecodersAgree(EncodeLegacy(m), tables);
  }

  lemma FirstByteIsTheHeader(m: Message)
    requires WellFormed(m)
    ensures |EncodeLegacy(m)| >= 1 && EncodeLegacy(m)[0] == m.header.signers < 128
  {
  }

  // ------------------------------------------------ every small plan compiles

  lemma {:induction false} InSomeOrder(s: set<Key>) returns (keys: seq<Key>)
    ensures Distinct(keys) && KeySet(keys) == s
    decreases |s|
  {
    if s == {} {
      keys := [];
    } else {
      var k :| k in s;
      var rest := InSomeOrder(s - {k});
      keys := [k] + rest;
      assert forall i :: 0 < i < |keys| ==> keys[i] == rest[i - 1] && rest[i - 1] in KeySet(rest);
      assert KeySet(keys) == {k} + KeySet(rest);
    }
  }

  /** A legacy layout exists for every plan that names at most 256 accounts. */
  lemma EveryPlanHasALayout(payer: Key, want: seq<Planned>) returns (layout: Layout)
    requires |{payer} + Touched(want)| <= 256
    ensures layout.Lays(payer, want) && layout.writable == [] && layout.readonly == []
  {
    var w := InSomeOrder(Written(want) - {payer});
    var r := InSomeOrder(Touched(want) - Written(want) - {payer});
    layout := Layout([payer] + w + r, [], [], |r|);
    WrittenIsTouched(want);
    PartsLay(payer, want, w, r);
  }

  lemma KeysOfParts(payer: Key, w: seq<Key>, r: seq<Key>)
    ensures KeySet([payer] + w + r) == {payer} + KeySet(w) + KeySet(r)
  {
  }

  lemma ProgramsAreTouched(want: seq<Planned>, i: nat)
    requires i < |want|
    ensures want[i].program in Touched(want)
  {
    assert want[i].program in UsedBy(want[i]);
  }

  lemma PartsCover(payer: Key, touched: set<Key>, written: set<Key>, w: seq<Key>, r: seq<Key>)
    requires Distinct(w) && KeySet(w) == written - {payer}
    requires Distinct(r) && KeySet(r) == touched - written - {payer}
    requires written <= touched
    ensures Distinct([payer] + w + r) && KeySet([payer] + w + r) == {payer} + touched
    ensures forall k :: 0 <= k < 1 + |w| + |r| ==> (k < 1 + |w| <==> ([payer] + w + r)[k] in {payer} + written)
  {
    assert payer !in KeySet(w) && payer !in KeySet(r);
    ThreePartsAreDistinct(payer, w, r);
    KeysOfParts(payer, w, r);
    assert {payer} + KeySet(w) + KeySet(r) == {payer} + touched;
    forall k | 0 <= k < 1 + |w| + |r| ensures k < 1 + |w| <==> ([payer] + w + r)[k] in {payer} + written {
      FlagByPart(payer, w, r, k);
      assert {payer} + KeySet(w) == {payer} + written;
    }
  }

  lemma PartsLay(payer: Key, want: seq<Planned>, w: seq<Key>, r: seq<Key>)
    requires Distinct(w) && KeySet(w) == Written(want) - {payer}
    requires Distinct(r) && KeySet(r) == Touched(want) - Written(want) - {payer}
    requires Written(want) <= Touched(want) && |{payer} + Touched(want)| <= 256
    ensures Layout([payer] + w + r, [], [], |r|).Lays(payer, want)
  {
    var keys := [payer] + w + r;
    var layout := Layout(keys, [], [], |r|);
    PartsCover(payer, Touched(want), Written(want), w, r);
    assert layout.Keys() == keys;
    DistinctCount(keys);
    forall i | 0 <= i < |want| ensures want[i].program in keys {
      ProgramsAreTouched(want, i);
      assert want[i].program in KeySet(keys);
    }
  }

  lemma ThreePartsAreDistinct(payer: Key, w: seq<Key>, r: seq<Key>)
    requires Distinct(w) && Distinct(r) && payer !in w && payer !in r && KeySet(w) !! KeySet(r)
    ensures Distinct([payer] + w + r)
  {
    assert forall i :: 0 <= i < |w| ==> w[i] in KeySet(w);
    assert forall i :: 0 <= i < |r| ==> r[i] in KeySet(r);
  }

  lemma FlagByPart(payer: Key, w: seq<Key>, r: seq<Key>, k: nat)
    requires k < 1 + |w| + |r| && payer !in r && KeySet(w) !! KeySet(r)
    ensures k < 1 + |w| <==> ([payer] + w + r)[k] in {payer} + KeySet(w)
  {
    var keys := [payer] + w + r;
    if 1 <= k < 1 + |w| {
      assert keys[k] == w[k - 1];
    } else if 1 + |w| <= k {
      assert keys[k] == r[k - 1 - |w|] && keys[k] in KeySet(r);
    }
  }
}
