/**
 The two decoders as the wallet runs them (internal/chain/solana/intent.go,
 swap_message.go): a cursor over what is left of the message, loops that append
 what they read. Each is proved to read what SolanaCodec says.
 */
module SolanaReader {
  import opened Wrappers
  import opened SolanaCodec

  /** A read that went as the parser says: the same value, the same bytes left. */
  predicate Reads<T(==)>(got: Option<T>, rest: Bytes, spec: Parse<T>) {
    match spec
    case None => got.None?
    case Some((x, end)) => got == Some(x) && rest == end
  }

  /** The elements already read in front of those still to be read. */
  function Prepend<T>(done: seq<T>, tail: Parse<seq<T>>): Parse<seq<T>> {
    match tail
    case None => None
    case Some((xs, end)) => Some((done + xs, end))
  }

  /** One more element read by a loop over a repeated parser. */
  lemma OneMore<T>(p: Bytes -> Parse<T>, n: nat, s: Bytes, done: seq<T>)
    requires n > 0
    ensures Prepend(done, Repeat(p, n, s)) ==
            match p(s) case None => None case Some((x, rest)) => Prepend(done + [x], Repeat(p, n - 1, rest))
  {
    match p(s)
    case None =>
    case Some((x, rest)) =>
      match Repeat(p, n - 1, rest)
      case None =>
      case Some((xs, end)) => assert done + ([x] + xs) == (done + [x]) + xs;
  }

  lemma NothingDone<T>(tail: Parse<seq<T>>)
    ensures Prepend([], tail) == tail
  {
    match tail
    case None =>
    case Some((xs, end)) => assert [] + xs == xs;
  }

  class Cursor {
    var rest: Bytes

    constructor (data: Bytes)
      ensures rest == data
    {
      rest := data;
    }

    method TakeBytes(n: nat) returns (value: Option<Bytes>)
      modifies this
      ensures Reads(value, rest, Take(old(rest), n))
    {
      if |rest| < n { return None; }
      value := Some(rest[..n]);
      rest := rest[n..];
    }

    /** Three groups of seven bits at most; a fourth is refused. */
    method TakeCompact() returns (value: Option<nat>)
      modifies this
      ensures Reads(value, rest, Compact(old(rest)))
    {
      var sum: nat, scale: nat, groups: nat := 0, 1, 3;
      while groups > 0
        invariant 0 <= groups <= 3 && scale > 0
        invariant Compact(old(rest)) == CompactFrom(rest, groups, scale, sum)
      {
        var b := TakeBytes(1);
        if b.None? { return None; }
        sum := sum + (b.value[0] % 128) * scale;
        if b.value[0] < 128 { return Some(sum); }
        scale := scale * 128;
        groups := groups - 1;
      }
      return None;
    }

    method TakeKey() returns (key: Option<Key>)
      modifies this
      ensures Reads(key, rest, KeyAt(old(rest)))
    {
      var bytes := TakeBytes(32);
      if bytes.None? { return None; }
      return Some(bytes.value);
    }

    method TakeSized() returns (value: Option<Bytes>)
      modifies this
      ensures Reads(value, rest, Sized(old(rest)))
    {
      var size := TakeCompact();
      if size.None? { return None; }
      value := TakeBytes(size.value);
    }

    method TakeKeys(count: nat) returns (keys: Option<seq<Key>>)
      modifies this
      ensures Reads(keys, rest, Repeat(KeyAt, count, old(rest)))
    {
      var out: seq<Key> := [];
      NothingDone(Repeat(KeyAt, count, rest));
      for i := 0 to count
        invariant Repeat(KeyAt, count, old(rest)) == Prepend(out, Repeat(KeyAt, count - i, rest))
      {
        OneMore(KeyAt, count - i, rest, out);
        var key := TakeKey();
        if key.None? { return None; }
        out := out + [key.value];
      }
      assert out + [] == out;
      return Some(out);
    }

    method TakeOpening() returns (opening: Option<Opening>)
      modifies this
      ensures Reads(opening, rest, OpeningAt(old(rest)))
    {
      var head := TakeBytes(3);
      if head.None? { return None; }
      var header := Header(head.value[0], head.value[1], head.value[2]);
      var count := TakeCompact();
      if count.None? { return None; }
      var keys := TakeKeys(count.value);
      if keys.None? || !header.Fits(|keys.value|) { return None; }
      var blockhash := TakeKey();
      if blockhash.None? { return None; }
      return Some(Opening(header, keys.value, blockhash.value));
    }

    method TakeRaw() returns (raw: Option<Instruction>)
      modifies this
      ensures Reads(raw, rest, RawAt(old(rest)))
    {
      var program := TakeBytes(1);
      if program.None? { return None; }
      var accounts := TakeSized();
      if accounts.None? { return None; }
      var data := TakeSized();
      if data.None? { return None; }
      return Some(Instruction(program.value[0], accounts.value, data.value));
    }

    /** The legacy decoder's instruction: indexes are checked while they are read. */
    method TakeChecked(limit: nat) returns (instruction: Option<Instruction>)
      modifies this
      ensures Reads(instruction, rest, CheckedAt(old(rest), limit))
    {
      var program := TakeBytes(1);
      if program.None? || program.value[0] >= limit { return None; }
      var indexes := TakeSized();
      if indexes.None? { return None; }
      var fit := AllBelow(indexes.value, limit);
      if !fit { return None; }
      var data := TakeSized();
      if data.None? { return None; }
      return Some(Instruction(program.value[0], indexes.value, data.value));
    }

    method TakeLookup() returns (lookup: Option<Lookup>)
      modifies this
      ensures Reads(lookup, rest, LookupAt(old(rest)))
    {
      var table := TakeKey();
      if table.None? { return None; }
      var writable := TakeSized();
      if writable.None? { return None; }
      var readonly := TakeSized();
      if readonly.None? { return None; }
      return Some(Lookup(table.value, writable.value, readonly.value));
    }

    method TakeCheckedTimes(limit: nat, count: nat, ghost p: Bytes -> Parse<Instruction>)
      returns (instructions: Option<seq<Instruction>>)
      requires p == Checked(limit)
      modifies this
      ensures Reads(instructions, rest, Repeat(p, count, old(rest)))
    {
      var out: seq<Instruction> := [];
      NothingDone(Repeat(p, count, rest));
      for i := 0 to count
        invariant Repeat(p, count, old(rest)) == Prepend(out, Repeat(p, count - i, rest))
      {
        OneMore(p, count - i, rest, out);
        var one := TakeChecked(limit);
        if one.None? { return None; }
        out := out + [one.value];
      }
      assert out + [] == out;
      return Some(out);
    }

    method TakeCheckedList(limit: nat) returns (instructions: Option<seq<Instruction>>)
      modifies this
      ensures Reads(instructions, rest, Counted(Checked(limit), old(rest)))
    {
      var count := TakeCompact();
      if count.None? { return None; }
      instructions := TakeCheckedTimes(limit, count.value, Checked(limit));
    }

    method TakeRawTimes(count: nat) returns (raws: Option<seq<Instruction>>)
      modifies this
      ensures Reads(raws, rest, Repeat(RawAt, count, old(rest)))
    {
      var out: seq<Instruction> := [];
      NothingDone(Repeat(RawAt, count, rest));
      for i := 0 to count
        invariant Repeat(RawAt, count, old(rest)) == Prepend(out, Repeat(RawAt, count - i, rest))
      {
        OneMore(RawAt, count - i, rest, out);
        var one := TakeRaw();
        if one.None? { return None; }
        out := out + [one.value];
      }
      assert out + [] == out;
      return Some(out);
    }

    method TakeRawList() returns (raws: Option<seq<Instruction>>)
      modifies this
      ensures Reads(raws, rest, Counted(RawAt, old(rest)))
    {
      var count := TakeCompact();
      if count.None? { return None; }
      raws := TakeRawTimes(count.value);
    }

    method TakeLookupTimes(count: nat) returns (lookups: Option<seq<Lookup>>)
      modifies this
      ensures Reads(lookups, rest, Repeat(LookupAt, count, old(rest)))
    {
      var out: seq<Lookup> := [];
      NothingDone(Repeat(LookupAt, count, rest));
      for i := 0 to count
        invariant Repeat(LookupAt, count, old(rest)) == Prepend(out, Repeat(LookupAt, count - i, rest))
      {
        OneMore(LookupAt, count - i, rest, out);
        var one := TakeLookup();
        if one.None? { return None; }
        out := out + [one.value];
      }
      assert out + [] == out;
      return Some(out);
    }

    method TakeLookupList() returns (lookups: Option<seq<Lookup>>)
      modifies this
      ensures Reads(lookups, rest, Counted(LookupAt, old(rest)))
    {
      var count := TakeCompact();
      if count.None? { return None; }
      lookups := TakeLookupTimes(count.value);
    }
  }

  method AllBelow(indexes: Bytes, limit: nat) returns (fit: bool)
    ensures fit <==> IndexesBelow(indexes, limit)
  {
    for i := 0 to |indexes|
      invariant forall k :: 0 <= k < i ==> indexes[k] < limit
    {
      if indexes[i] >= limit { return false; }
    }
    return true;
  }

  /** A legacy message: nothing may follow it, a version is refused. */
  method DecodeLegacyMessage(data: Bytes) returns (message: Option<Message>)
    ensures message == DecodeLegacy(data)
  {
    var cursor := new Cursor(data);
    var opening := cursor.TakeOpening();
    if |data| >= 1 && data[0] >= 128 { return None; }
    if opening.None? { return None; }
    var instructions := cursor.TakeCheckedList(|opening.value.keys|);
    if instructions.None? { return None; }
    if cursor.rest != [] { return None; }
    return Some(Message(opening.value.header, opening.value.keys, opening.value.blockhash, instructions.value));
  }

  /** The addresses some indexes load from one table. */
  method LoadIndexes(tables: Tables, table: Key, indexes: Bytes) returns (keys: Option<seq<Key>>)
    ensures keys == LoadFrom(tables, table, indexes)
  {
    if table !in tables { return None; }
    var content := tables[table];
    var out: seq<Key> := [];
    for i := 0 to |indexes|
      invariant |out| == i
      invariant forall k :: 0 <= k < i ==> indexes[k] < |content| && out[k] == content[indexes[k]]
    {
      if indexes[i] >= |content| { return None; }
      out := out + [content[indexes[i]]];
    }
    assert out == seq(|indexes|, i requires 0 <= i < |indexes| => content[indexes[i]]);
    return Some(out);
  }

  function Joined(done: seq<Key>, tail: Option<seq<Key>>): Option<seq<Key>> {
    match tail case None => None case Some(keys) => Some(done + keys)
  }

  lemma OneTableMore(tables: Tables, lookups: seq<Lookup>, i: nat, writable: bool, done: seq<Key>)
    requires i < |lookups|
    ensures Joined(done, LoadAll(tables, lookups[i..], writable)) ==
            match LoadFrom(tables, lookups[i].table, if writable then lookups[i].writable else lookups[i].readonly)
            case None => None
            case Some(first) => Joined(done + first, LoadAll(tables, lookups[i + 1..], writable))
  {
    assert lookups[i..][1..] == lookups[i + 1..];
    match LoadFrom(tables, lookups[i].table, if writable then lookups[i].writable else lookups[i].readonly)
    case None =>
    case Some(first) =>
      match LoadAll(tables, lookups[i + 1..], writable)
      case None =>
      case Some(rest) => assert done + (first + rest) == (done + first) + rest;
  }

  /** One pass over the lookups: the writable pass, or the read-only one. */
  method LoadPass(tables: Tables, lookups: seq<Lookup>, writable: bool) returns (keys: Option<seq<Key>>)
    ensures keys == LoadAll(tables, lookups, writable)
  {
    var out: seq<Key> := [];
    assert lookups[0..] == lookups;
    assert Joined([], LoadAll(tables, lookups, writable)) == LoadAll(tables, lookups, writable) by {
      if LoadAll(tables, lookups, writable).Some? {
        assert [] + LoadAll(tables, lookups, writable).value == LoadAll(tables, lookups, writable).value;
      }
    }
    for i := 0 to |lookups|
      invariant LoadAll(tables, lookups, writable) == Joined(out, LoadAll(tables, lookups[i..], writable))
    {
      OneTableMore(tables, lookups, i, writable, out);
      var indexes := if writable then lookups[i].writable else lookups[i].readonly;
      var loaded := LoadIndexes(tables, lookups[i].table, indexes);
      if loaded.None? { return None; }
      out := out + loaded.value;
    }
    assert out + [] == out;
    return Some(out);
  }

  /** Every instruction's indexes against the resolved keys; programs must be static. */
  method ResolveInstructions(raws: seq<Instruction>, staticKeys: nat, keys: nat)
    returns (instructions: Option<seq<Instruction>>)
    ensures instructions == if AllResolvable(raws, staticKeys, keys) then Some(raws) else None
  {
    var out: seq<Instruction> := [];
    for i := 0 to |raws|
      invariant out == raws[..i]
      invariant forall k :: 0 <= k < i ==> Resolvable(raws[k], staticKeys, keys)
    {
      if raws[i].program >= staticKeys { return None; }
      var fit := AllBelow(raws[i].accounts, keys);
      if !fit { return None; }
      out := out + [raws[i]];
    }
    assert out == raws;
    return Some(out);
  }

  method ResolveMessage(
    versioned: bool, opening: Opening, raws: seq<Instruction>, lookups: seq<Lookup>, tables: Tables)
    returns (message: Option<SwapMessage>)
    ensures message == Resolve(versioned, opening, raws, lookups, tables)
  {
    var writable := LoadPass(tables, lookups, true);
    if writable.None? { return None; }
    var readonly := LoadPass(tables, lookups, false);
    if readonly.None? { return None; }
    var keys := opening.keys + writable.value + readonly.value;
    var instructions := ResolveInstructions(raws, |opening.keys|, |keys|);
    if instructions.None? { return None; }
    return Some(SwapMessage(versioned, opening.header, |opening.keys|, keys, |writable.value|, opening.blockhash,
      instructions.value, lookups));
  }

  /** A legacy or v0 message, its lookups resolved against the tables' contents. */
  method DecodeSwapMessage(data: Bytes, tables: Tables) returns (message: Option<SwapMessage>)
    ensures message == DecodeSwap(data, tables)
  {
    var versioned := false;
    if |data| > 0 && data[0] >= 128 {
      if data[0] != 128 { return None; }
      versioned := true;
    }
    var cursor := new Cursor(if versioned then data[1..] else data);
    var opening := cursor.TakeOpening();
    if opening.None? { return None; }
    var raws := cursor.TakeRawList();
    if raws.None? { return None; }
    var lookups: seq<Lookup> := [];
    if versioned {
      var found := cursor.TakeLookupList();
      if found.None? { return None; }
      lookups := found.value;
    }
    if cursor.rest != [] { return None; }
    message := ResolveMessage(versioned, opening.value, raws.value, lookups, tables);
  }
}
