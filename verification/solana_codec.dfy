/**
 The Solana wire format: two hand-written decoders, one for legacy messages and
 one for legacy and v0 messages (internal/chain/solana/intent.go,
 swap_message.go), and the reference encoder they are judged by.

 The functions say what a decoder reads; the methods read it the way the wallet
 does, advancing a cursor and appending.
 */
module SolanaCodec {
  import opened Wrappers

  type byte = b: int | 0 <= b < 256
  type Bytes = seq<byte>

  /** Thirty-two bytes: a public key or a blockhash. */
  type Key = k: Bytes | |k| == 32 witness seq(32, _ => 0)

  // ----------------------------------------------------------------- parsers

  /** What a parser read, and what follows. */
  type Parse<T> = Option<(T, Bytes)>

  function Take(s: Bytes, n: nat): Parse<Bytes> {
    if |s| < n then None else Some((s[..n], s[n..]))
  }

  /** Up to three groups of seven bits, least significant first. */
  function CompactFrom(s: Bytes, groups: nat, scale: nat, value: nat): Parse<nat> {
    if groups == 0 || |s| == 0 then None
    else
      var more := value + (s[0] % 128) * scale;
      if s[0] < 128 then Some((more, s[1..])) else CompactFrom(s[1..], groups - 1, scale * 128, more)
  }

  function Compact(s: Bytes): Parse<nat> {
    CompactFrom(s, 3, 1, 0)
  }

  /** The same parser n times over. */
  function Repeat<T>(p: Bytes -> Parse<T>, n: nat, s: Bytes): Parse<seq<T>> {
    if n == 0 then Some(([], s))
    else match p(s)
      case None => None
      case Some((x, rest)) =>
        match Repeat(p, n - 1, rest)
        case None => None
        case Some((xs, end)) => Some(([x] + xs, end))
  }

  function KeyAt(s: Bytes): Parse<Key> {
    if |s| < 32 then None else Some((s[..32], s[32..]))
  }

  /** A length, then that many bytes. */
  function Sized(s: Bytes): Parse<Bytes> {
    match Compact(s)
    case None => None
    case Some((n, rest)) => Take(rest, n)
  }

  /** A program and its accounts by index, one byte each, and the data. */
  datatype Instruction = Instruction(program: nat, accounts: Bytes, data: Bytes)

  function RawAt(s: Bytes): Parse<Instruction> {
    if |s| == 0 then None
    else match Sized(s[1..])
      case None => None
      case Some((accounts, r1)) =>
        match Sized(r1)
        case None => None
        case Some((data, r2)) => Some((Instruction(s[0], accounts, data), r2))
  }

  predicate IndexesBelow(accounts: Bytes, limit: nat) {
    forall i :: 0 <= i < |accounts| ==> accounts[i] < limit
  }

  predicate Resolvable(i: Instruction, programs: nat, keys: nat) {
    i.program < programs && IndexesBelow(i.accounts, keys)
  }

  /** The legacy decoder refuses an index past the keys as it reads it. */
  function CheckedAt(s: Bytes, limit: nat): Parse<Instruction> {
    match RawAt(s)
    case None => None
    case Some((i, rest)) => if Resolvable(i, limit, limit) then Some((i, rest)) else None
  }

  function Checked(limit: nat): Bytes -> Parse<Instruction> {
    s => CheckedAt(s, limit)
  }

  datatype Lookup = Lookup(table: Key, writable: Bytes, readonly: Bytes)

  function LookupAt(s: Bytes): Parse<Lookup> {
    match KeyAt(s)
    case None => None
    case Some((table, r1)) =>
      match Sized(r1)
      case None => None
      case Some((writable, r2)) =>
        match Sized(r2)
        case None => None
        case Some((readonly, r3)) => Some((Lookup(table, writable, readonly), r3))
  }

  // ---------------------------------------------------------------- messages

  datatype Header = Header(signers: nat, readonlySigned: nat, readonlyUnsigned: nat) {
    predicate Fits(keys: nat) {
      readonlySigned <= signers <= keys && readonlyUnsigned <= keys - signers
    }
  }

  datatype Message = Message(header: Header, keys: seq<Key>, blockhash: Key, instructions: seq<Instruction>)

  /** Writable accounts come first among the signers and first among the rest. */
  predicate IsWritable(header: Header, keys: nat, index: nat) {
    if index < header.signers then index < header.signers - header.readonlySigned
    else index < keys - header.readonlyUnsigned
  }

  /** The header, the keys and the blockhash, which both kinds of message share. */
  datatype Opening = Opening(header: Header, keys: seq<Key>, blockhash: Key)

  function OpeningAt(s: Bytes): Parse<Opening> {
    if |s| < 3 then None
    else
      var header := Header(s[0], s[1], s[2]);
      match Compact(s[3..])
      case None => None
      case Some((count, r1)) =>
        match Repeat(KeyAt, count, r1)
        case None => None
        case Some((keys, r2)) =>
          if !header.Fits(|keys|) then None
          else match KeyAt(r2)
            case None => None
            case Some((blockhash, r3)) => Some((Opening(header, keys, blockhash), r3))
  }

  function Counted<T>(p: Bytes -> Parse<T>, s: Bytes): Parse<seq<T>> {
    match Compact(s)
    case None => None
    case Some((n, rest)) => Repeat(p, n, rest)
  }

  /** What decodeLegacyMessage reads: nothing may follow the instructions. */
  function DecodeLegacy(data: Bytes): Option<Message> {
    if |data| >= 1 && data[0] >= 128 then None
    else match OpeningAt(data)
      case None => None
      case Some((opening, r1)) =>
        match Counted(Checked(|opening.keys|), r1)
        case None => None
        case Some((instructions, r2)) =>
          if r2 != [] then None
          else Some(Message(opening.header, opening.keys, opening.blockhash, instructions))
  }

  type Tables = map<Key, seq<Key>>

  /** A decoded legacy or v0 message with every account resolved. */
  datatype SwapMessage = SwapMessage(
    versioned: bool,
    header: Header,
    staticKeys: nat,
    keys: seq<Key>,
    writableLoaded: nat,
    blockhash: Key,
    instructions: seq<Instruction>,
    lookups: seq<Lookup>)

  predicate IsWritableSwap(m: SwapMessage, index: nat) {
    if index < m.staticKeys then IsWritable(m.header, m.staticKeys, index) else index < m.staticKeys + m.writableLoaded
  }

  /** The addresses a list of indexes loads from one table. */
  function LoadFrom(tables: Tables, table: Key, indexes: Bytes): Option<seq<Key>> {
    if table !in tables || !IndexesBelow(indexes, |tables[table]|) then None
    else Some(seq(|indexes|, i requires 0 <= i < |indexes| => tables[table][indexes[i]]))
  }

  /** The writable, or the read-only, addresses of all lookups in order. */
  function LoadAll(tables: Tables, lookups: seq<Lookup>, writable: bool): Option<seq<Key>> {
    if lookups == [] then Some([])
    else
      var l := lookups[0];
      match LoadFrom(tables, l.table, if writable then l.writable else l.readonly)
      case None => None
      case Some(first) =>
        match LoadAll(tables, lookups[1..], writable)
        case None => None
        case Some(rest) => Some(first + rest)
  }

  /** Programs must be static; accounts may be loaded. */
  predicate AllResolvable(raws: seq<Instruction>, staticKeys: nat, keys: nat) {
    forall i :: 0 <= i < |raws| ==> Resolvable(raws[i], staticKeys, keys)
  }

  function Resolve(
    versioned: bool, opening: Opening, raws: seq<Instruction>, lookups: seq<Lookup>, tables: Tables)
    : Option<SwapMessage>
  {
    match (LoadAll(tables, lookups, true), LoadAll(tables, lookups, false))
    case (Some(written), Some(read)) =>
      var staticKeys := |opening.keys|;
      var keys := opening.keys + written + read;
      if AllResolvable(raws, staticKeys, |keys|) then
        Some(SwapMessage(versioned, opening.header, staticKeys, keys, |written|, opening.blockhash, raws, lookups))
      else None
    case _ => None
  }

  /** What decodeSwapMessage reads: version 0 or none, lookups only with a version. */
  function DecodeSwap(data: Bytes, tables: Tables): Option<SwapMessage> {
    if |data| >= 1 && data[0] > 128 then None
    else
      var versioned := |data| >= 1 && data[0] == 128;
      match OpeningAt(if versioned then data[1..] else data)
      case None => None
      case Some((opening, r1)) =>
        match Counted(RawAt, r1)
        case None => None
        case Some((raws, r2)) =>
          match if versioned then Counted(LookupAt, r2) else Some(([], r2))
          case None => None
          case Some((lookups, r3)) =>
            if r3 != [] then None else Resolve(versioned, opening, raws, lookups, tables)
  }

  // ------------------------------------------------------ the two decoders agree

  function AsSwap(m: Message): SwapMessage {
    SwapMessage(false, m.header, |m.keys|, m.keys, 0, m.blockhash, m.instructions, [])
  }

  lemma ResolvableOneByOne(one: Instruction, more: seq<Instruction>, limit: nat)
    ensures AllResolvable([one] + more, limit, limit) <==>
              Resolvable(one, limit, limit) && AllResolvable(more, limit, limit)
  {
    var all := [one] + more;
    if AllResolvable(all, limit, limit) {
      assert Resolvable(all[0], limit, limit);
      forall i | 0 <= i < |more| ensures Resolvable(more[i], limit, limit) {
        assert Resolvable(all[i + 1], limit, limit);
      }
    }
  }

  /** The instructions, if every index fits. */
  function CheckAll(read: Parse<seq<Instruction>>, limit: nat): Parse<seq<Instruction>> {
    match read
    case None => None
    case Some((raws, rest)) => if AllResolvable(raws, limit, limit) then Some((raws, rest)) else None
  }

  function CheckOne(read: Parse<Instruction>, limit: nat): Parse<Instruction> {
    match read
    case None => None
    case Some((raw, rest)) => if Resolvable(raw, limit, limit) then Some((raw, rest)) else None
  }

  /** Checking each index while reading, or all of them afterwards, is the same. */
  lemma {:induction false} CheckedIsRawThenChecked(
    p: Bytes -> Parse<Instruction>, q: Bytes -> Parse<Instruction>, limit: nat, n: nat, s: Bytes)
    requires forall t :: q(t) == CheckOne(p(t), limit)
    ensures Repeat(q, n, s) == CheckAll(Repeat(p, n, s), limit)
    decreases n
  {
    if n == 0 {
    } else {
      assert q(s) == CheckOne(p(s), limit);
      match p(s)
      case None =>
      case Some((raw, rest)) =>
        CheckedIsRawThenChecked(p, q, limit, n - 1, rest);
        match Repeat(p, n - 1, rest) {
          case None =>
          case Some((raws, end)) => ResolvableOneByOne(raw, raws, limit);
        }
    }
  }

  lemma CheckedInstructions(limit: nat, n: nat, s: Bytes)
    ensures Repeat(Checked(limit), n, s) == CheckAll(Repeat(RawAt, n, s), limit)
  {
    forall t ensures Checked(limit)(t) == CheckOne(RawAt(t), limit) { }
    CheckedIsRawThenChecked(RawAt, Checked(limit), limit, n, s);
  }

  /**
   On every input that does not announce a version both decoders accept the same
   messages and read the same fields, whatever tables are at hand.
   */
  lemma DecodersAgree(data: Bytes, tables: Tables)
    requires |data| >= 1 ==> data[0] < 128
    ensures DecodeSwap(data, tables) ==
            match DecodeLegacy(data) case None => None case Some(m) => Some(AsSwap(m))
  {
    match OpeningAt(data)
    case None =>
    case Some((opening, r1)) =>
      match Compact(r1) {
        case None =>
        case Some((n, rest)) =>
          CheckedInstructions(|opening.keys|, n, rest);
          assert opening.keys + [] + [] == opening.keys;
      }
  }

  // ------------------------------------------------------- reference encoder

  function EncodeCompact(n: nat): Bytes
    requires n < 0x20_0000
  {
    if n < 0x80 then [n]
    else if n < 0x4000 then [n % 128 + 128, n / 128]
    else [n % 128 + 128, (n / 128) % 128 + 128, n / 0x4000]
  }

  lemma CompactOfEncoded(n: nat, rest: Bytes)
    requires n < 0x20_0000
    ensures Compact(EncodeCompact(n) + rest) == Some((n, rest))
  {
    var s := EncodeCompact(n) + rest;
    if n < 0x80 {
      assert s[1..] == rest;
    } else if n < 0x4000 {
      assert s[1..][1..] == rest && s[1..][0] == n / 128;
      assert CompactFrom(s, 3, 1, 0) == CompactFrom(s[1..], 2, 128, n % 128);
    } else {
      assert s[1..][1..][1..] == rest && s[1..][0] == (n / 128) % 128 + 128 && s[1..][1..][0] == n / 0x4000;
      assert CompactFrom(s, 3, 1, 0) == CompactFrom(s[1..], 2, 128, n % 128);
      assert CompactFrom(s[1..], 2, 128, n % 128)
        == CompactFrom(s[1..][1..], 1, 0x4000, n % 128 + (n / 128) % 128 * 128);
      assert n == n % 128 + (n / 128) % 128 * 128 + n / 0x4000 * 0x4000;
    }
  }

  const SIZE_LIMIT: nat := 0x20_0000

  function EncodeAll<T(!new)>(encode: T -> Bytes, xs: seq<T>): Bytes {
    if xs == [] then [] else encode(xs[0]) + EncodeAll(encode, xs[1..])
  }

  /** A parser reads back whatever its encoder wrote, and leaves the rest. */
  ghost predicate Inverse<T(!new)>(p: Bytes -> Parse<T>, encode: T -> Bytes, x: T) {
    forall rest: Bytes :: p(encode(x) + rest) == Some((x, rest))
  }

  lemma {:induction false} RepeatOfEncoded<T(!new)>(p: Bytes -> Parse<T>, encode: T -> Bytes, xs: seq<T>, rest: Bytes)
    requires forall x :: x in xs ==> Inverse(p, encode, x)
    ensures Repeat(p, |xs|, EncodeAll(encode, xs) + rest) == Some((xs, rest))
    decreases |xs|
  {
    if xs == [] {
      assert EncodeAll(encode, xs) + rest == rest;
    } else {
      var tail := EncodeAll(encode, xs[1..]) + rest;
      assert EncodeAll(encode, xs) + rest == encode(xs[0]) + tail;
      assert xs[0] in xs && Inverse(p, encode, xs[0]);
      RepeatOfEncoded(p, encode, xs[1..], rest);
      assert [xs[0]] + xs[1..] == xs;
    }
  }

  lemma CountedOfEncoded<T(!new)>(p: Bytes -> Parse<T>, encode: T -> Bytes, xs: seq<T>, rest: Bytes)
    requires |xs| < SIZE_LIMIT
    requires forall x :: x in xs ==> Inverse(p, encode, x)
    ensures Counted(p, EncodeCompact(|xs|) + EncodeAll(encode, xs) + rest) == Some((xs, rest))
  {
    var body := EncodeAll(encode, xs) + rest;
    assert EncodeCompact(|xs|) + EncodeAll(encode, xs) + rest == EncodeCompact(|xs|) + body;
    CompactOfEncoded(|xs|, body);
    RepeatOfEncoded(p, encode, xs, rest);
  }

  function EncodeSized(data: Bytes): Bytes
    requires |data| < SIZE_LIMIT
  {
    EncodeCompact(|data|) + data
  }

  lemma SizedOfEncoded(data: Bytes, rest: Bytes)
    requires |data| < SIZE_LIMIT
    ensures Sized(EncodeSized(data) + rest) == Some((data, rest))
  {
    assert EncodeSized(data) + rest == EncodeCompact(|data|) + (data + rest);
    CompactOfEncoded(|data|, data + rest);
  }

  function EncodeKey(k: Key): Bytes { k }

  predicate EncodableRaw(raw: Instruction) {
    raw.program < 256 && |raw.accounts| < SIZE_LIMIT && |raw.data| < SIZE_LIMIT
  }

  /** Total so that it can be passed around; meant for encodable instructions. */
  function EncodeRaw(raw: Instruction): Bytes {
    if EncodableRaw(raw) then [raw.program] + (EncodeSized(raw.accounts) + EncodeSized(raw.data)) else []
  }

  lemma RawOfEncoded(raw: Instruction, rest: Bytes)
    requires EncodableRaw(raw)
    ensures RawAt(EncodeRaw(raw) + rest) == Some((raw, rest))
  {
    var s := EncodeRaw(raw) + rest;
    var r1 := EncodeSized(raw.data) + rest;
    TailIs(raw.program, EncodeSized(raw.accounts), EncodeSized(raw.data), rest);
    SizedOfEncoded(raw.accounts, r1);
    SizedOfEncoded(raw.data, rest);
  }

  lemma TailIs(first: byte, a: Bytes, b: Bytes, rest: Bytes)
    ensures var s := [first] + (a + b) + rest;
            |s| > 0 && s[0] == first && s[1..] == a + (b + rest)
  {
  }

  predicate EncodableLookup(l: Lookup) {
    |l.writable| < SIZE_LIMIT && |l.readonly| < SIZE_LIMIT
  }

  function EncodeLookup(l: Lookup): Bytes {
    if EncodableLookup(l) then l.table + (EncodeSized(l.writable) + EncodeSized(l.readonly)) else []
  }

  lemma LookupOfEncoded(l: Lookup, rest: Bytes)
    requires EncodableLookup(l)
    ensures LookupAt(EncodeLookup(l) + rest) == Some((l, rest))
  {
    var s := EncodeLookup(l) + rest;
    var r2 := EncodeSized(l.readonly) + rest;
    AfterKey(l.table, EncodeSized(l.writable), EncodeSized(l.readonly), rest);
    SizedOfEncoded(l.writable, r2);
    SizedOfEncoded(l.readonly, rest);
  }

  lemma AfterKey(k: Key, a: Bytes, b: Bytes, rest: Bytes)
    ensures var s := k + (a + b) + rest;
            |s| >= 32 && s[..32] == k && s[32..] == a + (b + rest)
  {
  }

  lemma KeyOfEncoded(k: Key, rest: Bytes)
    ensures KeyAt(EncodeKey(k) + rest) == Some((k, rest))
  {
  }

  predicate EncodableHeader(h: Header) {
    h.signers < 256 && h.readonlySigned < 256 && h.readonlyUnsigned < 256
  }

  function EncodeOpening(o: Opening): Bytes
    requires EncodableHeader(o.header) && |o.keys| < SIZE_LIMIT
  {
    [o.header.signers, o.header.readonlySigned, o.header.readonlyUnsigned]
    + (EncodeCompact(|o.keys|) + EncodeAll(EncodeKey, o.keys) + o.blockhash)
  }

  lemma OpeningOfEncoded(o: Opening, rest: Bytes)
    requires EncodableHeader(o.header) && |o.keys| < SIZE_LIMIT && o.header.Fits(|o.keys|)
    ensures OpeningAt(EncodeOpening(o) + rest) == Some((o, rest))
  {
    var s := EncodeOpening(o) + rest;
    var r1 := o.blockhash + rest;
    assert s[3..] == EncodeCompact(|o.keys|) + EncodeAll(EncodeKey, o.keys) + r1;
    forall k | k in o.keys ensures Inverse(KeyAt, EncodeKey, k) {
      forall tail: Bytes ensures KeyAt(EncodeKey(k) + tail) == Some((k, tail)) { KeyOfEncoded(k, tail); }
    }
    CountedOfEncoded(KeyAt, EncodeKey, o.keys, r1);
    KeyOfEncoded(o.blockhash, rest);
  }

  /** The wire form of a message, from its raw parts. */
  function EncodeParts(o: Opening, raws: seq<Instruction>): Bytes
    requires EncodableHeader(o.header) && |o.keys| < SIZE_LIMIT && |raws| < SIZE_LIMIT
  {
    EncodeOpening(o) + (EncodeCompact(|raws|) + EncodeAll(EncodeRaw, raws))
  }

  predicate EncodableParts(o: Opening, raws: seq<Instruction>) {
    && EncodableHeader(o.header) && o.header.Fits(|o.keys|)
    && |o.keys| < SIZE_LIMIT && |raws| < SIZE_LIMIT
    && (forall raw :: raw in raws ==> EncodableRaw(raw))
  }

  lemma PartsOfEncoded(o: Opening, raws: seq<Instruction>, rest: Bytes)
    requires EncodableParts(o, raws)
    ensures OpeningAt(EncodeParts(o, raws) + rest)
            == Some((o, EncodeCompact(|raws|) + EncodeAll(EncodeRaw, raws) + rest))
    ensures Counted(RawAt, EncodeCompact(|raws|) + EncodeAll(EncodeRaw, raws) + rest) == Some((raws, rest))
  {
    var tail := EncodeCompact(|raws|) + EncodeAll(EncodeRaw, raws) + rest;
    assert EncodeParts(o, raws) + rest == EncodeOpening(o) + tail;
    OpeningOfEncoded(o, tail);
    forall raw | raw in raws ensures Inverse(RawAt, EncodeRaw, raw) {
      forall t: Bytes ensures RawAt(EncodeRaw(raw) + t) == Some((raw, t)) { RawOfEncoded(raw, t); }
    }
    CountedOfEncoded(RawAt, EncodeRaw, raws, rest);
  }

  /** Every count, size and index the format can carry. */
  predicate WellFormed(m: Message) {
    && EncodableParts(OpeningOf(m), m.instructions) && m.header.signers < 128
    && AllResolvable(m.instructions, |m.keys|, |m.keys|)
  }

  function OpeningOf(m: Message): Opening {
    Opening(m.header, m.keys, m.blockhash)
  }

  function EncodeLegacy(m: Message): Bytes
    requires WellFormed(m)
  {
    EncodeParts(OpeningOf(m), m.instructions)
  }

  /** Every well-formed legacy message is read back as it was written. */
  lemma LegacyRoundTrip(m: Message)
    requires WellFormed(m)
    ensures DecodeLegacy(EncodeLegacy(m)) == Some(m)
  {
    var raws := m.instructions;
    var data := EncodeLegacy(m);
    PartsOfEncoded(OpeningOf(m), raws, []);
    assert data + [] == data && data[0] == m.header.signers;
    var tail := EncodeCompact(|raws|) + EncodeAll(EncodeRaw, raws) + [];
    match Compact(tail)
    case Some((n, rest)) => CheckedInstructions(|m.keys|, n, rest);
  }

  /** Every well-formed v0 message is read back with its accounts resolved. */
  lemma V0RoundTrip(o: Opening, raws: seq<Instruction>, lookups: seq<Lookup>, tables: Tables)
    requires EncodableParts(o, raws) && |lookups| < SIZE_LIMIT
    requires forall l :: l in lookups ==> EncodableLookup(l)
    ensures DecodeSwap(EncodeV0(o, raws, lookups), tables) == Resolve(true, o, raws, lookups, tables)
  {
    var tail := EncodeCompact(|lookups|) + EncodeAll(EncodeLookup, lookups);
    var data := EncodeV0(o, raws, lookups);
    assert data[1..] == EncodeParts(o, raws) + tail;
    PartsOfEncoded(o, raws, tail);
    forall l | l in lookups ensures Inverse(LookupAt, EncodeLookup, l) {
      forall t: Bytes ensures LookupAt(EncodeLookup(l) + t) == Some((l, t)) { LookupOfEncoded(l, t); }
    }
    assert tail + [] == tail;
    CountedOfEncoded(LookupAt, EncodeLookup, lookups, []);
  }

  function EncodeV0(o: Opening, raws: seq<Instruction>, lookups: seq<Lookup>): Bytes
    requires EncodableParts(o, raws) && |lookups| < SIZE_LIMIT
  {
    [128] + (EncodeParts(o, raws) + (EncodeCompact(|lookups|) + EncodeAll(EncodeLookup, lookups)))
  }
}
