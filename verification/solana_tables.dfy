/**
 Address lookup tables (internal/chain/solana/swap_message.go): which account is
 one, what it holds, and why an index read now still names the same address when
 the transaction executes.
 */
module SolanaTables {
  import opened Wrappers
  import opened SolanaCodec
  import opened LittleEndian

  const META_SIZE: nat := 56

  /** Owned by the table program, initialized, active, and whole addresses after the header. */
  predicate IsTable(owner: Key, program: Key, data: Bytes) {
    && owner == program
    && |data| >= META_SIZE && (|data| - META_SIZE) % 32 == 0
    && FromLE(data[..4]) == 1
    && FromLE(data[4..12]) == MAX_U64
  }

  function AddressAt(data: Bytes, i: nat): Key
    requires META_SIZE + 32 * (i + 1) <= |data|
  {
    data[META_SIZE + 32 * i..META_SIZE + 32 * (i + 1)]
  }

  /** What an account holds as a table, if it is one in use. */
  function TableOf(owner: Key, program: Key, data: Bytes): Option<seq<Key>> {
    if !IsTable(owner, program, data) then None
    else
      var n := (|data| - META_SIZE) / 32;
      Some(seq(n, i requires 0 <= i < n => AddressAt(data, i)))
  }

  method DecodeLookupTable(owner: Key, program: Key, data: Bytes) returns (table: Option<seq<Key>>)
    ensures table == TableOf(owner, program, data)
  {
    if owner != program { return None; }
    if |data| < META_SIZE || (|data| - META_SIZE) % 32 != 0 { return None; }
    if FromLE(data[..4]) != 1 { return None; }
    if FromLE(data[4..12]) != MAX_U64 { return None; }
    var n := (|data| - META_SIZE) / 32;
    var out: seq<Key> := [];
    for i := 0 to n
      invariant |out| == i
      invariant forall k :: 0 <= k < i ==> out[k] == AddressAt(data, k)
    {
      out := out + [AddressAt(data, i)];
    }
    assert out == TableOf(owner, program, data).value;
    return Some(out);
  }

  // ---------------------------------------------------------- what is laid out

  /** A table as the runtime lays it out: its state, when it was deactivated, the header's rest, its addresses. */
  datatype TableAccount = TableAccount(state: u32, deactivated: u64, rest: Bytes, addresses: seq<Key>)

  const INITIALIZED: u32 := 1
  const NEVER: u64 := 0xFFFF_FFFF_FFFF_FFFF

  function Joined(keys: seq<Key>): (r: Bytes)
    ensures |r| == 32 * |keys|
  {
    if keys == [] then [] else Joined(keys[..|keys| - 1]) + keys[|keys| - 1]
  }

  function Laid(t: TableAccount): Bytes {
    U32(t.state) + U64(t.deactivated) + t.rest + Joined(t.addresses)
  }

  lemma {:induction false} JoinedAt(keys: seq<Key>, i: nat)
    requires i < |keys|
    ensures Joined(keys)[32 * i..32 * (i + 1)] == keys[i]
    decreases |keys|
  {
    var front := Joined(keys[..|keys| - 1]);
    if i < |keys| - 1 {
      JoinedAt(keys[..|keys| - 1], i);
      assert Joined(keys)[32 * i..32 * (i + 1)] == front[32 * i..32 * (i + 1)];
    }
  }

  lemma HeaderIs(t: TableAccount)
    requires |t.rest| == 44
    ensures |Laid(t)| == META_SIZE + 32 * |t.addresses|
    ensures Laid(t)[..4] == U32(t.state) && Laid(t)[4..12] == U64(t.deactivated)
    ensures Laid(t)[META_SIZE..] == Joined(t.addresses)
  {
  }

  lemma HeaderReadsBack(t: TableAccount, state: Bytes, deactivated: Bytes)
    requires state == U32(t.state) && deactivated == U64(t.deactivated)
    ensures FromLE(state) == t.state && FromLE(deactivated) == t.deactivated
  {
    U32ReadsBack(t.state);
    U64ReadsBack(t.deactivated);
  }

  lemma AddressesAre(data: Bytes, keys: seq<Key>, i: nat)
    requires |data| == META_SIZE + 32 * |keys| && data[META_SIZE..] == Joined(keys) && i < |keys|
    ensures AddressAt(data, i) == keys[i]
  {
    JoinedAt(keys, i);
    var from, end := 32 * i, 32 * (i + 1);
    assert data[META_SIZE + from..META_SIZE + end] == data[META_SIZE..][from..end];
  }

  lemma AddressesReadBack(owner: Key, program: Key, data: Bytes, keys: seq<Key>)
    requires |data| == META_SIZE + 32 * |keys| && data[META_SIZE..] == Joined(keys)
    requires IsTable(owner, program, data)
    ensures TableOf(owner, program, data) == Some(keys)
  {
    var read := TableOf(owner, program, data).value;
    assert |read| == |keys|;
    forall i | 0 <= i < |keys| ensures read[i] == keys[i] { AddressesAre(data, keys, i); }
    assert read == keys;
  }

  /** A table laid out is taken exactly when it is the program's, set up and active, with its addresses in order. */
  lemma TableReadsBack(t: TableAccount, owner: Key, program: Key)
    requires |t.rest| == 44
    ensures TableOf(owner, program, Laid(t))
         == if owner == program && t.state == INITIALIZED && t.deactivated == NEVER then Some(t.addresses) else None
  {
    var data := Laid(t);
    HeaderIs(t);
    HeaderReadsBack(t, data[..4], data[4..12]);
    if IsTable(owner, program, data) { AddressesReadBack(owner, program, data, t.addresses); }
  }

  // ---------------------------------------------------- tables that only grow

  /** Every table is still there and starts as it did. */
  predicate GrownTo(before: Tables, after: Tables) {
    forall t :: t in before ==> t in after && before[t] <= after[t]
  }

  lemma LoadsTheSame(before: Tables, after: Tables, table: Key, indexes: Bytes)
    requires GrownTo(before, after) && LoadFrom(before, table, indexes).Some?
    ensures LoadFrom(after, table, indexes) == LoadFrom(before, table, indexes)
  {
    assert before[table] <= after[table];
    forall i | 0 <= i < |indexes|
      ensures indexes[i] < |before[table]| && after[table][indexes[i]] == before[table][indexes[i]] { }
    assert LoadFrom(after, table, indexes).value == LoadFrom(before, table, indexes).value;
  }

  lemma {:induction false} AllLoadTheSame(before: Tables, after: Tables, lookups: seq<Lookup>, writable: bool)
    requires GrownTo(before, after) && LoadAll(before, lookups, writable).Some?
    ensures LoadAll(after, lookups, writable) == LoadAll(before, lookups, writable)
    decreases |lookups|
  {
    if lookups == [] {
    } else {
      var l := lookups[0];
      LoadsTheSame(before, after, l.table, if writable then l.writable else l.readonly);
      AllLoadTheSame(before, after, lookups[1..], writable);
    }
  }

  /**
   A message resolved against the tables as they were read names the same accounts
   however the tables grow before it executes.
   */
  lemma GrowthChangesNothing(data: Bytes, before: Tables, after: Tables)
    requires GrownTo(before, after) && DecodeSwap(data, before).Some?
    ensures DecodeSwap(data, after) == DecodeSwap(data, before)
  {
    var versioned := |data| >= 1 && data[0] == 128;
    var (opening, r1) := OpeningAt(if versioned then data[1..] else data).value;
    var (raws, r2) := Counted(RawAt, r1).value;
    var lookups := if versioned then Counted(LookupAt, r2).value.0 else [];
    ResolvesTheSame(versioned, opening, raws, lookups, before, after);
  }

  lemma ResolvesTheSame(
    versioned: bool, opening: Opening, raws: seq<Instruction>, lookups: seq<Lookup>, before: Tables, after: Tables)
    requires GrownTo(before, after) && Resolve(versioned, opening, raws, lookups, before).Some?
    ensures Resolve(versioned, opening, raws, lookups, after) == Resolve(versioned, opening, raws, lookups, before)
  {
    AllLoadTheSame(before, after, lookups, true);
    AllLoadTheSame(before, after, lookups, false);
  }
}
