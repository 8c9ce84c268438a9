/**
 What is lent and what may be taken back (internal/tron/staking.go): the node's records,
 both resources in one, become one row for each receiver and resource.
 */
module TronStaking {
  import opened Wrappers

  datatype Resource = Bandwidth | Energy

  /** One record of the node: amounts in sun, and when each may be reclaimed; 0 is unlocked. */
  datatype Lent = Lent(to: string, bandwidth: int, bandwidthUntil: nat, energy: int, energyUntil: nat)

  datatype Pair = Pair(to: string, resource: Resource)

  datatype Entry = Entry(pair: Pair, amount: int, until: nat)

  datatype Row = Row(pair: Pair, amount: int, lockedUntil: nat)

  /** The halves of the records, in order. */
  function Entries(lent: seq<Lent>): seq<Entry> {
    if lent == [] then []
    else
      var last := lent[|lent| - 1];
      Entries(lent[..|lent| - 1])
      + [Entry(Pair(last.to, Bandwidth), last.bandwidth, last.bandwidthUntil),
         Entry(Pair(last.to, Energy), last.energy, last.energyUntil)]
  }

  predicate For(e: Entry, pair: Pair) {
    e.pair == pair && e.amount > 0
  }

  /** What is lent to a receiver of a resource, in all. */
  function Total(entries: seq<Entry>, pair: Pair): nat {
    if entries == [] then 0
    else
      var last := entries[|entries| - 1];
      Total(entries[..|entries| - 1], pair) + if For(last, pair) then last.amount else 0
  }

  /** When the last of it is unlocked. */
  function Latest(entries: seq<Entry>, pair: Pair): nat {
    if entries == [] then 0
    else
      var last := entries[|entries| - 1];
      var before := Latest(entries[..|entries| - 1], pair);
      if For(last, pair) && last.until > before then last.until else before
  }

  /** The pairs in order of their first positive amount. */
  function Order(entries: seq<Entry>): seq<Pair> {
    if entries == [] then []
    else
      var front, last := entries[..|entries| - 1], entries[|entries| - 1];
      Order(front) + if last.amount > 0 && Total(front, last.pair) == 0 then [last.pair] else []
  }

  /** What the maps hold of the entries so far. */
  ghost predicate Merged(entries: seq<Entry>, order: seq<Pair>, staked: map<Pair, int>, locks: map<Pair, nat>) {
    && order == Order(entries)
    && (forall p :: p in staked <==> Total(entries, p) > 0)
    && (forall p :: p in staked ==> staked[p] == Total(entries, p))
    && (forall p :: p in locks ==> locks[p] == Latest(entries, p))
    && (forall p :: p !in locks ==> Latest(entries, p) == 0)
  }

  lemma OneMoreEntry(entries: seq<Entry>, e: Entry)
    ensures forall p :: Total(entries + [e], p) == Total(entries, p) + if For(e, p) then e.amount else 0
    ensures forall p :: Latest(entries + [e], p)
                     == if For(e, p) && e.until > Latest(entries, p) then e.until else Latest(entries, p)
    ensures Order(entries + [e])
         == Order(entries) + if e.amount > 0 && Total(entries, e.pair) == 0 then [e.pair] else []
  {
    assert (entries + [e])[..|entries|] == entries;
  }

  class Merge {
    var order: seq<Pair>
    var staked: map<Pair, int>
    var locks: map<Pair, nat>
    ghost var entries: seq<Entry>

    ghost predicate Valid()
      reads this
    {
      Merged(entries, order, staked, locks)
    }

    constructor ()
      ensures Valid() && entries == []
    {
      order, staked, locks, entries := [], map[], map[], [];
    }

    /** Half a record: an empty one makes no row. */
    method Add(e: Entry)
      requires Valid()
      modifies this
      ensures Valid() && entries == old(entries) + [e]
    {
      OneMoreEntry(entries, e);
      ghost var before := entries;
      entries := entries + [e];
      if e.amount <= 0 {
        assert forall p :: Total(entries, p) == Total(before, p) && Latest(entries, p) == Latest(before, p);
        return;
      }
      if e.pair !in staked { order := order + [e.pair]; }
      staked := staked[e.pair := (if e.pair in staked then staked[e.pair] else 0) + e.amount];
      var lock := if e.pair in locks then locks[e.pair] else 0;
      if e.until > lock { locks := locks[e.pair := e.until]; }
    }
  }

  lemma {:induction false} OrderIsOfTheLent(entries: seq<Entry>)
    ensures forall p :: p in Order(entries) <==> Total(entries, p) > 0
    ensures forall i, j :: 0 <= i < j < |Order(entries)| ==> Order(entries)[i] != Order(entries)[j]
    decreases |entries|
  {
    if entries == [] {
    } else {
      OrderIsOfTheLent(entries[..|entries| - 1]);
    }
  }

  /** What the records say is lent to a receiver of a resource. */
  function LentTo(lent: seq<Lent>, to: string, resource: Resource): nat {
    if lent == [] then 0
    else
      var last := lent[|lent| - 1];
      var amount := match resource case Bandwidth => last.bandwidth case Energy => last.energy;
      LentTo(lent[..|lent| - 1], to, resource) + if last.to == to && amount > 0 then amount else 0
  }

  /** A record that still holds something lent to the receiver until a moment. */
  predicate HeldUntil(l: Lent, to: string, resource: Resource, until: nat) {
    l.to == to && match resource
                  case Bandwidth => l.bandwidth > 0 && l.bandwidthUntil == until
                  case Energy => l.energy > 0 && l.energyUntil == until
  }

  lemma EntriesOneMore(lent: seq<Lent>, l: Lent)
    ensures Entries(lent + [l]) == Entries(lent) + [Entry(Pair(l.to, Bandwidth), l.bandwidth, l.bandwidthUntil)]
                                   + [Entry(Pair(l.to, Energy), l.energy, l.energyUntil)]
  {
    assert (lent + [l])[..|lent|] == lent;
  }

  /** What one more record adds. */
  lemma OneMoreRecord(lent: seq<Lent>, l: Lent, to: string, resource: Resource)
    ensures var pair := Pair(to, resource);
            var amount := match resource case Bandwidth => l.bandwidth case Energy => l.energy;
            var until := match resource case Bandwidth => l.bandwidthUntil case Energy => l.energyUntil;
            var before := Latest(Entries(lent), pair);
            && Total(Entries(lent + [l]), pair)
               == Total(Entries(lent), pair) + (if l.to == to && amount > 0 then amount else 0)
            && Latest(Entries(lent + [l]), pair)
               == if l.to == to && amount > 0 && until > before then until else before
  {
    EntriesOneMore(lent, l);
    var bandwidth := Entry(Pair(l.to, Bandwidth), l.bandwidth, l.bandwidthUntil);
    OneMoreEntry(Entries(lent), bandwidth);
    OneMoreEntry(Entries(lent) + [bandwidth], Entry(Pair(l.to, Energy), l.energy, l.energyUntil));
  }

  /** Of each receiver and resource the entries sum to what the records lend. */
  lemma {:induction false} TotalIsWhatIsLent(lent: seq<Lent>, to: string, resource: Resource)
    ensures Total(Entries(lent), Pair(to, resource)) == LentTo(lent, to, resource)
    decreases |lent|
  {
    if lent == [] {
    } else {
      TotalIsWhatIsLent(lent[..|lent| - 1], to, resource);
      assert lent == lent[..|lent| - 1] + [lent[|lent| - 1]];
      OneMoreRecord(lent[..|lent| - 1], lent[|lent| - 1], to, resource);
    }
  }

  /** The last lock is that of some record, and none is held for longer. */
  lemma {:induction false} LatestIsTheLastLock(lent: seq<Lent>, to: string, resource: Resource)
    ensures forall l, until: nat :: l in lent && HeldUntil(l, to, resource, until) ==>
              until <= Latest(Entries(lent), Pair(to, resource))
    ensures Latest(Entries(lent), Pair(to, resource)) > 0 ==>
              exists l :: l in lent && HeldUntil(l, to, resource, Latest(Entries(lent), Pair(to, resource)))
    decreases |lent|
  {
    if lent == [] {
    } else {
      var front, last := lent[..|lent| - 1], lent[|lent| - 1];
      LatestIsTheLastLock(front, to, resource);
      assert lent == front + [last];
      OneMoreRecord(front, last, to, resource);
      var before, after := Latest(Entries(front), Pair(to, resource)), Latest(Entries(lent), Pair(to, resource));
      if after > before {
        assert HeldUntil(last, to, resource, after);
      } else if after > 0 {
        var k :| k in front && HeldUntil(k, to, resource, before);
        assert k in lent && HeldUntil(k, to, resource, after);
      }
    }
  }

  /** One row for each pair lent anything, with all of it and its last lock. */
  predicate RowsOf(entries: seq<Entry>, rows: seq<Row>) {
    && |rows| == |Order(entries)|
    && forall i :: 0 <= i < |rows| ==>
         rows[i] == Row(Order(entries)[i], Total(entries, Order(entries)[i]), Latest(entries, Order(entries)[i]))
  }

  method SplitDelegations(lent: seq<Lent>) returns (rows: seq<Row>)
    ensures RowsOf(Entries(lent), rows)
  {
    var merge := new Merge();
    for i := 0 to |lent|
      invariant fresh(merge) && merge.Valid() && merge.entries == Entries(lent[..i])
    {
      assert lent[..i + 1][..i] == lent[..i];
      merge.Add(Entry(Pair(lent[i].to, Bandwidth), lent[i].bandwidth, lent[i].bandwidthUntil));
      merge.Add(Entry(Pair(lent[i].to, Energy), lent[i].energy, lent[i].energyUntil));
    }
    assert lent[..|lent|] == lent;
    OrderIsOfTheLent(merge.entries);
    rows := [];
    for i := 0 to |merge.order|
      invariant |rows| == i && merge.Valid() && merge.entries == Entries(lent)
      invariant forall k :: 0 <= k < i ==>
                  rows[k] == Row(merge.order[k], Total(merge.entries, merge.order[k]),
                      Latest(merge.entries, merge.order[k]))
    {
      var p := merge.order[i];
      rows := rows + [Row(p, merge.staked[p], if p in merge.locks then merge.locks[p] else 0)];
    }
  }

  datatype Refusal = Locked(until: nat) | NothingLent

  /** All of it, or a refusal while any of it is locked. */
  method Reclaimable(rows: seq<Row>, pair: Pair, now: nat) returns (r: Result<int, Refusal>)
    ensures r == Reclaim(rows, pair, now)
  {
    var sum := 0;
    for i := 0 to |rows|
      invariant Reclaim(rows, pair, now) == ReclaimFrom(rows[i..], pair, now, sum)
    {
      assert rows[i..][1..] == rows[i + 1..];
      if rows[i].pair != pair { continue; }
      if rows[i].lockedUntil != 0 && rows[i].lockedUntil > now { return Err(Locked(rows[i].lockedUntil)); }
      sum := sum + rows[i].amount;
    }
    if sum <= 0 { return Err(NothingLent); }
    return Ok(sum);
  }

  function ReclaimFrom(rows: seq<Row>, pair: Pair, now: nat, sum: int): Result<int, Refusal> {
    if rows == [] then if sum <= 0 then Err(NothingLent) else Ok(sum)
    else if rows[0].pair != pair then ReclaimFrom(rows[1..], pair, now, sum)
    else if rows[0].lockedUntil != 0 && rows[0].lockedUntil > now then Err(Locked(rows[0].lockedUntil))
    else ReclaimFrom(rows[1..], pair, now, sum + rows[0].amount)
  }

  function Reclaim(rows: seq<Row>, pair: Pair, now: nat): Result<int, Refusal> {
    ReclaimFrom(rows, pair, now, 0)
  }

  lemma {:induction false} NoneLeft(rows: seq<Row>, pair: Pair, now: nat, sum: int)
    requires forall i :: 0 <= i < |rows| ==> rows[i].pair != pair
    ensures ReclaimFrom(rows, pair, now, sum) == if sum <= 0 then Err(NothingLent) else Ok(sum)
    decreases |rows|
  {
    if rows == [] {
    } else {
      NoneLeft(rows[1..], pair, now, sum);
    }
  }

  lemma {:induction false} OneRow(rows: seq<Row>, k: nat, pair: Pair, now: nat)
    requires k < |rows| && rows[k].pair == pair && rows[k].amount > 0
    requires forall i :: 0 <= i < |rows| && i != k ==> rows[i].pair != pair
    ensures ReclaimFrom(rows, pair, now, 0) ==
            if rows[k].lockedUntil > now then Err(Locked(rows[k].lockedUntil)) else Ok(rows[k].amount)
    decreases |rows|
  {
    if k == 0 {
      NoneLeft(rows[1..], pair, now, rows[0].amount);
    } else {
      OneRow(rows[1..], k - 1, pair, now);
    }
  }

  /**
   Merging loses nothing: what may be taken back is everything lent, once the last lock
   has passed, and never a part of it.
   */
  lemma AllOrNothing(entries: seq<Entry>, rows: seq<Row>, pair: Pair, now: nat)
    requires RowsOf(entries, rows)
    ensures Reclaim(rows, pair, now) ==
            if Total(entries, pair) == 0 then Err(NothingLent)
            else if Latest(entries, pair) > now then Err(Locked(Latest(entries, pair)))
            else Ok(Total(entries, pair))
  {
    OrderIsOfTheLent(entries);
    if Total(entries, pair) == 0 {
      NoneLeft(rows, pair, now, 0);
    } else {
      var k :| 0 <= k < |Order(entries)| && Order(entries)[k] == pair;
      OneRow(rows, k, pair, now);
    }
  }

  /** So of the node's records: everything lent at once, or nothing while a record holds some of it. */
  lemma ReclaimedIsAllThatIsLent(lent: seq<Lent>, rows: seq<Row>, to: string, resource: Resource, now: nat)
    requires RowsOf(Entries(lent), rows)
    ensures var r := Reclaim(rows, Pair(to, resource), now);
            && (LentTo(lent, to, resource) == 0 <==> r == Err(NothingLent))
            && (r.Ok? ==>
                  && r.value == LentTo(lent, to, resource)
                  && forall l, until: nat :: l in lent && HeldUntil(l, to, resource, until) ==> until <= now)
            && (r.Err? && r.error.Locked? ==>
                  r.error.until > now && exists l :: l in lent && HeldUntil(l, to, resource, r.error.until))
  {
    AllOrNothing(Entries(lent), rows, Pair(to, resource), now);
    TotalIsWhatIsLent(lent, to, resource);
    LatestIsTheLastLock(lent, to, resource);
  }
}
