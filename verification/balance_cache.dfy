/**
 The balance cache (internal/chain/solana/balance.go): reads finish in any order, a
 network may be dropped while they run, and the cache keeps the one asked for last.
 */
module BalanceCache {
  import opened Wrappers

  type Network = nat
  type Owner = nat

  datatype Key = Key(network: Network, owner: Owner)

  const RETENTION: nat := 300_000

  /** What one address holds; when its oldest part and its SOL were asked for; when cached. */
  datatype Holding = Holding(lamports: nat, at: int, solAt: int, written: int) {
    /** Asked for after the other: its oldest part later or, on a tie, its SOL. */
    predicate Newer(other: Holding) {
      at > other.at || (at == other.at && solAt > other.solAt)
    }
  }

  datatype State = State(items: map<Key, Holding>, generations: map<Network, nat>)

  function GenerationOf(s: State, n: Network): nat {
    if n in s.generations then s.generations[n] else 0
  }

  datatype Event =
    | Put(key: Key, generation: nat, item: Holding, now: int)
    | Get(key: Key, now: int)
    | Drop(network: Network)

  predicate Stale(s: State, key: Key, now: int) {
    key in s.items && now - s.items[key].written > RETENTION
  }

  function Without(items: map<Key, Holding>, key: Key): map<Key, Holding> {
    map k | k in items && k != key :: items[k]
  }

  function WithoutNetwork(items: map<Key, Holding>, n: Network): map<Key, Holding> {
    map k | k in items && k.network != n :: items[k]
  }

  /** A read made under a past generation, or asked for before the cached one, is not kept. */
  function DoPut(s: State, key: Key, generation: nat, item: Holding, now: int): State {
    if GenerationOf(s, key.network) != generation then s
    else if key in s.items && s.items[key].Newer(item) then s
    else s.(items := s.items[key := item.(written := now)])
  }

  function DoGet(s: State, key: Key, now: int): State {
    if Stale(s, key, now) then s.(items := Without(s.items, key)) else s
  }

  function DoDrop(s: State, n: Network): State {
    State(WithoutNetwork(s.items, n), s.generations[n := GenerationOf(s, n) + 1])
  }

  function Step(s: State, e: Event): State {
    match e
    case Put(key, generation, item, now) => DoPut(s, key, generation, item, now)
    case Get(key, now) => DoGet(s, key, now)
    case Drop(n) => DoDrop(s, n)
  }

  function Run(events: seq<Event>): State {
    if events == [] then State(map[], map[]) else Step(Run(events[..|events| - 1]), events[|events| - 1])
  }

  /** The answer of a put: what is held now, whether it was this one, whether it counted. */
  datatype Answer = Refused | Held(item: Holding, written: bool)

  class Cache {
    var items: map<Key, Holding>
    var generations: map<Network, nat>

    function Now(): State
      reads this
    {
      State(items, generations)
    }

    constructor ()
      ensures Now() == Run([])
    {
      items, generations := map[], map[];
    }

    method Get(key: Key, now: int) returns (item: Option<Holding>)
      modifies this
      ensures Now() == DoGet(old(Now()), key, now)
      ensures item.Some? ==> key in old(items) && item.value == old(items)[key] && now <= item.value.written + RETENTION
      ensures item.None? ==> key !in old(items) || old(items)[key].written + RETENTION < now
    {
      if key in items && now - items[key].written > RETENTION {
        items := map k | k in items && k != key :: items[k];
        return None;
      }
      item := if key in items then Some(items[key]) else None;
    }

    method Put(key: Key, generation: nat, item: Holding, now: int) returns (answer: Answer)
      modifies this
      ensures Now() == DoPut(old(Now()), key, generation, item, now)
      ensures answer.Refused? <==> GenerationOf(old(Now()), key.network) != generation
      ensures answer.Held? ==> key in items && answer.item == items[key]
      ensures answer.Held? ==>
                (answer.written <==>
                  items[key] == item.(written := now) && !(key in old(items) && old(items)[key].Newer(item)))
    {
      if GenerationOf(Now(), key.network) != generation { return Refused; }
      if key in items && items[key].Newer(item) { return Held(items[key], false); }
      items := items[key := item.(written := now)];
      return Held(items[key], true);
    }

    /** Every holding of the network goes, key by key. */
    method DropNetwork(n: Network)
      modifies this
      ensures Now() == DoDrop(old(Now()), n)
    {
      generations := generations[n := GenerationOf(Now(), n) + 1];
      var left := items.Keys;
      ghost var all := items;
      while left != {}
        invariant generations == old(generations)[n := GenerationOf(old(Now()), n) + 1]
        invariant left <= all.Keys
        invariant forall k :: k in items <==> k in all && (k in left || k.network != n)
        invariant forall k :: k in items ==> items[k] == all[k]
        decreases left
      {
        var k :| k in left;
        if k.network == n { items := map other | other in items && other != k :: items[other]; }
        left := left - {k};
      }
      assert items == WithoutNetwork(all, n);
    }
  }

  // ------------------------------------------------- what the cache remembers

  /** A read that finished under a generation. */
  datatype Read = Read(generation: nat, item: Holding)

  predicate Forgets(s: State, e: Event, key: Key) {
    (e.Get? && e.key == key && Stale(s, key, e.now)) || (e.Drop? && e.network == key.network)
  }

  predicate Counts(s: State, e: Event, key: Key) {
    e.Put? && e.key == key && e.generation == GenerationOf(s, key.network)
  }

  /** The reads put under the current generation since the entry was last absent, in order. */
  function ReadsSince(events: seq<Event>, key: Key): seq<Read> {
    if events == [] then []
    else
      var front, e := events[..|events| - 1], events[|events| - 1];
      var s := Run(front);
      if Forgets(s, e, key) then []
      else if Counts(s, e, key) then ReadsSince(front, key) + [Read(e.generation, e.item.(written := e.now))]
      else ReadsSince(front, key)
  }

  /** Read i was asked for last; of reads asked for together, it finished last. */
  predicate Newest(done: seq<Read>, i: nat)
    requires i < |done|
  {
    && (forall j :: 0 <= j < i ==> !done[j].item.Newer(done[i].item))
    && (forall j :: i < j < |done| ==> done[i].item.Newer(done[j].item))
  }

  predicate Remembers(s: State, done: seq<Read>, key: Key) {
    && (key in s.items <==> done != [])
    && (forall j :: 0 <= j < |done| ==> done[j].generation == GenerationOf(s, key.network))
    && (done != [] ==> exists i :: 0 <= i < |done| && Newest(done, i) && s.items[key] == done[i].item)
  }

  lemma ReplacedIsNewest(done: seq<Read>, i: nat, next: Read)
    requires i < |done| && Newest(done, i) && !done[i].item.Newer(next.item)
    ensures Newest(done + [next], |done|)
  {
  }

  lemma KeptIsNewest(done: seq<Read>, i: nat, next: Read)
    requires i < |done| && Newest(done, i) && done[i].item.Newer(next.item)
    ensures Newest(done + [next], i)
  {
  }

  lemma PutRemembers(s: State, done: seq<Read>, key: Key, item: Holding, now: int)
    requires Remembers(s, done, key)
    ensures var g := GenerationOf(s, key.network);
            Remembers(DoPut(s, key, g, item, now), done + [Read(g, item.(written := now))], key)
  {
    var g := GenerationOf(s, key.network);
    var next := Read(g, item.(written := now));
    var after := done + [next];
    if done == [] {
      assert Newest(after, 0) && after[0] == next;
    } else {
      var i :| 0 <= i < |done| && Newest(done, i) && s.items[key] == done[i].item;
      if s.items[key].Newer(item) {
        KeptIsNewest(done, i, next);
        assert after[i] == done[i];
      } else {
        ReplacedIsNewest(done, i, next);
        assert after[|done|] == next;
      }
    }
  }

  lemma OthersRemember(s: State, e: Event, done: seq<Read>, key: Key)
    requires Remembers(s, done, key) && !Forgets(s, e, key) && !Counts(s, e, key)
    ensures Remembers(Step(s, e), done, key)
  {
  }

  /**
   However reads, lookups and drops interleave, each cached holding was read under its
   network's current generation, and is the one asked for last of all those put
   since the entry was last absent, the last to finish on a tie.
   */
  lemma {:induction false} CacheKeepsTheNewest(events: seq<Event>, key: Key)
    ensures Remembers(Run(events), ReadsSince(events, key), key)
    decreases |events|
  {
    if events == [] {
    } else {
      var front, e := events[..|events| - 1], events[|events| - 1];
      var s := Run(front);
      CacheKeepsTheNewest(front, key);
      if Forgets(s, e, key) {
      } else if Counts(s, e, key) {
        PutRemembers(s, ReadsSince(front, key), key, e.item, e.now);
      } else {
        OthersRemember(s, e, ReadsSince(front, key), key);
      }
    }
  }

  /** A comes before b: its oldest part does or, on a tie, its SOL. */
  predicate Before(a: Holding, b: Holding) {
    a.at < b.at || (a.at == b.at && a.solAt < b.solAt)
  }

  /** So the one held came after each read that finished later, and not before any. */
  lemma HeldIsTheLatest(events: seq<Event>, key: Key) returns (i: nat)
    requires key in Run(events).items
    ensures var done := ReadsSince(events, key);
            && i < |done| && Run(events).items[key] == done[i].item
            && (forall j :: 0 <= j < i ==> !Before(done[i].item, done[j].item))
            && (forall j :: i < j < |done| ==> Before(done[j].item, done[i].item))
  {
    CacheKeepsTheNewest(events, key);
    var done := ReadsSince(events, key);
    i :| 0 <= i < |done| && Newest(done, i) && Run(events).items[key] == done[i].item;
    forall j | 0 <= j < i ensures !Before(done[i].item, done[j].item) { assert !done[j].item.Newer(done[i].item); }
    forall j | i < j < |done| ensures Before(done[j].item, done[i].item) { assert done[i].item.Newer(done[j].item); }
  }

  lemma {:induction false} GenerationsGrow(events: seq<Event>, m: nat, n: Network)
    requires m <= |events|
    ensures GenerationOf(Run(events[..m]), n) <= GenerationOf(Run(events), n)
    ensures (exists k :: m <= k < |events| && events[k] == Drop(n)) ==>
              GenerationOf(Run(events[..m]), n) < GenerationOf(Run(events), n)
    decreases |events|
  {
    if m == |events| {
      assert events[..m] == events;
    } else {
      var front := events[..|events| - 1];
      assert front[..m] == events[..m];
      GenerationsGrow(front, m, n);
      forall k | m <= k < |events| && events[k] == Drop(n)
        ensures GenerationOf(Run(events[..m]), n) < GenerationOf(Run(events), n)
      {
        if k < |front| { assert front[k] == Drop(n); }
      }
    }
  }

  /** A read begun before its network was dropped is never kept once it is. */
  lemma DroppedReadsAreNotKept(events: seq<Event>, m: nat, k: nat, key: Key, item: Holding, now: int)
    requires m <= k < |events| && events[k] == Drop(key.network)
    ensures var begun := GenerationOf(Run(events[..m]), key.network);
            Run(events + [Put(key, begun, item, now)]) == Run(events)
  {
    GenerationsGrow(events, m, key.network);
    assert (events + [Put(key, GenerationOf(Run(events[..m]), key.network), item, now)])[..|events|] == events;
  }

  /** A drop leaves nothing of its network and everything of the others. */
  lemma DroppingIsWhole(s: State, n: Network, key: Key)
    ensures var after := Step(s, Drop(n));
            && (key in after.items <==> key in s.items && key.network != n)
            && (key in after.items ==> after.items[key] == s.items[key])
            && (key.network != n ==> GenerationOf(after, key.network) == GenerationOf(s, key.network))
  {
  }
}
