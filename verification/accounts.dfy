/**
 The wallets of one space (internal/space/manager.go, internal/account/account.go):
 what each record says its key is, and the edits a space makes to its list. Keys and
 addresses are symbolic: two are equal only when they come from the same secret.
 */
module Accounts {
  import opened Wrappers

  datatype Family = Tron | Evm | Solana
  datatype Curve = Secp256k1 | Ed25519

  function CurveOf(f: Family): Curve {
    if f == Solana then Ed25519 else Secp256k1
  }

  datatype Seed = Seed(mnemonic: string, passphrase: string)

  datatype Secret = Derivation(seed: Seed, family: Family, index: nat) | Raw(curve: Curve, bytes: string)

  datatype Address = AddressOf(secret: Secret, family: Family)

  type Network = nat
  type Id = nat

  /** A derived record without a family is one from before networks were bound. */
  datatype Kind = Derived(family: Option<Family>, index: nat) | Imported(keyRef: Id, fingerprint: Secret)

  datatype Account = Account(id: Id, kind: Kind, networks: set<Network>, addresses: map<Family, Address>)

  datatype Payload = Payload(seed: Option<Seed>, keys: map<Id, Secret>)

  const MAX_ACCOUNTS: nat := 512

  function DerivedAddress(seed: Seed, family: Family, index: nat): Address {
    AddressOf(Derivation(seed, family, index), family)
  }

  /** A secp256k1 key has a Tron and an EVM address, an ed25519 key a Solana one. */
  function ImportedAddresses(secret: Secret): map<Family, Address> {
    if secret.Raw? && secret.curve == Ed25519 then map[Solana := AddressOf(secret, Solana)]
    else map[Tron := AddressOf(secret, Tron), Evm := AddressOf(secret, Evm)]
  }

  predicate Shows(a: Account, family: Family, address: Address) {
    family in a.addresses && a.addresses[family] == address
  }

  /** A record agrees with the vault on every address it shows. */
  predicate Agrees(a: Account, p: Payload) {
    match a.kind
    case Derived(None, index) =>
      p.seed.Some? && Shows(a, Tron, DerivedAddress(p.seed.value, Tron, index))
      && Shows(a, Evm, DerivedAddress(p.seed.value, Evm, index))
    case Derived(Some(f), index) => p.seed.Some? && Shows(a, f, DerivedAddress(p.seed.value, f, index))
    case Imported(ref, fingerprint) =>
      ref in p.keys && fingerprint == p.keys[ref] && a.addresses == ImportedAddresses(p.keys[ref])
  }

  predicate Verified(accounts: seq<Account>, p: Payload) {
    forall i :: 0 <= i < |accounts| ==> Agrees(accounts[i], p)
  }

  /** The check every unlock makes, record by record. */
  method VerifyPayload(accounts: seq<Account>, p: Payload) returns (ok: bool)
    ensures ok <==> Verified(accounts, p)
  {
    for i := 0 to |accounts|
      invariant forall k :: 0 <= k < i ==> Agrees(accounts[k], p)
    {
      if !Agrees(accounts[i], p) { return false; }
    }
    return true;
  }

  // ------------------------------------------------------------- good lists

  predicate DistinctIds(accounts: seq<Account>) {
    forall i, j :: 0 <= i < j < |accounts| ==> accounts[i].id != accounts[j].id
  }

  predicate SameRef(a: Account, b: Account) {
    a.kind.Imported? && b.kind.Imported? && a.kind.keyRef == b.kind.keyRef
  }

  /** No two records share a stored key. */
  predicate DistinctRefs(accounts: seq<Account>) {
    forall i, j :: 0 <= i < j < |accounts| ==> !SameRef(accounts[i], accounts[j])
  }

  /** What a record may show: its family's address, both old ones, or its key's. */
  predicate Tidy(a: Account) {
    match a.kind
    case Derived(None, _) => a.addresses.Keys == {Tron, Evm}
    case Derived(Some(f), _) => a.addresses.Keys == {f}
    case Imported(_, fingerprint) => fingerprint.Raw?
  }

  predicate AllTidy(accounts: seq<Account>) {
    forall i :: 0 <= i < |accounts| ==> Tidy(accounts[i])
  }

  predicate Good(accounts: seq<Account>, p: Payload) {
    Verified(accounts, p) && DistinctIds(accounts) && DistinctRefs(accounts) && AllTidy(accounts)
  }

  predicate FreshId(accounts: seq<Account>, id: Id) {
    forall i :: 0 <= i < |accounts| ==> accounts[i].id != id
  }

  // ------------------------------------------------------------------- edits

  /** What an operation makes of a space: nothing, other records, or other secrets too. */
  datatype Edit = Refused | Plain(accounts: seq<Account>) | Sealed(accounts: seq<Account>, payload: Payload)

  predicate EditOk(e: Edit, p: Payload) {
    match e
    case Refused => true
    case Plain(accounts) => Good(accounts, p)
    case Sealed(accounts, payload) => Good(accounts, payload)
  }

  predicate UsedOn(a: Account, networks: set<Network>) {
    a.kind.Derived? && a.networks * networks != {}
  }

  /** The indexes of derived wallets on any of the networks. */
  function UsedIndexes(accounts: seq<Account>, networks: set<Network>): set<nat> {
    set i | 0 <= i < |accounts| && UsedOn(accounts[i], networks) :: accounts[i].kind.index
  }

  predicate IsDerived(a: Account, family: Family, index: nat) {
    a.kind == Derived(Some(family), index)
  }

  /** The first record that passes a test. */
  function First(accounts: seq<Account>, test: Account -> bool): (r: Option<nat>)
    ensures r.Some? ==> r.value < |accounts| && test(accounts[r.value])
    ensures r.Some? ==> forall k :: 0 <= k < r.value ==> !test(accounts[k])
    ensures r.None? ==> forall k :: 0 <= k < |accounts| ==> !test(accounts[k])
  {
    if accounts == [] then None
    else
      match First(accounts[..|accounts| - 1], test)
      case Some(i) => Some(i)
      case None => if test(accounts[|accounts| - 1]) then Some(|accounts| - 1) else None
  }

  method Search(accounts: seq<Account>, test: Account -> bool) returns (r: Option<nat>)
    ensures r == First(accounts, test)
  {
    for i := 0 to |accounts|
      invariant forall k :: 0 <= k < i ==> !test(accounts[k])
    {
      if test(accounts[i]) { return Some(i); }
    }
    return None;
  }

  function WithIndex(family: Family, index: nat): Account -> bool {
    (a: Account) => IsDerived(a, family, index)
  }

  function WithSecret(secret: Secret): Account -> bool {
    (a: Account) => IsImported(a, secret)
  }

  function WithId(id: Id): Account -> bool {
    (a: Account) => a.id == id
  }

  function FirstDerived(accounts: seq<Account>, family: Family, index: nat): (r: Option<nat>)
    ensures r.Some? ==> r.value < |accounts| && IsDerived(accounts[r.value], family, index)
    ensures r.None? ==> forall i :: 0 <= i < |accounts| ==> !IsDerived(accounts[i], family, index)
  {
    First(accounts, WithIndex(family, index))
  }

  function Bound(accounts: seq<Account>, i: nat, networks: set<Network>): seq<Account>
    requires i < |accounts|
  {
    accounts[i := accounts[i].(networks := accounts[i].networks + networks)]
  }

  function NewDerived(id: Id, seed: Seed, family: Family, index: nat, networks: set<Network>): Account {
    Account(id, Derived(Some(family), index), networks, map[family := DerivedAddress(seed, family, index)])
  }

  /** Reuses the wallet with the index, or makes it. */
  function DeriveAt(
    accounts: seq<Account>, p: Payload, networks: set<Network>, family: Family, index: nat, freshId: Id): Edit
  {
    if p.seed.None? then Refused
    else match FirstDerived(accounts, family, index)
      case Some(i) => Plain(Bound(accounts, i, networks))
      case None =>
        if |accounts| >= MAX_ACCOUNTS then Refused
        else Plain(accounts + [NewDerived(freshId, p.seed.value, family, index, networks)])
  }

  predicate IsImported(a: Account, secret: Secret) {
    a.kind.Imported? && a.kind.fingerprint == secret
  }

  function FirstImported(accounts: seq<Account>, secret: Secret): (r: Option<nat>)
    ensures r.Some? ==> r.value < |accounts| && IsImported(accounts[r.value], secret)
    ensures r.None? ==> forall i :: 0 <= i < |accounts| ==> !IsImported(accounts[i], secret)
  {
    First(accounts, WithSecret(secret))
  }

  function NewImported(id: Id, keyRef: Id, secret: Secret, networks: set<Network>): Account {
    Account(id, Imported(keyRef, secret), networks, ImportedAddresses(secret))
  }

  /** A key already there is only put on more networks; a new one goes into the vault. */
  function Import(
    accounts: seq<Account>, p: Payload, networks: set<Network>, secret: Secret, freshId: Id, freshRef: Id): Edit
  {
    match FirstImported(accounts, secret)
    case Some(i) =>
      if networks <= accounts[i].networks then Refused else Plain(Bound(accounts, i, networks))
    case None =>
      if |accounts| >= MAX_ACCOUNTS then Refused
      else Sealed(accounts + [NewImported(freshId, freshRef, secret, networks)], p.(keys := p.keys[freshRef := secret]))
  }

  function Find(accounts: seq<Account>, id: Id): (r: Option<nat>)
    ensures r.Some? ==> r.value < |accounts| && accounts[r.value].id == id
    ensures r.None? ==> FreshId(accounts, id)
  {
    First(accounts, WithId(id))
  }

  function Removed(accounts: seq<Account>, i: nat): seq<Account>
    requires i < |accounts|
  {
    accounts[..i] + accounts[i + 1..]
  }

  /** An imported wallet takes its key out of the vault. */
  function Delete(accounts: seq<Account>, p: Payload, id: Id): Edit {
    match Find(accounts, id)
    case None => Refused
    case Some(i) =>
      match accounts[i].kind
      case Derived(_, _) => Plain(Removed(accounts, i))
      case Imported(ref, _) => Sealed(Removed(accounts, i), p.(keys := map k | k in p.keys && k != ref :: p.keys[k]))
  }

  /** A pre-binding record becomes one of the chosen family, losing the other address. */
  function Assigned(a: Account, family: Family): Option<Account> {
    match a.kind
    case Derived(None, index) =>
      if family !in a.addresses then None
      else Some(a.(kind := Derived(Some(family), index), addresses := map[family := a.addresses[family]]))
    case Derived(Some(f), _) => if f == family && family in a.addresses then Some(a) else None
    case Imported(_, _) => if family in a.addresses then Some(a) else None
  }

  function Bind(accounts: seq<Account>, id: Id, network: Network, family: Family): Edit {
    match Find(accounts, id)
    case None => Refused
    case Some(i) =>
      match Assigned(accounts[i], family)
      case None => Refused
      case Some(a) => Plain(accounts[i := a.(networks := a.networks + {network})])
  }

  function Unbind(accounts: seq<Account>, id: Id, network: Network): Edit {
    match Find(accounts, id)
    case None => Refused
    case Some(i) =>
      if network !in accounts[i].networks || |accounts[i].networks| == 1 then Refused
      else Plain(accounts[i := accounts[i].(networks := accounts[i].networks - {network})])
  }

  // ------------------------------------------------------- every edit is good

  lemma ReplacedIsGood(accounts: seq<Account>, i: nat, a: Account, p: Payload)
    requires Good(accounts, p) && i < |accounts|
    requires a.id == accounts[i].id && Agrees(a, p) && Tidy(a)
    requires a.kind.Imported? ==> a.kind == accounts[i].kind
    ensures Good(accounts[i := a], p)
  {
  }

  lemma AppendedIsGood(accounts: seq<Account>, a: Account, p: Payload)
    requires Good(accounts, p) && FreshId(accounts, a.id) && Agrees(a, p) && Tidy(a)
    requires forall i :: 0 <= i < |accounts| ==> !SameRef(accounts[i], a)
    ensures Good(accounts + [a], p)
  {
  }

  lemma BoundIsGood(accounts: seq<Account>, p: Payload, i: nat, networks: set<Network>)
    requires Good(accounts, p) && i < |accounts|
    ensures Good(Bound(accounts, i, networks), p)
  {
    ReplacedIsGood(accounts, i, accounts[i].(networks := accounts[i].networks + networks), p);
  }

  lemma DeriveIsGood(
    accounts: seq<Account>, p: Payload, networks: set<Network>, family: Family, index: nat, freshId: Id)
    requires Good(accounts, p) && FreshId(accounts, freshId)
    ensures EditOk(DeriveAt(accounts, p, networks, family, index, freshId), p)
  {
    if p.seed.Some? {
      match FirstDerived(accounts, family, index)
      case Some(i) => BoundIsGood(accounts, p, i, networks);
      case None => AppendedIsGood(accounts, NewDerived(freshId, p.seed.value, family, index, networks), p);
    }
  }

  /** Keys no record names may come and go. */
  lemma OtherKeysDoNotMatter(accounts: seq<Account>, p: Payload, q: Payload)
    requires Good(accounts, p) && q.seed == p.seed
    requires forall i :: 0 <= i < |accounts| && accounts[i].kind.Imported? ==>
               accounts[i].kind.keyRef in q.keys && (accounts[i].kind.keyRef in p.keys ==>
                 q.keys[accounts[i].kind.keyRef] == p.keys[accounts[i].kind.keyRef])
    ensures Good(accounts, q)
  {
    forall i | 0 <= i < |accounts| ensures Agrees(accounts[i], q) { assert Agrees(accounts[i], p); }
  }

  lemma ImportIsGood(
    accounts: seq<Account>, p: Payload, networks: set<Network>, secret: Secret, freshId: Id, freshRef: Id)
    requires Good(accounts, p) && FreshId(accounts, freshId) && freshRef !in p.keys && secret.Raw?
    ensures EditOk(Import(accounts, p, networks, secret, freshId, freshRef), p)
  {
    match FirstImported(accounts, secret)
    case Some(i) => BoundIsGood(accounts, p, i, networks);
    case None =>
      var q := p.(keys := p.keys[freshRef := secret]);
      forall i | 0 <= i < |accounts| && accounts[i].kind.Imported? ensures accounts[i].kind.keyRef in p.keys {
        assert Agrees(accounts[i], p);
      }
      OtherKeysDoNotMatter(accounts, p, q);
      AppendedIsGood(accounts, NewImported(freshId, freshRef, secret, networks), q);
  }

  lemma RemovedIsGood(accounts: seq<Account>, p: Payload, i: nat)
    requires Good(accounts, p) && i < |accounts|
    ensures Good(Removed(accounts, i), p)
  {
    var r := Removed(accounts, i);
    assert forall k :: 0 <= k < |r| ==> r[k] == accounts[if k < i then k else k + 1];
  }

  lemma DeleteIsGood(accounts: seq<Account>, p: Payload, id: Id)
    requires Good(accounts, p)
    ensures EditOk(Delete(accounts, p, id), p)
  {
    match Find(accounts, id)
    case None =>
    case Some(i) =>
      RemovedIsGood(accounts, p, i);
      match accounts[i].kind {
        case Derived(_, _) =>
        case Imported(ref, _) =>
          var q := p.(keys := map k | k in p.keys && k != ref :: p.keys[k]);
          var r := Removed(accounts, i);
          forall k | 0 <= k < |r| && r[k].kind.Imported? ensures r[k].kind.keyRef in q.keys {
            assert r[k] == accounts[if k < i then k else k + 1];
            assert !SameRef(accounts[i], r[k]) && Agrees(r[k], p);
          }
          OtherKeysDoNotMatter(r, p, q);
      }
  }

  lemma BindIsGood(accounts: seq<Account>, p: Payload, id: Id, network: Network, family: Family)
    requires Good(accounts, p)
    ensures EditOk(Bind(accounts, id, network, family), p)
  {
    match Find(accounts, id)
    case None =>
    case Some(i) =>
      match Assigned(accounts[i], family) {
        case None =>
        case Some(a) =>
          assert Agrees(accounts[i], p) && Tidy(accounts[i]);
          ReplacedIsGood(accounts, i, a.(networks := a.networks + {network}), p);
      }
  }

  lemma UnbindIsGood(accounts: seq<Account>, p: Payload, id: Id, network: Network)
    requires Good(accounts, p)
    ensures EditOk(Unbind(accounts, id, network), p)
  {
    match Find(accounts, id)
    case None =>
    case Some(i) =>
      assert Agrees(accounts[i], p) && Tidy(accounts[i]);
      if network in accounts[i].networks && |accounts[i].networks| != 1 {
        ReplacedIsGood(accounts, i, accounts[i].(networks := accounts[i].networks - {network}), p);
      }
  }

  // ------------------------------------------------------------- index choice

  /** The least index not in use, and the first one a search counting up meets. */
  predicate LeastFree(used: set<nat>, k: nat) {
    k !in used && forall j: nat :: j < k ==> j in used
  }

  function Below(k: nat): (r: set<nat>)
    ensures forall j: nat :: j in r <==> j < k
    ensures |r| == k
  {
    if k == 0 then {} else Below(k - 1) + {k - 1}
  }

  /** As many indexes are tried and found used as the least free one is large. */
  lemma LeastFreeIsSmall(used: set<nat>, k: nat)
    requires forall j: nat :: j < k ==> j in used
    ensures k <= |used|
  {
    SubsetSize(Below(k), used);
  }

  function FreeFrom(used: set<nat>, k: nat): (r: nat)
    requires forall j: nat :: j < k ==> j in used
    ensures LeastFree(used, r) && r <= |used|
    decreases |used| - k
  {
    LeastFreeIsSmall(used, k);
    if k !in used then k
    else
      LeastFreeIsSmall(used, k + 1);
      FreeFrom(used, k + 1)
  }

  /** The index a new wallet gets: the least one no wallet on those networks has. */
  function ChosenIndex(accounts: seq<Account>, networks: set<Network>): (r: nat)
    ensures LeastFree(UsedIndexes(accounts, networks), r)
  {
    FreeFrom(UsedIndexes(accounts, networks), 0)
  }

  method CollectUsed(accounts: seq<Account>, networks: set<Network>) returns (used: set<nat>)
    ensures used == UsedIndexes(accounts, networks)
    ensures |used| <= |accounts|
  {
    used := {};
    for i := 0 to |accounts|
      invariant used == UsedIndexes(accounts[..i], networks)
      invariant |used| <= i
    {
      OneMoreUsed(accounts, i, networks);
      if UsedOn(accounts[i], networks) { used := used + {accounts[i].kind.index}; }
    }
    assert accounts[..|accounts|] == accounts;
  }

  lemma OneMoreUsed(accounts: seq<Account>, i: nat, networks: set<Network>)
    requires i < |accounts|
    ensures UsedIndexes(accounts[..i + 1], networks)
         == UsedIndexes(accounts[..i], networks)
            + if UsedOn(accounts[i], networks) then {accounts[i].kind.index} else {}
  {
    assert accounts[..i + 1] == accounts[..i] + [accounts[i]];
  }

  /** The search ends within one more probe than there are used indexes. */
  method NextIndex(used: set<nat>) returns (next: nat)
    ensures LeastFree(used, next) && next <= |used|
  {
    next := 0;
    LeastFreeIsSmall(used, 0);
    while next in used
      invariant forall j: nat :: j < next ==> j in used
      invariant next <= |used|
      decreases |used| - next
    {
      next := next + 1;
      LeastFreeIsSmall(used, next);
    }
  }

  // ------------------------------------------------ one wallet for each index

  /** No two derived wallets of a family have one index. */
  predicate OnePerIndex(accounts: seq<Account>) {
    forall i, j :: 0 <= i < j < |accounts| ==> !Twins(accounts[i], accounts[j])
  }

  predicate Twins(a: Account, b: Account) {
    a.kind.Derived? && a.kind.family.Some? && a.kind == b.kind
  }

  predicate OldRecord(a: Account) {
    a.kind.Derived? && a.kind.family.None?
  }

  lemma DeriveKeepsOnePerIndex(
    accounts: seq<Account>, p: Payload, networks: set<Network>, family: Family, index: nat, freshId: Id)
    requires OnePerIndex(accounts)
    ensures var e := DeriveAt(accounts, p, networks, family, index, freshId); e.Plain? ==> OnePerIndex(e.accounts)
  {
  }

  lemma ImportKeepsOnePerIndex(
    accounts: seq<Account>, p: Payload, networks: set<Network>, secret: Secret, freshId: Id, freshRef: Id)
    requires OnePerIndex(accounts)
    ensures var e := Import(accounts, p, networks, secret, freshId, freshRef); e.Refused? || OnePerIndex(e.accounts)
  {
  }

  lemma DeleteKeepsOnePerIndex(accounts: seq<Account>, p: Payload, id: Id)
    requires OnePerIndex(accounts)
    ensures var e := Delete(accounts, p, id); e.Refused? || OnePerIndex(e.accounts)
  {
    match Find(accounts, id)
    case None =>
    case Some(i) =>
      var r := Removed(accounts, i);
      assert forall k :: 0 <= k < |r| ==> r[k] == accounts[if k < i then k else k + 1];
  }

  lemma UnbindKeepsOnePerIndex(accounts: seq<Account>, id: Id, network: Network)
    requires OnePerIndex(accounts)
    ensures var e := Unbind(accounts, id, network); e.Plain? ==> OnePerIndex(e.accounts)
  {
  }

  /** Some other wallet of the family already has the old record's index. */
  predicate Clashes(accounts: seq<Account>, i: nat, family: Family)
    requires i < |accounts|
  {
    OldRecord(accounts[i]) && FirstDerived(accounts, family, accounts[i].kind.index).Some?
  }

  /**
   Binding keeps one wallet for each index except when it assigns an old record an
   index its family already uses: exactly then two records share a key.
   */
  lemma BindKeepsOnePerIndexIff(accounts: seq<Account>, id: Id, network: Network, family: Family)
    requires OnePerIndex(accounts) && Bind(accounts, id, network, family).Plain?
    ensures OnePerIndex(Bind(accounts, id, network, family).accounts)
       <==> !Clashes(accounts, Find(accounts, id).value, family)
  {
    var i := Find(accounts, id).value;
    var after := Bind(accounts, id, network, family).accounts;
    if Clashes(accounts, i, family) {
      var j := FirstDerived(accounts, family, accounts[i].kind.index).value;
      assert i != j && after[j] == accounts[j];
      assert Twins(after[if i < j then i else j], after[if i < j then j else i]);
    }
  }

  /** Two derived wallets that share an address of their family are one. */
  lemma OneKeyPerWallet(accounts: seq<Account>, p: Payload, i: nat, j: nat, family: Family)
    requires Good(accounts, p) && OnePerIndex(accounts) && i < |accounts| && j < |accounts|
    requires accounts[i].kind.Derived? && accounts[i].kind.family == Some(family)
    requires accounts[j].kind.Derived? && accounts[j].kind.family == Some(family)
    requires family in accounts[i].addresses && family in accounts[j].addresses
    requires accounts[i].addresses[family] == accounts[j].addresses[family]
    ensures i == j
  {
    assert Agrees(accounts[i], p) && Agrees(accounts[j], p);
    assert accounts[i].kind == accounts[j].kind;
    if i < j { assert Twins(accounts[i], accounts[j]); }
    if j < i { assert Twins(accounts[j], accounts[i]); }
  }

  // ------------------------------------------------------------ lending a key

  /** The key offered for a family: the derivation, or the stored key on its curve. */
  function KeyFor(a: Account, p: Payload, family: Family): Option<Secret> {
    match a.kind
    case Derived(f, index) =>
      if (f.None? && family !in a.addresses) || (f.Some? && f.value != family) || p.seed.None? then None
      else Some(Derivation(p.seed.value, family, index))
    case Imported(ref, _) =>
      if ref !in p.keys || !p.keys[ref].Raw? || p.keys[ref].curve != CurveOf(family) then None
      else Some(p.keys[ref])
  }

  /** Whatever key is lent, its address is the one the wallet shows for the family. */
  lemma LentKeyIsTheOneShown(accounts: seq<Account>, p: Payload, i: nat, family: Family)
    requires Good(accounts, p) && i < |accounts| && KeyFor(accounts[i], p, family).Some?
    ensures Shows(accounts[i], family, AddressOf(KeyFor(accounts[i], p, family).value, family))
  {
    assert Agrees(accounts[i], p) && Tidy(accounts[i]);
  }
}
