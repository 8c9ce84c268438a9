/**
 What each operation of the space manager (internal/space/manager.go) does to a wallet's
 files, secrets and sessions, said of the state before and the state after it.
 */
module SpaceLaws {
  import opened Wrappers
  import opened Accounts
  import opened Spaces
  import Vault

  // ------------------------------------------------------- before and after

  /** Auto-lock is off, or the session was used less than that time ago. */
  ghost predicate InUse(h: Home, id: Id, now: nat) {
    id in h.sessions && (h.autoLock <= 0 || now < h.sessions[id].lastUsed + h.autoLock)
  }

  ghost predicate SameSettings(h: Home, after: Home) {
    after.confirm == h.confirm && after.ttl == h.ttl && after.autoLock == h.autoLock
  }

  /** Two maps say the same of every space but one. */
  ghost predicate SameElsewhere<V>(before: map<Id, V>, after: map<Id, V>, id: Id) {
    forall k :: k != id ==> (k in after <==> k in before) && (k in before ==> after[k] == before[k])
  }

  ghost predicate OthersKeep(h: Home, after: Home, id: Id) {
    SameSettings(h, after) && SameElsewhere(h.files, after.files, id) && SameElsewhere(h.disk, after.disk, id)
  }

  /** The sessions of all other spaces, without the idle ones. */
  ghost predicate OthersSwept(h: Home, after: Home, id: Id, now: nat) {
    forall k :: k != id ==>
      (k in after.sessions <==> InUse(h, k, now)) && (k in after.sessions ==> after.sessions[k] == h.sessions[k])
  }

  /** Nothing but the sweep, and that the space's own session, if it is open, was used. */
  ghost predicate OnlyUsed(h: Home, after: Home, id: Id, now: nat) {
    && SameSettings(h, after) && after.files == h.files && after.disk == h.disk && OthersSwept(h, after, id, now)
    && (id in after.sessions ==> InUse(h, id, now))
    && (id in h.files && InUse(h, id, now) ==>
          id in after.sessions && after.sessions[id] == h.sessions[id].(lastUsed := now))
  }

  function Secrets(h: Home, id: Id): Payload
    requires id in h.files
  {
    h.files[id].vault.box.payload
  }

  /** Closed by the same password as before, whatever it now holds. */
  ghost predicate SameLock(f: File, g: File) {
    && g.id == f.id && g.vault.kdf == f.vault.kdf && g.vault.box.key == f.vault.box.key
    && g.vault.box.aad == f.vault.box.aad
  }

  /** The file changed, on disk too, under the same lock, to hold these secrets. */
  ghost predicate Rewritten(h: Home, after: Home, id: Id, secrets: Payload)
    requires id in h.files
  {
    && id in after.files && id in after.disk && after.disk[id] == after.files[id]
    && SameLock(h.files[id], after.files[id]) && Secrets(after, id) == secrets
  }

  /** An edit of an open space: only its file and its session differ. */
  ghost predicate Edited(h: Home, after: Home, id: Id, secrets: Payload, now: nat)
    requires id in h.files
  {
    && OthersKeep(h, after, id) && OthersSwept(h, after, id, now) && Rewritten(h, after, id, secrets)
    && id in h.sessions && id in after.sessions
    && after.sessions[id] == h.sessions[id].(payload := secrets, lastUsed := now)
  }

  // ------------------------------------------------------------ lists compared

  /** One record is gone, the others are there in their order. */
  ghost predicate LostOne(before: seq<Account>, after: seq<Account>, i: nat) {
    && i < |before| && |after| == |before| - 1
    && (forall k :: 0 <= k < i ==> after[k] == before[k])
    && (forall k :: i <= k < |after| ==> after[k] == before[k + 1])
  }

  ghost predicate SameButOne(before: seq<Account>, after: seq<Account>, i: nat) {
    |after| == |before| && i < |before| && forall k :: 0 <= k < |before| && k != i ==> after[k] == before[k]
  }

  ghost predicate GainedOne(before: seq<Account>, after: seq<Account>) {
    |after| == |before| + 1 && forall k :: 0 <= k < |before| ==> after[k] == before[k]
  }

  /** One record is on these networks, and is otherwise what it was. */
  ghost predicate OnNetworks(before: seq<Account>, after: seq<Account>, i: nat, networks: set<Network>) {
    && SameButOne(before, after, i) && after[i].networks == networks
    && after[i].id == before[i].id && after[i].kind == before[i].kind && after[i].addresses == before[i].addresses
  }

  /** The step-up: the space's own password, and the throttle's leave. */
  ghost predicate RightPassword(h: Home, passwords: map<Id, string>, id: Id, password: string, allowed: bool) {
    id in h.files && id in passwords && allowed && password == passwords[id]
  }

  lemma OpeningNeedsThePassword(h: Home, passwords: map<Id, string>, id: Id, password: string)
    requires Inv(h, passwords) && id in h.files
    ensures Opening(password, h.files[id]).Some? <==> password == passwords[id]
    ensures Opening(password, h.files[id]).Some? ==>
              Opening(password, h.files[id]).value == (Secrets(h, id), Vault.SessionKey(h.files[id].vault.box.key,
                                                                                      h.files[id].vault.kdf))
    ensures Good(h.files[id].accounts, Secrets(h, id))
  {
    assert FileOk(h.files[id], id, passwords[id]);
  }

  /** Asking for an open space sweeps, and counts as use. */
  lemma OpenOnlyUses(h: Home, id: Id, now: nat)
    ensures OnlyUsed(h, Open(h, id, now), id, now)
    ensures IsOpen(h, id, now) <==> id in h.files && InUse(h, id, now)
  {
  }

  // ------------------------------------------------------------------ deletion

  /** The stored keys after a record went: its own is gone, and no other. */
  ghost predicate LosesTheKeyOf(keys: map<Id, Secret>, left: map<Id, Secret>, a: Account) {
    && (forall r :: r in left <==> r in keys && !(a.kind.Imported? && r == a.kind.keyRef))
    && (forall r :: r in left ==> left[r] == keys[r])
  }

  ghost predicate DeletionGoes(
    h: Home, passwords: map<Id, string>, id: Id, password: string, allowed: bool, now: nat, written: bool)
  {
    RightPassword(h, passwords, id, password, allowed) && password != "" && InUse(h, id, now) && written
  }

  /**
   A confirmed deletion that is written takes away the wallet asked for, with its key if
   it was imported, and nothing else of any space.
   */
  lemma DeletionTakesThatWallet(h: Home, passwords: map<Id, string>, id: Id, account: Id, password: string,
    allowed: bool, now: nat, written: bool, i: nat)
    requires Inv(h, passwords) && DeletionGoes(h, passwords, id, password, allowed, now, written)
    requires i < |h.files[id].accounts| && h.files[id].accounts[i].id == account
    ensures var after := DeleteAccount(h, id, account, password, allowed, now, written);
            && id in after.files && Secrets(after, id).seed == Secrets(h, id).seed
            && Edited(h, after, id, Secrets(after, id), now)
            && LostOne(h.files[id].accounts, after.files[id].accounts, i)
            && FreshId(after.files[id].accounts, account)
            && LosesTheKeyOf(Secrets(h, id).keys, Secrets(after, id).keys, h.files[id].accounts[i])
  {
    OpeningNeedsThePassword(h, passwords, id, password);
    OpenOnlyUses(h, id, now);
    assert SessionOk(h.sessions[id], h.files[id]);
    DeleteTakesOne(h.files[id].accounts, Secrets(h, id), account, i);
    AppliedIsEdited(h, passwords, id, Delete(h.files[id].accounts, Secrets(h, id), account), now);
  }

  lemma DeleteTakesOne(accounts: seq<Account>, p: Payload, account: Id, i: nat)
    requires DistinctIds(accounts) && i < |accounts| && accounts[i].id == account
    ensures var e := Delete(accounts, p, account);
            && !e.Refused? && LostOne(accounts, e.accounts, i) && FreshId(e.accounts, account)
            && var q := if e.Sealed? then e.payload else p;
               q.seed == p.seed && LosesTheKeyOf(p.keys, q.keys, accounts[i])
  {
    assert Find(accounts, account) == Some(i);
    var rest := Removed(accounts, i);
    forall k | 0 <= k < |rest| ensures rest[k] == accounts[if k < i then k else k + 1] {
    }
  }

  lemma CommitIs(h: Home, f: File)
    ensures var after := Commit(h, f, true);
            OthersKeep(h, after, f.id) && after.sessions == h.sessions
            && f.id in after.files && after.files[f.id] == f && f.id in after.disk && after.disk[f.id] == f
  {
  }

  /** An edit of an open space that is written is all that happens. */
  lemma AppliedIsEdited(h: Home, passwords: map<Id, string>, id: Id, edit: Edit, now: nat)
    requires Inv(h, passwords) && id in h.files && InUse(h, id, now) && !edit.Refused?
    ensures var after := Apply(Open(h, id, now), id, edit, true);
            && Edited(h, after, id, if edit.Sealed? then edit.payload else Secrets(h, id), now)
            && after.files[id].accounts == edit.accounts
  {
    OpenOnlyUses(h, id, now);
    var f, o := h.files[id], Open(h, id, now);
    assert SessionOk(h.sessions[id], f) && FileOk(f, id, passwords[id]);
    match edit
    case Plain(accounts) => CommitIs(o, f.(accounts := accounts));
    case Sealed(accounts, payload) =>
      CommitIs(PutSession(o, id, o.sessions[id].(payload := payload)),
        File(id, accounts, Vault.Seal(h.sessions[id].key, payload, id).value));
    case Refused => assert false;
  }

  /** Any other deletion leaves every record and every key where it was. */
  lemma OtherDeletionsTakeNothing(h: Home, passwords: map<Id, string>, id: Id, account: Id, password: string,
    allowed: bool, now: nat, written: bool)
    requires Inv(h, passwords)
    requires DeletionGoes(h, passwords, id, password, allowed, now, written) ==> FreshId(h.files[id].accounts, account)
    ensures var after := DeleteAccount(h, id, account, password, allowed, now, written);
            after == h || OnlyUsed(h, after, id, now)
    ensures !RightPassword(h, passwords, id, password, allowed) ==>
              DeleteAccount(h, id, account, password, allowed, now, written) == h
  {
    OpenOnlyUses(h, id, now);
    if id in h.files {
      OpeningNeedsThePassword(h, passwords, id, password);
      if id in h.sessions { assert SessionOk(h.sessions[id], h.files[id]); }
    }
  }

  // -------------------------------------------------------------- derivation

  /** The least index that no derived wallet on any of the networks has. */
  ghost predicate LeastUnused(accounts: seq<Account>, networks: set<Network>, index: nat) {
    && (forall a :: a in accounts && a.kind.Derived? && a.networks * networks != {} ==> a.kind.index != index)
    && (forall k: nat :: k < index ==> TakenOn(accounts, networks, k))
  }

  ghost predicate TakenOn(accounts: seq<Account>, networks: set<Network>, index: nat) {
    exists a :: a in accounts && a.kind.Derived? && a.networks * networks != {} && a.kind.index == index
  }

  /** The first record that is the family's wallet with an index. */
  ghost predicate IsWallet(accounts: seq<Account>, family: Family, index: nat, i: nat) {
    && i < |accounts| && accounts[i].kind == Derived(Some(family), index)
    && forall k :: 0 <= k < i ==> accounts[k].kind != Derived(Some(family), index)
  }

  ghost predicate NoWallet(accounts: seq<Account>, family: Family, index: nat) {
    forall a :: a in accounts ==> a.kind != Derived(Some(family), index)
  }

  ghost predicate NewestIs(accounts: seq<Account>, id: Id, kind: Kind, networks: set<Network>) {
    accounts != [] &&
    var a := accounts[|accounts| - 1];
    a.id == id && a.kind == kind && a.networks == networks
  }

  lemma ChosenIsLeastUnused(accounts: seq<Account>, networks: set<Network>, index: nat)
    ensures LeastUnused(accounts, networks, index) <==> index == ChosenIndex(accounts, networks)
  {
    var chosen := ChosenIndex(accounts, networks);
    forall k: nat ensures TakenOn(accounts, networks, k) <==> k in UsedIndexes(accounts, networks) {
      if TakenOn(accounts, networks, k) {
        var a :| a in accounts && a.kind.Derived? && a.networks * networks != {} && a.kind.index == k;
        var i :| 0 <= i < |accounts| && accounts[i] == a;
        assert UsedOn(accounts[i], networks);
      }
    }
    if LeastUnused(accounts, networks, index) { assert !TakenOn(accounts, networks, index); }
  }

  lemma DeriveIs(accounts: seq<Account>, p: Payload, networks: set<Network>, family: Family, index: nat, freshId: Id)
    requires p.seed.Some?
    ensures var e := DeriveAt(accounts, p, networks, family, index, freshId);
            && !e.Sealed?
            && (forall i: nat :: IsWallet(accounts, family, index, i) ==>
                  e.Plain? && OnNetworks(accounts, e.accounts, i, accounts[i].networks + networks))
            && (NoWallet(accounts, family, index) ==> (e.Refused? <==> |accounts| >= MAX_ACCOUNTS))
            && (NoWallet(accounts, family, index) && e.Plain? ==>
                  && GainedOne(accounts, e.accounts)
                  && NewestIs(e.accounts, freshId, Derived(Some(family), index), networks)
                  && e.accounts[|accounts|].addresses
                     == map[family := AddressOf(Derivation(p.seed.value, family, index), family)])
  {
    forall i: nat | IsWallet(accounts, family, index, i) ensures FirstDerived(accounts, family, index) == Some(i) {
    }
    if NoWallet(accounts, family, index) { assert FirstDerived(accounts, family, index).None?; }
  }

  /** What a derivation from an open space with a seed can start from. */
  ghost predicate Derives(h: Home, passwords: map<Id, string>, id: Id, networks: set<Network>, now: nat, index: nat) {
    && Inv(h, passwords) && networks != {} && id in h.files && InUse(h, id, now) && Secrets(h, id).seed.Some?
    && LeastUnused(h.files[id].accounts, networks, index)
  }

  lemma DerivedIsApplied(h: Home, passwords: map<Id, string>, id: Id, networks: set<Network>, family: Family,
    freshId: Id, now: nat, index: nat)
    requires Derives(h, passwords, id, networks, now, index)
    ensures Derive(h, id, networks, family, freshId, now, true)
         == Apply(Open(h, id, now), id,
                  DeriveAt(h.files[id].accounts, Secrets(h, id), networks, family, index, freshId), true)
  {
    OpenOnlyUses(h, id, now);
    ChosenIsLeastUnused(h.files[id].accounts, networks, index);
    assert SessionOk(h.sessions[id], h.files[id]);
  }

  /** The family's wallet with the least index unused on the networks is put on them. */
  lemma DerivingReusesTheWallet(h: Home, passwords: map<Id, string>, id: Id, networks: set<Network>, family: Family,
    freshId: Id, now: nat, index: nat, i: nat)
    requires Derives(h, passwords, id, networks, now, index) && IsWallet(h.files[id].accounts, family, index, i)
    ensures var before, after := h.files[id].accounts, Derive(h, id, networks, family, freshId, now, true);
            && Edited(h, after, id, Secrets(h, id), now)
            && OnNetworks(before, after.files[id].accounts, i, before[i].networks + networks)
  {
    DerivedIsApplied(h, passwords, id, networks, family, freshId, now, index);
    DeriveIs(h.files[id].accounts, Secrets(h, id), networks, family, index, freshId);
    AppliedIsEdited(h, passwords, id,
      DeriveAt(h.files[id].accounts, Secrets(h, id), networks, family, index, freshId), now);
  }

  /** Where the family has no such wallet it is made, showing the address of its key. */
  lemma DerivingMakesTheWallet(h: Home, passwords: map<Id, string>, id: Id, networks: set<Network>, family: Family,
    freshId: Id, now: nat, index: nat)
    requires Derives(h, passwords, id, networks, now, index) && NoWallet(h.files[id].accounts, family, index)
    ensures var before, after := h.files[id].accounts, Derive(h, id, networks, family, freshId, now, true);
            if |before| >= MAX_ACCOUNTS then OnlyUsed(h, after, id, now)
            else
              && Edited(h, after, id, Secrets(h, id), now) && GainedOne(before, after.files[id].accounts)
              && NewestIs(after.files[id].accounts, freshId, Derived(Some(family), index), networks)
              && after.files[id].accounts[|before|].addresses
                 == map[family := AddressOf(Derivation(Secrets(h, id).seed.value, family, index), family)]
  {
    DerivedIsApplied(h, passwords, id, networks, family, freshId, now, index);
    DeriveIs(h.files[id].accounts, Secrets(h, id), networks, family, index, freshId);
    var e := DeriveAt(h.files[id].accounts, Secrets(h, id), networks, family, index, freshId);
    if e.Refused? { OpenOnlyUses(h, id, now); } else { AppliedIsEdited(h, passwords, id, e, now); }
  }

  /** No networks, no open session, no seed or a failed write: nothing is derived. */
  lemma OtherwiseNothingIsDerived(h: Home, passwords: map<Id, string>, id: Id, networks: set<Network>,
    family: Family, freshId: Id, now: nat, written: bool)
    requires Inv(h, passwords)
    requires networks == {} || id !in h.files || !InUse(h, id, now) || Secrets(h, id).seed.None? || !written
    ensures var after := Derive(h, id, networks, family, freshId, now, written);
            after == h || OnlyUsed(h, after, id, now)
  {
    OpenOnlyUses(h, id, now);
    if id in h.files && id in h.sessions { assert SessionOk(h.sessions[id], h.files[id]); }
  }

  // ------------------------------------------------------------------- import

  /** The first record whose stored key this is. */
  ghost predicate HasTheKey(accounts: seq<Account>, keys: map<Id, Secret>, secret: Secret, i: nat) {
    && i < |accounts| && Holds(accounts[i], keys, secret)
    && forall k :: 0 <= k < i ==> !Holds(accounts[k], keys, secret)
  }

  ghost predicate Holds(a: Account, keys: map<Id, Secret>, secret: Secret) {
    a.kind.Imported? && a.kind.keyRef in keys && keys[a.kind.keyRef] == secret
  }

  ghost predicate KeyIsNew(accounts: seq<Account>, keys: map<Id, Secret>, secret: Secret) {
    forall a :: a in accounts ==> !Holds(a, keys, secret)
  }

  /** An imported key shows its Tron and EVM addresses, or its Solana one. */
  ghost predicate ShowsItsKey(a: Account, secret: Secret) {
    forall f :: (f in a.addresses <==> (f == Solana <==> secret.Raw? && secret.curve == Ed25519))
             && (f in a.addresses ==> a.addresses[f] == AddressOf(secret, f))
  }

  lemma ImportIs(accounts: seq<Account>, p: Payload, networks: set<Network>, secret: Secret, freshId: Id, freshRef: Id)
    requires Verified(accounts, p)
    ensures var e := Accounts.Import(accounts, p, networks, secret, freshId, freshRef);
            && (forall i: nat :: HasTheKey(accounts, p.keys, secret, i) ==>
                  if networks <= accounts[i].networks then e.Refused?
                  else e.Plain? && OnNetworks(accounts, e.accounts, i, accounts[i].networks + networks))
            && (KeyIsNew(accounts, p.keys, secret) ==> !e.Plain? && (e.Refused? <==> |accounts| >= MAX_ACCOUNTS))
            && (KeyIsNew(accounts, p.keys, secret) && e.Sealed? ==>
                  && e.payload == Payload(p.seed, p.keys[freshRef := secret]) && GainedOne(accounts, e.accounts)
                  && NewestIs(e.accounts, freshId, Imported(freshRef, secret), networks)
                  && ShowsItsKey(e.accounts[|accounts|], secret))
  {
    forall i | 0 <= i < |accounts| ensures Holds(accounts[i], p.keys, secret) <==> IsImported(accounts[i], secret) {
      assert Agrees(accounts[i], p);
    }
    forall i: nat | HasTheKey(accounts, p.keys, secret, i) ensures FirstImported(accounts, secret) == Some(i) {
    }
    if KeyIsNew(accounts, p.keys, secret) { assert FirstImported(accounts, secret).None?; }
  }

  lemma ImportedIsApplied(h: Home, passwords: map<Id, string>, id: Id, networks: set<Network>, secret: Secret,
    freshId: Id, freshRef: Id, now: nat)
    requires Inv(h, passwords) && networks != {} && id in h.files && InUse(h, id, now)
    ensures ImportKey(h, id, networks, secret, freshId, freshRef, now, true)
         == Apply(Open(h, id, now), id,
                  Accounts.Import(h.files[id].accounts, Secrets(h, id), networks, secret, freshId, freshRef), true)
    ensures Verified(h.files[id].accounts, Secrets(h, id))
  {
    OpenOnlyUses(h, id, now);
    assert SessionOk(h.sessions[id], h.files[id]) && FileOk(h.files[id], id, passwords[id]);
  }

  /** A key some wallet has already puts that wallet on the networks as well. */
  lemma ImportingAKnownKey(h: Home, passwords: map<Id, string>, id: Id, networks: set<Network>, secret: Secret,
    freshId: Id, freshRef: Id, now: nat, i: nat)
    requires Inv(h, passwords) && networks != {} && id in h.files && InUse(h, id, now)
    requires HasTheKey(h.files[id].accounts, Secrets(h, id).keys, secret, i)
    ensures var before := h.files[id].accounts;
            var after := ImportKey(h, id, networks, secret, freshId, freshRef, now, true);
            if networks <= before[i].networks then OnlyUsed(h, after, id, now)
            else
              && Edited(h, after, id, Secrets(h, id), now)
              && OnNetworks(before, after.files[id].accounts, i, before[i].networks + networks)
  {
    ImportedIsApplied(h, passwords, id, networks, secret, freshId, freshRef, now);
    ImportIs(h.files[id].accounts, Secrets(h, id), networks, secret, freshId, freshRef);
    var e := Accounts.Import(h.files[id].accounts, Secrets(h, id), networks, secret, freshId, freshRef);
    if e.Refused? { OpenOnlyUses(h, id, now); } else { AppliedIsEdited(h, passwords, id, e, now); }
  }

  /** Any other key goes into the vault, with a wallet that shows it. */
  lemma ImportingANewKey(h: Home, passwords: map<Id, string>, id: Id, networks: set<Network>, secret: Secret,
    freshId: Id, freshRef: Id, now: nat)
    requires Inv(h, passwords) && networks != {} && id in h.files && InUse(h, id, now)
    requires KeyIsNew(h.files[id].accounts, Secrets(h, id).keys, secret)
    ensures var before := h.files[id].accounts;
            var after := ImportKey(h, id, networks, secret, freshId, freshRef, now, true);
            if |before| >= MAX_ACCOUNTS then OnlyUsed(h, after, id, now)
            else
              && Edited(h, after, id, Payload(Secrets(h, id).seed, Secrets(h, id).keys[freshRef := secret]), now)
              && GainedOne(before, after.files[id].accounts)
              && NewestIs(after.files[id].accounts, freshId, Imported(freshRef, secret), networks)
              && ShowsItsKey(after.files[id].accounts[|before|], secret)
  {
    ImportedIsApplied(h, passwords, id, networks, secret, freshId, freshRef, now);
    ImportIs(h.files[id].accounts, Secrets(h, id), networks, secret, freshId, freshRef);
    var e := Accounts.Import(h.files[id].accounts, Secrets(h, id), networks, secret, freshId, freshRef);
    if e.Refused? { OpenOnlyUses(h, id, now); } else { AppliedIsEdited(h, passwords, id, e, now); }
  }

  lemma OtherwiseNothingIsImported(h: Home, passwords: map<Id, string>, id: Id, networks: set<Network>,
    secret: Secret, freshId: Id, freshRef: Id, now: nat, written: bool)
    requires Inv(h, passwords) && (networks == {} || id !in h.files || !InUse(h, id, now) || !written)
    ensures var after := ImportKey(h, id, networks, secret, freshId, freshRef, now, written);
            after == h || OnlyUsed(h, after, id, now)
  {
    OpenOnlyUses(h, id, now);
    if id in h.files && id in h.sessions { assert SessionOk(h.sessions[id], h.files[id]); }
  }

  // ------------------------------------------------------------------ binding

  /** Only the records of one space changed, and no session did. */
  ghost predicate OnlyRecords(h: Home, after: Home, id: Id)
    requires id in h.files
  {
    && OthersKeep(h, after, id) && after.sessions == h.sessions && Rewritten(h, after, id, Secrets(h, id))
    && after.files[id].vault == h.files[id].vault
  }

  /** A record from before binding takes the family, and shows its address alone. */
  ghost predicate TakesTheFamily(a: Account, b: Account, family: Family) {
    && b.id == a.id && family in a.addresses
    && if OldRecord(a)
       then b.kind == Derived(Some(family), a.kind.index) && b.addresses == map[family := a.addresses[family]]
       else b.kind == a.kind && b.addresses == a.addresses
  }

  /** A wallet can be bound to a network exactly when it shows an address of its family. */
  lemma BindingAddsTheNetwork(h: Home, passwords: map<Id, string>, id: Id, account: Id, network: Network,
    family: Family, written: bool, i: nat)
    requires Inv(h, passwords) && id in h.files
    requires i < |h.files[id].accounts| && h.files[id].accounts[i].id == account
    ensures var before := h.files[id].accounts;
            var after := Rebind(h, id, Bind(before, account, network, family), written);
            if family in before[i].addresses && written then
              && OnlyRecords(h, after, id) && SameButOne(before, after.files[id].accounts, i)
              && after.files[id].accounts[i].networks == before[i].networks + {network}
              && TakesTheFamily(before[i], after.files[id].accounts[i], family)
            else after == h
  {
    var before := h.files[id].accounts;
    assert FileOk(h.files[id], id, passwords[id]) && Agrees(before[i], Secrets(h, id)) && Tidy(before[i]);
    assert Find(before, account) == Some(i);
  }

  /** A wallet leaves a network it is on unless that is its only one. */
  lemma UnbindingDropsTheNetwork(h: Home, passwords: map<Id, string>, id: Id, account: Id, network: Network,
    written: bool, i: nat)
    requires Inv(h, passwords) && id in h.files
    requires i < |h.files[id].accounts| && h.files[id].accounts[i].id == account
    ensures var before := h.files[id].accounts;
            var after := Rebind(h, id, Unbind(before, account, network), written);
            if network in before[i].networks && before[i].networks != {network} && written then
              && OnlyRecords(h, after, id)
              && OnNetworks(before, after.files[id].accounts, i, before[i].networks - {network})
              && after.files[id].accounts[i].networks != {}
            else after == h
  {
    var before := h.files[id].accounts;
    var networks := before[i].networks;
    assert FileOk(h.files[id], id, passwords[id]) && Find(before, account) == Some(i);
    if network in networks {
      assert |networks - {network}| == |networks| - 1;
      assert networks - {network} == {} <==> networks == {network};
    }
  }

  lemma UnknownWalletsAreNotBound(h: Home, id: Id, account: Id, network: Network, family: Family, written: bool)
    requires id in h.files && FreshId(h.files[id].accounts, account)
    ensures Rebind(h, id, Bind(h.files[id].accounts, account, network, family), written) == h
    ensures Rebind(h, id, Unbind(h.files[id].accounts, account, network), written) == h
  {
    assert Find(h.files[id].accounts, account).None?;
  }

  // ----------------------------------------------------- passwords and sessions

  ghost predicate SameFiles(h: Home, after: Home) {
    SameSettings(h, after) && after.files == h.files && after.disk == h.disk
  }

  /** An open session with the file's secrets, just used, and no leave to spend. */
  ghost predicate JustOpened(after: Home, id: Id, now: nat) {
    && id in after.files && id in after.sessions && after.sessions[id].payload == Secrets(after, id)
    && after.sessions[id].lastUsed == now && after.sessions[id].grant.None?
    && SessionOk(after.sessions[id], after.files[id])
  }

  /** The right password of a stored space, and no other, opens a session with its secrets. */
  lemma RightPasswordUnlocks(
    h: Home, passwords: map<Id, string>, id: Id, password: string, allowed: bool, now: nat)
    requires Inv(h, passwords)
    ensures var after := Unlock(h, id, password, allowed, now);
            if RightPassword(h, passwords, id, password, allowed) then
              SameFiles(h, after) && SameElsewhere(h.sessions, after.sessions, id) && JustOpened(after, id, now)
            else after == h
  {
    if id in h.files { OpeningNeedsThePassword(h, passwords, id, password); }
  }

  /** What a password opens of a stored file. */
  ghost predicate OpensWith(f: File, password: string, secrets: Payload) {
    && (forall attempt :: Opening(attempt, f).Some? <==> attempt == password)
    && Opening(password, f).value.0 == secrets
  }

  /** The space's file, in memory and on disk, opens with this password to these secrets. */
  ghost predicate Stored(after: Home, id: Id, password: string, accounts: seq<Account>, secrets: Payload) {
    && id in after.files && id in after.disk && after.disk[id] == after.files[id]
    && after.files[id].id == id && after.files[id].accounts == accounts
    && OpensWith(after.files[id], password, secrets)
  }

  ghost predicate CanSeal(password: string, params: Vault.Params) {
    && password != "" && Vault.MIN_TIME <= params.time <= Vault.MAX_TIME
    && Vault.MIN_MEMORY <= params.memoryKiB <= Vault.MAX_MEMORY
    && 1 <= params.parallelism <= Vault.MAX_PARALLELISM
  }

  /** A new space opens with the password it was made with, and is left open. */
  lemma CreatingStoresTheSpace(h: Home, id: Id, password: string, accounts: seq<Account>, secrets: Payload,
    params: Vault.Params, salt: nat, now: nat, written: bool)
    ensures var after := Create(h, id, password, accounts, secrets, params, salt, now, written);
            if CanSeal(password, params) && written then
              && OthersKeep(h, after, id) && SameElsewhere(h.sessions, after.sessions, id)
              && Stored(after, id, password, accounts, secrets) && JustOpened(after, id, now)
            else after == h
  {
  }

  ghost predicate PasswordChanges(h: Home, passwords: map<Id, string>, id: Id, current: string, next: string,
    allowed: bool, params: Vault.Params, written: bool)
  {
    RightPassword(h, passwords, id, current, allowed) && CanSeal(next, params) && written
  }

  /**
   After a change the same wallets and secrets open with the new password and no longer
   with the old one; an open session stays open, with no leave to spend.
   */
  lemma ChangingThePassword(h: Home, passwords: map<Id, string>, id: Id, current: string, next: string,
    allowed: bool, params: Vault.Params, salt: nat, now: nat, written: bool)
    requires Inv(h, passwords)
    ensures var after := ChangePassword(h, id, current, next, allowed, params, salt, now, written);
            if PasswordChanges(h, passwords, id, current, next, allowed, params, written) then
              && OthersKeep(h, after, id) && SameElsewhere(h.sessions, after.sessions, id)
              && Stored(after, id, next, h.files[id].accounts, Secrets(h, id))
              && (id in after.sessions <==> id in h.sessions)
              && (id in after.sessions ==> JustOpened(after, id, now))
            else after == h
    ensures Changes(h, id, current, next, allowed, params, salt, written)
       <==> PasswordChanges(h, passwords, id, current, next, allowed, params, written)
  {
    if id in h.files { OpeningNeedsThePassword(h, passwords, id, current); }
  }

  /** Locking ends the space's session, and no other. */
  lemma LockingEndsTheSession(h: Home, id: Id)
    ensures var after := DropSession(h, id);
            SameFiles(h, after) && SameElsewhere(h.sessions, after.sessions, id) && id !in after.sessions
  {
  }

  // ---------------------------------------------------------- spending and keys

  ghost predicate Confirms(
    h: Home, passwords: map<Id, string>, id: Id, password: string, allowed: bool, cancelled: bool, now: nat)
  {
    RightPassword(h, passwords, id, password, allowed) && password != "" && !cancelled && InUse(h, id, now)
  }

  /** A confirmation of an open space gives it leave for the grant's time, and no other space. */
  lemma ConfirmingGrants(
    h: Home, passwords: map<Id, string>, id: Id, password: string, allowed: bool, cancelled: bool, now: nat)
    requires Inv(h, passwords) && Confirms(h, passwords, id, password, allowed, cancelled, now)
    ensures var after := ConfirmSend(h, id, password, allowed, cancelled, now);
            && SameFiles(h, after) && OthersSwept(h, after, id, now) && id in after.sessions
            && after.sessions[id] == h.sessions[id].(lastUsed := now, grant := Some(now + h.ttl))
  {
    OpeningNeedsThePassword(h, passwords, id, password);
  }

  /** So it may spend until that time is over or its session is idle. */
  lemma GrantLasts(h: Home, passwords: map<Id, string>, id: Id, password: string, allowed: bool, cancelled: bool,
    now: nat, later: nat)
    requires Inv(h, passwords) && Confirms(h, passwords, id, password, allowed, cancelled, now) && now <= later
    ensures SendAllowed(ConfirmSend(h, id, password, allowed, cancelled, now), id, later)
       <==> !h.confirm || (later < now + h.ttl && (h.autoLock <= 0 || later < now + h.autoLock))
  {
    ConfirmingGrants(h, passwords, id, password, allowed, cancelled, now);
  }

  /** Any other confirmation changes no session: idle ones may end, and none gets leave. */
  lemma OtherConfirmationsGrantNothing(
    h: Home, passwords: map<Id, string>, id: Id, password: string, allowed: bool, cancelled: bool, now: nat)
    requires Inv(h, passwords) && !Confirms(h, passwords, id, password, allowed, cancelled, now)
    ensures var after := ConfirmSend(h, id, password, allowed, cancelled, now);
            && SameFiles(h, after)
            && forall k :: k in after.sessions ==> k in h.sessions && after.sessions[k] == h.sessions[k]
  {
    if id in h.files { OpeningNeedsThePassword(h, passwords, id, password); }
  }

  /** A wallet that shows an address of the family, on the network. */
  ghost predicate Signs(a: Account, account: Id, network: Network, family: Family) {
    a.id == account && network in a.networks && family in a.addresses
  }

  /**
   An open space lends a key exactly for its wallets that are on the network and show an
   address of the family, and the key is the one behind that address.
   */
  lemma KeyIsLentIff(
    h: Home, passwords: map<Id, string>, id: Id, account: Id, network: Network, family: Family, now: nat)
    requires Inv(h, passwords)
    ensures var key := Lent(h, id, account, network, family, now);
            && (key.Some? <==> id in h.files && InUse(h, id, now)
                               && exists a :: a in h.files[id].accounts && Signs(a, account, network, family))
            && (key.Some? ==>
                  forall a :: a in h.files[id].accounts && Signs(a, account, network, family) ==>
                    a.addresses[family] == AddressOf(key.value, family))
  {
    OpenOnlyUses(h, id, now);
    if id in h.files && InUse(h, id, now) {
      var accounts := h.files[id].accounts;
      assert SessionOk(h.sessions[id], h.files[id]) && FileOk(h.files[id], id, passwords[id]);
      match Find(accounts, account)
      case None =>
      case Some(i) =>
        KeyIsBehindTheAddress(accounts, Secrets(h, id), i, family);
        assert accounts[i] in accounts;
        forall a | a in accounts && Signs(a, account, network, family) ensures a == accounts[i] {
          OneWithTheId(accounts, a, accounts[i]);
        }
    }
  }

  lemma OneWithTheId(accounts: seq<Account>, a: Account, b: Account)
    requires DistinctIds(accounts) && a in accounts && b in accounts && a.id == b.id
    ensures a == b
  {
  }

  lemma KeyIsBehindTheAddress(accounts: seq<Account>, p: Payload, i: nat, family: Family)
    requires Good(accounts, p) && i < |accounts|
    ensures KeyFor(accounts[i], p, family).Some? <==> family in accounts[i].addresses
    ensures KeyFor(accounts[i], p, family).Some? ==>
              accounts[i].addresses[family] == AddressOf(KeyFor(accounts[i], p, family).value, family)
  {
    assert Agrees(accounts[i], p) && Tidy(accounts[i]);
    match accounts[i].kind
    case Derived(Some(f), _) => assert family in accounts[i].addresses <==> family == f;
    case Derived(None, _) => assert family in accounts[i].addresses.Keys <==> family in {Tron, Evm};
    case Imported(_, _) =>
  }
}
