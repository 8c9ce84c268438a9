/**
 One wallet for each derivation index, over whole runs (internal/space/manager.go): true
 in every space that holds no record from before networks were bound, and how such a
 record breaks it.
 */
module SpaceIndexes {
  import opened Wrappers
  import opened Accounts
  import opened Spaces
  import opened SpaceRuns
  import Vault

  predicate NoOld(accounts: seq<Account>) {
    forall i :: 0 <= i < |accounts| ==> !OldRecord(accounts[i])
  }

  predicate Clean(accounts: seq<Account>) {
    OnePerIndex(accounts) && NoOld(accounts)
  }

  predicate EditClean(e: Edit) {
    e.Refused? || Clean(e.accounts)
  }

  lemma DeriveIsClean(
    accounts: seq<Account>, p: Payload, networks: set<Network>, family: Family, index: nat, freshId: Id)
    requires Clean(accounts)
    ensures EditClean(DeriveAt(accounts, p, networks, family, index, freshId))
  {
    DeriveKeepsOnePerIndex(accounts, p, networks, family, index, freshId);
  }

  lemma ImportIsClean(
    accounts: seq<Account>, p: Payload, networks: set<Network>, secret: Secret, freshId: Id, freshRef: Id)
    requires Clean(accounts)
    ensures EditClean(Accounts.Import(accounts, p, networks, secret, freshId, freshRef))
  {
    ImportKeepsOnePerIndex(accounts, p, networks, secret, freshId, freshRef);
  }

  lemma DeleteIsClean(accounts: seq<Account>, p: Payload, id: Id)
    requires Clean(accounts)
    ensures EditClean(Delete(accounts, p, id))
  {
    DeleteKeepsOnePerIndex(accounts, p, id);
  }

  lemma BindIsClean(accounts: seq<Account>, id: Id, network: Network, family: Family)
    requires Clean(accounts)
    ensures EditClean(Bind(accounts, id, network, family))
  {
    if Bind(accounts, id, network, family).Plain? { BindKeepsOnePerIndexIff(accounts, id, network, family); }
  }

  lemma UnbindIsClean(accounts: seq<Account>, id: Id, network: Network)
    requires Clean(accounts)
    ensures EditClean(Unbind(accounts, id, network))
  {
    UnbindKeepsOnePerIndex(accounts, id, network);
  }

  predicate AllClean(h: Home) {
    forall id :: id in h.files ==> Clean(h.files[id].accounts)
  }

  lemma ApplyKeepsClean(h: Home, id: Id, edit: Edit, written: bool)
    requires AllClean(h) && id in h.files && id in h.sessions && EditClean(edit)
    ensures AllClean(Apply(h, id, edit, written))
  {
  }

  lemma RebindKeepsClean(h: Home, id: Id, edit: Edit, written: bool)
    requires AllClean(h) && id in h.files && EditClean(edit)
    ensures AllClean(Rebind(h, id, edit, written))
  {
  }

  lemma SessionsKeepFiles(h: Home, e: Event)
    requires h.disk == h.files
    ensures SessionStep(h, e).files == h.files
  {
  }

  lemma DerivingKeepsClean(h: Home, passwords: map<Id, string>, e: Event)
    requires Inv(h, passwords) && AllClean(h) && e.DeriveOn?
    ensures AllClean(Derive(h, e.id, e.networks, e.family, e.freshId, e.now, e.written))
  {
    OpenKeeps(h, passwords, e.id, e.now);
    if e.networks != {} && IsOpen(h, e.id, e.now) {
      var accounts, payload := h.files[e.id].accounts, h.sessions[e.id].payload;
      var index := ChosenIndex(accounts, e.networks);
      DeriveIsClean(accounts, payload, e.networks, e.family, index, e.freshId);
      ApplyKeepsClean(Open(h, e.id, e.now), e.id,
        DeriveAt(accounts, payload, e.networks, e.family, index, e.freshId), e.written);
    }
  }

  lemma ImportingKeepsClean(h: Home, passwords: map<Id, string>, e: Event)
    requires Inv(h, passwords) && AllClean(h) && e.ImportOn?
    ensures AllClean(ImportKey(h, e.id, e.networks, Raw(e.curve, e.bytes), e.freshId, e.freshRef, e.now, e.written))
  {
    OpenKeeps(h, passwords, e.id, e.now);
    if e.networks != {} && IsOpen(h, e.id, e.now) {
      var accounts, payload := h.files[e.id].accounts, h.sessions[e.id].payload;
      ImportIsClean(accounts, payload, e.networks, Raw(e.curve, e.bytes), e.freshId, e.freshRef);
      ApplyKeepsClean(Open(h, e.id, e.now), e.id,
        Accounts.Import(accounts, payload, e.networks, Raw(e.curve, e.bytes), e.freshId, e.freshRef), e.written);
    }
  }

  lemma DeletingKeepsClean(h: Home, passwords: map<Id, string>, e: Event)
    requires Inv(h, passwords) && AllClean(h) && e.DeleteOne?
    ensures AllClean(DeleteAccount(h, e.id, e.account, e.password, e.allowed, e.now, e.written))
  {
    OpenKeeps(h, passwords, e.id, e.now);
    if Confirmed(h, e.id, e.password, e.allowed) && IsOpen(h, e.id, e.now) {
      var accounts, payload := h.files[e.id].accounts, h.sessions[e.id].payload;
      DeleteIsClean(accounts, payload, e.account);
      ApplyKeepsClean(Open(h, e.id, e.now), e.id, Delete(accounts, payload, e.account), e.written);
    }
  }

  lemma EditKeepsClean(h: Home, passwords: map<Id, string>, e: Event)
    requires Inv(h, passwords) && AllClean(h) && IsEdit(e)
    ensures AllClean(EditStep(h, e))
  {
    match e
    case DeriveOn(_, _, _, _, _, _) => DerivingKeepsClean(h, passwords, e);
    case ImportOn(_, _, _, _, _, _, _, _) => ImportingKeepsClean(h, passwords, e);
    case DeleteOne(_, _, _, _, _, _) => DeletingKeepsClean(h, passwords, e);
    case BindTo(id, account, network, family, written) =>
      if id in h.files {
        BindIsClean(h.files[id].accounts, account, network, family);
        RebindKeepsClean(h, id, Bind(h.files[id].accounts, account, network, family), written);
      }
    case UnbindFrom(id, account, network, written) =>
      if id in h.files {
        UnbindIsClean(h.files[id].accounts, account, network);
        RebindKeepsClean(h, id, Unbind(h.files[id].accounts, account, network), written);
      }
  }

  lemma CreateKeepsClean(
    s: State, id: Id, password: string, payload: Payload, acceptable: bool, params: Vault.Params, salt: nat, now: nat,
    written: bool)
    requires AllClean(s.home)
    ensures AllClean(CreateIn(s, id, password, [], payload, acceptable, params, salt, now, written).home)
  {
  }

  lemma PasswordKeepsClean(
    s: State, id: Id, current: string, next: string, acceptable: bool, allowed: bool, params: Vault.Params, salt: nat,
    now: nat, written: bool)
    requires Inv(s.home, s.passwords) && AllClean(s.home)
    ensures AllClean(PasswordIn(s, id, current, next, acceptable, allowed, params, salt, now, written).home)
  {
    if id in s.home.files { assert FileOk(s.home.files[id], id, s.passwords[id]); }
  }

  lemma PasswordStepKeepsClean(s: State, e: Event)
    requires Inv(s.home, s.passwords) && AllClean(s.home)
    requires SetsPassword(e) && Fresh(s.home, e) && !e.MigrateLegacy?
    ensures AllClean(PasswordStep(s, e).home)
  {
    match e
    case CreateSpace(id, password, seed, acceptable, params, salt, now, written) =>
      CreateKeepsClean(s, id, password, Payload(seed, map[]), acceptable, params, salt, now, written);
    case NewPassword(id, current, next, acceptable, allowed, params, salt, now, written) =>
      PasswordKeepsClean(s, id, current, next, acceptable, allowed, params, salt, now, written);
  }

  lemma StepKeepsClean(s: State, e: Event)
    requires Inv(s.home, s.passwords) && AllClean(s.home) && !e.MigrateLegacy?
    ensures AllClean(Step(s, e).home)
  {
    if Fresh(s.home, e) {
      if SetsPassword(e) {
        PasswordStepKeepsClean(s, e);
      } else if IsEdit(e) {
        EditKeepsClean(s.home, s.passwords, e);
      } else {
        SessionsKeepFiles(s.home, e);
      }
    }
  }

  /** Without a migration of old wallets, no space ever has two wallets of one index. */
  lemma {:induction false} EveryWalletHasItsIndex(autoLock: int, trace: seq<State>, events: seq<Event>, n: nat)
    requires IsRun(autoLock, trace, events) && n <= |events|
    requires forall m :: 0 <= m < n ==> !events[m].MigrateLegacy?
    ensures AllClean(trace[n].home)
  {
    if n == 0 {
    } else {
      EveryWalletHasItsIndex(autoLock, trace, events, n - 1);
      EverythingInOrder(autoLock, trace, events, n - 1);
      assert Linked(trace, events, n - 1);
      StepKeepsClean(trace[n - 1], events[n - 1]);
    }
  }

  /** So two wallets derived for one network's family never show the same address. */
  lemma NoTwoWalletsShareAKey(
    autoLock: int, trace: seq<State>, events: seq<Event>, n: nat, id: Id, i: nat, j: nat, family: Family)
    requires IsRun(autoLock, trace, events) && n <= |events| && id in trace[n].home.files
    requires forall m :: 0 <= m < n ==> !events[m].MigrateLegacy?
    requires var accounts := trace[n].home.files[id].accounts;
             && i < |accounts| && j < |accounts|
             && accounts[i].kind.Derived? && accounts[j].kind.Derived?
             && family in accounts[i].addresses && family in accounts[j].addresses
             && accounts[i].addresses[family] == accounts[j].addresses[family]
    ensures i == j
  {
    EveryWalletHasItsIndex(autoLock, trace, events, n);
    EverythingInOrder(autoLock, trace, events, n);
    var f := trace[n].home.files[id];
    assert FileOk(f, id, trace[n].passwords[id]) && Clean(f.accounts);
    assert Tidy(f.accounts[i]) && Tidy(f.accounts[j]) && !OldRecord(f.accounts[i]) && !OldRecord(f.accounts[j]);
    OneKeyPerWallet(f.accounts, f.vault.box.payload, i, j, family);
  }

  /** An old wallet, one derived beside it, and the old one bound to the new one's network. */
  function Legacy(seed: Seed): seq<Account> { OldAccounts(seed, [0], [1]) }

  function Beside(seed: Seed, network: Network): seq<Account> {
    Legacy(seed) + [NewDerived(2, seed, Tron, 0, {network})]
  }

  lemma OldRecordsClash(seed: Seed, network: Network)
    ensures var p := Payload(Some(seed), map[]);
            && DeriveAt(Legacy(seed), p, {network}, Tron, ChosenIndex(Legacy(seed), {network}), 2)
               == Plain(Beside(seed, network))
            && Bind(Beside(seed, network), 1, network, Tron).Plain?
            && var bound := Bind(Beside(seed, network), 1, network, Tron).accounts;
            && !OnePerIndex(bound) && |bound| == 2 && bound[0].addresses == bound[1].addresses
            && network in bound[0].networks && network in bound[1].networks
  {
    var legacy, derived := Legacy(seed), Beside(seed, network);
    assert UsedIndexes(legacy, {network}) == {};
    assert ChosenIndex(legacy, {network}) == 0;
    assert FirstDerived(legacy, Tron, 0).None?;
    assert Find(derived, 1) == Some(0);
    var bound := Bind(derived, 1, network, Tron).accounts;
    assert Twins(bound[0], bound[1]);
  }

  lemma MigratedSpace(autoLock: int, id: Id, password: string, seed: Seed, params: Vault.Params, salt: nat, now: nat)
    returns (e: Event)
    requires Vault.Encrypt(password, Payload(Some(seed), map[]), id, params, salt).Some?
    ensures var s := Step(Init(autoLock), e);
            && e.MigrateLegacy? && IsOpen(s.home, id, now) && s.home.files[id].id == id
            && s.home.files[id].accounts == Legacy(seed) && s.home.sessions[id].payload == Payload(Some(seed), map[])
  {
    e := MigrateLegacy(id, password, seed, [0], [1], true, params, salt, now, true);
  }

  /** Two wallets of a space show one address on one network. */
  predicate ShowsTwins(h: Home, id: Id, network: Network) {
    && id in h.files && |h.files[id].accounts| == 2 && !OnePerIndex(h.files[id].accounts)
    && var a, b := h.files[id].accounts[0], h.files[id].accounts[1];
    network in a.networks && network in b.networks && a.addresses == b.addresses
  }

  lemma DerivedBeside(s: State, id: Id, seed: Seed, network: Network, now: nat) returns (e: Event)
    requires IsOpen(s.home, id, now) && s.home.files[id].id == id && s.home.files[id].accounts == Legacy(seed)
    requires s.home.sessions[id].payload == Payload(Some(seed), map[])
    ensures var t := Step(s, e);
            e.DeriveOn? && id in t.home.files
            && t.home.files[id] == s.home.files[id].(accounts := Beside(seed, network))
  {
    e := DeriveOn(id, {network}, Tron, 2, now, true);
    OldRecordsClash(seed, network);
  }

  lemma BoundAsTwin(s: State, id: Id, seed: Seed, network: Network) returns (e: Event)
    requires id in s.home.files && s.home.files[id].id == id && s.home.files[id].accounts == Beside(seed, network)
    ensures e.BindTo? && ShowsTwins(Step(s, e).home, id, network)
  {
    e := BindTo(id, 1, network, Tron, true);
    OldRecordsClash(seed, network);
    BindingWrites(s.home, id, Bind(Beside(seed, network), 1, network, Tron), network);
    BindingSteps(s, e);
  }

  lemma BindingSteps(s: State, e: Event)
    requires e.BindTo?
    ensures Step(s, e).home == EditStep(s.home, e)
  {
  }

  lemma BindingWrites(h: Home, id: Id, bound: Edit, network: Network)
    requires id in h.files && h.files[id].id == id && bound.Plain?
    requires bound == Bind(h.files[id].accounts, 1, network, Tron)
    ensures var after := EditStep(h, BindTo(id, 1, network, Tron, true));
            id in after.files && after.files[id].accounts == bound.accounts
  {
  }

  /**
   With an old record it fails: migrate one, derive on a network, bind the old wallet with
   the same index to it, and two wallets on that network show one address.
   */
  lemma OldRecordsCanClash(
    autoLock: int, id: Id, password: string, seed: Seed, network: Network, params: Vault.Params, salt: nat, now: nat)
    returns (trace: seq<State>, events: seq<Event>)
    requires Vault.Encrypt(password, Payload(Some(seed), map[]), id, params, salt).Some?
    ensures IsRun(autoLock, trace, events) && |events| == 3
    ensures events[0].MigrateLegacy? && events[1].DeriveOn? && events[2].BindTo?
    ensures ShowsTwins(trace[3].home, id, network)
  {
    var a := MigratedSpace(autoLock, id, password, seed, params, salt, now);
    var s1 := Step(Init(autoLock), a);
    var b := DerivedBeside(s1, id, seed, network, now);
    var c := BoundAsTwin(Step(s1, b), id, seed, network);
    trace, events := ThreeSteps(autoLock, a, b, c);
  }

  lemma ThreeSteps(autoLock: int, a: Event, b: Event, c: Event) returns (trace: seq<State>, events: seq<Event>)
    ensures IsRun(autoLock, trace, events) && events == [a, b, c]
    ensures trace[3] == Step(Step(Step(Init(autoLock), a), b), c)
  {
    var s0 := Init(autoLock);
    var s1 := Step(s0, a);
    var s2 := Step(s1, b);
    trace, events := [s0, s1, s2, Step(s2, c)], [a, b, c];
    assert Linked(trace, events, 0) && Linked(trace, events, 1) && Linked(trace, events, 2);
  }
}
