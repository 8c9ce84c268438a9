/**
 Whole runs of the space manager: what is always true of files, sessions and keys, when
 money may move, and when an idle session still lends a key.
 */
module SpaceRuns {
  import opened Wrappers
  import opened Accounts
  import opened Spaces
  import Vault

  /**
   One call of the manager. `acceptable` is the verdict on a new password, `allowed` that
   of the guessing throttle, `written` that of the file system.
   */
  datatype Event =
    | CreateSpace(id: Id, password: string, seed: Option<Seed>, acceptable: bool,
        params: Vault.Params, salt: nat, now: nat, written: bool)
    | MigrateLegacy(id: Id, password: string, oldSeed: Seed, indexes: seq<nat>, ids: seq<Id>, acceptable: bool,
        params: Vault.Params, salt: nat, now: nat, written: bool)
    | UnlockSpace(id: Id, password: string, allowed: bool, now: nat)
    | LockSpace(id: Id)
    | NewPassword(id: Id, current: string, next: string, acceptable: bool, allowed: bool,
        params: Vault.Params, salt: nat, now: nat, written: bool)
    | DeriveOn(id: Id, networks: set<Network>, family: Family, freshId: Id, now: nat, written: bool)
    | ImportOn(id: Id, networks: set<Network>, curve: Curve, bytes: string, freshId: Id, freshRef: Id,
        now: nat, written: bool)
    | DeleteOne(id: Id, account: Id, password: string, allowed: bool, now: nat, written: bool)
    | BindTo(id: Id, account: Id, network: Network, family: Family, written: bool)
    | UnbindFrom(id: Id, account: Id, network: Network, written: bool)
    | Confirm(id: Id, password: string, allowed: bool, cancelled: bool, now: nat)
    | AskGate(id: Id, now: nat)
    | LendKey(id: Id, account: Id, network: Network, family: Family, now: nat)
    | Sweep(now: nat)
    | SetConfirmation(enabled: bool, ttl: nat)
    | SetAutoLock(duration: int, now: nat)
    | Restart

  const DEFAULT_TTL: nat := 300

  /** A record for each old wallet: both addresses, no family, no network. */
  function OldAccounts(seed: Seed, indexes: seq<nat>, ids: seq<Id>): seq<Account>
    requires |ids| == |indexes|
  {
    seq(|indexes|, i requires 0 <= i < |indexes| =>
      Account(ids[i], Derived(None, indexes[i]), {},
        map[Tron := DerivedAddress(seed, Tron, indexes[i]), Evm := DerivedAddress(seed, Evm, indexes[i])]))
  }

  predicate Distinct(ids: seq<Id>) {
    forall i, j :: 0 <= i < j < |ids| ==> ids[i] != ids[j]
  }

  /** Random identifiers are new; everything else about an event is free. */
  predicate Fresh(h: Home, e: Event) {
    match e
    case CreateSpace(id, _, _, _, _, _, _, _) => id !in h.files
    case MigrateLegacy(id, _, _, indexes, ids, _, _, _, _, _) => id !in h.files && |ids| == |indexes| && Distinct(ids)
    case DeriveOn(id, _, _, freshId, _, _) => id in h.files ==> FreshId(h.files[id].accounts, freshId)
    case ImportOn(id, _, _, _, freshId, freshRef, _, _) =>
      id in h.files ==> FreshId(h.files[id].accounts, freshId) && freshRef !in h.files[id].vault.box.payload.keys
    case _ => true
  }

  /** The manager, and the password each space was last given. */
  datatype State = State(home: Home, passwords: map<Id, string>)

  function Init(autoLock: int): State {
    State(Home(map[], map[], map[], true, DEFAULT_TTL, autoLock), map[])
  }

  function CreateIn(s: State, id: Id, password: string, accounts: seq<Account>, payload: Payload, acceptable: bool,
    params: Vault.Params, salt: nat, now: nat, written: bool): State
  {
    if !acceptable then s
    else
      var after := Create(s.home, id, password, accounts, payload, params, salt, now, written);
      State(after, if after == s.home then s.passwords else s.passwords[id := password])
  }

  function PasswordIn(s: State, id: Id, current: string, next: string, acceptable: bool, allowed: bool,
    params: Vault.Params, salt: nat, now: nat, written: bool): State
  {
    if !acceptable then s
    else State(ChangePassword(s.home, id, current, next, allowed, params, salt, now, written),
               if Changes(s.home, id, current, next, allowed, params, salt, written) then s.passwords[id := next]
               else s.passwords)
  }

  /** The operations that edit a space's records or secrets. */
  predicate IsEdit(e: Event) {
    e.DeriveOn? || e.ImportOn? || e.DeleteOne? || e.BindTo? || e.UnbindFrom?
  }

  function EditStep(h: Home, e: Event): Home
    requires IsEdit(e)
  {
    match e
    case DeriveOn(id, networks, family, freshId, now, written) => Derive(h, id, networks, family, freshId, now, written)
    case ImportOn(id, networks, curve, bytes, freshId, freshRef, now, written) =>
      ImportKey(h, id, networks, Raw(curve, bytes), freshId, freshRef, now, written)
    case DeleteOne(id, account, password, allowed, now, written) =>
      DeleteAccount(h, id, account, password, allowed, now, written)
    case BindTo(id, account, network, family, written) =>
      if id in h.files then Rebind(h, id, Bind(h.files[id].accounts, account, network, family), written) else h
    case UnbindFrom(id, account, network, written) =>
      if id in h.files then Rebind(h, id, Unbind(h.files[id].accounts, account, network), written) else h
  }

  /** The operations that at most end sessions. */
  function QuietStep(h: Home, e: Event): Home {
    match e
    case LockSpace(id) => if id in h.files then DropSession(h, id) else h
    case AskGate(_, now) => Expire(h, now)
    case Sweep(now) => Expire(h, now)
    case SetConfirmation(enabled, ttl) => h.(confirm := enabled, ttl := if ttl == 0 then DEFAULT_TTL else ttl)
    case SetAutoLock(duration, now) => if duration <= 0 then h else Expire(h.(autoLock := duration), now)
    case Restart => h.(files := h.disk, sessions := map[])
    case _ => h
  }

  function SessionStep(h: Home, e: Event): Home {
    match e
    case UnlockSpace(id, password, allowed, now) => Unlock(h, id, password, allowed, now)
    case Confirm(id, password, allowed, cancelled, now) => ConfirmSend(h, id, password, allowed, cancelled, now)
    case LendKey(id, _, _, _, now) => Open(h, id, now)
    case _ => QuietStep(h, e)
  }

  function HomeStep(h: Home, e: Event): Home {
    if IsEdit(e) then EditStep(h, e) else SessionStep(h, e)
  }

  /** The operations that seal a vault under a new password. */
  predicate SetsPassword(e: Event) {
    e.CreateSpace? || e.MigrateLegacy? || e.NewPassword?
  }

  function PasswordStep(s: State, e: Event): State
    requires SetsPassword(e) && Fresh(s.home, e)
  {
    match e
    case CreateSpace(id, password, seed, acceptable, params, salt, now, written) =>
      if |s.home.files| >= MAX_SPACES then s
      else CreateIn(s, id, password, [], Payload(seed, map[]), acceptable, params, salt, now, written)
    case MigrateLegacy(id, password, seed, indexes, ids, acceptable, params, salt, now, written) =>
      CreateIn(s, id, password, OldAccounts(seed, indexes, ids), Payload(Some(seed), map[]), acceptable, params, salt,
        now, written)
    case NewPassword(id, current, next, acceptable, allowed, params, salt, now, written) =>
      PasswordIn(s, id, current, next, acceptable, allowed, params, salt, now, written)
  }

  function Step(s: State, e: Event): State {
    if !Fresh(s.home, e) then s
    else if SetsPassword(e) then PasswordStep(s, e)
    else s.(home := HomeStep(s.home, e))
  }

  predicate Linked(trace: seq<State>, events: seq<Event>, m: nat)
    requires m < |events| && |trace| == |events| + 1
  {
    trace[m + 1] == Step(trace[m], events[m])
  }

  /** The states of a run: before any event, and after each. */
  predicate IsRun(autoLock: int, trace: seq<State>, events: seq<Event>) {
    && |trace| == |events| + 1 && trace[0] == Init(autoLock)
    && forall m :: 0 <= m < |events| ==> Linked(trace, events, m)
  }

  // ------------------------------------------------ everything stays in order

  lemma OldAccountsAreGood(seed: Seed, indexes: seq<nat>, ids: seq<Id>)
    requires |ids| == |indexes| && Distinct(ids)
    ensures Good(OldAccounts(seed, indexes, ids), Payload(Some(seed), map[]))
  {
  }

  lemma EditStepKeeps(h: Home, passwords: map<Id, string>, e: Event)
    requires Inv(h, passwords) && Fresh(h, e) && IsEdit(e)
    ensures Inv(EditStep(h, e), passwords)
  {
    match e
    case DeriveOn(id, networks, family, freshId, now, written) =>
      DeriveKeeps(h, passwords, id, networks, family, freshId, now, written);
    case ImportOn(id, networks, curve, bytes, freshId, freshRef, now, written) =>
      ImportKeyKeeps(h, passwords, id, networks, Raw(curve, bytes), freshId, freshRef, now, written);
    case DeleteOne(id, account, password, allowed, now, written) =>
      DeleteAccountKeeps(h, passwords, id, account, password, allowed, now, written);
    case BindTo(id, account, network, family, written) =>
      BindToKeeps(h, passwords, id, account, network, family, written);
    case UnbindFrom(id, account, network, written) => UnbindFromKeeps(h, passwords, id, account, network, written);
  }

  /** The same files and settings of the vault, and no session that was not there. */
  predicate Shrinks(before: Home, after: Home) {
    && after.files == before.files && after.disk == before.disk
    && forall k :: k in after.sessions ==> k in before.sessions && after.sessions[k] == before.sessions[k]
  }

  lemma QuietStepShrinks(h: Home, e: Event)
    requires h.disk == h.files
    ensures Shrinks(h, QuietStep(h, e))
  {
  }

  lemma QuietStepKeeps(h: Home, passwords: map<Id, string>, e: Event)
    requires Inv(h, passwords)
    ensures Inv(QuietStep(h, e), passwords)
  {
    QuietStepShrinks(h, e);
  }

  lemma SessionStepKeeps(h: Home, passwords: map<Id, string>, e: Event)
    requires Inv(h, passwords)
    ensures Inv(SessionStep(h, e), passwords)
  {
    match e
    case UnlockSpace(id, password, allowed, now) => UnlockKeeps(h, passwords, id, password, allowed, now);
    case Confirm(id, password, allowed, cancelled, now) =>
      ConfirmSendKeeps(h, passwords, id, password, allowed, cancelled, now);
    case LendKey(id, _, _, _, now) => OpenKeeps(h, passwords, id, now);
    case _ => QuietStepKeeps(h, passwords, e);
  }

  lemma BindToKeeps(
    h: Home, passwords: map<Id, string>, id: Id, account: Id, network: Network, family: Family, written: bool)
    requires Inv(h, passwords)
    ensures id in h.files ==>
              Inv(Rebind(h, id, Bind(h.files[id].accounts, account, network, family), written), passwords)
  {
    if id in h.files {
      assert FileOk(h.files[id], id, passwords[id]);
      BindIsGood(h.files[id].accounts, h.files[id].vault.box.payload, account, network, family);
      RebindKeeps(h, passwords, id, Bind(h.files[id].accounts, account, network, family), written);
    }
  }

  lemma UnbindFromKeeps(h: Home, passwords: map<Id, string>, id: Id, account: Id, network: Network, written: bool)
    requires Inv(h, passwords)
    ensures id in h.files ==> Inv(Rebind(h, id, Unbind(h.files[id].accounts, account, network), written), passwords)
  {
    if id in h.files {
      assert FileOk(h.files[id], id, passwords[id]);
      UnbindIsGood(h.files[id].accounts, h.files[id].vault.box.payload, account, network);
      RebindKeeps(h, passwords, id, Unbind(h.files[id].accounts, account, network), written);
    }
  }

  lemma PasswordStepKeeps(s: State, e: Event)
    requires Inv(s.home, s.passwords) && SetsPassword(e) && Fresh(s.home, e)
    ensures Inv(PasswordStep(s, e).home, PasswordStep(s, e).passwords)
  {
    match e
    case CreateSpace(id, password, seed, acceptable, params, salt, now, written) =>
      CreateKeeps(s.home, s.passwords, id, password, [], Payload(seed, map[]), params, salt, now, written);
    case MigrateLegacy(id, password, seed, indexes, ids, acceptable, params, salt, now, written) =>
      OldAccountsAreGood(seed, indexes, ids);
      CreateKeeps(s.home, s.passwords, id, password, OldAccounts(seed, indexes, ids),
        Payload(Some(seed), map[]), params,
        salt, now, written);
    case NewPassword(id, current, next, acceptable, allowed, params, salt, now, written) =>
      ChangePasswordKeeps(s.home, s.passwords, id, current, next, allowed, params, salt, now, written);
  }

  lemma StepKeeps(s: State, e: Event)
    requires Inv(s.home, s.passwords)
    ensures Inv(Step(s, e).home, Step(s, e).passwords)
  {
    if Fresh(s.home, e) {
      if SetsPassword(e) {
        PasswordStepKeeps(s, e);
      } else if IsEdit(e) {
        EditStepKeeps(s.home, s.passwords, e);
      } else {
        SessionStepKeeps(s.home, s.passwords, e);
      }
    }
  }

  /**
   In every run, with any writes failing: disk and memory agree, each file opens under
   the password last given to its space to secrets its records agree with, and every
   open session holds those secrets and that key.
   */
  lemma {:induction false} EverythingInOrder(autoLock: int, trace: seq<State>, events: seq<Event>, n: nat)
    requires IsRun(autoLock, trace, events) && n <= |events|
    ensures Inv(trace[n].home, trace[n].passwords)
  {
    if n == 0 {
    } else {
      EverythingInOrder(autoLock, trace, events, n - 1);
      assert Linked(trace, events, n - 1);
      StepKeeps(trace[n - 1], events[n - 1]);
    }
  }

  /** What that means for a stored space: its password opens it, and no other does. */
  lemma StoredSpaceOpens(autoLock: int, trace: seq<State>, events: seq<Event>, n: nat, id: Id, attempt: string)
    requires IsRun(autoLock, trace, events) && n <= |events| && id in trace[n].home.disk
    ensures var s := trace[n];
            var f := s.home.disk[id];
            && id in s.passwords && f.id == id && DistinctIds(f.accounts)
            && (Opening(attempt, f).Some? <==> attempt == s.passwords[id])
            && (Opening(attempt, f).Some? ==> Verified(f.accounts, Opening(attempt, f).value.0))
  {
    EverythingInOrder(autoLock, trace, events, n);
    assert FileOk(trace[n].home.files[id], id, trace[n].passwords[id]);
  }

  /** A key is lent only for a network of the wallet, and makes the address it shows. */
  lemma LentKeysAreShown(
    autoLock: int, trace: seq<State>, events: seq<Event>, n: nat, id: Id, account: Id, network: Network, family: Family,
    now: nat)
    requires IsRun(autoLock, trace, events) && n <= |events|
    requires Lent(trace[n].home, id, account, network, family, now).Some?
    ensures var h := trace[n].home;
            && id in h.files && Find(h.files[id].accounts, account).Some?
            && network in h.files[id].accounts[Find(h.files[id].accounts, account).value].networks
            && Shows(h.files[id].accounts[Find(h.files[id].accounts, account).value], family,
                     AddressOf(Lent(h, id, account, network, family, now).value, family))
  {
    EverythingInOrder(autoLock, trace, events, n);
    var s := trace[n];
    assert FileOk(s.home.files[id], id, s.passwords[id]) && SessionOk(s.home.sessions[id], s.home.files[id]);
    LentKeyIsTheOneShown(s.home.files[id].accounts, s.home.sessions[id].payload,
      Find(s.home.files[id].accounts, account).value, family);
  }

  // ---------------------------------------------------------- the spending gate

  /** The grant of a space's session, if it has one. */
  function GrantOf(h: Home, id: Id): Option<nat> {
    if id in h.sessions then h.sessions[id].grant else None
  }

  /** The vault of a space still opens with the password it did. */
  predicate SameLock(a: Home, b: Home, id: Id) {
    id in a.files && id in b.files
    && a.files[id].vault.kdf == b.files[id].vault.kdf && a.files[id].vault.box.key == b.files[id].vault.box.key
  }

  /** An event that gave this grant: the right password, on an open session. */
  predicate Grants(before: Home, e: Event, after: Home, id: Id, grant: nat) {
    && e.Confirm? && e.id == id && !e.cancelled && e.allowed
    && id in before.files && Opening(e.password, before.files[id]).Some?
    && id in before.sessions && Alive(before.autoLock, before.sessions[id], e.now)
    && grant == e.now + before.ttl
    && SameLock(before, after, id)
  }

  predicate Carried(before: Home, after: Home, id: Id, grant: nat) {
    GrantOf(before, id) == Some(grant) && SameLock(before, after, id)
  }

  lemma ApplyCarries(h: Home, id: Id, k: Id, edit: Edit, written: bool, grant: nat)
    requires id in h.files && id in h.sessions && SessionsOk(h) && k in h.sessions
    requires h.files[id].id == id
    requires GrantOf(Apply(h, id, edit, written), k) == Some(grant)
    ensures Carried(h, Apply(h, id, edit, written), k, grant)
  {
    assert SessionOk(h.sessions[id], h.files[id]) && k in h.files;
  }

  lemma OpenCarries(h: Home, id: Id, k: Id, now: nat, grant: nat)
    requires SessionsOk(h) && GrantOf(Open(h, id, now), k) == Some(grant)
    ensures Carried(h, Open(h, id, now), k, grant)
    ensures k in Open(h, id, now).sessions
  {
    if k == id { assert k in h.sessions; }
    assert k in h.files;
  }

  lemma EditCarries(h: Home, passwords: map<Id, string>, id: Id, k: Id, edit: Edit, now: nat, written: bool, grant: nat)
    requires Inv(h, passwords)
    requires IsOpen(h, id, now)
    requires var o := Open(h, id, now);
             && id in o.files && id in o.sessions
             && GrantOf(Apply(o, id, edit, written), k) == Some(grant)
    ensures Carried(h, Apply(Open(h, id, now), id, edit, written), k, grant)
  {
    OpenKeeps(h, passwords, id, now);
    var o := Open(h, id, now);
    assert FileOk(o.files[id], id, passwords[id]);
    ApplyCarries(o, id, k, edit, written, grant);
    OpenCarries(h, id, k, now, grant);
  }

  lemma NewVaultCarries(
    h: Home, id: Id, current: string, next: string, allowed: bool, params: Vault.Params, salt: nat, now: nat,
    written: bool, k: Id, grant: nat)
    requires SessionsOk(h) && (id in h.files ==> h.files[id].id == id)
    requires GrantOf(ChangePassword(h, id, current, next, allowed, params, salt, now, written), k) == Some(grant)
    ensures Carried(h, ChangePassword(h, id, current, next, allowed, params, salt, now, written), k, grant)
  {
    assert k in h.sessions && k in h.files;
  }

  lemma NewSpaceCarries(
    h: Home, id: Id, password: string, accounts: seq<Account>, payload: Payload, params: Vault.Params,
    salt: nat, now: nat,
    written: bool, k: Id, grant: nat)
    requires SessionsOk(h) && id !in h.files
    requires GrantOf(Create(h, id, password, accounts, payload, params, salt, now, written), k) == Some(grant)
    ensures Carried(h, Create(h, id, password, accounts, payload, params, salt, now, written), k, grant)
  {
    assert k in h.sessions && k in h.files;
  }

  lemma PasswordStepCarries(s: State, e: Event, k: Id, grant: nat)
    requires Inv(s.home, s.passwords) && SetsPassword(e) && Fresh(s.home, e)
    requires GrantOf(PasswordStep(s, e).home, k) == Some(grant)
    ensures Carried(s.home, PasswordStep(s, e).home, k, grant)
  {
    if PasswordStep(s, e).home == s.home {
      ShrinkCarries(s.home, s.home, k, grant);
    } else {
      match e
      case CreateSpace(id, password, seed, acceptable, params, salt, now, written) =>
        NewSpaceCarries(s.home, id, password, [], Payload(seed, map[]), params, salt, now, written, k, grant);
      case MigrateLegacy(id, password, seed, indexes, ids, acceptable, params, salt, now, written) =>
        NewSpaceCarries(s.home, id, password, OldAccounts(seed, indexes, ids), Payload(Some(seed), map[]),
          params, salt, now,
          written, k, grant);
      case NewPassword(id, current, next, acceptable, allowed, params, salt, now, written) =>
        assert id in s.home.files ==> FileOk(s.home.files[id], id, s.passwords[id]);
        NewVaultCarries(s.home, id, current, next, allowed, params, salt, now, written, k, grant);
    }
  }

  lemma BindCarries(h: Home, passwords: map<Id, string>, id: Id, k: Id, edit: Edit, written: bool, grant: nat)
    requires Inv(h, passwords) && id in h.files && GrantOf(Rebind(h, id, edit, written), k) == Some(grant)
    ensures Carried(h, Rebind(h, id, edit, written), k, grant)
  {
    assert k in h.files;
    assert FileOk(h.files[id], id, passwords[id]);
  }

  lemma UnlockCarries(h: Home, e: Event, k: Id, grant: nat)
    requires SessionsOk(h) && e.UnlockSpace? && GrantOf(SessionStep(h, e), k) == Some(grant)
    ensures Carried(h, SessionStep(h, e), k, grant)
  {
    assert k in h.sessions && k in h.files;
  }

  lemma LendCarries(h: Home, e: Event, k: Id, grant: nat)
    requires SessionsOk(h) && e.LendKey? && GrantOf(SessionStep(h, e), k) == Some(grant)
    ensures Carried(h, SessionStep(h, e), k, grant)
  {
    OpenCarries(h, e.id, k, e.now, grant);
  }

  lemma QuietCarries(h: Home, e: Event, k: Id, grant: nat)
    requires SessionsOk(h) && h.disk == h.files && !e.UnlockSpace? && !e.LendKey? && !e.Confirm?
    requires GrantOf(SessionStep(h, e), k) == Some(grant)
    ensures Carried(h, SessionStep(h, e), k, grant)
  {
    QuietStepShrinks(h, e);
    ShrinkCarries(h, QuietStep(h, e), k, grant);
  }

  lemma ConfirmCarries(h: Home, e: Event, k: Id, grant: nat)
    requires SessionsOk(h) && e.Confirm? && GrantOf(SessionStep(h, e), k) == Some(grant)
    ensures Carried(h, SessionStep(h, e), k, grant) || Grants(h, e, SessionStep(h, e), k, grant)
  {
    assert k in h.sessions && k in h.files;
  }

  lemma ShrinkCarries(h: Home, after: Home, k: Id, grant: nat)
    requires SessionsOk(h) && Shrinks(h, after) && GrantOf(after, k) == Some(grant)
    ensures Carried(h, after, k, grant)
  {
  }

  lemma EditStepCarries(h: Home, passwords: map<Id, string>, e: Event, k: Id, grant: nat)
    requires Inv(h, passwords) && IsEdit(e) && GrantOf(EditStep(h, e), k) == Some(grant)
    ensures Carried(h, EditStep(h, e), k, grant)
  {
    match e
    case DeriveOn(id, networks, family, freshId, now, written) => DeriveCarries(h, passwords, e, k, grant);
    case ImportOn(id, networks, curve, bytes, freshId, freshRef, now, written) =>
      ImportCarries(h, passwords, e, k, grant);
    case DeleteOne(id, account, password, allowed, now, written) => DeleteCarries(h, passwords, e, k, grant);
    case BindTo(id, account, network, family, written) =>
      if id in h.files {
        BindCarries(h, passwords, id, k, Bind(h.files[id].accounts, account, network, family), written, grant);
      } else { ShrinkCarries(h, h, k, grant); }
    case UnbindFrom(id, account, network, written) =>
      if id in h.files {
        BindCarries(h, passwords, id, k, Unbind(h.files[id].accounts, account, network), written, grant);
      } else { ShrinkCarries(h, h, k, grant); }
  }

  /** A grant is given by a confirmation, or was there and the vault opens as it did. */
  lemma SessionStepCarries(h: Home, passwords: map<Id, string>, e: Event, k: Id, grant: nat)
    requires Inv(h, passwords) && GrantOf(SessionStep(h, e), k) == Some(grant)
    ensures Carried(h, SessionStep(h, e), k, grant) || Grants(h, e, SessionStep(h, e), k, grant)
  {
    if e.UnlockSpace? {
      UnlockCarries(h, e, k, grant);
    } else if e.Confirm? {
      ConfirmCarries(h, e, k, grant);
    } else if e.LendKey? {
      LendCarries(h, e, k, grant);
    } else {
      QuietCarries(h, e, k, grant);
    }
  }

  lemma DeriveCarries(h: Home, passwords: map<Id, string>, e: Event, k: Id, grant: nat)
    requires Inv(h, passwords) && e.DeriveOn? && GrantOf(EditStep(h, e), k) == Some(grant)
    ensures Carried(h, EditStep(h, e), k, grant)
  {
    if e.networks == {} {
      ShrinkCarries(h, h, k, grant);
    } else if !IsOpen(h, e.id, e.now) {
      OpenCarries(h, e.id, k, e.now, grant);
    } else {
      var accounts := h.files[e.id].accounts;
      EditCarries(h, passwords, e.id, k,
        DeriveAt(accounts, h.sessions[e.id].payload, e.networks, e.family,
            ChosenIndex(accounts, e.networks), e.freshId),
        e.now, e.written, grant);
    }
  }

  lemma ImportCarries(h: Home, passwords: map<Id, string>, e: Event, k: Id, grant: nat)
    requires Inv(h, passwords) && e.ImportOn? && GrantOf(EditStep(h, e), k) == Some(grant)
    ensures Carried(h, EditStep(h, e), k, grant)
  {
    if e.networks == {} {
      ShrinkCarries(h, h, k, grant);
    } else if !IsOpen(h, e.id, e.now) {
      OpenCarries(h, e.id, k, e.now, grant);
    } else {
      EditCarries(h, passwords, e.id, k,
        Accounts.Import(h.files[e.id].accounts, h.sessions[e.id].payload, e.networks, Raw(e.curve, e.bytes), e.freshId,
            e.freshRef),
        e.now, e.written, grant);
    }
  }

  lemma DeleteCarries(h: Home, passwords: map<Id, string>, e: Event, k: Id, grant: nat)
    requires Inv(h, passwords) && e.DeleteOne? && GrantOf(EditStep(h, e), k) == Some(grant)
    ensures Carried(h, EditStep(h, e), k, grant)
  {
    if !Confirmed(h, e.id, e.password, e.allowed) {
      ShrinkCarries(h, h, k, grant);
    } else if !IsOpen(h, e.id, e.now) {
      OpenCarries(h, e.id, k, e.now, grant);
    } else {
      EditCarries(h, passwords, e.id, k, Delete(h.files[e.id].accounts, h.sessions[e.id].payload, e.account), e.now,
        e.written, grant);
    }
  }

  lemma StepCarries(s: State, e: Event, k: Id, grant: nat)
    requires Inv(s.home, s.passwords) && GrantOf(Step(s, e).home, k) == Some(grant)
    ensures Carried(s.home, Step(s, e).home, k, grant) || Grants(s.home, e, Step(s, e).home, k, grant)
  {
    if !Fresh(s.home, e) {
      ShrinkCarries(s.home, s.home, k, grant);
    } else if SetsPassword(e) {
      PasswordStepCarries(s, e, k, grant);
    } else if IsEdit(e) {
      EditStepCarries(s.home, s.passwords, e, k, grant);
    } else {
      SessionStepCarries(s.home, s.passwords, e, k, grant);
    }
  }

  /** Each step of a history carries a grant or gives it. */
  predicate GrantsExplained(homes: seq<Home>, events: seq<Event>, id: Id) {
    && |homes| == |events| + 1 && id !in homes[0].sessions
    && forall m :: 0 <= m < |events| && GrantOf(homes[m + 1], id).Some? ==>
         Carried(homes[m], homes[m + 1], id, GrantOf(homes[m + 1], id).value)
         || Grants(homes[m], events[m], homes[m + 1], id, GrantOf(homes[m + 1], id).value)
  }

  /** Event j gave the grant, and it was held under the same lock ever since. */
  predicate GivenAt(homes: seq<Home>, events: seq<Event>, j: nat, id: Id, grant: nat) {
    && j < |events| && |homes| == |events| + 1
    && Grants(homes[j], events[j], homes[j + 1], id, grant)
    && SameLock(homes[j], homes[|events|], id)
    && forall m :: j < m <= |events| ==> GrantOf(homes[m], id) == Some(grant)
  }

  lemma {:induction false} GrantWasGiven(homes: seq<Home>, events: seq<Event>, id: Id, grant: nat) returns (j: nat)
    requires GrantsExplained(homes, events, id) && GrantOf(homes[|events|], id) == Some(grant)
    ensures GivenAt(homes, events, j, id, grant)
    decreases |events|
  {
    var n := |events| - 1;
    if Grants(homes[n], events[n], homes[n + 1], id, grant) {
      j := n;
    } else {
      j := GrantWasGiven(homes[..n + 1], events[..n], id, grant);
    }
  }

  function Homes(trace: seq<State>): (r: seq<Home>)
    ensures |r| == |trace|
    ensures forall m :: 0 <= m < |trace| ==> r[m] == trace[m].home
  {
    seq(|trace|, m requires 0 <= m < |trace| => trace[m].home)
  }

  lemma StepExplainsGrant(autoLock: int, trace: seq<State>, events: seq<Event>, m: nat, id: Id)
    requires IsRun(autoLock, trace, events) && m < |events| && GrantOf(trace[m + 1].home, id).Some?
    ensures var grant := GrantOf(trace[m + 1].home, id).value;
            Carried(trace[m].home, trace[m + 1].home, id, grant)
            || Grants(trace[m].home, events[m], trace[m + 1].home, id, grant)
  {
    EverythingInOrder(autoLock, trace, events, m);
    assert Linked(trace, events, m);
    StepCarries(trace[m], events[m], id, GrantOf(trace[m + 1].home, id).value);
  }

  lemma RunsExplainGrants(autoLock: int, trace: seq<State>, events: seq<Event>, n: nat, id: Id)
    requires IsRun(autoLock, trace, events) && n <= |events|
    ensures GrantsExplained(Homes(trace)[..n + 1], events[..n], id)
  {
    var homes := Homes(trace);
    forall m | 0 <= m < n && GrantOf(homes[m + 1], id).Some?
      ensures Carried(homes[m], homes[m + 1], id, GrantOf(homes[m + 1], id).value)
              || Grants(homes[m], events[m], homes[m + 1], id, GrantOf(homes[m + 1], id).value)
    {
      StepExplainsGrant(autoLock, trace, events, m, id);
    }
  }

  /**
   With the step-up on, the gate lets money move only if the password that opens the
   vault now was entered less than the then current grant time ago, and the session
   has been open with that grant ever since.
   */
  lemma GateNeedsTheCurrentPassword(
    autoLock: int, trace: seq<State>, events: seq<Event>, n: nat, id: Id, now: nat)
    returns (j: nat)
    requires IsRun(autoLock, trace, events) && n <= |events|
    requires trace[n].home.confirm && SendAllowed(trace[n].home, id, now)
    ensures j < n && events[j].Confirm? && events[j].id == id && !events[j].cancelled
    ensures now < events[j].now + trace[j].home.ttl
    ensures id in trace[n].passwords && events[j].password == trace[n].passwords[id]
    ensures forall m :: j < m <= n ==>
              id in trace[m].home.sessions
              && trace[m].home.sessions[id].grant == Some(events[j].now + trace[j].home.ttl)
  {
    var homes := Homes(trace)[..n + 1];
    var grant := trace[n].home.sessions[id].grant.value;
    RunsExplainGrants(autoLock, trace, events, n, id);
    j := GrantWasGiven(homes, events[..n], id, grant);
    EverythingInOrder(autoLock, trace, events, n);
    PasswordOfLock(homes[j], homes[n], trace[n].passwords, events[j].password, id);
    forall m | j < m <= n ensures id in trace[m].home.sessions && trace[m].home.sessions[id].grant == Some(grant) {
      assert GrantOf(homes[m], id) == Some(grant);
    }
  }

  lemma PasswordOfLock(before: Home, after: Home, passwords: map<Id, string>, password: string, id: Id)
    requires Inv(after, passwords) && SameLock(before, after, id) && Opening(password, before.files[id]).Some?
    ensures id in passwords && password == passwords[id]
  {
    assert FileOk(after.files[id], id, passwords[id]);
  }

  /** What ends a session ends its grant: nothing passes right after these. */
  predicate EndsGrant(s: State, e: Event, id: Id) {
    match e
    case LockSpace(k) => k == id && id in s.home.files
    case UnlockSpace(k, password, allowed, now) => k == id && Unlock(s.home, k, password, allowed, now) != s.home
    case NewPassword(k, current, next, acceptable, allowed, params, salt, now, written) =>
      k == id && acceptable && Changes(s.home, k, current, next, allowed, params, salt, written)
    case Restart => true
    case _ => false
  }

  lemma EndedGrantsAreGone(s: State, e: Event, id: Id)
    requires Inv(s.home, s.passwords) && EndsGrant(s, e, id)
    ensures GrantOf(Step(s, e).home, id) == None
  {
    if e.NewPassword? { assert FileOk(s.home.files[id], id, s.passwords[id]); }
  }

  // -------------------------------------------------------------- idle sessions

  /** The calls that do use a space's session, or lengthen the auto-lock; refused ones do not. */
  predicate UsesSession(h: Home, e: Event, id: Id) {
    match e
    case CreateSpace(k, _, _, acceptable, _, _, _, written) => k == id && acceptable && written
    case MigrateLegacy(k, _, _, _, _, acceptable, _, _, _, written) => k == id && acceptable && written
    case UnlockSpace(k, password, allowed, _) =>
      k == id && allowed && id in h.files && Opening(password, h.files[id]).Some?
      && Verified(h.files[id].accounts, Opening(password, h.files[id]).value.0)
    case NewPassword(k, current, next, acceptable, allowed, params, salt, _, written) =>
      k == id && acceptable && id in h.sessions && Changes(h, id, current, next, allowed, params, salt, written)
    case DeriveOn(k, networks, _, _, now, _) => k == id && networks != {} && IsOpen(h, id, now)
    case ImportOn(k, networks, _, _, _, _, now, _) => k == id && networks != {} && IsOpen(h, id, now)
    case DeleteOne(k, _, password, allowed, now, _) =>
      k == id && Confirmed(h, id, password, allowed) && IsOpen(h, id, now)
    case Confirm(k, password, allowed, cancelled, now) =>
      k == id && Confirmed(h, id, password, allowed) && !cancelled && IsOpen(h, id, now)
    case LendKey(k, _, _, _, now) => k == id && IsOpen(h, id, now)
    case SetAutoLock(duration, _) => duration > h.autoLock
    case _ => false
  }

  predicate NotRevived(before: Home, after: Home, id: Id) {
    && (before.autoLock > 0 ==> 0 < after.autoLock <= before.autoLock)
    && (id in after.sessions ==> id in before.sessions && after.sessions[id].lastUsed == before.sessions[id].lastUsed)
  }

  lemma ApplyRevivesNone(h: Home, id: Id, k: Id, edit: Edit, now: nat, written: bool)
    requires k != id && IsOpen(h, id, now)
    requires id in Open(h, id, now).files && id in Open(h, id, now).sessions
    ensures NotRevived(h, Apply(Open(h, id, now), id, edit, written), k)
  {
  }

  lemma EditRevivesNone(h: Home, e: Event, id: Id)
    requires !UsesSession(h, e, id) && IsEdit(e)
    ensures NotRevived(h, EditStep(h, e), id)
  {
    match e
    case DeriveOn(k, networks, family, freshId, now, written) =>
      if networks != {} && IsOpen(h, k, now) {
        var accounts := h.files[k].accounts;
        ApplyRevivesNone(h, k, id,
          DeriveAt(accounts, h.sessions[k].payload, networks, family, ChosenIndex(accounts, networks), freshId),
          now, written);
      }
    case ImportOn(k, networks, curve, bytes, freshId, freshRef, now, written) =>
      if networks != {} && IsOpen(h, k, now) {
        ApplyRevivesNone(h, k, id,
          Accounts.Import(h.files[k].accounts, h.sessions[k].payload, networks, Raw(curve, bytes), freshId, freshRef),
          now, written);
      }
    case DeleteOne(k, account, password, allowed, now, written) =>
      if Confirmed(h, k, password, allowed) && IsOpen(h, k, now) {
        ApplyRevivesNone(h, k, id, Delete(h.files[k].accounts, h.sessions[k].payload, account), now, written);
      }
    case _ =>
  }

  lemma SessionStepRevivesNone(h: Home, e: Event, id: Id)
    requires !UsesSession(h, e, id)
    ensures NotRevived(h, SessionStep(h, e), id)
  {
  }

  lemma PasswordStepRevivesNone(s: State, e: Event, id: Id)
    requires !UsesSession(s.home, e, id) && SetsPassword(e) && Fresh(s.home, e)
    ensures NotRevived(s.home, PasswordStep(s, e).home, id)
  {
  }

  lemma StepRevivesNone(s: State, e: Event, id: Id)
    requires !UsesSession(s.home, e, id)
    ensures NotRevived(s.home, Step(s, e).home, id)
  {
    if Fresh(s.home, e) {
      if SetsPassword(e) {
        PasswordStepRevivesNone(s, e, id);
      } else if IsEdit(e) {
        EditRevivesNone(s.home, e, id);
      } else {
        SessionStepRevivesNone(s.home, e, id);
      }
    }
  }

  predicate NoRevivals(homes: seq<Home>, id: Id) {
    forall m :: 0 <= m < |homes| - 1 ==> NotRevived(homes[m], homes[m + 1], id)
  }

  lemma {:induction false} NeverRevived(homes: seq<Home>, id: Id)
    requires homes != [] && NoRevivals(homes, id)
    ensures NotRevived(homes[0], homes[|homes| - 1], id)
    decreases |homes|
  {
    if |homes| == 1 {
    } else {
      var n := |homes| - 1;
      NeverRevived(homes[..n], id);
      assert NotRevived(homes[n - 1], homes[n], id);
    }
  }

  lemma StepAtRevivesNone(autoLock: int, trace: seq<State>, events: seq<Event>, m: nat, id: Id)
    requires IsRun(autoLock, trace, events) && m < |events| && !UsesSession(trace[m].home, events[m], id)
    ensures NotRevived(trace[m].home, trace[m + 1].home, id)
  {
    assert Linked(trace, events, m);
    StepRevivesNone(trace[m], events[m], id);
  }

  /**
   Asking the gate, listing, binding, wrong passwords, other spaces' business: none of it
   keeps a session alive. Once it was last used the auto-lock time ago, no key is lent and no money moves.
   */
  lemma IdleSessionsAreUseless(
    autoLock: int, trace: seq<State>, events: seq<Event>, j: nat, n: nat, id: Id, account: Id, network: Network,
    family: Family, now: nat)
    requires IsRun(autoLock, trace, events) && j <= n <= |events| && trace[j].home.autoLock > 0
    requires forall m :: j <= m < n ==> !UsesSession(trace[m].home, events[m], id)
    requires id in trace[j].home.sessions ==> now >= trace[j].home.sessions[id].lastUsed + trace[j].home.autoLock
    ensures Lent(trace[n].home, id, account, network, family, now).None?
    ensures trace[n].home.confirm ==> !SendAllowed(trace[n].home, id, now)
  {
    var homes := Homes(trace[j..n + 1]);
    forall m | 0 <= m < |homes| - 1 ensures NotRevived(homes[m], homes[m + 1], id) {
      StepAtRevivesNone(autoLock, trace, events, j + m, id);
    }
    NeverRevived(homes, id);
    NotRevivedIsUseless(homes[0], homes[|homes| - 1], id, account, network, family, now);
  }

  lemma NotRevivedIsUseless(
    before: Home, after: Home, id: Id, account: Id, network: Network, family: Family, now: nat)
    requires NotRevived(before, after, id) && before.autoLock > 0
    requires id in before.sessions ==> now >= before.sessions[id].lastUsed + before.autoLock
    ensures Lent(after, id, account, network, family, now).None?
    ensures after.confirm ==> !SendAllowed(after, id, now)
  {
  }
}
