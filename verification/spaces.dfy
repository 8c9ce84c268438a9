/**
 The space manager (internal/space/manager.go) as atomic operations on what is in
 memory and what is on disk. A write either replaces the whole file or changes nothing.
 The vault's password is nowhere stored; the run remembers it beside the state.
 */
module Spaces {
  import opened Wrappers
  import opened Accounts
  import Vault

  datatype File = File(id: Id, accounts: seq<Account>, vault: Vault.Container<Payload>)

  datatype Session = Session(payload: Payload, key: Vault.SessionKey, lastUsed: nat, grant: Option<nat>)

  datatype Home = Home(
    files: map<Id, File>, sessions: map<Id, Session>, disk: map<Id, File>, confirm: bool, ttl: nat, autoLock: int)

  const MAX_SPACES: nat := 64

  function Opening(password: string, f: File): Option<(Payload, Vault.SessionKey)> {
    Vault.Unlock(password, f.vault, f.id)
  }

  // ------------------------------------------------------------ shared pieces

  predicate Alive(autoLock: int, s: Session, now: nat) {
    autoLock <= 0 || now - s.lastUsed < autoLock
  }

  /** Every session idle for the auto-lock time or longer is gone. */
  function Expire(h: Home, now: nat): Home {
    h.(sessions := map id | id in h.sessions && Alive(h.autoLock, h.sessions[id], now) :: h.sessions[id])
  }

  predicate IsOpen(h: Home, id: Id, now: nat) {
    id in h.files && id in h.sessions && Alive(h.autoLock, h.sessions[id], now)
  }

  function PutSession(h: Home, id: Id, s: Session): Home {
    h.(sessions := h.sessions[id := s])
  }

  function DropSession(h: Home, id: Id): Home {
    h.(sessions := map k | k in h.sessions && k != id :: h.sessions[k])
  }

  /** Reading a decrypted payload counts as use of the session. */
  function Open(h: Home, id: Id, now: nat): Home {
    if IsOpen(h, id, now) then PutSession(Expire(h, now), id, h.sessions[id].(lastUsed := now)) else Expire(h, now)
  }

  function Commit(h: Home, f: File, written: bool): Home {
    if written then h.(files := h.files[f.id := f], disk := h.disk[f.id := f]) else h
  }

  /** An edit of an open space. New secrets are sealed with the session's key first. */
  function Apply(h: Home, id: Id, edit: Edit, written: bool): Home
    requires id in h.files && id in h.sessions
  {
    match edit
    case Refused => h
    case Plain(accounts) => Commit(h, h.files[id].(accounts := accounts), written)
    case Sealed(accounts, payload) =>
      match Vault.Seal(h.sessions[id].key, payload, id)
      case None => h
      case Some(c) =>
        if written then
          Commit(PutSession(h, id, h.sessions[id].(payload := payload)), File(h.files[id].id, accounts, c), true)
        else h
  }

  /** The step-up every export, deletion and confirmation makes. */
  predicate Confirmed(h: Home, id: Id, password: string, allowed: bool) {
    password != "" && id in h.files && allowed && Opening(password, h.files[id]).Some?
  }

  // --------------------------------------------------------------- operations

  function Create(
    h: Home, id: Id, password: string, accounts: seq<Account>, payload: Payload, params: Vault.Params, salt: nat,
    now: nat, written: bool): Home
  {
    match Vault.Encrypt(password, payload, id, params, salt)
    case None => h
    case Some(c) =>
      if !written then h
      else PutSession(Commit(h, File(id, accounts, c), true), id,
                      Session(payload, Vault.SessionKey(c.box.key, c.kdf), now, None))
  }

  function Unlock(h: Home, id: Id, password: string, allowed: bool, now: nat): Home {
    if id !in h.files || !allowed then h
    else match Opening(password, h.files[id])
      case None => h
      case Some((payload, key)) =>
        if Verified(h.files[id].accounts, payload) then PutSession(h, id, Session(payload, key, now, None)) else h
  }

  /** A session that was open is replaced, so no grant outlives the old password. */
  function ChangePassword(
    h: Home, id: Id, current: string, next: string, allowed: bool, params: Vault.Params, salt: nat, now: nat,
    written: bool): Home
  {
    if id !in h.files || !allowed then h
    else match Opening(current, h.files[id])
      case None => h
      case Some((payload, _)) =>
        if !Verified(h.files[id].accounts, payload) then h
        else match Vault.Encrypt(next, payload, id, params, salt)
          case None => h
          case Some(c) =>
            if !written then h
            else
              var saved := Commit(h, h.files[id].(vault := c), true);
              if id in h.sessions then
                PutSession(saved, id, Session(payload, Vault.SessionKey(c.box.key, c.kdf), now, None))
              else saved
  }

  function Derive(
    h: Home, id: Id, networks: set<Network>, family: Family, freshId: Id, now: nat, written: bool): Home
  {
    if networks == {} then h
    else
      var o := Open(h, id, now);
      if !IsOpen(h, id, now) then o
      else
        var accounts := h.files[id].accounts;
        Apply(o, id,
          DeriveAt(accounts, h.sessions[id].payload, networks, family, ChosenIndex(accounts, networks), freshId),
          written)
  }

  function ImportKey(
    h: Home, id: Id, networks: set<Network>, secret: Secret, freshId: Id, freshRef: Id, now: nat, written: bool): Home
  {
    if networks == {} then h
    else
      var o := Open(h, id, now);
      if !IsOpen(h, id, now) then o
      else Apply(o, id,
                 Accounts.Import(h.files[id].accounts, h.sessions[id].payload, networks, secret, freshId, freshRef),
                 written)
  }

  function DeleteAccount(
    h: Home, id: Id, account: Id, password: string, allowed: bool, now: nat, written: bool): Home
  {
    if !Confirmed(h, id, password, allowed) then h
    else
      var o := Open(h, id, now);
      if !IsOpen(h, id, now) then o
      else Apply(o, id, Delete(h.files[id].accounts, h.sessions[id].payload, account), written)
  }

  /** Binding and unbinding change records only, and need no open session. */
  function Rebind(h: Home, id: Id, edit: Edit, written: bool): Home
    requires id in h.files
  {
    if edit.Plain? then Commit(h, h.files[id].(accounts := edit.accounts), written) else h
  }

  function ConfirmSend(h: Home, id: Id, password: string, allowed: bool, cancelled: bool, now: nat): Home {
    if !Confirmed(h, id, password, allowed) || cancelled then h
    else if !IsOpen(h, id, now) then Expire(h, now)
    else PutSession(Expire(h, now), id, h.sessions[id].(lastUsed := now, grant := Some(now + h.ttl)))
  }

  /** May the space spend now? Asking sweeps idle sessions and changes nothing else. */
  predicate SendAllowed(h: Home, id: Id, now: nat) {
    !h.confirm || (id in h.sessions && Alive(h.autoLock, h.sessions[id], now)
                   && h.sessions[id].grant.Some? && now < h.sessions[id].grant.value)
  }

  /** The key a signing callback is lent, if it is lent one. */
  function Lent(h: Home, id: Id, account: Id, network: Network, family: Family, now: nat): Option<Secret> {
    if !IsOpen(h, id, now) then None
    else match Find(h.files[id].accounts, account)
      case None => None
      case Some(i) =>
        if network !in h.files[id].accounts[i].networks then None
        else KeyFor(h.files[id].accounts[i], h.sessions[id].payload, family)
  }

  // ---------------------------------------------------------------- invariant

  predicate FileOk(f: File, id: Id, password: string) {
    f.id == id && Vault.SealedFor(f.vault, password, id) && Good(f.accounts, f.vault.box.payload)
  }

  predicate SessionOk(s: Session, f: File) {
    s.key == Vault.SessionKey(f.vault.box.key, f.vault.kdf) && s.payload == f.vault.box.payload
  }

  predicate FilesOk(h: Home, passwords: map<Id, string>) {
    forall id :: id in h.files ==> id in passwords && FileOk(h.files[id], id, passwords[id])
  }

  predicate SessionsOk(h: Home) {
    forall id :: id in h.sessions ==> id in h.files && SessionOk(h.sessions[id], h.files[id])
  }

  /**
   Disk and memory agree, every file opens under its password to a payload its records
   agree with, and every open session has that payload and that key.
   */
  predicate Inv(h: Home, passwords: map<Id, string>) {
    h.disk == h.files && FilesOk(h, passwords) && SessionsOk(h)
  }

  // ------------------------------------------------------------- preservation

  lemma ExpireKeeps(h: Home, passwords: map<Id, string>, now: nat)
    requires Inv(h, passwords)
    ensures Inv(Expire(h, now), passwords)
  {
  }

  lemma PutKeeps(h: Home, passwords: map<Id, string>, id: Id, s: Session)
    requires Inv(h, passwords) && id in h.files && SessionOk(s, h.files[id])
    ensures Inv(PutSession(h, id, s), passwords)
  {
  }

  lemma OpenKeeps(h: Home, passwords: map<Id, string>, id: Id, now: nat)
    requires Inv(h, passwords)
    ensures Inv(Open(h, id, now), passwords)
    ensures IsOpen(h, id, now) ==>
              var o := Open(h, id, now);
              && id in o.files && id in o.sessions && o.files[id] == h.files[id]
              && o.sessions[id].payload == h.sessions[id].payload
  {
    ExpireKeeps(h, passwords, now);
    if IsOpen(h, id, now) { PutKeeps(Expire(h, now), passwords, id, h.sessions[id].(lastUsed := now)); }
  }

  lemma RecordsKeep(h: Home, passwords: map<Id, string>, id: Id, accounts: seq<Account>, written: bool)
    requires Inv(h, passwords) && id in h.files && Good(accounts, h.files[id].vault.box.payload)
    ensures Inv(Commit(h, h.files[id].(accounts := accounts), written), passwords)
  {
    assert FileOk(h.files[id], id, passwords[id]);
  }

  /** A whole file and its session change together. */
  lemma ReplaceKeeps(
    h: Home, passwords: map<Id, string>, id: Id, password: string, f: File, session: Option<Session>)
    requires Inv(h, passwords) && FileOk(f, id, password)
    requires session.Some? ==> SessionOk(session.value, f)
    requires session.None? ==> id !in h.sessions
    ensures var saved := Commit(h, f, true);
            Inv(if session.Some? then PutSession(saved, id, session.value) else saved, passwords[id := password])
  {
    var saved := Commit(h, f, true);
    var after := if session.Some? then PutSession(saved, id, session.value) else saved;
    forall k | k in after.sessions ensures k in after.files && SessionOk(after.sessions[k], after.files[k]) {
      if k != id { assert SessionOk(h.sessions[k], h.files[k]); }
    }
  }

  /** Any good edit, written or not, leaves disk, memory and session in agreement. */
  lemma ApplyKeeps(h: Home, passwords: map<Id, string>, id: Id, edit: Edit, written: bool)
    requires Inv(h, passwords) && id in h.files && id in h.sessions
    requires EditOk(edit, h.files[id].vault.box.payload)
    ensures Inv(Apply(h, id, edit, written), passwords)
  {
    match edit
    case Refused =>
    case Plain(accounts) => RecordsKeep(h, passwords, id, accounts, written);
    case Sealed(accounts, payload) =>
      assert FileOk(h.files[id], id, passwords[id]) && SessionOk(h.sessions[id], h.files[id]);
      match Vault.Seal(h.sessions[id].key, payload, id) {
        case None =>
        case Some(c) =>
          if written {
            var f, s := File(id, accounts, c), h.sessions[id].(payload := payload);
            ReplaceKeeps(h, passwords, id, passwords[id], f, Some(s));
            assert passwords[id := passwords[id]] == passwords;
            assert Apply(h, id, edit, written) == PutSession(Commit(h, f, true), id, s);
          }
      }
  }

  lemma CreateKeeps(
    h: Home, passwords: map<Id, string>, id: Id, password: string, accounts: seq<Account>, payload: Payload,
    params: Vault.Params, salt: nat, now: nat, written: bool)
    requires Inv(h, passwords) && Good(accounts, payload)
    ensures var after := Create(h, id, password, accounts, payload, params, salt, now, written);
            Inv(after, if after == h then passwords else passwords[id := password])
  {
    match Vault.Encrypt(password, payload, id, params, salt)
    case None =>
    case Some(c) =>
      if written {
        var s := Session(payload, Vault.SessionKey(c.box.key, c.kdf), now, None);
        ReplaceKeeps(h, passwords, id, password, File(id, accounts, c), Some(s));
        var after := Create(h, id, password, accounts, payload, params, salt, now, written);
        if after == h { assert h.files[id] == File(id, accounts, c) && FileOk(h.files[id], id, passwords[id]); }
      }
  }

  lemma UnlockKeeps(h: Home, passwords: map<Id, string>, id: Id, password: string, allowed: bool, now: nat)
    requires Inv(h, passwords)
    ensures Inv(Unlock(h, id, password, allowed, now), passwords)
  {
    if id in h.files && allowed {
      assert FileOk(h.files[id], id, passwords[id]);
      match Opening(password, h.files[id])
      case None =>
      case Some((payload, key)) => PutKeeps(h, passwords, id, Session(payload, key, now, None));
    }
  }

  /** Which password a space has after a change of it. */
  predicate Changes(
    h: Home, id: Id, current: string, next: string, allowed: bool, params: Vault.Params, salt: nat, written: bool)
  {
    && id in h.files && allowed && written && Opening(current, h.files[id]).Some?
    && Verified(h.files[id].accounts, Opening(current, h.files[id]).value.0)
    && Vault.Encrypt(next, Opening(current, h.files[id]).value.0, id, params, salt).Some?
  }

  lemma ChangePasswordKeeps(
    h: Home, passwords: map<Id, string>, id: Id, current: string, next: string, allowed: bool, params: Vault.Params,
    salt: nat, now: nat, written: bool)
    requires Inv(h, passwords)
    ensures Inv(ChangePassword(h, id, current, next, allowed, params, salt, now, written),
                if Changes(h, id, current, next, allowed, params, salt, written) then passwords[id := next]
                else passwords)
  {
    if Changes(h, id, current, next, allowed, params, salt, written) {
      var f := h.files[id];
      assert FileOk(f, id, passwords[id]);
      var payload := Opening(current, f).value.0;
      var c := Vault.Encrypt(next, payload, id, params, salt).value;
      var s := Session(payload, Vault.SessionKey(c.box.key, c.kdf), now, None);
      ReplaceKeeps(h, passwords, id, next, f.(vault := c), if id in h.sessions then Some(s) else None);
    }
  }

  lemma DeriveKeeps(
    h: Home, passwords: map<Id, string>, id: Id, networks: set<Network>, family: Family, freshId: Id, now: nat,
    written: bool)
    requires Inv(h, passwords) && (id in h.files ==> FreshId(h.files[id].accounts, freshId))
    ensures Inv(Derive(h, id, networks, family, freshId, now, written), passwords)
  {
    OpenKeeps(h, passwords, id, now);
    if networks != {} && IsOpen(h, id, now) {
      var f := h.files[id];
      assert FileOk(f, id, passwords[id]) && SessionOk(h.sessions[id], f);
      var index := ChosenIndex(f.accounts, networks);
      DeriveIsGood(f.accounts, h.sessions[id].payload, networks, family, index, freshId);
      ApplyKeeps(Open(h, id, now), passwords, id,
        DeriveAt(f.accounts, h.sessions[id].payload, networks, family, index, freshId), written);
    }
  }

  lemma ImportKeyKeeps(
    h: Home, passwords: map<Id, string>, id: Id, networks: set<Network>, secret: Secret, freshId: Id, freshRef: Id,
    now: nat, written: bool)
    requires Inv(h, passwords) && secret.Raw?
    requires id in h.files ==> FreshId(h.files[id].accounts, freshId) && freshRef !in h.files[id].vault.box.payload.keys
    ensures Inv(ImportKey(h, id, networks, secret, freshId, freshRef, now, written), passwords)
  {
    OpenKeeps(h, passwords, id, now);
    if networks != {} && IsOpen(h, id, now) {
      var f := h.files[id];
      assert FileOk(f, id, passwords[id]) && SessionOk(h.sessions[id], f);
      ImportIsGood(f.accounts, h.sessions[id].payload, networks, secret, freshId, freshRef);
      ApplyKeeps(Open(h, id, now), passwords, id,
        Accounts.Import(f.accounts, h.sessions[id].payload, networks, secret, freshId, freshRef), written);
    }
  }

  lemma DeleteAccountKeeps(
    h: Home, passwords: map<Id, string>, id: Id, account: Id, password: string, allowed: bool, now: nat, written: bool)
    requires Inv(h, passwords)
    ensures Inv(DeleteAccount(h, id, account, password, allowed, now, written), passwords)
  {
    OpenKeeps(h, passwords, id, now);
    if Confirmed(h, id, password, allowed) && IsOpen(h, id, now) {
      var f := h.files[id];
      assert FileOk(f, id, passwords[id]) && SessionOk(h.sessions[id], f);
      DeleteIsGood(f.accounts, h.sessions[id].payload, account);
      ApplyKeeps(Open(h, id, now), passwords, id, Delete(f.accounts, h.sessions[id].payload, account), written);
    }
  }

  lemma RebindKeeps(h: Home, passwords: map<Id, string>, id: Id, edit: Edit, written: bool)
    requires Inv(h, passwords) && id in h.files && EditOk(edit, h.files[id].vault.box.payload)
    ensures Inv(Rebind(h, id, edit, written), passwords)
  {
    if edit.Plain? { RecordsKeep(h, passwords, id, edit.accounts, written); }
  }

  lemma ConfirmSendKeeps(
    h: Home, passwords: map<Id, string>, id: Id, password: string, allowed: bool, cancelled: bool, now: nat)
    requires Inv(h, passwords)
    ensures Inv(ConfirmSend(h, id, password, allowed, cancelled, now), passwords)
  {
    ExpireKeeps(h, passwords, now);
    if Confirmed(h, id, password, allowed) && !cancelled && IsOpen(h, id, now) {
      PutKeeps(Expire(h, now), passwords, id, h.sessions[id].(lastUsed := now, grant := Some(now + h.ttl)));
    }
  }
}
