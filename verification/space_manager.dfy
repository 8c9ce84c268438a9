/**
 The manager as the wallet runs it (internal/space/manager.go): maps of files and
 sessions changed in place, payloads edited before they are sealed and put back when the
 write fails. Each method is proved to do what Spaces says of its operation.
 */
module SpaceManager {
  import opened Wrappers
  import opened Accounts
  import opened Spaces
  import Vault

  class Manager {
    var files: map<Id, File>
    var sessions: map<Id, Session>
    var disk: map<Id, File>
    var confirmSends: bool
    var sendGrantTTL: nat
    var autoLock: int

    function Home(): Home
      reads this
    {
      Spaces.Home(files, sessions, disk, confirmSends, sendGrantTTL, autoLock)
    }

    constructor (autoLock: int, ttl: nat)
      ensures Home() == Spaces.Home(map[], map[], map[], true, ttl, autoLock)
    {
      files, sessions, disk := map[], map[], map[];
      confirmSends, sendGrantTTL := true, ttl;
      this.autoLock := autoLock;
    }

    /** Sweeps the sessions one by one. */
    method ExpireLocked(now: nat)
      modifies this
      ensures Home() == Expire(old(Home()), now)
    {
      var left := sessions.Keys;
      ghost var all := sessions;
      while left != {}
        invariant Home() == old(Home()).(sessions := sessions)
        invariant left <= all.Keys
        invariant forall id :: id in sessions <==> id in all && (id in left || Alive(autoLock, all[id], now))
        invariant forall id :: id in sessions ==> sessions[id] == all[id]
        decreases left
      {
        var id :| id in left;
        if !Alive(autoLock, sessions[id], now) { sessions := map k | k in sessions && k != id :: sessions[k]; }
        left := left - {id};
      }
      assert sessions == Expire(old(Home()), now).sessions;
    }

    /** The file and session of an open space; being asked for counts as use. */
    method UnlockedLocked(id: Id, now: nat) returns (ok: bool)
      modifies this
      ensures Home() == Open(old(Home()), id, now)
      ensures ok <==> IsOpen(old(Home()), id, now)
      ensures ok ==> id in files && id in sessions && files[id] == old(files)[id]
                     && sessions[id] == old(sessions)[id].(lastUsed := now)
    {
      ExpireLocked(now);
      if id !in files || id !in sessions { return false; }
      sessions := sessions[id := sessions[id].(lastUsed := now)];
      return true;
    }

    /** The write either replaces the file on disk or changes nothing. */
    method SaveLocked(f: File, written: bool) returns (ok: bool)
      modifies this`disk
      ensures ok == written
      ensures disk == if written then old(disk)[f.id := f] else old(disk)
    {
      if written { disk := disk[f.id := f]; }
      ok := written;
    }

    method ResealAndSaveLocked(f: File, id: Id, written: bool) returns (ok: bool, sealed: File)
      requires id in sessions
      modifies this`disk
      ensures ok <==> written && Vault.Seal(sessions[id].key, sessions[id].payload, id).Some?
      ensures ok ==> sealed == f.(vault := Vault.Seal(sessions[id].key, sessions[id].payload, id).value)
      ensures disk == if ok then old(disk)[f.id := sealed] else old(disk)
    {
      sealed := f;
      var c := Vault.Seal(sessions[id].key, sessions[id].payload, id);
      if c.None? { return false, f; }
      sealed := f.(vault := c.value);
      ok := SaveLocked(sealed, written);
    }

    /** Saves an edit of the records only. */
    method SaveRecords(id: Id, accounts: seq<Account>, written: bool) returns (ok: bool)
      requires id in files
      modifies this
      ensures Home() == Commit(old(Home()), old(files)[id].(accounts := accounts), written)
    {
      var f := files[id].(accounts := accounts);
      ok := SaveLocked(f, written);
      if ok { files := files[f.id := f]; }
    }

    /** Changes the session's secrets, seals them, and puts them back if that fails. */
    method SaveSecrets(id: Id, accounts: seq<Account>, payload: Payload, written: bool) returns (ok: bool)
      requires id in files && id in sessions
      modifies this
      ensures Home() == Apply(old(Home()), id, Sealed(accounts, payload), written)
    {
      var before := sessions[id];
      sessions := sessions[id := before.(payload := payload)];
      var f;
      ok, f := ResealAndSaveLocked(files[id].(accounts := accounts), id, written);
      if !ok {
        sessions := sessions[id := before];
        assert sessions == old(sessions);
        return;
      }
      files := files[f.id := f];
    }

    /** A new space: sealed, written, and open for whoever made it. */
    method Create(
      id: Id, password: string, payload: Payload, params: Vault.Params, salt: nat, now: nat, written: bool)
      modifies this
      ensures Home() == if |old(files)| >= MAX_SPACES then old(Home())
                        else Spaces.Create(old(Home()), id, password, [], payload, params, salt, now, written)
    {
      if |files| >= MAX_SPACES { return; }
      var c := Vault.Encrypt(password, payload, id, params, salt);
      if c.None? { return; }
      var f := File(id, [], c.value);
      var ok := SaveLocked(f, written);
      if !ok { return; }
      files := files[id := f];
      sessions := sessions[id := Session(payload, Vault.SessionKey(c.value.box.key, c.value.kdf), now, None)];
    }

    method DeriveNetworks(id: Id, networks: set<Network>, family: Family, freshId: Id, now: nat, written: bool)
      modifies this
      ensures Home() == Derive(old(Home()), id, networks, family, freshId, now, written)
    {
      if networks == {} { return; }
      var isOpen := UnlockedLocked(id, now);
      if !isOpen { return; }
      var accounts, payload := files[id].accounts, sessions[id].payload;
      if payload.seed.None? { return; }
      var used := CollectUsed(accounts, networks);
      var next := NextIndex(used);
      LeastFreeIsOne(used, next, ChosenIndex(accounts, networks));
      var found := Search(accounts, WithIndex(family, next));
      var ok;
      if found.Some? {
        ok := SaveRecords(id, Bound(accounts, found.value, networks), written);
        return;
      }
      if |accounts| >= MAX_ACCOUNTS { return; }
      ok := SaveRecords(id, accounts + [NewDerived(freshId, payload.seed.value, family, next, networks)], written);
    }

    method ImportNetworks(
      id: Id, networks: set<Network>, secret: Secret, freshId: Id, freshRef: Id, now: nat, written: bool)
      modifies this
      ensures Home() == ImportKey(old(Home()), id, networks, secret, freshId, freshRef, now, written)
    {
      if networks == {} { return; }
      var isOpen := UnlockedLocked(id, now);
      if !isOpen { return; }
      var accounts, payload := files[id].accounts, sessions[id].payload;
      var found := Search(accounts, WithSecret(secret));
      var ok;
      if found.Some? {
        if networks <= accounts[found.value].networks { return; }
        ok := SaveRecords(id, Bound(accounts, found.value, networks), written);
        return;
      }
      if |accounts| >= MAX_ACCOUNTS { return; }
      ok := SaveSecrets(id, accounts + [NewImported(freshId, freshRef, secret, networks)],
                        payload.(keys := payload.keys[freshRef := secret]), written);
    }

    method DeleteAccount(id: Id, account: Id, password: string, allowed: bool, now: nat, written: bool)
      modifies this
      ensures Home() == Spaces.DeleteAccount(old(Home()), id, account, password, allowed, now, written)
    {
      if password == "" || id !in files || !allowed || Opening(password, files[id]).None? { return; }
      var isOpen := UnlockedLocked(id, now);
      if !isOpen { return; }
      var accounts, payload := files[id].accounts, sessions[id].payload;
      var found := Search(accounts, WithId(account));
      if found.None? { return; }
      var rest := Removed(accounts, found.value);
      var ok;
      match accounts[found.value].kind
      case Derived(_, _) => ok := SaveRecords(id, rest, written);
      case Imported(ref, _) =>
        ok := SaveSecrets(id, rest,
          payload.(keys := map k | k in payload.keys && k != ref :: payload.keys[k]), written);
    }

    method BindNetwork(id: Id, account: Id, network: Network, family: Family, written: bool)
      modifies this
      ensures id in old(files) ==>
                Home() == Rebind(old(Home()), id, Bind(old(files)[id].accounts, account, network, family), written)
      ensures id !in old(files) ==> Home() == old(Home())
    {
      if id !in files { return; }
      var accounts := files[id].accounts;
      var found := Search(accounts, WithId(account));
      if found.None? { return; }
      var chosen := Assigned(accounts[found.value], family);
      if chosen.None? { return; }
      var a := chosen.value;
      var ok := SaveRecords(id, accounts[found.value := a.(networks := a.networks + {network})], written);
    }

    method UnbindNetwork(id: Id, account: Id, network: Network, written: bool)
      modifies this
      ensures id in old(files) ==>
                Home() == Rebind(old(Home()), id, Unbind(old(files)[id].accounts, account, network), written)
      ensures id !in old(files) ==> Home() == old(Home())
    {
      if id !in files { return; }
      var accounts := files[id].accounts;
      var found := Search(accounts, WithId(account));
      if found.None? { return; }
      var a := accounts[found.value];
      if network !in a.networks || |a.networks| == 1 { return; }
      var ok := SaveRecords(id, accounts[found.value := a.(networks := a.networks - {network})], written);
    }

    method Unlock(id: Id, password: string, allowed: bool, now: nat)
      modifies this
      ensures Home() == Spaces.Unlock(old(Home()), id, password, allowed, now)
    {
      if id !in files || !allowed { return; }
      var opening := Opening(password, files[id]);
      if opening.None? { return; }
      var (payload, key) := opening.value;
      var ok := VerifyPayload(files[id].accounts, payload);
      if !ok { return; }
      sessions := map k | k in sessions && k != id :: sessions[k];
      sessions := sessions[id := Session(payload, key, now, None)];
      assert sessions == old(sessions)[id := Session(payload, key, now, None)];
    }

    method Lock(id: Id)
      modifies this
      ensures Home() == if id in old(files) then DropSession(old(Home()), id) else old(Home())
    {
      if id !in files { return; }
      sessions := map k | k in sessions && k != id :: sessions[k];
    }

    /** The new container is written before the session is replaced by a fresh one. */
    method ChangePassword(
      id: Id, current: string, next: string, allowed: bool, params: Vault.Params, salt: nat, now: nat, written: bool)
      modifies this
      ensures Home() == Spaces.ChangePassword(old(Home()), id, current, next, allowed, params, salt, now, written)
    {
      if id !in files || !allowed { return; }
      var opening := Opening(current, files[id]);
      if opening.None? { return; }
      var payload := opening.value.0;
      var ok := VerifyPayload(files[id].accounts, payload);
      if !ok { return; }
      var c := Vault.Encrypt(next, payload, id, params, salt);
      if c.None? { return; }
      var f := files[id].(vault := c.value);
      ok := SaveLocked(f, written);
      if !ok { return; }
      files := files[f.id := f];
      if id in sessions {
        sessions := map k | k in sessions && k != id :: sessions[k];
        sessions := sessions[id := Session(payload, Vault.SessionKey(c.value.box.key, c.value.kdf), now, None)];
        assert sessions == old(sessions)[id := sessions[id]];
      }
    }

    method ConfirmSend(id: Id, password: string, allowed: bool, cancelled: bool, now: nat)
      modifies this
      ensures Home() == Spaces.ConfirmSend(old(Home()), id, password, allowed, cancelled, now)
    {
      if password == "" || id !in files || !allowed || Opening(password, files[id]).None? { return; }
      if cancelled { return; }
      ExpireLocked(now);
      if id !in sessions { return; }
      sessions := sessions[id := sessions[id].(lastUsed := now, grant := Some(now + sendGrantTTL))];
    }

    /** Answers whether the space may spend, without counting as use. */
    method RequireSendConfirmation(id: Id, now: nat) returns (pass: bool)
      modifies this
      ensures Home() == Expire(old(Home()), now)
      ensures pass <==> SendAllowed(old(Home()), id, now)
    {
      ExpireLocked(now);
      if !confirmSends { return true; }
      if id !in sessions { return false; }
      var grant := sessions[id].grant;
      pass := grant.Some? && now < grant.value;
    }

    /** Lends the key of a bound account of an open space. */
    method WithKey(id: Id, account: Id, network: Network, family: Family, now: nat) returns (key: Option<Secret>)
      modifies this
      ensures Home() == Open(old(Home()), id, now)
      ensures key == Lent(old(Home()), id, account, network, family, now)
    {
      var isOpen := UnlockedLocked(id, now);
      if !isOpen { return None; }
      var accounts, payload := files[id].accounts, sessions[id].payload;
      var found := Search(accounts, WithId(account));
      if found.None? { return None; }
      if network !in accounts[found.value].networks { return None; }
      key := KeyFor(accounts[found.value], payload, family);
    }
  }

  lemma LeastFreeIsOne(used: set<nat>, a: nat, b: nat)
    requires LeastFree(used, a) && LeastFree(used, b)
    ensures a == b
  {
  }
}
