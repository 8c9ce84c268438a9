/**
 What becomes of a wallet in a whole run of the space manager: it stays, with its key and
 the addresses it shows, until it is deleted under the space's password.
 */
module SpaceWallets {
  import opened Wrappers
  import opened Accounts
  import opened Spaces
  import Vault
  import SpaceLaws
  import SpaceRuns

  /** The same wallet and key, possibly on other networks; an old record may have taken a family. */
  ghost predicate StillIs(a: Account, b: Account) {
    && b.id == a.id
    && (forall f :: f in b.addresses ==> Shows(a, f, b.addresses[f]))
    && if OldRecord(a) then b.kind.Derived? && b.kind.index == a.kind.index
       else b.kind == a.kind && b.addresses == a.addresses
  }

  /** Every record is where it was, still the wallet it was. */
  ghost predicate Grown(before: seq<Account>, after: seq<Account>) {
    |before| <= |after| && forall k :: 0 <= k < |before| ==> StillIs(before[k], after[k])
  }

  ghost predicate Has(h: Home, id: Id, a: Account) {
    id in h.files && exists b :: b in h.files[id].accounts && StillIs(a, b)
  }

  /** A deletion of this wallet, by someone who knows the password. */
  ghost predicate Deletes(s: SpaceRuns.State, e: SpaceRuns.Event, id: Id, account: Id) {
    && e.DeleteOne? && e.id == id && e.account == account
    && SpaceLaws.RightPassword(s.home, s.passwords, id, e.password, e.allowed)
  }

  lemma DeriveGrows(
    accounts: seq<Account>, p: Payload, networks: set<Network>, family: Family, index: nat, freshId: Id)
    ensures var e := DeriveAt(accounts, p, networks, family, index, freshId);
            !e.Sealed? && (e.Plain? ==> Grown(accounts, e.accounts))
  {
  }

  lemma ImportGrows(
    accounts: seq<Account>, p: Payload, networks: set<Network>, secret: Secret, freshId: Id, freshRef: Id)
    ensures var e := Accounts.Import(accounts, p, networks, secret, freshId, freshRef);
            && (!e.Refused? ==> Grown(accounts, e.accounts))
            && (e.Sealed? ==> e.payload.seed == p.seed)
  {
  }

  lemma BindGrows(accounts: seq<Account>, account: Id, network: Network, family: Family)
    requires AllTidy(accounts)
    ensures var e := Bind(accounts, account, network, family); e.Plain? ==> Grown(accounts, e.accounts)
  {
    if Find(accounts, account).Some? { assert Tidy(accounts[Find(accounts, account).value]); }
  }

  lemma UnbindGrows(accounts: seq<Account>, account: Id, network: Network)
    ensures var e := Unbind(accounts, account, network); e.Plain? ==> Grown(accounts, e.accounts)
  {
  }

  /** Every space is still there, with its seed and with all its wallets. */
  ghost predicate AllGrown(h: Home, after: Home) {
    forall id :: id in h.files ==> SpaceGrown(h, after, id)
  }

  ghost predicate SpaceGrown(h: Home, after: Home, id: Id) {
    && id in h.files && id in after.files && Grown(h.files[id].accounts, after.files[id].accounts)
    && SpaceLaws.Secrets(after, id).seed == SpaceLaws.Secrets(h, id).seed
  }

  /** An edit of an open space only makes its list grow, if the edit does. */
  lemma AppliedGrows(h: Home, passwords: map<Id, string>, id: Id, edit: Edit, now: nat, written: bool)
    requires Inv(h, passwords) && IsOpen(h, id, now)
    requires !edit.Refused? ==> Grown(h.files[id].accounts, edit.accounts)
    requires edit.Sealed? ==> edit.payload.seed == h.sessions[id].payload.seed
    ensures id in Open(h, id, now).files && id in Open(h, id, now).sessions
    ensures AllGrown(h, Apply(Open(h, id, now), id, edit, written))
  {
    SpaceLaws.OpenOnlyUses(h, id, now);
    if written && !edit.Refused? {
      assert SessionOk(h.sessions[id], h.files[id]);
      SpaceLaws.AppliedIsEdited(h, passwords, id, edit, now);
    }
  }

  lemma RebindGrows(h: Home, id: Id, edit: Edit, written: bool)
    requires id in h.files && h.files[id].id == id && (edit.Plain? ==> Grown(h.files[id].accounts, edit.accounts))
    ensures AllGrown(h, Rebind(h, id, edit, written))
  {
  }

  lemma DeriveStepGrows(h: Home, passwords: map<Id, string>, e: SpaceRuns.Event)
    requires Inv(h, passwords) && e.DeriveOn?
    ensures AllGrown(h, SpaceRuns.EditStep(h, e))
  {
    if e.networks != {} && IsOpen(h, e.id, e.now) {
      var accounts, p := h.files[e.id].accounts, h.sessions[e.id].payload;
      var index := ChosenIndex(accounts, e.networks);
      DeriveGrows(accounts, p, e.networks, e.family, index, e.freshId);
      AppliedGrows(h, passwords, e.id, DeriveAt(accounts, p, e.networks, e.family, index, e.freshId), e.now, e.written);
    }
  }

  lemma ImportStepGrows(h: Home, passwords: map<Id, string>, e: SpaceRuns.Event)
    requires Inv(h, passwords) && e.ImportOn?
    ensures AllGrown(h, SpaceRuns.EditStep(h, e))
  {
    if e.networks != {} && IsOpen(h, e.id, e.now) {
      var accounts, p, secret := h.files[e.id].accounts, h.sessions[e.id].payload, Raw(e.curve, e.bytes);
      ImportGrows(accounts, p, e.networks, secret, e.freshId, e.freshRef);
      AppliedGrows(h, passwords, e.id,
        Accounts.Import(accounts, p, e.networks, secret, e.freshId, e.freshRef), e.now, e.written);
    }
  }

  lemma EditStepGrows(h: Home, passwords: map<Id, string>, e: SpaceRuns.Event)
    requires Inv(h, passwords) && SpaceRuns.IsEdit(e) && !e.DeleteOne?
    ensures AllGrown(h, SpaceRuns.EditStep(h, e))
  {
    match e
    case DeriveOn(_, _, _, _, _, _) => DeriveStepGrows(h, passwords, e);
    case ImportOn(_, _, _, _, _, _, _, _) => ImportStepGrows(h, passwords, e);
    case BindTo(id, account, network, family, written) =>
      if id in h.files {
        assert FileOk(h.files[id], id, passwords[id]);
        BindGrows(h.files[id].accounts, account, network, family);
        RebindGrows(h, id, Bind(h.files[id].accounts, account, network, family), written);
      }
    case UnbindFrom(id, account, network, written) =>
      if id in h.files {
        assert FileOk(h.files[id], id, passwords[id]);
        UnbindGrows(h.files[id].accounts, account, network);
        RebindGrows(h, id, Unbind(h.files[id].accounts, account, network), written);
      }
    case _ => assert false;
  }

  lemma SessionStepGrows(h: Home, e: SpaceRuns.Event)
    requires h.disk == h.files
    ensures SpaceRuns.SessionStep(h, e).files == h.files
  {
  }

  lemma SameIsGrown(h: Home, after: Home, id: Id)
    requires id in h.files && id in after.files && after.files[id].accounts == h.files[id].accounts
    requires SpaceLaws.Secrets(after, id) == SpaceLaws.Secrets(h, id)
    ensures SpaceGrown(h, after, id)
  {
  }

  lemma SameFilesAreGrown(h: Home, after: Home)
    requires after.files == h.files
    ensures AllGrown(h, after)
  {
    forall k | k in h.files ensures SpaceGrown(h, after, k) { SameIsGrown(h, after, k); }
  }

  lemma CreatingGrows(h: Home, id: Id, password: string, accounts: seq<Account>, secrets: Payload,
    params: Vault.Params, salt: nat, now: nat, written: bool)
    requires id !in h.files
    ensures AllGrown(h, Create(h, id, password, accounts, secrets, params, salt, now, written))
  {
    SpaceLaws.CreatingStoresTheSpace(h, id, password, accounts, secrets, params, salt, now, written);
    var after := Create(h, id, password, accounts, secrets, params, salt, now, written);
    forall k | k in h.files ensures SpaceGrown(h, after, k) { SameIsGrown(h, after, k); }
  }

  lemma NewPasswordGrows(h: Home, passwords: map<Id, string>, id: Id, current: string, next: string, allowed: bool,
    params: Vault.Params, salt: nat, now: nat, written: bool)
    requires Inv(h, passwords)
    ensures AllGrown(h, ChangePassword(h, id, current, next, allowed, params, salt, now, written))
  {
    SpaceLaws.ChangingThePassword(h, passwords, id, current, next, allowed, params, salt, now, written);
    var after := ChangePassword(h, id, current, next, allowed, params, salt, now, written);
    forall k | k in h.files ensures SpaceGrown(h, after, k) {
      if k == id && after != h { SpaceLaws.OpeningNeedsThePassword(h, passwords, id, current); }
      SameIsGrown(h, after, k);
    }
  }

  lemma PasswordStepGrows(s: SpaceRuns.State, e: SpaceRuns.Event)
    requires Inv(s.home, s.passwords) && SpaceRuns.SetsPassword(e) && SpaceRuns.Fresh(s.home, e)
    ensures AllGrown(s.home, SpaceRuns.PasswordStep(s, e).home)
  {
    SameFilesAreGrown(s.home, s.home);
    match e
    case CreateSpace(id, password, seed, acceptable, params, salt, now, written) =>
      CreatingGrows(s.home, id, password, [], Payload(seed, map[]), params, salt, now, written);
    case MigrateLegacy(id, password, seed, indexes, ids, acceptable, params, salt, now, written) =>
      CreatingGrows(s.home, id, password, SpaceRuns.OldAccounts(seed, indexes, ids), Payload(Some(seed), map[]), params,
        salt, now, written);
    case NewPassword(id, current, next, acceptable, allowed, params, salt, now, written) =>
      NewPasswordGrows(s.home, s.passwords, id, current, next, allowed, params, salt, now, written);
  }

  lemma StepGrows(s: SpaceRuns.State, e: SpaceRuns.Event)
    requires Inv(s.home, s.passwords) && !e.DeleteOne?
    ensures AllGrown(s.home, SpaceRuns.Step(s, e).home)
  {
    if SpaceRuns.Fresh(s.home, e) {
      if SpaceRuns.SetsPassword(e) {
        PasswordStepGrows(s, e);
      } else if SpaceRuns.IsEdit(e) {
        EditStepGrows(s.home, s.passwords, e);
      } else {
        SessionStepGrows(s.home, e);
        SameFilesAreGrown(s.home, SpaceRuns.Step(s, e).home);
      }
    } else {
      SameFilesAreGrown(s.home, s.home);
    }
  }

  lemma GrownHas(h: Home, after: Home, id: Id, a: Account)
    requires Has(h, id, a) && id in after.files && Grown(h.files[id].accounts, after.files[id].accounts)
    ensures Has(after, id, a)
  {
    var b :| b in h.files[id].accounts && StillIs(a, b);
    var k :| 0 <= k < |h.files[id].accounts| && h.files[id].accounts[k] == b;
    assert StillIs(b, after.files[id].accounts[k]);
    assert StillIs(a, after.files[id].accounts[k]);
  }

  lemma OthersAreNotLost(before: seq<Account>, after: seq<Account>, i: nat, b: Account)
    requires SpaceLaws.LostOne(before, after, i) && b in before && b.id != before[i].id
    ensures b in after
  {
    var k :| 0 <= k < |before| && before[k] == b;
    assert after[if k < i then k else k - 1] == b;
  }

  lemma SameRecordsHave(h: Home, after: Home, id: Id, a: Account)
    requires Has(h, id, a) && id in after.files
    requires forall b :: b in h.files[id].accounts && b.id == a.id ==> b in after.files[id].accounts
    ensures Has(after, id, a)
  {
    var b :| b in h.files[id].accounts && StillIs(a, b);
    assert b in after.files[id].accounts;
  }

  /** A deletion takes a wallet only if it is the one asked for and the password is right. */
  lemma DeletionSparesOthers(s: SpaceRuns.State, e: SpaceRuns.Event, id: Id, a: Account)
    requires Inv(s.home, s.passwords) && e.DeleteOne? && Has(s.home, id, a) && !Deletes(s, e, id, a.id)
    ensures Has(SpaceRuns.Step(s, e).home, id, a)
    ensures SpaceLaws.Secrets(SpaceRuns.Step(s, e).home, id).seed == SpaceLaws.Secrets(s.home, id).seed
  {
    var h, after := s.home, SpaceRuns.Step(s, e).home;
    assert after == DeleteAccount(h, e.id, e.account, e.password, e.allowed, e.now, e.written);
    if SpaceLaws.DeletionGoes(h, s.passwords, e.id, e.password, e.allowed, e.now, e.written)
       && !FreshId(h.files[e.id].accounts, e.account) {
      var accounts := h.files[e.id].accounts;
      var i :| 0 <= i < |accounts| && accounts[i].id == e.account;
      SpaceLaws.DeletionTakesThatWallet(h, s.passwords, e.id, e.account, e.password, e.allowed, e.now, e.written, i);
      if e.id == id {
        forall b | b in accounts && b.id == a.id ensures b in after.files[id].accounts {
          OthersAreNotLost(accounts, after.files[id].accounts, i, b);
        }
      } else {
        assert after.files[id] == h.files[id];
      }
    } else {
      SpaceLaws.OtherDeletionsTakeNothing(h, s.passwords, e.id, e.account, e.password, e.allowed, e.now, e.written);
      assert after.files == h.files;
    }
    SameRecordsHave(h, after, id, a);
  }

  lemma StepKeepsWallet(s: SpaceRuns.State, e: SpaceRuns.Event, id: Id, a: Account)
    requires Inv(s.home, s.passwords) && Has(s.home, id, a) && !Deletes(s, e, id, a.id)
    ensures Has(SpaceRuns.Step(s, e).home, id, a)
    ensures SpaceLaws.Secrets(SpaceRuns.Step(s, e).home, id).seed == SpaceLaws.Secrets(s.home, id).seed
  {
    if e.DeleteOne? {
      DeletionSparesOthers(s, e, id, a);
    } else {
      StepGrows(s, e);
      assert SpaceGrown(s.home, SpaceRuns.Step(s, e).home, id);
      GrownHas(s.home, SpaceRuns.Step(s, e).home, id, a);
    }
  }

  /**
   In every run a wallet stays until someone with the space's password deletes it: the
   same identifier, index or imported key, under the same seed, with no address changed.
   */
  lemma {:induction false} WalletsStayUntilDeleted(autoLock: int, trace: seq<SpaceRuns.State>,
    events: seq<SpaceRuns.Event>, m: nat, n: nat, id: Id, a: Account)
    requires SpaceRuns.IsRun(autoLock, trace, events) && m <= n <= |events|
    requires id in trace[m].home.files && a in trace[m].home.files[id].accounts
    requires forall k :: m <= k < n ==> !Deletes(trace[k], events[k], id, a.id)
    ensures Has(trace[n].home, id, a)
    ensures SpaceLaws.Secrets(trace[n].home, id).seed == SpaceLaws.Secrets(trace[m].home, id).seed
    decreases n
  {
    if n == m {
      assert StillIs(a, a);
    } else {
      WalletsStayUntilDeleted(autoLock, trace, events, m, n - 1, id, a);
      SpaceRuns.EverythingInOrder(autoLock, trace, events, n - 1);
      assert SpaceRuns.Linked(trace, events, n - 1);
      StepKeepsWallet(trace[n - 1], events[n - 1], id, a);
    }
  }
}
