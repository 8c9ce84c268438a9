/**
 Provider credentials in network settings (internal/config/home.go). The browser is never
 shown them, so a saved endpoint without headers keeps what is stored for its key, and an
 empty set deletes it. What a URL's key is, and whether it has one, is a parameter: the
 environment it is expanded in does not change.
 */
module ProviderHeaders {
  import opened Wrappers

  type Headers = map<string, string>

  datatype Endpoint = Endpoint(url: string, headers: Option<Headers>, hasHeaders: bool)

  type Keys = string -> Option<string>

  /** What is sent: nothing for no map and for an empty one. */
  function Credentials(e: Endpoint): Headers {
    match e.headers case None => map[] case Some(h) => h
  }

  predicate Carries(e: Endpoint) {
    e.headers.Some? && e.headers.value != map[]
  }

  /** Every URL has a key, and no two of them the same. */
  predicate Valid(endpoints: seq<Endpoint>, keys: Keys) {
    && (forall i :: 0 <= i < |endpoints| ==> keys(endpoints[i].url).Some?)
    && (forall i, j :: 0 <= i < j < |endpoints| ==> keys(endpoints[i].url) != keys(endpoints[j].url))
  }

  // ------------------------------------------------------------ carrying forward

  /** The stored headers by key; of two with one key, the later. */
  function Stored(endpoints: seq<Endpoint>, keys: Keys): map<string, Headers> {
    if endpoints == [] then map[]
    else
      var last := endpoints[|endpoints| - 1];
      var front := Stored(endpoints[..|endpoints| - 1], keys);
      match keys(last.url)
      case None => front
      case Some(k) => if Carries(last) then front[k := last.headers.value] else front
  }

  function Carried(stored: map<string, Headers>, e: Endpoint, keys: Keys): Endpoint {
    if e.headers.Some? then e
    else match keys(e.url)
      case None => e
      case Some(k) => if k in stored then e.(headers := Some(stored[k])) else e
  }

  function CarryForward(previous: seq<Endpoint>, next: seq<Endpoint>, keys: Keys): (r: seq<Endpoint>)
    ensures |r| == |next|
  {
    seq(|next|, i requires 0 <= i < |next| => Carried(Stored(previous, keys), next[i], keys))
  }

  /** The two loops of the program: collect what is stored, then fill in. */
  method CarryHeadersForward(previous: seq<Endpoint>, next: seq<Endpoint>, keys: Keys) returns (out: seq<Endpoint>)
    ensures out == CarryForward(previous, next, keys)
  {
    var stored: map<string, Headers> := map[];
    for i := 0 to |previous|
      invariant stored == Stored(previous[..i], keys)
    {
      assert previous[..i + 1][..i] == previous[..i];
      var e := previous[i];
      if e.headers.None? || e.headers.value == map[] { continue; }
      var key := keys(e.url);
      if key.None? { continue; }
      stored := stored[key.value := e.headers.value];
    }
    assert previous[..|previous|] == previous;
    out := [];
    for i := 0 to |next|
      invariant |out| == i
      invariant forall k :: 0 <= k < i ==> out[k] == Carried(stored, next[k], keys)
    {
      var e := next[i];
      if e.headers.None? {
        var key := keys(e.url);
        if key.Some? && key.value in stored { e := e.(headers := Some(stored[key.value])); }
      }
      out := out + [e];
    }
  }

  /** What the API shows: whether there are headers, and none of them. */
  function Redacted(endpoints: seq<Endpoint>): seq<Endpoint> {
    seq(|endpoints|, i requires 0 <= i < |endpoints| => Endpoint(endpoints[i].url, None, Carries(endpoints[i])))
  }

  /** The same endpoints, with credentials in the same places, whatever they are. */
  predicate DifferInCredentials(a: seq<Endpoint>, b: seq<Endpoint>) {
    && |a| == |b|
    && forall i :: 0 <= i < |a| ==>
         a[i].url == b[i].url && (Credentials(a[i]) == map[] <==> Credentials(b[i]) == map[])
  }

  /** What is shown tells nothing of credentials but that there are some. */
  lemma RedactionHides(a: seq<Endpoint>, b: seq<Endpoint>, i: nat)
    requires DifferInCredentials(a, b) && i < |a|
    ensures Redacted(a) == Redacted(b)
    ensures Redacted(a)[i].url == a[i].url && Redacted(a)[i].headers.None?
    ensures Redacted(a)[i].hasHeaders <==> Credentials(a[i]) != map[]
  {
    forall k | 0 <= k < |a| ensures Redacted(a)[k] == Redacted(b)[k] {
      assert Carries(a[k]) <==> Carries(b[k]);
    }
  }

  /** Exactly the carrying endpoints are stored, each under its own key. */
  lemma {:induction false} StoredIs(endpoints: seq<Endpoint>, keys: Keys, i: nat)
    requires Valid(endpoints, keys) && i < |endpoints|
    ensures var k := keys(endpoints[i].url).value;
            (k in Stored(endpoints, keys) <==> Carries(endpoints[i]))
            && (Carries(endpoints[i]) ==> Stored(endpoints, keys)[k] == endpoints[i].headers.value)
    decreases |endpoints|
  {
    var n := |endpoints| - 1;
    if i < n {
      StoredIs(endpoints[..n], keys, i);
      assert keys(endpoints[i].url) != keys(endpoints[n].url);
    } else {
      NotStored(endpoints[..n], keys, keys(endpoints[n].url).value);
    }
  }

  lemma {:induction false} NotStored(endpoints: seq<Endpoint>, keys: Keys, k: string)
    requires forall i :: 0 <= i < |endpoints| ==> keys(endpoints[i].url) != Some(k)
    ensures k !in Stored(endpoints, keys)
    decreases |endpoints|
  {
    if endpoints == [] {
    } else {
      NotStored(endpoints[..|endpoints| - 1], keys, k);
    }
  }

  /** An endpoint saved without headers keeps the credentials stored for its key. */
  lemma SilenceKeepsCredentials(previous: seq<Endpoint>, next: seq<Endpoint>, keys: Keys, i: nat, j: nat)
    requires Valid(previous, keys) && i < |next| && j < |previous|
    requires next[i].headers.None? && keys(next[i].url) == keys(previous[j].url)
    ensures Credentials(CarryForward(previous, next, keys)[i]) == Credentials(previous[j])
  {
    StoredIs(previous, keys, j);
  }

  /** One that is new has none, and one that comes with headers has exactly those. */
  lemma OthersGetNothing(previous: seq<Endpoint>, next: seq<Endpoint>, keys: Keys, i: nat)
    requires i < |next|
    ensures next[i].headers.Some? ==> CarryForward(previous, next, keys)[i] == next[i]
    ensures next[i].headers.None?
            && (forall j :: 0 <= j < |previous| ==> keys(previous[j].url) != keys(next[i].url)) ==>
              Credentials(CarryForward(previous, next, keys)[i]) == map[]
  {
    if keys(next[i].url).Some? && (forall j :: 0 <= j < |previous| ==> keys(previous[j].url) != keys(next[i].url)) {
      NotStored(previous, keys, keys(next[i].url).value);
    }
  }

  /** Saving back the redacted list, in any order, with some left out and others added. */
  lemma RedactedSaveKeepsCredentials(previous: seq<Endpoint>, next: seq<Endpoint>, keys: Keys, i: nat, j: nat)
    requires Valid(previous, keys) && i < |next| && j < |previous| && next[i] == Redacted(previous)[j]
    ensures var after := CarryForward(previous, next, keys)[i];
            after.url == previous[j].url && Credentials(after) == Credentials(previous[j])
  {
    SilenceKeepsCredentials(previous, next, keys, i, j);
  }

  // --------------------------------------------------------------- whole runs

  type Network = nat

  /** A save a user asked for; it takes effect if it passes the checks and is written. */
  datatype Save = Save(network: Network, endpoints: seq<Endpoint>, accepted: bool, written: bool)

  type Settings = map<Network, seq<Endpoint>>

  function Step(s: Settings, save: Save, keys: Keys): Settings {
    if !save.accepted || !save.written || !Valid(save.endpoints, keys) then s
    else if save.network in s then s[save.network := CarryForward(s[save.network], save.endpoints, keys)]
    else s[save.network := save.endpoints]
  }

  function Run(saves: seq<Save>, keys: Keys): Settings {
    if saves == [] then map[] else Step(Run(saves[..|saves| - 1], keys), saves[|saves| - 1], keys)
  }

  method Distinct(endpoints: seq<Endpoint>, keys: Keys) returns (ok: bool)
    ensures ok <==> Valid(endpoints, keys)
  {
    var seen: set<string> := {};
    for i := 0 to |endpoints|
      invariant Valid(endpoints[..i], keys)
      invariant forall k :: k in seen <==> exists j :: 0 <= j < i && keys(endpoints[j].url) == Some(k)
    {
      var key := keys(endpoints[i].url);
      if key.None? || key.value in seen { return false; }
      seen := seen + {key.value};
    }
    assert endpoints[..|endpoints|] == endpoints;
    return true;
  }

  class HomeManager {
    var networks: Settings
    const keys: Keys

    constructor (keys: Keys)
      ensures networks == map[] && this.keys == keys
    {
      networks := map[];
      this.keys := keys;
    }

    /** Validated, carried forward, written, and only then in force. */
    method SaveNetwork(network: Network, endpoints: seq<Endpoint>, accepted: bool, written: bool)
      modifies this
      ensures networks == Step(old(networks), Save(network, endpoints, accepted, written), keys)
    {
      if !accepted { return; }
      var ok := Distinct(endpoints, keys);
      if !ok { return; }
      var next := endpoints;
      if network in networks { next := CarryHeadersForward(networks[network], endpoints, keys); }
      if !written { return; }
      networks := networks[network := next];
    }
  }

  lemma {:induction false} SettingsStayValid(saves: seq<Save>, keys: Keys, network: Network)
    requires network in Run(saves, keys)
    ensures Valid(Run(saves, keys)[network], keys)
    decreases |saves|
  {
    var front, save := saves[..|saves| - 1], saves[|saves| - 1];
    if network in Run(front, keys) { SettingsStayValid(front, keys, network); }
  }

  lemma RunOneMore(saves: seq<Save>, save: Save, keys: Keys)
    ensures Run(saves + [save], keys) == Step(Run(saves, keys), save, keys)
  {
    assert (saves + [save])[..|saves|] == saves;
  }

  /**
   After any saves: saving back an endpoint as it is shown, redacted, wherever in a new valid
   list, keeps its credentials.
   */
  lemma SavedBackKeepsCredentials(saves: seq<Save>, keys: Keys, network: Network, next: seq<Endpoint>, i: nat, j: nat)
    requires network in Run(saves, keys) && Valid(next, keys)
    requires i < |next| && j < |Run(saves, keys)[network]| && next[i] == Redacted(Run(saves, keys)[network])[j]
    ensures var before := Run(saves, keys)[network][j];
            var after := Run(saves + [Save(network, next, true, true)], keys);
            && network in after && |after[network]| == |next|
            && after[network][i].url == before.url && Credentials(after[network][i]) == Credentials(before)
  {
    SettingsStayValid(saves, keys, network);
    RunOneMore(saves, Save(network, next, true, true), keys);
    RedactedSaveKeepsCredentials(Run(saves, keys)[network], next, keys, i, j);
  }

  /**
   A valid save that is accepted and written is in force: the endpoints given, in their order,
   with the headers given for them; any other save changes nothing, and no save another network.
   */
  lemma SavesTakeEffect(saves: seq<Save>, save: Save, keys: Keys)
    ensures var before, after := Run(saves, keys), Run(saves + [save], keys);
            && (!save.accepted || !save.written || !Valid(save.endpoints, keys) ==> after == before)
            && (save.accepted && save.written && Valid(save.endpoints, keys) ==>
                  && save.network in after && |after[save.network]| == |save.endpoints|
                  && forall i :: 0 <= i < |save.endpoints| ==> Given(after[save.network][i], save.endpoints[i]))
            && forall n :: n != save.network ==> (n in after <==> n in before) && (n in after ==> after[n] == before[n])
  {
    RunOneMore(saves, save, keys);
  }

  /** The endpoint as given; one given without headers may have stored ones. */
  predicate Given(after: Endpoint, e: Endpoint) {
    after.url == e.url && (e.headers.Some? ==> after.headers == e.headers)
  }

  /** The user gave these headers for an endpoint of this key and network. */
  predicate Gave(save: Save, keys: Keys, network: Network, key: Option<string>, headers: Headers) {
    save.network == network
    && exists i :: 0 <= i < |save.endpoints|
         && keys(save.endpoints[i].url) == key && save.endpoints[i].headers == Some(headers)
  }

  lemma {:induction false} StoredComesFrom(endpoints: seq<Endpoint>, keys: Keys, k: string) returns (j: nat)
    requires k in Stored(endpoints, keys)
    ensures j < |endpoints| && keys(endpoints[j].url) == Some(k)
              && endpoints[j].headers == Some(Stored(endpoints, keys)[k])
    decreases |endpoints|
  {
    var n := |endpoints| - 1;
    if keys(endpoints[n].url) == Some(k) && Carries(endpoints[n]) {
      j := n;
    } else {
      j := StoredComesFrom(endpoints[..n], keys, k);
    }
  }

  /**
   However often settings are saved, credentials stored for an endpoint were given by the
   user for an endpoint of the same key: none ever moves to another.
   */
  lemma {:induction false} CredentialsNeverMove(saves: seq<Save>, keys: Keys, network: Network, i: nat)
    returns (m: nat)
    requires network in Run(saves, keys) && i < |Run(saves, keys)[network]|
    requires Run(saves, keys)[network][i].headers.Some?
    ensures m < |saves|
    ensures Gave(saves[m], keys, network, keys(Run(saves, keys)[network][i].url),
              Credentials(Run(saves, keys)[network][i]))
    decreases |saves|
  {
    var front, save := saves[..|saves| - 1], saves[|saves| - 1];
    var before, after := Run(front, keys), Run(saves, keys);
    if network in before && after[network] == before[network] {
      m := CredentialsNeverMove(front, keys, network, i);
    } else if save.endpoints[i].headers.Some? {
      m := |saves| - 1;
    } else {
      var k := keys(save.endpoints[i].url).value;
      var j := StoredComesFrom(before[network], keys, k);
      m := CredentialsNeverMove(front, keys, network, j);
    }
  }
}
