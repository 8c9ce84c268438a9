/**
 The encrypted container (internal/vault/vault.go), symbolically: a key is known by
 the password and the header it was derived with, and a box opens with its key and
 label only.
 */
module Vault {
  import opened Wrappers

  /** The header of the derivation, kept in the container. */
  datatype Kdf = Kdf(time: nat, memoryKiB: nat, parallelism: nat, salt: nat)

  const MIN_TIME: nat := 2
  const MAX_TIME: nat := 10
  const MIN_MEMORY: nat := 32 * 1024
  const MAX_MEMORY: nat := 256 * 1024
  const MAX_PARALLELISM: nat := 32

  predicate ValidKdf(k: Kdf) {
    && MIN_TIME <= k.time <= MAX_TIME
    && MIN_MEMORY <= k.memoryKiB <= MAX_MEMORY
    && 0 < k.parallelism <= MAX_PARALLELISM
  }

  /** Two derivations agree only on the same password and header. */
  datatype Key = KeyOf(password: string, kdf: Kdf)

  datatype Box<P> = Box(key: Key, payload: P, aad: nat)

  datatype Container<P> = Container(kdf: Kdf, box: Box<P>)

  datatype SessionKey = SessionKey(key: Key, kdf: Kdf)

  datatype Params = Params(time: nat, memoryKiB: nat, parallelism: nat)

  function Encrypt<P>(password: string, payload: P, aad: nat, params: Params, salt: nat): Option<Container<P>> {
    var kdf := Kdf(params.time, params.memoryKiB, params.parallelism, salt);
    if password == "" || !ValidKdf(kdf) then None else Some(Container(kdf, Box(KeyOf(password, kdf), payload, aad)))
  }

  function Unlock<P>(password: string, c: Container<P>, aad: nat): Option<(P, SessionKey)> {
    if !ValidKdf(c.kdf) || KeyOf(password, c.kdf) != c.box.key || aad != c.box.aad then None
    else Some((c.box.payload, SessionKey(KeyOf(password, c.kdf), c.kdf)))
  }

  /** The header the session was opened with is written back, if it is still fit. */
  function Seal<P>(session: SessionKey, payload: P, aad: nat): Option<Container<P>> {
    if !ValidKdf(session.kdf) then None else Some(Container(session.kdf, Box(session.key, payload, aad)))
  }

  /** Sealed for a password, under a header fit to use. */
  predicate SealedFor<P>(c: Container<P>, password: string, aad: nat) {
    ValidKdf(c.kdf) && c.box.key == KeyOf(password, c.kdf) && c.box.aad == aad
  }

  /** One password opens a container, with its payload and a key for it. */
  lemma OnePasswordOpens<P>(c: Container<P>, password: string, attempt: string, aad: nat)
    requires SealedFor(c, password, aad)
    ensures Unlock(attempt, c, aad).Some? <==> attempt == password
    ensures Unlock(password, c, aad) == Some((c.box.payload, SessionKey(c.box.key, c.kdf)))
  {
  }

  /** Any number of payloads sealed one after another with the session's key. */
  function Reseal<P>(session: SessionKey, c: Container<P>, payloads: seq<P>, aad: nat): Option<Container<P>>
    decreases |payloads|
  {
    if payloads == [] then Some(c)
    else match Seal(session, payloads[0], aad)
      case None => None
      case Some(next) => Reseal(session, next, payloads[1..], aad)
  }

  /**
   However often a vault is sealed again, the password it was opened with and no other
   opens it, its header is the one it had, and what it holds was sealed last.
   */
  lemma {:induction false} ResealKeepsThePassword<P>(
    c: Container<P>, password: string, aad: nat, payloads: seq<P>, attempt: string)
    requires SealedFor(c, password, aad) && payloads != []
    ensures var start := Unlock(password, c, aad).value;
            var sealed := Reseal(start.1, c, payloads, aad);
            && sealed.Some? && sealed.value.kdf == c.kdf
            && SealedFor(sealed.value, password, aad)
            && (Unlock(attempt, sealed.value, aad).Some? <==> attempt == password)
            && sealed.value.box.payload == payloads[|payloads| - 1]
    decreases |payloads|
  {
    var session := Unlock(password, c, aad).value.1;
    var next := Seal(session, payloads[0], aad).value;
    if |payloads| == 1 {
      assert payloads[1..] == [];
    } else {
      assert Unlock(password, next, aad).value.1 == session;
      ResealKeepsThePassword(next, password, aad, payloads[1..], attempt);
    }
  }
}
