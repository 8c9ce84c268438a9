/**
 One request to send, as the handler runs it (internal/httpapi/platform.go): variables
 captured by the callbacks it passes down, and a store it updates step by step. Each
 method is proved to be the steps of the protocol in SignOnce, on whatever the other
 requests have made of the world in between.
 */
module SendRequest {
  import opened Wrappers
  import opened OperationStore
  import opened SignOnce
  import opened SignOnceKeys
  import opened SignOnceRecord
  import opened SignOnceReplays

  /** How sending came back: classified on the error, not on whether an id is known. */
  datatype Outcome = Accepted(txHash: string) | Unknown(txHash: string) | Denied(txHash: string)

  function StatusOf(o: Outcome): Status {
    match o case Accepted(_) => Pending case Unknown(_) => BroadcastUnknown case Denied(_) => Failed
  }

  function AnswerOf(o: Outcome): Answer {
    match o case Accepted(_) => Taken case Unknown(_) => AnswerLost case Denied(_) => Answer.Rejected
  }

  /** What a node says of a broadcast: it took a transaction, turned it down, or nothing came back. */
  datatype Heard = TookIt(txHash: string) | TurnedDown(duplicate: bool) | Nothing

  /**
   A Tron node that turns a transaction down as a duplicate holds it already, so that is a
   success; a Solana node that names another signature has said nothing of this one.
   */
  function Classify(family: Family, txHash: string, heard: Heard): Outcome {
    match heard
    case TookIt(named) => if family == Solana && named != txHash then Unknown(txHash) else Accepted(txHash)
    case TurnedDown(duplicate) => if family == Tron && duplicate then Accepted(txHash) else Denied(txHash)
    case Nothing => Unknown(txHash)
  }

  /**
   What a node may say, given whether it took the bytes: silence and another signature say
   nothing, a Tron duplicate and a transaction's own id mean it has them, and any other
   rejection means it has not.
   */
  predicate Honest(family: Family, txHash: string, took: bool, heard: Heard) {
    match heard
    case TookIt(named) => took || (family == Solana && named != txHash)
    case TurnedDown(duplicate) => took == (family == Tron && duplicate)
    case Nothing => true
  }

  /** The status that is true of what the node did, and claims no more than what was heard says. */
  predicate TrueStatus(family: Family, txHash: string, took: bool, heard: Heard, status: Status) {
    && (Honest(family, txHash, !took, heard) ==> status == BroadcastUnknown)
    && (!Honest(family, txHash, !took, heard) ==> status == if took then Pending else Failed)
  }

  /** What the caller is told. */
  datatype Reply = Proceed | Replayed(answer: ReplayAnswer) | Refusal(error: BeginError)

  function ReplyTo(result: BeginResult): Reply {
    match result
    case Created(_) => Proceed
    case Repeated(existing) => Replayed(AnswerReplay(existing.status))
    case Refused(e) => Refusal(e)
  }

  class Request {
    const store: Store
    const id: nat
    const family: Family
    const rawKey: string
    var lastValidBlockHeight: nat
    ghost var world: State

    /** The store is what the world says is on disk. */
    ghost predicate Valid()
      reads this, store
    {
      store.Valid() && world.records == store.operations
    }

    /** This request has come as far as the phase. */
    ghost predicate ComeTo(phase: Phase)
      reads this
    {
      id in world.handlers && world.handlers[id].phase == phase
      && world.handlers[id].family == family && world.handlers[id].rawKey == rawKey
    }

    constructor (store: Store, id: nat, family: Family, rawKey: string, ghost world: State)
      requires store.Valid() && world.records == store.operations
      ensures Valid() && this.store == store && this.id == id && this.family == family && this.rawKey == rawKey
      ensures this.world == world
    {
      this.store := store;
      this.id := id;
      this.family := family;
      this.rawKey := rawKey;
      this.lastValidBlockHeight := 0;
      this.world := world;
    }

    /** Reserves the key, or answers a repeat from the record it finds. */
    method Reserve(requestHash: string, networkID: string, now: int, write: Write)
      returns (reply: Reply, ghost kept: Records)
      requires Valid() && id !in world.handlers
      modifies this, store
      ensures Valid()
      ensures world == Step(old(world), Event.Begin(id, family, rawKey, requestHash, networkID, now, kept, write))
      ensures reply.Replayed? ==> (
                && NormalizeKey(rawKey) in old(world).records && world == old(world)
                && reply.answer == AnswerReplay(old(world).records[NormalizeKey(rawKey)].status))
      ensures var records, key := old(world).records, NormalizeKey(rawKey);
              AcceptableKey(key) && key in records ==>
                if records[key].requestHash == requestHash then reply.Replayed? else reply == Refusal(Conflict)
      ensures reply.Replayed? ==> (
                && (reply.answer == RetryWithNewKey <==> old(world).records[NormalizeKey(rawKey)].status == Failed)
                && (reply.answer == StillInProgress <==> old(world).records[NormalizeKey(rawKey)].status == Building))
      ensures reply == ReplyTo(BeginOutcome(old(world).records, rawKey, requestHash, networkID, now, kept, write).0)
      ensures CanMakeRoom(old(world).records, now) ==> Pruned(old(world).records, now, kept)
    {
      var result;
      result, kept := store.Begin(rawKey, requestHash, networkID, now, write);
      ghost var e := Event.Begin(id, family, rawKey, requestHash, networkID, now, kept, write);
      BeginsAsTheStore(world, e);
      world := Step(world, e);
      reply := ReplyTo(result);
    }

    /** The Tron signer: the digest is the id, on disk before anything is signed. */
    method SignDigest(digest: string, now: int, write: Write) returns (signed: bool, ghost steps: seq<Event>)
      requires Valid() && family == Tron && digest != "" && ComeTo(Reserved)
      modifies this, store
      ensures Valid() && world == After(old(world), steps)
      ensures steps == [Record(id, digest, now, write)] + if signed then [Sign(id, digest)] else []
      ensures ComeTo(if signed then Signed(digest, 0) else Finishing("", Failed))
      ensures signed == (write == Written && NormalizeKey(rawKey) in old(store.operations))
      ensures world.log ==
                if signed then old(world).log + [Signature(NormalizeKey(rawKey), world.handlers[id].birth, digest)]
                           else old(world).log
      ensures world.handlers[id].birth == old(world).handlers[id].birth
      ensures store.operations.Keys == old(store.operations).Keys
      ensures signed ==> (NormalizeKey(rawKey) in store.operations
                          && store.operations[NormalizeKey(rawKey)].txHash == digest
                          && store.operations[NormalizeKey(rawKey)].status == Broadcasting)
    {
      ghost var start := world;
      signed := RecordDigest(digest, now, write);
      steps := [Record(id, digest, now, write)] + if signed then [Sign(id, digest)] else [];
      OneStep(start, Record(id, digest, now, write));
      if !signed {
        assert steps == [Record(id, digest, now, write)];
        return;
      }
      NamedIsSigned(world, id, digest);
      AfterOneMore(start, [Record(id, digest, now, write)], Sign(id, digest));
      world := Step(world, Sign(id, digest));
    }

    /** The write the Tron signer makes first; a failed one withholds the signature. */
    method RecordDigest(digest: string, now: int, write: Write) returns (recorded: bool)
      requires Valid() && family == Tron && digest != "" && ComeTo(Reserved)
      modifies this, store
      ensures Valid() && world == Step(old(world), Record(id, digest, now, write))
      ensures ComeTo(if recorded then Named(digest) else Finishing("", Failed))
      ensures world.log == old(world).log && store.operations.Keys == old(store.operations).Keys
      ensures world.handlers[id].birth == old(world).handlers[id].birth
      ensures recorded == (write == Written && NormalizeKey(rawKey) in old(store.operations))
      ensures recorded ==> (NormalizeKey(rawKey) in store.operations
                            && store.operations[NormalizeKey(rawKey)].txHash == digest
                            && store.operations[NormalizeKey(rawKey)].status == Broadcasting)
    {
      var result := store.Update(rawKey, digest, Broadcasting, now, write);
      world := Step(world, Record(id, digest, now, write));
      recorded := result.Ok?;
    }

    /** Solana says when the transaction expires before it is signed. */
    method BeforeSigning(height: nat)
      requires Valid() && family == Solana && ComeTo(Reserved)
      modifies this
      ensures Valid() && lastValidBlockHeight == height
      ensures world == Step(old(world), Announce(id, height)) && ComeTo(Announced(height))
      ensures world.handlers[id].birth == old(world).handlers[id].birth && world.log == old(world).log
    {
      lastValidBlockHeight := height;
      world := Step(world, Announce(id, height));
    }

    /** The Solana signer: the signature is the id, on disk with the height before it is handed back. */
    method SignMessage(signature: string, now: int, write: Write) returns (handedBack: bool, ghost steps: seq<Event>)
      requires Valid() && family == Solana && ComeTo(Announced(lastValidBlockHeight))
      modifies this, store
      ensures Valid() && world == After(old(world), steps)
      ensures steps == [] + [Sign(id, signature)] + [Record(id, signature, now, write)]
      ensures ComeTo(if handedBack then Signed(signature, old(lastValidBlockHeight)) else Finishing("", Failed))
      ensures handedBack == (Datable(signature, old(lastValidBlockHeight), write)
                             && NormalizeKey(rawKey) in old(store.operations))
      ensures world.log == old(world).log + [Signature(NormalizeKey(rawKey), world.handlers[id].birth, signature)]
      ensures world.handlers[id].birth == old(world).handlers[id].birth
      ensures store.operations.Keys == old(store.operations).Keys
      ensures handedBack ==> (
                && NormalizeKey(rawKey) in store.operations
                && store.operations[NormalizeKey(rawKey)].txHash == signature
                && store.operations[NormalizeKey(rawKey)].status == Broadcasting
                && store.operations[NormalizeKey(rawKey)].lastValidBlockHeight == old(lastValidBlockHeight))
    {
      ghost var start := world;
      ghost var sign, record := Sign(id, signature), Record(id, signature, now, write);
      AfterOneMore(start, [], sign);
      AfterOneMore(start, [] + [sign], record);
      AnnouncedIsWithheld(start, id, signature);
      world := Step(world, sign);
      handedBack := RecordSignature(signature, now, write);
      steps := [] + [sign] + [record];
    }

    /** The write the Solana signer makes before it hands the signature back. */
    method RecordSignature(signature: string, now: int, write: Write) returns (recorded: bool)
      requires Valid() && family == Solana && ComeTo(Withheld(signature, lastValidBlockHeight))
      modifies this, store
      ensures Valid() && world == Step(old(world), Record(id, signature, now, write))
      ensures ComeTo(if recorded then Signed(signature, old(lastValidBlockHeight)) else Finishing("", Failed))
      ensures world.log == old(world).log && store.operations.Keys == old(store.operations).Keys
      ensures world.handlers[id].birth == old(world).handlers[id].birth
      ensures recorded == (Datable(signature, old(lastValidBlockHeight), write)
                           && NormalizeKey(rawKey) in old(store.operations))
      ensures recorded ==> (
                && NormalizeKey(rawKey) in store.operations
                && store.operations[NormalizeKey(rawKey)].txHash == signature
                && store.operations[NormalizeKey(rawKey)].status == Broadcasting
                && store.operations[NormalizeKey(rawKey)].lastValidBlockHeight == old(lastValidBlockHeight))
    {
      var result := store.UpdateExpiring(rawKey, signature, Broadcasting, lastValidBlockHeight, now, write);
      world := Step(world, Record(id, signature, now, write));
      recorded := result.Ok?;
    }

    /** The bytes leave, a node takes them or not, and the answer is classified. */
    method Broadcast(txHash: string, height: nat, heard: Heard, ghost took: bool)
      returns (outcome: Outcome, ghost steps: seq<Event>)
      requires Valid() && Sound(world) && ComeTo(Signed(txHash, height)) && Honest(family, txHash, took, heard)
      modifies this
      ensures Valid() && world == After(old(world), steps)
      ensures store.operations == old(store.operations)
      ensures outcome.txHash == txHash && TrueStatus(family, txHash, took, heard, StatusOf(outcome))
      ensures ComeTo(Finishing(txHash, StatusOf(outcome)))
      ensures var h := old(world).handlers[id];
              && world.log == old(world).log + [Release(h.Key(), h.birth, h.family, txHash, height)]
              && (h.birth in world.accepted <==> took)
    {
      outcome := Classify(family, txHash, heard);
      ghost var birth := world.handlers[id].birth;
      steps := BroadcastSteps(id, birth, outcome, took);
      BroadcastGoes(world, id, outcome, height, took);
      world := After(world, steps);
    }

    /** The one place an outcome is written down: failed only for a provable non-broadcast. */
    method Conclude(outcome: Outcome, now: int, write: Write) returns (ghost steps: seq<Event>)
      requires Valid() && ComeTo(Finishing(outcome.txHash, StatusOf(outcome)))
      modifies this, store
      ensures Valid() && steps == [Finish(id, now, write)] && world == After(old(world), steps)
      ensures id !in world.handlers && world.log == old(world).log
      ensures store.operations.Keys == old(store.operations).Keys
      ensures NormalizeKey(rawKey) in store.operations ==>
                store.operations[NormalizeKey(rawKey)] ==
                  if write == Lost then old(store.operations)[NormalizeKey(rawKey)]
                  else Updated(old(store.operations)[NormalizeKey(rawKey)], outcome.txHash, StatusOf(outcome), 0, now)
    {
      steps := [Finish(id, now, write)];
      OneStep(world, Finish(id, now, write));
      FinishGoes(world, id, now, write);
      var result := store.Update(rawKey, outcome.txHash, StatusOf(outcome), now, write);
      world := After(world, steps);
    }

    /** Reserves the key as the protocol does; a repeat or a refusal leaves everything as it was. */
    method Start(requestHash: string, networkID: string, now: int, write: Write)
      returns (reply: Reply, ghost steps: seq<Event>)
      requires Valid() && Sound(world) && id !in world.handlers
      modifies this, store
      ensures Valid() && Sound(world) && world == After(old(world), steps) && |steps| == 1
      ensures world.log == old(world).log
      ensures if reply.Proceed? then Begun(old(world), world) else id !in world.handlers
    {
      ghost var kept;
      ghost var start := world;
      reply, kept := Reserve(requestHash, networkID, now, write);
      ghost var begin := Event.Begin(id, family, rawKey, requestHash, networkID, now, kept, write);
      steps := [begin];
      OneStep(start, begin);
      StepStaysSound(start, begin);
      BeginReaches(start, begin);
    }

    /** The key is reserved for this request, as the next lifetime. */
    ghost predicate Begun(before: State, after: State)
      reads this
    {
      && id in after.handlers && after.handlers[id] == Handler(family, rawKey, |before.lifetimes|, Reserved)
      && NormalizeKey(rawKey) in after.records
    }

    /**
     A whole Tron request: reserve, record, sign, send, write down. Its steps are the
     protocol's; nothing is signed or leaves unless the id is on disk first.
     */
    method SendTron(
      requestHash: string, networkID: string, digest: string, heard: Heard, now: int,
      reserving: Write, recording: Write, concluding: Write, ghost took: bool)
      returns (reply: Reply, ghost steps: seq<Event>)
      requires Valid() && Sound(world) && id !in world.handlers && family == Tron && digest != ""
      requires Honest(family, digest, took, heard)
      modifies this, store
      ensures Valid() && Sound(world) && world == After(old(world), steps) && id !in world.handlers
      ensures !reply.Proceed? ==> world.log == old(world).log && |steps| == 1
      ensures reply.Proceed? ==>
                WentOut(old(world), Handler(family, rawKey, |old(world).lifetimes|, Reserved), digest, 0,
                  recording == Written, false)
      ensures reply.Proceed? && concluding == Written ==>
                WrittenDown(digest, heard, took, recording == Written)
      ensures reply.Proceed? && recording == Written && concluding == Lost ==>
                store.operations[NormalizeKey(rawKey)].status == Broadcasting
    {
      ghost var start := world;
      ghost var first;
      reply, first := Start(requestHash, networkID, now, reserving);
      steps := first;
      if !reply.Proceed? { return; }
      ghost var begun := world;
      ghost var rest := GoOnTron(digest, heard, now, recording, concluding, took);
      AfterJoins(start, first, rest);
      AfterStaysSound(begun, rest);
      steps := first + rest;
    }

    /**
     A whole Solana request: reserve, announce the expiry, sign, record the signature with its
     height, send, write down. It may be signed for, but nothing leaves unless the signature
     and its height are on disk first.
     */
    method SendSolana(
      requestHash: string, networkID: string, height: nat, signature: string, heard: Heard, now: int,
      reserving: Write, recording: Write, concluding: Write, ghost took: bool)
      returns (reply: Reply, ghost steps: seq<Event>)
      requires Valid() && Sound(world) && id !in world.handlers && family == Solana
      requires Honest(family, signature, took, heard)
      modifies this, store
      ensures Valid() && Sound(world) && world == After(old(world), steps) && id !in world.handlers
      ensures !reply.Proceed? ==> world.log == old(world).log && |steps| == 1
      ensures reply.Proceed? ==>
                WentOut(old(world), Handler(family, rawKey, |old(world).lifetimes|, Reserved), signature, height,
                  Datable(signature, height, recording), true)
      ensures reply.Proceed? && Datable(signature, height, recording) ==>
                store.operations[NormalizeKey(rawKey)].lastValidBlockHeight == height
      ensures reply.Proceed? && concluding == Written ==>
                WrittenDown(signature, heard, took, Datable(signature, height, recording))
      ensures reply.Proceed? && Datable(signature, height, recording) && concluding == Lost ==>
                store.operations[NormalizeKey(rawKey)].status == Broadcasting
    {
      ghost var start := world;
      ghost var first;
      reply, first := Start(requestHash, networkID, now, reserving);
      steps := first;
      if !reply.Proceed? { return; }
      ghost var begun := world;
      ghost var rest := GoOnSolana(height, signature, heard, now, recording, concluding, took);
      AfterJoins(start, first, rest);
      AfterStaysSound(begun, rest);
      steps := first + rest;
    }

    /** Signed and sent if the id was recorded; if not, signed at most by a family that signs first. */
    ghost predicate WentOut(
      before: State, h: Handler, txHash: string, height: nat, recorded: bool, signsFirst: bool)
      reads this, store
    {
      && NormalizeKey(rawKey) in store.operations
      && (recorded ==>
            && world.log == before.log + Logged(h, txHash, height)
            && store.operations[NormalizeKey(rawKey)].txHash == txHash)
      && (!recorded ==>
            world.log == before.log + if signsFirst then [Signature(h.Key(), h.birth, txHash)] else [])
    }

    /** The record says what is true: of what was sent, what the node did; of what was not, that it failed. */
    ghost predicate WrittenDown(txHash: string, heard: Heard, took: bool, sent: bool)
      reads this, store
    {
      && NormalizeKey(rawKey) in store.operations
      && var status := store.operations[NormalizeKey(rawKey)].status;
      if sent then TrueStatus(family, txHash, took, heard, status) else status == Failed
    }

    /** The rest of a Tron request, once the key is reserved. */
    method GoOnTron(
      digest: string, heard: Heard, now: int, recording: Write, concluding: Write, ghost took: bool)
      returns (ghost steps: seq<Event>)
      requires Valid() && Sound(world) && ComeTo(Reserved) && NormalizeKey(rawKey) in store.operations
      requires family == Tron && digest != "" && Honest(family, digest, took, heard)
      modifies this, store
      ensures Valid() && world == After(old(world), steps) && id !in world.handlers
      ensures WentOut(old(world), old(world).handlers[id], digest, 0, recording == Written, false)
      ensures concluding == Written ==>
                WrittenDown(digest, heard, took, recording == Written)
      ensures recording == Written && concluding == Lost ==>
                store.operations[NormalizeKey(rawKey)].status == Broadcasting
    {
      ghost var start := world;
      var signed, first := SignDigest(digest, now, recording);
      AfterStaysSound(start, first);
      ghost var rest := SendAndConclude(signed, digest, 0, heard, now, concluding, took);
      AfterJoins(start, first, rest);
      LoggedIsBoth(start.log, start.handlers[id], digest, 0);
      steps := first + rest;
    }

    /** The rest of a Solana request, once the key is reserved. */
    method GoOnSolana(
      height: nat, signature: string, heard: Heard, now: int, recording: Write, concluding: Write, ghost took: bool)
      returns (ghost steps: seq<Event>)
      requires Valid() && Sound(world) && ComeTo(Reserved) && NormalizeKey(rawKey) in store.operations
      requires family == Solana && Honest(family, signature, took, heard)
      modifies this, store
      ensures Valid() && world == After(old(world), steps) && id !in world.handlers
      ensures WentOut(old(world), old(world).handlers[id], signature, height,
                Datable(signature, height, recording), true)
      ensures Datable(signature, height, recording) ==>
                store.operations[NormalizeKey(rawKey)].lastValidBlockHeight == height
      ensures concluding == Written ==>
                WrittenDown(signature, heard, took, Datable(signature, height, recording))
      ensures Datable(signature, height, recording) && concluding == Lost ==>
                store.operations[NormalizeKey(rawKey)].status == Broadcasting
    {
      ghost var start := world;
      var handedBack, first := SignExpiring(height, signature, now, recording);
      AfterStaysSound(start, first);
      ghost var rest := SendAndConclude(handedBack, signature, height, heard, now, concluding, took);
      AfterJoins(start, first, rest);
      LoggedIsBoth(start.log, start.handlers[id], signature, height);
      steps := first + rest;
    }

    /** Announcing the expiry and signing, in that order. */
    method SignExpiring(height: nat, signature: string, now: int, recording: Write)
      returns (handedBack: bool, ghost steps: seq<Event>)
      requires Valid() && ComeTo(Reserved) && NormalizeKey(rawKey) in store.operations && family == Solana
      modifies this, store
      ensures Valid() && world == After(old(world), steps)
      ensures handedBack == Datable(signature, height, recording)
      ensures ComeTo(if handedBack then Signed(signature, height) else Finishing("", Failed))
      ensures world.log == old(world).log + [Signature(NormalizeKey(rawKey), world.handlers[id].birth, signature)]
      ensures world.handlers[id].birth == old(world).handlers[id].birth
      ensures NormalizeKey(rawKey) in store.operations
      ensures handedBack ==> (
                && store.operations[NormalizeKey(rawKey)].txHash == signature
                && store.operations[NormalizeKey(rawKey)].status == Broadcasting
                && store.operations[NormalizeKey(rawKey)].lastValidBlockHeight == height)
    {
      ghost var start := world;
      BeforeSigning(height);
      OneStep(start, Announce(id, height));
      ghost var rest;
      handedBack, rest := SignMessage(signature, now, recording);
      AfterJoins(start, [Announce(id, height)], rest);
      steps := [Announce(id, height)] + rest;
    }

    /** What was signed and recorded is sent once; then the outcome is written down, whatever it is. */
    method SendAndConclude(
      ready: bool, txHash: string, height: nat, heard: Heard, now: int, concluding: Write, ghost took: bool)
      returns (ghost steps: seq<Event>)
      requires Valid() && Sound(world) && NormalizeKey(rawKey) in store.operations
      requires ComeTo(if ready then Signed(txHash, height) else Finishing("", Failed))
      requires ready ==> store.operations[NormalizeKey(rawKey)].txHash == txHash
      requires Honest(family, txHash, took, heard)
      modifies this, store
      ensures Valid() && world == After(old(world), steps) && id !in world.handlers
      ensures NormalizeKey(rawKey) in store.operations
      ensures ready ==> store.operations[NormalizeKey(rawKey)].txHash == txHash
      ensures store.operations[NormalizeKey(rawKey)].lastValidBlockHeight
           == old(store.operations)[NormalizeKey(rawKey)].lastValidBlockHeight
      ensures var birth := old(world).handlers[id].birth;
              world.log == old(world).log
                           + if ready then [Release(NormalizeKey(rawKey), birth, family, txHash, height)] else []
      ensures concluding == Written ==> WrittenDown(txHash, heard, took, ready)
      ensures concluding == Lost ==>
                store.operations[NormalizeKey(rawKey)] == old(store.operations)[NormalizeKey(rawKey)]
    {
      if !ready {
        steps := Conclude(Denied(""), now, concluding);
        return;
      }
      steps := SendRecorded(txHash, height, heard, now, concluding, took);
    }

    method SendRecorded(
      txHash: string, height: nat, heard: Heard, now: int, concluding: Write, ghost took: bool)
      returns (ghost steps: seq<Event>)
      requires Honest(family, txHash, took, heard)
      requires Valid() && Sound(world) && NormalizeKey(rawKey) in store.operations
      requires ComeTo(Signed(txHash, height)) && store.operations[NormalizeKey(rawKey)].txHash == txHash
      modifies this, store
      ensures Valid() && world == After(old(world), steps) && id !in world.handlers
      ensures NormalizeKey(rawKey) in store.operations && store.operations[NormalizeKey(rawKey)].txHash == txHash
      ensures store.operations[NormalizeKey(rawKey)].lastValidBlockHeight
           == old(store.operations)[NormalizeKey(rawKey)].lastValidBlockHeight
      ensures world.log
           == old(world).log + [Release(NormalizeKey(rawKey), old(world).handlers[id].birth, family, txHash, height)]
      ensures concluding == Written ==> WrittenDown(txHash, heard, took, true)
      ensures concluding == Lost ==>
                store.operations[NormalizeKey(rawKey)] == old(store.operations)[NormalizeKey(rawKey)]
    {
      ghost var start := world;
      var outcome, sent := Broadcast(txHash, height, heard, took);
      ghost var last := Conclude(outcome, now, concluding);
      AfterJoins(start, sent, last);
      steps := sent + last;
    }
  }

  /** An id can be recorded with its expiry only if there are both, and the write lands and says so. */
  predicate Datable(signature: string, height: nat, write: Write) {
    signature != "" && height != 0 && write == Written
  }

  /** One signature and one release, of the same transaction. */
  function Logged(h: Handler, txHash: string, height: nat): seq<Entry> {
    [Signature(h.Key(), h.birth, txHash), Release(h.Key(), h.birth, h.family, txHash, height)]
  }

  /** The protocol's Begin step leaves the records the store leaves; a repeat changes nothing. */
  lemma BeginsAsTheStore(s: State, e: Event)
    requires e.Begin? && e.id !in s.handlers && (CanMakeRoom(s.records, e.now) ==> Pruned(s.records, e.now, e.kept))
    ensures var (result, records) :=
              BeginOutcome(s.records, e.rawKey, e.requestHash, e.networkID, e.now, e.kept, e.write);
            && Step(s, e).records == records
            && (result.Repeated? ==>
                  && NormalizeKey(e.rawKey) in s.records && Step(s, e) == s
                  && result.operation == s.records[NormalizeKey(e.rawKey)])
  {
  }

  lemma LoggedIsBoth(log: seq<Entry>, h: Handler, txHash: string, height: nat)
    ensures log + [Signature(h.Key(), h.birth, txHash)] + [Release(h.Key(), h.birth, h.family, txHash, height)]
         == log + Logged(h, txHash, height)
  {
  }

  lemma OneStep(s: State, e: Event)
    ensures After(s, [e]) == Step(s, e)
  {
    AfterOneMore(s, [], e);
    assert [] + [e] == [e];
  }

  lemma {:induction false} AfterStaysSound(s: State, more: seq<Event>)
    requires Sound(s)
    ensures Sound(After(s, more))
    decreases |more|
  {
    if more == [] {
    } else {
      StepStaysSound(s, more[0]);
      AfterStaysSound(Step(s, more[0]), more[1..]);
    }
  }

  lemma NamedIsSigned(s: State, id: nat, digest: string)
    requires id in s.handlers && s.handlers[id].phase == Named(digest)
    ensures var t := Step(s, Sign(id, digest));
            && t.records == s.records && id in t.handlers
            && t.handlers[id] == s.handlers[id].(phase := Signed(digest, 0))
            && t.log == s.log + [Signature(s.handlers[id].Key(), s.handlers[id].birth, digest)]
  {
  }

  lemma FinishGoes(s: State, id: nat, now: int, write: Write)
    requires id in s.handlers && s.handlers[id].phase.Finishing?
    ensures var h := s.handlers[id]; var t := Step(s, Finish(id, now, write));
            && t.records == UpdateOutcome(s.records, h.rawKey, h.phase.txHash, h.phase.status, 0, now, write).1
            && t.handlers == s.handlers - {id} && t.log == s.log
  {
  }

  lemma AnnouncedIsWithheld(s: State, id: nat, signature: string)
    requires id in s.handlers && s.handlers[id].phase.Announced?
    ensures var t := Step(s, Sign(id, signature));
            && t.records == s.records && id in t.handlers
            && t.handlers[id] == s.handlers[id].(phase := Withheld(signature, s.handlers[id].phase.height))
            && t.log == s.log + [Signature(s.handlers[id].Key(), s.handlers[id].birth, signature)]
  {
  }

  lemma BeginReaches(s: State, e: Event)
    requires e.Begin? && e.id !in s.handlers && (CanMakeRoom(s.records, e.now) ==> Pruned(s.records, e.now, e.kept))
    ensures Step(s, e).log == s.log
    ensures var result := BeginOutcome(s.records, e.rawKey, e.requestHash, e.networkID, e.now, e.kept, e.write).0;
            if result.Created? then
              e.id in Step(s, e).handlers && NormalizeKey(e.rawKey) in Step(s, e).records
              && Step(s, e).handlers[e.id] == Handler(e.family, e.rawKey, |s.lifetimes|, Reserved)
            else e.id !in Step(s, e).handlers
  {
    BeginReserves(s, e);
  }

  lemma SendGoes(s: State, id: nat, txHash: string, height: nat)
    requires Sound(s) && id in s.handlers && s.handlers[id].phase == Signed(txHash, height)
    ensures var h := s.handlers[id]; var t := Step(s, Send(id));
            && t.records == s.records && id in t.handlers && t.handlers[id] == h.(phase := Sent(txHash, height))
            && t.log == s.log + [Release(h.Key(), h.birth, h.family, txHash, height)]
            && h.birth in t.travelling && h.birth !in t.accepted
  {
    RequestBefore(s, id);
  }

  lemma AnswerGoes(s: State, id: nat, outcome: Outcome, height: nat)
    requires id in s.handlers && s.handlers[id].phase == Sent(outcome.txHash, height)
    requires outcome.Accepted? ==> s.handlers[id].birth in s.accepted
    requires outcome.Denied? ==> s.handlers[id].birth !in s.accepted
    ensures var t := Step(s, Receive(id, AnswerOf(outcome)));
            && t.records == s.records && t.log == s.log && t.accepted == s.accepted && id in t.handlers
            && t.handlers[id] == s.handlers[id].(phase := Finishing(outcome.txHash, StatusOf(outcome)))
  {
  }

  function Arrivals(birth: nat, took: bool): seq<Event> {
    if took then [Deliver(birth)] else []
  }

  lemma ArrivalGoes(s: State, birth: nat, took: bool)
    requires birth in s.travelling && birth !in s.accepted
    ensures var t := After(s, Arrivals(birth, took));
            t == s.(accepted := t.accepted) && (birth in t.accepted <==> took)
    ensures Sound(s) ==> Sound(After(s, Arrivals(birth, took)))
  {
    if took {
      AfterOneMore(s, [], Deliver(birth));
      assert [] + [Deliver(birth)] == [Deliver(birth)];
      if Sound(s) { StepStaysSound(s, Deliver(birth)); }
    }
  }

  /** The bytes go, arrive if the node took them, and are answered. */
  function BroadcastSteps(id: nat, birth: nat, outcome: Outcome, took: bool): seq<Event> {
    [] + [Send(id)] + Arrivals(birth, took) + [Receive(id, AnswerOf(outcome))]
  }

  /** Sending, arriving and answering bring a request to where Conclude takes it up. */
  lemma BroadcastGoes(s: State, id: nat, outcome: Outcome, height: nat, took: bool)
    requires (outcome.Accepted? ==> took) && (outcome.Denied? ==> !took)
    requires Sound(s) && id in s.handlers && s.handlers[id].phase == Signed(outcome.txHash, height)
    ensures var h := s.handlers[id]; var t := After(s, BroadcastSteps(id, h.birth, outcome, took));
            && t.records == s.records && id in t.handlers && Sound(t)
            && t.handlers[id] == h.(phase := Finishing(outcome.txHash, StatusOf(outcome)))
            && t.log == s.log + [Release(h.Key(), h.birth, h.family, outcome.txHash, height)]
            && (h.birth in t.accepted <==> took)
  {
    var birth := s.handlers[id].birth;
    var s1 := Step(s, Send(id));
    SendGoes(s, id, outcome.txHash, height);
    StepStaysSound(s, Send(id));
    AfterOneMore(s, [], Send(id));
    ArrivalGoes(s1, birth, took);
    var s2 := After(s1, Arrivals(birth, took));
    AfterJoins(s, [] + [Send(id)], Arrivals(birth, took));
    AnswerGoes(s2, id, outcome, height);
    StepStaysSound(s2, Receive(id, AnswerOf(outcome)));
    AfterOneMore(s, [] + [Send(id)] + Arrivals(birth, took), Receive(id, AnswerOf(outcome)));
  }
}
