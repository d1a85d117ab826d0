/** What a device publishes is what its handshakes need. */
module Published {
  import opened Crypto
  import opened Handshake

  lemma GeneratedIsOk(seed: nat, prekeySeed: nat)
    ensures var d := GenerateIdentity(seed, prekeySeed);
      && DeviceOk(d) && d.oneTime == map[] && d.nextId == 1
      && d.identity.pub == Pub(seed) && d.signedPrekey == KeyPair(prekeySeed, Pub(prekeySeed)) && d.signing == seed
  {
  }

  lemma RotatedIsOk(d: Device, seed: nat)
    requires DeviceOk(d)
    ensures var d' := RotateSignedPrekey(d, seed);
      && DeviceOk(d') && d'.signedPrekey.pub == Pub(seed)
      && d'.identity == d.identity && d'.signing == d.signing && d'.oneTime == d.oneTime && d'.nextId == d.nextId
  {
  }

  /** What issuing never touches. */
  predicate SameIdentity(d: Device, d': Device) {
    && d'.identity == d.identity && d'.signing == d.signing && d'.signingPublic == d.signingPublic
    && d'.signedPrekey == d.signedPrekey && d'.signedSig == d.signedSig
  }

  /** The device holds the private half of the published key. */
  predicate HoldsPrekey(d: Device, key: OneTimePrekey) {
    key.id in d.oneTime && d.oneTime[key.id].pub == key.pub && IsKeyPair(d.oneTime[key.id])
  }

  lemma {:induction false} IssuedAreHeld(d: Device, seeds: seq<nat>, count: nat, consumed: set<uint32>)
    requires DeviceOk(d) && LedgerOk(d, count, consumed) && count + |seeds| < TWO_32
    ensures var (d', issued) := Issue(d, seeds);
      && DeviceOk(d') && SameIdentity(d, d')
      && |issued| == |seeds|
      && (forall i :: 0 <= i < |issued| ==>
            issued[i].id == count + 1 + i && issued[i].pub == Pub(seeds[i]) && HoldsPrekey(d', issued[i]))
      && (forall id <- d.oneTime :: id in d'.oneTime && d'.oneTime[id] == d.oneTime[id])
  {
    IssueKeepsLedger(d, seeds, count, consumed);
    if seeds != [] {
      var front := seeds[..|seeds| - 1];
      IssuedAreHeld(d, front, count, consumed);
      IssueKeepsLedger(d, front, count, consumed);
    }
  }

  lemma AcceptedIsOk(d: Device, msg: HandshakeMessage)
    requires DeviceOk(d)
    ensures var d' := AcceptSession(d, msg).0;
      && DeviceOk(d') && SameIdentity(d, d') && d'.nextId == d.nextId
      && d'.oneTime == d.oneTime - Used(d, DoAccept(msg))
  {
    assert d.oneTime - {} == d.oneTime;
  }

  /** A bundle as the key server hands it out: with one of the published one-time prekeys, or none. */
  function Served(bundle: PrekeyBundle, key: Option<OneTimePrekey>): PrekeyBundle {
    bundle.(oneTimePrekeys := if key.Some? then [key.value] else [])
  }

  ghost predicate WellPublished(d: Device, bundle: PrekeyBundle) {
    && DeviceOk(d) && Serves(d, bundle) && Serves(d, Served(bundle, None))
    && forall key <- bundle.oneTimePrekeys :: HoldsPrekey(d, key) && Serves(d, Served(bundle, Some(key)))
  }

  /** The bundle has the device's keys in their places, a good signature by the device's own key, and
      each of its one-time prekeys is the public half of a pair held under its ID. */
  lemma PublishedIsHeld(d: Device, seeds: seq<nat>, count: nat, consumed: set<uint32>)
    requires DeviceOk(d) && LedgerOk(d, count, consumed) && count + |seeds| < TWO_32
    ensures var (d', bundle) := Publish(d, seeds);
      && WellPublished(d', bundle) && SameIdentity(d, d')
      && bundle.identityKey == d.identity.pub && bundle.signedPrekey == d.signedPrekey.pub
      && bundle.verifyKey == VerifyKey(d.signing)
      && bundle.signedSig == Signature(d.signing, bundle.signedPrekey)
      && |bundle.oneTimePrekeys| == |seeds|
      && LedgerOk(d', count + |seeds|, consumed)
  {
    IssuedAreHeld(d, seeds, count, consumed);
    IssueKeepsLedger(d, seeds, count, consumed);
    var (d', bundle) := Publish(d, seeds);
    forall key <- bundle.oneTimePrekeys
      ensures HoldsPrekey(d', key)
    {
      var i :| 0 <= i < |bundle.oneTimePrekeys| && bundle.oneTimePrekeys[i] == key;
      assert HoldsPrekey(d', Issue(d, seeds).1[i]);
    }
  }

  lemma {:induction false} RunIsOk(d: Device, ops: seq<DeviceOp>, count: nat, consumed: set<uint32>)
    requires DeviceOk(d) && LedgerOk(d, count, consumed) && count + |IdsIssued(d, ops)| < TWO_32
    ensures DeviceOk(DeviceRun(d, ops)) && SameIdentity(d, DeviceRun(d, ops))
    ensures forall id <- d.oneTime :: id !in IdsConsumed(d, ops) ==>
      id in DeviceRun(d, ops).oneTime && DeviceRun(d, ops).oneTime[id] == d.oneTime[id]
    decreases |ops|
  {
    if ops != [] {
      hide DeviceOk, LedgerOk, AcceptSession, Issue;
      match ops[0]
      case DoPublish(seeds) =>
        IssueSize(d, seeds);
        IssuedAreHeld(d, seeds, count, consumed);
        IssueKeepsLedger(d, seeds, count, consumed);
        RunIsOk(DeviceStep(d, ops[0]), ops[1..], count + |seeds|, consumed);
      case DoAccept(msg) =>
        AcceptedIsOk(d, msg);
        AcceptKeepsLedger(d, msg, count, consumed);
        RunIsOk(DeviceStep(d, ops[0]), ops[1..], count, consumed + Used(d, ops[0]));
    }
  }

  lemma BundleStaysGood(d: Device, bundle: PrekeyBundle, ops: seq<DeviceOp>, count: nat, consumed: set<uint32>)
    requires WellPublished(d, bundle) && LedgerOk(d, count, consumed) && count + |IdsIssued(d, ops)| < TWO_32
    ensures var d' := DeviceRun(d, ops);
      && DeviceOk(d') && SameIdentity(d, d') && Serves(d', Served(bundle, None))
      && forall key <- bundle.oneTimePrekeys :: key.id !in IdsConsumed(d, ops) ==> Serves(d', Served(bundle, Some(key)))
  {
    RunIsOk(d, ops, count, consumed);
    hide LedgerOk, DeviceRun, IdsConsumed, IdsIssued;
    forall key <- bundle.oneTimePrekeys | key.id !in IdsConsumed(d, ops)
      ensures Serves(DeviceRun(d, ops), Served(bundle, Some(key)))
    {
      assert HoldsPrekey(d, key);
    }
  }

  /** A device made from these seeds, after some life. */
  lemma LifeIsOk(seed: nat, prekeySeed: nat, ops: seq<DeviceOp>) returns (consumed: set<uint32>)
    requires |IdsIssued(GenerateIdentity(seed, prekeySeed), ops)| < TWO_32
    ensures var d0, d := GenerateIdentity(seed, prekeySeed), DeviceRun(GenerateIdentity(seed, prekeySeed), ops);
      && DeviceOk(d) && LedgerOk(d, |IdsIssued(d0, ops)|, consumed)
      && d.identity.pub == Pub(seed) && d.signedPrekey == KeyPair(prekeySeed, Pub(prekeySeed)) && d.signing == seed
  {
    var d0 := GenerateIdentity(seed, prekeySeed);
    consumed := {} + IdsConsumed(d0, ops);
    GeneratedIsOk(seed, prekeySeed);
    assert LedgerOk(d0, 0, {});
    hide LedgerOk, DeviceOk, DeviceRun, IdsIssued, IdsConsumed, GenerateIdentity;
    RunKeepsLedger(d0, ops, 0, {});
    RunIsOk(d0, ops, 0, {});
  }

  /** In every life of a device with fewer than 2^32 issues, whatever handshakes arrive, every bundle it
      publishes is good when published; and the bundle without a one-time prekey stays good, as
      does the one with a key of it until a handshake used that key up. */
  lemma PublishedBundlesServe(seed: nat, prekeySeed: nat, before: seq<DeviceOp>, seeds: seq<nat>, after: seq<DeviceOp>)
    requires var d := DeviceRun(GenerateIdentity(seed, prekeySeed), before);
      |IdsIssued(GenerateIdentity(seed, prekeySeed), before)| + |seeds|
      + |IdsIssued(Publish(d, seeds).0, after)| < TWO_32
    ensures var d := DeviceRun(GenerateIdentity(seed, prekeySeed), before);
      var (d1, bundle) := Publish(d, seeds);
      var d2 := DeviceRun(d1, after);
      && WellPublished(d1, bundle)
      && bundle.identityKey == Pub(seed) && bundle.signedPrekey == Pub(prekeySeed)
      && bundle.signedSig == Signature(seed, Pub(prekeySeed))
      && DeviceOk(d2) && Serves(d2, Served(bundle, None)) && d2.signedPrekey.priv == prekeySeed
      && forall key <- bundle.oneTimePrekeys ::
           key.id !in IdsConsumed(d1, after) ==> Serves(d2, Served(bundle, Some(key)))
  {
    var d0 := GenerateIdentity(seed, prekeySeed);
    hide LedgerOk, DeviceOk, WellPublished, DeviceRun, IdsIssued, IdsConsumed, Publish, GenerateIdentity, Served;
    var consumed := LifeIsOk(seed, prekeySeed, before);
    var d, count := DeviceRun(d0, before), |IdsIssued(d0, before)|;
    PublishedIsHeld(d, seeds, count, consumed);
    BundleStaysGood(Publish(d, seeds).0, Publish(d, seeds).1, after, count + |seeds|, consumed);
  }
}
