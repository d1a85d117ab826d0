/** The X3DH handshake and the one-time prekeys of a device, as functions on values. */
module Handshake {
  import opened Crypto
  import opened RatchetSpec
  import TwoPartyRuns

  datatype Device = Device(
    identity: KeyPair,
    signing: nat,
    signingPublic: VerifyKey,
    signedPrekey: KeyPair,
    signedSig: Signature,
    oneTime: map<uint32, KeyPair>,
    nextId: uint32)

  datatype OneTimePrekey = OneTimePrekey(id: uint32, pub: Point)

  datatype PrekeyBundle = PrekeyBundle(
    identityKey: Point,
    verifyKey: VerifyKey,
    signedPrekey: Point,
    signedSig: Signature,
    oneTimePrekeys: seq<OneTimePrekey>)

  datatype HandshakeMessage = HandshakeMessage(
    identityKey: Point,
    verifyKey: VerifyKey,
    ephemeralKey: Point,
    oneTimeId: Option<uint32>)

  function RotateSignedPrekey(d: Device, seed: nat): Device {
    var kp := GenerateX25519KeyPair(seed);
    d.(signedPrekey := kp, signedSig := Signature(d.signing, kp.pub))
  }

  /** The signing pair and the X25519 identity pair come from one seed. */
  function GenerateIdentity(seed: nat, prekeySeed: nat): Device {
    var kp := GenerateX25519KeyPair(seed);
    RotateSignedPrekey(Device(kp, seed, VerifyKey(seed), kp, Signature(seed, kp.pub), map[], 1), prekeySeed)
  }

  // Publishing

  function IssueOne(d: Device, seed: nat): (Device, OneTimePrekey) {
    var kp := GenerateX25519KeyPair(seed);
    (d.(oneTime := d.oneTime[d.nextId := kp], nextId := Inc(d.nextId)), OneTimePrekey(d.nextId, kp.pub))
  }

  function Issue(d: Device, seeds: seq<nat>): (Device, seq<OneTimePrekey>) {
    if seeds == [] then (d, [])
    else
      var last := |seeds| - 1;
      var (d1, issued) := Issue(d, seeds[..last]);
      var (d2, key) := IssueOne(d1, seeds[last]);
      (d2, issued + [key])
  }

  function Publish(d: Device, seeds: seq<nat>): (Device, PrekeyBundle) {
    var (d', issued) := Issue(d, seeds);
    (d', PrekeyBundle(d.identity.pub, d.signingPublic, d.signedPrekey.pub, d.signedSig, issued))
  }

  // The handshake

  function SecretInitiator(identity: nat, ephemeral: nat, bundle: PrekeyBundle, otk: Option<Point>):
    Result<seq<Shared>, Error>
  {
    var dh1 := X25519(identity, bundle.signedPrekey);
    if dh1.Err? then Err(dh1.error) else
    var dh2 := X25519(ephemeral, bundle.identityKey);
    if dh2.Err? then Err(dh2.error) else
    var dh3 := X25519(ephemeral, bundle.signedPrekey);
    if dh3.Err? then Err(dh3.error) else
    var secret := [dh1.value, dh2.value, dh3.value];
    match otk
    case None => Ok(secret)
    case Some(pub) =>
      var dh4 := X25519(ephemeral, pub);
      if dh4.Err? then Err(dh4.error) else Ok(secret + [dh4.value])
  }

  function SecretResponder(identity: nat, signedPrekey: nat, msg: HandshakeMessage, otk: Option<nat>):
    Result<seq<Shared>, Error>
  {
    var dh1 := X25519(signedPrekey, msg.identityKey);
    if dh1.Err? then Err(dh1.error) else
    var dh2 := X25519(identity, msg.ephemeralKey);
    if dh2.Err? then Err(dh2.error) else
    var dh3 := X25519(signedPrekey, msg.ephemeralKey);
    if dh3.Err? then Err(dh3.error) else
    var secret := [dh1.value, dh2.value, dh3.value];
    match otk
    case None => Ok(secret)
    case Some(priv) =>
      var dh4 := X25519(priv, msg.ephemeralKey);
      if dh4.Err? then Err(dh4.error) else Ok(secret + [dh4.value])
  }

  function InitSession(d: Device, bundle: PrekeyBundle, seed: nat): Result<(Session, HandshakeMessage), Error> {
    if !Verifies(bundle.verifyKey, bundle.signedPrekey, bundle.signedSig) then
      Err(ErrInvalidPrekeySignature)
    else
      var eph := GenerateX25519KeyPair(seed);
      var otk := if bundle.oneTimePrekeys == [] then None else Some(bundle.oneTimePrekeys[0]);
      match SecretInitiator(d.identity.priv, eph.priv, bundle, if otk.Some? then Some(otk.value.pub) else None)
      case Err(e) => Err(e)
      case Ok(secret) =>
        var pending := if otk.Some? then Some(otk.value.id) else None;
        Ok((Session(X3Root(secret), Chain(X3Chain(secret), 0), Chain(Zero, 0), eph.priv, eph.pub, bundle.signedPrekey,
                    0, map[], Peer(bundle.identityKey, bundle.verifyKey, Initiator, pending)),
            HandshakeMessage(d.identity.pub, d.signingPublic, eph.pub, pending)))
  }

  /** The one-time prekey is deleted as soon as it is found, even if a later step fails. */
  function AcceptSession(d: Device, msg: HandshakeMessage): (Device, Result<Session, Error>) {
    if msg.oneTimeId.Some? && msg.oneTimeId.value !in d.oneTime then
      (d, Err(ErrMissingOneTimeKey))
    else
      var otk := if msg.oneTimeId.Some? then Some(d.oneTime[msg.oneTimeId.value].priv) else None;
      var d' := if msg.oneTimeId.Some? then d.(oneTime := d.oneTime - {msg.oneTimeId.value}) else d;
      match SecretResponder(d.identity.priv, d.signedPrekey.priv, msg, otk)
      case Err(e) => (d', Err(e))
      case Ok(secret) =>
        (d', Ok(Session(X3Root(secret), Chain(Zero, 0), Chain(X3Chain(secret), 0), d.signedPrekey.priv,
                        d.signedPrekey.pub, msg.ephemeralKey, 0, map[],
                        Peer(msg.identityKey, msg.verifyKey, Responder, msg.oneTimeId))))
  }

  // Agreement

  predicate IsKeyPair(kp: KeyPair) {
    kp.pub == Pub(kp.priv)
  }

  ghost predicate DeviceOk(d: Device) {
    && IsKeyPair(d.identity)
    && IsKeyPair(d.signedPrekey)
    && d.signingPublic == VerifyKey(d.signing)
    && d.signedSig == Signature(d.signing, d.signedPrekey.pub)
    && (forall id <- d.oneTime :: IsKeyPair(d.oneTime[id]))
  }

  /** The bundle holds the device's current public keys, and the one-time prekey that an
      initiator would pick is still live. */
  ghost predicate Serves(d: Device, bundle: PrekeyBundle) {
    && bundle.identityKey == d.identity.pub
    && bundle.verifyKey == d.signingPublic
    && bundle.signedPrekey == d.signedPrekey.pub
    && bundle.signedSig == d.signedSig
    && (bundle.oneTimePrekeys != [] ==>
          var otk := bundle.oneTimePrekeys[0]; otk.id in d.oneTime && d.oneTime[otk.id].pub == otk.pub)
  }

  /** The Diffie-Hellman outputs of section 3.3 of the X3DH document, in its order. */
  function SharedSecret(identityA: nat, ephemeral: nat, identityB: nat, signedB: nat, oneTimeB: Option<nat>):
    seq<Shared>
  {
    [Dh(identityA, signedB), Dh(ephemeral, identityB), Dh(ephemeral, signedB)]
    + (if oneTimeB.Some? then [Dh(ephemeral, oneTimeB.value)] else [])
  }

  /** The two ends derive the same secret, the one of the X3DH document, with the one-time prekey if the
      bundle has one, and their sessions mirror each other: same root, each one's chain where the
      other expects it, each one knowing who the other is. */
  lemma X3dhAgreement(alice: Device, bob: Device, bundle: PrekeyBundle, seed: nat)
    requires DeviceOk(alice) && DeviceOk(bob) && Serves(bob, bundle)
    ensures var init := InitSession(alice, bundle, seed);
      && init.Ok?
      && var (a, msg) := init.value;
         var (bob', accepted) := AcceptSession(bob, msg);
         && accepted.Ok?
         && TwoPartyRuns.Agreed(a, accepted.value)
         && a.priv == seed && accepted.value.priv == bob.signedPrekey.priv
         && a.root == X3Root(SharedSecret(alice.identity.priv, seed, bob.identity.priv, bob.signedPrekey.priv,
              if bundle.oneTimePrekeys == [] then None else Some(bob.oneTime[bundle.oneTimePrekeys[0].id].priv)))
         && msg.oneTimeId == (if bundle.oneTimePrekeys == [] then None else Some(bundle.oneTimePrekeys[0].id))
         && a.peer == Peer(bob.identity.pub, VerifyKey(bob.signing), Initiator, msg.oneTimeId)
         && accepted.value.peer == Peer(alice.identity.pub, VerifyKey(alice.signing), Responder, msg.oneTimeId)
         && DeviceOk(bob')
         && (msg.oneTimeId.Some? ==> msg.oneTimeId.value !in bob'.oneTime)
  {
  }

  // Refusals

  /** A session is started only for a prekey that the named key signed: every other bundle is refused
      for its signature, and by nothing else. */
  lemma SignatureIsChecked(d: Device, bundle: PrekeyBundle, seed: nat)
    ensures InitSession(d, bundle, seed) == Err(ErrInvalidPrekeySignature) <==>
      !exists signer ::
         bundle.verifyKey == VerifyKey(signer) && bundle.signedSig == Signature(signer, bundle.signedPrekey)
  {
    if bundle.verifyKey.VerifyKey? && bundle.signedSig.Signature? {
      var signer := bundle.verifyKey.signer;
      assert bundle.verifyKey == VerifyKey(signer);
    }
  }

  /** With a good signature a session is started exactly if X25519 refuses none of the keys used: both
      public keys of the bundle and the first one-time prekey. */
  lemma InitExactly(d: Device, bundle: PrekeyBundle, seed: nat, signer: nat)
    requires bundle.verifyKey == VerifyKey(signer) && bundle.signedSig == Signature(signer, bundle.signedPrekey)
    ensures var r := InitSession(d, bundle, seed);
      && (r.Ok? <==>
            && bundle.signedPrekey.Pub? && bundle.identityKey.Pub?
            && (bundle.oneTimePrekeys != [] ==> bundle.oneTimePrekeys[0].pub.Pub?))
      && (r.Err? ==> r.error == ErrLowOrderPoint)
  {
  }

  /** A handshake is accepted exactly if the one-time prekey it names is live and X25519 refuses neither
      of its keys. */
  lemma AcceptExactly(d: Device, msg: HandshakeMessage)
    ensures var r := AcceptSession(d, msg).1;
      && (r == Err(ErrMissingOneTimeKey) <==> msg.oneTimeId.Some? && msg.oneTimeId.value !in d.oneTime)
      && (r.Ok? <==>
            && (msg.oneTimeId.Some? ==> msg.oneTimeId.value in d.oneTime)
            && msg.identityKey.Pub? && msg.ephemeralKey.Pub?)
      && (r.Err? ==> r.error in {ErrMissingOneTimeKey, ErrLowOrderPoint})
  {
  }

  // The ledger of one-time prekeys

  datatype DeviceOp = DoPublish(seeds: seq<nat>) | DoAccept(msg: HandshakeMessage)

  function DeviceStep(d: Device, op: DeviceOp): Device {
    match op
    case DoPublish(seeds) => Publish(d, seeds).0
    case DoAccept(msg) => AcceptSession(d, msg).0
  }

  function DeviceRun(d: Device, ops: seq<DeviceOp>): Device
    decreases |ops|
  {
    if ops == [] then d else DeviceRun(DeviceStep(d, ops[0]), ops[1..])
  }

  /** The IDs handed out by a run, in order. */
  function IdsIssued(d: Device, ops: seq<DeviceOp>): seq<uint32>
    decreases |ops|
  {
    if ops == [] then []
    else
      NewIds(d, ops[0]) + IdsIssued(DeviceStep(d, ops[0]), ops[1..])
  }

  function NewIds(d: Device, op: DeviceOp): seq<uint32> {
    if op.DoPublish? then IdsOf(Publish(d, op.seeds).1.oneTimePrekeys) else []
  }

  function IdsOf(keys: seq<OneTimePrekey>): seq<uint32> {
    seq(|keys|, i requires 0 <= i < |keys| => keys[i].id)
  }

  /** The IDs that a run's handshakes used up. */
  function IdsConsumed(d: Device, ops: seq<DeviceOp>): set<uint32>
    decreases |ops|
  {
    if ops == [] then {}
    else
      Used(d, ops[0]) + IdsConsumed(DeviceStep(d, ops[0]), ops[1..])
  }

  /** After `count` issues, of which `consumed` are gone. */
  ghost predicate LedgerOk(d: Device, count: nat, consumed: set<uint32>) {
    && count < TWO_32
    && d.nextId == (count + 1) % TWO_32
    && d.oneTime.Keys !! consumed
    && (forall id: uint32 :: id in d.oneTime || id in consumed <==> 1 <= id <= count)
  }

  lemma {:induction false} IssueKeepsLedger(d: Device, seeds: seq<nat>, count: nat, consumed: set<uint32>)
    requires LedgerOk(d, count, consumed) && count + |seeds| < TWO_32
    ensures var (d', issued) := Issue(d, seeds);
      && LedgerOk(d', count + |seeds|, consumed)
      && |issued| == |seeds|
      && forall i :: 0 <= i < |issued| ==> issued[i].id == count + 1 + i
  {
    if seeds != [] {
      IssueKeepsLedger(d, seeds[..|seeds| - 1], count, consumed);
    }
  }

  /** The ID that one operation uses up. */
  function Used(d: Device, op: DeviceOp): set<uint32> {
    match op
    case DoPublish(_) => {}
    case DoAccept(msg) => if msg.oneTimeId.Some? && msg.oneTimeId.value in d.oneTime then {msg.oneTimeId.value} else {}
  }

  lemma AcceptKeepsLedger(d: Device, msg: HandshakeMessage, count: nat, consumed: set<uint32>)
    requires LedgerOk(d, count, consumed)
    ensures LedgerOk(AcceptSession(d, msg).0, count, consumed + Used(d, DoAccept(msg)))
  {
  }

  lemma {:induction false} IssueSize(d: Device, seeds: seq<nat>)
    ensures |Issue(d, seeds).1| == |seeds|
  {
    if seeds != [] {
      IssueSize(d, seeds[..|seeds| - 1]);
    }
  }

  lemma StepKeepsLedger(d: Device, op: DeviceOp, count: nat, consumed: set<uint32>)
    requires LedgerOk(d, count, consumed) && count + |NewIds(d, op)| < TWO_32
    ensures LedgerOk(DeviceStep(d, op), count + |NewIds(d, op)|, consumed + Used(d, op))
    ensures forall i :: 0 <= i < |NewIds(d, op)| ==> NewIds(d, op)[i] == count + 1 + i
  {
    hide LedgerOk, AcceptSession, Issue;
    match op
    case DoPublish(seeds) =>
      IssueSize(d, seeds);
      IssueKeepsLedger(d, seeds, count, consumed);
      assert consumed + {} == consumed;
    case DoAccept(msg) =>
      AcceptKeepsLedger(d, msg, count, consumed);
  }

  lemma {:induction false} RunKeepsLedger(d: Device, ops: seq<DeviceOp>, count: nat, consumed: set<uint32>)
    requires LedgerOk(d, count, consumed) && count + |IdsIssued(d, ops)| < TWO_32
    ensures LedgerOk(DeviceRun(d, ops), count + |IdsIssued(d, ops)|, consumed + IdsConsumed(d, ops))
    ensures forall i :: 0 <= i < |IdsIssued(d, ops)| ==> IdsIssued(d, ops)[i] == count + 1 + i
    decreases |ops|
  {
    hide LedgerOk, DeviceStep, NewIds, Used;
    if ops == [] {
      assert consumed + {} == consumed;
    } else {
      var d', used := DeviceStep(d, ops[0]), Used(d, ops[0]);
      assert consumed + IdsConsumed(d, ops) == consumed + used + IdsConsumed(d', ops[1..]);
      StepKeepsLedger(d, ops[0], count, consumed);
      RunKeepsLedger(d', ops[1..], count + |NewIds(d, ops[0])|, consumed + used);
    }
  }

  /** Over any life of a device with fewer than 2^32 issues: IDs rise strictly, every issued ID
      is either live or consumed and never both, and a consumed ID is refused for good. */
  lemma OneTimeLedger(seed: nat, prekeySeed: nat, ops: seq<DeviceOp>, msg: HandshakeMessage)
    requires var d := GenerateIdentity(seed, prekeySeed); |IdsIssued(d, ops)| < TWO_32
    ensures var d := GenerateIdentity(seed, prekeySeed);
      var d', issued, consumed := DeviceRun(d, ops), IdsIssued(d, ops), IdsConsumed(d, ops);
      && (forall i, j :: 0 <= i < j < |issued| ==> issued[i] < issued[j])
      && (forall id: uint32 :: id in issued <==> id in d'.oneTime || id in consumed)
      && d'.oneTime.Keys !! consumed
      && (msg.oneTimeId.Some? && msg.oneTimeId.value in consumed ==>
            AcceptSession(d', msg) == (d', Err(ErrMissingOneTimeKey)))
  {
    var d := GenerateIdentity(seed, prekeySeed);
    RunKeepsLedger(d, ops, 0, {});
    var issued := IdsIssued(d, ops);
    forall id: uint32
      ensures id in issued <==> 1 <= id <= |issued|
    {
      if 1 <= id <= |issued| {
        assert issued[id - 1] == id;
      }
    }
  }
}
