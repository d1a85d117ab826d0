/** Saving sessions and devices as text and restoring them. */
module Snapshot {
  import opened Crypto
  import opened RatchetSpec
  import opened Handshake

  /** A base64 text: the coding of a value of the expected length, or anything else. */
  datatype Text<+T> = Base64(value: T) | Undecodable

  datatype ChainSnapshot = ChainSnapshot(key: Text<Key>, index: uint32)

  datatype SessionSnapshot = SessionSnapshot(
    rootKey: Text<Key>,
    sendChain: ChainSnapshot,
    recvChain: ChainSnapshot,
    ratchetPrivate: Text<nat>,
    ratchetPublic: Text<Point>,
    remoteRatchet: Text<Point>,
    remoteIdentity: Text<Point>,
    remoteSignature: Text<VerifyKey>,
    pn: uint32,
    role: Role,
    pendingPrekey: Option<uint32>,
    skipped: Option<map<SkipId, Text<Key>>>)

  datatype KeyPairSnapshot = KeyPairSnapshot(priv: Text<nat>, pub: Text<Point>)

  datatype DeviceSnapshot = DeviceSnapshot(
    signingPrivate: Text<nat>,
    signingPublic: Text<VerifyKey>,
    identity: KeyPairSnapshot,
    signedPrekey: KeyPairSnapshot,
    signedSig: Text<Signature>,
    oneTime: Option<map<uint32, KeyPairSnapshot>>,
    nextId: uint32)

  // Sessions

  function ExportChain(c: Chain): ChainSnapshot {
    ChainSnapshot(Base64(c.key), c.index)
  }

  /** An empty cache is left out of the snapshot. */
  function ExportSession(s: Session): SessionSnapshot {
    SessionSnapshot(
      Base64(s.root), ExportChain(s.send), ExportChain(s.recv), Base64(s.priv), Base64(s.pub), Base64(s.remote),
      Base64(s.peer.identity), Base64(s.peer.verifyKey), s.pn, s.peer.role, s.peer.pendingPrekey,
      if s.skipped == map[] then None else Some(map id <- s.skipped :: Base64(s.skipped[id])))
  }

  predicate AllDecodable<K, T>(texts: map<K, Text<T>>) {
    forall k <- texts :: texts[k].Base64?
  }

  function Entries<K, V>(m: Option<map<K, V>>): map<K, V> {
    match m case Some(entries) => entries case None => map[]
  }

  /** Restoring fails when any text does not decode. */
  function ImportSession(t: SessionSnapshot): Option<Session> {
    if || !t.rootKey.Base64? || !t.sendChain.key.Base64? || !t.recvChain.key.Base64? || !t.ratchetPrivate.Base64?
       || !t.ratchetPublic.Base64? || !t.remoteRatchet.Base64?
       || !t.remoteIdentity.Base64? || !t.remoteSignature.Base64?
       || !AllDecodable(Entries(t.skipped))
    then None
    else
      var entries := Entries(t.skipped);
      Some(Session(
        t.rootKey.value,
        Chain(t.sendChain.key.value, t.sendChain.index), Chain(t.recvChain.key.value, t.recvChain.index),
        t.ratchetPrivate.value, t.ratchetPublic.value, t.remoteRatchet.value, t.pn,
        map id <- entries :: entries[id].value,
        Peer(t.remoteIdentity.value, t.remoteSignature.value, t.role, t.pendingPrekey)))
  }

  /** A snapshot in the form that exporting gives it. */
  function Normal(t: SessionSnapshot): SessionSnapshot {
    if t.skipped == Some(map[]) then t.(skipped := None) else t
  }

  /** Restoring a saved session gives the session back; and whatever restores was saved, up to how an
      empty cache is written. */
  lemma SessionRoundTrip(s: Session, t: SessionSnapshot)
    ensures ImportSession(ExportSession(s)) == Some(s)
    ensures ImportSession(t) == Some(s) <==> Normal(t) == ExportSession(s)
  {
    var saved := ExportSession(s);
    assert (map id <- Entries(saved.skipped) :: Entries(saved.skipped)[id].value) == s.skipped;
    if ImportSession(t) == Some(s) {
      assert (map id <- s.skipped :: Base64(s.skipped[id])) == Entries(t.skipped);
    }
    if Normal(t) == ExportSession(s) {
      assert Entries(t.skipped) == Entries(saved.skipped);
    }
  }

  /** Each text of a snapshot is what its name says: the two halves of the key pair and the two chains
      decide what the session sends and opens next, and the cache holds the keys of skipped messages. */
  lemma SnapshotDescribes(s: Session, plaintext: Bytes, seed: nat, h: Header, ev: Evictions)
    ensures var t := ExportSession(s);
      && t.rootKey.Base64? && t.sendChain.key.Base64? && t.recvChain.key.Base64? && t.ratchetPrivate.Base64?
      && t.ratchetPublic.Base64? && t.remoteRatchet.Base64?
      && t.remoteIdentity == Base64(s.peer.identity) && t.remoteSignature == Base64(s.peer.verifyKey)
      && t.role == s.peer.role && t.pendingPrekey == s.peer.pendingPrekey
      && t.skipped != Some(map[]) && AllDecodable(Entries(t.skipped))
    ensures var t := ExportSession(s);
      var sent := Encrypt(s, plaintext, seed);
      && (t.sendChain.key.value != Zero ==>
            && sent.Ok? && sent.value.header.n == t.sendChain.index && sent.value.header.pn == t.pn
            && sent.value.header.dhPublic == t.ratchetPublic.value
            && sent.value.ciphertext.key == CipherKey(Msg(t.sendChain.key.value)))
      && (t.sendChain.key.value == Zero && sent.Ok? ==>
            && t.remoteRatchet.value.Pub?
            && sent.value.next.root == RootOut(t.rootKey.value, Dh(seed, t.remoteRatchet.value.scalar)))
    ensures var t := ExportSession(s);
      var id, received := SkipId(h.dhPublic, h.n), ReceiveKey(s, h, ev).1;
      && (id in Entries(t.skipped) ==> received == Ok(Entries(t.skipped)[id].value))
      && (id !in Entries(t.skipped) && h.dhPublic == t.remoteRatchet.value ==>
            && (received == Err(ErrDuplicateMessage) <==> h.n < t.recvChain.index)
            && (h.n == t.recvChain.index ==> received == Ok(Msg(t.recvChain.key.value))))
      && (id !in Entries(t.skipped) && h.dhPublic.Pub? && h.dhPublic != t.remoteRatchet.value && h.n == 0 ==>
            received == Ok(Msg(ChainOut(t.rootKey.value, Dh(t.ratchetPrivate.value, h.dhPublic.scalar)))))
  {
    assert forall id <- s.skipped :: Entries(ExportSession(s).skipped)[id] == Base64(s.skipped[id]);
  }

  // A restored session behaves like the saved one

  datatype Call =
    | EncryptCall(plaintext: Bytes, seed: nat)
    | DecryptCall(ciphertext: Ciphertext, header: Header, evictions: Evictions)

  datatype Answer =
    | EncryptAnswer(sent: Result<(Ciphertext, Header), Error>)
    | DecryptAnswer(received: Result<Bytes, Error>)

  function Perform(s: Session, call: Call): (Session, Answer) {
    match call
    case EncryptCall(plaintext, seed) =>
      (match Encrypt(s, plaintext, seed)
       case Ok(out) => (out.next, EncryptAnswer(Ok((out.ciphertext, out.header))))
       case Err(e) => (s, EncryptAnswer(Err(e))))
    case DecryptCall(ciphertext, header, evictions) =>
      var (t, result) := Decrypt(s, ciphertext, header, evictions);
      (t, DecryptAnswer(result))
  }

  function Answers(s: Session, calls: seq<Call>): seq<Answer>
    decreases |calls|
  {
    if calls == [] then [] else [Perform(s, calls[0]).1] + Answers(Perform(s, calls[0]).0, calls[1..])
  }

  /** Saving and restoring after every call, instead of keeping the session in memory. */
  function AnswersWithReloads(s: Session, calls: seq<Call>): seq<Answer>
    decreases |calls|
  {
    if calls == [] then []
    else
      match ImportSession(ExportSession(s))
      case None => []
      case Some(restored) =>
        [Perform(restored, calls[0]).1] + AnswersWithReloads(Perform(restored, calls[0]).0, calls[1..])
  }

  /** The same ciphertexts, headers, plaintexts and errors, given the same randomness and evictions. */
  lemma {:induction false} ReloadingChangesNothing(s: Session, calls: seq<Call>)
    ensures AnswersWithReloads(s, calls) == Answers(s, calls)
    decreases |calls|
  {
    if calls != [] {
      hide Perform, ImportSession;
      SessionRoundTrip(s, ExportSession(s));
      ReloadingChangesNothing(Perform(s, calls[0]).0, calls[1..]);
    }
  }

  // Devices

  function ExportKeyPair(kp: KeyPair): KeyPairSnapshot {
    KeyPairSnapshot(Base64(kp.priv), Base64(kp.pub))
  }

  predicate PairDecodable(t: KeyPairSnapshot) {
    t.priv.Base64? && t.pub.Base64?
  }

  function ImportKeyPair(t: KeyPairSnapshot): KeyPair
    requires PairDecodable(t)
  {
    KeyPair(t.priv.value, t.pub.value)
  }

  function ExportDevice(d: Device): DeviceSnapshot {
    DeviceSnapshot(
      Base64(d.signing), Base64(d.signingPublic),
      ExportKeyPair(d.identity), ExportKeyPair(d.signedPrekey), Base64(d.signedSig),
      if d.oneTime == map[] then None else Some(map id <- d.oneTime :: ExportKeyPair(d.oneTime[id])), d.nextId)
  }

  function ImportDevice(t: DeviceSnapshot): Option<Device> {
    var entries := Entries(t.oneTime);
    if || !t.signingPrivate.Base64? || !t.signingPublic.Base64? || !t.signedSig.Base64?
       || !PairDecodable(t.identity) || !PairDecodable(t.signedPrekey)
       || exists id <- entries :: !PairDecodable(entries[id])
    then None
    else
      Some(Device(ImportKeyPair(t.identity), t.signingPrivate.value, t.signingPublic.value,
                  ImportKeyPair(t.signedPrekey), t.signedSig.value,
                  map id <- entries :: ImportKeyPair(entries[id]), t.nextId))
  }

  /** A restored device is the saved one. */
  lemma DeviceRoundTrip(d: Device)
    ensures ImportDevice(ExportDevice(d)) == Some(d)
  {
    var entries := Entries(ExportDevice(d).oneTime);
    assert (map id <- entries :: ImportKeyPair(entries[id])) == d.oneTime;
  }

  /** Each text of a device snapshot is what its name says: the bundle published next shows the public
      half of every pair, its signature and the next ID, and the private halves derive its secrets. */
  lemma DeviceSnapshotDescribes(d: Device, seed: nat, msg: HandshakeMessage)
    ensures var t := ExportDevice(d);
      && t.signingPrivate == Base64(d.signing) && t.signingPublic.Base64? && t.signedSig.Base64?
      && PairDecodable(t.identity) && PairDecodable(t.signedPrekey)
      && Publish(d, [seed]).1 ==
           PrekeyBundle(t.identity.pub.value, t.signingPublic.value, t.signedPrekey.pub.value, t.signedSig.value,
                        [OneTimePrekey(t.nextId, Pub(seed))])
    ensures var t := ExportDevice(d);
      var entries := Entries(t.oneTime);
      && t.oneTime != Some(map[]) && entries.Keys == d.oneTime.Keys
      && (forall id <- entries :: entries[id] == KeyPairSnapshot(Base64(d.oneTime[id].priv), Base64(d.oneTime[id].pub)))
      && (msg.oneTimeId == None && msg.identityKey.Pub? && msg.ephemeralKey.Pub? ==>
            var r := AcceptSession(d, msg).1;
            && r.Ok? && r.value.root == X3Root([Dh(t.signedPrekey.priv.value, msg.identityKey.scalar),
                 Dh(t.identity.priv.value, msg.ephemeralKey.scalar),
                 Dh(t.signedPrekey.priv.value, msg.ephemeralKey.scalar)])
            && r.value.priv == t.signedPrekey.priv.value && r.value.pub == t.signedPrekey.pub.value)
  {
    var seeds := [seed];
    assert seeds[..0] == [] && Issue(d, []) == (d, []);
    assert Issue(d, seeds) == (IssueOne(d, seed).0, [] + [IssueOne(d, seed).1]);
  }

  /** What a device hands out: bundles, and answers to handshakes. */
  datatype DeviceAnswer = Published(bundle: PrekeyBundle) | Accepted(answer: Result<Session, Error>)

  function DeviceAnswerTo(d: Device, op: DeviceOp): DeviceAnswer {
    match op
    case DoPublish(seeds) => Published(Publish(d, seeds).1)
    case DoAccept(msg) => Accepted(AcceptSession(d, msg).1)
  }

  function DeviceAnswers(d: Device, ops: seq<DeviceOp>): seq<DeviceAnswer>
    decreases |ops|
  {
    if ops == [] then [] else [DeviceAnswerTo(d, ops[0])] + DeviceAnswers(DeviceStep(d, ops[0]), ops[1..])
  }

  /** Saving and restoring the device before every operation. */
  function DeviceAnswersWithReloads(d: Device, ops: seq<DeviceOp>): seq<DeviceAnswer>
    decreases |ops|
  {
    if ops == [] then []
    else
      match ImportDevice(ExportDevice(d))
      case None => []
      case Some(restored) =>
        [DeviceAnswerTo(restored, ops[0])] + DeviceAnswersWithReloads(DeviceStep(restored, ops[0]), ops[1..])
  }

  /** The same bundles, sessions and errors over every life of the device. */
  lemma {:induction false} DeviceReloadingChangesNothing(d: Device, ops: seq<DeviceOp>)
    ensures DeviceAnswersWithReloads(d, ops) == DeviceAnswers(d, ops)
    decreases |ops|
  {
    if ops != [] {
      hide DeviceAnswerTo, DeviceStep, ImportDevice;
      DeviceRoundTrip(d);
      DeviceReloadingChangesNothing(DeviceStep(d, ops[0]), ops[1..]);
    }
  }
}
