/** The mutable device object and its methods. */
module DeviceStates {
  import opened Crypto
  import opened RatchetSpec
  import opened SessionStates
  import opened Handshake

  class DeviceState {
    const identity: KeyPair
    const signing: nat
    const signingPublic: VerifyKey
    var signedPrekey: KeyPair
    var signedSig: Signature
    var oneTime: map<uint32, KeyPair>
    var nextOtkId: uint32

    ghost function Value(): Device
      reads this
    {
      Device(identity, signing, signingPublic, signedPrekey, signedSig, oneTime, nextOtkId)
    }

    constructor GenerateIdentityKeypair(seed: nat, prekeySeed: nat)
      ensures Value() == GenerateIdentity(seed, prekeySeed)
      ensures identity == KeyPair(seed, Pub(seed)) && signing == seed && signingPublic == VerifyKey(seed)
      ensures signedPrekey == KeyPair(prekeySeed, Pub(prekeySeed)) && signedSig == Signature(seed, Pub(prekeySeed))
      ensures oneTime == map[] && nextOtkId == 1
    {
      identity := GenerateX25519KeyPair(seed);
      signing, signingPublic := seed, VerifyKey(seed);
      signedPrekey := GenerateX25519KeyPair(seed);
      signedSig := Signature(seed, Pub(seed));
      oneTime := map[];
      nextOtkId := 1;
      new;
      RotateSignedPrekey(prekeySeed);
    }

    constructor Import(d: Device)
      ensures Value() == d
    {
      identity, signing, signingPublic := d.identity, d.signing, d.signingPublic;
      signedPrekey, signedSig := d.signedPrekey, d.signedSig;
      oneTime, nextOtkId := d.oneTime, d.nextId;
    }

    method RotateSignedPrekey(seed: nat)
      modifies this`signedPrekey, this`signedSig
      ensures Value() == Handshake.RotateSignedPrekey(old(Value()), seed)
      ensures signedPrekey == KeyPair(seed, Pub(seed)) && signedSig == Signature(signing, Pub(seed))
    {
      var kp := GenerateX25519KeyPair(seed);
      signedPrekey := kp;
      signedSig := Signature(signing, kp.pub);
    }

    /** `seeds` is the randomness drawn, one seed for each key; a negative count issues nothing. */
    method PublishPrekeyBundle(oneTimeCount: int, seeds: seq<nat>) returns (bundle: PrekeyBundle)
      requires |seeds| == if oneTimeCount < 0 then 0 else oneTimeCount
      modifies this`oneTime, this`nextOtkId
      ensures (Value(), bundle) == Publish(old(Value()), seeds)
      ensures bundle.identityKey == identity.pub && bundle.verifyKey == signingPublic
      ensures bundle.signedPrekey == signedPrekey.pub && bundle.signedSig == signedSig
      ensures |bundle.oneTimePrekeys| == |seeds|
      ensures forall i :: 0 <= i < |seeds| ==> bundle.oneTimePrekeys[i].pub == Pub(seeds[i])
    {
      var keys: seq<OneTimePrekey> := [];
      ghost var before := Value();
      for i := 0 to |seeds|
        invariant (Value(), keys) == Issue(before, seeds[..i])
        invariant |keys| == i && forall k :: 0 <= k < i ==> keys[k].pub == Pub(seeds[k])
        invariant unchanged(this`signedPrekey) && unchanged(this`signedSig)
      {
        var kp := GenerateX25519KeyPair(seeds[i]);
        var id := nextOtkId;
        nextOtkId := Inc(nextOtkId);
        oneTime := oneTime[id := kp];
        keys := keys + [OneTimePrekey(id, kp.pub)];
        assert seeds[..i + 1][..i] == seeds[..i];
      }
      assert seeds[..|seeds|] == seeds;
      bundle := PrekeyBundle(identity.pub, signingPublic, signedPrekey.pub, signedSig, keys);
    }

    method InitSession(bundle: PrekeyBundle, seed: nat) returns (r: Result<(SessionState, HandshakeMessage), Error>)
      ensures match Handshake.InitSession(Value(), bundle, seed)
              case Err(e) => r == Err(e)
              case Ok(out) => r.Ok? && fresh(r.value.0) && (r.value.0.Value(), r.value.1) == out
    {
      if !Verifies(bundle.verifyKey, bundle.signedPrekey, bundle.signedSig) {
        return Err(ErrInvalidPrekeySignature);
      }
      var ephemeral := GenerateX25519KeyPair(seed);
      var otk: Option<OneTimePrekey> := None;
      if |bundle.oneTimePrekeys| > 0 {
        otk := Some(bundle.oneTimePrekeys[0]);
      }
      var secret := SecretInitiator(identity.priv, ephemeral.priv, bundle,
                                    if otk.Some? then Some(otk.value.pub) else None);
      if secret.Err? {
        return Err(secret.error);
      }
      var pending := if otk.Some? then Some(otk.value.id) else None;
      var sess := new SessionState(
        Session(X3Root(secret.value), Chain(X3Chain(secret.value), 0), Chain(Zero, 0), ephemeral.priv, ephemeral.pub,
                bundle.signedPrekey, 0, map[], Peer(bundle.identityKey, bundle.verifyKey, Initiator, pending)));
      return Ok((sess, HandshakeMessage(identity.pub, signingPublic, ephemeral.pub, pending)));
    }

    method AcceptSession(msg: HandshakeMessage) returns (r: Result<SessionState, Error>)
      modifies this`oneTime
      ensures Value() == Handshake.AcceptSession(old(Value()), msg).0
      ensures match Handshake.AcceptSession(old(Value()), msg).1
              case Err(e) => r == Err(e)
              case Ok(s) => r.Ok? && fresh(r.value) && r.value.Value() == s
    {
      var otk: Option<nat> := None;
      if msg.oneTimeId.Some? {
        var id := msg.oneTimeId.value;
        if id !in oneTime {
          return Err(ErrMissingOneTimeKey);
        }
        otk := Some(oneTime[id].priv);
        oneTime := oneTime - {id};
      }
      var secret := SecretResponder(identity.priv, signedPrekey.priv, msg, otk);
      if secret.Err? {
        return Err(secret.error);
      }
      var sess := new SessionState(
        Session(X3Root(secret.value), Chain(Zero, 0), Chain(X3Chain(secret.value), 0), signedPrekey.priv,
                signedPrekey.pub, msg.ephemeralKey, 0, map[],
                Peer(msg.identityKey, msg.verifyKey, Responder, msg.oneTimeId)));
      return Ok(sess);
    }
  }
}
