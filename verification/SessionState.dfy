/** The mutable session object and its methods. */
module SessionStates {
  import opened Crypto
  import opened RatchetSpec

  class SessionState {
    var rootKey: Key
    var sendChain: Chain
    var recvChain: Chain
    var ratchetPrivate: nat
    var ratchetPublic: Point
    var remoteRatchet: Point
    var pn: uint32
    var skipped: map<SkipId, Key>
    const peer: Peer

    /** The session as a value. */
    ghost function Value(): Session
      reads this
    {
      Session(rootKey, sendChain, recvChain, ratchetPrivate, ratchetPublic, remoteRatchet, pn, skipped, peer)
    }

    constructor (s: Session)
      ensures Value() == s
    {
      rootKey, sendChain, recvChain := s.root, s.send, s.recv;
      ratchetPrivate, ratchetPublic, remoteRatchet := s.priv, s.pub, s.remote;
      pn, skipped, peer := s.pn, s.skipped, s.peer;
    }

    /** Advances the sending ratchet with the key pair drawn from `seed`. */
    method RotateRatchetOnSend(seed: nat) returns (r: Result<(), Error>)
      modifies this
      ensures RotateOnSend(old(Value()), seed) ==
              if r.Ok? then Ok(Value()) else Err(r.error)
      ensures r.Err? ==> Value() == old(Value())
    {
      if remoteRatchet == ZERO_POINT {
        return Err(ErrInvalidRemoteKey);
      }
      var kp := GenerateX25519KeyPair(seed);
      var dh := X25519(kp.priv, remoteRatchet);
      if dh.Err? {
        return Err(dh.error);
      }
      var chain := ChainOut(rootKey, dh.value);
      rootKey := RootOut(rootKey, dh.value);
      pn := sendChain.index;
      sendChain := Chain(chain, 0);
      ratchetPrivate := kp.priv;
      ratchetPublic := kp.pub;
      return Ok(());
    }

    method RotateRatchetOnRecv(header: Header) returns (r: Result<(), Error>)
      modifies this
      ensures RotateOnRecv(old(Value()), header) ==
              if r.Ok? then Ok(Value()) else Err(r.error)
      ensures r.Err? ==> Value() == old(Value())
    {
      if header.dhPublic == remoteRatchet {
        return Ok(());
      }
      var dh := X25519(ratchetPrivate, header.dhPublic);
      if dh.Err? {
        return Err(dh.error);
      }
      var chain := ChainOut(rootKey, dh.value);
      rootKey := RootOut(rootKey, dh.value);
      remoteRatchet := header.dhPublic;
      recvChain := Chain(chain, 0);
      sendChain := Chain(Zero, 0);
      pn := header.pn;
      return Ok(());
    }

    method Encrypt(plaintext: Bytes, seed: nat) returns (r: Result<(Ciphertext, Header), Error>)
      modifies this
      ensures RatchetSpec.Encrypt(old(Value()), plaintext, seed) ==
              if r.Ok? then Ok(Encrypted(Value(), r.value.0, r.value.1)) else Err(r.error)
      ensures r.Err? ==> Value() == old(Value())
    {
      if sendChain.key == Zero {
        var rotated := RotateRatchetOnSend(seed);
        if rotated.Err? {
          return Err(rotated.error);
        }
      }
      var mk := Msg(sendChain.key);
      var n := sendChain.index;
      sendChain := Chain(Next(sendChain.key), Inc(n));
      var header := Header(ratchetPublic, pn, n, NonceOf(mk));
      return Ok((Seal(mk, AssociatedDataOf(header), plaintext), header));
    }

    /** Deletes an arbitrary entry when the cache is full, and reports it as `victim`. */
    method StoreSkippedKey(pub: Point, index: uint32, key: Key) returns (ghost victim: Option<SkipId>)
      modifies this`skipped
      ensures LegalVictim(old(skipped), victim)
      ensures skipped == Store(old(skipped), SkipId(pub, index), key, victim)
    {
      SizeIsCardinality(skipped.Keys);
      victim := None;
      if |skipped| >= MAX_SKIPPED {
        var k :| k in skipped;
        victim := Some(k);
        skipped := skipped - {k};
      }
      skipped := skipped[SkipId(pub, index) := key];
    }

    method ConsumeSkipped(header: Header) returns (r: Option<Key>)
      modifies this`skipped
      ensures var id := SkipId(header.dhPublic, header.n);
              if id in old(skipped)
              then r == Some(old(skipped)[id]) && skipped == old(skipped) - {id}
              else r == None && skipped == old(skipped)
    {
      var name := SkipId(header.dhPublic, header.n);
      if name in skipped {
        r := Some(skipped[name]);
        skipped := skipped - {name};
      } else {
        r := None;
      }
    }

    /** `evictions` lists what each store of the call evicted, in order. */
    method Decrypt(ciphertext: Ciphertext, header: Header)
      returns (r: Result<Bytes, Error>, ghost evictions: Evictions)
      modifies this
      ensures (Value(), r) == RatchetSpec.Decrypt(old(Value()), ciphertext, header, evictions)
      ensures LegalEvictions(old(Value()), header, evictions)
    {
      evictions := [];
      var stored := ConsumeSkipped(header);
      if stored.Some? {
        r := Open(stored.value, AssociatedDataOf(header), ciphertext);
        return;
      }
      var rotated := RotateRatchetOnRecv(header);
      if rotated.Err? {
        return Err(rotated.error), [];
      }
      if header.n < recvChain.index {
        return Err(ErrDuplicateMessage), [];
      }
      ghost var start := Value();
      while recvChain.index < header.n
        invariant start.recv.index <= recvChain.index <= header.n
        invariant |evictions| == recvChain.index - start.recv.index
        invariant Value() == Skip(start, |evictions|, evictions)
        invariant LegalVictims(start.skipped, start.remote, start.recv.key, start.recv.index, |evictions|, evictions)
        decreases header.n - recvChain.index
      {
        var mk := Msg(recvChain.key);
        ghost var victim := StoreSkippedKey(remoteRatchet, recvChain.index, mk);
        recvChain := Chain(Next(recvChain.key), recvChain.index + 1);
        StoreManyPrefix(start.skipped, start.remote, start.recv.key, start.recv.index, |evictions|, evictions,
                        [victim]);
        evictions := evictions + [victim];
      }
      var mk := Msg(recvChain.key);
      recvChain := Chain(Next(recvChain.key), Inc(recvChain.index));
      r := Open(mk, AssociatedDataOf(header), ciphertext);
    }
  }
}
