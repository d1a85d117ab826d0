/** What a ciphertext vouches for, and which calls fail for which reason. */
module Authenticity {
  import opened Crypto
  import opened RatchetSpec
  import opened SessionRuns

  /** What Encrypt sealed opens, in any session and whatever was evicted, only under a header with the
      sender key, the previous length and the index that Encrypt gave it, and gives the plaintext. */
  lemma OpensOnlyUnderItsHeader(sender: Session, plaintext: Bytes, seed: nat, s: Session, h: Header, ev: Evictions)
    requires Encrypt(sender, plaintext, seed).Ok?
    ensures var out := Encrypt(sender, plaintext, seed).value;
      var r := Decrypt(s, out.ciphertext, h, ev).1;
      r.Ok? ==>
        && h.dhPublic == out.header.dhPublic && h.pn == out.header.pn && h.n == out.header.n
        && r.value == plaintext
  {
  }

  /** A call answers a plaintext exactly for its seal under the message key that the header finds, with
      the nonce of that key and the three fields as associated data; any other ciphertext fails to open,
      and the session has moved on all the same. */
  lemma DecryptExactly(s: Session, ct: Ciphertext, h: Header, ev: Evictions, plaintext: Bytes)
    ensures var (found, key) := ReceiveKey(s, h, ev);
      var (t, r) := Decrypt(s, ct, h, ev);
      && t == found
      && (r == Ok(plaintext) <==>
            && key.Ok?
            && ct == Sealed(CipherKey(key.value), NonceOf(key.value), AssociatedData(h.dhPublic, h.pn, h.n), plaintext))
      && (r.Err? ==> r.error == if key.Ok? then ErrDecryptionFailed else key.error)
  {
  }

  /** The header that is authenticated is needed in full: with any of the three fields altered the
      genuine receiver's key does not open the message, and the nonce field is not looked at. */
  lemma AlteredHeaderFails(mk: Key, h: Header, plaintext: Bytes, altered: Header)
    ensures var ct := Seal(mk, AssociatedDataOf(h), plaintext);
      Open(mk, AssociatedDataOf(altered), ct) ==
        if altered.dhPublic == h.dhPublic && altered.pn == h.pn && altered.n == h.n then Ok(plaintext)
        else Err(ErrDecryptionFailed)
  {
  }

  /** Encrypt fails exactly when there is no sending chain and the remote key is unset or refused by
      X25519.  Otherwise the header names the open chain and its index, or a new one at index 0, and the
      nonce used. */
  lemma EncryptExactly(s: Session, plaintext: Bytes, seed: nat)
    ensures var r := Encrypt(s, plaintext, seed);
      && (r == Err(ErrInvalidRemoteKey) <==> s.send.key == Zero && s.remote == LowOrder(0))
      && (r == Err(ErrLowOrderPoint) <==> s.send.key == Zero && s.remote.LowOrder? && s.remote.tag != 0)
      && (r.Ok? <==> s.send.key != Zero || s.remote.Pub?)
      && (r.Ok? ==>
            var h := r.value.header;
            && r.value.ciphertext.Sealed? && r.value.ciphertext.plaintext == plaintext
            && h.nonce == r.value.ciphertext.nonce
            && (s.send.key == Zero ==> h.dhPublic == Pub(seed) && h.n == 0)
            && (s.send.key != Zero ==> h.dhPublic == s.pub && h.n == s.send.index))
  {
  }

  /** A turn of the ratchet, field by field.  Both turns mix the Diffie-Hellman output of the own private
      key and the remote key into the root.  The sending turn draws a new pair, remembers how many messages
      its old chain had, and starts a sending chain; the receiving one adopts the header's key and previous
      length, starts a receiving chain and drops the sending one. */
  lemma TurnsExactly(s: Session, seed: nat, remote: nat, h: Header)
    requires s.remote == Pub(remote) && h.dhPublic.Pub? && h.dhPublic != s.remote
    ensures var dh := if seed <= remote then Shared(seed, remote) else Shared(remote, seed);
      RotateOnSend(s, seed) == Ok(Session(RootOut(s.root, dh), Chain(ChainOut(s.root, dh), 0), s.recv, seed, Pub(seed),
                                          s.remote, s.send.index, s.skipped, s.peer))
    ensures var x := h.dhPublic.scalar;
      var dh := if s.priv <= x then Shared(s.priv, x) else Shared(x, s.priv);
      RotateOnRecv(s, h) == Ok(Session(RootOut(s.root, dh), Chain(Zero, 0), Chain(ChainOut(s.root, dh), 0), s.priv,
                                       s.pub, h.dhPublic, h.pn, s.skipped, s.peer))
  {
  }

  /** A new sender key that X25519 refuses changes nothing, whatever the ciphertext. */
  lemma RefusedSenderKey(s: Session, ct: Ciphertext, h: Header, ev: Evictions)
    requires h.dhPublic.LowOrder? && h.dhPublic != s.remote && SkipId(h.dhPublic, h.n) !in s.skipped
    ensures Decrypt(s, ct, h, ev) == (s, Err(ErrLowOrderPoint))
  {
  }

  /** The keys that a run of one session counts are those that sealed and opened. */
  lemma CountedKeysAreUsed(s: Session, plaintext: Bytes, seed: nat, ct: Ciphertext, h: Header, ev: Evictions)
    ensures var sent, step := Encrypt(s, plaintext, seed), Step(s, DoEncrypt(plaintext, seed));
      && (sent.Ok? <==> step.1.Some?)
      && (sent.Ok? ==> step.0 == sent.value.next && sent.value.ciphertext.Sealed?
                       && sent.value.ciphertext.key == CipherKey(step.1.value))
    ensures var (t, r) := Decrypt(s, ct, h, ev);
      var step := Step(s, DoDecrypt(h, ev));
      && step.0 == t
      && (r.Ok? ==> step.1.Some? && ct.Sealed? && ct.key == CipherKey(step.1.value))
      && (r == Err(ErrDecryptionFailed) ==> step.1.Some?)
  {
  }
}
