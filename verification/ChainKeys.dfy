/** Which keys an honest session uses. */
module ChainKeys {
  import opened Crypto
  import opened RatchetSpec
  import opened TwoParty
  import opened TwoPartyRuns

  // The header fields that receiving ignores

  /** The message key depends on the sender key and the index alone: neither the previous chain's
      length nor the nonce of the header plays a part. */
  lemma KeyIgnoresPnAndNonce(s: Session, h: Header, pn: uint32, nonce: Nonce, ev: Evictions)
    ensures ReceiveKey(s, h, ev).1 == ReceiveKey(s, h.(pn := pn, nonce := nonce), ev).1
  {
  }

  /** The reference: the key of message n of the chain that epoch g opened. */
  function KeyOf(es: seq<Epoch>, g: nat, n: nat): Key
    requires g < |es|
  {
    Msg(Iter(es[g].chain, n))
  }

  /** The genuine message that a header with this chain and index belongs to. */
  function Genuine(es: seq<Epoch>, g: nat, n: uint32): Message
    requires g < |es|
  {
    var h := Header(Pub(es[g].scalar), 0, n, NonceOf(KeyOf(es, g, n)));
    Message(g, h, Seal(KeyOf(es, g, n), AssociatedDataOf(h), []), [])
  }

  /** In every state that an honest run reaches, the cache is a refinement of the chains: the
      receiving chain key is the index-fold step of its chain's start, a stored key is the one its
      name says, and Decrypt uses the key of (sender key, index) for every header it can receive. */
  lemma CacheRefinesChains(sys: System, spk: nat, p: nat, h: Header, ev: Evictions, g: nat)
    requires Inv(sys, spk) && p < 2
    requires g < |sys.epochs| && g % 2 != p && h.dhPublic == Pub(sys.epochs[g].scalar) && h.n + 1 < TWO_32
    requires Receivable(sys.parties[p], h)
    ensures ReceiveKey(sys.parties[p].sess, h, ev).1 == Ok(KeyOf(sys.epochs, g, h.n))
    ensures IdOf(h) in sys.parties[p].sess.skipped ==> sys.parties[p].sess.skipped[IdOf(h)] == KeyOf(sys.epochs, g, h.n)
    ensures h.dhPublic == sys.parties[p].sess.remote ==>
      sys.parties[p].sess.recv.key == Iter(sys.epochs[g].chain, sys.parties[p].sess.recv.index)
  {
    var me, es := sys.parties[p], sys.epochs;
    var m := Genuine(es, g, h.n);
    PartyDeliveryExact(me, p, es, spk, sys.nextSeed, m, ev);
    KeyIgnoresPnAndNonce(me.sess, h, m.header.pn, m.header.nonce, ev);
    if h.dhPublic == me.sess.remote && RecvEpoch(me.gen, p) >= 0 {
      SameScalarSameEpoch(es, spk, sys.nextSeed, g, RecvEpoch(me.gen, p));
    }
  }
}
