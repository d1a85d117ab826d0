/** Deliveries in the order of sending: every message decrypts, and nothing is ever overtaken. */
module Fifo {
  import opened Crypto
  import opened RatchetSpec
  import opened TwoParty
  import opened TwoPartyRuns

  // How a sender numbers its messages

  /** The next message stays on the chain with the next index, or starts a later chain at 0. */
  predicate Succeeds(earlier: Message, later: Message) {
    || (later.epoch == earlier.epoch && later.header.n == earlier.header.n + 1)
    || (later.epoch > earlier.epoch && later.header.n == 0)
  }

  /** What the sender's index will be for its next message, if it does not turn before. */
  function NextIndex(sent: seq<Message>, gen: nat): nat {
    if sent != [] && sent[|sent| - 1].epoch == gen then sent[|sent| - 1].header.n + 1 else 0
  }

  predicate Follows(sent: seq<Message>, j: nat)
    requires 0 < j < |sent|
  {
    Succeeds(sent[j - 1], sent[j])
  }

  ghost predicate Numbered(party: Party, p: nat) {
    && (party.sent != [] ==> party.sent[0].header.n == 0 && party.sent[|party.sent| - 1].epoch <= party.gen)
    && (forall j :: 0 < j < |party.sent| ==> Follows(party.sent, j))
    && (party.gen % 2 == p ==> party.sess.send.index == NextIndex(party.sent, party.gen))
  }

  /** The receiver has taken exactly the first `got` messages of its peer. */
  ghost predicate InOrder(party: Party, p: nat, peerSent: seq<Message>, got: nat) {
    && got <= |peerSent|
    && party.view.overtaken == {}
    && (if got == 0
        then party.view.next == 0 && RecvEpoch(party.gen, p) == (if p == 1 then 0 else -1)
        else && party.view.next == peerSent[got - 1].header.n + 1
             && RecvEpoch(party.gen, p) == peerSent[got - 1].epoch)
  }

  ghost predicate FifoInv(sys: System, got: seq<nat>, spk: nat) {
    && Inv(sys, spk)
    && |got| == 2
    && forall p :: 0 <= p < 2 ==>
         Numbered(sys.parties[p], p) && InOrder(sys.parties[p], p, sys.parties[1 - p].sent, got[p])
  }

  lemma StartIsFifo(a: Session, b: Session, nextSeed: nat)
    requires Agreed(a, b) && a.priv != b.priv && a.priv < nextSeed && b.priv < nextSeed
    ensures FifoInv(Start(a, b, nextSeed), [0, 0], b.priv)
  {
  }

  lemma SendingKeepsNumbered(me: Party, p: nat, es: seq<Epoch>, spk: nat, nextSeed: nat, plaintext: Bytes)
    requires EpochsOk(es, spk, nextSeed) && PartyOk(me, p, es, spk, nextSeed)
    requires p < 2 && InStep(me.gen, p, |es|) && me.sess.send.index + 1 < TWO_32
    requires Numbered(me, p)
    ensures var me' := AfterSend(me, plaintext, nextSeed);
      && Numbered(me', p)
      && |me'.sent| == |me.sent| + 1 && me'.sent[..|me.sent|] == me.sent
      && me'.sent[|me.sent|].plaintext == plaintext
      && me'.view == me.view && RecvEpoch(me'.gen, p) == RecvEpoch(me.gen, p)
  {
    hide EpochsOk, PartyOk;
    OpensAfterReceiving(me, p, es, spk, nextSeed, plaintext);
    if me.gen % 2 != p {
      TurningKeepsParty(me, p, es, spk, nextSeed);
    }
    var me' := AfterSend(me, plaintext, nextSeed);
    forall j | 0 < j < |me'.sent| ensures Follows(me'.sent, j) {
      assert j < |me.sent| ==> Follows(me.sent, j);
    }
  }

  /** The next message in order is receivable: on the current chain at the expected index, or the
      first of a chain not seen before. */
  lemma NextInOrderIsReceivable(me: Party, p: nat, es: seq<Epoch>, spk: nat, nextSeed: nat, peer: Party, got: nat)
    requires EpochsOk(es, spk, nextSeed) && PartyOk(me, p, es, spk, nextSeed) && p < 2
    requires PartyOk(peer, 1 - p, es, spk, nextSeed) && Numbered(peer, 1 - p)
    requires InOrder(me, p, peer.sent, got) && got < |peer.sent|
    ensures var h := peer.sent[got].header;
      || (h.dhPublic == me.view.cur && h.n == me.view.next)
      || (h.dhPublic !in me.view.seen && h.n == 0)
    ensures Receivable(me, peer.sent[got].header)
  {
    var m := peer.sent[got];
    assert MessageOk(m, 1 - p, es);
    if got > 0 {
      assert Follows(peer.sent, got);
    }
  }

  lemma SendChainAfterDecrypt(s: Session, ct: Ciphertext, h: Header, ev: Evictions)
    ensures var t := Decrypt(s, ct, h, ev).0; t.remote == s.remote ==> t.send == s.send
  {
  }

  lemma PositionAfterDelivery(me: Party, p: nat, es: seq<Epoch>, spk: nat, nextSeed: nat, m: Message, ev: Evictions)
    requires EpochsOk(es, spk, nextSeed) && PartyOk(me, p, es, spk, nextSeed) && p < 2 && InStep(me.gen, p, |es|)
    requires MessageOk(m, 1 - p, es) && me.view.overtaken == {}
    requires var h := m.header;
      || (h.dhPublic == me.view.cur && h.n == me.view.next)
      || (h.dhPublic !in me.view.seen && h.n == 0)
    ensures var me' := AfterDelivery(me, m, ev);
      && me'.view.overtaken == {} && me'.view.next == m.header.n + 1
      && RecvEpoch(me'.gen, p) == m.epoch
      && (me'.gen % 2 == p ==> me'.gen == me.gen && me'.sess.send == me.sess.send)
  {
    SendChainAfterDecrypt(me.sess, m.ciphertext, m.header, ev);
    if m.header.dhPublic !in me.view.seen {
      DeliverNextChain(me, p, es, spk, nextSeed, m, ev);
    } else {
      SameScalarSameEpoch(es, spk, nextSeed, m.epoch, RecvEpoch(me.gen, p));
      DeliverOnChain(me, p, es, spk, nextSeed, m, ev);
    }
  }

  lemma DeliveringInOrder(me: Party, p: nat, es: seq<Epoch>, spk: nat, nextSeed: nat, peer: Party, got: nat,
                          ev: Evictions)
    requires EpochsOk(es, spk, nextSeed) && PartyOk(me, p, es, spk, nextSeed) && p < 2 && InStep(me.gen, p, |es|)
    requires PartyOk(peer, 1 - p, es, spk, nextSeed) && Numbered(peer, 1 - p) && Numbered(me, p)
    requires InOrder(me, p, peer.sent, got) && got < |peer.sent|
    ensures var m, me' := peer.sent[got], AfterDelivery(me, peer.sent[got], ev);
      && Decrypt(me.sess, m.ciphertext, m.header, ev).1 == Ok(m.plaintext)
      && InOrder(me', p, peer.sent, got + 1)
      && Numbered(me', p)
      && me'.sent == me.sent
  {
    hide EpochsOk, SessionOk, SkippedOk, SeenOk, ViewOk, Decrypt, Observe, Receivable;
    NextInOrderIsReceivable(me, p, es, spk, nextSeed, peer, got);
    PartyDeliveryExact(me, p, es, spk, nextSeed, peer.sent[got], ev);
    PositionAfterDelivery(me, p, es, spk, nextSeed, peer.sent[got], ev);
  }

  lemma FifoSend(sys: System, p: nat, plaintext: Bytes, got: seq<nat>, spk: nat)
    requires FifoInv(sys, got, spk) && Enabled(sys, Send(p, plaintext))
    ensures FifoInv(After(sys, Send(p, plaintext)), got, spk)
    ensures var sent, sent' := sys.parties[p].sent, After(sys, Send(p, plaintext)).parties[p].sent;
      |sent'| == |sent| + 1 && sent'[..|sent|] == sent && sent'[|sent|].plaintext == plaintext
  {
    hide PartyOk, EpochsOk;
    SendKeepsInv(sys, p, plaintext, spk);
    SendingKeepsNumbered(sys.parties[p], p, sys.epochs, spk, sys.nextSeed, plaintext);
  }

  /** First in, first out: the next message of the peer decrypts to its plaintext. */
  lemma FifoDeliver(sys: System, p: nat, ev: Evictions, got: seq<nat>, spk: nat)
    requires FifoInv(sys, got, spk) && p < 2 && got[p] < |sys.parties[1 - p].sent|
    ensures var e := Deliver(p, got[p], ev);
      && Outcome(sys, e) == Ok(sys.parties[1 - p].sent[got[p]].plaintext)
      && FifoInv(After(sys, e), got[p := got[p] + 1], spk)
      && After(sys, e).parties[p].sent == sys.parties[p].sent
  {
    hide PartyOk, EpochsOk;
    var me, peer := sys.parties[p], sys.parties[1 - p];
    NextInOrderIsReceivable(me, p, sys.epochs, spk, sys.nextSeed, peer, got[p]);
    StepKeepsInv(sys, Deliver(p, got[p], ev), spk);
    DeliveringInOrder(me, p, sys.epochs, spk, sys.nextSeed, peer, got[p], ev);
  }
}
