/** Late messages in reachable runs: nothing that the peer sends afterwards opens. */
module LateRuns {
  import opened Crypto
  import opened RatchetSpec
  import opened TwoParty
  import opened TwoPartyRuns
  import opened LateMessages
  import opened SessionRuns

  // Every overtaken message was sent: its index is below that of the sender's chain

  ghost predicate SentAt(party: Party, p: nat, k: nat)
    requires k < |party.sent|
  {
    && party.sent[k].epoch <= party.gen
    && (party.gen % 2 == p && party.sent[k].epoch == party.gen ==> party.sent[k].header.n < party.sess.send.index)
  }

  ghost predicate SentCounted(party: Party, p: nat) {
    forall k :: 0 <= k < |party.sent| ==> SentAt(party, p, k)
  }

  /** While the peer has a sending chain, the overtaken names of that chain are behind its index. */
  ghost predicate OvertakenCounted(me: Party, peer: Party, p: nat) {
    peer.gen % 2 != p ==> forall id <- me.view.overtaken :: id.pub == peer.sess.pub ==> id.index < peer.sess.send.index
  }

  ghost predicate Counted(sys: System)
    requires WellFormed(sys)
  {
    && SentCounted(sys.parties[0], 0) && SentCounted(sys.parties[1], 1)
    && OvertakenCounted(sys.parties[0], sys.parties[1], 0)
    && OvertakenCounted(sys.parties[1], sys.parties[0], 1)
  }

  lemma SendingStaysCounted(me: Party, peer: Party, p: nat, es: seq<Epoch>, spk: nat, nextSeed: nat, plaintext: Bytes)
    requires p < 2 && EpochsOk(es, spk, nextSeed) && PartyOk(me, p, es, spk, nextSeed) && InStep(me.gen, p, |es|)
    requires PartyOk(peer, 1 - p, es, spk, nextSeed) && me.sess.send.index + 1 < TWO_32
    requires SentCounted(me, p) && OvertakenCounted(peer, me, 1 - p)
    ensures SentCounted(AfterSend(me, plaintext, nextSeed), p)
    ensures OvertakenCounted(peer, AfterSend(me, plaintext, nextSeed), 1 - p)
  {
    var me' := AfterSend(me, plaintext, nextSeed);
    OpensAfterReceiving(me, p, es, spk, nextSeed, plaintext);
    forall k | 0 <= k < |me'.sent|
      ensures SentAt(me', p, k)
    {
      assert k < |me.sent| ==> SentAt(me, p, k);
    }
  }

  lemma ObservedNames(v: View, h: Header)
    ensures forall id <- Observe(v, h).overtaken :: id in v.overtaken || (id.pub == h.dhPublic && id.index < h.n)
  {
  }

  lemma ObservingStaysCounted(me: Party, peer: Party, p: nat, es: seq<Epoch>, spk: nat, nextSeed: nat, k: nat,
                              ev: Evictions)
    requires p < 2 && EpochsOk(es, spk, nextSeed) && PartyOk(peer, 1 - p, es, spk, nextSeed) && k < |peer.sent|
    requires SentCounted(peer, 1 - p) && OvertakenCounted(me, peer, p)
    ensures OvertakenCounted(AfterDelivery(me, peer.sent[k], ev), peer, p)
  {
    var m := peer.sent[k];
    assert SentAt(peer, 1 - p, k) && MessageOk(m, 1 - p, es);
    ObservedNames(me.view, m.header);
    if m.header.dhPublic == peer.sess.pub && peer.gen % 2 != p {
      SameScalarSameEpoch(es, spk, nextSeed, m.epoch, peer.gen);
    }
  }

  lemma SendingSideAfterDecrypt(s: Session, ct: Ciphertext, h: Header, ev: Evictions)
    ensures var t := Decrypt(s, ct, h, ev).0; t.remote == s.remote ==> t.send == s.send && t.pub == s.pub
    ensures Decrypt(s, ct, h, ev).0.remote != s.remote ==> h.dhPublic != s.remote && IdOf(h) !in s.skipped
  {
  }

  /** A harmless delivery either leaves the sending side alone or ends the sending chain. */
  lemma SenderAfterDelivery(me: Party, p: nat, es: seq<Epoch>, spk: nat, nextSeed: nat, m: Message, ev: Evictions)
    requires p < 2 && EpochsOk(es, spk, nextSeed) && PartyOk(me, p, es, spk, nextSeed) && InStep(me.gen, p, |es|)
    requires MessageOk(m, 1 - p, es) && (Receivable(me, m.header) || m.header.dhPublic == me.sess.remote)
    ensures var me' := AfterDelivery(me, m, ev);
      && me'.sent == me.sent
      && if me'.gen == me.gen then me'.sess.send == me.sess.send && me'.sess.pub == me.sess.pub
         else me'.gen == me.gen + 1 && me'.gen % 2 != p
  {
    SendingSideAfterDecrypt(me.sess, m.ciphertext, m.header, ev);
    if m.header.dhPublic !in me.view.seen {
      FollowingKeepsParty(me, p, es, spk, nextSeed, m);
    }
  }

  lemma DeliveringStaysCounted(me: Party, peer: Party, p: nat, es: seq<Epoch>, spk: nat, nextSeed: nat, m: Message,
                               ev: Evictions)
    requires p < 2 && EpochsOk(es, spk, nextSeed) && PartyOk(me, p, es, spk, nextSeed) && InStep(me.gen, p, |es|)
    requires MessageOk(m, 1 - p, es) && (Receivable(me, m.header) || m.header.dhPublic == me.sess.remote)
    requires SentCounted(me, p) && OvertakenCounted(peer, me, 1 - p)
    ensures SentCounted(AfterDelivery(me, m, ev), p) && OvertakenCounted(peer, AfterDelivery(me, m, ev), 1 - p)
  {
    SenderAfterDelivery(me, p, es, spk, nextSeed, m, ev);
    hide PartyOk, EpochsOk, MessageOk, Receivable;
    var me' := AfterDelivery(me, m, ev);
    hide AfterDelivery;
    forall k | 0 <= k < |me'.sent|
      ensures SentAt(me', p, k)
    {
      assert SentAt(me, p, k);
    }
  }

  lemma StepStaysCounted(sys: System, spk: nat, e: Event)
    requires Inv(sys, spk) && Enabled(sys, e) && Harmless(sys, e) && Counted(sys)
    ensures Counted(TwoParty.After(sys, e))
  {
    hide PartyOk, EpochsOk, SentCounted, OvertakenCounted, AfterSend, AfterDelivery, Receivable, InStep;
    match e
    case Send(p, plaintext) =>
      var me, peer := sys.parties[p], sys.parties[1 - p];
      SendingStaysCounted(me, peer, p, sys.epochs, spk, sys.nextSeed, plaintext);
      ViewAfterSend(me, peer, p, plaintext, sys.nextSeed);
    case Deliver(p, k, ev) =>
      var me, peer := sys.parties[p], sys.parties[1 - p];
      SentAreGenuine(peer, 1 - p, sys.epochs, spk, sys.nextSeed, k);
      ObservingStaysCounted(me, peer, p, sys.epochs, spk, sys.nextSeed, k, ev);
      DeliveringStaysCounted(me, peer, p, sys.epochs, spk, sys.nextSeed, peer.sent[k], ev);
  }

  lemma ViewAfterSend(me: Party, peer: Party, p: nat, plaintext: Bytes, seed: nat)
    requires OvertakenCounted(me, peer, p)
    ensures OvertakenCounted(AfterSend(me, plaintext, seed), peer, p)
  {
  }

  lemma SentAreGenuine(party: Party, p: nat, es: seq<Epoch>, spk: nat, nextSeed: nat, k: nat)
    requires PartyOk(party, p, es, spk, nextSeed) && k < |party.sent|
    ensures MessageOk(party.sent[k], p, es)
  {
  }

  lemma {:induction false} ExecStaysCounted(sys: System, spk: nat, events: seq<Event>)
    requires Inv(sys, spk) && Faithful(sys, events) && Counted(sys)
    ensures Counted(Exec(sys, events))
    decreases |events|
  {
    if events != [] {
      hide Counted, Harmless, EpochsOk, HalfOk;
      StepKeepsInv(sys, events[0], spk);
      StepStaysCounted(sys, spk, events[0]);
      ExecStaysCounted(TwoParty.After(sys, events[0]), spk, events[1..]);
    }
  }

  // The keys of later messages are not in the cache

  /** The sender is on the chain it had, no earlier than it was, or on one opened since. */
  ghost predicate OnLine(v: Session, was: Session, from: nat) {
    || v.send.key == Zero
    || (v.pub.Pub? && v.pub.scalar >= from)
    || (was.send.key != Zero && v.pub == was.pub && Steps(v.send.key) >= Steps(was.send.key))
  }

  lemma {:induction false} RunStaysOnLine(v: Session, ops: seq<Op>, was: Session, from: nat)
    requires OnLine(v, was, from) && SeedsFrom(ops, from)
    ensures OnLine(Run(v, ops), was, from)
    decreases |ops|
  {
    if ops != [] {
      assert ops[0] in ops;
      StepStaysOnLine(v, ops[0], was, from);
      RunStaysOnLine(Step(v, ops[0]).0, ops[1..], was, from);
    }
  }

  lemma StepStaysOnLine(v: Session, op: Op, was: Session, from: nat)
    requires OnLine(v, was, from) && (op.DoEncrypt? ==> op.seed >= from)
    ensures OnLine(Step(v, op).0, was, from)
  {
  }

  lemma {:induction false} StepsOfIter(c: Key, n: nat)
    ensures Steps(Iter(c, n)) == Steps(c) + n
  {
    if n > 0 {
      StepsOfIter(c, n - 1);
    }
  }

  lemma EpochSteps(es: seq<Epoch>, spk: nat, nextSeed: nat, g: nat, n: nat)
    requires EpochsOk(es, spk, nextSeed) && g < |es|
    ensures Steps(Iter(es[g].chain, n)) == n
  {
    StepsOfIter(es[g].chain, n);
    assert g > 0 ==> Linked(es, g);
  }

  /** A stored name of the peer's sending chain has a key before the peer's position. */
  lemma StoredIsBehind(sys: System, spk: nat, p: nat, id: SkipId)
    requires Inv(sys, spk) && Counted(sys) && p < 2 && id in sys.parties[p].sess.skipped
    ensures id.pub.Pub? && id.pub.scalar < sys.nextSeed
    ensures var was := sys.parties[1 - p].sess;
      was.send.key != Zero && id.pub == was.pub ==>
        sys.parties[p].sess.skipped[id].Msg? && Steps(sys.parties[p].sess.skipped[id].chain) < Steps(was.send.key)
  {
    var me, peer, es := sys.parties[p], sys.parties[1 - p], sys.epochs;
    assert ViewOk(me.view, me.sess) && id in me.view.overtaken;
    assert OvertakenCounted(me, peer, p);
    if peer.sess.send.key != Zero && id.pub == peer.sess.pub {
      assert id.pub == Pub(es[peer.gen].scalar);
      EpochSteps(es, spk, sys.nextSeed, peer.gen, id.index);
      EpochSteps(es, spk, sys.nextSeed, peer.gen, peer.sess.send.index);
    }
  }

  lemma LaterIsNotStored(sys: System, spk: nat, p: nat, v: Session, plaintext: Bytes, seed: nat)
    requires Inv(sys, spk) && Counted(sys) && p < 2 && seed >= sys.nextSeed
    requires OnLine(v, sys.parties[1 - p].sess, sys.nextSeed)
    ensures var sent := Encrypt(v, plaintext, seed);
      sent.Ok? ==> !StoredFor(sys.parties[p].sess, sent.value.header, sent.value.ciphertext)
  {
    var sent := Encrypt(v, plaintext, seed);
    if sent.Ok? {
      var id := IdOf(sent.value.header);
      if id in sys.parties[p].sess.skipped {
        StoredIsBehind(sys, spk, p, id);
      }
    }
  }

  /** Message number j of the peer opens if the cache holds its own key, which then was stored before
      the late delivery, and is refused if not. */
  ghost predicate OpensExactlyWhileHeld(sys: System, p: nat, u: Session, j: nat, ev: Evictions)
    requires WellFormed(sys) && p < 2 && j < |sys.parties[1 - p].sent|
  {
    var m := sys.parties[1 - p].sent[j];
    m.epoch < |sys.epochs| &&
    if Holds(u, sys.epochs, m)
    then Decrypt(u, m.ciphertext, m.header, ev).1 == Ok(m.plaintext) && Holds(sys.parties[p].sess, sys.epochs, m)
    else Decrypt(u, m.ciphertext, m.header, ev).1.Err?
  }

  /** The late message fails.  After the receiver's calls `mine` a message that the peer had sent opens
      exactly while it is held, and what the peer sends after its calls `theirs` is refused. */
  ghost predicate CutOff(sys: System, e: Event, mine: seq<Op>, theirs: seq<Op>, j: nat, plaintext: Bytes, seed: nat,
                         ev: Evictions)
    requires WellFormed(sys) && Enabled(sys, e) && e.Deliver?
  {
    var u := Run(TwoParty.After(sys, e).parties[e.p].sess, mine);
    var sent := Encrypt(Run(sys.parties[1 - e.p].sess, theirs), plaintext, seed);
    && Outcome(sys, e) == Err(ErrDecryptionFailed)
    && (j < |sys.parties[1 - e.p].sent| ==> OpensExactlyWhileHeld(sys, e.p, u, j, ev))
    && (sent.Ok? ==> Decrypt(u, sent.value.ciphertext, sent.value.header, ev).1.Err?)
  }

  lemma SentHaveEpochs(sys: System, spk: nat, p: nat, j: nat)
    requires Inv(sys, spk) && p < 2
    ensures j < |sys.parties[p].sent| ==> sys.parties[p].sent[j].epoch < |sys.epochs|
  {
    if j < |sys.parties[p].sent| {
      SentAreGenuine(sys.parties[p], p, sys.epochs, spk, sys.nextSeed, j);
    }
  }

  lemma LateDeliveryInCounted(sys: System, spk: nat, e: Event, mine: seq<Op>, theirs: seq<Op>, j: nat,
                              plaintext: Bytes, seed: nat, ev: Evictions)
    requires Inv(sys, spk) && Counted(sys)
    requires Enabled(sys, e) && e.Deliver? && Late(sys.parties[e.p], Delivered(sys, e).header)
    requires SeedsFrom(theirs, sys.nextSeed) && seed >= sys.nextSeed
    ensures CutOff(sys, e, mine, theirs, j, plaintext, seed, ev)
  {
    hide PartyOk, EpochsOk, Counted, Decrypt, Encrypt, Holds, StoredFor, Late, HalfOk, MessageOk, Outcome;
    var was := sys.parties[1 - e.p].sess;
    SentHaveEpochs(sys, spk, 1 - e.p, j);
    LateDeliveryCutsOff(sys, spk, e, mine, theirs, j, plaintext, seed, ev);
    RunStaysOnLine(was, theirs, was, sys.nextSeed);
    LaterIsNotStored(sys, spk, e.p, Run(was, theirs), plaintext, seed);
  }

  /** In every run of two honest parties, let a message of an older chain arrive whose key is not
      stored.  It fails to open; a message that the peer had sent opens afterwards exactly while the
      cache still holds its own key; and nothing that the peer sends from then on ever opens,
      whatever both sides do. */
  lemma LateDeliveryEndsIt(a: Session, b: Session, nextSeed: nat, events: seq<Event>, e: Event,
                           mine: seq<Op>, theirs: seq<Op>, j: nat, plaintext: Bytes, seed: nat, ev: Evictions)
    requires Agreed(a, b) && a.priv != b.priv && a.priv < nextSeed && b.priv < nextSeed
    requires Faithful(Start(a, b, nextSeed), events)
    requires var sys := Exec(Start(a, b, nextSeed), events);
      && Enabled(sys, e) && e.Deliver? && Late(sys.parties[e.p], Delivered(sys, e).header)
      && SeedsFrom(theirs, sys.nextSeed) && seed >= sys.nextSeed
    ensures CutOff(Exec(Start(a, b, nextSeed), events), e, mine, theirs, j, plaintext, seed, ev)
  {
    StartSatisfiesInv(a, b, nextSeed);
    StartIsCounted(a, b, nextSeed);
    hide CutOff, Inv, Counted, Late, Start, Agreed;
    ExecKeepsInv(Start(a, b, nextSeed), events, b.priv);
    ExecStaysCounted(Start(a, b, nextSeed), b.priv, events);
    LateDeliveryInCounted(Exec(Start(a, b, nextSeed), events), b.priv, e, mine, theirs, j, plaintext, seed, ev);
  }

  lemma StartIsCounted(a: Session, b: Session, nextSeed: nat)
    ensures Counted(Start(a, b, nextSeed))
  {
  }
}
