/** What a message of an older chain does to a session that did not store its key. */
module LateMessages {
  import opened Crypto
  import opened RatchetSpec
  import opened TwoParty
  import opened ChainKeys
  import opened SessionRuns

  /** One turn of the root chain. */
  datatype Turn = Turn(root: Key, dh: Shared)

  /** The key was derived through this turn. */
  predicate Descends(k: Key, turn: Turn) {
    match k
    case RootOut(root, dh) => Turn(root, dh) == turn || Descends(root, turn)
    case ChainOut(root, dh) => Turn(root, dh) == turn || Descends(root, turn)
    case Next(chain) => Descends(chain, turn)
    case Msg(chain) => Descends(chain, turn)
    case _ => false
  }

  lemma {:induction false} StepsDescend(c: Key, n: nat, turn: Turn)
    ensures Descends(Iter(c, n), turn) == Descends(c, turn)
  {
    if n > 0 {
      StepsDescend(c, n - 1, turn);
    }
  }

  // A session that took a turn nobody else takes

  /** Everything the session can derive comes from the strange turn; only what was stored before
      the turn, and is still there, does not. */
  ghost predicate Estranged(u: Session, strange: Turn, old_: map<SkipId, Key>) {
    && Descends(u.root, strange)
    && Descends(u.recv.key, strange)
    && forall id <- u.skipped :: (id in old_ && u.skipped[id] == old_[id]) || Descends(u.skipped[id], strange)
  }

  /** The entries after storing: the passed names hold the chain's own keys, all others what they held. */
  lemma {:induction false} StoredKeys(m: map<SkipId, Key>, pub: Point, ck: Key, from: nat, n: nat, ev: Evictions,
                                      id: SkipId)
    requires from + n < TWO_32 && id in StoreMany(m, pub, ck, from, n, ev)
    ensures var key := StoreMany(m, pub, ck, from, n, ev)[id];
      if id.pub == pub && from <= id.index < from + n then key == Msg(Iter(ck, id.index - from))
      else id in m && key == m[id]
  {
    if n > 0 && id in StoreMany(m, pub, ck, from, n - 1, ev) {
      StoredKeys(m, pub, ck, from, n - 1, ev, id);
    }
  }

  lemma SkippingStaysEstranged(u: Session, n: nat, ev: Evictions, strange: Turn, old_: map<SkipId, Key>)
    requires Estranged(u, strange, old_) && u.recv.index + n < TWO_32
    ensures Estranged(Skip(u, n, ev), strange, old_)
  {
    hide StoreMany;
    StepsDescend(u.recv.key, n, strange);
    var t := Skip(u, n, ev);
    forall id <- t.skipped
      ensures (id in old_ && t.skipped[id] == old_[id]) || Descends(t.skipped[id], strange)
    {
      StoredKeys(u.skipped, u.remote, u.recv.key, u.recv.index, n, ev, id);
      if id.pub == u.remote && u.recv.index <= id.index < u.recv.index + n {
        StepsDescend(u.recv.key, id.index - u.recv.index, strange);
      }
    }
  }

  /** Whatever is received, the key chosen is an old stored one or descends from the strange turn. */
  lemma ReceivingStaysEstranged(u: Session, h: Header, ev: Evictions, strange: Turn, old_: map<SkipId, Key>)
    requires Estranged(u, strange, old_)
    ensures var (t, k) := ReceiveKey(u, h, ev);
      && Estranged(t, strange, old_)
      && (IdOf(h) !in u.skipped && k.Ok? ==> Descends(k.value, strange))
      && (IdOf(h) in u.skipped ==> k == Ok(u.skipped[IdOf(h)]))
  {
    hide Skip;
    if IdOf(h) !in u.skipped && RotateOnRecv(u, h).Ok? {
      var r := RotateOnRecv(u, h).value;
      if h.n >= r.recv.index {
        SkippingStaysEstranged(r, h.n - r.recv.index, ev, strange, old_);
      }
    }
  }

  lemma {:induction false} RunStaysEstranged(u: Session, ops: seq<Op>, strange: Turn, old_: map<SkipId, Key>)
    requires Estranged(u, strange, old_)
    ensures Estranged(Run(u, ops), strange, old_)
    decreases |ops|
  {
    if ops != [] {
      if ops[0].DoDecrypt? {
        ReceivingStaysEstranged(u, ops[0].header, ops[0].ev, strange, old_);
      }
      RunStaysEstranged(Step(u, ops[0]).0, ops[1..], strange, old_);
    }
  }

  /** An estranged session opens a message of another line exactly when it still holds its key. */
  lemma EstrangedOpensOnlyStored(u: Session, strange: Turn, old_: map<SkipId, Key>, mk: Key, h: Header,
                                 plaintext: Bytes, ev: Evictions)
    requires Estranged(u, strange, old_) && !Descends(mk, strange)
    ensures var r := Decrypt(u, Seal(mk, AssociatedDataOf(h), plaintext), h, ev).1;
      if IdOf(h) in u.skipped && u.skipped[IdOf(h)] == mk
      then r == Ok(plaintext) && IdOf(h) in old_ && old_[IdOf(h)] == mk
      else r.Err?
  {
    ReceivingStaysEstranged(u, h, ev, strange, old_);
  }

  // The peer stays on its own line

  /** The peer can never take the strange turn, which needs one of two scalars. */
  ghost predicate Untainted(v: Session, strange: Turn) {
    && !Descends(v.root, strange)
    && !Descends(v.send.key, strange)
    && v.priv != strange.dh.lo && v.priv != strange.dh.hi
  }

  predicate SeedsAvoid(ops: seq<Op>, dh: Shared) {
    forall op <- ops :: op.DoEncrypt? ==> op.seed != dh.lo && op.seed != dh.hi
  }

  lemma {:induction false} RunStaysUntainted(v: Session, ops: seq<Op>, strange: Turn)
    requires Untainted(v, strange) && SeedsAvoid(ops, strange.dh)
    ensures Untainted(Run(v, ops), strange)
    decreases |ops|
  {
    if ops != [] {
      StepStaysUntainted(v, ops[0], strange);
      RunStaysUntainted(Step(v, ops[0]).0, ops[1..], strange);
    }
  }

  lemma StepStaysUntainted(v: Session, op: Op, strange: Turn)
    requires Untainted(v, strange) && SeedsAvoid([op], strange.dh)
    ensures Untainted(Step(v, op).0, strange)
    ensures op.DoEncrypt? && Step(v, op).1.Some? ==> !Descends(Step(v, op).1.value, strange)
  {
    assert op in [op];
  }

  // The late delivery

  /** The message is of an older chain than the current one, and its key is not stored. */
  ghost predicate Late(party: Party, h: Header) {
    IdOf(h) !in party.sess.skipped && h.dhPublic in party.view.seen && h.dhPublic != party.sess.remote
  }

  /** The turn that the late message causes. */
  function TurnOf(s: Session, es: seq<Epoch>, g: nat): Turn
    requires g < |es|
  {
    Turn(s.root, Dh(s.priv, es[g].scalar))
  }

  /** Where a late message leaves the ratchet. */
  lemma StateAfterLate(me: Party, p: nat, es: seq<Epoch>, spk: nat, nextSeed: nat, late: Message, ev: Evictions)
    requires EpochsOk(es, spk, nextSeed) && PartyOk(me, p, es, spk, nextSeed) && p < 2 && MessageOk(late, 1 - p, es)
    requires Late(me, late.header)
    ensures var s, t := me.sess, Decrypt(me.sess, late.ciphertext, late.header, ev).0;
      var dh, n := Dh(s.priv, es[late.epoch].scalar), late.header.n;
      && late.epoch < RecvEpoch(me.gen, p)
      && t.root == RootOut(s.root, dh) && t.remote == late.header.dhPublic
      && t.recv == Chain(Iter(ChainOut(s.root, dh), n + 1), n + 1)
      && t.skipped == StoreMany(s.skipped, late.header.dhPublic, ChainOut(s.root, dh), 0, n, ev)
  {
  }

  lemma LateEstranges(me: Party, p: nat, es: seq<Epoch>, spk: nat, nextSeed: nat, late: Message, ev: Evictions)
    requires EpochsOk(es, spk, nextSeed) && PartyOk(me, p, es, spk, nextSeed) && p < 2 && MessageOk(late, 1 - p, es)
    requires Late(me, late.header)
    ensures Estranged(Decrypt(me.sess, late.ciphertext, late.header, ev).0, TurnOf(me.sess, es, late.epoch),
                      me.sess.skipped)
  {
    StateAfterLate(me, p, es, spk, nextSeed, late, ev);
    hide StoreMany, PartyOk, EpochsOk;
    var turn, n := TurnOf(me.sess, es, late.epoch), late.header.n;
    var chain := ChainOut(turn.root, turn.dh);
    StepsDescend(chain, n + 1, turn);
    var t := Decrypt(me.sess, late.ciphertext, late.header, ev).0;
    hide Decrypt;
    forall id <- t.skipped
      ensures (id in me.sess.skipped && t.skipped[id] == me.sess.skipped[id]) || Descends(t.skipped[id], turn)
    {
      StoredKeys(me.sess.skipped, late.header.dhPublic, chain, 0, n, ev, id);
      if id.pub == late.header.dhPublic && id.index < n {
        StepsDescend(chain, id.index, turn);
      }
    }
  }

  /** No epoch up to now takes a turn from the root of epoch `gen` but the one that follows it. */
  ghost predicate OffTheLine(turn: Turn, es: seq<Epoch>, gen: nat) {
    && gen < |es| <= gen + 2
    && turn.root == es[gen].root
    && (gen + 1 < |es| ==> turn.dh != Dh(es[gen + 1].scalar, es[gen].scalar))
  }

  lemma {:induction false} EpochsDoNotDescend(es: seq<Epoch>, spk: nat, nextSeed: nat, g: nat, gen: nat, turn: Turn)
    requires EpochsOk(es, spk, nextSeed) && g < |es| && OffTheLine(turn, es, gen)
    ensures !Descends(es[g].root, turn) && !Descends(es[g].chain, turn)
  {
    if g > 0 {
      assert Linked(es, g);
      RootsDiffer(es, spk, nextSeed, g - 1);
      RootsDiffer(es, spk, nextSeed, gen);
      EpochsDoNotDescend(es, spk, nextSeed, g - 1, gen, turn);
    }
  }

  lemma LateTurnIsOffTheLine(me: Party, p: nat, es: seq<Epoch>, spk: nat, nextSeed: nat, late: Message)
    requires EpochsOk(es, spk, nextSeed) && PartyOk(me, p, es, spk, nextSeed) && p < 2 && InStep(me.gen, p, |es|)
    requires MessageOk(late, 1 - p, es) && Late(me, late.header)
    ensures OffTheLine(TurnOf(me.sess, es, late.epoch), es, me.gen)
  {
    StateAfterLate(me, p, es, spk, nextSeed, late, []);
    if me.gen + 1 < |es| {
      assert Apart(es, late.epoch, me.gen + 1);
      assert Apart(es, me.gen, me.gen + 1);
    }
  }

  /** The epoch whose scalar a party holds; -1 for the responder's signed prekey. */
  function OwnEpoch(gen: nat, p: nat): int {
    if gen % 2 == p then gen else gen - 1
  }

  function ScalarOf(es: seq<Epoch>, spk: nat, g: int): nat
    requires -1 <= g < |es|
  {
    if g < 0 then spk else es[g].scalar
  }

  lemma ScalarsDiffer(es: seq<Epoch>, spk: nat, nextSeed: nat, g: int, h: int)
    requires EpochsOk(es, spk, nextSeed) && -1 <= g < |es| && -1 <= h < |es| && g != h
    ensures ScalarOf(es, spk, g) != ScalarOf(es, spk, h)
  {
    if g >= 0 && h >= 0 && es[g].scalar == es[h].scalar {
      SameScalarSameEpoch(es, spk, nextSeed, g, h);
    }
  }

  lemma OwnScalar(party: Party, p: nat, es: seq<Epoch>, spk: nat, nextSeed: nat)
    requires PartyOk(party, p, es, spk, nextSeed) && p < 2
    ensures party.gen < |es| && party.sess.priv == ScalarOf(es, spk, OwnEpoch(party.gen, p))
  {
  }

  lemma PeerScalarIsAnother(me: Party, peer: Party, p: nat, es: seq<Epoch>, spk: nat, nextSeed: nat, g: nat)
    requires p < 2 && EpochsOk(es, spk, nextSeed)
    requires PartyOk(me, p, es, spk, nextSeed) && PartyOk(peer, 1 - p, es, spk, nextSeed)
    requires InStep(me.gen, p, |es|) && InStep(peer.gen, 1 - p, |es|)
    requires g % 2 != p && g < RecvEpoch(me.gen, p)
    ensures g < |es| && peer.sess.priv != me.sess.priv && peer.sess.priv != es[g].scalar
  {
    hide PartyOk, EpochsOk, ScalarOf;
    OwnScalar(me, p, es, spk, nextSeed);
    OwnScalar(peer, 1 - p, es, spk, nextSeed);
    var mine, theirs := OwnEpoch(me.gen, p), OwnEpoch(peer.gen, 1 - p);
    assert theirs != mine && theirs != g;
    ScalarsDiffer(es, spk, nextSeed, theirs, mine);
    ScalarsDiffer(es, spk, nextSeed, theirs, g);
    EpochScalar(es, spk, g);
  }

  lemma EpochScalar(es: seq<Epoch>, spk: nat, g: nat)
    requires g < |es|
    ensures ScalarOf(es, spk, g) == es[g].scalar
  {
  }

  lemma PeerIsUntainted(sys: System, spk: nat, p: nat, late: Message)
    requires Inv(sys, spk) && p < 2 && MessageOk(late, 1 - p, sys.epochs) && Late(sys.parties[p], late.header)
    ensures Untainted(sys.parties[1 - p].sess, TurnOf(sys.parties[p].sess, sys.epochs, late.epoch))
  {
    var me, peer, es := sys.parties[p], sys.parties[1 - p], sys.epochs;
    var turn := TurnOf(me.sess, es, late.epoch);
    LateTurnIsOffTheLine(me, p, es, spk, sys.nextSeed, late);
    StateAfterLate(me, p, es, spk, sys.nextSeed, late, []);
    PeerScalarIsAnother(me, peer, p, es, spk, sys.nextSeed, late.epoch);
    hide SkippedOk, SeenOk, ViewOk, MessageOk, EpochsOk;
    EpochsDoNotDescend(es, spk, sys.nextSeed, peer.gen, me.gen, turn);
    StepsDescend(es[peer.gen].chain, peer.sess.send.index, turn);
  }

  /** The cache still holds the message's own key. */
  predicate Holds(u: Session, es: seq<Epoch>, m: Message)
    requires m.epoch < |es|
  {
    IdOf(m.header) in u.skipped && u.skipped[IdOf(m.header)] == KeyOf(es, m.epoch, m.header.n)
  }

  /** The cache holds the key that this ciphertext was sealed under, under the header's name. */
  predicate StoredFor(s: Session, h: Header, ct: Ciphertext) {
    ct.Sealed? && IdOf(h) in s.skipped && CipherKey(s.skipped[IdOf(h)]) == ct.key
  }

  predicate SeedsFrom(ops: seq<Op>, from: nat) {
    forall op <- ops :: op.DoEncrypt? ==> op.seed >= from
  }

  lemma LateOutcome(sys: System, spk: nat, e: Event)
    requires Inv(sys, spk) && Enabled(sys, e) && e.Deliver? && Late(sys.parties[e.p], Delivered(sys, e).header)
    ensures Outcome(sys, e) == Err(ErrDecryptionFailed)
    ensures Estranged(TwoParty.After(sys, e).parties[e.p].sess,
                      TurnOf(sys.parties[e.p].sess, sys.epochs, Delivered(sys, e).epoch), sys.parties[e.p].sess.skipped)
  {
    var me, late := sys.parties[e.p], Delivered(sys, e);
    DeliverLate(me, e.p, sys.epochs, spk, sys.nextSeed, late, e.ev);
    LateEstranges(me, e.p, sys.epochs, spk, sys.nextSeed, late, e.ev);
  }

  /** A message of an older chain whose key is not stored not only fails: the ratchet takes a turn
      that the peer never takes.  From then on, whatever either side does, a message that the peer
      had sent opens exactly while the cache still holds its own key, which must have been
      stored before; and of what the peer sends later, nothing opens but under a key stored before. */
  lemma LateDeliveryCutsOff(sys: System, spk: nat, e: Event, mine: seq<Op>, theirs: seq<Op>, j: nat,
                            plaintext: Bytes, seed: nat, ev: Evictions)
    requires Inv(sys, spk) && Enabled(sys, e) && e.Deliver? && Late(sys.parties[e.p], Delivered(sys, e).header)
    requires SeedsFrom(theirs, sys.nextSeed) && seed >= sys.nextSeed
    ensures Outcome(sys, e) == Err(ErrDecryptionFailed)
    ensures var me, peer := sys.parties[e.p].sess, sys.parties[1 - e.p];
      var u := Run(TwoParty.After(sys, e).parties[e.p].sess, mine);
      j < |peer.sent| ==>
        var m := peer.sent[j];
        if Holds(u, sys.epochs, m)
        then Decrypt(u, m.ciphertext, m.header, ev).1 == Ok(m.plaintext) && Holds(me, sys.epochs, m)
        else Decrypt(u, m.ciphertext, m.header, ev).1.Err?
    ensures var me, peer := sys.parties[e.p].sess, sys.parties[1 - e.p];
      var u := Run(TwoParty.After(sys, e).parties[e.p].sess, mine);
      var sent := Encrypt(Run(peer.sess, theirs), plaintext, seed);
      sent.Ok? && Decrypt(u, sent.value.ciphertext, sent.value.header, ev).1.Ok? ==>
        StoredFor(me, sent.value.header, sent.value.ciphertext)
  {
    var me, peer, es, late := sys.parties[e.p], sys.parties[1 - e.p], sys.epochs, Delivered(sys, e);
    var turn := TurnOf(me.sess, es, late.epoch);
    var t := TwoParty.After(sys, e).parties[e.p].sess;
    hide PartyOk, EpochsOk, MessageOk, Decrypt, Encrypt, Estranged, Untainted, Holds;
    LateOutcome(sys, spk, e);
    RunStaysEstranged(t, mine, turn, me.sess.skipped);
    if j < |peer.sent| {
      OpensWhileHeld(sys, spk, e, Run(t, mine), j, ev);
    }
    PeerIsUntainted(sys, spk, e.p, late);
    TurnScalarsAreOld(sys, spk, e.p, late);
    RunStaysUntainted(peer.sess, theirs, turn);
    LaterKeysAreUntainted(Run(peer.sess, theirs), turn, plaintext, seed);
    var sent := Encrypt(Run(peer.sess, theirs), plaintext, seed);
    if sent.Ok? {
      EstrangedOpensOnlyStored(Run(t, mine), turn, me.sess.skipped, sent.value.ciphertext.key.mk, sent.value.header,
                               plaintext, ev);
    }
  }

  lemma OpensWhileHeld(sys: System, spk: nat, e: Event, u: Session, j: nat, ev: Evictions)
    requires Inv(sys, spk) && Enabled(sys, e) && e.Deliver? && Late(sys.parties[e.p], Delivered(sys, e).header)
    requires j < |sys.parties[1 - e.p].sent|
    requires Estranged(u, TurnOf(sys.parties[e.p].sess, sys.epochs, Delivered(sys, e).epoch),
                       sys.parties[e.p].sess.skipped)
    ensures var m := sys.parties[1 - e.p].sent[j];
      if Holds(u, sys.epochs, m)
      then Decrypt(u, m.ciphertext, m.header, ev).1 == Ok(m.plaintext) && Holds(sys.parties[e.p].sess, sys.epochs, m)
      else Decrypt(u, m.ciphertext, m.header, ev).1.Err?
  {
    var me, es, late, m := sys.parties[e.p], sys.epochs, Delivered(sys, e), sys.parties[1 - e.p].sent[j];
    var turn := TurnOf(me.sess, es, late.epoch);
    LateTurnIsOffTheLine(me, e.p, es, spk, sys.nextSeed, late);
    EpochsDoNotDescend(es, spk, sys.nextSeed, m.epoch, me.gen, turn);
    StepsDescend(es[m.epoch].chain, m.header.n, turn);
    EstrangedOpensOnlyStored(u, turn, me.sess.skipped, KeyOf(es, m.epoch, m.header.n), m.header, m.plaintext, ev);
  }

  lemma TurnScalarsAreOld(sys: System, spk: nat, p: nat, late: Message)
    requires Inv(sys, spk) && p < 2 && MessageOk(late, 1 - p, sys.epochs)
    ensures var dh := TurnOf(sys.parties[p].sess, sys.epochs, late.epoch).dh;
      dh.lo < sys.nextSeed && dh.hi < sys.nextSeed
  {
  }

  lemma LaterKeysAreUntainted(v: Session, turn: Turn, plaintext: Bytes, seed: nat)
    requires Untainted(v, turn) && seed != turn.dh.lo && seed != turn.dh.hi
    ensures var sent := Encrypt(v, plaintext, seed);
      sent.Ok? ==>
        var key := sent.value.ciphertext.key.mk;
        !Descends(key, turn) && sent.value.ciphertext == Seal(key, AssociatedDataOf(sent.value.header), plaintext)
  {
  }

  /** What the late call leaves of the cache: under the names it passed, the strange chain's keys;
      under the others, what was there. */
  lemma HeldAfterLate(me: Party, p: nat, es: seq<Epoch>, spk: nat, nextSeed: nat, late: Message, ev: Evictions,
                      m: Message)
    requires EpochsOk(es, spk, nextSeed) && PartyOk(me, p, es, spk, nextSeed) && p < 2 && InStep(me.gen, p, |es|)
    requires MessageOk(late, 1 - p, es) && Late(me, late.header) && MessageOk(m, 1 - p, es)
    ensures var t, id := Decrypt(me.sess, late.ciphertext, late.header, ev).0, IdOf(m.header);
      Holds(t, es, m) <==>
        id in t.skipped && id in me.sess.skipped && (m.epoch != late.epoch || m.header.n >= late.header.n)
  {
    StateAfterLate(me, p, es, spk, nextSeed, late, ev);
    LateTurnIsOffTheLine(me, p, es, spk, nextSeed, late);
    var t := Decrypt(me.sess, late.ciphertext, late.header, ev).0;
    var turn, id := TurnOf(me.sess, es, late.epoch), IdOf(m.header);
    EpochsDoNotDescend(es, spk, nextSeed, m.epoch, me.gen, turn);
    StepsDescend(es[m.epoch].chain, m.header.n, turn);
    StepsDescend(ChainOut(turn.root, turn.dh), m.header.n, turn);
    if es[m.epoch].scalar == es[late.epoch].scalar {
      SameScalarSameEpoch(es, spk, nextSeed, m.epoch, late.epoch);
    }
    hide Decrypt, StoreMany, EpochsOk, SessionOk, SeenOk, ViewOk;
    if id in t.skipped {
      StoredKeys(me.sess.skipped, late.header.dhPublic, ChainOut(turn.root, turn.dh), 0, late.header.n, ev, id);
    }
  }

  lemma RoomKeepsStored(me: Party, p: nat, es: seq<Epoch>, spk: nat, nextSeed: nat, late: Message, ev: Evictions,
                        id: SkipId)
    requires EpochsOk(es, spk, nextSeed) && PartyOk(me, p, es, spk, nextSeed) && p < 2
    requires MessageOk(late, 1 - p, es) && Late(me, late.header)
    requires LegalEvictions(me.sess, late.header, ev) && Size(me.sess.skipped.Keys) + late.header.n <= MAX_SKIPPED
    requires id in me.sess.skipped
    ensures id in Decrypt(me.sess, late.ciphertext, late.header, ev).0.skipped
  {
    StateAfterLate(me, p, es, spk, nextSeed, late, ev);
    var chain := ChainOut(me.sess.root, Dh(me.sess.priv, es[late.epoch].scalar));
    hide StoreMany, LegalVictims, Size, Decrypt;
    RoomMeansNoEviction(me.sess.skipped, late.header.dhPublic, chain, 0, late.header.n, ev);
    StoringWithoutEviction(me.sess.skipped, late.header.dhPublic, chain, 0, late.header.n, ev);
  }

  /** Right after the late delivery the condition reads: the key was stored, it is not one of those
      that the late call stored again under the same names, and the call did not evict it.
      With room in the cache nothing is evicted. */
  lemma AfterLateExactly(sys: System, spk: nat, e: Event, j: nat, ev: Evictions)
    requires Inv(sys, spk) && Enabled(sys, e) && e.Deliver? && Late(sys.parties[e.p], Delivered(sys, e).header)
    requires j < |sys.parties[1 - e.p].sent|
    ensures var s, t := sys.parties[e.p].sess, TwoParty.After(sys, e).parties[e.p].sess;
      var late, m := Delivered(sys, e), sys.parties[1 - e.p].sent[j];
      && (Decrypt(t, m.ciphertext, m.header, ev).1 == Ok(m.plaintext) <==>
            && IdOf(m.header) in s.skipped
            && (m.epoch != late.epoch || m.header.n >= late.header.n)
            && IdOf(m.header) in t.skipped)
      && (Decrypt(t, m.ciphertext, m.header, ev).1 != Ok(m.plaintext) ==> Decrypt(t, m.ciphertext, m.header, ev).1.Err?)
      && (LegalEvictions(s, late.header, e.ev) && Size(s.skipped.Keys) + late.header.n <= MAX_SKIPPED ==>
            (IdOf(m.header) in s.skipped ==> IdOf(m.header) in t.skipped))
  {
    var me, es, late, m := sys.parties[e.p], sys.epochs, Delivered(sys, e), sys.parties[1 - e.p].sent[j];
    LateOutcome(sys, spk, e);
    OpensWhileHeld(sys, spk, e, TwoParty.After(sys, e).parties[e.p].sess, j, ev);
    HeldAfterLate(me, e.p, es, spk, sys.nextSeed, late, e.ev, m);
    hide PartyOk, EpochsOk, Decrypt, Size, LegalEvictions, Holds;
    if LegalEvictions(me.sess, late.header, e.ev) && Size(me.sess.skipped.Keys) + late.header.n <= MAX_SKIPPED
       && IdOf(m.header) in me.sess.skipped {
      RoomKeepsStored(me, e.p, es, spk, sys.nextSeed, late, e.ev, IdOf(m.header));
    }
  }
}
