/** Two sessions, set up by one handshake, exchanging messages over a network that may delay,
    reorder, repeat and lose them.  Party 0 is the initiator, party 1 the responder. */
module TwoParty {
  import opened Crypto
  import opened RatchetSpec
  import SessionRuns

  /** What one ratchet turn produced: the turning party's scalar, the root key, the chain's first key.
      Epochs alternate: even ones are the initiator's, odd ones the responder's. */
  datatype Epoch = Epoch(scalar: nat, root: Key, chain: Key)

  datatype Message = Message(epoch: nat, header: Header, ciphertext: Ciphertext, plaintext: Bytes)

  /** What an observer of the headers delivered to a party knows: the sender key of the newest
      chain, the next index in it, every sender key seen, and the messages overtaken but not delivered. */
  datatype View = View(cur: Point, next: nat, seen: set<Point>, overtaken: set<SkipId>)

  /** `gen` and `epochs` only record history: no step depends on them. */
  datatype Party = Party(sess: Session, view: View, sent: seq<Message>, gen: nat)

  datatype System = System(parties: seq<Party>, nextSeed: nat, epochs: seq<Epoch>)

  datatype Event =
    | Send(p: nat, plaintext: Bytes)
    | Deliver(p: nat, k: nat, ev: Evictions)

  // The view: bookkeeping on headers alone

  function IdOf(h: Header): SkipId {
    SkipId(h.dhPublic, h.n)
  }

  /** The message is overtaken, or ahead in the newest chain, or of a chain not seen before. */
  predicate Accepts(v: View, h: Header) {
    IdOf(h) in v.overtaken || (h.dhPublic == v.cur && h.n >= v.next) || h.dhPublic !in v.seen
  }

  /** The message belongs to the newest chain and was delivered before. */
  predicate Repeats(v: View, h: Header) {
    IdOf(h) !in v.overtaken && h.dhPublic == v.cur && h.n < v.next
  }

  function Between(pub: Point, from: nat, to: uint32): set<SkipId> {
    set i: uint32 | from <= i < to :: SkipId(pub, i)
  }

  function Observe(v: View, h: Header): View {
    if IdOf(h) in v.overtaken then
      v.(overtaken := v.overtaken - {IdOf(h)})
    else if h.dhPublic == v.cur && h.n >= v.next then
      v.(next := h.n + 1, overtaken := v.overtaken + Between(h.dhPublic, v.next, h.n))
    else if h.dhPublic !in v.seen then
      View(h.dhPublic, h.n + 1, v.seen + {h.dhPublic}, v.overtaken + Between(h.dhPublic, 0, h.n))
    else
      v
  }

  // Steps

  predicate WellFormed(sys: System) {
    |sys.parties| == 2
  }

  predicate Enabled(sys: System, e: Event)
    requires WellFormed(sys)
  {
    match e
    case Send(p, _) => p < 2 && sys.parties[p].sess.send.index + 1 < TWO_32
    case Deliver(p, k, _) => p < 2 && k < |sys.parties[1 - p].sent|
  }

  function Delivered(sys: System, e: Event): Message
    requires WellFormed(sys) && Enabled(sys, e) && e.Deliver?
  {
    sys.parties[1 - e.p].sent[e.k]
  }

  function Outcome(sys: System, e: Event): Result<Bytes, Error>
    requires WellFormed(sys) && Enabled(sys, e) && e.Deliver?
  {
    var m := Delivered(sys, e);
    Decrypt(sys.parties[e.p].sess, m.ciphertext, m.header, e.ev).1
  }

  /** The epoch that an Encrypt call opens, if it has to turn the ratchet. */
  function Opened(s: Session, seed: nat): seq<Epoch> {
    if s.send.key != Zero then []
    else
      match RotateOnSend(s, seed)
      case Err(_) => []
      case Ok(t) => [Epoch(seed, t.root, t.send.key)]
  }

  function AfterSend(me: Party, plaintext: Bytes, seed: nat): Party {
    match Encrypt(me.sess, plaintext, seed)
    case Err(_) => me
    case Ok(out) =>
      var gen := me.gen + |Opened(me.sess, seed)|;
      me.(sess := out.next, gen := gen, sent := me.sent + [Message(gen, out.header, out.ciphertext, plaintext)])
  }

  function AfterDelivery(me: Party, m: Message, ev: Evictions): Party {
    var t := Decrypt(me.sess, m.ciphertext, m.header, ev).0;
    me.(sess := t, view := Observe(me.view, m.header), gen := if t.remote == me.sess.remote then me.gen else me.gen + 1)
  }

  function After(sys: System, e: Event): (sys': System)
    requires WellFormed(sys) && Enabled(sys, e)
    ensures WellFormed(sys')
  {
    match e
    case Send(p, plaintext) =>
      var me := sys.parties[p];
      var added := Opened(me.sess, sys.nextSeed);
      System(sys.parties[p := AfterSend(me, plaintext, sys.nextSeed)], sys.nextSeed + |added|, sys.epochs + added)
    case Deliver(p, k, ev) =>
      sys.(parties := sys.parties[p := AfterDelivery(sys.parties[p], Delivered(sys, e), ev)])
  }

  // The invariant

  /** Epoch h follows from epoch h - 1 by one step of the root chain. */
  ghost predicate Linked(es: seq<Epoch>, h: nat)
    requires 0 < h < |es|
  {
    var dh := Dh(es[h].scalar, es[h - 1].scalar);
    es[h].root == RootOut(es[h - 1].root, dh) && es[h].chain == ChainOut(es[h - 1].root, dh)
  }

  ghost predicate Apart(es: seq<Epoch>, g: nat, h: nat)
    requires g < |es| && h < |es|
  {
    es[g].scalar != es[h].scalar
  }

  ghost predicate EpochsOk(es: seq<Epoch>, spk: nat, nextSeed: nat) {
    && |es| > 0
    && spk < nextSeed
    && es[0].root.X3Root?
    && es[0].chain == X3Chain(es[0].root.secret)
    && (forall h :: 0 < h < |es| ==> Linked(es, h))
    && (forall g :: 0 <= g < |es| ==> es[g].scalar < nextSeed && es[g].scalar != spk)
    && (forall g, h :: 0 <= g < h < |es| ==> Apart(es, g, h))
  }

  /** The epoch of the chain a party at `gen` receives on; -1 before the initiator's first. */
  function RecvEpoch(gen: nat, p: nat): int {
    if gen % 2 == p then gen - 1 else gen
  }

  /** A session of party p that has followed the first `gen` turns. */
  ghost predicate SessionOk(s: Session, p: nat, gen: nat, es: seq<Epoch>, spk: nat) {
    && gen < |es|
    && s.root == es[gen].root
    && s.pub == Pub(s.priv)
    && (if gen % 2 == p
        then s.priv == es[gen].scalar && s.send.key == Iter(es[gen].chain, s.send.index) && s.pn == 0
        else s.priv == (if gen == 0 then spk else es[gen - 1].scalar) && s.send == Chain(Zero, 0))
    && var r := RecvEpoch(gen, p);
       if r < 0
       then s.remote == Pub(spk) && s.recv == Chain(Zero, 0)
       else s.remote == Pub(es[r].scalar) && s.recv.key == Iter(es[r].chain, s.recv.index)
  }

  /** Every stored key is the key of the message that its name says. */
  ghost predicate SkippedOk(m: map<SkipId, Key>, es: seq<Epoch>) {
    forall g, id :: 0 <= g < |es| && id in m && id.pub == Pub(es[g].scalar) ==>
      m[id] == Msg(Iter(es[g].chain, id.index))
  }

  ghost predicate SeenOk(seen: set<Point>, p: nat, gen: nat, es: seq<Epoch>, nextSeed: nat) {
    && (forall x <- seen :: x.Pub? && x.scalar < nextSeed)
    && forall g :: 0 <= g < |es| ==> (Pub(es[g].scalar) in seen <==> g % 2 != p && g <= RecvEpoch(gen, p))
  }

  ghost predicate MessageOk(m: Message, p: nat, es: seq<Epoch>) {
    && m.epoch < |es|
    && m.epoch % 2 == p
    && m.header.n + 1 < TWO_32
    && var mk := Msg(Iter(es[m.epoch].chain, m.header.n));
       && m.header == Header(Pub(es[m.epoch].scalar), 0, m.header.n, NonceOf(mk))
       && m.ciphertext == Seal(mk, AssociatedDataOf(m.header), m.plaintext)
  }

  /** The view agrees with the session and covers its cache. */
  ghost predicate ViewOk(v: View, s: Session) {
    && v.cur == s.remote
    && v.cur in v.seen
    && v.next == s.recv.index
    && s.skipped.Keys <= v.overtaken
    && (forall id <- v.overtaken :: id.pub in v.seen && (id.pub == v.cur ==> id.index < v.next))
  }

  ghost predicate PartyOk(party: Party, p: nat, es: seq<Epoch>, spk: nat, nextSeed: nat) {
    && SessionOk(party.sess, p, party.gen, es, spk)
    && SkippedOk(party.sess.skipped, es)
    && SeenOk(party.view.seen, p, party.gen, es, nextSeed)
    && ViewOk(party.view, party.sess)
    && (forall k :: 0 <= k < |party.sent| ==> MessageOk(party.sent[k], p, es))
  }

  /** Each party has followed every turn, or every turn but the last one, which is then the other's. */
  predicate InStep(gen: nat, p: nat, turns: nat) {
    gen + 1 == turns || (gen + 2 == turns && (turns - 1) % 2 != p)
  }

  ghost predicate HalfOk(sys: System, p: nat, spk: nat)
    requires WellFormed(sys) && p < 2
  {
    && PartyOk(sys.parties[p], p, sys.epochs, spk, sys.nextSeed)
    && InStep(sys.parties[p].gen, p, |sys.epochs|)
  }

  ghost predicate Inv(sys: System, spk: nat) {
    && WellFormed(sys)
    && EpochsOk(sys.epochs, spk, sys.nextSeed)
    && HalfOk(sys, 0, spk)
    && HalfOk(sys, 1, spk)
  }

  // Sending

  lemma ExtendingEpochs(es: seq<Epoch>, spk: nat, nextSeed: nat, e: Epoch)
    requires EpochsOk(es, spk, nextSeed)
    requires e.scalar == nextSeed && Linked(es + [e], |es|)
    ensures EpochsOk(es + [e], spk, nextSeed + 1)
  {
    forall h | 0 < h <= |es| ensures Linked(es + [e], h) {
      assert h < |es| ==> Linked(es, h);
    }
    forall g, h | 0 <= g < h <= |es| ensures Apart(es + [e], g, h) {
      assert h < |es| ==> Apart(es, g, h);
    }
  }

  lemma PartyAfterNewEpoch(party: Party, p: nat, es: seq<Epoch>, spk: nat, nextSeed: nat, e: Epoch)
    requires EpochsOk(es, spk, nextSeed) && PartyOk(party, p, es, spk, nextSeed)
    requires e.scalar == nextSeed
    ensures PartyOk(party, p, es + [e], spk, nextSeed + 1)
  {
  }

  lemma ChainIsOpen(es: seq<Epoch>, spk: nat, nextSeed: nat, g: nat, n: nat)
    requires EpochsOk(es, spk, nextSeed) && g < |es|
    ensures Iter(es[g].chain, n) != Zero
  {
    assert g > 0 ==> Linked(es, g);
  }

  /** Sealing on an open chain. */
  lemma SealingKeepsParty(me: Party, p: nat, es: seq<Epoch>, spk: nat, nextSeed: nat, plaintext: Bytes)
    requires EpochsOk(es, spk, nextSeed) && PartyOk(me, p, es, spk, nextSeed)
    requires me.gen % 2 == p && me.sess.send.index + 1 < TWO_32
    ensures Opened(me.sess, nextSeed) == []
    ensures PartyOk(AfterSend(me, plaintext, nextSeed), p, es, spk, nextSeed)
  {
    ChainIsOpen(es, spk, nextSeed, me.gen, me.sess.send.index);
    var out := Encrypt(me.sess, plaintext, nextSeed).value;
    assert MessageOk(Message(me.gen, out.header, out.ciphertext, plaintext), p, es);
  }

  /** A turn: a party that has just received opens the next epoch. */
  lemma TurningKeepsParty(me: Party, p: nat, es: seq<Epoch>, spk: nat, nextSeed: nat)
    requires EpochsOk(es, spk, nextSeed) && PartyOk(me, p, es, spk, nextSeed)
    requires me.gen % 2 != p < 2 && me.gen + 1 == |es|
    ensures var t := RotateOnSend(me.sess, nextSeed);
      && t.Ok?
      && var e := Epoch(nextSeed, t.value.root, t.value.send.key);
         && Opened(me.sess, nextSeed) == [e]
         && EpochsOk(es + [e], spk, nextSeed + 1)
         && PartyOk(me.(sess := t.value, gen := me.gen + 1), p, es + [e], spk, nextSeed + 1)
  {
    var t := RotateOnSend(me.sess, nextSeed).value;
    var e := Epoch(nextSeed, t.root, t.send.key);
    ExtendingEpochs(es, spk, nextSeed, e);
    PartyAfterNewEpoch(me, p, es, spk, nextSeed, e);
  }

  lemma TurningAndSealing(me: Party, p: nat, es: seq<Epoch>, spk: nat, nextSeed: nat, plaintext: Bytes)
    requires EpochsOk(es, spk, nextSeed) && PartyOk(me, p, es, spk, nextSeed)
    requires me.gen % 2 != p < 2 && me.gen + 1 == |es|
    ensures PartyOk(AfterSend(me, plaintext, nextSeed), p, es + Opened(me.sess, nextSeed), spk, nextSeed + 1)
  {
  }

  /** A party opens an epoch exactly when it has received since it last sent. */
  lemma OpensAfterReceiving(me: Party, p: nat, es: seq<Epoch>, spk: nat, nextSeed: nat, plaintext: Bytes)
    requires EpochsOk(es, spk, nextSeed) && PartyOk(me, p, es, spk, nextSeed)
    requires p < 2 && InStep(me.gen, p, |es|)
    ensures var added := Opened(me.sess, nextSeed);
      && |added| == (if me.gen % 2 == p then 0 else 1)
      && (added != [] ==> me.gen + 1 == |es| && added[0].scalar == nextSeed)
      && AfterSend(me, plaintext, nextSeed).gen == me.gen + |added|
      && Encrypt(me.sess, plaintext, nextSeed).Ok?
  {
    ChainIsOpen(es, spk, nextSeed, me.gen, me.sess.send.index);
  }

  lemma SenderAfterSend(sys: System, p: nat, plaintext: Bytes, spk: nat)
    requires Inv(sys, spk) && Enabled(sys, Send(p, plaintext))
    ensures HalfOk(After(sys, Send(p, plaintext)), p, spk)
  {
    hide PartyOk, EpochsOk;
    var me, es := sys.parties[p], sys.epochs;
    OpensAfterReceiving(me, p, es, spk, sys.nextSeed, plaintext);
    if me.gen % 2 == p {
      SealingKeepsParty(me, p, es, spk, sys.nextSeed, plaintext);
      assert es + [] == es;
    } else {
      TurningAndSealing(me, p, es, spk, sys.nextSeed, plaintext);
    }
  }

  lemma EpochsAfterSend(sys: System, p: nat, plaintext: Bytes, spk: nat)
    requires Inv(sys, spk) && Enabled(sys, Send(p, plaintext))
    ensures var sys' := After(sys, Send(p, plaintext)); EpochsOk(sys'.epochs, spk, sys'.nextSeed)
  {
    var me, es := sys.parties[p], sys.epochs;
    OpensAfterReceiving(me, p, es, spk, sys.nextSeed, plaintext);
    if me.gen % 2 == p {
      assert es + [] == es;
    } else {
      TurningKeepsParty(me, p, es, spk, sys.nextSeed);
    }
  }

  lemma PeerAfterSend(sys: System, p: nat, plaintext: Bytes, spk: nat)
    requires WellFormed(sys) && Enabled(sys, Send(p, plaintext))
    requires EpochsOk(sys.epochs, spk, sys.nextSeed) && HalfOk(sys, 1 - p, spk)
    requires var added := Opened(sys.parties[p].sess, sys.nextSeed);
      added == [] || (|added| == 1 && added[0].scalar == sys.nextSeed && |sys.epochs| % 2 == p)
    ensures HalfOk(After(sys, Send(p, plaintext)), 1 - p, spk)
  {
  }

  lemma SendKeepsInv(sys: System, p: nat, plaintext: Bytes, spk: nat)
    requires Inv(sys, spk) && Enabled(sys, Send(p, plaintext))
    ensures Inv(After(sys, Send(p, plaintext)), spk)
  {
    hide PartyOk, EpochsOk;
    EpochsAfterSend(sys, p, plaintext, spk);
    SenderAfterSend(sys, p, plaintext, spk);
    assert HalfOk(After(sys, Send(p, plaintext)), 1 - p, spk) by {
      OpensAfterReceiving(sys.parties[p], p, sys.epochs, spk, sys.nextSeed, plaintext);
      PeerAfterSend(sys, p, plaintext, spk);
    }
  }

  // Receiving

  lemma SameScalarSameEpoch(es: seq<Epoch>, spk: nat, nextSeed: nat, g: nat, h: nat)
    requires EpochsOk(es, spk, nextSeed) && g < |es| && h < |es| && es[g].scalar == es[h].scalar
    ensures g == h
  {
    assert g < h ==> Apart(es, g, h);
    assert h < g ==> Apart(es, h, g);
  }

  lemma {:induction false} StoringKeepsSkippedOk(m: map<SkipId, Key>, es: seq<Epoch>, spk: nat, nextSeed: nat,
                                                 g: nat, from: nat, n: nat, ev: Evictions)
    requires EpochsOk(es, spk, nextSeed) && SkippedOk(m, es)
    requires g < |es| && from + n < TWO_32
    ensures SkippedOk(StoreMany(m, Pub(es[g].scalar), Iter(es[g].chain, from), from, n, ev), es)
  {
    if n > 0 {
      StoringKeepsSkippedOk(m, es, spk, nextSeed, g, from, n - 1, ev);
      IterSum(es[g].chain, from, n - 1);
      forall h | 0 <= h < |es| && es[h].scalar == es[g].scalar ensures h == g {
        SameScalarSameEpoch(es, spk, nextSeed, h, g);
      }
    }
  }

  lemma DeliverStored(me: Party, p: nat, es: seq<Epoch>, spk: nat, nextSeed: nat, m: Message, ev: Evictions)
    requires EpochsOk(es, spk, nextSeed) && PartyOk(me, p, es, spk, nextSeed) && p < 2 && MessageOk(m, 1 - p, es)
    requires IdOf(m.header) in me.sess.skipped
    ensures Decrypt(me.sess, m.ciphertext, m.header, ev).1 == Ok(m.plaintext)
    ensures PartyOk(AfterDelivery(me, m, ev), p, es, spk, nextSeed)
  {
  }

  /** What Decrypt does with a message at or ahead of the receiving chain's index. */
  lemma DecryptAhead(s: Session, chain: Key, m: Message, ev: Evictions)
    requires IdOf(m.header) !in s.skipped
    requires m.header.dhPublic == s.remote && m.header.n >= s.recv.index && m.header.n + 1 < TWO_32
    requires s.recv.key == Iter(chain, s.recv.index)
    requires m.ciphertext == Seal(Msg(Iter(chain, m.header.n)), AssociatedDataOf(m.header), m.plaintext)
    ensures var n := m.header.n;
      Decrypt(s, m.ciphertext, m.header, ev) ==
      (s.(skipped := StoreMany(s.skipped, s.remote, s.recv.key, s.recv.index, n - s.recv.index, ev),
          recv := Chain(Iter(chain, n + 1), n + 1)),
       Ok(m.plaintext))
  {
    IterSum(chain, s.recv.index, m.header.n - s.recv.index);
  }

  lemma ViewAfterAhead(v: View, s: Session, h: Header, skipped: map<SkipId, Key>, ck: Key)
    requires ViewOk(v, s) && h.dhPublic == s.remote && h.n >= s.recv.index && h.n + 1 < TWO_32
    requires skipped.Keys <= s.skipped.Keys + Between(h.dhPublic, s.recv.index, h.n)
    ensures ViewOk(Observe(v, h), s.(skipped := skipped, recv := Chain(ck, h.n + 1)))
    ensures Observe(v, h).seen == v.seen
  {
  }

  lemma DeliverOnChain(me: Party, p: nat, es: seq<Epoch>, spk: nat, nextSeed: nat, m: Message, ev: Evictions)
    requires EpochsOk(es, spk, nextSeed) && PartyOk(me, p, es, spk, nextSeed) && p < 2 && MessageOk(m, 1 - p, es)
    requires m.header.dhPublic == me.sess.remote && m.header.n >= me.sess.recv.index
    ensures Decrypt(me.sess, m.ciphertext, m.header, ev).1 == Ok(m.plaintext)
    ensures PartyOk(AfterDelivery(me, m, ev), p, es, spk, nextSeed)
  {
    hide StoreMany;
    var s, h, r := me.sess, m.header, RecvEpoch(me.gen, p);
    SameScalarSameEpoch(es, spk, nextSeed, m.epoch, r);
    DecryptAhead(s, es[r].chain, m, ev);
    var n := h.n - s.recv.index;
    var skipped := StoreMany(s.skipped, s.remote, s.recv.key, s.recv.index, n, ev);
    StoringKeepsSkippedOk(s.skipped, es, spk, nextSeed, r, s.recv.index, n, ev);
    assert skipped.Keys <= s.skipped.Keys + Between(h.dhPublic, s.recv.index, h.n) by {
      SessionRuns.StoresOnlyPassed(s.skipped, s.remote, s.recv.key, s.recv.index, n, ev);
    }
    ViewAfterAhead(me.view, s, h, skipped, Iter(es[r].chain, h.n + 1));
  }

  /** Following the peer's turn: the new remote key is that of the very next epoch. */
  lemma FollowingKeepsParty(me: Party, p: nat, es: seq<Epoch>, spk: nat, nextSeed: nat, m: Message)
    requires EpochsOk(es, spk, nextSeed) && PartyOk(me, p, es, spk, nextSeed) && p < 2 && MessageOk(m, 1 - p, es)
    requires InStep(me.gen, p, |es|) && m.header.dhPublic !in me.view.seen
    ensures m.epoch == me.gen + 1 && me.gen % 2 == p
    ensures m.header.dhPublic != me.sess.remote
    ensures var t, dhPublic := RotateOnRecv(me.sess, m.header), m.header.dhPublic;
      && t.Ok?
      && PartyOk(me.(sess := t.value, view := View(dhPublic, 0, me.view.seen + {dhPublic}, me.view.overtaken),
                     gen := me.gen + 1),
                 p, es, spk, nextSeed)
  {
    assert Linked(es, me.gen + 1);
    forall h | 0 <= h < |es| && es[h].scalar == es[m.epoch].scalar ensures h == m.epoch {
      SameScalarSameEpoch(es, spk, nextSeed, h, m.epoch);
    }
  }

  lemma DeliveryFollowsFirst(me: Party, t: Session, m: Message, ev: Evictions)
    requires IdOf(m.header) !in me.sess.skipped && IdOf(m.header) !in me.view.overtaken
    requires m.header.dhPublic !in me.view.seen && m.header.dhPublic !in {me.sess.remote, me.view.cur}
    requires RotateOnRecv(me.sess, m.header) == Ok(t)
    ensures var h := m.header;
      var me' := me.(sess := t, view := View(h.dhPublic, 0, me.view.seen + {h.dhPublic}, me.view.overtaken),
                     gen := me.gen + 1);
      && Decrypt(me.sess, m.ciphertext, h, ev) == Decrypt(t, m.ciphertext, h, ev)
      && Observe(me.view, h) == Observe(me'.view, h)
      && AfterDelivery(me, m, ev) == AfterDelivery(me', m, ev)
  {
  }

  lemma DeliverNextChain(me: Party, p: nat, es: seq<Epoch>, spk: nat, nextSeed: nat, m: Message, ev: Evictions)
    requires EpochsOk(es, spk, nextSeed) && PartyOk(me, p, es, spk, nextSeed) && p < 2 && MessageOk(m, 1 - p, es)
    requires InStep(me.gen, p, |es|) && m.header.dhPublic !in me.view.seen
    ensures Decrypt(me.sess, m.ciphertext, m.header, ev).1 == Ok(m.plaintext)
    ensures PartyOk(AfterDelivery(me, m, ev), p, es, spk, nextSeed)
    ensures AfterDelivery(me, m, ev).gen == me.gen + 1 == m.epoch
  {
    FollowingKeepsParty(me, p, es, spk, nextSeed, m);
    var t, dhPublic := RotateOnRecv(me.sess, m.header).value, m.header.dhPublic;
    var me' := me.(sess := t, view := View(dhPublic, 0, me.view.seen + {dhPublic}, me.view.overtaken),
                   gen := me.gen + 1);
    DeliveryFollowsFirst(me, t, m, ev);
    DeliverOnChain(me', p, es, spk, nextSeed, m, ev);
  }

  lemma {:induction false} RootsDiffer(es: seq<Epoch>, spk: nat, nextSeed: nat, g: nat)
    requires EpochsOk(es, spk, nextSeed) && g < |es|
    ensures SessionRuns.RootDepth(es[g].root) == g
  {
    if g > 0 {
      assert Linked(es, g);
      RootsDiffer(es, spk, nextSeed, g - 1);
    }
  }

  /** A message of an older chain whose key is not stored fails to open. */
  lemma DeliverLate(me: Party, p: nat, es: seq<Epoch>, spk: nat, nextSeed: nat, m: Message, ev: Evictions)
    requires EpochsOk(es, spk, nextSeed) && PartyOk(me, p, es, spk, nextSeed) && p < 2 && MessageOk(m, 1 - p, es)
    requires IdOf(m.header) !in me.sess.skipped
    requires m.header.dhPublic in me.view.seen && m.header.dhPublic != me.sess.remote
    ensures Decrypt(me.sess, m.ciphertext, m.header, ev).1 == Err(ErrDecryptionFailed)
  {
    var dh := Dh(me.sess.priv, es[m.epoch].scalar);
    RootsDiffer(es, spk, nextSeed, me.gen);
    if m.epoch > 0 {
      RootsDiffer(es, spk, nextSeed, m.epoch - 1);
      assert Linked(es, m.epoch);
    }
    assert ChainOut(me.sess.root, dh) != es[m.epoch].chain;
    if Iter(ChainOut(me.sess.root, dh), m.header.n) == Iter(es[m.epoch].chain, m.header.n) {
      IterInjective(ChainOut(me.sess.root, dh), es[m.epoch].chain, m.header.n);
    }
  }
}
