/** Theorems about whole runs of two sessions. */
module TwoPartyRuns {
  import opened Crypto
  import opened RatchetSpec
  import opened TwoParty
  import SessionRuns

  // The start: what the handshake leaves behind

  /** The initiator's and the responder's sessions mirror each other. */
  ghost predicate Agreed(a: Session, b: Session) {
    && SessionRuns.IsFresh(a) && SessionRuns.IsFresh(b)
    && a.root == b.root
    && a.send == b.recv == Chain(X3Chain(a.root.secret), 0)
    && a.recv == b.send == Chain(Zero, 0)
    && a.pub == Pub(a.priv) == b.remote
    && b.pub == Pub(b.priv) == a.remote
  }

  function StartParty(s: Session): Party {
    Party(s, View(s.remote, 0, {s.remote}, {}), [], 0)
  }

  function Start(a: Session, b: Session, nextSeed: nat): System {
    System([StartParty(a), StartParty(b)], nextSeed, [Epoch(a.priv, a.root, a.send.key)])
  }

  lemma StartSatisfiesInv(a: Session, b: Session, nextSeed: nat)
    requires Agreed(a, b) && a.priv != b.priv && a.priv < nextSeed && b.priv < nextSeed
    ensures Inv(Start(a, b, nextSeed), b.priv)
  {
  }

  // One delivery

  /** A receiver can tell before the call: the key is stored, or the message is at or ahead of
      the index of the current chain, or its chain is new. */
  predicate Receivable(party: Party, h: Header) {
    || IdOf(h) in party.sess.skipped
    || (h.dhPublic == party.sess.remote && h.n >= party.sess.recv.index)
    || h.dhPublic !in party.view.seen
  }

  lemma PartyDeliveryExact(me: Party, p: nat, es: seq<Epoch>, spk: nat, nextSeed: nat, m: Message, ev: Evictions)
    requires EpochsOk(es, spk, nextSeed) && PartyOk(me, p, es, spk, nextSeed) && p < 2 && MessageOk(m, 1 - p, es)
    requires InStep(me.gen, p, |es|)
    ensures Decrypt(me.sess, m.ciphertext, m.header, ev).1 ==
        if Receivable(me, m.header) then Ok(m.plaintext)
        else if m.header.dhPublic == me.sess.remote then Err(ErrDuplicateMessage)
        else Err(ErrDecryptionFailed)
  {
    if IdOf(m.header) in me.sess.skipped {
      DeliverStored(me, p, es, spk, nextSeed, m, ev);
    } else if m.header.dhPublic !in me.view.seen {
      DeliverNextChain(me, p, es, spk, nextSeed, m, ev);
    } else if m.header.dhPublic != me.sess.remote {
      DeliverLate(me, p, es, spk, nextSeed, m, ev);
    } else if m.header.n >= me.sess.recv.index {
      DeliverOnChain(me, p, es, spk, nextSeed, m, ev);
    }
  }

  /** A genuine message decrypts exactly when it is receivable.  Otherwise it is a duplicate if it
      belongs to the current chain, and fails to open if it belongs to an older one. */
  lemma DeliveryExact(sys: System, e: Event, spk: nat)
    requires Inv(sys, spk) && Enabled(sys, e) && e.Deliver?
    ensures var party, m := sys.parties[e.p], Delivered(sys, e);
      Outcome(sys, e) ==
        if Receivable(party, m.header) then Ok(m.plaintext)
        else if m.header.dhPublic == party.sess.remote then Err(ErrDuplicateMessage)
        else Err(ErrDecryptionFailed)
  {
    PartyDeliveryExact(sys.parties[e.p], e.p, sys.epochs, spk, sys.nextSeed, Delivered(sys, e), e.ev);
  }

  /** A delivery that is receivable, or a duplicate on the current chain. */
  predicate Harmless(sys: System, e: Event)
    requires WellFormed(sys) && Enabled(sys, e)
  {
    e.Deliver? ==>
      var party, h := sys.parties[e.p], Delivered(sys, e).header;
      Receivable(party, h) || h.dhPublic == party.sess.remote
  }

  lemma ReceiverAfterDelivery(me: Party, p: nat, es: seq<Epoch>, spk: nat, nextSeed: nat, m: Message, ev: Evictions)
    requires EpochsOk(es, spk, nextSeed) && PartyOk(me, p, es, spk, nextSeed) && p < 2 && MessageOk(m, 1 - p, es)
    requires InStep(me.gen, p, |es|)
    requires Receivable(me, m.header) || m.header.dhPublic == me.sess.remote
    ensures PartyOk(AfterDelivery(me, m, ev), p, es, spk, nextSeed) && InStep(AfterDelivery(me, m, ev).gen, p, |es|)
  {
    if IdOf(m.header) in me.sess.skipped {
      DeliverStored(me, p, es, spk, nextSeed, m, ev);
    } else if m.header.dhPublic !in me.view.seen {
      DeliverNextChain(me, p, es, spk, nextSeed, m, ev);
    } else if m.header.n >= me.sess.recv.index {
      DeliverOnChain(me, p, es, spk, nextSeed, m, ev);
    }
  }

  lemma StepKeepsInv(sys: System, e: Event, spk: nat)
    requires Inv(sys, spk) && Enabled(sys, e) && Harmless(sys, e)
    ensures Inv(After(sys, e), spk)
  {
    match e
    case Send(p, plaintext) => SendKeepsInv(sys, p, plaintext, spk);
    case Deliver(p, k, ev) =>
      ReceiverAfterDelivery(sys.parties[p], p, sys.epochs, spk, sys.nextSeed, Delivered(sys, e), ev);
  }

  // Runs

  /** Every event can happen when its turn comes, and no delivery is late. */
  predicate Faithful(sys: System, events: seq<Event>)
    requires WellFormed(sys)
    decreases |events|
  {
    events == [] ||
    (Enabled(sys, events[0]) && Harmless(sys, events[0]) && Faithful(After(sys, events[0]), events[1..]))
  }

  function Exec(sys: System, events: seq<Event>): (sys': System)
    requires WellFormed(sys) && Faithful(sys, events)
    ensures WellFormed(sys')
    decreases |events|
  {
    if events == [] then sys else Exec(After(sys, events[0]), events[1..])
  }

  lemma {:induction false} ExecKeepsInv(sys: System, events: seq<Event>, spk: nat)
    requires Inv(sys, spk) && Faithful(sys, events)
    ensures Inv(Exec(sys, events), spk)
    decreases |events|
  {
    if events != [] {
      StepKeepsInv(sys, events[0], spk);
      ExecKeepsInv(After(sys, events[0]), events[1..], spk);
    }
  }

  /** The plaintexts that the run's Encrypt calls of party p were given. */
  function SentBy(events: seq<Event>, p: nat): seq<Bytes> {
    if events == [] then []
    else (if events[0].Send? && events[0].p == p then [events[0].plaintext] else []) + SentBy(events[1..], p)
  }

  function PlaintextsOf(sent: seq<Message>): seq<Bytes> {
    seq(|sent|, k requires 0 <= k < |sent| => sent[k].plaintext)
  }

  lemma StepSends(sys: System, e: Event, spk: nat, p: nat)
    requires Inv(sys, spk) && Enabled(sys, e) && p < 2
    ensures PlaintextsOf(After(sys, e).parties[p].sent) == PlaintextsOf(sys.parties[p].sent) + SentBy([e], p)
  {
    if e.Send? && e.p == p {
      OpensAfterReceiving(sys.parties[p], p, sys.epochs, spk, sys.nextSeed, e.plaintext);
    }
    assert PlaintextsOf(sys.parties[p].sent) + [] == PlaintextsOf(sys.parties[p].sent);
  }

  /** No Encrypt call of such a run fails: each puts exactly its own message on the network, in order. */
  lemma {:induction false} EverySendIsSent(sys: System, events: seq<Event>, spk: nat, p: nat)
    requires Inv(sys, spk) && Faithful(sys, events) && p < 2
    ensures PlaintextsOf(Exec(sys, events).parties[p].sent) == PlaintextsOf(sys.parties[p].sent) + SentBy(events, p)
    decreases |events|
  {
    hide EpochsOk, HalfOk, Harmless, PlaintextsOf, After, Enabled;
    var before := PlaintextsOf(sys.parties[p].sent);
    if events == [] {
      assert before + [] == before;
    } else {
      StepKeepsInv(sys, events[0], spk);
      StepSends(sys, events[0], spk, p);
      EverySendIsSent(After(sys, events[0]), events[1..], spk, p);
      assert SentBy(events, p) == SentBy([events[0]], p) + SentBy(events[1..], p);
      assert (before + SentBy([events[0]], p)) + SentBy(events[1..], p) == before + SentBy(events, p);
    }
  }

  /** The parties never turn at the same time: at most one has an empty sending chain, then the
      roots agree; otherwise one root is exactly one kdfRoot step ahead of the other. */
  ghost predicate Lockstep(a: Session, b: Session) {
    && !(a.send.key == Zero && b.send.key == Zero)
    && (a.send.key == Zero || b.send.key == Zero ==> a.root == b.root)
    && (a.send.key != Zero && b.send.key != Zero ==>
          || (exists dh :: a.root == RootOut(b.root, dh))
          || (exists dh :: b.root == RootOut(a.root, dh)))
  }

  lemma InvMeansLockstep(sys: System, spk: nat)
    requires Inv(sys, spk)
    ensures Lockstep(sys.parties[0].sess, sys.parties[1].sess)
  {
    var a, b, es := sys.parties[0], sys.parties[1], sys.epochs;
    ChainIsOpen(es, spk, sys.nextSeed, a.gen, a.sess.send.index);
    ChainIsOpen(es, spk, sys.nextSeed, b.gen, b.sess.send.index);
    assert |es| > 1 ==> Linked(es, |es| - 1);
  }

  /** The roots stay in lockstep through every run without late deliveries. */
  lemma RunsStayInLockstep(a: Session, b: Session, nextSeed: nat, events: seq<Event>)
    requires Agreed(a, b) && a.priv != b.priv && a.priv < nextSeed && b.priv < nextSeed
    requires Faithful(Start(a, b, nextSeed), events)
    ensures var sys := Exec(Start(a, b, nextSeed), events);
            Lockstep(sys.parties[0].sess, sys.parties[1].sess)
  {
    StartSatisfiesInv(a, b, nextSeed);
    ExecKeepsInv(Start(a, b, nextSeed), events, b.priv);
    InvMeansLockstep(Exec(Start(a, b, nextSeed), events), b.priv);
  }

  // Runs described by the network alone

  /** Judged from the headers delivered so far: the message is acceptable or a repetition, and at
      most 64 messages are overtaken afterwards. */
  ghost predicate Orderly(sys: System, e: Event)
    requires WellFormed(sys) && Enabled(sys, e)
  {
    e.Deliver? ==>
      var party, h := sys.parties[e.p], Delivered(sys, e).header;
      && (Accepts(party.view, h) || Repeats(party.view, h))
      && Size(Observe(party.view, h).overtaken) <= MAX_SKIPPED
      && LegalEvictions(party.sess, h, e.ev)
  }

  ghost predicate OrderlyRun(sys: System, events: seq<Event>)
    requires WellFormed(sys)
    decreases |events|
  {
    events == [] ||
    (Enabled(sys, events[0]) && Orderly(sys, events[0]) && OrderlyRun(After(sys, events[0]), events[1..]))
  }

  /** What the deliveries of a run return, in order. */
  function Results(sys: System, events: seq<Event>): seq<Result<Bytes, Error>>
    requires WellFormed(sys) && OrderlyRun(sys, events)
    decreases |events|
  {
    if events == [] then []
    else
      (if events[0].Deliver? then [Outcome(sys, events[0])] else []) + Results(After(sys, events[0]), events[1..])
  }

  /** What they should return: the plaintext that was sent, and for a repetition the duplicate error. */
  function Expected(sys: System, events: seq<Event>): seq<Result<Bytes, Error>>
    requires WellFormed(sys) && OrderlyRun(sys, events)
    decreases |events|
  {
    if events == [] then []
    else
      (match events[0]
       case Send(_, _) => []
       case Deliver(p, _, _) =>
         var m := Delivered(sys, events[0]);
         [if Accepts(sys.parties[p].view, m.header) then Ok(m.plaintext) else Err(ErrDuplicateMessage)])
      + Expected(After(sys, events[0]), events[1..])
  }

  /** Nothing was evicted: the cache holds exactly the overtaken messages. */
  predicate Complete(party: Party) {
    party.sess.skipped.Keys == party.view.overtaken
  }

  ghost predicate BothComplete(sys: System)
    requires WellFormed(sys)
  {
    Complete(sys.parties[0]) && Complete(sys.parties[1])
  }

  lemma {:induction false} BetweenCardinality(pub: Point, from: nat, to: uint32)
    requires from <= to
    ensures |Between(pub, from, to)| == to - from
  {
    if from < to {
      BetweenCardinality(pub, from, to - 1);
      assert Between(pub, from, to) == Between(pub, from, to - 1) + {SkipId(pub, to - 1)};
    }
  }

  /** A cache that has room for the names still to come. */
  lemma RoomForBetween(m: map<SkipId, Key>, pub: Point, from: nat, to: uint32)
    requires from <= to && Size(m.Keys + Between(pub, from, to)) <= MAX_SKIPPED
    requires forall id <- m :: id.pub == pub ==> id.index < from
    ensures Size(m.Keys) + (to - from) <= MAX_SKIPPED
  {
    var ids, more := m.Keys, Between(pub, from, to);
    BetweenCardinality(pub, from, to);
    SizeIsCardinality(ids);
    SizeIsCardinality(ids + more);
    assert ids !! more;
  }

  lemma KeysWithPassed(m: map<SkipId, Key>, pub: Point, ck: Key, from: nat, to: uint32, m': map<SkipId, Key>)
    requires from <= to && SessionRuns.AddsPassed(m, pub, ck, from, to - from, m')
    ensures m'.Keys == m.Keys + Between(pub, from, to)
  {
  }

  /** Storing keys for which there is room stores exactly them. */
  lemma StoringWithRoom(m: map<SkipId, Key>, pub: Point, ck: Key, from: nat, to: uint32, ev: Evictions)
    requires from <= to && LegalVictims(m, pub, ck, from, to - from, ev)
    requires Size(m.Keys) + (to - from) <= MAX_SKIPPED
    ensures StoreMany(m, pub, ck, from, to - from, ev).Keys == m.Keys + Between(pub, from, to)
  {
    SessionRuns.RoomMeansNoEviction(m, pub, ck, from, to - from, ev);
    SessionRuns.StoringWithoutEviction(m, pub, ck, from, to - from, ev);
    KeysWithPassed(m, pub, ck, from, to, StoreMany(m, pub, ck, from, to - from, ev));
  }

  /** A delivery ahead on the current chain leaves the cache complete if it leaves room. */
  lemma AheadKeepsComplete(me: Party, m: Message, ev: Evictions)
    requires Complete(me) && me.view.cur == me.sess.remote && me.view.next == me.sess.recv.index
    requires m.header.dhPublic == me.sess.remote && m.header.n >= me.sess.recv.index
    requires forall id <- me.view.overtaken :: id.pub == me.view.cur ==> id.index < me.view.next
    requires Size(Observe(me.view, m.header).overtaken) <= MAX_SKIPPED && LegalEvictions(me.sess, m.header, ev)
    ensures Complete(AfterDelivery(me, m, ev))
  {
    var s, h := me.sess, m.header;
    assert IdOf(h) !in s.skipped;
    RoomForBetween(s.skipped, s.remote, s.recv.index, h.n);
    StoringWithRoom(s.skipped, s.remote, s.recv.key, s.recv.index, h.n, ev);
  }

  lemma DeliveryKeepsComplete(me: Party, p: nat, es: seq<Epoch>, spk: nat, nextSeed: nat, m: Message, ev: Evictions)
    requires EpochsOk(es, spk, nextSeed) && PartyOk(me, p, es, spk, nextSeed) && p < 2 && MessageOk(m, 1 - p, es)
    requires InStep(me.gen, p, |es|) && Complete(me)
    requires Accepts(me.view, m.header) || Repeats(me.view, m.header)
    requires Size(Observe(me.view, m.header).overtaken) <= MAX_SKIPPED && LegalEvictions(me.sess, m.header, ev)
    ensures Complete(AfterDelivery(me, m, ev))
  {
    var h := m.header;
    if IdOf(h) in me.view.overtaken || Repeats(me.view, h) {
    } else if h.dhPublic == me.view.cur {
      AheadKeepsComplete(me, m, ev);
    } else {
      FollowingKeepsParty(me, p, es, spk, nextSeed, m);
      var t := RotateOnRecv(me.sess, h).value;
      var view := View(h.dhPublic, 0, me.view.seen + {h.dhPublic}, me.view.overtaken);
      DeliveryFollowsFirst(me, t, m, ev);
      AheadKeepsComplete(me.(sess := t, view := view, gen := me.gen + 1), m, ev);
    }
  }

  /** In a complete party the view tells exactly what can be received. */
  lemma ViewTellsReceivable(party: Party, p: nat, es: seq<Epoch>, spk: nat, nextSeed: nat, h: Header)
    requires PartyOk(party, p, es, spk, nextSeed) && Complete(party)
    ensures Receivable(party, h) <==> Accepts(party.view, h)
    ensures Repeats(party.view, h) ==> h.dhPublic == party.sess.remote
  {
  }

  lemma OrderlyKeepsInv(sys: System, e: Event, spk: nat)
    requires Inv(sys, spk) && BothComplete(sys) && Enabled(sys, e) && Orderly(sys, e)
    ensures Inv(After(sys, e), spk)
  {
    if e.Deliver? {
      ViewTellsReceivable(sys.parties[e.p], e.p, sys.epochs, spk, sys.nextSeed, Delivered(sys, e).header);
    }
    StepKeepsInv(sys, e, spk);
  }

  lemma OrderlyKeepsComplete(sys: System, e: Event, spk: nat)
    requires Inv(sys, spk) && BothComplete(sys) && Enabled(sys, e) && Orderly(sys, e)
    ensures BothComplete(After(sys, e))
  {
    hide EpochsOk, SessionOk, SkippedOk, SeenOk, ViewOk;
    if e.Deliver? {
      DeliveryKeepsComplete(sys.parties[e.p], e.p, sys.epochs, spk, sys.nextSeed, Delivered(sys, e), e.ev);
    }
  }

  lemma OrderlyOutcome(sys: System, e: Event, spk: nat)
    requires Inv(sys, spk) && BothComplete(sys) && Enabled(sys, e) && Orderly(sys, e) && e.Deliver?
    ensures var party, m := sys.parties[e.p], Delivered(sys, e);
      Outcome(sys, e) == if Accepts(party.view, m.header) then Ok(m.plaintext) else Err(ErrDuplicateMessage)
  {
    DeliveryExact(sys, e, spk);
    ViewTellsReceivable(sys.parties[e.p], e.p, sys.epochs, spk, sys.nextSeed, Delivered(sys, e).header);
  }

  lemma {:induction false} OrderlyRunDelivers(sys: System, events: seq<Event>, spk: nat)
    requires Inv(sys, spk) && BothComplete(sys) && OrderlyRun(sys, events)
    ensures Results(sys, events) == Expected(sys, events)
    decreases |events|
  {
    if events != [] {
      OrderlyKeepsInv(sys, events[0], spk);
      OrderlyKeepsComplete(sys, events[0], spk);
      if events[0].Deliver? {
        OrderlyOutcome(sys, events[0], spk);
      }
      OrderlyRunDelivers(After(sys, events[0]), events[1..], spk);
    }
  }

  /** Two-party correctness: from the handshake on, for every interleaving of sends and
      deliveries, with any reordering inside a chain and any repetition on the newest chain, if
      messages of older chains arrive only when they were overtaken inside their chain and at most
      64 messages are overtaken at any time, then every delivery returns exactly the plaintext. */
  lemma EveryDeliveryDecrypts(a: Session, b: Session, nextSeed: nat, events: seq<Event>)
    requires Agreed(a, b) && a.priv != b.priv && a.priv < nextSeed && b.priv < nextSeed
    requires OrderlyRun(Start(a, b, nextSeed), events)
    ensures Results(Start(a, b, nextSeed), events) == Expected(Start(a, b, nextSeed), events)
  {
    StartSatisfiesInv(a, b, nextSeed);
    OrderlyRunDelivers(Start(a, b, nextSeed), events, b.priv);
  }
}
