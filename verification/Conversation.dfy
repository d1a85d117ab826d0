/** One conversation from end to end: two clients, the message queue between them, and the
    connection of each.  Client 0 starts the conversation; client 1 answers. */
module Conversation {
  import opened Crypto
  import opened RatchetSpec
  import opened TwoParty
  import opened TwoPartyRuns
  import opened Fifo
  import opened Handshake
  import opened Published
  import opened Clients
  import opened Queue

  /** `written` are the envelopes pushed to each client, of which it has handled the first `handled`;
      `typed` is what each client sent and `shown` what each displayed. */
  datatype World = World(
    conv: nat,
    bundle: PrekeyBundle,
    clients: seq<Client>,
    rows: seq<Row<Envelope>>,
    written: seq<seq<Envelope>>,
    handled: seq<nat>,
    typed: seq<seq<Bytes>>,
    shown: seq<seq<Result<Bytes, ClientError>>>,
    nextSeed: nat)

  datatype Happening =
    | Type(p: nat, plaintext: Bytes, sentAt: int)
    | Push(p: nat, batch: int)
    | Handle(p: nat, ev: Evictions)

  predicate Shaped(w: World) {
    |w.clients| == 2 && |w.written| == 2 && |w.handled| == 2 && |w.typed| == 2 && |w.shown| == 2
  }

  function BodiesOf(s: seq<Row<Envelope>>): seq<Envelope> {
    seq(|s|, i requires 0 <= i < |s| => s[i].body)
  }

  /** A client that already holds the session, or the one that starts the conversation, sends; send
      times increase strictly; a chain carries fewer than 2^32 messages.  A client handles the
      envelopes written to it one after the other. */
  predicate Possible(w: World, e: Happening)
    requires Shaped(w)
  {
    match e
    case Type(p, plaintext, sentAt) =>
      && p < 2
      && (forall r <- w.rows :: r.sentAt < sentAt)
      && (if w.conv in w.clients[p].sessions then w.clients[p].sessions[w.conv].send.index + 1 < TWO_32 else p == 0)
    case Push(p, _) => p < 2
    case Handle(p, _) => p < 2 && w.handled[p] < |w.written[p]|
  }

  function AfterType(w: World, p: nat, plaintext: Bytes, sentAt: int): World
    requires Shaped(w) && p < 2
  {
    var (c, request) := Clients.PrepareSend(w.clients[p], w.conv, Some(w.bundle), plaintext, w.nextSeed);
    match request
    case Err(_) => w.(clients := w.clients[p := c], nextSeed := w.nextSeed + 1)
    case Ok(env) =>
      w.(clients := w.clients[p := c],
         rows := w.rows + [Row(|w.rows|, 1 - p, env, sentAt, false)],
         typed := w.typed[p := w.typed[p] + [plaintext]],
         nextSeed := w.nextSeed + 1)
  }

  function AfterPush(w: World, p: nat, batch: int): World
    requires Shaped(w) && p < 2
  {
    var msgs := Limit(Pending(w.rows, p), batch);
    w.(rows := Poll(w.rows, p, batch), written := w.written[p := w.written[p] + BodiesOf(msgs)])
  }

  function AfterHandle(w: World, p: nat, ev: Evictions): World
    requires Shaped(w) && p < 2 && w.handled[p] < |w.written[p]|
  {
    var (c, result) := HandleInbound(w.clients[p], w.written[p][w.handled[p]], ev);
    w.(clients := w.clients[p := c],
       handled := w.handled[p := w.handled[p] + 1],
       shown := w.shown[p := w.shown[p] + [result]])
  }

  function Next(w: World, e: Happening): (w': World)
    requires Shaped(w) && Possible(w, e)
    ensures Shaped(w')
  {
    match e
    case Type(p, plaintext, sentAt) => AfterType(w, p, plaintext, sentAt)
    case Push(p, batch) => AfterPush(w, p, batch)
    case Handle(p, ev) => AfterHandle(w, p, ev)
  }

  predicate CanHappen(w: World, events: seq<Happening>)
    requires Shaped(w)
    decreases |events|
  {
    events == [] || (Possible(w, events[0]) && CanHappen(Next(w, events[0]), events[1..]))
  }

  function After(w: World, events: seq<Happening>): (w': World)
    requires Shaped(w) && CanHappen(w, events)
    ensures Shaped(w')
    decreases |events|
  {
    if events == [] then w else After(Next(w, events[0]), events[1..])
  }

  // The start

  /** Nothing was sent, neither client knows the conversation, and the key server's bundle is one
      that the responder's device published and can still accept. */
  ghost predicate Beginning(w: World) {
    && Shaped(w)
    && w.rows == [] && w.written == [[], []] && w.handled == [0, 0] && w.typed == [[], []] && w.shown == [[], []]
    && (forall c <- w.clients :: w.conv !in c.sessions && DeviceOk(c.device))
    && Serves(w.clients[1].device, w.bundle)
    && w.clients[1].device.signedPrekey.priv < w.nextSeed
  }

  /** Two clients without sessions, and a bundle in the hands of the key server. */
  function Opening(conv: nat, alice: Device, bob: Device, bundle: PrekeyBundle, nextSeed: nat): World {
    World(conv, bundle, [Client(alice, map[]), Client(bob, map[])], [], [[], []], [0, 0], [[], []], [[], []], nextSeed)
  }

  /** Devices made by key generation begin a conversation, after any lives of theirs, with any bundle
      that the second one published, served with one of its one-time prekeys or with none, as long as
      no handshake used that key up. */
  lemma PublishedBundleBegins(conv: nat, seedA: nat, prekeyA: nat, lifeA: seq<DeviceOp>, seedB: nat, prekeyB: nat,
                              before: seq<DeviceOp>, seeds: seq<nat>, after: seq<DeviceOp>, key: Option<OneTimePrekey>,
                              nextSeed: nat)
    requires |IdsIssued(GenerateIdentity(seedA, prekeyA), lifeA)| < TWO_32 && prekeyB < nextSeed
    requires var d := DeviceRun(GenerateIdentity(seedB, prekeyB), before);
      && |IdsIssued(GenerateIdentity(seedB, prekeyB), before)| + |seeds|
         + |IdsIssued(Publish(d, seeds).0, after)| < TWO_32
      && (key.Some? ==>
            && key.value in Publish(d, seeds).1.oneTimePrekeys
            && key.value.id !in IdsConsumed(Publish(d, seeds).0, after))
    ensures var (d1, bundle) := Publish(DeviceRun(GenerateIdentity(seedB, prekeyB), before), seeds);
      Beginning(Opening(conv, DeviceRun(GenerateIdentity(seedA, prekeyA), lifeA), DeviceRun(d1, after),
                        Served(bundle, key), nextSeed))
  {
    hide DeviceRun, Publish, IdsIssued, IdsConsumed, GenerateIdentity, DeviceOk, Serves, Served;
    var _ := LifeIsOk(seedA, prekeyA, lifeA);
    PublishedBundlesServe(seedB, prekeyB, before, seeds, after);
  }

  // The invariant: the clients' sessions are those of a two-party run with ordered deliveries

  /** The envelope of the k-th message sent to party p. */
  function EnvelopeOf(conv: nat, m: Message, p: nat, k: nat, hello: HandshakeMessage): Envelope {
    Envelope(conv, Present(m.ciphertext), Present(m.header), if p == 1 && k == 0 then Present(hello) else Absent)
  }

  function EnvelopesTo(conv: nat, sent: seq<Message>, p: nat, hello: HandshakeMessage): seq<Envelope> {
    seq(|sent|, k requires 0 <= k < |sent| => EnvelopeOf(conv, sent[k], p, k, hello))
  }

  function Successes(texts: seq<Bytes>): seq<Result<Bytes, ClientError>> {
    seq(|texts|, k requires 0 <= k < |texts| => Ok(texts[k]))
  }

  /** Everything sent to p is written or pending, in the order of sending. */
  predicate QueueOk(w: World, p: nat, sent: seq<Message>, hello: HandshakeMessage)
    requires Shaped(w) && p < 2
  {
    w.written[p] + BodiesOf(Pending(w.rows, p)) == EnvelopesTo(w.conv, sent, p, hello)
  }

  /** Client p holds the run's session, or is the responder and would accept it from the handshake. */
  predicate HoldsSession(w: World, p: nat, sess: Session, hello: HandshakeMessage)
    requires Shaped(w) && p < 2
  {
    var c := w.clients[p];
    if w.conv in c.sessions then c.sessions[w.conv] == sess
    else p == 1 && w.handled[p] == 0 && AcceptSession(c.device, hello).1 == Ok(sess)
  }

  ghost predicate RowsOk(w: World) {
    && UniqueIds(w.rows)
    && forall r <- w.rows :: r.id < |w.rows|
  }

  ghost predicate SideOk(w: World, p: nat, sys: System, hello: HandshakeMessage)
    requires Shaped(w) && WellFormed(sys) && p < 2
  {
    var sent := sys.parties[1 - p].sent;
    && QueueOk(w, p, sent, hello)
    && HoldsSession(w, p, sys.parties[p].sess, hello)
    && w.handled[p] <= |w.written[p]|
    && w.typed[1 - p] == PlaintextsOf(sent)
    && w.handled[p] <= |sent|
    && w.shown[p] == Successes(PlaintextsOf(sent)[..w.handled[p]])
  }

  ghost predicate Underway(w: World, sys: System, spk: nat, hello: HandshakeMessage) {
    && Shaped(w)
    && FifoInv(sys, w.handled, spk)
    && sys.nextSeed == w.nextSeed
    && sys.parties[0].sent != []
    && RowsOk(w)
    && SideOk(w, 0, sys, hello)
    && SideOk(w, 1, sys, hello)
  }

  // Typing

  lemma RaisingTheSeed(sys: System, got: seq<nat>, spk: nat, n: nat)
    requires FifoInv(sys, got, spk) && sys.nextSeed <= n
    ensures FifoInv(sys.(nextSeed := n), got, spk)
  {
  }

  lemma BodiesOfOneMore(s: seq<Row<Envelope>>, r: Row<Envelope>)
    ensures BodiesOf(s + [r]) == BodiesOf(s) + [r.body]
  {
  }

  lemma NewRowWaitsLast(rows: seq<Row<Envelope>>, r: Row<Envelope>, q: nat)
    requires !r.delivered && forall x <- rows :: x.sentAt < r.sentAt
    ensures Pending(rows + [r], q) == if r.to == q then Pending(rows, q) + [r] else Pending(rows, q)
  {
    assert (rows + [r])[..|rows + [r]| - 1] == rows;
    PendingMembers(rows, q);
    InsertAtEnd(r, Pending(rows, q));
  }

  lemma {:induction false} PendingMembers(rows: seq<Row<Envelope>>, q: nat)
    ensures forall x <- Pending(rows, q) :: x in rows
  {
    if rows != [] {
      PendingMembers(rows[..|rows| - 1], q);
      InsertKeepsRows(rows[|rows| - 1], Pending(rows[..|rows| - 1], q));
    }
  }

  /** Client p queued the message that the run's system sent. */
  ghost predicate Queued(w: World, w': World, sys: System, sys': System, p: nat, plaintext: Bytes, sentAt: int,
                         env: Envelope, hello: HandshakeMessage)
    requires Shaped(w) && Shaped(w') && WellFormed(sys) && WellFormed(sys') && p < 2
  {
    && (forall r <- w.rows :: r.sentAt < sentAt)
    && w' == w.(clients := w'.clients, rows := w.rows + [Row(|w.rows|, 1 - p, env, sentAt, false)],
                typed := w.typed[p := w.typed[p] + [plaintext]], nextSeed := w'.nextSeed)
    && w'.clients[1 - p] == w.clients[1 - p] && w.conv in w'.clients[p].sessions
    && w'.clients[p].sessions[w.conv] == sys'.parties[p].sess
    && sys'.parties[1 - p] == sys.parties[1 - p]
    && var sent, sent' := sys.parties[p].sent, sys'.parties[p].sent;
       && |sent'| == |sent| + 1 && sent'[..|sent|] == sent && sent'[|sent|].plaintext == plaintext
       && env == EnvelopeOf(w.conv, sent'[|sent|], 1 - p, |sent|, hello)
  }

  lemma QueuingKeepsSender(w: World, w': World, sys: System, sys': System, p: nat, plaintext: Bytes, sentAt: int,
                           env: Envelope, hello: HandshakeMessage)
    requires Shaped(w) && Shaped(w') && WellFormed(sys) && WellFormed(sys') && p < 2
    requires SideOk(w, p, sys, hello) && Queued(w, w', sys, sys', p, plaintext, sentAt, env, hello)
    ensures SideOk(w', p, sys', hello)
  {
  }

  lemma QueuingKeepsReceiver(w: World, w': World, sys: System, sys': System, p: nat, plaintext: Bytes, sentAt: int,
                             env: Envelope, hello: HandshakeMessage)
    requires Shaped(w) && Shaped(w') && WellFormed(sys) && WellFormed(sys') && p < 2
    requires SideOk(w, 1 - p, sys, hello) && Queued(w, w', sys, sys', p, plaintext, sentAt, env, hello)
    ensures SideOk(w', 1 - p, sys', hello)
  {
    hide Pending, AcceptSession, EnvelopeOf;
    var r := Row(|w.rows|, 1 - p, env, sentAt, false);
    NewRowWaitsLast(w.rows, r, 1 - p);
    BodiesOfOneMore(Pending(w.rows, 1 - p), r);
    var sent, sent' := sys.parties[p].sent, sys'.parties[p].sent;
    assert sent' == sent + [sent'[|sent|]];
    EnvelopesOfOneMore(w.conv, sent, sent'[|sent|], 1 - p, hello);
    assert PlaintextsOf(sent') == PlaintextsOf(sent) + [plaintext];
    assert PlaintextsOf(sent')[..w.handled[1 - p]] == PlaintextsOf(sent)[..w.handled[1 - p]];
  }

  lemma EnvelopesOfOneMore(conv: nat, sent: seq<Message>, m: Message, p: nat, hello: HandshakeMessage)
    ensures EnvelopesTo(conv, sent + [m], p, hello) ==
            EnvelopesTo(conv, sent, p, hello) + [EnvelopeOf(conv, m, p, |sent|, hello)]
  {
  }

  lemma SeedUnusedOnOpenChain(s: Session, plaintext: Bytes, seed: nat, seed': nat)
    requires s.send.key != Zero
    ensures Encrypt(s, plaintext, seed) == Encrypt(s, plaintext, seed')
    ensures Opened(s, seed) == []
  {
  }

  /** The run's system after a send, with the seed the world draws next. */
  function SystemAfterType(sys: System, p: nat, plaintext: Bytes): System
    requires WellFormed(sys) && Enabled(sys, Send(p, plaintext))
  {
    TwoParty.After(sys, Send(p, plaintext)).(nextSeed := sys.nextSeed + 1)
  }

  lemma TypingContinues(w: World, sys: System, spk: nat, hello: HandshakeMessage, p: nat, plaintext: Bytes, sentAt: int)
    requires Underway(w, sys, spk, hello) && Possible(w, Type(p, plaintext, sentAt)) && w.conv in w.clients[p].sessions
    ensures Enabled(sys, Send(p, plaintext))
    ensures Underway(AfterType(w, p, plaintext, sentAt), SystemAfterType(sys, p, plaintext), spk, hello)
    ensures AfterType(w, p, plaintext, sentAt).typed == w.typed[p := w.typed[p] + [plaintext]]
  {
    hide FifoInv, Encrypt, AcceptSession, Pending, RotateOnSend;
    assert WellFormed(sys) by { FifoShape(sys, w.handled, spk); }
    var sess := w.clients[p].sessions[w.conv];
    FifoSend(sys, p, plaintext, w.handled, spk);
    var sys' := SystemAfterType(sys, p, plaintext);
    RaisingTheSeed(TwoParty.After(sys, Send(p, plaintext)), w.handled, spk, sys.nextSeed + 1);
    var w' := AfterType(w, p, plaintext, sentAt);
    assert Encrypt(sess, plaintext, w.nextSeed).Ok?;
    var env := Clients.PrepareSend(w.clients[p], w.conv, Some(w.bundle), plaintext, w.nextSeed).1.value;
    QueuingKeepsSender(w, w', sys, sys', p, plaintext, sentAt, env, hello);
    QueuingKeepsReceiver(w, w', sys, sys', p, plaintext, sentAt, env, hello);
  }

  lemma FifoShape(sys: System, got: seq<nat>, spk: nat)
    requires FifoInv(sys, got, spk)
    ensures WellFormed(sys) && |got| == 2
  {
  }

  lemma FirstSend(a: Session, b: Session, nextSeed: nat, plaintext: Bytes)
    requires Agreed(a, b) && a.priv != b.priv && a.priv < nextSeed && b.priv < nextSeed
    ensures var sys := Start(a, b, nextSeed);
      && Enabled(sys, Send(0, plaintext))
      && FifoInv(TwoParty.After(sys, Send(0, plaintext)), [0, 0], b.priv)
      && TwoParty.After(sys, Send(0, plaintext)).nextSeed == nextSeed
      && Encrypt(a, plaintext, nextSeed).Ok?
      && var out := Encrypt(a, plaintext, nextSeed).value;
         TwoParty.After(sys, Send(0, plaintext)).parties ==
           [StartParty(a).(sess := out.next, sent := [Message(0, out.header, out.ciphertext, plaintext)]),
            StartParty(b)]
  {
    hide FifoInv;
    StartIsFifo(a, b, nextSeed);
    FifoSend(Start(a, b, nextSeed), 0, plaintext, [0, 0], b.priv);
  }

  /** The first message of the conversation sets up the run. */
  lemma TypingStarts(w: World, plaintext: Bytes, sentAt: int) returns (sys: System, spk: nat, hello: HandshakeMessage)
    requires Beginning(w) && Possible(w, Type(0, plaintext, sentAt))
    ensures Underway(AfterType(w, 0, plaintext, sentAt), sys, spk, hello)
    ensures AfterType(w, 0, plaintext, sentAt).typed == w.typed[0 := w.typed[0] + [plaintext]]
  {
    hide FifoInv, AcceptSession, InitSession, Encrypt, Agreed;
    var alice, bob := w.clients[0].device, w.clients[1].device;
    assert w.clients[0] in w.clients && w.clients[1] in w.clients;
    X3dhAgreement(alice, bob, w.bundle, w.nextSeed);
    var (a, msg) := InitSession(alice, w.bundle, w.nextSeed).value;
    var b := AcceptSession(bob, msg).1.value;
    spk, hello := b.priv, msg;
    FirstSend(a, b, w.nextSeed + 1, plaintext);
    assert a.send.key != Zero by { AgreedChainIsOpen(a, b); }
    SeedUnusedOnOpenChain(a, plaintext, w.nextSeed, w.nextSeed + 1);
    sys := TwoParty.After(Start(a, b, w.nextSeed + 1), Send(0, plaintext));
    var w' := AfterType(w, 0, plaintext, sentAt);
    var env := Clients.PrepareSend(w.clients[0], w.conv, Some(w.bundle), plaintext, w.nextSeed).1.value;
    assert env == EnvelopeOf(w.conv, sys.parties[0].sent[0], 1, 0, hello);
    var r := Row(0, 1, env, sentAt, false);
    NewRowWaitsLast([], r, 0);
    NewRowWaitsLast([], r, 1);
    assert w'.rows == [r];
    assert BodiesOf([r]) == [env];
    assert EnvelopesTo(w.conv, sys.parties[0].sent, 1, hello) == [env];
    assert EnvelopesTo(w.conv, sys.parties[1].sent, 0, hello) == [];
    assert PlaintextsOf(sys.parties[0].sent) == [plaintext];
  }

  lemma AgreedChainIsOpen(a: Session, b: Session)
    requires Agreed(a, b)
    ensures a.send.key != Zero
  {
  }

  // Pushing

  lemma BodiesOfParts(s: seq<Row<Envelope>>, k: nat)
    requires k <= |s|
    ensures BodiesOf(s) == BodiesOf(s[..k]) + BodiesOf(s[k..])
  {
  }

  lemma PushingKeepsQueues(w: World, sent: seq<Message>, hello: HandshakeMessage, p: nat, batch: int, q: nat)
    requires Shaped(w) && p < 2 && RowsOk(w) && q < 2 && QueueOk(w, q, sent, hello)
    ensures var w' := AfterPush(w, p, batch);
      && QueueOk(w', q, sent, hello)
      && |w.written[q]| <= |w'.written[q]|
      && RowsOk(w')
  {
    hide Pending, Limit;
    var all := Pending(w.rows, p);
    var k := BatchSize(|all|, batch);
    PollTakesBatch(w.rows, p, batch);
    if q == p {
      BodiesOfParts(all, k);
      var w' := AfterPush(w, p, batch);
      assert w'.written[p] == w.written[p] + BodiesOf(all[..k]);
      assert BodiesOf(Pending(w'.rows, p)) == BodiesOf(all[k..]);
    } else {
      PollLeavesOthers(w.rows, p, batch, q);
    }
  }

  lemma PushingContinues(w: World, sys: System, spk: nat, hello: HandshakeMessage, p: nat, batch: int)
    requires Underway(w, sys, spk, hello) && Possible(w, Push(p, batch))
    ensures Underway(AfterPush(w, p, batch), sys, spk, hello)
  {
    hide FifoInv, AcceptSession, RowsOk, QueueOk;
    assert WellFormed(sys) by { FifoShape(sys, w.handled, spk); }
    PushingKeepsQueues(w, sys.parties[1].sent, hello, p, batch, 0);
    PushingKeepsQueues(w, sys.parties[0].sent, hello, p, batch, 1);
  }

  lemma PushingNothing(w: World, p: nat, batch: int)
    requires Beginning(w) && Possible(w, Push(p, batch))
    ensures AfterPush(w, p, batch) == w
  {
    assert Poll(w.rows, p, batch) == [];
    assert w.written[p] + BodiesOf([]) == w.written[p];
    assert w.written[p := w.written[p]] == w.written;
  }

  // Handling

  /** What handling the next envelope does to a client that holds the run's session. */
  lemma HandlingDecrypts(w: World, p: nat, sess: Session, hello: HandshakeMessage, m: Message, ev: Evictions)
    requires Shaped(w) && p < 2 && w.handled[p] < |w.written[p]|
    requires HoldsSession(w, p, sess, hello)
    requires w.written[p][w.handled[p]] == EnvelopeOf(w.conv, m, p, w.handled[p], hello)
    requires Decrypt(sess, m.ciphertext, m.header, ev).1 == Ok(m.plaintext)
    ensures var w' := AfterHandle(w, p, ev);
      && w'.shown[p] == w.shown[p] + [Ok(m.plaintext)]
      && HoldsSession(w', p, Decrypt(sess, m.ciphertext, m.header, ev).0, hello)
  {
  }

  lemma HandlingContinues(w: World, sys: System, spk: nat, hello: HandshakeMessage, p: nat, ev: Evictions)
    requires Underway(w, sys, spk, hello) && Possible(w, Handle(p, ev))
    ensures Enabled(sys, Deliver(p, w.handled[p], ev))
    ensures Underway(AfterHandle(w, p, ev), TwoParty.After(sys, Deliver(p, w.handled[p], ev)), spk, hello)
  {
    hide FifoInv, AcceptSession, Decrypt, Pending, UniqueIds;
    assert WellFormed(sys) by { FifoShape(sys, w.handled, spk); }
    var sent, k := sys.parties[1 - p].sent, w.handled[p];
    var all := EnvelopesTo(w.conv, sent, p, hello);
    assert w.written[p][k] == (w.written[p] + BodiesOf(Pending(w.rows, p)))[k] == all[k];
    FifoDeliver(sys, p, ev, w.handled, spk);
    HandlingDecrypts(w, p, sys.parties[p].sess, hello, sent[k], ev);
    var texts := PlaintextsOf(sent);
    assert texts[..k + 1] == texts[..k] + [sent[k].plaintext];
    assert Successes(texts[..k + 1]) == Successes(texts[..k]) + [Ok(sent[k].plaintext)];
    var w', sys' := AfterHandle(w, p, ev), TwoParty.After(sys, Deliver(p, k, ev));
    assert SideOk(w', p, sys', hello);
    assert SideOk(w', 1 - p, sys', hello);
  }

  // The theorem

  /** Each client has displayed exactly a prefix of what the other typed: every message handled so
      far once, decrypted, in the order of sending.  A client that has nothing left to receive
      has displayed everything. */
  predicate InOrderAndComplete(w: World, p: nat)
    requires Shaped(w) && p < 2
  {
    && |w.shown[p]| <= |w.typed[1 - p]|
    && w.shown[p] == Successes(w.typed[1 - p][..|w.shown[p]|])
    && (Pending(w.rows, p) == [] && w.handled[p] == |w.written[p]| ==> |w.shown[p]| == |w.typed[1 - p]|)
  }

  lemma UnderwayDelivers(w: World, sys: System, spk: nat, hello: HandshakeMessage, p: nat)
    requires Underway(w, sys, spk, hello) && p < 2
    ensures InOrderAndComplete(w, p)
  {
    hide FifoInv, AcceptSession;
    assert WellFormed(sys) by { FifoShape(sys, w.handled, spk); }
    assert SideOk(w, p, sys, hello);
  }

  /** What client p was asked to send, in order. */
  function TypedBy(events: seq<Happening>, p: nat): seq<Bytes> {
    if events == [] then []
    else (if events[0].Type? && events[0].p == p then [events[0].plaintext] else []) + TypedBy(events[1..], p)
  }

  lemma TypedStep(w: World, events: seq<Happening>, p: nat)
    requires Shaped(w) && events != [] && Possible(w, events[0]) && p < 2
    requires events[0].Type? ==>
      Next(w, events[0]).typed == w.typed[events[0].p := w.typed[events[0].p] + [events[0].plaintext]]
    ensures Next(w, events[0]).typed[p] + TypedBy(events[1..], p) == w.typed[p] + TypedBy(events, p)
  {
  }

  lemma {:induction false} UnderwayStays(w: World, events: seq<Happening>, sys: System, spk: nat,
                                         hello: HandshakeMessage)
    requires Underway(w, sys, spk, hello) && CanHappen(w, events)
    ensures forall p :: 0 <= p < 2 ==>
      InOrderAndComplete(After(w, events), p) && After(w, events).typed[p] == w.typed[p] + TypedBy(events, p)
    decreases |events|
  {
    hide FifoInv, SideOk, RowsOk, InOrderAndComplete;
    if events == [] {
      UnderwayDelivers(w, sys, spk, hello, 0);
      UnderwayDelivers(w, sys, spk, hello, 1);
    } else {
      var e := events[0];
      match e
      case Type(p, plaintext, sentAt) =>
        UnderwayClientsHold(w, sys, spk, hello);
        TypingContinues(w, sys, spk, hello, p, plaintext, sentAt);
        UnderwayStays(Next(w, e), events[1..], SystemAfterType(sys, p, plaintext), spk, hello);
        TypedStep(w, events, 0);
        TypedStep(w, events, 1);
      case Push(p, batch) =>
        PushingContinues(w, sys, spk, hello, p, batch);
        UnderwayStays(Next(w, e), events[1..], sys, spk, hello);
        TypedStep(w, events, 0);
        TypedStep(w, events, 1);
      case Handle(p, ev) =>
        UnderwayClientsHold(w, sys, spk, hello);
        HandlingContinues(w, sys, spk, hello, p, ev);
        UnderwayStays(Next(w, e), events[1..], TwoParty.After(sys, Deliver(p, w.handled[p], ev)), spk, hello);
        TypedStep(w, events, 0);
        TypedStep(w, events, 1);
    }
  }

  lemma UnderwayClientsHold(w: World, sys: System, spk: nat, hello: HandshakeMessage)
    requires Underway(w, sys, spk, hello)
    ensures WellFormed(sys) && w.conv in w.clients[0].sessions
  {
  }

  /** End to end: no send fails; and whatever the two clients type, whenever the queue is polled with whatever batch
      sizes, and whatever the full caches evict, each client displays what the other typed, once and
      in order, the responder's session being created from the first envelope. */
  lemma {:induction false} ConversationDelivers(w: World, events: seq<Happening>)
    requires Beginning(w) && CanHappen(w, events)
    ensures forall p :: 0 <= p < 2 ==>
      InOrderAndComplete(After(w, events), p) && After(w, events).typed[p] == TypedBy(events, p)
    decreases |events|
  {
    if events != [] {
      var e := events[0];
      match e
      case Type(p, plaintext, sentAt) =>
        assert w.clients[p] in w.clients;
        var sys, spk, hello := TypingStarts(w, plaintext, sentAt);
        UnderwayStays(Next(w, e), events[1..], sys, spk, hello);
        TypedStep(w, events, 0);
        TypedStep(w, events, 1);
      case Push(p, batch) =>
        PushingNothing(w, p, batch);
        ConversationDelivers(w, events[1..]);
      case Handle(_, _) =>
    }
  }

  // Draining

  lemma {:induction false} AfterBoth(w: World, events: seq<Happening>, more: seq<Happening>)
    requires Shaped(w) && CanHappen(w, events) && CanHappen(After(w, events), more)
    ensures CanHappen(w, events + more) && After(w, events + more) == After(After(w, events), more)
    decreases |events|
  {
    hide AfterType, AfterPush, AfterHandle, Possible;
    if events == [] {
      assert events + more == more;
    } else {
      assert (events + more)[1..] == events[1..] + more;
      AfterBoth(Next(w, events[0]), events[1..], more);
    }
  }

  ghost predicate CountsOk(w: World) {
    && Shaped(w) && RowsOk(w)
    && w.handled[0] <= |w.written[0]| && w.handled[1] <= |w.written[1]|
  }

  lemma {:induction false} CountsStayOk(w: World, events: seq<Happening>)
    requires CountsOk(w) && CanHappen(w, events)
    ensures CountsOk(After(w, events))
    decreases |events|
  {
    if events != [] {
      hide Pending, Limit, HandleInbound, Clients.PrepareSend;
      var e := events[0];
      if e.Push? {
        PollTakesBatch(w.rows, e.p, e.batch);
      }
      CountsStayOk(Next(w, e), events[1..]);
    }
  }

  /** Polling until nothing is pending and then handling what was written. */
  lemma {:induction false} DrainQueue(w: World, p: nat, batch: int) returns (rest: seq<Happening>)
    requires CountsOk(w) && p < 2
    ensures CanHappen(w, rest)
    ensures var w' := After(w, rest);
      && Pending(w'.rows, p) == [] && w'.handled[p] == |w'.written[p]| && w'.typed == w.typed
    decreases |Pending(w.rows, p)|, |w.written[p]| - w.handled[p]
  {
    hide Pending, Limit, HandleInbound, Clients.PrepareSend;
    if Pending(w.rows, p) == [] && w.handled[p] == |w.written[p]| {
      rest := [];
    } else {
      var e := if Pending(w.rows, p) != [] then Push(p, batch) else Handle(p, []);
      PollTakesBatch(w.rows, p, batch);
      assert CountsOk(Next(w, e)) by {
        assert CanHappen(w, [e]) && After(w, [e]) == Next(w, e);
        CountsStayOk(w, [e]);
      }
      var tail := DrainQueue(Next(w, e), p, batch);
      rest := [e] + tail;
      assert rest[1..] == tail;
    }
  }

  /** From every point of a conversation, polling with any batch size and handling what arrives
      makes a client display everything that was typed to it. */
  lemma NothingIsLost(w: World, events: seq<Happening>, p: nat, batch: int) returns (rest: seq<Happening>)
    requires Beginning(w) && CanHappen(w, events) && p < 2
    ensures CanHappen(After(w, events), rest)
    ensures After(After(w, events), rest).shown[p] == Successes(TypedBy(events, 1 - p))
  {
    ConversationDelivers(w, events);
    CountsStayOk(w, events);
    rest := DrainQueue(After(w, events), p, batch);
    AfterBoth(w, events, rest);
    ConversationDelivers(w, events + rest);
    var end := After(w, events + rest);
    assert InOrderAndComplete(end, p);
    assert end.typed[1 - p][..|end.shown[p]|] == end.typed[1 - p];
  }
}
