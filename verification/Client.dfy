/** The messaging client: a device, and one session for each conversation. */
module Clients {
  import opened Crypto
  import opened RatchetSpec
  import opened Handshake

  datatype ClientError = FetchFailed | MissingHandshake | BadEnvelope | CryptoFailed(error: Error)

  datatype Client = Client(device: Device, sessions: map<nat, Session>)

  /** A field of an envelope: left out, not decodable, or decoded. */
  datatype Field<+T> = Absent | Malformed | Present(value: T)

  datatype Envelope = Envelope(
    conv: nat,
    ciphertext: Field<Ciphertext>,
    ratchet: Field<Header>,
    handshake: Field<HandshakeMessage>)

  // Sending

  datatype Ensured = Ensured(client: Client, sess: Session, handshake: Field<HandshakeMessage>)

  /** An existing session is used as it is.  Otherwise the bundle fetched for the recipient starts
      one; `None` stands for a fetch that failed. */
  function EnsureSession(c: Client, conv: nat, bundle: Option<PrekeyBundle>, seed: nat): Result<Ensured, ClientError> {
    if conv in c.sessions then Ok(Ensured(c, c.sessions[conv], Absent))
    else if bundle.None? then Err(FetchFailed)
    else
      match InitSession(c.device, bundle.value, seed)
      case Err(e) => Err(CryptoFailed(e))
      case Ok((s, msg)) => Ok(Ensured(c.(sessions := c.sessions[conv := s]), s, Present(msg)))
  }

  /** The handshake accompanies the message that opened the session, and no other.  A new session
      does not turn its ratchet, so at most one of the two steps draws randomness. */
  function PrepareSend(c: Client, conv: nat, bundle: Option<PrekeyBundle>, plaintext: Bytes, seed: nat):
    (Client, Result<Envelope, ClientError>)
  {
    match EnsureSession(c, conv, bundle, seed)
    case Err(e) => (c, Err(e))
    case Ok(ready) =>
      match Encrypt(ready.sess, plaintext, seed)
      case Err(e) => (ready.client, Err(CryptoFailed(e)))
      case Ok(out) =>
        (ready.client.(sessions := ready.client.sessions[conv := out.next]),
         Ok(Envelope(conv, Present(out.ciphertext), Present(out.header), ready.handshake)))
  }

  // Receiving

  /** The session of the conversation, accepting the envelope's handshake if there is none yet. */
  function SessionFor(c: Client, env: Envelope): (Client, Result<Session, ClientError>) {
    if env.conv in c.sessions then
      (c, Ok(c.sessions[env.conv]))
    else
      match env.handshake
      case Absent => (c, Err(MissingHandshake))
      case Malformed => (c, Err(BadEnvelope))
      case Present(msg) =>
        var (device, accepted) := AcceptSession(c.device, msg);
        match accepted
        case Err(e) => (c.(device := device), Err(CryptoFailed(e)))
        case Ok(s) => (Client(device, c.sessions[env.conv := s]), Ok(s))
  }

  /** A new session is kept even when its first message does not decrypt. */
  function HandleInbound(c: Client, env: Envelope, ev: Evictions): (Client, Result<Bytes, ClientError>) {
    if !env.ciphertext.Present? then (c, Err(BadEnvelope)) else
    var (c1, found) := SessionFor(c, env);
    match found
    case Err(e) => (c1, Err(e))
    case Ok(s) =>
      if !env.ratchet.Present? then (c1, Err(BadEnvelope)) else
      var (t, plain) := Decrypt(s, env.ciphertext.value, env.ratchet.value, ev);
      (c1.(sessions := c1.sessions[env.conv := t]),
       match plain case Ok(plaintext) => Ok(plaintext) case Err(e) => Err(CryptoFailed(e)))
  }

  // What the two operations leave alone

  /** A send changes one conversation and never the device.  Its envelope carries a handshake exactly
      when the client had no session yet. */
  lemma SendTouchesOneConversation(c: Client, conv: nat, bundle: Option<PrekeyBundle>, plaintext: Bytes, seed: nat,
                                   other: nat)
    requires other != conv
    ensures var (c', r) := PrepareSend(c, conv, bundle, plaintext, seed);
      && c'.device == c.device
      && (other in c'.sessions <==> other in c.sessions)
      && (other in c.sessions ==> c'.sessions[other] == c.sessions[other])
      && (r.Ok? ==> (r.value.handshake.Present? <==> conv !in c.sessions) && conv in c'.sessions)
  {
  }

  /** The one-time prekey that handling the envelope uses up. */
  function UsedUp(c: Client, env: Envelope): set<uint32> {
    if && env.ciphertext.Present? && env.conv !in c.sessions
       && env.handshake.Present? && env.handshake.value.oneTimeId.Some?
    then {env.handshake.value.oneTimeId.value} * c.device.oneTime.Keys
    else {}
  }

  /** An envelope changes the session of its own conversation only.  A new session is there exactly if
      its handshake was accepted.  The one-time prekey that the handshake names is used up
      whenever the device has it, even if accepting, the header or decrypting then fails. */
  lemma InboundTouchesOneConversation(c: Client, env: Envelope, ev: Evictions, other: nat)
    requires other != env.conv
    ensures var c' := HandleInbound(c, env, ev).0;
      && (other in c'.sessions <==> other in c.sessions)
      && (other in c.sessions ==> c'.sessions[other] == c.sessions[other])
      && (env.conv in c'.sessions <==>
            || env.conv in c.sessions
            || (&& env.ciphertext.Present? && env.handshake.Present?
                && AcceptSession(c.device, env.handshake.value).1.Ok?))
      && c'.device == c.device.(oneTime := c.device.oneTime - UsedUp(c, env))
      && (c'.device != c.device <==> UsedUp(c, env) != {})
  {
  }

  /** Every outcome of a send.  Nothing is changed by a send that fails, and a new session always sends. */
  lemma SendOutcomes(c: Client, conv: nat, bundle: Option<PrekeyBundle>, plaintext: Bytes, seed: nat)
    ensures var (c', r) := PrepareSend(c, conv, bundle, plaintext, seed);
      && (r == Err(FetchFailed) <==> conv !in c.sessions && bundle.None?)
      && (r.Ok? <==>
            if conv in c.sessions then Encrypt(c.sessions[conv], plaintext, seed).Ok?
            else bundle.Some? && InitSession(c.device, bundle.value, seed).Ok?)
      && (r.Err? ==> c' == c && r.error in {FetchFailed, CryptoFailed(ErrInvalidRemoteKey),
            CryptoFailed(ErrLowOrderPoint), CryptoFailed(ErrInvalidPrekeySignature)})
      && (r.Ok? ==>
            && r.value.conv == conv && r.value.ratchet.Present? && conv in c'.sessions
            && r.value.ciphertext.Present? && r.value.ciphertext.value.Sealed?
            && r.value.ciphertext.value.plaintext == plaintext)
  {
  }

  /** Every outcome of an envelope: which part is at fault decides the error, in this order, and a text
      is only shown if it was sealed under the header that came with it. */
  lemma InboundOutcomes(c: Client, env: Envelope, ev: Evictions)
    ensures var (c', r) := HandleInbound(c, env, ev);
      var known := env.conv in c.sessions;
      var accepted := env.handshake.Present? && AcceptSession(c.device, env.handshake.value).1.Ok?;
      && (r == Err(MissingHandshake) <==> env.ciphertext.Present? && !known && env.handshake.Absent?)
      && (r == Err(BadEnvelope) <==>
            || !env.ciphertext.Present?
            || (!known && env.handshake.Malformed?)
            || ((known || accepted) && !env.ratchet.Present?))
      && r != Err(FetchFailed)
      && (r.Ok? ==>
            && (known || accepted) && env.ciphertext.Present? && env.ratchet.Present?
            && env.ciphertext.value.Sealed? && env.ciphertext.value.plaintext == r.value
            && env.ciphertext.value.ad.dhPublic == env.ratchet.value.dhPublic
            && env.ciphertext.value.ad.pn == env.ratchet.value.pn && env.ciphertext.value.ad.n == env.ratchet.value.n)
  {
  }

  // Runs of one client

  datatype ClientOp =
    | SendOp(conv: nat, bundle: Option<PrekeyBundle>, plaintext: Bytes, seed: nat)
    | ReceiveOp(env: Envelope, ev: Evictions)

  function ClientStep(c: Client, op: ClientOp): Client {
    match op
    case SendOp(conv, bundle, plaintext, seed) => PrepareSend(c, conv, bundle, plaintext, seed).0
    case ReceiveOp(env, ev) => HandleInbound(c, env, ev).0
  }

  function ClientRun(c: Client, ops: seq<ClientOp>): Client
    decreases |ops|
  {
    if ops == [] then c else ClientRun(ClientStep(c, ops[0]), ops[1..])
  }

  lemma {:induction false} SessionsStay(c: Client, ops: seq<ClientOp>, conv: nat)
    requires conv in c.sessions
    ensures conv in ClientRun(c, ops).sessions
    decreases |ops|
  {
    if ops != [] {
      hide Encrypt, Decrypt, InitSession, AcceptSession;
      SessionsStay(ClientStep(c, ops[0]), ops[1..], conv);
    }
  }

  /** The handshake travels once.  When the first envelope of a conversation is lost, every later one,
      whatever the sender does in between, is refused by a recipient without a session, whatever
      it holds, and leaves it unchanged. */
  lemma FirstEnvelopeIsNeeded(c: Client, conv: nat, bundle: Option<PrekeyBundle>, first: Bytes, seed: nat,
                              ops: seq<ClientOp>, bundle': Option<PrekeyBundle>, later: Bytes, seed': nat,
                              recipient: Client, ev: Evictions)
    requires conv !in recipient.sessions
    requires PrepareSend(c, conv, bundle, first, seed).1.Ok?
    ensures var c' := ClientRun(PrepareSend(c, conv, bundle, first, seed).0, ops);
      var sent := PrepareSend(c', conv, bundle', later, seed').1;
      sent.Ok? ==> HandleInbound(recipient, sent.value, ev) == (recipient, Err(MissingHandshake))
  {
    hide Encrypt, Decrypt, InitSession, AcceptSession;
    SessionsStay(PrepareSend(c, conv, bundle, first, seed).0, ops, conv);
  }
}
