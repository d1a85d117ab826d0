/** The client's mutable state. */
module ClientStates {
  import opened Crypto
  import opened RatchetSpec
  import opened Handshake
  import opened SessionStates
  import opened DeviceStates
  import opened Clients

  class State {
    const device: DeviceState
    var sessions: map<nat, SessionState>

    /** No two conversations share a session object. */
    ghost predicate Valid()
      reads this
    {
      forall c, d :: c in sessions && d in sessions && sessions[c] == sessions[d] ==> c == d
    }

    ghost function Repr(): set<object>
      reads this
    {
      {this, device} + set c | c in sessions :: sessions[c]
    }

    ghost function Value(): Client
      reads this, device, set c | c in sessions :: sessions[c]
    {
      Client(device.Value(), map c | c in sessions :: sessions[c].Value())
    }

    constructor (device: DeviceState)
      ensures Valid() && this.device == device && Value() == Client(device.Value(), map[])
    {
      this.device := device;
      sessions := map[];
    }

    /** Enters a session object that no conversation uses yet. */
    method Adopt(conv: nat, sess: SessionState)
      requires Valid() && conv !in sessions && forall c <- sessions :: sessions[c] != sess
      modifies this
      ensures Valid() && sessions == old(sessions)[conv := sess]
      ensures Value() == Client(device.Value(), old(Value()).sessions[conv := sess.Value()])
    {
      sessions := sessions[conv := sess];
    }

    method EnsureSession(conv: nat, bundle: Option<PrekeyBundle>, seed: nat)
      returns (r: Result<(SessionState, Field<HandshakeMessage>), ClientError>)
      requires Valid()
      modifies this
      ensures Valid()
      ensures forall c <- sessions :: (c in old(sessions) && sessions[c] == old(sessions)[c]) || fresh(sessions[c])
      ensures match Clients.EnsureSession(old(Value()), conv, bundle, seed)
              case Err(e) => r == Err(e) && Value() == old(Value())
              case Ok(ready) =>
                && r.Ok? && conv in sessions && r.value.0 == sessions[conv]
                && Value() == ready.client && r.value.0.Value() == ready.sess && r.value.1 == ready.handshake
    {
      hide Handshake.InitSession;
      if conv in sessions {
        return Ok((sessions[conv], Absent));
      }
      if bundle.None? {
        return Err(FetchFailed);
      }
      var init := device.InitSession(bundle.value, seed);
      if init.Err? {
        return Err(CryptoFailed(init.error));
      }
      Adopt(conv, init.value.0);
      return Ok((init.value.0, Present(init.value.1)));
    }

    method PrepareSend(conv: nat, bundle: Option<PrekeyBundle>, plaintext: Bytes, seed: nat)
      returns (r: Result<Envelope, ClientError>)
      requires Valid()
      modifies Repr()
      ensures Valid()
      ensures forall c <- sessions :: (c in old(sessions) && sessions[c] == old(sessions)[c]) || fresh(sessions[c])
      ensures (Value(), r) == Clients.PrepareSend(old(Value()), conv, bundle, plaintext, seed)
    {
      hide RatchetSpec.Encrypt, Handshake.InitSession;
      var ready := EnsureSession(conv, bundle, seed);
      if ready.Err? {
        return Err(ready.error);
      }
      var (sess, handshake) := ready.value;
      ghost var before := Value();
      var sent := sess.Encrypt(plaintext, seed);
      OneSessionChanged(before, conv, sess);
      if sent.Err? {
        assert before.sessions[conv := before.sessions[conv]] == before.sessions;
        return Err(CryptoFailed(sent.error));
      }
      return Ok(Envelope(conv, Present(sent.value.0), Present(sent.value.1), handshake));
    }

    /** Two values of the client that differ in one conversation only. */
    lemma OneSessionChanged(before: Client, conv: nat, sess: SessionState)
      requires conv in sessions && sessions[conv] == sess
      requires before.device == device.Value() && before.sessions.Keys == sessions.Keys
      requires forall c <- sessions :: c != conv ==> before.sessions[c] == sessions[c].Value()
      ensures Value() == before.(sessions := before.sessions[conv := sess.Value()])
    {
    }

    lemma OnlyDeviceChanged(before: map<nat, Session>)
      requires before.Keys == sessions.Keys && forall c <- sessions :: before[c] == sessions[c].Value()
      ensures Value() == Client(device.Value(), before)
    {
    }

    /** The session of the envelope's conversation, accepting its handshake if there is none yet. */
    method SessionFor(env: Envelope) returns (r: Result<SessionState, ClientError>)
      requires Valid()
      modifies this, device
      ensures Valid()
      ensures forall c <- sessions :: (c in old(sessions) && sessions[c] == old(sessions)[c]) || fresh(sessions[c])
      ensures Value() == Clients.SessionFor(old(Value()), env).0
      ensures match Clients.SessionFor(old(Value()), env).1
              case Err(e) => r == Err(e)
              case Ok(s) => r.Ok? && env.conv in sessions && r.value == sessions[env.conv] && r.value.Value() == s
    {
      hide Handshake.AcceptSession;
      if env.conv in sessions {
        return Ok(sessions[env.conv]);
      }
      if env.handshake.Absent? {
        return Err(MissingHandshake);
      }
      if env.handshake.Malformed? {
        return Err(BadEnvelope);
      }
      ghost var before := Value();
      var accepted := device.AcceptSession(env.handshake.value);
      OnlyDeviceChanged(before.sessions);
      if accepted.Err? {
        return Err(CryptoFailed(accepted.error));
      }
      Adopt(env.conv, accepted.value);
      return Ok(accepted.value);
    }

    method HandleInbound(env: Envelope) returns (r: Result<Bytes, ClientError>, ghost evictions: Evictions)
      requires Valid()
      modifies Repr()
      ensures Valid()
      ensures forall c <- sessions :: (c in old(sessions) && sessions[c] == old(sessions)[c]) || fresh(sessions[c])
      ensures (Value(), r) == Clients.HandleInbound(old(Value()), env, evictions)
    {
      hide RatchetSpec.Decrypt, Clients.SessionFor;
      evictions := [];
      if !env.ciphertext.Present? {
        return Err(BadEnvelope), [];
      }
      var found := SessionFor(env);
      if found.Err? {
        return Err(found.error), [];
      }
      var sess := found.value;
      if !env.ratchet.Present? {
        return Err(BadEnvelope), [];
      }
      ghost var before := Value();
      var plain: Result<Bytes, Error>;
      plain, evictions := sess.Decrypt(env.ciphertext.value, env.ratchet.value);
      OneSessionChanged(before, env.conv, sess);
      r := match plain case Ok(plaintext) => Ok(plaintext) case Err(e) => Err(CryptoFailed(e));
    }
  }
}
