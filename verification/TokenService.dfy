/** The token service object. */
module TokenServices {
  import opened Crypto
  import opened RefreshTokens

  /** Whether the audience list holds the expected one. */
  method ContainsAudience(audience: seq<string>, expected: string) returns (found: bool)
    ensures found <==> expected in audience
  {
    for i := 0 to |audience|
      invariant expected !in audience[..i]
    {
      if audience[i] == expected {
        return true;
      }
    }
    return false;
  }

  method ParseToken(cfg: Config, t: Token, now: int) returns (ok: bool)
    ensures ok <==> Parses(cfg, t, now)
  {
    if t.key != cfg.key || now >= t.expiresAt || t.issuer != cfg.issuer {
      return false;
    }
    ok := ContainsAudience(t.audience, cfg.audience);
  }

  lemma RunTwo(s: Service, first: Event, second: Event)
    ensures Run(s, [first, second]) == Step(Step(s, first), second)
  {
    var events := [first, second];
    assert events[1..] == [second] && [second][1..] == [];
    calc {
      Run(s, events);
      Run(Step(s, first), [second]);
      Run(Step(Step(s, first), second), []);
    }
  }

  class TokenService {
    const cfg: Config
    var rows: map<nat, Row>
    var nextId: nat
    /** The service as the state machine sees it, with all it handed out. */
    ghost var history: Service

    ghost predicate Valid()
      reads this
    {
      history.cfg == cfg && history.rows == rows && history.nextId == nextId && ServiceOk(history)
    }

    constructor (cfg: Config)
      ensures Valid() && history == Empty(cfg)
    {
      this.cfg, rows, nextId, history := cfg, map[], 0, Empty(cfg);
    }

    /** A pair of this time: both tokens signed for this service and naming one session, the access
        token with the access lifetime and the refresh token with the refresh lifetime. */
    predicate MintedFor(pair: Pair, time: int) {
      && pair.access.key == cfg.key && pair.refresh.key == cfg.key
      && pair.access.issuer == cfg.issuer && pair.refresh.issuer == cfg.issuer
      && pair.access.audience == [cfg.audience] && pair.refresh.audience == [cfg.audience]
      && pair.access.sid == pair.refresh.sid && pair.access.id != pair.refresh.id
      && pair.access.expiresAt == time + cfg.accessTtl && pair.refresh.expiresAt == time + cfg.refreshTtl
    }

    lemma NextIsNew(s: Service)
      requires ServiceOk(s)
      ensures s.nextId !in s.rows
    {
      assert s.nextId in s.rows ==> RowAt(s, s.nextId);
    }

    method Issue(user: nat, device: Option<nat>, now: int) returns (pair: Pair)
      requires Valid()
      modifies this
      ensures Valid() && history == Step(old(history), RefreshTokens.Issue(user, device, now))
      ensures history.minted == old(history).minted + [pair] && history.times == old(history).times + [now]
      ensures MintedFor(pair, now) && pair.access.sid !in old(rows) && pair.access.device == device
      ensures rows == old(rows)[pair.access.sid := Row(user, device, pair.refresh.id, now + cfg.refreshTtl, None)]
    {
      hide ServiceOk;
      StepKeepsOk(history, RefreshTokens.Issue(user, device, now));
      NextIsNew(history);
      history := Step(history, RefreshTokens.Issue(user, device, now));
      var sid := nextId;
      var row := Row(user, device, nextId + 1, now + cfg.refreshTtl, None);
      rows := rows[sid := row];
      pair := Mint(cfg, sid, row, nextId + 2, now);
      nextId := nextId + 3;
    }

    /** The first half of a refresh: checks the token and looks its session up. */
    method ReadForRefresh(request: nat, t: Token, now: int) returns (r: Option<Reading>)
      requires Valid() && request !in history.inFlight
      modifies this`history
      ensures Valid() && history == Step(old(history), Read(request, t, now))
      ensures r.Some? <==> Accepted(old(history), t, now)
      ensures r.Some? ==> request in history.inFlight && history.inFlight[request] == r.value
      ensures r.Some? <==>
        && t.key == cfg.key && t.issuer == cfg.issuer && cfg.audience in t.audience && now < t.expiresAt
        && exists sid <- rows :: rows[sid].refreshId == t.id && rows[sid].revokedAt.None? && now <= rows[sid].expiresAt
      ensures r.Some? ==>
        r.value.sid in rows && r.value.row == rows[r.value.sid] && r.value.row.refreshId == t.id && r.value.now == now
    {
      StepKeepsOk(history, Read(request, t, now));
      ghost var before := history;
      history := Step(history, Read(request, t, now));
      hide ServiceOk;
      var ok := ParseToken(cfg, t, now);
      if !ok || !exists sid <- rows :: rows[sid].refreshId == t.id {
        assert forall sid <- rows :: Names(before, t, sid) ==> rows[sid].refreshId == t.id;
        return None;
      }
      var sid :| sid in rows && rows[sid].refreshId == t.id;
      NamedOnce(before, t, sid);
      if rows[sid].revokedAt.Some? || now > rows[sid].expiresAt {
        return None;
      }
      return Some(Reading(sid, rows[sid], now));
    }

    lemma NamedOnce(s: Service, t: Token, sid: nat)
      requires ServiceOk(s) && Names(s, t, sid)
      ensures forall other :: Names(s, t, other) ==> other == sid
    {
    }

    lemma ReadingsHaveRows(s: Service, request: nat)
      requires ServiceOk(s) && request in s.inFlight
      ensures s.inFlight[request].sid in s.rows
    {
    }

    /** The second half: rotates the row unless it was revoked meanwhile, and mints a new pair in
        either case. */
    method RotateAndMint(request: nat, read: Reading) returns (pair: Pair)
      requires Valid() && request in history.inFlight && history.inFlight[request] == read
      modifies this
      ensures Valid() && history == Step(old(history), Rotate(request))
      ensures history.minted == old(history).minted + [pair] && history.times == old(history).times + [read.now]
      ensures MintedFor(pair, read.now) && pair.access.sid == read.sid && pair.access.device == read.row.device
      ensures read.sid in old(rows) && var row := old(rows)[read.sid];
        rows == if row.revokedAt.Some? then old(rows)
                else old(rows)[read.sid := row.(refreshId := pair.refresh.id, expiresAt := read.now + cfg.refreshTtl)]
    {
      ReadingsHaveRows(history, request);
      hide ServiceOk;
      StepKeepsOk(history, Rotate(request));
      history := Step(history, Rotate(request));
      var newId, newExpiry := nextId, read.now + cfg.refreshTtl;
      if read.sid in rows && rows[read.sid].revokedAt.None? {
        rows := rows[read.sid := rows[read.sid].(refreshId := newId, expiresAt := newExpiry)];
      }
      pair := Mint(cfg, read.sid, read.row.(refreshId := newId, expiresAt := newExpiry), nextId + 1, read.now);
      nextId := nextId + 2;
    }

    /** A refresh that nothing interrupts: it succeeds exactly for an accepted token, which it
        replaces by the one it returns. */
    method Refresh(request: nat, t: Token, now: int) returns (r: Option<Pair>)
      requires Valid() && request !in history.inFlight
      modifies this
      ensures Valid() && history == Run(old(history), [Read(request, t, now), Rotate(request)])
      ensures r.Some? <==> Accepted(old(history), t, now)
      ensures r.Some? ==> history.minted == old(history).minted + [r.value]
      ensures r.None? ==> rows == old(rows)
      ensures r.Some? ==>
        && MintedFor(r.value, now) && var sid := r.value.access.sid;
        && sid in old(rows) && old(rows)[sid].refreshId == t.id && r.value.access.device == old(rows)[sid].device
        && rows == old(rows)[sid := old(rows)[sid].(refreshId := r.value.refresh.id, expiresAt := now + cfg.refreshTtl)]
      ensures r.Some? && cfg.refreshTtl > 0 ==> Accepted(history, r.value.refresh, now) && !Accepted(history, t, now)
    {
      ghost var before := history;
      hide ServiceOk, Accepted;
      RunTwo(before, Read(request, t, now), Rotate(request));
      var read := ReadForRefresh(request, t, now);
      if read.None? {
        return None;
      }
      if cfg.refreshTtl > 0 {
        RefreshReplaces(before, request, t, now);
      }
      var pair := RotateAndMint(request, read.value);
      return Some(pair);
    }

    method RevokeSession(sid: nat, now: int)
      requires Valid()
      modifies this
      ensures Valid() && history == Step(old(history), Revoke(sid, now))
      ensures sid in old(rows) ==> rows == old(rows)[sid := old(rows)[sid].(revokedAt := Some(now))]
      ensures sid !in old(rows) ==> rows == old(rows)
    {
      hide ServiceOk;
      StepKeepsOk(history, Revoke(sid, now));
      history := Step(history, Revoke(sid, now));
      if sid in rows {
        rows := rows[sid := rows[sid].(revokedAt := Some(now))];
      }
    }

    method VerifyAccess(t: Token, now: int) returns (valid: bool)
      requires Valid()
      ensures valid <==> RefreshTokens.VerifyAccess(history, t, now)
      ensures valid <==>
        && t.key == cfg.key && t.issuer == cfg.issuer && cfg.audience in t.audience && now < t.expiresAt
        && t.sid in rows && rows[t.sid].revokedAt.None? && now <= rows[t.sid].expiresAt
    {
      var ok := ParseToken(cfg, t, now);
      if !ok || t.sid !in rows {
        return false;
      }
      valid := rows[t.sid].revokedAt.None? && now <= rows[t.sid].expiresAt;
    }
  }
}
