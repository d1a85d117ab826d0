/** Sessions of the auth service: issuing, refreshing and revoking, where a refresh reads the
    session in one step and rotates it in another, with anything in between. */
module RefreshTokens {
  import opened Crypto

  datatype Config = Config(issuer: string, audience: string, accessTtl: int, refreshTtl: int, key: nat)

  /** A signed claim set.  Access and refresh tokens have the same shape. */
  datatype Token = Token(
    key: nat,
    issuer: string,
    audience: seq<string>,
    sid: nat,
    id: nat,
    device: Option<nat>,
    expiresAt: int)

  datatype Row = Row(user: nat, device: Option<nat>, refreshId: nat, expiresAt: int, revokedAt: Option<int>)

  datatype Pair = Pair(access: Token, refresh: Token)

  /** `inFlight` holds what each refresh in flight has read, and when it began; `commits` is, for each
      session, the refresh ID of every rotation that took effect; `minted` is every pair handed out,
      and `times` when each was minted. */
  datatype Service = Service(
    cfg: Config,
    rows: map<nat, Row>,
    inFlight: map<nat, Reading>,
    nextId: nat,
    commits: map<nat, seq<nat>>,
    minted: seq<Pair>,
    times: seq<int>)

  datatype Reading = Reading(sid: nat, row: Row, now: int)

  datatype Event =
    | Issue(user: nat, device: Option<nat>, now: int)
    | Read(request: nat, token: Token, now: int)
    | Rotate(request: nat)
    | Revoke(sid: nat, now: int)

  // Tokens

  predicate Parses(cfg: Config, t: Token, now: int) {
    t.key == cfg.key && t.issuer == cfg.issuer && cfg.audience in t.audience && now < t.expiresAt
  }

  function Mint(cfg: Config, sid: nat, row: Row, accessId: nat, now: int): Pair {
    Pair(Token(cfg.key, cfg.issuer, [cfg.audience], sid, accessId, row.device, now + cfg.accessTtl),
         Token(cfg.key, cfg.issuer, [cfg.audience], sid, row.refreshId, None, row.expiresAt))
  }

  predicate Alive(row: Row, now: int) {
    row.revokedAt.None? && now <= row.expiresAt
  }

  /** The session that a refresh token names, by its refresh ID alone. */
  predicate Names(s: Service, t: Token, sid: nat) {
    sid in s.rows && s.rows[sid].refreshId == t.id
  }

  /** A refresh that reads now goes on to the rotation. */
  predicate Accepted(s: Service, t: Token, now: int) {
    Parses(s.cfg, t, now) && exists sid <- s.rows :: Names(s, t, sid) && Alive(s.rows[sid], now)
  }

  predicate VerifyAccess(s: Service, t: Token, now: int) {
    Parses(s.cfg, t, now) && t.sid in s.rows && Alive(s.rows[t.sid], now)
  }

  // Steps.  IDs are random in the source; here they count up.

  /** The rotation's update touches a session that is not revoked, and no row otherwise. */
  predicate Rotatable(rows: map<nat, Row>, sid: nat) {
    sid in rows && rows[sid].revokedAt.None?
  }

  function RowsRotated(rows: map<nat, Row>, sid: nat, refreshId: nat, expiresAt: int): map<nat, Row> {
    if Rotatable(rows, sid) then rows[sid := rows[sid].(refreshId := refreshId, expiresAt := expiresAt)] else rows
  }

  function Committed(commits: map<nat, seq<nat>>, sid: nat, refreshId: nat): map<nat, seq<nat>> {
    commits[sid := (if sid in commits then commits[sid] else []) + [refreshId]]
  }

  ghost function Step(s: Service, e: Event): Service {
    match e
    case Issue(user, device, now) =>
      var sid := s.nextId;
      var row := Row(user, device, s.nextId + 1, now + s.cfg.refreshTtl, None);
      s.(rows := s.rows[sid := row], nextId := s.nextId + 3, commits := Committed(s.commits, sid, s.nextId + 1),
         minted := s.minted + [Mint(s.cfg, sid, row, s.nextId + 2, now)], times := s.times + [now])
    case Read(request, token, now) =>
      if request in s.inFlight || !Accepted(s, token, now) then s
      else
        var sid :| sid in s.rows && Names(s, token, sid) && Alive(s.rows[sid], now);
        s.(inFlight := s.inFlight[request := Reading(sid, s.rows[sid], now)])
    case Rotate(request) =>
      if request !in s.inFlight then s
      else
        var r := s.inFlight[request];
        var row := r.row.(refreshId := s.nextId, expiresAt := r.now + s.cfg.refreshTtl);
        s.(rows := RowsRotated(s.rows, r.sid, row.refreshId, row.expiresAt),
           inFlight := s.inFlight - {request}, nextId := s.nextId + 2,
           commits := if Rotatable(s.rows, r.sid) then Committed(s.commits, r.sid, row.refreshId) else s.commits,
           minted := s.minted + [Mint(s.cfg, r.sid, row, s.nextId + 1, r.now)], times := s.times + [r.now])
    case Revoke(sid, now) =>
      if sid in s.rows then s.(rows := s.rows[sid := s.rows[sid].(revokedAt := Some(now))]) else s
  }

  ghost function Run(s: Service, events: seq<Event>): Service
    decreases |events|
  {
    if events == [] then s else Run(Step(s, events[0]), events[1..])
  }

  function Empty(cfg: Config): Service {
    Service(cfg, map[], map[], 0, map[], [], [])
  }

  // The invariant

  predicate Signed(cfg: Config, t: Token) {
    t.key == cfg.key && t.issuer == cfg.issuer && t.audience == [cfg.audience]
  }

  ghost predicate MintedAt(s: Service, i: nat)
    requires i < |s.minted| == |s.times|
  {
    var refresh, access := s.minted[i].refresh, s.minted[i].access;
    && Signed(s.cfg, refresh) && Signed(s.cfg, access)
    && refresh.id < s.nextId && access.id < s.nextId
    && access.sid == refresh.sid && access.sid in s.rows && access.device == s.rows[access.sid].device
    && access.expiresAt == s.times[i] + s.cfg.accessTtl && refresh.expiresAt == s.times[i] + s.cfg.refreshTtl
    && forall sid :: (Names(s, refresh, sid) ==> sid == refresh.sid && s.rows[sid].expiresAt == refresh.expiresAt)
                  && !Names(s, access, sid)
  }

  ghost predicate RowAt(s: Service, sid: nat)
    requires sid in s.rows
  {
    && sid < s.nextId && s.rows[sid].refreshId < s.nextId
    && sid in s.commits && s.commits[sid] != [] && s.commits[sid][|s.commits[sid]| - 1] == s.rows[sid].refreshId
  }

  ghost predicate SameRefreshId(s: Service, i: nat, j: nat)
    requires i < |s.minted| && j < |s.minted|
  {
    s.minted[i].refresh.id == s.minted[j].refresh.id
  }

  predicate UniqueRefreshIds(rows: map<nat, Row>) {
    forall a, b :: a in rows && b in rows && rows[a].refreshId == rows[b].refreshId ==> a == b
  }

  predicate SameOwner(row: Row, row': Row) {
    row'.user == row.user && row'.device == row.device
  }

  ghost predicate TokensOk(s: Service) {
    && |s.times| == |s.minted|
    && (forall i :: 0 <= i < |s.minted| ==> MintedAt(s, i))
    && (forall i, j :: 0 <= i < j < |s.minted| ==> !SameRefreshId(s, i, j))
  }

  ghost predicate RowsOk(s: Service) {
    UniqueRefreshIds(s.rows) && forall sid <- s.rows :: RowAt(s, sid)
  }

  ghost predicate ReadingsOk(s: Service) {
    forall q <- s.inFlight :: s.inFlight[q].sid in s.rows && SameOwner(s.rows[s.inFlight[q].sid], s.inFlight[q].row)
  }

  ghost predicate ServiceOk(s: Service) {
    TokensOk(s) && RowsOk(s) && ReadingsOk(s)
  }

  /** Sessions stay with their user and device, and a revoked one keeps its refresh ID and its expiry and
      stays revoked. */
  ghost predicate Later(s: Service, s': Service) {
    && s'.cfg == s.cfg && s.minted <= s'.minted && s.times <= s'.times
    && forall sid <- s.rows ::
         && sid in s'.rows && SameOwner(s.rows[sid], s'.rows[sid])
         && (s.rows[sid].revokedAt.Some? ==> Frozen(s.rows[sid], s'.rows[sid]))
  }

  predicate Frozen(row: Row, row': Row) {
    row'.revokedAt.Some? && row' == row.(revokedAt := row'.revokedAt)
  }

  /** At most one pair is new, and what the service knew of an old refresh ID it still knows. */
  ghost predicate Extends(s: Service, s': Service) {
    && s.nextId <= s'.nextId && |s'.minted| == |s'.times| <= |s.minted| + 1
    && forall sid <- s'.rows :: s'.rows[sid].refreshId < s.nextId ==>
         && sid in s.rows && s'.rows[sid].refreshId == s.rows[sid].refreshId
         && s'.rows[sid].expiresAt == s.rows[sid].expiresAt
  }

  /** Old tokens name what they named, or nothing. */
  lemma OldTokensKeep(s: Service, s': Service, i: nat)
    requires i < |s.minted| == |s.times| && MintedAt(s, i) && Later(s, s') && Extends(s, s')
    ensures MintedAt(s', i)
  {
  }

  lemma TokensKeep(s: Service, s': Service)
    requires TokensOk(s) && Later(s, s') && Extends(s, s')
    requires |s.minted| < |s'.minted| ==>
      MintedAt(s', |s.minted|) && s'.minted[|s.minted|].refresh.id >= s.nextId
    ensures TokensOk(s')
  {
    forall i | 0 <= i < |s'.minted|
      ensures MintedAt(s', i) && (i < |s.minted| ==> s'.minted[i].refresh.id < s.nextId)
    {
      if i < |s.minted| {
        OldTokensKeep(s, s', i);
        assert MintedAt(s, i);
      }
    }
    hide MintedAt, Later, Extends;
    forall i, j | 0 <= i < j < |s'.minted|
      ensures !SameRefreshId(s', i, j)
    {
      assert s.minted <= s'.minted by { LaterMinted(s, s'); }
      assert j < |s.minted| ==> !SameRefreshId(s, i, j);
    }
  }

  lemma LaterMinted(s: Service, s': Service)
    requires Later(s, s') && Extends(s, s')
    ensures s.minted <= s'.minted && |s'.minted| <= |s.minted| + 1
  {
  }

  lemma IssueKeepsRows(s: Service, user: nat, device: Option<nat>, now: int)
    requires RowsOk(s) && ReadingsOk(s) && |s.times| == |s.minted|
    ensures var s' := Step(s, Issue(user, device, now));
      RowsOk(s') && ReadingsOk(s') && Later(s, s') && Extends(s, s')
  {
    var s' := Step(s, Issue(user, device, now));
    assert forall sid <- s.rows :: RowAt(s, sid);
    forall sid <- s'.rows
      ensures RowAt(s', sid)
    {
      assert sid in s.rows ==> RowAt(s, sid);
    }
  }

  lemma IssuedToken(s: Service, user: nat, device: Option<nat>, now: int)
    requires RowsOk(s) && |s.times| == |s.minted|
    ensures MintedAt(Step(s, Issue(user, device, now)), |s.minted|)
  {
    assert forall sid <- s.rows :: RowAt(s, sid);
  }

  lemma IssueKeepsOk(s: Service, user: nat, device: Option<nat>, now: int)
    requires ServiceOk(s)
    ensures ServiceOk(Step(s, Issue(user, device, now))) && Later(s, Step(s, Issue(user, device, now)))
  {
    IssueKeepsRows(s, user, device, now);
    IssuedToken(s, user, device, now);
    hide RowsOk, ReadingsOk, Later, Extends, MintedAt;
    TokensKeep(s, Step(s, Issue(user, device, now)));
  }

  lemma RotateKeepsRows(s: Service, request: nat)
    requires RowsOk(s) && ReadingsOk(s) && request in s.inFlight && |s.times| == |s.minted|
    ensures RowsOk(Step(s, Rotate(request))) && ReadingsOk(Step(s, Rotate(request)))
  {
    var s' := Step(s, Rotate(request));
    forall sid <- s'.rows
      ensures RowAt(s', sid)
    {
      assert RowAt(s, sid);
    }
  }

  lemma RotateExtends(s: Service, request: nat)
    requires RowsOk(s) && ReadingsOk(s) && request in s.inFlight && |s.times| == |s.minted|
    ensures Later(s, Step(s, Rotate(request))) && Extends(s, Step(s, Rotate(request)))
  {
    assert forall sid <- s.rows :: RowAt(s, sid);
  }

  lemma RotatedToken(s: Service, request: nat)
    requires RowsOk(s) && ReadingsOk(s) && request in s.inFlight && |s.times| == |s.minted|
    ensures MintedAt(Step(s, Rotate(request)), |s.minted|)
  {
    assert forall sid <- s.rows :: RowAt(s, sid);
  }

  lemma RotateKeepsOk(s: Service, request: nat)
    requires ServiceOk(s) && request in s.inFlight
    ensures ServiceOk(Step(s, Rotate(request))) && Later(s, Step(s, Rotate(request)))
  {
    RotateKeepsRows(s, request);
    RotateExtends(s, request);
    RotatedToken(s, request);
    hide RowsOk, ReadingsOk, Later, Extends, MintedAt;
    TokensKeep(s, Step(s, Rotate(request)));
  }

  lemma ReadKeepsRows(s: Service, request: nat, token: Token, now: int)
    requires RowsOk(s) && ReadingsOk(s) && |s.times| == |s.minted|
    ensures var s' := Step(s, Read(request, token, now));
      RowsOk(s') && ReadingsOk(s') && Later(s, s') && Extends(s, s')
  {
    var s' := Step(s, Read(request, token, now));
    assert s'.rows == s.rows && s'.commits == s.commits && s'.minted == s.minted;
    assert forall sid <- s.rows :: RowAt(s, sid) ==> RowAt(s', sid);
  }

  lemma ReadKeepsOk(s: Service, request: nat, token: Token, now: int)
    requires ServiceOk(s)
    ensures ServiceOk(Step(s, Read(request, token, now))) && Later(s, Step(s, Read(request, token, now)))
  {
    ReadKeepsRows(s, request, token, now);
    hide RowsOk, ReadingsOk, Later, Extends, MintedAt, Accepted;
    TokensKeep(s, Step(s, Read(request, token, now)));
  }

  lemma RevokeKeepsRows(s: Service, sid: nat, now: int)
    requires RowsOk(s) && ReadingsOk(s) && |s.times| == |s.minted|
    ensures var s' := Step(s, Revoke(sid, now));
      RowsOk(s') && ReadingsOk(s') && Later(s, s') && Extends(s, s')
  {
    var s' := Step(s, Revoke(sid, now));
    forall other <- s.rows
      ensures RowAt(s', other) && s'.rows[other] == s.rows[other].(revokedAt := s'.rows[other].revokedAt)
    {
      assert RowAt(s, other);
    }
    hide Step, RowAt;
  }

  lemma RevokeKeepsOk(s: Service, sid: nat, now: int)
    requires ServiceOk(s)
    ensures ServiceOk(Step(s, Revoke(sid, now))) && Later(s, Step(s, Revoke(sid, now)))
  {
    RevokeKeepsRows(s, sid, now);
    hide RowsOk, ReadingsOk, Later, Extends, MintedAt;
    TokensKeep(s, Step(s, Revoke(sid, now)));
  }

  lemma StepKeepsOk(s: Service, e: Event)
    requires ServiceOk(s)
    ensures ServiceOk(Step(s, e)) && Later(s, Step(s, e))
  {
    match e
    case Issue(user, device, now) => IssueKeepsOk(s, user, device, now);
    case Rotate(request) =>
      if request in s.inFlight {
        RotateKeepsOk(s, request);
      }
    case Read(request, token, now) => ReadKeepsOk(s, request, token, now);
    case Revoke(sid, now) => RevokeKeepsOk(s, sid, now);
  }

  lemma {:induction false} RunKeepsOk(s: Service, events: seq<Event>)
    requires ServiceOk(s)
    ensures ServiceOk(Run(s, events)) && Later(s, Run(s, events))
    decreases |events|
  {
    if events != [] {
      hide Step, ServiceOk;
      StepKeepsOk(s, events[0]);
      RunKeepsOk(Step(s, events[0]), events[1..]);
    }
  }

  // Refresh tokens

  function LastCommit(s: Service, sid: nat): Option<nat> {
    if sid in s.commits && s.commits[sid] != [] then Some(s.commits[sid][|s.commits[sid]| - 1]) else None
  }

  /** Two refresh tokens of one session, both good. */
  predicate BothAccepted(s: Service, i: nat, j: nat, now: int)
    requires i < |s.minted| && j < |s.minted|
  {
    var t, u := s.minted[i].refresh, s.minted[j].refresh;
    t.sid == u.sid && Accepted(s, t, now) && Accepted(s, u, now)
  }

  /** In every run, a refresh token that was handed out is accepted exactly when it carries the ID of
      its session's last rotation that took effect, has not expired, and the session is not revoked.
      So a session never has two good refresh tokens; and an access token never refreshes. */
  lemma OnlyTheLastRotationRefreshes(cfg: Config, events: seq<Event>, i: nat, now: int)
    requires i < |Run(Empty(cfg), events).minted|
    ensures var s := Run(Empty(cfg), events);
      var t := s.minted[i].refresh;
      && (Accepted(s, t, now) <==>
            now < t.expiresAt && t.sid in s.rows && s.rows[t.sid].revokedAt.None? && LastCommit(s, t.sid) == Some(t.id))
      && (forall j :: 0 <= j < |s.minted| && BothAccepted(s, i, j, now) ==> i == j)
      && !Accepted(s, s.minted[i].access, now)
  {
    RunKeepsOk(Empty(cfg), events);
    var s := Run(Empty(cfg), events);
    hide Run;
    AcceptedExactly(s, i, now);
    forall j | 0 <= j < |s.minted| && BothAccepted(s, i, j, now)
      ensures i == j
    {
      AcceptedExactly(s, j, now);
      assert i < j ==> !SameRefreshId(s, i, j);
      assert j < i ==> !SameRefreshId(s, j, i);
    }
  }

  lemma AcceptedExactly(s: Service, i: nat, now: int)
    requires ServiceOk(s) && i < |s.minted|
    ensures var t := s.minted[i].refresh;
      Accepted(s, t, now) <==>
        now < t.expiresAt && t.sid in s.rows && s.rows[t.sid].revokedAt.None? && LastCommit(s, t.sid) == Some(t.id)
    ensures !Accepted(s, s.minted[i].access, now)
  {
    assert MintedAt(s, i);
    var t := s.minted[i].refresh;
    if t.sid in s.rows {
      assert RowAt(s, t.sid);
      if LastCommit(s, t.sid) == Some(t.id) {
        assert Names(s, t, t.sid);
      }
    }
  }

  /** A refresh that nothing interrupts replaces the token: the new one is good, the old one is not. */
  lemma RefreshReplaces(s: Service, request: nat, t: Token, now: int)
    requires ServiceOk(s) && request !in s.inFlight && Accepted(s, t, now) && s.cfg.refreshTtl > 0
    ensures var s' := Step(Step(s, Read(request, t, now)), Rotate(request));
      && |s'.minted| == |s.minted| + 1
      && Accepted(s', s'.minted[|s.minted|].refresh, now)
      && !Accepted(s', t, now)
  {
    var s1 := Step(s, Read(request, t, now));
    var s' := Step(s1, Rotate(request));
    ReadKeepsOk(s, request, t, now);
    RotateKeepsOk(s1, request);
    var sid := s1.inFlight[request].sid;
    assert Names(s, t, sid);
    assert RowAt(s, sid);
    forall other
      ensures !Names(s', t, other)
    {
      assert other != sid ==> (Names(s', t, other) <==> Names(s, t, other));
    }
    assert Names(s', s'.minted[|s.minted|].refresh, sid);
  }

  // Revocation

  lemma {:induction false} RunAppend(s: Service, events: seq<Event>, more: seq<Event>)
    ensures Run(s, events + more) == Run(Run(s, events), more)
    decreases |events|
  {
    if events == [] {
      assert events + more == more;
    } else {
      assert (events + more)[1..] == events[1..] + more;
      RunAppend(Step(s, events[0]), events[1..], more);
    }
  }

  /** Once a session is revoked, no refresh token ever handed out for it, even by a refresh that was
      under way, is accepted again, and no token of it verifies; and its refresh ID never moves. */
  lemma RevokedForGood(cfg: Config, events: seq<Event>, more: seq<Event>, sid: nat, i: nat, t: Token, now: int)
    requires var s := Run(Empty(cfg), events); sid in s.rows && s.rows[sid].revokedAt.Some?
    requires i < |Run(Empty(cfg), events + more).minted|
    ensures var s, s' := Run(Empty(cfg), events), Run(Empty(cfg), events + more);
      && sid in s'.rows && Frozen(s.rows[sid], s'.rows[sid])
      && (s'.minted[i].refresh.sid == sid ==> !Accepted(s', s'.minted[i].refresh, now))
      && (t.sid == sid ==> !VerifyAccess(s', t, now))
  {
    RunAppend(Empty(cfg), events, more);
    RunKeepsOk(Empty(cfg), events);
    var s := Run(Empty(cfg), events);
    RunKeepsOk(s, more);
    hide Run;
    AcceptedExactly(Run(s, more), i, now);
  }

  // A refresh overtaken by a revocation

  /** The second half of a refresh always answers.  The new refresh token is good, until it expires,
      exactly if the session was not revoked in between. */
  lemma RotationIsGoodUnlessRevoked(s: Service, request: nat, now: int)
    requires ServiceOk(s) && request in s.inFlight
    ensures var r, s' := s.inFlight[request], Step(s, Rotate(request));
      && |s'.minted| == |s.minted| + 1 && s'.minted[|s.minted|].refresh.sid == r.sid
      && (Accepted(s', s'.minted[|s.minted|].refresh, now) <==>
            s.rows[r.sid].revokedAt.None? && now < r.now + s.cfg.refreshTtl)
  {
    var s', sid := Step(s, Rotate(request)), s.inFlight[request].sid;
    RotateKeepsOk(s, request);
    AcceptedExactly(s', |s.minted|, now);
    assert RowAt(s, sid);
  }

  /** In every run, a refresh whose session was revoked after its read still answers with a new pair,
      and neither token is good then or at any later point of the run. */
  lemma LateRefreshAnswersInVain(cfg: Config, events: seq<Event>, request: nat, more: seq<Event>, now: int)
    requires var s := Run(Empty(cfg), events);
      request in s.inFlight && s.inFlight[request].sid in s.rows && s.rows[s.inFlight[request].sid].revokedAt.Some?
    ensures var s, s' := Run(Empty(cfg), events), Run(Empty(cfg), events + ([Rotate(request)] + more));
      && |s.minted| < |s'.minted| && s'.minted[|s.minted|].refresh.sid == s.inFlight[request].sid
      && !Accepted(s', s'.minted[|s.minted|].refresh, now)
      && !VerifyAccess(s', s'.minted[|s.minted|].access, now)
  {
    var s, rest := Run(Empty(cfg), events), [Rotate(request)] + more;
    var i, sid := |s.minted|, s.inFlight[request].sid;
    RunKeepsOk(Empty(cfg), events);
    RotationIsGoodUnlessRevoked(s, request, now);
    var s1 := Step(s, Rotate(request));
    RotateKeepsOk(s, request);
    RunKeepsOk(s1, more);
    assert rest[0] == Rotate(request) && rest[1..] == more;
    RunAppend(Empty(cfg), events, rest);
    var s' := Run(s1, more);
    assert Run(Empty(cfg), events + rest) == s';
    assert s'.minted[i] == s1.minted[i];
    RevokedForGood(cfg, events, rest, sid, i, s'.minted[i].access, now);
    assert MintedAt(s1, i);
  }

  /** Such a refresh exists: issue, read, revoke. */
  lemma RefreshCanBeOvertaken(cfg: Config, user: nat)
    requires cfg.refreshTtl > 0
    ensures var s1 := Step(Empty(cfg), Issue(user, None, 0));
      var s := Step(Step(s1, Read(0, s1.minted[0].refresh, 0)), Revoke(0, 0));
      0 in s.inFlight && s.inFlight[0].sid in s.rows && s.rows[s.inFlight[0].sid].revokedAt.Some?
  {
  }

  // Refresh tokens given to VerifyAccess

  /** Nothing in a token says which kind it is: in every run, a refresh token that was handed out
      verifies as an access token exactly while it is unexpired and its session is alive, whether or
      not it was rotated out. */
  lemma RefreshTokensVerify(cfg: Config, events: seq<Event>, i: nat, now: int)
    requires i < |Run(Empty(cfg), events).minted|
    ensures var s := Run(Empty(cfg), events);
      var t := s.minted[i].refresh;
      VerifyAccess(s, t, now) <==>
        now < t.expiresAt && t.sid in s.rows && s.rows[t.sid].revokedAt.None? && now <= s.rows[t.sid].expiresAt
  {
    RunKeepsOk(Empty(cfg), events);
    assert MintedAt(Run(Empty(cfg), events), i);
  }

  /** After a refresh the old refresh token is refused by the next refresh and still verifies. */
  lemma RotatedOutStillVerifies(s: Service, request: nat, i: nat, now: int)
    requires ServiceOk(s) && request !in s.inFlight && s.cfg.refreshTtl > 0
    requires i < |s.minted| && Accepted(s, s.minted[i].refresh, now)
    ensures var s', t := Step(Step(s, Read(request, s.minted[i].refresh, now)), Rotate(request)), s.minted[i].refresh;
      !Accepted(s', t, now) && VerifyAccess(s', t, now)
  {
    var t := s.minted[i].refresh;
    RefreshReplaces(s, request, t, now);
    AcceptedExactly(s, i, now);
    assert MintedAt(s, i);
    assert Names(s, t, Step(s, Read(request, t, now)).inFlight[request].sid);
  }

  // Access tokens

  /** In every run, an access token that was handed out verifies exactly while it is younger than the
      access lifetime and its session is neither revoked nor expired.  It names the session of its
      refresh token and the session's device; the refresh token expires after the refresh lifetime. */
  lemma AccessTokensVerify(cfg: Config, events: seq<Event>, i: nat, now: int)
    requires i < |Run(Empty(cfg), events).minted|
    ensures var s := Run(Empty(cfg), events);
      var t := s.minted[i].access;
      && |s.times| == |s.minted| && t.sid in s.rows && t.device == s.rows[t.sid].device
      && (VerifyAccess(s, t, now) <==>
            now < s.times[i] + cfg.accessTtl && s.rows[t.sid].revokedAt.None? && now <= s.rows[t.sid].expiresAt)
      && s.minted[i].refresh.sid == t.sid && s.minted[i].refresh.expiresAt == s.times[i] + cfg.refreshTtl
  {
    RunKeepsOk(Empty(cfg), events);
    assert MintedAt(Run(Empty(cfg), events), i);
  }

  /** A token signed under another key, of another issuer, for another audience or expired is refused
      by both requests. */
  lemma ForeignTokensFail(s: Service, t: Token, now: int)
    requires t.key != s.cfg.key || t.issuer != s.cfg.issuer || s.cfg.audience !in t.audience || t.expiresAt <= now
    ensures !Accepted(s, t, now) && !VerifyAccess(s, t, now)
  {
  }

  ghost function At(cfg: Config, events: seq<Event>, k: nat): Service
    requires k <= |events|
  {
    Run(Empty(cfg), events[..k])
  }

  lemma AtNext(cfg: Config, events: seq<Event>, k: nat)
    requires k < |events|
    ensures At(cfg, events, k + 1) == Step(At(cfg, events, k), events[k])
  {
    hide Step;
    assert events[..k + 1] == events[..k] + [events[k]];
    RunAppend(Empty(cfg), events[..k], [events[k]]);
    assert [events[k]][1..] == [];
  }

  lemma AtLater(cfg: Config, events: seq<Event>, k: nat)
    requires k <= |events|
    ensures ServiceOk(At(cfg, events, k)) && Later(At(cfg, events, k), Run(Empty(cfg), events))
  {
    hide Step, ServiceOk, Later, Run;
    assert events == events[..k] + events[k..];
    RunAppend(Empty(cfg), events[..k], events[k..]);
    assert ServiceOk(Empty(cfg)) by { EmptyOk(cfg); }
    RunKeepsOk(Empty(cfg), events[..k]);
    RunKeepsOk(At(cfg, events, k), events[k..]);
  }

  lemma EmptyOk(cfg: Config)
    ensures ServiceOk(Empty(cfg))
  {
  }

  /** Request q read this session at event j, with a token that was good then. */
  ghost predicate ReadAt(cfg: Config, events: seq<Event>, j: nat, q: nat, sid: nat, time: int) {
    && j < |events| && events[j].Read? && events[j].request == q && events[j].now == time
    && Accepted(At(cfg, events, j), events[j].token, time) && Names(At(cfg, events, j), events[j].token, sid)
  }

  lemma {:induction false} ReadWhen(cfg: Config, events: seq<Event>, k: nat, q: nat) returns (j: nat)
    requires k <= |events| && q in At(cfg, events, k).inFlight
    ensures j < k && ReadAt(cfg, events, j, q, At(cfg, events, k).inFlight[q].sid, At(cfg, events, k).inFlight[q].now)
    decreases k
  {
    assert k > 0 by { assert At(cfg, events, 0) == Empty(cfg); }
    AtNext(cfg, events, k - 1);
    var s, s' := At(cfg, events, k - 1), At(cfg, events, k);
    if q in s.inFlight {
      assert s'.inFlight[q] == s.inFlight[q];
      j := ReadWhen(cfg, events, k - 1, q);
    } else {
      j := k - 1;
    }
  }

  /** Event k issued the session of pair i, or rotated it for a request that began at the pair's time
      with a token that was good then. */
  ghost predicate MintedBy(cfg: Config, events: seq<Event>, i: nat, k: nat)
    requires i < |Run(Empty(cfg), events).minted| == |Run(Empty(cfg), events).times|
  {
    var s := Run(Empty(cfg), events);
    var sid, time := s.minted[i].access.sid, s.times[i];
    && k < |events| && |At(cfg, events, k).minted| == i
    && match events[k]
       case Issue(user, device, now) =>
         && time == now && sid !in At(cfg, events, k).rows
         && sid in s.rows && s.rows[sid].user == user && s.rows[sid].device == device
       case Rotate(q) => exists j: nat :: j < k && ReadAt(cfg, events, j, q, sid, time)
       case _ => false
  }

  lemma {:induction false} MintedWhen(cfg: Config, events: seq<Event>, i: nat, n: nat) returns (k: nat)
    requires n <= |events| && i < |At(cfg, events, n).minted|
    ensures k < n && |At(cfg, events, k).minted| == i < |At(cfg, events, k + 1).minted|
    decreases n
  {
    assert n > 0 by { assert At(cfg, events, 0) == Empty(cfg); }
    AtNext(cfg, events, n - 1);
    if i < |At(cfg, events, n - 1).minted| {
      k := MintedWhen(cfg, events, i, n - 1);
    } else {
      k := n - 1;
    }
  }

  lemma MintingOk(s: Service, e: Event)
    requires ServiceOk(s) && |s.minted| < |Step(s, e).minted|
    ensures var s', i := Step(s, e), |s.minted|;
      && |s'.times| == |s'.minted| == i + 1
      && match e
         case Issue(user, device, now) =>
           && s'.times[i] == now && s'.minted[i].access.sid !in s.rows && s'.minted[i].access.sid in s'.rows
           && s'.rows[s'.minted[i].access.sid].user == user && s'.rows[s'.minted[i].access.sid].device == device
         case Rotate(q) =>
           && q in s.inFlight && s'.times[i] == s.inFlight[q].now
           && s'.minted[i].access.sid == s.inFlight[q].sid
         case _ => false
  {
    forall sid <- s.rows
      ensures sid < s.nextId
    {
      assert RowAt(s, sid);
    }
  }

  /** In every run, each pair was minted by an issue at its time, for a session and device new then, or
      by a refresh that began at its time with a token of the session that was good. */
  lemma PairsAreExplained(cfg: Config, events: seq<Event>, i: nat)
    requires i < |Run(Empty(cfg), events).minted|
    ensures |Run(Empty(cfg), events).times| == |Run(Empty(cfg), events).minted|
    ensures exists k :: MintedBy(cfg, events, i, k)
  {
    assert events[..|events|] == events;
    hide Step, ServiceOk, Run, Accepted, Names;
    var k := MintedWhen(cfg, events, i, |events|);
    AtNext(cfg, events, k);
    AtLater(cfg, events, |events|);
    AtLater(cfg, events, k);
    AtLater(cfg, events, k + 1);
    MintingOk(At(cfg, events, k), events[k]);
    if events[k].Rotate? {
      var j := ReadWhen(cfg, events, k, events[k].request);
    }
    assert MintedBy(cfg, events, i, k);
  }
}
