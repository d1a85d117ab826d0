/** What one Double Ratchet session does, as functions on session values. */
module RatchetSpec {
  import opened Crypto

  const MAX_SKIPPED: nat := 64

  datatype Chain = Chain(key: Key, index: uint32)

  /** The name of a skipped message key: a fixed-width coding of the pair, hence injective. */
  datatype SkipId = SkipId(pub: Point, index: uint32)

  datatype Role = Initiator | Responder

  /** The fields that the ratchet never touches. */
  datatype Peer = Peer(identity: Point, verifyKey: VerifyKey, role: Role, pendingPrekey: Option<uint32>)

  datatype Session = Session(
    root: Key,
    send: Chain,
    recv: Chain,
    priv: nat,
    pub: Point,
    remote: Point,
    pn: uint32,
    skipped: map<SkipId, Key>,
    peer: Peer)

  // Sending

  function RotateOnSend(s: Session, seed: nat): Result<Session, Error> {
    if s.remote == ZERO_POINT then
      Err(ErrInvalidRemoteKey)
    else
      var kp := GenerateX25519KeyPair(seed);
      match X25519(kp.priv, s.remote)
      case Err(e) => Err(e)
      case Ok(dh) =>
        Ok(s.(root := RootOut(s.root, dh), pn := s.send.index, send := Chain(ChainOut(s.root, dh), 0),
              priv := kp.priv, pub := kp.pub))
  }

  /** What an Encrypt call settles before sealing: the next state, the message key, the header. */
  datatype Sending = Sending(next: Session, key: Key, header: Header)

  function PrepareSend(s: Session, seed: nat): Result<Sending, Error> {
    match (if s.send.key == Zero then RotateOnSend(s, seed) else Ok(s))
    case Err(e) => Err(e)
    case Ok(t) =>
      var mk := Msg(t.send.key);
      Ok(Sending(t.(send := Chain(Next(t.send.key), Inc(t.send.index))), mk,
                 Header(t.pub, t.pn, t.send.index, NonceOf(mk))))
  }

  datatype Encrypted = Encrypted(next: Session, ciphertext: Ciphertext, header: Header)

  function Encrypt(s: Session, plaintext: Bytes, seed: nat): Result<Encrypted, Error> {
    match PrepareSend(s, seed)
    case Err(e) => Err(e)
    case Ok(p) => Ok(Encrypted(p.next, Seal(p.key, AssociatedDataOf(p.header), plaintext), p.header))
  }

  // Receiving

  function RotateOnRecv(s: Session, h: Header): Result<Session, Error> {
    if h.dhPublic == s.remote then
      Ok(s)
    else
      match X25519(s.priv, h.dhPublic)
      case Err(e) => Err(e)
      case Ok(dh) =>
        Ok(s.(root := RootOut(s.root, dh), remote := h.dhPublic, recv := Chain(ChainOut(s.root, dh), 0),
              send := Chain(Zero, 0), pn := h.pn))
  }

  /** Which entry each store of a call evicts, if any.  The source evicts whichever entry map
      iteration yields first, so any list that is legal in the sense below can occur. */
  type Evictions = seq<Option<SkipId>>

  function Evicted(ev: Evictions, i: nat): Option<SkipId> {
    if i < |ev| then ev[i] else None
  }

  function Store(m: map<SkipId, Key>, id: SkipId, key: Key, victim: Option<SkipId>): map<SkipId, Key> {
    (match victim case Some(v) => m - {v} case None => m)[id := key]
  }

  /** The number of names in a cache, counted one by one; SizeIsCardinality relates it to |ids|. */
  ghost function Size(ids: set<SkipId>): nat {
    if ids == {} then 0 else var id :| id in ids; 1 + Size(ids - {id})
  }

  lemma {:induction false} SizeIsCardinality(ids: set<SkipId>)
    ensures Size(ids) == |ids|
  {
    if ids != {} {
      var id :| id in ids && Size(ids) == 1 + Size(ids - {id});
      SizeIsCardinality(ids - {id});
    }
  }

  /** A full cache gives up one of its entries; a cache with room gives up nothing. */
  ghost predicate LegalVictim(m: map<SkipId, Key>, victim: Option<SkipId>) {
    match victim
    case Some(v) => Size(m.Keys) >= MAX_SKIPPED && v in m
    case None => Size(m.Keys) < MAX_SKIPPED
  }

  /** The cache after storing the keys of n successive messages of the chain of `pub`, whose
      chain key is `ck` at index `from`. */
  function StoreMany(m: map<SkipId, Key>, pub: Point, ck: Key, from: nat, n: nat, ev: Evictions): map<SkipId, Key>
    requires from + n < TWO_32
  {
    if n == 0 then m
    else
      Store(StoreMany(m, pub, ck, from, n - 1, ev), SkipId(pub, from + n - 1), Msg(Iter(ck, n - 1)), Evicted(ev, n - 1))
  }

  ghost predicate LegalVictims(m: map<SkipId, Key>, pub: Point, ck: Key, from: nat, n: nat, ev: Evictions)
    requires from + n < TWO_32
  {
    n == 0 ||
    (&& LegalVictims(m, pub, ck, from, n - 1, ev)
     && LegalVictim(StoreMany(m, pub, ck, from, n - 1, ev), Evicted(ev, n - 1)))
  }

  /** The skipping loop: n keys of the receiving chain are stored and the chain moves past them. */
  function Skip(s: Session, n: nat, ev: Evictions): Session
    requires s.recv.index + n < TWO_32
  {
    s.(skipped := StoreMany(s.skipped, s.remote, s.recv.key, s.recv.index, n, ev),
       recv := Chain(Iter(s.recv.key, n), s.recv.index + n))
  }

  /** Everything a Decrypt call does before opening the ciphertext: the next state, and the
      message key handed to the AEAD or the error that ends the call. */
  function ReceiveKey(s: Session, h: Header, ev: Evictions): (Session, Result<Key, Error>) {
    var id := SkipId(h.dhPublic, h.n);
    if id in s.skipped then
      (s.(skipped := s.skipped - {id}), Ok(s.skipped[id]))
    else
      match RotateOnRecv(s, h)
      case Err(e) => (s, Err(e))
      case Ok(r) =>
        if h.n < r.recv.index then
          (r, Err(ErrDuplicateMessage))
        else
          var t := Skip(r, h.n - r.recv.index, ev);
          (t.(recv := Chain(Next(t.recv.key), Inc(t.recv.index))), Ok(Msg(t.recv.key)))
  }

  function Decrypt(s: Session, ct: Ciphertext, h: Header, ev: Evictions): (Session, Result<Bytes, Error>) {
    var (t, k) := ReceiveKey(s, h, ev);
    match k
    case Err(e) => (t, Err(e))
    case Ok(mk) => (t, Open(mk, AssociatedDataOf(h), ct))
  }

  /** The evictions could be those of this call. */
  ghost predicate LegalEvictions(s: Session, h: Header, ev: Evictions) {
    if SkipId(h.dhPublic, h.n) in s.skipped then true
    else
      match RotateOnRecv(s, h)
      case Err(_) => true
      case Ok(r) =>
        h.n >= r.recv.index ==>
        LegalVictims(r.skipped, r.remote, r.recv.key, r.recv.index, h.n - r.recv.index, ev)
  }

  // The choices made in the first n rounds do not depend on later ones.
  lemma {:induction false} StoreManyPrefix(m: map<SkipId, Key>, pub: Point, ck: Key, from: nat, n: nat,
                                           ev: Evictions, more: Evictions)
    requires from + n < TWO_32 && n <= |ev|
    ensures StoreMany(m, pub, ck, from, n, ev + more) == StoreMany(m, pub, ck, from, n, ev)
    ensures LegalVictims(m, pub, ck, from, n, ev + more) == LegalVictims(m, pub, ck, from, n, ev)
  {
    if n > 0 {
      StoreManyPrefix(m, pub, ck, from, n - 1, ev, more);
    }
  }
}
