/** Runs of one session against an arbitrary peer: any order of Encrypt and Decrypt calls, any
    headers, any evictions.  Nothing here assumes that the headers are genuine. */
module SessionRuns {
  import opened Crypto
  import opened RatchetSpec

  datatype Op =
    | DoEncrypt(plaintext: Bytes, seed: nat)
    | DoDecrypt(header: Header, ev: Evictions)

  /** The state after one call, with the message key it sealed or opened under, if it got that far. */
  function Step(s: Session, op: Op): (Session, Option<Key>) {
    match op
    case DoEncrypt(plaintext, seed) =>
      (match Encrypt(s, plaintext, seed)
       case Err(_) => (s, None)
       case Ok(e) => (e.next, Some(e.ciphertext.key.mk)))
    case DoDecrypt(header, ev) =>
      var (t, k) := ReceiveKey(s, header, ev);
      (t, if k.Ok? then Some(k.value) else None)
  }

  function Run(s: Session, ops: seq<Op>): Session
    decreases |ops|
  {
    if ops == [] then s else Run(Step(s, ops[0]).0, ops[1..])
  }

  /** The message keys a run uses, in order: one for each Seal and one for each Open. */
  function KeysUsed(s: Session, ops: seq<Op>): seq<Key>
    decreases |ops|
  {
    if ops == [] then []
    else
      var (t, k) := Step(s, ops[0]);
      (if k.Some? then [k.value] else []) + KeysUsed(t, ops[1..])
  }

  /** A session as the handshake leaves it. */
  ghost predicate IsFresh(s: Session) {
    && s.root.X3Root?
    && s.skipped == map[]
    && s.pn == 0
    && var first := Chain(X3Chain(s.root.secret), 0);
       (s.send, s.recv) in {(first, Chain(Zero, 0)), (Chain(Zero, 0), first)}
  }

  // Where a key stands in the order of derivation: its root step, and its step within the chain.

  function RootDepth(k: Key): nat {
    match k
    case RootOut(r, _) => 1 + RootDepth(r)
    case _ => 0
  }

  function Level(k: Key): int {
    match k
    case Next(c) => Level(c)
    case ChainOut(r, _) => 1 + RootDepth(r)
    case Zero => -1
    case _ => 0
  }

  function Steps(k: Key): nat {
    match k
    case Next(c) => 1 + Steps(c)
    case _ => 0
  }

  /** By its level and its steps the key lies behind the session: no step of the session leads to it. */
  ghost predicate Behind(s: Session, k: Key) {
    && k.Msg?
    && Level(k.chain) <= RootDepth(s.root)
    && (Level(k.chain) == Level(s.recv.key) ==> Steps(k.chain) < Steps(s.recv.key))
    && (s.send.key != Zero && Level(k.chain) == Level(s.send.key) ==> Steps(k.chain) < Steps(s.send.key))
  }

  ghost predicate SpentInv(s: Session, used: set<Key>) {
    && Level(s.recv.key) <= RootDepth(s.root)
    && (s.send.key != Zero ==> Level(s.recv.key) != Level(s.send.key) <= RootDepth(s.root))
    && (forall k <- used :: Behind(s, k))
    && (forall id <- s.skipped :: Behind(s, s.skipped[id]) && s.skipped[id] !in used)
    && (forall id, id' :: id in s.skipped && id' in s.skipped && s.skipped[id] == s.skipped[id'] ==> id == id')
  }

  lemma RotationKeepsSpent(s: Session, t: Session, used: set<Key>)
    requires SpentInv(s, used)
    requires
      || (exists h :: RotateOnRecv(s, h) == Ok(t))
      || (exists seed :: s.send.key == Zero && RotateOnSend(s, seed) == Ok(t))
    ensures SpentInv(t, used)
  {
  }

  lemma StoringKeepsSpent(s: Session, victim: Option<SkipId>, used: set<Key>)
    requires s.recv.index + 1 < TWO_32 && SpentInv(s, used)
    ensures SpentInv(s.(skipped := Store(s.skipped, SkipId(s.remote, s.recv.index), Msg(s.recv.key), victim),
                        recv := Chain(Next(s.recv.key), s.recv.index + 1)), used)
  {
  }

  lemma {:induction false} SkippingKeepsSpent(s: Session, n: nat, ev: Evictions, used: set<Key>)
    requires s.recv.index + n < TWO_32
    requires SpentInv(s, used)
    ensures SpentInv(Skip(s, n, ev), used)
  {
    if n > 0 {
      SkippingKeepsSpent(s, n - 1, ev, used);
      StoringKeepsSpent(Skip(s, n - 1, ev), Evicted(ev, n - 1), used);
    }
  }

  lemma ConsumingKeepsSpent(s: Session, id: SkipId, used: set<Key>)
    requires SpentInv(s, used) && id in s.skipped
    ensures s.skipped[id] !in used
    ensures SpentInv(s.(skipped := s.skipped - {id}), used + {s.skipped[id]})
  {
  }

  lemma ReceivingKeepsSpent(s: Session, index: uint32, used: set<Key>)
    requires SpentInv(s, used)
    ensures Msg(s.recv.key) !in used
    ensures SpentInv(s.(recv := Chain(Next(s.recv.key), index)), used + {Msg(s.recv.key)})
  {
  }

  lemma SendingKeepsSpent(s: Session, index: uint32, used: set<Key>)
    requires SpentInv(s, used) && s.send.key != Zero
    ensures Msg(s.send.key) !in used
    ensures SpentInv(s.(send := Chain(Next(s.send.key), index)), used + {Msg(s.send.key)})
  {
  }

  lemma StepUsesNewKey(s: Session, op: Op, used: set<Key>)
    requires SpentInv(s, used)
    ensures var (t, k) := Step(s, op);
            if k.Some? then k.value !in used && SpentInv(t, used + {k.value}) else SpentInv(t, used)
  {
    match op
    case DoEncrypt(_, seed) =>
      var r := if s.send.key == Zero then RotateOnSend(s, seed) else Ok(s);
      if r.Ok? {
        if s.send.key == Zero { RotationKeepsSpent(s, r.value, used); }
        SendingKeepsSpent(r.value, Inc(r.value.send.index), used);
      }
    case DoDecrypt(header, ev) =>
      var id := SkipId(header.dhPublic, header.n);
      if id in s.skipped {
        ConsumingKeepsSpent(s, id, used);
      } else if RotateOnRecv(s, header).Ok? {
        var r := RotateOnRecv(s, header).value;
        RotationKeepsSpent(s, r, used);
        if header.n >= r.recv.index {
          SkippingKeepsSpent(r, header.n - r.recv.index, ev, used);
          var t := Skip(r, header.n - r.recv.index, ev);
          ReceivingKeepsSpent(t, Inc(t.recv.index), used);
        }
      }
  }

  lemma {:induction false} RunAvoidsUsedKeys(s: Session, ops: seq<Op>, used: set<Key>)
    requires SpentInv(s, used)
    ensures forall i :: 0 <= i < |KeysUsed(s, ops)| ==> KeysUsed(s, ops)[i] !in used
    ensures forall i, j :: 0 <= i < j < |KeysUsed(s, ops)| ==> KeysUsed(s, ops)[i] != KeysUsed(s, ops)[j]
    decreases |ops|
  {
    if ops != [] {
      var (t, k) := Step(s, ops[0]);
      StepUsesNewKey(s, ops[0], used);
      RunAvoidsUsedKeys(t, ops[1..], if k.Some? then used + {k.value} else used);
    }
  }

  /** No message key serves twice in the life of a session, whether to seal or to open,
      whatever headers arrive and however the calls fail. */
  lemma KeysServeOnce(s: Session, ops: seq<Op>)
    requires IsFresh(s)
    ensures forall i, j :: 0 <= i < j < |KeysUsed(s, ops)| ==> KeysUsed(s, ops)[i] != KeysUsed(s, ops)[j]
  {
    RunAvoidsUsedKeys(s, ops, {});
  }

  lemma {:induction false} RunKeepsSpent(s: Session, ops: seq<Op>, used: set<Key>)
    requires SpentInv(s, used)
    ensures SpentInv(Run(s, ops), used)
    decreases |ops|
  {
    if ops != [] {
      hide Step;
      var (t, k) := Step(s, ops[0]);
      StepUsesNewKey(s, ops[0], used);
      if k.Some? {
        FewerSpent(t, used + {k.value}, used);
      }
      RunKeepsSpent(t, ops[1..], used);
    }
  }

  lemma FewerSpent(s: Session, used: set<Key>, fewer: set<Key>)
    requires SpentInv(s, used) && fewer <= used
    ensures SpentInv(s, fewer)
  {
  }

  /** A ciphertext that was opened never opens again in that session: under no header, and whatever
      calls, genuine or forged, came before and come in between. */
  lemma OpensAtMostOnce(s: Session, before: seq<Op>, ct: Ciphertext, h: Header, ev: Evictions,
                        between: seq<Op>, h': Header, ev': Evictions)
    requires IsFresh(s) && Decrypt(Run(s, before), ct, h, ev).1.Ok?
    ensures var t := Decrypt(Run(s, before), ct, h, ev).0;
      Decrypt(Run(t, between), ct, h', ev').1.Err?
  {
    RunKeepsSpent(s, before, {});
    var u := Run(s, before);
    StepUsesNewKey(u, DoDecrypt(h, ev), {});
    var (t, k) := Step(u, DoDecrypt(h, ev));
    assert {} + {k.value} == {k.value};
    RunKeepsSpent(t, between, {k.value});
    StepUsesNewKey(Run(t, between), DoDecrypt(h', ev'), {k.value});
  }

  // The cache of skipped keys

  /** A store gives up an entry exactly when the cache holds 64. */
  lemma EvictionStartsAt64(m: map<SkipId, Key>, victim: Option<SkipId>)
    requires LegalVictim(m, victim)
    ensures victim.None? <==> |m| < 64
    ensures victim.Some? ==> victim.value in m
  {
    SizeIsCardinality(m.Keys);
    assert |m| == |m.Keys|;
  }

  lemma StoreSize(m: map<SkipId, Key>, id: SkipId, key: Key, victim: Option<SkipId>)
    requires LegalVictim(m, victim)
    ensures var size := Size(Store(m, id, key, victim).Keys);
      size <= Size(m.Keys) + 1 && (Size(m.Keys) <= MAX_SKIPPED ==> size <= MAX_SKIPPED)
  {
    var kept := if victim.Some? then m.Keys - {victim.value} else m.Keys;
    SizeIsCardinality(m.Keys);
    SizeIsCardinality(kept + {id});
    assert Store(m, id, key, victim).Keys == kept + {id};
  }

  lemma {:induction false} StoreManySize(m: map<SkipId, Key>, pub: Point, ck: Key, from: nat, n: nat, ev: Evictions)
    requires from + n < TWO_32 && LegalVictims(m, pub, ck, from, n, ev)
    ensures var size := Size(StoreMany(m, pub, ck, from, n, ev).Keys);
      size <= Size(m.Keys) + n && (Size(m.Keys) <= MAX_SKIPPED ==> size <= MAX_SKIPPED)
  {
    if n > 0 {
      StoreManySize(m, pub, ck, from, n - 1, ev);
      StoreSize(StoreMany(m, pub, ck, from, n - 1, ev), SkipId(pub, from + n - 1), Msg(Iter(ck, n - 1)),
                Evicted(ev, n - 1));
    }
  }

  /** While the total stays within the limit, nothing is evicted. */
  lemma {:induction false} RoomMeansNoEviction(m: map<SkipId, Key>, pub: Point, ck: Key, from: nat, n: nat,
                                               ev: Evictions)
    requires from + n < TWO_32 && LegalVictims(m, pub, ck, from, n, ev)
    requires Size(m.Keys) + n <= 64
    ensures forall i :: 0 <= i < n ==> Evicted(ev, i) == None
  {
    if n > 0 {
      RoomMeansNoEviction(m, pub, ck, from, n - 1, ev);
      StoreManySize(m, pub, ck, from, n - 1, ev);
    }
  }

  /** `m` is `m0` with the keys of n successive messages added: those of the chain of `pub` whose
      chain key is `ck` at index `from`. */
  ghost predicate AddsPassed(m0: map<SkipId, Key>, pub: Point, ck: Key, from: nat, n: nat, m: map<SkipId, Key>) {
    forall id: SkipId ::
      if id.pub == pub && from <= id.index < from + n
      then id in m && m[id] == Msg(Iter(ck, id.index - from))
      else (id in m <==> id in m0) && (id in m ==> m[id] == m0[id])
  }

  lemma {:induction false} StoringWithoutEviction(m: map<SkipId, Key>, pub: Point, ck: Key, from: nat, n: nat,
                                                  ev: Evictions)
    requires from + n < TWO_32
    requires forall i :: 0 <= i < n ==> Evicted(ev, i) == None
    ensures AddsPassed(m, pub, ck, from, n, StoreMany(m, pub, ck, from, n, ev))
  {
    if n > 0 {
      StoringWithoutEviction(m, pub, ck, from, n - 1, ev);
    }
  }

  lemma ReceivingKeepsBound(s: Session, h: Header, ev: Evictions)
    requires LegalEvictions(s, h, ev) && Size(s.skipped.Keys) <= MAX_SKIPPED
    ensures Size(ReceiveKey(s, h, ev).0.skipped.Keys) <= MAX_SKIPPED
  {
    var id := SkipId(h.dhPublic, h.n);
    if id in s.skipped {
      assert (s.skipped - {id}).Keys == s.skipped.Keys - {id};
      SizeIsCardinality(s.skipped.Keys);
      SizeIsCardinality(s.skipped.Keys - {id});
    } else if RotateOnRecv(s, h).Ok? {
      var r := RotateOnRecv(s, h).value;
      if h.n >= r.recv.index {
        StoreManySize(r.skipped, r.remote, r.recv.key, r.recv.index, h.n - r.recv.index, ev);
      }
    }
  }

  /** Every eviction of the run is one that the code could make. */
  ghost predicate LegalRun(s: Session, ops: seq<Op>)
    decreases |ops|
  {
    ops == [] ||
    ((ops[0].DoDecrypt? ==> LegalEvictions(s, ops[0].header, ops[0].ev)) && LegalRun(Step(s, ops[0]).0, ops[1..]))
  }

  lemma {:induction false} RunKeepsBound(s: Session, ops: seq<Op>)
    requires LegalRun(s, ops) && Size(s.skipped.Keys) <= MAX_SKIPPED
    ensures Size(Run(s, ops).skipped.Keys) <= MAX_SKIPPED
    decreases |ops|
  {
    if ops != [] {
      if ops[0].DoDecrypt? {
        ReceivingKeepsBound(s, ops[0].header, ops[0].ev);
      }
      RunKeepsBound(Step(s, ops[0]).0, ops[1..]);
    }
  }

  /** The cache never holds more than 64 keys. */
  lemma CacheStaysBounded(s: Session, ops: seq<Op>)
    requires IsFresh(s) && LegalRun(s, ops)
    ensures |Run(s, ops).skipped| <= 64
  {
    SizeIsCardinality(s.skipped.Keys);
    RunKeepsBound(s, ops);
    SizeIsCardinality(Run(s, ops).skipped.Keys);
  }

  // The PN field

  ghost predicate PnInv(s: Session) {
    if s.send.key == Zero then s.send.index == 0 else s.pn == 0
  }

  /** Whatever arrives, every header that a session emits carries PN = 0: a chain is only ever
      replaced after its index was reset. */
  lemma {:induction false} HeadersCarryPnZero(s: Session, ops: seq<Op>, plaintext: Bytes, seed: nat)
    requires IsFresh(s) || PnInv(s)
    ensures var e := Encrypt(Run(s, ops), plaintext, seed); e.Ok? ==> e.value.header.pn == 0
    decreases |ops|
  {
    if ops != [] {
      HeadersCarryPnZero(Step(s, ops[0]).0, ops[1..], plaintext, seed);
    }
  }

  // Redelivery

  lemma DuplicateExactly(s: Session, ct: Ciphertext, h: Header, ev: Evictions)
    ensures var (t, r) := Decrypt(s, ct, h, ev);
      && (r == Err(ErrDuplicateMessage) <==>
          && SkipId(h.dhPublic, h.n) !in s.skipped && h.dhPublic == s.remote && h.n < s.recv.index)
      && (r == Err(ErrDuplicateMessage) ==> t == s)
  {
  }

  /** `h` belongs to the current receiving chain and its key is gone. */
  ghost predicate Settled(s: Session, h: Header) {
    h.dhPublic == s.remote && h.n < s.recv.index && SkipId(h.dhPublic, h.n) !in s.skipped
  }

  /** No call of the run starts another receiving chain or exhausts the uint32 counter. */
  ghost predicate StaysOnChain(s: Session, ops: seq<Op>)
    decreases |ops|
  {
    ops == [] ||
    (var t := Step(s, ops[0]).0;
     && t.remote == s.remote
     && (ops[0].DoDecrypt? ==> ops[0].header.n + 1 < TWO_32)
     && StaysOnChain(t, ops[1..]))
  }

  lemma {:induction false} StoresOnlyPassed(m: map<SkipId, Key>, pub: Point, ck: Key, from: nat, n: nat, ev: Evictions)
    requires from + n < TWO_32
    ensures forall id <- StoreMany(m, pub, ck, from, n, ev) ::
      id in m || (id.pub == pub && from <= id.index < from + n)
  {
    if n > 0 {
      StoresOnlyPassed(m, pub, ck, from, n - 1, ev);
    }
  }

  lemma StepKeepsSettled(s: Session, op: Op, h: Header)
    requires Settled(s, h) && StaysOnChain(s, [op])
    ensures Settled(Step(s, op).0, h)
  {
    if op.DoDecrypt? && SkipId(op.header.dhPublic, op.header.n) !in s.skipped && RotateOnRecv(s, op.header).Ok? {
      var r := RotateOnRecv(s, op.header).value;
      if op.header.n >= r.recv.index {
        StoresOnlyPassed(r.skipped, r.remote, r.recv.key, r.recv.index, op.header.n - r.recv.index, op.ev);
      }
    }
  }

  lemma {:induction false} RunKeepsSettled(s: Session, ops: seq<Op>, h: Header)
    requires Settled(s, h) && StaysOnChain(s, ops)
    ensures Settled(Run(s, ops), h)
    decreases |ops|
  {
    if ops != [] {
      StepKeepsSettled(s, ops[0], h);
      RunKeepsSettled(Step(s, ops[0]).0, ops[1..], h);
    }
  }

  /** Once a message of the current receiving chain has been processed, delivering it again
      is reported as a duplicate and changes nothing, for as long as that chain lasts. */
  lemma RedeliveryIsHarmless(s: Session, ct: Ciphertext, h: Header, ev: Evictions, ops: seq<Op>,
                             ct': Ciphertext, ev': Evictions)
    requires Step(s, DoDecrypt(h, ev)).1.Some?
    requires var t := Step(s, DoDecrypt(h, ev)).0;
             t.remote == h.dhPublic && h.n < t.recv.index && StaysOnChain(t, ops)
    ensures var u := Run(Step(s, DoDecrypt(h, ev)).0, ops);
            Decrypt(u, ct', h, ev') == (u, Err(ErrDuplicateMessage))
  {
    var t := Step(s, DoDecrypt(h, ev)).0;
    var id := SkipId(h.dhPublic, h.n);
    if id !in s.skipped {
      var r := RotateOnRecv(s, h).value;
      StoresOnlyPassed(r.skipped, r.remote, r.recv.key, r.recv.index, h.n - r.recv.index, ev);
    }
    RunKeepsSettled(t, ops, h);
  }
}
