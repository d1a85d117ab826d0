/** What can still be derived from a session's own state: never a message key it has used. */
module ForwardSecrecy {
  import opened Crypto
  import opened RatchetSpec
  import opened SessionRuns

  /** The key can be computed from these ones with the functions of the key schedule. */
  predicate Derivable(known: set<Key>, k: Key) {
    k in known ||
    match k
    case RootOut(root, _) => Derivable(known, root)
    case ChainOut(root, _) => Derivable(known, root)
    case Next(chain) => Derivable(known, chain)
    case Msg(chain) => Derivable(known, chain)
    case _ => false
  }

  /** The keys that a session holds.  An all-zero sending chain is not a key. */
  function Held(s: Session): set<Key> {
    {s.root, s.recv.key} + (if s.send.key == Zero then {} else {s.send.key}) + s.skipped.Values
  }

  // The shapes that keys have

  predicate IsRoot(k: Key) {
    k.X3Root? || (k.RootOut? && IsRoot(k.root))
  }

  predicate IsChain(k: Key) {
    match k
    case Zero => true
    case X3Chain(_) => true
    case ChainOut(root, _) => IsRoot(root)
    case Next(chain) => IsChain(chain)
    case _ => false
  }

  predicate IsMessageKey(k: Key) {
    k.Msg? && IsChain(k.chain)
  }

  ghost predicate Shaped(s: Session) {
    && IsRoot(s.root) && IsChain(s.send.key) && IsChain(s.recv.key)
    && forall id <- s.skipped :: IsMessageKey(s.skipped[id])
  }

  lemma {:induction false} StepsKeepShape(c: Key, n: nat)
    requires IsChain(c)
    ensures IsChain(Iter(c, n))
  {
    if n > 0 {
      StepsKeepShape(c, n - 1);
    }
  }

  lemma {:induction false} StoringKeepsShape(m: map<SkipId, Key>, pub: Point, ck: Key, from: nat, n: nat, ev: Evictions)
    requires from + n < TWO_32 && IsChain(ck) && forall id <- m :: IsMessageKey(m[id])
    ensures forall id <- StoreMany(m, pub, ck, from, n, ev) :: IsMessageKey(StoreMany(m, pub, ck, from, n, ev)[id])
  {
    if n > 0 {
      StoringKeepsShape(m, pub, ck, from, n - 1, ev);
      StepsKeepShape(ck, n - 1);
    }
  }

  lemma StepKeepsShape(s: Session, op: Op)
    requires Shaped(s)
    ensures Shaped(Step(s, op).0)
    ensures Step(s, op).1.Some? ==> IsMessageKey(Step(s, op).1.value)
  {
    if op.DoDecrypt? && SkipId(op.header.dhPublic, op.header.n) !in s.skipped && RotateOnRecv(s, op.header).Ok? {
      var r := RotateOnRecv(s, op.header).value;
      if op.header.n >= r.recv.index {
        var n := op.header.n - r.recv.index;
        StoringKeepsShape(r.skipped, r.remote, r.recv.key, r.recv.index, n, op.ev);
        StepsKeepShape(r.recv.key, n);
      }
    }
  }

  // What lies behind is out of reach

  /** The roots that a held root yields are at least as deep. */
  lemma {:induction false} RootsAreDeeper(s: Session, k: Key)
    requires Shaped(s) && IsRoot(k) && Derivable(Held(s), k)
    ensures RootDepth(k) >= RootDepth(s.root)
  {
    if k !in Held(s) {
      RootsAreDeeper(s, k.root);
    } else {
      RootsHeld(s, k);
    }
  }

  lemma RootsHeld(s: Session, k: Key)
    requires Shaped(s) && IsRoot(k) && k in Held(s)
    ensures k == s.root
  {
  }

  lemma ChainsHeld(s: Session, c: Key)
    requires Shaped(s) && IsChain(c) && c in Held(s)
    ensures c == s.recv.key || (c == s.send.key && c != Zero)
  {
  }

  /** The chain keys that can be derived are not before the held ones of their chain, and beyond the
      roots already taken. */
  lemma {:induction false} ChainsAreAhead(s: Session, c: Key)
    requires Shaped(s) && IsChain(c) && Derivable(Held(s), c)
    ensures || Level(c) > RootDepth(s.root)
            || (Level(c) == Level(s.recv.key) && Steps(c) >= Steps(s.recv.key))
            || (s.send.key != Zero && Level(c) == Level(s.send.key) && Steps(c) >= Steps(s.send.key))
  {
    if c in Held(s) {
      ChainsHeld(s, c);
    } else {
      match c
      case Next(chain) => ChainsAreAhead(s, chain);
      case ChainOut(root, _) => RootsAreDeeper(s, root);
    }
  }

  lemma BehindIsOutOfReach(s: Session, k: Key)
    requires Shaped(s) && IsMessageKey(k) && Behind(s, k) && k !in s.skipped.Values
    ensures !Derivable(Held(s), k)
  {
    if Derivable(Held(s), k.chain) {
      ChainsAreAhead(s, k.chain);
    }
  }

  lemma {:induction false} RunPutsOutOfReach(s: Session, ops: seq<Op>, used: set<Key>)
    requires SpentInv(s, used) && Shaped(s) && forall k <- used :: IsMessageKey(k)
    ensures forall k | k in used || k in KeysUsed(s, ops) :: !Derivable(Held(Run(s, ops)), k)
    decreases |ops|
  {
    if ops == [] {
      forall k <- used
        ensures !Derivable(Held(s), k)
      {
        BehindIsOutOfReach(s, k);
      }
    } else {
      hide Step, SpentInv, Shaped, Derivable;
      var (t, k) := Step(s, ops[0]);
      StepUsesNewKey(s, ops[0], used);
      StepKeepsShape(s, ops[0]);
      RunPutsOutOfReach(t, ops[1..], if k.Some? then used + {k.value} else used);
    }
  }

  /** Forward secrecy of the whole state: after any run from a fresh session, whatever headers arrived,
      no message key that the session used can be computed from all the keys it holds, with any
      Diffie-Hellman outputs. */
  lemma UsedKeysAreGone(s: Session, ops: seq<Op>)
    requires IsFresh(s)
    ensures forall k <- KeysUsed(s, ops) :: !Derivable(Held(Run(s, ops)), k)
  {
    RunPutsOutOfReach(s, ops, {});
  }
}
