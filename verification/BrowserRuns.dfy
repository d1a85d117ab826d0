/** Whole runs of the browser's session, and its cache in the runs of two honest parties. */
module BrowserRuns {
  import opened Crypto
  import opened RatchetSpec
  import opened OrderedCache
  import TwoParty
  import TwoPartyRuns

  datatype Call = EncryptCall(plaintext: Bytes, seed: nat) | DecryptCall(ct: Ciphertext, h: Header)

  function Perform(b: Browser, call: Call): Browser
    requires IndexOk(b)
  {
    match call
    case EncryptCall(plaintext, seed) =>
      (match Encrypt(b.s, plaintext, seed)
       case Err(_) => b
       case Ok(out) => b.(s := out.next))
    case DecryptCall(ct, h) => DecryptOldest(b, ct, h).0
  }

  lemma PerformKeepsOk(b: Browser, call: Call)
    requires BrowserOk(b)
    ensures BrowserOk(Perform(b, call))
  {
    if call.DecryptCall? {
      var _ := BrowserRefinesGo(b, call.ct, call.h);
    }
  }

  ghost function RunCalls(b: Browser, calls: seq<Call>): (b': Browser)
    requires BrowserOk(b)
    ensures BrowserOk(b')
  {
    if calls == [] then b
    else
      var before := RunCalls(b, calls[..|calls| - 1]);
      PerformKeepsOk(before, calls[|calls| - 1]);
      Perform(before, calls[|calls| - 1])
  }

  // What the calls do to the cache

  function Puts(names: seq<SkipId>): seq<CacheOp> {
    seq(|names|, i requires 0 <= i < |names| => Put(names[i]))
  }

  /** A call takes the key it finds, or puts the names it passes over, in order. */
  function OpsOf(b: Browser, call: Call): seq<CacheOp>
    requires IndexOk(b)
  {
    match call
    case EncryptCall(_, _) => []
    case DecryptCall(_, h) =>
      if SkipId(h.dhPublic, h.n) in b.s.skipped then [Take(SkipId(h.dhPublic, h.n))]
      else if RotateOnRecv(b.s, h).Err? || h.n < ChainIndex(b, h) then []
      else Puts(Run(h.dhPublic, ChainIndex(b, h), h.n - ChainIndex(b, h)))
  }

  ghost function OpsOfRun(b: Browser, calls: seq<Call>): seq<CacheOp>
    requires BrowserOk(b)
  {
    if calls == [] then []
    else
      OpsOfRun(b, calls[..|calls| - 1]) + OpsOf(RunCalls(b, calls[..|calls| - 1]), calls[|calls| - 1])
  }

  lemma {:induction false} RetainedAppend(order: seq<SkipId>, ops: seq<CacheOp>, more: seq<CacheOp>)
    ensures Retained(order, ops + more) == Retained(Retained(order, ops), more)
  {
    if more == [] {
      assert ops + more == ops;
    } else {
      RetainedAppend(order, ops, more[..|more| - 1]);
      assert (ops + more)[..|ops + more| - 1] == ops + more[..|more| - 1];
    }
  }

  lemma {:induction false} PutsStore(order: seq<SkipId>, pub: Point, from: nat, n: nat)
    requires from + n < TWO_32
    ensures Retained(order, Puts(Run(pub, from, n))) == StoreManyOldest(order, pub, from, n)
  {
    hide StoreOldest;
    if n > 0 {
      PutsStore(order, pub, from, n - 1);
      var names := Run(pub, from, n);
      assert Puts(names)[..|names| - 1] == Puts(names[..|names| - 1]);
    }
  }

  lemma OrderFollowsOps(b: Browser, call: Call)
    requires BrowserOk(b)
    ensures Perform(b, call).order == Retained(b.order, OpsOf(b, call))
  {
    hide StoreMany, OldestVictims, StoreManyOldest, Run, Puts, Lists;
    if call.DecryptCall? {
      var h := call.h;
      var id := SkipId(h.dhPublic, h.n);
      if id in b.s.skipped {
        assert [Take(id)][..0] == [];
      } else if RotateOnRecv(b.s, h).Ok? && h.n >= ChainIndex(b, h) {
        PutsStore(b.order, h.dhPublic, ChainIndex(b, h), h.n - ChainIndex(b, h));
      }
    }
  }

  lemma {:induction false} RunFollowsOps(b: Browser, calls: seq<Call>)
    requires BrowserOk(b)
    ensures RunCalls(b, calls).order == Retained(b.order, OpsOfRun(b, calls))
  {
    if calls != [] {
      var before := calls[..|calls| - 1];
      RunFollowsOps(b, before);
      OrderFollowsOps(RunCalls(b, before), calls[|calls| - 1]);
      RetainedAppend(b.order, OpsOfRun(b, before), OpsOf(RunCalls(b, before), calls[|calls| - 1]));
    }
  }

  /** From a session with an empty cache, whatever headers arrive, genuine or not: the names in the
      cache are the newest of those stored and not consumed, at most 64, and they are exactly the
      keys of the map. */
  lemma CacheKeepsNewest(b: Browser, calls: seq<Call>)
    requires BrowserOk(b) && b.order == []
    ensures var b', all := RunCalls(b, calls), Unconsumed(OpsOfRun(b, calls));
      && IsSuffix(b'.order, all)
      && |b'.order| <= MAX_SKIPPED
      && (forall id :: id in b'.s.skipped <==> id in b'.order)
  {
    RunFollowsOps(b, calls);
    RetainedIsSuffix(OpsOfRun(b, calls));
  }

  // Jumps

  /** In an honest state no name of the message's chain is stored at or ahead of its index. */
  lemma StoredNamesAreBehind(party: TwoParty.Party, m: TwoParty.Message)
    requires TwoParty.ViewOk(party.view, party.sess)
    requires TwoPartyRuns.Receivable(party, m.header) && TwoParty.IdOf(m.header) !in party.sess.skipped
    ensures forall id <- party.sess.skipped :: id.pub == m.header.dhPublic ==>
      m.header.dhPublic == party.sess.remote && id.index < party.sess.recv.index
    ensures m.header.dhPublic == party.sess.remote ==> m.header.n >= party.sess.recv.index
  {
  }

  /** Receiving leaves the newest 64 of the names stored before and the names passed over; after a
      jump of 64 or more, exactly the last 64 passed. */
  predicate KeepsNewest(b: Browser, ct: Ciphertext, h: Header)
    requires IndexOk(b)
  {
    var from, order := ChainIndex(b, h), DecryptOldest(b, ct, h).0.order;
    && from <= h.n
    && order == Last(b.order + Run(h.dhPublic, from, h.n - from), MAX_SKIPPED)
    && (h.n - from >= MAX_SKIPPED ==> order == Run(h.dhPublic, h.n - MAX_SKIPPED, MAX_SKIPPED))
  }

  /** The order that a jump leaves is the order after the last store of its loop.  The loop keeps the
      newest names throughout exactly if the names ahead that are stored already are given up in
      time, which can be read off the cache before the call; then the call keeps the newest. */
  lemma JumpExactly(b: Browser, ct: Ciphertext, h: Header)
    requires BrowserOk(b) && |b.order| <= MAX_SKIPPED
    requires SkipId(h.dhPublic, h.n) !in b.s.skipped && RotateOnRecv(b.s, h).Ok? && ChainIndex(b, h) <= h.n
    ensures var pub, from, n := h.dhPublic, ChainIndex(b, h), h.n - ChainIndex(b, h);
      && DecryptOldest(b, ct, h).0.order == StoreManyOldest(b.order, pub, from, n)
      && (KeepsLastThroughout(b.order, pub, from, n) <==> GivenUpInTime(b.order, pub, from, n))
      && (GivenUpInTime(b.order, pub, from, n) ==> KeepsNewest(b, ct, h))
  {
    hide StoreManyOldest, OldestVictims, StoreMany, Distinct, Last, Run;
    var from := ChainIndex(b, h);
    NewestAreKept(b.order, h.dhPublic, from, h.n - from);
    assert GivenUpInTime(b.order, h.dhPublic, from, h.n - from) ==> KeepsLast(b.order, h.dhPublic, from, h.n - from);
    if h.n - from >= MAX_SKIPPED {
      LongJumpLeavesLast(b.order, h.dhPublic, from, h.n - from);
    }
  }

  lemma JumpApplies(b: Browser, party: TwoParty.Party, m: TwoParty.Message)
    requires TwoParty.ViewOk(party.view, party.sess) && m.header.dhPublic.Pub?
    requires TwoPartyRuns.Receivable(party, m.header) && TwoParty.IdOf(m.header) !in party.sess.skipped
    requires b.s == party.sess && b.recvIndex == b.s.recv.index
    ensures SkipId(m.header.dhPublic, m.header.n) !in b.s.skipped
    ensures RotateOnRecv(b.s, m.header).Ok? && ChainIndex(b, m.header) <= m.header.n
    ensures forall id <- b.s.skipped :: id.pub == m.header.dhPublic ==> id.index < ChainIndex(b, m.header)
  {
    StoredNamesAreBehind(party, m);
  }

  lemma NothingAheadToGiveUp(b: Browser, pub: Point, from: nat, n: nat)
    requires Lists(b.order, b.s.skipped) && forall id <- b.s.skipped :: id.pub == pub ==> id.index < from
    ensures GivenUpInTime(b.order, pub, from, n)
  {
    forall q | 0 <= q < |b.order| && b.order[q].pub == pub
      ensures b.order[q].index < from
    {
      assert b.order[q] in b.s.skipped;
    }
  }

  /** In every state that an honest run reaches, a receivable message keeps the newest names. */
  lemma HonestJump(b: Browser, sys: TwoParty.System, spk: nat, e: TwoParty.Event)
    requires TwoParty.Inv(sys, spk) && TwoParty.Enabled(sys, e) && e.Deliver?
    requires BrowserOk(b) && |b.order| <= MAX_SKIPPED
    requires b.s == sys.parties[e.p].sess && b.recvIndex == b.s.recv.index
    requires var h := TwoParty.Delivered(sys, e).header;
      TwoParty.IdOf(h) !in b.s.skipped && TwoPartyRuns.Receivable(sys.parties[e.p], h)
    ensures KeepsNewest(b, TwoParty.Delivered(sys, e).ciphertext, TwoParty.Delivered(sys, e).header)
  {
    hide KeepsNewest;
    var m, party := TwoParty.Delivered(sys, e), sys.parties[e.p];
    HonestFacts(sys, spk, e);
    JumpApplies(b, party, m);
    NothingAheadToGiveUp(b, m.header.dhPublic, ChainIndex(b, m.header), m.header.n - ChainIndex(b, m.header));
    JumpExactly(b, m.ciphertext, m.header);
  }

  lemma HonestFacts(sys: TwoParty.System, spk: nat, e: TwoParty.Event)
    requires TwoParty.Inv(sys, spk) && TwoParty.Enabled(sys, e) && e.Deliver?
    ensures TwoParty.ViewOk(sys.parties[e.p].view, sys.parties[e.p].sess)
    ensures TwoParty.Delivered(sys, e).header.dhPublic.Pub?
  {
    var m := TwoParty.Delivered(sys, e);
    assert TwoParty.PartyOk(sys.parties[e.p], e.p, sys.epochs, spk, sys.nextSeed);
    assert TwoParty.MessageOk(m, 1 - e.p, sys.epochs);
  }

  lemma {:induction false} LostStaysLost(order: seq<SkipId>, pub: Point, from: nat, n: nat, k: nat, id: SkipId)
    requires from + n < TWO_32 && k <= n
    requires id !in StoreManyOldest(order, pub, from, k) && id.pub == pub && id.index < from + k
    ensures id !in StoreManyOldest(order, pub, from, n)
  {
    if n > k {
      LostStaysLost(order, pub, from, n - 1, k, id);
    }
  }

  /** If a full cache holds the first name of the jump in second place, storing that name leaves it
      there, and it is lost two stores later. */
  lemma DisturbedJumpLosesOne(order: seq<SkipId>, pub: Point, from: nat, n: nat)
    requires |order| == MAX_SKIPPED && 3 <= n && from + n < TWO_32
    requires order[1] == SkipId(pub, from)
    requires forall i :: 0 <= i < |order| && i != 1 ==> order[i].pub != pub
    ensures SkipId(pub, from) !in StoreManyOldest(order, pub, from, n)
  {
    var id := SkipId(pub, from);
    var one, two := StoreManyOldest(order, pub, from, 1), StoreManyOldest(order, pub, from, 2);
    assert StoreManyOldest(order, pub, from, 0) == order;
    assert MakeRoom(order)[0] == id;
    assert one == order[1..];
    assert SkipId(pub, from + 1) !in one;
    assert two == order[1..] + [SkipId(pub, from + 1)];
    assert StoreManyOldest(order, pub, from, 3) == two[1..] + [SkipId(pub, from + 2)];
    LostStaysLost(order, pub, from, n, 3, id);
  }

  /** Receiving on a chain that differs from the current one starts at index 0. */
  lemma NewChainOrder(b: Browser, ct: Ciphertext, h: Header)
    requires BrowserOk(b) && h.dhPublic.Pub? && h.dhPublic != b.s.remote && SkipId(h.dhPublic, h.n) !in b.order
    ensures var b' := DecryptOldest(b, ct, h).0;
      BrowserOk(b') && b'.s.remote == h.dhPublic && b'.order == StoreManyOldest(b.order, h.dhPublic, 0, h.n)
  {
    PerformKeepsOk(b, DecryptCall(ct, h));
  }

  /** A header made up by the network. */
  function Forged(scalar: nat, n: uint32): Header {
    Header(Pub(scalar), 0, n, OtherNonce(0))
  }

  function ForgedCalls(x: nat, y: nat, z: nat, ct: Ciphertext): seq<Call> {
    [DecryptCall(ct, Forged(x, 1)), DecryptCall(ct, Forged(y, 1)), DecryptCall(ct, Forged(z, 62))]
  }

  lemma RunThree(b: Browser, x: Call, y: Call, z: Call)
    requires BrowserOk(b)
    ensures BrowserOk(Perform(b, x)) && BrowserOk(Perform(Perform(b, x), y))
    ensures RunCalls(b, [x, y, z]) == Perform(Perform(Perform(b, x), y), z)
  {
    hide Perform, Lists, Wrapped;
    PerformKeepsOk(b, x);
    PerformKeepsOk(Perform(b, x), y);
    assert [x, y, z][..2] == [x, y] && [x, y][..1] == [x] && [x][..0] == [];
    assert RunCalls(b, []) == b;
    assert RunCalls(b, [x]) == Perform(b, x);
    assert RunCalls(b, [x, y]) == Perform(Perform(b, x), y);
  }

  lemma StoringFew(order: seq<SkipId>, pub: Point, n: nat)
    requires |order| + n <= MAX_SKIPPED && forall id <- order :: id.pub != pub
    ensures StoreManyOldest(order, pub, 0, n) == order + Run(pub, 0, n)
  {
    NewestAreKept(order, pub, 0, n);
    assert KeepsLast(order, pub, 0, n);
    RunContents(pub, 0, n, SkipId(pub, 0));
  }

  /** Three forged headers fill the cache of any session with an empty one so that the first name of
      the second chain is in second place. */
  lemma ForgedOrder(b: Browser, x: nat, y: nat, z: nat, ct: Ciphertext)
    requires BrowserOk(b) && b.order == [] && b.s.remote != Pub(x) && x != y && y != z && x != z
    ensures var b' := RunCalls(b, ForgedCalls(x, y, z, ct));
      && b'.order == [SkipId(Pub(x), 0), SkipId(Pub(y), 0)] + Run(Pub(z), 0, 62)
      && b'.s.remote == Pub(z)
  {
    hide DecryptOldest, Lists, StoreManyOldest, Wrapped;
    var calls := ForgedCalls(x, y, z, ct);
    RunThree(b, calls[0], calls[1], calls[2]);
    NewChainOrder(b, ct, Forged(x, 1));
    StoringFew([], Pub(x), 1);
    var b1 := Perform(b, calls[0]);
    assert b1.order == [SkipId(Pub(x), 0)];
    NewChainOrder(b1, ct, Forged(y, 1));
    StoringFew(b1.order, Pub(y), 1);
    var b2 := Perform(b1, calls[1]);
    assert b2.order == [SkipId(Pub(x), 0), SkipId(Pub(y), 0)];
    NewChainOrder(b2, ct, Forged(z, 62));
    StoringFew(b2.order, Pub(z), 62);
  }

  /** A long jump need not keep the last 64: three forged headers to a session with an empty cache, and
      then a jump over 64 messages of the second chain, lose the first of the 64. */
  lemma ForgedHeadersDisturbJump(b: Browser, x: nat, y: nat, z: nat, ct: Ciphertext)
    requires BrowserOk(b) && b.order == [] && b.s.remote != Pub(x) && x != y && y != z && x != z
    ensures var b', h := RunCalls(b, ForgedCalls(x, y, z, ct)), Forged(y, 64);
      && ChainIndex(b', h) == 0 && SkipId(Pub(y), 64) !in b'.s.skipped
      && SkipId(Pub(y), 0) !in DecryptOldest(b', ct, h).0.order
      && !KeepsNewest(b', ct, h)
  {
    hide StoreManyOldest, DecryptOldest, Distinct, Run;
    var b', h, id := RunCalls(b, ForgedCalls(x, y, z, ct)), Forged(y, 64), SkipId(Pub(y), 0);
    ForgedOrder(b, x, y, z, ct);
    forall i | 2 <= i < |b'.order|
      ensures b'.order[i].pub == Pub(z)
    {
      RunContents(Pub(z), 0, 62, b'.order[i]);
      assert b'.order[i] == Run(Pub(z), 0, 62)[i - 2];
    }
    RunContents(Pub(z), 0, 62, id);
    assert SkipId(Pub(y), 64) !in b'.order;
    NewChainOrder(b', ct, h);
    DisturbedJumpLosesOne(b'.order, Pub(y), 0, 64);
    RunContents(Pub(y), 0, 64, id);
  }
}
