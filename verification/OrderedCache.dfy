/** The browser's session: the same ratchet, with the skipped keys in a JavaScript Map, which
    keeps insertion order and gives up its oldest entry. */
module OrderedCache {
  import opened Crypto
  import opened RatchetSpec

  /** A session whose `skipped` map is iterated in the order `order`, and whose receiving index is a
      JavaScript number: it does not wrap around, so at the end of a chain it is 2^32. */
  datatype Browser = Browser(s: Session, order: seq<SkipId>, recvIndex: nat)

  ghost predicate BrowserOk(b: Browser) {
    Lists(b.order, b.s.skipped) && IndexOk(b)
  }

  /** The uint32 that a Go session would hold. */
  function Wrapped(index: nat): uint32 {
    index % TWO_32
  }

  predicate IndexOk(b: Browser) {
    b.recvIndex <= TWO_32 && b.s.recv.index == Wrapped(b.recvIndex)
  }

  ghost predicate Distinct(order: seq<SkipId>) {
    forall i, j :: 0 <= i < j < |order| ==> order[i] != order[j]
  }

  /** `order` lists the names in the map, each once. */
  ghost predicate Lists(order: seq<SkipId>, m: map<SkipId, Key>) {
    Distinct(order) && forall id :: id in order <==> id in m
  }

  /** Map.set: a present name keeps its place, a new one goes to the end. */
  function Append(order: seq<SkipId>, id: SkipId): seq<SkipId> {
    if id in order then order else order + [id]
  }

  /** Map.delete. */
  function Remove(order: seq<SkipId>, id: SkipId): seq<SkipId> {
    if order == [] then []
    else if order[0] == id then order[1..]
    else [order[0]] + Remove(order[1..], id)
  }

  /** The entry given up by a full map: the first in order. */
  function Oldest(order: seq<SkipId>): Option<SkipId> {
    if |order| >= MAX_SKIPPED then Some(order[0]) else None
  }

  /** A full cache drops its first entry before it stores. */
  function MakeRoom(order: seq<SkipId>): seq<SkipId> {
    if |order| >= MAX_SKIPPED then order[1..] else order
  }

  function StoreOldest(order: seq<SkipId>, id: SkipId): seq<SkipId> {
    Append(MakeRoom(order), id)
  }

  /** The order after storing the names of n successive messages of the chain of `pub`. */
  function StoreManyOldest(order: seq<SkipId>, pub: Point, from: nat, n: nat): seq<SkipId>
    requires from + n < TWO_32
  {
    if n == 0 then order else StoreOldest(StoreManyOldest(order, pub, from, n - 1), SkipId(pub, from + n - 1))
  }

  /** What each of the n stores evicts. */
  function OldestVictims(order: seq<SkipId>, pub: Point, from: nat, n: nat): Evictions
    requires from + n < TWO_32
  {
    if n == 0 then []
    else OldestVictims(order, pub, from, n - 1) + [Oldest(StoreManyOldest(order, pub, from, n - 1))]
  }

  /** The index of the chain that a header is received on. */
  function ChainIndex(b: Browser, h: Header): nat {
    if h.dhPublic == b.s.remote then b.recvIndex else 0
  }

  /** What the browser's Decrypt does before opening the ciphertext. */
  function ReceiveKeyOldest(b: Browser, h: Header): (Browser, Result<Key, Error>)
    requires IndexOk(b)
  {
    var s, id := b.s, SkipId(h.dhPublic, h.n);
    if id in s.skipped then
      (Browser(s.(skipped := s.skipped - {id}), Remove(b.order, id), b.recvIndex), Ok(s.skipped[id]))
    else
      match RotateOnRecv(s, h)
      case Err(e) => (b, Err(e))
      case Ok(r) =>
        var from := ChainIndex(b, h);
        if h.n < from then
          (Browser(r, b.order, from), Err(ErrDuplicateMessage))
        else
          var n := h.n - from;
          var t := Skip(r, n, OldestVictims(b.order, r.remote, from, n));
          (Browser(t.(recv := Chain(Next(t.recv.key), Inc(h.n))), StoreManyOldest(b.order, r.remote, from, n), h.n + 1),
           Ok(Msg(t.recv.key)))
  }

  function DecryptOldest(b: Browser, ct: Ciphertext, h: Header): (Browser, Result<Bytes, Error>)
    requires IndexOk(b)
  {
    var (b', k) := ReceiveKeyOldest(b, h);
    (b', match k case Err(e) => Err(e) case Ok(mk) => Open(mk, AssociatedDataOf(h), ct))
  }

  // Every browser run is a run that the Go code allows

  lemma {:induction false} RemoveIsDelete(order: seq<SkipId>, id: SkipId)
    requires Distinct(order)
    ensures Distinct(Remove(order, id))
    ensures forall x :: x in Remove(order, id) <==> x in order && x != id
  {
    if order != [] && order[0] != id {
      RemoveIsDelete(order[1..], id);
      assert order == [order[0]] + order[1..];
      assert order[0] !in order[1..];
    }
  }

  lemma {:induction false} DistinctSize(order: seq<SkipId>, ids: set<SkipId>)
    requires Distinct(order) && forall id :: id in order <==> id in ids
    ensures Size(ids) == |order|
  {
    SizeIsCardinality(ids);
    if order == [] {
      assert ids == {};
    } else {
      var last := order[|order| - 1];
      DistinctSize(order[..|order| - 1], ids - {last});
      SizeIsCardinality(ids - {last});
    }
  }

  lemma StoreOldestIsLegal(order: seq<SkipId>, m: map<SkipId, Key>, id: SkipId, key: Key)
    requires Lists(order, m)
    ensures LegalVictim(m, Oldest(order))
    ensures Lists(StoreOldest(order, id), Store(m, id, key, Oldest(order)))
  {
    DistinctSize(order, m.Keys);
  }

  lemma {:induction false} StoreManyOldestIsLegal(order: seq<SkipId>, m: map<SkipId, Key>, pub: Point, ck: Key,
                                                  from: nat, n: nat, later: Evictions)
    requires Lists(order, m) && from + n < TWO_32
    ensures |OldestVictims(order, pub, from, n)| == n
    ensures var ev := OldestVictims(order, pub, from, n) + later;
      && LegalVictims(m, pub, ck, from, n, ev)
      && Lists(StoreManyOldest(order, pub, from, n), StoreMany(m, pub, ck, from, n, ev))
  {
    hide Distinct, Size, Store, StoreOldest;
    if n > 0 {
      var before, victim := OldestVictims(order, pub, from, n - 1), Oldest(StoreManyOldest(order, pub, from, n - 1));
      var ev := OldestVictims(order, pub, from, n) + later;
      assert ev == before + ([victim] + later);
      StoreManyOldestIsLegal(order, m, pub, ck, from, n - 1, [victim] + later);
      StoreOldestIsLegal(StoreManyOldest(order, pub, from, n - 1), StoreMany(m, pub, ck, from, n - 1, ev),
                         SkipId(pub, from + n - 1), Msg(Iter(ck, n - 1)));
    }
  }

  /** The chain has used all its indices, and the header is another one of it. */
  predicate Exhausted(b: Browser, h: Header) {
    b.recvIndex == TWO_32 && h.dhPublic == b.s.remote && SkipId(h.dhPublic, h.n) !in b.s.skipped
  }

  /** The browser's Decrypt is one of the behaviours of the Go Decrypt, unless the chain is exhausted. */
  lemma BrowserRefinesGo(b: Browser, ct: Ciphertext, h: Header) returns (ev: Evictions)
    requires BrowserOk(b)
    ensures var (b', r) := DecryptOldest(b, ct, h);
      && BrowserOk(b')
      && (!Exhausted(b, h) ==> (b'.s, r) == Decrypt(b.s, ct, h, ev) && LegalEvictions(b.s, h, ev))
  {
    hide Distinct, StoreMany, StoreManyOldest, OldestVictims, LegalVictims;
    var s, id := b.s, SkipId(h.dhPublic, h.n);
    ev := [];
    if id in s.skipped {
      RemoveIsDelete(b.order, id);
    } else if RotateOnRecv(s, h).Ok? && h.n >= ChainIndex(b, h) {
      var r := RotateOnRecv(s, h).value;
      var n := h.n - r.recv.index;
      ev := OldestVictims(b.order, r.remote, r.recv.index, n);
      StoreManyOldestIsLegal(b.order, r.skipped, r.remote, r.recv.key, r.recv.index, n, []);
      assert ev + [] == ev;
    }
  }

  /** On an exhausted chain the browser reports duplicates and changes nothing, where every behaviour
      of the Go code starts over at index 0. */
  lemma ExhaustedChainDiffers(b: Browser, ct: Ciphertext, h: Header, ev: Evictions)
    requires BrowserOk(b) && Exhausted(b, h)
    ensures DecryptOldest(b, ct, h) == (b, Err(ErrDuplicateMessage))
    ensures Decrypt(b.s, ct, h, ev).1 != Err(ErrDuplicateMessage)
  {
  }

  // Which keys are retained

  function Last(s: seq<SkipId>, n: nat): seq<SkipId> {
    if |s| <= n then s else s[|s| - n..]
  }

  /** The names of n successive messages, in order. */
  function Run(pub: Point, from: nat, n: nat): seq<SkipId>
    requires from + n < TWO_32
  {
    if n == 0 then [] else Run(pub, from, n - 1) + [SkipId(pub, from + n - 1)]
  }

  lemma {:induction false} RunContents(pub: Point, from: nat, n: nat, id: SkipId)
    requires from + n < TWO_32
    ensures |Run(pub, from, n)| == n
    ensures id in Run(pub, from, n) <==> id.pub == pub && from <= id.index < from + n
  {
    if n > 0 {
      RunContents(pub, from, n - 1, id);
    }
  }

  /** After m stores the cache holds the newest 64 of the old and the new names together. */
  predicate KeepsLast(order: seq<SkipId>, pub: Point, from: nat, m: nat)
    requires from + m < TWO_32
  {
    StoreManyOldest(order, pub, from, m) == Last(order + Run(pub, from, m), MAX_SKIPPED)
  }

  /** Every name that is stored already and will be stored again stands so far in front that it is
      given up before its turn comes. */
  predicate GivenUpInTime(order: seq<SkipId>, pub: Point, from: nat, n: nat) {
    forall q :: 0 <= q < |order| && order[q].pub == pub && from <= order[q].index < from + n ==>
      q + MAX_SKIPPED - 1 < |order| + (order[q].index - from)
  }

  /** The name to be stored next is still in the cache exactly if it stands behind what was given up. */
  lemma StillThere(order: seq<SkipId>, pub: Point, from: nat, m: nat)
    requires from + m + 1 < TWO_32 && |order| <= MAX_SKIPPED
    ensures SkipId(pub, from + m) in MakeRoom(Last(order + Run(pub, from, m), MAX_SKIPPED)) <==>
      exists q :: 0 <= q < |order| && order[q] == SkipId(pub, from + m) && q + MAX_SKIPPED - 1 >= |order| + m
  {
    var id, names := SkipId(pub, from + m), order + Run(pub, from, m);
    RunContents(pub, from, m, id);
    var rest := MakeRoom(Last(names, MAX_SKIPPED));
    var dropped := |names| - |rest|;
    assert rest == names[dropped..];
    if id in rest {
      var i :| 0 <= i < |rest| && rest[i] == id;
      assert names[dropped + i] == id;
      assert forall j :: |order| <= j < |names| ==> names[j] == Run(pub, from, m)[j - |order|];
      assert order[dropped + i] == id;
    }
    if q :| 0 <= q < |order| && order[q] == id && q + MAX_SKIPPED - 1 >= |order| + m {
      assert names[q] == id && dropped <= q;
      assert rest[q - dropped] == id;
    }
  }

  lemma KeepsLastStep(order: seq<SkipId>, pub: Point, from: nat, m: nat)
    requires from + m + 1 < TWO_32 && KeepsLast(order, pub, from, m)
    ensures KeepsLast(order, pub, from, m + 1) <==>
      SkipId(pub, from + m) !in MakeRoom(Last(order + Run(pub, from, m), MAX_SKIPPED))
  {
    var id, names := SkipId(pub, from + m), order + Run(pub, from, m);
    assert order + Run(pub, from, m + 1) == names + [id];
  }

  predicate KeepsLastThroughout(order: seq<SkipId>, pub: Point, from: nat, n: nat)
    requires from + n < TWO_32
  {
    forall m :: 0 <= m <= n ==> KeepsLast(order, pub, from, m)
  }

  lemma GivenUpStep(order: seq<SkipId>, pub: Point, from: nat, n: nat)
    requires from + n < TWO_32 && n > 0
    ensures GivenUpInTime(order, pub, from, n) <==>
      && GivenUpInTime(order, pub, from, n - 1)
      && !exists q :: 0 <= q < |order| && order[q] == SkipId(pub, from + n - 1) && q + MAX_SKIPPED >= |order| + n
  {
  }

  /** Storing keeps the newest 64 throughout, store after store, exactly if the names ahead that are
      stored already are all given up in time. */
  lemma {:induction false} NewestAreKept(order: seq<SkipId>, pub: Point, from: nat, n: nat)
    requires |order| <= MAX_SKIPPED && from + n < TWO_32
    ensures KeepsLastThroughout(order, pub, from, n) <==> GivenUpInTime(order, pub, from, n)
  {
    hide StoreManyOldest, Last, MakeRoom, GivenUpInTime;
    if n == 0 {
      NothingStoredYet(order, pub, from);
    } else {
      hide Run, KeepsLast;
      NewestAreKept(order, pub, from, n - 1);
      StillThere(order, pub, from, n - 1);
      GivenUpStep(order, pub, from, n);
      if KeepsLast(order, pub, from, n - 1) {
        KeepsLastStep(order, pub, from, n - 1);
      }
    }
  }

  lemma NothingStoredYet(order: seq<SkipId>, pub: Point, from: nat)
    requires |order| <= MAX_SKIPPED && from < TWO_32
    ensures KeepsLast(order, pub, from, 0) && GivenUpInTime(order, pub, from, 0)
  {
    assert order + [] == order;
  }

  /** A jump of 64 or more then leaves exactly the last 64 passed. */
  lemma LongJumpLeavesLast(order: seq<SkipId>, pub: Point, from: nat, n: nat)
    requires MAX_SKIPPED <= n && from + n < TWO_32
    ensures Last(order + Run(pub, from, n), MAX_SKIPPED) == Run(pub, from + n - MAX_SKIPPED, MAX_SKIPPED)
  {
    RunSuffix(pub, from, n, MAX_SKIPPED);
    var run := Run(pub, from, n);
    assert Last(order + run, MAX_SKIPPED) == run[n - MAX_SKIPPED..];
  }

  lemma {:induction false} RunSuffix(pub: Point, from: nat, n: nat, k: nat)
    requires from + n < TWO_32 && k <= n
    ensures |Run(pub, from, n)| == n && Run(pub, from, n)[n - k..] == Run(pub, from + n - k, k)
  {
    RunContents(pub, from, n, SkipId(pub, 0));
    if k > 0 {
      RunSuffix(pub, from, n - 1, k - 1);
    }
  }

  // Whole runs of the cache

  datatype CacheOp = Put(id: SkipId) | Take(id: SkipId)

  function Retained(order: seq<SkipId>, ops: seq<CacheOp>): seq<SkipId> {
    if ops == [] then order
    else
      var before := Retained(order, ops[..|ops| - 1]);
      match ops[|ops| - 1]
      case Put(id) => StoreOldest(before, id)
      case Take(id) => Remove(before, id)
  }

  /** Everything stored and not consumed since, in the order of insertion: a cache without a limit.
      Storing a name that the cache has lost inserts it anew, at the end. */
  function Unconsumed(ops: seq<CacheOp>): seq<SkipId> {
    if ops == [] then []
    else
      var earlier := ops[..|ops| - 1];
      var before, kept := Unconsumed(earlier), Retained([], earlier);
      match ops[|ops| - 1]
      case Put(id) => if id in MakeRoom(kept) then before else Remove(before, id) + [id]
      case Take(id) => if id in kept then Remove(before, id) else before
  }

  ghost predicate IsSuffix(s: seq<SkipId>, t: seq<SkipId>) {
    |s| <= |t| && t[|t| - |s|..] == s
  }

  lemma {:induction false} RemoveFromSuffix(lost: seq<SkipId>, kept: seq<SkipId>, id: SkipId)
    requires id !in lost
    ensures Remove(lost + kept, id) == lost + Remove(kept, id)
  {
    if lost == [] {
      assert lost + kept == kept && lost + Remove(kept, id) == Remove(kept, id);
    } else {
      RemoveFromSuffix(lost[1..], kept, id);
      assert (lost + kept)[1..] == lost[1..] + kept;
      assert lost + Remove(kept, id) == [lost[0]] + (lost[1..] + Remove(kept, id));
    }
  }

  lemma {:induction false} RemoveFromPrefix(lost: seq<SkipId>, kept: seq<SkipId>, id: SkipId)
    requires id !in kept
    ensures Remove(lost + kept, id) == Remove(lost, id) + kept
  {
    if lost == [] {
      assert lost + kept == kept;
      RemoveSize(kept, id);
    } else {
      assert (lost + kept)[1..] == lost[1..] + kept;
      if lost[0] != id {
        RemoveFromPrefix(lost[1..], kept, id);
        assert [lost[0]] + (Remove(lost[1..], id) + kept) == Remove(lost, id) + kept;
      }
    }
  }

  lemma {:induction false} RemoveSize(order: seq<SkipId>, id: SkipId)
    ensures |Remove(order, id)| <= |order|
    ensures id !in order ==> Remove(order, id) == order
  {
    if order != [] && order[0] != id {
      RemoveSize(order[1..], id);
    }
  }

  lemma MovedToEnd(lost: seq<SkipId>, rest: seq<SkipId>, id: SkipId)
    requires id !in rest && Distinct(lost + rest)
    ensures Remove(lost + rest, id) + [id] == Remove(lost, id) + (rest + [id])
    ensures Distinct(Remove(lost + rest, id) + [id])
  {
    RemoveFromPrefix(lost, rest, id);
    RemoveIsDelete(lost + rest, id);
    hide Remove;
    assert id !in Remove(lost + rest, id);
  }

  lemma PutKeepsSuffix(kept: seq<SkipId>, all: seq<SkipId>, id: SkipId)
    requires IsSuffix(kept, all) && Distinct(all) && |kept| <= MAX_SKIPPED
    ensures var all' := if id in MakeRoom(kept) then all else Remove(all, id) + [id];
      IsSuffix(StoreOldest(kept, id), all') && Distinct(all') && |StoreOldest(kept, id)| <= MAX_SKIPPED
  {
    hide Remove, Distinct;
    var rest := MakeRoom(kept);
    var lost := all[..|all| - |rest|];
    assert all == lost + rest;
    if id !in rest {
      MovedToEnd(lost, rest, id);
    }
  }

  lemma TakeKeepsSuffix(kept: seq<SkipId>, all: seq<SkipId>, id: SkipId)
    requires IsSuffix(kept, all) && Distinct(all)
    ensures IsSuffix(Remove(kept, id), if id in kept then Remove(all, id) else all)
    ensures |Remove(kept, id)| <= |kept|
    ensures Distinct(if id in kept then Remove(all, id) else all)
  {
    var lost := all[..|all| - |kept|];
    assert all == lost + kept;
    RemoveSize(kept, id);
    RemoveIsDelete(all, id);
    if id in kept {
      RemoveFromSuffix(lost, kept, id);
    }
  }

  /** Whatever is stored and consumed, and however often: the retained names are the newest of the
      unconsumed ones, and at most 64. */
  lemma {:induction false} RetainedIsSuffix(ops: seq<CacheOp>)
    ensures IsSuffix(Retained([], ops), Unconsumed(ops))
    ensures Distinct(Unconsumed(ops))
    ensures |Retained([], ops)| <= MAX_SKIPPED
  {
    hide IsSuffix, Remove, Append, StoreOldest, Distinct, MakeRoom;
    if ops == [] {
      NothingIsSuffix();
    } else {
      var before := ops[..|ops| - 1];
      var all, kept := Unconsumed(before), Retained([], before);
      RetainedIsSuffix(before);
      match ops[|ops| - 1]
      case Put(id) => PutKeepsSuffix(kept, all, id);
      case Take(id) => TakeKeepsSuffix(kept, all, id);
    }
  }

  lemma NothingIsSuffix()
    ensures IsSuffix([], []) && Distinct([])
  {
  }
}
