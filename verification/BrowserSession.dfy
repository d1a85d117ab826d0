/** The browser's mutable session and its receiving side.  Its sending side is the Go one. */
module BrowserSessions {
  import opened Crypto
  import opened RatchetSpec
  import opened OrderedCache

  class BrowserSession {
    var rootKey: Key
    var sendChain: Chain
    var recvKey: Key
    /** A JavaScript number: it does not wrap around. */
    var recvIndex: nat
    var ratchetPrivate: nat
    var ratchetPublic: Point
    var remoteRatchet: Point
    var pn: uint32
    var skipped: map<SkipId, Key>
    var order: seq<SkipId>
    const peer: Peer

    ghost function Value(): Browser
      reads this
    {
      Browser(
        Session(rootKey, sendChain, Chain(recvKey, Wrapped(recvIndex)), ratchetPrivate, ratchetPublic, remoteRatchet,
                pn, skipped, peer),
        order, recvIndex)
    }

    constructor (b: Browser)
      requires IndexOk(b)
      ensures Value() == b
    {
      rootKey, sendChain, recvKey, recvIndex := b.s.root, b.s.send, b.s.recv.key, b.recvIndex;
      ratchetPrivate, ratchetPublic, remoteRatchet := b.s.priv, b.s.pub, b.s.remote;
      pn, skipped, peer, order := b.s.pn, b.s.skipped, b.s.peer, b.order;
    }

    method RotateRatchetOnRecv(header: Header) returns (r: Result<(), Error>)
      modifies this
      ensures RotateOnRecv(old(Value()).s, header) == if r.Ok? then Ok(Value().s) else Err(r.error)
      ensures r.Err? ==> Value() == old(Value())
      ensures order == old(order)
      ensures r.Ok? ==> recvIndex == ChainIndex(old(Value()), header)
    {
      if header.dhPublic == remoteRatchet {
        return Ok(());
      }
      var dh := X25519(ratchetPrivate, header.dhPublic);
      if dh.Err? {
        return Err(dh.error);
      }
      recvKey, recvIndex := ChainOut(rootKey, dh.value), 0;
      rootKey := RootOut(rootKey, dh.value);
      remoteRatchet := header.dhPublic;
      sendChain := Chain(Zero, 0);
      pn := header.pn;
      return Ok(());
    }

    method StoreSkippedKey(pub: Point, index: uint32, key: Key)
      requires Lists(order, skipped)
      modifies this`skipped, this`order
      ensures skipped == Store(old(skipped), SkipId(pub, index), key, Oldest(old(order)))
      ensures order == StoreOldest(old(order), SkipId(pub, index))
      ensures Lists(order, skipped)
    {
      StoreOldestIsLegal(order, skipped, SkipId(pub, index), key);
      if |order| >= MAX_SKIPPED {
        skipped := skipped - {order[0]};
        order := order[1..];
      }
      skipped := skipped[SkipId(pub, index) := key];
      order := Append(order, SkipId(pub, index));
    }

    method ConsumeSkipped(header: Header) returns (r: Option<Key>)
      modifies this`skipped, this`order
      ensures var id := SkipId(header.dhPublic, header.n);
              if id in old(skipped)
              then r == Some(old(skipped)[id]) && skipped == old(skipped) - {id} && order == Remove(old(order), id)
              else r == None && skipped == old(skipped) && order == old(order)
    {
      var name := SkipId(header.dhPublic, header.n);
      if name in skipped {
        r := Some(skipped[name]);
        skipped := skipped - {name};
        order := Remove(order, name);
      } else {
        r := None;
      }
    }

    /** The skipping loop: stores the keys up to the target index, oldest first out. */
    method SkipTo(target: uint32)
      requires recvIndex <= target && Lists(order, skipped)
      modifies this`skipped, this`order, this`recvKey, this`recvIndex
      ensures recvIndex == target && recvKey == Iter(old(recvKey), target - old(recvIndex))
      ensures var from, n := old(recvIndex), target - old(recvIndex);
        && order == StoreManyOldest(old(order), remoteRatchet, from, n)
        && skipped == StoreMany(old(skipped), remoteRatchet, old(recvKey), from, n,
                                OldestVictims(old(order), remoteRatchet, from, n))
      ensures Lists(order, skipped)
    {
      hide Lists, OldestVictims, Store, StoreOldest, Oldest;
      ghost var from, n := recvIndex, 0;
      ghost var ev := OldestVictims(order, remoteRatchet, from, target - from);
      while recvIndex < target
        invariant from + n == recvIndex <= target
        invariant recvKey == Iter(old(recvKey), n)
        invariant order == StoreManyOldest(old(order), remoteRatchet, from, n)
        invariant skipped == StoreMany(old(skipped), remoteRatchet, old(recvKey), from, n, ev)
        invariant Lists(order, skipped)
        decreases target - recvIndex
      {
        VictimAt(old(order), remoteRatchet, from, target - from, n);
        StoreSkippedKey(remoteRatchet, recvIndex, Msg(recvKey));
        recvKey, recvIndex := Next(recvKey), recvIndex + 1;
        n := n + 1;
      }
    }

    method Decrypt(ciphertext: Ciphertext, header: Header) returns (r: Result<Bytes, Error>)
      requires BrowserOk(Value())
      modifies this
      ensures (Value(), r) == DecryptOldest(old(Value()), ciphertext, header)
      ensures BrowserOk(Value())
    {
      hide Lists, OldestVictims, LegalVictims, StoreMany, StoreManyOldest, Remove;
      ghost var _ := BrowserRefinesGo(Value(), ciphertext, header);
      var stored := ConsumeSkipped(header);
      if stored.Some? {
        r := Open(stored.value, AssociatedDataOf(header), ciphertext);
        return;
      }
      var rotated := RotateRatchetOnRecv(header);
      if rotated.Err? {
        return Err(rotated.error);
      }
      if header.n < recvIndex {
        return Err(ErrDuplicateMessage);
      }
      SkipTo(header.n);
      NextWrapped(header.n);
      var mk := Msg(recvKey);
      recvKey, recvIndex := Next(recvKey), recvIndex + 1;
      r := Open(mk, AssociatedDataOf(header), ciphertext);
    }
  }

  lemma NextWrapped(n: uint32)
    ensures Wrapped(n) == n && Wrapped(n + 1) == Inc(n)
  {
  }

  lemma {:induction false} VictimAt(order: seq<SkipId>, pub: Point, from: nat, n: nat, i: nat)
    requires i < n && from + n < TWO_32
    ensures |OldestVictims(order, pub, from, n)| == n
    ensures Evicted(OldestVictims(order, pub, from, n), i) == Oldest(StoreManyOldest(order, pub, from, i))
  {
    if n > 1 {
      VictimAt(order, pub, from, n - 1, if i < n - 1 then i else 0);
    }
  }
}
