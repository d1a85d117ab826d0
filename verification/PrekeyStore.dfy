/** The key service's requests, as transactions on the directory. */
module PrekeyStores {
  import opened Crypto
  import opened PrekeyDirectory

  /** The ID a request gives for a key: none at all, one that does not parse, or a proper one. */
  datatype GivenId = NoId | BadId | Id(id: nat)

  datatype RequestedKey = RequestedKey(id: GivenId, publicKey: string)

  datatype NewKey = NewKey(id: nat, key: OneTimeKey)

  predicate Acceptable(k: RequestedKey) {
    k.publicKey != "" && !k.id.BadId?
  }

  /** The rows to insert; a key without an ID takes the random one drawn for its place. */
  function RowsFor(keys: seq<RequestedKey>, device: nat, drawn: seq<nat>, now: int): seq<NewKey>
    requires |drawn| == |keys|
  {
    seq(|keys|, i requires 0 <= i < |keys| =>
      NewKey(if keys[i].id.Id? then keys[i].id.id else drawn[i], OneTimeKey(device, keys[i].publicKey, now, false)))
  }

  function Inserts(t: nat, keys: seq<NewKey>): seq<Event> {
    seq(|keys|, i requires 0 <= i < |keys| => Insert(t, keys[i].id, keys[i].key))
  }

  /** Collects the rows of a request, or refuses it. */
  method CollectKeys(keys: seq<RequestedKey>, device: nat, drawn: seq<nat>, now: int) returns (r: Option<seq<NewKey>>)
    requires |drawn| == |keys|
    ensures r.Some? <==> forall k <- keys :: Acceptable(k)
    ensures r.Some? ==> r.value == RowsFor(keys, device, drawn, now)
    ensures r.Some? ==> |r.value| == |keys| && forall i :: 0 <= i < |keys| ==>
      && r.value[i].id == (if keys[i].id.Id? then keys[i].id.id else drawn[i])
      && r.value[i].key.device == device && r.value[i].key.publicKey == keys[i].publicKey
      && r.value[i].key.createdAt == now && !r.value[i].key.consumed
  {
    var otks: seq<NewKey> := [];
    for i := 0 to |keys|
      invariant otks == RowsFor(keys, device, drawn, now)[..i]
      invariant forall j :: 0 <= j < i ==> Acceptable(keys[j])
    {
      if keys[i].publicKey == "" || keys[i].id.BadId? {
        assert !Acceptable(keys[i]);
        return None;
      }
      var id := if keys[i].id.Id? then keys[i].id.id else drawn[i];
      otks := otks + [NewKey(id, OneTimeKey(device, keys[i].publicKey, now, false))];
    }
    return Some(otks);
  }

  /** The first key of the batch under this ID. */
  predicate IsFirstWith(keys: seq<NewKey>, i: nat)
    requires i < |keys|
  {
    forall j :: 0 <= j < i ==> keys[j].id != keys[i].id
  }

  /** What a transaction holds after a batch: its earlier inserts, and the first key of the batch under
      each ID that is neither a row nor inserted already. */
  ghost predicate BatchAdded(rows: map<nat, OneTimeKey>, held: map<nat, OneTimeKey>, keys: seq<NewKey>,
                             held': map<nat, OneTimeKey>) {
    && (forall id <- held :: id in held' && held'[id] == held[id])
    && (forall id <- held' :: id in held || (id !in rows && exists i :: 0 <= i < |keys| && keys[i].id == id))
    && (forall i :: 0 <= i < |keys| && IsFirstWith(keys, i) && keys[i].id !in rows && keys[i].id !in held ==>
          keys[i].id in held' && held'[keys[i].id] == keys[i].key)
  }

  lemma BatchGrows(rows: map<nat, OneTimeKey>, held: map<nat, OneTimeKey>, keys: seq<NewKey>,
                   held': map<nat, OneTimeKey>, k: NewKey)
    requires BatchAdded(rows, held, keys, held')
    ensures BatchAdded(rows, held, keys + [k], if k.id in rows || k.id in held' then held' else held'[k.id := k.key])
  {
    var more := keys + [k];
    var held'' := if k.id in rows || k.id in held' then held' else held'[k.id := k.key];
    assert forall j :: 0 <= j < |keys| ==> more[j] == keys[j];
    forall id <- held''
      ensures id in held || (id !in rows && exists i :: 0 <= i < |more| && more[i].id == id)
    {
      if id in held' && id !in held {
        var i :| 0 <= i < |keys| && keys[i].id == id;
        assert more[i].id == id;
      } else if id !in held {
        assert more[|keys|].id == id;
      }
    }
    forall i | 0 <= i < |more| && IsFirstWith(more, i) && more[i].id !in rows && more[i].id !in held
      ensures more[i].id in held'' && held''[more[i].id] == more[i].key
    {
      if i < |keys| {
        assert IsFirstWith(keys, i);
      }
    }
  }

  /** The directory after transaction t has inserted these keys. */
  ghost predicate Added(was: Directory, d: Directory, t: nat, keys: seq<NewKey>)
    requires t in was.txs && was.txs[t].Adding?
  {
    && d == Run(was, Inserts(t, keys))
    && d.rows == was.rows && d.bundles == was.bundles
    && t in d.txs && d.txs[t].Adding? && d.txs == was.txs[t := d.txs[t]]
    && BatchAdded(was.rows, was.txs[t].inserts, keys, d.txs[t].inserts)
  }

  lemma AddedNext(was: Directory, d: Directory, t: nat, keys: seq<NewKey>, i: nat)
    requires i < |keys| && t in was.txs && was.txs[t].Adding? && Added(was, d, t, keys[..i])
    requires !InsertedByOther(was, t, keys[i].id) && !keys[i].key.consumed
    ensures var id, inserts := keys[i].id, d.txs[t].inserts;
      Added(was, if id in d.rows || id in inserts then d
                 else d.(txs := d.txs[t := Adding(inserts[id := keys[i].key])]), t, keys[..i + 1])
  {
    hide Run;
    var e := Insert(t, keys[i].id, keys[i].key);
    assert keys[..i + 1] == keys[..i] + [keys[i]];
    BatchGrows(was.rows, was.txs[t].inserts, keys[..i], d.txs[t].inserts, keys[i]);
    assert !InsertedByOther(d, t, e.id) by {
      assert forall u <- d.txs :: u != t ==> u in was.txs && d.txs[u] == was.txs[u];
    }
    assert Inserts(t, keys[..i + 1]) == Inserts(t, keys[..i]) + [e];
    RunOneMore(was, Inserts(t, keys[..i]), e);
  }

  lemma AddedOpen(was: Directory, d: Directory, t: nat, keys: seq<NewKey>)
    requires t in was.txs && was.txs[t].Adding? && Added(was, d, t, keys)
    ensures d == Run(was, Inserts(t, keys)) && d.rows == was.rows && d.bundles == was.bundles
    ensures t in d.txs && d.txs[t].Adding? && d.txs == was.txs[t := d.txs[t]]
    ensures BatchAdded(was.rows, was.txs[t].inserts, keys, d.txs[t].inserts)
  {
  }

  lemma AddedNone(was: Directory, t: nat)
    requires t in was.txs && was.txs[t].Adding?
    ensures Added(was, was, t, [])
  {
  }

  class Store {
    var db: Directory

    constructor ()
      ensures db == Empty()
    {
      db := Empty();
    }

    /** One insert statement for all keys, in transaction t; rows whose ID is taken are left out.
        The database lets it go on once no other open transaction has inserted one of the IDs. */
    method AddBatch(t: nat, keys: seq<NewKey>)
      requires t in db.txs && db.txs[t].Adding?
      requires forall k <- keys :: !InsertedByOther(db, t, k.id) && !k.key.consumed
      modifies this
      ensures db == Run(old(db), Inserts(t, keys))
      ensures db.rows == old(db).rows && db.bundles == old(db).bundles
      ensures t in db.txs && db.txs[t].Adding? && db.txs == old(db).txs[t := db.txs[t]]
      ensures BatchAdded(old(db).rows, old(db).txs[t].inserts, keys, db.txs[t].inserts)
    {
      AddedNone(db, t);
      assert keys[..0] == [] && keys[..|keys|] == keys;
      hide Added, InsertedByOther;
      for i := 0 to |keys|
        invariant Added(old(db), db, t, keys[..i])
      {
        AddedNext(old(db), db, t, keys, i);
        var id := keys[i].id;
        AddedOpen(old(db), db, t, keys[..i]);
        if id !in db.rows && id !in db.txs[t].inserts {
          db := db.(txs := db.txs[t := Adding(db.txs[t].inserts[id := keys[i].key])]);
        }
      }
      AddedOpen(old(db), db, t, keys);
    }

    /** Ends a registration or rotation: its inserts become rows. */
    method CommitAdded(t: nat)
      requires t in db.txs && db.txs[t].Adding? && DirectoryOk(db)
      modifies this
      ensures db == Run(old(db), [Commit(t)])
      ensures db.txs == old(db).txs - {t} && db.bundles == old(db).bundles
      ensures forall id <- old(db).txs[t].inserts ::
        id in db.rows && db.rows[id] == old(db).txs[t].inserts[id] && !db.rows[id].consumed
      ensures forall id <- old(db).rows :: id in db.rows && db.rows[id] == old(db).rows[id]
      ensures forall id <- db.rows :: id in old(db).rows || id in old(db).txs[t].inserts
    {
      RunOne(db, Commit(t));
      assert TxOk(db, t);
      db := Directory(db.rows + db.txs[t].inserts, db.txs - {t}, db.bundles);
    }

    /** A registration or rotation that nothing interrupts: each ID that was no row becomes one, with
        the first key given for it, and every earlier row is as it was. */
    method Register(t: nat, keys: seq<NewKey>)
      requires t !in db.txs && DirectoryOk(db)
      requires forall k <- keys :: !InsertedByOther(db, t, k.id) && !k.key.consumed
      modifies this
      ensures db == Run(old(db), [BeginAdd(t)] + Inserts(t, keys) + [Commit(t)])
      ensures db.txs == old(db).txs && db.bundles == old(db).bundles
      ensures BatchAdded(old(db).rows, old(db).rows, keys, db.rows)
    {
      hide Run;
      RunOne(db, BeginAdd(t));
      StepKeepsOk(db, BeginAdd(t));
      RunAppend(db, [BeginAdd(t)], Inserts(t, keys));
      RunAppend(db, [BeginAdd(t)] + Inserts(t, keys), [Commit(t)]);
      db := db.(txs := db.txs[t := Adding(map[])]);
      assert forall u <- old(db).txs :: db.txs[u] == old(db).txs[u];
      RunKeepsOk(db, Inserts(t, keys));
      AddBatch(t, keys);
      CommitAdded(t);
    }

    /** Ends any transaction without a trace. */
    method Rollback(t: nat)
      requires t in db.txs
      modifies this
      ensures db == Run(old(db), [Abort(t)])
      ensures db.rows == old(db).rows && db.bundles == old(db).bundles && db.txs == old(db).txs - {t}
    {
      RunOne(db, Abort(t));
      db := db.(txs := db.txs - {t});
    }

    /** Selects and marks the device's next key, in transaction t. */
    method ConsumeNext(t: nat) returns (key: Option<nat>)
      requires Enabled(db, Select(t))
      modifies this
      ensures key == NextKey(old(db), t, old(db).txs[t].device)
      ensures db == Run(old(db), if key.Some? then [Select(t), PrekeyDirectory.Mark(t)] else [Select(t)])
    {
      var device := db.txs[t].device;
      var ids := Candidates(db, t, device);
      RunOne(db, Select(t));
      if ids == {} {
        db := db.(txs := db.txs[t := Taking(device, Selected(None))]);
        return None;
      }
      FirstExists(db, ids);
      var id :| IsFirst(db, ids, id);
      FirstIsUnique(db, ids, id, NextKey(db, t, device).value);
      RunOneMore(db, [Select(t)], PrekeyDirectory.Mark(t));
      db := db.(txs := db.txs[t := Taking(device, Marked(id))]);
      return Some(id);
    }

    /** A bundle request that nothing interrupts hands out the device's oldest key that is neither
        consumed nor locked, if there is one, and consumes it. */
    method TakeKey(t: nat, device: nat) returns (key: Option<nat>)
      requires t !in db.txs
      modifies this
      ensures db.bundles == old(db).bundles + [Bundle(device, key)] && db.txs == old(db).txs
      ensures key.None? ==>
        db.rows == old(db).rows && forall id :: Unconsumed(old(db), device, id) ==> LockedByOther(old(db), t, id)
      ensures key.Some? ==>
        && Unconsumed(old(db), device, key.value) && !LockedByOther(old(db), t, key.value)
        && db.rows == old(db).rows[key.value := old(db).rows[key.value].(consumed := true)]
        && forall id :: Unconsumed(old(db), device, id) && !LockedByOther(old(db), t, id) ==>
             || old(db).rows[key.value].createdAt < old(db).rows[id].createdAt
             || (old(db).rows[key.value].createdAt == old(db).rows[id].createdAt && key.value <= id)
      ensures db == Run(old(db), TakeEvents(t, device, key))
    {
      db := db.(txs := db.txs[t := Taking(device, Reading)]);
      ghost var begun := db;
      SameLocks(old(db), t, Taking(device, Reading));
      NoKeyMeansAllLocked(begun, t, device);
      key := ConsumeNext(t);
      RunOne(begun, Select(t));
      if key.Some? {
        RunOneMore(begun, [Select(t)], PrekeyDirectory.Mark(t));
        FirstOfFree(begun, t, device, key.value);
      }
      TakingRuns(old(db), t, device, key);
      var taken := db.txs[t].phase;
      db := Directory(if taken.Marked? then Consume(db.rows, taken.id) else db.rows, db.txs - {t},
                      db.bundles + [Bundle(device, key)]);
    }
  }

  /** The steps of an uninterrupted bundle request that gets this key. */
  function TakeEvents(t: nat, device: nat, key: Option<nat>): seq<Event> {
    [BeginTake(t, device), Select(t)] + (if key.Some? then [PrekeyDirectory.Mark(t)] else []) + [Commit(t)]
  }

  lemma TakingRuns(d: Directory, t: nat, device: nat, key: Option<nat>)
    requires t !in d.txs
    ensures var middle := if key.Some? then [Select(t), PrekeyDirectory.Mark(t)] else [Select(t)];
      var begun := d.(txs := d.txs[t := Taking(device, Reading)]);
      Run(d, TakeEvents(t, device, key)) == Run(Run(begun, middle), [Commit(t)])
  {
    var middle := if key.Some? then [Select(t), PrekeyDirectory.Mark(t)] else [Select(t)];
    RunOne(d, BeginTake(t, device));
    assert TakeEvents(t, device, key) == [BeginTake(t, device)] + middle + [Commit(t)];
    RunAppend(d, [BeginTake(t, device)] + middle, [Commit(t)]);
    RunAppend(d, [BeginTake(t, device)], middle);
  }

  lemma SameLocks(d: Directory, t: nat, tx: Tx)
    requires t !in d.txs
    ensures var d' := d.(txs := d.txs[t := tx]);
      && (forall id :: LockedByOther(d', t, id) == LockedByOther(d, t, id))
      && (forall device, id :: Unconsumed(d', device, id) == Unconsumed(d, device, id))
  {
    var d' := d.(txs := d.txs[t := tx]);
    forall id
      ensures LockedByOther(d', t, id) == LockedByOther(d, t, id)
    {
      assert forall u <- d.txs :: d'.txs[u] == d.txs[u];
      assert forall u <- d'.txs :: u != t ==> u in d.txs;
    }
  }

  lemma FirstIsUnique(d: Directory, ids: set<nat>, a: nat, b: nat)
    requires IsFirst(d, ids, a) && IsFirst(d, ids, b)
    ensures a == b
  {
  }
}
