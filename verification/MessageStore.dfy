/** The message table and the loop that pushes pending messages to a connected device. */
module MessageStores {
  import opened Queue

  class MessageStore<B(==)> {
    var rows: seq<Row<B>>
    /** Whether the database refuses queries, and whether it refuses updates. */
    var queriesFail: bool
    var updatesFail: bool

    constructor ()
      ensures rows == [] && !queriesFail && !updatesFail
    {
      rows, queriesFail, updatesFail := [], false, false;
    }

    /** The ID is the table's primary key. */
    method Create(row: Row<B>) returns (ok: bool)
      modifies this`rows
      ensures ok <==> !updatesFail && forall r <- old(rows) :: r.id != row.id
      ensures rows == if ok then old(rows) + [row] else old(rows)
    {
      if updatesFail || exists i :: 0 <= i < |rows| && rows[i].id == row.id {
        return false;
      }
      rows := rows + [row];
      return true;
    }

    method PendingForDevice(device: nat, limit: int) returns (ok: bool, msgs: seq<Row<B>>)
      ensures ok == !queriesFail
      ensures ok ==> msgs == Limit(Pending(rows, device), limit)
      ensures ok ==> msgs <= Pending(rows, device)
      ensures ok && limit <= 0 ==> msgs == Pending(rows, device)
      ensures ok && limit > 0 ==> |msgs| <= limit && (|msgs| < limit ==> msgs == Pending(rows, device))
    {
      if queriesFail {
        return false, [];
      }
      msgs := Pending(rows, device);
      if limit > 0 && limit < |msgs| {
        msgs := msgs[..limit];
      }
      return true, msgs;
    }

    method MarkDelivered(ids: set<nat>) returns (ok: bool)
      modifies this`rows
      ensures ok <==> ids == {} || !updatesFail
      ensures rows == if ok then Mark(old(rows), ids) else old(rows)
    {
      if ids == {} {
        MarkNothing(rows);
        return true;
      }
      if updatesFail {
        return false;
      }
      rows := Mark(rows, ids);
      return true;
    }
  }

  /** A device's connection: the envelopes whose frames were written completely, and how many more the
      peer will take before it is gone. */
  class Wire<B> {
    var written: seq<Row<B>>
    var writesLeft: nat

    constructor (writesLeft: nat)
      ensures written == [] && this.writesLeft == writesLeft
    {
      this.written, this.writesLeft := [], writesLeft;
    }

    method WriteText(row: Row<B>) returns (ok: bool)
      modifies this
      ensures ok <==> old(writesLeft) > 0
      ensures written == if ok then old(written) + [row] else old(written)
      ensures writesLeft == if ok then old(writesLeft) - 1 else 0
    {
      if writesLeft == 0 {
        return false;
      }
      written, writesLeft := written + [row], writesLeft - 1;
      return true;
    }
  }

  /** Succeeds exactly when the query, the write of every message of the batch and the update do, and
      is then a poll of the specification.  A failed call has written what the peer took of the batch
      and marked nothing. */
  method SendPending<B(==)>(store: MessageStore<B>, wire: Wire<B>, device: nat, batch: int) returns (ok: bool)
    modifies store`rows, wire
    ensures var msgs := Limit(Pending(old(store.rows), device), batch);
      && (ok <==> !store.queriesFail && |msgs| <= old(wire.writesLeft) && (msgs == [] || !store.updatesFail))
      && store.rows == (if ok then Poll(old(store.rows), device, batch) else old(store.rows))
      && wire.written == old(wire.written) +
           (if store.queriesFail then [] else if |msgs| <= old(wire.writesLeft) then msgs
            else msgs[..old(wire.writesLeft)])
  {
    hide Pending, Mark, Limit;
    var read, msgs := store.PendingForDevice(device, batch);
    if !read {
      return false;
    }
    if |msgs| == 0 {
      MarkNothing(store.rows);
      return true;
    }
    var ids: set<nat> := {};
    for i := 0 to |msgs|
      invariant store.rows == old(store.rows)
      invariant ids == Ids(msgs[..i])
      invariant wire.written == old(wire.written) + msgs[..i] && wire.writesLeft == old(wire.writesLeft) - i
    {
      var wrote := wire.WriteText(msgs[i]);
      if !wrote {
        return false;
      }
      ids := ids + {msgs[i].id};
      assert msgs[..i + 1] == msgs[..i] + [msgs[i]];
      IdsOfOneMore(msgs[..i], msgs[i]);
    }
    assert msgs[..|msgs|] == msgs;
    assert msgs[0].id in ids;
    ok := store.MarkDelivered(ids);
  }

  lemma IdsOfOneMore<B>(s: seq<Row<B>>, r: Row<B>)
    ensures Ids(s + [r]) == Ids(s) + {r.id}
  {
    var t := s + [r];
    forall id | id in Ids(s) + {r.id}
      ensures id in Ids(t)
    {
      if id == r.id {
        assert t[|s|].id == id;
      } else {
        var i :| 0 <= i < |s| && s[i].id == id;
        assert t[i].id == id;
      }
    }
  }

  lemma MarkNothing<B>(rows: seq<Row<B>>)
    ensures Mark(rows, {}) == rows
  {
  }
}
