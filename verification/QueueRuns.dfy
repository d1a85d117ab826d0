/** Runs of the queue: enqueues, polls that succeed, and polls cut short by a failure. */
module QueueRuns {
  import opened Queue

  /** The table, and every envelope ever written to a connection, in order. */
  datatype Service<B> = Service(rows: seq<Row<B>>, written: seq<Row<B>>)

  datatype Event<B> =
    | Enqueue(id: nat, to: nat, body: B, sentAt: int)
    | PollDone(device: nat, limit: int)
    | PollFailed(device: nat, limit: int, wrote: nat)

  function Empty<B>(): Service<B> {
    Service([], [])
  }

  function Fresh<B>(r: Row<B>): Row<B> {
    r.(delivered := false)
  }

  ghost predicate IdTaken<B>(rows: seq<Row<B>>, id: nat) {
    exists r <- rows :: r.id == id
  }

  /** A failed poll wrote at most its batch.  It may have written all of it: the marking can fail too. */
  ghost function Step<B>(s: Service<B>, e: Event<B>): Service<B> {
    match e
    case Enqueue(id, to, body, sentAt) =>
      if IdTaken(s.rows, id) then s else s.(rows := s.rows + [Row(id, to, body, sentAt, false)])
    case PollDone(device, limit) =>
      Service(Poll(s.rows, device, limit), s.written + Limit(Pending(s.rows, device), limit))
    case PollFailed(device, limit, wrote) =>
      var batch := Limit(Pending(s.rows, device), limit);
      s.(written := s.written + if wrote < |batch| then batch[..wrote] else batch)
  }

  ghost function Run<B>(s: Service<B>, events: seq<Event<B>>): Service<B> {
    if events == [] then s else Step(Run(s, events[..|events| - 1]), events[|events| - 1])
  }

  // What every run keeps

  ghost predicate MarkedAt<B>(s: Service<B>, i: nat)
    requires i < |s.rows|
  {
    s.rows[i].delivered ==> Fresh(s.rows[i]) in s.written
  }

  ghost predicate MarkedWereWritten<B>(s: Service<B>) {
    forall i :: 0 <= i < |s.rows| ==> MarkedAt(s, i)
  }

  ghost predicate Once<B>(s: Service<B>) {
    && UniqueIds(s.written)
    && forall w <- s.written :: !w.delivered && w.(delivered := true) in s.rows
  }

  lemma BatchRows<B>(rows: seq<Row<B>>, device: nat, limit: int)
    requires UniqueIds(rows)
    ensures var batch := Limit(Pending(rows, device), limit);
      && UniqueIds(batch)
      && forall r <- batch :: r in rows && IsPending(r, device)
  {
    PendingIds(rows, device);
  }

  lemma SameIdSameRow<B>(rows: seq<Row<B>>, a: Row<B>, b: Row<B>)
    requires UniqueIds(rows) && a in rows && b in rows && a.id == b.id
    ensures a == b
  {
  }

  lemma PollKeepsMarked<B>(s: Service<B>, device: nat, limit: int)
    requires UniqueIds(s.rows) && MarkedWereWritten(s)
    ensures MarkedWereWritten(Step(s, PollDone(device, limit)))
  {
    hide Pending, Limit, UniqueIds;
    var batch := Limit(Pending(s.rows, device), limit);
    var t := Step(s, PollDone(device, limit));
    BatchRows(s.rows, device, limit);
    forall i | 0 <= i < |t.rows|
      ensures MarkedAt(t, i)
    {
      assert MarkedAt(s, i);
      if s.rows[i].id in Ids(batch) {
        var j :| 0 <= j < |batch| && batch[j].id == s.rows[i].id;
        assert batch[j] in batch;
        SameIdSameRow(s.rows, batch[j], s.rows[i]);
      }
    }
  }

  lemma StepKeepsMarked<B>(s: Service<B>, e: Event<B>)
    requires UniqueIds(s.rows) && MarkedWereWritten(s)
    ensures UniqueIds(Step(s, e).rows) && MarkedWereWritten(Step(s, e))
    ensures |s.rows| <= |Step(s, e).rows|
    ensures forall i :: 0 <= i < |s.rows| ==> Fresh(Step(s, e).rows[i]) == Fresh(s.rows[i])
    ensures s.written <= Step(s, e).written
  {
    hide Pending, Limit;
    var t := Step(s, e);
    match e
    case Enqueue(id, to, body, sentAt) =>
      forall i | 0 <= i < |t.rows|
        ensures MarkedAt(t, i)
      {
        assert i < |s.rows| ==> MarkedAt(s, i);
      }
    case PollDone(device, limit) =>
      MarkKeepsIds(s.rows, Ids(Limit(Pending(s.rows, device), limit)));
      PollKeepsMarked(s, device, limit);
    case PollFailed(device, limit, wrote) =>
      forall i | 0 <= i < |t.rows|
        ensures MarkedAt(t, i)
      {
        assert MarkedAt(s, i);
      }
  }

  /** In every run, whatever fails in it, a message is marked delivered only after its envelope
      was written, and no message that entered the table is ever dropped or altered. */
  lemma {:induction false} MarkedOnlyAfterWriting<B>(events: seq<Event<B>>, more: seq<Event<B>>)
    ensures var s, t := Run(Empty(), events), Run(Empty(), events + more);
      && UniqueIds(t.rows)
      && (forall r <- t.rows :: r.delivered ==> Fresh(r) in t.written)
      && |s.rows| <= |t.rows|
      && (forall i :: 0 <= i < |s.rows| ==> Fresh(t.rows[i]) == Fresh(s.rows[i]))
    decreases |more|, |events|
  {
    hide Step;
    RunKeepsMarked(events + more);
    var t := Run(Empty(), events + more);
    forall r <- t.rows
      ensures r.delivered ==> Fresh(r) in t.written
    {
      var i :| 0 <= i < |t.rows| && t.rows[i] == r;
      assert MarkedAt(t, i);
    }
    if more == [] {
      assert events + more == events;
    } else {
      var before := events + more[..|more| - 1];
      MarkedOnlyAfterWriting(events, more[..|more| - 1]);
      RunKeepsMarked(before);
      assert (events + more)[..|events + more| - 1] == before;
      StepKeepsMarked(Run(Empty(), before), more[|more| - 1]);
    }
  }

  lemma {:induction false} RunKeepsMarked<B>(events: seq<Event<B>>)
    ensures var s := Run(Empty(), events); UniqueIds(s.rows) && MarkedWereWritten(s)
  {
    hide Step;
    if events != [] {
      RunKeepsMarked(events[..|events| - 1]);
      StepKeepsMarked(Run(Empty(), events[..|events| - 1]), events[|events| - 1]);
    }
  }

  // Without failures

  lemma BatchIsNew<B>(s: Service<B>, device: nat, limit: int)
    requires UniqueIds(s.rows) && Once(s)
    ensures var batch := Limit(Pending(s.rows, device), limit); UniqueIds(s.written + batch)
  {
    hide Pending, Limit;
    var batch := Limit(Pending(s.rows, device), limit);
    BatchRows(s.rows, device, limit);
    forall i, j | 0 <= i < |s.written| && 0 <= j < |batch|
      ensures s.written[i].id != batch[j].id
    {
      assert s.written[i] in s.written && batch[j] in batch;
      if s.written[i].id == batch[j].id {
        SameIdSameRow(s.rows, s.written[i].(delivered := true), batch[j]);
      }
    }
  }

  lemma MarkMembers<B>(rows: seq<Row<B>>, ids: set<nat>, r: Row<B>)
    requires r in rows
    ensures (if r.id in ids then r.(delivered := true) else r) in Mark(rows, ids)
  {
  }

  lemma PollKeepsOnce<B>(s: Service<B>, device: nat, limit: int)
    requires UniqueIds(s.rows) && Once(s)
    ensures Once(Step(s, PollDone(device, limit)))
  {
    hide Pending, Limit, UniqueIds, Mark;
    var batch := Limit(Pending(s.rows, device), limit);
    var t := Step(s, PollDone(device, limit));
    BatchRows(s.rows, device, limit);
    BatchIsNew(s, device, limit);
    forall w <- t.written
      ensures !w.delivered && w.(delivered := true) in t.rows
    {
      if w in batch {
        MarkMembers(s.rows, Ids(batch), w);
      } else {
        assert w in s.written;
        MarkMembers(s.rows, Ids(batch), w.(delivered := true));
      }
    }
  }

  lemma {:induction false} RunKeepsOnce<B>(events: seq<Event<B>>)
    requires forall e <- events :: !e.PollFailed?
    ensures Once(Run(Empty(), events))
  {
    hide Pending, Limit, UniqueIds;
    if events == [] {
      EmptyIsOnce<B>();
    } else {
      var before, e := events[..|events| - 1], events[|events| - 1];
      RunKeepsOnce(before);
      RunKeepsMarked(before);
      if e.PollDone? {
        PollKeepsOnce(Run(Empty(), before), e.device, e.limit);
      }
    }
  }

  lemma EmptyIsOnce<B>()
    ensures Once(Empty<B>())
  {
  }

  /** When no poll fails, every envelope is written at most once, and exactly the marked messages
      were written. */
  lemma WrittenExactlyOnce<B>(events: seq<Event<B>>)
    requires forall e <- events :: !e.PollFailed?
    ensures var s := Run(Empty(), events);
      && UniqueIds(s.written)
      && (forall r <- s.rows :: r.delivered <==> Fresh(r) in s.written)
  {
    RunKeepsOnce(events);
    MarkedOnlyAfterWriting(events, []);
    assert events + [] == events;
    var s := Run(Empty(), events);
    forall r <- s.rows | Fresh(r) in s.written
      ensures r.delivered
    {
      SameIdSameRow(s.rows, r, Fresh(r).(delivered := true));
    }
  }

  // Every message arrives

  function PollsOf<B>(device: nat, limit: int, n: nat): seq<Event<B>> {
    if n == 0 then [] else PollsOf(device, limit, n - 1) + [PollDone(device, limit)]
  }

  lemma {:induction false} RunPolls<B>(events: seq<Event<B>>, device: nat, limit: int, n: nat)
    ensures Run(Empty(), events + PollsOf(device, limit, n)).rows == Polls(Run(Empty(), events).rows, device, limit, n)
  {
    hide Poll;
    var all := events + PollsOf(device, limit, n);
    if n == 0 {
      assert all == events;
    } else {
      RunPolls(events, device, limit, n - 1);
      assert all[..|all| - 1] == events + PollsOf(device, limit, n - 1);
    }
  }

  /** The first enqueue of an ID enters the table, and the row stays. */
  lemma {:induction false} FirstEnters<B>(events: seq<Event<B>>, i: nat, n: nat)
    requires i < n <= |events| && events[i].Enqueue?
    requires forall j :: 0 <= j < i && events[j].Enqueue? ==> events[j].id != events[i].id
    ensures var row := Row(events[i].id, events[i].to, events[i].body, events[i].sentAt, false);
      exists r <- Run(Empty(), events[..n]).rows :: Fresh(r) == row
    decreases n
  {
    var row := Row(events[i].id, events[i].to, events[i].body, events[i].sentAt, false);
    var before, s := events[..n - 1], Run(Empty(), events[..n]);
    assert events[..n][..n - 1] == before;
    if i < n - 1 {
      FirstEnters(events, i, n - 1);
      RunKeepsMarked(before);
      var t := Run(Empty(), before);
      StepKeepsMarked(t, events[n - 1]);
      var k :| 0 <= k < |t.rows| && Fresh(t.rows[k]) == row;
      assert Fresh(s.rows[k]) == row;
    } else {
      RowsAreEnqueued(before);
      assert !IdTaken(Run(Empty(), before).rows, row.id);
      assert s.rows[|s.rows| - 1] == row && Fresh(row) == row;
    }
  }

  lemma {:induction false} RowsAreEnqueued<B>(events: seq<Event<B>>)
    ensures forall r <- Run(Empty(), events).rows ::
      exists j :: 0 <= j < |events| && events[j].Enqueue? && events[j].id == r.id
  {
    if events != [] {
      var before, e := events[..|events| - 1], events[|events| - 1];
      RowsAreEnqueued(before);
      forall r <- Run(Empty(), events).rows
        ensures exists j :: 0 <= j < |events| && events[j].Enqueue? && events[j].id == r.id
      {
        if IdTaken(Run(Empty(), before).rows, r.id) {
          var j :| 0 <= j < |before| && before[j].Enqueue? && before[j].id == r.id;
          assert events[j] == before[j];
        } else {
          assert e.Enqueue? && e.id == r.id;
        }
      }
    }
  }

  lemma NonePending<B>(rows: seq<Row<B>>, device: nat, r: Row<B>)
    requires Pending(rows, device) == [] && r in rows && r.to == device
    ensures r.delivered
  {
    PendingIsSorted(rows, device);
    assert multiset(rows)[r] > 0;
    assert multiset(Pending(rows, device))[r] == 0;
  }

  /** In every run, whatever failed in it, a message enqueued under a new ID has been written once as
      many polls for its device have succeeded as its pending rows need, and is marked then. */
  lemma EveryMessageArrives<B>(events: seq<Event<B>>, i: nat, limit: int, n: nat)
    requires i < |events| && events[i].Enqueue? && limit > 0
    requires forall j :: 0 <= j < i && events[j].Enqueue? ==> events[j].id != events[i].id
    requires n >= CeilDiv(|Pending(Run(Empty(), events).rows, events[i].to)|, limit)
    ensures var t := Run(Empty(), events + PollsOf(events[i].to, limit, n));
      var row := Row(events[i].id, events[i].to, events[i].body, events[i].sentAt, false);
      row in t.written && row.(delivered := true) in t.rows
  {
    hide Step, Pending, Polls;
    var device := events[i].to;
    var row := Row(events[i].id, device, events[i].body, events[i].sentAt, false);
    var all := events + PollsOf(device, limit, n);
    var t := Run(Empty(), all);
    assert all[..|all|] == all;
    FirstEnters(all, i, |all|);
    var r :| r in t.rows && Fresh(r) == row;
    RunPolls(events, device, limit, n);
    RunKeepsMarked(events);
    DrainsInCeil(Run(Empty(), events).rows, device, limit, n);
    NonePending(t.rows, device, r);
    MarkedOnlyAfterWriting(all, []);
    assert all + [] == all;
  }
}
