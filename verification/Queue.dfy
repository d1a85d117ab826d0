/** The message queue: rows wait until they were written to the recipient's connection. */
module Queue {
  /** `sentAt` and the delivery mark of a stored message; the body is whatever was enqueued. */
  datatype Row<B> = Row(id: nat, to: nat, body: B, sentAt: int, delivered: bool)

  predicate IsPending<B>(r: Row<B>, device: nat) {
    r.to == device && !r.delivered
  }

  // PendingForDevice: order by sent_at, then limit

  /** Insertion behind every row that was not sent later. */
  function InsertBySent<B>(r: Row<B>, s: seq<Row<B>>): seq<Row<B>> {
    if s == [] || s[|s| - 1].sentAt <= r.sentAt then s + [r]
    else InsertBySent(r, s[..|s| - 1]) + [s[|s| - 1]]
  }

  /** The pending rows of a device in order of sending. */
  function Pending<B>(rows: seq<Row<B>>, device: nat): seq<Row<B>> {
    if rows == [] then []
    else
      var before, r := Pending(rows[..|rows| - 1], device), rows[|rows| - 1];
      if IsPending(r, device) then InsertBySent(r, before) else before
  }

  function Limit<B>(s: seq<Row<B>>, limit: int): seq<Row<B>> {
    if limit > 0 && |s| > limit then s[..limit] else s
  }

  // MarkDelivered

  function Ids<B>(s: seq<Row<B>>): (ids: set<nat>)
    ensures forall i :: 0 <= i < |s| ==> s[i].id in ids
    ensures forall id <- ids :: exists i :: 0 <= i < |s| && s[i].id == id
  {
    set i | 0 <= i < |s| :: s[i].id
  }

  function Mark<B>(rows: seq<Row<B>>, ids: set<nat>): (marked: seq<Row<B>>)
    ensures |marked| == |rows|
    ensures forall i :: 0 <= i < |rows| ==>
      marked[i] == if rows[i].id in ids then rows[i].(delivered := true) else rows[i]
  {
    seq(|rows|, i requires 0 <= i < |rows| => if rows[i].id in ids then rows[i].(delivered := true) else rows[i])
  }

  predicate UniqueIds<B>(rows: seq<Row<B>>) {
    forall i, j :: 0 <= i < j < |rows| ==> rows[i].id != rows[j].id
  }

  predicate Sorted<B>(s: seq<Row<B>>) {
    forall i, j :: 0 <= i < j < |s| ==> s[i].sentAt <= s[j].sentAt
  }

  // The answer is sorted, complete and free of anything else

  lemma {:induction false} InsertKeepsRows<B>(r: Row<B>, s: seq<Row<B>>)
    ensures multiset(InsertBySent(r, s)) == multiset(s) + multiset{r}
    ensures forall x <- InsertBySent(r, s) :: x == r || x in s
  {
    if s != [] && s[|s| - 1].sentAt > r.sentAt {
      InsertKeepsRows(r, s[..|s| - 1]);
      assert s == s[..|s| - 1] + [s[|s| - 1]];
    }
  }

  lemma SortedPrefix<B>(s: seq<Row<B>>, last: Row<B>)
    requires Sorted(s + [last])
    ensures Sorted(s) && forall x <- s :: x.sentAt <= last.sentAt
  {
    var t := s + [last];
    forall i, j | 0 <= i < j < |s|
      ensures s[i].sentAt <= s[j].sentAt
    {
      assert t[i].sentAt <= t[j].sentAt;
    }
    forall x <- s
      ensures x.sentAt <= last.sentAt
    {
      var i :| 0 <= i < |s| && s[i] == x;
      assert t[i].sentAt <= t[|s|].sentAt;
    }
  }

  lemma SortedSnoc<B>(s: seq<Row<B>>, last: Row<B>)
    requires Sorted(s) && forall x <- s :: x.sentAt <= last.sentAt
    ensures Sorted(s + [last])
  {
  }

  lemma {:induction false} InsertKeepsSorted<B>(r: Row<B>, s: seq<Row<B>>)
    requires Sorted(s)
    ensures Sorted(InsertBySent(r, s))
    decreases |s|
  {
    if s == [] {
      SortedSnoc(s, r);
    } else {
      var front, last := s[..|s| - 1], s[|s| - 1];
      assert s == front + [last];
      SortedPrefix(front, last);
      hide Sorted;
      if last.sentAt <= r.sentAt {
        SortedSnoc(s, r);
      } else {
        InsertKeepsSorted(r, front);
        InsertKeepsRows(r, front);
        SortedSnoc(InsertBySent(r, front), last);
      }
    }
  }

  /** The answer is in order of sending and holds every undelivered row to the device as often as the
      table does, and no other row. */
  lemma {:induction false} PendingIsSorted<B>(rows: seq<Row<B>>, device: nat)
    ensures Sorted(Pending(rows, device))
    ensures forall r ::
      multiset(Pending(rows, device))[r] == if r.to == device && !r.delivered then multiset(rows)[r] else 0
  {
    if rows != [] {
      var before, r := rows[..|rows| - 1], rows[|rows| - 1];
      PendingIsSorted(before, device);
      InsertKeepsSorted(r, Pending(before, device));
      InsertKeepsRows(r, Pending(before, device));
      assert rows == before + [r];
    }
  }

  // Marking the first rows of the answer leaves exactly the others

  function Without<B>(s: seq<Row<B>>, ids: set<nat>): seq<Row<B>> {
    if s == [] then []
    else Without(s[..|s| - 1], ids) + (if s[|s| - 1].id in ids then [] else [s[|s| - 1]])
  }

  lemma {:induction false} WithoutAppend<B>(s: seq<Row<B>>, t: seq<Row<B>>, ids: set<nat>)
    ensures Without(s + t, ids) == Without(s, ids) + Without(t, ids)
  {
    if t == [] {
      assert s + t == s;
    } else {
      WithoutAppend(s, t[..|t| - 1], ids);
      assert (s + t)[..|s + t| - 1] == s + t[..|t| - 1];
    }
  }

  lemma {:induction false} WithoutAll<B>(s: seq<Row<B>>, ids: set<nat>)
    requires forall r <- s :: r.id in ids
    ensures Without(s, ids) == []
  {
    if s != [] {
      WithoutAll(s[..|s| - 1], ids);
    }
  }

  lemma {:induction false} WithoutNone<B>(s: seq<Row<B>>, ids: set<nat>)
    requires forall r <- s :: r.id !in ids
    ensures Without(s, ids) == s
  {
    if s != [] {
      WithoutNone(s[..|s| - 1], ids);
    }
  }

  lemma {:induction false} WithoutSubset<B>(s: seq<Row<B>>, ids: set<nat>)
    ensures forall r <- Without(s, ids) :: r in s && r.id !in ids
  {
    if s != [] {
      WithoutSubset(s[..|s| - 1], ids);
    }
  }

  lemma InsertSnoc<B>(r: Row<B>, s: seq<Row<B>>, last: Row<B>)
    ensures InsertBySent(r, s + [last]) ==
      if last.sentAt <= r.sentAt then s + [last] + [r] else InsertBySent(r, s) + [last]
  {
  }

  lemma WithoutSnoc<B>(s: seq<Row<B>>, last: Row<B>, ids: set<nat>)
    ensures Without(s + [last], ids) == if last.id in ids then Without(s, ids) else Without(s, ids) + [last]
  {
  }

  lemma InsertAtEnd<B>(r: Row<B>, s: seq<Row<B>>)
    requires forall x <- s :: x.sentAt <= r.sentAt
    ensures InsertBySent(r, s) == s + [r]
  {
  }

  lemma {:induction false} InsertWithout<B>(r: Row<B>, s: seq<Row<B>>, ids: set<nat>)
    requires Sorted(s)
    ensures Without(InsertBySent(r, s), ids) ==
      if r.id in ids then Without(s, ids) else InsertBySent(r, Without(s, ids))
    decreases |s|
  {
    if s == [] {
      assert InsertBySent(r, s) == [] + [r];
      WithoutSnoc([], r, ids);
    } else {
      var front, last := s[..|s| - 1], s[|s| - 1];
      assert s == front + [last];
      hide InsertBySent, Without, Sorted;
      InsertSnoc(r, front, last);
      WithoutSnoc(front, last, ids);
      SortedPrefix(front, last);
      if last.sentAt <= r.sentAt {
        WithoutSnoc(s, r, ids);
        WithoutSubset(s, ids);
        InsertAtEnd(r, Without(s, ids));
      } else {
        InsertWithout(r, front, ids);
        WithoutSnoc(InsertBySent(r, front), last, ids);
        InsertSnoc(r, Without(front, ids), last);
      }
    }
  }

  lemma {:induction false} PendingAfterMark<B>(rows: seq<Row<B>>, device: nat, ids: set<nat>)
    ensures Pending(Mark(rows, ids), device) == Without(Pending(rows, device), ids)
  {
    if rows != [] {
      var before := rows[..|rows| - 1];
      PendingAfterMark(before, device, ids);
      PendingIsSorted(before, device);
      assert Mark(rows, ids)[..|rows| - 1] == Mark(before, ids);
      InsertWithout(rows[|rows| - 1], Pending(before, device), ids);
    }
  }

  lemma {:induction false} PendingIds<B>(rows: seq<Row<B>>, device: nat)
    requires UniqueIds(rows)
    ensures UniqueIds(Pending(rows, device))
    ensures forall r <- Pending(rows, device) :: r in rows && IsPending(r, device)
  {
    if rows != [] {
      var before, r := rows[..|rows| - 1], rows[|rows| - 1];
      PendingIds(before, device);
      if IsPending(r, device) {
        InsertIds(r, Pending(before, device));
      }
    }
  }

  lemma {:induction false} InsertIds<B>(r: Row<B>, s: seq<Row<B>>)
    requires UniqueIds(s) && forall x <- s :: x.id != r.id
    ensures UniqueIds(InsertBySent(r, s))
    ensures forall x <- InsertBySent(r, s) :: x == r || x in s
    decreases |s|
  {
    if s != [] && s[|s| - 1].sentAt > r.sentAt {
      var front, last := s[..|s| - 1], s[|s| - 1];
      InsertIds(r, front);
      var inner := InsertBySent(r, front);
      forall x <- inner
        ensures x.id != last.id
      {
        if x != r {
          var i :| 0 <= i < |front| && front[i] == x;
          assert s[i].id != s[|s| - 1].id;
        }
      }
    }
  }

  /** Delivering the first k pending rows leaves the remaining ones, in the same order. */
  lemma PendingAfterDelivery<B>(rows: seq<Row<B>>, device: nat, k: nat)
    requires UniqueIds(rows) && k <= |Pending(rows, device)|
    ensures Pending(Mark(rows, Ids(Pending(rows, device)[..k])), device) == Pending(rows, device)[k..]
  {
    hide Pending, Without, Mark;
    var all := Pending(rows, device);
    var ids := Ids(all[..k]);
    PendingIds(rows, device);
    PendingAfterMark(rows, device, ids);
    WithoutAppend(all[..k], all[k..], ids);
    assert all == all[..k] + all[k..];
    WithoutAll(all[..k], ids);
    WithoutNone(all[k..], ids);
  }

  // Polls

  /** A successful poll writes a batch and marks it. */
  function Poll<B>(rows: seq<Row<B>>, device: nat, limit: int): seq<Row<B>> {
    Mark(rows, Ids(Limit(Pending(rows, device), limit)))
  }

  function Polls<B>(rows: seq<Row<B>>, device: nat, limit: int, n: nat): seq<Row<B>> {
    if n == 0 then rows else Poll(Polls(rows, device, limit, n - 1), device, limit)
  }

  /** What the first n polls write, in order. */
  function Written<B>(rows: seq<Row<B>>, device: nat, limit: int, n: nat): seq<Row<B>> {
    if n == 0 then []
    else Written(rows, device, limit, n - 1) + Limit(Pending(Polls(rows, device, limit, n - 1), device), limit)
  }

  lemma MarkKeepsIds<B>(rows: seq<Row<B>>, ids: set<nat>)
    requires UniqueIds(rows)
    ensures UniqueIds(Mark(rows, ids))
  {
  }

  /** How many of `total` pending rows n polls take. */
  function Taken(total: nat, limit: int, n: nat): (k: nat)
    requires limit > 0
    ensures k <= total
  {
    if n * limit < total then n * limit else total
  }

  lemma TakenStep(total: nat, limit: int, n: nat)
    requires limit > 0
    ensures Taken(total, limit, n + 1) == Taken(total, limit, n) + BatchSize(total - Taken(total, limit, n), limit)
  {
  }

  /** How many of the pending rows a poll takes. */
  function BatchSize(pending: nat, limit: int): nat {
    if 0 < limit < pending then limit else pending
  }

  /** A poll writes the first rows of the answer and leaves the others pending. */
  lemma PollTakesBatch<B>(rows: seq<Row<B>>, device: nat, limit: int)
    requires UniqueIds(rows)
    ensures UniqueIds(Poll(rows, device, limit))
    ensures var left := Pending(rows, device);
      var k := BatchSize(|left|, limit);
      Limit(left, limit) == left[..k] && Pending(Poll(rows, device, limit), device) == left[k..]
  {
    hide Pending;
    var left := Pending(rows, device);
    var k := BatchSize(|left|, limit);
    PendingAfterDelivery(rows, device, k);
    MarkKeepsIds(rows, Ids(left[..k]));
  }

  lemma DifferentRows<B>(rows: seq<Row<B>>, a: Row<B>, b: Row<B>)
    requires UniqueIds(rows) && a in rows && b in rows && a != b
    ensures a.id != b.id
  {
  }

  /** A poll for one device leaves the messages to the others pending. */
  lemma PollLeavesOthers<B>(rows: seq<Row<B>>, device: nat, limit: int, other: nat)
    requires UniqueIds(rows) && other != device
    ensures Pending(Poll(rows, device, limit), other) == Pending(rows, other)
  {
    hide Pending;
    var ids := Ids(Limit(Pending(rows, device), limit));
    PendingIds(rows, device);
    PendingIds(rows, other);
    PendingAfterMark(rows, other, ids);
    forall r, x | r in Pending(rows, other) && x in Pending(rows, device)
      ensures r.id != x.id
    {
      DifferentRows(rows, r, x);
    }
    WithoutNone(Pending(rows, other), ids);
  }

  /** n polls write the first n batches of the pending rows, each row once, in order of sending. */
  lemma {:induction false} PollsTakeBatches<B>(rows: seq<Row<B>>, device: nat, limit: int, n: nat)
    requires UniqueIds(rows) && limit > 0
    ensures var all := Pending(rows, device);
      var k := Taken(|all|, limit, n);
      && UniqueIds(Polls(rows, device, limit, n))
      && Written(rows, device, limit, n) == all[..k]
      && Pending(Polls(rows, device, limit, n), device) == all[k..]
  {
    hide Pending, Poll, Limit, UniqueIds, Taken;
    var all := Pending(rows, device);
    if n == 0 {
      assert Taken(|all|, limit, 0) == 0 by { TakenStart(|all|, limit); }
    } else {
      PollsTakeBatches(rows, device, limit, n - 1);
      var before := Polls(rows, device, limit, n - 1);
      PollTakesBatch(before, device, limit);
      TakenStep(|all|, limit, n - 1);
      var k, next := Taken(|all|, limit, n - 1), Taken(|all|, limit, n);
      assert all[k..][next - k..] == all[next..];
      assert all[..k] + all[k..][..next - k] == all[..next];
    }
  }

  lemma TakenStart(total: nat, limit: int)
    requires limit > 0
    ensures Taken(total, limit, 0) == 0
  {
  }

  function CeilDiv(n: nat, d: nat): nat
    requires d > 0
  {
    (n + d - 1) / d
  }

  /** With no new sends, n pending messages are gone after exactly ceil(n / batch) successful
      polls: not before, and from then on; and they were written once each, in order. */
  lemma DrainsInCeil<B>(rows: seq<Row<B>>, device: nat, limit: int, polls: nat)
    requires UniqueIds(rows) && limit > 0
    ensures var all := Pending(rows, device);
      && (Pending(Polls(rows, device, limit, polls), device) == [] <==> polls >= CeilDiv(|all|, limit))
      && (polls >= CeilDiv(|all|, limit) ==> Written(rows, device, limit, polls) == all)
  {
    PollsTakeBatches(rows, device, limit, polls);
    CeilDivBound(|Pending(rows, device)|, limit, polls);
  }

  lemma CeilDivBound(n: nat, d: nat, k: nat)
    requires d > 0
    ensures k * d >= n <==> k >= CeilDiv(n, d)
  {
    var c := CeilDiv(n, d);
    assert (n + d - 1) == c * d + (n + d - 1) % d;
    if k >= c {
      assert k * d >= c * d;
    } else {
      assert (k + 1) * d <= c * d;
    }
  }
}
