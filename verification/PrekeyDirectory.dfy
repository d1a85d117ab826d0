/** The server's one-time prekeys under concurrent transactions: rows, row locks, commit and abort. */
module PrekeyDirectory {
  import opened Crypto

  datatype OneTimeKey = OneTimeKey(device: nat, publicKey: string, createdAt: int, consumed: bool)

  /** How far a bundle's transaction is: it has not looked for a key yet, it has selected and locked
      one or found none, or it has also set the key's consumption mark. */
  datatype Phase = Reading | Selected(key: Option<nat>) | Marked(id: nat)

  /** A registration or rotation that inserts keys, or a bundle request that takes one.  Inserts and
      marks stay with the transaction until it commits. */
  datatype Tx = Adding(inserts: map<nat, OneTimeKey>) | Taking(device: nat, phase: Phase)

  datatype Bundle = Bundle(device: nat, key: Option<nat>)

  datatype Directory = Directory(rows: map<nat, OneTimeKey>, txs: map<nat, Tx>, bundles: seq<Bundle>)

  datatype Event =
    | BeginAdd(t: nat)
    | Insert(t: nat, id: nat, key: OneTimeKey)
    | BeginTake(t: nat, device: nat)
    | Select(t: nat)
    | Mark(t: nat)
    | Commit(t: nat)
    | Abort(t: nat)

  // Locks

  predicate Holds(tx: Tx, id: nat) {
    tx.Taking? && (tx.phase == Selected(Some(id)) || tx.phase == Marked(id))
  }

  predicate LockedByOther(d: Directory, t: nat, id: nat) {
    exists u <- d.txs :: u != t && Holds(d.txs[u], id)
  }

  predicate InsertedByOther(d: Directory, t: nat, id: nat) {
    exists u <- d.txs :: u != t && d.txs[u].Adding? && id in d.txs[u].inserts
  }

  // Selecting: the oldest unconsumed row of the device that nobody else has locked

  predicate Unconsumed(d: Directory, device: nat, id: nat) {
    id in d.rows && d.rows[id].device == device && !d.rows[id].consumed
  }

  function Candidates(d: Directory, t: nat, device: nat): set<nat> {
    set id <- d.rows | Unconsumed(d, device, id) && !LockedByOther(d, t, id)
  }

  predicate Before(d: Directory, a: nat, b: nat)
    requires a in d.rows && b in d.rows
  {
    d.rows[a].createdAt < d.rows[b].createdAt || (d.rows[a].createdAt == d.rows[b].createdAt && a <= b)
  }

  predicate IsFirst(d: Directory, ids: set<nat>, id: nat) {
    id in ids && ids <= d.rows.Keys && forall other <- ids :: Before(d, id, other)
  }

  lemma {:induction false} FirstExists(d: Directory, ids: set<nat>)
    requires ids != {} && ids <= d.rows.Keys
    ensures exists id :: IsFirst(d, ids, id)
    decreases ids
  {
    var x :| x in ids;
    if ids == {x} {
      assert IsFirst(d, ids, x);
    } else {
      FirstExists(d, ids - {x});
      var y :| IsFirst(d, ids - {x}, y);
      var first := if Before(d, x, y) then x else y;
      forall other <- ids
        ensures Before(d, first, other)
      {
        assert other == x || other in ids - {x};
      }
      assert IsFirst(d, ids, first);
    }
  }

  ghost function NextKey(d: Directory, t: nat, device: nat): (key: Option<nat>)
    ensures key.None? <==> Candidates(d, t, device) == {}
    ensures key.Some? ==> IsFirst(d, Candidates(d, t, device), key.value)
  {
    var ids := Candidates(d, t, device);
    if ids == {} then None
    else
      FirstExists(d, ids);
      var id :| IsFirst(d, ids, id);
      Some(id)
  }

  lemma NoKeyMeansAllLocked(d: Directory, t: nat, device: nat)
    ensures NextKey(d, t, device).None? <==> forall id :: Unconsumed(d, device, id) ==> LockedByOther(d, t, id)
  {
    var ids := Candidates(d, t, device);
    if NextKey(d, t, device).None? {
      forall id | Unconsumed(d, device, id)
        ensures LockedByOther(d, t, id)
      {
        assert id !in ids;
      }
    } else {
      assert NextKey(d, t, device).value in ids;
    }
  }

  // Steps

  /** A transaction ID is used once; an insert waits while another transaction has inserted the same
      ID; a bundle's transaction commits only when it is done. */
  predicate Enabled(d: Directory, e: Event) {
    match e
    case BeginAdd(t) => t !in d.txs
    case Insert(t, id, key) => t in d.txs && d.txs[t].Adding? && !InsertedByOther(d, t, id) && !key.consumed
    case BeginTake(t, _) => t !in d.txs
    case Select(t) => t in d.txs && d.txs[t].Taking? && d.txs[t].phase.Reading?
    case Mark(t) => t in d.txs && d.txs[t].Taking? && d.txs[t].phase.Selected? && d.txs[t].phase.key.Some?
    case Commit(t) =>
      t in d.txs && (d.txs[t].Adding? || d.txs[t].phase.Marked? || d.txs[t].phase == Selected(None))
    case Abort(t) => t in d.txs
  }

  function Consume(rows: map<nat, OneTimeKey>, id: nat): map<nat, OneTimeKey> {
    if id in rows then rows[id := rows[id].(consumed := true)] else rows
  }

  ghost function Step(d: Directory, e: Event): Directory
    requires Enabled(d, e)
  {
    match e
    case BeginAdd(t) => d.(txs := d.txs[t := Adding(map[])])
    case Insert(t, id, key) =>
      if id in d.rows || id in d.txs[t].inserts then d
      else d.(txs := d.txs[t := Adding(d.txs[t].inserts[id := key])])
    case BeginTake(t, device) => d.(txs := d.txs[t := Taking(device, Reading)])
    case Select(t) =>
      var device := d.txs[t].device;
      d.(txs := d.txs[t := Taking(device, Selected(NextKey(d, t, device)))])
    case Mark(t) => d.(txs := d.txs[t := Taking(d.txs[t].device, Marked(d.txs[t].phase.key.value))])
    case Commit(t) =>
      (match d.txs[t]
       case Adding(inserts) => Directory(d.rows + inserts, d.txs - {t}, d.bundles)
       case Taking(device, phase) =>
         if phase.Marked? then
           Directory(Consume(d.rows, phase.id), d.txs - {t}, d.bundles + [Bundle(device, Some(phase.id))])
         else
           Directory(d.rows, d.txs - {t}, d.bundles + [Bundle(device, None)]))
    case Abort(t) => d.(txs := d.txs - {t})
  }

  /** A run attempts the events one after the other; one that has to wait or makes no sense is skipped. */
  ghost function Run(d: Directory, events: seq<Event>): Directory
    decreases |events|
  {
    if events == [] then d
    else Run(if Enabled(d, events[0]) then Step(d, events[0]) else d, events[1..])
  }

  // The invariant

  ghost predicate TxOk(d: Directory, t: nat)
    requires t in d.txs
  {
    match d.txs[t]
    case Adding(inserts) =>
      forall id <- inserts :: id !in d.rows && !inserts[id].consumed && !InsertedByOther(d, t, id)
    case Taking(device, phase) =>
      forall id :: Holds(d.txs[t], id) ==> Unconsumed(d, device, id) && !LockedByOther(d, t, id)
  }

  ghost predicate GivenTo(d: Directory, id: nat, i: nat)
    requires i < |d.bundles|
  {
    d.bundles[i].key == Some(id)
  }

  ghost predicate BundlesOk(d: Directory) {
    && (forall i, j, id :: 0 <= i < j < |d.bundles| && GivenTo(d, id, i) ==> !GivenTo(d, id, j))
    && (forall i, id :: 0 <= i < |d.bundles| && GivenTo(d, id, i) ==>
          id in d.rows && d.rows[id].consumed && d.rows[id].device == d.bundles[i].device)
    && (forall id <- d.rows :: d.rows[id].consumed ==> exists i :: 0 <= i < |d.bundles| && GivenTo(d, id, i))
  }

  ghost predicate DirectoryOk(d: Directory) {
    BundlesOk(d) && forall t <- d.txs :: TxOk(d, t)
  }

  lemma SelectKeepsTxs(d: Directory, t: nat)
    requires DirectoryOk(d) && Enabled(d, Select(t))
    ensures forall u <- Step(d, Select(t)).txs :: TxOk(Step(d, Select(t)), u)
  {
  }

  lemma InsertKeepsTxs(d: Directory, t: nat, id: nat, key: OneTimeKey)
    requires DirectoryOk(d) && Enabled(d, Insert(t, id, key))
    ensures forall u <- Step(d, Insert(t, id, key)).txs :: TxOk(Step(d, Insert(t, id, key)), u)
  {
  }

  lemma EndKeepsTxs(d: Directory, e: Event)
    requires DirectoryOk(d) && Enabled(d, e) && (e.Commit? || e.Abort?)
    ensures forall u <- Step(d, e).txs :: TxOk(Step(d, e), u)
  {
  }

  lemma StepKeepsTxs(d: Directory, e: Event)
    requires DirectoryOk(d) && Enabled(d, e)
    ensures forall t <- Step(d, e).txs :: TxOk(Step(d, e), t)
  {
    if e.Select? {
      SelectKeepsTxs(d, e.t);
    } else if e.Commit? || e.Abort? {
      EndKeepsTxs(d, e);
    } else if e.Insert? {
      InsertKeepsTxs(d, e.t, e.id, e.key);
    } else {
      var d' := Step(d, e);
      forall u <- d'.txs
        ensures TxOk(d', u)
      {
        assert u in d.txs ==> TxOk(d, u);
        assert forall id :: LockedByOther(d', u, id) ==> LockedByOther(d, u, id);
        assert forall id :: InsertedByOther(d', u, id) ==> InsertedByOther(d, u, id);
        assert u in d.txs ==> forall id :: Holds(d'.txs[u], id) ==> Holds(d.txs[u], id);
      }
    }
  }

  lemma CommitKeepsBundles(d: Directory, t: nat)
    requires DirectoryOk(d) && Enabled(d, Commit(t))
    ensures BundlesOk(Step(d, Commit(t)))
  {
    var d' := Step(d, Commit(t));
    assert TxOk(d, t);
    forall id <- d'.rows | d'.rows[id].consumed
      ensures exists i :: 0 <= i < |d'.bundles| && GivenTo(d', id, i)
    {
      if id in d.rows && d.rows[id].consumed {
        var i :| 0 <= i < |d.bundles| && GivenTo(d, id, i);
        assert GivenTo(d', id, i);
      } else {
        assert d.txs[t] == Taking(d.txs[t].device, Marked(id));
        assert GivenTo(d', id, |d.bundles|);
      }
    }
    forall i, id | 0 <= i < |d'.bundles| && GivenTo(d', id, i)
      ensures id in d'.rows && d'.rows[id].consumed && d'.rows[id].device == d'.bundles[i].device
      ensures forall j :: 0 <= j < i ==> !GivenTo(d', id, j)
    {
      if i < |d.bundles| {
        assert GivenTo(d, id, i);
      } else {
        assert Holds(d.txs[t], id);
      }
      forall j | 0 <= j < i
        ensures !GivenTo(d', id, j)
      {
        assert GivenTo(d', id, j) ==> GivenTo(d, id, j);
      }
    }
  }

  /** Every row outlives the step with its device, public key and age, and stays consumed if it was. */
  ghost predicate RowsGrow(d: Directory, d': Directory) {
    && d.bundles <= d'.bundles
    && forall id <- d.rows ::
         id in d'.rows && (d'.rows[id] == d.rows[id] || d'.rows[id] == d.rows[id].(consumed := true))
  }

  lemma StepKeepsOk(d: Directory, e: Event)
    requires DirectoryOk(d) && Enabled(d, e)
    ensures DirectoryOk(Step(d, e)) && RowsGrow(d, Step(d, e))
  {
    StepKeepsTxs(d, e);
    if e.Commit? {
      CommitKeepsBundles(d, e.t);
      assert TxOk(d, e.t);
    } else {
      assert forall i, id :: 0 <= i < |d.bundles| ==> GivenTo(Step(d, e), id, i) == GivenTo(d, id, i);
    }
  }

  lemma {:induction false} RunKeepsOk(d: Directory, events: seq<Event>)
    requires DirectoryOk(d)
    ensures DirectoryOk(Run(d, events)) && RowsGrow(d, Run(d, events))
    decreases |events|
  {
    if events != [] {
      hide DirectoryOk, Step, Enabled;
      if Enabled(d, events[0]) {
        StepKeepsOk(d, events[0]);
        RunKeepsOk(Step(d, events[0]), events[1..]);
      } else {
        RunKeepsOk(d, events[1..]);
      }
    }
  }

  function Empty(): Directory {
    Directory(map[], map[], [])
  }

  /** Over any interleaving of registrations, rotations and bundle requests, committed or aborted:
      no one-time prekey is in two committed bundles, and the keys handed out are exactly the
      consumed rows, each in a bundle of its own device. */
  lemma NoKeyTwice(events: seq<Event>)
    ensures var d := Run(Empty(), events);
      && (forall i, j, id :: 0 <= i < j < |d.bundles| && GivenTo(d, id, i) ==> !GivenTo(d, id, j))
      && (forall id: nat ::
            (id in d.rows && d.rows[id].consumed) <==> exists i :: 0 <= i < |d.bundles| && GivenTo(d, id, i))
      && (forall i, id :: 0 <= i < |d.bundles| && GivenTo(d, id, i) ==>
            id in d.rows && d.rows[id].device == d.bundles[i].device)
  {
    RunKeepsOk(Empty(), events);
  }

  lemma {:induction false} RunAppend(d: Directory, events: seq<Event>, more: seq<Event>)
    ensures Run(d, events + more) == Run(Run(d, events), more)
    decreases |events|
  {
    if events == [] {
      assert events + more == more;
    } else {
      assert (events + more)[1..] == events[1..] + more;
      RunAppend(if Enabled(d, events[0]) then Step(d, events[0]) else d, events[1..], more);
    }
  }

  /** Uploading an ID again never revives or alters it: once consumed, it stays as it was and is in
      no later bundle. */
  lemma ConsumedForGood(events: seq<Event>, more: seq<Event>, id: nat)
    requires var d := Run(Empty(), events); id in d.rows && d.rows[id].consumed
    ensures var d, d' := Run(Empty(), events), Run(Empty(), events + more);
      && id in d'.rows && d'.rows[id] == d.rows[id]
      && forall i :: |d.bundles| <= i < |d'.bundles| ==> !GivenTo(d', id, i)
  {
    hide Step, Enabled;
    RunAppend(Empty(), events, more);
    RunKeepsOk(Empty(), events);
    var d, d' := Run(Empty(), events), Run(Empty(), events + more);
    RunKeepsOk(d, more);
    var i :| 0 <= i < |d.bundles| && GivenTo(d, id, i);
    assert GivenTo(d', id, i);
  }

  lemma RunOne(d: Directory, e: Event)
    ensures Run(d, [e]) == if Enabled(d, e) then Step(d, e) else d
  {
  }

  lemma RunOneMore(d: Directory, events: seq<Event>, e: Event)
    ensures Run(d, events + [e]) == if Enabled(Run(d, events), e) then Step(Run(d, events), e) else Run(d, events)
  {
    RunAppend(d, events, [e]);
  }

  // Which moment decided a bundle's key

  ghost function At(events: seq<Event>, m: nat): Directory
    requires m <= |events|
  {
    Run(Empty(), events[..m])
  }

  predicate Carries(d: Directory, t: nat, device: nat, key: Option<nat>) {
    && t in d.txs && d.txs[t].Taking? && d.txs[t].device == device
    && (d.txs[t].phase == Selected(key) || (key.Some? && d.txs[t].phase == Marked(key.value)))
  }

  /** Transaction t, for this device, selected at event k what was the next key then, and has been
      open with this choice until event c. */
  ghost predicate Chose(events: seq<Event>, t: nat, k: nat, c: nat, device: nat, key: Option<nat>) {
    && k < c <= |events|
    && events[k] == Select(t) && Enabled(At(events, k), Select(t))
    && At(events, k).txs[t].device == device && NextKey(At(events, k), t, device) == key
    && forall m :: k < m <= c ==> Carries(At(events, m), t, device, key)
  }

  lemma ChoseEarlier(events: seq<Event>, n: nat, t: nat, k: nat, c: nat, device: nat, key: Option<nat>)
    requires n <= |events| && Chose(events[..n], t, k, c, device, key)
    ensures Chose(events, t, k, c, device, key)
  {
    forall m: nat | m <= n
      ensures At(events[..n], m) == At(events, m)
    {
      assert events[..n][..m] == events[..m];
    }
  }

  lemma AtNext(events: seq<Event>, m: nat)
    requires m < |events|
    ensures At(events, m + 1) ==
      if Enabled(At(events, m), events[m]) then Step(At(events, m), events[m]) else At(events, m)
  {
    hide Step, Enabled;
    assert events[..m + 1] == events[..m] + [events[m]];
    RunOneMore(Empty(), events[..m], events[m]);
  }

  lemma {:induction false} OpenTxChose(events: seq<Event>, t: nat, device: nat, key: Option<nat>) returns (k: nat)
    requires Carries(At(events, |events|), t, device, key)
    ensures Chose(events, t, k, |events|, device, key)
    decreases |events|
  {
    hide NextKey;
    var last := |events| - 1;
    assert events != [] by { assert At(events, 0).txs == map[]; }
    AtNext(events, last);
    var before := events[..last];
    assert At(before, |before|) == At(events, last) by { assert before[..|before|] == before; }
    if events[last] == Select(t) && Enabled(At(events, last), Select(t)) {
      k := last;
    } else {
      assert Carries(At(events, last), t, device, key);
      k := OpenTxChose(before, t, device, key);
      ChoseEarlier(events, last, t, k, last, device, key);
    }
  }

  /** The choice of transaction t at event k became bundle number i when t committed at event c. */
  ghost predicate Decided(events: seq<Event>, i: nat, t: nat, k: nat, c: nat)
    requires i < |Run(Empty(), events).bundles|
  {
    var bundle := Run(Empty(), events).bundles[i];
    && Chose(events, t, k, c, bundle.device, bundle.key)
    && c < |events| && events[c] == Commit(t) && |At(events, c).bundles| == i
  }

  lemma {:induction false} BundleIsDecided(events: seq<Event>, i: nat) returns (t: nat, k: nat, c: nat)
    requires i < |Run(Empty(), events).bundles|
    ensures Decided(events, i, t, k, c)
    decreases |events|
  {
    hide NextKey;
    assert events != [];
    var last := |events| - 1;
    var before, d := events[..last], At(events, last);
    assert events[..|events|] == events;
    AtNext(events, last);
    assert Run(Empty(), before) == d;
    if i < |d.bundles| {
      t, k, c := BundleIsDecided(before, i);
      ChoseEarlier(events, last, t, k, c, d.bundles[i].device, d.bundles[i].key);
      assert before[..c] == events[..c];
    } else {
      t, c := events[last].t, last;
      var bundle := Run(Empty(), events).bundles[i];
      assert Carries(d, t, bundle.device, bundle.key);
      assert before[..|before|] == before;
      k := OpenTxChose(before, t, bundle.device, bundle.key);
      ChoseEarlier(events, last, t, k, last, bundle.device, bundle.key);
    }
  }

  /** In every run, each committed bundle goes back to a moment at which its transaction chose: it
      goes without a one-time prekey exactly when at that moment every unconsumed row of the device
      was locked by another open transaction, and otherwise it has the oldest row that was not. */
  lemma BundleKeyExplained(events: seq<Event>, i: nat)
    requires i < |Run(Empty(), events).bundles|
    ensures var bundle := Run(Empty(), events).bundles[i];
      exists t, k, c :: Decided(events, i, t, k, c) && ExplainsKey(At(events, k), t, bundle)
  {
    var t, k, c := BundleIsDecided(events, i);
    var d, bundle := At(events, k), Run(Empty(), events).bundles[i];
    NoKeyMeansAllLocked(d, t, bundle.device);
    if bundle.key.Some? {
      FirstOfFree(d, t, bundle.device, bundle.key.value);
    }
    assert ExplainsKey(d, t, bundle);
  }

  ghost predicate ExplainsKey(d: Directory, t: nat, bundle: Bundle) {
    match bundle.key
    case None => forall id :: Unconsumed(d, bundle.device, id) ==> LockedByOther(d, t, id)
    case Some(key) =>
      && Unconsumed(d, bundle.device, key) && !LockedByOther(d, t, key)
      && forall id :: Unconsumed(d, bundle.device, id) && !LockedByOther(d, t, id) ==>
           || d.rows[key].createdAt < d.rows[id].createdAt
           || (d.rows[key].createdAt == d.rows[id].createdAt && key <= id)
  }

  lemma FirstOfFree(d: Directory, t: nat, device: nat, id: nat)
    requires IsFirst(d, Candidates(d, t, device), id)
    ensures Unconsumed(d, device, id) && !LockedByOther(d, t, id)
    ensures forall other :: Unconsumed(d, device, other) && !LockedByOther(d, t, other) ==> Before(d, id, other)
  {
  }

  // Registered keys stay

  predicate Pending(d: Directory, t: nat, id: nat, key: OneTimeKey) {
    t in d.txs && d.txs[t].Adding? && id in d.txs[t].inserts && d.txs[t].inserts[id] == key
  }

  lemma PendingStays(d: Directory, e: Event, t: nat, id: nat, key: OneTimeKey)
    requires Pending(d, t, id, key) && Enabled(d, e) && e != Commit(t) && e != Abort(t)
    ensures Pending(Step(d, e), t, id, key)
  {
  }

  lemma {:induction false} PendingUntil(events: seq<Event>, k: nat, c: nat, t: nat, id: nat, key: OneTimeKey)
    requires k <= c <= |events| && Pending(At(events, k), t, id, key)
    requires forall j :: k <= j < c ==> events[j] != Commit(t) && events[j] != Abort(t)
    ensures Pending(At(events, c), t, id, key)
    decreases c - k
  {
    if k < c {
      AtNext(events, k);
      if Enabled(At(events, k), events[k]) {
        PendingStays(At(events, k), events[k], t, id, key);
      }
      PendingUntil(events, k + 1, c, t, id, key);
    }
  }

  lemma RowStays(events: seq<Event>, c: nat, m: nat, id: nat)
    requires c <= m <= |events| && id in At(events, c).rows
    ensures var row := At(events, c).rows[id];
      id in At(events, m).rows && At(events, m).rows[id] in {row, row.(consumed := true)}
  {
    hide Step, Enabled, DirectoryOk;
    assert events[..m] == events[..c] + events[c..m];
    RunAppend(Empty(), events[..c], events[c..m]);
    assert DirectoryOk(Empty()) by { EmptyOk(); }
    RunKeepsOk(Empty(), events[..c]);
    RunKeepsOk(At(events, c), events[c..m]);
  }

  lemma EmptyOk()
    ensures DirectoryOk(Empty())
  {
  }

  /** The ID was neither a row nor inserted by the transaction itself. */
  predicate IsNew(d: Directory, t: nat, id: nat) {
    id !in d.rows && (t in d.txs && d.txs[t].Adding? ==> id !in d.txs[t].inserts)
  }

  /** In every run, an ID inserted by a transaction that then commits is a row from the commit on;
      if it was new, the row is the key inserted for it, but for the consumption mark. */
  lemma RegisteredForGood(events: seq<Event>, k: nat, c: nat, m: nat, t: nat, id: nat, key: OneTimeKey)
    requires k < c < m <= |events|
    requires events[k] == Insert(t, id, key) && Enabled(At(events, k), events[k])
    requires events[c] == Commit(t) && Enabled(At(events, c), events[c])
    requires forall j :: k < j < c ==> events[j] != Commit(t) && events[j] != Abort(t)
    ensures id in At(events, m).rows
    ensures IsNew(At(events, k), t, id) ==>
      && id in At(events, c + 1).rows && At(events, c + 1).rows[id] == key
      && At(events, m).rows[id] in {key, key.(consumed := true)}
  {
    AtNext(events, k);
    AtNext(events, c);
    if id in At(events, k).rows {
      RowStays(events, k, m, id);
    } else {
      var held := At(events, k + 1).txs[t].inserts[id];
      PendingUntil(events, k + 1, c, t, id, held);
      RowStays(events, c + 1, m, id);
    }
  }
}
