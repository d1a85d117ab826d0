/** Exporting and importing session objects. */
module SnapshotMethods {
  import opened Crypto
  import opened RatchetSpec
  import opened SessionStates
  import opened Snapshot

  /** Reads the session and leaves it alone. */
  method ExportSession(state: SessionState) returns (snap: SessionSnapshot)
    ensures snap == Snapshot.ExportSession(state.Value())
  {
    var texts: map<SkipId, Text<Key>> := map[];
    var left := state.skipped.Keys;
    while left != {}
      invariant left <= state.skipped.Keys && texts.Keys == state.skipped.Keys - left
      invariant forall id <- texts :: texts[id] == Base64(state.skipped[id])
      decreases left
    {
      var id :| id in left;
      texts := texts[id := Base64(state.skipped[id])];
      left := left - {id};
    }
    assert texts == map id <- state.skipped :: Base64(state.skipped[id]);
    assert state.skipped == map[] <==> texts == map[];
    snap := SessionSnapshot(
      Base64(state.rootKey), ExportChain(state.sendChain), ExportChain(state.recvChain), Base64(state.ratchetPrivate),
      Base64(state.ratchetPublic), Base64(state.remoteRatchet),
      Base64(state.peer.identity), Base64(state.peer.verifyKey),
      state.pn, state.peer.role, state.peer.pendingPrekey, if texts == map[] then None else Some(texts));
  }

  /** Builds a new object; a text that does not decode ends the import. */
  method ImportSession(snap: SessionSnapshot) returns (r: Option<SessionState>)
    ensures r.Some? <==> Snapshot.ImportSession(snap).Some?
    ensures r.Some? ==> fresh(r.value) && Some(r.value.Value()) == Snapshot.ImportSession(snap)
  {
    if || !snap.rootKey.Base64? || !snap.sendChain.key.Base64? || !snap.recvChain.key.Base64?
       || !snap.ratchetPrivate.Base64? || !snap.ratchetPublic.Base64? || !snap.remoteRatchet.Base64?
       || !snap.remoteIdentity.Base64? || !snap.remoteSignature.Base64? {
      return None;
    }
    var texts := Entries(snap.skipped);
    var skipped: map<SkipId, Key> := map[];
    var left := texts.Keys;
    while left != {}
      invariant left <= texts.Keys && skipped.Keys == texts.Keys - left
      invariant forall id <- skipped :: texts[id] == Base64(skipped[id])
      decreases left
    {
      var id :| id in left;
      if texts[id].Undecodable? {
        return None;
      }
      skipped := skipped[id := texts[id].value];
      left := left - {id};
    }
    assert AllDecodable(texts);
    assert skipped == map id <- texts :: texts[id].value;
    var state := new SessionState(Session(
      snap.rootKey.value, Chain(snap.sendChain.key.value, snap.sendChain.index),
      Chain(snap.recvChain.key.value, snap.recvChain.index), snap.ratchetPrivate.value, snap.ratchetPublic.value,
      snap.remoteRatchet.value, snap.pn, skipped,
      Peer(snap.remoteIdentity.value, snap.remoteSignature.value, snap.role, snap.pendingPrekey)));
    return Some(state);
  }
}
