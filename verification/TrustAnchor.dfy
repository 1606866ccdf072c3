/**
 The TrustAnchor contract as a state machine.

 A record exists exactly when its issuer is set, so `ids` maps the issued hashes
 only.  One authorised issuer is assumed; chain reorganisations and gas are not
 part of this model.
 */
module TrustAnchor {
  import opened Wrappers

  type Hash = nat

  const UINT64_LIMIT: nat := 0x1_0000_0000_0000_0000
  const UINT32_LIMIT: nat := 0x1_0000_0000

  datatype Status = ACTIVE | REVOKED

  datatype DigitalId = DigitalId(tripHash: Hash, issuedAt: nat, expiresAt: nat, status: Status)

  datatype Snapshot = Snapshot(payloadHash: Hash, ciphertext: seq<nat>, sequence: nat, snapshotType: nat)

  datatype AnchorKind = EVIDENCE | INCIDENT | CONSENT

  /** Everything the contract emits that records an effect. */
  datatype Event =
    | IdIssued(id: Hash)
    | IdExtended(id: Hash, expiresAt: nat)
    | IdRevoked(id: Hash)
    | SnapshotAnchored(id: Hash, sequence: nat)
    | HashAnchored(kind: AnchorKind, hash: Hash)

  datatype Chain = Chain(
    ids: map<Hash, DigitalId>,
    snapshots: map<Hash, seq<Snapshot>>,
    anchors: map<(AnchorKind, Hash), nat>,
    events: seq<Event>,
    now: nat)

  const EMPTY := Chain(map[], map[], map[], [], 0)

  datatype Tx =
    | IssueId(id: Hash, tripHash: Hash, issuedAt: int, expiresAt: int)
    | ExtendId(id: Hash, expiresAt: int)
    | RevokeId(id: Hash, reasonCode: nat)
    | AppendDataSnapshot(id: Hash, snapshot: Snapshot)
    | Anchor(kind: AnchorKind, hash: Hash)

  datatype Revert =
    | ENCODING | ID_ALREADY_ISSUED | INVALID_WINDOW | ID_NOT_FOUND | ID_NOT_ACTIVE
    | EXPIRY_NOT_EXTENDED | EMPTY_SNAPSHOT | INVALID_SNAPSHOT_SEQUENCE

  predicate IsUint64(x: int) { 0 <= x < UINT64_LIMIT }

  function SnapshotsOf(c: Chain, id: Hash): seq<Snapshot> {
    if id in c.snapshots then c.snapshots[id] else []
  }

  /** A storage slot that was never written reads as zero. */
  function ExpiryOf(c: Chain, id: Hash): nat {
    if id in c.ids then c.ids[id].expiresAt else 0
  }

  predicate IsRevoked(c: Chain, id: Hash) { id in c.ids && c.ids[id].status == REVOKED }

  /** One transaction: the next chain, or the reason it reverts with. */
  function Execute(c: Chain, tx: Tx): Result<Chain, Revert> {
    match tx
    case IssueId(id, tripHash, issuedAt, expiresAt) =>
      if !IsUint64(issuedAt) || !IsUint64(expiresAt) then Err(ENCODING)
      else if id in c.ids then Err(ID_ALREADY_ISSUED)
      else if expiresAt <= issuedAt then Err(INVALID_WINDOW)
      else Ok(c.(ids := c.ids[id := DigitalId(tripHash, issuedAt, expiresAt, ACTIVE)],
                 events := c.events + [IdIssued(id)]))
    case ExtendId(id, expiresAt) =>
      if !IsUint64(expiresAt) then Err(ENCODING)
      else if id !in c.ids then Err(ID_NOT_FOUND)
      else if c.ids[id].status != ACTIVE then Err(ID_NOT_ACTIVE)
      else if expiresAt <= c.ids[id].expiresAt then Err(EXPIRY_NOT_EXTENDED)
      else Ok(c.(ids := c.ids[id := c.ids[id].(expiresAt := expiresAt)],
                 events := c.events + [IdExtended(id, expiresAt)]))
    case RevokeId(id, _) =>
      if id !in c.ids then Err(ID_NOT_FOUND)
      else if c.ids[id].status != ACTIVE then Err(ID_NOT_ACTIVE)
      else Ok(c.(ids := c.ids[id := c.ids[id].(status := REVOKED)],
                 events := c.events + [IdRevoked(id)]))
    case AppendDataSnapshot(id, snapshot) =>
      if snapshot.sequence >= UINT32_LIMIT then Err(ENCODING)
      else if id !in c.ids then Err(ID_NOT_FOUND)
      else if snapshot.ciphertext == [] then Err(EMPTY_SNAPSHOT)
      else if snapshot.sequence != |SnapshotsOf(c, id)| + 1 then Err(INVALID_SNAPSHOT_SEQUENCE)
      else Ok(c.(snapshots := c.snapshots[id := SnapshotsOf(c, id) + [snapshot]],
                 events := c.events + [SnapshotAnchored(id, snapshot.sequence)]))
    case Anchor(kind, hash) =>
      if (kind, hash) in c.anchors then Ok(c)
      else Ok(c.(anchors := c.anchors[(kind, hash) := c.now],
                 events := c.events + [HashAnchored(kind, hash)]))
  }

  datatype View = View(status: nat, found: bool, expiresAt: nat)

  /** verifyId: status 0 ACTIVE, 1 REVOKED, 2 EXPIRED, with lazy expiry. */
  function VerifyId(c: Chain, id: Hash): View {
    if id !in c.ids then View(0, false, 0)
    else
      var r := c.ids[id];
      View(if r.status == REVOKED then 1 else if c.now >= r.expiresAt then 2 else 0, true, r.expiresAt)
  }

  // ----- What every transaction keeps -----

  /** `d` can follow `c`: no record is lost and nothing already promised is undone. */
  ghost predicate Later(c: Chain, d: Chain) {
    && c.now <= d.now
    && (forall id :: id in c.ids ==>
          && id in d.ids
          && c.ids[id].expiresAt <= d.ids[id].expiresAt
          && c.ids[id].tripHash == d.ids[id].tripHash
          && c.ids[id].issuedAt == d.ids[id].issuedAt
          && (c.ids[id].status == REVOKED ==> d.ids[id].status == REVOKED))
    && (forall id :: SnapshotsOf(c, id) <= SnapshotsOf(d, id))
    && (forall a :: a in c.anchors ==> a in d.anchors && d.anchors[a] == c.anchors[a])
    && c.events <= d.events
  }

  lemma LaterTransitive(a: Chain, b: Chain, c: Chain)
    requires Later(a, b) && Later(b, c)
    ensures Later(a, c)
  {
    forall id ensures SnapshotsOf(a, id) <= SnapshotsOf(c, id) {
      assert SnapshotsOf(a, id) <= SnapshotsOf(b, id) && SnapshotsOf(b, id) <= SnapshotsOf(c, id);
    }
  }

  /** A transaction that does not revert only moves forward, and a REVOKED record never changes again. */
  lemma ExecuteMovesForward(c: Chain, tx: Tx)
    requires Execute(c, tx).Ok?
    ensures Later(c, Execute(c, tx).value)
    ensures forall id :: IsRevoked(c, id) ==> Execute(c, tx).value.ids[id] == c.ids[id]
  {
  }

  /** Whether the recorded state already contains the effect an event stands for. */
  predicate Happened(c: Chain, e: Event) {
    match e
    case IdIssued(id) => id in c.ids
    case IdExtended(id, x) => id in c.ids && x <= c.ids[id].expiresAt
    case IdRevoked(id) => IsRevoked(c, id)
    case SnapshotAnchored(id, n) => 1 <= n <= |SnapshotsOf(c, id)|
    case HashAnchored(kind, hash) => (kind, hash) in c.anchors
  }

  /** The log and the storage agree, and no event was ever emitted twice. */
  ghost predicate ChainInv(c: Chain) {
    && (forall e :: e in c.events ==> Happened(c, e))
    && (forall e :: Happened(c, e) && !e.IdExtended? ==> e in c.events)
    && (forall i, j :: 0 <= i < j < |c.events| ==> c.events[i] != c.events[j])
    && (forall id, i :: 0 <= i < |SnapshotsOf(c, id)| ==> SnapshotsOf(c, id)[i].sequence == i + 1)
    && (forall id :: SnapshotsOf(c, id) != [] ==> id in c.ids)
  }

  lemma ExecuteKeepsChainInv(c: Chain, tx: Tx)
    requires ChainInv(c) && Execute(c, tx).Ok?
    ensures ChainInv(Execute(c, tx).value)
  {
    var d := Execute(c, tx).value;
    if d != c {
      var e := d.events[|c.events|];
      assert d.events == c.events + [e];
      assert !Happened(c, e);
      forall f | f in d.events ensures Happened(d, f) {}
      forall f | Happened(d, f) && !f.IdExtended? ensures f in d.events {
        assert f == e || Happened(c, f);
      }
      forall id, i | 0 <= i < |SnapshotsOf(d, id)|
        ensures SnapshotsOf(d, id)[i].sequence == i + 1
      {
        assert i < |SnapshotsOf(c, id)| ==> SnapshotsOf(d, id)[i] == SnapshotsOf(c, id)[i];
      }
    }
  }

  /** The effect a caller wants from a transaction. */
  predicate Effect(c: Chain, tx: Tx) {
    match tx
    case IssueId(id, _, _, _) => id in c.ids
    case ExtendId(id, x) => x <= ExpiryOf(c, id) && (0 < x ==> id in c.ids)
    case RevokeId(id, _) => IsRevoked(c, id)
    case AppendDataSnapshot(id, s) =>
      1 <= s.sequence <= |SnapshotsOf(c, id)| && SnapshotsOf(c, id)[s.sequence - 1] == s
    case Anchor(kind, hash) => (kind, hash) in c.anchors
  }

  lemma ExecuteHasEffect(c: Chain, tx: Tx)
    requires Execute(c, tx).Ok?
    ensures Effect(Execute(c, tx).value, tx)
  {
  }

  // ----- What is accepted, and what it stores -----

  /** By the log alone: an id is issued once and within a window, extended while issued and not revoked and only beyond
   its expiry, revoked once; snapshots are taken in sequence and never empty; a hash can always be anchored. */
  lemma AcceptedIffLogAllows(c: Chain, tx: Tx)
    requires ChainInv(c)
    ensures Execute(c, tx).Ok? <==>
      match tx
      case IssueId(id, _, issuedAt, expiresAt) =>
        0 <= issuedAt < expiresAt < UINT64_LIMIT && IdIssued(id) !in c.events
      case ExtendId(id, expiresAt) =>
        && 0 <= expiresAt < UINT64_LIMIT && IdIssued(id) in c.events && IdRevoked(id) !in c.events
        && id in c.ids && c.ids[id].expiresAt < expiresAt
      case RevokeId(id, _) => IdIssued(id) in c.events && IdRevoked(id) !in c.events
      case AppendDataSnapshot(id, s) =>
        && IdIssued(id) in c.events && s.ciphertext != [] && 1 <= s.sequence < UINT32_LIMIT
        && (s.sequence == 1 || SnapshotAnchored(id, s.sequence - 1) in c.events)
        && SnapshotAnchored(id, s.sequence) !in c.events
      case Anchor(_, _) => true
  {
    match tx
    case IssueId(id, _, _, _) => assert Happened(c, IdIssued(id)) <==> IdIssued(id) in c.events;
    case ExtendId(id, _) =>
      assert Happened(c, IdIssued(id)) <==> IdIssued(id) in c.events;
      assert Happened(c, IdRevoked(id)) <==> IdRevoked(id) in c.events;
    case RevokeId(id, _) =>
      assert Happened(c, IdIssued(id)) <==> IdIssued(id) in c.events;
      assert Happened(c, IdRevoked(id)) <==> IdRevoked(id) in c.events;
    case AppendDataSnapshot(id, s) =>
      assert Happened(c, IdIssued(id)) <==> IdIssued(id) in c.events;
      assert Happened(c, SnapshotAnchored(id, s.sequence)) <==> SnapshotAnchored(id, s.sequence) in c.events;
      if s.sequence >= 1 {
        var before := SnapshotAnchored(id, s.sequence - 1);
        assert Happened(c, before) <==> before in c.events;
      }
    case Anchor(_, _) =>
  }

  /** An issued id keeps its trip and its time of issue for ever, and never expires earlier than it was issued for. */
  lemma IssuedRecordIsForever(c: Chain, tx: Tx, d: Chain)
    requires tx.IssueId? && Execute(c, tx).Ok? && Later(Execute(c, tx).value, d)
    ensures tx.id in d.ids && d.ids[tx.id].tripHash == tx.tripHash && d.ids[tx.id].issuedAt == tx.issuedAt
    ensures tx.issuedAt < tx.expiresAt <= d.ids[tx.id].expiresAt
    ensures Execute(c, tx).value.ids[tx.id] == DigitalId(tx.tripHash, tx.issuedAt, tx.expiresAt, ACTIVE)
  {
  }

  /** What else an accepted transaction changes: nothing but the one record, snapshot list or anchor, and one event. */
  lemma ExecuteTouchesOne(c: Chain, tx: Tx)
    requires Execute(c, tx).Ok?
    ensures var d := Execute(c, tx).value;
      && d.now == c.now && |d.events| <= |c.events| + 1
      && (forall id | id in c.ids && !(!tx.Anchor? && tx.id == id) :: id in d.ids && d.ids[id] == c.ids[id])
      && (forall id | id in d.ids && !(!tx.Anchor? && tx.id == id) :: id in c.ids)
      && (forall id :: SnapshotsOf(d, id) != SnapshotsOf(c, id) ==>
            tx.AppendDataSnapshot? && tx.id == id && SnapshotsOf(d, id) == SnapshotsOf(c, id) + [tx.snapshot])
      && (tx.ExtendId? ==> tx.id in c.ids && tx.expiresAt > 0 && d.ids[tx.id].expiresAt == tx.expiresAt
                           && d.ids[tx.id].status == c.ids[tx.id].status == ACTIVE)
      && (tx.RevokeId? ==> tx.id in c.ids && d.ids[tx.id].expiresAt == c.ids[tx.id].expiresAt)
      && (tx.AppendDataSnapshot? ==> d.ids == c.ids)
      && (tx.Anchor? && (tx.kind, tx.hash) !in c.anchors ==> d.anchors == c.anchors[(tx.kind, tx.hash) := c.now])
  {
  }

  /** Once there, an effect is there at every later time. */
  lemma EffectIsForever(c: Chain, d: Chain, tx: Tx)
    requires Later(c, d) && Effect(c, tx)
    ensures Effect(d, tx)
  {
    if tx.AppendDataSnapshot? {
      assert SnapshotsOf(c, tx.id) <= SnapshotsOf(d, tx.id);
    }
  }
}
