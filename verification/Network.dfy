/**
 Transactions between broadcast and receipt.

 A broadcast transaction can be mined at any later time, in any order, or never;
 the sender may or may not learn what became of it.
 */
module Network {
  import opened Wrappers
  import opened TrustAnchor

  datatype Fate = IN_FLIGHT | SUCCEEDED | REVERTED(reason: Revert)

  /** `owner` is the job row the transaction was built from. */
  datatype Sent = Sent(tx: Tx, owner: nat, fate: Fate)

  datatype Net = Net(chain: Chain, sent: seq<Sent>)

  function Broadcast(n: Net, tx: Tx, owner: nat): Net {
    n.(sent := n.sent + [Sent(tx, owner, IN_FLIGHT)])
  }

  function Mine(n: Net, t: nat): Net {
    if t >= |n.sent| || n.sent[t].fate != IN_FLIGHT then n
    else
      match Execute(n.chain, n.sent[t].tx)
      case Ok(chain) => Net(chain, n.sent[t := n.sent[t].(fate := SUCCEEDED)])
      case Err(reason) => n.(sent := n.sent[t := n.sent[t].(fate := REVERTED(reason))])
  }

  function Tick(n: Net, seconds: nat): Net {
    n.(chain := n.chain.(now := n.chain.now + seconds))
  }

  ghost predicate FateInv(c: Chain, s: Sent) {
    && (s.fate == SUCCEEDED ==> Effect(c, s.tx))
    && (s.fate == REVERTED(ID_ALREADY_ISSUED) ==> s.tx.IssueId? && s.tx.id in c.ids)
  }

  ghost predicate NetInv(n: Net) {
    && ChainInv(n.chain)
    && (forall t :: 0 <= t < |n.sent| ==> FateInv(n.chain, n.sent[t]))
  }

  ghost predicate NetLater(m: Net, n: Net) {
    && Later(m.chain, n.chain)
    && |m.sent| <= |n.sent|
    && (forall t :: 0 <= t < |m.sent| ==>
          && n.sent[t].tx == m.sent[t].tx
          && n.sent[t].owner == m.sent[t].owner
          && (m.sent[t].fate != IN_FLIGHT ==> n.sent[t].fate == m.sent[t].fate))
  }

  lemma EffectsPersist(c: Chain, d: Chain)
    requires Later(c, d)
    ensures forall tx :: Effect(c, tx) ==> Effect(d, tx)
  {
    forall tx | Effect(c, tx) ensures Effect(d, tx) { EffectIsForever(c, d, tx); }
  }

  lemma MineKeepsNetInv(n: Net, t: nat)
    requires NetInv(n)
    ensures NetInv(Mine(n, t)) && NetLater(n, Mine(n, t))
  {
    if t < |n.sent| && n.sent[t].fate == IN_FLIGHT {
      var tx := n.sent[t].tx;
      match Execute(n.chain, tx)
      case Ok(chain) =>
        ExecuteMovesForward(n.chain, tx);
        ExecuteKeepsChainInv(n.chain, tx);
        ExecuteHasEffect(n.chain, tx);
        EffectsPersist(n.chain, chain);
      case Err(_) =>
    }
  }

  lemma TickKeepsNetInv(n: Net, seconds: nat)
    requires NetInv(n)
    ensures NetInv(Tick(n, seconds)) && NetLater(n, Tick(n, seconds))
  {
    var m := Tick(n, seconds);
    assert forall id :: SnapshotsOf(m.chain, id) == SnapshotsOf(n.chain, id);
    assert forall e :: Happened(m.chain, e) <==> Happened(n.chain, e);
    assert Later(n.chain, m.chain);
    EffectsPersist(n.chain, m.chain);
  }

  // ----- Where effects come from -----

  /** A transaction that brings the effect of `call` when it succeeds. */
  predicate Brings(tx: Tx, call: Tx) {
    match call
    case IssueId(id, _, _, _) => tx.IssueId? && tx.id == id
    case ExtendId(id, x) => (tx.IssueId? || tx.ExtendId?) && tx.id == id && tx.expiresAt >= x
    case RevokeId(id, _) => tx.RevokeId? && tx.id == id
    case _ => tx == call
  }

  /** An expiry of zero or less is there without any transaction. */
  predicate Vacuous(call: Tx) { call.ExtendId? && call.expiresAt <= 0 }

  ghost predicate Brought(n: Net, call: Tx) {
    exists t :: 0 <= t < |n.sent| && n.sent[t].fate == SUCCEEDED && Brings(n.sent[t].tx, call)
  }

  /** Exactly the effects that some successful transaction brings are on chain. */
  ghost predicate OriginInv(n: Net) {
    forall call :: !Vacuous(call) ==> (Effect(n.chain, call) <==> Brought(n, call))
  }

  lemma NewEffectIsBrought(c: Chain, tx: Tx, call: Tx)
    requires Execute(c, tx).Ok? && !Vacuous(call)
    ensures Effect(Execute(c, tx).value, call) <==> Effect(c, call) || Brings(tx, call)
  {
  }

  lemma MineKeepsOriginInv(n: Net, t: nat)
    requires OriginInv(n)
    ensures OriginInv(Mine(n, t))
  {
    var m := Mine(n, t);
    if t < |n.sent| && n.sent[t].fate == IN_FLIGHT {
      forall call | !Vacuous(call)
        ensures Effect(m.chain, call) <==> Brought(m, call)
      {
        if Execute(n.chain, n.sent[t].tx).Ok? {
          NewEffectIsBrought(n.chain, n.sent[t].tx, call);
          if Brings(n.sent[t].tx, call) { assert m.sent[t].fate == SUCCEEDED; }
        }
        if Brought(n, call) {
          var u :| 0 <= u < |n.sent| && n.sent[u].fate == SUCCEEDED && Brings(n.sent[u].tx, call);
          assert m.sent[u] == n.sent[u];
        }
      }
    }
  }

  lemma BroadcastKeepsOriginInv(n: Net, tx: Tx, owner: nat)
    requires OriginInv(n)
    ensures OriginInv(Broadcast(n, tx, owner))
  {
    var m := Broadcast(n, tx, owner);
    forall call | Brought(n, call)
      ensures Brought(m, call)
    {
      var u :| 0 <= u < |n.sent| && n.sent[u].fate == SUCCEEDED && Brings(n.sent[u].tx, call);
      assert m.sent[u] == n.sent[u];
    }
  }

  lemma TickKeepsOriginInv(n: Net, seconds: nat)
    requires OriginInv(n)
    ensures OriginInv(Tick(n, seconds))
  {
    forall call
      ensures Effect(Tick(n, seconds).chain, call) <==> Effect(n.chain, call)
      ensures Brought(Tick(n, seconds), call) <==> Brought(n, call)
    {
    }
  }
}
