/** Who is let in under a cluster's name: a register refused exactly when a second live process asks, the
    record it leaves, and that nobody takes a working holder's place over a whole run. */
module Registration {
  import opened LeaseModel
  import opened LeaseRuns
  import Grants

  /** The cluster's record names another process than the one that asks. */
  predicate NamesAnother(t: Table, c: ClusterId, incarnation: string) {
    c in t.clusters && incarnation != "" && t.clusters[c].incarnation != "" && incarnation != t.clusters[c].incarnation
  }

  /** The recorded process holds a lease, or was heard from less than the minimum time to live ago, or less
      than ten of its round trips. */
  ghost predicate StillThere(t: Table, c: ClusterId, now: real)
    requires c in t.clusters
  {
    || (exists id :: id in t.leases && t.leases[id].cluster == c)
    || now - t.clusters[c].lastSeen < t.cfg.minTtl
    || now - t.clusters[c].lastSeen < 10.0 * t.clusters[c].rtt
  }

  predicate OtherSpace(t: Table, digest: string) {
    digest != "" && t.cfg.digest != "" && digest != t.cfg.digest
  }

  /** Refused exactly when the two sides number the samples differently, or when the check is on and
      another process of that name is plausibly still there. */
  lemma RefusedExactly(t: Table, c: ClusterId, digest: string, ranks: int, incarnation: string, check: bool, now: real)
    ensures var r := Register(t, c, digest, ranks, incarnation, check, now);
            && (r.Ok? || r.error == DigestMismatch || r.error == ClusterBusy)
            && (r.Err? && r.error == DigestMismatch <==> OtherSpace(t, digest))
            && (r.Err? && r.error == ClusterBusy <==>
                  !OtherSpace(t, digest) && check && NamesAnother(t, c, incarnation) && StillThere(t, c, now))
  {
    if c in t.clusters {
      LiveIs(t, c, now);
    }
    hide IsLive, StillThere;
  }

  lemma LiveIs(t: Table, c: ClusterId, now: real)
    requires c in t.clusters
    ensures IsLive(t.cfg, t.leases, t.clusters[c], c, now) <==> StillThere(t, c, now)
  {
  }

  /** An accepted register changes one record only: seen now, with the ranks and the incarnation it gives,
      if any; a new incarnation is counted, and what was committed, measured and searched stays. */
  lemma RegisteredFields(t: Table, c: ClusterId, digest: string, ranks: int, incarnation: string, check: bool, now: real)
    requires Register(t, c, digest, ranks, incarnation, check, now).Ok?
    ensures var t' := Register(t, c, digest, ranks, incarnation, check, now).value;
            && t' == t.(clusters := t'.clusters) && t'.clusters.Keys == t.clusters.Keys + {c}
            && (forall d :: d in t.clusters && d != c ==> t'.clusters[d] == t.clusters[d])
            && (c in t.clusters ==>
                  var r := t.clusters[c];
                  t'.clusters[c] ==
                    r.(lastSeen := now, ranks := if ranks != 0 then ranks else r.ranks,
                       incarnation := if incarnation != "" then incarnation else r.incarnation,
                       incarnations := if incarnation != "" && incarnation != r.incarnation
                                       then r.incarnations + 1 else r.incarnations))
            && (c !in t.clusters ==>
                  t'.clusters[c] ==
                    ClusterRecord(now, now, ranks, 0, 0.0, 0.0, 0.0, 0, incarnation, if incarnation != "" then 1 else 0, 0.0))
  {
    hide Conflicting;
  }

  /** Over all calls, a cluster's recorded process changes exactly by an accepted register that names
      another: the digest no obstacle, and nobody recorded, or the check off, or nobody still there. */
  lemma IncarnationMovesExactly(t: Table, call: Call, t': Table, c: ClusterId)
    requires Next(t, call, t') && c in t.clusters
    ensures c in t'.clusters
    ensures t'.clusters[c].incarnation != t.clusters[c].incarnation <==>
      && call.CallRegister? && call.cluster == c && !OtherSpace(t, call.digest)
      && call.incarnation != "" && call.incarnation != t.clusters[c].incarnation
      && (t.clusters[c].incarnation == "" || !call.checkConflict || !StillThere(t, c, call.now))
  {
    hide *;
    if call.CallRegister? {
      RegisterMoves(t, call, t', c);
    } else if call.CallAcquire? {
      AcquireKeepsProcess(t, call, t', c);
    } else {
      OthersKeepProcess(t, call, t', c);
    }
  }

  lemma RegisterMoves(t: Table, call: Call, t': Table, c: ClusterId)
    requires call.CallRegister? && Next(t, call, t') && c in t.clusters
    ensures c in t'.clusters
    ensures t'.clusters[c].incarnation != t.clusters[c].incarnation <==>
      && call.cluster == c && !OtherSpace(t, call.digest)
      && call.incarnation != "" && call.incarnation != t.clusters[c].incarnation
      && (t.clusters[c].incarnation == "" || !call.checkConflict || !StillThere(t, c, call.now))
  {
    var d, digest, ranks, incarnation := call.cluster, call.digest, call.ranks, call.incarnation;
    RefusedExactly(t, d, digest, ranks, incarnation, call.checkConflict, call.now);
    if Register(t, d, digest, ranks, incarnation, call.checkConflict, call.now).Ok? {
      RegisteredFields(t, d, digest, ranks, incarnation, call.checkConflict, call.now);
    }
    hide Register, StillThere, OtherSpace;
  }

  lemma AcquireKeepsProcess(t: Table, call: Call, t': Table, c: ClusterId)
    requires call.CallAcquire? && Next(t, call, t') && c in t.clusters
    ensures c in t'.clusters && t'.clusters[c].incarnation == t.clusters[c].incarnation
  {
    hide Acquires;
    var g :| Acquires(t, call.request, g, t');
    Grants.RecordFields(t, call.request, g, t');
  }

  lemma OthersKeepProcess(t: Table, call: Call, t': Table, c: ClusterId)
    requires !call.CallRegister? && !call.CallAcquire? && Next(t, call, t') && c in t.clusters
    ensures c in t'.clusters && t'.clusters[c].incarnation == t.clusters[c].incarnation
  {
    hide HeldBlocks, Poisoned, Returned, Blamed, RenewedLeases, Expired, ReleaseTargets, GrantedTtl, Filled;
  }

  // --- over a run -----------------------------------------------------------------

  /** Whenever the cluster's name is asked for from j on and before k, it is with the check on, and the
      cluster holds a lease or is otherwise still there. */
  ghost predicate AtWork(trace: seq<Table>, calls: seq<Call>, j: nat, k: nat, c: ClusterId)
    requires j <= k <= |calls| && k < |trace|
  {
    forall m :: j <= m < k && calls[m].CallRegister? && calls[m].cluster == c ==>
      calls[m].checkConflict && (HoldsLease(trace[m], c) || (c in trace[m].clusters && StillThere(trace[m], c, calls[m].now)))
  }

  ghost predicate HoldsLease(t: Table, c: ClusterId) {
    exists id :: id in t.leases && t.leases[id].cluster == c
  }

  /** While a cluster is at work, the process on record stays the same whatever anyone calls. */
  lemma {:induction false} NobodyTakesOver(trace: seq<Table>, calls: seq<Call>, j: nat, k: nat, c: ClusterId)
    requires IsRun(trace, calls) && j <= k <= |calls| && k < |trace| && AtWork(trace, calls, j, k, c)
    requires c in trace[j].clusters && trace[j].clusters[c].incarnation != ""
    ensures c in trace[k].clusters && trace[k].clusters[c].incarnation == trace[j].clusters[c].incarnation
    decreases k
  {
    hide IsRun, Next, StillThere, OtherSpace;
    if j < k {
      assert AtWork(trace, calls, j, k - 1, c);
      NobodyTakesOver(trace, calls, j, k - 1, c);
      StepOf(trace, calls, k - 1);
      if calls[k - 1].CallRegister? && HoldsLease(trace[k - 1], c) {
        HoldingIsBeingThere(trace[k - 1], calls[k - 1], c);
      }
      IncarnationMovesExactly(trace[k - 1], calls[k - 1], trace[k], c);
    }
  }

  lemma HoldingIsBeingThere(t: Table, call: Call, c: ClusterId)
    requires call.CallRegister? && c in t.clusters && HoldsLease(t, c)
    ensures StillThere(t, c, call.now)
  {
  }

  /** In particular the holder of a lease is never replaced while it holds one and the check is on. */
  lemma HolderIsNotReplaced(trace: seq<Table>, calls: seq<Call>, j: nat, k: nat, c: ClusterId)
    requires IsRun(trace, calls) && j <= k <= |calls| && k < |trace|
    requires forall m :: j <= m < k && calls[m].CallRegister? && calls[m].cluster == c ==> calls[m].checkConflict
    requires forall m :: j <= m < k ==> HoldsLease(trace[m], c)
    requires c in trace[j].clusters && trace[j].clusters[c].incarnation != ""
    ensures c in trace[k].clusters && trace[k].clusters[c].incarnation == trace[j].clusters[c].incarnation
  {
    hide HoldsLease, StillThere, IsRun;
    NobodyTakesOver(trace, calls, j, k, c);
  }
}
