/** What each call leaves in the table, position by position and field by field. */
module Effects {
  import opened Wrappers
  import opened LeaseModel
  import opened LeaseInvariant

  // --- commits --------------------------------------------------------------------

  /** The watermark a commit moves to: what was asked for, between the present watermark and the end. */
  function Mark(l: Lease, through: int): int {
    if through <= l.committedEnd then l.committedEnd else if through <= l.end then through else l.end
  }

  /** A commit is refused exactly when the lease is gone or another's. Otherwise the positions up to the mark,
      and no others, become committed and are counted; the lease goes exactly when the mark is its end, and
      keeps all but its watermarks if not; nothing else of the table changes but the committer's record. */
  lemma CommitFields(t: Table, c: ClusterId, id: LeaseId, through: int, now: real)
    requires Inv(t)
    ensures Commit(t, c, id, through, now) == Err(LeaseGone) <==> id !in t.leases
    ensures Commit(t, c, id, through, now) == Err(NotOwner) <==> id in t.leases && t.leases[id].cluster != c
    ensures id in t.leases && t.leases[id].cluster == c ==>
      && Commit(t, c, id, through, now).Ok?
      && var l, t' := t.leases[id], Commit(t, c, id, through, now).value;
         var to := Mark(l, through);
         && |t'.state| == |t.state|
         && (forall p :: 0 <= p < |t.state| ==> t'.state[p] == if l.committedEnd <= p < to then Committed else t.state[p])
         && t'.committed == t.committed + to - l.committedEnd
         && (forall x :: x in t'.leases <==> x in t.leases && (x == id ==> to != l.end))
         && (forall x :: x in t'.leases && x != id ==> t'.leases[x] == t.leases[x])
         && (id in t'.leases ==>
               t'.leases[id] == l.(committedEnd := to, progressEnd := if to >= l.progressEnd then to else l.progressEnd))
         && t' == t.(state := t'.state, committed := t'.committed, leases := t'.leases, clusters := t'.clusters)
         && ReplyTo(t, id, through, t')
            == CommitReply(t.epoch, to, to == l.end, t.committed + to - l.committedEnd,
                           t'.committed + t.quarantined >= t.cfg.numBlocks)
  {
    hide ReplyTo;
    if id in t.leases {
      assert LeaseOk(t.leases[id], id, t.epoch, |t.state|, t.clusters.Keys, t.lastNumber);
      if t.leases[id].cluster == c {
        ReplyFields(t, c, id, through, now);
      }
    }
    hide Inv, InvPending, Credited;
  }

  lemma ReplyFields(t: Table, c: ClusterId, id: LeaseId, through: int, now: real)
    requires Inv(t) && id in t.leases && t.leases[id].cluster == c
    ensures var l, t' := t.leases[id], Commit(t, c, id, through, now).value;
            var to := Mark(l, through);
            && ReplyTo(t, id, through, t')
               == CommitReply(t.epoch, to, to == l.end, t.committed + to - l.committedEnd,
                              t'.committed + t.quarantined >= t.cfg.numBlocks)
  {
    assert LeaseOk(t.leases[id], id, t.epoch, |t.state|, t.clusters.Keys, t.lastNumber);
    hide Inv, InvPending, Credited, Filled;
  }

  /** The committer is credited with the blocks and was seen now. From its second commit on its rate follows
      the pace since the one before: the first pace is taken as it is, and each later one for three tenths. */
  lemma CreditFields(t: Table, c: ClusterId, id: LeaseId, through: int, now: real)
    requires Inv(t) && id in t.leases && t.leases[id].cluster == c
    ensures c in t.clusters && Commit(t, c, id, through, now).Ok?
    ensures var newly, t' := Mark(t.leases[id], through) - t.leases[id].committedEnd, Commit(t, c, id, through, now).value;
            && newly >= 0 && t'.clusters.Keys == t.clusters.Keys
            && (forall d :: d in t.clusters && (d != c || newly == 0) ==> t'.clusters[d] == t.clusters[d])
            && (newly > 0 ==>
                  var r, r' := t.clusters[c], t'.clusters[c];
                  var elapsed := if now - r.lastCommitAt >= 0.000001 then now - r.lastCommitAt else 0.000001;
                  && r' == r.(blocksCommitted := r.blocksCommitted + newly, lastSeen := now, lastCommitAt := now, rate := r'.rate)
                  && (r.lastCommitAt == 0.0 ==> r'.rate == r.rate)
                  && (r.lastCommitAt != 0.0 ==>
                        && (r.rate <= 0.0 ==> r'.rate == newly as real / elapsed)
                        && (r.rate > 0.0 ==> r'.rate == 0.7 * r.rate + 0.3 * (newly as real / elapsed))))
  {
    var l := t.leases[id];
    assert LeaseOk(l, id, t.epoch, |t.state|, t.clusters.Keys, t.lastNumber);
    assert c in t.clusters.Keys;
    hide Inv, InvPending;
    CreditedFields(t.clusters[c], Mark(l, through) - l.committedEnd, now);
    hide Credited;
  }

  lemma CreditedFields(r: ClusterRecord, newly: int, now: real)
    ensures var r', elapsed := Credited(r, newly, now), if now - r.lastCommitAt >= 0.000001 then now - r.lastCommitAt else 0.000001;
            && r' == r.(blocksCommitted := r.blocksCommitted + newly, lastSeen := now, lastCommitAt := now, rate := r'.rate)
            && (r.lastCommitAt == 0.0 ==> r'.rate == r.rate)
            && (r.lastCommitAt != 0.0 ==>
                  && (r.rate <= 0.0 ==> r'.rate == newly as real / elapsed)
                  && (r.rate > 0.0 ==> r'.rate == 0.7 * r.rate + 0.3 * (newly as real / elapsed)))
  {
  }

  /** A measured rate never leaves the range of the rate before and the pace just seen. */
  lemma RateFollowsPace(r: ClusterRecord, newly: int, now: real)
    requires r.lastCommitAt != 0.0 && r.rate > 0.0 && newly > 0
    ensures var pace := newly as real / if now - r.lastCommitAt >= 0.000001 then now - r.lastCommitAt else 0.000001;
            var rate := Credited(r, newly, now).rate;
            (pace <= rate <= r.rate) || (r.rate <= rate <= pace)
  {
    CreditedFields(r, newly, now);
    hide Credited;
  }

  // --- giving up leases -------------------------------------------------------------

  /** Held by one of these leases and not yet committed. */
  ghost predicate GivenUp(t: Table, ids: set<LeaseId>, p: int) {
    exists id :: id in ids && id in t.leases && t.leases[id].committedEnd <= p < t.leases[id].end
  }

  function Attempts(t: Table, p: int): int {
    if p in t.attempts then t.attempts[p] else 0
  }

  /** Exactly the given-up positions change: to quarantine if the attempt counts and is the last allowed, to
      the pool if not. Only they are charged, once each, and only if the attempt counts. */
  lemma ReclaimFields(t: Table, ids: set<LeaseId>, counted: bool)
    ensures var t' := Reclaim(t, ids, counted);
            && |t'.state| == |t.state|
            && (forall p :: 0 <= p < |t.state| ==>
                  && t'.state[p] == (if !GivenUp(t, ids, p) then t.state[p]
                                     else if counted && t.cfg.maxAttempts != 0 && Attempts(t, p) + 1 >= t.cfg.maxAttempts
                                     then Quarantined else Unassigned)
                  && Attempts(t', p) == Attempts(t, p) + if counted && GivenUp(t, ids, p) then 1 else 0)
            && (forall id :: id in t'.leases <==> id in t.leases && id !in ids)
            && (forall id :: id in t'.leases ==> t'.leases[id] == t.leases[id])
            && t' == t.(state := t'.state, attempts := t'.attempts, quarantined := t'.quarantined, leases := t'.leases)
  {
    var hit := HeldBlocks(t, ids);
    forall p | 0 <= p < |t.state| ensures p in hit <==> GivenUp(t, ids, p) {
      HeldIs(t, ids, p);
    }
    BlamedIs(t.attempts, hit);
    hide HeldBlocks, GivenUp, Blamed;
  }

  lemma HeldIs(t: Table, ids: set<LeaseId>, p: int)
    requires 0 <= p < |t.state|
    ensures p in HeldBlocks(t, ids) <==> GivenUp(t, ids, p)
  {
  }

  lemma BlamedIs(attempts: map<int, int>, hit: set<int>)
    ensures forall p :: AttemptsOf(Blamed(attempts, hit), p) == AttemptsOf(attempts, p) + if p in hit then 1 else 0
  {
  }

  /** Only what is overdue is reaped, and all of it, counting an attempt. */
  lemma ReapsExactly(t: Table, now: real)
    ensures exists ids :: Reap(t, now) == Reclaim(t, ids, true) && forall id :: id in ids <==> id in t.leases && t.leases[id].deadline < now
  {
    var ids := Expired(t, now);
    hide Reclaim;
    assert Reap(t, now) == Reclaim(t, ids, true);
  }

  /** A release gives up the named lease if it is the asker's; without a name all of the asker's, unless the
      asker names a process other than the recorded one. */
  lemma ReleasesExactly(t: Table, c: ClusterId, target: Option<LeaseId>, incarnation: string, counted: bool)
    ensures exists ids :: Release(t, c, target, incarnation, counted) == Reclaim(t, ids, counted) && forall id :: id in ids <==>
              && id in t.leases && t.leases[id].cluster == c
              && (target.Some? ==> id == target.value)
              && (target.None? && incarnation != "" && c in t.clusters && t.clusters[c].incarnation != "" ==>
                    incarnation == t.clusters[c].incarnation)
  {
    var ids := ReleaseTargets(t, c, target, incarnation);
    hide Reclaim;
    assert Release(t, c, target, incarnation, counted) == Reclaim(t, ids, counted);
  }

  // --- epochs -----------------------------------------------------------------------

  /** Past the last epoch of the budget nothing changes; before it everything of the old epoch goes, and what
      the clusters were credited with and measured at stays. */
  lemma AdvanceFields(t: Table)
    ensures t.epoch + 1 >= t.cfg.maxEpochs ==> Advance(t) == t
    ensures t.epoch + 1 < t.cfg.maxEpochs ==>
      var t' := Advance(t);
      && t'.epoch == t.epoch + 1 && t'.epochsCompleted == t.epochsCompleted + 1 && t'.epoch < t'.cfg.maxEpochs
      && |t'.state| == |t.state| && (forall p :: 0 <= p < |t'.state| ==> t'.state[p] == Unassigned)
      && t'.attempts == map[] && t'.leases == map[] && t'.committed == 0 && t'.quarantined == 0
      && t'.cfg == t.cfg && t'.lastNumber == t.lastNumber && t'.clusters.Keys == t.clusters.Keys
      && forall c :: c in t.clusters ==> t'.clusters[c] == t.clusters[c].(cursor := 0)
  {
  }

  // --- replayed grants --------------------------------------------------------------

  /** A recorded lease comes back over the first run of free positions in its range, with nothing committed,
      its progress within the run, and no less time than the floor gives; where it is of another epoch, still
      held, or has no free position, nothing changes. */
  lemma ReinstatedFields(t: Table, l: Lease, floor: real) returns (lo: int, hi: int)
    requires Recordable(l, |t.state|)
    ensures (l.epoch != t.epoch || l.id in t.leases || forall p :: l.start <= p < l.end ==> t.state[p] != Unassigned) ==>
      ReplayLease(t, l, floor) == t
    ensures l.epoch == t.epoch && l.id !in t.leases && (exists p :: l.start <= p < l.end && t.state[p] == Unassigned) ==>
      var t' := ReplayLease(t, l, floor);
      && l.start <= lo < hi <= l.end
      && (forall p :: l.start <= p < lo ==> t.state[p] != Unassigned)
      && (forall p :: lo <= p < hi ==> t.state[p] == Unassigned) && (hi < l.end ==> t.state[hi] != Unassigned)
      && |t'.state| == |t.state| && (forall p :: 0 <= p < |t.state| ==> t'.state[p] == if lo <= p < hi then Leased else t.state[p])
      && t'.leases.Keys == t.leases.Keys + {l.id} && (forall id :: id in t.leases ==> t'.leases[id] == t.leases[id])
      && t'.leases[l.id] == l.(start := lo, end := hi, committedEnd := lo,
                               progressEnd := (if l.progressEnd <= lo then lo else if l.progressEnd <= hi then l.progressEnd else hi),
                               deadline := if l.deadline >= floor then l.deadline else floor)
      && t' == t.(state := t'.state, leases := t'.leases, lastNumber := if t.lastNumber >= l.id.number then t.lastNumber else l.id.number)
  {
    lo := FirstFree(t.state, l.start, l.end);
    hi := FreeRunEnd(t.state, lo, l.end);
  }
}
