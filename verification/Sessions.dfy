/** The cluster's side of the protocol: the spans it believes it holds. */
module Sessions {
  import opened Wrappers
  import opened Arithmetic
  import opened LeaseModel

  /** A lease as its holder sees it. */
  datatype Span = Span(
    id: LeaseId,
    epoch: int,
    start: int,
    end: int,
    ttl: real,
    deadline: real,
    consumed: int,
    committed: int,
    valid: bool)

  type Spans = map<LeaseId, Span>

  /** What came of a commit request. */
  datatype CommitOutcome = Accepted(closed: bool, epochComplete: bool) | Gone

  function NewSpan(l: Lease): Span {
    Span(l.id, l.epoch, l.start, l.end, l.ttl, l.deadline, Max(0, l.start), Max(0, l.start), true)
  }

  function Adopted(spans: Spans, granted: seq<Lease>): Spans {
    if granted == [] then spans
    else var l := granted[|granted| - 1]; Adopted(spans, granted[..|granted| - 1])[l.id := NewSpan(l)]
  }

  function Consumed(s: Span, through: int): Span {
    s.(consumed := Max(s.consumed, Min(through, s.end)))
  }

  function NoteConsumed(spans: Spans, id: LeaseId, through: int): Spans {
    if id in spans then spans[id := Consumed(spans[id], through)] else spans
  }

  /** The progress a heartbeat reports. */
  function Progress(spans: Spans): map<LeaseId, int> {
    map id | id in spans && spans[id].valid :: spans[id].consumed
  }

  /** The coordinator's view of one lease folded into the span. */
  function Folded(s: Span, v: LeaseView): Span {
    match v
    case Lost => s.(valid := false)
    case Held(end, _) => if end < s.end then s.(end := Max(end, s.consumed)) else s
  }

  function Applied(spans: Spans, views: map<LeaseId, LeaseView>, ids: set<LeaseId>): Spans
    requires ids <= views.Keys
  {
    map id | id in spans :: if id in ids then Folded(spans[id], views[id]) else spans[id]
  }

  /** The watermark a commit sends: nothing when there is nothing new, or no right to it. */
  function CommitRequest(spans: Spans, id: LeaseId, through: Option<int>): Option<int> {
    if id !in spans then None
    else
      var to := if through.None? then spans[id].consumed else Min(through.value, spans[id].end);
      if to <= spans[id].committed || !spans[id].valid then None else Some(to)
  }

  function CommitHeard(spans: Spans, id: LeaseId, through: int, outcome: CommitOutcome): Spans {
    if id !in spans then spans
    else match outcome
      case Gone => spans[id := spans[id].(valid := false)]
      case Accepted(closed, _) => if closed then spans - {id} else spans[id := spans[id].(committed := through)]
  }

  function CommitRound(spans: Spans, id: LeaseId, through: Option<int>, outcome: CommitOutcome): Spans {
    var sent := CommitRequest(spans, id, through);
    if sent.None? then spans else CommitHeard(spans, id, sent.value, outcome)
  }

  class LeaseSession {
    var spans: Spans
    var epoch: int
    var serverTtl: real
    var blocksCommitted: int
    var epochComplete: bool

    constructor (epoch: int, minTtl: real)
      ensures spans == map[] && this.epoch == epoch && blocksCommitted == 0 && !epochComplete
    {
      spans, this.epoch, serverTtl, blocksCommitted, epochComplete := map[], epoch, minTtl, 0, false;
    }

    /** Take up what an acquire granted. */
    method Adopt(g: Grant)
      modifies this
      ensures spans == Adopted(old(spans), g.leases) && epoch == g.epoch
      ensures epochComplete == if g.status == EpochComplete then true
                               else if g.status == Granted && g.leases != [] then false else old(epochComplete)
      ensures blocksCommitted == old(blocksCommitted)
    {
      epoch := g.epoch;
      if g.status == EpochComplete {
        epochComplete := true;
      } else if g.status == Granted && g.leases != [] {
        epochComplete := false;
      }
      var k := 0;
      while k < |g.leases|
        invariant 0 <= k <= |g.leases| && spans == Adopted(old(spans), g.leases[..k])
        modifies this`spans, this`serverTtl
      {
        assert g.leases[..k + 1][..k] == g.leases[..k];
        var span := NewSpan(g.leases[k]);
        spans := spans[span.id := span];
        serverTtl := if span.ttl != 0.0 then span.ttl else serverTtl;
        k := k + 1;
      }
      assert g.leases[..k] == g.leases;
    }

    /** Move the consumed watermark: up to what was handed out, never back and never past the end. */
    method Consume(id: LeaseId, through: int)
      modifies this`spans
      ensures spans == NoteConsumed(old(spans), id, through)
      ensures spans.Keys == old(spans).Keys && forall other :: other in spans && other != id ==> spans[other] == old(spans)[other]
      ensures id in spans ==>
        var before, after := old(spans)[id], spans[id];
        && after == before.(consumed := after.consumed)
        && before.consumed <= after.consumed && (after.consumed > before.consumed ==> after.consumed <= through)
        && (before.consumed <= before.end ==> after.consumed <= after.end)
        && (through <= before.end ==> after.consumed >= through)
    {
      if id in spans {
        var span := spans[id];
        spans := spans[id := span.(consumed := Max(span.consumed, Min(through, span.end)))];
      }
    }

    /** Fold the coordinator's authoritative view into local state. */
    method Apply(newEpoch: int, ttl: real, views: map<LeaseId, LeaseView>)
      modifies this`spans, this`epoch, this`serverTtl
      ensures spans == Applied(old(spans), views, views.Keys)
      ensures spans.Keys == old(spans).Keys
      ensures forall id :: id in spans && id !in views ==> spans[id] == old(spans)[id]
      ensures forall id :: id in spans && id in views && views[id].Lost? ==> spans[id] == old(spans)[id].(valid := false)
      ensures forall id :: id in spans && id in views && views[id].Held? ==>
        var before, after, end := old(spans)[id], spans[id], views[id].end;
        && after == before.(end := after.end)
        && (end >= before.end ==> after.end == before.end)
        && (before.consumed <= end < before.end ==> after.end == end)
        && (end < before.end && end < before.consumed ==> after.end == before.consumed)
      ensures epoch == newEpoch && serverTtl == if ttl != 0.0 then ttl else old(serverTtl)
    {
      hide Applied, Folded;
      epoch := newEpoch;
      if ttl != 0.0 {
        serverTtl := ttl;
      }
      ghost var before, done := spans, {};
      var todo := views.Keys;
      NothingApplied(before, views);
      while todo != {}
        invariant todo !! done && todo <= views.Keys && done <= views.Keys
        invariant forall id :: id in views ==> id in todo || id in done
        invariant spans == Applied(before, views, done)
        decreases |todo|
        modifies this`spans
      {
        var id :| id in todo;
        NextApplied(before, views, done, id);
        if id in spans {
          spans := spans[id := ApplyOne(spans[id], views[id])];
        }
        todo, done := todo - {id}, done + {id};
      }
      assert done == views.Keys;
      AppliedFields(before, views);
    }

    function ApplyOne(span: Span, view: LeaseView): (r: Span)
      ensures r == Folded(span, view)
    {
      if view.Lost? then span.(valid := false)
      else if view.end < span.end then span.(end := if view.end >= span.consumed then view.end else span.consumed)
      else span
    }

    /** Tell the coordinator that a prefix is durable; `outcome` is its answer, should it be asked. */
    method Commit(id: LeaseId, through: Option<int>, outcome: CommitOutcome) returns (newly: int)
      modifies this`spans, this`blocksCommitted, this`epochComplete
      ensures spans == CommitRound(old(spans), id, through, outcome)
      ensures newly == if CommitRequest(old(spans), id, through).Some? && outcome.Accepted?
                       then CommitRequest(old(spans), id, through).value - old(spans)[id].committed else 0
      ensures newly >= 0 && blocksCommitted == old(blocksCommitted) + newly
      ensures epochComplete == if CommitRequest(old(spans), id, through).Some? && outcome.Accepted?
                               then outcome.epochComplete else old(epochComplete)
    {
      if id !in spans {
        return 0;
      }
      var span := spans[id];
      var to := if through.None? then span.consumed else Min(through.value, span.end);
      if to <= span.committed || !span.valid {
        return 0;
      }
      if outcome.Gone? {
        spans := spans[id := span.(valid := false)];
        return 0;
      }
      newly := Max(0, to - span.committed);
      blocksCommitted := blocksCommitted + newly;
      epochComplete := outcome.epochComplete;
      if outcome.closed {
        spans := spans - {id};
      } else {
        spans := spans[id := span.(committed := to)];
      }
    }

    /** Commit every valid span up to its consumed watermark. */
    method CommitAll(outcomes: map<LeaseId, CommitOutcome>) returns (newly: int)
      requires outcomes.Keys >= spans.Keys
      modifies this`spans, this`blocksCommitted, this`epochComplete
      ensures spans == AllCommitted(old(spans), outcomes, old(spans).Keys)
      ensures blocksCommitted == old(blocksCommitted) + newly
    {
      hide AllCommitted, CommitRound;
      var targets := set id | id in spans && spans[id].valid && spans[id].consumed > spans[id].committed;
      ghost var spans0, done := spans, spans.Keys - targets;
      NothingDue(spans0, outcomes, done);
      newly := 0;
      var todo := targets;
      while todo != {}
        invariant todo + done == spans0.Keys && todo !! done && todo <= targets
        invariant spans == AllCommitted(spans0, outcomes, done)
        invariant blocksCommitted == old(blocksCommitted) + newly
        decreases |todo|
      {
        var id :| id in todo;
        NextDue(spans0, outcomes, done, id);
        var n := Commit(id, Some(spans[id].consumed), outcomes[id]);
        newly := newly + n;
        todo, done := todo - {id}, done + {id};
      }
      assert done == spans0.Keys;
    }

    /** Hand everything back; `delivered` when the coordinator answered. */
    method ReleaseAll(delivered: bool) returns (asked: bool)
      modifies this`spans
      ensures asked == (old(spans) != map[])
      ensures spans == if asked && delivered then map[] else old(spans)
    {
      if spans == map[] {
        return false;
      }
      if delivered {
        spans := map[];
      }
      return true;
    }
  }

  // --- what the session's own steps do, field by field --------------------------

  /** A reply revokes the spans it calls lost, cuts the others to the end it gives if that is nearer, though
      not behind what was consumed, and leaves alone whatever it does not mention. */
  lemma AppliedFields(spans: Spans, views: map<LeaseId, LeaseView>)
    ensures var spans' := Applied(spans, views, views.Keys);
            && spans'.Keys == spans.Keys
            && (forall id :: id in spans && id !in views ==> spans'[id] == spans[id])
            && (forall id :: id in spans && id in views && views[id].Lost? ==> spans'[id] == spans[id].(valid := false))
            && forall id :: id in spans && id in views && views[id].Held? ==>
                 var before, after, end := spans[id], spans'[id], views[id].end;
                 && after == before.(end := after.end)
                 && (end >= before.end ==> after.end == before.end)
                 && (before.consumed <= end < before.end ==> after.end == end)
                 && (end < before.end && end < before.consumed ==> after.end == before.consumed)
  {
  }

  lemma {:induction false} AdoptedShape(spans: Spans, granted: seq<Lease>)
    ensures var spans' := Adopted(spans, granted);
            && (forall l :: l in granted ==> l.id in spans')
            && (forall id :: id in spans ==> id in spans')
            && (forall id :: id in spans' ==>
                  (exists l :: l in granted && l.id == id && spans'[id] == NewSpan(l))
                  || (id in spans && spans'[id] == spans[id] && forall l :: l in granted ==> l.id != id))
  {
    if granted != [] {
      var n := |granted| - 1;
      AdoptedShape(spans, granted[..n]);
      assert granted == granted[..n] + [granted[n]];
      var before, spans' := Adopted(spans, granted[..n]), Adopted(spans, granted);
      forall id | id in spans'
        ensures (exists l :: l in granted && l.id == id && spans'[id] == NewSpan(l))
             || (id in spans && spans'[id] == spans[id] && forall l :: l in granted ==> l.id != id)
      {
        if id != granted[n].id && exists l :: l in granted[..n] && l.id == id && before[id] == NewSpan(l) {
          var l :| l in granted[..n] && l.id == id && before[id] == NewSpan(l);
          assert l in granted;
        }
      }
    }
  }

  /** Each granted lease becomes a valid span of the same extent with nothing consumed or committed; every
      other span stays. */
  lemma AdoptedFields(spans: Spans, granted: seq<Lease>)
    requires forall i, j :: 0 <= i < j < |granted| ==> granted[i].id != granted[j].id
    ensures var spans' := Adopted(spans, granted);
            && (forall id :: id in spans' <==> id in spans || exists l :: l in granted && l.id == id)
            && (forall id :: id in spans && (forall l :: l in granted ==> l.id != id) ==> spans'[id] == spans[id])
            && forall l :: l in granted ==>
                 l.id in spans' && var sp := spans'[l.id];
                 && sp.id == l.id && sp.epoch == l.epoch && sp.start == l.start && sp.end == l.end
                 && sp.ttl == l.ttl && sp.deadline == l.deadline && sp.valid
                 && sp.consumed == sp.committed == if l.start >= 0 then l.start else 0
  {
    AdoptedShape(spans, granted);
    hide Adopted;
    var spans' := Adopted(spans, granted);
    forall l | l in granted ensures spans'[l.id] == NewSpan(l) {
      var l' :| l' in granted && l'.id == l.id && spans'[l.id] == NewSpan(l');
      var i :| 0 <= i < |granted| && granted[i] == l;
      var j :| 0 <= j < |granted| && granted[j] == l';
    }
  }

  /** A heartbeat reports the valid spans and no others, each by what was consumed of it. */
  lemma ReportsExactly(spans: Spans)
    ensures forall id :: id in Progress(spans) <==> id in spans && spans[id].valid
    ensures forall id :: id in Progress(spans) ==> Progress(spans)[id] == spans[id].consumed
  {
  }

  /** A commit of a span that is not held, has been revoked, or has nothing new up to the mark asked for asks
      nothing and changes nothing. Otherwise a refusal revokes the span; an answer that the lease is closed
      ends it; any other moves its committed watermark to the mark, which is not past the end. */
  lemma CommitFields(spans: Spans, id: LeaseId, through: Option<int>, outcome: CommitOutcome)
    ensures CommitRequest(spans, id, through).Some? <==>
              && id in spans && spans[id].valid
              && (through.None? ==> spans[id].consumed > spans[id].committed)
              && (through.Some? ==> through.value > spans[id].committed && spans[id].end > spans[id].committed)
    ensures CommitRequest(spans, id, through).None? ==> CommitRound(spans, id, through, outcome) == spans
    ensures CommitRequest(spans, id, through).Some? ==>
              var to, spans' := CommitRequest(spans, id, through).value, CommitRound(spans, id, through, outcome);
              && (through.None? ==> to == spans[id].consumed)
              && (through.Some? ==> to == if through.value <= spans[id].end then through.value else spans[id].end)
              && (outcome.Gone? ==> spans' == spans[id := spans[id].(valid := false)])
              && (outcome.Accepted? && outcome.closed ==> spans' == spans - {id})
              && (outcome.Accepted? && !outcome.closed ==> spans' == spans[id := spans[id].(committed := to)])
  {
  }

  lemma NothingApplied(spans: Spans, views: map<LeaseId, LeaseView>)
    ensures Applied(spans, views, {}) == spans
  {
  }

  lemma NextApplied(spans: Spans, views: map<LeaseId, LeaseView>, done: set<LeaseId>, id: LeaseId)
    requires done <= views.Keys && id in views && id !in done
    ensures var now := Applied(spans, views, done);
            Applied(spans, views, done + {id}) == if id in now then now[id := Folded(now[id], views[id])] else now
  {
  }

  // --- committing every span --------------------------------------------------

  /** One span after it has been committed through its consumed watermark; None when it closed. */
  function CommittedSpan(s: Span, outcome: CommitOutcome): Option<Span> {
    var to := Min(s.consumed, s.end);
    if !s.valid || to <= s.committed then Some(s)
    else match outcome
      case Gone => Some(s.(valid := false))
      case Accepted(closed, _) => if closed then None else Some(s.(committed := to))
  }

  function AllCommitted(spans: Spans, outcomes: map<LeaseId, CommitOutcome>, ids: set<LeaseId>): Spans
    requires ids <= spans.Keys <= outcomes.Keys
  {
    map id | id in spans && (id !in ids || CommittedSpan(spans[id], outcomes[id]).Some?) ::
      if id in ids then CommittedSpan(spans[id], outcomes[id]).value else spans[id]
  }

  lemma NothingDue(spans: Spans, outcomes: map<LeaseId, CommitOutcome>, ids: set<LeaseId>)
    requires ids <= spans.Keys <= outcomes.Keys
    requires forall id :: id in ids ==> !spans[id].valid || spans[id].consumed <= spans[id].committed
    ensures AllCommitted(spans, outcomes, ids) == spans
  {
  }

  /** Consumed never passes the end, so a commit of the consumed watermark sends all of it. */
  lemma NextDue(spans: Spans, outcomes: map<LeaseId, CommitOutcome>, done: set<LeaseId>, id: LeaseId)
    requires done <= spans.Keys <= outcomes.Keys && id in spans && id !in done
    ensures id in AllCommitted(spans, outcomes, done)
    ensures AllCommitted(spans, outcomes, done)[id] == spans[id]
    ensures
      AllCommitted(spans, outcomes, done + {id}) ==
      CommitRound(AllCommitted(spans, outcomes, done), id, Some(spans[id].consumed), outcomes[id])
  {
  }
}
