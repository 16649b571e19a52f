/** One cluster's session and the table, with every message between them liable to be lost, repeated
    or late, and any other clusters doing what they like. */
module LeaseSystem {
  import opened Wrappers
  import opened LeaseModel
  import opened LeaseInvariant
  import opened LeaseRuns
  import opened DrainSafety
  import opened Sessions

  datatype Message =
    | Offer(granted: seq<Lease>)
    | Beat(progress: map<LeaseId, int>)
    | BeatReply(views: map<LeaseId, LeaseView>)
    | CommitAsk(lease: LeaseId, through: int)
    | CommitReplied(lease: LeaseId, through: int, outcome: CommitOutcome)
    | ReleaseAsk(counted: bool)
    | ReleaseReplied

  /** `net` holds everything sent so far: what is never delivered was lost, and what is delivered
      twice was repeated. An offer is taken out when adopted, since a session acts once on the answer
      to each acquire. */
  datatype System = System(table: Table, spans: Spans, net: set<Message>)

  // --- the steps --------------------------------------------------------------

  datatype Step =
    | Elsewhere(call: Call)
    | ServeAcquire(request: AcquireCall)
    | Adopt(granted: seq<Lease>)
    | Consume(id: LeaseId, through: int)
    | SendBeat
    | ServeBeat(progress: map<LeaseId, int>, macroStep: real, rtt: real, ttl: real, now: real)
    | HearBeat(views: map<LeaseId, LeaseView>)
    | SendCommit(id: LeaseId, upTo: Option<int>)
    | ServeCommit(id: LeaseId, through: int, now: real)
    | HearCommit(id: LeaseId, through: int, outcome: CommitOutcome)
    | SendRelease(counted: bool)
    | ServeRelease(counted: bool, incarnation: string)
    | HearRelease

  /** The commits and heartbeats of cluster c come only from its session. */
  predicate NotOurs(c: ClusterId, call: Call) {
    call.CallCommit? || call.CallHeartbeat? ==> call.cluster != c
  }

  /** A session commits no more than it has consumed. */
  predicate Honest(spans: Spans, id: LeaseId, through: Option<int>) {
    through.Some? && id in spans ==> through.value <= spans[id].consumed
  }

  function OutcomeOf(r: Result<Table, Refusal>, id: LeaseId): CommitOutcome {
    if r.Ok? then Accepted(id !in r.value.leases, EpochDone(r.value)) else Gone
  }

  ghost predicate StepOk(c: ClusterId, s: System, step: Step, s': System) {
    match step
    case Elsewhere(call) => NotOurs(c, call) && Next(s.table, call, s'.table) && s' == s.(table := s'.table)
    case ServeAcquire(a) =>
      a.cluster == c && exists g :: Acquires(s.table, a, g, s'.table)
                                    && s' == s.(table := s'.table, net := s.net + {Offer(g.leases)})
    case Adopt(granted) =>
      Offer(granted) in s.net && s' == s.(spans := Adopted(s.spans, granted), net := s.net - {Offer(granted)})
    case Consume(id, through) => s' == s.(spans := NoteConsumed(s.spans, id, through))
    case SendBeat => s' == s.(net := s.net + {Beat(Progress(s.spans))})
    case ServeBeat(progress, macroStep, rtt, ttl, now) =>
      && Beat(progress) in s.net
      && Next(s.table, CallHeartbeat(c, progress, macroStep, rtt, ttl, now), s'.table)
      && s' == s.(table := s'.table,
                  net := s.net + {BeatReply(Views(s'.table.leases, s'.table.epoch, c, progress.Keys))})
    case HearBeat(views) => BeatReply(views) in s.net && s' == s.(spans := Applied(s.spans, views, views.Keys))
    case SendCommit(id, through) =>
      && Honest(s.spans, id, through)
      && s' == if CommitRequest(s.spans, id, through).None? then s
               else s.(net := s.net + {CommitAsk(id, CommitRequest(s.spans, id, through).value)})
    case ServeCommit(id, through, now) =>
      && CommitAsk(id, through) in s.net
      && Next(s.table, CallCommit(c, id, through, now), s'.table)
      && s' == s.(table := s'.table,
                  net := s.net + {CommitReplied(id, through, OutcomeOf(Commit(s.table, c, id, through, now), id))})
    case HearCommit(id, through, outcome) =>
      CommitReplied(id, through, outcome) in s.net && s' == s.(spans := CommitHeard(s.spans, id, through, outcome))
    case SendRelease(counted) => s' == if s.spans == map[] then s else s.(net := s.net + {ReleaseAsk(counted)})
    case ServeRelease(counted, incarnation) =>
      && ReleaseAsk(counted) in s.net
      && Next(s.table, CallRelease(c, None, incarnation, counted), s'.table)
      && s' == s.(table := s'.table, net := s.net + {ReleaseReplied})
    case HearRelease => ReleaseReplied in s.net && s' == s.(spans := map[])
  }

  // --- the promise ------------------------------------------------------------

  /** What the coordinator holds of a lease never runs ahead of what its holder has consumed, and
      the holder never has less of it than the coordinator thinks. */
  ghost predicate InStep(sp: Span, l: Lease) {
    && l.committedEnd <= l.progressEnd <= sp.consumed <= sp.end
    && l.end <= sp.end
  }

  ghost predicate SpansOk(c: ClusterId, t: Table, spans: Spans) {
    forall id :: id in spans ==>
      && NumberOf(id) <= t.lastNumber && spans[id].consumed <= spans[id].end
      && (id in t.leases ==> t.leases[id].cluster == c && InStep(spans[id], t.leases[id]))
  }

  /** What the session has reported of a lease it still knows. */
  ghost predicate ReportOk(spans: Spans, id: LeaseId, mark: int) {
    id in spans ==> mark <= spans[id].consumed
  }

  /** A lease the session has been offered and knows nothing of: untouched since it was granted. */
  ghost predicate Untouched(c: ClusterId, l: Lease, offered: Lease) {
    && l.cluster == c && l.end <= offered.end
    && l.committedEnd == l.progressEnd == l.start == offered.start
  }

  ghost predicate Mentions(m: Message, id: LeaseId) {
    (m.Beat? && id in m.progress) || (m.CommitAsk? && m.lease == id)
  }

  ghost predicate OfferOk(c: ClusterId, s: System, granted: seq<Lease>) {
    && (forall l, l' :: l in granted && l' in granted && l.id == l'.id ==> l == l')
    && forall l :: l in granted ==>
         && NumberOf(l.id) <= s.table.lastNumber && 0 <= l.start <= l.end && l.id !in s.spans
         && (forall m :: m in s.net ==> !Mentions(m, l.id))
         && (forall m :: m in s.net && m.Offer? && m.granted != granted ==> forall l' :: l' in m.granted ==> l'.id != l.id)
         && (l.id in s.table.leases ==> Untouched(c, s.table.leases[l.id], l))
  }

  ghost predicate MessageOk(c: ClusterId, s: System, m: Message) {
    match m
    case Offer(granted) => OfferOk(c, s, granted)
    case Beat(progress) =>
      forall id :: id in progress ==> NumberOf(id) <= s.table.lastNumber && ReportOk(s.spans, id, progress[id])
    case CommitAsk(id, through) => NumberOf(id) <= s.table.lastNumber && ReportOk(s.spans, id, through)
    case BeatReply(views) =>
      forall id :: id in views && views[id].Held? ==>
        NumberOf(id) <= s.table.lastNumber && (id in s.table.leases ==> s.table.leases[id].end <= views[id].end)
    case _ => true
  }

  ghost predicate SystemOk(c: ClusterId, s: System) {
    && Inv(s.table) && SpansOk(c, s.table, s.spans)
    && forall m :: m in s.net ==> MessageOk(c, s, m)
  }

  // --- steps of the table -----------------------------------------------------

  /** What c's session is said to have sent, it has sent. */
  ghost predicate Warranted(c: ClusterId, net: set<Message>, call: Call) {
    && (call.CallCommit? && call.cluster == c ==> CommitAsk(call.lease, call.through) in net)
    && (call.CallHeartbeat? && call.cluster == c ==> Beat(call.progress) in net)
  }

  /** What one table step does to one lease, so far as its holder is concerned. */
  lemma LeaseStep(c: ClusterId, s: System, call: Call, t': Table, id: LeaseId)
    requires SystemOk(c, s) && Next(s.table, call, t') && Warranted(c, s.net, call)
    requires id in t'.leases && NumberOf(id) <= s.table.lastNumber
    ensures id in s.table.leases
    ensures var l, l' := s.table.leases[id], t'.leases[id];
            && l'.cluster == l.cluster && l'.start == l.start && l'.end <= l.end
            && l.committedEnd <= l'.committedEnd <= l'.progressEnd && l.progressEnd <= l'.progressEnd
            && (l.cluster == c ==>
                  l'.progressEnd <= l.progressEnd
                  || (exists m :: m in s.net && Mentions(m, id) && l'.progressEnd <= MarkOf(m, id)))
  {
    assert Inv(s.table);
    hide *;
    CallMoves(s.table, call, t');
    NextKeeps(s.table, call, t');
    StandStill(t');
    MovedLease(c, s, call, t', id);
  }

  lemma MovedLease(c: ClusterId, s: System, call: Call, t': Table, id: LeaseId)
    requires AllMove(s.table, call, t') && NewIds(s.table, t') && Warranted(c, s.net, call)
    requires id in t'.leases && NumberOf(id) <= s.table.lastNumber && t'.leases[id].committedEnd <= t'.leases[id].progressEnd
    ensures id in s.table.leases
    ensures var l, l' := s.table.leases[id], t'.leases[id];
            && l'.cluster == l.cluster && l'.start == l.start && l'.end <= l.end
            && l.committedEnd <= l'.committedEnd <= l'.progressEnd && l.progressEnd <= l'.progressEnd
            && (l.cluster == c ==>
                  l'.progressEnd <= l.progressEnd
                  || (exists m :: m in s.net && Mentions(m, id) && l'.progressEnd <= MarkOf(m, id)))
  {
    var l, l' := s.table.leases[id], t'.leases[id];
    assert Moves(call, id, l, l');
    if l.cluster == c && l'.progressEnd > l.progressEnd {
      var m := if call.CallCommit? then CommitAsk(call.lease, call.through) else Beat(call.progress);
      assert m in s.net && Mentions(m, id) && l'.progressEnd <= MarkOf(m, id);
    }
  }

  ghost function MarkOf(m: Message, id: LeaseId): int
    requires Mentions(m, id)
  {
    if m.Beat? then m.progress[id] else m.through
  }

  lemma ReportsHold(c: ClusterId, s: System, m: Message, id: LeaseId)
    requires SystemOk(c, s) && m in s.net && Mentions(m, id)
    ensures ReportOk(s.spans, id, MarkOf(m, id))
  {
    assert MessageOk(c, s, m);
  }

  lemma StepSpans(c: ClusterId, s: System, call: Call, t': Table)
    requires SystemOk(c, s) && Next(s.table, call, t') && Warranted(c, s.net, call)
    ensures SpansOk(c, t', s.spans)
  {
    NewNumbers(s.table, call, t');
    forall id | id in s.spans && id in t'.leases ensures t'.leases[id].cluster == c && InStep(s.spans[id], t'.leases[id]) {
      StepSpan(c, s, call, t', id);
    }
    assert SpansOk(c, s.table, s.spans);
  }

  lemma StepSpan(c: ClusterId, s: System, call: Call, t': Table, id: LeaseId)
    requires SystemOk(c, s) && Next(s.table, call, t') && Warranted(c, s.net, call)
    requires id in s.spans && id in t'.leases
    ensures t'.leases[id].cluster == c && InStep(s.spans[id], t'.leases[id])
  {
    assert SpansOk(c, s.table, s.spans);
    hide Next, Warranted, SystemOk, Mentions, MarkOf;
    LeaseStep(c, s, call, t', id);
    if t'.leases[id].progressEnd > s.table.leases[id].progressEnd {
      var m :| m in s.net && Mentions(m, id) && t'.leases[id].progressEnd <= MarkOf(m, id);
      ReportsHold(c, s, m, id);
    }
  }

  lemma NewNumbers(t: Table, call: Call, t': Table)
    requires Inv(t) && Next(t, call, t')
    ensures t.lastNumber <= t'.lastNumber
  {
    CallMoves(t, call, t');
  }

  lemma StepOffer(c: ClusterId, s: System, call: Call, t': Table, granted: seq<Lease>)
    requires SystemOk(c, s) && Next(s.table, call, t') && Warranted(c, s.net, call) && Offer(granted) in s.net
    ensures OfferOk(c, s.(table := t'), granted)
  {
    assert MessageOk(c, s, Offer(granted)) && Inv(s.table);
    hide Next, Warranted, SystemOk, Mentions, MarkOf, Inv, InvPending;
    NewNumbers(s.table, call, t');
    forall l | l in granted && l.id in t'.leases ensures Untouched(c, t'.leases[l.id], l) {
      StepOffered(c, s, call, t', granted, l);
    }
  }

  lemma StepOffered(c: ClusterId, s: System, call: Call, t': Table, granted: seq<Lease>, l: Lease)
    requires SystemOk(c, s) && Next(s.table, call, t') && Warranted(c, s.net, call) && OfferOk(c, s, granted)
    requires l in granted && l.id in t'.leases
    ensures Untouched(c, t'.leases[l.id], l)
  {
    hide Next, Warranted, SystemOk, Mentions, MarkOf;
    LeaseStep(c, s, call, t', l.id);
  }

  lemma StepReply(c: ClusterId, s: System, call: Call, t': Table, views: map<LeaseId, LeaseView>)
    requires SystemOk(c, s) && Next(s.table, call, t') && Warranted(c, s.net, call) && BeatReply(views) in s.net
    ensures MessageOk(c, s.(table := t'), BeatReply(views))
  {
    assert MessageOk(c, s, BeatReply(views)) && Inv(s.table);
    hide Next, Warranted, SystemOk, Mentions, MarkOf, Inv, InvPending;
    NewNumbers(s.table, call, t');
    forall id | id in views && views[id].Held? && id in t'.leases ensures t'.leases[id].end <= views[id].end {
      LeaseStep(c, s, call, t', id);
    }
  }

  lemma TableStep(c: ClusterId, s: System, call: Call, t': Table)
    requires SystemOk(c, s) && Next(s.table, call, t') && Warranted(c, s.net, call)
    ensures SystemOk(c, s.(table := t'))
  {
    assert Inv(s.table);
    hide Inv, InvPending, Next, Warranted, SystemOk, SpansOk, MessageOk;
    NextKeeps(s.table, call, t');
    StepSpans(c, s, call, t');
    var s' := s.(table := t');
    forall m | m in s'.net ensures MessageOk(c, s', m) {
      StepMessage(c, s, call, t', m);
    }
    AllWell(c, s');
  }

  lemma AllWell(c: ClusterId, s: System)
    requires Inv(s.table) && SpansOk(c, s.table, s.spans) && forall m :: m in s.net ==> MessageOk(c, s, m)
    ensures SystemOk(c, s)
  {
    hide Inv, SpansOk, MessageOk;
  }

  lemma StepMessage(c: ClusterId, s: System, call: Call, t': Table, m: Message)
    requires SystemOk(c, s) && Next(s.table, call, t') && Warranted(c, s.net, call) && m in s.net
    ensures MessageOk(c, s.(table := t'), m)
  {
    assert MessageOk(c, s, m) && Inv(s.table);
    hide Inv, InvPending, Next, Warranted, SystemOk, OfferOk;
    NewNumbers(s.table, call, t');
    if m.Offer? { StepOffer(c, s, call, t', m.granted); }
    if m.BeatReply? { StepReply(c, s, call, t', m.views); }
  }

  // --- steps of the session ---------------------------------------------------

  /** Spans may be dropped, consumed further, or cut, but never below what the table still grants. */
  lemma SpansStep(c: ClusterId, s: System, spans: Spans)
    requires SystemOk(c, s) && spans.Keys <= s.spans.Keys
    requires forall id :: id in spans ==>
      && s.spans[id].consumed <= spans[id].consumed <= spans[id].end
      && (id in s.table.leases ==> s.table.leases[id].end <= spans[id].end)
    ensures SystemOk(c, s.(spans := spans))
  {
    hide Inv;
    var s' := s.(spans := spans);
    assert SpansOk(c, s'.table, s'.spans);
    forall m | m in s'.net ensures MessageOk(c, s', m) {
      assert MessageOk(c, s, m);
    }
  }

  /** A message about spans the session holds, or about none. */
  lemma Sent(c: ClusterId, s: System, m: Message)
    requires SystemOk(c, s) && !m.Offer? && MessageOk(c, s, m)
    requires forall id :: Mentions(m, id) ==> id in s.spans
    ensures SystemOk(c, s.(net := s.net + {m}))
  {
    hide Inv;
    var s' := s.(net := s.net + {m});
    forall n | n in s'.net ensures MessageOk(c, s', n) {
      if n in s.net { assert MessageOk(c, s, n); }
    }
  }

  /** The answer to an acquire: leases nobody has heard of yet. */
  lemma Offered(c: ClusterId, s: System, t: Table, granted: seq<Lease>)
    requires SystemOk(c, s) && SystemOk(c, s.(table := t))
    requires JustGranted(c, t, s.table, granted)
    ensures SystemOk(c, s.(net := s.net + {Offer(granted)}))
  {
    hide Inv, SystemOk, OfferOk, Mentions;
    var s' := s.(net := s.net + {Offer(granted)});
    OfferIsFresh(c, s, t, granted);
    forall m | m in s.net ensures MessageOk(c, s', m) {
      OtherStands(c, s, t, granted, m);
    }
    StillOk(c, s, s');
  }

  lemma StillOk(c: ClusterId, s: System, s': System)
    requires SystemOk(c, s) && s'.table == s.table && s'.spans == s.spans && forall m :: m in s'.net ==> MessageOk(c, s', m)
    ensures SystemOk(c, s')
  {
  }

  /** Leases granted a moment ago. */
  ghost predicate JustGranted(c: ClusterId, t: Table, now: Table, granted: seq<Lease>) {
    forall l :: l in granted ==>
      && l.id in now.leases && now.leases[l.id] == l && NumberOf(l.id) > t.lastNumber && l.cluster == c
      && l.committedEnd == l.start == l.progressEnd
  }

  lemma OfferIsFresh(c: ClusterId, s: System, t: Table, granted: seq<Lease>)
    requires SystemOk(c, s) && SystemOk(c, s.(table := t)) && JustGranted(c, t, s.table, granted)
    ensures OfferOk(c, s.(net := s.net + {Offer(granted)}), granted)
  {
    hide Inv, SystemOk;
    forall l | l in granted
      ensures NumberOf(l.id) <= s.table.lastNumber && 0 <= l.start <= l.end && l.id !in s.spans
      ensures forall m :: m in s.net ==> !Mentions(m, l.id)
      ensures forall m :: m in s.net && m.Offer? ==> forall l' :: l' in m.granted ==> l'.id != l.id
    {
      NeverHeardOf(c, s, t, l);
    }
  }

  lemma OtherStands(c: ClusterId, s: System, t: Table, granted: seq<Lease>, m: Message)
    requires SystemOk(c, s) && SystemOk(c, s.(table := t)) && JustGranted(c, t, s.table, granted) && m in s.net
    ensures MessageOk(c, s.(net := s.net + {Offer(granted)}), m)
  {
    assert MessageOk(c, s, m);
    hide Inv, SystemOk, OfferOk;
    if m.Offer? {
      OtherOffer(c, s, t, granted, m);
    }
  }

  lemma OtherOffer(c: ClusterId, s: System, t: Table, granted: seq<Lease>, m: Message)
    requires SystemOk(c, s) && SystemOk(c, s.(table := t)) && JustGranted(c, t, s.table, granted)
    requires m in s.net && m.Offer? && OfferOk(c, s, m.granted)
    ensures OfferOk(c, s.(net := s.net + {Offer(granted)}), m.granted)
  {
    hide Inv, SystemOk, Untouched;
    forall l, l' | l in granted && l' in m.granted ensures l.id != l'.id {
      NeverHeardOf(c, s, t, l);
    }
  }

  lemma NeverHeardOf(c: ClusterId, s: System, t: Table, l: Lease)
    requires SystemOk(c, s) && SystemOk(c, s.(table := t))
    requires l.id in s.table.leases && s.table.leases[l.id] == l && NumberOf(l.id) > t.lastNumber
    ensures NumberOf(l.id) <= s.table.lastNumber && 0 <= l.start <= l.end && l.id !in s.spans
    ensures forall m :: m in s.net ==> !Mentions(m, l.id)
    ensures forall m :: m in s.net && m.Offer? ==> forall l' :: l' in m.granted ==> l'.id != l.id
  {
    assert LeaseOk(s.table.leases[l.id], l.id, s.table.epoch, |s.table.state|, s.table.clusters.Keys, s.table.lastNumber);
    hide Inv, InvPending;
    forall m | m in s.net ensures !Mentions(m, l.id) && (m.Offer? ==> forall l' :: l' in m.granted ==> l'.id != l.id) {
      assert MessageOk(c, s.(table := t), m);
    }
  }

  lemma AdoptStep(c: ClusterId, s: System, granted: seq<Lease>)
    requires SystemOk(c, s) && Offer(granted) in s.net
    ensures SystemOk(c, s.(spans := Adopted(s.spans, granted), net := s.net - {Offer(granted)}))
  {
    var s' := s.(spans := Adopted(s.spans, granted), net := s.net - {Offer(granted)});
    assert OfferOk(c, s, granted) by { assert MessageOk(c, s, Offer(granted)); }
    AdoptedShape(s.spans, granted);
    AdoptedOk(c, s, granted);
    hide Inv, Adopted;
    forall m | m in s'.net ensures MessageOk(c, s', m) {
      assert MessageOk(c, s, m);
      NewReports(c, s, granted, m);
    }
  }

  lemma AdoptedOk(c: ClusterId, s: System, granted: seq<Lease>)
    requires SystemOk(c, s) && OfferOk(c, s, granted)
    ensures SpansOk(c, s.table, Adopted(s.spans, granted))
  {
    AdoptedShape(s.spans, granted);
    hide Inv, Adopted;
    var spans := Adopted(s.spans, granted);
    assert SpansOk(c, s.table, s.spans);
    forall id | id in spans
      ensures NumberOf(id) <= s.table.lastNumber && spans[id].consumed <= spans[id].end
      ensures id in s.table.leases ==> s.table.leases[id].cluster == c && InStep(spans[id], s.table.leases[id])
    {
      if exists l :: l in granted && l.id == id && spans[id] == NewSpan(l) {
        var l :| l in granted && l.id == id && spans[id] == NewSpan(l);
      }
    }
  }

  lemma NewReports(c: ClusterId, s: System, granted: seq<Lease>, m: Message)
    requires SystemOk(c, s) && Offer(granted) in s.net && m in s.net && m != Offer(granted)
    ensures MessageOk(c, s.(spans := Adopted(s.spans, granted), net := s.net - {Offer(granted)}), m)
  {
    assert MessageOk(c, s, m) && MessageOk(c, s, Offer(granted));
    AdoptedShape(s.spans, granted);
    hide Inv, SystemOk, Adopted;
    forall id | Mentions(m, id) ensures forall l :: l in granted ==> l.id != id {
    }
  }

  // --- every step keeps the promise -------------------------------------------

  lemma StepKeeps(c: ClusterId, s: System, step: Step, s': System)
    requires SystemOk(c, s) && StepOk(c, s, step, s')
    ensures SystemOk(c, s')
  {
    hide Inv, Next, SystemOk, Acquires, Commit, Applied, CommitHeard, NoteConsumed, Adopted, Progress, CommitRequest;
    match step
    case Elsewhere(call) => TableStep(c, s, call, s'.table);
    case ServeAcquire(a) => ServeAcquireKeeps(c, s, a, s');
    case Adopt(granted) => AdoptStep(c, s, granted);
    case Consume(id, through) => ConsumeKeeps(c, s, id, through);
    case SendBeat => SendBeatKeeps(c, s);
    case ServeBeat(progress, macroStep, rtt, ttl, now) => ServeBeatKeeps(c, s, progress, macroStep, rtt, ttl, now, s');
    case HearBeat(views) => HearBeatKeeps(c, s, views);
    case SendCommit(id, upTo) =>
      if CommitRequest(s.spans, id, upTo).Some? { SendCommitKeeps(c, s, id, upTo); }
    case ServeCommit(id, through, now) =>
      TableStep(c, s, CallCommit(c, id, through, now), s'.table);
      Sent(c, s.(table := s'.table), CommitReplied(id, through, OutcomeOf(Commit(s.table, c, id, through, now), id)));
    case HearCommit(id, through, outcome) => HearCommitKeeps(c, s, id, through, outcome);
    case SendRelease(counted) => Sent(c, s, ReleaseAsk(counted));
    case ServeRelease(counted, incarnation) =>
      TableStep(c, s, CallRelease(c, None, incarnation, counted), s'.table);
      Sent(c, s.(table := s'.table), ReleaseReplied);
    case HearRelease => SpansStep(c, s, map[]);
  }

  lemma ConsumeKeeps(c: ClusterId, s: System, id: LeaseId, through: int)
    requires SystemOk(c, s)
    ensures SystemOk(c, s.(spans := NoteConsumed(s.spans, id, through)))
  {
    assert SpansOk(c, s.table, s.spans);
    hide Inv, MessageOk;
    SpansStep(c, s, NoteConsumed(s.spans, id, through));
  }

  lemma SendBeatKeeps(c: ClusterId, s: System)
    requires SystemOk(c, s)
    ensures SystemOk(c, s.(net := s.net + {Beat(Progress(s.spans))}))
  {
    assert SpansOk(c, s.table, s.spans);
    hide Inv, SystemOk;
    Sent(c, s, Beat(Progress(s.spans)));
  }

  lemma SendCommitKeeps(c: ClusterId, s: System, id: LeaseId, upTo: Option<int>)
    requires SystemOk(c, s) && Honest(s.spans, id, upTo) && CommitRequest(s.spans, id, upTo).Some?
    ensures SystemOk(c, s.(net := s.net + {CommitAsk(id, CommitRequest(s.spans, id, upTo).value)}))
  {
    assert SpansOk(c, s.table, s.spans);
    hide Inv, SystemOk;
    Sent(c, s, CommitAsk(id, CommitRequest(s.spans, id, upTo).value));
  }

  lemma HearCommitKeeps(c: ClusterId, s: System, id: LeaseId, through: int, outcome: CommitOutcome)
    requires SystemOk(c, s)
    ensures SystemOk(c, s.(spans := CommitHeard(s.spans, id, through, outcome)))
  {
    assert SpansOk(c, s.table, s.spans);
    hide Inv, SystemOk;
    SpansStep(c, s, CommitHeard(s.spans, id, through, outcome));
  }

  lemma ServeAcquireKeeps(c: ClusterId, s: System, a: AcquireCall, s': System)
    requires SystemOk(c, s) && StepOk(c, s, ServeAcquire(a), s')
    ensures SystemOk(c, s')
  {
    hide Acquires, SystemOk;
    var g :| Acquires(s.table, a, g, s'.table) && s' == s.(table := s'.table, net := s.net + {Offer(g.leases)});
    assert a.cluster == c;
    hide StepOk;
    AcquireIsNext(s.table, a, g, s'.table);
    TableStep(c, s, CallAcquire(a), s'.table);
    assert Inv(s.table) by { SystemIsSound(c, s); }
    AcquireMoves(s.table, a, g, s'.table);
    Offered(c, s.(table := s'.table), s.table, g.leases);
  }

  lemma AcquireIsNext(t: Table, a: AcquireCall, g: Grant, t': Table)
    requires Acquires(t, a, g, t')
    ensures Next(t, CallAcquire(a), t')
  {
    hide Acquires;
  }

  lemma SystemIsSound(c: ClusterId, s: System)
    requires SystemOk(c, s)
    ensures Inv(s.table)
  {
  }

  lemma ServeBeatKeeps(c: ClusterId, s: System, progress: map<LeaseId, int>, macroStep: real, rtt: real, ttl: real, now: real,
                       s': System)
    requires SystemOk(c, s) && StepOk(c, s, ServeBeat(progress, macroStep, rtt, ttl, now), s')
    ensures SystemOk(c, s')
  {
    hide Next, Inv, SystemOk;
    TableStep(c, s, CallHeartbeat(c, progress, macroStep, rtt, ttl, now), s'.table);
    SystemNumbers(c, s.(table := s'.table));
    Sent(c, s.(table := s'.table), BeatReply(Views(s'.table.leases, s'.table.epoch, c, progress.Keys)));
  }

  lemma SystemNumbers(c: ClusterId, s: System)
    requires SystemOk(c, s)
    ensures forall id :: id in s.table.leases ==> NumberOf(id) <= s.table.lastNumber
  {
    NumbersIssued(s.table);
  }

  lemma HearBeatKeeps(c: ClusterId, s: System, views: map<LeaseId, LeaseView>)
    requires SystemOk(c, s) && BeatReply(views) in s.net
    ensures SystemOk(c, s.(spans := Applied(s.spans, views, views.Keys)))
  {
    assert MessageOk(c, s, BeatReply(views)) && SpansOk(c, s.table, s.spans);
    hide Inv;
    SpansStep(c, s, Applied(s.spans, views, views.Keys));
  }

  // --- whole runs -------------------------------------------------------------

  ghost predicate IsSystemRun(c: ClusterId, trace: seq<System>, steps: seq<Step>) {
    && |trace| == |steps| + 1
    && forall i :: 0 <= i < |steps| ==> StepOk(c, trace[i], steps[i], trace[i + 1])
  }

  /** Acknowledged progress is never stolen: whatever messages are lost, repeated or late, and
      whatever the other clusters and the clock do, for every span the session holds the coordinator
      has committed no more than was consumed, knows of no more progress than was made, and has not
      extended the lease past the span. */
  lemma {:induction false} AlwaysInStep(c: ClusterId, trace: seq<System>, steps: seq<Step>, k: nat, id: LeaseId)
    requires IsSystemRun(c, trace, steps) && k < |trace|
    requires Inv(trace[0].table) && trace[0].spans == map[] && trace[0].net == {}
    ensures SystemOk(c, trace[k])
    ensures id in trace[k].spans && id in trace[k].table.leases ==>
      var sp, l := trace[k].spans[id], trace[k].table.leases[id];
      l.cluster == c && l.committedEnd <= l.progressEnd <= sp.consumed <= sp.end && l.end <= sp.end
  {
    hide *;
    if k == 0 {
      StartsInStep(c, trace[0]);
    } else {
      AlwaysInStep(c, trace, steps, k - 1, id);
      StepAt(c, trace, steps, k - 1);
      StepKeeps(c, trace[k - 1], steps[k - 1], trace[k]);
    }
    PromiseKept(c, trace[k], id);
  }

  lemma StartsInStep(c: ClusterId, s: System)
    requires Inv(s.table) && s.spans == map[] && s.net == {}
    ensures SystemOk(c, s)
  {
    hide Inv, InvPending;
  }

  lemma StepAt(c: ClusterId, trace: seq<System>, steps: seq<Step>, i: nat)
    requires IsSystemRun(c, trace, steps) && i + 1 < |trace|
    ensures i < |steps| && StepOk(c, trace[i], steps[i], trace[i + 1])
  {
    hide StepOk;
  }

  lemma PromiseKept(c: ClusterId, s: System, id: LeaseId)
    requires SystemOk(c, s)
    ensures id in s.spans && id in s.table.leases ==>
      var sp, l := s.spans[id], s.table.leases[id];
      l.cluster == c && l.committedEnd <= l.progressEnd <= sp.consumed <= sp.end && l.end <= sp.end
  {
    hide Inv, InvPending;
  }
}
