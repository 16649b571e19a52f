/** The lease table as a value: what each call of the protocol does to it. */
module LeaseModel {
  import opened Wrappers
  import opened Arithmetic
  import opened Intervals

  type ClusterId = string

  datatype BlockState = Unassigned | Leased | Committed | Quarantined

  /** A lease id is e<epoch>-b<start>-<number>; `number` of any other text is what comes after its
      last dash, or 0 if that is no number. */
  datatype LeaseId = Issued(epoch: int, start: int, number: int) | Foreign(text: string, number: int)

  datatype Lease = Lease(
    id: LeaseId,
    cluster: ClusterId,
    epoch: int,
    start: int,
    end: int,
    committedEnd: int,
    progressEnd: int,
    grantedAt: real,
    deadline: real,
    ttl: real)

  datatype ClusterRecord = ClusterRecord(
    joinedAt: real,
    lastSeen: real,
    ranks: int,
    blocksCommitted: int,
    macroStep: real,
    rtt: real,
    rate: real,
    cursor: int,
    incarnation: string,
    incarnations: int,
    lastCommitAt: real)

  datatype Config = Config(
    numBlocks: int,
    digest: string,
    maxEpochs: int,
    maxAttempts: int,
    minBlocks: int,
    maxBlocks: int,
    firstGrantFraction: real,
    allowStealing: bool,
    stealMinBlocks: int,
    minTtl: real)

  /** The free pool is not a field: it is the set of Unassigned positions. */
  datatype Table = Table(
    cfg: Config,
    epoch: int,
    epochsCompleted: int,
    state: seq<BlockState>,
    attempts: map<int, int>,
    committed: int,
    quarantined: int,
    leases: map<LeaseId, Lease>,
    clusters: map<ClusterId, ClusterRecord>,
    lastNumber: int)

  datatype GrantStatus = Granted | Drain | EpochComplete
  datatype Grant = Grant(status: GrantStatus, epoch: int, leases: seq<Lease>)


  datatype Refusal = DigestMismatch | ClusterBusy | LeaseGone | NotOwner

  const TTL_ALPHA: real := 2.5
  const TTL_BETA: real := 10.0
  const MIN_TTL: real := 30.0
  const MAX_TTL: real := 21600.0

  // --- positions --------------------------------------------------------------

  ghost function Where(s: seq<BlockState>, v: BlockState): (r: set<int>)
  {
    set p | 0 <= p < |s| && s[p] == v
  }

  ghost function FreeBlocks(s: seq<BlockState>): set<int> {
    Where(s, Unassigned)
  }

  ghost function Filled(s: seq<BlockState>, lo: int, hi: int, v: BlockState): (r: seq<BlockState>)
  {
    seq(|s|, p requires 0 <= p < |s| => if lo <= p < hi then v else s[p])
  }

  /** The at-risk part of a lease: granted and not yet committed. */
  predicate Holds(l: Lease, p: int) {
    l.committedEnd <= p < l.end
  }

  ghost predicate Covered(leases: map<LeaseId, Lease>, p: int) {
    exists id :: id in leases && Holds(leases[id], p)
  }

  function AttemptsOf(attempts: map<int, int>, p: int): int {
    if p in attempts then attempts[p] else 0
  }

  /** Whether this many failed attempts put a block in quarantine. */
  predicate Exhausted(cfg: Config, attempts: int) {
    cfg.maxAttempts != 0 && attempts >= cfg.maxAttempts
  }

  predicate EpochDone(t: Table) {
    t.committed + t.quarantined >= t.cfg.numBlocks
  }

  // --- registration -----------------------------------------------------------

  /** Plausibly still running: holding work, or heard from within its window. */
  predicate IsLive(cfg: Config, leases: map<LeaseId, Lease>, r: ClusterRecord, c: ClusterId, now: real) {
    (exists id :: id in leases && leases[id].cluster == c)
    || now - r.lastSeen < MaxReal(cfg.minTtl, r.rtt * TTL_BETA)
  }

  function NewRecord(now: real): ClusterRecord {
    ClusterRecord(now, now, 0, 0, 0.0, 0.0, 0.0, 0, "", 0, 0.0)
  }

  function RecordOf(t: Table, c: ClusterId, now: real): ClusterRecord {
    if c in t.clusters then t.clusters[c] else NewRecord(now)
  }

  /** What an accepted register leaves in the record. */
  function Announced(r: ClusterRecord, ranks: int, incarnation: string, now: real): ClusterRecord {
    var r1 := if incarnation != "" && incarnation != r.incarnation
              then r.(incarnation := incarnation, incarnations := r.incarnations + 1) else r;
    var r2 := r1.(lastSeen := now);
    if ranks != 0 then r2.(ranks := ranks) else r2
  }

  predicate Conflicting(t: Table, c: ClusterId, incarnation: string, now: real) {
    && c in t.clusters
    && incarnation != "" && t.clusters[c].incarnation != "" && incarnation != t.clusters[c].incarnation
    && IsLive(t.cfg, t.leases, t.clusters[c], c, now)
  }

  ghost function Register(t: Table, c: ClusterId, digest: string, ranks: int, incarnation: string,
                          checkConflict: bool, now: real): Result<Table, Refusal>
  {
    if digest != "" && t.cfg.digest != "" && digest != t.cfg.digest then Err(DigestMismatch)
    else if checkConflict && Conflicting(t, c, incarnation, now) then Err(ClusterBusy)
    else Ok(t.(clusters := t.clusters[c := Announced(RecordOf(t, c, now), ranks, incarnation, now)]))
  }

  /** The register every acquire and heartbeat begins with, and the timings they report. */
  function Touched(t: Table, c: ClusterId, macroStep: real, rtt: real, now: real): Table {
    var r := RecordOf(t, c, now).(lastSeen := now);
    var r1 := if macroStep != 0.0 then r.(macroStep := macroStep) else r;
    var r2 := if rtt != 0.0 then r1.(rtt := rtt) else r1;
    t.(clusters := t.clusters[c := r2])
  }

  // --- reclaiming -------------------------------------------------------------

  ghost predicate CoveredBy(leases: map<LeaseId, Lease>, ids: set<LeaseId>, p: int) {
    exists id :: id in ids && id in leases && Holds(leases[id], p)
  }

  ghost function HeldBlocks(t: Table, ids: set<LeaseId>): (r: set<int>)
  {
    set p | 0 <= p < |t.state| && CoveredBy(t.leases, ids, p)
  }

  ghost function Poisoned(cfg: Config, attempts: map<int, int>, hit: set<int>): (r: set<int>)
  {
    set p | p in hit && Exhausted(cfg, AttemptsOf(attempts, p) + 1)
  }

  ghost function Returned(s: seq<BlockState>, hit: set<int>, poisoned: set<int>): (r: seq<BlockState>)
  {
    seq(|s|, p requires 0 <= p < |s| =>
      if p in poisoned then Quarantined else if p in hit then Unassigned else s[p])
  }

  ghost function Blamed(attempts: map<int, int>, hit: set<int>): (r: map<int, int>)
  {
    map p | p in attempts.Keys + hit :: AttemptsOf(attempts, p) + if p in hit then 1 else 0
  }

  /** Several leases given up at once: their uncommitted blocks go back to the pool, or to
      quarantine when a counted attempt exhausts them. */
  ghost function Reclaim(t: Table, ids: set<LeaseId>, counted: bool): (r: Table) {
    var hit := HeldBlocks(t, ids);
    var poisoned := if counted then Poisoned(t.cfg, t.attempts, hit) else {};
    t.(state := Returned(t.state, hit, poisoned),
       attempts := if counted then Blamed(t.attempts, hit) else t.attempts,
       quarantined := t.quarantined + |poisoned|,
       leases := t.leases - ids)
  }

  ghost function Expired(t: Table, now: real): (r: set<LeaseId>)
  {
    set id | id in t.leases && t.leases[id].deadline < now
  }

  ghost function Reap(t: Table, now: real): Table {
    Reclaim(t, Expired(t, now), true)
  }

  ghost function LeasesOf(t: Table, c: ClusterId): (r: set<LeaseId>)
  {
    set id | id in t.leases && t.leases[id].cluster == c
  }

  /** A release-everything by a process that no longer holds the cluster id. */
  predicate ReleaseRefused(t: Table, c: ClusterId, lease: Option<LeaseId>, incarnation: string) {
    && lease.None? && incarnation != ""
    && c in t.clusters && t.clusters[c].incarnation != "" && incarnation != t.clusters[c].incarnation
  }

  ghost function ReleaseTargets(t: Table, c: ClusterId, lease: Option<LeaseId>, incarnation: string): set<LeaseId> {
    if ReleaseRefused(t, c, lease, incarnation) then {}
    else if lease.Some? then LeasesOf(t, c) * {lease.value}
    else LeasesOf(t, c)
  }

  ghost function Release(t: Table, c: ClusterId, lease: Option<LeaseId>, incarnation: string, counted: bool): Table {
    Reclaim(t, ReleaseTargets(t, c, lease, incarnation), counted)
  }

  // --- committing -------------------------------------------------------------

  function ClampThrough(l: Lease, through: int): int {
    Min(Max(through, l.committedEnd), l.end)
  }

  /** Throughput after committing `newly` blocks: an exponential average. */
  function Credited(r: ClusterRecord, newly: int, now: real): ClusterRecord {
    var r1 := r.(blocksCommitted := r.blocksCommitted + newly, lastSeen := now);
    var r2 :=
      if r.lastCommitAt != 0.0 then
        var pace := newly as real / MaxReal(0.000001, now - r.lastCommitAt);
        r1.(rate := if r.rate <= 0.0 then pace else 0.7 * r.rate + 0.3 * pace)
      else r1;
    r2.(lastCommitAt := now)
  }

  ghost function Commit(t: Table, c: ClusterId, id: LeaseId, through: int, now: real): Result<Table, Refusal> {
    if id !in t.leases then Err(LeaseGone)
    else if t.leases[id].cluster != c then Err(NotOwner)
    else
      var l := t.leases[id];
      var to := ClampThrough(l, through);
      var newly := to - l.committedEnd;
      var l' := if newly != 0 then l.(committedEnd := to, progressEnd := Max(l.progressEnd, to)) else l;
      Ok(t.(state := Filled(t.state, l.committedEnd, to, Committed),
            committed := t.committed + newly,
            leases := if l'.committedEnd >= l'.end then t.leases - {id} else t.leases[id := l'],
            clusters := if newly != 0 && c in t.clusters
                        then t.clusters[c := Credited(t.clusters[c], newly, now)] else t.clusters))
  }

  datatype CommitReply = CommitReply(epoch: int, committedEnd: int, closed: bool, committed: int, epochComplete: bool)

  ghost function ReplyTo(t: Table, id: LeaseId, through: int, t': Table): CommitReply
    requires id in t.leases
  {
    CommitReply(t.epoch, ClampThrough(t.leases[id], through), id !in t'.leases, t'.committed, EpochDone(t'))
  }

  // --- heartbeats -------------------------------------------------------------

  function ComputeTtl(macroStep: real, rtt: real): real {
    MinReal(MAX_TTL, MaxReal(MIN_TTL, TTL_ALPHA * MaxReal(0.0, macroStep) + TTL_BETA * MaxReal(0.0, rtt)))
  }

  function GrantedTtl(cfg: Config, r: ClusterRecord, ttl: real): real {
    MinReal(MAX_TTL, MaxReal(cfg.minTtl, if ttl != 0.0 then ttl else ComputeTtl(r.macroStep, r.rtt)))
  }

  function Renewed(l: Lease, watermark: int, ttl: real, now: real): Lease {
    l.(progressEnd := Max(l.progressEnd, Min(watermark, l.end)), deadline := now + ttl, ttl := ttl)
  }

  ghost function RenewedLeases(leases: map<LeaseId, Lease>, c: ClusterId, epoch: int, progress: map<LeaseId, int>,
                               ids: set<LeaseId>, ttl: real, now: real): map<LeaseId, Lease>
    requires ids <= progress.Keys
  {
    map id | id in leases ::
      if id in ids && leases[id].cluster == c && leases[id].epoch == epoch
      then Renewed(leases[id], progress[id], ttl, now) else leases[id]
  }

  ghost function Renew(t: Table, c: ClusterId, progress: map<LeaseId, int>, ttl: real, now: real): Table {
    t.(leases := RenewedLeases(t.leases, c, t.epoch, progress, progress.Keys, ttl, now))
  }

  ghost function Heartbeat(t: Table, c: ClusterId, progress: map<LeaseId, int>, macroStep: real, rtt: real,
                           ttl: real, now: real): Table
  {
    var t1 := Touched(Reap(t, now), c, macroStep, rtt, now);
    Renew(t1, c, progress, GrantedTtl(t1.cfg, t1.clusters[c], ttl), now)
  }

  /** What the reply says of one lease: its end if the asker still holds it. */
  datatype LeaseView = Held(end: int, committedEnd: int) | Lost

  function View(leases: map<LeaseId, Lease>, epoch: int, c: ClusterId, id: LeaseId): LeaseView {
    if id in leases && leases[id].cluster == c && leases[id].epoch == epoch
    then Held(leases[id].end, leases[id].committedEnd) else Lost
  }

  ghost function Views(leases: map<LeaseId, Lease>, epoch: int, c: ClusterId, ids: set<LeaseId>): map<LeaseId, LeaseView> {
    map id | id in ids :: View(leases, epoch, c, id)
  }

  // --- epochs -----------------------------------------------------------------

  predicate CanAdvance(t: Table) {
    t.epoch + 1 < t.cfg.maxEpochs
  }

  function Rewound(clusters: map<ClusterId, ClusterRecord>): map<ClusterId, ClusterRecord> {
    map c | c in clusters :: clusters[c].(cursor := 0)
  }

  function NewTable(cfg: Config, epoch: int): Table
    requires cfg.numBlocks >= 0
  {
    Table(cfg, epoch, 0, seq(cfg.numBlocks, _ => Unassigned), map[], 0, 0, map[], map[], 0)
  }

  ghost function Advance(t: Table): Table {
    if !CanAdvance(t) then t
    else t.(epoch := t.epoch + 1, epochsCompleted := t.epochsCompleted + 1,
            state := seq(|t.state|, _ => Unassigned), attempts := map[],
            committed := 0, quarantined := 0, leases := map[], clusters := Rewound(t.clusters))
  }

  // --- sizing a grant ---------------------------------------------------------

  function ActiveClusters(cfg: Config, leases: map<LeaseId, Lease>, clusters: map<ClusterId, ClusterRecord>,
                          clock: real): (r: set<ClusterId>)
  {
    var live := set c | c in clusters && IsLive(cfg, leases, clusters[c], c, clock);
    if live != {} then live else clusters.Keys
  }

  function RateOf(clusters: map<ClusterId, ClusterRecord>, c: ClusterId): real
    requires c in clusters
  {
    MaxReal(clusters[c].rate, 0.000001)
  }

  ghost function SumRates(clusters: map<ClusterId, ClusterRecord>, cs: set<ClusterId>): (r: real)
    requires cs <= clusters.Keys
    ensures r >= 0.0 && (cs != {} ==> r > 0.0)
  {
    if cs == {} then 0.0
    else var c :| c in cs; RateOf(clusters, c) + SumRates(clusters, cs - {c})
  }

  /** Part of a whole number of blocks, in whole blocks. */
  function Scaled(blocks: int, numerator: real, denominator: real): int
    requires denominator != 0.0
  {
    Trunc(blocks as real * numerator / denominator)
  }

  /** The request after the first-grant halving and the absolute ceiling. */
  function Capped(cfg: Config, r: ClusterRecord, requested: int): int {
    var floor := Max(cfg.minBlocks, requested);
    var sized := if r.blocksCommitted == 0
                 then Max(cfg.minBlocks, Scaled(floor, cfg.firstGrantFraction, 1.0)) else floor;
    Min(sized, cfg.maxBlocks)
  }

  /** The rate-proportional slice of what is free. */
  ghost function FairShare(t: Table, c: ClusterId, free: int, active: set<ClusterId>): int
    requires c in t.clusters && active <= t.clusters.Keys && active != {}
  {
    var rate := if c in active then RateOf(t.clusters, c) else 0.000001;
    Scaled(free, rate, SumRates(t.clusters, active))
  }

  ghost function GrantSize(t: Table, c: ClusterId, requested: int, clock: real): int
    requires c in t.clusters
  {
    var capped := Capped(t.cfg, t.clusters[c], requested);
    var free := |FreeBlocks(t.state)|;
    var active := ActiveClusters(t.cfg, t.leases, t.clusters, clock);
    if free != 0 && capped > free / Max(1, |active|)
    then Max(t.cfg.minBlocks, Min(capped, Max(FairShare(t, c, free, active), t.cfg.minBlocks)))
    else capped
  }

  // --- stealing ---------------------------------------------------------------

  /** First position of a lease its holder has neither started nor committed. */
  function Unstarted(l: Lease): int {
    Max(l.progressEnd, l.committedEnd)
  }

  function Stealable(l: Lease): int {
    l.end - Unstarted(l)
  }

  predicate Candidate(cfg: Config, leases: map<LeaseId, Lease>, thief: ClusterId, id: LeaseId) {
    && id in leases
    && leases[id].cluster != thief
    && Stealable(leases[id]) >= cfg.stealMinBlocks * 2
  }

  function Pace(clusters: map<ClusterId, ClusterRecord>, c: ClusterId): (r: real)
    ensures r > 0.0
  {
    if c in clusters && clusters[c].rate > 0.0 then clusters[c].rate else 0.000000001
  }

  /** Estimated time for the holder to finish what it holds. */
  function Eta(clusters: map<ClusterId, ClusterRecord>, l: Lease): real {
    (l.end - l.committedEnd) as real / Pace(clusters, l.cluster)
  }

  /** Robbed first: the later finish, ties broken by how much can be taken. */
  predicate Slower(clusters: map<ClusterId, ClusterRecord>, a: Lease, b: Lease) {
    Eta(clusters, a) > Eta(clusters, b) || (Eta(clusters, a) == Eta(clusters, b) && Stealable(a) > Stealable(b))
  }

  /** How much is taken from one victim when `left` more blocks are wanted: half of its
      unstarted tail at most. */
  function StealAmount(cfg: Config, l: Lease, left: int): int {
    Min(left, Max(cfg.stealMinBlocks, Stealable(l) / 2))
  }

  /** The slowest candidates, in order; a candidate is passed over only behind them. */
  ghost predicate SlowestFirst(t: Table, thief: ClusterId, victims: seq<LeaseId>) {
    && (forall i, j :: 0 <= i < j < |victims| ==> victims[i] != victims[j])
    && (forall i :: 0 <= i < |victims| ==> Candidate(t.cfg, t.leases, thief, victims[i]))
    && (forall i, j :: 0 <= i < j < |victims| ==> !Slower(t.clusters, t.leases[victims[j]], t.leases[victims[i]]))
    && (forall id, i :: Candidate(t.cfg, t.leases, thief, id) && id !in victims && 0 <= i < |victims| ==>
          !Slower(t.clusters, t.leases[id], t.leases[victims[i]]))
  }

  /** Each victim's span is its amount, off the far end. */
  ghost predicate Amounts(t: Table, want: int, victims: seq<LeaseId>, spans: seq<Interval>) {
    && |victims| == |spans|
    && (forall i :: 0 <= i < |victims| ==> victims[i] in t.leases)
    && (forall i :: 0 <= i < |victims| ==>
          var l := t.leases[victims[i]];
          var amount := StealAmount(t.cfg, l, want - SpanTotal(spans[..i]));
          amount >= t.cfg.stealMinBlocks && spans[i] == Interval(l.end - amount, l.end))
  }

  ghost predicate CutShort(leases: map<LeaseId, Lease>, leases': map<LeaseId, Lease>, victims: seq<LeaseId>,
                           spans: seq<Interval>)
  {
    && |victims| == |spans| && leases'.Keys == leases.Keys
    && (forall id :: id in leases && id !in victims ==> leases'[id] == leases[id])
    && (forall i :: 0 <= i < |victims| ==>
          victims[i] in leases && leases'[victims[i]] == leases[victims[i]].(end := spans[i].lo))
  }

  /** A steal takes from the slowest until the request is met or what is still wanted is
      below the minimum steal. */
  ghost predicate StoleFrom(t: Table, thief: ClusterId, want: int, victims: seq<LeaseId>,
                            spans: seq<Interval>, t': Table)
  {
    && SlowestFirst(t, thief, victims)
    && Amounts(t, want, victims, spans)
    && ((exists id :: Candidate(t.cfg, t.leases, thief, id) && id !in victims) ==>
          want - SpanTotal(spans) < t.cfg.stealMinBlocks)
    && t' == t.(leases := t'.leases) && CutShort(t.leases, t'.leases, victims, spans)
  }

  ghost predicate Stole(t: Table, thief: ClusterId, want: int, spans: seq<Interval>, t': Table) {
    exists victims :: StoleFrom(t, thief, want, victims, spans, t')
  }

  // --- acquiring --------------------------------------------------------------

  /** The spans an acquire settles on: from the pool if it gives any, else by stealing. */
  ghost predicate Allots(t: Table, c: ClusterId, want: int, maxSpans: int, spans: seq<Interval>, t': Table)
    requires c in t.clusters
  {
    var pool := FreeBlocks(t.state);
    if pool == {} || want <= 0 || maxSpans <= 0 then
      if t.cfg.allowStealing then Stole(t, c, want, spans, t') else spans == [] && t' == t
    else
      TakenNear(pool, t.clusters[c].cursor, want, maxSpans, spans) && t' == t
  }

  function NewLease(t: Table, c: ClusterId, s: Interval, number: int, ttl: real, now: real): Lease {
    Lease(Issued(t.epoch, s.lo, number), c, t.epoch, s.lo, s.hi, s.lo, s.lo, now, now + ttl, ttl)
  }

  /** A new lease takes its positions. */
  ghost function Leasing(t: Table, l: Lease, lastNumber: int): Table {
    t.(state := Filled(t.state, l.start, l.end, Leased), leases := t.leases[l.id := l], lastNumber := lastNumber)
  }

  ghost function WithCursor(t: Table, c: ClusterId, cursor: int): (r: Table)
    requires c in t.clusters
    ensures r.clusters.Keys == t.clusters.Keys
  {
    t.(clusters := t.clusters[c := t.clusters[c].(cursor := cursor)])
  }

  ghost function InstallOne(t: Table, c: ClusterId, s: Interval, ttl: real, now: real): Table
    requires c in t.clusters && t.cfg.numBlocks != 0
  {
    WithCursor(Leasing(t, NewLease(t, c, s, t.lastNumber + 1, ttl, now), t.lastNumber + 1), c,
               s.hi % t.cfg.numBlocks)
  }

  ghost function Install(t: Table, c: ClusterId, spans: seq<Interval>, ttl: real, now: real): (r: Table)
    requires c in t.clusters && t.cfg.numBlocks != 0
    ensures c in r.clusters && r.cfg == t.cfg && r.epoch == t.epoch
    ensures r.lastNumber == t.lastNumber + |spans|
  {
    if spans == [] then t
    else InstallOne(Install(t, c, spans[..|spans| - 1], ttl, now), c, spans[|spans| - 1], ttl, now)
  }

  /** The leases a grant reports, numbered in order. */
  function NewLeases(t: Table, c: ClusterId, spans: seq<Interval>, ttl: real, now: real): seq<Lease> {
    seq(|spans|, i requires 0 <= i < |spans| => NewLease(t, c, spans[i], t.lastNumber + 1 + i, ttl, now))
  }

  datatype AcquireCall = AcquireCall(
    cluster: ClusterId, blocks: int, ttl: real, maxSpans: int, macroStep: real, rtt: real, now: real, clock: real)

  ghost function Prepared(t: Table, a: AcquireCall): (r: Table)
    ensures a.cluster in r.clusters && r.cfg == t.cfg
  {
    Touched(Reap(t, a.now), a.cluster, a.macroStep, a.rtt, a.now)
  }

  /** A finished epoch with nothing held rolls over before the request is served. */
  predicate Finished(t: Table) {
    EpochDone(t) && t.leases == map[]
  }

  ghost function Rolled(t: Table): (r: Table)
    ensures r.clusters.Keys == t.clusters.Keys && r.cfg == t.cfg
  {
    if Finished(t) then Advance(t) else t
  }

  ghost predicate Serves(t: Table, a: AcquireCall, spans: seq<Interval>, t1: Table, g: Grant, t': Table)
    requires a.cluster in t.clusters && t.cfg.numBlocks != 0
  {
    && Allots(t, a.cluster, GrantSize(t, a.cluster, a.blocks, a.clock), a.maxSpans, spans, t1)
    && t1.cfg == t.cfg && a.cluster in t1.clusters
    && if spans == [] then
         t' == t1 && g == Grant(if t.leases != map[] then Drain else EpochComplete, t.epoch, [])
       else
         var ttl := GrantedTtl(t.cfg, t.clusters[a.cluster], a.ttl);
         && t' == Install(t1, a.cluster, spans, ttl, a.now)
         && g == Grant(Granted, t.epoch, NewLeases(t1, a.cluster, spans, ttl, a.now))
  }

  /** The answer once expired leases are gone and the asker is on record. */
  ghost predicate AcquiresReady(t: Table, a: AcquireCall, g: Grant, t': Table) {
    && t.cfg.numBlocks != 0 && a.cluster in t.clusters
    && if Finished(t) && !CanAdvance(t) then t' == t && g == Grant(EpochComplete, t.epoch, [])
       else exists spans, t1 :: Serves(Rolled(t), a, spans, t1, g, t')
  }

  ghost predicate Acquires(t: Table, a: AcquireCall, g: Grant, t': Table) {
    AcquiresReady(Prepared(t, a), a, g, t')
  }

  // --- replaying a recorded grant ---------------------------------------------

  /** Where a scan of [from, end) finds its first Unassigned position. */
  function FirstFree(s: seq<BlockState>, from: int, end: int): (lo: int)
    requires 0 <= from && end <= |s|
    ensures from <= lo && (lo <= end || lo == from)
    ensures forall p :: from <= p < lo ==> s[p] != Unassigned
    ensures lo < end ==> s[lo] == Unassigned
    decreases end - from
  {
    if from < end && s[from] != Unassigned then FirstFree(s, from + 1, end) else from
  }

  /** Where the Unassigned run starting at `from` stops. */
  function FreeRunEnd(s: seq<BlockState>, from: int, end: int): (hi: int)
    requires 0 <= from && end <= |s|
    ensures from <= hi && (hi <= end || hi == from)
    ensures forall p :: from <= p < hi ==> s[p] == Unassigned
    ensures hi < end ==> s[hi] != Unassigned
    decreases end - from
  {
    if from < end && s[from] == Unassigned then FreeRunEnd(s, from + 1, end) else from
  }

  /** A recorded lease, clamped to the positions that are still free. */
  function Reinstated(l: Lease, lo: int, hi: int, floor: real): Lease {
    l.(start := lo, end := hi, committedEnd := lo,
       progressEnd := Min(Max(l.progressEnd, lo), hi), deadline := MaxReal(l.deadline, floor))
  }

  function NumberOf(id: LeaseId): int {
    id.number
  }

  predicate Recordable(l: Lease, blocks: int) {
    0 <= l.start < l.end <= blocks
  }

  ghost function ReplayLease(t: Table, l: Lease, floor: real): Table
    requires Recordable(l, |t.state|)
  {
    if l.epoch != t.epoch || l.id in t.leases then t
    else
      var lo := FirstFree(t.state, l.start, l.end);
      var hi := FreeRunEnd(t.state, lo, l.end);
      if hi <= lo then t
      else Leasing(t, Reinstated(l, lo, hi, floor), Max(t.lastNumber, NumberOf(l.id)))
  }
}
