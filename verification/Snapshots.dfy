/** The lease table as a file: the block array run-length encoded, the free pool left out, and
    the private clock of each cluster dropped. */
module Snapshots {
  import opened Wrappers
  import opened Arithmetic
  import opened LeaseModel
  import opened LeaseInvariant

  datatype Run = Run(value: BlockState, length: int)

  /** A cluster record without its private fields. */
  datatype SavedCluster = SavedCluster(
    joinedAt: real,
    lastSeen: real,
    ranks: int,
    blocksCommitted: int,
    macroStep: real,
    rtt: real,
    rate: real,
    cursor: int,
    incarnation: string,
    incarnations: int)

  datatype Snapshot = Snapshot(
    cfg: Config,
    epoch: int,
    epochsCompleted: int,
    committed: int,
    quarantined: int,
    lastNumber: int,
    runs: seq<Run>,
    attempts: map<int, int>,
    leases: seq<Lease>,
    clusters: map<ClusterId, SavedCluster>)

  // --- run-length encoding ----------------------------------------------------

  function Encode(s: seq<BlockState>): seq<Run> {
    if s == [] then [] else Lengthened(Encode(s[..|s| - 1]), s[|s| - 1])
  }

  /** One more position: the last run grows, or a new one begins. */
  function Lengthened(runs: seq<Run>, v: BlockState): seq<Run> {
    if runs != [] && runs[|runs| - 1].value == v
    then runs[|runs| - 1 := Run(v, runs[|runs| - 1].length + 1)]
    else runs + [Run(v, 1)]
  }

  function Repeat(v: BlockState, count: int): (r: seq<BlockState>)
    ensures |r| == Max(0, count) && forall i :: 0 <= i < |r| ==> r[i] == v
  {
    seq(Max(0, count), _ => v)
  }

  function Decode(runs: seq<Run>): seq<BlockState> {
    if runs == [] then []
    else Decode(runs[..|runs| - 1]) + Repeat(runs[|runs| - 1].value, runs[|runs| - 1].length)
  }

  lemma DecodeLast(runs: seq<Run>, r: Run)
    ensures Decode(runs + [r]) == Decode(runs) + Repeat(r.value, r.length)
  {
    assert (runs + [r])[..|runs|] == runs;
  }

  /** Runs that no encoder would merge or leave out. */
  predicate Maximal(runs: seq<Run>) {
    && (forall i :: 0 <= i < |runs| ==> runs[i].length >= 1)
    && (forall i :: 0 < i < |runs| ==> runs[i - 1].value != runs[i].value)
  }

  lemma LengthenedDecodes(runs: seq<Run>, v: BlockState)
    requires Maximal(runs)
    ensures Maximal(Lengthened(runs, v)) && Decode(Lengthened(runs, v)) == Decode(runs) + [v]
  {
    hide Decode, Repeat;
    var n := |runs| - 1;
    if runs != [] && runs[n].value == v {
      var longer := Run(v, runs[n].length + 1);
      assert runs == runs[..n] + [runs[n]] && Lengthened(runs, v) == runs[..n] + [longer];
      DecodeLast(runs[..n], runs[n]);
      DecodeLast(runs[..n], longer);
      RepeatMore(v, runs[n].length);
    } else {
      DecodeLast(runs, Run(v, 1));
      RepeatMore(v, 0);
      assert Repeat(v, 0) == [] by { assert |Repeat(v, 0)| == 0; }
    }
  }

  lemma RepeatMore(v: BlockState, count: int)
    requires count >= 0
    ensures Repeat(v, count + 1) == Repeat(v, count) + [v]
  {
  }

  /** Decoding undoes encoding, and the code has as few runs as any. */
  lemma {:induction false} DecodeEncode(s: seq<BlockState>)
    ensures Maximal(Encode(s)) && Decode(Encode(s)) == s
  {
    if s != [] {
      DecodeEncode(s[..|s| - 1]);
      LengthenedDecodes(Encode(s[..|s| - 1]), s[|s| - 1]);
    }
  }

  /** Encoding undoes decoding, for a file that an encoder wrote. */
  lemma {:induction false} EncodeDecode(runs: seq<Run>)
    requires Maximal(runs)
    ensures Encode(Decode(runs)) == runs
  {
    if runs != [] {
      var n := |runs| - 1;
      EncodeDecode(runs[..n]);
      EncodeRepeat(Decode(runs[..n]), runs[n].value, runs[n].length);
    }
  }

  lemma {:induction false} EncodeRepeat(s: seq<BlockState>, v: BlockState, count: int)
    requires count >= 1
    requires var runs := Encode(s); runs == [] || runs[|runs| - 1].value != v
    ensures Encode(s + Repeat(v, count)) == Encode(s) + [Run(v, count)]
    decreases count
  {
    var longer := s + Repeat(v, count);
    assert longer[..|longer| - 1] == s + Repeat(v, count - 1);
    if count == 1 {
      assert s + Repeat(v, 0) == s;
    } else {
      EncodeRepeat(s, v, count - 1);
    }
  }

  // --- saving and restoring ---------------------------------------------------

  /** The settings a table keeps out of those it is built with. */
  function Normalised(cfg: Config): Config {
    cfg.(minBlocks := Max(1, cfg.minBlocks), stealMinBlocks := Max(1, cfg.stealMinBlocks),
         maxBlocks := if cfg.maxBlocks != 0 then cfg.maxBlocks else cfg.numBlocks)
  }

  /** The settings in force: no minimum below one block, and no ceiling given means none but the block space. */
  lemma SettingsInForce(cfg: Config)
    ensures var kept := Normalised(cfg);
            && kept == cfg.(minBlocks := kept.minBlocks, stealMinBlocks := kept.stealMinBlocks, maxBlocks := kept.maxBlocks)
            && (if cfg.minBlocks >= 1 then kept.minBlocks == cfg.minBlocks else kept.minBlocks == 1)
            && (if cfg.stealMinBlocks >= 1 then kept.stealMinBlocks == cfg.stealMinBlocks else kept.stealMinBlocks == 1)
            && (if cfg.maxBlocks == 0 then kept.maxBlocks == cfg.numBlocks else kept.maxBlocks == cfg.maxBlocks)
            && Normalised(kept) == kept
  {
  }

  function SaveCluster(r: ClusterRecord): SavedCluster {
    SavedCluster(r.joinedAt, r.lastSeen, r.ranks, r.blocksCommitted, r.macroStep, r.rtt, r.rate, r.cursor,
                 r.incarnation, r.incarnations)
  }

  function LoadCluster(r: SavedCluster): ClusterRecord {
    ClusterRecord(r.joinedAt, r.lastSeen, r.ranks, r.blocksCommitted, r.macroStep, r.rtt, r.rate, r.cursor,
                  r.incarnation, r.incarnations, 0.0)
  }

  function SaveClusters(clusters: map<ClusterId, ClusterRecord>): map<ClusterId, SavedCluster> {
    map c | c in clusters :: SaveCluster(clusters[c])
  }

  function LoadClusters(clusters: map<ClusterId, SavedCluster>): map<ClusterId, ClusterRecord> {
    map c | c in clusters :: LoadCluster(clusters[c])
  }

  /** A lease map written out as a list, in any order. */
  predicate Lists(leases: map<LeaseId, Lease>, listed: seq<Lease>) {
    && (forall i :: 0 <= i < |listed| ==> listed[i].id in leases && leases[listed[i].id] == listed[i])
    && (forall i, j :: 0 <= i < j < |listed| ==> listed[i].id != listed[j].id)
    && (forall id :: id in leases ==> exists i :: 0 <= i < |listed| && listed[i].id == id)
  }

  function Extended(l: Lease, floor: real): Lease {
    l.(deadline := MaxReal(l.deadline, floor))
  }

  function LoadLeases(listed: seq<Lease>, floor: real): map<LeaseId, Lease> {
    if listed == [] then map[]
    else var l := listed[|listed| - 1]; LoadLeases(listed[..|listed| - 1], floor)[l.id := Extended(l, floor)]
  }

  function ExtendAll(leases: map<LeaseId, Lease>, floor: real): map<LeaseId, Lease> {
    map id | id in leases :: Extended(leases[id], floor)
  }

  lemma {:induction false} LoadedUpTo(listed: seq<Lease>, floor: real, k: nat)
    requires k <= |listed|
    requires forall i, j :: 0 <= i < j < |listed| ==> listed[i].id != listed[j].id
    ensures var m := LoadLeases(listed[..k], floor);
            && (forall id :: id in m <==> exists i :: 0 <= i < k && listed[i].id == id)
            && (forall i :: 0 <= i < k ==> m[listed[i].id] == Extended(listed[i], floor))
  {
    if k > 0 {
      LoadedUpTo(listed, floor, k - 1);
      assert listed[..k][..k - 1] == listed[..k - 1];
    }
  }

  lemma LoadListed(leases: map<LeaseId, Lease>, listed: seq<Lease>, floor: real)
    requires Lists(leases, listed)
    ensures LoadLeases(listed, floor) == ExtendAll(leases, floor)
  {
    LoadedUpTo(listed, floor, |listed|);
    assert listed[..|listed|] == listed;
    assert LoadLeases(listed, floor).Keys == leases.Keys;
  }

  ghost predicate IsSnapshot(t: Table, s: Snapshot) {
    && s.cfg == t.cfg && s.epoch == t.epoch && s.epochsCompleted == t.epochsCompleted
    && s.committed == t.committed && s.quarantined == t.quarantined && s.lastNumber == t.lastNumber
    && s.runs == Encode(t.state) && s.attempts == t.attempts
    && Lists(t.leases, s.leases) && s.clusters == SaveClusters(t.clusters)
  }

  /** What a snapshot file rebuilds, or nothing when it does not cover its block space. */
  function Restored(s: Snapshot, floor: real): Option<Table> {
    if s.cfg.numBlocks < 1 || |Decode(s.runs)| != s.cfg.numBlocks then None
    else Some(Table(Normalised(s.cfg), s.epoch, s.epochsCompleted, Decode(s.runs), s.attempts, s.committed,
                    s.quarantined, LoadLeases(s.leases, floor), LoadClusters(s.clusters), s.lastNumber))
  }

  /** A table as it comes back: every deadline at or after the floor, and no memory of when each
      cluster last committed. */
  function Reopened(t: Table, floor: real): Table {
    t.(leases := ExtendAll(t.leases, floor), clusters := LoadClusters(SaveClusters(t.clusters)))
  }

  lemma RestoreUndoesSnapshot(t: Table, s: Snapshot, floor: real)
    requires Inv(t) && t.cfg == Normalised(t.cfg) && IsSnapshot(t, s)
    ensures Restored(s, floor) == Some(Reopened(t, floor))
  {
    DecodeEncode(t.state);
    LoadListed(t.leases, s.leases, floor);
  }

  /** Only deadlines move, each to the later of its own and the floor; every cluster keeps all but its memory
      of when it last committed. */
  lemma ReopenedKeeps(t: Table, floor: real)
    requires Inv(t)
    ensures Inv(Reopened(t, floor))
    ensures forall id :: id in t.leases ==>
      Reopened(t, floor).leases[id].(deadline := t.leases[id].deadline) == t.leases[id]
      && Reopened(t, floor).leases[id].deadline == if t.leases[id].deadline >= floor then t.leases[id].deadline else floor
    ensures Reopened(t, floor).leases.Keys == t.leases.Keys && Reopened(t, floor).clusters.Keys == t.clusters.Keys
    ensures forall c :: c in t.clusters ==> Reopened(t, floor).clusters[c] == t.clusters[c].(lastCommitAt := 0.0)
  {
    hide Apart, Backed, Coverage, Counted, AttemptsOk, LeasesOk, Credit;
    CreditReloads(t.clusters, t.committed);
    ExtendedKeeps(t.state, t.leases, floor);
    ExtendedOk(t.leases, floor, t.epoch, |t.state|, t.clusters.Keys, t.lastNumber);
  }

  lemma CreditReloads(clusters: map<ClusterId, ClusterRecord>, committed: int)
    requires Credit(clusters, committed)
    ensures var clusters' := LoadClusters(SaveClusters(clusters)); clusters'.Keys == clusters.Keys && Credit(clusters', committed)
  {
    SumSame(clusters, LoadClusters(SaveClusters(clusters)));
  }

  lemma ExtendedOk(leases: map<LeaseId, Lease>, floor: real, epoch: int, blocks: int, clusters: set<ClusterId>, lastNumber: int)
    requires LeasesOk(leases, epoch, blocks, clusters, lastNumber)
    ensures LeasesOk(ExtendAll(leases, floor), epoch, blocks, clusters, lastNumber)
  {
    forall id | id in leases ensures LeaseOk(ExtendAll(leases, floor)[id], id, epoch, blocks, clusters, lastNumber) {
      assert LeaseOk(leases[id], id, epoch, blocks, clusters, lastNumber);
    }
  }

  lemma ExtendedKeeps(state: seq<BlockState>, leases: map<LeaseId, Lease>, floor: real)
    requires Apart(leases) && Backed(state, leases) && Coverage(state, leases, {})
    ensures var leases' := ExtendAll(leases, floor);
            Apart(leases') && Backed(state, leases') && Coverage(state, leases', {})
  {
    var leases' := ExtendAll(leases, floor);
    forall p | Covered(leases, p) ensures Covered(leases', p) {
      var id :| id in leases && Holds(leases[id], p);
      assert id in leases' && Holds(leases'[id], p);
    }
  }
}
