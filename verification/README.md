# Verification of the lease protocol and the numerical cores around it

This project models, in Dafny, how several HPC clusters share one training corpus without training on
any block twice, and the arithmetic that merges what they learn.

* **The lease table** (`Intervals`, `FreePool`, `Traversal`, `LeaseModel`, `LeaseInvariant`, `AcquireInvariant`,
  `LeaseSteps`, `LeaseTable`, `LeaseRuns`). The free pool is an interval list edited in place, the table a
  state array with leases, attempts, counters and cluster records beside it. `LeaseModel` says what each
  call does to a table as a value; the classes do it by assignment and are proved to do the same. The
  invariant holds over every run with arbitrary clients and an arbitrary clock.
* **The calls one by one** (`Effects`, `Grants`, `Shares`, `StealOrder`, `Registration`, `Heartbeats`). What each
  of them leaves in every position, lease and record, who is served before whom, and what a cluster can
  rely on over a run: its name is not taken over while it works, and who beats in time keeps its lease.
* **What runs of it promise** (`ExactlyOnce`, `EpochTermination`, `DrainSafety`). A block is committed at
  most once and credited exactly; an epoch cannot churn for ever; nobody is told to wait for nothing.
* **The durable coordinator** (`Snapshots`, `Journals`, `JournalFile`, `Coordinator`, `Recovery`,
  `HarmlessSteals`, `InOrder`, `StolenReplay`, `DoubleReplay`, `RunDoubleReplay`, `ExactRecovery`,
  `RefusedRelease`, `EpochRecovery`, `TornLog`, `CrashRecovery`). Snapshot, write-ahead log and replay,
  compared with the coordinator that never crashed, for a kill at any moment of its first life or of a
  later one.
* **The session at the other end** (`Sessions`, `LeaseSystem`, `HeardCuts`). Client and coordinator as one
  system whose messages may be lost, repeated or late: the session keeps to every cut it hears of, and what
  it has reported is never cut off.
* **From blocks to samples** (`Corpus`, `Phases`, `SampleCoverage`). Blocks partition the corpus, phases
  lose nothing, and a finished epoch has committed every sample once.
* **The outer step** (`OuterStep`, `Models`, `GlobalState`, `Uploads`, `Strategy`, `Survivors`, `OuterLoop`).
  FedMom is Nesterov momentum; the streamed and the inline merge are the same function; and whose
  uploads either of them takes is said upload by upload.
* **The waterfill planner** (`Waterfill`, `Rounding`, `Planner`, `Assignment`) and **the tensor file**
  (`TensorFiles`). `Arithmetic` and `Wrappers` hold what several of them share.

Clocks, the random draws of a shuffle, the replies of the network and the text codec of a file header are
parameters. Rates, times, hours and weights are reals.

## What the proofs turned up

Where the code does not do what its own documentation says, the model follows the code.

* `DrainSafety.FalseCompletion`, `FalseDrain`: an acquire with `max_spans` below 1 (or a table whose
  `max_blocks` is negative) is answered `epoch_complete` while every block is free, or `drain` while some
  are. `HonestExactly`: the answers are true on every table exactly when both are at least 1.
* `ExactlyOnce.RetriedCommit`: repeating the commit that closed a lease is refused as `LeaseGone`, although
  nothing is wrong.
* `StolenReplay.StealsBreakReplay`: the log records neither a victim's cut nor that a commit was clamped to
  it, so a recovered table can hold commits the live one never made. `HarmlessSteals.HarmlessExactly` says
  when some selection of a log can do that, and `InOrderReplay.LoadsExactly` when the log since a snapshot
  in order can, as it is loaded: both exactly when something the clamp took off an accepted commit is
  never otherwise committed, the second while no release is refused to a holder. Neither happens while
  accepted commits stay within their leases, whether or not there are steals.
* `RunDoubleReplays.DoubleReplayInvents`: "a double replay is harmless" is not so for every run. A lease that
  the snapshot no longer holds is granted again from what is free of its span, and its logged commits are
  applied to that. `RunDoubleReplayExactly` says exactly when, for a log without releases.
* `RefusedReleases.RefusedReleaseLosesCommits`: a refused release is logged and replayed as if authorised, so
  acknowledged commits can be lost. `ExactRecovery.ReleaseAgreesExactly` says when a release does no harm.
* `TornLogs.LostCommit`: a reloaded coordinator appends to the log it found, torn line and all. Everything it
  logs before its first snapshot is lost at the next kill, commits included; `LosesNothingExactly`: exactly
  when that log did not end in a whole line.
* `EpochRecovery.LostEpoch`, `AdvancedTwice`: an epoch that begins with an acquire leaves no entry, so until the
  next snapshot its grants and commits cannot be replayed; and an explicit advance, replayed over a
  snapshot that contains it, advances again. `RolloverIsLost`, `AdvanceIsRepeated` and `SameEpochExactly` are
  the same for every run.
* `Traversals.GivesUpHalfway`: the number of intervals visited is compared with a list that shrinks, so fewer
  blocks than requested may come back although more are free. `TakenExactly` and `FilledExactly` say how
  many and when.
* `Planner.SplitLosesUnits`: with several shapes per site a split can fall short of a request the sites
  could cover. `SplitExactly` says when, and `NoneLost` for which sites it never does.
* `TensorFiles.ReadsTheRefused`: a tensor refused for its dtype has already been written, the offset does not
  account for it, and the next tensor reads back wrong; and a tensor without bytes is written but cannot
  be read. `ReadsBackExactly` says when all come back.
* `Survivors.SoloIsAdoptedExactly`: the first merge is not free of momentum, so a single opening cluster's
  model is not adopted as it is but overshot by the momentum.
* `Strategy.FactorIsOne`: shares are of the total of all counts, so a count below zero inflates the merge.

## Model

| member | source | states |
|---|---|---|
| Intervals.CanonicalIsUnique | src/pww/darl/table.py:223-241 | The merged interval list is determined by the set of positions it stands for: two sorted, gap-separated lists of the same set are equal. |
| Intervals.CutNext | src/pww/darl/table.py:300-326 | Cutting one more span out of what is left of the pool keeps the cuts disjoint, non-empty, inside the pool, within the request, each from the start of a run (after the first) and to the end of it unless the request is exhausted. |
| FreePool.BisectLeft | src/pww/darl/table.py:251-251 | Insertion point with everything before it smaller and everything after at least the key. |
| FreePool.BisectRight | src/pww/darl/table.py:339-339 | Insertion point with everything before it at most the key and everything after larger. |
| FreePool.IntervalSet.Add | src/pww/darl/table.py:243-277 | Raises exactly when part of the range is already free; otherwise the set becomes the union, again in merged form with the right total. After raising the set is unusable. |
| FreePool.IntervalSet.TakeNear | src/pww/darl/table.py:279-327 | Removes exactly the spans it returns: disjoint, starting at the least free position at or after the cursor (else the least of all), each next one nearest to the end of the one before and each to the end of its run; never more than the limit the loop imposes, and exactly that many when the request is not met. |
| Traversals.TakenExactly | src/pww/darl/table.py:300-327 | On the merged list: the number of spans is the least whose visits find the request, or the limit min(max_spans, ceil((runs + [cursor inside a run]) / 2)); what is taken is the request or all that the visits within that limit find, whichever is less. |
| Traversals.TakenOnce | src/pww/darl/table.py:300-327 | Pool, cursor, request and max_spans determine the answer. |
| Traversals.FilledExactly | src/pww/darl/table.py:279-307 | The request is met, or the pool emptied for it, if and only if the visits within the limit find that many blocks, or there is one run and the cursor does not cut it in two. |
| Traversals.GivesUpHalfway | src/pww/darl/table.py:307-307 | Blocks 0, 2 and 4 free, cursor 0, three blocks in up to eight spans: exactly two spans come back and block 4 stays free. |
| FreePool.IntervalSet.Remove | src/pww/darl/table.py:329-342 | Raises, changing nothing, exactly when part of the range is not free; otherwise the set difference, in merged form. |
| FreePool.IntervalSet.RemoveAt | src/pww/darl/table.py:344-354 | Raises unless the range lies inside the chosen interval; otherwise the set difference, in merged form. |
| LeaseTables.LeaseTable.constructor | src/pww/darl/table.py:383-425 | A table with normalised settings, every block UNASSIGNED and in the pool. |
| Snapshots.SettingsInForce | src/pww/darl/table.py:397-410 | The settings in force: minima of at least one block, and a max_blocks of 0 meaning the whole space. |
| LeaseTables.LeaseTable.AdvanceEpoch | src/pww/darl/table.py:427-451 | Starts the next epoch exactly when the budget allows, with every block free again. |
| Effects.AdvanceFields | src/pww/darl/table.py:427-451 | Past the budget nothing changes; before it, blocks, attempts, leases and counters start over, cursors are rewound, and credits and rates stay. |
| LeaseTables.LeaseTable.Register | src/pww/darl/table.py:470-554 | Refused for a digest that disagrees or while another incarnation is live; otherwise the record the model gives. |
| Registration.RefusedExactly | src/pww/darl/table.py:492-541 | Refused for the digest exactly when both sides name one and they differ; refused as busy exactly when the digest is no obstacle, the check is on, both incarnations are given and differ, and the recorded process holds a lease or was heard from less than max(min_ttl, 10 rtt) ago. |
| Registration.RegisteredFields | src/pww/darl/table.py:520-554 | An accepted register touches one record only: seen now, ranks and incarnation as given, a new incarnation counted; what was committed, measured and searched is kept, and a newcomer starts from nothing. |
| Registration.IncarnationMovesExactly | src/pww/darl/table.py:520-549 | Whatever the call, a recorded incarnation changes if and only if it is an accepted register that names another: nobody recorded, or the check off, or nobody plausibly still there. |
| Registration.NobodyTakesOver | src/pww/darl/table.py:492-541 | Over any run with the check on, the recorded process stays while, whenever its name is asked for, it holds a lease or was heard from within its window. |
| Registration.HolderIsNotReplaced | src/pww/darl/table.py:459-468 | In particular the process on record never changes while its cluster holds a lease. |
| LeaseTables.LeaseTable.Acquire | src/pww/darl/table.py:556-637 | Reap, touch, roll over, size, take or steal, install: some outcome the model allows, with pool and state array still in step. |
| Grants.ReapedFirst | src/pww/darl/table.py:575-577 | An acquire first reaps: exactly the leases whose deadline has not passed remain, unchanged. |
| Grants.RollsOverExactly | src/pww/darl/table.py:583-586 | A new epoch begins exactly when every block is settled, no lease is held and the budget allows one; where it does not, the answer is that all is over. |
| Grants.RecordFields | src/pww/darl/table.py:576-581 | The asker was seen now, with the timings it reported; its cursor is where the last span of the grant ends, modulo the block space, or stays; of other records only a new epoch rewinds the cursor. |
| Grants.LeaseFields | src/pww/darl/table.py:606-629 | Every granted lease is the asker's, of the present epoch, untouched, numbered on from the last number, granted now, with the TTL of the asker's timings and a deadline that much later. |
| Grants.PoolFirst | src/pww/darl/table.py:588-592 | While a block is free a grant comes from the pool alone, searched from the asker's cursor, and no other lease is touched. |
| Traversals.StartsAhead | src/pww/darl/table.py:300-318 | An allocation starts at the cursor if that is free, else at the next free position, and at the first of all only when nothing lies ahead; each further span likewise from the end of the one before. |
| LeaseTables.LeaseTable.GrantSize | src/pww/darl/table.py:951-987 | The size the model gives: capped, halved for a new cluster, and rate-proportional when the pool is short. |
| Shares.ActiveExactly | src/pww/darl/table.py:981-987 | The active clusters are those that hold a lease or were heard from within their window, or all if there are none. |
| Shares.CappedExactly | src/pww/darl/table.py:966-969 | A measured cluster gets what it asks for between min_blocks and max_blocks; a new one the configured part of that, rounded down, unless a setting stands in the way. |
| Shares.AnyRateFirst | src/pww/darl/table.py:974-976 | The sum of the rates does not depend on the order of the clusters. |
| Shares.ShareExactly | src/pww/darl/table.py:974-977 | A share is the whole part of free times the measured rate over the sum of the rates. |
| Shares.SharesFit | src/pww/darl/table.py:974-977 | The shares of any active clusters together are no more than what is free. |
| Shares.SizeExactly | src/pww/darl/table.py:971-979 | The capped request stands when nothing is free or there is as much for every active cluster; otherwise it is cut to the asker's share but not below min_blocks. |
| Shares.FasterGetsNoLess | src/pww/darl/table.py:951-979 | Of two active clusters that ask for the same, the one with the higher measured rate is granted no less. |
| LeaseTables.LeaseTable.Steal | src/pww/darl/table.py:894-947 | Takes from the slowest candidates in order, half of each unstarted tail at most, until the request is met or what is wanted is below the minimum. |
| StealOrder.SlowestRobbed | src/pww/darl/table.py:907-922 | Whoever is passed over, or robbed later, needs no longer to finish what it holds, at its measured rate or else 1e-9, than the one robbed, and at equal times has no more left beyond both watermarks. |
| StealOrder.RobbedFields | src/pww/darl/table.py:923-945 | Each victim is another cluster's lease with twice the minimum untouched; off its far end it loses half of that rounded down, not below the minimum steal nor above what is still wanted; nothing else changes. |
| StealOrder.StopsExactly | src/pww/darl/table.py:923-936 | A steal takes no more than was asked for, and leaves someone who could be robbed alone only when less than the minimum is still wanted. |
| StealOrder.StragglerIsRobbed | src/pww/darl/table.py:894-902 | At an input: of a cluster that finishes in a second and one that takes a hundred, only the latter is robbed. |
| LeaseTables.LeaseTable.Heartbeat | src/pww/darl/table.py:639-685 | The model's renewal, and for every reported lease the coordinator's own view of it. |
| Heartbeats.TtlExactly | src/pww/darl/table.py:69-87 | The TTL asked for, or 2.5 macro steps and 10 round trips between 30 seconds and 6 hours, not below the table's minimum nor above 6 hours. |
| Heartbeats.HeartbeatFields | src/pww/darl/table.py:658-682 | Exactly the overdue leases are gone. Every reported lease the asker still holds has deadline now plus the reply's TTL, that TTL, and progress raised to the report but not past its end; every other lease is unchanged. |
| Heartbeats.BeaterFields | src/pww/darl/table.py:659-664 | The asker was seen now, with the timings it reported; nobody else's record changes. |
| Heartbeats.RepliesExactly | src/pww/darl/table.py:669-685 | The reply names exactly the reported leases, each lost or with its end and committed watermark as the table has them afterwards. |
| Heartbeats.NeverReaped | src/pww/darl/table.py:639-685 | Over any run, a lease whose holder beats before each deadline it has been told leaves the table only when the holder commits all of it or releases it, or the epoch ends. |
| Heartbeats.SteadyBeatsSuffice | src/pww/darl/table.py:666-682 | In particular a holder that beats at least once in every min_ttl is never reaped, whatever the other clusters do. |
| LeaseTables.LeaseTable.Commit | src/pww/darl/table.py:687-743 | The model's commit and reply, or LeaseGone / NotOwner with nothing changed. |
| Effects.CommitFields | src/pww/darl/table.py:701-743 | Refused exactly when the lease is gone or another's; otherwise exactly the positions up to the clamped mark become COMMITTED, the lease goes exactly when that is its end, nothing else changes but the committer's record, and the reply says so. |
| Effects.CreditFields | src/pww/darl/table.py:714-726 | The committer alone is credited; from its second commit on its rate is the first pace, then seven tenths of the old rate and three of the new pace. |
| Effects.RateFollowsPace | src/pww/darl/table.py:719-725 | A measured rate never leaves the range between the rate before and the pace just seen. |
| LeaseTables.LeaseTable.Release | src/pww/darl/table.py:745-789 | The model's release, and how many blocks came back. |
| Effects.ReleasesExactly | src/pww/darl/table.py:769-789 | Given up are the named lease if it is the asker's, or without a name all of the asker's unless it names a process other than the recorded one. |
| LeaseTables.LeaseTable.Reap | src/pww/darl/table.py:827-848 | The model's reap, and how many blocks came back. |
| Effects.ReapsExactly | src/pww/darl/table.py:827-848 | Exactly what is overdue is reaped, counting an attempt. |
| LeaseTables.LeaseTable.Reclaim | src/pww/darl/table.py:850-892 | One lease given up: its uncommitted blocks return to the pool or go to quarantine, each charged an attempt when counted, and the pool never refuses them. |
| Effects.ReclaimFields | src/pww/darl/table.py:850-892 | Of leases given up together, exactly the uncommitted positions change: to QUARANTINED if the attempt counts and is the last allowed, to UNASSIGNED if not; only they are charged, once each. |
| LeaseTables.LeaseTable.ReplayLease | src/pww/darl/table.py:791-823 | Re-installs a recorded lease on the first run still free; the pool never refuses the removal. |
| Effects.ReinstatedFields | src/pww/darl/table.py:791-823 | A recorded lease comes back over the first free run of its range, nothing committed, its progress within the run, its deadline the later of its own and the floor; of another epoch, still held or with nothing free, it changes nothing. |
| LeaseTables.LeaseTable.Verify | src/pww/darl/table.py:1017-1074 | Succeeds exactly when the five views agree, and then reports the true counts of each state. |
| LeaseTables.LeaseTable.Snapshot | src/pww/darl/table.py:1078-1118 | A snapshot of the table: runs of states, leases as a list, clusters without private fields. |
| LeaseTables.LeaseTable.Restore | src/pww/darl/table.py:1120-1179 | Rebuilds the table a snapshot describes with its pool, or fails when the runs do not cover the block space; no addition to the pool meets a free block. |
| LeaseTables.RebuildPool | src/pww/darl/table.py:1162-1171 | The pool rebuilt run by run holds exactly the UNASSIGNED positions, in merged form. |
| LeaseTables.PoolIsDetermined | src/pww/darl/table.py:1162-1171 | Tables with the same states hold the same interval list, so the rebuilt pool is the identical one. |
| LeaseInvariant.ReclaimKeeps | src/pww/darl/table.py:850-892 | Giving up any set of leases, counted or not, keeps the invariant. |
| LeaseInvariant.CommitKeeps | src/pww/darl/table.py:687-743 | A commit with any arguments keeps the invariant. |
| LeaseInvariant.HeartbeatKeeps | src/pww/darl/table.py:639-685 | A heartbeat with any arguments keeps the invariant. |
| LeaseInvariant.RegisterKeeps | src/pww/darl/table.py:470-554 | An accepted registration keeps the invariant. |
| LeaseInvariant.InvIsVerified | src/pww/darl/table.py:1017-1074 | The invariant implies everything the executable check asserts. |
| AcquireInvariant.AmountBound | src/pww/darl/table.py:924-935 | A steal leaves its victim at least half of its unstarted tail, so no steal empties a lease. |
| AcquireInvariant.StealKeeps | src/pww/darl/table.py:894-947 | What a steal takes was LEASED by its victims and is nobody's until leased again; the spans are disjoint and not empty. |
| AcquireInvariant.AcquireKeeps | src/pww/darl/table.py:556-637 | An acquire with any arguments keeps the invariant. |
| AcquireInvariant.ReplayLeaseKeeps | src/pww/darl/table.py:791-823 | Replaying any recorded lease keeps the invariant. |
| LeaseRuns.NextKeeps | src/pww/darl/table.py:556-889 | Every call of the protocol, with any arguments and clock readings, keeps the invariant. |
| LeaseRuns.RunIsSound | src/pww/darl/table.py:373-380 | The invariant holds at every point of every run. |
| LeaseRuns.VerifyNeverFails | src/pww/darl/table.py:1017-1074 | At every point of every run of a fresh table, with arbitrary clients and an arbitrary clock, the executable check passes. |
| ExactlyOnce.CommitCredits | src/pww/darl/table.py:707-730 | A commit moves only LEASED positions its cluster holds, to COMMITTED, and credits that cluster with exactly that many. |
| ExactlyOnce.OthersCommitNothing | src/pww/darl/table.py:556-889 | No other call commits a block or credits a cluster; within the epoch COMMITTED stands. |
| ExactlyOnce.CommittedAtMostOnce | src/pww/darl/table.py:687-743 | Over a run no two calls commit the same block of the same epoch, and the log is as large as the commits made. |
| ExactlyOnce.LogIsComplete | src/pww/darl/table.py:687-743 | Everything COMMITTED in the current epoch of a run from a fresh table is in the log of commits. |
| ExactlyOnce.CreditIsExact | src/pww/darl/table.py:1063-1071 | Each cluster's cumulative counter is the number of commits it made, and the counters add up to the blocks committed over all epochs. |
| ExactlyOnce.BlocksMoveForward | src/pww/darl/table.py:101-106 | Within an epoch a block moves only UNASSIGNED to LEASED to COMMITTED, UNASSIGNED or QUARANTINED, and to COMMITTED only by its holder's commit. |
| ExactlyOnce.RetriedCommit | src/pww/darl/table.py:687-743 | A repeated commit changes nothing; it is acknowledged again exactly when the first left the lease open, and refused as gone when it closed it. |
| EpochTermination.BelowIsLighter | src/pww/darl/table.py:850-892 | The lexicographic order on (attempts left, blocks not committed, blocks free, room for leases) embeds in a natural-number weight. |
| EpochTermination.LeasesFit | src/pww/darl/table.py:1024-1045 | There are never more leases than blocks: they are disjoint and hold something. |
| EpochTermination.CallFalls | src/pww/darl/table.py:556-889 | With max_attempts at least 1 and counted releases, every call that changes a block or the set of leases strictly lowers the weight, and none raises it. |
| EpochTermination.EpochTerminates | src/pww/darl/table.py:556-889 | Within one epoch the number of calls that change anything is bounded by the weight at its start, whatever the clients and the clock do. |
| DrainSafety.GrantIsPositive | src/pww/darl/table.py:951-979 | A grant is sized above zero exactly when max_blocks allows a block. |
| DrainSafety.DoneMeansSettled | src/pww/darl/table.py:453-455 | The epoch is complete exactly when every block is COMMITTED or QUARANTINED. |
| DrainSafety.NoStuckDrain | src/pww/darl/table.py:575-606 | With max_spans and max_blocks at least 1: `drain` only when no block is free and some lease is held, `epoch_complete` only when every block is settled, and never `drain` once every deadline has passed. |
| DrainSafety.StarvedAnswer | src/pww/darl/table.py:590-606 | A request for no spans, or under a max_blocks below 1, is answered from the leases alone whenever nobody can be robbed: `drain` if any is held, else `epoch_complete`, whatever is free. |
| DrainSafety.FalseCompletion | src/pww/darl/table.py:590-606 | On every fresh table such a request is told the epoch is complete while every block is free, stealing allowed or not. |
| DrainSafety.FalseDrain | src/pww/darl/table.py:590-606 | For any settings with two blocks or more there is a sound table on which it is told to wait for another cluster's lease while a block is free. |
| DrainSafety.HonestExactly | src/pww/darl/table.py:590-606 | A request gets true answers (`drain` only with nothing free and a lease held, `epoch_complete` only with every block settled) from every sound table of given settings if and only if its max_spans and their max_blocks are at least 1. |
| DrainSafety.StealEvolves | src/pww/darl/table.py:894-947 | A steal takes only positions beyond the victim's progress and commit watermarks, and at most half of its unstarted tail. |
| DrainSafety.CallMoves | src/pww/darl/table.py:556-889 | What any call can do to a surviving lease: watermarks rise only by its holder's own commit or heartbeat and only as far as those say; ends never grow; new ids are new. |
| DrainSafety.AcquireMoves | src/pww/darl/table.py:606-637 | The leases a grant reports are exactly the new ones, untouched, under ids never issued before. |
| Snapshots.DecodeEncode | src/pww/darl/table.py:1088-1093 | Run-length decoding undoes encoding, and adjacent runs always differ. |
| Snapshots.EncodeDecode | src/pww/darl/table.py:1088-1093 | Encoding undoes decoding for any list of maximal runs. |
| Snapshots.RestoreUndoesSnapshot | src/pww/darl/table.py:1120-1179 | Restoring the snapshot of a sound table gives that table back, but for extended deadlines and the private commit clocks. |
| Snapshots.ReopenedKeeps | src/pww/darl/table.py:1173-1179 | The restored table is sound, every deadline is the later of its own and the grace floor, and of the records only the private commit clock is cleared. |
| Journals.ReplayKeeps | src/pww/darl/server.py:196-237 | Replaying any recorded entry keeps the invariant and, unless it changes the epoch, every commit. |
| Journals.ReplayAllKeeps | src/pww/darl/server.py:196-237 | Replaying any list of entries, in any order and with repetitions, onto any sound table of the epoch keeps the invariant and only adds commits. |
| Journals.ReplayAllSound | src/pww/darl/server.py:196-237 | Soundness survives replay across epoch changes too. |
| Journals.JustifiedReplay | src/pww/darl/server.py:217-221 | Replaying commits that a set of positions accounts for adds no commit outside that set, in any order and with repetitions. |
| Recovery.GuardedIsHarmless | src/pww/darl/table.py:707-712 | While no accepted commit asks for more than its lease still has, the clamp takes off nothing. |
| Recovery.LogIsJustified | src/pww/darl/server.py:267-329 | In an epoch whose cut leases do no harm, everything a run has logged is accounted for by what it has committed, for the widest span each lease ever had. |
| Recovery.ReplayInventsNothing | src/pww/darl/server.py:140-194 | Expiries and harmless steals allowed: replaying any selection of what was in the log when the run began, accounted for, and of what the run added, onto the snapshot of any of its moments or of one before it, keeps every commit of that snapshot and makes none the run had not made. |
| Recovery.RecoveryInventsNothing | src/pww/darl/server.py:140-194 | The same for a log that was empty when the run began: from the snapshot of any moment, any selection of the log, in any order and with repetitions. |
| Recovery.DoubleReplay | src/pww/darl/server.py:112-138 | In such an epoch a log replayed over a snapshot that already contains it changes no commit. |
| HarmlessSteals.HarmlessExactly | src/pww/darl/server.py:112-120 | Of arbitrary selections of a log, in any order: none of them, replayed onto any snapshot of the run, has a commit the run had not made, if and only if whatever the clamp took off its accepted commits, up to the widest end the lease had, was committed all the same. |
| HarmlessSteals.HarmIsReplayed | src/pww/darl/server.py:322-329 | One accepted commit clamped to a cut whose rest nobody committed is enough for such a selection: its entry alone, onto a snapshot from before the cut, commits that rest. |
| InOrderReplay.HarmIsLoaded | src/pww/darl/server.py:140-194 | And for what loading replays, the whole log since a snapshot in order: if the snapshot is from before the cut and no release in between names the victim, the cut-off rest comes back committed. |
| InOrderReplay.LoadsExactly | src/pww/darl/server.py:140-194 | In a run of one epoch in which no release is refused to a holder, loading the snapshot of any moment and the log since, later than the log, brings back no commit the run had not made if and only if the cut leases do no harm. |
| HarmlessSteals.StealFreeIsHarmless | src/pww/darl/table.py:894-947 | A run without steals has nothing to clamp. |
| ExactRecovery.CallAgrees | src/pww/darl/server.py:196-237 | One call without expiry, steal or uncounted or refused release, and the entry it logs, take a live table and its recovered copy to tables that agree. |
| ExactRecovery.ReplayIsExact | src/pww/darl/server.py:140-237 | Onto any table that agreed with where such a run began, replaying its whole log rebuilds block states, attempts, counters, lease spans, commit watermarks and credits exactly. |
| ExactRecovery.RecoveryIsExact | src/pww/darl/server.py:140-237 | So it does from the snapshot. |
| ExactRecovery.ReplaysAgree | src/pww/darl/server.py:196-237 | A log replayed twice, both times later than its reaps, onto tables that agree, leaves tables that agree. |
| ExactRecovery.ReleaseAgreesExactly | src/pww/darl/server.py:217-226 | A release and its replay, which is counted and asks for no incarnation, keep the live table and its copy in agreement if and only if it was counted and authorised or there was nothing to give back. |
| RefusedReleases.RefusedReleaseLosesCommits | src/pww/darl/server.py:217-226 | A release refused to an earlier process of the holder is logged; replayed, it takes the lease, and the commit acknowledged after it does not come back. |
| EpochRecovery.SameEpochExactly | src/pww/darl/server.py:232-233 | A log takes a table out of its epoch if and only if an advance is in it and another epoch is to be had: replayed over a snapshot that contains its advance, it goes one too far. |
| EpochRecovery.RunIsOfAnother | src/pww/darl/table.py:791-823 | A run of one epoch that nobody advances logs only entries that replay skips in any other epoch. |
| EpochRecovery.RolloverIsLost | src/pww/darl/table.py:580-588 | An epoch begun by an acquire leaves no advance in the log: whatever a run then does, until the next snapshot its log brings the table back in the old epoch, with no grant and no commit of the new one. |
| EpochRecovery.LostEpoch | src/pww/darl/table.py:580-588 | At an input: one block, committed in the first epoch, granted and committed in the second, and back in the first. |
| EpochRecovery.AdvanceIsRepeated | src/pww/darl/server.py:445-452 | The log of an epoch that an advance on record began, replayed over a snapshot of that epoch with another to be had: the next epoch begins and no commit is left. |
| EpochRecovery.AdvancedTwice | src/pww/darl/server.py:445-452 | At an input: an advance, a grant and a commit, then that log over that snapshot: the third epoch, with nothing committed. |
| StolenReplay.StealsBreakReplay | src/pww/darl/server.py:322-329 | A three-call run with a steal whose log, replayed onto the snapshot from before it, commits two blocks the live table never did. |
| DoubleReplays.AddsExactly | src/pww/darl/server.py:112-120 | A log without releases, replayed over a table that contains it, adds exactly these commits: of every run that a granted but no longer held lease finds free in its turn, the positions below a logged commit of that lease. |
| DoubleReplays.DoubleReplayExactly | src/pww/darl/server.py:112-120 | So it changes no commit if and only if no such run begins below a logged commit of its lease. |
| DoubleReplays.LooseExactly | src/pww/darl/server.py:112-120 | Where no free position was granted twice and lost twice, that is: no free position lies in a logged grant that the table no longer holds and below a logged commit of it. |
| DoubleReplays.NothingLooseAddsNothing | src/pww/darl/server.py:112-120 | With releases in the log, none naming a lease that the table holds: if there is no such position, no commit is added. |
| RunDoubleReplays.RunDoubleReplayExactly | src/pww/darl/server.py:112-138 | The same iff for the log of any run of one epoch that logged no release, over the snapshot of its last moment. |
| RunDoubleReplays.RunNothingLoose | src/pww/darl/server.py:112-138 | The same sufficient condition for the log of a run with releases. |
| RunDoubleReplays.DoubleReplayInvents | src/pww/darl/server.py:112-120 | A four-call run (grant, steal, clamped commit, release) whose log, replayed over the snapshot of its last moment, commits two blocks that are free in it. |
| Coordinators.RetryFindsGrant | src/pww/darl/server.py:278-304 | A grant is found again under its request id while fewer than 256 others have been remembered since. |
| JournalFiles.WellEndedReads | src/pww/darl/server.py:175-188 | From a log that was well ended when it was opened, a hard kill costs the entry being written and nothing before it. |
| JournalFiles.TornReads | src/pww/darl/server.py:90-92 | From one that was not, every entry appended since is lost, and the last one before if only its newline was missing. |
| JournalFiles.ReadsExactly | src/pww/darl/server.py:166-188 | A reader finds exactly the entries of the whole lines before the first line that is neither an entry nor blank. |
| Coordinators.TurnedAwayExactly | src/pww/darl/server.py:150-172 | A snapshot is turned away for another number of blocks, then for another digest, then for runs that do not cover its space, and for nothing else. |
| Coordinators.SavedIsSound | src/pww/darl/server.py:112-138 | A file that a sound table was saved to rebuilds a sound table, whatever the grace. |
| Coordinators.Coordinator.Acquire | src/pww/darl/server.py:267-304 | A known request gets the same grant and nothing changes; a new one is served, logged if it granted anything, and remembered, the oldest of more than 256 being dropped. |
| Coordinators.Coordinator.Remember | src/pww/darl/server.py:300-303 | The cache keeps one entry per request, the newest 256. |
| Coordinators.Coordinator.Register | src/pww/darl/server.py:241-265 | An accepted registration is logged with the record's ranks and incarnation; a refused one is not. |
| Coordinators.Coordinator.Heartbeat | src/pww/darl/server.py:306-320 | The call is served and leaves no entry. |
| Coordinators.Coordinator.Commit | src/pww/darl/server.py:322-329 | An accepted commit is logged with the watermark as it was asked for, not as clamped; a refused one is not logged. |
| Coordinators.Coordinator.Release | src/pww/darl/server.py:331-344 | The call is served and logged whether or not it returned anything, without its counted flag. |
| Coordinators.Coordinator.Tick | src/pww/darl/server.py:353-359 | A reap that returned blocks, and no other, is logged, at a later reading; then the snapshot is written exactly if the interval has passed. |
| Coordinators.Coordinator.SaveSnapshot | src/pww/darl/server.py:112-138 | When due or forced, the snapshot describes the table and the log is empty, in that order; the check before it never fails. |
| Coordinators.Coordinator.Replay | src/pww/darl/server.py:196-237 | The table becomes what the model's replay makes of it; an entry the table refuses is skipped. |
| Coordinators.Coordinator.Load | src/pww/darl/server.py:140-194 | Nothing without a snapshot; an error for another block space or one the runs do not cover; otherwise the snapshot's table with the log replayed up to the first line that is no entry, and the log file kept as it is, to be appended to. |
| TornLogs.LosesNothingExactly | src/pww/darl/server.py:90-92 | Loaded with an epoch still to finish, later than the reaps on record, a coordinator may serve any quiet run and be killed and loaded at any later moment without loss if and only if the log it was loaded with was well ended. |
| TornLogs.LostCommit | src/pww/darl/server.py:175-188 | Half an entry left by a first kill; four blocks granted and committed; a second kill that tears nothing: no commit comes back. |
| CrashRecovery.CrashLosesNothing | src/pww/darl/server.py:70-194 | At any moment of the coordinator's life, if every call was quiet and it has written a snapshot or been loaded with a well-ended log, the files it would leave rebuild a table that agrees with it. |
| CrashRecovery.Reload | src/pww/darl/server.py:140-194 | Killed so, the coordinator can be loaded from its files, with a table that agrees; the next kill is as harmless if and only if this one left the log's last line whole. |
| CrashRecovery.CrashInventsNothing | src/pww/darl/server.py:70-194 | Expiries and harmless steals allowed, before or after a reload: what comes back has no commit that had not been made and no fewer than the snapshot. |
| CrashRecovery.CrashBeforeTruncation | src/pww/darl/server.py:112-138 | Killed between writing a snapshot and truncating the log, what lay in it before a reload included, after harmless steals the coordinator comes back with exactly its commits. |
| CrashRecovery.CrashBeforeTruncationExactly | src/pww/darl/server.py:112-138 | Killed there without a release since its last snapshot, it does if and only if no grant it no longer holds finds a free position, in its turn, that a logged commit of it goes past. |
| CrashRecovery.CrashWithNothingLoose | src/pww/darl/server.py:112-138 | Killed there after releases that name nothing it holds, it does if no free position lies in a forgotten grant below a logged commit of it. |
| CrashRecovery.OwnIsKnown | src/pww/darl/server.py:112-138 | After a snapshot of its own there is nothing in the log to account for. |
| CrashRecovery.QuietLifeIsKnown | src/pww/darl/server.py:140-194 | If the files of a quiet life were accounted for, so are those the next one is loaded from. |
| Sessions.LeaseSession.Adopt | src/pww/darl/client.py:552-563 | Every granted lease becomes a fresh span; the completion flag follows the status. |
| Sessions.LeaseSession.Consume | src/pww/darl/client.py:657-662 | Of the one span named, and only of it, the consumed watermark rises to what was handed out: never back, never past the end, and exactly that far when the end allows; every other field is kept. |
| Sessions.LeaseSession.Apply | src/pww/darl/client.py:491-520 | A mentioned span that is lost becomes invalid and keeps its other fields; one still held ends where the reply says if that is nearer, though not behind what was consumed, and where it did if not; nothing else of it changes, and no span that is not mentioned. |
| Sessions.AdoptedFields | src/pww/darl/client.py:552-563 | Each granted lease becomes a valid span of the same extent, epoch and deadline with nothing consumed or committed beyond its start; every other span stays. |
| Sessions.ReportsExactly | src/pww/darl/client.py:479-489 | A heartbeat reports the valid spans and no others, each by what was consumed of it. |
| Sessions.CommitFields | src/pww/darl/client.py:664-695 | A commit asks exactly when the span is held, valid and has something new up to the mark; then a refusal revokes it, a closing reply ends it, and any other moves its committed watermark to the mark, never past the end. |
| Sessions.LeaseSession.Commit | src/pww/darl/client.py:664-695 | Sends nothing without something new; afterwards the span is committed, closed or revoked as the reply says, and the newly committed blocks are counted. |
| Sessions.LeaseSession.CommitAll | src/pww/darl/client.py:697-708 | Every valid span is committed through its consumed watermark, and no other is touched. |
| Sessions.LeaseSession.ReleaseAll | src/pww/darl/client.py:710-743 | Asks only when something is held, and forgets every span once answered. |
| LeaseSystem.StepKeeps | src/pww/darl/client.py:479-520 | Every step of session, network, coordinator and other clusters keeps the two sides in step. |
| LeaseSystem.AlwaysInStep | src/pww/darl/client.py:657-708 | Over any run with lost, repeated or late messages: for every span held, committed_end <= progress_end <= consumed <= end on the client, and the coordinator's end is within the client's. |
| HeardCuts.CutsAreKept | src/pww/darl/client.py:491-520 | Over any run with lost, repeated or late messages: once the answer to a heartbeat has been heard, for as long as the span is held it ends, and is consumed, no further than the coordinator's end when it answered or what had been consumed when it was heard; if the lease was gone then, the span is never valid again. |
| HeardCuts.ReportsAreSafe | src/pww/darl/table.py:674-682 | Over any such run: once a report has been served, what it reported consumed is never cut off the lease, whatever is stolen. |
| Corpus.NumBlocks | src/pww/darl/space.py:92-95 | The least number of blocks of the given size that covers the samples. |
| Corpus.BlocksForPhase | src/pww/darl/space.py:164-183 | The least number of blocks that covers a phase's samples. |
| Corpus.Shuffle | src/pww/darl/space.py:59-65 | The array ends as the model's swaps leave it: the same elements, rearranged. |
| Corpus.PermutationIsOneToOne | src/pww/darl/space.py:59-65 | A rearrangement of the block ids has every id at exactly one position. |
| Corpus.SpanReadsOnce | src/pww/darl/space.py:107-139 | A span reads each sample of its blocks once and nothing else. |
| Corpus.EverySampleOnce | src/pww/darl/space.py:92-111 | Every sample of the corpus lies in the block of exactly one position, short last block included. |
| Corpus.EpochIsCorpus | src/pww/darl/space.py:128-139 | Read from end to end an epoch is a rearrangement of [0, N). |
| Corpus.DisjointSpansDisjointSamples | src/pww/darl/space.py:128-139 | Spans that share no position share no sample. |
| Phases.RanksShareOut | src/pww/darl/torch_data.py:279-287 | Strided over the ranks, the samples that divide evenly are handed out exactly once. |
| Phases.PhaseConserves | src/pww/darl/torch_data.py:262-296 | What the ranks get and what is carried on are, as multisets, what was carried in and what was leased. |
| Phases.RunConserves | src/pww/darl/torch_data.py:160-194 | Over any run of phases, everything leased has been handed out once for each time it was leased or is being carried, and fewer are carried than there are ranks. |
| Phases.DARLDataSource.BuildPhase | src/pww/darl/torch_data.py:262-296 | This rank's stride of the mixed samples, equally many for every rank, and the remainder carried. |
| Phases.DARLDataSource.NextPhase | src/pww/darl/torch_data.py:160-194 | The phase built from what was broadcast, with the counters advanced; nothing at the end of the epoch. |
| SampleCoverage.FinishedEpoch | src/pww/darl/space.py:92-139 | In a finished epoch every sample lies in exactly one block, COMMITTED or in quarantine. |
| SampleCoverage.EverySampleCommittedOnce | src/pww/darl/table.py:687-743 | When an epoch finishes with nothing in quarantine, the block of every sample of the corpus has been committed by one call of the run and no other. |
| OuterStep.StepMatches | src/pww/central/globalstate.py:302-329 | One merge and one Nesterov step on the negated mean delta keep the two in step. |
| OuterStep.FedMomIsNesterov | src/pww/central/globalstate.py:302-329 | Over any run of merges with fixed rate and momentum, the weight is the one Nesterov SGD would reach, first step included. |
| OuterStep.EqualSharesAverage | src/pww/diloco.py:414-426 | With equal shares the weighted delta is the replicas' mean pseudo-gradient, negated. |
| OuterStep.MergesAreOuterSteps | src/pww/diloco.py:408-437 | With equal shares a run of merges is a run of the replicas' outer steps, whatever the membership of each round. |
| OuterStep.PlainAverageWithin | src/pww/central/globalstate.py:302-329 | At momentum 0 and rate 1 every weight is the weighted mean of the clusters' weights and lies among them. |
| OuterStep.InlineIsStreamed | src/pww/central/strategy.py:1277-1283 | Merging weights inline and merging their deltas as a stream give the same weight and velocity. |
| Models.RunIsNesterov | README.md:456-469 | Over any run of merges of whole models with changing membership, every weight of every tensor is where Nesterov SGD on the negated mean deltas puts it. |
| GlobalStates.MergeTensor | src/pww/central/globalstate.py:302-330 | One tensor streamed through the accumulator steps every weight by FedMom on its own column. |
| GlobalStates.GlobalState.Merge | src/pww/central/globalstate.py:241-383 | Exactly when and why a merge is refused, leaving the model alone; otherwise the merged model, one round on, with tokens, rounds and steps credited. |
| GlobalStates.GlobalState.Initialise | src/pww/central/globalstate.py:186-214 | The adopted model becomes the global one, momentum is dropped and the round restarts; membership and tokens stay. |
| GlobalStates.FreshIsCurrent | src/pww/central/globalstate.py:258-269 | An upload is merged if and only if it is there and was made against this round, or the round is not checked. |
| Uploads.TakenInOrder | src/pww/central/globalstate.py:258-269 | The uploads merged are those at increasing indices: all made against this round, or all there are, and no other. |
| Uploads.TakenAsOften | src/pww/central/globalstate.py:258-269 | Each is merged as often as it was uploaded. |
| Uploads.RefusedExactly | src/pww/central/globalstate.py:255-300 | Refused for no uploads; then as all stale, exactly when the round is checked and every one was made against another; then for current weights that add up to nothing; then without a model; then for a current delta of another shape. |
| Uploads.StaleCounted | src/pww/central/globalstate.py:236-267 | Each cluster's rejections rise by exactly the number of its uploads made against another round; one with none keeps its record. |
| Uploads.MergedCounted | src/pww/central/globalstate.py:346-350 | Each cluster's rounds and tokens rise by exactly its merged uploads and their tokens; a newcomer was first seen in the round it trained against. |
| Uploads.EveryUploadCounts | src/pww/central/globalstate.py:258-269 | Every upload is either merged or held against its cluster. |
| Uploads.ShareOfWeight | src/pww/central/globalstate.py:283-283 | Each share is in proportion to its weight. |
| Uploads.FurthestSteps | src/pww/central/globalstate.py:352-371 | The global step moves on by the largest number of steps of any merged upload. |
| GlobalStates.MergeCreditsTokens | src/pww/central/globalstate.py:346-350 | What the clusters are credited with over a merge is what the contributions brought. |
| GlobalStates.StaleCreditsNothing | src/pww/central/globalstate.py:258-275 | A rejected delta earns its cluster no tokens. |
| GlobalStates.SharesAddUp | src/pww/central/globalstate.py:276-283 | Normalised shares add up to one. |
| Strategy.KeptExamples | src/pww/central/strategy.py:1120-1223 | The survivors' tokens are positive; they are at most the total and what counts below zero take off it, and all of that when nobody who reported was dropped. |
| Strategy.FactorIsOne | src/pww/central/strategy.py:1194-1222 | What is merged is the survivors' mean, not a multiple of it, if and only if someone who reported was dropped or no count is below zero. |
| Strategy.RescaledShares | src/pww/central/strategy.py:1206-1227 | Shares of the original total, rescaled after drops, are shares of what survived. |
| Strategy.InlineAgrees | src/pww/central/strategy.py:1153-1287 | For any set of dropped clusters the inline merge leaves the weights and velocities that streaming the survivors' deltas would. |
| Strategy.TwoSurvivorsAgree | src/pww/central/strategy.py:1261-1287 | With two or more survivors the aggregator steps at the configured rate, so it leaves exactly what the streamed merge at that rate and momentum would. |
| Survivors.LargestExactly | src/pww/central/strategy.py:1177-1180 | The largest weight bounds every weight in size and is the size of one of them unless all are zero. |
| Survivors.UsableExactly | src/pww/central/strategy.py:1156-1205 | A cluster is used if and only if it reports examples, its weights are finite, and each is at most a thousand times some weight of the incumbent, if there is one with any but zeros. |
| Survivors.SurvivorsInOrder | src/pww/central/strategy.py:1156-1212 | The survivors are exactly the usable results, in their order. |
| Survivors.SomeoneDropped | src/pww/central/strategy.py:1219-1219 | Shares are rescaled exactly when someone who reported examples is not usable. |
| Survivors.FurthestSurvivor | src/pww/central/strategy.py:1306-1309 | The global step moves on by the largest number of steps of any survivor. |
| Survivors.SurvivorsAgree | src/pww/central/strategy.py:1261-1287 | However many survive, the inline merge is the streamed one at the configured rate, or at rate 1 for a single survivor that is to be taken whole. |
| Survivors.SoloIsAdoptedExactly | src/pww/central/strategy.py:1247-1256 | A first merge with a single survivor leaves its weights plus momentum times the change: they are adopted as they are if and only if there is no momentum or no change. |
| Strategy.InlineAggregator.Aggregate | src/pww/central/strategy.py:1119-1312 | Merges exactly when the counts add up to something and someone usable reported, whatever the counts: the mean of the survivors times that factor, one outer step, one round, the largest step count. |
| Strategy.RejectDuplicates | src/pww/central/strategy.py:944-979 | Keeps the contributions of clusters that reported once. |
| Strategy.HeardOnce | src/pww/central/strategy.py:944-979 | A cluster that reported once is heard once; one that reported more often is not heard at all. |
| OuterLoops.OuterLoop.OuterStep | src/pww/diloco.py:408-434 | Every weight descends the replicas' mean gradient with Nesterov momentum; the phase counter restarts. |
| OuterLoops.OuterLoop.InnerStep | src/pww/diloco.py:373-384 | Every H-th inner step takes the outer step; the others change nothing. |
| Waterfill.BestShapeAt | slurm-scanner-main/server/plan.py:290-299 | No shape of the site is preferred to the chosen one at the horizon. |
| Waterfill.FirstOfBest | slurm-scanner-main/server/plan.py:290-299 | The chosen shape is the first of those with the most capacity, among them the fewest GPUs, among them the shortest wait. |
| Waterfill.ShapeCapacityExactly | slurm-scanner-main/server/plan.py:283-287 | Nothing before the expected start, the shape's rate from then on, and what its longest job does after that. |
| Waterfill.CapacityAtMonotone | slurm-scanner-main/server/plan.py:302-307 | What the sites finish together never falls as the horizon grows. |
| Waterfill.LatestCovers | slurm-scanner-main/server/plan.py:322-327 | By the latest finish the sites have done all they ever will, and at least their whole caps. |
| Waterfill.HorizonFor | slurm-scanner-main/server/plan.py:314-335 | The answer covers the request whenever any horizon does, and every covering horizon is later than it less 2^-60 of the latest finish. |
| Rounding.SortByFraction | slurm-scanner-main/server/plan.py:345-346 | A stable order by descending remainder. |
| Rounding.LargestRemainder | slurm-scanner-main/server/plan.py:339-358 | Counts within the caps, from the whole parts up; the total is exactly the target whenever caps and whole parts allow; nobody below cap is more than one unit behind anybody, nor behind one with a smaller remainder. |
| Rounding.LargestFirst | slurm-scanner-main/server/plan.py:345-358 | The share with the larger part behind the point, or the first of equal ones, has got no fewer extra units than the other unless it is at its cap. |
| Rounding.QuotaRule | slurm-scanner-main/server/plan.py:339-358 | Where no cap stands in the way, counts that add up to the shares are each within one unit of their share. |
| Planner.Split | slurm-scanner-main/server/plan.py:361-372 | A split at a horizon that covers the target and is the earliest to within the last halving. |
| Planner.SharesProportional | slurm-scanner-main/server/plan.py:366-371 | Each site's share is to the target as what its chosen shape can do by the horizon is to what all can. |
| Planner.SplitTotal | slurm-scanner-main/server/plan.py:361-372 | Never more than the target; no unit is lost with one shape per site; otherwise fewer are than there are sites. |
| Planner.SplitExactly | slurm-scanner-main/server/plan.py:361-372 | No unit is lost if and only if the shapes preferred at the first horizon that covers the target have caps for all of it (if the preferences there hold for as long as the search may be off). |
| Planner.NoneLost | slurm-scanner-main/server/plan.py:361-372 | From the sites alone: no unit of any request is lost when every shape of all sites but one can do a whole number of units in full, or every shape is of its site's whole cap. |
| Planner.SplitLosesUnits | slurm-scanner-main/server/plan.py:361-372 | Two like sites of one and a half units per GPU and hour, with one GPU now or two later, could take six units and are split two of three. |
| Assignment.Assign | slurm-scanner-main/server/plan.py:375-405 | Turn by turn the first of the smallest shares under their minimum is dropped if others can do all without it, and pinned if not, until none is left; every site is assigned or dropped; the target never moves; and every site left under its minimum is one the rest could not replace. |
| Assignment.DropKeeps | slurm-scanner-main/server/plan.py:393-403 | A drop leaves the target as it was, and a pinned site indispensable. |
| Assignment.MakePlan | slurm-scanner-main/server/plan.py:413-470 | Every cluster appears once, in a row or excluded; placed and unplaced units add up to the request; with one shape per site nothing placeable is left. |
| TensorFiles.Align | src/pww/tensorio.py:76-78 | The next 64-byte boundary at or after the offset. |
| TensorFiles.LengthReadsBack | src/pww/tensorio.py:139-139 | The length prefix reads back, low byte first. |
| TensorFiles.ParseUndoesFile | src/pww/tensorio.py:181-198 | A closed file opens exactly when its header's length is one the reader accepts. |
| TensorFiles.ParsesExactly | src/pww/tensorio.py:181-198 | Any bytes: refused for fewer than eight, then a length outside 1 to 64 MiB, then an unreadable header, then another format; otherwise split behind the header. |
| TensorFiles.RangesApart | src/pww/tensorio.py:102-124 | Whatever was refused in between, recorded ranges are on 64-byte boundaries and share no byte. |
| TensorFiles.GetUndoesAdd | src/pww/tensorio.py:102-124 | A kept tensor with bytes is always found with its dtype, shape and number of bytes, and the bytes are its own if and only if they coincide with those at the recorded range, which lies before them by the bytes refused so far; one without bytes is not read back. |
| TensorFiles.ReadsBackExactly | src/pww/tensorio.py:102-244 | Whatever bytes they hold, all kept tensors come back if and only if each has bytes and none comes after one that left bytes behind when refused. |
| TensorFiles.ReadsTheRefused | src/pww/tensorio.py:115-120 | One byte of a dtype without a name is refused; the one byte added after it reads back as that. |
| TensorFiles.TensorWriter.Add | src/pww/tensorio.py:102-124 | Refused when closed or for a repeated key, changing nothing, or for an unnamed dtype, leaving its bytes behind; otherwise kept. What is staged is always what the additions so far make. |
| TensorFiles.TensorWriter.Close | src/pww/tensorio.py:126-152 | After any additions, refused ones included, the file is the length, the header and the staged data; a second close changes nothing. |
| TensorFiles.TensorFile.Open | src/pww/tensorio.py:181-198 | The parsed file, or why it was refused: too short, implausible length, unreadable header, another format. |
| TensorFiles.TensorFile.Read | src/pww/tensorio.py:228-244 | The tensor its entry describes, or why not: no entry, a seek before the file, a file cut short, a dtype without a name, no bytes. |
| TensorFiles.ReaderUndoesWriter | src/pww/tensorio.py:102-244 | After any additions and a close, the file opens exactly when its header is of an accepted length; then a kept tensor comes back with its bytes, dtype and shape exactly if it has bytes and they coincide with those at its recorded range, as they do when nothing before it left bytes behind. |

## Left out

- LeaseTables.LeaseTable.Acquire: which of several equally slow victims is robbed first is left open (the source breaks exact ties by insertion order); any such choice is proved safe.
- LeaseTables.LeaseTable.Steal: the same choice between equally slow victims is left open.
- LeaseTables.LeaseTable.Heartbeat: the reply's heartbeat interval and reason text are not modelled.
- Journals.ReplayAllKeeps: one clock reading serves a whole entry, where the source reads it for each lease of a grant; deadlines are arbitrary either way.
- Recovery.RecoveryInventsNothing: stated within one epoch; EpochRecovery says what replay makes of a change of epoch, and Journals.ReplayAllSound that it stays sound.
- ExactRecovery.RecoveryIsExact: lease deadlines, and progress reported since the snapshot, are not promised; the log does not hold them.
- LeaseSystem.AlwaysInStep: assumes one session per cluster id, a coordinator that does not restart, and a session that commits no more than it has consumed.
- Sessions.LeaseSession.Commit: the reply is a parameter, so one call is one step; LeaseSystem splits asking and hearing.
- Sessions.LeaseSession.CommitAll: the replies are given as a map, one for each span.
- OuterLoops.OuterLoop.OuterStep: one process sees every replica's weights instead of a collective; the plain SGD and AdamW options are not modelled.
- TensorFiles.TensorFile.Read: tensors are bytes with a dtype and a shape; the conversions between bytes and tensors, beyond their refusal of no bytes, and the cast on reading are not modelled.
- Corpus.SpanReadsOnce: positions are taken to lie in the space and spans not to be inverted; the errors the source raises otherwise are not modelled.
- Coordinators.Coordinator.Load: the log is taken to hold entries recorded for a table of the same size, and a snapshot that covers its blocks to describe a sound table.
- CrashRecovery.CrashLosesNothing: a coordinator started afresh over another one's files (`--fresh`) counts as having no snapshot until it writes one.
- RunDoubleReplays.RunDoubleReplayExactly: exact for logs without releases; for logs with releases RunNothingLoose and Recovery.DoubleReplay are sufficient conditions only.
- InOrderReplay.LoadsExactly: assumes that no release is refused to a cluster that holds something; such a release can take away the very lease whose commit would do harm.
- Planner.SplitExactly: assumes that preferences do not change within 2^-60 of the latest finish after the first covering horizon, which the search cannot tell apart.
- Strategy.InlineAggregator.Aggregate: whether a result holds a nan or an infinity is a flag, since weights are reals.
- Status-only counters (blocks lost, expiries, stolen and granted totals), the event ring, `_retry_after` and status formatting: read by people only.
- HTTP, tokens, retries and backoff, threads, signals, fsync and file renames: each RPC is one atomic step under the coordinator's lock, and files are replaced atomically.
- Floating-point rounding, storage and wire dtypes: all arithmetic is over reals.
- JSON and lease-id text: encodings are taken to be injective; an id is its epoch, start and number, or foreign text.
- Registration conflicts across restarts, the Jensen and QSR controllers, the blob store, Flower, trainers and the CLI: plumbing around the parts modelled here.
- The planner's probe filtering and report fields beyond units and clusters: one-branch facts.
