/** Whom a steal robs, how much it takes from each and when it stops, in the fields of the leases. */
module StealOrder {
  import opened Intervals
  import opened LeaseModel

  /** Blocks beyond both watermarks. */
  function Untouched(l: Lease): int {
    if l.progressEnd >= l.committedEnd then l.end - l.progressEnd else l.end - l.committedEnd
  }

  /** Time its holder still needs: at its measured rate, or at a billionth of a block a second if none is known. */
  function TimeLeft(t: Table, l: Lease): real {
    (l.end - l.committedEnd) as real
      / if l.cluster in t.clusters && t.clusters[l.cluster].rate > 0.0 then t.clusters[l.cluster].rate else 0.000000001
  }

  predicate Robbable(t: Table, thief: ClusterId, l: Lease) {
    l.cluster != thief && Untouched(l) >= 2 * t.cfg.stealMinBlocks
  }

  /** Whoever is passed over, or robbed later, needs no longer to finish than the one robbed, and at equal
      times has no more left untouched. */
  lemma SlowestRobbed(t: Table, thief: ClusterId, want: int, victims: seq<LeaseId>, spans: seq<Interval>, t': Table,
                      i: nat, u: LeaseId)
    requires StoleFrom(t, thief, want, victims, spans, t') && i < |victims|
    requires u in t.leases && Robbable(t, thief, t.leases[u])
    requires forall j :: 0 <= j < i ==> victims[j] != u
    ensures victims[i] in t.leases
    ensures TimeLeft(t, t.leases[u]) <= TimeLeft(t, t.leases[victims[i]])
    ensures TimeLeft(t, t.leases[u]) == TimeLeft(t, t.leases[victims[i]]) ==>
              Untouched(t.leases[u]) <= Untouched(t.leases[victims[i]])
  {
    var v := victims[i];
    assert Candidate(t.cfg, t.leases, thief, v) && Candidate(t.cfg, t.leases, thief, u);
    assert u != v ==> !Slower(t.clusters, t.leases[u], t.leases[v]);
  }

  /** Each victim is another cluster's lease with enough left untouched; it loses, off its far end and
      beyond both watermarks, half of that rounded down, but no less than the minimum steal and no more than
      is still wanted. Nothing else of it changes, and nothing else in the table. */
  lemma RobbedFields(t: Table, thief: ClusterId, want: int, victims: seq<LeaseId>, spans: seq<Interval>, t': Table)
    requires StoleFrom(t, thief, want, victims, spans, t')
    ensures |victims| == |spans| && t' == t.(leases := t'.leases) && t'.leases.Keys == t.leases.Keys
    ensures forall i, j :: 0 <= i < j < |victims| ==> victims[i] != victims[j]
    ensures forall id :: id in t.leases && id !in victims ==> t'.leases[id] == t.leases[id]
    ensures forall i :: 0 <= i < |victims| ==>
              && victims[i] in t.leases && Robbable(t, thief, t.leases[victims[i]])
              && var l := t.leases[victims[i]];
                 var left := want - SpanTotal(spans[..i]);
                 var half := if Untouched(l) / 2 >= t.cfg.stealMinBlocks then Untouched(l) / 2 else t.cfg.stealMinBlocks;
                 && spans[i].hi == l.end && spans[i].hi - spans[i].lo == (if left <= half then left else half)
                 && t'.leases[victims[i]] == l.(end := spans[i].lo)
  {
    forall i | 0 <= i < |victims| ensures Robbable(t, thief, t.leases[victims[i]]) {
      assert Candidate(t.cfg, t.leases, thief, victims[i]);
    }
  }

  /** A steal takes no more than was asked for, at least the minimum from each victim; and it leaves someone
      who could be robbed alone only when less than the minimum is still wanted. */
  lemma StopsExactly(t: Table, thief: ClusterId, want: int, victims: seq<LeaseId>, spans: seq<Interval>, t': Table, u: LeaseId)
    requires StoleFrom(t, thief, want, victims, spans, t') && u in t.leases && Robbable(t, thief, t.leases[u])
    requires t.cfg.stealMinBlocks >= 1
    ensures want >= t.cfg.stealMinBlocks ==> victims != []
    ensures u in victims || want - SpanTotal(spans) < t.cfg.stealMinBlocks
    ensures forall i :: 0 <= i < |spans| ==> spans[i].hi - spans[i].lo >= t.cfg.stealMinBlocks
    ensures spans != [] ==> SpanTotal(spans) <= want
  {
    hide *;
    LeavesNobody(t, thief, want, victims, spans, t', u);
    RobbedFields(t, thief, want, victims, spans, t');
    TakesEnough(t, thief, want, victims, spans, t');
    LastTotal(spans);
  }

  lemma LastTotal(spans: seq<Interval>)
    ensures spans == [] ==> SpanTotal(spans) == 0
    ensures spans != [] ==>
              var k := |spans| - 1;
              SpanTotal(spans) == SpanTotal(spans[..k]) + spans[k].hi - spans[k].lo
  {
  }

  lemma LeavesNobody(t: Table, thief: ClusterId, want: int, victims: seq<LeaseId>, spans: seq<Interval>, t': Table, u: LeaseId)
    requires StoleFrom(t, thief, want, victims, spans, t') && u in t.leases && Robbable(t, thief, t.leases[u])
    ensures u in victims || want - SpanTotal(spans) < t.cfg.stealMinBlocks
  {
    hide SlowestFirst, Amounts, CutShort;
    assert Candidate(t.cfg, t.leases, thief, u);
  }

  lemma TakesEnough(t: Table, thief: ClusterId, want: int, victims: seq<LeaseId>, spans: seq<Interval>, t': Table)
    requires StoleFrom(t, thief, want, victims, spans, t')
    ensures |victims| == |spans|
    ensures forall i :: 0 <= i < |spans| ==> spans[i].hi - spans[i].lo >= t.cfg.stealMinBlocks
  {
    hide SlowestFirst, CutShort, Candidate;
  }

  // --- the straggler and the fast cluster -------------------------------------------

  const FAST := Lease(Issued(0, 0, 1), "A", 0, 0, 10, 0, 0, 0.0, 60.0, 60.0)
  const SLOW := Lease(Issued(0, 10, 2), "B", 0, 10, 20, 10, 10, 0.0, 60.0, 60.0)

  /** Two clusters hold ten untouched blocks each; A finishes in a second, B in a hundred. */
  function TwoHolders(): Table {
    Table(Config(20, "", 1, 3, 1, 20, 1.0, true, 1, 30.0), 0, 0, seq(20, _ => Leased), map[], 0, 0,
          map[FAST.id := FAST, SLOW.id := SLOW],
          map["A" := NewRecord(0.0).(rate := 10.0), "B" := NewRecord(0.0).(rate := 0.1), "C" := NewRecord(0.0)], 2)
  }

  /** C, asking for two blocks, is given the last two of B's, and A keeps all it has. */
  lemma StragglerIsRobbed(victims: seq<LeaseId>, spans: seq<Interval>, t': Table)
    requires StoleFrom(TwoHolders(), "C", 2, victims, spans, t')
    ensures victims == [SLOW.id] && spans == [Interval(18, 20)]
    ensures t' == TwoHolders().(leases := map[FAST.id := FAST, SLOW.id := SLOW.(end := 18)])
  {
    hide StoleFrom;
    var t := TwoHolders();
    RobbedFields(t, "C", 2, victims, spans, t');
    StopsExactly(t, "C", 2, victims, spans, t', SLOW.id);
    StragglerFirst(victims, spans, t');
    assert spans[..0] == [];
    assert spans == [spans[0]] + spans[1..];
    OneIsEnough(victims, spans, t');
  }

  lemma OneIsEnough(victims: seq<LeaseId>, spans: seq<Interval>, t': Table)
    requires StoleFrom(TwoHolders(), "C", 2, victims, spans, t') && victims != [] && victims[0] == SLOW.id
    requires spans != [] && spans[0] == Interval(18, 20)
    ensures |victims| == 1
  {
    TakesEnough(TwoHolders(), "C", 2, victims, spans, t');
    RobbedFields(TwoHolders(), "C", 2, victims, spans, t');
    hide StoleFrom;
    if |victims| > 1 {
      FirstAmount(spans);
    }
  }

  lemma FirstAmount(spans: seq<Interval>)
    requires |spans| >= 2 && spans[0] == Interval(18, 20)
    ensures SpanTotal(spans[..1]) == 2
  {
    assert spans[..1] == [Interval(18, 20)];
    assert spans[..1][..0] == [];
  }

  lemma StragglerFirst(victims: seq<LeaseId>, spans: seq<Interval>, t': Table)
    requires StoleFrom(TwoHolders(), "C", 2, victims, spans, t') && victims != []
    ensures victims[0] == SLOW.id
  {
    hide *;
    var t := TwoHolders();
    Holders();
    RobbedFields(t, "C", 2, victims, spans, t');
    SlowestRobbed(t, "C", 2, victims, spans, t', 0, SLOW.id);
  }

  lemma Holders()
    ensures var t := TwoHolders();
            && t.leases.Keys == {FAST.id, SLOW.id} && t.leases[FAST.id] == FAST && t.leases[SLOW.id] == SLOW
            && TimeLeft(t, FAST) == 1.0 && TimeLeft(t, SLOW) == 100.0 && Robbable(t, "C", SLOW)
  {
  }
}
