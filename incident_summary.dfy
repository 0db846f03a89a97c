/** The summary panel (src/components/IncidentSummary.tsx): the total badge and
    the per-severity counts. The dashboard hands it the canonical list, not the
    filtered view (src/components/Dashboard.tsx:263-264), so `incidents` here is
    always the canonical list. */
module IncidentSummary {
  import opened Types
  import opened Seqs

  /** `incidents.filter((i) => i.severity === level).length`. */
  function SeverityCount(incidents: seq<Incident>, level: Severity): (n: nat)
    ensures n <= |incidents|
  {
    |Filter(incidents, HasSeverity(level))|
  }

  /** What the total badge shows: "..." while loading, else the list's length. */
  datatype TotalBadge = Ellipsis | Total(count: nat)

  /** `loading ? "..." : incidents.length` (IncidentSummary.tsx:26). */
  function TotalBadgeFor(incidents: seq<Incident>, loading: bool): TotalBadge
  {
    if loading then Ellipsis else Total(|incidents|)
  }

  /** The positions of the records with a given severity. */
  ghost function PositionsWith(incidents: seq<Incident>, level: Severity): set<nat>
  {
    set i: nat | i < |incidents| && incidents[i].severity == level
  }

  /** Appending a record adds its position iff it has the severity. */
  lemma PositionsSnoc(t: seq<Incident>, x: Incident, level: Severity)
    ensures PositionsWith(t + [x], level)
         == PositionsWith(t, level) + (if x.severity == level then {|t|} else {})
    ensures |t| !in PositionsWith(t, level)
  {
    var s := t + [x];
    var rhs := PositionsWith(t, level) + (if x.severity == level then {|t|} else {});
    forall i | i in PositionsWith(s, level)
      ensures i in rhs
    {
      if i < |t| {
        assert s[i] == t[i];
      }
    }
    forall i | i in rhs
      ensures i in PositionsWith(s, level)
    {
      if i < |t| {
        assert s[i] == t[i];
      }
    }
  }

  /** Each count is the number of records with that severity. */
  lemma {:induction false} CountIsPositions(incidents: seq<Incident>, level: Severity)
    ensures SeverityCount(incidents, level) == |PositionsWith(incidents, level)|
    decreases |incidents|
  {
    if incidents == [] {
      assert PositionsWith(incidents, level) == {};
    } else {
      var n := |incidents| - 1;
      var t, x := incidents[..n], incidents[n];
      assert incidents == t + [x];
      CountIsPositions(t, level);
      FilterConcat(t, [x], HasSeverity(level));
      PositionsSnoc(t, x, level);
      assert Filter([x], HasSeverity(level)) == if x.severity == level then [x] else [];
    }
  }

  /** High, Medium and Low together account for every record, because a
      severity has exactly those three values. */
  lemma {:induction false} CountsSumToTotal(incidents: seq<Incident>)
    ensures SeverityCount(incidents, High) + SeverityCount(incidents, Medium)
            + SeverityCount(incidents, Low) == |incidents|
  {
    if incidents != [] {
      CountsSumToTotal(incidents[1..]);
    }
  }

  /** Once loaded, the total badge shows exactly the sum of the three counts. */
  lemma TotalBadgeMatchesCounts(incidents: seq<Incident>)
    ensures TotalBadgeFor(incidents, false)
         == Total(SeverityCount(incidents, High) + SeverityCount(incidents, Medium)
                  + SeverityCount(incidents, Low))
  {
    CountsSumToTotal(incidents);
  }

  /** A severity that no record has counts zero. */
  lemma CountAbsentZero(incidents: seq<Incident>, level: Severity)
    requires forall i :: 0 <= i < |incidents| ==> incidents[i].severity != level
    ensures SeverityCount(incidents, level) == 0
  {
    FilterDropsAll(incidents, HasSeverity(level));
  }

  /** Counts depend only on which records there are, not on their order. */
  lemma CountPermutationInvariant(a: seq<Incident>, b: seq<Incident>, level: Severity)
    requires multiset(a) == multiset(b)
    ensures SeverityCount(a, level) == SeverityCount(b, level)
  {
    FilterPermutation(a, b, HasSeverity(level));
  }

  /** Appending a record raises its own severity's count by one and no other. */
  lemma CountAppend(incidents: seq<Incident>, x: Incident, level: Severity)
    ensures SeverityCount(incidents + [x], level)
         == SeverityCount(incidents, level) + (if x.severity == level then 1 else 0)
  {
    FilterConcat(incidents, [x], HasSeverity(level));
  }
}
