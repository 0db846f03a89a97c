/** The dashboard's derived view (src/components/Dashboard.tsx:46-67): copy the
    canonical incidents, keep those the severity filter admits, then sort the
    copy by report time with a stable sort and the source's comparator. */
module Projection {
  import opened Types
  import opened Seqs

  /** The comparator passed to `sort` (Dashboard.tsx:60-64): negative when `a`
      goes first, zero when the two are tied. */
  function Compare(o: SortOrder, a: Incident, b: Incident): int
  {
    if o == Newest then b.reportedAt - a.reportedAt else a.reportedAt - b.reportedAt
  }

  /** Every pair is in comparator order. */
  ghost predicate Sorted(o: SortOrder, s: seq<Incident>)
  {
    forall i, j :: 0 <= i < j < |s| ==> Compare(o, s[i], s[j]) <= 0
  }

  /** Records reported at the same instant appear in `r` in the order they had in `s`. */
  ghost predicate StableWith(r: seq<Incident>, s: seq<Incident>)
  {
    forall t :: Filter(r, ReportedAt(t)) == Filter(s, ReportedAt(t))
  }

  /** Inserts `x` ahead of every element it does not strictly follow. Elements that
      compare equal to `x` come after it, because `x` came before them in the input. */
  function Insert(o: SortOrder, x: Incident, s: seq<Incident>): seq<Incident>
  {
    if s == [] then [x]
    else if Compare(o, s[0], x) < 0 then [s[0]] + Insert(o, x, s[1..])
    else [x] + s
  }

  /** A stable insertion sort: the result of sorting `s` with `Compare`. */
  function Sort(o: SortOrder, s: seq<Incident>): seq<Incident>
  {
    if s == [] then [] else Insert(o, s[0], Sort(o, s[1..]))
  }

  /** `y` may stand in front of every element of `s`. */
  ghost predicate Leads(o: SortOrder, y: Incident, s: seq<Incident>)
  {
    forall j :: 0 <= j < |s| ==> Compare(o, y, s[j]) <= 0
  }

  lemma SortedCons(o: SortOrder, y: Incident, s: seq<Incident>)
    ensures Sorted(o, [y] + s) <==> Leads(o, y, s) && Sorted(o, s)
  {
    var t := [y] + s;
    if Leads(o, y, s) && Sorted(o, s) {
      forall i, j | 0 <= i < j < |t|
        ensures Compare(o, t[i], t[j]) <= 0
      {
        if i == 0 {
          assert t[j] == s[j - 1];
        } else {
          assert t[i] == s[i - 1] && t[j] == s[j - 1];
        }
      }
    }
    if Sorted(o, t) {
      forall j | 0 <= j < |s|
        ensures Compare(o, y, s[j]) <= 0
      {
        assert t[0] == y && t[j + 1] == s[j];
      }
      forall i, j | 0 <= i < j < |s|
        ensures Compare(o, s[i], s[j]) <= 0
      {
        assert t[i + 1] == s[i] && t[j + 1] == s[j];
      }
    }
  }

  /** Insertion adds exactly `x`. */
  lemma {:induction false} InsertMultiset(o: SortOrder, x: Incident, s: seq<Incident>)
    ensures multiset(Insert(o, x, s)) == multiset{x} + multiset(s)
  {
    if s != [] {
      assert s == [s[0]] + s[1..];
      if Compare(o, s[0], x) < 0 {
        InsertMultiset(o, x, s[1..]);
      }
    }
  }

  /** An element that leads `s` and does not follow `x` leads `s` with `x` inserted. */
  lemma {:induction false} InsertLeads(o: SortOrder, y: Incident, x: Incident, s: seq<Incident>)
    requires Leads(o, y, s) && Compare(o, y, x) <= 0
    ensures Leads(o, y, Insert(o, x, s))
  {
    if s != [] && Compare(o, s[0], x) < 0 {
      InsertLeads(o, y, x, s[1..]);
      assert Leads(o, y, [s[0]] + Insert(o, x, s[1..]));
    } else if s != [] {
      assert Leads(o, y, [x] + s);
    }
  }

  /** Insertion into a sorted sequence keeps it sorted. */
  lemma {:induction false} InsertSorted(o: SortOrder, x: Incident, s: seq<Incident>)
    requires Sorted(o, s)
    ensures Sorted(o, Insert(o, x, s))
  {
    if s == [] {
    } else if Compare(o, s[0], x) < 0 {
      assert s == [s[0]] + s[1..];
      SortedCons(o, s[0], s[1..]);
      InsertSorted(o, x, s[1..]);
      InsertLeads(o, s[0], x, s[1..]);
      SortedCons(o, s[0], Insert(o, x, s[1..]));
    } else {
      forall j | 0 <= j < |s|
        ensures Compare(o, x, s[j]) <= 0
      {
        if j > 0 {
          assert Compare(o, s[0], s[j]) <= 0;
        }
      }
      SortedCons(o, x, s);
    }
  }

  /** `Sort` returns a sorted permutation of its input. */
  lemma {:induction false} SortSpec(o: SortOrder, s: seq<Incident>)
    ensures multiset(Sort(o, s)) == multiset(s)
    ensures Sorted(o, Sort(o, s))
  {
    if s != [] {
      SortSpec(o, s[1..]);
      InsertMultiset(o, s[0], Sort(o, s[1..]));
      InsertSorted(o, s[0], Sort(o, s[1..]));
      assert s == [s[0]] + s[1..];
    }
  }

  /** Inserting `x` adds it in front of the records reported at its instant and
      leaves every other instant's records as they were. */
  lemma {:induction false} InsertStable(o: SortOrder, x: Incident, s: seq<Incident>, t: int)
    ensures Filter(Insert(o, x, s), ReportedAt(t))
         == if x.reportedAt == t then [x] + Filter(s, ReportedAt(t)) else Filter(s, ReportedAt(t))
  {
    if s != [] && Compare(o, s[0], x) < 0 {
      InsertStable(o, x, s[1..], t);
      assert ([s[0]] + Insert(o, x, s[1..]))[1..] == Insert(o, x, s[1..]);
    } else if s != [] {
      assert ([x] + s)[1..] == s;
    }
  }

  /** `Sort` is stable. */
  lemma {:induction false} SortStable(o: SortOrder, s: seq<Incident>)
    ensures StableWith(Sort(o, s), s)
  {
    if s != [] {
      SortStable(o, s[1..]);
      forall t
        ensures Filter(Sort(o, s), ReportedAt(t)) == Filter(s, ReportedAt(t))
      {
        InsertStable(o, s[0], Sort(o, s[1..]), t);
      }
    }
  }

  /** Sorted and stable determine the result: any stable sort with this
      comparator, such as the engine's `Array.prototype.sort`, returns `Sort(o, s)`. */
  lemma SortUnique(o: SortOrder, s: seq<Incident>, r: seq<Incident>)
    requires Sorted(o, r) && StableWith(r, s)
    ensures r == Sort(o, s)
  {
    SortStable(o, s);
    SortSpec(o, s);
    SortedStableEqual(o, r, Sort(o, s));
  }

  /** How a filter starts. */
  lemma FilterHead(s: seq<Incident>, p: Incident -> bool)
    requires s != []
    ensures p(s[0]) ==> Filter(s, p) == [s[0]] + Filter(s[1..], p)
    ensures !p(s[0]) ==> Filter(s, p) == Filter(s[1..], p)
  {
  }

  /** A sequence is empty exactly when no instant has a record in it. */
  lemma EmptyByInstants(s: seq<Incident>)
    ensures s == [] ==> forall t :: Filter(s, ReportedAt(t)) == []
    ensures s != [] ==> Filter(s, ReportedAt(s[0].reportedAt)) != []
  {
  }

  /** The head of a sorted sequence is in comparator order with every element of it. */
  lemma HeadNotAfter(o: SortOrder, s: seq<Incident>, x: Incident)
    requires Sorted(o, s) && s != [] && x in s
    ensures Compare(o, s[0], x) <= 0
  {
    var j :| 0 <= j < |s| && s[j] == x;
    if j > 0 {
      assert Compare(o, s[0], s[j]) <= 0;
    }
  }

  lemma {:induction false} SortedStableEqual(o: SortOrder, a: seq<Incident>, b: seq<Incident>)
    requires Sorted(o, a) && Sorted(o, b)
    requires forall t :: Filter(a, ReportedAt(t)) == Filter(b, ReportedAt(t))
    ensures a == b
    decreases |a|
  {
    EmptyByInstants(a);
    EmptyByInstants(b);
    if a == [] || b == [] {
      assert a == [] && b == [];
    } else {
      var ta, tb := a[0].reportedAt, b[0].reportedAt;
      FilterHead(a, ReportedAt(ta));
      FilterHead(b, ReportedAt(tb));
      FilterMembers(b, ReportedAt(ta));
      FilterMembers(a, ReportedAt(tb));
      assert a[0] in Filter(b, ReportedAt(ta));
      assert b[0] in Filter(a, ReportedAt(tb));
      HeadNotAfter(o, b, a[0]);
      HeadNotAfter(o, a, b[0]);
      assert ta == tb;
      assert a[0] == b[0];
      forall t
        ensures Filter(a[1..], ReportedAt(t)) == Filter(b[1..], ReportedAt(t))
      {
        FilterHead(a, ReportedAt(t));
        FilterHead(b, ReportedAt(t));
        assert Filter(a, ReportedAt(t)) == Filter(b, ReportedAt(t));
        if t == ta {
          assert [a[0]] + Filter(a[1..], ReportedAt(t)) == [b[0]] + Filter(b[1..], ReportedAt(t));
          assert Filter(a[1..], ReportedAt(t)) == ([a[0]] + Filter(a[1..], ReportedAt(t)))[1..];
        }
      }
      SortedCons(o, a[0], a[1..]);
      SortedCons(o, b[0], b[1..]);
      assert a == [a[0]] + a[1..];
      assert b == [b[0]] + b[1..];
      SortedStableEqual(o, a[1..], b[1..]);
    }
  }

  /** The filter step (Dashboard.tsx:52-58): the copy is kept whole for `All`. */
  function Matching(incidents: seq<Incident>, f: SeverityFilter): seq<Incident>
  {
    if f == All then incidents else Filter(incidents, HasSeverity(f.level))
  }

  /** Whether the filter lets an incident through. */
  predicate Admits(f: SeverityFilter, x: Incident)
  {
    f == All || x.severity == f.level
  }

  /** The projection the effect stores in `filteredIncidents`. */
  function Project(incidents: seq<Incident>, f: SeverityFilter, o: SortOrder): seq<Incident>
  {
    if |incidents| == 0 then [] else Sort(o, Matching(incidents, f))
  }

  /** The filter step keeps exactly the admitted incidents, every occurrence of
      each, in their canonical order. */
  lemma MatchingSpec(incidents: seq<Incident>, f: SeverityFilter)
    ensures forall x :: multiset(Matching(incidents, f))[x]
                     == if Admits(f, x) then multiset(incidents)[x] else 0
    ensures forall i :: 0 <= i < |Matching(incidents, f)| ==> Admits(f, Matching(incidents, f)[i])
    ensures Subsequence(Matching(incidents, f), incidents)
  {
    if f == All {
      SubsequenceRefl(incidents);
    } else {
      FilterMultiset(incidents, HasSeverity(f.level));
      FilterSubsequence(incidents, HasSeverity(f.level));
    }
  }

  lemma {:induction false} SubsequenceRefl(s: seq<Incident>)
    ensures Subsequence(s, s)
  {
    if s != [] {
      SubsequenceRefl(s[1..]);
    }
  }

  /** The projection holds, as a multiset, exactly the canonical incidents the
      filter admits. */
  lemma ProjectContents(incidents: seq<Incident>, f: SeverityFilter, o: SortOrder)
    ensures forall x :: multiset(Project(incidents, f, o))[x]
                     == if Admits(f, x) then multiset(incidents)[x] else 0
    ensures forall x :: x in Project(incidents, f, o) <==> x in incidents && Admits(f, x)
  {
    MatchingSpec(incidents, f);
    SortSpec(o, Matching(incidents, f));
    var p := Project(incidents, f, o);
    forall x
      ensures x in p <==> x in incidents && Admits(f, x)
    {
      assert (x in p) == (multiset(p)[x] > 0);
      assert (x in incidents) == (multiset(incidents)[x] > 0);
    }
  }

  /** Newest first is non-increasing in report time; oldest first is non-decreasing. */
  lemma ProjectOrdered(incidents: seq<Incident>, f: SeverityFilter, o: SortOrder)
    ensures o == Newest ==> forall i, j :: 0 <= i < j < |Project(incidents, f, o)| ==>
              Project(incidents, f, o)[i].reportedAt >= Project(incidents, f, o)[j].reportedAt
    ensures o == Oldest ==> forall i, j :: 0 <= i < j < |Project(incidents, f, o)| ==>
              Project(incidents, f, o)[i].reportedAt <= Project(incidents, f, o)[j].reportedAt
  {
    var p := Project(incidents, f, o);
    SortSpec(o, Matching(incidents, f));
    assert Sorted(o, p);
    forall i, j | 0 <= i < j < |p|
      ensures o == Newest ==> p[i].reportedAt >= p[j].reportedAt
      ensures o == Oldest ==> p[i].reportedAt <= p[j].reportedAt
    {
      assert Compare(o, p[i], p[j]) <= 0;
    }
  }

  /** Ties on report time keep the order the filter step left them in, which is
      their canonical order. */
  lemma ProjectStable(incidents: seq<Incident>, f: SeverityFilter, o: SortOrder)
    ensures StableWith(Project(incidents, f, o), Matching(incidents, f))
    ensures Subsequence(Matching(incidents, f), incidents)
  {
    MatchingSpec(incidents, f);
    if |incidents| == 0 {
      assert Matching(incidents, f) == [];
    } else {
      SortStable(o, Matching(incidents, f));
    }
  }

  /** Re-projecting a projection with the same filter and order changes nothing. */
  lemma ProjectIdempotent(incidents: seq<Incident>, f: SeverityFilter, o: SortOrder)
    ensures Project(Project(incidents, f, o), f, o) == Project(incidents, f, o)
  {
    var p := Project(incidents, f, o);
    if |p| > 0 {
      MatchingSpec(incidents, f);
      SortSpec(o, Matching(incidents, f));
      if f != All {
        forall i | 0 <= i < |p|
          ensures HasSeverity(f.level)(p[i])
        {
          assert p[i] in multiset(p);
        }
        FilterKeepsAll(p, HasSeverity(f.level));
      }
      assert Matching(p, f) == p;
      SortStable(o, p);
      SortSpec(o, p);
      SortedStableEqual(o, p, Sort(o, p));
    }
  }

  /** The early return (Dashboard.tsx:47-50): nothing in, nothing shown. */
  lemma ProjectEmpty(f: SeverityFilter, o: SortOrder)
    ensures Project([], f, o) == []
  {
  }

  /** An incident appended to the canonical list shows up in the next projection
      exactly when the filter admits it. */
  lemma ProjectAppended(incidents: seq<Incident>, x: Incident, f: SeverityFilter, o: SortOrder)
    ensures x in Project(incidents + [x], f, o) <==> Admits(f, x)
    ensures multiset(Project(incidents + [x], f, o))[x]
         == multiset(Project(incidents, f, o))[x] + (if Admits(f, x) then 1 else 0)
  {
    ProjectContents(incidents, f, o);
    ProjectContents(incidents + [x], f, o);
    assert multiset(incidents + [x]) == multiset(incidents) + multiset{x};
  }

  /** Two records, High then a later Low: newest first puts the Low one first,
      and the High filter keeps only the High one. */
  lemma ScenarioTwoRecords(high: Incident, low: Incident)
    requires high.severity == High && low.severity == Low
    requires high.reportedAt < low.reportedAt
    ensures Project([high, low], All, Newest) == [low, high]
    ensures Project([high, low], Only(High), Newest) == [high]
  {
    assert [high, low][1..] == [low];
    assert Sort(Newest, [low]) == [low];
    assert Insert(Newest, high, [low]) == [low] + Insert(Newest, high, []);
    assert Filter([high, low], HasSeverity(High)) == [high];
    assert Sort(Newest, [high]) == [high];
  }
}
