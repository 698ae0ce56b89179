/** Which invocations a viewer chooses that has loaded a query, next to those that the query selects. */
module ViewerSelection {
  import opened Domain
  import opened Sequences
  import opened Sorting
  import opened Ranks
  import opened Queries
  import opened QueryTheorems
  import opened Viewer
  import opened LatencyWindow
  import opened Loading
  import QI = QueryIndependence
  import V = Validation

  // ---- The two sort orders ----

  lemma {:induction false} InsertAgree<T>(le: (T, T) -> bool, other: (T, T) -> bool, s: seq<T>, x: T)
    requires forall y | y in s :: le(y, x) == other(y, x)
    ensures Sorting.Insert(le, s, x) == Sorting.Insert(other, s, x)
  {
    if s != [] {
      assert s[|s| - 1] in s && forall y | y in s[..|s| - 1] :: y in s;
      InsertAgree(le, other, s[..|s| - 1], x);
    }
  }

  lemma {:induction false} SortAgree<T>(le: (T, T) -> bool, other: (T, T) -> bool, s: seq<T>)
    requires forall x, y | x in s && y in s :: le(x, y) == other(x, y)
    ensures Sort(le, s) == Sort(other, s)
  {
    if s != [] {
      var front := s[..|s| - 1];
      assert s[|s| - 1] in s && forall x | x in front :: x in s;
      SortAgree(le, other, front);
      SortMembers(le, front);
      forall y | y in Sort(le, front) ensures le(y, s[|s| - 1]) == other(y, s[|s| - 1]) {
        PartMember(Sort(le, front), front, y);
      }
      InsertAgree(le, other, Sort(le, front), s[|s| - 1]);
    }
  }

  /** On a validated profile the two orders are one. */
  lemma {:induction false} SameOrder(p: Profile, s: seq<Invocation>)
    requires V.WellFormed(p) && forall i | i in s :: i in p.invocations
    ensures Sort(ShownLe, s) == Sort(LatencyLe, s)
  {
    forall i | i in s ensures i.startNs <= i.endNs {
      var k :| 0 <= k < |p.invocations| && p.invocations[k] == i;
      assert V.InvocationOk(p, p.invocations[k]);
    }
    SortAgree(ShownLe, LatencyLe, s);
  }

  lemma {:induction false} AllMembers(w: View, calls: seq<Invocation>)
    ensures forall i :: i in All(w, calls) <==> i in calls && Shown(w, i)
    ensures forall i | i in Chosen(w, calls) :: i in calls && Shown(w, i)
  {
    ShownMembers(w, calls);
    SortMembers(ShownLe, ShownOf(w, calls));
    Members(All(w, calls), ShownOf(w, calls));
  }

  // ---- What the end of the capture leaves out ----

  /** The invocations that do not start at this time. */
  function Retained(calls: seq<Invocation>, end: nat): (r: seq<Invocation>)
    ensures |r| <= |calls|
  {
    if calls == [] then []
    else
      var front, i := Retained(calls[..|calls| - 1], end), calls[|calls| - 1];
      if i.startNs != end then front + [i] else front
  }

  lemma {:induction false} RetainedConcat(a: seq<Invocation>, b: seq<Invocation>, end: nat)
    ensures Retained(a + b, end) == Retained(a, end) + Retained(b, end)
  {
    if b == [] {
      assert a + b == a;
    } else {
      assert (a + b)[..|a + b| - 1] == a + b[..|b| - 1];
      RetainedConcat(a, b[..|b| - 1], end);
    }
  }

  lemma {:induction false} RetainedCount(calls: seq<Invocation>, end: nat, i: Invocation)
    ensures multiset(Retained(calls, end))[i] == if i.startNs != end then multiset(calls)[i] else 0
  {
    if calls != [] {
      RetainedCount(calls[..|calls| - 1], end, i);
      assert calls == calls[..|calls| - 1] + [calls[|calls| - 1]];
    }
  }

  lemma {:induction false} RetainedWhole(calls: seq<Invocation>, end: nat)
    requires forall i | i in calls :: i.startNs != end
    ensures Retained(calls, end) == calls
  {
    if calls != [] {
      assert calls[|calls| - 1] in calls && forall i | i in calls[..|calls| - 1] :: i in calls;
      RetainedWhole(calls[..|calls| - 1], end);
    }
  }

  lemma {:induction false} RetainedSorted(calls: seq<Invocation>, end: nat)
    requires Sorted(LatencyLe, calls)
    ensures Sorted(LatencyLe, Retained(calls, end))
    ensures forall i | i in Retained(calls, end) :: i in calls
  {
    if calls != [] {
      var front, last := calls[..|calls| - 1], calls[|calls| - 1];
      RetainedSorted(front, end);
      assert calls == front + [last];
      forall i | i in front ensures LatencyLe(i, last) {
        var k :| 0 <= k < |front| && front[k] == i;
        assert calls[k] == i && calls[|calls| - 1] == last;
      }
    }
  }

  /** Leaving invocations out and sorting commute. */
  lemma {:induction false} SortRetained(calls: seq<Invocation>, end: nat)
    requires forall i, j | 0 <= i < j < |calls| :: calls[i].id != calls[j].id
    ensures Sort(LatencyLe, Retained(calls, end)) == Retained(Sort(LatencyLe, calls), end)
  {
    var kept, sorted := Retained(calls, end), Sort(LatencyLe, calls);
    LatencyOrders();
    SortSorted(LatencyLe, calls);
    SortMembers(LatencyLe, calls);
    SortSorted(LatencyLe, kept);
    SortMembers(LatencyLe, kept);
    RetainedSorted(sorted, end);
    assert multiset(Retained(sorted, end)) == multiset(kept) by {
      forall i: Invocation ensures multiset(Retained(sorted, end))[i] == multiset(kept)[i] {
        RetainedCount(sorted, end, i);
        RetainedCount(calls, end, i);
      }
    }
    NoIdTies(calls, Sort(LatencyLe, kept), end);
    SortedUnique(LatencyLe, Sort(LatencyLe, kept), Retained(sorted, end));
  }

  lemma {:induction false} NoIdTies(calls: seq<Invocation>, part: seq<Invocation>, end: nat)
    requires forall i, j | 0 <= i < j < |calls| :: calls[i].id != calls[j].id
    requires multiset(part) == multiset(Retained(calls, end))
    ensures NoTies(LatencyLe, part)
  {
    forall i | i in part ensures i in calls {
      RetainedCount(calls, end, i);
      assert i in multiset(part);
      assert i in multiset(calls);
    }
    forall a, b | 0 <= a < |part| && 0 <= b < |part| && LatencyLe(part[a], part[b]) && LatencyLe(part[b], part[a])
      ensures part[a] == part[b]
    {
      assert part[a] in part && part[b] in part;
      var i :| 0 <= i < |calls| && calls[i] == part[a];
      var j :| 0 <= j < |calls| && calls[j] == part[b];
      assert i < j || j < i || i == j;
    }
  }

  lemma {:induction false} ShownRetained(p: Profile, q: Query, calls: seq<Invocation>)
    requires V.WellFormed(p) && LegalQuery(q) && Overlaps(Bounds(p), q.time)
        && forall i | i in calls :: i in p.invocations
    ensures ShownOf(LoadedView(p, q), calls) == Retained(EligibleOf(q, calls), Bounds(p).to)
  {
    if calls != [] {
      var front, i := calls[..|calls| - 1], calls[|calls| - 1];
      assert i in calls && forall j | j in front :: j in calls;
      ShownRetained(p, q, front);
      ShownOverlapping(p, q, i);
      if Eligible(q, i) {
        assert (EligibleOf(q, front) + [i])[..|EligibleOf(q, front)|] == EligibleOf(q, front);
      }
    }
  }

  /** If the times overlap, the viewer lists the candidates but for those at the end of the capture. */
  lemma {:induction false} AllRetained(p: Profile, q: Query)
    requires V.WellFormed(p) && LegalQuery(q) && Overlaps(Bounds(p), q.time)
    ensures All(LoadedView(p, q), p.invocations) == Retained(Candidates(q, p.invocations), Bounds(p).to)
  {
    var s := ShownOf(LoadedView(p, q), p.invocations);
    ShownMembers(LoadedView(p, q), p.invocations);
    SameOrder(p, s);
    ShownRetained(p, q, p.invocations);
    QI.UniqueIds(p);
    EligibleUnique(q, p.invocations);
    SortRetained(EligibleOf(q, p.invocations), Bounds(p).to);
  }

  lemma {:induction false} EligibleUnique(q: Query, calls: seq<Invocation>)
    requires forall i, j | 0 <= i < j < |calls| :: calls[i].id != calls[j].id
    ensures
      var e := EligibleOf(q, calls);
      forall i, j | 0 <= i < j < |e| :: e[i].id != e[j].id
  {
    EligibleDistinct(q, calls);
    var e := EligibleOf(q, calls);
    forall i, j | 0 <= i < j < |e| ensures e[i].id != e[j].id {
      assert e[i] in e && e[j] in e;
    }
  }

  // ---- When the selections are the same ----

  /** Blocks of a sequence without repetitions are equal only if they have the same bounds or are empty. */
  lemma SameSlices(s: seq<Invocation>, a: (nat, nat), b: (nat, nat))
    requires Distinct(s) && b.0 <= b.1 <= |s| && a.0 <= |s| && a.1 <= |s|
    ensures Slice(s, a) == s[b.0..b.1] <==> a == b || (Slice(s, a) == [] && s[b.0..b.1] == [])
  {
    if Slice(s, a) == s[b.0..b.1] && Slice(s, a) != [] {
      assert Slice(s, a)[0] == s[a.0] && s[b.0..b.1][0] == s[b.0];
      assert |Slice(s, a)| == a.1 - a.0;
    }
  }

  lemma {:induction false} ExactRanks(n: nat, range: PercentileRange)
    requires range.Legal() && CeilRank(n, range.high) <= U64_MAX / 100
    ensures RankBounds(n, range) == (CeilRank(n, range.low), CeilRank(n, range.high))
    ensures CeilRank(n, range.low) <= CeilRank(n, range.high) <= n
  {
    RankExact(n, range.high);
    TimesRises(n, range.low, range.high);
    RankExact(n, range.low);
  }

  /** The ranks by which the viewer chooses. */
  function LoadedRanks(p: Profile, q: Query): (nat, nat)
    requires q.percentile.Legal()
  {
    LoadedBounds(Durations(All(LoadedView(p, q), p.invocations)), q.percentile)
  }

  /**
   The condition on the ranks and the starts: an empty selection stays empty; of any other nothing starts at
   the end of the capture, and the viewer's ranks span as many, after all that is ranked before the selection
   and does not start there.
   */
  ghost predicate SelectionKept(p: Profile, q: Query)
    requires q.percentile.Legal()
  {
    var candidates, end := Candidates(q, p.invocations), Bounds(p).to;
    var (from, to) := RankBounds(|candidates|, q.percentile);
    var loaded := LoadedRanks(p, q);
    RankBoundsOrdered(|candidates|, q.percentile);
    if from == to then loaded.1 <= loaded.0
    else
      && (forall n | from <= n < to :: candidates[n].startNs != end)
      && loaded.0 == |Retained(candidates[..from], end)|
      && loaded.1 == loaded.0 + to - from
  }

  lemma {:induction false} ChosenIs(p: Profile, q: Query)
    requires q.percentile.Legal()
    ensures
      var all, loaded := All(LoadedView(p, q), p.invocations), LoadedRanks(p, q);
      && loaded.0 <= |all| && loaded.1 <= |all|
      && Chosen(LoadedView(p, q), p.invocations) == Slice(all, loaded)
      && (Chosen(LoadedView(p, q), p.invocations) == [] <==> loaded.1 <= loaded.0)
  {
  }

  /** A block of the candidates in which nothing is left out is a block of what is retained. */
  lemma {:induction false} RetainedBlock(calls: seq<Invocation>, end: nat, from: nat, to: nat)
    requires from <= to <= |calls| && forall n | from <= n < to :: calls[n].startNs != end
    ensures
      var r, kept := |Retained(calls[..from], end)|, Retained(calls, end);
      r + to - from <= |kept| && kept[r..r + to - from] == calls[from..to]
  {
    RetainedWhole(calls[from..to], end);
    RetainedConcat(calls[..from], calls[from..to], end);
    RetainedConcat(calls[..from] + calls[from..to], calls[to..], end);
    assert calls[..from] + calls[from..to] + calls[to..] == calls;
  }

  lemma {:induction false} RetainedDistinct(calls: seq<Invocation>, end: nat)
    requires forall i, j | 0 <= i < j < |calls| :: calls[i].id != calls[j].id
    ensures Distinct(Retained(calls, end)) && forall i | i in Retained(calls, end) :: i in calls && i.startNs != end
  {
    if calls != [] {
      RetainedDistinct(calls[..|calls| - 1], end);
    }
  }

  /**
   On a validated profile and for every legal query: a viewer that has loaded the query chooses what the
   query selects if and only if the condition holds.
   */
  lemma {:induction false} SelectionExact(p: Profile, q: Query)
    requires V.WellFormed(p) && LegalQuery(q)
    ensures Chosen(LoadedView(p, q), p.invocations) == Selected(q, p.invocations) <==> SelectionKept(p, q)
  {
    var candidates := Candidates(q, p.invocations);
    var (from, to) := RankBounds(|candidates|, q.percentile);
    RankBoundsOrdered(|candidates|, q.percentile);
    ChosenIs(p, q);
    if from < to {
      if Overlaps(Bounds(p), q.time) { OverlappingExact(p, q); } else { ApartExact(p, q); }
    }
  }

  /** A non-empty block of the candidates is a block of the retained ones exactly when it lost nothing. */
  lemma {:induction false} BlockExact(calls: seq<Invocation>, end: nat, loaded: (nat, nat), from: nat, to: nat)
    requires forall i, j | 0 <= i < j < |calls| :: calls[i].id != calls[j].id
    requires from < to <= |calls|
    requires loaded.0 <= |Retained(calls, end)| && loaded.1 <= |Retained(calls, end)|
    ensures
      Slice(Retained(calls, end), loaded) == calls[from..to] <==>
      && (forall n | from <= n < to :: calls[n].startNs != end)
      && loaded.0 == |Retained(calls[..from], end)|
      && loaded.1 == loaded.0 + to - from
  {
    var kept := Retained(calls, end);
    RetainedDistinct(calls, end);
    if n :| from <= n < to && calls[n].startNs == end {
      assert calls[from..to][n - from] == calls[n];
      assert calls[n] in calls[from..to] && calls[n] !in kept;
    } else {
      var r := |Retained(calls[..from], end)|;
      RetainedBlock(calls, end, from, to);
      SameSlices(kept, loaded, (r, r + to - from));
    }
  }

  lemma {:induction false} OverlappingExact(p: Profile, q: Query)
    requires V.WellFormed(p) && LegalQuery(q) && Overlaps(Bounds(p), q.time) && Selected(q, p.invocations) != []
    ensures Chosen(LoadedView(p, q), p.invocations) == Selected(q, p.invocations) <==> SelectionKept(p, q)
  {
    var candidates := Candidates(q, p.invocations);
    var (from, to) := RankBounds(|candidates|, q.percentile);
    RankBoundsOrdered(|candidates|, q.percentile);
    ChosenIs(p, q);
    AllRetained(p, q);
    QI.UniqueIds(p);
    CandidatesDistinct(q, p.invocations);
    BlockExact(candidates, Bounds(p).to, LoadedRanks(p, q), from, to);
  }

  lemma {:induction false} ApartExact(p: Profile, q: Query)
    requires V.WellFormed(p) && LegalQuery(q) && !Overlaps(Bounds(p), q.time) && Selected(q, p.invocations) != []
    ensures Chosen(LoadedView(p, q), p.invocations) != Selected(q, p.invocations) && !SelectionKept(p, q)
  {
    var candidates := Candidates(q, p.invocations);
    var (from, to) := RankBounds(|candidates|, q.percentile);
    RankBoundsOrdered(|candidates|, q.percentile);
    var i := Selected(q, p.invocations)[0];
    assert i == candidates[from] && i in candidates && i in Selected(q, p.invocations);
    CandidatesAre(q, p.invocations);
    ShownApart(p, q, i);
    AllMembers(LoadedView(p, q), p.invocations);
  }

  /** The sorted durations of the population of a query. */
  function Population(p: Profile, q: Query): seq<u64> {
    Durations(Candidates(q, p.invocations))
  }

  lemma {:induction false} KeptOrder(p: Profile, q: Query)
    requires V.WellFormed(p) && LegalQuery(q) && PopulationKept(p, q)
    ensures All(LoadedView(p, q), p.invocations) == Candidates(q, p.invocations)
  {
    LoadingKeepsPopulation(p, q);
    EligibleMembers(q, p.invocations);
    SameOrder(p, EligibleOf(q, p.invocations));
  }

  /**
   If loading keeps the population, and while ranks are exact, the viewer chooses what the query selects if
   and only if loading keeps the ranks, or both are empty.
   */
  lemma {:induction false} SameSelection(p: Profile, q: Query)
    requires V.WellFormed(p) && LegalQuery(q) && PopulationKept(p, q)
    requires CeilRank(|Candidates(q, p.invocations)|, q.percentile.high) <= U64_MAX / 100
    ensures
      var chosen, selected := Chosen(LoadedView(p, q), p.invocations), Selected(q, p.invocations);
      chosen == selected <==> RanksKept(Population(p, q), q.percentile) || (chosen == [] && selected == [])
  {
    KeptChoice(p, q);
    SelectedIs(q, p.invocations);
    CandidatesAre(q, p.invocations);
    QI.UniqueIds(p);
    CandidatesDistinct(q, p.invocations);
    RanksDecide(Candidates(q, p.invocations), q.percentile,
                Chosen(LoadedView(p, q), p.invocations), Selected(q, p.invocations));
  }

  lemma {:induction false} KeptChoice(p: Profile, q: Query)
    requires V.WellFormed(p) && LegalQuery(q) && PopulationKept(p, q)
    ensures Chosen(LoadedView(p, q), p.invocations)
         == Slice(Candidates(q, p.invocations), LoadedBounds(Population(p, q), q.percentile))
  {
    KeptOrder(p, q);
    ChosenIs(p, q);
  }

  lemma {:induction false} SelectedIs(q: Query, calls: seq<Invocation>)
    requires q.percentile.Legal()
    ensures Selected(q, calls) == Slice(Candidates(q, calls), RankBounds(|Candidates(q, calls)|, q.percentile))
  {
    RankBoundsOrdered(|Candidates(q, calls)|, q.percentile);
  }

  /** Two pairs of ranks cut the same block of one sorted population exactly when loading keeps the ranks. */
  lemma {:induction false} RanksDecide(calls: seq<Invocation>, range: PercentileRange,
                                       chosen: seq<Invocation>, selected: seq<Invocation>)
    requires Sorted(LatencyLe, calls) && range.Legal() && CeilRank(|calls|, range.high) <= U64_MAX / 100
    requires forall i, j | 0 <= i < j < |calls| :: calls[i].id != calls[j].id
    requires chosen == Slice(calls, LoadedBounds(Durations(calls), range))
    requires selected == Slice(calls, RankBounds(|calls|, range))
    ensures chosen == selected <==> RanksKept(Durations(calls), range) || (chosen == [] && selected == [])
  {
    DurationsRise(calls);
    ExactRanks(|calls|, range);
    LoadingKeepsRanks(Durations(calls), range);
    SameSlices(calls, LoadedBounds(Durations(calls), range), RankBounds(|calls|, range));
  }

  lemma {:induction false} WholeChosen(p: Profile, q: Query)
    requires V.WellFormed(p) && q.percentile == PercentileRange(0, 100)
    ensures Chosen(LoadedView(p, q), p.invocations) == All(LoadedView(p, q), p.invocations)
  {
    var all := All(LoadedView(p, q), p.invocations);
    AllMembers(LoadedView(p, q), p.invocations);
    ShownMembers(LoadedView(p, q), p.invocations);
    SameOrder(p, ShownOf(LoadedView(p, q), p.invocations));
    LatencyOrders();
    SortSorted(LatencyLe, ShownOf(LoadedView(p, q), p.invocations));
    DurationsRise(all);
    WholeRangeKept(Durations(all));
    LoadingKeepsRanks(Durations(all), q.percentile);
    TimesIs(|all|, 0);
    TimesIs(|all|, 100);
  }

  lemma {:induction false} WholeRanks(n: nat)
    requires n <= U64_MAX / 100
    ensures RankBounds(n, PercentileRange(0, 100)) == (0, n)
  {
    WholeRank(n, 100);
    ExactRanks(n, PercentileRange(0, 100));
    TimesIs(n, 0);
    TimesIs(n, 100);
  }

  /** Of a query for its whole population the viewer chooses all if and only if loading keeps the population. */
  lemma {:induction false} WholeSelection(p: Profile, q: Query)
    requires V.WellFormed(p) && LegalQuery(q) && q.percentile == PercentileRange(0, 100)
    requires |Candidates(q, p.invocations)| <= U64_MAX / 100
    ensures Chosen(LoadedView(p, q), p.invocations) == Selected(q, p.invocations) <==> PopulationKept(p, q)
  {
    var candidates, w := Candidates(q, p.invocations), LoadedView(p, q);
    WholeRanks(|candidates|);
    SelectedIs(q, p.invocations);
    WholeChosen(p, q);
    if PopulationKept(p, q) {
      KeptOrder(p, q);
    } else if All(w, p.invocations) == candidates {
      AllMembers(w, p.invocations);
      CandidatesAre(q, p.invocations);
      SameFilter(w, q, p.invocations);
      LoadingKeepsPopulation(p, q);
    }
  }

  // ---- Two inputs where loading changes the population ----

  const EARLY := Invocation(1, 1, None, 1, 0, 10, true, true)
  const LATE := Invocation(2, 1, None, 1, 20, 20, true, true)

  /** A capture whose second call starts at its very end. */
  const CAPTURE := Profile(1, [Function(1, "", 0, "f")], [Thread(1, None)], [EARLY, LATE], [], [], NO_QUALITY)

  lemma {:induction false} CaptureBounds()
    ensures Bounds(CAPTURE) == Window(0, 20)
  {
    assert [EARLY, LATE][..1] == [EARLY] && [EARLY][..0] == [];
    assert CallTimes([EARLY]) == [0, 10] && CallTimes([EARLY, LATE]) == [0, 10, 20, 20];
    assert SampleTimes([]) == [];
    var times: seq<u64> := [0, 10, 20, 20];
    assert CaptureTimes(CAPTURE) == times;
    assert times[..3] == [0, 10, 20] && times[..3][..2] == [0, 10] && times[..3][..2][..1] == [0];
    ExtremesBound(times, 0);
    ExtremesBound(times, 20);
    ExtremesAttained(times);
  }

  lemma {:induction false} CaptureValid()
    ensures V.WellFormed(CAPTURE)
  {
    var calls := [EARLY, LATE];
    assert calls[..1] == [EARLY];
    assert V.ParentOf([EARLY], 1) == None && V.ParentOf(calls, 1) == None;
    assert V.Ancestor(calls, 1, 0) == Some(1) && V.Ancestor(calls, 2, 0) == Some(2);
    assert V.Ancestor(calls, 1, 1) == None && V.Ancestor(calls, 2, 1) == None;
    assert V.FunctionIds(CAPTURE.functions)[0] == 1 && V.ThreadIds(CAPTURE.threads)[0] == 1;
    assert V.InvocationIds(calls) == [1, 2];
  }

  lemma {:induction false} CaptureShown(w: View)
    requires w.functionId == 1 && w.threads == {1} && w.time == Window(0, 20)
    ensures All(w, CAPTURE.invocations) == [EARLY]
  {
    var calls := [EARLY, LATE];
    assert calls[..1] == [EARLY] && calls[1] == LATE;
    assert ShownOf(w, [EARLY]) == [EARLY];
    assert ShownOf(w, calls) == [EARLY];
    SortOne(ShownLe, EARLY);
  }

  lemma {:induction false} SortOne<T>(le: (T, T) -> bool, x: T)
    ensures Sort(le, [x]) == [x]
  {
    assert [x][..0] == [];
  }

  lemma {:induction false} SortTwo<T>(le: (T, T) -> bool, x: T, y: T)
    requires !le(x, y)
    ensures Sort(le, [x, y]) == [y, x]
  {
    SortOne(le, x);
    assert [x, y][..1] == [x] && [x][..0] == [];
    assert Sorting.Insert(le, [], y) == [y] && Sorting.Insert(le, [x], y) == [y, x];
  }

  lemma {:induction false} CaptureCandidates(q: Query)
    requires q.functionId == 1 && q.threads == None && (q.time == None || q.time == Some(TimeRange(0, 100)))
    ensures Candidates(q, CAPTURE.invocations) == [LATE, EARLY]
  {
    assert [EARLY, LATE][..1] == [EARLY] && [EARLY, LATE][1] == LATE;
    assert EligibleOf(q, [EARLY]) == [EARLY];
    assert EligibleOf(q, [EARLY, LATE]) == [EARLY, LATE];
    SortTwo(LatencyLe, EARLY, LATE);
  }

  /** Whatever query loads the whole of the capture at p0:100, only the first call is chosen. */
  lemma {:induction false} CaptureChosen(q: Query)
    requires q.functionId == 1 && q.threads == None && q.percentile == PercentileRange(0, 100)
    requires LoadedTime(Window(0, 20), q.time) == Window(0, 20)
    ensures Chosen(LoadedView(CAPTURE, q), CAPTURE.invocations) == [EARLY]
  {
    CaptureValid();
    CaptureBounds();
    assert LoadedView(CAPTURE, q).threads == {1};
    CaptureShown(LoadedView(CAPTURE, q));
    WholeChosen(CAPTURE, q);
  }

  lemma {:induction false} CaptureSelected(q: Query)
    requires q.functionId == 1 && q.threads == None && (q.time == None || q.time == Some(TimeRange(0, 100)))
    requires q.percentile == PercentileRange(0, 100)
    ensures Selected(q, CAPTURE.invocations) == [LATE, EARLY]
  {
    CaptureCandidates(q);
    WholeRanks(2);
  }

  lemma {:induction false} CaptureNotKept(q: Query, i: Invocation)
    requires i in CAPTURE.invocations && Wanted(q, i)
    requires if Overlaps(Window(0, 20), q.time) then ReachesEnd(Window(0, 20), q.time) && i == LATE else i == EARLY
    ensures !PopulationKept(CAPTURE, q)
  {
    CaptureBounds();
  }

  /** The whole population is asked for: the query selects both calls, and the viewer only the first. */
  lemma {:induction false} EndCallHidden(time: Option<TimeRange>)
    requires time == None || time == Some(TimeRange(0, 100))
    ensures
      var q := Query(1, None, time, PercentileRange(0, 100), WallTime);
      && V.WellFormed(CAPTURE) && LegalQuery(q) && !PopulationKept(CAPTURE, q)
      && Selected(q, CAPTURE.invocations) == [LATE, EARLY]
      && Chosen(LoadedView(CAPTURE, q), CAPTURE.invocations) == [EARLY]
  {
    var q := Query(1, None, time, PercentileRange(0, 100), WallTime);
    CaptureValid();
    CaptureNotKept(q, LATE);
    CaptureSelected(q);
    CaptureChosen(q);
  }

  lemma {:induction false} NothingBehind(q: Query)
    requires q.functionId == 1 && q.time == Some(TimeRange(30, 40)) && q.percentile.Legal()
    ensures Selected(q, CAPTURE.invocations) == []
  {
    assert [EARLY, LATE][..1] == [EARLY] && [EARLY, LATE][1] == LATE;
    assert EligibleOf(q, [EARLY]) == [];
    assert EligibleOf(q, [EARLY, LATE]) == [];
  }

  /** A time behind the capture: the query selects nothing, and the viewer shows the whole capture. */
  lemma {:induction false} BehindShown()
    ensures
      var q := Query(1, None, Some(TimeRange(30, 40)), PercentileRange(0, 100), WallTime);
      && V.WellFormed(CAPTURE) && LegalQuery(q) && !PopulationKept(CAPTURE, q)
      && Selected(q, CAPTURE.invocations) == []
      && Chosen(LoadedView(CAPTURE, q), CAPTURE.invocations) == [EARLY]
  {
    var q := Query(1, None, Some(TimeRange(30, 40)), PercentileRange(0, 100), WallTime);
    CaptureValid();
    CaptureNotKept(q, EARLY);
    NothingBehind(q);
    CaptureChosen(q);
  }
}
