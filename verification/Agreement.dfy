/** The viewer and the query engine agree on validated profiles. */
module Agreement {
  import opened Domain
  import opened Sequences
  import opened Sorting
  import F = FlameTrie
  import opened Ranks
  import opened Queries
  import opened QueryTheorems
  import opened AnswerMeaning
  import opened Viewer
  import opened Loading
  import opened ViewerSelection
  import QI = QueryIndependence
  import V = Validation

  // ---- The same function is looked for ----

  lemma {:induction false} FirstIsLast(functions: seq<Function>, id: u32)
    requires Distinct(V.FunctionIds(functions))
    ensures Queries.NameOf(functions, id) == LastName(functions, id)
  {
    var ids := V.FunctionIds(functions);
    forall i, j | 0 <= i < j < |functions| ensures functions[i].id != functions[j].id {
      assert ids[i] != ids[j];
    }
    if k :| 0 <= k < |functions| && functions[k].id == id {
      FirstName(functions, k);
      OnlyName(functions, k);
    } else {
      NoName(functions, id);
    }
  }

  lemma {:induction false} FirstName(functions: seq<Function>, k: nat)
    requires k < |functions| && forall i | 0 <= i < k :: functions[i].id != functions[k].id
    ensures Queries.NameOf(functions, functions[k].id) == Some(functions[k].demangledName)
  {
    if k > 0 { FirstName(functions[1..], k - 1); }
  }

  lemma {:induction false} OnlyName(functions: seq<Function>, k: nat)
    requires k < |functions| && forall i | k < i < |functions| :: functions[i].id != functions[k].id
    ensures LastName(functions, functions[k].id) == Some(functions[k].demangledName)
  {
    if k < |functions| - 1 { OnlyName(functions[..|functions| - 1], k); }
  }

  lemma {:induction false} NoName(functions: seq<Function>, id: u32)
    requires forall i | 0 <= i < |functions| :: functions[i].id != id
    ensures Queries.NameOf(functions, id) == None && LastName(functions, id) == None
  {
    if functions != [] {
      NoName(functions[1..], id);
      NoName(functions[..|functions| - 1], id);
    }
  }

  lemma {:induction false} SameLens(p: Profile, q: Query)
    requires V.WellFormed(p) && q.percentile.Legal()
    requires Chosen(LoadedView(p, q), p.invocations) == Selected(q, p.invocations)
    ensures ViewLens(p, LoadedView(p, q)) == LensOf(p, q)
  {
    FirstIsLast(p.functions, q.functionId);
  }

  // ---- The same values result ----

  /** What a sample adds to a sum over the visits. */
  function PerVisit(l: Lens, f: Visit -> nat): Sample -> nat {
    (x: Sample) => Part(f, VisitOf(l, x))
  }

  lemma {:induction false} VisitsSum(l: Lens, f: Visit -> nat, samples: seq<Sample>)
    ensures Sum(f, Visits(l, samples)) == Sum(PerVisit(l, f), samples)
  {
    if samples != [] {
      var front, x := samples[..|samples| - 1], samples[|samples| - 1];
      VisitsSum(l, f, front);
      if VisitOf(l, x).Some? { SumSnoc(f, Visits(l, front), VisitOf(l, x).value); }
    }
  }

  /** The query's hits are the viewer's included visits. */
  lemma HitIsVisit(l: Lens, x: Sample)
    ensures HitOf(l, x) ==
            match VisitOf(l, x)
            case None => None
            case Some(v) => if v.included then Some(F.Hit(v.labels, v.state, v.weight)) else None
  {
  }

  lemma {:induction false} HitsVisited(l: Lens, samples: seq<Sample>, path: seq<string>)
    ensures Sum(F.Under(path), Hits(l, samples)) == Sum(ValueUnder(path), Visits(l, samples))
    ensures F.Reached(Hits(l, samples), path) ==> Visited(Visits(l, samples), path)
  {
    HitsSum(l, F.Under(path), samples);
    VisitsSum(l, ValueUnder(path), samples);
    forall i | 0 <= i < |samples|
      ensures PerHit(l, F.Under(path))(samples[i]) == PerVisit(l, ValueUnder(path))(samples[i])
    {
      HitIsVisit(l, samples[i]);
    }
    SumAgree(PerHit(l, F.Under(path)), samples, PerVisit(l, ValueUnder(path)), samples);
    if hit :| hit in Hits(l, samples) && path <= hit.labels {
      HitsMembers(l, samples, hit);
      var x :| x in samples && HitOf(l, x) == Some(hit);
      HitIsVisit(l, x);
      VisitsMembers(l, samples, VisitOf(l, x).value);
    }
  }

  /**
   For the same selected ids, whatever they are: the viewer's tree and the query's have the same values at
   every path, up to the cut at the largest u64, hence the same nodes of positive value; where the query's
   has a node the viewer's has one.
   */
  lemma {:induction false} AggregationsAgree(l: Lens, samples: seq<Sample>, path: seq<string>)
    ensures
      var root, tree := F.Finish(F.Build(Hits(l, samples)), "root"), WalkAll(Visits(l, samples));
      && F.ValueIn(root, path) == Cap(CountsOr(tree, path).value)
      && (F.NodeAt(root, path).Some? ==> CountsAt(tree, path).Some?)
      && (F.ValueIn(root, path) > 0 <==> CountsOr(tree, path).value > 0)
  {
    var hits, visits := Hits(l, samples), Visits(l, samples);
    F.FinishKeeps(F.Build(hits), "root", path);
    F.TrieMeaning(hits, path);
    ViewerMeaning(visits, path);
    HitsVisited(l, samples, path);
    if !F.Reached(hits, path) { F.NothingUnder(hits, path); }
    if !Visited(visits, path) { NothingTallied(visits, path); }
  }

  lemma {:induction false} NothingSums(f: Sample -> nat, samples: seq<Sample>)
    requires forall i | 0 <= i < |samples| :: f(samples[i]) == 0
    ensures Sum(f, samples) == 0
  {
    if samples != [] { NothingSums(f, samples[..|samples| - 1]); }
  }

  /** Of the visits, the hits keep the weights that the metric includes. */
  lemma {:induction false} TotalAgrees(l: Lens, samples: seq<Sample>, state: ExecutionState, f: F.Hit -> nat,
                                       g: Visit -> nat)
    requires forall hit: F.Hit :: f(hit) == if hit.state == state then hit.weight else 0
    requires forall v: Visit :: g(v) == if v.state == state then v.weight else 0
    ensures Sum(f, Hits(l, samples)) == if Includes(l.metric, state) then Sum(g, Visits(l, samples)) else 0
  {
    HitsSum(l, f, samples);
    forall i | 0 <= i < |samples|
      ensures PerHit(l, f)(samples[i]) == if Includes(l.metric, state) then PerVisit(l, g)(samples[i]) else 0
    {
      HitIsVisit(l, samples[i]);
    }
    if Includes(l.metric, state) {
      VisitsSum(l, g, samples);
      SumAgree(PerHit(l, f), samples, PerVisit(l, g), samples);
    } else {
      NothingSums(PerHit(l, f), samples);
    }
  }

  /** The totals: the query reports the viewer's, cut, for the states that its metric includes. */
  lemma {:induction false} TotalsAgree(l: Lens, samples: seq<Sample>)
    ensures Sum(CpuWeight, Hits(l, samples)) == if Includes(l.metric, OnCpu) then Sum(CpuOf, Visits(l, samples)) else 0
    ensures Sum(OffWeight, Hits(l, samples)) == if Includes(l.metric, OffCpu) then Sum(OffOf, Visits(l, samples)) else 0
  {
    TotalAgrees(l, samples, OnCpu, CpuWeight, CpuOf);
    TotalAgrees(l, samples, OffCpu, OffWeight, OffOf);
  }

  /** What the viewer shows agrees with an answer: ids, tree values at a path, and included totals. */
  ghost predicate Agrees(picture: Picture, r: QueryResult, metric: Metric, path: seq<string>) {
    && IdsOf(picture.chosen) == r.selectedIds
    && F.ValueIn(r.root, path) == Cap(CountsOr(picture.root, path).value)
    && (F.NodeAt(r.root, path).Some? ==> CountsAt(picture.root, path).Some?)
    && r.sampledCpuNs == (if Measures(metric, OnCpu) then Cap(picture.cpu) else 0)
    && r.offCpuNs == (if Measures(metric, OffCpu) then Cap(picture.off) else 0)
  }

  lemma {:induction false} IdsDetermine(calls: seq<Invocation>, a: seq<Invocation>, b: seq<Invocation>)
    requires forall i, j | 0 <= i < j < |calls| :: calls[i].id != calls[j].id
    requires (forall i | i in a :: i in calls) && (forall i | i in b :: i in calls) && IdsOf(a) == IdsOf(b)
    ensures a == b
  {
    forall n | 0 <= n < |a| ensures a[n] == b[n] {
      assert IdsOf(a)[n] == IdsOf(b)[n];
      assert a[n] in a && b[n] in b;
    }
  }

  /**
   On a validated profile and for every legal query: a viewer that has loaded the query shows its answer if
   and only if it has chosen the invocations that the query selects.
   */
  lemma {:induction false} ViewerAgrees(p: Profile, q: Query, path: seq<string>)
    requires V.WellFormed(p) && LegalQuery(q)
    ensures Agrees(Calculated(p, LoadedView(p, q)), Report(p, q), q.metric, path)
       <==> Chosen(LoadedView(p, q), p.invocations) == Selected(q, p.invocations)
  {
    var chosen, selected := Chosen(LoadedView(p, q), p.invocations), Selected(q, p.invocations);
    if chosen == selected {
      SameLens(p, q);
      RootIs(p, q);
      AggregationsAgree(LensOf(p, q), p.samples, path);
      TotalsAgree(LensOf(p, q), p.samples);
    } else if IdsOf(chosen) == IdsOf(selected) {
      QI.UniqueIds(p);
      ChosenListed(p, q);
      IdsDetermine(p.invocations, chosen, selected);
    }
  }

  lemma {:induction false} ChosenListed(p: Profile, q: Query)
    requires q.percentile.Legal()
    ensures forall i | i in Chosen(LoadedView(p, q), p.invocations) :: i in p.invocations
    ensures forall i | i in Selected(q, p.invocations) :: i in p.invocations
  {
    AllMembers(LoadedView(p, q), p.invocations);
    CandidatesAre(q, p.invocations);
  }

  /** It shows the answer if and only if the condition on ranks and starts holds. */
  lemma {:induction false} ViewerShows(p: Profile, q: Query, path: seq<string>)
    requires V.WellFormed(p) && LegalQuery(q)
    ensures Agrees(Calculated(p, LoadedView(p, q)), Report(p, q), q.metric, path) <==> SelectionKept(p, q)
  {
    ViewerAgrees(p, q, path);
    SelectionExact(p, q);
  }

  /** A query for its whole population is shown as it is answered if and only if loading keeps the population. */
  lemma {:induction false} WholePopulationAgrees(p: Profile, q: Query, path: seq<string>)
    requires V.WellFormed(p) && LegalQuery(q) && q.percentile == PercentileRange(0, 100)
    requires |Candidates(q, p.invocations)| <= U64_MAX / 100
    ensures Agrees(Calculated(p, LoadedView(p, q)), Report(p, q), q.metric, path) <==> PopulationKept(p, q)
  {
    ViewerAgrees(p, q, path);
    WholeSelection(p, q);
  }
}
