/** The second half of `capture_pid` as it is written: sort, replay, finish, name the threads. */
module Replay {
  import opened Domain
  import opened Sequences
  import opened Sorting
  import K = Kernel
  import C = Collector
  import opened SourceMode
  import opened Correlator
  import opened Adapter
  import RO = ReplayOrder

  // ---- `rebuild_threads` ----

  lemma {:induction false} RisingIsInOrder(r: seq<u32>, s: set<u32>)
    requires (forall i, j | 0 <= i < j < |r| :: r[i] < r[j]) && forall x :: x in r <==> x in s
    ensures r == InOrder(TidLe, s)
  {
    DistinctMembers(r, s);
    InOrderMembers(TidLe, s);
    SortedUnique(TidLe, r, InOrder(TidLe, s));
  }

  method Collect(p: Profile) returns (tids: seq<u32>)
    ensures forall tid :: tid in tids <==> tid in TidsOf(p)
  {
    tids := [];
    for n := 0 to |p.invocations|
      invariant forall tid :: tid in tids <==> exists k :: 0 <= k < n && p.invocations[k].tid == tid
    {
      tids := tids + [p.invocations[n].tid];
    }
    for n := 0 to |p.samples|
      invariant forall tid :: tid in tids <==>
                  (exists k :: 0 <= k < |p.invocations| && p.invocations[k].tid == tid)
                  || exists k :: 0 <= k < n && p.samples[k].tid == tid
    {
      tids := tids + [p.samples[n].tid];
    }
  }

  /** `dedup` on a sorted vector. */
  method Dedup(s: seq<u32>) returns (r: seq<u32>)
    requires Sorted(TidLe, s)
    ensures forall i, j | 0 <= i < j < |r| :: r[i] < r[j]
    ensures forall tid :: tid in r <==> tid in s
  {
    r := [];
    for n := 0 to |s|
      invariant forall i, j | 0 <= i < j < |r| :: r[i] < r[j]
      invariant forall tid :: tid in r <==> tid in s[..n]
      invariant |r| > 0 <==> n > 0
      invariant n > 0 ==> r[|r| - 1] == s[n - 1]
    {
      assert s[..n + 1] == s[..n] + [s[n]];
      assert n > 0 ==> TidLe(s[n - 1], s[n]);
      if r == [] || r[|r| - 1] != s[n] { r := r + [s[n]]; }
    }
    assert s[..|s|] == s;
  }

  /** `sort_unstable` and `dedup`. */
  method SortDedup(tids: seq<u32>) returns (r: seq<u32>)
    ensures forall i, j | 0 <= i < j < |r| :: r[i] < r[j]
    ensures forall tid :: tid in r <==> tid in tids
  {
    var a := new u32[|tids|](i requires 0 <= i < |tids| => tids[i]);
    assert a[..] == tids;
    SortBy(TidLe, a);
    SortMembers(TidLe, tids);
    SortSorted(TidLe, tids);
    Members(a[..], tids);
    r := Dedup(a[..]);
  }

  method RebuildThreads(p: Store, names: map<u32, string>)
    modifies p`threads
    ensures p.Value() == Adapter.RebuildThreads(old(p.Value()), names)
  {
    var tids := Collect(p.Value());
    tids := SortDedup(tids);
    RisingIsInOrder(tids, TidsOf(p.Value()));
    p.threads := seq(|tids|, i requires 0 <= i < |tids| => NameOf(names, tids[i]));
  }

  // ---- The replay loop ----

  /** A replayed event never starts a local invocation. */
  lemma {:induction false} NoLocal(s: C.Session, es: seq<C.CollectorEvent>)
    requires s.c.active == map[] && forall e | e in es :: Transport(e)
    ensures C.PushAll(s, es).c.active == map[]
  {
    if es != [] {
      assert es[|es| - 1] in es && forall e | e in es[..|es| - 1] :: e in es;
      NoLocal(s, es[..|es| - 1]);
    }
  }

  lemma ReplayedTransport(sorted: seq<K.Event>, function_: Function, table: StackTable)
    ensures forall e | e in TranslateAll(sorted, function_, table) :: Transport(e)
  {
  }

  /** The replay loop over the sorted records. */
  method ReplayAll(r: Request, sorted: seq<K.Event>, correlator: Correlator, p: Store)
    requires correlator.Valid()
    modifies correlator, p
    ensures correlator.Valid()
    ensures correlator.Session(p) == C.PushAll(old(correlator.Session(p)), TranslateAll(sorted, r.function_, r.table))
  {
    ghost var es := TranslateAll(sorted, r.function_, r.table);
    for n := 0 to |sorted|
      invariant correlator.Valid()
      invariant correlator.Session(p) == C.PushAll(old(correlator.Session(p)), es[..n])
    {
      assert es[..n + 1][..n] == es[..n] && es[n] == Translate(sorted[n], r.function_, r.table);
      correlator.Push(p, Translate(sorted[n], r.function_, r.table));
    }
    assert es[..|sorted|] == es;
  }

  /** No local invocation is active when a replay ends. */
  lemma NothingActive(r: Request, delivered: seq<K.Event>)
    ensures Replayed(r, delivered).c.active == map[]
  {
    ReplayedTransport(SortEvents(delivered), r.function_, r.table);
    NoLocal(Blank([r.function_], StartQuality(r)), Events(r, delivered));
  }

  /** For any delivered records, also such as no kernel would emit. */
  method CapturePid(r: Request, events: array<K.Event>) returns (p: Store)
    modifies events
    ensures fresh(p)
    ensures p.Value() == Capture(r, old(events[..]))
  {
    ghost var delivered := events[..];
    p := new Store([r.function_], StartQuality(r));
    RO.SortInPlace(events);
    var correlator := new Correlator();
    assert correlator.Session(p) == Blank([r.function_], StartQuality(r));
    ReplayAll(r, events[..], correlator, p);
    assert correlator.Session(p) == Replayed(r, delivered);
    NothingActive(r, delivered);
    ghost var order := correlator.Finish(p, r.now);
    assert order == [] by { Inhabited(order); }
    RebuildThreads(p, r.names);
    p.quality := p.quality.(eventsGenerated := Max(p.quality.eventsGenerated, Cap(2 * |p.invocations|)));
  }
}
