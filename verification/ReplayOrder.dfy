/** What sorting the ring records restores, and how far its result depends on the order of delivery. */
module ReplayOrder {
  import opened Domain
  import opened Sequences
  import opened Sorting
  import K = Kernel
  import KI = KernelInvariant
  import opened Adapter
  import opened EndToEnd

  lemma EventLeOrders()
    ensures TotalPreorder(EventLe)
  {
  }

  predicate IsSample(e: K.Event) {
    e.kind == K.SAMPLE || e.kind == K.OFFCPU
  }

  /** `e` must be replayed before `f`: they are of one life in its order, or of two lives of one thread. */
  predicate MustPrecede(e: K.Event, f: K.Event) {
    && e.kind != K.VIOLATION && f.kind != K.VIOLATION && e.tid == f.tid
    && (|| e.invocationId < f.invocationId
        || (e.invocationId == f.invocationId &&
            (|| (e.kind == K.ENTRY && f.kind != K.ENTRY)
             || (IsSample(e) && f.kind == K.RETURN && e.timestampNs <= f.timestampNs))))
  }

  lemma StrictlyBefore(s: K.State, e: K.Event, f: K.Event)
    requires KI.EventOk(s.k, e) && KI.EventOk(s.k, f) && KI.TrackingOk(s.k) && MustPrecede(e, f)
    ensures EventBefore(e, f)
  {
  }

  lemma {:induction false} ReplayedBefore(s: K.State, delivered: seq<K.Event>, i: nat, j: nat)
    requires Delivered(s, delivered) && i < |SortEvents(delivered)| && j < |SortEvents(delivered)|
    requires MustPrecede(SortEvents(delivered)[i], SortEvents(delivered)[j])
    ensures EventBefore(SortEvents(delivered)[i], SortEvents(delivered)[j])
  {
    var sorted := SortEvents(delivered);
    SortedPart(s, delivered);
    assert sorted[i] in sorted && sorted[j] in sorted;
    StrictlyBefore(s, sorted[i], sorted[j]);
  }

  /**
   In every run and for every delivery: in the replayed order an entry comes before everything else of its
   life, the samples within the bounds come before the return, and nothing of a life comes after the
   entry, or any other record, of a later life of the thread.
   */
  lemma {:induction false} SortingRestoresThreads(actions: seq<K.Action>, period: u64,
                                                  delivered: seq<K.Event>, i: nat, j: nat)
    requires multiset(delivered) <= multiset(K.After(actions, period).ring)
    requires i < |SortEvents(delivered)| && j < |SortEvents(delivered)|
    requires MustPrecede(SortEvents(delivered)[i], SortEvents(delivered)[j])
    ensures i < j
  {
    KI.RunsKeep(actions, period);
    ReplayedBefore(K.After(actions, period), delivered, i, j);
    EventLeOrders();
    SortSorted(EventLe, delivered);
  }

  /** By time, then by thread, then by id; then entries, samples, returns, violations and anything else in turn. */
  predicate ReplayedBy(a: K.Event, b: K.Event) {
    || a.timestampNs < b.timestampNs
    || (a.timestampNs == b.timestampNs && a.tid < b.tid)
    || (a.timestampNs == b.timestampNs && a.tid == b.tid && a.invocationId < b.invocationId)
    || (a.timestampNs == b.timestampNs && a.tid == b.tid && a.invocationId == b.invocationId
        && (b.kind == K.ENTRY ==> a.kind == K.ENTRY)
        && (IsSample(b) ==> a.kind == K.ENTRY || IsSample(a))
        && (b.kind == K.RETURN ==> a.kind == K.ENTRY || IsSample(a) || a.kind == K.RETURN)
        && (b.kind == K.VIOLATION ==> K.ENTRY <= a.kind <= K.OFFCPU))
  }

  /** For any delivered records: the replayed order has the same records, and any two of them are in this order. */
  lemma {:induction false} ReplayedInOrder(delivered: seq<K.Event>)
    ensures multiset(SortEvents(delivered)) == multiset(delivered)
    ensures forall i, j | 0 <= i < j < |SortEvents(delivered)| ::
              ReplayedBy(SortEvents(delivered)[i], SortEvents(delivered)[j])
  {
    EventLeOrders();
    SortMembers(EventLe, delivered);
    SortSorted(EventLe, delivered);
    forall i, j | 0 <= i < j < |SortEvents(delivered)|
      ensures ReplayedBy(SortEvents(delivered)[i], SortEvents(delivered)[j])
    {
      assert EventLe(SortEvents(delivered)[i], SortEvents(delivered)[j]);
    }
  }

  // ---- Independence of the delivery order ----

  /** A stable sort leaves a sorted sequence alone. */
  lemma {:induction false} SortedStays<T>(le: (T, T) -> bool, s: seq<T>)
    requires Sorted(le, s)
    ensures Sort(le, s) == s
  {
    if s != [] {
      SortedStays(le, s[..|s| - 1]);
    }
  }

  lemma {:induction false} SwapStaysSorted<T(!new)>(le: (T, T) -> bool, s: seq<T>, i: nat, j: nat)
    requires TotalPreorder(le) && Sorted(le, s) && i < j < |s| && le(s[j], s[i])
    ensures Sorted(le, s[i := s[j]][j := s[i]])
  {
  }

  lemma SwapMembers<T>(s: seq<T>, i: nat, j: nat)
    requires i < j < |s|
    ensures multiset(s[i := s[j]][j := s[i]]) == multiset(s)
  {
  }

  /** Ties in one arrangement show in every other. */
  lemma NoTiesMembers<T>(le: (T, T) -> bool, a: seq<T>, b: seq<T>)
    requires multiset(a) == multiset(b) && NoTies(le, a)
    ensures NoTies(le, b)
  {
    forall i, j | 0 <= i < |b| && 0 <= j < |b| && le(b[i], b[j]) && le(b[j], b[i]) ensures b[i] == b[j] {
      PartMember(b, a, b[i]);
      PartMember(b, a, b[j]);
    }
  }

  /** The replayed order is the same for every order of delivery exactly when no two different records tie. */
  lemma {:induction false} SortingUnique(delivered: seq<K.Event>)
    ensures NoTies(EventLe, delivered) <==>
            forall other: seq<K.Event> | multiset(other) == multiset(delivered) ::
              SortEvents(other) == SortEvents(delivered)
  {
    EventLeOrders();
    SortMembers(EventLe, delivered);
    SortSorted(EventLe, delivered);
    if NoTies(EventLe, delivered) {
      forall other: seq<K.Event> | multiset(other) == multiset(delivered)
        ensures SortEvents(other) == SortEvents(delivered)
      {
        SortMembers(EventLe, other);
        SortSorted(EventLe, other);
        NoTiesMembers(EventLe, delivered, SortEvents(other));
        SortedUnique(EventLe, SortEvents(other), SortEvents(delivered));
      }
    } else {
      var other := TiesShow(EventLe, delivered);
      assert SortEvents(other) != SortEvents(delivered);
    }
  }

  lemma TieSwaps<T(!new)>(le: (T, T) -> bool, s: seq<T>) returns (t: seq<T>)
    requires TotalPreorder(le) && Sorted(le, s) && !NoTies(le, s)
    ensures multiset(t) == multiset(s) && Sorted(le, t) && t != s
  {
    var a, b :| 0 <= a < |s| && 0 <= b < |s| && le(s[a], s[b]) && le(s[b], s[a]) && s[a] != s[b];
    var i, j := if a < b then a else b, if a < b then b else a;
    t := s[i := s[j]][j := s[i]];
    SwapStaysSorted(le, s, i, j);
    SwapMembers(s, i, j);
    assert t[i] != s[i];
  }

  lemma {:induction false} TiesShow<T(!new)>(le: (T, T) -> bool, s: seq<T>) returns (t: seq<T>)
    requires TotalPreorder(le) && !NoTies(le, s)
    ensures multiset(t) == multiset(s) && Sort(le, t) != Sort(le, s)
  {
    SortMembers(le, s);
    SortSorted(le, s);
    if NoTies(le, Sort(le, s)) { NoTiesMembers(le, Sort(le, s), s); }
    t := TieSwaps(le, Sort(le, s));
    SortedStays(le, t);
  }

  /** `sort_events` in place. */
  method SortInPlace(a: array<K.Event>)
    modifies a
    ensures a[..] == SortEvents(old(a[..]))
    ensures Sorted(EventLe, a[..]) && multiset(a[..]) == multiset(old(a[..]))
    ensures forall e :: TiedWith(EventLe, a[..], e) == TiedWith(EventLe, old(a[..]), e)
  {
    ghost var was := a[..];
    SortBy(EventLe, a);
    EventLeOrders();
    SortSorted(EventLe, was);
    SortMembers(EventLe, was);
    forall e ensures TiedWith(EventLe, a[..], e) == TiedWith(EventLe, was, e) { SortStable(EventLe, was, e); }
  }
}
