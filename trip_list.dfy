/** The trip list: a sorted copy of the trips (under way first, then not yet
    started, then finished) split into the current, upcoming and past
    sections. The component reads the clock on every comparison; here `now`
    is one time for the whole rendering. */
module TripList {
  import opened Seqs
  import opened IsoTime
  import opened Trips

  const EmptyMessage := "No trips found. Create your first trip to get started!"

  predicate Started(t: Trip, now: Time)
  {
    t.startDate <= now
  }

  predicate Ended(t: Trip, now: Time)
  {
    t.endDate < now
  }

  predicate InProgress(t: Trip, now: Time)
  {
    Started(t, now) && !Ended(t, now)
  }

  /** The comparator passed to `sort`, branch for branch. */
  function Compare(a: Trip, b: Trip, now: Time): int
  {
    var aStarted := a.startDate <= now;
    var bStarted := b.startDate <= now;
    var aEnded := a.endDate < now;
    var bEnded := b.endDate < now;
    if !aStarted && !bStarted then a.startDate - b.startDate
    else if aStarted && !aEnded && bStarted && !bEnded then a.startDate - b.startDate
    else if aStarted && !aEnded then -1
    else if bStarted && !bEnded then 1
    else if !aStarted then -1
    else if !bStarted then 1
    else b.endDate - a.endDate
  }

  /** The group of a trip: 0 under way, 1 not started, 2 finished. */
  function Rank(t: Trip, now: Time): (r: int)
    ensures 0 <= r <= 2
    ensures r == 0 <==> InProgress(t, now)
    ensures r == 1 <==> !Started(t, now)
  {
    if InProgress(t, now) then 0 else if !Started(t, now) then 1 else 2
  }

  /** The place of a trip within its group: its start, or for a finished
      trip its end taken backwards. */
  function Key(t: Trip, now: Time): int
  {
    if Rank(t, now) == 2 then -t.endDate else t.startDate
  }

  /** The comparator orders by group, then by place within the group, and
      swapping its arguments negates it. */
  lemma CompareByRankAndKey(a: Trip, b: Trip, now: Time)
    ensures Compare(a, b, now) <= 0 <==>
      Rank(a, now) < Rank(b, now) || (Rank(a, now) == Rank(b, now) && Key(a, now) <= Key(b, now))
    ensures Compare(a, b, now) == -Compare(b, a, now)
  {
  }

  /** "`a` may come before `b`": `compare(a, b) <= 0`. */
  function Precedes(now: Time): (Trip, Trip) -> bool
  {
    (a: Trip, b: Trip) => Compare(a, b, now) <= 0
  }

  /** The comparator is consistent: total and transitive, for any dates. */
  lemma ComparatorConsistent(now: Time)
    ensures TotalPreorder(Precedes(now))
  {
    forall a: Trip, b: Trip ensures Precedes(now)(a, b) || Precedes(now)(b, a) {
      CompareByRankAndKey(a, b, now);
    }
    forall a: Trip, b: Trip, c: Trip | Precedes(now)(a, b) && Precedes(now)(b, c)
      ensures Precedes(now)(a, c)
    {
      CompareByRankAndKey(a, b, now);
      CompareByRankAndKey(b, c, now);
      CompareByRankAndKey(a, c, now);
    }
  }

  /** `[...trips].sort(compare)`: a sorted permutation of a copy; the
      input itself is not reordered. */
  function SortTrips(trips: seq<Trip>, now: Time): (r: seq<Trip>)
    ensures multiset(r) == multiset(trips)
    ensures SortedBy(r, Precedes(now))
  {
    ComparatorConsistent(now);
    SortBySorted(trips, Precedes(now));
    SortBy(trips, Precedes(now))
  }

  /** The sort is stable: trips the comparator ranks level with `p` keep
      the order they had in the input. */
  lemma SortTripsStable(trips: seq<Trip>, now: Time, p: Trip)
    ensures Filter(SortTrips(trips, now), TiedWith(p, Precedes(now)))
         == Filter(trips, TiedWith(p, Precedes(now)))
  {
    ComparatorConsistent(now);
    SortByStable(trips, Precedes(now), p);
  }

  /** Within a sorted run of one group the places ascend: by start for the
      trips under way or not started, by descending end for finished ones. */
  lemma {:induction false} SortedWithinGroup(xs: seq<Trip>, now: Time, group: int)
    requires SortedBy(xs, Precedes(now))
    requires forall i :: 0 <= i < |xs| ==> Rank(xs[i], now) == group
    ensures group != 2 ==> SortedBy(xs, StartsNoLater)
    ensures group == 2 ==> SortedBy(xs, EndsNoEarlier)
  {
    forall i, j | 0 <= i < j < |xs| ensures Key(xs[i], now) <= Key(xs[j], now) {
      assert Precedes(now)(xs[i], xs[j]);
      CompareByRankAndKey(xs[i], xs[j], now);
    }
  }

  predicate IsCurrent(now: Time, t: Trip)
  {
    t.startDate <= now && t.endDate >= now
  }

  predicate IsUpcoming(now: Time, t: Trip)
  {
    t.startDate > now
  }

  predicate IsPast(now: Time, t: Trip)
  {
    t.endDate < now
  }

  /** The test of each section's `filter`. */
  function CurrentTest(now: Time): Trip -> bool
  {
    t => IsCurrent(now, t)
  }

  function UpcomingTest(now: Time): Trip -> bool
  {
    t => IsUpcoming(now, t)
  }

  function PastTest(now: Time): Trip -> bool
  {
    t => IsPast(now, t)
  }

  /** A trip whose dates are in order is in exactly one section. */
  lemma SectionsPartition(t: Trip, now: Time)
    requires t.startDate <= t.endDate
    ensures IsCurrent(now, t) || IsUpcoming(now, t) || IsPast(now, t)
    ensures !(IsCurrent(now, t) && IsUpcoming(now, t))
    ensures !(IsCurrent(now, t) && IsPast(now, t))
    ensures !(IsUpcoming(now, t) && IsPast(now, t))
  {
  }

  /** What the list shows: only the empty message for no trips, otherwise
      the three sections, each filtered from the sorted copy. */
  datatype ListView = Empty(message: string) | Sections(current: seq<Trip>, upcoming: seq<Trip>, past: seq<Trip>)

  function View(trips: seq<Trip>, now: Time): (v: ListView)
    ensures v.Empty? <==> trips == []
    ensures v.Empty? ==> v.message == EmptyMessage
    ensures v.Sections? ==> forall t ::
      && (t in v.current <==> t in trips && IsCurrent(now, t))
      && (t in v.upcoming <==> t in trips && IsUpcoming(now, t))
      && (t in v.past <==> t in trips && IsPast(now, t))
  {
    if |trips| == 0 then Empty(EmptyMessage)
    else
      var sorted := SortTrips(trips, now);
      assert forall t :: t in sorted <==> t in multiset(trips);
      Sections(Filter(sorted, CurrentTest(now)), Filter(sorted, UpcomingTest(now)), Filter(sorted, PastTest(now)))
  }

  /** A section drawn from one group of the sorted list is a subsequence of
      it, ordered as that group is. */
  lemma SectionWithinGroup(sorted: seq<Trip>, now: Time, keep: Trip -> bool, group: int)
    requires SortedBy(sorted, Precedes(now))
    requires forall t :: t in sorted && keep(t) ==> Rank(t, now) == group
    ensures Subsequence(Filter(sorted, keep), sorted)
    ensures group != 2 ==> SortedBy(Filter(sorted, keep), StartsNoLater)
    ensures group == 2 ==> SortedBy(Filter(sorted, keep), EndsNoEarlier)
  {
    var f := Filter(sorted, keep);
    FilterIsSubsequence(sorted, keep);
    FilterSorted(sorted, keep, Precedes(now));
    assert forall i :: 0 <= i < |f| ==> f[i] in f;
    SortedWithinGroup(f, now, group);
  }

  /** The current and upcoming sections keep the order of the sorted list,
      which puts them by ascending start. */
  lemma CurrentAndUpcomingByStart(trips: seq<Trip>, now: Time)
    requires trips != []
    ensures var v := View(trips, now); var sorted := SortTrips(trips, now);
      && Subsequence(v.current, sorted) && Subsequence(v.upcoming, sorted)
      && SortedBy(v.current, StartsNoLater) && SortedBy(v.upcoming, StartsNoLater)
  {
    var sorted := SortTrips(trips, now);
    SectionWithinGroup(sorted, now, CurrentTest(now), 0);
    SectionWithinGroup(sorted, now, UpcomingTest(now), 1);
  }

  /** The past section keeps the order of the sorted list; when every trip
      has its dates in order, that is by descending end. */
  lemma PastByEnd(trips: seq<Trip>, now: Time)
    requires trips != []
    ensures Subsequence(View(trips, now).past, SortTrips(trips, now))
    ensures (forall t :: t in trips ==> t.startDate <= t.endDate) ==> SortedBy(View(trips, now).past, EndsNoEarlier)
  {
    var sorted := SortTrips(trips, now);
    FilterIsSubsequence(sorted, PastTest(now));
    if forall t :: t in trips ==> t.startDate <= t.endDate {
      assert forall t :: t in sorted <==> t in multiset(trips);
      SectionWithinGroup(sorted, now, PastTest(now), 2);
    }
  }

  /** With dates in order, every trip is shown in exactly one section. */
  lemma EveryTripShownOnce(trips: seq<Trip>, now: Time, t: Trip)
    requires t in trips && t.startDate <= t.endDate
    ensures View(trips, now).Sections?
    ensures var v := View(trips, now);
      (if t in v.current then 1 else 0) + (if t in v.upcoming then 1 else 0) + (if t in v.past then 1 else 0) == 1
  {
    SectionsPartition(t, now);
  }
}
