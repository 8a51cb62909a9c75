/**
 * The dashboard's derived data (src/pages/dashboard/page.tsx): the guarded
 * chart merge and when the chart store is refreshed, the RSVP total, the five
 * next upcoming events, the five most recent donations, and the "Upcoming
 * Events" stat. `timeOf` stands for `new Date(s).getTime()` and `now` for the
 * current time.
 */
module Dashboard {
  import opened Wrappers
  import opened Types
  import Utils
  import StableSort
  import Sequences

  /** A metrics response; its `monthlyStats` may be missing. */
  datatype DonationMetrics = DonationMetrics(monthlyStats: Option<seq<DonationsMonthlyStats>>)

  datatype ActivityMetrics = ActivityMetrics(monthlyStats: Option<seq<ActivityMonthlyStats>>)

  predicate HasDonationStats(m: Option<DonationMetrics>) {
    m.Some? && m.value.monthlyStats.Some?
  }

  predicate HasActivityStats(m: Option<ActivityMetrics>) {
    m.Some? && m.value.monthlyStats.Some?
  }

  /**
   * The page's own `combineMetricsData`: nothing when either series is
   * missing, otherwise the same points as the shared helper.
   */
  function CombineGuarded(donations: Option<DonationMetrics>, activities: Option<ActivityMetrics>)
    : (r: seq<ActivityData>)
    ensures !HasDonationStats(donations) || !HasActivityStats(activities) ==> r == []
    ensures HasDonationStats(donations) && HasActivityStats(activities) ==>
      && |r| == |donations.value.monthlyStats.value|
      && forall i :: 0 <= i < |r| ==>
           r[i].donations == donations.value.monthlyStats.value[i].donations
  {
    if !HasDonationStats(donations) || !HasActivityStats(activities) then []
    else
      Utils.CombineMetricsData(donations.value.monthlyStats.value, activities.value.monthlyStats.value)
  }

  /** With both series present the page agrees with the shared helper. */
  lemma CombineGuardedAgrees(
    donationsStats: seq<DonationsMonthlyStats>, activitiesStats: seq<ActivityMonthlyStats>)
    ensures CombineGuarded(Some(DonationMetrics(Some(donationsStats))),
                           Some(ActivityMetrics(Some(activitiesStats))))
         == Utils.CombineMetricsData(donationsStats, activitiesStats)
  {
  }

  /**
   * The effect that refreshes the chart store: the stored points are replaced
   * only once both metrics requests have finished and both responses exist.
   */
  function RefreshChart(
    stored: seq<ActivityData>,
    donationsLoading: bool, activitiesLoading: bool,
    donations: Option<DonationMetrics>, activities: Option<ActivityMetrics>)
    : (r: seq<ActivityData>)
    ensures donationsLoading || activitiesLoading || donations.None? || activities.None? ==>
      r == stored
    ensures r != stored ==> r == CombineGuarded(donations, activities)
    ensures !donationsLoading && !activitiesLoading && donations.Some? && activities.Some? ==>
      r == CombineGuarded(donations, activities)
  {
    if !donationsLoading && !activitiesLoading && donations.Some? && activities.Some? then
      CombineGuarded(donations, activities)
    else stored
  }

  /**
   * Once both metrics have loaded, the chart no longer depends on what was
   * stored before, and running the effect again changes nothing.
   */
  lemma RefreshSettles(
    stored: seq<ActivityData>, other: seq<ActivityData>,
    donationsLoading: bool, activitiesLoading: bool,
    donations: Option<DonationMetrics>, activities: Option<ActivityMetrics>)
    ensures var r := RefreshChart(stored, donationsLoading, activitiesLoading, donations, activities);
      RefreshChart(r, donationsLoading, activitiesLoading, donations, activities) == r
    ensures donations.Some? && activities.Some? ==>
      RefreshChart(stored, false, false, donations, activities)
        == RefreshChart(other, false, false, donations, activities)
  {
  }

  /** A response without series still replaces the chart, and with nothing. */
  lemma MissingSeriesClearsChart(stored: seq<ActivityData>, donations: DonationMetrics)
    requires donations.monthlyStats.None?
    ensures RefreshChart(stored, false, false, Some(donations), Some(ActivityMetrics(None))) == []
  {
  }

  // ---------------------------------------------------------------------------
  // Event registrations
  // ---------------------------------------------------------------------------

  /** `rsvpCount || 0`: a missing count adds nothing. */
  function RsvpCount(e: Event): int {
    e.rsvpCount.GetOr(0)
  }

  /** `totalRsvps`: the registrations of all events together. */
  function TotalRsvps(events: seq<Event>): (total: int)
    ensures (forall i :: 0 <= i < |events| ==> RsvpCount(events[i]) >= 0) ==> total >= 0
    ensures (forall i :: 0 <= i < |events| ==> events[i].rsvpCount.None?) ==> total == 0
    ensures |events| == 1 ==> total == RsvpCount(events[0])
  {
    if events == [] then 0 else RsvpCount(events[0]) + TotalRsvps(events[1..])
  }

  /** The total of two lists of events is the sum of their totals. */
  lemma {:induction false} TotalRsvpsConcat(a: seq<Event>, b: seq<Event>)
    ensures TotalRsvps(a + b) == TotalRsvps(a) + TotalRsvps(b)
  {
    if a != [] {
      assert (a + b)[1..] == a[1..] + b;
      TotalRsvpsConcat(a[1..], b);
    } else {
      assert a + b == b;
    }
  }

  /** `events.reduce((acc, event) => acc + (event.rsvpCount || 0), acc)`, folded from the left. */
  function ReduceCounts(acc: int, events: seq<Event>): int
    decreases |events|
  {
    if events == [] then acc else ReduceCounts(acc + RsvpCount(events[0]), events[1..])
  }

  /**
   * The total is what the left-to-right `reduce` from 0 computes: the sum
   * of every event's count, a missing count taken as 0.
   */
  lemma {:induction false} TotalRsvpsIsReduce(acc: int, events: seq<Event>)
    ensures ReduceCounts(acc, events) == acc + TotalRsvps(events)
    ensures TotalRsvps(events) == ReduceCounts(0, events)
    decreases |events|
  {
    if events != [] {
      TotalRsvpsIsReduce(acc + RsvpCount(events[0]), events[1..]);
      TotalRsvpsIsReduce(RsvpCount(events[0]), events[1..]);
    }
  }

  /** Each event's count is part of the total, when no count is negative. */
  lemma {:induction false} TotalRsvpsBoundsEach(events: seq<Event>, i: nat)
    requires i < |events|
    requires forall j :: 0 <= j < |events| ==> RsvpCount(events[j]) >= 0
    ensures RsvpCount(events[i]) <= TotalRsvps(events)
  {
    if i > 0 {
      TotalRsvpsBoundsEach(events[1..], i - 1);
    }
  }

  // ---------------------------------------------------------------------------
  // Upcoming events
  // ---------------------------------------------------------------------------

  /** Earlier dates first. */
  function ByDate(timeOf: string -> int): (Event, Event) -> int {
    (a: Event, b: Event) => timeOf(a.date) - timeOf(b.date)
  }

  /** `new Date(event.date) > new Date()`. */
  function IsUpcoming(e: Event, now: int, timeOf: string -> int): bool {
    timeOf(e.date) > now
  }

  /**
   * As the clock moves on, the events still upcoming are a subsequence of
   * those upcoming before: no event becomes upcoming again.
   */
  lemma UpcomingShrinksOverTime(events: seq<Event>, now: int, later: int, timeOf: string -> int)
    requires now <= later
    ensures Sequences.IsSubsequence(
      Sequences.Filter(events, e => IsUpcoming(e, later, timeOf)),
      Sequences.Filter(events, e => IsUpcoming(e, now, timeOf)))
  {
    Sequences.FilterMonotone(events, e => IsUpcoming(e, later, timeOf), e => IsUpcoming(e, now, timeOf));
  }

  /** The events after `now`, earliest first. */
  function UpcomingSorted(events: seq<Event>, now: int, timeOf: string -> int): (r: seq<Event>)
    ensures multiset(r) == multiset(Sequences.Filter(events, e => IsUpcoming(e, now, timeOf)))
    ensures forall i, j :: 0 <= i < j < |r| ==> timeOf(r[i].date) <= timeOf(r[j].date)
  {
    var upcoming := Sequences.Filter(events, e => IsUpcoming(e, now, timeOf));
    var sorted := StableSort.Sort(upcoming, ByDate(timeOf));
    StableSort.SortSorted(upcoming, ByDate(timeOf));
    assert StableSort.SortedBy(sorted, ByDate(timeOf));
    sorted
  }

  /** `upcomingEvents`: the first five of them. */
  function UpcomingEvents(events: seq<Event>, now: int, timeOf: string -> int): (r: seq<Event>)
    ensures |r| <= 5
    ensures forall i :: 0 <= i < |r| ==> r[i] in events && timeOf(r[i].date) > now
    ensures forall i, j :: 0 <= i < j < |r| ==> timeOf(r[i].date) <= timeOf(r[j].date)
    ensures multiset(r) <= multiset(UpcomingSorted(events, now, timeOf))
  {
    var sorted := UpcomingSorted(events, now, timeOf);
    var r := StableSort.Take(sorted, 5);
    forall i | 0 <= i < |r|
      ensures r[i] in events && timeOf(r[i].date) > now
    {
      assert r[i] == sorted[i];
      assert sorted[i] in multiset(sorted);
    }
    r
  }

  /**
   * The list shows the earliest upcoming events: every upcoming event is
   * shown, or five are shown and none of them is later than it.
   */
  lemma UpcomingAreEarliest(events: seq<Event>, now: int, timeOf: string -> int, e: Event)
    requires e in events && timeOf(e.date) > now
    ensures var r := UpcomingEvents(events, now, timeOf);
      e in r || (|r| == 5 && forall i :: 0 <= i < 5 ==> timeOf(r[i].date) <= timeOf(e.date))
  {
    var upcoming := Sequences.Filter(events, x => IsUpcoming(x, now, timeOf));
    var sorted := UpcomingSorted(events, now, timeOf);
    var r := UpcomingEvents(events, now, timeOf);
    var k :| 0 <= k < |events| && events[k] == e;
    assert e in upcoming;
    assert e in multiset(sorted);
    var m :| 0 <= m < |sorted| && sorted[m] == e;
    if m < 5 {
      assert r[m] == e;
    } else {
      forall i | 0 <= i < 5
        ensures timeOf(r[i].date) <= timeOf(e.date)
      {
        assert r[i] == sorted[i];
      }
    }
  }

  /** Fewer than five are shown only when there are no more upcoming events. */
  lemma UpcomingCount(events: seq<Event>, now: int, timeOf: string -> int)
    ensures var n := |Sequences.Filter(events, e => IsUpcoming(e, now, timeOf))|;
      |UpcomingEvents(events, now, timeOf)| == if n < 5 then n else 5
  {
    var upcoming := Sequences.Filter(events, e => IsUpcoming(e, now, timeOf));
    var sorted := UpcomingSorted(events, now, timeOf);
    assert |sorted| == |multiset(sorted)| == |multiset(upcoming)| == |upcoming|;
  }

  /**
   * The "Upcoming Events" card shows the number of all events, past ones
   * included, so it can be positive while the upcoming list is empty.
   */
  function UpcomingStat(events: seq<Event>): (n: nat)
    ensures forall now, timeOf :: |UpcomingEvents(events, now, timeOf)| <= n
  {
    assert forall now, timeOf :: |UpcomingEvents(events, now, timeOf)| <= |events| by {
      forall now, timeOf
        ensures |UpcomingEvents(events, now, timeOf)| <= |events|
      {
        UpcomingCount(events, now, timeOf);
      }
    }
    |events|
  }

  lemma StatCountsPastEvents(events: seq<Event>, now: int, timeOf: string -> int)
    requires forall i :: 0 <= i < |events| ==> timeOf(events[i].date) <= now
    ensures UpcomingEvents(events, now, timeOf) == []
    ensures UpcomingStat(events) == |events|
  {
    Sequences.FilterNone(events, e => IsUpcoming(e, now, timeOf));
    UpcomingCount(events, now, timeOf);
  }

  // ---------------------------------------------------------------------------
  // Recent donations
  // ---------------------------------------------------------------------------

  /** Later dates first. */
  function ByDateDesc(timeOf: string -> int): (Donation, Donation) -> int {
    (a: Donation, b: Donation) => timeOf(b.date) - timeOf(a.date)
  }

  /**
   * `recentDonations`. The page sorts the fetched `donations` array itself,
   * so the call yields both the reordered array and its first five entries.
   */
  datatype Recent = Recent(reordered: seq<Donation>, shown: seq<Donation>)

  function RecentDonations(donations: seq<Donation>, timeOf: string -> int): (r: Recent)
    ensures multiset(r.reordered) == multiset(donations)
    ensures forall i, j :: 0 <= i < j < |r.reordered| ==>
      timeOf(r.reordered[i].date) >= timeOf(r.reordered[j].date)
    ensures r.shown <= r.reordered
    ensures |r.shown| == if |donations| < 5 then |donations| else 5
  {
    var reordered := StableSort.Sort(donations, ByDateDesc(timeOf));
    StableSort.SortSorted(donations, ByDateDesc(timeOf));
    assert StableSort.SortedBy(reordered, ByDateDesc(timeOf));
    Recent(reordered, StableSort.Take(reordered, 5))
  }

  /** No donation left off the list is more recent than the five shown. */
  lemma RecentAreLatest(donations: seq<Donation>, timeOf: string -> int, d: Donation)
    requires d in donations
    ensures var r := RecentDonations(donations, timeOf);
      d in r.shown || forall i :: 0 <= i < |r.shown| ==> timeOf(r.shown[i].date) >= timeOf(d.date)
  {
    var r := RecentDonations(donations, timeOf);
    assert d in multiset(r.reordered);
    var m :| 0 <= m < |r.reordered| && r.reordered[m] == d;
    if m < |r.shown| {
      assert r.shown[m] == d;
    } else {
      forall i | 0 <= i < |r.shown|
        ensures timeOf(r.shown[i].date) >= timeOf(d.date)
      {
        assert r.shown[i] == r.reordered[i];
      }
    }
  }
}
