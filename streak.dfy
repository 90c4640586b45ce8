/** The streak snapshot derived from a list of journal entry dates, as a
    specification: the descending sort, whole-day differences, the leading
    run of adjacent entries at most one day apart, and the trailing-week
    count. The store methods that compute it with a loop are proved equal
    to `StreakOf`; the lemmas here say what `StreakOf` means. */
module StreakSpec {
  import opened Model

  /** `1000 * 60 * 60 * 24` */
  const DayMs: int := 86400000

  /** The week window: seven days of milliseconds before now. */
  const WeekMs: int := 7 * DayMs

  datatype Streak = Streak(current: nat, longest: nat, lastEntry: Option<int>, weeklyEntries: nat)

  const EmptyStreak := Streak(0, 0, None, 0)

  /** `Math.floor(ms / 86400000)`: the whole days in `ms`, rounded down,
      also for negative `ms`. */
  function FloorDays(ms: int): (d: int)
    ensures d * 86400000 <= ms < d * 86400000 + 86400000
    ensures ms >= 0 <==> d >= 0
  {
    ms / DayMs
  }

  /** Whole days between the entries at `i - 1` and `i` of a list: never
      negative when the list descends there, and at most one exactly when
      the two dates are less than two days apart. */
  function Gap(s: seq<int>, i: int): (g: int)
    requires 0 < i < |s|
    ensures s[i - 1] >= s[i] ==> g >= 0
    ensures g <= 1 <==> s[i - 1] - s[i] < 2 * 86400000
  {
    FloorDays(s[i - 1] - s[i])
  }

  ghost predicate SortedDesc(s: seq<int>) {
    forall i, j :: 0 <= i < j < |s| ==> s[i] >= s[j]
  }

  /** Places `x` before the first element it is not smaller than. */
  function Insert(x: int, s: seq<int>): (r: seq<int>)
    ensures |r| == |s| + 1
  {
    if s == [] || x >= s[0] then [x] + s else [s[0]] + Insert(x, s[1..])
  }

  /** `[...dates].sort((a, b) => b - a)`: the dates, latest first. */
  function SortDesc(dates: seq<int>): (r: seq<int>)
    ensures |r| == |dates|
  {
    if dates == [] then [] else Insert(dates[0], SortDesc(dates[1..]))
  }

  /** Inserting adds exactly the one element. */
  lemma {:induction false} InsertPermutes(x: int, s: seq<int>)
    ensures multiset(Insert(x, s)) == multiset(s) + multiset{x}
  {
    if s != [] && x < s[0] {
      InsertPermutes(x, s[1..]);
      assert s == [s[0]] + s[1..];
    }
  }

  /** Inserting into a descending list keeps it descending. */
  lemma {:induction false} InsertSorted(x: int, s: seq<int>)
    requires SortedDesc(s)
    ensures Insert(x, s)[0] == if s == [] || x >= s[0] then x else s[0]
    ensures SortedDesc(Insert(x, s))
  {
    var r := Insert(x, s);
    if s == [] || x >= s[0] {
      assert r == [x] + s;
      forall i, j | 0 <= i < j < |r| ensures r[i] >= r[j] {
        if i == 0 {
          assert r[j] == s[j - 1] <= s[0];
        } else {
          assert r[i] == s[i - 1] && r[j] == s[j - 1];
        }
      }
    } else {
      var t := Insert(x, s[1..]);
      SortedTail(s);
      InsertSorted(x, s[1..]);
      assert r == [s[0]] + t;
      assert s[0] >= t[0];
      forall i, j | 0 <= i < j < |r| ensures r[i] >= r[j] {
        if i == 0 {
          assert s[0] >= t[0] >= t[j - 1];
        } else {
          assert r[i] == t[i - 1] && r[j] == t[j - 1];
        }
      }
    }
  }

  /** The sort gives a descending permutation of its input. */
  lemma {:induction false} SortDescSorted(dates: seq<int>)
    ensures SortedDesc(SortDesc(dates))
    ensures multiset(SortDesc(dates)) == multiset(dates)
  {
    if dates != [] {
      SortDescSorted(dates[1..]);
      InsertSorted(dates[0], SortDesc(dates[1..]));
      InsertPermutes(dates[0], SortDesc(dates[1..]));
      assert dates == [dates[0]] + dates[1..];
    }
  }

  /** The number of adjacent pairs, from the front, whose whole-day gap is
      at most one: the walk stops at the first larger gap. */
  function LeadingRun(s: seq<int>): (n: nat)
    ensures s != [] ==> n < |s|
  {
    if |s| < 2 || Gap(s, 1) > 1 then 0 else 1 + LeadingRun(s[1..])
  }

  /** `dates.filter(d => d >= cutoff).length` */
  function CountSince(dates: seq<int>, cutoff: int): (n: nat)
    ensures n <= |dates|
  {
    if dates == [] then 0
    else (if dates[0] >= cutoff then 1 else 0) + CountSince(dates[1..], cutoff)
  }

  /** The count is zero exactly when every date is before the cutoff, and is
      the whole length exactly when none is. */
  lemma {:induction false} CountSinceMeans(dates: seq<int>, cutoff: int)
    ensures CountSince(dates, cutoff) == 0 <==> forall i :: 0 <= i < |dates| ==> dates[i] < cutoff
    ensures CountSince(dates, cutoff) == |dates| <==> forall i :: 0 <= i < |dates| ==> dates[i] >= cutoff
  {
    if dates != [] {
      CountSinceMeans(dates[1..], cutoff);
      assert forall i :: 1 <= i < |dates| ==> dates[i] == dates[1..][i - 1];
    }
  }

  /** The snapshot of src/lib/stores.ts `createStreakStore`, for the entry
      dates `dates` observed at time `now`. */
  function StreakOf(dates: seq<int>, now: int): (st: Streak)
    ensures st.lastEntry.None? <==> dates == []
    ensures st.longest == st.current <= |dates|
    ensures st.weeklyEntries <= |dates|
  {
    if dates == [] then EmptyStreak
    else
      var sorted := SortDesc(dates);
      var current := if FloorDays(now - sorted[0]) <= 1 then 1 + LeadingRun(sorted) else 0;
      Streak(current, if current > 0 then current else 0, Some(sorted[0]), CountSince(sorted, now - WeekMs))
  }

  // ---------------------------------------------------------------------
  // Sorting

  /** A sorted list's head is the largest of its elements. */
  lemma SortedHeadIsMax(s: seq<int>)
    requires SortedDesc(s) && s != []
    ensures forall x :: x in s ==> x <= s[0]
  {
  }

  lemma SortedTail(s: seq<int>)
    requires SortedDesc(s) && s != []
    ensures SortedDesc(s[1..])
  {
    forall i, j | 0 <= i < j < |s[1..]| ensures s[1..][i] >= s[1..][j] {
      assert s[1..][i] == s[i + 1] && s[1..][j] == s[j + 1];
    }
  }

  /** Two descending lists with the same elements are the same list, so the
      sort's result depends only on the multiset of its input. */
  lemma {:induction false} SortedUnique(a: seq<int>, b: seq<int>)
    requires SortedDesc(a) && SortedDesc(b)
    requires multiset(a) == multiset(b)
    ensures a == b
  {
    if a != [] {
      assert a[0] in multiset(b) by { assert a[0] in a; }
      assert b[0] in multiset(a) by { assert b[0] in b; }
      SortedHeadIsMax(a);
      SortedHeadIsMax(b);
      assert a[0] == b[0];
      MultisetTail(a);
      MultisetTail(b);
      SortedTail(a);
      SortedTail(b);
      SortedUnique(a[1..], b[1..]);
    } else {
      assert |b| == |multiset(b)| == 0;
    }
  }

  lemma MultisetTail(s: seq<int>)
    requires s != []
    ensures multiset(s[1..]) == multiset(s) - multiset{s[0]}
    ensures s == [s[0]] + s[1..]
  {
    assert s == [s[0]] + s[1..];
  }

  lemma SortDescPermutation(d1: seq<int>, d2: seq<int>)
    requires multiset(d1) == multiset(d2)
    ensures SortDesc(d1) == SortDesc(d2)
  {
    SortDescSorted(d1);
    SortDescSorted(d2);
    SortedUnique(SortDesc(d1), SortDesc(d2));
  }

  /** Whole-day gaps between neighbours of a sorted list are never negative. */
  lemma SortedGapsNonNegative(s: seq<int>, i: int)
    requires SortedDesc(s) && 0 < i < |s|
    ensures Gap(s, i) >= 0
  {
  }

  // ---------------------------------------------------------------------
  // The leading run

  /** `LeadingRun(s)` is the one `k` such that the first `k` gaps are at most
      one day and the gap after them, if there is one, is larger. */
  lemma {:induction false} LeadingRunIs(s: seq<int>, k: nat)
    requires k < |s|
    requires forall j :: 1 <= j <= k ==> Gap(s, j) <= 1
    requires k + 1 == |s| || Gap(s, k + 1) > 1
    ensures LeadingRun(s) == k
  {
    if k > 0 {
      forall j | 1 <= j <= k - 1 ensures Gap(s[1..], j) <= 1 {
        assert Gap(s[1..], j) == Gap(s, j + 1);
      }
      if k < |s| - 1 {
        assert Gap(s[1..], k) == Gap(s, k + 1);
      }
      LeadingRunIs(s[1..], k - 1);
    }
  }

  /** Conversely, the first `LeadingRun(s)` gaps are at most one day and the
      next one, if any, is larger. */
  lemma {:induction false} LeadingRunMeans(s: seq<int>)
    requires s != []
    ensures forall j :: 1 <= j <= LeadingRun(s) ==> Gap(s, j) <= 1
    ensures LeadingRun(s) + 1 == |s| || Gap(s, LeadingRun(s) + 1) > 1
  {
    if |s| >= 2 && Gap(s, 1) <= 1 {
      LeadingRunMeans(s[1..]);
      forall j | 2 <= j <= LeadingRun(s) ensures Gap(s, j) <= 1 {
        assert Gap(s, j) == Gap(s[1..], j - 1);
      }
      if LeadingRun(s) + 1 < |s| {
        assert Gap(s, LeadingRun(s) + 1) == Gap(s[1..], LeadingRun(s[1..]) + 1);
      }
    }
  }

  // ---------------------------------------------------------------------
  // The trailing-week count

  lemma {:induction false} CountSinceInsert(x: int, s: seq<int>, cutoff: int)
    ensures CountSince(Insert(x, s), cutoff) == (if x >= cutoff then 1 else 0) + CountSince(s, cutoff)
  {
    var r := Insert(x, s);
    if s != [] && x < s[0] {
      CountSinceInsert(x, s[1..], cutoff);
      assert r == [s[0]] + Insert(x, s[1..]);
      assert r[1..] == Insert(x, s[1..]);
      assert CountSince(r, cutoff) == (if s[0] >= cutoff then 1 else 0) + CountSince(r[1..], cutoff);
    } else {
      assert r[1..] == s;
    }
  }

  /** Counting over the sorted list is counting over the entries as given. */
  lemma {:induction false} CountSinceSorted(dates: seq<int>, cutoff: int)
    ensures CountSince(SortDesc(dates), cutoff) == CountSince(dates, cutoff)
  {
    if dates != [] {
      CountSinceSorted(dates[1..], cutoff);
      CountSinceInsert(dates[0], SortDesc(dates[1..]), cutoff);
    }
  }

  // ---------------------------------------------------------------------
  // Properties of the snapshot

  /** No entries: zero counts and no last entry. */
  lemma EmptyHasNoStreak(now: int)
    ensures StreakOf([], now) == Streak(0, 0, None, 0)
  {
  }

  /** The snapshot depends on the multiset of dates only, not on their order. */
  lemma StreakOrderIndependent(d1: seq<int>, d2: seq<int>, now: int)
    requires multiset(d1) == multiset(d2)
    ensures StreakOf(d1, now) == StreakOf(d2, now)
  {
    SortDescPermutation(d1, d2);
    if d1 == [] {
      assert |multiset(d2)| == 0;
    } else {
      assert |d2| == |multiset(d2)| == |multiset(d1)| == |d1|;
    }
  }

  /** `lastEntry` is present exactly when there are entries, and is then the
      latest date. */
  lemma LastEntryIsLatest(dates: seq<int>, now: int)
    ensures StreakOf(dates, now).lastEntry.None? <==> dates == []
    ensures StreakOf(dates, now).lastEntry.Some? ==>
              StreakOf(dates, now).lastEntry.value in dates &&
              forall x :: x in dates ==> x <= StreakOf(dates, now).lastEntry.value
  {
    if dates != [] {
      var sorted := SortDesc(dates);
      SortDescSorted(dates);
      assert sorted[0] in multiset(dates) by { assert sorted[0] in sorted; }
      forall x | x in dates ensures x <= sorted[0] {
        assert x in multiset(sorted);
      }
    }
  }

  /** The streak is broken (zero) exactly when the latest entry is more than
      one whole day before now; a latest entry in the future still seeds it. */
  lemma CurrentZeroIffLapsed(dates: seq<int>, now: int, latest: int)
    requires dates != [] && latest in dates
    requires forall x :: x in dates ==> x <= latest
    ensures StreakOf(dates, now).current == 0 <==> FloorDays(now - latest) > 1
    ensures latest >= now ==> StreakOf(dates, now).current >= 1
  {
    LastEntryIsLatest(dates, now);
  }

  /** When seeded, the streak is one plus the leading run of the sorted dates:
      the first `current - 1` gaps are at most a day, the next one is larger. */
  lemma CurrentIsLeadingRun(dates: seq<int>, now: int)
    requires dates != []
    requires FloorDays(now - SortDesc(dates)[0]) <= 1
    ensures var sorted, c := SortDesc(dates), StreakOf(dates, now).current;
      |sorted| == |dates| && 1 <= c <= |dates| &&
      (forall j :: 1 <= j < c ==> 0 <= Gap(sorted, j) <= 1) &&
      (c == |dates| || Gap(sorted, c) > 1)
  {
    var sorted := SortDesc(dates);
    SortDescSorted(dates);
    LeadingRunMeans(sorted);
  }

  /** Same-day entries each add one: the streak counts entries, not days. When
      every neighbour in the sorted list is at most a day apart and the latest
      is recent, the streak is the number of entries. */
  lemma {:induction false} AllCloseCountsEveryEntry(dates: seq<int>, now: int)
    requires dates != []
    requires FloorDays(now - SortDesc(dates)[0]) <= 1
    requires forall j :: 1 <= j < |dates| ==> Gap(SortDesc(dates), j) <= 1
    ensures StreakOf(dates, now).current == |dates|
  {
    LeadingRunIs(SortDesc(dates), |dates| - 1);
  }

  /** A gap of two or more days right after the latest entry caps the streak
      at one. */
  lemma GapAfterLatestBreaks(dates: seq<int>, now: int)
    requires |dates| >= 2
    requires Gap(SortDesc(dates), 1) > 1
    ensures StreakOf(dates, now).current <= 1
  {
  }

  /** `longest` equals `current` and neither is negative. */
  lemma LongestIsCurrent(dates: seq<int>, now: int)
    ensures StreakOf(dates, now).longest == StreakOf(dates, now).current
  {
  }

  /** `weeklyEntries` counts the entries dated no earlier than seven days
      before now, and never exceeds the number of entries. */
  lemma WeeklyCountsLastSevenDays(dates: seq<int>, now: int)
    ensures StreakOf(dates, now).weeklyEntries == CountSince(dates, now - WeekMs) <= |dates|
  {
    CountSinceSorted(dates, now - WeekMs);
  }

  /** The weekly window has no upper bound: entries dated after `now`, such
      as a "today" entry stored at a midnight still ahead of the clock,
      are all counted. */
  lemma FutureEntriesCountThisWeek(dates: seq<int>, now: int)
    requires forall i :: 0 <= i < |dates| ==> dates[i] > now
    ensures StreakOf(dates, now).weeklyEntries == |dates|
  {
    WeeklyCountsLastSevenDays(dates, now);
    CountSinceMeans(dates, now - WeekMs);
  }
}
