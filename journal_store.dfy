/** src/lib/stores/journal.ts: a second copy of the journal store and of the
    streak computation. Its store methods do not catch and rethrow, which
    leaves the same observable behaviour: a thrown backend error propagates
    and the list is not touched. Its streak method is proved equal to the
    same specification as the one of src/lib/stores.ts, so the two copies
    agree on every list of entries and every `now`. */
module JournalStores {
  import opened Model
  import opened StreakSpec
  import Lists

  class JournalStore {
    /** The entries currently held, latest-created first. */
    var entries: seq<JournalEntry>

    constructor ()
      ensures entries == []
    {
      entries := [];
    }

    /** `loadEntries`: the list becomes what the backend listed. */
    method LoadEntries(fetched: seq<JournalEntry>)
      modifies this
      ensures entries == fetched
    {
      entries := fetched;
    }

    /** `addEntry`: the created entry goes to the front, the old list follows. */
    method AddEntry(created: Call<JournalEntry>) returns (r: Result<Option<JournalEntry>>)
      modifies this
      ensures created.Threw? ==> r == Err && entries == old(entries)
      ensures created.Returned? ==> r == Ok(created.value)
      ensures created.Returned? && created.value.Some? ==>
                |entries| == |old(entries)| + 1 &&
                entries[0] == created.value.value && entries[1..] == old(entries)
      ensures created.Returned? && created.value.None? ==> entries == old(entries)
    {
      if created.Threw? {
        r := Err;
        return;
      }
      var newEntry := created.value;
      if newEntry.Some? {
        entries := [newEntry.value] + entries;
      }
      r := Ok(newEntry);
    }

    /** `deleteEntry`: every entry with the id leaves the list, the others
        keep their order; deleting the same id again changes nothing. */
    method DeleteEntry(id: string, deleted: Outcome) returns (r: Result<()>)
      modifies this
      ensures deleted.Failed? ==> r == Err && entries == old(entries)
      ensures deleted.Succeeded? ==> r == Ok(()) && entries == Lists.RemoveById(old(entries), EntryId, id)
      ensures deleted.Succeeded? ==> Lists.RemoveById(entries, EntryId, id) == entries
    {
      if deleted.Failed? {
        r := Err;
        return;
      }
      Lists.RemoveByIdIdempotent(entries, EntryId, id);
      entries := Lists.RemoveById(entries, EntryId, id);
      r := Ok(());
    }
  }

  /** `createStreakStore`'s derived computation in this file: the same
      snapshot as `StreakOf`, hence as `Stores.ComputeStreak`. */
  method ComputeStreak(entries: seq<JournalEntry>, now: int) returns (s: Streak)
    ensures s == StreakOf(Dates(entries), now)
    ensures entries == [] ==> s == Streak(0, 0, None, 0)
    ensures s.longest == s.current <= |entries|
    ensures s.weeklyEntries <= |entries|
  {
    if |entries| == 0 {
      return Streak(0, 0, None, 0);
    }
    var sorted := SortDesc(Dates(entries));
    var current := 0;
    var lastDate := sorted[0];
    var daysSince := FloorDays(now - lastDate);
    if daysSince <= 1 {
      current := 1;
      for i := 1 to |sorted|
        invariant current == i
        invariant forall j :: 1 <= j < i ==> Gap(sorted, j) <= 1
      {
        var daysBetween := FloorDays(sorted[i - 1] - sorted[i]);
        if daysBetween <= 1 {
          current := current + 1;
        } else {
          LeadingRunIs(sorted, i - 1);
          assert current == 1 + LeadingRun(sorted);
          break;
        }
      }
      if current == |sorted| {
        LeadingRunIs(sorted, |sorted| - 1);
      }
      assert current == 1 + LeadingRun(sorted);
    }
    var weekAgo := now - WeekMs;
    var weeklyEntries := CountSince(sorted, weekAgo);
    s := Streak(current, if current > 0 then current else 0, Some(lastDate), weeklyEntries);
  }
}
