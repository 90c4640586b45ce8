/** src/lib/stores.ts: the journal and prayer stores, each holding the list
    the app shows, and the streak snapshot derived from the journal list.

    A store method awaits a backend call first; its outcome is a parameter
    here. Only when the call returns does the method update the list, with
    a prepend, a filter on the id or a map replacing by id; when the call
    throws, the method rethrows and the list is left as it was. */
module Stores {
  import opened Model
  import opened StreakSpec
  import Lists

  class JournalStore {
    /** The entries currently held, latest-created first. */
    var entries: seq<JournalEntry>

    constructor ()
      ensures entries == []
    {
      entries := [];
    }

    /** `loadEntries`: the list becomes what the backend listed. */
    method LoadEntries(fetched: seq<JournalEntry>)
      modifies this
      ensures entries == fetched
    {
      entries := fetched;
    }

    /** `addEntry`: the entry the backend created goes to the front; the rest
        of the list is unchanged. */
    method AddEntry(created: Call<JournalEntry>) returns (r: Result<Option<JournalEntry>>)
      modifies this
      ensures created.Threw? ==> r == Err && entries == old(entries)
      ensures created.Returned? ==> r == Ok(created.value)
      ensures created.Returned? && created.value.Some? ==>
                |entries| == |old(entries)| + 1 &&
                entries[0] == created.value.value && entries[1..] == old(entries)
      ensures created.Returned? && created.value.None? ==> entries == old(entries)
    {
      match created
      case Threw =>
        r := Err;
      case Returned(newEntry) =>
        if newEntry.Some? {
          entries := [newEntry.value] + entries;
        }
        r := Ok(newEntry);
    }

    /** `deleteEntry`: once the backend deleted it, every entry with the id
        leaves the list and the others keep their order. */
    method DeleteEntry(id: string, deleted: Outcome) returns (r: Result<()>)
      modifies this
      ensures deleted.Failed? ==> r == Err && entries == old(entries)
      ensures deleted.Succeeded? ==> r == Ok(()) && entries == Lists.RemoveById(old(entries), EntryId, id)
    {
      if deleted.Failed? {
        r := Err;
      } else {
        entries := Lists.RemoveById(entries, EntryId, id);
        r := Ok(());
      }
    }
  }

  class PrayerStore {
    /** The prayers currently held, latest-created first. */
    var prayers: seq<Prayer>

    constructor ()
      ensures prayers == []
    {
      prayers := [];
    }

    /** `loadPrayers`: the list becomes what the backend listed. */
    method LoadPrayers(fetched: seq<Prayer>)
      modifies this
      ensures prayers == fetched
    {
      prayers := fetched;
    }

    /** `addPrayer`: the prayer the backend created goes to the front. */
    method AddPrayer(created: Call<Prayer>) returns (r: Result<Option<Prayer>>)
      modifies this
      ensures created.Threw? ==> r == Err && prayers == old(prayers)
      ensures created.Returned? ==> r == Ok(created.value)
      ensures created.Returned? && created.value.Some? ==>
                |prayers| == |old(prayers)| + 1 &&
                prayers[0] == created.value.value && prayers[1..] == old(prayers)
      ensures created.Returned? && created.value.None? ==> prayers == old(prayers)
    {
      match created
      case Threw =>
        r := Err;
      case Returned(newPrayer) =>
        if newPrayer.Some? {
          prayers := [newPrayer.value] + prayers;
        }
        r := Ok(newPrayer);
    }

    /** `answerPrayer`: the backend's updated prayer replaces every prayer with
        the id, in place; the length and the other prayers are unchanged. */
    method AnswerPrayer(id: string, updated: Call<Prayer>) returns (r: Result<Option<Prayer>>)
      modifies this
      ensures updated.Threw? ==> r == Err && prayers == old(prayers)
      ensures updated.Returned? ==> r == Ok(updated.value)
      ensures updated.Returned? && updated.value.Some? ==>
                prayers == Lists.ReplaceById(old(prayers), PrayerId, id, updated.value.value)
      ensures updated.Returned? && updated.value.None? ==> prayers == old(prayers)
      ensures |prayers| == |old(prayers)|
    {
      match updated
      case Threw =>
        r := Err;
      case Returned(p) =>
        if p.Some? {
          prayers := Lists.ReplaceById(prayers, PrayerId, id, p.value);
        }
        r := Ok(p);
    }

    /** `deletePrayer`: once the backend deleted it, every prayer with the id
        leaves the list and the others keep their order. */
    method DeletePrayer(id: string, deleted: Outcome) returns (r: Result<()>)
      modifies this
      ensures deleted.Failed? ==> r == Err && prayers == old(prayers)
      ensures deleted.Succeeded? ==> r == Ok(()) && prayers == Lists.RemoveById(old(prayers), PrayerId, id)
    {
      if deleted.Failed? {
        r := Err;
      } else {
        prayers := Lists.RemoveById(prayers, PrayerId, id);
        r := Ok(());
      }
    }
  }

  /** `createStreakStore`'s derived computation over the journal list,
      observed at time `now`: sort latest first, seed the streak when the
      latest entry is at most a day old, walk neighbours until the first gap
      of more than a day, count the entries of the last seven days. */
  method ComputeStreak(entries: seq<JournalEntry>, now: int) returns (s: Streak)
    ensures s == StreakOf(Dates(entries), now)
    ensures entries == [] ==> s == Streak(0, 0, None, 0)
    ensures s.longest == s.current <= |entries|
    ensures s.weeklyEntries <= |entries|
  {
    if |entries| == 0 {
      return Streak(0, 0, None, 0);
    }
    var sorted := SortDesc(Dates(entries));
    var current := 0;
    var lastDate := sorted[0];
    var daysSince := FloorDays(now - lastDate);
    if daysSince <= 1 {
      current := 1;
      for i := 1 to |sorted|
        invariant current == i
        invariant forall j :: 1 <= j < i ==> Gap(sorted, j) <= 1
      {
        var daysBetween := FloorDays(sorted[i - 1] - sorted[i]);
        if daysBetween <= 1 {
          current := current + 1;
        } else {
          LeadingRunIs(sorted, i - 1);
          assert current == 1 + LeadingRun(sorted);
          break;
        }
      }
      if current == |sorted| {
        LeadingRunIs(sorted, |sorted| - 1);
      }
      assert current == 1 + LeadingRun(sorted);
    }
    var weekAgo := now - WeekMs;
    var weeklyEntries := CountSince(sorted, weekAgo);
    s := Streak(current, if current > 0 then current else 0, Some(lastDate), weeklyEntries);
  }
}
