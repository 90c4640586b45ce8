/** Shapes of the records the journal app keeps in memory, and of the
    outcomes of the hosted-backend calls its stores await.

    Dates and timestamps are milliseconds since the epoch, as `int`; the
    app reads them with `new Date(..).getTime()`. */
module Model {

  datatype Option<+T> = None | Some(value: T)

  /** What an awaited backend call gives the store: the value it resolved
      with (`None` when that value is falsy), or a thrown error. */
  datatype Call<+T> = Returned(value: Option<T>) | Threw

  /** How an awaited backend call that resolves with nothing ended. */
  datatype Outcome = Succeeded | Failed

  /** What a store method gives back to its caller: the awaited value, or
      the rethrown error. */
  datatype Result<+T> = Ok(value: T) | Err

  datatype Mood =
    | Grateful | Peaceful | Joyful | Hopeful | Reflective | Troubled | Anxious | Seeking

  /** A prayer's category; `GuidanceRequest` is the category 'guidance'. */
  datatype Category =
    | Thanksgiving | Intercession | Petition | Confession | Praise | GuidanceRequest

  datatype PrayerStatus = Active | Answered

  datatype JournalEntry = JournalEntry(
    id: string,
    date: int,
    mood: Option<Mood>,
    gratitude: seq<string>,
    content: Option<string>,
    prayer: Option<string>,
    createdAt: int)

  datatype Prayer = Prayer(
    id: string,
    request: string,
    category: Category,
    status: PrayerStatus,
    answeredNote: Option<string>,
    answeredDate: Option<int>,
    createdAt: int)

  function EntryId(e: JournalEntry): string { e.id }

  function PrayerId(p: Prayer): string { p.id }

  /** The entries' dates, in list order: the day each entry belongs to,
      never its creation time. */
  function Dates(entries: seq<JournalEntry>): (ds: seq<int>)
    ensures |ds| == |entries|
  {
    if entries == [] then [] else [entries[0].date] + Dates(entries[1..])
  }
}
