/** The two read-only views of the logs: the calendar history and the photo
    feed. Both are functions of the store, so neither changes it. */
module Projections {
  import opened Model
  import opened Ordering

  /** A log as the history lists it: every field except the photo. */
  datatype HistoryEntry = HistoryEntry(date: string, tasks: map<string, bool>, dayNumber: int, isCompleted: bool)

  /** A log as the photo feed lists it: its date, day number and photo. */
  datatype PhotoEntry = PhotoEntry(date: string, dayNumber: int, photo: string)

  function WithoutPhoto(log: DailyLog): HistoryEntry
  {
    HistoryEntry(log.date, log.tasks, log.dayNumber, log.isCompleted)
  }

  function PhotoOf(log: DailyLog): PhotoEntry
    requires log.photo.Some?
  {
    PhotoEntry(log.date, log.dayNumber, log.photo.value)
  }

  /** `to_list(length = n)`: the first `n` items of the cursor. */
  function TakeAtMost<T>(s: seq<T>, n: nat): (r: seq<T>)
    ensures |r| == if |s| <= n then |s| else n
    ensures r == s[..|r|]
  {
    if |s| <= n then s else s[..n]
  }

  /** Rank of the history sort: all dates rank alike, so they sort by date. */
  function NoRank(d: string): int
  {
    0
  }

  /** Rank of the photo sort: the log's day number. Ties are broken by date. */
  function DayRank(logs: map<string, DailyLog>): string -> int
  {
    d => if d in logs then logs[d].dayNumber else 0
  }

  /** Dates of the logs that hold a photo. */
  function PhotoDates(logs: map<string, DailyLog>): set<string>
  {
    set d | d in logs && logs[d].photo.Some?
  }

  /** Dates of the logs `get_history` lists, in order. */
  function HistoryDates(db: Db): (r: seq<string>)
    ensures forall i :: 0 <= i < |r| ==> r[i] in db.logs
  {
    SortedByMembers(NoRank, db.logs.Keys);
    TakeAtMost(SortedBy(NoRank, db.logs.Keys), MaxListLength)
  }

  /** Dates of the logs `get_photos` lists, in order. */
  function PhotoFeedDates(db: Db): (r: seq<string>)
    ensures forall i :: 0 <= i < |r| ==> r[i] in PhotoDates(db.logs)
  {
    SortedByMembers(DayRank(db.logs), PhotoDates(db.logs));
    TakeAtMost(SortedBy(DayRank(db.logs), PhotoDates(db.logs)), MaxListLength)
  }

  /** `get_history`: every log without its photo, ascending by date, at most 365. */
  function GetHistory(db: Db): (r: seq<HistoryEntry>)
    ensures |r| == if |db.logs| <= MaxListLength then |db.logs| else MaxListLength
  {
    var dates := HistoryDates(db);
    seq(|dates|, i requires 0 <= i < |dates| => WithoutPhoto(db.logs[dates[i]]))
  }

  /** `get_photos`: the logs that hold a photo, ascending by day number,
      projected to date, day number and photo, at most 365. */
  function GetPhotos(db: Db): (r: seq<PhotoEntry>)
    ensures |r| == if |PhotoDates(db.logs)| <= MaxListLength then |PhotoDates(db.logs)| else MaxListLength
  {
    var dates := PhotoFeedDates(db);
    seq(|dates|, i requires 0 <= i < |dates| => PhotoOf(db.logs[dates[i]]))
  }

  /** The kept prefix of a sorted list is itself strictly ascending. */
  lemma KeptAscending(rank: string -> int, keys: set<string>, n: nat, i: int, j: int)
    requires 0 <= i < j < |TakeAtMost(SortedBy(rank, keys), n)|
    ensures var kept := TakeAtMost(SortedBy(rank, keys), n);
            RankedLe(rank, kept[i], kept[j]) && kept[i] != kept[j]
  {
    SortedByAscending(rank, keys, i, j);
  }

  /** When nothing is cut off, every key is kept. */
  lemma KeptAll(rank: string -> int, keys: set<string>, n: nat, d: string)
    requires |keys| <= n && d in keys
    ensures d in TakeAtMost(SortedBy(rank, keys), n)
  {
    SortedByMembers(rank, keys);
  }

  lemma HistoryAt(db: Db, i: int)
    requires WellKeyed(db.logs)
    requires 0 <= i < |GetHistory(db)|
    ensures var d := HistoryDates(db)[i];
            d in db.logs && GetHistory(db)[i] == WithoutPhoto(db.logs[d]) && GetHistory(db)[i].date == d
  {
    SortedByMembers(NoRank, db.logs.Keys);
    assert HistoryDates(db)[i] in SortedBy(NoRank, db.logs.Keys);
  }

  /** Each history item is a stored log without its photo. */
  lemma HistoryItemsAreLogs(db: Db)
    requires WellKeyed(db.logs)
    ensures var r := GetHistory(db);
            forall i :: 0 <= i < |r| ==> r[i].date in db.logs && r[i] == WithoutPhoto(db.logs[r[i].date])
  {
    forall i | 0 <= i < |GetHistory(db)| {
      HistoryAt(db, i);
    }
  }

  /** The history is strictly ascending by date. */
  lemma HistoryAscending(db: Db)
    requires WellKeyed(db.logs)
    ensures var r := GetHistory(db);
            forall i, j :: 0 <= i < j < |r| ==> LexLe(r[i].date, r[j].date) && r[i].date != r[j].date
  {
    var r := GetHistory(db);
    forall i, j | 0 <= i < j < |r|
      ensures LexLe(r[i].date, r[j].date) && r[i].date != r[j].date
    {
      HistoryAt(db, i);
      HistoryAt(db, j);
      KeptAscending(NoRank, db.logs.Keys, MaxListLength, i, j);
    }
  }

  /** With at most 365 logs, the history lists every one of them. */
  lemma HistoryComplete(db: Db, d: string)
    requires WellKeyed(db.logs)
    requires |db.logs| <= MaxListLength && d in db.logs
    ensures WithoutPhoto(db.logs[d]) in GetHistory(db)
  {
    KeptAll(NoRank, db.logs.Keys, MaxListLength, d);
    var j :| 0 <= j < |HistoryDates(db)| && HistoryDates(db)[j] == d;
    HistoryAt(db, j);
  }

  /** A log the history leaves out is dated after every log it lists. */
  lemma HistoryKeepsEarliest(db: Db, d: string)
    requires WellKeyed(db.logs)
    requires d in db.logs && WithoutPhoto(db.logs[d]) !in GetHistory(db)
    ensures var r := GetHistory(db);
            forall i :: 0 <= i < |r| ==> LexLe(r[i].date, d)
  {
    var r := GetHistory(db);
    var all := SortedBy(NoRank, db.logs.Keys);
    forall i | 0 <= i < |r|
      ensures LexLe(r[i].date, d)
    {
      forall k | 0 <= k <= i
        ensures all[k] != d
      {
        HistoryAt(db, k);
        assert r[k] in r;
      }
      HistoryAt(db, i);
      LaterKeyRanksHigher(NoRank, db.logs.Keys, d, i);
    }
  }

  lemma PhotoAt(db: Db, i: int)
    requires WellKeyed(db.logs)
    requires 0 <= i < |GetPhotos(db)|
    ensures var d := PhotoFeedDates(db)[i];
            && d in PhotoDates(db.logs)
            && GetPhotos(db)[i] == PhotoOf(db.logs[d])
            && GetPhotos(db)[i].date == d
            && DayRank(db.logs)(d) == GetPhotos(db)[i].dayNumber
  {
    SortedByMembers(DayRank(db.logs), PhotoDates(db.logs));
    assert PhotoFeedDates(db)[i] in SortedBy(DayRank(db.logs), PhotoDates(db.logs));
  }

  /** Each photo item carries a stored log's date, day number and photo. */
  lemma PhotoItemsAreLogs(db: Db)
    requires WellKeyed(db.logs)
    ensures var r := GetPhotos(db);
            forall i :: 0 <= i < |r| ==>
              && r[i].date in db.logs
              && db.logs[r[i].date].photo == Some(r[i].photo)
              && db.logs[r[i].date].dayNumber == r[i].dayNumber
  {
    forall i | 0 <= i < |GetPhotos(db)| {
      PhotoAt(db, i);
    }
  }

  /** The photo feed is in non-decreasing order of day number, each date once. */
  lemma PhotosAscending(db: Db)
    requires WellKeyed(db.logs)
    ensures var r := GetPhotos(db);
            forall i, j :: 0 <= i < j < |r| ==> r[i].dayNumber <= r[j].dayNumber && r[i].date != r[j].date
  {
    var r := GetPhotos(db);
    forall i, j | 0 <= i < j < |r|
      ensures r[i].dayNumber <= r[j].dayNumber && r[i].date != r[j].date
    {
      PhotoAt(db, i);
      PhotoAt(db, j);
      KeptAscending(DayRank(db.logs), PhotoDates(db.logs), MaxListLength, i, j);
    }
  }

  /** With at most 365 photos, the feed lists every log that holds one. */
  lemma PhotosComplete(db: Db, d: string)
    requires WellKeyed(db.logs)
    requires |PhotoDates(db.logs)| <= MaxListLength && d in db.logs && db.logs[d].photo.Some?
    ensures PhotoOf(db.logs[d]) in GetPhotos(db)
  {
    assert d in PhotoDates(db.logs);
    KeptAll(DayRank(db.logs), PhotoDates(db.logs), MaxListLength, d);
    var j :| 0 <= j < |PhotoFeedDates(db)| && PhotoFeedDates(db)[j] == d;
    PhotoAt(db, j);
  }

  /** A photo the feed leaves out has a day number no lower than any it lists. */
  lemma PhotosKeepLowestDays(db: Db, d: string)
    requires WellKeyed(db.logs)
    requires d in db.logs && db.logs[d].photo.Some? && PhotoOf(db.logs[d]) !in GetPhotos(db)
    ensures var r := GetPhotos(db);
            forall i :: 0 <= i < |r| ==> r[i].dayNumber <= db.logs[d].dayNumber
  {
    var r := GetPhotos(db);
    var all := SortedBy(DayRank(db.logs), PhotoDates(db.logs));
    assert d in PhotoDates(db.logs);
    forall i | 0 <= i < |r|
      ensures r[i].dayNumber <= db.logs[d].dayNumber
    {
      forall k | 0 <= k <= i
        ensures all[k] != d
      {
        PhotoAt(db, k);
        assert r[k] in r;
      }
      PhotoAt(db, i);
      LaterKeyRanksHigher(DayRank(db.logs), PhotoDates(db.logs), d, i);
    }
  }
}
