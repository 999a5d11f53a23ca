/**
 * The `trackers` collection and the repository operations on it
 * (Repositories/TrackerRepository.cs). The collection is a sequence of
 * records in the store's natural order; each single-document write acts on
 * the first record its filter selects, each bulk write on all of them.
 */
module TrackerStore {
  import opened Wrappers
  import opened DotNet
  import opened TrackerEntity

  /** The store's unique index on `_id`, to which `Tracker.Id` is mapped. */
  predicate UniqueIds(ts: seq<Tracker>)
  {
    forall i, j :: 0 <= i < j < |ts| ==> ts[i].Id != ts[j].Id
  }

  /** The position of the first record whose `Id` is `id`, if any. */
  function IndexOfId(ts: seq<Tracker>, id: Guid): (r: Option<nat>)
    ensures r.Some? ==> r.value < |ts| && ts[r.value].Id == id
    ensures r.Some? ==> forall k :: 0 <= k < r.value ==> ts[k].Id != id
    ensures r.None? ==> forall k :: 0 <= k < |ts| ==> ts[k].Id != id
  {
    if ts == [] then None
    else if ts[0].Id == id then Some(0)
    else match IndexOfId(ts[1..], id)
      case None => None
      case Some(i) => Some(i + 1)
  }

  // ---------------------------------------------------------------------
  // Single-document writes
  // ---------------------------------------------------------------------

  /** `InsertOneAsync(t)`: appends `t`, unless its `Id` is taken (a duplicate-key error). */
  function InsertOne(ts: seq<Tracker>, t: Tracker): (r: Option<seq<Tracker>>)
    requires UniqueIds(ts)
    ensures r.Some? <==> forall k :: 0 <= k < |ts| ==> ts[k].Id != t.Id
    ensures r.Some? ==> |r.value| == |ts| + 1 && r.value[..|ts|] == ts && r.value[|ts|] == t
    ensures r.Some? ==> UniqueIds(r.value)
  {
    if IndexOfId(ts, t.Id).Some? then None else Some(ts + [t])
  }

  /**
   * `UpdateOneAsync(Id == id, …)`: applies `update` to the record with that
   * `Id`; a filter that selects nothing writes nothing.
   */
  function UpdateOne(ts: seq<Tracker>, id: Guid, update: Tracker -> Tracker): (r: seq<Tracker>)
    requires UniqueIds(ts)
    requires forall k :: 0 <= k < |ts| && ts[k].Id == id ==> update(ts[k]).Id == id
    ensures |r| == |ts| && UniqueIds(r)
    ensures forall k :: 0 <= k < |ts| ==> r[k] == if ts[k].Id == id then update(ts[k]) else ts[k]
  {
    match IndexOfId(ts, id)
    case None => ts
    case Some(i) => ts[i := update(ts[i])]
  }

  /** `ReplaceOneAsync(Id == t.Id, t)` (TrackerRepository.UpdateTracker). */
  function ReplaceOne(ts: seq<Tracker>, t: Tracker): (r: seq<Tracker>)
    requires UniqueIds(ts)
    ensures |r| == |ts| && UniqueIds(r)
    ensures forall k :: 0 <= k < |ts| ==> r[k] == if ts[k].Id == t.Id then t else ts[k]
  {
    UpdateOne(ts, t.Id, _ => t)
  }

  /** `DeleteOneAsync(Id == id)`: removes the record with that `Id`, if there is one. */
  function DeleteOne(ts: seq<Tracker>, id: Guid): (r: seq<Tracker>)
    requires UniqueIds(ts)
    ensures UniqueIds(r)
    ensures |r| == if IndexOfId(ts, id).Some? then |ts| - 1 else |ts|
    ensures forall t :: t in r <==> t in ts && t.Id != id
  {
    match IndexOfId(ts, id)
    case None => ts
    case Some(i) =>
      RemoveAtKeepsOthers(ts, i);
      ts[..i] + ts[i + 1..]
  }

  lemma RemoveAtKeepsOthers(ts: seq<Tracker>, i: nat)
    requires UniqueIds(ts) && i < |ts|
    ensures var r := ts[..i] + ts[i + 1..];
      && |r| == |ts| - 1 && UniqueIds(r)
      && forall t :: t in r <==> t in ts && t.Id != ts[i].Id
  {
    var r := ts[..i] + ts[i + 1..];
    assert forall k :: 0 <= k < |r| ==> r[k] == if k < i then ts[k] else ts[k + 1];
    forall t | t in ts && t.Id != ts[i].Id
      ensures t in r
    {
      var k :| 0 <= k < |ts| && ts[k] == t;
      if k < i { assert r[k] == t; } else { assert r[k - 1] == t; }
    }
  }

  /** `ToggleReleaseSeen(id, seen)`: sets only `HasSeenLatestRelease` on the record with that `Id`. */
  function SetSeen(ts: seq<Tracker>, id: Guid, seen: bool): (r: seq<Tracker>)
    requires UniqueIds(ts)
    ensures |r| == |ts| && UniqueIds(r)
    ensures forall k :: 0 <= k < |ts| ==>
      r[k] == if ts[k].Id == id then ts[k].(HasSeenLatestRelease := seen) else ts[k]
  {
    UpdateOne(ts, id, (t: Tracker) => t.(HasSeenLatestRelease := seen))
  }

  /** `ToggleComplete(id, completed)`: sets only `HasCompleted` and `CompletedAt` on the record with that `Id`. */
  function SetCompleted(ts: seq<Tracker>, id: Guid, completed: bool, now: Instant): (r: seq<Tracker>)
    requires UniqueIds(ts)
    ensures |r| == |ts| && UniqueIds(r)
    ensures forall k :: 0 <= k < |ts| ==>
      r[k] == if ts[k].Id == id then ts[k].(HasCompleted := completed, CompletedAt := Some(now)) else ts[k]
  {
    UpdateOne(ts, id, (t: Tracker) => t.(HasCompleted := completed, CompletedAt := Some(now)))
  }

  /**
   * `Find(Id == trackerId & UserId == userId).SingleOrDefaultAsync()`:
   * the record with that `Id`, provided it belongs to `userId`.
   */
  function FindForUser(ts: seq<Tracker>, trackerId: Guid, userId: Guid): (r: Option<Tracker>)
    requires UniqueIds(ts)
    ensures r.Some? ==> r.value in ts && r.value.Id == trackerId && r.value.UserId == userId
    ensures r.None? ==> forall k :: 0 <= k < |ts| ==> !(ts[k].Id == trackerId && ts[k].UserId == userId)
  {
    match IndexOfId(ts, trackerId)
    case None => None
    case Some(i) => if ts[i].UserId == userId then Some(ts[i]) else None
  }

  // ---------------------------------------------------------------------
  // BulkUpdateTracker
  // ---------------------------------------------------------------------

  /** First bulk write: every record with `Url == url` gets the release and its timestamp. */
  function SetLatestRelease(ts: seq<Tracker>, url: string, release: int, now: Instant): seq<Tracker>
  {
    seq(|ts|, k requires 0 <= k < |ts| =>
      if ts[k].Url == url then ts[k].(LatestRelease := release, LatestReleaseUpdatedAt := Some(now)) else ts[k])
  }

  /** Second bulk write: every record with `Url == url` and `LatestRelease == previous` is marked unseen. */
  function ResetSeen(ts: seq<Tracker>, url: string, previous: int): seq<Tracker>
  {
    seq(|ts|, k requires 0 <= k < |ts| =>
      if ts[k].Url == url && ts[k].LatestRelease == previous then ts[k].(HasSeenLatestRelease := false) else ts[k])
  }

  /**
   * BulkUpdateTracker as written: the seen-reset filter runs against the
   * records the first write has already given `LatestRelease == release`,
   * so it selects nothing and no seen flag changes.
   */
  function BulkUpdateAsWritten(ts: seq<Tracker>, url: string, release: int, now: Instant): (r: seq<Tracker>)
    requires Int32Min <= release <= Int32Max
    ensures |r| == |ts|
    ensures forall k :: 0 <= k < |ts| ==>
      r[k] == if ts[k].Url == url
              then ts[k].(LatestRelease := release, LatestReleaseUpdatedAt := Some(now))
              else ts[k]
  {
    ResetSeen(SetLatestRelease(ts, url, release, now), url, Int32Decrement(release))
  }

  /**
   * BulkUpdateTracker with the seen-reset filter evaluated on the records
   * read before the first write. This is the commented-out snapshot code
   * with its `Find` moved ahead of the first `UpdateManyAsync`; where it
   * stands, after that write, it would select nothing either. A record
   * with the URL is marked unseen exactly when its previous `LatestRelease`
   * was `release - 1`.
   */
  function BulkUpdateFromSnapshot(ts: seq<Tracker>, url: string, release: int, now: Instant): (r: seq<Tracker>)
    requires Int32Min <= release <= Int32Max
    ensures |r| == |ts|
    ensures forall k :: 0 <= k < |ts| ==>
      r[k] == if ts[k].Url == url
              then ts[k].(LatestRelease := release, LatestReleaseUpdatedAt := Some(now),
                          HasSeenLatestRelease := ts[k].HasSeenLatestRelease && ts[k].LatestRelease != Int32Decrement(release))
              else ts[k]
  {
    SetLatestRelease(ResetSeen(ts, url, Int32Decrement(release)), url, release, now)
  }

  /** Running BulkUpdateTracker again with the same release changes nothing but the timestamp. */
  lemma BulkUpdateAsWrittenIdempotent(ts: seq<Tracker>, url: string, release: int, t1: Instant, t2: Instant)
    requires Int32Min <= release <= Int32Max
    ensures BulkUpdateAsWritten(BulkUpdateAsWritten(ts, url, release, t1), url, release, t2)
         == BulkUpdateAsWritten(ts, url, release, t2)
  {
    var once := BulkUpdateAsWritten(ts, url, release, t1);
    var twice := BulkUpdateAsWritten(once, url, release, t2);
    var direct := BulkUpdateAsWritten(ts, url, release, t2);
    assert forall k :: 0 <= k < |ts| ==> twice[k] == direct[k];
  }

  /** The snapshot variant resets no further seen flag when repeated with the same release. */
  lemma BulkUpdateFromSnapshotIdempotent(ts: seq<Tracker>, url: string, release: int, t1: Instant, t2: Instant)
    requires Int32Min <= release <= Int32Max
    ensures BulkUpdateFromSnapshot(BulkUpdateFromSnapshot(ts, url, release, t1), url, release, t2)
         == BulkUpdateFromSnapshot(ts, url, release, t2)
  {
    var once := BulkUpdateFromSnapshot(ts, url, release, t1);
    var twice := BulkUpdateFromSnapshot(once, url, release, t2);
    var direct := BulkUpdateFromSnapshot(ts, url, release, t2);
    assert forall k :: 0 <= k < |ts| ==> twice[k] == direct[k];
  }

  /**
   * The two versions differ exactly on the records with the URL that were
   * one release behind and marked seen: those the written code fails to reset.
   */
  lemma AsWrittenMissesSeenResets(ts: seq<Tracker>, url: string, release: int, now: Instant)
    requires Int32Min <= release <= Int32Max
    ensures forall k :: 0 <= k < |ts| ==>
      (BulkUpdateAsWritten(ts, url, release, now)[k] != BulkUpdateFromSnapshot(ts, url, release, now)[k]
       <==> ts[k].Url == url && ts[k].LatestRelease == Int32Decrement(release) && ts[k].HasSeenLatestRelease)
  {
    var a := BulkUpdateAsWritten(ts, url, release, now);
    var b := BulkUpdateFromSnapshot(ts, url, release, now);
    forall k | 0 <= k < |ts|
      ensures a[k] != b[k] <==> ts[k].Url == url && ts[k].LatestRelease == Int32Decrement(release) && ts[k].HasSeenLatestRelease
    {
      if ts[k].Url == url && ts[k].LatestRelease == Int32Decrement(release) && ts[k].HasSeenLatestRelease {
        assert a[k].HasSeenLatestRelease != b[k].HasSeenLatestRelease;
      }
    }
  }

  /** A record with the given identity, URL, release and seen flag; every other field fixed. */
  function SampleTracker(id: Guid, url: string, release: int, seen: bool): Tracker
  {
    Tracker(id, "Manga", "Title", url, 0, release, seen, None, false, None, None, "Reading", None, None, 0)
  }

  /**
   * Two records share a URL: A is at release 4, B at 3, both seen. After a
   * propagation of release 4, the snapshot version marks B unseen and keeps
   * A seen; the written version keeps both seen.
   */
  lemma SeenResetExample(url: string, now: Instant)
    ensures var ts := [SampleTracker(1, url, 4, true), SampleTracker(2, url, 3, true)];
            var snapshot := BulkUpdateFromSnapshot(ts, url, 4, now);
            var written := BulkUpdateAsWritten(ts, url, 4, now);
            && snapshot[0].HasSeenLatestRelease && !snapshot[1].HasSeenLatestRelease
            && written[0].HasSeenLatestRelease && written[1].HasSeenLatestRelease
            && snapshot[1].LatestRelease == written[1].LatestRelease == 4
  {
    var ts := [SampleTracker(1, url, 4, true), SampleTracker(2, url, 3, true)];
    assert Int32Decrement(4) == 3;
    var snapshot := BulkUpdateFromSnapshot(ts, url, 4, now);
    assert snapshot[1] == ts[1].(LatestRelease := 4, LatestReleaseUpdatedAt := Some(now), HasSeenLatestRelease := false);
  }

  // ---------------------------------------------------------------------
  // Distinct queries
  // ---------------------------------------------------------------------

  /** The `Url` of every record, in natural order. */
  function Urls(ts: seq<Tracker>): seq<string>
  {
    seq(|ts|, k requires 0 <= k < |ts| => ts[k].Url)
  }

  /** `Distinct("Url", {})`: every URL in the collection, once. */
  function UniqueUrls(ts: seq<Tracker>): (r: seq<string>)
    ensures NoDuplicates(r)
  {
    Distinct(Urls(ts))
  }

  /** UniqueUrls lists the URL of every record, and nothing else. */
  lemma UniqueUrlsCover(ts: seq<Tracker>)
    ensures forall k :: 0 <= k < |ts| ==> ts[k].Url in UniqueUrls(ts)
    ensures forall i :: 0 <= i < |UniqueUrls(ts)| ==> exists k :: 0 <= k < |ts| && ts[k].Url == UniqueUrls(ts)[i]
  {
    var us := Urls(ts);
    DistinctElements(us);
    assert forall k :: 0 <= k < |ts| ==> us[k] == ts[k].Url;
  }

  /**
   * The `ReleasesOn` values of the records with `Url == url`, in natural
   * order. Whether the store's `Distinct` lists a stored null is left open:
   * `nullsListed`.
   */
  function ScheduleValues(ts: seq<Tracker>, url: string, nullsListed: bool): seq<Option<string>>
  {
    if ts == [] then []
    else
      var t := ts[|ts| - 1];
      var r0 := ScheduleValues(ts[..|ts| - 1], url, nullsListed);
      if t.Url == url && (t.ReleasesOn.Some? || nullsListed) then r0 + [t.ReleasesOn] else r0
  }

  /** ScheduleValues holds the schedule of every record with the URL, and nothing else. */
  lemma {:induction false} ScheduleValuesElements(ts: seq<Tracker>, url: string, nullsListed: bool)
    ensures forall i :: 0 <= i < |ScheduleValues(ts, url, nullsListed)| ==>
      && (ScheduleValues(ts, url, nullsListed)[i].Some? || nullsListed)
      && exists k :: 0 <= k < |ts| && ts[k].Url == url && ts[k].ReleasesOn == ScheduleValues(ts, url, nullsListed)[i]
    ensures forall k :: 0 <= k < |ts| && ts[k].Url == url && (ts[k].ReleasesOn.Some? || nullsListed) ==>
      ts[k].ReleasesOn in ScheduleValues(ts, url, nullsListed)
  {
    if ts != [] {
      var init := ts[..|ts| - 1];
      var t := ts[|ts| - 1];
      ScheduleValuesElements(init, url, nullsListed);
      var r0 := ScheduleValues(init, url, nullsListed);
      var r := ScheduleValues(ts, url, nullsListed);
      var keep := t.Url == url && (t.ReleasesOn.Some? || nullsListed);
      assert r == if keep then r0 + [t.ReleasesOn] else r0;
      forall i | 0 <= i < |r|
        ensures (r[i].Some? || nullsListed) && exists k :: 0 <= k < |ts| && ts[k].Url == url && ts[k].ReleasesOn == r[i]
      {
        if i < |r0| {
          assert r[i] == r0[i];
          var k :| 0 <= k < |init| && init[k].Url == url && init[k].ReleasesOn == r0[i];
          assert ts[k] == init[k];
        } else {
          assert keep && r[i] == t.ReleasesOn;
          assert ts[|ts| - 1] == t;
        }
      }
      forall k | 0 <= k < |ts| && ts[k].Url == url && (ts[k].ReleasesOn.Some? || nullsListed)
        ensures ts[k].ReleasesOn in r
      {
        if k < |init| {
          assert ts[k] == init[k];
          assert ts[k].ReleasesOn in r0;
        } else {
          assert r[|r| - 1] == t.ReleasesOn;
        }
      }
    }
  }

  lemma {:induction false} ScheduleValuesOfOtherUrls(ts: seq<Tracker>, url: string, nullsListed: bool)
    requires forall k :: 0 <= k < |ts| ==> ts[k].Url != url
    ensures ScheduleValues(ts, url, nullsListed) == []
  {
    if ts != [] {
      ScheduleValuesOfOtherUrls(ts[..|ts| - 1], url, nullsListed);
    }
  }

  lemma ScheduleValuesSnoc(ts: seq<Tracker>, t: Tracker, url: string, nullsListed: bool)
    ensures ScheduleValues(ts + [t], url, nullsListed)
         == if t.Url == url && (t.ReleasesOn.Some? || nullsListed)
            then ScheduleValues(ts, url, nullsListed) + [t.ReleasesOn]
            else ScheduleValues(ts, url, nullsListed)
  {
    assert (ts + [t])[..|ts + [t]| - 1] == ts;
  }

  /** One more record extends the schedule read so far by its `ReleasesOn` when that is selected and new. */
  lemma ScheduleStep(ts: seq<Tracker>, i: nat, url: string, nullsListed: bool)
    requires i < |ts|
    ensures var before := Distinct(ScheduleValues(ts[..i], url, nullsListed));
      Distinct(ScheduleValues(ts[..i + 1], url, nullsListed))
      == if ts[i].Url == url && (ts[i].ReleasesOn.Some? || nullsListed) && ts[i].ReleasesOn !in before
         then before + [ts[i].ReleasesOn]
         else before
  {
    assert ts[..i + 1] == ts[..i] + [ts[i]];
    ScheduleValuesSnoc(ts[..i], ts[i], url, nullsListed);
    DistinctSnoc(ScheduleValues(ts[..i], url, nullsListed), ts[i].ReleasesOn);
  }

  /** `Distinct("ReleasesOn", Url == url)` (GetReleaseScheduleForUrl, called as GetNextReleaseForUrl). */
  function ReleaseSchedule(ts: seq<Tracker>, url: string, nullsListed: bool): (r: seq<Option<string>>)
    ensures NoDuplicates(r)
  {
    Distinct(ScheduleValues(ts, url, nullsListed))
  }

  /**
   * The schedule of a URL lists each stored `ReleasesOn` of its records
   * once and nothing else, so it is empty when no record has the URL.
   */
  lemma ReleaseScheduleElements(ts: seq<Tracker>, url: string, nullsListed: bool)
    ensures var r := ReleaseSchedule(ts, url, nullsListed);
      forall i :: 0 <= i < |r| ==>
        (r[i].Some? || nullsListed) && exists k :: 0 <= k < |ts| && ts[k].Url == url && ts[k].ReleasesOn == r[i]
    ensures var r := ReleaseSchedule(ts, url, nullsListed);
      forall k :: 0 <= k < |ts| && ts[k].Url == url && (ts[k].ReleasesOn.Some? || nullsListed) ==> ts[k].ReleasesOn in r
    ensures (forall k :: 0 <= k < |ts| ==> ts[k].Url != url) ==> ReleaseSchedule(ts, url, nullsListed) == []
  {
    var vs := ScheduleValues(ts, url, nullsListed);
    var r := ReleaseSchedule(ts, url, nullsListed);
    ScheduleValuesElements(ts, url, nullsListed);
    DistinctElements(vs);
    forall i | 0 <= i < |r|
      ensures (r[i].Some? || nullsListed) && exists k :: 0 <= k < |ts| && ts[k].Url == url && ts[k].ReleasesOn == r[i]
    {
      assert r[i] in vs;
      var j :| 0 <= j < |vs| && vs[j] == r[i];
    }
    forall k | 0 <= k < |ts| && ts[k].Url == url && (ts[k].ReleasesOn.Some? || nullsListed)
      ensures ts[k].ReleasesOn in r
    {
      assert ts[k].ReleasesOn in vs;
      var j :| 0 <= j < |vs| && vs[j] == ts[k].ReleasesOn;
    }
    if forall k :: 0 <= k < |ts| ==> ts[k].Url != url {
      ScheduleValuesOfOtherUrls(ts, url, nullsListed);
    }
  }

  // ---------------------------------------------------------------------
  // The non-search listing filter
  // ---------------------------------------------------------------------

  /** The arguments of GetTrackersForUser / GetTrackersCountForUser when `search` is blank. */
  datatype ListingQuery = ListingQuery(userId: Guid, trackerType: string, status: Option<string>, hasCompleted: bool)

  /**
   * The filter both queries build: the user's records, of the named type
   * when that is exactly "Manga" or "Anime", narrowed by status when one is
   * given, and to completed records when `hasCompleted`.
   */
  predicate ListingMatches(t: Tracker, q: ListingQuery, firstCharToUpper: string -> string)
  {
    && t.UserId == q.userId
    && (q.trackerType == "Manga" || q.trackerType == "Anime" ==> t.Type == firstCharToUpper(q.trackerType))
    && (IsNullOrWhiteSpace(q.status) ||
        if q.status.value == "PlanToReadAndWatch" then t.Status == "PlanToWatch" || t.Status == "PlanToRead"
        else if q.status.value == "ReadingAndWatching" then t.Status == "Reading" || t.Status == "Watching"
        else t.Type == firstCharToUpper(q.trackerType) && t.Status == firstCharToUpper(q.status.value))
    && (q.hasCompleted ==> t.HasCompleted)
  }

  /** The records the filter selects, in natural order (sorting and paging are not modelled). */
  function Listing(ts: seq<Tracker>, q: ListingQuery, firstCharToUpper: string -> string): (r: seq<Tracker>)
    ensures |r| <= |ts|
    ensures forall i :: 0 <= i < |r| ==> ListingMatches(r[i], q, firstCharToUpper)
    ensures forall t :: multiset(r)[t] == if ListingMatches(t, q, firstCharToUpper) then multiset(ts)[t] else 0
  {
    if ts == [] then []
    else
      var t := ts[|ts| - 1];
      var r0 := Listing(ts[..|ts| - 1], q, firstCharToUpper);
      assert ts == ts[..|ts| - 1] + [t];
      if ListingMatches(t, q, firstCharToUpper) then r0 + [t] else r0
  }

  /** The listing holds every record the filter selects, and only records of the collection. */
  lemma {:induction false} ListingElements(ts: seq<Tracker>, q: ListingQuery, firstCharToUpper: string -> string)
    ensures forall i :: 0 <= i < |Listing(ts, q, firstCharToUpper)| ==> Listing(ts, q, firstCharToUpper)[i] in ts
    ensures forall k :: 0 <= k < |ts| && ListingMatches(ts[k], q, firstCharToUpper) ==> ts[k] in Listing(ts, q, firstCharToUpper)
  {
    if ts != [] {
      var init := ts[..|ts| - 1];
      var r := Listing(ts, q, firstCharToUpper);
      var r0 := Listing(init, q, firstCharToUpper);
      ListingElements(init, q, firstCharToUpper);
      forall i | 0 <= i < |r|
        ensures r[i] in ts
      {
        if i < |r0| {
          assert r0[i] in init;
          assert r[i] == r0[i];
        } else {
          assert r[i] == ts[|ts| - 1];
        }
      }
      forall k | 0 <= k < |ts| && ListingMatches(ts[k], q, firstCharToUpper)
        ensures ts[k] in r
      {
        if k < |init| {
          assert ts[k] == init[k] && init[k] in r0;
          assert r == r0 || r == r0 + [ts[|ts| - 1]];
        }
      }
    }
  }

  /** The combined statuses: each selects exactly its two member statuses, whatever the type. */
  lemma CombinedStatusFilters(t: Tracker, q: ListingQuery, firstCharToUpper: string -> string)
    requires t.UserId == q.userId && !q.hasCompleted
    requires q.trackerType != "Manga" && q.trackerType != "Anime"
    ensures q.status == Some("PlanToReadAndWatch") ==>
      (ListingMatches(t, q, firstCharToUpper) <==> t.Status in {"PlanToWatch", "PlanToRead"})
    ensures q.status == Some("ReadingAndWatching") ==>
      (ListingMatches(t, q, firstCharToUpper) <==> t.Status in {"Reading", "Watching"})
  {
    assert !IsBlank("PlanToReadAndWatch") by { assert !IsWhiteSpace("PlanToReadAndWatch"[0]); }
    assert !IsBlank("ReadingAndWatching") by { assert !IsWhiteSpace("ReadingAndWatching"[0]); }
  }

  // ---------------------------------------------------------------------
  // The repository
  // ---------------------------------------------------------------------

  /** TrackerRepository: the `trackers` collection, updated in place. */
  class TrackerRepository {
    var trackers: seq<Tracker>

    predicate Valid()
      reads this
    {
      UniqueIds(trackers)
    }

    constructor ()
      ensures Valid() && trackers == []
    {
      trackers := [];
    }

    /** `InsertOneAsync`; a record whose `Id` is already stored is refused. */
    method CreateTracker(tracker: Tracker) returns (inserted: bool)
      requires Valid()
      modifies this
      ensures Valid()
      ensures inserted <==> forall k :: 0 <= k < |old(trackers)| ==> old(trackers)[k].Id != tracker.Id
      ensures trackers == if inserted then old(trackers) + [tracker] else old(trackers)
    {
      var r := InsertOne(trackers, tracker);
      inserted := r.Some?;
      if inserted {
        trackers := r.value;
      }
    }

    /** `ReplaceOneAsync` on the record with `tracker.Id`. */
    method UpdateTracker(tracker: Tracker)
      requires Valid()
      modifies this
      ensures Valid()
      ensures trackers == ReplaceOne(old(trackers), tracker)
    {
      trackers := ReplaceOne(trackers, tracker);
    }

    /** `DeleteOneAsync` on the record with `trackerId`. */
    method DeleteTracker(trackerId: Guid)
      requires Valid()
      modifies this
      ensures Valid()
      ensures trackers == DeleteOne(old(trackers), trackerId)
    {
      trackers := DeleteOne(trackers, trackerId);
    }

    /** Looks up the record with `trackerId` belonging to `userId`. */
    method GetTrackerForUser(trackerId: Guid, userId: Guid) returns (r: Option<Tracker>)
      requires Valid()
      ensures r == FindForUser(trackers, trackerId, userId)
    {
      var i := 0;
      while i < |trackers|
        invariant 0 <= i <= |trackers|
        invariant forall k :: 0 <= k < i ==> !(trackers[k].Id == trackerId && trackers[k].UserId == userId)
      {
        if trackers[i].Id == trackerId && trackers[i].UserId == userId {
          return Some(trackers[i]);
        }
        i := i + 1;
      }
      return None;
    }

    /** The non-search listing: every record the filter selects. */
    method GetTrackersForUser(q: ListingQuery, firstCharToUpper: string -> string) returns (r: seq<Tracker>)
      ensures r == Listing(trackers, q, firstCharToUpper)
    {
      r := [];
      var i := 0;
      while i < |trackers|
        invariant 0 <= i <= |trackers|
        invariant r == Listing(trackers[..i], q, firstCharToUpper)
      {
        assert trackers[..i + 1][..i] == trackers[..i];
        if ListingMatches(trackers[i], q, firstCharToUpper) {
          r := r + [trackers[i]];
        }
        i := i + 1;
      }
      assert trackers[..i] == trackers;
    }

    /** The non-search count: the number of records the same filter selects. */
    method GetTrackersCountForUser(q: ListingQuery, firstCharToUpper: string -> string) returns (count: nat)
      ensures count == |Listing(trackers, q, firstCharToUpper)|
    {
      count := 0;
      var i := 0;
      while i < |trackers|
        invariant 0 <= i <= |trackers|
        invariant count == |Listing(trackers[..i], q, firstCharToUpper)|
      {
        assert trackers[..i + 1][..i] == trackers[..i];
        if ListingMatches(trackers[i], q, firstCharToUpper) {
          count := count + 1;
        }
        i := i + 1;
      }
      assert trackers[..i] == trackers;
    }

    /** `Distinct("Url")` over the whole collection. */
    method GetAllUniqueTrackersByUrl() returns (urls: seq<string>)
      ensures urls == UniqueUrls(trackers)
    {
      urls := [];
      var i := 0;
      while i < |trackers|
        invariant 0 <= i <= |trackers|
        invariant urls == Distinct(Urls(trackers[..i]))
      {
        assert Urls(trackers[..i + 1]) == Urls(trackers[..i]) + [trackers[i].Url];
        DistinctSnoc(Urls(trackers[..i]), trackers[i].Url);
        if trackers[i].Url !in urls {
          urls := urls + [trackers[i].Url];
        }
        i := i + 1;
      }
      assert trackers[..i] == trackers;
    }

    /** `Distinct("ReleasesOn", Url == url)`, the release schedule of one URL. */
    method GetReleaseScheduleForUrl(url: string, nullsListed: bool) returns (schedule: seq<Option<string>>)
      ensures schedule == ReleaseSchedule(trackers, url, nullsListed)
    {
      schedule := [];
      var i := 0;
      while i < |trackers|
        invariant 0 <= i <= |trackers|
        invariant schedule == Distinct(ScheduleValues(trackers[..i], url, nullsListed))
      {
        var t := trackers[i];
        ScheduleStep(trackers, i, url, nullsListed);
        if t.Url == url && (t.ReleasesOn.Some? || nullsListed) {
          if t.ReleasesOn !in schedule {
            schedule := schedule + [t.ReleasesOn];
          }
        }
        i := i + 1;
      }
      assert trackers[..i] == trackers;
    }

    /** BulkUpdateTracker as written: two bulk writes, the second selecting nothing. */
    method BulkUpdateTracker(url: string, latestRelease: int, now: Instant)
      requires Valid() && Int32Min <= latestRelease <= Int32Max
      modifies this
      ensures Valid()
      ensures trackers == BulkUpdateAsWritten(old(trackers), url, latestRelease, now)
    {
      trackers := SetLatestRelease(trackers, url, latestRelease, now);
      trackers := ResetSeen(trackers, url, Int32Decrement(latestRelease));
    }

    /**
     * BulkUpdateTracker after the commented-out code, with its read moved
     * ahead of the first write: read the records with the URL, write the
     * release, then mark unseen, one record at a time, each record that was
     * one release behind.
     */
    method BulkUpdateTrackerFromSnapshot(url: string, latestRelease: int, now: Instant)
      requires Valid() && Int32Min <= latestRelease <= Int32Max
      modifies this
      ensures Valid()
      ensures trackers == BulkUpdateFromSnapshot(old(trackers), url, latestRelease, now)
    {
      var snapshot := trackers;
      var previous := Int32Decrement(latestRelease);
      trackers := SetLatestRelease(trackers, url, latestRelease, now);
      var i := 0;
      while i < |snapshot|
        invariant 0 <= i <= |snapshot|
        invariant |trackers| == |snapshot|
        invariant forall k :: 0 <= k < |snapshot| ==>
          trackers[k] == if snapshot[k].Url == url
                         then snapshot[k].(LatestRelease := latestRelease, LatestReleaseUpdatedAt := Some(now),
                                           HasSeenLatestRelease := snapshot[k].HasSeenLatestRelease
                                                                   && !(k < i && snapshot[k].LatestRelease == previous))
                         else snapshot[k]
      {
        var t := snapshot[i];
        if t.Url == url && t.LatestRelease == previous {
          assert forall k :: 0 <= k < |snapshot| ==> trackers[k].Id == snapshot[k].Id;
          trackers := SetSeen(trackers, t.Id, false);
        }
        i := i + 1;
      }
      assert forall k :: 0 <= k < |snapshot| ==> trackers[k].Id == snapshot[k].Id;
    }

    /** ToggleReleaseSeen. */
    method ToggleReleaseSeen(trackerId: Guid, seen: bool)
      requires Valid()
      modifies this
      ensures Valid()
      ensures trackers == SetSeen(old(trackers), trackerId, seen)
    {
      trackers := SetSeen(trackers, trackerId, seen);
    }

    /** ToggleComplete; `now` is the time of the write. */
    method ToggleComplete(trackerId: Guid, completed: bool, now: Instant)
      requires Valid()
      modifies this
      ensures Valid()
      ensures trackers == SetCompleted(old(trackers), trackerId, completed, now)
    {
      trackers := SetCompleted(trackers, trackerId, completed, now);
    }
  }
}
