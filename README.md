# torakka-api tracker core, in Dafny

This project models the core of the torakka-api service. Users subscribe to
manga and anime titles ("trackers"). The service stores each subscription
in a MongoDB `trackers` collection. A scrape job reads the latest release
number of every tracked URL from one of five supported sites and copies
it into the stored records. A REST controller lets a user list, create,
update, delete and toggle their trackers. A JWT manager keeps the table
of refresh tokens that the authentication endpoints use.

The model has seven modules:

- `Wrappers` (wrappers.dfy): `Option` for C# `null`, `Result` for a thrown
  exception, and the first-occurrence `Distinct` that the store's distinct
  queries yield.
- `DotNet` (dotnet.dfy): the few .NET library behaviours the core relies on:
  - the `int` range and unchecked `int` decrement;
  - `string.IsNullOrWhiteSpace`;
  - `DayOfWeek` and parsing its names;
  - the exceptions that can arise;
  - the parts of a `Uri` that are read.
- `TrackerEntity` (tracker.dfy): the stored tracker record.
- `TrackerStore` (tracker_repository.dfy): the repository.
  - The class `TrackerRepository` holds the collection as a `seq<Tracker>` in
    natural order.
  - Each repository method is proved against a pure function: `InsertOne`,
    `ReplaceOne`, `DeleteOne`, `SetSeen`, `SetCompleted`, `FindForUser`,
    `Listing`, `UniqueUrls`, `ReleaseSchedule` and `BulkUpdateAsWritten`.
- `Scraper` (tracker_scrapper_job.dfy): one scrape cycle of the class
  `AlertScrapperJob`.
  - It covers URL validation, the weekday release gate, the host switch and
    the digit extraction.
  - The whole `DoWork` loop is proved against the cycle function `RunUrls`,
    which stops at the first exception the loop does not catch.
- `Controller` (trackers_controller.dfy): the `/trackers` endpoints as
  methods of `TrackersController`. Each endpoint's guard sequence is a
  function, and its single store call goes through the repository.
- `JwtManager` (jwt_manager_service.dfy): `JwtManagerService` with its
  refresh-token dictionary as a `map`. It covers the expiry sweep, the
  per-user purge, insertion by `GenerateTokens`, and the checks of
  `Refresh`.

Properties proved include:

- BulkUpdateTracker as written never clears a seen flag.
  - Its second write filters on `LatestRelease == latestRelease - 1`.
  - The first write has just set every record with that URL to
    `latestRelease`, so the filter selects nothing.
  - `AsWrittenMissesSeenResets` characterises exactly the records on which
    it differs from the snapshot-based variant, which is the commented-out
    code with its read moved ahead of the first write. `SeenResetExample` exhibits one such record.
  - `DoWork` calls the code as written, so the cycle lemmas are about that
    version.
- A scrape cycle changes only the release fields, and only of URLs it
  entered and for which a release was extracted.
  - Every record of such a URL ends with that release.
  - The cycle runs to its end exactly when no URL throws an exception other
    than `InvalidCastException`. Otherwise it stops at the first URL that
    does, and keeps the writes made before it.
- The controller's host whitelist is exactly the set of hosts the scraper
  dispatches.
- A `ReleasesOn` value is refused only when it names no weekday and today is
  Sunday. A failed `Enum.TryParse` leaves `default(DayOfWeek)`, which is
  Sunday.
- A tracker returned as created is found again under its new id.
- Toggling seen twice restores the collection.
- The token sweep and the purge commute, and sweeping twice is the same as
  sweeping once at the later time.
- Refresh succeeds exactly for a live token of the same principal, and
  never for a swept token.

Two behaviours of the code are modelled as written:

- Per-URL failures. The `catch (InvalidCastException)` of `DoWork`
  (TrackerScrapperJob.cs:157) catches nothing else. A `FormatException` or
  `OverflowException` from `int.Parse`, the `ArgumentNullException` or
  `ArgumentException` of `Enum.Parse` in the gate, a null node, or a
  network error therefore ends the whole cycle, and `RunUrls` stops there.
- The seen-flag reset. The second bulk write of `BulkUpdateTracker`
  (TrackerRepository.cs:152-158) filters on the records after the first
  write has set their release, so it selects nothing. The commented-out
  code at TrackerRepository.cs:151 and 160-162 would not fix that where it
  stands: its `Find` also runs after the first write, so its `Where` would
  select nothing too. `BulkUpdateFromSnapshot` models that code with the
  read moved ahead of the first write, so that each record one release
  behind is reset. `BulkUpdateAsWritten` is what the cycle uses, and the
  difference between the two is proved.

## Model

| member | source | states |
|---|---|---|
| `DotNet.Int32Decrement` | Repositories/TrackerRepository.cs:154 | `latestRelease - 1` on an `int` stays in range, is the ordinary predecessor above `int.MinValue`, and wraps to `int.MaxValue` at `int.MinValue` |
| `DotNet.ParseDayOfWeekNames` | Controllers/TrackersController.cs:228 | a string parses as a day exactly when it is that day's name, and then to that day |
| `Wrappers.Distinct` | Repositories/TrackerRepository.cs:134 | a distinct query's result has no repeated value and is no longer than its input |
| `Wrappers.DistinctSnoc` | Repositories/TrackerRepository.cs:132-141 | one more value extends the distinct list exactly when it is new |
| `Wrappers.DistinctElements` | Repositories/TrackerRepository.cs:132-141 | the distinct list holds every input value and no other |
| `TrackerStore.IndexOfId` | Repositories/TrackerRepository.cs:120 | the filter `Id == id` selects the first record with that id, or reports that none has it |
| `TrackerStore.InsertOne` | Repositories/TrackerRepository.cs:113-116 | an insertion succeeds exactly when the id is not yet stored; it then appends the record and keeps ids unique |
| `TrackerStore.UpdateOne` | Repositories/TrackerRepository.cs:165-171 | a single-document update changes only the record with the id, as the update says, and keeps ids unique |
| `TrackerStore.ReplaceOne` | Repositories/TrackerRepository.cs:118-123 | a replacement puts the new record at the position of the record with its id and changes nothing else |
| `TrackerStore.DeleteOne` | Repositories/TrackerRepository.cs:125-130 | a deletion removes exactly the record with the id, if any, shrinking the collection by one |
| `TrackerStore.RemoveAtKeepsOthers` | Repositories/TrackerRepository.cs:129 | removing one position keeps every record with another id and unique ids |
| `TrackerStore.SetSeen` | Repositories/TrackerRepository.cs:165-171 | ToggleReleaseSeen sets only `HasSeenLatestRelease`, and only on the record with the id |
| `TrackerStore.SetCompleted` | Repositories/TrackerRepository.cs:231-238 | ToggleComplete sets only `HasCompleted` and `CompletedAt` (to the write's time), and only on the record with the id |
| `TrackerStore.FindForUser` | Repositories/TrackerRepository.cs:27-34 | the lookup yields a stored record with both the id and the user id, or none exists |
| `TrackerStore.BulkUpdateAsWritten` | Repositories/TrackerRepository.cs:143-163 | every record with the URL gets the release and the time; no seen flag changes, since the second filter runs after the first write |
| `TrackerStore.BulkUpdateFromSnapshot` | Repositories/TrackerRepository.cs:151-162 | with the commented-out read moved ahead of the write, a record with the URL is also marked unseen when it was one release behind |
| `TrackerStore.BulkUpdateAsWrittenIdempotent` | Repositories/TrackerRepository.cs:143-163 | propagating the same release twice is propagating it once at the later time |
| `TrackerStore.BulkUpdateFromSnapshotIdempotent` | Repositories/TrackerRepository.cs:151-162 | the same for the snapshot variant |
| `TrackerStore.AsWrittenMissesSeenResets` | Repositories/TrackerRepository.cs:151-162 | the two versions differ on a record exactly when it has the URL, was one release behind and was marked seen |
| `TrackerStore.SeenResetExample` | Repositories/TrackerRepository.cs:152-158 | a concrete record one release behind stays seen as written, but is marked unseen by the snapshot variant |
| `TrackerStore.UniqueUrls` | Repositories/TrackerRepository.cs:132-135 | the distinct URL list has no repeats |
| `TrackerStore.UniqueUrlsCover` | Repositories/TrackerRepository.cs:132-135 | the distinct URL list holds every record's URL and only those |
| `TrackerStore.ScheduleValuesElements` | Repositories/TrackerRepository.cs:137-141 | the schedule values read for a URL are the `ReleasesOn` of its records (nulls only when the store lists them), and all of them |
| `TrackerStore.ScheduleValuesOfOtherUrls` | Repositories/TrackerRepository.cs:139 | a URL no record has yields no schedule value |
| `TrackerStore.ScheduleValuesSnoc` | Repositories/TrackerRepository.cs:137-141 | one more record adds its `ReleasesOn` exactly when it has the URL and is listed |
| `TrackerStore.ScheduleStep` | Repositories/TrackerRepository.cs:137-141 | one more record extends the distinct schedule exactly when it is selected and its value is new |
| `TrackerStore.ReleaseSchedule` | Repositories/TrackerRepository.cs:137-141 | the release schedule of a URL has no repeats |
| `TrackerStore.ReleaseScheduleElements` | Repositories/TrackerRepository.cs:137-141 | the schedule lists each stored `ReleasesOn` of the URL's records and nothing else, so it is empty for an unknown URL |
| `TrackerStore.Listing` | Repositories/TrackerRepository.cs:72-110 | every listed record satisfies the listing filter, and each record occurs in the listing exactly as often as in the collection when it matches and not at all otherwise, so the count is the number of matching documents |
| `TrackerStore.ListingElements` | Repositories/TrackerRepository.cs:72-110 | the listing holds every record the filter selects and only stored records |
| `TrackerStore.CombinedStatusFilters` | Repositories/TrackerRepository.cs:83-95 | `PlanToReadAndWatch` selects exactly PlanToWatch and PlanToRead, and `ReadingAndWatching` exactly Reading and Watching |
| `TrackerStore.TrackerRepository.constructor` | Repositories/TrackerRepository.cs:20-25 | a new repository has an empty collection with unique ids |
| `TrackerStore.TrackerRepository.CreateTracker` | Repositories/TrackerRepository.cs:113-116 | the record is appended exactly when its id is new; otherwise nothing changes and the insertion is refused |
| `TrackerStore.TrackerRepository.UpdateTracker` | Repositories/TrackerRepository.cs:118-123 | the collection becomes `ReplaceOne` of the old one |
| `TrackerStore.TrackerRepository.DeleteTracker` | Repositories/TrackerRepository.cs:125-130 | the collection becomes `DeleteOne` of the old one |
| `TrackerStore.TrackerRepository.GetTrackerForUser` | Repositories/TrackerRepository.cs:27-34 | the scan returns `FindForUser` of the collection |
| `TrackerStore.TrackerRepository.GetTrackersForUser` | Repositories/TrackerRepository.cs:72-110 | the scan returns `Listing` of the collection |
| `TrackerStore.TrackerRepository.GetTrackersCountForUser` | Repositories/TrackerRepository.cs:201-228 | the count is the length of the same `Listing` |
| `TrackerStore.TrackerRepository.GetAllUniqueTrackersByUrl` | Repositories/TrackerRepository.cs:132-135 | the scan returns `UniqueUrls` of the collection |
| `TrackerStore.TrackerRepository.GetReleaseScheduleForUrl` | Repositories/TrackerRepository.cs:137-141 | the scan returns `ReleaseSchedule` of the collection |
| `TrackerStore.TrackerRepository.BulkUpdateTracker` | Repositories/TrackerRepository.cs:143-163 | the two bulk writes leave the collection as `BulkUpdateAsWritten` of the old one |
| `TrackerStore.TrackerRepository.BulkUpdateTrackerFromSnapshot` | Repositories/TrackerRepository.cs:151-162 | the write followed by the per-record seen resets leaves the collection as `BulkUpdateFromSnapshot` of the old one |
| `TrackerStore.TrackerRepository.ToggleReleaseSeen` | Repositories/TrackerRepository.cs:165-171 | the collection becomes `SetSeen` of the old one |
| `TrackerStore.TrackerRepository.ToggleComplete` | Repositories/TrackerRepository.cs:231-238 | the collection becomes `SetCompleted` of the old one at the write's time |
| `Scraper.SiteOfHostCases` | Scheduler/TrackerScrapperJob.cs:113-154 | a host selects a site exactly when it is that site's bare or `www.` host |
| `Scraper.DigitsOf` | Scheduler/TrackerScrapperJob.cs:36 | the regex join yields only digits, never lengthens the text, and is empty exactly when the text has no digit |
| `Scraper.DigitsOfChar` | Scheduler/TrackerScrapperJob.cs:36 | a character is kept exactly when it is a digit, which with `DigitsOfAppend` fixes the result as the in-order digits |
| `Scraper.DigitsOfAppend` | Scheduler/TrackerScrapperJob.cs:36 | the digits of a concatenation are the concatenated digits |
| `Scraper.DigitsOfAllDigits` | Scheduler/TrackerScrapperJob.cs:36 | a string of digits is its own digit extraction |
| `Scraper.DigitChar` | Scheduler/TrackerScrapperJob.cs:36 | each digit value has a digit character of that value |
| `Scraper.DecimalText` | Scheduler/TrackerScrapperJob.cs:36 | a number's decimal text is a non-empty string of digits |
| `Scraper.DecimalRoundTrip` | Scheduler/TrackerScrapperJob.cs:36 | the value of a number's decimal text is that number |
| `Scraper.ParseInt32` | Scheduler/TrackerScrapperJob.cs:36 | `int.Parse` of digits succeeds only with a value in `0..int.MaxValue` |
| `Scraper.ReleaseFromText` | Scheduler/TrackerScrapperJob.cs:24-82 | an extracted release lies in the `int` range, shifted down by 100 for pahe |
| `Scraper.ReleaseFromTextCases` | Scheduler/TrackerScrapperJob.cs:24-82 | extraction succeeds exactly when the text has digits whose value fits an `int`; otherwise it throws FormatException (no digits) or OverflowException, never InvalidCastException |
| `Scraper.ReleaseFromPrintedNumber` | Scheduler/TrackerScrapperJob.cs:54-62 | a number printed between digit-free text is read back exactly, less 100 on pahe |
| `Scraper.ReleaseGateCases` | Scheduler/TrackerScrapperJob.cs:105-108 | the gate opens for an empty schedule or when the first value names today, and throws exactly on a null or non-weekday first value |
| `Scraper.ReleaseGateReadsFirstOnly` | Scheduler/TrackerScrapperJob.cs:107 | only the first schedule value matters |
| `Scraper.DecideReleasesOnlyThroughGate` | Scheduler/TrackerScrapperJob.cs:100-160 | a non-http(s) URL is skipped, an unsupported host never yields a release, and a release needs an open gate and is the extractor's value |
| `Scraper.ScheduleValuesAgree` | Repositories/TrackerRepository.cs:137-141 | records with the same URLs and schedules yield the same schedule values |
| `Scraper.DecisionReadsSchedulesOnly` | Scheduler/TrackerScrapperJob.cs:100-160 | the loop body reads the records only through their URLs and schedules |
| `Scraper.DecideAgrees` | Scheduler/TrackerScrapperJob.cs:103-108 | equal schedule values give the same per-URL decision |
| `Scraper.RunUrls` | Scheduler/TrackerScrapperJob.cs:100-160 | a cycle keeps the number of records, enters at most every URL, and enters all of them when it completes |
| `Scraper.StateAfterResumes` | Scheduler/TrackerScrapperJob.cs:100-160 | the cycle is its first `i` turns followed by the cycle over the remaining URLs |
| `Scraper.StateAfterStop` | Scheduler/TrackerScrapperJob.cs:157 | an uncaught exception at URL `i` ends the cycle there, having entered `i + 1` URLs |
| `Scraper.StateAfterEnd` | Scheduler/TrackerScrapperJob.cs:100 | after the last URL the cycle has completed |
| `Scraper.ApplyEffect` | Scheduler/TrackerScrapperJob.cs:113-154 | one turn keeps URLs and schedules, changes only release fields, and changes only the records with the URL, writing the release when one was extracted |
| `Scraper.ApplyKeepsOtherUrls` | Scheduler/TrackerScrapperJob.cs:116 | one turn leaves the records of other URLs as they were |
| `Scraper.CycleWritesReleaseFieldsOnly` | Scheduler/TrackerScrapperJob.cs:96-161 | a cycle keeps every record's URL and schedule and changes at most its release and release time |
| `Scraper.CycleSkipsUnvisitedAt` | Scheduler/TrackerScrapperJob.cs:100 | one record whose URL the cycle did not enter is left as it was |
| `Scraper.CycleSkipsUnvisited` | Scheduler/TrackerScrapperJob.cs:100 | every record whose URL the cycle did not enter is left as it was |
| `Scraper.CycleSkipsUnreleased` | Scheduler/TrackerScrapperJob.cs:102-154 | every record whose URL yields no release is left as it was |
| `Scraper.CycleStoresReleases` | Scheduler/TrackerScrapperJob.cs:113-154 | with distinct URLs, each record of an entered URL with an extracted release ends with that release and the cycle's time |
| `Scraper.DecideAfterApply` | Scheduler/TrackerScrapperJob.cs:103-108 | one turn does not change any later decision |
| `Scraper.CycleCompletesUnlessUncaught` | Scheduler/TrackerScrapperJob.cs:100-160 | the cycle completes exactly when no URL throws an exception other than InvalidCastException |
| `Scraper.CycleStopsAtUncaught` | Scheduler/TrackerScrapperJob.cs:157 | a cycle that stops, stops at a URL throwing an uncaught exception |
| `Scraper.CycleStopsAtFirstUncaught` | Scheduler/TrackerScrapperJob.cs:100-160 | no URL before the one it stops at throws an uncaught exception |
| `Scraper.CycleStopKeepsEarlierWrites` | Scheduler/TrackerScrapperJob.cs:100-160 | a stopped cycle keeps exactly the writes of the URLs before the one that threw |
| `Scraper.AlertScrapperJob.constructor` | Scheduler/TrackerScrapperJob.cs:84-87 | the job writes through the repository it is given |
| `Scraper.AlertScrapperJob.DoWork` | Scheduler/TrackerScrapperJob.cs:96-161 | the loop leaves the collection and the number of entered URLs as `RunUrls` over the distinct URLs says; a failed discovery query changes nothing |
| `Scraper.AlertScrapperJob.ScrapeUrl` | Scheduler/TrackerScrapperJob.cs:101-159 | one loop body reports an uncaught exception exactly when the decision is one, and leaves the collection as one turn says |
| `Controller.AllAdmitsEveryKindsStatuses` | Controllers/TrackersController.cs:35-55 | when the combined status list names every anime and manga status, the `All` type admits each status the `Anime` or `Manga` type admits |
| `Controller.StatusListsDiffer` | Controllers/TrackersController.cs:35-55 | reading statuses are refused for anime, watching statuses for manga, and the shared ones pass for both |
| `Controller.SupportedWebsitesAreScraped` | Controllers/TrackersController.cs:22-33 | a host is whitelisted exactly when the scraper's switch has a case for it |
| `Controller.ReleasesOnRejectedOnlyOnSundays` | Controllers/TrackersController.cs:227-233 | a `ReleasesOn` is refused exactly when it is given, names no weekday, and today is Sunday |
| `Controller.SearchBypassesOwnership` | Controllers/TrackersController.cs:97-123 | a non-blank search is answered before the ownership check, whoever asks |
| `Controller.ListingForbidsOthers` | Controllers/TrackersController.cs:125-129 | without a search, a caller who is not the route's user gets 403 |
| `Controller.ListingQueryRewritesCompleted` | Controllers/TrackersController.cs:125-181 | a filtered query belongs to the caller, has a known type and a valid status and sort, and status `Completed` becomes "no status, completed only" |
| `Controller.CreateChecksInOrder` | Controllers/TrackersController.cs:195-233 | creation goes on exactly when every check passes; when all earlier checks pass and one fails, its answer is given: user (404), owner (403), type, status, an unparsable URL (`UriFormatException`), an unsupported host, `ReleasesOn` |
| `Controller.CreatedTrackerIsFound` | Controllers/TrackersController.cs:235-249 | an inserted record belongs to the caller, is found under its new id, carries the capitalised type and status, and stores a null `ReleasesOn` exactly for a blank one |
| `Controller.AcceptedUrlIsDispatched` | Controllers/TrackersController.cs:221-225 | a URL the controller accepts has a host that the scraper dispatches |
| `Controller.UpdateChecksInOrder` | Controllers/TrackersController.cs:264-289 | an update refuses non-owners first, never checks the type, and reports `ReleasesOn` before the URL, where creation reports the URL |
| `Controller.UpdateReplacesOnlyTarget` | Controllers/TrackersController.cs:291-306 | an update keeps identity and owner, stores the type verbatim, is found again, and replaces only that record |
| `Controller.SeenToggleTwiceRestores` | Controllers/TrackersController.cs:344-348 | two seen toggles restore the collection exactly |
| `Controller.CompleteToggleTwiceRestoresFlag` | Controllers/TrackersController.cs:365-369 | two completion toggles restore every flag; the target keeps only the second time |
| `Controller.TrackersController.constructor` | Controllers/TrackersController.cs:57-61 | the controller works on the repository it is given |
| `Controller.TrackersController.GetTrackerForUser` | Controllers/TrackersController.cs:63-80 | 403 for another caller; otherwise the owner's record, or 404 |
| `Controller.TrackersController.GetTrackersForUser` | Controllers/TrackersController.cs:82-189 | the answer follows the listing plan: a search, a refusal, or the filtered listing with a count over the same filter |
| `Controller.TrackersController.CreateTracker` | Controllers/TrackersController.cs:191-258 | a refusal changes nothing; otherwise the new record is appended and returned, or a duplicate id raises the store's write error |
| `Controller.TrackersController.UpdateTracker` | Controllers/TrackersController.cs:260-311 | a refusal or a missing record changes nothing; otherwise the updated record replaces the stored one and is returned |
| `Controller.TrackersController.DeleteTracker` | Controllers/TrackersController.cs:313-332 | 403 or 404 changes nothing; otherwise the record is deleted |
| `Controller.TrackersController.ToggleLatestReleaseSeen` | Controllers/TrackersController.cs:334-353 | 403 or 404 changes nothing; otherwise the stored seen flag is negated |
| `Controller.TrackersController.ToggleComplete` | Controllers/TrackersController.cs:355-374 | 403 or 404 changes nothing; otherwise the stored completion flag is negated and stamped with the time |
| `JwtManager.UnexpiredKeepsLiveEntries` | Services/JwtManagerService.cs:43-49 | the sweep removes exactly the entries that expired strictly before `now` and keeps the others unchanged |
| `JwtManager.RemovingExpiredKeysSweeps` | Services/JwtManagerService.cs:45-48 | removing the selected keys one by one is the sweep |
| `JwtManager.SweepsCompose` | Services/JwtManagerService.cs:43-49 | two sweeps are one sweep at the later time, so a sweep is idempotent |
| `JwtManager.WithoutUserKeepsOthers` | Services/JwtManagerService.cs:51-57 | the purge removes exactly the user's entries and keeps the others unchanged |
| `JwtManager.PurgeAndSweepCommute` | Services/JwtManagerService.cs:43-57 | the purge and the sweep commute |
| `JwtManager.RefreshAcceptsOnlyLiveOwnTokens` | Services/JwtManagerService.cs:85-108 | Refresh accepts exactly a valid HMAC-SHA256 access token and a stored refresh token of the same principal that has not expired; a blank access token is refused |
| `JwtManager.SweptTokenIsRefused` | Services/JwtManagerService.cs:43-49 | a refresh token removed by the sweep is refused afterwards |
| `JwtManager.JwtManagerService.constructor` | Services/JwtManagerService.cs:36-41 | a new service has an empty token table |
| `JwtManager.JwtManagerService.RemoveExpiredRefreshTokens` | Services/JwtManagerService.cs:43-49 | the selection and removal loop leaves the table swept at `now` |
| `JwtManager.JwtManagerService.RemoveRefreshTokenByUserId` | Services/JwtManagerService.cs:51-57 | the selection and removal loop leaves the table without the user's entries |
| `JwtManager.JwtManagerService.GenerateTokens` | Services/JwtManagerService.cs:72-77 | the new refresh token expires the configured number of minutes after `now` and is added or replaces the entry under its string |
| `JwtManager.JwtManagerService.Refresh` | Services/JwtManagerService.cs:85-102 | a failed check throws and changes nothing; otherwise tokens are issued for the principal and the presented token stays stored |

## Left out

- Page loading and HTML node selection in the five extractors are an oracle
  (`PageSelector`): the network and the HTML library are outside the model.
  So are the node paths that each site's extractor selects.
- `Uri.TryCreate` and `new Uri(url)` are a given parser (`UriParser`). Host
  normalisation and URI syntax are not modelled.
- The timer of `StartAsync`/`StopAsync`/`Dispose` is left out. The timer
  is commented out in the source, so `DoWork` is modelled as one cycle.
- `DateTime.Now`, `DateTime.Today.DayOfWeek` and `DateTimeOffset.Now` are
  parameters.
- `Scraper.CycleStoresReleases` and `Scraper.ScrapeEnv` model one scrape
  cycle as happening at a single instant: one `today` gates every URL and
  one `now` stamps every write. The source reads `DateTime.Now.DayOfWeek`
  for each URL (TrackerScrapperJob.cs:107) and `DateTimeOffset.Now` at each
  `BulkUpdateTracker` (TrackerRepository.cs:147). A cycle that crosses
  midnight can gate later URLs on the next day, and records of different
  URLs get different timestamps. The model does not capture either.
- The text and regex search branch of the listing endpoints is modelled
  only as the point where the answer is decided (`SearchResults`). Its
  results and counts are left out: MongoDB text-index semantics are
  outside the model.
- Sorting and paging (`sort`, `limit`, `offset`) of the listing are left
  out. The model lists records in natural order.
- Whether the store's `Distinct` lists a stored null `ReleasesOn` is a
  parameter (`nullsListed`).
- The order in which the store's distinct queries list values is taken as
  first-occurrence order. MongoDB does not promise an order.
- `Enum.TryParse` and `Enum.Parse` are modelled as exact, case-sensitive
  name matching. Numeric strings, surrounding whitespace and comma-separated
  flag lists, which .NET also accepts, are left out.
- `FirstCharToUpper` (Extensions.cs) is a parameter, and so are the member
  names of `TrackerTypes` and `StatusTypes`. The names of `AnimeStatusTypes`,
  `MangaStatusTypes` and `SortTypes` are fixed as in Definitions.cs.
- The user repository is not part of this model. `CreateTracker` takes its
  answer as `userExists`.
- `User.Identity.Name` may be null; it is modelled as an `Option`, and
  `Guid.ToString` is a parameter.
- `CreateTrackerDto` (Dtos/CreateTrackerDto.cs) has no `ImageUrl` member,
  although the controller reads one. The model gives the request an
  optional `ImageUrl` for both endpoints.
- The JSON bodies, messages and `CreatedAtAction` location of the responses
  are left out. Only the status and the returned record are kept.
- JWT encoding, signing and validation, the access token and the claims
  passed to `GenerateTokens` are left out. `ValidateToken` is a given
  function (`TokenValidator`) yielding the principal's name and the header
  algorithm, and it may throw.
- `GenerateRefreshTokenString` draws from a random generator. The new token
  string is a parameter.
- `JwtManager.JwtManagerService.GenerateTokens` does not model
  `DateTime.AddMinutes` throwing when the result leaves the `DateTime`
  range. Times are unbounded integers.
- `UsersRefreshTokensReadOnlyDictionary` is only a read-only copy of the
  table and is left out.
- Concurrency is left out. The `ConcurrentDictionary` and the
  asynchronous store calls are modelled as sequential updates. The
  enumeration order of the selected keys is an arbitrary choice, and the
  result does not depend on it.
- Scheduler/AlertScrapperJob.cs is an older copy of the scrape job and is
  not part of this model. Services/PasswordHashService.cs and the alert
  endpoints are not part of this model either.
- `Scraper.AlertScrapperJob.DoWork` treats a failure of the URL discovery
  query as one flag (`discoveryFails`). Store failures inside the loop are
  not modelled.
