/**
 * The `/trackers` endpoints (Controllers/TrackersController.cs): the status
 * and host checks, the guard sequence of each endpoint, the record each
 * endpoint builds, and the single store call it ends with. Request
 * binding, the JSON bodies of the responses and the user collection are
 * not modelled beyond what the guards read.
 */
module Controller {
  import opened Wrappers
  import opened DotNet
  import opened TrackerEntity
  import opened TrackerStore
  import opened Scraper

  // ---------------------------------------------------------------------
  // Names and hosts
  // ---------------------------------------------------------------------

  /** `_supportedWebsites`: the only hosts a tracker URL may have. */
  const SupportedWebsites: seq<string> := [
    "www.mangakakalot.com", "mangakakalot.com",
    "www.pahe.win", "pahe.win",
    "www.mangahub.io", "mangahub.io",
    "www.toomics.com", "toomics.com",
    "www.readmanganato.com", "readmanganato.com"
  ]

  /** The member names of `Definitions.AnimeStatusTypes`. */
  const AnimeStatusTypes: set<string> := {"Watching", "PlanToWatch", "OnHold", "Completed", "Dropped"}

  /** The member names of `Definitions.MangaStatusTypes`. */
  const MangaStatusTypes: set<string> := {"Reading", "PlanToRead", "OnHold", "Completed", "Dropped"}

  /** The member names of `Definitions.SortTypes`. */
  const SortTypes: set<string> := {"HasReadLatestChapter", "Title", "LatestChapterUpdatedAt"}

  /**
   * What the controller uses but does not define: the `FirstCharToUpper`
   * string extension and the member names of the `TrackerTypes` and
   * `StatusTypes` enums.
   */
  datatype Naming = Naming(firstCharToUpper: string -> string, trackerTypes: set<string>, statusTypes: set<string>)

  /**
   * IsValidStatus: the status must name a member of the status enum of the
   * type, when the type is `Anime`, `Manga` or `All`; any other type admits
   * any status.
   */
  predicate IsValidStatus(naming: Naming, trackerType: string, status: string)
  {
    var kind := naming.firstCharToUpper(trackerType);
    var name := naming.firstCharToUpper(status);
    if kind == "Anime" then name in AnimeStatusTypes
    else if kind == "Manga" then name in MangaStatusTypes
    else if kind == "All" then name in naming.statusTypes
    else true
  }

  /**
   * When the combined status list names every anime and every manga
   * status, the `All` type admits each status that the `Anime` or the
   * `Manga` type admits.
   */
  lemma AllAdmitsEveryKindsStatuses(naming: Naming, animeType: string, mangaType: string, allType: string, status: string)
    requires AnimeStatusTypes + MangaStatusTypes <= naming.statusTypes
    requires naming.firstCharToUpper(animeType) == "Anime"
    requires naming.firstCharToUpper(mangaType) == "Manga"
    requires naming.firstCharToUpper(allType) == "All"
    ensures IsValidStatus(naming, animeType, status) || IsValidStatus(naming, mangaType, status) ==>
      IsValidStatus(naming, allType, status)
  {
  }

  /** A reading status is refused for an anime, a watching status for a manga; the shared ones pass for both. */
  lemma StatusListsDiffer(naming: Naming, status: string)
    requires naming.firstCharToUpper("anime") == "Anime" && naming.firstCharToUpper("manga") == "Manga"
    ensures naming.firstCharToUpper(status) in {"Reading", "PlanToRead"} ==>
      IsValidStatus(naming, "manga", status) && !IsValidStatus(naming, "anime", status)
    ensures naming.firstCharToUpper(status) in {"Watching", "PlanToWatch"} ==>
      IsValidStatus(naming, "anime", status) && !IsValidStatus(naming, "manga", status)
    ensures naming.firstCharToUpper(status) in {"OnHold", "Completed", "Dropped"} ==>
      IsValidStatus(naming, "anime", status) && IsValidStatus(naming, "manga", status)
  {
  }

  /**
   * The whitelist and the scraper's dispatch agree: a host is accepted
   * exactly when DoWork has an extractor for it.
   */
  lemma SupportedWebsitesAreScraped(host: string)
    ensures host in SupportedWebsites <==> SiteOfHost(host).Some?
  {
    SiteOfHostCases(host);
    if SiteOfHost(host).Some? {
      var s := SiteOfHost(host).value;
      match s
      case Mangakakalot => assert SupportedWebsites[0] == WwwHost(s) && SupportedWebsites[1] == BareHost(s);
      case Pahe => assert SupportedWebsites[2] == WwwHost(s) && SupportedWebsites[3] == BareHost(s);
      case MangaHub => assert SupportedWebsites[4] == WwwHost(s) && SupportedWebsites[5] == BareHost(s);
      case Toomics => assert SupportedWebsites[6] == WwwHost(s) && SupportedWebsites[7] == BareHost(s);
      case Manganato => assert SupportedWebsites[8] == WwwHost(s) && SupportedWebsites[9] == BareHost(s);
    }
    if host in SupportedWebsites {
      var i :| 0 <= i < |SupportedWebsites| && SupportedWebsites[i] == host;
      assert SiteOfHost(SupportedWebsites[i]).Some?;
    }
  }

  // ---------------------------------------------------------------------
  // Requests and responses
  // ---------------------------------------------------------------------

  /**
   * What a request carries besides its route and body: the caller's
   * `User.Identity.Name`, `Guid.ToString`, the names above, `new Uri(url)`,
   * `DateTime.Today.DayOfWeek` and `DateTimeOffset.Now`.
   */
  datatype Context = Context(
    identityName: Option<string>,
    guidText: Guid -> string,
    naming: Naming,
    parseUri: UriParser,
    today: DayOfWeek,
    now: Instant)

  /** `User.Identity.Name == userId.ToString()`: the caller is the user of the route. */
  predicate Owns(ctx: Context, userId: Guid)
  {
    ctx.identityName == Some(ctx.guidText(userId))
  }

  /** Which check a 422 answer reports. */
  datatype Reason = EmptyType | BadType | BadStatus | BadSort | BadUrl | BadReleasesOn

  /** The answers of the endpoints; `Unhandled` is an exception no handler catches (a 500). */
  datatype Response =
    | Ok
    | OkTracker(tracker: Tracker)
    | OkListing(data: seq<Tracker>, totalCount: nat)
    | SearchResults
    | Created(tracker: Tracker)
    | NotFound
    | Forbidden
    | Unprocessable(reason: Reason)
    | Unhandled(exception: Exception)

  /** The HTTP status code of an answer. */
  function StatusCode(r: Response): int
  {
    match r
    case Ok | OkTracker(_) | OkListing(_, _) | SearchResults => 200
    case Created(_) => 201
    case NotFound => 404
    case Forbidden => 403
    case Unprocessable(_) => 422
    case Unhandled(_) => 500
  }

  /** The `[Required]` members of CreateTrackerDto and UpdateTrackerDto are non-null; the others may be null. */
  datatype TrackerDto = TrackerDto(
    Title: string,
    Type: string,
    Url: string,
    UserReleaseProgress: int,
    LatestRelease: int,
    ReleasesOn: Option<string>,
    Status: string,
    ImageUrl: Option<string>)

  // ---------------------------------------------------------------------
  // The shared checks
  // ---------------------------------------------------------------------

  /**
   * The `ReleasesOn` check of CreateTracker and UpdateTracker. A failed
   * `Enum.TryParse` leaves `day` at `default(DayOfWeek)`, so the check
   * compares Sunday with today.
   */
  predicate ReleasesOnRejected(ctx: Context, releasesOn: Option<string>)
  {
    && !IsNullOrWhiteSpace(releasesOn)
    && var parsed := ParseDayOfWeek(ctx.naming.firstCharToUpper(releasesOn.value));
       var day := if parsed.Some? then parsed.value else DefaultDayOfWeek;
       parsed.None? && day == ctx.today
  }

  /**
   * A `ReleasesOn` is refused only when it is given, names no weekday, and
   * today is Sunday; a value naming a weekday is never refused.
   */
  lemma ReleasesOnRejectedOnlyOnSundays(ctx: Context, releasesOn: Option<string>)
    ensures ReleasesOnRejected(ctx, releasesOn) <==>
      && !IsNullOrWhiteSpace(releasesOn)
      && (forall d :: DayName(d) != ctx.naming.firstCharToUpper(releasesOn.value))
      && ctx.today == Sunday
  {
    if !IsNullOrWhiteSpace(releasesOn) {
      ParseDayOfWeekNames(ctx.naming.firstCharToUpper(releasesOn.value));
    }
  }

  /**
   * `Array.Exists(_supportedWebsites, site => site == new Uri(url).Host)`:
   * `Some(true)` when the host is listed, `Some(false)` when not, `None`
   * when `new Uri(url)` throws.
   */
  function UrlSupported(ctx: Context, url: string): Option<bool>
  {
    match ctx.parseUri(url)
    case None => None
    case Some(uri) => Some(uri.host in SupportedWebsites)
  }

  /** The ReleasesOn the endpoints store: null when blank, capitalised otherwise. */
  function StoredReleasesOn(naming: Naming, releasesOn: Option<string>): Option<string>
  {
    if !IsNullOrWhiteSpace(releasesOn) then Some(naming.firstCharToUpper(releasesOn.value)) else None
  }

  // ---------------------------------------------------------------------
  // GET /trackers/{userId}
  // ---------------------------------------------------------------------

  /** The query string of GetTrackersForUser; paging and sorting are passed through and not modelled. */
  datatype ListingRequest = ListingRequest(
    userId: Guid,
    trackerType: Option<string>,
    status: Option<string>,
    sort: Option<string>,
    search: Option<string>)

  /** What GetTrackersForUser does: a text search, a refusal, or the filtered query. */
  datatype ListingPlan = Search | Refuse(response: Response) | Filter(query: ListingQuery)

  /** The guard sequence of GetTrackersForUser and the `Completed` rewrite. */
  function PlanListing(ctx: Context, req: ListingRequest): ListingPlan
  {
    var f := ctx.naming.firstCharToUpper;
    if !IsNullOrWhiteSpace(req.search) then Search
    else if !Owns(ctx, req.userId) then Refuse(Forbidden)
    else if IsNullOrWhiteSpace(req.trackerType) then Refuse(Unprocessable(EmptyType))
    else if f(req.trackerType.value) !in ctx.naming.trackerTypes then Refuse(Unprocessable(BadType))
    else if !IsNullOrWhiteSpace(req.status) && !IsValidStatus(ctx.naming, req.trackerType.value, req.status.value) then
      Refuse(Unprocessable(BadStatus))
    else if !IsNullOrWhiteSpace(req.sort) && f(req.sort.value) !in SortTypes then Refuse(Unprocessable(BadSort))
    else
      var completed := !IsNullOrWhiteSpace(req.status) && req.status.value == "Completed";
      var status := if completed then None else req.status;
      Filter(ListingQuery(req.userId, req.trackerType.value, status, completed))
  }

  /** A non-blank search is answered before, and regardless of, the ownership check. */
  lemma SearchBypassesOwnership(ctx: Context, other: Context, req: ListingRequest)
    requires !IsNullOrWhiteSpace(req.search)
    ensures PlanListing(ctx, req) == PlanListing(other, req) == Search
  {
  }

  /** Without a search, a caller who is not the route's user is refused. */
  lemma ListingForbidsOthers(ctx: Context, req: ListingRequest)
    requires IsNullOrWhiteSpace(req.search) && !Owns(ctx, req.userId)
    ensures PlanListing(ctx, req) == Refuse(Forbidden)
  {
  }

  /**
   * A filtered query is the caller's own, of a known type, with a valid
   * status and sort; status `Completed` becomes "no status, completed
   * only", and any other status is passed on unchanged.
   */
  lemma ListingQueryRewritesCompleted(ctx: Context, req: ListingRequest)
    requires PlanListing(ctx, req).Filter?
    ensures var q := PlanListing(ctx, req).query;
      && Owns(ctx, req.userId) && q.userId == req.userId
      && req.trackerType.Some? && q.trackerType == req.trackerType.value
      && ctx.naming.firstCharToUpper(q.trackerType) in ctx.naming.trackerTypes
      && (!IsNullOrWhiteSpace(req.status) ==> IsValidStatus(ctx.naming, q.trackerType, req.status.value))
      && (!IsNullOrWhiteSpace(req.sort) ==> ctx.naming.firstCharToUpper(req.sort.value) in SortTypes)
      && (q.hasCompleted <==> req.status == Some("Completed"))
      && q.status == if req.status == Some("Completed") then None else req.status
  {
    assert !IsBlank("Completed") by { assert !IsWhiteSpace("Completed"[0]); }
  }

  // ---------------------------------------------------------------------
  // POST /trackers/{userId}
  // ---------------------------------------------------------------------

  /** The guard sequence of CreateTracker: the first failing check decides the answer. */
  function CreateRefusal(ctx: Context, userExists: bool, userId: Guid, dto: TrackerDto): Option<Response>
  {
    if !userExists then Some(NotFound)
    else if !Owns(ctx, userId) then Some(Forbidden)
    else if ctx.naming.firstCharToUpper(dto.Type) !in ctx.naming.trackerTypes then Some(Unprocessable(BadType))
    else if !IsValidStatus(ctx.naming, dto.Type, dto.Status) then Some(Unprocessable(BadStatus))
    else match UrlSupported(ctx, dto.Url)
      case None => Some(Unhandled(UriFormatException))
      case Some(false) => Some(Unprocessable(BadUrl))
      case Some(true) =>
        if ReleasesOnRejected(ctx, dto.ReleasesOn) then Some(Unprocessable(BadReleasesOn)) else None
  }

  /** Every check CreateTracker makes, in no particular order. */
  predicate CreateAllowed(ctx: Context, userExists: bool, userId: Guid, dto: TrackerDto)
  {
    && userExists
    && Owns(ctx, userId)
    && ctx.naming.firstCharToUpper(dto.Type) in ctx.naming.trackerTypes
    && IsValidStatus(ctx.naming, dto.Type, dto.Status)
    && ctx.parseUri(dto.Url).Some? && ctx.parseUri(dto.Url).value.host in SupportedWebsites
    && !ReleasesOnRejected(ctx, dto.ReleasesOn)
  }

  /**
   * CreateTracker goes on exactly when every check passes, and a refusal
   * is the answer of the first check that fails: a missing user (404)
   * before ownership (403), then type, status, URL and `ReleasesOn`.
   */
  lemma CreateChecksInOrder(ctx: Context, userExists: bool, userId: Guid, dto: TrackerDto)
    ensures CreateRefusal(ctx, userExists, userId, dto).None? <==> CreateAllowed(ctx, userExists, userId, dto)
    ensures !userExists ==> CreateRefusal(ctx, userExists, userId, dto) == Some(NotFound)
    ensures userExists && !Owns(ctx, userId) ==> CreateRefusal(ctx, userExists, userId, dto) == Some(Forbidden)
    ensures (&& userExists
             && Owns(ctx, userId)
             && ctx.naming.firstCharToUpper(dto.Type) !in ctx.naming.trackerTypes) ==>
      CreateRefusal(ctx, userExists, userId, dto) == Some(Unprocessable(BadType))
    ensures (&& userExists
             && Owns(ctx, userId)
             && ctx.naming.firstCharToUpper(dto.Type) in ctx.naming.trackerTypes
             && !IsValidStatus(ctx.naming, dto.Type, dto.Status)) ==>
      CreateRefusal(ctx, userExists, userId, dto) == Some(Unprocessable(BadStatus))
    ensures (&& userExists
             && Owns(ctx, userId)
             && ctx.naming.firstCharToUpper(dto.Type) in ctx.naming.trackerTypes
             && IsValidStatus(ctx.naming, dto.Type, dto.Status)
             && ctx.parseUri(dto.Url).None?) ==>
      CreateRefusal(ctx, userExists, userId, dto) == Some(Unhandled(UriFormatException))
    ensures (&& userExists
             && Owns(ctx, userId)
             && ctx.naming.firstCharToUpper(dto.Type) in ctx.naming.trackerTypes
             && IsValidStatus(ctx.naming, dto.Type, dto.Status)
             && ctx.parseUri(dto.Url).Some?
             && ctx.parseUri(dto.Url).value.host !in SupportedWebsites) ==>
      CreateRefusal(ctx, userExists, userId, dto) == Some(Unprocessable(BadUrl))
    ensures (&& userExists
             && Owns(ctx, userId)
             && ctx.naming.firstCharToUpper(dto.Type) in ctx.naming.trackerTypes
             && IsValidStatus(ctx.naming, dto.Type, dto.Status)
             && ctx.parseUri(dto.Url).Some?
             && ctx.parseUri(dto.Url).value.host in SupportedWebsites
             && ReleasesOnRejected(ctx, dto.ReleasesOn)) ==>
      CreateRefusal(ctx, userExists, userId, dto) == Some(Unprocessable(BadReleasesOn))
  {
  }

  /** The record CreateTracker inserts; `newId` is `Guid.NewGuid()`. */
  function NewTracker(ctx: Context, userId: Guid, dto: TrackerDto, newId: Guid): Tracker
  {
    Tracker(
      Id := newId,
      Type := ctx.naming.firstCharToUpper(dto.Type),
      Title := dto.Title,
      Url := dto.Url,
      UserReleaseProgress := dto.UserReleaseProgress,
      LatestRelease := dto.LatestRelease,
      HasSeenLatestRelease := false,
      LatestReleaseUpdatedAt := None,
      HasCompleted := false,
      CompletedAt := None,
      CreatedAt := Some(ctx.now),
      Status := ctx.naming.firstCharToUpper(dto.Status),
      ReleasesOn := StoredReleasesOn(ctx.naming, dto.ReleasesOn),
      ImageUrl := dto.ImageUrl,
      UserId := userId)
  }

  /**
   * A created record belongs to the caller, is found again under its new
   * Id, carries the capitalised type and status, and has `ReleasesOn`
   * null exactly when the request's was blank.
   */
  lemma CreatedTrackerIsFound(ctx: Context, ts: seq<Tracker>, userId: Guid, dto: TrackerDto, newId: Guid)
    requires UniqueIds(ts) && InsertOne(ts, NewTracker(ctx, userId, dto, newId)).Some?
    ensures var t := NewTracker(ctx, userId, dto, newId);
      && FindForUser(InsertOne(ts, t).value, newId, userId) == Some(t)
      && t.Type == ctx.naming.firstCharToUpper(dto.Type) && t.Status == ctx.naming.firstCharToUpper(dto.Status)
      && (t.ReleasesOn.None? <==> IsNullOrWhiteSpace(dto.ReleasesOn))
      && !t.HasSeenLatestRelease && !t.HasCompleted && t.CreatedAt == Some(ctx.now)
  {
    var t := NewTracker(ctx, userId, dto, newId);
    var ts' := InsertOne(ts, t).value;
    assert ts'[|ts|] == t;
    forall k | 0 <= k < |ts|
      ensures ts'[k].Id != newId
    {
      assert ts'[k] == ts[k];
    }
    assert IndexOfId(ts', newId) == Some(|ts|);
  }

  /** A URL the controller accepts is one the scraper dispatches; it need not be http(s), which the scraper requires. */
  lemma AcceptedUrlIsDispatched(ctx: Context, userExists: bool, userId: Guid, dto: TrackerDto)
    requires CreateAllowed(ctx, userExists, userId, dto)
    ensures SiteOfHost(ctx.parseUri(dto.Url).value.host).Some?
  {
    SupportedWebsitesAreScraped(ctx.parseUri(dto.Url).value.host);
  }

  // ---------------------------------------------------------------------
  // PUT /trackers/{userId}/{trackerId}
  // ---------------------------------------------------------------------

  /** The guard sequence of UpdateTracker before the record is looked up: no type check, `ReleasesOn` before the URL. */
  function UpdateRefusal(ctx: Context, userId: Guid, dto: TrackerDto): Option<Response>
  {
    if !Owns(ctx, userId) then Some(Forbidden)
    else if !IsValidStatus(ctx.naming, dto.Type, dto.Status) then Some(Unprocessable(BadStatus))
    else if ReleasesOnRejected(ctx, dto.ReleasesOn) then Some(Unprocessable(BadReleasesOn))
    else match UrlSupported(ctx, dto.Url)
      case None => Some(Unhandled(UriFormatException))
      case Some(false) => Some(Unprocessable(BadUrl))
      case Some(true) => None
  }

  /**
   * UpdateTracker refuses non-owners first; it never checks the type, and
   * it reports a refused `ReleasesOn` even when the URL would also fail
   * or throw, where CreateTracker reports the URL.
   */
  lemma UpdateChecksInOrder(ctx: Context, userId: Guid, dto: TrackerDto)
    ensures !Owns(ctx, userId) ==> UpdateRefusal(ctx, userId, dto) == Some(Forbidden)
    ensures UpdateRefusal(ctx, userId, dto).None? <==>
      && Owns(ctx, userId)
      && IsValidStatus(ctx.naming, dto.Type, dto.Status)
      && !ReleasesOnRejected(ctx, dto.ReleasesOn)
      && ctx.parseUri(dto.Url).Some? && ctx.parseUri(dto.Url).value.host in SupportedWebsites
    ensures Owns(ctx, userId) && IsValidStatus(ctx.naming, dto.Type, dto.Status) && ReleasesOnRejected(ctx, dto.ReleasesOn) ==>
      UpdateRefusal(ctx, userId, dto) == Some(Unprocessable(BadReleasesOn))
    ensures && Owns(ctx, userId) && ctx.naming.firstCharToUpper(dto.Type) in ctx.naming.trackerTypes
            && IsValidStatus(ctx.naming, dto.Type, dto.Status) && ReleasesOnRejected(ctx, dto.ReleasesOn)
            && UrlSupported(ctx, dto.Url) == Some(false) ==>
      CreateRefusal(ctx, true, userId, dto) == Some(Unprocessable(BadUrl))
  {
  }

  /** The record UpdateTracker writes: the stored one with the request's fields over it. */
  function UpdatedTracker(naming: Naming, existing: Tracker, dto: TrackerDto): Tracker
  {
    existing.(
      Type := dto.Type,
      Title := dto.Title,
      Url := dto.Url,
      UserReleaseProgress := dto.UserReleaseProgress,
      LatestRelease := dto.LatestRelease,
      Status := naming.firstCharToUpper(dto.Status),
      ReleasesOn := StoredReleasesOn(naming, dto.ReleasesOn),
      ImageUrl := dto.ImageUrl)
  }

  /**
   * An update keeps the record's identity, owner, creation time, seen and
   * completion state, stores the type verbatim (not capitalised) and
   * replaces only that record.
   */
  lemma UpdateReplacesOnlyTarget(naming: Naming, ts: seq<Tracker>, trackerId: Guid, userId: Guid, dto: TrackerDto)
    requires UniqueIds(ts) && FindForUser(ts, trackerId, userId).Some?
    ensures var u := UpdatedTracker(naming, FindForUser(ts, trackerId, userId).value, dto);
      && u.Id == trackerId && u.UserId == userId
      && u.Type == dto.Type && u.Status == naming.firstCharToUpper(dto.Status)
      && FindForUser(ReplaceOne(ts, u), trackerId, userId) == Some(u)
      && forall k :: 0 <= k < |ts| && ts[k].Id != trackerId ==> ReplaceOne(ts, u)[k] == ts[k]
  {
    var u := UpdatedTracker(naming, FindForUser(ts, trackerId, userId).value, dto);
    var i := IndexOfId(ts, trackerId).value;
    assert ReplaceOne(ts, u)[i] == u;
    assert IndexOfId(ReplaceOne(ts, u), trackerId) == Some(i);
  }

  // ---------------------------------------------------------------------
  // The toggles
  // ---------------------------------------------------------------------

  /** Two successful seen toggles restore the collection exactly. */
  lemma SeenToggleTwiceRestores(ts: seq<Tracker>, trackerId: Guid, userId: Guid)
    requires UniqueIds(ts) && FindForUser(ts, trackerId, userId).Some?
    ensures var once := SetSeen(ts, trackerId, !FindForUser(ts, trackerId, userId).value.HasSeenLatestRelease);
      && FindForUser(once, trackerId, userId).Some?
      && SetSeen(once, trackerId, !FindForUser(once, trackerId, userId).value.HasSeenLatestRelease) == ts
  {
    var t := FindForUser(ts, trackerId, userId).value;
    var i := IndexOfId(ts, trackerId).value;
    var once := SetSeen(ts, trackerId, !t.HasSeenLatestRelease);
    assert once[i] == t.(HasSeenLatestRelease := !t.HasSeenLatestRelease);
    assert IndexOfId(once, trackerId) == Some(i);
    var twice := SetSeen(once, trackerId, !once[i].HasSeenLatestRelease);
    assert |twice| == |ts|;
    forall k | 0 <= k < |ts|
      ensures twice[k] == ts[k]
    {
      if k == i {
        assert twice[k] == t;
      }
    }
  }

  /**
   * Two successful completion toggles restore every completion flag and
   * every other record; the target keeps only the second toggle's time.
   */
  lemma CompleteToggleTwiceRestoresFlag(ts: seq<Tracker>, trackerId: Guid, userId: Guid, first: Instant, second: Instant)
    requires UniqueIds(ts) && FindForUser(ts, trackerId, userId).Some?
    ensures var once := SetCompleted(ts, trackerId, !FindForUser(ts, trackerId, userId).value.HasCompleted, first);
      && FindForUser(once, trackerId, userId).Some?
      && var twice := SetCompleted(once, trackerId, !FindForUser(once, trackerId, userId).value.HasCompleted, second);
         && |twice| == |ts|
         && forall k :: 0 <= k < |ts| ==>
              twice[k] == if ts[k].Id == trackerId then ts[k].(CompletedAt := Some(second)) else ts[k]
  {
    var t := FindForUser(ts, trackerId, userId).value;
    var i := IndexOfId(ts, trackerId).value;
    var once := SetCompleted(ts, trackerId, !t.HasCompleted, first);
    assert once[i] == t.(HasCompleted := !t.HasCompleted, CompletedAt := Some(first));
    assert IndexOfId(once, trackerId) == Some(i);
  }

  // ---------------------------------------------------------------------
  // The controller
  // ---------------------------------------------------------------------

  /** TrackersController over its tracker repository; the user repository is the `userExists` answer. */
  class TrackersController {
    const trackerRepository: TrackerRepository

    constructor (trackerRepository: TrackerRepository)
      ensures this.trackerRepository == trackerRepository
    {
      this.trackerRepository := trackerRepository;
    }

    /** GET /trackers/{userId}/{trackerId}. */
    method GetTrackerForUser(ctx: Context, userId: Guid, trackerId: Guid) returns (response: Response)
      requires trackerRepository.Valid()
      ensures !Owns(ctx, userId) ==> response == Forbidden
      ensures Owns(ctx, userId) ==>
        response == match FindForUser(trackerRepository.trackers, trackerId, userId)
                    case None => NotFound
                    case Some(t) => OkTracker(t)
    {
      if !Owns(ctx, userId) {
        return Forbidden;
      }
      var tracker := trackerRepository.GetTrackerForUser(trackerId, userId);
      if tracker.None? {
        return NotFound;
      }
      return OkTracker(tracker.value);
    }

    /** GET /trackers/{userId}: the listing and its count use the same filter. */
    method GetTrackersForUser(ctx: Context, req: ListingRequest) returns (response: Response)
      ensures response == match PlanListing(ctx, req)
        case Search => SearchResults
        case Refuse(r) => r
        case Filter(q) =>
          OkListing(Listing(trackerRepository.trackers, q, ctx.naming.firstCharToUpper),
                    |Listing(trackerRepository.trackers, q, ctx.naming.firstCharToUpper)|)
    {
      var f := ctx.naming.firstCharToUpper;
      if !IsNullOrWhiteSpace(req.search) {
        return SearchResults;
      }
      if !Owns(ctx, req.userId) {
        return Forbidden;
      }
      if IsNullOrWhiteSpace(req.trackerType) {
        return Unprocessable(EmptyType);
      }
      if f(req.trackerType.value) !in ctx.naming.trackerTypes {
        return Unprocessable(BadType);
      }
      if !IsNullOrWhiteSpace(req.status) && !IsValidStatus(ctx.naming, req.trackerType.value, req.status.value) {
        return Unprocessable(BadStatus);
      }
      if !IsNullOrWhiteSpace(req.sort) && f(req.sort.value) !in SortTypes {
        return Unprocessable(BadSort);
      }
      var status := req.status;
      var hasCompleted := false;
      if !IsNullOrWhiteSpace(status) {
        if status.value == "Completed" {
          status := None;
          hasCompleted := true;
        }
      }
      var q := ListingQuery(req.userId, req.trackerType.value, status, hasCompleted);
      var trackers := trackerRepository.GetTrackersForUser(q, f);
      var count := trackerRepository.GetTrackersCountForUser(q, f);
      return OkListing(trackers, count);
    }

    /** POST /trackers/{userId}: the checks, then one insertion of the new record. */
    method CreateTracker(ctx: Context, userExists: bool, userId: Guid, dto: TrackerDto, newId: Guid)
      returns (response: Response)
      requires trackerRepository.Valid()
      modifies trackerRepository
      ensures trackerRepository.Valid()
      ensures CreateRefusal(ctx, userExists, userId, dto).Some? ==>
        response == CreateRefusal(ctx, userExists, userId, dto).value && unchanged(trackerRepository)
      ensures CreateRefusal(ctx, userExists, userId, dto).None? ==>
        if forall k :: 0 <= k < |old(trackerRepository.trackers)| ==> old(trackerRepository.trackers)[k].Id != newId
        then response == Created(NewTracker(ctx, userId, dto, newId))
          && trackerRepository.trackers == old(trackerRepository.trackers) + [NewTracker(ctx, userId, dto, newId)]
        else response == Unhandled(MongoWriteException) && trackerRepository.trackers == old(trackerRepository.trackers)
    {
      if !userExists {
        return NotFound;
      }
      if !Owns(ctx, userId) {
        return Forbidden;
      }
      if ctx.naming.firstCharToUpper(dto.Type) !in ctx.naming.trackerTypes {
        return Unprocessable(BadType);
      }
      if !IsValidStatus(ctx.naming, dto.Type, dto.Status) {
        return Unprocessable(BadStatus);
      }
      var supported := UrlSupported(ctx, dto.Url);
      if supported.None? {
        return Unhandled(UriFormatException);
      }
      if !supported.value {
        return Unprocessable(BadUrl);
      }
      if ReleasesOnRejected(ctx, dto.ReleasesOn) {
        return Unprocessable(BadReleasesOn);
      }
      var tracker := NewTracker(ctx, userId, dto, newId);
      var inserted := trackerRepository.CreateTracker(tracker);
      if !inserted {
        return Unhandled(MongoWriteException);
      }
      return Created(tracker);
    }

    /** PUT /trackers/{userId}/{trackerId}: the checks, the lookup, then one replacement. */
    method UpdateTracker(ctx: Context, userId: Guid, trackerId: Guid, dto: TrackerDto) returns (response: Response)
      requires trackerRepository.Valid()
      modifies trackerRepository
      ensures trackerRepository.Valid()
      ensures UpdateRefusal(ctx, userId, dto).Some? ==>
        response == UpdateRefusal(ctx, userId, dto).value && unchanged(trackerRepository)
      ensures UpdateRefusal(ctx, userId, dto).None? ==>
        match FindForUser(old(trackerRepository.trackers), trackerId, userId)
        case None => response == NotFound && unchanged(trackerRepository)
        case Some(existing) =>
          var u := UpdatedTracker(ctx.naming, existing, dto);
          trackerRepository.trackers == ReplaceOne(old(trackerRepository.trackers), u) && response == OkTracker(u)
    {
      if !Owns(ctx, userId) {
        return Forbidden;
      }
      if !IsValidStatus(ctx.naming, dto.Type, dto.Status) {
        return Unprocessable(BadStatus);
      }
      if ReleasesOnRejected(ctx, dto.ReleasesOn) {
        return Unprocessable(BadReleasesOn);
      }
      var supported := UrlSupported(ctx, dto.Url);
      if supported.None? {
        return Unhandled(UriFormatException);
      }
      if !supported.value {
        return Unprocessable(BadUrl);
      }
      var existing := trackerRepository.GetTrackerForUser(trackerId, userId);
      if existing.None? {
        return NotFound;
      }
      var updated := UpdatedTracker(ctx.naming, existing.value, dto);
      trackerRepository.UpdateTracker(updated);
      return OkTracker(updated);
    }

    /** DELETE /trackers/{userId}/{trackerId}. */
    method DeleteTracker(ctx: Context, userId: Guid, trackerId: Guid) returns (response: Response)
      requires trackerRepository.Valid()
      modifies trackerRepository
      ensures trackerRepository.Valid()
      ensures !Owns(ctx, userId) ==> response == Forbidden && unchanged(trackerRepository)
      ensures Owns(ctx, userId) ==>
        match FindForUser(old(trackerRepository.trackers), trackerId, userId)
        case None => response == NotFound && unchanged(trackerRepository)
        case Some(_) => response == Ok && trackerRepository.trackers == DeleteOne(old(trackerRepository.trackers), trackerId)
    {
      if !Owns(ctx, userId) {
        return Forbidden;
      }
      var existing := trackerRepository.GetTrackerForUser(trackerId, userId);
      if existing.None? {
        return NotFound;
      }
      trackerRepository.DeleteTracker(trackerId);
      return Ok;
    }

    /** POST /trackers/{userId}/{trackerId}/seen: writes the negation of the stored flag. */
    method ToggleLatestReleaseSeen(ctx: Context, userId: Guid, trackerId: Guid) returns (response: Response)
      requires trackerRepository.Valid()
      modifies trackerRepository
      ensures trackerRepository.Valid()
      ensures !Owns(ctx, userId) ==> response == Forbidden && unchanged(trackerRepository)
      ensures Owns(ctx, userId) ==>
        match FindForUser(old(trackerRepository.trackers), trackerId, userId)
        case None => response == NotFound && unchanged(trackerRepository)
        case Some(t) =>
          response == Ok
          && trackerRepository.trackers == SetSeen(old(trackerRepository.trackers), trackerId, !t.HasSeenLatestRelease)
    {
      if !Owns(ctx, userId) {
        return Forbidden;
      }
      var existing := trackerRepository.GetTrackerForUser(trackerId, userId);
      if existing.None? {
        return NotFound;
      }
      trackerRepository.ToggleReleaseSeen(trackerId, !existing.value.HasSeenLatestRelease);
      return Ok;
    }

    /** POST /trackers/{userId}/{trackerId}/complete: writes the negation of the stored flag and the time. */
    method ToggleComplete(ctx: Context, userId: Guid, trackerId: Guid) returns (response: Response)
      requires trackerRepository.Valid()
      modifies trackerRepository
      ensures trackerRepository.Valid()
      ensures !Owns(ctx, userId) ==> response == Forbidden && unchanged(trackerRepository)
      ensures Owns(ctx, userId) ==>
        match FindForUser(old(trackerRepository.trackers), trackerId, userId)
        case None => response == NotFound && unchanged(trackerRepository)
        case Some(t) =>
          response == Ok
          && trackerRepository.trackers == SetCompleted(old(trackerRepository.trackers), trackerId, !t.HasCompleted, ctx.now)
    {
      if !Owns(ctx, userId) {
        return Forbidden;
      }
      var existing := trackerRepository.GetTrackerForUser(trackerId, userId);
      if existing.None? {
        return NotFound;
      }
      trackerRepository.ToggleComplete(trackerId, !existing.value.HasCompleted, ctx.now);
      return Ok;
    }
  }
}
