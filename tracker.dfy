/** The tracker record stored in the `trackers` collection. */
module TrackerEntity {
  import opened Wrappers

  /** A `System.Guid`; only equality and freshness matter to the core. */
  type Guid = nat

  /** A `DateTimeOffset`, as a count of clock ticks. */
  type Instant = int

  /**
   * One user's subscription to a title. Field names are the stored
   * document's field names; `None` stands for a stored null.
   * `UserReleaseProgress` and `LatestRelease` are C# `int`s.
   */
  datatype Tracker = Tracker(
    Id: Guid,
    Type: string,
    Title: string,
    Url: string,
    UserReleaseProgress: int,
    LatestRelease: int,
    HasSeenLatestRelease: bool,
    LatestReleaseUpdatedAt: Option<Instant>,
    HasCompleted: bool,
    CompletedAt: Option<Instant>,
    CreatedAt: Option<Instant>,
    Status: string,
    ReleasesOn: Option<string>,
    ImageUrl: Option<string>,
    UserId: Guid)
}
