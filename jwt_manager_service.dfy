/**
 * The refresh-token table of Services/JwtManagerService.cs: a dictionary
 * from token string to refresh token, swept of expired entries, purged per
 * user, extended by GenerateTokens, and consulted by Refresh. Access-token
 * encoding, validation and signing are a given decoder; token strings are
 * given rather than drawn from a random generator.
 */
module JwtManager {
  import opened Wrappers
  import opened DotNet

  /** A `DateTime`, as a count of 100-nanosecond ticks. */
  type DateTime = int

  const TicksPerMinute: int := 600_000_000

  /** `DateTime.AddMinutes` for a whole number of minutes. */
  function AddMinutes(t: DateTime, minutes: int): DateTime
  {
    t + minutes * TicksPerMinute
  }

  /** A RefreshToken; `UserId` is the principal's name, which may be null. */
  datatype RefreshToken = RefreshToken(UserId: Option<string>, TokenString: string, ExpireAt: DateTime)

  /** The contents of `_usersRefreshTokens`. */
  type TokenTable = map<string, RefreshToken>

  // ---------------------------------------------------------------------
  // The two sweeps
  // ---------------------------------------------------------------------

  /** The keys whose entries expired strictly before `now`: the `Where(x => x.Value.ExpireAt < now)` selection. */
  function ExpiredKeys(table: TokenTable, now: DateTime): set<string>
  {
    set key | key in table && table[key].ExpireAt < now
  }

  /** The keys whose entries belong to `userId`: the `Where(x => x.Value.UserId == userId)` selection. */
  function KeysOfUser(table: TokenTable, userId: Option<string>): set<string>
  {
    set key | key in table && table[key].UserId == userId
  }

  /** The table once the expiry sweep at `now` is done. */
  function Unexpired(table: TokenTable, now: DateTime): TokenTable
  {
    map key | key in table && !(table[key].ExpireAt < now) :: table[key]
  }

  /** The table once every entry of `userId` is removed. */
  function WithoutUser(table: TokenTable, userId: Option<string>): TokenTable
  {
    map key | key in table && table[key].UserId != userId :: table[key]
  }

  /**
   * The sweep at `now` leaves no entry that expired before `now`, and keeps
   * every other entry unchanged, one expiring exactly at `now` included.
   */
  lemma UnexpiredKeepsLiveEntries(table: TokenTable, now: DateTime)
    ensures forall key :: key in Unexpired(table, now) ==> Unexpired(table, now)[key].ExpireAt >= now
    ensures forall key :: key in table ==>
      (key in Unexpired(table, now) <==> table[key].ExpireAt >= now)
      && (key in Unexpired(table, now) ==> Unexpired(table, now)[key] == table[key])
  {
  }

  /** Removing the selected expired keys one by one is the sweep. */
  lemma RemovingExpiredKeysSweeps(table: TokenTable, now: DateTime)
    ensures table - ExpiredKeys(table, now) == Unexpired(table, now)
  {
    var removed := table - ExpiredKeys(table, now);
    assert removed.Keys == Unexpired(table, now).Keys;
  }

  /** Sweeping twice is sweeping once at the later time; in particular the sweep is idempotent. */
  lemma SweepsCompose(table: TokenTable, first: DateTime, second: DateTime)
    ensures Unexpired(Unexpired(table, first), second) == Unexpired(table, if first < second then second else first)
    ensures Unexpired(Unexpired(table, first), first) == Unexpired(table, first)
  {
    var later := if first < second then second else first;
    assert Unexpired(Unexpired(table, first), second).Keys == Unexpired(table, later).Keys;
    assert Unexpired(Unexpired(table, first), first).Keys == Unexpired(table, first).Keys;
  }

  /** The purge leaves no entry of `userId`, and keeps every other user's entries unchanged. */
  lemma WithoutUserKeepsOthers(table: TokenTable, userId: Option<string>)
    ensures forall key :: key in WithoutUser(table, userId) ==> WithoutUser(table, userId)[key].UserId != userId
    ensures forall key :: key in table && table[key].UserId != userId ==>
      key in WithoutUser(table, userId) && WithoutUser(table, userId)[key] == table[key]
    ensures table - KeysOfUser(table, userId) == WithoutUser(table, userId)
  {
    assert (table - KeysOfUser(table, userId)).Keys == WithoutUser(table, userId).Keys;
  }

  /** The purge and the sweep can run in either order. */
  lemma PurgeAndSweepCommute(table: TokenTable, userId: Option<string>, now: DateTime)
    ensures WithoutUser(Unexpired(table, now), userId) == Unexpired(WithoutUser(table, userId), now)
  {
    assert WithoutUser(Unexpired(table, now), userId).Keys == Unexpired(WithoutUser(table, userId), now).Keys;
  }

  // ---------------------------------------------------------------------
  // Refresh
  // ---------------------------------------------------------------------

  /** `SecurityAlgorithms.HmacSha256Signature`. */
  const HmacSha256Signature: string := "http://www.w3.org/2001/04/xmldsig-more#hmac-sha256"

  /**
   * What `ValidateToken` yields for a valid access token: the principal's
   * `Identity?.Name`, and the header algorithm of the validated token when
   * it is a `JwtSecurityToken` (`None` for the null of `as`).
   */
  datatype Decoded = Decoded(name: Option<string>, alg: Option<string>)

  /** `JwtSecurityTokenHandler.ValidateToken` with the service's parameters, taken as given; it throws on a bad token. */
  type TokenValidator = string -> Result<Decoded, Exception>

  /** DecodeJwtToken: a blank token is refused before the validator sees it. */
  function DecodeJwtToken(validate: TokenValidator, accessToken: string): Result<Decoded, Exception>
  {
    if IsBlank(accessToken) then Failure(SecurityTokenException) else validate(accessToken)
  }

  /**
   * The checks of Refresh, in order: the access token decodes with the
   * expected algorithm, the refresh token is a key of the table, and its
   * entry is the caller's and not expired. The result is the user to
   * issue new tokens for.
   */
  function RefreshCheck(table: TokenTable, refreshToken: string, accessToken: string, now: DateTime, validate: TokenValidator):
    Result<Option<string>, Exception>
  {
    match DecodeJwtToken(validate, accessToken)
    case Failure(e) => Failure(e)
    case Success(decoded) =>
      if decoded.alg != Some(HmacSha256Signature) then Failure(SecurityTokenException)
      else if refreshToken !in table then Failure(SecurityTokenException)
      else if table[refreshToken].UserId != decoded.name || table[refreshToken].ExpireAt < now then
        Failure(SecurityTokenException)
      else Success(decoded.name)
  }

  /**
   * Refresh accepts exactly a presented token that is in the table, belongs
   * to the access token's principal and has not expired; a blank access
   * token is refused whatever the table holds.
   */
  lemma RefreshAcceptsOnlyLiveOwnTokens(table: TokenTable, refreshToken: string, accessToken: string, now: DateTime, validate: TokenValidator)
    ensures IsBlank(accessToken) ==> RefreshCheck(table, refreshToken, accessToken, now, validate) == Failure(SecurityTokenException)
    ensures RefreshCheck(table, refreshToken, accessToken, now, validate).Success? <==>
      && !IsBlank(accessToken)
      && validate(accessToken).Success?
      && validate(accessToken).value.alg == Some(HmacSha256Signature)
      && refreshToken in table
      && table[refreshToken].UserId == validate(accessToken).value.name
      && table[refreshToken].ExpireAt >= now
    ensures RefreshCheck(table, refreshToken, accessToken, now, validate).Success? ==>
      RefreshCheck(table, refreshToken, accessToken, now, validate).value == table[refreshToken].UserId
  {
  }

  /** A refresh token the sweep at `now` removed is refused by Refresh at any later time. */
  lemma SweptTokenIsRefused(table: TokenTable, refreshToken: string, accessToken: string, sweptAt: DateTime, now: DateTime, validate: TokenValidator)
    requires refreshToken in table && refreshToken !in Unexpired(table, sweptAt)
    ensures RefreshCheck(Unexpired(table, sweptAt), refreshToken, accessToken, now, validate).Failure?
  {
    assert DecodeJwtToken(validate, accessToken).Success? ==> refreshToken !in Unexpired(table, sweptAt);
  }

  // ---------------------------------------------------------------------
  // The service
  // ---------------------------------------------------------------------

  /** JwtManagerService: the refresh-token table and the configured refresh-token lifetime, in minutes. */
  class JwtManagerService {
    var usersRefreshTokens: TokenTable
    const refreshTokenExpiration: int

    constructor (refreshTokenExpiration: int)
      ensures this.refreshTokenExpiration == refreshTokenExpiration
      ensures usersRefreshTokens == map[]
    {
      this.refreshTokenExpiration := refreshTokenExpiration;
      usersRefreshTokens := map[];
    }

    /** RemoveExpiredRefreshTokens: select the expired entries, then remove their keys one at a time. */
    method RemoveExpiredRefreshTokens(now: DateTime)
      modifies this
      ensures usersRefreshTokens == Unexpired(old(usersRefreshTokens), now)
    {
      var expiredTokens := ExpiredKeys(usersRefreshTokens, now);
      var remaining := expiredTokens;
      while remaining != {}
        invariant remaining <= expiredTokens
        invariant usersRefreshTokens == old(usersRefreshTokens) - (expiredTokens - remaining)
        decreases remaining
      {
        var key :| key in remaining;
        usersRefreshTokens := usersRefreshTokens - {key};
        remaining := remaining - {key};
      }
      RemovingExpiredKeysSweeps(old(usersRefreshTokens), now);
    }

    /** RemoveRefreshTokenByUserId: select the user's entries, then remove their keys one at a time. */
    method RemoveRefreshTokenByUserId(userId: Option<string>)
      modifies this
      ensures usersRefreshTokens == WithoutUser(old(usersRefreshTokens), userId)
    {
      var refreshTokens := KeysOfUser(usersRefreshTokens, userId);
      var remaining := refreshTokens;
      while remaining != {}
        invariant remaining <= refreshTokens
        invariant usersRefreshTokens == old(usersRefreshTokens) - (refreshTokens - remaining)
        decreases remaining
      {
        var key :| key in remaining;
        usersRefreshTokens := usersRefreshTokens - {key};
        remaining := remaining - {key};
      }
      WithoutUserKeepsOthers(old(usersRefreshTokens), userId);
    }

    /**
     * The refresh-token half of GenerateTokens: a token for `userId` that
     * expires `refreshTokenExpiration` minutes after `now`, added under its
     * string or replacing the entry already there.
     */
    method GenerateTokens(userId: Option<string>, now: DateTime, tokenString: string) returns (refreshToken: RefreshToken)
      modifies this
      ensures refreshToken == RefreshToken(userId, tokenString, AddMinutes(now, refreshTokenExpiration))
      ensures usersRefreshTokens == old(usersRefreshTokens)[tokenString := refreshToken]
    {
      refreshToken := RefreshToken(userId, tokenString, AddMinutes(now, refreshTokenExpiration));
      usersRefreshTokens := usersRefreshTokens[tokenString := refreshToken];
    }

    /**
     * Refresh: the checks of RefreshCheck, then GenerateTokens for the
     * access token's principal with the new token string `newTokenString`.
     * The presented token stays in the table.
     */
    method Refresh(refreshToken: string, accessToken: string, now: DateTime, validate: TokenValidator, newTokenString: string)
      returns (result: Result<RefreshToken, Exception>)
      modifies this
      ensures match RefreshCheck(old(usersRefreshTokens), refreshToken, accessToken, now, validate)
        case Failure(e) => result == Failure(e) && usersRefreshTokens == old(usersRefreshTokens)
        case Success(userId) =>
          && result == Success(RefreshToken(userId, newTokenString, AddMinutes(now, refreshTokenExpiration)))
          && usersRefreshTokens == old(usersRefreshTokens)[newTokenString := result.value]
          && refreshToken in usersRefreshTokens
    {
      var decoded := DecodeJwtToken(validate, accessToken);
      if decoded.Failure? {
        return Failure(decoded.error);
      }
      if decoded.value.alg != Some(HmacSha256Signature) {
        return Failure(SecurityTokenException);
      }
      var userId := decoded.value.name;
      if refreshToken !in usersRefreshTokens {
        return Failure(SecurityTokenException);
      }
      var existingRefreshToken := usersRefreshTokens[refreshToken];
      if existingRefreshToken.UserId != userId || existingRefreshToken.ExpireAt < now {
        return Failure(SecurityTokenException);
      }
      var issued := GenerateTokens(userId, now, newTokenString);
      return Success(issued);
    }
  }
}
