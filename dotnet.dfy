/**
 * The parts of the .NET base library the core depends on: the range of
 * `int`, `char.IsWhiteSpace`, `string.IsNullOrWhiteSpace`, `DayOfWeek` and
 * its name parsing, the exceptions the core can raise, and the shape of a
 * parsed `System.Uri`.
 */
module DotNet {
  import opened Wrappers

  /** `int.MaxValue` and `int.MinValue` (System.Int32). */
  const Int32Max: int := 0x7FFF_FFFF
  const Int32Min: int := -0x8000_0000

  /** A value of System.Int32. */
  type Int32 = n: int | Int32Min <= n <= Int32Max

  /** `n - 1` on a C# `int` in an unchecked context: `int.MinValue - 1` wraps to `int.MaxValue`. */
  function Int32Decrement(n: int): (r: int)
    requires Int32Min <= n <= Int32Max
    ensures Int32Min <= r <= Int32Max
    ensures r != n
    ensures n > Int32Min ==> r == n - 1
    ensures n == Int32Min ==> r == Int32Max
  {
    if n == Int32Min then Int32Max else n - 1
  }

  /** `char.IsWhiteSpace`: the Unicode space separators, line and paragraph separators, and U+0009..U+000D, U+0085, U+00A0. */
  predicate IsWhiteSpace(c: char)
  {
    || c == ' ' || '\t' <= c <= '\r' || c == '\U{0085}' || c == '\U{00A0}'
    || c == '\U{1680}' || '\U{2000}' <= c <= '\U{200A}' || c == '\U{2028}'
    || c == '\U{2029}' || c == '\U{202F}' || c == '\U{205F}' || c == '\U{3000}'
  }

  /** `string.IsNullOrWhiteSpace` on a non-null string. */
  predicate IsBlank(s: string)
  {
    forall i :: 0 <= i < |s| ==> IsWhiteSpace(s[i])
  }

  /** `string.IsNullOrWhiteSpace` on a string that may be null. */
  predicate IsNullOrWhiteSpace(s: Option<string>)
  {
    s.None? || IsBlank(s.value)
  }

  /** System.DayOfWeek; `default(DayOfWeek)` is `Sunday` (value 0). */
  datatype DayOfWeek = Sunday | Monday | Tuesday | Wednesday | Thursday | Friday | Saturday

  const DefaultDayOfWeek: DayOfWeek := Sunday

  function DayName(d: DayOfWeek): string
  {
    match d
    case Sunday => "Sunday"
    case Monday => "Monday"
    case Tuesday => "Tuesday"
    case Wednesday => "Wednesday"
    case Thursday => "Thursday"
    case Friday => "Friday"
    case Saturday => "Saturday"
  }

  /**
   * `Enum.TryParse<DayOfWeek>` / `Enum.Parse(typeof(DayOfWeek), s)`,
   * restricted to the member names, matched case-sensitively.
   */
  function ParseDayOfWeek(s: string): Option<DayOfWeek>
  {
    if s == "Sunday" then Some(Sunday)
    else if s == "Monday" then Some(Monday)
    else if s == "Tuesday" then Some(Tuesday)
    else if s == "Wednesday" then Some(Wednesday)
    else if s == "Thursday" then Some(Thursday)
    else if s == "Friday" then Some(Friday)
    else if s == "Saturday" then Some(Saturday)
    else None
  }

  /** A name parses exactly when it is a day's name, and then to that day. */
  lemma ParseDayOfWeekNames(s: string)
    ensures ParseDayOfWeek(s).Some? ==> DayName(ParseDayOfWeek(s).value) == s
    ensures forall d :: DayName(d) == s ==> ParseDayOfWeek(s) == Some(d)
  {
  }

  /** The exceptions the core raises or catches. */
  datatype Exception =
    | InvalidCastException
    | FormatException
    | OverflowException
    | ArgumentException
    | ArgumentNullException
    | NullReferenceException
    | InvalidOperationException
    | IOException
    | UriFormatException
    | MongoWriteException  // the MongoDB driver's error for a rejected write, such as a duplicate `_id`
    | SecurityTokenException  // Microsoft.IdentityModel.Tokens: a token that is not accepted

  /** The parts of a parsed absolute `System.Uri` the core reads. */
  datatype Uri = Uri(scheme: string, host: string)

  /** `Uri.UriSchemeHttp` and `Uri.UriSchemeHttps`. */
  const UriSchemeHttp: string := "http"
  const UriSchemeHttps: string := "https"
}
