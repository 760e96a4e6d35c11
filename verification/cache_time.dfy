/**
 * Instants, durations and the `CacheTime` record that every expiration
 * policy produces, plus the lazily chosen policy of a cache attribute.
 *
 * An instant is a .NET `DateTime` reduced to its tick count (100 ns units
 * since 0001-01-01); a duration is a `TimeSpan` in ticks. Calendars and
 * time zones play no part: a day is exactly `TicksPerDay` ticks.
 */
module CacheTimes {
  import opened Wrappers

  const TicksPerSecond: int := 10_000_000
  const TicksPerMinute: int := 600_000_000
  const TicksPerHour: int := 36_000_000_000
  const TicksPerDay: int := 864_000_000_000

  /** Number of whole days `DateTime` can represent (0001-01-01 through 9999-12-31). */
  const DaysInRange: int := 3_652_059

  /** Ticks of `DateTime.MaxValue`, the last representable instant (9999-12-31 23:59:59.9999999). */
  const MaxTicks: int := 3_155_378_975_999_999_999

  /** A representable `DateTime`. */
  type Instant = t: int | 0 <= t <= MaxTicks

  /** The day an instant falls on, counted from 0001-01-01. */
  function Day(t: Instant): (d: int)
    ensures 0 <= d < DaysInRange
    ensures d * TicksPerDay <= t < (d + 1) * TicksPerDay
  {
    t / TicksPerDay
  }

  /** Ticks elapsed since the start of the instant's day. */
  function TimeOfDay(t: Instant): (r: int)
    ensures 0 <= r < TicksPerDay
    ensures t == Day(t) * TicksPerDay + r
  {
    t % TicksPerDay
  }

  /**
   * The result of evaluating an expiration policy at a reference instant:
   * when the server entry expires, how long the server keeps it, and the
   * max-age advertised to clients.
   */
  datatype CacheTime = CacheTime(absoluteExpiration: int, serverTimeSpan: int, clientTimeSpan: int)

  /**
   * The expiration policy an attribute carries. `ShortTime` is what a plain
   * cache attribute builds from its two spans (in seconds); `ThisDay` is the
   * next-time-of-day policy; `Unmodelled` stands for the calendar policies the
   * other attribute kinds install, whose code is not part of this model.
   */
  datatype Policy =
    | ShortTime(serverSeconds: int, clientSeconds: int)
    | ThisDay(hour: int, minute: int, second: int)
    | Unmodelled(name: string)

  /**
   * The policy in force once the filter has run its lazy set-up: a policy
   * already installed is kept, otherwise a `ShortTime` is built from the
   * attribute's two spans.
   */
  function EnsureCacheTimeQuery(installed: Option<Policy>, serverTimeSpan: int, clientTimeSpan: int): (p: Policy)
    ensures installed.Some? ==> p == installed.value
    ensures installed.None? ==> p.ShortTime? && p.serverSeconds == serverTimeSpan && p.clientSeconds == clientTimeSpan
  {
    match installed
    case Some(q) => q
    case None => ShortTime(serverTimeSpan, clientTimeSpan)
  }

  /** Running the set-up a second time changes nothing: the first choice sticks. */
  lemma EnsureCacheTimeQueryIsStable(installed: Option<Policy>, serverTimeSpan: int, clientTimeSpan: int,
                                     laterServer: int, laterClient: int)
    ensures EnsureCacheTimeQuery(Some(EnsureCacheTimeQuery(installed, serverTimeSpan, clientTimeSpan)), laterServer, laterClient)
         == EnsureCacheTimeQuery(installed, serverTimeSpan, clientTimeSpan)
  {
  }
}
