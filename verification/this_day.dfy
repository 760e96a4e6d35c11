/**
 * The "next occurrence of a time of day" expiration policy: evaluated at a
 * reference instant, it expires at the next hh:mm:ss strictly after it.
 */
module ThisDayPolicy {
  import opened Wrappers
  import opened CacheTimes

  /** Why evaluation throws: `new DateTime` rejects the fields, or `AddDays(1)` passes `DateTime.MaxValue`. */
  datatype TimeError = FieldOutOfRange | BeyondMaxValue

  /** Whether (hour, minute, second) names a time of day `DateTime` accepts. */
  predicate ValidTimeOfDay(hour: int, minute: int, second: int) {
    0 <= hour < 24 && 0 <= minute < 60 && 0 <= second < 60
  }

  /** Ticks from midnight to hour:minute:second. */
  function Offset(hour: int, minute: int, second: int): (r: int)
    requires ValidTimeOfDay(hour, minute, second)
    ensures 0 <= r < TicksPerDay
    ensures r % TicksPerSecond == 0
  {
    hour * TicksPerHour + minute * TicksPerMinute + second * TicksPerSecond
  }

  /** Today at the configured time: the reference day with its time of day replaced. */
  function TodayTarget(hour: int, minute: int, second: int, model: Instant): (r: Instant)
    requires ValidTimeOfDay(hour, minute, second)
    ensures Day(r) == Day(model)
    ensures TimeOfDay(r) == Offset(hour, minute, second)
  {
    DayTicks(Day(model), Offset(hour, minute, second))
  }

  /** The instant `offset` ticks into day `d`. */
  function DayTicks(d: int, offset: int): (r: Instant)
    requires 0 <= d < DaysInRange && 0 <= offset < TicksPerDay
    ensures Day(r) == d && TimeOfDay(r) == offset
  {
    DayDecomposition(d, offset);
    d * TicksPerDay + offset
  }

  lemma DayDecomposition(d: int, offset: int)
    requires 0 <= d < DaysInRange && 0 <= offset < TicksPerDay
    ensures 0 <= d * TicksPerDay + offset <= MaxTicks
    ensures (d * TicksPerDay + offset) / TicksPerDay == d
    ensures (d * TicksPerDay + offset) % TicksPerDay == offset
  {
  }

  /**
   * `ThisDay.Execute`: build "today at hh:mm:ss", roll it one day forward
   * when it is not after the reference, and take both spans as the distance
   * from the reference to that target.
   */
  function Execute(hour: int, minute: int, second: int, model: Instant): (r: Result<CacheTime, TimeError>)
    ensures r == Failure(FieldOutOfRange) <==> !ValidTimeOfDay(hour, minute, second)
    ensures r == Failure(BeyondMaxValue) <==>
      && ValidTimeOfDay(hour, minute, second)
      && Offset(hour, minute, second) <= TimeOfDay(model)
      && Day(model) == DaysInRange - 1
    ensures r.Success? ==>
      && model < r.value.absoluteExpiration <= MaxTicks
      && TimeOfDay(r.value.absoluteExpiration) == Offset(hour, minute, second)
      && (Day(r.value.absoluteExpiration) == Day(model) <==> TimeOfDay(model) < Offset(hour, minute, second))
      && (Day(r.value.absoluteExpiration) == Day(model) + 1 <==> Offset(hour, minute, second) <= TimeOfDay(model))
    ensures r.Success? ==>
      && r.value.serverTimeSpan == r.value.absoluteExpiration - model
      && 0 < r.value.serverTimeSpan <= TicksPerDay
      && r.value.clientTimeSpan == r.value.serverTimeSpan
  {
    if !ValidTimeOfDay(hour, minute, second) then Failure(FieldOutOfRange)
    else
      var today := TodayTarget(hour, minute, second, model);
      if today <= model && Day(model) + 1 == DaysInRange then Failure(BeyondMaxValue)
      else
        var expiration: Instant := if today <= model then DayTicks(Day(model) + 1, Offset(hour, minute, second)) else today;
        var span := expiration - model;
        Success(CacheTime(expiration, span, span))
  }

  /** Splitting an offset back into hour, minute and second recovers the configured fields. */
  lemma OffsetDecodes(hour: int, minute: int, second: int)
    requires ValidTimeOfDay(hour, minute, second)
    ensures Offset(hour, minute, second) / TicksPerHour == hour
    ensures Offset(hour, minute, second) % TicksPerHour / TicksPerMinute == minute
    ensures Offset(hour, minute, second) % TicksPerMinute / TicksPerSecond == second
    ensures Offset(hour, minute, second) % TicksPerSecond == 0
  {
    var sec := second * TicksPerSecond;
    var low := minute * TicksPerMinute + sec;
    assert Offset(hour, minute, second) == hour * TicksPerHour + low;
    assert Offset(hour, minute, second) % TicksPerHour == low;
    assert low / TicksPerMinute == minute;
    assert Offset(hour, minute, second) == (hour * 60 + minute) * TicksPerMinute + sec;
    assert Offset(hour, minute, second) % TicksPerMinute == sec;
  }

  /** The expiration's hour, minute and second are the constructor's fields, with no sub-second part. */
  lemma ExpirationHasConfiguredFields(hour: int, minute: int, second: int, model: Instant)
    requires Execute(hour, minute, second, model).Success?
    ensures var t := TimeOfDay(Execute(hour, minute, second, model).value.absoluteExpiration);
      && t / TicksPerHour == hour
      && t % TicksPerHour / TicksPerMinute == minute
      && t % TicksPerMinute / TicksPerSecond == second
      && t % TicksPerSecond == 0
  {
    OffsetDecodes(hour, minute, second);
  }

  /**
   * Reference definition of the policy's target: `e` is the first instant
   * strictly after `model` whose time of day is `offset`.
   */
  ghost predicate IsNextOccurrence(e: Instant, offset: int, model: Instant) {
    && model < e
    && TimeOfDay(e) == offset
    && forall x: Instant :: model < x < e ==> TimeOfDay(x) != offset
  }

  /** Day numbers never decrease as time moves forward. */
  lemma DayMonotone(x: Instant, y: Instant)
    requires x <= y
    ensures Day(x) <= Day(y)
  {
  }

  /** The computed expiration is the next occurrence of the configured time of day. */
  lemma {:induction false} ExpirationIsNextOccurrence(hour: int, minute: int, second: int, model: Instant)
    requires Execute(hour, minute, second, model).Success?
    ensures IsNextOccurrence(Execute(hour, minute, second, model).value.absoluteExpiration, Offset(hour, minute, second), model)
  {
    var e: Instant := Execute(hour, minute, second, model).value.absoluteExpiration;
    var o := Offset(hour, minute, second);
    forall x: Instant | model < x < e
      ensures TimeOfDay(x) != o
    {
      DayMonotone(model, x);
      DayMonotone(x, e);
      if Day(x) == Day(model) {
        assert TimeOfDay(model) < TimeOfDay(x);
        if Day(e) == Day(model) {
          assert TimeOfDay(x) < TimeOfDay(e);
        }
      } else {
        assert Day(x) == Day(e);
        assert TimeOfDay(x) < TimeOfDay(e);
      }
    }
  }

  /** Conversely, any next occurrence of the configured time of day is the computed expiration. */
  lemma {:induction false} NextOccurrenceIsExpiration(hour: int, minute: int, second: int, model: Instant, e: Instant)
    requires Execute(hour, minute, second, model).Success?
    requires IsNextOccurrence(e, Offset(hour, minute, second), model)
    ensures e == Execute(hour, minute, second, model).value.absoluteExpiration
  {
    ExpirationIsNextOccurrence(hour, minute, second, model);
  }

  /** The boundary case: 17:00:00 evaluated at exactly 17:00:00 rolls to 17:00:00 the next day, a full day away. */
  lemma EqualInstantRollsForward(d: int)
    requires 0 <= d < DaysInRange - 1
    ensures Execute(17, 0, 0, DayTicks(d, 17 * TicksPerHour))
         == Success(CacheTime(DayTicks(d + 1, 17 * TicksPerHour), TicksPerDay, TicksPerDay))
  {
  }
}
