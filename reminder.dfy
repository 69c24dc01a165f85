/**
 * The next-watering-time arithmetic of `savePlant`: the weekly interval, the
 * next reminder instant, and the one-shot trigger handed to the scheduler.
 */
module Reminder {
  import opened PlantTypes

  const DaysPerWeek: int := 7

  /** Platforms reject near-immediate triggers: a reminder is at least one minute away. */
  const MinDelayMs: nat := 60000

  /** The recurrence rules the store can compute an interval for. */
  predicate Schedulable(f: Frequency)
  {
    f.repeatEvery == "week" ==> f.times != 0
  }

  /**
   * `Math.trunc(7 / times)`: whole days between waterings, the quotient
   * truncated toward zero. The contract pins it down uniquely.
   */
  function Interval(times: int): (days: int)
    requires times != 0
    ensures times > 0 ==> days >= 0
    ensures times < 0 ==> days <= 0
    ensures 0 <= days * times <= DaysPerWeek < (Abs(days) + 1) * Abs(times)
  {
    if times > 0 then DaysPerWeek / times else -(DaysPerWeek / -times)
  }

  function Abs(x: int): nat
  {
    if x < 0 then -x else x
  }

  /**
   * The instant the reminder aims at. For a weekly rule the plant's chosen
   * instant gets its day of the month set to NOW's day of the month plus the
   * interval; any other rule leaves the chosen instant as it is.
   */
  function NextTime(plant: Plant, now: Time, cal: Calendar): (next: Time)
    requires Schedulable(plant.frequency)
    ensures plant.frequency.repeatEvery != "week" ==> next == plant.dateTimeNotification
    ensures plant.frequency.repeatEvery == "week" && plant.frequency.times > 0 ==>
      next == cal.setDate(plant.dateTimeNotification, cal.dayOfMonth(now) + DaysPerWeek / plant.frequency.times)
  {
    if plant.frequency.repeatEvery == "week" then
      cal.setDate(plant.dateTimeNotification, cal.dayOfMonth(now) + Interval(plant.frequency.times))
    else
      plant.dateTimeNotification
  }

  /** `Math.abs(now - next)`: the distance between the two instants, whichever comes first. */
  function DelayMs(now: Time, next: Time): (d: nat)
    ensures next == now - d || next == now + d
  {
    Abs(now - next)
  }

  /** The trigger: the delay raised to one minute when shorter, never repeating. */
  function TriggerFor(delayMs: nat): (t: Trigger)
    ensures !t.repeats
    ensures t.delayMs >= MinDelayMs
    ensures t.delayMs == delayMs || (delayMs < MinDelayMs && t.delayMs == MinDelayMs)
  {
    Trigger(if delayMs < MinDelayMs then MinDelayMs else delayMs, false)
  }

  /**
   * The trigger `savePlant` schedules for `plant` when the clock reads `now`:
   * one-shot, and the distance to the next instant unless that is under a
   * minute, in which case exactly one minute.
   */
  function ReminderTrigger(plant: Plant, now: Time, cal: Calendar): (t: Trigger)
    requires Schedulable(plant.frequency)
    ensures !t.repeats
    ensures t.delayMs >= MinDelayMs
    ensures t.delayMs == DelayMs(now, NextTime(plant, now, cal))
         || (DelayMs(now, NextTime(plant, now, cal)) < MinDelayMs && t.delayMs == MinDelayMs)
  {
    TriggerFor(DelayMs(now, NextTime(plant, now, cal)))
  }

  /** Only the day of the month of `now` enters the next instant, not its time of day. */
  lemma NextTimeDependsOnDayOnly(plant: Plant, now1: Time, now2: Time, cal: Calendar)
    requires Schedulable(plant.frequency)
    requires cal.dayOfMonth(now1) == cal.dayOfMonth(now2)
    ensures NextTime(plant, now1, cal) == NextTime(plant, now2, cal)
  {
  }

  /** A target `d` ms in the past gets the same delay as one `d` ms in the future. */
  lemma PastAndFutureSameDelay(now: Time, d: nat)
    ensures DelayMs(now, now - d) == DelayMs(now, now + d) == d
  {
  }

  /** The trigger keeps the delay exactly when it is at least a minute, and is one minute otherwise. */
  lemma TriggerClamp(delayMs: nat)
    ensures (TriggerFor(delayMs).delayMs == delayMs) <==> delayMs >= MinDelayMs
    ensures (TriggerFor(delayMs).delayMs == MinDelayMs) <==> delayMs <= MinDelayMs
  {
  }
}
