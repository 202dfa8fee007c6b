/**
  Dates as whole seconds since a reference instant, read in one fixed time
  zone whose offset from the reference is `zone` seconds. Days have no
  daylight-saving shifts.
*/
module Dates {

  const SecondsPerDay: int := 86400

  /** `Calendar.startOfDay(for:)`: the last midnight at or before `t`. */
  function StartOfDay(t: int, zone: int): (r: int)
    ensures r <= t < r + SecondsPerDay
    ensures (r + zone) % SecondsPerDay == 0
  {
    t - (t + zone) % SecondsPerDay
  }

  /** Every instant of one day has that day's start, and a day start is its own start. */
  lemma StartOfDayOfSameDay(t: int, u: int, zone: int)
    requires StartOfDay(t, zone) <= u < StartOfDay(t, zone) + SecondsPerDay
    ensures StartOfDay(u, zone) == StartOfDay(t, zone)
  {
    var s := StartOfDay(t, zone);
    var k := (s + zone) / SecondsPerDay;
    assert s + zone == k * SecondsPerDay;
    assert u + zone == k * SecondsPerDay + (u - s);
  }

  /** Start of day keeps the order of instants. */
  lemma StartOfDayMonotone(t: int, u: int, zone: int)
    requires t <= u
    ensures StartOfDay(t, zone) <= StartOfDay(u, zone)
  {
  }

  /** `date(bySettingHour: h, minute: m, second: s, of: t)`. */
  function AtTime(t: int, zone: int, hour: int, minute: int, second: int): (r: int)
    requires 0 <= hour < 24 && 0 <= minute < 60 && 0 <= second < 60
    ensures StartOfDay(r, zone) == StartOfDay(t, zone)
    ensures r - StartOfDay(r, zone) == hour * 3600 + minute * 60 + second
  {
    var r := StartOfDay(t, zone) + hour * 3600 + minute * 60 + second;
    StartOfDayOfSameDay(t, r, zone);
    r
  }
}
