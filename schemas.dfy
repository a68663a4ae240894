/** The request-parameter helpers of hutils/schemas.py: paging bounds and a
    date range, each with its validation errors. */
module Schemas {
  import opened Wrappers
  import opened PyValues
  import PyInt

  // ---- get_offset_and_limit ----

  const RangeMessage := "偏移量或每页数量低于限制，请重新选择"

  function CapMessage(maxLimit: int): string
  {
    "每页数量不能多于 " + PyInt.Render(maxLimit) + " 个，请重新选择"
  }

  /** `data.get(key, default)`. */
  function GetOr(data: map<string, Value>, key: string, default: int): Value
  {
    if key in data then data[key] else Int(default)
  }

  /** `max_limit` caps the limit only when it is truthy: not None and not 0. */
  predicate Caps(maxLimit: Option<int>)
  {
    maxLimit.Some? && maxLimit.value != 0
  }

  /** `get_offset_and_limit(data, max_limit, default_offset, default_limit)`. */
  function GetOffsetAndLimit(data: map<string, Value>, maxLimit: Option<int>, defaultOffset: int, defaultLimit: int)
    : (r: Result<(int, int), PyError>)
    ensures
      var offset := PyInt.ToInt(GetOr(data, "offset", defaultOffset));
      var limit := PyInt.ToInt(GetOr(data, "limit", defaultLimit));
      && (offset.Failure? ==> r == Failure(offset.error))
      && (offset.Success? && limit.Failure? ==> r == Failure(limit.error))
      && (offset.Success? && limit.Success? ==>
            && (offset.value < 0 || limit.value < offset.value ==> r == Failure(ValueError(RangeMessage)))
            && (0 <= offset.value <= limit.value && Caps(maxLimit) && limit.value > maxLimit.value ==>
                  r == Failure(ValueError(CapMessage(maxLimit.value))))
            && (0 <= offset.value <= limit.value && !(Caps(maxLimit) && limit.value > maxLimit.value) ==>
                  r == Success((offset.value, limit.value))))
    ensures r.Success? ==> 0 <= r.value.0 <= r.value.1
    ensures r.Success? && Caps(maxLimit) ==> r.value.1 <= maxLimit.value
  {
    var offset :- PyInt.ToInt(GetOr(data, "offset", defaultOffset));
    var limit :- PyInt.ToInt(GetOr(data, "limit", defaultLimit));
    if offset < 0 || limit < offset then Failure(ValueError(RangeMessage))
    else if Caps(maxLimit) && limit > maxLimit.value then Failure(ValueError(CapMessage(maxLimit.value)))
    else Success((offset, limit))
  }

  /** With neither key present the defaults 0 and 20 come back. */
  lemma OffsetAndLimitDefaults(maxLimit: Option<int>)
    requires !Caps(maxLimit) || maxLimit.value >= 20
    ensures GetOffsetAndLimit(map[], maxLimit, 0, 20) == Success((0, 20))
  {
  }

  /** Decimal strings in the request are read as the numbers they render: an
      accepted pair round-trips through `str`. */
  lemma OffsetAndLimitFromStrings(offset: int, limit: int, maxLimit: Option<int>, defaultOffset: int, defaultLimit: int)
    requires 0 <= offset <= limit && (!Caps(maxLimit) || limit <= maxLimit.value)
    ensures
      var data := map["offset" := Str(PyInt.Render(offset)), "limit" := Str(PyInt.Render(limit))];
      GetOffsetAndLimit(data, maxLimit, defaultOffset, defaultLimit) == Success((offset, limit))
  {
    PyInt.ParseRender(offset);
    PyInt.ParseRender(limit);
  }

  /** A limit equal to the cap or to the offset is accepted; one past the cap is not. */
  lemma OffsetAndLimitBoundaries(n: nat)
    requires n > 0
    ensures GetOffsetAndLimit(map["offset" := Int(n), "limit" := Int(n)], Some(n), 0, 20) == Success((n, n))
    ensures GetOffsetAndLimit(map["limit" := Int(n + 1)], Some(n), 0, 20) == Failure(ValueError(CapMessage(n)))
    ensures GetOffsetAndLimit(map["offset" := Int(n + 1), "limit" := Int(n)], None, 0, 20) == Failure(ValueError(RangeMessage))
  {
  }

  // ---- get_start_and_end_time ----

  const OrderMessage := "时间范围错误，起始日期超过结束日期，请选择正确的起止日期"

  function SpanMessage(maxDeltaDays: int): string
  {
    "时间范围错误，间隔天数超出 " + PyInt.Render(maxDeltaDays) + " 天，请选择更小的间隔范围"
  }

  /** Microseconds in a day; `time.max` is the last of them. */
  const MicrosPerDay: nat := 86400000000
  const EndOfDay: nat := MicrosPerDay - 1

  /** A date (a day number), or a date and time of day in microseconds. */
  datatype Moment = Day(day: int) | At(day: int, micros: nat)

  /** Microseconds since day 0 at midnight. */
  function Instant(m: Moment): int
  {
    match m
    case Day(d) => d * MicrosPerDay
    case At(d, t) => d * MicrosPerDay + t
  }

  /** `data.get(key)`: absent and an explicit None are both None. */
  function GetDate(data: map<string, Option<int>>, key: string): Option<int>
  {
    if key in data then data[key] else None
  }

  /** `get_start_and_end_time(data, max_delta_days, prefix, is_datetime)` over
      dates given as day numbers. */
  function GetStartAndEndTime(data: map<string, Option<int>>, maxDeltaDays: int, prefix: string, isDatetime: bool)
    : (r: Result<(Option<Moment>, Option<Moment>), PyError>)
    ensures
      var start, end := GetDate(data, prefix + "from"), GetDate(data, prefix + "to");
      && (start.Some? && end.Some? && end.value < start.value ==> r == Failure(ValueError(OrderMessage)))
      && (start.Some? && end.Some? && start.value <= end.value && end.value - start.value > maxDeltaDays ==>
            r == Failure(ValueError(SpanMessage(maxDeltaDays))))
      && (r.Success? <==> !(start.Some? && end.Some? && (end.value < start.value || end.value - start.value > maxDeltaDays)))
      && (r.Success? ==> (r.value.0.Some? <==> start.Some?) && (r.value.1.Some? <==> end.Some?))
      && (r.Success? && start.Some? ==> r.value.0.value.day == start.value)
      && (r.Success? && end.Some? ==> r.value.1.value.day == end.value)
      && (r.Success? && isDatetime && start.Some? ==> r.value.0.value == At(start.value, 0))
      && (r.Success? && isDatetime && end.Some? ==> r.value.1.value == At(end.value, EndOfDay))
      && (r.Success? && !isDatetime && start.Some? ==> r.value.0.value == Day(start.value))
      && (r.Success? && !isDatetime && end.Some? ==> r.value.1.value == Day(end.value))
  {
    var start, end := GetDate(data, prefix + "from"), GetDate(data, prefix + "to");
    if start.Some? && end.Some? && end.value < start.value then Failure(ValueError(OrderMessage))
    else if start.Some? && end.Some? && end.value - start.value > maxDeltaDays then
      Failure(ValueError(SpanMessage(maxDeltaDays)))
    else if isDatetime then
      Success((if start.Some? then Some(At(start.value, 0)) else None,
               if end.Some? then Some(At(end.value, EndOfDay)) else None))
    else
      Success((if start.Some? then Some(Day(start.value)) else None,
               if end.Some? then Some(Day(end.value)) else None))
  }

  /** An accepted range is ordered, and as date-times it covers whole days:
      from the first microsecond of the start to the last of the end, at most
      `max_delta_days` + 1 days. */
  lemma StartAndEndOrdered(data: map<string, Option<int>>, maxDeltaDays: int, prefix: string, isDatetime: bool)
    requires GetStartAndEndTime(data, maxDeltaDays, prefix, isDatetime).Success?
    ensures
      var r := GetStartAndEndTime(data, maxDeltaDays, prefix, isDatetime).value;
      && (r.0.Some? && r.1.Some? ==> Instant(r.0.value) <= Instant(r.1.value))
      && (r.0.Some? && r.1.Some? && isDatetime ==>
            Instant(r.1.value) - Instant(r.0.value) < (maxDeltaDays + 1) * MicrosPerDay)
  {
    var r := GetStartAndEndTime(data, maxDeltaDays, prefix, isDatetime).value;
    if r.0.Some? && r.1.Some? {
      var s, e := r.0.value.day, r.1.value.day;
      assert s <= e && e - s <= maxDeltaDays;
      assert e * MicrosPerDay - s * MicrosPerDay == (e - s) * MicrosPerDay;
      assert (e - s) * MicrosPerDay <= maxDeltaDays * MicrosPerDay;
      assert (maxDeltaDays + 1) * MicrosPerDay == maxDeltaDays * MicrosPerDay + MicrosPerDay;
    }
  }

  /** A span of exactly `max_delta_days` is accepted, one day more is not, and
      the prefix selects the keys read. */
  lemma StartAndEndBoundaries(start: int, days: nat)
    ensures GetStartAndEndTime(map["from" := Some(start), "to" := Some(start + days)], days, "", false).Success?
    ensures GetStartAndEndTime(map["from" := Some(start), "to" := Some(start + days + 1)], days, "", false)
      == Failure(ValueError(SpanMessage(days)))
    ensures GetStartAndEndTime(map["created_from" := Some(start + 1), "to" := Some(start)], days, "created_", true)
      == Success((Some(At(start + 1, 0)), None))
  {
    assert "" + "from" == "from" && "" + "to" == "to";
    assert "created_" + "from" == "created_from";
    assert "created_" + "to" != "to";
  }
}
