/**
 * The daily-clocking fan-out (`UserDailyClockingAdapter`): one legacy
 * monthly clocking resource becomes one new daily clocking per day listed
 * in its serialized details. The resolved user is a parameter (the parent
 * adapter's lookup is not part of this model) and the records are returned
 * instead of persisted.
 */
module UserDailyClocking {
  import opened Options
  import opened Dates

  /** The legacy monthly clocking (`Pontaj`), reduced to the fields the adapter reads. */
  datatype Pontaj = Pontaj(
    date: Date,
    adminValid: bool,
    lastAction: Option<DateTime>)

  /** One `day => hours` entry of the `hoursWorked` array. */
  datatype DayHours = DayHours(day: int, hours: real)

  /**
   * The unserialized details. `hoursWorked` is `None` when the key is
   * missing or `null`; a payload that does not unserialize to an array is
   * `None` one level up.
   */
  datatype Payload = Payload(hoursWorked: Option<seq<DayHours>>)

  /** The legacy `PontajResource`: the monthly clocking and its serialized details. */
  datatype PontajResource = PontajResource(pontaj: Pontaj, details: Option<Payload>)

  /** A new `UserDailyClocking`, with the three fields the adapter sets. */
  datatype DailyRecord<U> = DailyRecord(user: U, date: Date, validatedAt: Option<DateTime>)

  /** What `transform` returns, together with the records it would persist. */
  datatype TransformResult<U> = TransformResult(returned: bool, records: seq<DailyRecord<U>>)

  /**
   * `getDayAndHoursArray`: the `hoursWorked` entry of the decoded payload,
   * and no days at all when it is missing or the payload is malformed.
   */
  function GetDayAndHoursArray(details: Option<Payload>): (days: seq<DayHours>)
    ensures details.Some? && details.value.hoursWorked.Some? ==> days == details.value.hoursWorked.value
    ensures details.None? || details.value.hoursWorked.None? ==> days == []
  {
    match details
    case Some(Payload(Some(days))) => days
    case _ => []
  }

  /**
   * `getDateOfClocking`: the monthly date with its day replaced. A day that
   * exists in that month keeps the year and month; any other rolls over as
   * `setDate` does.
   */
  function GetDateOfClocking(monthly: Date, day: int): (r: Date)
    requires Valid(monthly)
    ensures Valid(r)
    ensures 1 <= day <= DaysInMonth(monthly.year, monthly.month) ==>
              r == Date(monthly.year, monthly.month, day)
    ensures day >= 1 ==> !Before(r, FirstOfMonth(monthly.year, monthly.month))
  {
    Normalize(monthly.year, monthly.month, day)
  }

  /**
   * `getValidationDate`: no validation unless an administrator validated the
   * month; then the last action's timestamp, or, without one, the monthly
   * date (at midnight) moved one month forward, so strictly after the month
   * it validates.
   *
   * The source builds the shift by adding 1 to the month's short name
   * (`format('M')`, e.g. `Mar`): PHP 7 reads the name as 0, so the modifier
   * comes out as one month; PHP 8 rejects the addition instead. The model
   * adds the one month that was meant.
   */
  function GetValidationDate(p: Pontaj): (r: Option<DateTime>)
    requires Valid(p.date)
    ensures r.None? <==> !p.adminValid
    ensures p.adminValid && p.lastAction.Some? ==> r == p.lastAction
    ensures p.adminValid && p.lastAction.None? ==>
              && r.Some? && r.value.secondOfDay == 0 && r.value.date == NextMonth(p.date)
              && Valid(r.value.date) && Before(p.date, r.value.date)
  {
    if p.adminValid then
      match p.lastAction
      case Some(stamp) => Some(stamp)
      case None => Some(DateTime(NextMonth(p.date), 0))
    else
      None
  }

  /**
   * The records `transform` produces, one per listed day and in the order
   * the days are listed, all for the same user and all with the same
   * validation date; none when the user did not resolve.
   */
  function DailyRecords<U>(res: PontajResource, user: Option<U>): (records: seq<DailyRecord<U>>)
    requires Valid(res.pontaj.date)
    ensures user.None? ==> records == []
    ensures user.Some? ==> |records| == |GetDayAndHoursArray(res.details)|
    ensures forall i :: 0 <= i < |records| ==>
              && user == Some(records[i].user)
              && records[i].date == GetDateOfClocking(res.pontaj.date, GetDayAndHoursArray(res.details)[i].day)
              && records[i].validatedAt == GetValidationDate(res.pontaj)
  {
    if user.None? then []
    else
      var days := GetDayAndHoursArray(res.details);
      seq(|days|, i requires 0 <= i < |days| =>
        DailyRecord(user.value, GetDateOfClocking(res.pontaj.date, days[i].day), GetValidationDate(res.pontaj)))
  }

  /**
   * `transform`, as the source's loop: for each listed day, a record with
   * the user, the monthly date with that day, and the validation date. It
   * always returns true, also when the user did not resolve and nothing is
   * produced. The monthly date is only read, never changed (the source
   * clones it per day).
   */
  method Transform<U>(res: PontajResource, user: Option<U>) returns (r: TransformResult<U>)
    requires Valid(res.pontaj.date)
    ensures r.returned
    ensures user.None? ==> r.records == []
    ensures user.Some? ==> |r.records| == |GetDayAndHoursArray(res.details)|
    ensures forall i :: 0 <= i < |r.records| ==>
              && user == Some(r.records[i].user)
              && r.records[i].date == GetDateOfClocking(res.pontaj.date, GetDayAndHoursArray(res.details)[i].day)
              && r.records[i].validatedAt == GetValidationDate(res.pontaj)
    ensures r.records == DailyRecords(res, user)
  {
    var pontaj := res.pontaj;
    var days := GetDayAndHoursArray(res.details);
    var records: seq<DailyRecord<U>> := [];
    if user.Some? {
      var k := 0;
      while k < |days|
        invariant 0 <= k <= |days|
        invariant |records| == k
        invariant forall i :: 0 <= i < k ==>
                    records[i] == DailyRecord(user.value, GetDateOfClocking(pontaj.date, days[i].day),
                                              GetValidationDate(pontaj))
      {
        var record := DailyRecord(user.value, GetDateOfClocking(pontaj.date, days[k].day), GetValidationDate(pontaj));
        records := records + [record];
        k := k + 1;
      }
    }
    r := TransformResult(true, records);
  }

  /** Every record of one call carries the same validation date. */
  lemma SharedValidation<U>(res: PontajResource, user: Option<U>, i: int, j: int)
    requires Valid(res.pontaj.date)
    requires 0 <= i < |DailyRecords(res, user)| && 0 <= j < |DailyRecords(res, user)|
    ensures DailyRecords(res, user)[i].validatedAt == DailyRecords(res, user)[j].validatedAt
    ensures DailyRecords(res, user)[i].user == DailyRecords(res, user)[j].user
  {
  }

  /** Two distinct days of one month give two distinct record dates. */
  lemma DistinctDaysDistinctDates<U>(res: PontajResource, user: Option<U>, i: int, j: int)
    requires Valid(res.pontaj.date)
    requires 0 <= i < |DailyRecords(res, user)| && 0 <= j < |DailyRecords(res, user)|
    requires 1 <= GetDayAndHoursArray(res.details)[i].day <= DaysInMonth(res.pontaj.date.year, res.pontaj.date.month)
    requires 1 <= GetDayAndHoursArray(res.details)[j].day <= DaysInMonth(res.pontaj.date.year, res.pontaj.date.month)
    requires GetDayAndHoursArray(res.details)[i].day != GetDayAndHoursArray(res.details)[j].day
    ensures DailyRecords(res, user)[i].date != DailyRecords(res, user)[j].date
    ensures DailyRecords(res, user)[i].date.year == res.pontaj.date.year
    ensures DailyRecords(res, user)[i].date.month == res.pontaj.date.month
  {
  }

  /** Days of the payload with the same day numbers, in the same order. */
  predicate SameDays(a: seq<DayHours>, b: seq<DayHours>) {
    |a| == |b| && forall i :: 0 <= i < |a| ==> a[i].day == b[i].day
  }

  /**
   * The hours are not carried over: resources that list the same days, with
   * any hours, produce the same records.
   */
  lemma HoursNotCopied<U>(res: PontajResource, other: PontajResource, user: Option<U>)
    requires Valid(res.pontaj.date)
    requires other.pontaj == res.pontaj
    requires SameDays(GetDayAndHoursArray(res.details), GetDayAndHoursArray(other.details))
    ensures DailyRecords(res, user) == DailyRecords(other, user)
  {
  }

  /**
   * Fan-out example: a validated March 2023 clocking with no last action
   * whose details list days 3 and 15 yields two records, dated the 3rd and
   * the 15th, each validated at 2023-04-01 00:00 for a clocking dated the
   * 1st.
   */
  lemma FanOutExample<U>(user: U)
    ensures DailyRecords(PontajResource(Pontaj(Date(2023, 3, 1), true, None),
                                        Some(Payload(Some([DayHours(3, 8.0), DayHours(15, 4.0)])))),
                         Some(user)) ==
            [DailyRecord(user, Date(2023, 3, 3), Some(DateTime(Date(2023, 4, 1), 0))),
             DailyRecord(user, Date(2023, 3, 15), Some(DateTime(Date(2023, 4, 1), 0)))]
  {
    var res := PontajResource(Pontaj(Date(2023, 3, 1), true, None),
                              Some(Payload(Some([DayHours(3, 8.0), DayHours(15, 4.0)]))));
    assert DaysInMonth(2023, 3) == 31 && DaysInMonth(2023, 4) == 30;
    assert GetValidationDate(res.pontaj) == Some(DateTime(Date(2023, 4, 1), 0));
  }

  /** A validated month with a last action is validated at exactly that timestamp. */
  lemma LastActionExample()
    ensures GetValidationDate(Pontaj(Date(2023, 3, 1), true, Some(DateTime(Date(2023, 3, 10), 14 * 3600)))) ==
            Some(DateTime(Date(2023, 3, 10), 14 * 3600))
  {
  }

  /** A malformed or key-less payload yields no records. */
  lemma NoDaysNoRecords<U>(res: PontajResource, user: Option<U>)
    requires Valid(res.pontaj.date)
    requires res.details.None? || res.details.value.hoursWorked.None?
    ensures DailyRecords(res, user) == []
  {
  }
}
