/** The Room type converter that stores a `Date` column as a nullable `Long`
    and reads it back. */
module TypeConverter {
  import opened Wrappers
  import opened Calendar

  /** `fromDate`: `null` stays `null`; a date becomes its millisecond count. */
  function FromDate(date: Option<Date>): (r: Option<Long>)
    ensures r.None? <==> date.None?
    ensures date.Some? ==> r == Some(date.value.millis)
  {
    match date
    case None => None
    case Some(d) => Some(d.millis)
  }

  /** `toDate`: `null` stays `null`; a count becomes the date at that instant. */
  function ToDate(ms: Option<Long>): (r: Option<Date>)
    ensures r.None? <==> ms.None?
    ensures ms.Some? ==> r.Some? && r.value.millis == ms.value
  {
    match ms
    case None => None
    case Some(m) => Some(Date(m))
  }

  /** Storing a date column and reading it back gives the same date, `null` included. */
  lemma DateRoundTrip(date: Option<Date>)
    ensures ToDate(FromDate(date)) == date
  {
  }

  /** Reading a stored count and storing it again gives the same count, `null` included. */
  lemma MillisRoundTrip(ms: Option<Long>)
    ensures FromDate(ToDate(ms)) == ms
  {
  }

  /** Neither direction loses information: distinct inputs give distinct outputs. */
  lemma ConvertersInjective(a: Option<Date>, b: Option<Date>, m: Option<Long>, n: Option<Long>)
    ensures FromDate(a) == FromDate(b) ==> a == b
    ensures ToDate(m) == ToDate(n) ==> m == n
  {
    DateRoundTrip(a);
    DateRoundTrip(b);
    MillisRoundTrip(m);
    MillisRoundTrip(n);
  }
}
