/** Calendar days and the relative date labels shown next to a post. The date library
    (`parseISO`, `format`, `new Date`) and the wall clock are not interpreted: they reach the
    model as the fields of a `Clock`. */
module Dates {
  import opened Wrappers

  /** A calendar day as an ordinal: consecutive days are consecutive integers, so ascending
      order of days is the order their `yyyy-MM-dd` keys sort in. */
  type Day = int

  /** The date library and the wall clock, supplied by the caller. */
  datatype Clock = Clock(
    // parses a timestamp and formats it as a `yyyy-MM-dd` key; None when it does not parse
    dayOf: string -> Option<Day>,
    // `Math.floor((now - date) / 86400000)`: whole days between the timestamp and now
    ageOf: string -> int,
    // `format(date, 'MMM d, yyyy')`
    longDate: string -> string,
    // `format(date, 'h:mm a')`
    timeOfDay: string -> string,
    // `new Date(s)` as a number, the key the CSV rows are sorted by; None for an invalid
    // date, whose number is NaN
    instantOf: string -> Option<int>)

  /** What a post's date column shows. `Unknown` is the label for a timestamp that does not
      parse; `OnDate` carries the absolute date text. */
  datatype DateLabel =
    | Today
    | Yesterday
    | DaysAgo(days: int)
    | WeeksAgo(weeks: int)
    | OnDate(text: string)
    | Unknown

  /** `formatRelativeDate`, given the whole number of days since the post and the absolute
      date text used for posts a month old or more. */
  function RelativeDate(diffDays: int, longDate: string): (r: DateLabel)
    ensures r == Today <==> diffDays == 0
    ensures r == Yesterday <==> diffDays == 1
    ensures r.DaysAgo? <==> diffDays < 7 && diffDays != 0 && diffDays != 1
    ensures r.DaysAgo? ==> r.days == diffDays
    ensures r.WeeksAgo? <==> 7 <= diffDays < 30
    ensures r.WeeksAgo? ==> 1 <= r.weeks <= 4 && 7 * r.weeks <= diffDays < 7 * r.weeks + 7
    ensures r.OnDate? <==> diffDays >= 30
    ensures r.OnDate? ==> r.text == longDate
    ensures r != Unknown
  {
    if diffDays == 0 then Today
    else if diffDays == 1 then Yesterday
    else if diffDays < 7 then DaysAgo(diffDays)
    else if diffDays < 30 then WeeksAgo(diffDays / 7)
    else OnDate(longDate)
  }
}
