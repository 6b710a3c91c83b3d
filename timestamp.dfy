/**
 * The page's history timestamp, `formatTimestamp`: "Sun 21 Jul, 11:26 PM".
 * The clock reading is a parameter; `Date` holds the fields the page reads
 * from a JavaScript `Date` (weekday, day of month, month, hours, minutes).
 */
module Timestamp {
  import opened Text

  datatype Date = Date(weekday: nat, day: nat, month: nat, hours: nat, minutes: nat)

  /** The ranges JavaScript's `Date` getters return. */
  predicate ValidDate(d: Date) {
    d.weekday < 7 && 1 <= d.day <= 31 && d.month < 12 && d.hours < 24 && d.minutes < 60
  }

  const DayNames: seq<string> := ["Sun", "Mon", "Tue", "Wed", "Thu", "Fri", "Sat"]
  const MonthNames: seq<string> := ["Jan", "Feb", "Mar", "Apr", "May", "Jun",
                                    "Jul", "Aug", "Sep", "Oct", "Nov", "Dec"]

  /** The hour on a 12-hour clock: `hours % 12`, with 0 shown as 12. */
  function TwelveHour(hours: nat): (h: nat)
    requires hours < 24
    ensures 1 <= h <= 12
    ensures h % 12 == hours % 12
  {
    var h := hours % 12;
    if h == 0 then 12 else h
  }

  /** "PM" from noon on, "AM" before. */
  function Meridiem(hours: nat): string {
    if hours >= 12 then "PM" else "AM"
  }

  /** Reads a 12-hour clock reading back as the hour of the day. */
  function TwentyFourHour(h: nat, meridiem: string): nat {
    h % 12 + if meridiem == "PM" then 12 else 0
  }

  /** The 12-hour reading together with its meridiem determines the hour of the day. */
  lemma TwelveHourRoundTrip(hours: nat)
    requires hours < 24
    ensures TwentyFourHour(TwelveHour(hours), Meridiem(hours)) == hours
  {
  }

  /** `minutes.toString().padStart(2, '0')`: always two digits, reading back as the minutes. */
  function PadMinutes(minutes: nat): (r: string)
    requires minutes < 60
    ensures |r| == 2 && AllDigits(r)
    ensures ParseDecimal(r) == minutes
  {
    var d := Decimal(minutes);
    if |d| < 2 then
      var r := "0" + d;
      assert r[..1] == "0";
      r
    else d
  }

  function FormatTimestamp(d: Date): (r: string)
    requires ValidDate(d)
    ensures |r| >= 4 && r[..4] == DayNames[d.weekday] + " "
    ensures r[|r| - 3..] == " " + Meridiem(d.hours)
  {
    DayNames[d.weekday] + " " + Decimal(d.day) + " " + MonthNames[d.month] + ", "
      + Decimal(TwelveHour(d.hours)) + ":" + PadMinutes(d.minutes) + " " + Meridiem(d.hours)
  }
}
