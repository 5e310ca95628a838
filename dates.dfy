/**
 * Calendar dates as integer day keys. A date string "YYYY-MM-DD" (what an
 * HTML date input produces and what the backend's @JsonFormat pattern
 * yyyy-MM-dd reads) has the key y * 10000 + m * 100 + d, which orders dates
 * the way the calendar does. "Today" is always a parameter.
 */
module Dates {
  import opened Wrappers

  predicate IsDigit(c: char) {
    '0' <= c <= '9'
  }

  /** The value of the digit at position k. */
  function Digit(s: string, k: nat): (r: int)
    requires k < |s|
    ensures IsDigit(s[k]) ==> 0 <= r <= 9
  {
    s[k] as int - '0' as int
  }

  /** "YYYY-MM-DD": ten characters, dashes at positions 4 and 7, digits elsewhere. */
  predicate DateShaped(s: string) {
    && |s| == 10 && s[4] == '-' && s[7] == '-'
    && IsDigit(s[0]) && IsDigit(s[1]) && IsDigit(s[2]) && IsDigit(s[3])
    && IsDigit(s[5]) && IsDigit(s[6]) && IsDigit(s[8]) && IsDigit(s[9])
  }

  /** The day key of a well-formed "YYYY-MM-DD" string, None for anything else (an Invalid Date). */
  function DayKey(s: string): (r: Option<int>)
    ensures r.Some? ==> |s| == 10 && s[4] == '-' && s[7] == '-'
    ensures r.Some? ==> 101 <= r.value % 10000 <= 1231
  {
    if DateShaped(s) then
      var y := Digit(s, 0) * 1000 + Digit(s, 1) * 100 + Digit(s, 2) * 10 + Digit(s, 3);
      var m := Digit(s, 5) * 10 + Digit(s, 6);
      var d := Digit(s, 8) * 10 + Digit(s, 9);
      if 1 <= m <= 12 && 1 <= d <= 31 then Some(y * 10000 + m * 100 + d) else None
    else None
  }

  /** The JavaScript comparison `new Date(s) > today`: false whenever s is not a valid date. */
  predicate IsAfter(s: string, today: int) {
    var k := DayKey(s);
    k.Some? && k.value > today
  }
}
