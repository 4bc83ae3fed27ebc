/**
 * The few PHP and WordPress behaviours the plugin's decisions depend on.
 * Sanitisation (`sanitize_text_field`, `sanitize_email`) is taken to be the
 * identity, and date parsing is reduced to the shape `YYYY-MM-DD`.
 */
module Php {

  /** A request field as it reaches the plugin: missing, numeric, or text that `intval` reads as 0. */
  datatype Param = Absent | Numeric(n: int) | NonNumeric

  /** `intval` of a request field; a missing field is null, which `intval` maps to 0. */
  function IntVal(p: Param): int {
    match p
    case Absent => 0
    case Numeric(n) => n
    case NonNumeric => 0
  }

  /** PHP's `empty()` on a string: true for the empty string and for "0". */
  predicate IsEmpty(s: string) {
    s == "" || s == "0"
  }

  predicate IsDigit(c: char) {
    '0' <= c <= '9'
  }

  /**
   * Stand-in for `DateTime::createFromFormat('Y-m-d', s)` returning a date:
   * four digits, a dash, two digits, a dash, two digits.
   */
  predicate ParsesAsYmd(s: string) {
    && |s| == 10
    && s[4] == '-'
    && s[7] == '-'
    && forall i :: 0 <= i < 10 && i != 4 && i != 7 ==> IsDigit(s[i])
  }
}
