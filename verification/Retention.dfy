/** The retention windows a purge may be asked for, and its configured floor. */
module Retention {
  import opened Basics

  datatype RetentionWindow = OneWeek | OneMonth | ThreeMonths | SixMonths | OneYear

  function WindowSeconds(w: RetentionWindow): nat {
    match w
    case OneWeek => 7 * 86400
    case OneMonth => 30 * 86400
    case ThreeMonths => 90 * 86400
    case SixMonths => 180 * 86400
    case OneYear => 365 * 86400
  }

  function Horizon(w: RetentionWindow, now: real): real {
    now - WindowSeconds(w) as real
  }
}
