/** `dayTypeToRatio`: the share of a full working day each day type is worth. */
module DayTypeRatio {
  import opened DayType

  function DayTypeToRatio(d: DayType): (r: real)
    ensures 0.0 <= r <= 1.0
    ensures r == 1.0 <==> d == FullDay
    ensures r == 0.5 <==> d == HalfDay
    ensures r == 0.0 <==> d == Holiday || d == Weekend
  {
    match d
    case FullDay => 1.0
    case HalfDay => 0.5
    case Holiday => 0.0
    case Weekend => 0.0
  }
}
