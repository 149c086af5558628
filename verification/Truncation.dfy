/** The integer arithmetic of the calendar: quotients truncate toward zero. */
module Truncation {

  function Div(value: int, divisor: int): int
    requires divisor > 0
  {
    if value >= 0 then value / divisor else -(-value / divisor)
  }

  function Mod(value: int, divisor: int): int
    requires divisor > 0
  {
    value - Div(value, divisor) * divisor
  }
}
