/** Arithmetic that stops at the ends of an integer type. */
module Widths {

  function SaturatingAdd(a: nat, b: nat, max: nat): nat {
    if a + b <= max then a + b else max
  }

  function SaturatingSub(a: nat, b: nat): nat {
    if a >= b then a - b else 0
  }
}
