/** The random draws of the generators. Only ranges are promised, so every property holds for every draw. */
module Rng {

  /** An integer between the bounds, both included. */
  method RandInt(lo: int, hi: int) returns (x: int)
    requires lo <= hi
    ensures lo <= x <= hi
  {
    x :| lo <= x <= hi;
  }

  method Choice<T>(options: seq<T>) returns (x: T)
    requires options != []
    ensures x in options
  {
    var i := RandInt(0, |options| - 1);
    x := options[i];
  }

  /** A comparison of a uniform draw with a probability: either answer may come back. */
  method Chance() returns (b: bool) {
    b := *;
  }
}
