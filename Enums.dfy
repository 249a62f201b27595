/**
  The kinds of UI component a scaffolded field can be. A C# enum is an `int`
  underneath, so a value outside the named members is representable; the
  migration generator has a branch for such values.
*/
module Enums {

  newtype ComponentType = x: int | -0x8000_0000 <= x < 0x8000_0000

  const DateTime: ComponentType := 1
  const Text: ComponentType := 2
  const Number: ComponentType := 3
  const Check: ComponentType := 4
  const Money: ComponentType := 5
  const LookUp: ComponentType := 6
  const Integer: ComponentType := 7

  /** One of the seven named members. */
  predicate IsNamed(t: ComponentType)
  {
    DateTime <= t <= Integer
  }
}
