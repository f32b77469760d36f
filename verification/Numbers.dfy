/** The larger and the smaller of two numbers. */
module Numbers {
  function Max(x: nat, y: nat): nat {
    if x < y then y else x
  }

  function Min(x: nat, y: nat): nat {
    if x < y then x else y
  }
}
