module Powers {
  function PowerOfTwo(n: nat): (p: nat)
    ensures p > 0
  {
    if n == 0 then 1 else 2 * PowerOfTwo(n - 1)
  }

  function Power(d: real, n: nat): real {
    if n == 0 then 1.0 else d * Power(d, n - 1)
  }
}
