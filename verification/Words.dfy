/** Sixty-four-bit unsigned words and the saturating operations the ledger uses on them. */
module Words {
  const U64_MAX: int := 0xffff_ffff_ffff_ffff

  type U64 = x: int | 0 <= x <= 0xffff_ffff_ffff_ffff

  function SaturatingSub(a: int, b: int): (r: int)
    ensures a >= b ==> r == a - b
    ensures a < b ==> r == 0
  {
    if a < b then 0 else a - b
  }

  function Saturate(x: nat): (r: U64)
    ensures r <= x && (x <= U64_MAX ==> r == x)
  {
    if x > U64_MAX then U64_MAX else x
  }
}
