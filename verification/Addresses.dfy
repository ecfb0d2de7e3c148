/** Wallet addresses as smart contracts accept them (`validate_address` in src/smart_contracts.rs). */
module Addresses {
  import opened Wrappers

  type Address = string

  const MIN_ADDRESS_LENGTH := 32
  const MAX_ADDRESS_LENGTH := 128

  datatype AddressError = Empty | ZeroAddress | TooShort | TooLong | InvalidCharacters

  predicate AllowedChar(c: char) {
    'a' <= c <= 'z' || 'A' <= c <= 'Z' || '0' <= c <= '9' || c == '_' || c == '-'
  }

  function CheckAddress(a: Address): (r: Option<AddressError>)
    ensures r.None? <==> MIN_ADDRESS_LENGTH <= |a| <= MAX_ADDRESS_LENGTH
                         && forall i :: 0 <= i < |a| ==> AllowedChar(a[i])
  {
    if a == "" then Some(Empty)
    else if a == "0" then Some(ZeroAddress)
    else if |a| < MIN_ADDRESS_LENGTH then Some(TooShort)
    else if |a| > MAX_ADDRESS_LENGTH then Some(TooLong)
    else if exists i :: 0 <= i < |a| && !AllowedChar(a[i]) then Some(InvalidCharacters)
    else None
  }

  /** The first address of a list that is refused. */
  function CheckAll(addresses: seq<Address>): (r: Option<AddressError>)
    ensures r.None? <==> forall i :: 0 <= i < |addresses| ==> CheckAddress(addresses[i]).None?
  {
    if addresses == [] then None
    else if CheckAddress(addresses[0]).Some? then CheckAddress(addresses[0])
    else
      var r := CheckAll(addresses[1..]);
      assert addresses == [addresses[0]] + addresses[1..];
      r
  }
}
