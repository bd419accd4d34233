/** Digits, decimal and hexadecimal. */
module Characters {
  import opened Common

  predicate IsDigit(c: char) {
    '0' <= c <= '9'
  }

  /** The value of a hexadecimal digit, in either case. */
  function HexValue(c: char): Option<nat> {
    if IsDigit(c) then Some(c as nat - '0' as nat)
    else if 'a' <= c <= 'f' then Some(c as nat - 'a' as nat + 10)
    else if 'A' <= c <= 'F' then Some(c as nat - 'A' as nat + 10)
    else None
  }

  function LowerHex(n: nat): char
    requires n < 16
  {
    "0123456789abcdef"[n]
  }

  function UpperHex(n: nat): char
    requires n < 16
  {
    "0123456789ABCDEF"[n]
  }
}
