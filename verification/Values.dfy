/** Database values and rows, as the exporters see them, and the decimal text of an integer. */
module Values {
  import opened Characters
  import opened Common

  /**
   A value.  Floats, blobs and dates carry the text the library formats them to; a date may have
   none.  `finite` says that a float is neither a NaN nor an infinity.
   */
  datatype Value =
    | Null
    | Integer(number: int64)
    | Float(digits: string, finite: bool)
    | Boolean(flag: bool)
    | Text(text: string)
    | Blob(base64: string)
    | DateTime(iso: Option<string>)

  datatype Field = Field(name: Option<string>, value: Value)

  type Row = seq<Field>

  function OrEmpty(s: Option<string>): string {
    if s.Some? then s.value else ""
  }

  function Digit(n: nat): char
    requires n < 10
  {
    "0123456789"[n]
  }

  function NatText(n: nat): (s: string)
    ensures s != ""
  {
    if n < 10 then [Digit(n)] else NatText(n / 10) + [Digit(n % 10)]
  }

  /** printf() of an integer. */
  function IntText(n: int): string {
    if n < 0 then "-" + NatText(-n) else NatText(n)
  }

  function NatOf(s: string): nat {
    if s == "" then 0 else
      var last := s[|s| - 1];
      10 * NatOf(s[..|s| - 1]) + (if IsDigit(last) then last as nat - '0' as nat else 0)
  }

  /** The integer that a decimal text denotes. */
  function IntOf(s: string): int {
    if s != "" && s[0] == '-' then 0 - NatOf(s[1..]) else NatOf(s)
  }

  lemma {:induction false} NatTextIsDecimal(n: nat)
    ensures NatOf(NatText(n)) == n
    ensures forall c | c in NatText(n) :: IsDigit(c)
    ensures NatText(n)[0] == '0' ==> NatText(n) == "0"
    ensures n > 0 ==> NatText(n)[0] != '0'
  {
    if n >= 10 {
      NatTextIsDecimal(n / 10);
      assert NatText(n)[..|NatText(n)| - 1] == NatText(n / 10);
    } else {
      assert NatText(n) == [Digit(n)];
      assert NatOf([]) == 0 && NatText(n)[..0] == [];
    }
  }

  lemma IntTextIsDecimal(n: int)
    ensures IntOf(IntText(n)) == n
  {
    NatTextIsDecimal(if n < 0 then -n else n);
    if n < 0 {
      assert IntText(n)[1..] == NatText(-n);
    } else {
      assert IntText(n)[0] in NatText(n);
    }
  }
}
