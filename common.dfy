/** Identifiers, optional values, error results, and the two store-side helpers:
    decimal rendering of a count and allocation of a key that is not yet in use. */
module Common {

  /** Record identifiers are strings, as in the document store. */
  type Id = string

  datatype Option<+T> = None | Some(value: T)

  /** A thrown `Error` becomes `Err` carrying the error's message. */
  datatype Result<+T> = Ok(value: T) | Err(message: string)

  function DigitChar(d: nat): (c: char)
    requires d < 10
    ensures '0' <= c <= '9'
    ensures c as int - '0' as int == d
  {
    ('0' as int + d) as char
  }

  /** The number a string of decimal digits spells, most significant digit first. */
  function DigitsValue(s: string): nat
    decreases |s|
  {
    if |s| == 0 then 0
    else
      var d := s[|s| - 1] as int - '0' as int;
      DigitsValue(s[..|s| - 1]) * 10 + (if d < 0 then 0 else d)
  }

  /** Decimal rendering of a natural number, as a template literal prints it: digits only,
      without leading zeros, spelling `n`. */
  function NatToString(n: nat): (s: string)
    ensures |s| >= 1
    ensures forall i :: 0 <= i < |s| ==> '0' <= s[i] <= '9'
    ensures DigitsValue(s) == n
    ensures |s| > 1 ==> s[0] != '0'
    ensures n < 10 <==> |s| == 1
    decreases n
  {
    if n < 10 then [DigitChar(n)]
    else
      var high := NatToString(n / 10);
      var s := high + [DigitChar(n % 10)];
      assert s[..|s| - 1] == high;
      s
  }

  /** The store assigns every new record an id that no stored record has.
      The id chosen here is longer than every id in use. */
  method FreshKey(used: set<Id>) returns (k: Id)
    ensures k !in used
  {
    var longest: nat := 0;
    var rest := used;
    while rest != {}
      invariant rest <= used
      invariant forall s :: s in used && s !in rest ==> |s| <= longest
      decreases |rest|
    {
      var s :| s in rest;
      if |s| > longest {
        longest := |s|;
      }
      rest := rest - {s};
    }
    k := seq(longest + 1, _ => '#');
  }
}
