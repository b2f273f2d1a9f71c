/**
 * The error every REST wrapper throws when a response is not ok:
 * the server's `message` when it is truthy, otherwise `Error: <status>`
 * with the HTTP status written in decimal, as a JavaScript template
 * literal renders a non-negative integer.
 */
module FetchError {
  import opened Wrappers
  import opened Truthiness

  predicate IsDigit(c: char) {
    '0' <= c <= '9'
  }

  predicate AllDigits(s: string) {
    forall i :: 0 <= i < |s| ==> IsDigit(s[i])
  }

  function DigitChar(d: nat): (c: char)
    requires d < 10
    ensures IsDigit(c) && c as int - '0' as int == d
  {
    (d + '0' as int) as char
  }

  /** `${n}` for a non-negative integer: its shortest decimal numeral. */
  function Decimal(n: nat): (s: string)
    ensures |s| >= 1 && AllDigits(s)
    ensures |s| > 1 ==> s[0] != '0'
    decreases n
  {
    if n < 10 then [DigitChar(n)] else Decimal(n / 10) + [DigitChar(n % 10)]
  }

  /** The number a string of decimal digits denotes. */
  function DecimalValue(s: string): nat
    requires AllDigits(s)
  {
    if s == [] then 0
    else DecimalValue(s[..|s| - 1]) * 10 + (s[|s| - 1] as int - '0' as int)
  }

  /** The decimal rendering loses nothing: reading it back gives the number. */
  lemma {:induction false} DecimalRoundTrip(n: nat)
    ensures DecimalValue(Decimal(n)) == n
    decreases n
  {
    if n >= 10 {
      DecimalRoundTrip(n / 10);
      var s := Decimal(n);
      assert s[..|s| - 1] == Decimal(n / 10);
    }
  }

  const StatusPrefix := "Error: "

  /** `error.message || \`Error: ${response.status}\`` */
  function ErrorMessage(message: Option<string>, status: nat): (m: string)
    ensures m != ""
    ensures Truthy(message) ==> m == message.value
    ensures !Truthy(message) ==> StatusPrefix <= m && m[|StatusPrefix|..] == Decimal(status)
  {
    if Truthy(message) then message.value else StatusPrefix + Decimal(status)
  }

  /** When the server gives no message, the status can be read back from the error. */
  lemma StatusRecoverable(message: Option<string>, status: nat)
    requires !Truthy(message)
    ensures var m := ErrorMessage(message, status);
            AllDigits(m[|StatusPrefix|..]) && DecimalValue(m[|StatusPrefix|..]) == status
  {
    var m := ErrorMessage(message, status);
    assert m[|StatusPrefix|..] == Decimal(status);
    DecimalRoundTrip(status);
  }
}
