/** The identifier a new chat gets: "chat-" followed by the millisecond
    timestamp written in decimal, as a template string renders a non-negative
    integer. */
module Naming {

  const Prefix := "chat-"

  predicate IsDigit(c: char) {
    '0' <= c <= '9'
  }

  function DigitChar(d: nat): (c: char)
    requires d < 10
    ensures IsDigit(c)
  {
    ('0' as int + d) as char
  }

  function DigitValue(c: char): (d: nat)
    requires IsDigit(c)
    ensures d < 10 && DigitChar(d) == c
  {
    c as int - '0' as int
  }

  /** Decimal rendering of a non-negative integer: digits only, at least one,
      and no leading zero unless the number is zero. */
  function Decimal(n: nat): (s: string)
    ensures |s| >= 1
    ensures forall i :: 0 <= i < |s| ==> IsDigit(s[i])
    ensures |s| > 1 ==> s[0] != '0'
    ensures n == 0 <==> s == "0"
  {
    if n < 10 then [DigitChar(n)] else Decimal(n / 10) + [DigitChar(n % 10)]
  }

  /** Reads a string of digits back as a number. */
  function ParseDecimal(s: string): nat
    requires forall i :: 0 <= i < |s| ==> IsDigit(s[i])
  {
    if s == [] then 0 else ParseDecimal(s[..|s| - 1]) * 10 + DigitValue(s[|s| - 1])
  }

  /** Reading back a rendered number gives the number. */
  lemma {:induction false} ParseDecimalInverts(n: nat)
    ensures ParseDecimal(Decimal(n)) == n
  {
    var s := Decimal(n);
    if n >= 10 {
      assert s[..|s| - 1] == Decimal(n / 10);
      ParseDecimalInverts(n / 10);
    }
  }

  /** `chat-${Date.now()}` with the clock reading given as `timestamp`. */
  function NewThreadId(timestamp: nat): (id: string)
    ensures |id| > |Prefix| && id[..|Prefix|] == Prefix
    ensures forall i :: |Prefix| <= i < |id| ==> IsDigit(id[i])
    ensures |id| > |Prefix| + 1 ==> id[|Prefix|] != '0'
    ensures ParseDecimal(id[|Prefix|..]) == timestamp
  {
    var digits := Decimal(timestamp);
    ParseDecimalInverts(timestamp);
    assert (Prefix + digits)[|Prefix|..] == digits;
    Prefix + digits
  }

  /** Distinct clock readings give distinct thread ids. */
  lemma NewThreadIdInjective(a: nat, b: nat)
    ensures NewThreadId(a) == NewThreadId(b) ==> a == b
  {
    if NewThreadId(a) == NewThreadId(b) {
      ParseDecimalInverts(a);
      ParseDecimalInverts(b);
    }
  }
}
