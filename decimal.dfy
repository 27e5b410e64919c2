/** Base-10 unsigned integers as text: the behaviour of Go's
    `strconv.ParseUint(s, 10, 64)` that the rate parser relies on, and the
    formatting the server uses for the numbers it sends. */
module Decimal {
  import opened Common

  predicate IsDigit(c: char)
  {
    '0' <= c <= '9'
  }

  predicate AllDigits(s: string)
  {
    forall i | 0 <= i < |s| :: IsDigit(s[i])
  }

  /** The value of a digit string read most significant digit first. */
  function Value(s: string): nat
    requires AllDigits(s)
  {
    if s == [] then 0 else 10 * Value(s[..|s| - 1]) + (s[|s| - 1] as int - '0' as int)
  }

  /** `strconv.ParseUint(s, 10, 64)`: succeeds exactly on a non-empty string of
      ASCII digits (no sign, no separators; leading zeros allowed) whose value
      fits in 64 bits. */
  function ParseUint(s: string): Option<U64>
  {
    if s != [] && AllDigits(s) && Value(s) <= MaxU64 then Some(Value(s)) else None
  }

  function Digit(d: nat): (c: char)
    requires d < 10
    ensures IsDigit(c) && c as int - '0' as int == d
  {
    ('0' as int + d) as char
  }

  /** The shortest decimal spelling of `n`. */
  function Format(n: nat): (s: string)
    ensures s != [] && AllDigits(s)
  {
    if n < 10 then [Digit(n)] else Format(n / 10) + [Digit(n % 10)]
  }

  lemma {:induction false} ValueOfFormat(n: nat)
    ensures Value(Format(n)) == n
  {
    if n >= 10 {
      var s := Format(n);
      assert s[..|s| - 1] == Format(n / 10);
      ValueOfFormat(n / 10);
    }
  }

  /** Parsing a formatted number gives it back exactly when it fits in 64 bits;
      anything larger is rejected. */
  lemma ParseFormat(n: nat)
    ensures ParseUint(Format(n)) == if n <= MaxU64 then Some(n) else None
  {
    ValueOfFormat(n);
  }

  /** Strings Go's parser refuses: the empty string (an absent header), a
      sign, and a non-digit. */
  lemma ParseUintRejects()
    ensures ParseUint("") == None
    ensures ParseUint("-1") == None
    ensures ParseUint("+1") == None
    ensures ParseUint("invalid") == None
  {
    assert !IsDigit("-1"[0]);
    assert !IsDigit("+1"[0]);
    assert !IsDigit("invalid"[0]);
  }
}
