/**
 * The unit the contribute form builds on submit: a fresh id derived from the
 * clock reading, the current unit as parent, and the entered texts.
 */
module Contribute {
  import opened Wrappers
  import opened Units

  /** A millisecond clock reading after the cast to `u64`. */
  newtype u64 = x: int | 0 <= x < 0x1_0000_0000_0000_0000

  /** Prefix of every contributed unit's id. */
  const UserPrefix: string := "user_"

  predicate IsDigit(c: char) {
    '0' <= c <= '9'
  }

  function DigitChar(d: nat): (c: char)
    requires d < 10
    ensures IsDigit(c) && c as int - '0' as int == d
  {
    ('0' as int + d) as char
  }

  /** Rust's `{}` formatting of an unsigned integer: decimal, no leading zeros. */
  function Decimal(n: nat): (s: string)
    ensures |s| >= 1
    ensures forall i :: 0 <= i < |s| ==> IsDigit(s[i])
    ensures s[0] == '0' <==> n == 0
    ensures n == 0 ==> |s| == 1
    decreases n
  {
    if n < 10 then [DigitChar(n)] else Decimal(n / 10) + [DigitChar(n % 10)]
  }

  /** The number a string of decimal digits denotes. */
  function DecimalValue(s: string): nat
    requires forall i :: 0 <= i < |s| ==> IsDigit(s[i])
    decreases |s|
  {
    if s == [] then 0
    else
      assert IsDigit(s[|s| - 1]);
      DecimalValue(s[..|s| - 1]) * 10 + (s[|s| - 1] as int - '0' as int)
  }

  /** Reading back a formatted number gives the number. */
  lemma {:induction false} DecimalRoundTrip(n: nat)
    ensures DecimalValue(Decimal(n)) == n
    decreases n
  {
    if n >= 10 {
      DecimalRoundTrip(n / 10);
      var s := Decimal(n);
      assert s[..|s| - 1] == Decimal(n / 10);
    }
  }

  /**
   * The unit submitted under `parent`: id `user_<millis>`, the given parent
   * and texts.
   */
  function NewUnit(parent: string, millis: u64, choiceText: string, storyText: string): (u: Unit)
    ensures u.parentId == Some(parent)
    ensures u.choiceText == choiceText && u.storyText == storyText
    ensures |u.id| > |UserPrefix| && u.id[..|UserPrefix|] == UserPrefix
    ensures forall i :: |UserPrefix| <= i < |u.id| ==> IsDigit(u.id[i])
    ensures DecimalValue(u.id[|UserPrefix|..]) == millis as nat
  {
    var digits := Decimal(millis as nat);
    DecimalRoundTrip(millis as nat);
    var id := UserPrefix + digits;
    assert id[|UserPrefix|..] == digits;
    Unit(id, Some(parent), choiceText, storyText)
  }

  /** Submissions at different clock readings get different ids. */
  lemma NewUnitIdsDiffer(p1: string, m1: u64, c1: string, s1: string,
                         p2: string, m2: u64, c2: string, s2: string)
    requires m1 != m2
    ensures NewUnit(p1, m1, c1, s1).id != NewUnit(p2, m2, c2, s2).id
  {
  }
}
