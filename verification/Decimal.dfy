/** Numbers printed in decimal. */
module Decimal {

  predicate IsDigit(c: char) {
    '0' <= c <= '9'
  }

  function Dec(n: nat): (s: string)
    ensures s != "" && forall c :: c in s ==> IsDigit(c)
  {
    if n < 10 then ["0123456789"[n]] else Dec(n / 10) + ["0123456789"[n % 10]]
  }

  lemma {:induction false} DecTellsApart(m: nat, n: nat)
    requires Dec(m) == Dec(n)
    ensures m == n
    decreases m
  {
    var s, t := Dec(m), Dec(n);
    if m >= 10 && n >= 10 {
      assert s[..|s| - 1] == Dec(m / 10) && t[..|t| - 1] == Dec(n / 10);
      DecTellsApart(m / 10, n / 10);
    }
    assert s[|s| - 1] == "0123456789"[m % 10] && t[|t| - 1] == "0123456789"[n % 10];
  }

  /** The number that a text of digits denotes. */
  function Value(s: string): nat
    requires forall c :: c in s ==> IsDigit(c)
  {
    if s == "" then 0
    else
      assert IsDigit(s[|s| - 1]);
      10 * Value(s[..|s| - 1]) + (s[|s| - 1] as int - '0' as int)
  }

  lemma {:induction false} ValueOfDec(n: nat)
    ensures Value(Dec(n)) == n
  {
    var s, d := Dec(n), n % 10;
    assert "0123456789"[d] as int == '0' as int + d;
    if n >= 10 {
      assert s[..|s| - 1] == Dec(n / 10);
      ValueOfDec(n / 10);
    } else {
      assert s[..0] == "";
    }
  }
}

/** Texts joined by a colon. */
module Colons {

  lemma NoColonBeyond(a: string, x: string, i: nat)
    requires ':' !in x && i < |a + ":" + x| && (a + ":" + x)[i] == ':'
    ensures i <= |a|
  {
    var s := a + ":" + x;
    forall j | |a| < j < |s| ensures s[j] != ':' { assert s[j] == x[j - |a| - 1] && s[j] in x; }
  }

  lemma LastColon(a: string, x: string, b: string, y: string)
    requires ':' !in x && ':' !in y && a + ":" + x == b + ":" + y
    ensures a == b && x == y
  {
    var s := a + ":" + x;
    assert s[|a|] == ':' && s[|b|] == ':';
    NoColonBeyond(a, x, |b|);
    NoColonBeyond(b, y, |a|);
    assert s[..|a|] == a && s[..|b|] == b;
    assert s[|a| + 1..] == x && s[|b| + 1..] == y;
  }
}
