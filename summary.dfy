/** The summary line the harness prints when a run ends: the tally of examples
    and failures, written in decimal. */
module Summary {

  predicate IsDigit(c: char) {
    '0' <= c <= '9'
  }

  predicate AllDigits(s: string) {
    forall i :: 0 <= i < |s| ==> IsDigit(s[i])
  }

  function DigitChar(d: nat): (c: char)
    requires d < 10
    ensures IsDigit(c) && c as int - '0' as int == d
  {
    (d + '0' as int) as char
  }

  /** The decimal rendering of `n`, as `{}` formats an unsigned integer:
      no sign, no leading zeros, "0" for zero. */
  function NatToString(n: nat): (s: string)
    ensures |s| >= 1 && AllDigits(s)
    ensures |s| > 1 ==> s[0] != '0'
    decreases n
  {
    if n < 10 then [DigitChar(n)] else NatToString(n / 10) + [DigitChar(n % 10)]
  }

  /** The value of a string of decimal digits, most significant first. */
  function ParseNat(s: string): nat
    requires AllDigits(s)
    decreases |s|
  {
    if s == [] then 0 else 10 * ParseNat(s[..|s| - 1]) + (s[|s| - 1] as int - '0' as int)
  }

  /** Rendering a count loses nothing: reading the digits back gives the count. */
  lemma {:induction false} ParseNatToString(n: nat)
    ensures ParseNat(NatToString(n)) == n
    decreases n
  {
    if n >= 10 {
      var prefix := NatToString(n / 10);
      var s := prefix + [DigitChar(n % 10)];
      assert s[..|s| - 1] == prefix;
      ParseNatToString(n / 10);
    }
  }

  /** Two counts with the same rendering are the same count. */
  lemma NatToStringInjective(m: nat, n: nat)
    requires NatToString(m) == NatToString(n)
    ensures m == n
  {
    ParseNatToString(m);
    ParseNatToString(n);
  }

  /** The text of the summary line printed by `quit` (src/lib.rs:182-191):
      the failure form when any test failed, the success form otherwise.
      The colour codes and the two leading newlines are not part of it. */
  function SummaryLine(passes: nat, failures: nat): (line: string)
    ensures |line| > 1
  {
    var total := passes + failures;
    if failures > 0 then
      NatToString(total) + " examples, " + NatToString(failures) + " failures"
    else
      NatToString(passes) + " examples, 0 failures"
  }

  /** Both branches of `quit` print the same shape: the total number of
      examples, then the number of failures. */
  lemma SummaryShape(passes: nat, failures: nat)
    ensures SummaryLine(passes, failures)
         == NatToString(passes + failures) + " examples, " + NatToString(failures) + " failures"
  {
    if failures == 0 {
      var digits := NatToString(passes);
      assert NatToString(0) == "0";
      assert " examples, 0 failures" == " examples, " + "0" + " failures";
      assert digits + " examples, 0 failures" == digits + " examples, " + "0" + " failures";
    }
  }

  /** A digit string followed by text that starts with a non-digit splits
      in exactly one way. */
  lemma DigitPrefixUnique(a: string, x: string, b: string, y: string)
    requires AllDigits(a) && AllDigits(b)
    requires |x| > 0 && |y| > 0 && !IsDigit(x[0]) && !IsDigit(y[0])
    requires a + x == b + y
    ensures a == b && x == y
  {
    var s := a + x;
    assert s[|a|] == x[0];
    assert s[|b|] == y[0];
    assert forall i :: 0 <= i < |a| ==> s[i] == a[i];
    assert forall i :: 0 <= i < |b| ==> s[i] == b[i];
    assert |a| <= |b|;
    assert |b| <= |a|;
    assert a == s[..|a|] == b;
    assert x == s[|a|..] == y;
  }

  /** The summary line determines the run's tally: the total number of
      examples and the number of failures can be read back from it. */
  lemma SummaryDetermines(p1: nat, f1: nat, p2: nat, f2: nat)
    requires SummaryLine(p1, f1) == SummaryLine(p2, f2)
    ensures p1 + f1 == p2 + f2 && f1 == f2
  {
    SummaryShape(p1, f1);
    SummaryShape(p2, f2);
    TallySplit(NatToString(p1 + f1), NatToString(f1), NatToString(p2 + f2), NatToString(f2));
    NatToStringInjective(p1 + f1, p2 + f2);
    NatToStringInjective(f1, f2);
  }

  /** The two numbers of a line shaped like the summary can be cut out of it. */
  lemma TallySplit(a1: string, b1: string, a2: string, b2: string)
    requires AllDigits(a1) && AllDigits(b1) && AllDigits(a2) && AllDigits(b2)
    requires a1 + " examples, " + b1 + " failures" == a2 + " examples, " + b2 + " failures"
    ensures a1 == a2 && b1 == b2
  {
    var rest1 := " examples, " + (b1 + " failures");
    var rest2 := " examples, " + (b2 + " failures");
    assert a1 + rest1 == a1 + " examples, " + b1 + " failures";
    assert a2 + rest2 == a2 + " examples, " + b2 + " failures";
    DigitPrefixUnique(a1, rest1, a2, rest2);
    assert b1 + " failures" == rest1[11..];
    assert b2 + " failures" == rest2[11..];
    DigitPrefixUnique(b1, " failures", b2, " failures");
  }

  /** The summary worked out by hand for five passing examples. */
  lemma SummaryAllPassed()
    ensures SummaryLine(5, 0) == "5 examples, 0 failures"
  {
    assert NatToString(5) == "5";
    assert "5" + " examples, 0 failures" == "5 examples, 0 failures";
  }

  /** The summary worked out by hand for three passes and two failures. */
  lemma SummaryWithFailures()
    ensures SummaryLine(3, 2) == "5 examples, 2 failures"
  {
    assert NatToString(5) == "5";
    assert NatToString(2) == "2";
    assert "5" + " examples, " + "2" + " failures" == "5 examples, 2 failures";
  }
}
