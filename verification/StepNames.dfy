/** The file names of journal steps: twenty decimal digits and a suffix. */
module StepNames {

  const LIMIT: nat := 0x1_0000_0000_0000_0000

  function Digit(d: nat): char
    requires d < 10
  {
    '0' + d as char
  }

  /** What the decimal formatter writes: no leading zero, and "0" for zero. */
  function Decimal(n: nat): (r: string)
    ensures |r| > 0
  {
    if n < 10 then [Digit(n)] else Decimal(n / 10) + [Digit(n % 10)]
  }

  function Power(k: nat): (r: nat)
    ensures r > 0
  {
    if k == 0 then 1 else 10 * Power(k - 1)
  }

  lemma {:induction false} DecimalFits(n: nat, k: nat)
    requires n < Power(k) && k > 0
    ensures |Decimal(n)| <= k
    decreases k
  {
    if n >= 10 {
      assert Power(1) == 10;
      assert n / 10 < Power(k - 1);
      DecimalFits(n / 10, k - 1);
    }
  }

  lemma LimitFits(n: nat)
    requires n < LIMIT
    ensures |Decimal(n)| <= 20
  {
    assert Power(5) == 100_000 by {
      assert Power(1) == 10 && Power(2) == 100 && Power(3) == 1000 && Power(4) == 10_000;
    }
    assert Power(10) == 10_000_000_000 by {
      assert Power(6) == 1_000_000 && Power(7) == 10_000_000 && Power(8) == 100_000_000 && Power(9) == 1_000_000_000;
    }
    assert Power(15) == 1_000_000_000_000_000 by {
      assert Power(11) == 100_000_000_000 && Power(12) == 1_000_000_000_000 && Power(13) == 10_000_000_000_000
          && Power(14) == 100_000_000_000_000;
    }
    assert Power(20) == 100_000_000_000_000_000_000 by {
      assert Power(16) == 10_000_000_000_000_000 && Power(17) == 100_000_000_000_000_000
          && Power(18) == 1_000_000_000_000_000_000 && Power(19) == 10_000_000_000_000_000_000;
    }
    DecimalFits(n, 20);
  }

  function Zeros(k: nat): (r: string)
    ensures |r| == k && forall i :: 0 <= i < k ==> r[i] == '0'
  {
    seq(k, _ => '0')
  }

  function StepName(n: nat): (r: string)
    requires n < LIMIT
    ensures |r| == 24 && r[20..] == ".bin"
  {
    LimitFits(n);
    Zeros(20 - |Decimal(n)|) + Decimal(n) + ".bin"
  }

  /** The value of a string of digits. */
  function Value(s: string): nat {
    if s == "" then 0 else 10 * Value(s[..|s| - 1]) + (if '0' <= s[|s| - 1] <= '9' then (s[|s| - 1] - '0') as nat else 0)
  }

  predicate AllDigits(s: string) { forall i :: 0 <= i < |s| ==> '0' <= s[i] <= '9' }

  lemma {:induction false} DecimalValue(n: nat)
    ensures AllDigits(Decimal(n)) && Value(Decimal(n)) == n
  {
    var s := Decimal(n);
    if n >= 10 {
      DecimalValue(n / 10);
      assert s[..|s| - 1] == Decimal(n / 10);
    } else {
      assert s[..0] == "";
    }
  }

  lemma {:induction false} PaddedValue(k: nat, s: string)
    ensures Value(Zeros(k) + s) == Value(s)
    decreases k + |s|
  {
    var t := Zeros(k) + s;
    if s == "" {
      if k > 0 {
        assert t[..|t| - 1] == Zeros(k - 1) + "";
        PaddedValue(k - 1, "");
      }
    } else {
      assert t[..|t| - 1] == Zeros(k) + s[..|s| - 1];
      PaddedValue(k, s[..|s| - 1]);
    }
  }

  /** Lexicographic order by character code, as directory listings sort names. */
  predicate Before(a: string, b: string) {
    exists k :: 0 <= k < |a| && k < |b| && a[..k] == b[..k] && a[k] < b[k]
  }

  /** Among digit strings of one length, smaller values come first. */
  lemma {:induction false} ValueOrders(a: string, b: string)
    requires |a| == |b| && AllDigits(a) && AllDigits(b)
    ensures Value(a) < Value(b) ==> Before(a, b)
    ensures Value(a) == Value(b) ==> a == b
    decreases |a|
  {
    if a != "" {
      var n := |a| - 1;
      var a', b' := a[..n], b[..n];
      ValueOrders(a', b');
      ValueOrders(b', a');
      assert a == a' + [a[n]] && b == b' + [b[n]];
      if Value(a) < Value(b) {
        if Before(a', b') {
          var k :| 0 <= k < n && a'[..k] == b'[..k] && a'[k] < b'[k];
          assert a[..k] == a'[..k] && b[..k] == b'[..k];
        } else {
          assert Value(a') == Value(b') && a[..n] == b[..n] && a[n] < b[n];
        }
      }
    }
  }

  lemma StepNameValue(n: nat)
    requires n < LIMIT
    ensures AllDigits(StepName(n)[..20]) && Value(StepName(n)[..20]) == n
  {
    LimitFits(n);
    DecimalValue(n);
    var k := 20 - |Decimal(n)|;
    assert StepName(n)[..20] == Zeros(k) + Decimal(n);
    PaddedValue(k, Decimal(n));
  }

  /** Step names are injective and sort as their sequence numbers, for every 64-bit sequence. */
  lemma StepNamesOrder(m: nat, n: nat)
    requires m < LIMIT && n < LIMIT
    ensures StepName(m) == StepName(n) <==> m == n
    ensures Before(StepName(m), StepName(n)) <==> m < n
  {
    StepNameValue(m);
    StepNameValue(n);
    var a, b := StepName(m), StepName(n);
    if m < n {
      ValueOrders(a[..20], b[..20]);
      Prefixed(a, b);
      NotBoth(a, b);
    } else if n < m {
      ValueOrders(b[..20], a[..20]);
      Prefixed(b, a);
      NotBoth(b, a);
    }
  }

  lemma Prefixed(a: string, b: string)
    requires |a| == 24 && |b| == 24 && Before(a[..20], b[..20])
    ensures Before(a, b)
  {
    var k :| 0 <= k < 20 && a[..20][..k] == b[..20][..k] && a[..20][k] < b[..20][k];
    assert a[..k] == a[..20][..k] && b[..k] == b[..20][..k];
  }

  lemma NotBoth(a: string, b: string)
    requires Before(a, b)
    ensures !Before(b, a)
  {
    var j :| 0 <= j < |a| && j < |b| && a[..j] == b[..j] && a[j] < b[j];
    assert forall k :: j < k < |a| && k < |b| ==> a[..k][j] == a[j] && b[..k][j] == b[j];
    assert forall k :: 0 <= k < j ==> a[..j][k] == a[k] && b[..j][k] == b[k];
  }
}
