/** Numbers in decimal digits, and their order told from their texts. */
module Decimals {
  import opened Text

  /** `^[1-9][0-9]*$` */
  predicate Positive(s: string) {
    s != [] && AllDigits(s) && s[0] != '0'
  }

  function Value(s: string): nat
    requires AllDigits(s)
  {
    if s == [] then 0 else 10 * Value(s[..|s| - 1]) + (s[|s| - 1] as int - '0' as int)
  }

  /** Decimal digits without a leading zero. */
  predicate Plain(s: string) {
    s != [] && AllDigits(s) && (|s| == 1 || s[0] != '0')
  }

  /** Numbers are compared by length and then digit by digit. */
  predicate AtLeast(a: string, b: string) {
    |a| > |b| || (|a| == |b| && !Less(a, b))
  }

  function Tens(n: nat): nat {
    if n == 0 then 1 else 10 * Tens(n - 1)
  }

  lemma {:induction false} ValueBounds(s: string)
    requires AllDigits(s)
    ensures Value(s) < Tens(|s|)
    ensures s != [] && s[0] != '0' ==> Tens(|s| - 1) <= Value(s)
  {
    if s != [] {
      var n := |s| - 1;
      ValueBounds(s[..n]);
      if n > 0 {
        assert s[..n][0] == s[0];
        assert Tens(n) == 10 * Tens(n - 1);
      }
    }
  }

  lemma {:induction false} ValueFromHead(s: string)
    requires AllDigits(s) && s != []
    ensures Value(s) == (s[0] as int - '0' as int) * Tens(|s| - 1) + Value(s[1..])
  {
    var n := |s| - 1;
    if n > 0 {
      ValueFromHead(s[..n]);
      assert s[..n][1..] == s[1..][..n - 1] && s[1..][n - 1] == s[n] && s[..n][0] == s[0];
      assert Tens(n) == 10 * Tens(n - 1);
      HeadTimesTen(s[0] as int - '0' as int, Tens(n - 1), Value(s[1..][..n - 1]), s[n] as int - '0' as int);
    } else {
      assert s[..0] == [] && s[1..] == [];
    }
  }

  lemma HeadTimesTen(d: int, t: int, v: int, last: int)
    ensures 10 * (d * t + v) + last == d * (10 * t) + (10 * v + last)
  {}

  lemma {:induction false} SameLengthOrder(a: string, b: string)
    requires AllDigits(a) && AllDigits(b) && |a| == |b|
    ensures Less(a, b) <==> Value(a) < Value(b)
    decreases |a|
  {
    if a != [] {
      ValueFromHead(a);
      ValueFromHead(b);
      ValueBounds(a[1..]);
      ValueBounds(b[1..]);
      SameLengthOrder(a[1..], b[1..]);
      HeadDecides(a[0] as int - '0' as int, b[0] as int - '0' as int, Tens(|a| - 1), Value(a[1..]), Value(b[1..]));
    }
  }

  lemma HeadDecides(d: int, e: int, t: int, v: int, w: int)
    requires 0 <= v < t && 0 <= w < t
    ensures d < e ==> d * t + v < e * t + w
    ensures d == e ==> (d * t + v < e * t + w <==> v < w)
    ensures d > e ==> d * t + v > e * t + w
  {
    if d < e {
      assert (e - d) * t >= t by {
        Grows(e - d, t);
      }
      assert e * t == d * t + (e - d) * t;
    }
    if d > e {
      assert (d - e) * t >= t by {
        Grows(d - e, t);
      }
      assert d * t == e * t + (d - e) * t;
    }
  }

  lemma Grows(k: int, t: int)
    requires k >= 1 && t >= 0
    ensures k * t >= t
  {}

  lemma {:induction false} TensGrow(m: nat, n: nat)
    requires m <= n
    ensures 1 <= Tens(m) <= Tens(n)
  {
    if m < n {
      TensGrow(m, n - 1);
    } else if n > 0 {
      TensGrow(n - 1, n - 1);
    }
  }

  /** Numbers without leading zeros are as large as their texts are long, then as their digits. */
  lemma NumbersAreOrdered(a: string, b: string)
    requires Plain(a) && Plain(b)
    ensures Value(a) >= Value(b) <==> AtLeast(a, b)
  {
    ValueBounds(a);
    ValueBounds(b);
    if |a| > |b| {
      TensGrow(|b|, |a| - 1);
    } else if |a| < |b| {
      TensGrow(|a|, |b| - 1);
    } else {
      SameLengthOrder(a, b);
    }
  }

  /** The names an object lists first are the numbers up to 2^32 - 2. */
  lemma IndexKeys(key: string)
    ensures IsIndex(key) <==> Plain(key) && Value(key) <= Value("4294967294")
  {
    if Plain(key) {
      NumbersAreOrdered("4294967294", key);
    }
  }

  /** An object lists numbers first, as numbers, and then the other names, as texts. */
  lemma OwnKeyOrder(a: string, b: string)
    ensures Before(ByOwnKey, a, b) <==>
      if IsIndex(a) && IsIndex(b) then Value(a) < Value(b) else IsIndex(a) || (!IsIndex(b) && Less(a, b))
  {
    if IsIndex(a) && IsIndex(b) {
      IndexKeys(a);
      IndexKeys(b);
      NumbersAreOrdered(a, b);
      LessIsTotal(a, b);
      LessIsTotal(a, a);
    }
  }
}
