/** The L2 gas price that follows L1, cut to three significant digits (gasprice/follower.go). */
module GasPrice {
  import opened Wrappers

  const TWO_64: nat := 0x1_0000_0000_0000_0000

  type Digit = d: nat | d < 10

  /** A number's decimal string. */
  function Decimal(n: nat): (s: seq<Digit>)
    ensures s != []
  {
    if n < 10 then [n] else Decimal(n / 10) + [n % 10]
  }

  /** The number a decimal string stands for. */
  function Parse(s: seq<Digit>): nat {
    if s == [] then 0 else 10 * Parse(s[..|s| - 1]) + s[|s| - 1]
  }

  function Zeros(n: nat): (s: seq<Digit>)
    ensures |s| == n
  {
    seq(n, _ => 0)
  }

  function Pow10(n: nat): (p: nat)
    ensures p >= 1
  {
    if n == 0 then 1 else 10 * Pow10(n - 1)
  }

  lemma {:induction false} ParseDecimal(n: nat)
    ensures Parse(Decimal(n)) == n
  {
    if n >= 10 {
      ParseDecimal(n / 10);
      assert Decimal(n)[..|Decimal(n)| - 1] == Decimal(n / 10);
    }
  }

  /** Cutting the string to its first three digits and padding it back with zeros. */
  function Truncate(v: nat): nat {
    var s := Decimal(v);
    if |s| > 3 then Parse(s[..3] + Zeros(|s| - 3)) else v
  }

  lemma DigitCount(v: nat)
    ensures |Decimal(v)| > 3 <==> v >= 1000
    ensures |Decimal(v)| >= 3 <==> v >= 100
  {
    if v >= 1000 {
      DigitCount(v / 10);
    } else if v >= 10 {
      assert |Decimal(v)| == |Decimal(v / 10)| + 1;
      assert v / 10 >= 10 ==> |Decimal(v / 10)| == |Decimal(v / 10 / 10)| + 1;
    }
  }

  lemma {:induction false} TruncateStep(v: nat)
    requires v >= 1000
    ensures Truncate(v) == 10 * Truncate(v / 10)
  {
    var s, t := Decimal(v), Decimal(v / 10);
    DigitCount(v);
    DigitCount(v / 10);
    assert s == t + [v % 10] && |t| >= 3;
    var cut := s[..3] + Zeros(|s| - 3);
    assert s[..3] == t[..3];
    assert cut[..|cut| - 1] == t[..3] + Zeros(|t| - 3);
    assert cut[|cut| - 1] == 0;
    if |t| == 3 {
      assert t[..3] + Zeros(0) == t;
      ParseDecimal(v / 10);
    }
  }

  ghost predicate MultipleOf(t: nat, p: nat) {
    exists k: nat :: t == k * p
  }

  /** The cut price is the price rounded down to a multiple of 10^(digits - 3). */
  lemma {:induction false} TruncateRoundsDown(v: nat)
    requires v >= 1000
    ensures |Decimal(v)| > 3
    ensures var p, t := Pow10(|Decimal(v)| - 3), Truncate(v);
            MultipleOf(t, p) && t <= v < t + p && 100 * p <= t
  {
    DigitCount(v);
    DigitCount(v / 10);
    TruncateStep(v);
    var q := v / 10;
    assert |Decimal(v)| == |Decimal(q)| + 1;
    var p', t' := Pow10(|Decimal(q)| - 3), Truncate(q);
    if q >= 1000 {
      TruncateRoundsDown(q);
      var k: nat :| t' == k * p';
      assert 10 * t' == k * (10 * p');
    } else {
      assert t' == q && p' == 1;
      assert 10 * q == q * (10 * p');
    }
  }

  /** Cutting never increases the price and loses less than a hundredth of it. */
  lemma TruncateError(v: nat)
    ensures Truncate(v) <= v
    ensures v >= 1000 ==> 100 * (v - Truncate(v)) < Truncate(v)
    ensures v < 1000 ==> Truncate(v) == v
  {
    DigitCount(v);
    if v >= 1000 {
      TruncateRoundsDown(v);
    }
  }

  /** Cutting keeps the order of prices. */
  lemma {:induction false} TruncateMonotone(v: nat, w: nat)
    requires v <= w
    ensures Truncate(v) <= Truncate(w)
  {
    TruncateError(v);
    TruncateError(w);
    if v >= 1000 {
      TruncateStep(v);
      TruncateStep(w);
      TruncateMonotone(v / 10, w / 10);
    } else if w >= 1000 {
      TruncateRoundsDown(w);
      TruncateStep(w);
    }
  }

  /** The price before it is cut. */
  function Clamp(scaled: nat, low: nat, high: nat): nat {
    var atLeast := if low > scaled then low else scaled;
    if high > 0 && atLeast > high then high else atLeast
  }

  /** Prices that fit 64 bits are stored whole. */
  lemma StoredWhole(v: nat)
    ensures Truncate(v) % TWO_64 <= Truncate(v) <= v
    ensures v < TWO_64 ==> Truncate(v) % TWO_64 == Truncate(v)
  {
    TruncateError(v);
  }

  /** `scaled` is the L1 price times the configured factor. `None` means the stored price is left alone. */
  method UpdateGasPriceAvg(l1GasPrice: nat, scaled: nat, defaultGasPriceWei: nat, maxGasPriceWei: nat)
    returns (stored: Option<nat>)
    ensures stored.None? <==> l1GasPrice == 0
    ensures var v := Clamp(scaled, defaultGasPriceWei, maxGasPriceWei);
            stored.Some? ==>
              && stored.value == Truncate(v) % TWO_64
              && (v < TWO_64 ==> stored.value == Truncate(v))
              && (maxGasPriceWei > 0 ==> stored.value <= maxGasPriceWei)
    ensures stored.Some? && scaled < TWO_64 && defaultGasPriceWei < TWO_64 ==>
              stored.value == Truncate(
                if 0 < maxGasPriceWei < scaled || 0 < maxGasPriceWei < defaultGasPriceWei then maxGasPriceWei
                else if scaled >= defaultGasPriceWei then scaled
                else defaultGasPriceWei)
    ensures stored.Some? && scaled < TWO_64 && defaultGasPriceWei < TWO_64
            && (maxGasPriceWei == 0 || defaultGasPriceWei <= maxGasPriceWei) ==>
              stored.value >= Truncate(defaultGasPriceWei)
  {
    if l1GasPrice == 0 {
      return None;
    }
    var result := scaled;
    if defaultGasPriceWei > result {
      result := defaultGasPriceWei;
    }
    if maxGasPriceWei > 0 && result > maxGasPriceWei {
      result := maxGasPriceWei;
    }
    StoredWhole(result);
    if defaultGasPriceWei <= result {
      TruncateMonotone(defaultGasPriceWei, result);
    }
    var value := Decimal(result);
    var truncateValue := result;
    if |value| > 3 {
      truncateValue := Parse(value[..3] + Zeros(|value| - 3));
    }
    return Some(truncateValue % TWO_64);
  }
}
