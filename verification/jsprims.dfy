/** The few JavaScript behaviours the staking code leans on, stated as
    values: `null`, numbers that may be NaN, truthiness of a nullable
    number, `parseInt` on a digit prefix, and lower-casing of addresses. */
module JsPrims {

  /** `null` versus a present value. */
  datatype Option<+T> = None | Some(value: T)

  /** A JavaScript number as the staking code produces it: an integer
      (timestamps in milliseconds, differences of them) or NaN. */
  datatype Num = Finite(n: int) | NaN

  /** `a - b`; NaN on either side gives NaN. */
  function Sub(a: Num, b: Num): (r: Num)
    ensures r.Finite? <==> a.Finite? && b.Finite?
    ensures r.Finite? ==> r.n + b.n == a.n
  {
    if a.Finite? && b.Finite? then Finite(a.n - b.n) else NaN
  }

  /** `if (x)` for a nullable number: null, 0 and NaN are falsy. */
  predicate Truthy(x: Option<Num>)
  {
    x.Some? && x.value.Finite? && x.value.n != 0
  }

  // ---------------------------------------------------------------------
  // parseInt(s, radix), restricted to a leading run of digits
  // ---------------------------------------------------------------------

  type Radix = r: nat | 2 <= r <= 16 witness 10

  /** The digit value of a character, in any radix up to 16. */
  function DigitValue(c: char): Option<nat>
  {
    if '0' <= c <= '9' then Some(c as int - '0' as int)
    else if 'a' <= c <= 'f' then Some(c as int - 'a' as int + 10)
    else if 'A' <= c <= 'F' then Some(c as int - 'A' as int + 10)
    else None
  }

  predicate IsDigit(c: char, radix: Radix)
  {
    DigitValue(c).Some? && DigitValue(c).value < radix
  }

  predicate AllDigits(s: string, radix: Radix)
  {
    forall i :: 0 <= i < |s| ==> IsDigit(s[i], radix)
  }

  /** The longest prefix of `s` made of digits in `radix`: the part
      `parseInt` reads before it stops. */
  function LeadingDigits(s: string, radix: Radix): (p: string)
    ensures p <= s
    ensures AllDigits(p, radix)
    ensures |p| < |s| ==> !IsDigit(s[|p|], radix)
  {
    if |s| > 0 && IsDigit(s[0], radix) then [s[0]] + LeadingDigits(s[1..], radix)
    else []
  }

  /** The value of a digit string, most significant digit first. */
  function DigitsValue(ds: string, radix: Radix): nat
    requires AllDigits(ds, radix)
  {
    if |ds| == 0 then 0
    else DigitsValue(ds[..|ds| - 1], radix) * radix + DigitValue(ds[|ds| - 1]).value
  }

  /** `parseInt(s, radix)`: the value of the leading digits, or NaN
      (`None`) when `s` does not start with a digit. */
  function ParseInt(s: string, radix: Radix): (r: Option<nat>)
    ensures r.None? <==> |s| == 0 || !IsDigit(s[0], radix)
  {
    var p := LeadingDigits(s, radix);
    if |p| == 0 then None else Some(DigitsValue(p, radix))
  }

  // ---------------------------------------------------------------------
  // The inverse direction: writing a number in a radix
  // ---------------------------------------------------------------------

  function DigitChar(d: nat): (c: char)
    requires d < 16
    ensures DigitValue(c) == Some(d)
  {
    "0123456789abcdef"[d]
  }

  /** The canonical (no leading zeros) lower-case digits of `n`. */
  function ToDigits(n: nat, radix: Radix): (s: string)
    ensures |s| > 0
    ensures AllDigits(s, radix)
    decreases n
  {
    if n < radix then [DigitChar(n)]
    else ToDigits(n / radix, radix) + [DigitChar(n % radix)]
  }

  function Zeros(k: nat): (s: string)
    ensures |s| == k
    ensures forall i :: 0 <= i < k ==> s[i] == '0'
  {
    if k == 0 then [] else Zeros(k - 1) + ['0']
  }

  /** `s` left-padded with zeros to `width` characters. */
  function PadLeft(s: string, width: nat): (r: string)
    requires |s| <= width
    ensures |r| == width
  {
    Zeros(width - |s|) + s
  }

  function Pow(b: nat, e: nat): nat
  {
    if e == 0 then 1 else b * Pow(b, e - 1)
  }

  lemma DivMod(n: nat, radix: Radix)
    ensures n / radix * radix + n % radix == n
    ensures n >= radix ==> n / radix < n
  {
  }

  lemma {:induction false} DigitsValueToDigits(n: nat, radix: Radix)
    ensures DigitsValue(ToDigits(n, radix), radix) == n
    decreases n
  {
    var s := ToDigits(n, radix);
    if n >= radix {
      var q, d := n / radix, n % radix;
      DivMod(n, radix);
      var hi := ToDigits(q, radix);
      assert s == hi + [DigitChar(d)];
      assert s[..|s| - 1] == hi;
      DigitsValueToDigits(q, radix);
    }
  }

  lemma {:induction false} DigitsValueLeadingZeros(k: nat, ds: string, radix: Radix)
    requires AllDigits(ds, radix)
    ensures AllDigits(Zeros(k) + ds, radix)
    ensures DigitsValue(Zeros(k) + ds, radix) == DigitsValue(ds, radix)
    decreases |ds|, k
  {
    var s := Zeros(k) + ds;
    assert AllDigits(s, radix) by {
      forall i | 0 <= i < |s| ensures IsDigit(s[i], radix) {
        if i >= k { assert s[i] == ds[i - k]; }
      }
    }
    if |ds| == 0 {
      if k > 0 {
        assert s == Zeros(k - 1) + ['0'];
        assert s[..|s| - 1] == Zeros(k - 1) + [];
        DigitsValueLeadingZeros(k - 1, [], radix);
      }
    } else {
      var front := ds[..|ds| - 1];
      assert s[..|s| - 1] == Zeros(k) + front;
      assert s[|s| - 1] == ds[|ds| - 1];
      DigitsValueLeadingZeros(k, front, radix);
    }
  }

  lemma {:induction false} LeadingDigitsOfDigits(ds: string, rest: string, radix: Radix)
    requires AllDigits(ds, radix)
    requires |rest| == 0 || !IsDigit(rest[0], radix)
    ensures LeadingDigits(ds + rest, radix) == ds
    decreases |ds|
  {
    if |ds| > 0 {
      assert (ds + rest)[1..] == ds[1..] + rest;
      LeadingDigitsOfDigits(ds[1..], rest, radix);
    }
  }

  /** Round trip: `parseInt` reads back any number written in its radix,
      however many leading zeros pad it and whatever non-digit text
      follows it. */
  lemma ParseIntPadded(n: nat, radix: Radix, width: nat, rest: string)
    requires |ToDigits(n, radix)| <= width
    requires |rest| == 0 || !IsDigit(rest[0], radix)
    ensures ParseInt(PadLeft(ToDigits(n, radix), width) + rest, radix) == Some(n)
  {
    var ds := ToDigits(n, radix);
    var z := PadLeft(ds, width);
    DigitsValueLeadingZeros(width - |ds|, ds, radix);
    DigitsValueToDigits(n, radix);
    assert DigitsValue(z, radix) == n;
    LeadingDigitsOfDigits(z, rest, radix);
    assert LeadingDigits(z + rest, radix) == z;
  }

  lemma {:induction false} PowAdd(b: nat, m: nat, n: nat)
    ensures Pow(b, m + n) == Pow(b, m) * Pow(b, n)
    decreases m
  {
    if m > 0 {
      PowAdd(b, m - 1, n);
      assert Pow(b, m + n) == b * Pow(b, m - 1 + n);
    }
  }

  /** The quotient by the radix of a number below `radix * p` is below `p`. */
  lemma QuotientBelow(n: nat, radix: Radix, p: nat)
    requires n < radix * p
    ensures n / radix < p
  {
    DivMod(n, radix);
    assert n / radix * radix < p * radix;
  }

  /** A number below `radix^k` needs at most `k` digits. */
  lemma {:induction false} ToDigitsLength(n: nat, radix: Radix, k: nat)
    requires 0 < k
    requires n < Pow(radix, k)
    ensures |ToDigits(n, radix)| <= k
    decreases k
  {
    if n >= radix {
      var q := n / radix;
      assert Pow(radix, k) == radix * Pow(radix, k - 1);
      QuotientBelow(n, radix, Pow(radix, k - 1));
      ToDigitsLength(q, radix, k - 1);
    }
  }

  // ---------------------------------------------------------------------
  // String.prototype.toLowerCase on the ASCII letters of an address
  // ---------------------------------------------------------------------

  function LowerChar(c: char): char
  {
    if 'A' <= c <= 'Z' then (c as int - 'A' as int + 'a' as int) as char else c
  }

  function ToLower(s: string): (r: string)
    ensures |r| == |s|
    ensures forall i :: 0 <= i < |s| ==> r[i] == LowerChar(s[i])
  {
    seq(|s|, i requires 0 <= i < |s| => LowerChar(s[i]))
  }

  /** Lower-casing is idempotent: no upper-case letter survives it. */
  lemma ToLowerIdempotent(s: string)
    ensures ToLower(ToLower(s)) == ToLower(s)
    ensures forall i :: 0 <= i < |s| ==> !('A' <= ToLower(s)[i] <= 'Z')
  {
  }
}
