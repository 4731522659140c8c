/** The pure helpers of src/lib/utils.ts: rounding an equal share to cents,
    the amount range check and the short form of a wallet address. */
module Utils {
  import opened Types

  /** Largest accepted bill amount. */
  const MaxAmount: real := 1000000.0

  /** JavaScript's `Math.round`: the nearest integer, a tie going toward
      positive infinity. */
  function Round(x: real): (r: int)
    ensures r as real - 0.5 <= x < r as real + 0.5
  {
    (x + 0.5).Floor
  }

  /** `x` is a whole number of cents. */
  predicate IsCents(x: real) {
    (x * 100.0).Floor as real == x * 100.0
  }

  /** `Math.round(x * 100) / 100`: the whole number of cents nearest to `x`. */
  function RoundToCents(x: real): (r: real)
    ensures IsCents(r)
    ensures r - 0.005 <= x < r + 0.005
  {
    var k := Round(x * 100.0);
    assert (k as real / 100.0) * 100.0 == k as real;
    k as real / 100.0
  }

  /** The share each of `participants` people owes of `total`: nothing when
      there is nobody, otherwise the quotient rounded to cents. */
  function CalculateEqualSplit(total: real, participants: nat): (r: real)
    ensures participants == 0 ==> r == 0.0
    ensures participants > 0 ==>
      IsCents(r) && r - 0.005 <= total / participants as real < r + 0.005
    ensures participants == 1 ==> r == RoundToCents(total)
  {
    if participants == 0 then 0.0 else RoundToCents(total / participants as real)
  }

  /** No whole number of cents is closer to `x` than `RoundToCents(x)`. */
  lemma {:induction false} RoundToCentsIsNearest(x: real, k: int)
    ensures Dist(RoundToCents(x), x) <= Dist(k as real / 100.0, x)
  {
    var m := Round(x * 100.0);
    var y := x * 100.0;
    assert RoundToCents(x) == m as real / 100.0;
    assert m as real - 0.5 <= y < m as real + 0.5;
    if k > m {
      assert k as real >= m as real + 1.0;
      assert k as real - y > 0.5;
      assert Dist(k as real / 100.0, x) == (k as real - y) / 100.0;
    } else if k < m {
      assert k as real <= m as real - 1.0;
      assert y - k as real >= 0.5;
      assert Dist(k as real / 100.0, x) == (y - k as real) / 100.0;
    }
    assert Dist(RoundToCents(x), x) == Dist(m as real, y) / 100.0;
  }

  /** A share of a non-negative total is never negative. */
  lemma EqualSplitNonNegative(total: real, participants: nat)
    requires total >= 0.0
    ensures CalculateEqualSplit(total, participants) >= 0.0
  {
  }

  function Dist(a: real, b: real): real {
    if a <= b then b - a else a - b
  }

  /** `validateAmount` over the result of `parseFloat`: `None` stands for
      `NaN`, the parse of a string with no numeric prefix. */
  function ValidateAmount(parsed: Option<real>): (ok: bool)
    ensures ok <==> parsed.Some? && 0.0 < parsed.value <= MaxAmount
  {
    match parsed
    case None => false
    case Some(num) => num > 0.0 && num <= MaxAmount
  }

  /** The boundary cases of the range check. */
  lemma ValidateAmountBounds()
    ensures !ValidateAmount(None)
    ensures !ValidateAmount(Some(0.0))
    ensures ValidateAmount(Some(0.01))
    ensures ValidateAmount(Some(1000000.0))
    ensures !ValidateAmount(Some(1000000.01))
  {
  }

  /** JavaScript's index normalisation for `String.prototype.slice`: a
      negative index counts back from the end, and the result is clamped to
      the string's bounds. */
  function SliceIndex(len: nat, i: int): (r: nat)
    ensures r <= len
  {
    if i < 0 then (if len + i < 0 then 0 else len + i)
    else if i < len then i else len
  }

  /** `s.slice(start, end)`. */
  function Slice(s: string, start: int, end: int): (r: string)
    ensures |r| <= |s|
  {
    var b, e := SliceIndex(|s|, start), SliceIndex(|s|, end);
    if b < e then s[b..e] else []
  }

  /** `s.slice(start)`. */
  function SliceFrom(s: string, start: int): (r: string)
    ensures |r| <= |s|
  {
    s[SliceIndex(|s|, start)..]
  }

  function Min(a: int, b: int): int {
    if a <= b then a else b
  }

  /** The first `chars + 2` characters of an address, an ellipsis and its
      last `chars` characters; the empty address stays empty. */
  function ShortenAddress(address: string, chars: int := 4): (r: string)
    ensures address == [] ==> r == []
    ensures address != [] && chars > 0 ==>
      r == address[..Min(chars + 2, |address|)] + "..." + address[|address| - Min(chars, |address|)..]
    ensures address != [] && chars == 0 ==>
      r == address[..Min(2, |address|)] + "..." + address
  {
    if address == [] then []
    else Slice(address, 0, chars + 2) + "..." + SliceFrom(address, -chars)
  }

  /** A shortened address starts with a prefix of the address and ends with
      a suffix of it. */
  lemma ShortenAddressFrame(address: string, chars: int)
    requires address != [] && chars > 0
    ensures var r := ShortenAddress(address, chars);
      var p, s := Min(chars + 2, |address|), Min(chars, |address|);
      |r| == p + 3 + s &&
      r[..p] <= address &&
      r[p..p + 3] == "..." &&
      r[p + 3..] == address[|address| - s..]
  {
  }
}
