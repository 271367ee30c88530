/** Fixed-point conversions between token base units and lamports at oracle prices.

    Every conversion multiplies by a rate and floors.  `TokenRate` is that rate as an exact
    fraction: one token base unit is worth num/den lamports.  The theorems below reduce the
    checked 128-bit code to floors of that one fraction. */
module Oracle {
  import opened Results
  import opened Ints

  const LAMPORTS_PER_SOL: int := 1_000_000_000

  datatype Price = Price(price: i64, expo: i32)

  datatype Rate = Rate(num: nat, den: nat) {
    ghost predicate Valid() {
      num > 0 && den > 0
    }
  }

  // ---- specification functions ---------------------------------------------------------

  function CheckedPow10(exp: nat): (r: Result<nat>)
    ensures r.Ok? ==> r.value > 0
  {
    if exp <= 38 then Ok(Pow10(exp)) else Err(MathOverflow)
  }

  function CheckedI128(x: nat): Result<nat> {
    if x <= I128_MAX then Ok(x) else Err(MathOverflow)
  }

  function CheckedI32(x: int): Result<i32> {
    if I32_MIN <= x <= I32_MAX then Ok(x) else Err(MathOverflow)
  }

  /** The quotient of two scaled terms: a power of ten goes to the numerator or the
      denominator by the sign of the exponent. */
  function ScaledQuotient(exp: int, num: nat, den: nat): Result<u64>
    requires den > 0
  {
    var scale :- CheckedPow10(Abs(exp));
    if exp >= 0 then
      var n :- CheckedI128(Mul(num, scale));
      Ok(AsU64(Div(n, den)))
    else
      var d :- CheckedI128(Mul(den, scale));
      Ok(AsU64(Div(num, d)))
  }

  /** `token_value_in_lamports`, which `expected_sol_out_from_token` repeats line by line. */
  function TokenValue(amount: u64, decimals: u8, token: Price, sol: Price): Result<u64> {
    if token.price <= 0 then Err(InvalidOracle) else
    :- Need(sol.price > 0, InvalidOracle);
    var num :- CheckedI128(Mul(Mul(amount, token.price), LAMPORTS_PER_SOL));
    var shifted :- CheckedI32(token.expo - decimals);
    var exp :- CheckedI32(shifted - sol.expo);
    ScaledQuotient(exp, num, sol.price)
  }

  function ExpectedTokenOut(lamports: u64, decimals: u8, token: Price, sol: Price): Result<u64> {
    if token.price <= 0 then Err(InvalidOracle) else
    :- Need(sol.price > 0, InvalidOracle);
    var unit :- CheckedPow10(decimals);
    var num :- CheckedI128(Mul(Mul(lamports, sol.price), unit));
    var exp :- CheckedI32(sol.expo - token.expo);
    ScaledQuotient(exp, num, Mul(token.price, LAMPORTS_PER_SOL))
  }

  function ApplyMaxSlippage(expected: u64, maxSlippageBps: u16): Result<u64> {
    if maxSlippageBps > 10_000 then Err(InvalidFeeBps) else
    Ok(AsU64(Div(Mul(expected, 10_000 - maxSlippageBps), 10_000)))
  }

  function ScalePrice(price: i64, expo: i32, targetExpo: i32): Result<int>
    requires price > 0
  {
    var scale :- CheckedPow10(Abs(expo - targetExpo));
    if expo >= targetExpo then CheckedI128(Mul(price, scale)) else Ok(Div(price, scale))
  }

  // ---- the loops and in-place updates of the program -------------------------------------

  method Pow10I128(exp: nat) returns (r: Result<nat>)
    ensures r == CheckedPow10(exp)
  {
    var value := 1;
    for i := 0 to exp
      invariant i <= 38 && value == Pow10(i)
    {
      if value * 10 > I128_MAX {
        Pow10Values();
        if i < 38 {
          Pow10Mono(i + 1, 38);
        }
        return Err(MathOverflow);
      }
      value := value * 10;
      if i == 38 {
        Pow10Values();
      }
    }
    return Ok(value);
  }

  /** The tail shared by the conversions: the scale goes to one of the two mutable terms. */
  method DivideScaled(exp: int, num: nat, den: nat) returns (r: Result<u64>)
    requires den > 0
    ensures r == ScaledQuotient(exp, num, den)
  {
    var numerator, denominator := num, den;
    if exp >= 0 {
      var scale :- Pow10I128(exp);
      numerator :- CheckedI128(Mul(numerator, scale));
    } else {
      var scale :- Pow10I128(-exp);
      denominator :- CheckedI128(Mul(denominator, scale));
    }
    return Ok(AsU64(Div(numerator, denominator)));
  }

  method TokenValueInLamports(amount: u64, decimals: u8, token: Price, sol: Price)
    returns (r: Result<u64>)
    ensures r == TokenValue(amount, decimals, token, sol)
  {
    if token.price <= 0 {
      return Err(InvalidOracle);
    }
    :- Need(sol.price > 0, InvalidOracle);
    var numerator :- CheckedI128(Mul(Mul(amount, token.price), LAMPORTS_PER_SOL));
    var shifted :- CheckedI32(token.expo - decimals);
    var exp :- CheckedI32(shifted - sol.expo);
    r := DivideScaled(exp, numerator, sol.price);
  }

  method ExpectedTokenOutFromSol(lamports: u64, decimals: u8, token: Price, sol: Price)
    returns (r: Result<u64>)
    ensures r == ExpectedTokenOut(lamports, decimals, token, sol)
  {
    if token.price <= 0 {
      return Err(InvalidOracle);
    }
    :- Need(sol.price > 0, InvalidOracle);
    var unit :- Pow10I128(decimals);
    var numerator :- CheckedI128(Mul(Mul(lamports, sol.price), unit));
    var exp :- CheckedI32(sol.expo - token.expo);
    r := DivideScaled(exp, numerator, Mul(token.price, LAMPORTS_PER_SOL));
  }

  method ScalePriceTo(price: i64, expo: i32, targetExpo: i32) returns (r: Result<int>)
    requires price > 0
    ensures r == ScalePrice(price, expo, targetExpo)
  {
    var value: nat := price;
    if expo == targetExpo {
      return Ok(value);
    }
    if expo > targetExpo {
      var scale :- Pow10I128(expo - targetExpo);
      value :- CheckedI128(Mul(value, scale));
    } else {
      var scale :- Pow10I128(targetExpo - expo);
      value := Div(value, scale);
    }
    return Ok(value);
  }

  // ---- the exact rate --------------------------------------------------------------------

  /** The exact worth of one token base unit in lamports, as a fraction. */
  ghost function TokenRate(decimals: u8, token: Price, sol: Price): (r: Rate)
    requires token.price > 0 && sol.price > 0
    ensures r.Valid()
  {
    var exp := token.expo - decimals - sol.expo;
    var unit := Mul(token.price, LAMPORTS_PER_SOL);
    if exp >= 0 then
      Rate(Mul(unit, Pow10(exp)), sol.price)
    else
      Rate(unit, Mul(sol.price, Pow10(-exp)))
  }

  /** The floor of `amount` base units valued at `rate`. */
  function Floor(amount: nat, rate: Rate): nat
    requires rate.den > 0
  {
    Div(Mul(amount, rate.num), rate.den)
  }

  lemma FloorBounds(x: nat, rate: Rate)
    requires rate.Valid()
    ensures Mul(Floor(x, rate), rate.den) <= Mul(x, rate.num) < Mul(Floor(x, rate), rate.den) + rate.den
  {
    DivBounds(x * rate.num, rate.den);
  }

  ghost function Inverse(rate: Rate): Rate {
    Rate(rate.den, rate.num)
  }

  /** Whenever it succeeds, the checked valuation is the floor at the exact rate, cast to
      64 bits. */
  lemma TokenValueIsFloor(amount: u64, decimals: u8, token: Price, sol: Price)
    requires TokenValue(amount, decimals, token, sol).Ok?
    ensures token.price > 0 && sol.price > 0
    ensures TokenValue(amount, decimals, token, sol).value
         == AsU64(Floor(amount, TokenRate(decimals, token, sol)))
  {
    MulAssociates(amount, token.price, LAMPORTS_PER_SOL);
    ScaledFloor(token.expo - decimals - sol.expo, amount, Mul(token.price, LAMPORTS_PER_SOL), sol.price);
  }

  lemma MulAssociates(a: nat, b: nat, c: nat)
    ensures Mul(Mul(a, b), c) == Mul(a, Mul(b, c))
  {
  }

  lemma SameRatio(x: nat, a: Rate, b: Rate)
    requires a.Valid() && b.Valid() && Mul(a.num, b.den) == Mul(b.num, a.den)
    ensures Floor(x, a) == Floor(x, b)
  {
    FloorAtMost(x, a, b);
    FloorAtMost(x, b, a);
  }

  lemma FloorAtMost(x: nat, a: Rate, b: Rate)
    requires a.Valid() && b.Valid() && Mul(a.num, b.den) == Mul(b.num, a.den)
    ensures Floor(x, a) <= Floor(x, b)
  {
    hide Mul, Floor;
    var q := Floor(x, a);
    FloorBounds(x, a);
    MulMono(Mul(q, a.den), Mul(x, a.num), b.den);
    MulSwap(q, a.den, b.den);
    MulAssociates(x, a.num, b.den);
    MulAssociates(x, b.num, a.den);
    MulCancelLe(Mul(q, b.den), Mul(x, b.num), a.den);
    FloorAtLeast(q, x, b);
  }

  lemma FloorAtLeast(q: nat, x: nat, rate: Rate)
    requires rate.Valid() && Mul(q, rate.den) <= Mul(x, rate.num)
    ensures q <= Floor(x, rate)
  {
    DivAtLeast(Mul(x, rate.num), rate.den, q);
  }

  /** The fraction `expected_token_out_from_sol` multiplies by. */
  ghost function TokensPerLamport(decimals: u8, token: Price, sol: Price): (r: Rate)
    requires token.price > 0 && sol.price > 0
    ensures r.Valid()
  {
    var exp := sol.expo - token.expo;
    var unit := Mul(sol.price, Pow10(decimals));
    if exp >= 0 then
      Rate(Mul(unit, Pow10(exp)), Mul(token.price, LAMPORTS_PER_SOL))
    else
      Rate(unit, Mul(Mul(token.price, LAMPORTS_PER_SOL), Pow10(-exp)))
  }

  /** Whatever the signs of the two exponents, the two conversions use reciprocal rates. */
  lemma RatesAreReciprocal(decimals: u8, token: Price, sol: Price)
    requires token.price > 0 && sol.price > 0
    ensures var there := TokenRate(decimals, token, sol);
            var back := TokensPerLamport(decimals, token, sol);
            Mul(back.num, there.num) == Mul(there.den, back.den)
  {
    var e := token.expo - decimals - sol.expo;
    var f := sol.expo - token.expo;
    var tp := token.price * LAMPORTS_PER_SOL;
    var sp := sol.price;
    var up := if e >= 0 then e else 0;
    var down := if e >= 0 then 0 else -e;
    var upBack := if f >= 0 then f else 0;
    var downBack := if f >= 0 then 0 else -f;
    Pow10Add(decimals, upBack);
    Pow10Add(up, decimals + upBack);
    Pow10Add(down, downBack);
    assert up + decimals + upBack == down + downBack;
    assert Pow10(up) * (Pow10(decimals) * Pow10(upBack)) == Pow10(down) * Pow10(downBack);
    ProductsAgree(sp, tp, Pow10(decimals), Pow10(upBack), Pow10(up), Pow10(down), Pow10(downBack));
    assert Pow10(0) == 1;
  }

  lemma ProductsAgree(sp: nat, tp: nat, d: nat, ub: nat, u: nat, w: nat, wb: nat)
    requires u * (d * ub) == w * wb
    ensures sp * d * ub * (tp * u) == sp * w * (tp * wb)
  {
    assert sp * d * ub * (tp * u) == sp * tp * (u * (d * ub));
    assert sp * w * (tp * wb) == sp * tp * (w * wb);
  }

  lemma ScaledFloor(exp: int, x: nat, num: nat, den: nat)
    requires den > 0 && ScaledQuotient(exp, Mul(x, num), den).Ok?
    ensures var rate := if exp >= 0 then Rate(Mul(num, Pow10(exp)), den) else Rate(num, Mul(den, Pow10(-exp)));
            ScaledQuotient(exp, Mul(x, num), den).value == AsU64(Floor(x, rate))
  {
    if exp >= 0 {
      MulAssociates(x, num, Pow10(exp));
    }
  }

  lemma ExpectedTokenOutDirect(lamports: u64, decimals: u8, token: Price, sol: Price)
    requires ExpectedTokenOut(lamports, decimals, token, sol).Ok?
    ensures token.price > 0 && sol.price > 0
    ensures ExpectedTokenOut(lamports, decimals, token, sol).value
         == AsU64(Floor(lamports, TokensPerLamport(decimals, token, sol)))
  {
    MulAssociates(lamports, sol.price, Pow10(decimals));
    ScaledFloor(sol.expo - token.expo, lamports, Mul(sol.price, Pow10(decimals)), Mul(token.price, LAMPORTS_PER_SOL));
  }

  lemma ExpectedTokenOutIsFloor(lamports: u64, decimals: u8, token: Price, sol: Price)
    requires ExpectedTokenOut(lamports, decimals, token, sol).Ok?
    ensures token.price > 0 && sol.price > 0
    ensures ExpectedTokenOut(lamports, decimals, token, sol).value
         == AsU64(Floor(lamports, Inverse(TokenRate(decimals, token, sol))))
  {
    ExpectedTokenOutDirect(lamports, decimals, token, sol);
    RatesAreReciprocal(decimals, token, sol);
    SameRatio(lamports, TokensPerLamport(decimals, token, sol), Inverse(TokenRate(decimals, token, sol)));
  }

  // ---- round trips -----------------------------------------------------------------------

  /** Converting there and back never gains, and loses at most the rounded-up price of one
      intermediate unit. */
  lemma FloorThereAndBack(x: nat, rate: Rate)
    requires rate.Valid()
    ensures Floor(Floor(x, rate), Inverse(rate)) <= x
    ensures x - Floor(Floor(x, rate), Inverse(rate)) <= CeilDiv(rate.den, rate.num)
  {
    hide Mul, Floor, CeilDiv;
    var n, d := rate.num, rate.den;
    var there := Floor(x, rate);
    var back, c := Floor(there, Inverse(rate)), CeilDiv(d, n);
    FloorBounds(x, rate);
    FloorBounds(there, Inverse(rate));
    CeilCovers(d, n);
    MulCancelLe(back, x, n);
    MulSum(back, c, n);
    MulSum(back + c, 1, n);
    MulUnits(n);
    MulCancelLt(x, back + c + 1, n);
  }

  lemma TokenSolTokenRoundTrip(amount: u64, decimals: u8, token: Price, sol: Price)
    requires TokenValue(amount, decimals, token, sol).Ok?
    requires Floor(amount, TokenRate(decimals, token, sol)) <= U64_MAX
    requires ExpectedTokenOut(TokenValue(amount, decimals, token, sol).value, decimals, token, sol).Ok?
    ensures var rate := TokenRate(decimals, token, sol);
            var lamports := TokenValue(amount, decimals, token, sol).value;
            var back := ExpectedTokenOut(lamports, decimals, token, sol).value;
            back <= amount && amount - back <= CeilDiv(rate.den, rate.num)
  {
    var rate := TokenRate(decimals, token, sol);
    TokenValueIsFloor(amount, decimals, token, sol);
    ExpectedTokenOutIsFloor(Floor(amount, rate), decimals, token, sol);
    FloorThereAndBack(amount, rate);
  }

  lemma SolTokenSolRoundTrip(lamports: u64, decimals: u8, token: Price, sol: Price)
    requires ExpectedTokenOut(lamports, decimals, token, sol).Ok?
    requires Floor(lamports, Inverse(TokenRate(decimals, token, sol))) <= U64_MAX
    requires TokenValue(ExpectedTokenOut(lamports, decimals, token, sol).value, decimals, token, sol).Ok?
    ensures var rate := TokenRate(decimals, token, sol);
            var tokens := ExpectedTokenOut(lamports, decimals, token, sol).value;
            var back := TokenValue(tokens, decimals, token, sol).value;
            back <= lamports && lamports - back <= CeilDiv(rate.num, rate.den)
  {
    var rate := TokenRate(decimals, token, sol);
    ExpectedTokenOutIsFloor(lamports, decimals, token, sol);
    TokenValueIsFloor(Floor(lamports, Inverse(rate)), decimals, token, sol);
    FloorThereAndBack(lamports, Inverse(rate));
    assert Inverse(Inverse(rate)) == rate;
  }

  /** A smaller amount is valued without failing and without truncation if a larger one is. */
  lemma ValueOfPart(part: u64, whole: u64, decimals: u8, token: Price, sol: Price)
    requires part <= whole
    requires TokenValue(whole, decimals, token, sol).Ok?
    ensures TokenValue(part, decimals, token, sol).Ok?
    ensures var rate := TokenRate(decimals, token, sol);
            Floor(part, rate) <= Floor(whole, rate)
  {
    hide Mul, Div, Floor, Pow10;
    var unit := Mul(token.price, LAMPORTS_PER_SOL);
    MulAssociates(part, token.price, LAMPORTS_PER_SOL);
    MulAssociates(whole, token.price, LAMPORTS_PER_SOL);
    MulMono(part, whole, unit);
    var exp := token.expo - decimals - sol.expo;
    if exp >= 0 {
      MulMono(Mul(part, unit), Mul(whole, unit), Pow10(exp));
    }
    FloorMono(part, whole, TokenRate(decimals, token, sol));
  }

  lemma FloorMono(x: nat, y: nat, rate: Rate)
    requires rate.Valid() && x <= y
    ensures Floor(x, rate) <= Floor(y, rate)
  {
    MulLe(x, y, rate.num);
    DivMono(x * rate.num, y * rate.num, rate.den);
  }

  lemma FloorSplits(x: nat, y: nat, rate: Rate)
    requires rate.Valid()
    ensures Floor(x, rate) + Floor(y, rate) <= Floor(x + y, rate) <= Floor(x, rate) + Floor(y, rate) + 1
  {
    assert (x + y) * rate.num == x * rate.num + y * rate.num;
    DivSplit(x * rate.num, y * rate.num, rate.den);
  }

  // ---- slippage --------------------------------------------------------------------------

  /** What the guard lets a swap lose: the tolerated share of the expected output, rounded up. */
  lemma SlippageLoss(expected: u64, bps: u16)
    requires ApplyMaxSlippage(expected, bps).Ok?
    ensures expected - ApplyMaxSlippage(expected, bps).value == CeilDiv(expected * bps, 10_000)
  {
    var kept := expected * (10_000 - bps);
    var tolerated := expected * bps;
    assert kept == expected * 10_000 - tolerated;
    assert kept / 10_000 <= expected;
  }

  // ---- limit triggers --------------------------------------------------------------------

  /** Exact comparison of two prices with different exponents. */
  ghost predicate PriceAtLeast(price: i64, expo: i32, limit: i64, limitExpo: i32) {
    if expo >= limitExpo
    then price * Pow10(expo - limitExpo) >= limit
    else price >= limit * Pow10(limitExpo - expo)
  }

  ghost predicate PriceAtMost(price: i64, expo: i32, limit: i64, limitExpo: i32) {
    if expo >= limitExpo
    then price * Pow10(expo - limitExpo) <= limit
    else price <= limit * Pow10(limitExpo - expo)
  }

  lemma CheckedPow10Range(exp: nat)
    ensures CheckedPow10(exp).Ok? <==> Pow10(exp) <= I128_MAX
  {
    hide Pow10;
    Pow10Values();
    if exp <= 38 {
      Pow10Mono(exp, 38);
    } else {
      Pow10Mono(39, exp);
    }
  }

  lemma SellTriggerExact(price: i64, expo: i32, limit: i64, limitExpo: i32)
    requires price > 0 && ScalePrice(price, expo, limitExpo).Ok?
    ensures ScalePrice(price, expo, limitExpo).value >= limit
       <==> PriceAtLeast(price, expo, limit, limitExpo)
  {
    if expo < limitExpo {
      var scale := Pow10(limitExpo - expo);
      DivBounds(price, scale);
      if price / scale >= limit {
        MulLe(limit, price / scale, scale);
      } else {
        MulLe(price / scale + 1, limit, scale);
      }
    }
  }

  /** A BUY order triggers below one whole unit above its limit; that is the exact comparison
      if and only if the rescaling dropped no digits or the floor is off the limit. */
  lemma BuyTriggerExact(price: i64, expo: i32, limit: i64, limitExpo: i32)
    requires price > 0 && ScalePrice(price, expo, limitExpo).Ok?
    ensures expo >= limitExpo ==>
              (ScalePrice(price, expo, limitExpo).value <= limit
               <==> PriceAtMost(price, expo, limit, limitExpo))
    ensures expo < limitExpo ==>
              (ScalePrice(price, expo, limitExpo).value <= limit
               <==> price < (limit + 1) * Pow10(limitExpo - expo))
    ensures (ScalePrice(price, expo, limitExpo).value <= limit
             <==> PriceAtMost(price, expo, limit, limitExpo))
       <==> (expo >= limitExpo
             || price % Pow10(limitExpo - expo) == 0
             || price / Pow10(limitExpo - expo) != limit)
  {
    hide Pow10;
    if expo < limitExpo {
      var scale := Pow10(limitExpo - expo);
      var q := price / scale;
      DivBounds(price, scale);
      assert price == q * scale + price % scale;
      if q < limit {
        MulLe(q + 1, limit, scale);
      } else if q > limit {
        MulLe(limit + 1, q, scale);
      }
      assert (limit + 1) * scale == limit * scale + scale;
    }
  }

  /** A BUY order with limit 1 at exponent 1 fires at the price 15, half a unit above it. */
  lemma BuyTriggerAboveLimit()
    ensures ScalePrice(15, 0, 1) == Ok(1) && !PriceAtMost(15, 0, 1, 1)
  {
    assert Pow10(1) == 10;
  }
}
