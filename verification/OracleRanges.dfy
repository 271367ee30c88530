/** When a conversion succeeds, and what the rates are, written out.

    Everything here is in plain arithmetic: the products the code checks, the powers of ten, and
    the bounds of the machine integers. */
module OracleRanges {
  import opened Ints
  import opened Oracle
  import opened Ledgers
  import opened Ranges

  // ---- powers of ten -----------------------------------------------------------------------------

  lemma PowersOfTen(n: nat)
    ensures Pow10(0) == 1 && Pow10(n + 1) == 10 * Pow10(n)
  {
  }

  /** The powers of ten the code can compute, and their bound. */
  lemma SmallPowers(n: nat)
    ensures n <= 38 <==> Pow10(n) <= 0x7FFF_FFFF_FFFF_FFFF_FFFF_FFFF_FFFF_FFFF
  {
    CheckedPow10Range(n);
  }

  // ---- prices ------------------------------------------------------------------------------------

  lemma LoadPriceIff(env: Env, feed: Address)
    ensures LoadPrice(env, feed).Ok? <==> feed in env.oracle && env.oracle[feed].price > 0
    ensures LoadPrice(env, feed).Ok? ==> LoadPrice(env, feed).value == env.oracle[feed]
  {
  }

  /** The rate is the ratio of the two prices for one base unit, in lamports: with p and e the
      price and exponent of the token, q and f those of SOL, 10^9 * p * 10^(e - decimals) over
      q * 10^f. */
  lemma RateIsPriceRatio(decimals: u8, token: Price, sol: Price)
    requires token.price > 0 && sol.price > 0
    ensures var rate, exp := TokenRate(decimals, token, sol), token.expo - decimals - sol.expo;
            var up, down := Pow10(if exp >= 0 then exp else 0), Pow10(if exp >= 0 then 0 else -exp);
            rate.num * (sol.price * down) == 1_000_000_000 * token.price * up * rate.den
  {
    assert Pow10(0) == 1;
    var exp := token.expo - decimals - sol.expo;
    if exp >= 0 {
      assert token.price * 1_000_000_000 * Pow10(exp) * sol.price
          == 1_000_000_000 * token.price * Pow10(exp) * sol.price;
    }
  }

  // ---- conversions -------------------------------------------------------------------------------

  /** A scaled quotient can be computed: the power of ten and the side it goes to fit. */
  ghost predicate Scales(exp: int, num: nat, den: nat) {
    -38 <= exp <= 38 && if exp >= 0 then Fits128(num * Pow10(exp)) else Fits128(den * Pow10(-exp))
  }

  lemma ScaledQuotientIff(exp: int, num: nat, den: nat)
    requires den > 0
    ensures ScaledQuotient(exp, num, den).Ok? <==> Scales(exp, num, den)
  {
    hide Pow10;
  }

  /** An amount of a token can be valued in lamports. */
  ghost predicate CanValue(amount: u64, decimals: u8, token: Price, sol: Price) {
    && token.price > 0 && sol.price > 0
    && Fits128(amount * token.price * 1_000_000_000)
    && Fits32(token.expo - decimals) && Fits32(token.expo - decimals - sol.expo)
    && Scales(token.expo - decimals - sol.expo, amount * token.price * 1_000_000_000, sol.price)
  }

  /** Exactly then the valuation succeeds, and it is the cast floor at the rate. */
  lemma TokenValueIff(amount: u64, decimals: u8, token: Price, sol: Price)
    ensures TokenValue(amount, decimals, token, sol).Ok? <==> CanValue(amount, decimals, token, sol)
    ensures CanValue(amount, decimals, token, sol) ==>
              TokenValue(amount, decimals, token, sol).value == Low64(Floor(amount, TokenRate(decimals, token, sol)))
  {
    hide Pow10, ScaledQuotient, Scales, Floor, TokenRate;
    if token.price > 0 && sol.price > 0 {
      ScaledQuotientIff(token.expo - decimals - sol.expo, amount * token.price * 1_000_000_000, sol.price);
    }
    if TokenValue(amount, decimals, token, sol).Ok? {
      TokenValueIsFloor(amount, decimals, token, sol);
    }
  }

  /** Lamports can be converted to an amount of a token. */
  ghost predicate CanConvert(lamports: u64, decimals: u8, token: Price, sol: Price) {
    && token.price > 0 && sol.price > 0 && decimals <= 38
    && Fits128(lamports * sol.price * Pow10(decimals)) && Fits32(sol.expo - token.expo)
    && Scales(sol.expo - token.expo, lamports * sol.price * Pow10(decimals), token.price * 1_000_000_000)
  }

  /** Exactly then the expected output succeeds, and it is the cast floor at the reciprocal rate. */
  lemma ExpectedTokenOutIff(lamports: u64, decimals: u8, token: Price, sol: Price)
    ensures ExpectedTokenOut(lamports, decimals, token, sol).Ok? <==> CanConvert(lamports, decimals, token, sol)
    ensures CanConvert(lamports, decimals, token, sol) ==>
              var rate := TokenRate(decimals, token, sol);
              ExpectedTokenOut(lamports, decimals, token, sol).value == Low64(Floor(lamports, Rate(rate.den, rate.num)))
  {
    hide Pow10, ScaledQuotient, Scales, Floor, TokenRate;
    if token.price > 0 && sol.price > 0 {
      ScaledQuotientIff(sol.expo - token.expo, lamports * sol.price * Pow10(decimals), token.price * 1_000_000_000);
    }
    if ExpectedTokenOut(lamports, decimals, token, sol).Ok? {
      ExpectedTokenOutIsFloor(lamports, decimals, token, sol);
    }
  }

  /** The rescaled price: exact upwards, the floor downwards, and when there is one. */
  lemma ScalePriceIff(price: i64, expo: i32, target: i32)
    requires price > 0
    ensures ScalePrice(price, expo, target).Ok?
       <==> -38 <= expo - target <= 38 && (expo >= target ==> Fits128(price * Pow10(expo - target)))
    ensures ScalePrice(price, expo, target).Ok? ==>
              var scaled := ScalePrice(price, expo, target).value;
              if expo >= target then scaled == price * Pow10(expo - target)
              else scaled * Pow10(target - expo) <= price < (scaled + 1) * Pow10(target - expo)
  {
    hide Pow10;
    if ScalePrice(price, expo, target).Ok? && expo < target {
      DivBounds(price, Pow10(target - expo));
    }
  }

  /** The least output the guard lets through: the expectation less the tolerated part of it,
      rounded up. */
  ghost predicate LeastOutput(least: nat, expected: nat, bps: nat) {
    && least <= expected
    && expected * bps <= 10_000 * (expected - least) < expected * bps + 10_000
  }

  lemma SlippageIff(expected: u64, bps: u16)
    ensures ApplyMaxSlippage(expected, bps).Ok? <==> bps <= 10_000
    ensures bps <= 10_000 ==> LeastOutput(ApplyMaxSlippage(expected, bps).value, expected, bps)
  {
    if bps <= 10_000 {
      SlippageLoss(expected, bps);
      CeilDivBounds(expected * bps, 10_000);
      assert expected * bps <= expected * 10_000;
    }
  }

  lemma LeastOutputUnique(a: nat, b: nat, expected: nat, bps: nat)
    requires LeastOutput(a, expected, bps) && LeastOutput(b, expected, bps)
    ensures a == b
  {
  }
}
