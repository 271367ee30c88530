/** Plain arithmetic on the machine's integers: what fits, what rounds down and what a balance
    becomes, with every bound written out. */
module Ranges {
  import opened Ints
  import opened Ledgers

  // ---- the machine -------------------------------------------------------------------------------

  /** The bounds the checked operations compare with, and the cast. */
  lemma Widths(x: nat)
    ensures U64_MAX == 0xFFFF_FFFF_FFFF_FFFF && U16_MAX == 0xFFFF && TWO_64 == 0x1_0000_0000_0000_0000
    ensures I32_MIN == -0x8000_0000 && I32_MAX == 0x7FFF_FFFF
    ensures I64_MIN == -0x8000_0000_0000_0000 && I64_MAX == 0x7FFF_FFFF_FFFF_FFFF
    ensures I128_MAX == 0x7FFF_FFFF_FFFF_FFFF_FFFF_FFFF_FFFF_FFFF
    ensures AsU64(x) == x % 0x1_0000_0000_0000_0000
  {
  }

  predicate Fits32(x: int) {
    -0x8000_0000 <= x <= 0x7FFF_FFFF
  }

  predicate Fits128(x: nat) {
    x <= 0x7FFF_FFFF_FFFF_FFFF_FFFF_FFFF_FFFF_FFFF
  }

  predicate Fits64(x: int) {
    0 <= x <= 0xFFFF_FFFF_FFFF_FFFF
  }

  predicate FitsTime(x: int) {
    -0x8000_0000_0000_0000 <= x <= 0x7FFF_FFFF_FFFF_FFFF
  }

  // ---- rounding ----------------------------------------------------------------------------------

  /** `q` is `x` over `d`, rounded down. */
  ghost predicate RoundsDown(q: int, x: int, d: int) {
    d > 0 && q * d <= x < q * d + d
  }

  lemma DivRoundsDown(x: nat, d: nat)
    requires d > 0
    ensures RoundsDown(x / d, x, d)
  {
    DivBounds(x, d);
  }

  /** `q` is `parts` over `total` of `whole`, rounded down. */
  ghost predicate PartOf(q: int, parts: nat, whole: nat, total: int) {
    RoundsDown(q, parts * whole, total)
  }

  /** The low 64 bits. */
  ghost function Low64(x: nat): (r: u64) {
    x % 0x1_0000_0000_0000_0000
  }

  lemma LowBits(x: nat)
    ensures AsU64(x) == Low64(x)
  {
  }

  lemma DivPart(parts: nat, whole: nat, total: nat) returns (q: nat)
    requires total > 0
    ensures PartOf(q, parts, whole, total) && q == parts * whole / total
  {
    q := parts * whole / total;
    DivRoundsDown(parts * whole, total);
  }

  lemma PartUnique(q: int, parts: nat, whole: nat, total: nat)
    requires PartOf(q, parts, whole, total)
    ensures q == parts * whole / total
  {
    RoundsDownUnique(q, parts * whole, total);
  }

  lemma RoundsDownUnique(q: int, x: nat, d: nat)
    requires RoundsDown(q, x, d)
    ensures q == x / d
  {
    DivBounds(x, d);
    if q < x / d {
      MulLe(q + 1, x / d, d);
    } else if x / d < q {
      MulLe(x / d + 1, q, d);
    }
  }

  // ---- balances ----------------------------------------------------------------------------------

  lemma CreditIff(m: map<Address, u64>, who: Address, amount: u64)
    ensures CreditTo(m, who, amount).Ok? <==> Fits64(Balance(m, who) + amount)
    ensures CreditTo(m, who, amount).Ok? ==> CreditTo(m, who, amount).value == m[who := Balance(m, who) + amount]
  {
  }

  lemma DebitIff(m: map<Address, u64>, who: Address, amount: u64)
    ensures DebitFrom(m, who, amount).Ok? <==> Balance(m, who) >= amount
    ensures DebitFrom(m, who, amount).Ok? ==> DebitFrom(m, who, amount).value == m[who := Balance(m, who) - amount]
  {
  }
}
