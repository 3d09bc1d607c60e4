/** The service's fixed numbers: the pin range, the pin lifetime and the request body limit. */
module Constants {
  import opened Wrappers
  import opened Text

  /** `PIN_RANGE`: 1000000 inclusive to 9999999 exclusive. */
  const PIN_LOW: nat := 1000000
  const PIN_HIGH: nat := 9999999

  /** `VERIFICATION_PIN_EXPIRATION_TIME`, in seconds. */
  const VERIFICATION_PIN_EXPIRATION_TIME: int := 60 * 5

  const MIB: nat := 1024 * 1024
  const DEFAULT_BODY_LIMIT_MIB: nat := 5

  /** Every pin drawn from the range is written with exactly seven digits. */
  lemma PinHasSevenDigits(pin: nat)
    requires PIN_LOW <= pin < PIN_HIGH
    ensures |Decimal(pin)| == 7
  {
    assert Pow10(6) == 1000000 by {
      assert Pow10(1) == 10;
      assert Pow10(2) == 100;
      assert Pow10(3) == 1000;
      assert Pow10(4) == 10000;
      assert Pow10(5) == 100000;
    }
    assert Pow10(7) == 10 * Pow10(6);
    DecimalLength(pin, 6);
  }

  /** `REQUEST_BODY_LIMIT`: the variable (default "5") read as a `u64` count of mebibytes,
      5 when it does not parse; the `u64` product wraps as a release build computes it. */
  function BodyLimit(variable: Option<string>): (limit: nat)
    ensures limit < U64_LIMIT
  {
    var n := ParseU64(variable.GetOr("5")).GetOr(DEFAULT_BODY_LIMIT_MIB);
    (n * MIB) % U64_LIMIT
  }

  /** Unset and unparsable both give 5 MiB. */
  lemma BodyLimitDefault(variable: Option<string>)
    requires variable.None? || ParseU64(variable.value).None?
    ensures BodyLimit(variable) == 5 * 1024 * 1024
  {
    if variable.None? {
      ParseU64OfDecimal(5);
      assert Decimal(5) == "5";
    }
  }

  /** A count that parses as a `u64` is multiplied out and wrapped. */
  lemma BodyLimitOfCount(n: nat)
    requires n < U64_LIMIT
    ensures BodyLimit(Some(Decimal(n))) == (n * MIB) % U64_LIMIT
  {
    ParseU64OfDecimal(n);
  }

  /** A count below 2^44 mebibytes is converted exactly. */
  lemma BodyLimitExact(n: nat)
    requires n < 0x1000_0000_0000
    ensures BodyLimit(Some(Decimal(n))) == n * 1024 * 1024
  {
    BodyLimitOfCount(n);
    ScaleOrder(n, 0x1000_0000_0000, MIB);
    assert n * MIB < U64_LIMIT;
  }

  /** From 2^44 mebibytes on, the product no longer fits: the limit is not the product,
      and 2^44 itself is 2^64 bytes, which wraps to a zero-byte limit. */
  lemma BodyLimitWraps(n: nat)
    requires 0x1000_0000_0000 <= n < U64_LIMIT
    ensures BodyLimit(Some(Decimal(n))) == (n * MIB) % U64_LIMIT
    ensures BodyLimit(Some(Decimal(n))) != n * MIB
    ensures n == 0x1000_0000_0000 ==> BodyLimit(Some(Decimal(n))) == 0
  {
    BodyLimitOfCount(n);
    if n == 0x1000_0000_0000 {
      WrapsAt(n * MIB, U64_LIMIT);
    } else {
      ScaleOrder(0x1000_0000_0000, n, MIB);
      WrapsAt(n * MIB, U64_LIMIT);
    }
  }

  /** Reducing a value that reaches the modulus changes it; the modulus itself reduces to zero. */
  lemma WrapsAt(x: nat, modulus: nat)
    requires x >= modulus > 0
    ensures x % modulus != x
    ensures x == modulus ==> x % modulus == 0
  {
  }

  /** Scaling by a positive factor keeps a strict order. */
  lemma ScaleOrder(a: nat, b: nat, m: nat)
    requires a < b && m > 0
    ensures a * m < b * m
  {
    var d := b - a;
    assert b * m == a * m + d * m;
  }
}
