/** Packing a price and a sequence number into one book score.

    A score is a double.  An integer is converted to a double by rounding to nearest, ties to even
    (section 4.3.1 of IEEE 754-2008), which is modelled exactly on the integers. */
module ScoreCodec {
  import opened Domain
  import opened Division

  /** Prices are counted in units of 10^-4. */
  const SCORE_MULTIPLIER: nat := 1_000_000
  /** The largest accepted price, 9.2e9, in those units. */
  const MAX_TICKS: nat := 92_000_000_000_000
  /** 2^53: every integer up to here is a double. */
  const EXACT: nat := 9_007_199_254_740_992

  /** The spacing of doubles at x, for integers. */
  function Ulp(x: nat): (u: nat)
    ensures u > 0
  {
    if x < EXACT then 1 else 2 * Ulp(x / 2)
  }

  /** x in units of u, rounded to nearest, ties to even. */
  function Nearest(x: nat, u: nat): nat
    requires 0 < u
  {
    var rest := x % u;
    if 2 * rest < u || (2 * rest == u && (x / u) % 2 == 0) then x / u else x / u + 1
  }

  /** The double nearest to x. */
  function ToDouble(x: nat): nat {
    Nearest(x, Ulp(x)) * Ulp(x)
  }

  function Pack(ticks: nat, seqNo: nat): nat {
    ticks * SCORE_MULTIPLIER + seqNo
  }

  function EncodeScore(ticks: nat, seqNo: nat): Result<nat> {
    if ticks > MAX_TICKS || seqNo >= SCORE_MULTIPLIER then Err(Validation)
    else Ok(ToDouble(Pack(ticks, seqNo)))
  }

  function DecodeScore(score: nat): (nat, nat) {
    (score / SCORE_MULTIPLIER, score - score / SCORE_MULTIPLIER * SCORE_MULTIPLIER)
  }

  /** Is x itself a double? */
  predicate IsDouble(x: nat) {
    x % Ulp(x) == 0
  }

  // ---------- Rounding ----------

  lemma {:induction false} UlpRange(x: nat)
    ensures x < EXACT * Ulp(x)
    ensures EXACT <= x ==> EXACT / 2 * Ulp(x) <= x && 2 <= Ulp(x)
  {
    if EXACT <= x {
      UlpRange(x / 2);
      assert Ulp(x) == 2 * Ulp(x / 2);
    }
  }

  /** The spacing never shrinks, and when it grows it at least doubles. */
  lemma {:induction false} UlpGrows(x: nat, y: nat)
    requires x <= y
    ensures Ulp(x) == Ulp(y) || 2 * Ulp(x) <= Ulp(y)
  {
    if EXACT <= x { UlpGrows(x / 2, y / 2); }
    else if EXACT <= y { UlpRange(y); }
  }

  /** Rounding moves by at most half a spacing, and not at all exactly when x is a double. */
  lemma RoundingError(x: nat)
    ensures 2 * ToDouble(x) <= 2 * x + Ulp(x) && 2 * x <= 2 * ToDouble(x) + Ulp(x)
    ensures ToDouble(x) == x <==> IsDouble(x)
  {
    DivBounds(x, Ulp(x));
    NextMultiple(x / Ulp(x), Ulp(x));
  }

  lemma ExactBelow(x: nat)
    requires x <= EXACT
    ensures ToDouble(x) == x
  {
    if x < EXACT { assert Ulp(x) == 1; }
    else { assert Ulp(EXACT / 2) == 1; }
  }

  /** In units of one spacing, rounding keeps the order. */
  lemma NearestIsMonotone(x: nat, y: nat, u: nat)
    requires x <= y && 0 < u
    ensures Nearest(x, u) <= Nearest(y, u)
  {
    DivLe(x, y, u);
    if x / u == y / u {
      DivBounds(x, u);
      DivBounds(y, u);
      assert x % u <= y % u;
    }
  }

  /** Rounding stays within the range of its spacing. */
  lemma RoundsWithin(x: nat)
    ensures Nearest(x, Ulp(x)) <= EXACT
    ensures EXACT <= x ==> EXACT / 2 <= Nearest(x, Ulp(x))
  {
    hide Ulp;
    UlpRange(x);
    QuotientAtLeast(x, Ulp(x), EXACT);
    QuotientAtLeast(x, Ulp(x), EXACT / 2);
    NearestIsNear(x, Ulp(x));
  }

  lemma NearestIsNear(x: nat, u: nat)
    requires 0 < u
    ensures x / u <= Nearest(x, u) <= x / u + 1
  {
  }

  /** Rounding is monotone on all integers. */
  lemma RoundingIsMonotone(x: nat, y: nat)
    requires x <= y
    ensures ToDouble(x) <= ToDouble(y)
  {
    var u, v := Ulp(x), Ulp(y);
    UlpGrows(x, y);
    if u == v {
      NearestIsMonotone(x, y, u);
      MulLe(Nearest(x, u), Nearest(y, u), u);
    } else {
      RoundsWithin(x);
      RoundsWithin(y);
      GrownRange(Nearest(x, u), Nearest(y, v), u, v);
    }
  }

  lemma GrownRange(p: nat, q: nat, u: nat, v: nat)
    requires p <= EXACT && EXACT / 2 <= q && 2 * u <= v
    ensures p * u <= q * v
  {
    MulLe(p, EXACT, u);
    MulLe(EXACT / 2, q, v);
    var half := EXACT / 2;
    assert EXACT * u == half * (2 * u);
    MulLe(2 * u, v, half);
  }

  // ---------- ToDouble is round-to-nearest ----------

  function Distance(x: nat, y: nat): nat {
    if x <= y then y - x else x - y
  }

  /** No multiple of u is nearer to x. */
  lemma NearestMultiple(x: nat, u: nat, m: nat)
    requires 0 < u
    ensures Distance(Nearest(x, u) * u, x) <= Distance(m * u, x)
  {
    DivBounds(x, u);
    NextMultiple(x / u, u);
    if m <= x / u { MulLe(m, x / u, u); } else { MulLe(x / u + 1, m, u); }
  }

  /** A double at least as large as x's range starts is a multiple of x's spacing. */
  lemma {:induction false} CoarserMultiple(x: nat, y: nat)
    requires Ulp(x) <= Ulp(y) && IsDouble(y)
    ensures y % Ulp(x) == 0
    decreases y
  {
    if Ulp(x) < Ulp(y) {
      assert y < EXACT ==> Ulp(y) == 1;
      HalfOfDouble(y);
      if Ulp(x) <= Ulp(y / 2) {
        CoarserMultiple(x, y / 2);
        DivBounds(y / 2, Ulp(x));
        DoubleMultiple(y / 2 / Ulp(x), Ulp(x), y);
      } else {
        UlpGrows2(x, y);
      }
    }
  }

  lemma HalfOfDouble(y: nat)
    requires EXACT <= y && IsDouble(y)
    ensures Ulp(y) == 2 * Ulp(y / 2) && y == 2 * (y / 2) && IsDouble(y / 2)
  {
    var v, q := Ulp(y / 2), y / Ulp(y);
    DivBounds(y, Ulp(y));
    assert y == q * (2 * v) == 2 * (q * v);
    MultipleMod(q, v);
  }

  lemma MultipleMod(q: nat, v: nat)
    requires 0 < v
    ensures (q * v) % v == 0
  {
    DivBounds(q * v, v);
    var d := q * v / v;
    if d < q { MulLe(d + 1, q, v); NextMultiple(d, v); }
    if q < d { MulLe(q + 1, d, v); NextMultiple(q, v); }
  }

  lemma DoubleMultiple(q: nat, u: nat, y: nat)
    requires 0 < u && y == 2 * (q * u)
    ensures y % u == 0
  {
    assert y == (2 * q) * u;
    MultipleMod(2 * q, u);
  }

  /** Spacings are powers of two: none lies strictly between half a spacing and the spacing. */
  lemma UlpGrows2(x: nat, y: nat)
    requires Ulp(x) < Ulp(y)
    ensures EXACT <= y && Ulp(x) <= Ulp(y / 2)
  {
    assert y < EXACT ==> Ulp(y) == 1;
    if x <= y { UlpGrows(x, y); } else { UlpGrows(y, x); }
  }

  lemma BelowRange(x: nat, y: nat)
    requires Ulp(y) < Ulp(x)
    ensures y <= EXACT / 2 * Ulp(x) <= x
  {
    UlpRange(x);
    UlpRange(y);
    if x <= y { UlpGrows(x, y); } else { UlpGrows(y, x); }
    assert x < EXACT ==> Ulp(x) == 1;
    GrownRange(EXACT, EXACT / 2, Ulp(y), Ulp(x));
  }

  lemma ToDoubleIsDouble(x: nat)
    ensures IsDouble(ToDouble(x))
  {
    var u, q := Ulp(x), Nearest(x, Ulp(x));
    var r := q * u;
    RoundsWithin(x);
    MultipleMod(q, u);
    if x < EXACT {
      ExactBelow(x);
    } else if q < EXACT {
      SameRange(x, r, q);
    } else {
      NextRange(x);
    }
  }

  /** A multiple of the spacing inside the range has that spacing. */
  lemma {:induction false} SameRange(x: nat, r: nat, q: nat)
    requires EXACT <= x && EXACT / 2 <= q < EXACT && r == q * Ulp(x)
    ensures Ulp(r) == Ulp(x)
  {
    var v := Ulp(x / 2);
    assert Ulp(x) == 2 * v && r == 2 * (q * v);
    MulLe(EXACT / 2, q, Ulp(x));
    UlpRange(x);
    assert EXACT <= r by { MulLe(2, Ulp(x), EXACT / 2); }
    assert r / 2 == q * v;
    if x / 2 < EXACT {
      assert v == 1;
    } else {
      SameRange(x / 2, r / 2, q);
    }
  }

  lemma {:induction false} NextRange(x: nat)
    requires EXACT <= x
    ensures Ulp(EXACT * Ulp(x)) == 2 * Ulp(x)
    ensures IsDouble(EXACT * Ulp(x))
  {
    var v, r := Ulp(x / 2), EXACT * Ulp(x);
    assert Ulp(x) == 2 * v && r / 2 == EXACT * v;
    MulLe(1, Ulp(x), EXACT);
    if x / 2 < EXACT {
      assert v == 1 && Ulp(EXACT / 2) == 1 && Ulp(EXACT) == 2;
    } else {
      NextRange(x / 2);
    }
    assert r == EXACT / 2 * (2 * Ulp(x));
    MultipleMod(EXACT / 2, 2 * Ulp(x));
  }

  // ---------- Theorems ----------

  /** The result is a double, and no double is nearer to x. */
  lemma ToDoubleIsNearest(x: nat, y: nat)
    requires IsDouble(y)
    ensures IsDouble(ToDouble(x))
    ensures Distance(ToDouble(x), x) <= Distance(y, x)
  {
    ToDoubleIsDouble(x);
    var u := Ulp(x);
    if u <= Ulp(y) {
      CoarserMultiple(x, y);
      DivBounds(y, u);
      NearestMultiple(x, u, y / u);
    } else {
      // y lies below the range of x, whose start is a multiple of u
      BelowRange(x, y);
      NearestMultiple(x, u, EXACT / 2);
    }
  }

  lemma PackSplits(ticks: nat, seqNo: nat)
    requires seqNo < SCORE_MULTIPLIER
    ensures DecodeScore(Pack(ticks, seqNo)) == (ticks, seqNo)
  {
  }

  /** Prices up to 9.2e9 and sequence numbers below a million are accepted. */
  lemma EncodeAcceptsIff(ticks: nat, seqNo: nat)
    ensures EncodeScore(ticks, seqNo).Ok? <==> ticks <= 92_000_000_000_000 && seqNo < 1_000_000
    ensures EncodeScore(ticks, seqNo).Ok? ==> IsDouble(EncodeScore(ticks, seqNo).value)
  {
    ToDoubleIsDouble(Pack(ticks, seqNo));
  }

  /** Decoding returns what was encoded if and only if the packed integer is itself a double. */
  lemma RoundTripIff(ticks: nat, seqNo: nat)
    requires EncodeScore(ticks, seqNo).Ok?
    ensures DecodeScore(EncodeScore(ticks, seqNo).value) == (ticks, seqNo) <==> IsDouble(Pack(ticks, seqNo))
  {
    RoundingError(Pack(ticks, seqNo));
    PackSplits(ticks, seqNo);
    var score := ToDouble(Pack(ticks, seqNo));
    assert score == DecodeScore(score).0 * SCORE_MULTIPLIER + DecodeScore(score).1;
  }

  /** Up to 2^53 scores are exact: they round-trip and are ordered as (price, sequence) pairs. */
  lemma ExactRange(ticks: nat, seqNo: nat, ticks': nat, seqNo': nat)
    requires EncodeScore(ticks, seqNo).Ok? && EncodeScore(ticks', seqNo').Ok?
    requires Pack(ticks, seqNo) <= EXACT && Pack(ticks', seqNo') <= EXACT
    ensures DecodeScore(EncodeScore(ticks, seqNo).value) == (ticks, seqNo)
    ensures EncodeScore(ticks, seqNo).value < EncodeScore(ticks', seqNo').value <==>
      ticks < ticks' || (ticks == ticks' && seqNo < seqNo')
  {
    ExactBelow(Pack(ticks, seqNo));
    ExactBelow(Pack(ticks', seqNo'));
    PackSplits(ticks, seqNo);
  }

  /** Over the whole accepted range the order is kept weakly, and the decoded price is off by at most
      one unit. */
  lemma FullRange(ticks: nat, seqNo: nat, ticks': nat, seqNo': nat)
    requires EncodeScore(ticks, seqNo).Ok? && EncodeScore(ticks', seqNo').Ok?
    ensures ticks < ticks' || (ticks == ticks' && seqNo <= seqNo') ==>
      EncodeScore(ticks, seqNo).value <= EncodeScore(ticks', seqNo').value
    ensures ticks - 1 <= DecodeScore(EncodeScore(ticks, seqNo).value).0 <= ticks + 1
  {
    var x, y := Pack(ticks, seqNo), Pack(ticks', seqNo');
    if x <= y { RoundingIsMonotone(x, y); }
    RoundingError(x);
    UlpRange(x);
    UlpInRange(x);
    DivBounds(ToDouble(x), SCORE_MULTIPLIER);
  }

  lemma UlpInRange(x: nat)
    requires x < (MAX_TICKS + 1) * SCORE_MULTIPLIER
    ensures Ulp(x) < SCORE_MULTIPLIER
  {
    UlpRange(x);
    var u := Ulp(x);
    assert EXACT <= x ==> 4_503_599_627_370_496 * u <= x;
  }

  /** At a price of 1,000,000 with the last sequence number the score is not exact: it decodes to the
      next price and sequence number 0. */
  lemma MillionIsNotExact()
    ensures EncodeScore(10_000_000_000, 999_999).Ok?
    ensures DecodeScore(EncodeScore(10_000_000_000, 999_999).value) == (10_000_000_001, 0)
  {
    var x := Pack(10_000_000_000, 999_999);
    assert x == 10_000_000_000_999_999;
    assert Ulp(x / 2) == 1;
    assert Ulp(x) == 2;
    assert x / 2 == 5_000_000_000_499_999 && x % 2 == 1;
    assert ToDouble(x) == 10_000_000_001_000_000;
  }
}
