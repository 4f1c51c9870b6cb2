/** Integer money: floored ratios and values, and the three guards a trade must pass
    (crates/core/src/units.rs: Ppm::ratio, UsdPrice::value; crates/core/src/profit.rs:
    evaluate, check_guards). */
module Profit {
  import opened Wrappers

  const PPM_ONE := 1_000_000
  const I64_MIN: int := -0x8000_0000_0000_0000
  const I64_MAX: int := 0x7fff_ffff_ffff_ffff

  predicate FitsI64(x: int) {
    I64_MIN <= x <= I64_MAX
  }

  function ToI64(x: int): Option<int> {
    if FitsI64(x) then Some(x) else None
  }

  /** `x as i64`: the low 64 bits, signed. */
  function WrapI64(x: int): int {
    (x - I64_MIN) % 0x1_0000_0000_0000_0000 + I64_MIN
  }

  function Clamp(x: int): int {
    if x < I64_MIN then I64_MIN else if x > I64_MAX then I64_MAX else x
  }

  /** Division toward negative infinity. */
  function Floor(a: int, b: int): int
    requires b > 0
  {
    a / b
  }

  /** Division toward zero, as `/` on machine integers. */
  function Truncated(a: int, b: int): int
    requires b != 0
  {
    if a >= 0 then (if b > 0 then a / b else -(a / -b))
    else if b > 0 then -(-a / b) else -a / -b
  }

  /** `num / den` in parts per million, rounded down; none if it does not fit. */
  function Ratio(num: int, den: int): Option<int> {
    if den <= 0 then None else ToI64(Floor(num * PPM_ONE, den))
  }

  /** Micro-dollars of `atoms` at `price` per `scale` atoms, rounded down. */
  function Value(price: nat, atoms: int, scale: int): Option<int>
    requires scale > 0
  {
    ToI64(Floor(atoms * price, scale))
  }

  datatype Eval = Eval(expectedNet: int, expectedNetUsd: Option<int>, simulatedNet: Option<int>)

  datatype Guards = Guards(minLamports: int, minEdge: int, minUsd: int)

  datatype GuardFailure = Lamports | Edge | Usd | PriceUnavailable

  function Evaluate(input: nat, output: nat, costs: nat, scale: int, price: Option<nat>): Eval
    requires scale > 0
  {
    var net := output - input - costs;
    Eval(Clamp(net), if price.None? then None else Value(price.value, net, scale), None)
  }

  /** The smaller of the simulated and the expected result. */
  function Chosen(e: Eval): int {
    if e.simulatedNet.Some? && e.simulatedNet.value < e.expectedNet then e.simulatedNet.value else e.expectedNet
  }

  function OrZero(x: Option<int>): int {
    if x.Some? then x.value else 0
  }

  /** The expected dollars rescaled to the chosen result, at the same price. */
  function Rescaled(usd: int, net: int, expected: int): int {
    if expected == 0 then usd else WrapI64(Truncated(usd * net, expected))
  }

  function CheckGuards(e: Eval, input: nat, g: Guards): Result<(), GuardFailure> {
    var net := Chosen(e);
    if net < g.minLamports then Err(Lamports)
    else if OrZero(Ratio(net, input)) < g.minEdge then Err(Edge)
    else if g.minUsd <= 0 then Ok(())
    else if e.expectedNetUsd.None? then Err(PriceUnavailable)
    else if Rescaled(e.expectedNetUsd.value, net, e.expectedNet) < g.minUsd then Err(Usd)
    else Ok(())
  }

  // ------------------------------------------------------------------
  // Rounding.
  // ------------------------------------------------------------------

  lemma FloorBounds(a: int, b: int)
    requires b > 0
    ensures Floor(a, b) * b <= a < Floor(a, b) * b + b
  {
  }

  lemma FloorIsLargest(a: int, b: int, q: int)
    requires b > 0
    ensures q * b <= a ==> q <= Floor(a, b)
    ensures q * b > a ==> q > Floor(a, b)
  {
    FloorBounds(a, b);
    var f := Floor(a, b);
    if q > f {
      assert q * b >= (f + 1) * b by { Scale(f + 1, q, b); }
      assert (f + 1) * b == f * b + b;
    } else {
      Scale(q, f, b);
    }
  }

  lemma Scale(x: int, y: int, k: int)
    requires x <= y && k >= 0
    ensures x * k <= y * k
  {
    assert (y - x) * k >= 0;
    assert y * k == x * k + (y - x) * k;
  }

  lemma Cancel(x: int, y: int, k: int)
    requires k > 0
    ensures x * k <= y * k ==> x <= y
    ensures x * k < y * k ==> x < y
  {
    if x > y {
      Scale(y + 1, x, k);
      assert (y + 1) * k == y * k + k;
    }
  }

  lemma FloorOfProduct(q: int, b: int)
    requires b > 0
    ensures Floor(q * b, b) == q
  {
    FloorBounds(q * b, b);
    var f := Floor(q * b, b);
    Cancel(f, q, b);
    Cancel(q, f + 1, b);
    assert (f + 1) * b == f * b + b;
  }

  /** Rescaling a floored value and flooring again never overstates. */
  lemma RescaleNeverOverstates(price: nat, scale: int, expected: int, net: int)
    requires scale > 0 && expected > 0 && 0 <= net <= expected
    ensures Floor(Floor(expected * price, scale) * net, expected) <= Floor(net * price, scale)
  {
    var usd := Floor(expected * price, scale);
    var u := Floor(usd * net, expected);
    FloorBounds(expected * price, scale);
    FloorBounds(usd * net, expected);
    Scale(u * expected, usd * net, scale);
    Scale(usd * scale, expected * price, net);
    assert (u * scale) * expected == (u * expected) * scale;
    assert (usd * net) * scale == (usd * scale) * net;
    assert (expected * price) * net == (net * price) * expected;
    Cancel(u * scale, net * price, expected);
    FloorIsLargest(net * price, scale, u);
  }

  /** And it understates by at most one micro-dollar. */
  lemma RescaleLosesAtMostOne(price: nat, scale: int, expected: int, net: int)
    requires scale > 0 && expected > 0 && 0 <= net <= expected
    ensures Floor(net * price, scale) - 1 <= Floor(Floor(expected * price, scale) * net, expected)
  {
    var usd, y := Floor(expected * price, scale), Floor(net * price, scale);
    FloorBounds(expected * price, scale);
    FloorBounds(net * price, scale);
    CrossScaled(price, scale, expected, net, usd, y);
    Cancel((y - 1) * expected, usd * net, scale);
    FloorIsLargest(usd * net, expected, y - 1);
  }

  lemma CrossScaled(price: nat, scale: int, expected: int, net: int, usd: int, y: int)
    requires scale > 0 && expected > 0 && 0 <= net <= expected
    requires y * scale <= net * price && expected * price - scale <= usd * scale
    ensures ((y - 1) * expected) * scale <= (usd * net) * scale
  {
    Scale(y * scale, net * price, expected);
    Scale(expected * price - scale, usd * scale, net);
    Scale(net, expected, scale);
    assert (expected * price - scale) * net == (net * price) * expected - scale * net;
    assert (y * scale) * expected == (y * expected) * scale;
    assert ((y - 1) * expected) * scale == (y * expected) * scale - expected * scale;
    assert (usd * scale) * net == (usd * net) * scale;
  }

  // ------------------------------------------------------------------
  // What passing the guards means.
  // ------------------------------------------------------------------

  /** The floored edge meets the minimum exactly when the true one does. */
  lemma EdgeIsExact(net: int, input: nat, minEdge: int)
    requires Ratio(net, input).Some?
    ensures Ratio(net, input).value >= minEdge <==> net * PPM_ONE >= minEdge * input
  {
    FloorIsLargest(net * PPM_ONE, input, minEdge);
  }

  /** Also where the ratio does not fit, for a result that is not a loss. */
  lemma EdgeGuardSound(net: int, input: nat, minEdge: int)
    requires net >= 0 && OrZero(Ratio(net, input)) >= minEdge
    ensures net * PPM_ONE >= minEdge * input
  {
    if Ratio(net, input).Some? {
      EdgeIsExact(net, input, minEdge);
    } else {
      Scale(minEdge, 0, input);
    }
  }

  lemma FloorOfGain(a: int, b: int)
    requires b > 0
    ensures a >= 0 ==> Floor(a, b) >= 0
    ensures a <= 0 ==> Floor(a, b) <= 0
  {
    FloorIsLargest(a, b, 0);
    FloorIsLargest(a, b, 1);
  }

  /** On a gain, the machine's rescaling is the floored one: nothing wraps. */
  lemma RescaledOnGain(usd: int, net: int, expected: int)
    requires FitsI64(usd) && usd >= 0 && 0 <= net <= expected && expected > 0
    ensures Rescaled(usd, net, expected) == Floor(usd * net, expected) && 0 <= Floor(usd * net, expected) <= usd
  {
    assert usd * net >= 0;
    FloorOfGain(usd * net, expected);
    FloorBounds(usd * net, expected);
    Scale(net, expected, usd);
    assert usd * net <= usd * expected;
    Cancel(Floor(usd * net, expected), usd, expected);
  }

  /** The true floored dollar value of the chosen result. */
  function DollarValue(price: nat, net: int, scale: int): int
    requires scale > 0
  {
    Floor(net * price, scale)
  }

  lemma ExpectedIsGain(price: nat, net: int, scale: int)
    requires scale > 0 && net >= 0
    ensures Floor(net * price, scale) >= 0
  {
    assert net * price >= 0;
    FloorOfGain(net * price, scale);
  }

  /** The result meets the lamport minimum, the edge minimum without rounding, and the
      dollar minimum, if there is one, at its exact floored value. */
  predicate MeetsAll(net: int, input: nat, scale: int, price: Option<nat>, g: Guards)
    requires scale > 0
  {
    && net >= g.minLamports
    && net * PPM_ONE >= g.minEdge * input
    && (g.minUsd > 0 ==> price.Some? && DollarValue(price.value, net, scale) >= g.minUsd)
  }

  /** The least lamport minimum at which the guards are sound without an edge minimum:
      a dollar minimum shuts out the smallest losses by itself. */
  function LossBound(g: Guards): int {
    if g.minUsd <= 0 then 0 else if g.minUsd < I64_MAX then -1 else -2
  }

  predicate SoundGuards(g: Guards) {
    g.minEdge > 0 || g.minLamports >= LossBound(g)
  }

  lemma TruncatedLoss(usd: nat, m: nat, k: nat)
    requires 1 <= k && (m == 1 || (m == 2 && k >= 2))
    ensures 0 <= usd * m / k <= usd
  {
    FloorOfGain(usd * m, k);
    FloorBounds(usd * m, k);
    Scale(m, k, usd);
    Cancel(Floor(usd * m, k), usd, k);
  }

  /** A loss of one or two lamports, in dollars: it does not wrap, or wraps to an even
      number. */
  lemma SmallLoss(usd: int, net: int, expected: int)
    requires FitsI64(usd) && -2 <= net <= -1 && net <= expected
    requires (expected >= 0 ==> usd >= 0) && (expected <= 0 ==> usd <= 0)
    ensures Rescaled(usd, net, expected) <= 0 || (net == -2 && Rescaled(usd, net, expected) % 2 == 0)
  {
    if expected >= 1 {
      SmallLossOfGain(usd, net, expected);
    } else if expected < 0 {
      SmallLossOfLoss(usd, net, expected);
    }
  }

  lemma SmallLossOfGain(usd: nat, net: int, expected: int)
    requires FitsI64(usd) && -2 <= net <= -1 && expected >= 1
    ensures Rescaled(usd, net, expected) <= 0 || (net == -2 && Rescaled(usd, net, expected) % 2 == 0)
  {
    var loss := -net;
    var q := usd * loss / expected;
    assert usd * net == -(usd * loss);
    TruncatedOfLoss(usd * loss, expected);
    if loss == 1 || expected >= 2 {
      TruncatedLoss(usd, loss, expected);
      WrapOfSmall(-q);
    } else {
      WrapOfTwice(usd);
    }
  }

  lemma TruncatedOfLoss(a: nat, b: int)
    requires b > 0
    ensures Truncated(-(a as int), b) == -(a / b)
  {
  }

  lemma WrapOfSmall(x: int)
    requires FitsI64(x)
    ensures WrapI64(x) == x
  {
  }

  lemma WrapOfTwice(usd: nat)
    requires FitsI64(usd)
    ensures WrapI64(-2 * usd) == if 2 * usd <= -I64_MIN then -2 * usd else 0x1_0000_0000_0000_0000 - 2 * usd
  {
  }

  lemma SmallLossOfLoss(usd: int, net: int, expected: int)
    requires FitsI64(usd) && usd <= 0 && -2 <= net <= expected < 0
    ensures Rescaled(usd, net, expected) <= 0 || (net == -2 && Rescaled(usd, net, expected) % 2 == 0)
  {
  }

  lemma EdgeMeansGain(net: int, input: nat)
    requires OrZero(Ratio(net, input)) > 0
    ensures net > 0
  {
    FloorOfGain(net * PPM_ONE, input);
  }

  lemma SignOfDollars(price: nat, net: int, scale: int)
    requires scale > 0
    ensures net >= 0 ==> DollarValue(price, net, scale) >= 0
    ensures net <= 0 ==> DollarValue(price, net, scale) <= 0
  {
    FloorOfGain(net * price, scale);
    if net >= 0 {
      Scale(0, net, price);
    } else {
      Scale(net, 0, price);
    }
  }

  /** With sound guards no loss passes. */
  lemma NoLossPasses(
    input: nat, output: nat, costs: nat, scale: int, price: Option<nat>, simulated: Option<int>, g: Guards)
    requires scale > 0 && SoundGuards(g) && FitsI64(output - input - costs)
    requires CheckGuards(Evaluate(input, output, costs, scale, price).(simulatedNet := simulated), input, g).Ok?
    ensures Chosen(Evaluate(input, output, costs, scale, price).(simulatedNet := simulated)) >= 0
  {
    var e := Evaluate(input, output, costs, scale, price).(simulatedNet := simulated);
    if g.minEdge > 0 {
      EdgeMeansGain(Chosen(e), input);
    } else if g.minUsd > 0 && Chosen(e) < 0 {
      SignOfDollars(price.value, e.expectedNet, scale);
      SmallLoss(e.expectedNetUsd.value, Chosen(e), e.expectedNet);
    }
  }

  /** Main result: with sound guards and a net that fits, passing means that the smaller
      of the simulated and the expected result meets all three minimums exactly. */
  lemma GuardsAreSound(
    input: nat, output: nat, costs: nat, scale: int, price: Option<nat>, simulated: Option<int>, g: Guards)
    requires scale > 0 && SoundGuards(g) && FitsI64(output - input - costs)
    requires CheckGuards(Evaluate(input, output, costs, scale, price).(simulatedNet := simulated), input, g).Ok?
    ensures MeetsAll(
              Chosen(Evaluate(input, output, costs, scale, price).(simulatedNet := simulated)), input, scale, price, g)
  {
    var e := Evaluate(input, output, costs, scale, price).(simulatedNet := simulated);
    NoLossPasses(input, output, costs, scale, price, simulated, g);
    EdgeGuardSound(Chosen(e), input, g.minEdge);
    if g.minUsd > 0 {
      DollarsAreSound(e, price.value, scale);
    }
  }

  lemma DollarsAreSound(e: Eval, price: nat, scale: int)
    requires scale > 0 && 0 <= Chosen(e) && e.expectedNetUsd == Value(price, e.expectedNet, scale)
      && e.expectedNetUsd.Some?
    ensures Rescaled(e.expectedNetUsd.value, Chosen(e), e.expectedNet) <= DollarValue(price, Chosen(e), scale)
  {
    ExpectedIsGain(price, e.expectedNet, scale);
    if e.expectedNet == 0 {
      FloorOfGain(e.expectedNet * price, scale);
    } else {
      RescaledOnGain(e.expectedNetUsd.value, Chosen(e), e.expectedNet);
      RescaleNeverOverstates(price, scale, e.expectedNet, Chosen(e));
    }
  }

  const U64_MAX: int := 0xffff_ffff_ffff_ffff

  /** Arguments the machine's integers hold, with a net that does not clamp. */
  predicate InRange(input: nat, output: nat, costs: nat, price: Option<nat>, simulated: Option<int>) {
    && input <= U64_MAX && output <= U64_MAX && costs <= U64_MAX && FitsI64(output - input - costs)
    && (price.Some? ==> price.value <= U64_MAX) && (simulated.Some? ==> FitsI64(simulated.value))
  }

  predicate MachineGuards(g: Guards) {
    FitsI64(g.minLamports) && FitsI64(g.minEdge) && FitsI64(g.minUsd)
  }

  ghost predicate AlwaysSound(g: Guards) {
    forall input: nat, output: nat, costs: nat, scale: int, price: Option<nat>, simulated: Option<int> |
      scale > 0 && InRange(input, output, costs, price, simulated) ::
      var e := Evaluate(input, output, costs, scale, price).(simulatedNet := simulated);
      CheckGuards(e, input, g).Ok? ==> MeetsAll(Chosen(e), input, scale, price, g)
  }

  /** Guards that are not sound let a loss pass. */
  lemma UnsoundGuardsPassALoss(g: Guards) returns (costs: nat, output: nat, price: Option<nat>, simulated: Option<int>)
    requires MachineGuards(g) && !SoundGuards(g)
    ensures InRange(0, output, costs, price, simulated)
    ensures
      && var e := Evaluate(0, output, costs, 1, price).(simulatedNet := simulated);
      && CheckGuards(e, 0, g).Ok? && Chosen(e) < 0 && !MeetsAll(Chosen(e), 0, 1, price, g)
  {
    if g.minUsd <= 0 {
      return 1, 0, None, None;
    } else if g.minUsd < I64_MAX {
      return 0, 1, Some(0x4000_0000_0000_0001), Some(-2);
    } else {
      return 0, 1, Some(3_074_457_345_618_258_603), Some(-3);
    }
  }

  /** Main result: for every setting of the guards, passing them means meeting them,
      whatever is priced and simulated, if and only if they ask for some edge or for a
      lamport minimum of at least the bound. */
  lemma SoundExactly(g: Guards)
    requires MachineGuards(g)
    ensures AlwaysSound(g) <==> SoundGuards(g)
  {
    if SoundGuards(g) {
      forall input: nat, output: nat, costs: nat, scale: int, price: Option<nat>, simulated: Option<int> |
        && scale > 0 && InRange(input, output, costs, price, simulated)
        && CheckGuards(Evaluate(input, output, costs, scale, price).(simulatedNet := simulated), input, g).Ok?
        ensures MeetsAll(
          Chosen(Evaluate(input, output, costs, scale, price).(simulatedNet := simulated)), input, scale, price, g)
      {
        GuardsAreSound(input, output, costs, scale, price, simulated, g);
      }
    } else {
      var costs, output, price, simulated := UnsoundGuardsPassALoss(g);
    }
  }

  // ------------------------------------------------------------------
  // The same at one scale and for a positive input.
  // ------------------------------------------------------------------

  /** The least loss whose edge over an input of one does not fit, and reads as zero. */
  const UNREADABLE := 9_223_372_036_855

  function CeilDiv(a: nat, b: nat): nat
    requires b > 0
  {
    (a + b - 1) / b
  }

  lemma CeilBounds(a: nat, b: nat)
    requires b > 0
    ensures CeilDiv(a, b) * b >= a && CeilDiv(a, b) * b < a + b
  {
  }

  /** The most that one lamport can be in micro-dollars, as far as that fits. */
  function DearestLamport(scale: int): (d: int)
    requires scale > 0
    ensures d >= 0
  {
    if CeilDiv(U64_MAX, scale) > -I64_MIN then -I64_MIN else CeilDiv(U64_MAX, scale)
  }

  /** The least loss whose value, rescaled from that of one lamport, can wrap. */
  function WrapLoss(scale: int): (loss: int)
    requires scale > 0
    ensures loss >= 0
  {
    DearestIsPositive(scale);
    CeilDiv(-I64_MIN + 1, DearestLamport(scale))
  }

  lemma DearestIsPositive(scale: int)
    requires scale > 0
    ensures DearestLamport(scale) > 0
  {
    CeilBounds(U64_MAX, scale);
  }

  /** The least loss that guards without an edge minimum can let pass unseen. */
  function PassingLoss(g: Guards, scale: int): (loss: int)
    requires scale > 0
    ensures loss >= 0
  {
    if g.minUsd <= 0 then UNREADABLE
    else if g.minEdge < 0 || WrapLoss(scale) > UNREADABLE then WrapLoss(scale)
    else UNREADABLE
  }

  predicate SoundGuardsAt(g: Guards, scale: int)
    requires scale > 0
  {
    g.minEdge > 0 || g.minLamports > -PassingLoss(g, scale)
  }

  /** At nine decimals, half a SOL. */
  lemma HalfASol()
    ensures WrapLoss(1_000_000_000) == 500_000_000
  {
  }

  /** Micro-dollars of `expected` lamports are at most so many times the dearest lamport. */
  lemma DollarsPerLamport(price: nat, expected: int, scale: int)
    requires scale > 0 && price <= U64_MAX && Value(price, expected, scale).Some?
    ensures
      && var usd := Value(price, expected, scale).value;
      && (expected >= 0 ==> 0 <= usd <= expected * DearestLamport(scale))
      && (expected <= 0 ==> expected * DearestLamport(scale) <= usd <= 0)
  {
    var c := CeilDiv(U64_MAX, scale);
    var usd := Value(price, expected, scale).value;
    SignOfDollars(price, expected, scale);
    CeilBounds(U64_MAX, scale);
    FloorBounds(expected * price, scale);
    if expected > 0 {
      Scale(price, c * scale, expected);
      FloorIsMonotone(expected * price, expected * c * scale, scale);
      assert price * expected == expected * price && c * scale * expected == expected * c * scale;
      FloorOfProduct(expected * c, scale);
      Scale(1, expected, -I64_MIN);
    } else if expected < 0 {
      Scale(price, c * scale, -expected);
      assert price * -expected == -(expected * price) && c * scale * -expected == -(expected * c * scale);
      FloorIsMonotone(expected * c * scale, expected * price, scale);
      FloorOfProduct(expected * c, scale);
      Scale(1, -expected, -I64_MIN);
    }
  }

  /** A loss below the bound is worth no dollars, however it is rescaled. */
  lemma NoWrap(usd: int, net: int, expected: int, dearest: nat)
    requires net < 0 && net <= expected && -net * dearest <= -I64_MIN
    requires expected >= 0 ==> 0 <= usd <= expected * dearest
    requires expected <= 0 ==> expected * dearest <= usd <= 0
    ensures Rescaled(usd, net, expected) <= 0
  {
    if expected > 0 {
      QuotientFits(usd, -net, expected, dearest);
      assert usd * net == -(usd * -net);
    } else if expected < 0 {
      assert -(expected * dearest) == -expected * dearest;
      QuotientFits(-usd, -net, -expected, dearest);
      assert usd * net == -usd * -net;
    }
  }

  lemma QuotientFits(usd: nat, loss: nat, expected: nat, dearest: nat)
    requires expected > 0 && usd <= expected * dearest && loss * dearest <= -I64_MIN
    ensures 0 <= usd * loss / expected <= -I64_MIN
  {
    Scale(usd, expected * dearest, loss);
    assert expected * dearest * loss == loss * dearest * expected;
    FloorIsMonotone(usd * loss, loss * dearest * expected, expected);
    FloorOfProduct(loss * dearest, expected);
    FloorOfGain(usd * loss, expected);
  }

  lemma BelowTheBound(loss: nat, scale: int)
    requires scale > 0 && loss < WrapLoss(scale)
    ensures loss * DearestLamport(scale) <= -I64_MIN
  {
    var d := DearestLamport(scale);
    DearestIsPositive(scale);
    CeilBounds(-I64_MIN + 1, d);
    Scale(loss + 1, WrapLoss(scale), d);
    assert (loss + 1) * d == loss * d + d;
  }

  lemma SmallLossIsRead(net: int, input: nat)
    requires input > 0 && -UNREADABLE < net < 0
    ensures Ratio(net, input).Some? && Ratio(net, input).value < 0
  {
    FloorBounds(net * PPM_ONE, input);
    FloorIsLargest(net * PPM_ONE, input, 0);
    FloorIsLargest(net * PPM_ONE, input, net * PPM_ONE);
    Scale(1, input, -(net * PPM_ONE));
  }

  /** Main result at one scale, for a positive input: with sound guards, passing means
      meeting all three minimums. */
  lemma GuardsAreSoundAt(
    input: nat, output: nat, costs: nat, scale: int, price: Option<nat>, simulated: Option<int>, g: Guards)
    requires scale > 0 && input > 0 && SoundGuardsAt(g, scale) && InRange(input, output, costs, price, simulated)
    requires CheckGuards(Evaluate(input, output, costs, scale, price).(simulatedNet := simulated), input, g).Ok?
    ensures MeetsAll(
              Chosen(Evaluate(input, output, costs, scale, price).(simulatedNet := simulated)), input, scale, price, g)
  {
    var e := Evaluate(input, output, costs, scale, price).(simulatedNet := simulated);
    var net := Chosen(e);
    if g.minEdge > 0 {
      GuardsAreSound(input, output, costs, scale, price, simulated, g);
    } else if net >= 0 {
      GuardsAreSound(input, output, costs, scale, price, simulated, g.(minLamports := 0));
    } else {
      if net > -UNREADABLE {
        SmallLossIsRead(net, input);
        EdgeIsExact(net, input, g.minEdge);
      }
      if g.minUsd > 0 && -net < WrapLoss(scale) {
        DollarsPerLamport(price.value, e.expectedNet, scale);
        BelowTheBound(-net, scale);
        NoWrap(e.expectedNetUsd.value, net, e.expectedNet, DearestLamport(scale));
      }
    }
  }

  ghost predicate AlwaysSoundAt(g: Guards, scale: int)
    requires scale > 0
  {
    forall input: nat, output: nat, costs: nat, price: Option<nat>, simulated: Option<int> |
      input > 0 && InRange(input, output, costs, price, simulated) ::
      var e := Evaluate(input, output, costs, scale, price).(simulatedNet := simulated);
      CheckGuards(e, input, g).Ok? ==> MeetsAll(Chosen(e), input, scale, price, g)
  }

  /** A price at which one lamport is worth so many micro-dollars, rounded up. */
  function PriceFor(worth: int, scale: int): nat
    requires scale > 0 && worth >= 0
  {
    if worth * scale > U64_MAX then U64_MAX else worth * scale
  }

  lemma PriceForIsExact(worth: int, scale: int)
    requires scale > 0 && 0 <= worth <= DearestLamport(scale)
    ensures PriceFor(worth, scale) <= U64_MAX && Value(PriceFor(worth, scale), -1, scale) == Some(-worth)
  {
    var price: int, c: int := PriceFor(worth, scale), CeilDiv(U64_MAX, scale);
    CeilBounds(U64_MAX, scale);
    if worth * scale > U64_MAX {
      Cancel(c - 1, worth, scale);
      assert (c - 1) * scale == c * scale - scale;
      FloorIsLargest(-price, scale, -c);
      FloorIsLargest(-price, scale, -c + 1);
      assert (-c) * scale == -(c * scale) && (-c + 1) * scale == -(c * scale) + scale;
    } else {
      FloorOfProduct(-worth, scale);
      assert (-worth) * scale == -price;
    }
  }

  /** A worth of one lamport at which a loss wraps to at least the dollar minimum. */
  lemma WorthThatWraps(loss: int, scale: int, minUsd: int) returns (worth: int)
    requires scale > 0 && loss > 0 && loss >= WrapLoss(scale) && minUsd + loss <= -I64_MIN
    ensures 0 <= worth <= DearestLamport(scale) && Rescaled(-worth, -loss, -1) >= minUsd
  {
    var d := DearestLamport(scale);
    DearestIsPositive(scale);
    CeilBounds(-I64_MIN + 1, d);
    Scale(WrapLoss(scale), loss, d);
    worth := CeilDiv(-I64_MIN + 1, loss);
    CeilBounds(-I64_MIN + 1, loss);
    assert worth * loss >= -I64_MIN + 1;
    Cancel(worth - 1, d, loss);
    assert d * loss == loss * d && (worth - 1) * loss == worth * loss - loss;
    assert -worth * -loss == worth * loss;
  }

  /** Guards that are not sound at a scale let a loss pass there, on a positive input. */
  lemma UnsoundGuardsPassALossAt(g: Guards, scale: int)
    returns (input: nat, price: Option<nat>, simulated: Option<int>)
    requires MachineGuards(g) && scale > 0 && !SoundGuardsAt(g, scale)
    requires g.minUsd > 0 ==> g.minUsd + PassingLoss(g, scale) <= -I64_MIN
    ensures input > 0 && InRange(input, input - 1, 0, price, simulated)
    ensures
      && var e := Evaluate(input, input - 1, 0, scale, price).(simulatedNet := simulated);
      && CheckGuards(e, input, g).Ok? && Chosen(e) < 0 && !MeetsAll(Chosen(e), input, scale, price, g)
  {
    var loss := PassingLoss(g, scale);
    input := if loss >= UNREADABLE then 1 else loss * PPM_ONE;
    simulated := Some(-loss);
    price := None;
    if g.minUsd > 0 {
      var worth := WorthThatWraps(loss, scale, g.minUsd);
      PriceForIsExact(worth, scale);
      price := Some(PriceFor(worth, scale));
      SignOfDollars(price.value, -loss, scale);
    }
    ReadOfTheLoss(loss, input, g.minEdge);
  }

  lemma ReadOfTheLoss(loss: int, input: nat, minEdge: int)
    requires loss > 0 && minEdge <= 0 && (minEdge < 0 || loss >= UNREADABLE)
    requires input == if loss >= UNREADABLE then 1 else loss * PPM_ONE
    ensures OrZero(Ratio(-loss, input)) >= minEdge
  {
    if loss < UNREADABLE {
      assert -loss * PPM_ONE == -1 * input;
      FloorOfProduct(-1, input);
    }
  }

  /** Main result: at every scale, and for every setting of the guards with a dollar minimum
      that leaves room for the loss, passing means meeting them on every positive input if
      and only if they ask for some edge or for a lamport minimum above the bound of the
      scale. */
  lemma SoundExactlyAt(g: Guards, scale: int)
    requires MachineGuards(g) && scale > 0
    requires g.minUsd > 0 ==> g.minUsd + PassingLoss(g, scale) <= -I64_MIN
    ensures AlwaysSoundAt(g, scale) <==> SoundGuardsAt(g, scale)
  {
    if SoundGuardsAt(g, scale) {
      forall input: nat, output: nat, costs: nat, price: Option<nat>, simulated: Option<int> |
        && input > 0 && InRange(input, output, costs, price, simulated)
        && CheckGuards(Evaluate(input, output, costs, scale, price).(simulatedNet := simulated), input, g).Ok?
        ensures MeetsAll(
          Chosen(Evaluate(input, output, costs, scale, price).(simulatedNet := simulated)), input, scale, price, g)
      {
        GuardsAreSoundAt(input, output, costs, scale, price, simulated, g);
      }
    } else {
      var input, price, simulated := UnsoundGuardsPassALossAt(g, scale);
    }
  }

  /** And a result that meets all three with a micro-dollar to spare passes. */
  lemma GuardsLetPass(
    input: nat, output: nat, costs: nat, scale: int, price: nat, simulated: Option<int>, g: Guards)
    requires scale > 0 && FitsI64(output - input - costs)
    requires
      var e := Evaluate(input, output, costs, scale, Some(price)).(simulatedNet := simulated);
      && Chosen(e) >= g.minLamports
      && Ratio(Chosen(e), input).Some? && Chosen(e) * PPM_ONE >= g.minEdge * input
      && (g.minUsd > 0 ==> e.expectedNetUsd.Some? && DollarValue(price, Chosen(e), scale) >= g.minUsd + 1)
    ensures CheckGuards(Evaluate(input, output, costs, scale, Some(price)).(simulatedNet := simulated), input, g).Ok?
  {
    var e := Evaluate(input, output, costs, scale, Some(price)).(simulatedNet := simulated);
    EdgeIsExact(Chosen(e), input, g.minEdge);
    if g.minUsd > 0 {
      SignOfDollars(price, Chosen(e), scale);
      ExpectedIsGain(price, e.expectedNet, scale);
      RescaledOnGain(e.expectedNetUsd.value, Chosen(e), e.expectedNet);
      RescaleLosesAtMostOne(price, scale, e.expectedNet, Chosen(e));
    }
  }

  /** A ratio and a value are given exactly where they fit, and are then the floored ones. */
  lemma GivenWhereTheyFit(num: int, den: int, price: nat, scale: int)
    requires scale > 0
    ensures Ratio(num, den).Some? <==> den > 0 && I64_MIN * den <= num * PPM_ONE < (I64_MAX + 1) * den
    ensures Ratio(num, den).Some? ==>
      Ratio(num, den).value * den <= num * PPM_ONE < (Ratio(num, den).value + 1) * den
    ensures Value(price, num, scale).Some? <==> I64_MIN * scale <= num * price < (I64_MAX + 1) * scale
    ensures Value(price, num, scale).Some? ==>
      Value(price, num, scale).value * scale <= num * price < (Value(price, num, scale).value + 1) * scale
  {
    if den > 0 {
      FloorIsWithin(num * PPM_ONE, den);
    }
    FloorIsWithin(num * price, scale);
  }

  lemma FloorIsWithin(a: int, b: int)
    requires b > 0
    ensures FitsI64(Floor(a, b)) <==> I64_MIN * b <= a < (I64_MAX + 1) * b
    ensures Floor(a, b) * b <= a < (Floor(a, b) + 1) * b
  {
    FloorBounds(a, b);
    FloorIsLargest(a, b, I64_MIN);
    FloorIsLargest(a, b, I64_MAX + 1);
    assert (Floor(a, b) + 1) * b == Floor(a, b) * b + b;
  }

  /** The result judged is the worse of the two there are, with what is simulated. */
  lemma WorseOfTheTwo(e: Eval)
    ensures Chosen(e) <= e.expectedNet && (e.simulatedNet.Some? ==> Chosen(e) <= e.simulatedNet.value)
    ensures Chosen(e) == e.expectedNet || e.simulatedNet == Some(Chosen(e))
  {
  }

  /** Main result on refusals: the guard named is the first not met, in the order lamports, edge
      without rounding, price, dollars; the last one to within a micro-dollar, on a gain. */
  lemma RefusalNamesTheGuard(
    input: nat, output: nat, costs: nat, scale: int, price: Option<nat>, simulated: Option<int>, g: Guards)
    requires scale > 0 && FitsI64(output - input - costs)
    requires
      && var e := Evaluate(input, output, costs, scale, price).(simulatedNet := simulated);
      && Ratio(Chosen(e), input).Some?
    ensures
      && var e := Evaluate(input, output, costs, scale, price).(simulatedNet := simulated);
      && var net, r := Chosen(e), CheckGuards(e, input, g);
      && var lamports, edge := net >= g.minLamports, net * PPM_ONE >= g.minEdge * input;
      && var priced := price.Some? && Value(price.value, output - input - costs, scale).Some?;
      && (r == Err(Lamports) <==> !lamports)
      && (r == Err(Edge) <==> lamports && !edge)
      && (r == Err(PriceUnavailable) <==> lamports && edge && g.minUsd > 0 && !priced)
      && (r == Err(Usd) ==>
           && lamports && edge && g.minUsd > 0 && priced
           && (net >= 0 ==> DollarValue(price.value, net, scale) <= g.minUsd))
  {
    var e := Evaluate(input, output, costs, scale, price).(simulatedNet := simulated);
    EdgeIsExact(Chosen(e), input, g.minEdge);
    if g.minUsd > 0 && e.expectedNetUsd.Some? && Chosen(e) >= 0 {
      DollarsLoseAtMostOne(e, price.value, scale);
    }
  }

  lemma DollarsLoseAtMostOne(e: Eval, price: nat, scale: int)
    requires scale > 0 && 0 <= Chosen(e) && e.expectedNetUsd == Value(price, e.expectedNet, scale)
      && e.expectedNetUsd.Some?
    ensures DollarValue(price, Chosen(e), scale) - 1 <= Rescaled(e.expectedNetUsd.value, Chosen(e), e.expectedNet)
  {
    if e.expectedNet > 0 {
      ExpectedIsGain(price, e.expectedNet, scale);
      RescaledOnGain(e.expectedNetUsd.value, Chosen(e), e.expectedNet);
      RescaleLosesAtMostOne(price, scale, e.expectedNet, Chosen(e));
    }
  }

  // ------------------------------------------------------------------
  // Costs only take away.
  // ------------------------------------------------------------------

  lemma FloorIsMonotone(a: int, b: int, k: int)
    requires a <= b && k > 0
    ensures Floor(a, k) <= Floor(b, k)
  {
    FloorBounds(a, k);
    FloorIsLargest(b, k, Floor(a, k));
  }

  lemma RescaledToItself(usd: int, net: int)
    requires FitsI64(usd) && usd >= 0 && net > 0
    ensures Rescaled(usd, net, net) == usd
  {
    RescaledOnGain(usd, net, net);
    FloorOfProduct(usd, net);
  }

  /** The edge as the guard reads it: zero where it does not fit. */
  function EdgeRead(net: int, input: nat): int {
    OrZero(Ratio(net, input))
  }

  predicate PassesAt(input: nat, output: nat, costs: nat, scale: int, price: Option<nat>, g: Guards)
    requires scale > 0
  {
    CheckGuards(Evaluate(input, output, costs, scale, price), input, g).Ok?
  }

  /** The edge and the dollars the guards read do not fall when the net rises from `less`
      to `more`. */
  predicate ReadsRise(less: int, more: int, input: nat, scale: int, price: Option<nat>)
    requires scale > 0
  {
    && EdgeRead(less, input) <= EdgeRead(more, input)
    && (price.Some? && OrZero(Value(price.value, less, scale)) > 0 ==> Value(price.value, more, scale).Some?)
  }

  lemma DollarsToThemselves(price: nat, net: int, scale: int)
    requires scale > 0 && Value(price, net, scale).Some?
    ensures
      && var usd := Value(price, net, scale).value;
      && (usd > 0 ==> net > 0 && Rescaled(usd, net, net) == usd)
      && (usd <= 0 ==> Rescaled(usd, net, net) <= 0)
  {
    var usd := Value(price, net, scale).value;
    SignOfDollars(price, net, scale);
    if net > 0 {
      RescaledToItself(usd, net);
    } else if net < 0 {
      RescaledLossToItself(usd, net);
    }
  }

  lemma RescaledLossToItself(usd: int, net: int)
    requires FitsI64(usd) && usd <= 0 && net < 0
    ensures Rescaled(usd, net, net) == usd
  {
    assert usd * net == (-usd) * (-net);
    assert usd * net >= 0;
    FloorOfProduct(-usd, -net);
  }

  lemma RisingReadsPass(
    input: nat, output: nat, low: nat, high: nat, scale: int, price: Option<nat>, g: Guards)
    requires scale > 0 && low <= high && FitsI64(output - input - low) && FitsI64(output - input - high)
    requires ReadsRise(output - input - high, output - input - low, input, scale, price)
    requires PassesAt(input, output, high, scale, price, g)
    ensures PassesAt(input, output, low, scale, price, g)
  {
    var more, less := output - input - low, output - input - high;
    if g.minUsd > 0 {
      var p := price.value;
      DollarsToThemselves(p, less, scale);
      DollarsToThemselves(p, more, scale);
      Scale(less, more, p);
      FloorIsMonotone(less * p, more * p, scale);
    }
  }

  /** Main result: what passes the guards before simulation at higher costs passes them at
      lower costs, for every setting of the guards, if and only if what they read of edge
      and dollars does not fall. */
  lemma CheaperPassesExactly(input: nat, output: nat, low: nat, high: nat, scale: int, price: Option<nat>)
    requires scale > 0 && low <= high && FitsI64(output - input - low) && FitsI64(output - input - high)
    ensures
      (forall g | MachineGuards(g) && PassesAt(input, output, high, scale, price, g) ::
        PassesAt(input, output, low, scale, price, g))
      <==> ReadsRise(output - input - high, output - input - low, input, scale, price)
  {
    var more, less := output - input - low, output - input - high;
    if ReadsRise(less, more, input, scale, price) {
      forall g | MachineGuards(g) && PassesAt(input, output, high, scale, price, g)
        ensures PassesAt(input, output, low, scale, price, g)
      {
        RisingReadsPass(input, output, low, high, scale, price, g);
      }
    } else {
      var g := TellingGuards(less, more, input, scale, price);
      assert MachineGuards(g) && PassesAt(input, output, high, scale, price, g)
        && !PassesAt(input, output, low, scale, price, g);
    }
  }

  /** Guards set to what is read of the smaller net: it passes, the larger does not. */
  lemma TellingGuards(less: int, more: int, input: nat, scale: int, price: Option<nat>) returns (g: Guards)
    requires scale > 0 && FitsI64(less) && FitsI64(more) && !ReadsRise(less, more, input, scale, price)
    ensures MachineGuards(g)
    ensures
      && var usd := (net: int) => if price.None? then None else Value(price.value, net, scale);
      && CheckGuards(Eval(less, usd(less), None), input, g).Ok?
      && CheckGuards(Eval(more, usd(more), None), input, g).Err?
  {
    if EdgeRead(less, input) > EdgeRead(more, input) {
      g := Guards(less, EdgeRead(less, input), 0);
    } else {
      DollarsToThemselves(price.value, less, scale);
      g := Guards(less, EdgeRead(less, input), Value(price.value, less, scale).value);
    }
  }

  /** Where the better edge fits, the edge read does not fall if and only if the worse one
      fits too, or the better one is no loss. */
  lemma EdgeReadRises(less: int, more: int, input: nat)
    requires less <= more && input > 0 && Ratio(more, input).Some?
    ensures EdgeRead(less, input) <= EdgeRead(more, input) <==> Ratio(less, input).Some? || more >= 0
  {
    FloorIsMonotone(less * PPM_ONE, more * PPM_ONE, input);
    FloorOfGain(more * PPM_ONE, input);
    FloorIsLargest(more * PPM_ONE, input, 0);
  }

  /** In particular where edges and dollars fit. */
  lemma CheaperPassesToo(input: nat, output: nat, low: nat, high: nat, scale: int, price: Option<nat>, g: Guards)
    requires scale > 0 && low <= high
    requires FitsI64(output - input - low) && FitsI64(output - input - high)
    requires input > 0 ==> Ratio(output - input - low, input).Some? && Ratio(output - input - high, input).Some?
    requires price.Some? ==> Value(price.value, output - input - low, scale).Some?
    requires PassesAt(input, output, high, scale, price, g)
    ensures PassesAt(input, output, low, scale, price, g)
  {
    if input > 0 {
      EdgeReadRises(output - input - high, output - input - low, input);
    }
    RisingReadsPass(input, output, low, high, scale, price, g);
  }

  /** Where the dearer edge does not fit, it reads as zero: costs of 9 300 SOL pass where
      costs of 9 000 SOL are refused. */
  lemma DearerCanPass()
    ensures
      && var g := Guards(-10_000_000_000_000, 0, 0);
      && !PassesAt(1, 0, 9_000_000_000_000, 1, None, g)
      && PassesAt(1, 0, 9_300_000_000_000, 1, None, g)
  {
  }
}
