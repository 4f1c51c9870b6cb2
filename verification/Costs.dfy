/** The cost model (crates/core/src/costs.rs, crates/core/src/units.rs) and what
    packing a cycle as a bundle instead of one transaction does to it. */
module Costs {
  import opened Wrappers
  import Profit

  const PPM_ONE := 1_000_000
  const MICRO := 1_000_000
  const BASE_FEE := 5_000
  const MAX_COMPUTE_UNITS_PER_TX := 1_400_000
  const U8_MAX := 255
  const U32_MAX := 0xffff_ffff
  const U64_MAX: nat := 0xffff_ffff_ffff_ffff

  function Min(a: nat, b: nat): nat {
    if a < b then a else b
  }

  function Max(a: nat, b: nat): nat {
    if a < b then b else a
  }

  /** `u64::saturating_add`. */
  function Sat(a: nat, b: nat): nat {
    Min(a + b, U64_MAX)
  }

  function PriorityFee(cuLimit: nat, cuPrice: nat): nat {
    Min(Profit.CeilDiv(cuLimit * cuPrice, MICRO), U64_MAX)
  }

  /** Requested units after simulation: what was used and a margin, within bounds. */
  function CuLimitWithMargin(used: nat, margin: int): nat
    requires used <= MAX_COMPUTE_UNITS_PER_TX
  {
    var m: nat := if margin < 0 then 0 else margin;
    Min(Max(Profit.CeilDiv(used * (PPM_ONE + m), PPM_ONE), used), MAX_COMPUTE_UNITS_PER_TX)
  }

  /** The units requested cover what was used, with the whole margin unless capped, and not a
      unit more. */
  lemma LimitCoversUse(used: nat, margin: int)
    requires used <= MAX_COMPUTE_UNITS_PER_TX
    ensures
      && var limit := CuLimitWithMargin(used, margin);
      && used <= limit <= MAX_COMPUTE_UNITS_PER_TX
      && (limit * PPM_ONE >= used * (PPM_ONE + margin) || limit == MAX_COMPUTE_UNITS_PER_TX)
      && (limit > used ==> (limit - 1) * PPM_ONE < used * (PPM_ONE + margin))
      && (margin <= 0 ==> limit == used)
  {
    var m: nat := if margin < 0 then 0 else margin;
    Profit.CeilBounds(used * (PPM_ONE + m), PPM_ONE);
    Profit.Scale(PPM_ONE + margin, PPM_ONE + m, used);
  }

  datatype Leg = Leg(outAmount: nat, minOut: nat)

  datatype Params = Params(
    cuMargin: int, estCuPerLeg: nat, maxCuPrice: nat, slippageShare: int, bufferLamports: nat, bufferPpm: int)

  datatype Inputs = Inputs(
    legs: seq<Leg>, input: nat, txCount: nat, signaturesPerTx: nat, cuUsed: seq<nat>, cuPrice: nat, tip: nat,
    platformFee: nat)

  datatype Breakdown = Breakdown(
    baseFee: nat, priorityFee: nat, tip: nat, slippage: nat, buffer: nat, platformFee: nat)
  {
    function Total(): nat {
      Sat(Sat(Sat(Sat(Sat(baseFee, priorityFee), tip), slippage), buffer), platformFee)
    }
  }

  /** Fees of all transactions, added up with saturation. */
  function PriorityFees(limits: seq<nat>, cuPrice: nat): nat {
    if limits == [] then 0
    else Sat(PriorityFees(limits[..|limits| - 1], cuPrice), PriorityFee(limits[|limits| - 1], cuPrice))
  }

  /** Estimated units of the whole cycle before simulation. */
  function Estimate(legs: nat, p: Params): nat {
    Min(p.estCuPerLeg * Max(legs, 1), U32_MAX)
  }

  function PerTx(estimate: nat, txCount: nat): nat
    requires txCount > 0
  {
    Min(estimate / txCount, MAX_COMPUTE_UNITS_PER_TX)
  }

  function Limits(i: Inputs, p: Params): seq<nat>
    requires forall j | 0 <= j < |i.cuUsed| :: i.cuUsed[j] <= MAX_COMPUTE_UNITS_PER_TX
  {
    if i.cuUsed != [] then seq(|i.cuUsed|, j requires 0 <= j < |i.cuUsed| => CuLimitWithMargin(i.cuUsed[j], p.cuMargin))
    else
      var n := Max(i.txCount, 1);
      seq(n, _ => PerTx(Estimate(|i.legs|, p), n))
  }

  /** Share of the last leg's tolerance counted as a loss. */
  function ExpectedSlippage(legs: seq<Leg>, share: int): nat {
    if legs == [] then 0
    else
      var last := legs[|legs| - 1];
      var tolerance: nat := if last.outAmount > last.minOut then last.outAmount - last.minOut else 0;
      var s: nat := if share < 0 then 0 else if share > PPM_ONE then PPM_ONE else share;
      Profit.CeilDiv(tolerance * s, PPM_ONE)
  }

  /** `as u64` keeps the low 64 bits. */
  function SafetyBuffer(input: nat, p: Params): nat {
    var ppm: nat := if p.bufferPpm < 0 then 0 else p.bufferPpm;
    Sat(p.bufferLamports, Profit.CeilDiv(input * ppm, PPM_ONE) % (U64_MAX + 1))
  }

  function Compute(i: Inputs, p: Params): Breakdown
    requires forall j | 0 <= j < |i.cuUsed| :: i.cuUsed[j] <= MAX_COMPUTE_UNITS_PER_TX
  {
    Breakdown(
      BASE_FEE * Min(Max(i.txCount, 1) * Max(i.signaturesPerTx, 1), U8_MAX),
      PriorityFees(Limits(i, p), Min(i.cuPrice, p.maxCuPrice)),
      i.tip, ExpectedSlippage(i.legs, p.slippageShare), SafetyBuffer(i.input, p), i.platformFee)
  }

  // ------------------------------------------------------------------
  // What the costs add up to.
  // ------------------------------------------------------------------

  /** The total is the sum of its parts, cut at 64 bits. */
  lemma TotalIsSum(b: Breakdown)
    ensures b.Total() == Min(b.baseFee + b.priorityFee + b.tip + b.slippage + b.buffer + b.platformFee, U64_MAX)
  {
  }

  function SumOf(limits: seq<nat>): nat {
    if limits == [] then 0 else SumOf(limits[..|limits| - 1]) + limits[|limits| - 1]
  }

  /** What the last leg may pay less than quoted. */
  function Tolerance(legs: seq<Leg>): nat {
    if legs != [] && legs[|legs| - 1].outAmount > legs[|legs| - 1].minOut
    then legs[|legs| - 1].outAmount - legs[|legs| - 1].minOut else 0
  }

  /** A number of millionths within 0 and a bound. */
  function Within(ppm: int, bound: nat): nat {
    if ppm < 0 then 0 else if ppm > bound then bound else ppm
  }

  /** Millionths of a lamport: so many things at so much each. */
  function Times(count: nat, each: nat): nat {
    count * each
  }

  function Signatures(i: Inputs): nat {
    Times(Max(i.txCount, 1), Max(i.signaturesPerTx, 1))
  }

  /** The costs in millionths of a lamport, nothing rounded or cut: signatures, tip, buffer and
      platform fee; units at their price; the share of the tolerance; the buffer on the input. */
  function ExactMicro(i: Inputs, p: Params): nat
    requires forall j | 0 <= j < |i.cuUsed| :: i.cuUsed[j] <= MAX_COMPUTE_UNITS_PER_TX
  {
    (BASE_FEE * Signatures(i) + i.tip + p.bufferLamports + i.platformFee) * MICRO
    + Times(SumOf(Limits(i, p)), Min(i.cuPrice, p.maxCuPrice))
    + Times(Tolerance(i.legs), Within(p.slippageShare, PPM_ONE))
    + Times(i.input, AtLeastZero(p.bufferPpm))
  }

  function AtLeastZero(x: int): nat {
    if x < 0 then 0 else x
  }

  lemma {:induction false} FeesRoundUp(limits: seq<nat>, price: nat)
    requires Times(SumOf(limits), price) + |limits| * MICRO <= U64_MAX * MICRO
    ensures
      && var fees, exact := PriorityFees(limits, price), Times(SumOf(limits), price);
      && exact <= fees * MICRO <= exact + |limits| * MICRO
  {
    if limits == [] {
    } else {
      var n := |limits| - 1;
      var sum, last := SumOf(limits[..n]), limits[n];
      assert Times(sum + last, price) == Times(sum, price) + Times(last, price);
      FeesRoundUp(limits[..n], price);
      Profit.CeilBounds(last * price, MICRO);
    }
  }

  lemma SlippageRoundsUp(legs: seq<Leg>, share: int)
    ensures
      && var exact := Times(Tolerance(legs), Within(share, PPM_ONE));
      && exact <= ExpectedSlippage(legs, share) * PPM_ONE <= exact + PPM_ONE - 1
  {
    if legs != [] {
      Profit.CeilBounds(Tolerance(legs) * Within(share, PPM_ONE), PPM_ONE);
    }
  }

  lemma BufferRoundsUp(input: nat, p: Params)
    requires p.bufferLamports * PPM_ONE + Times(input, AtLeastZero(p.bufferPpm)) + PPM_ONE <= U64_MAX * PPM_ONE
    ensures
      && var exact := p.bufferLamports * PPM_ONE + Times(input, AtLeastZero(p.bufferPpm));
      && exact <= SafetyBuffer(input, p) * PPM_ONE <= exact + PPM_ONE - 1
  {
    var exact := Times(input, AtLeastZero(p.bufferPpm));
    Profit.CeilBounds(exact, PPM_ONE);
    NoCut(Profit.CeilDiv(exact, PPM_ONE));
  }

  /** Main result: as long as they fit, the costs never understate what they stand for, and
      overstate it by less than a lamport for each transaction and two more. */
  lemma CostsRoundUp(i: Inputs, p: Params)
    requires forall j | 0 <= j < |i.cuUsed| :: i.cuUsed[j] <= MAX_COMPUTE_UNITS_PER_TX
    requires Signatures(i) <= U8_MAX
    requires ExactMicro(i, p) + (|Limits(i, p)| + 2) * MICRO <= U64_MAX * MICRO
    ensures
      && var total := Compute(i, p).Total();
      && ExactMicro(i, p) <= total * MICRO < ExactMicro(i, p) + (|Limits(i, p)| + 2) * MICRO
  {
    var b := Compute(i, p);
    FeesRoundUp(Limits(i, p), Min(i.cuPrice, p.maxCuPrice));
    SlippageRoundsUp(i.legs, p.slippageShare);
    BufferRoundsUp(i.input, p);
    TotalIsSum(b);
    PartsAddUp(
      b, BASE_FEE * Signatures(i), Times(SumOf(Limits(i, p)), Min(i.cuPrice, p.maxCuPrice)), |Limits(i, p)|,
      Times(Tolerance(i.legs), Within(p.slippageShare, PPM_ONE)),
      p.bufferLamports * MICRO + Times(i.input, AtLeastZero(p.bufferPpm)));
  }

  lemma PartsAddUp(b: Breakdown, signatures: nat, fees: nat, n: nat, slippage: nat, buffer: nat)
    requires b.baseFee == signatures
    requires fees <= b.priorityFee * MICRO <= fees + n * MICRO
    requires slippage <= b.slippage * MICRO <= slippage + MICRO - 1
    requires buffer <= b.buffer * MICRO <= buffer + MICRO - 1
    requires
      (signatures + b.tip + b.platformFee) * MICRO + fees + slippage + buffer + (n + 2) * MICRO <= U64_MAX * MICRO
    requires b.Total() == Min(b.baseFee + b.priorityFee + b.tip + b.slippage + b.buffer + b.platformFee, U64_MAX)
    ensures
      && var exact := (signatures + b.tip + b.platformFee) * MICRO + fees + slippage + buffer;
      && exact <= b.Total() * MICRO < exact + (n + 2) * MICRO
  {
  }

  /** At the quote stage the estimate is shared out evenly, each share rounded down and within
      what one transaction may ask for. */
  lemma EstimateIsShared(i: Inputs, p: Params, j: nat)
    requires i.cuUsed == [] && j < |Limits(i, p)| && p.estCuPerLeg * Max(|i.legs|, 1) <= U32_MAX
    ensures |Limits(i, p)| == Max(i.txCount, 1)
    ensures
      && var n, limit, whole := |Limits(i, p)|, Limits(i, p)[j], p.estCuPerLeg * Max(|i.legs|, 1);
      && limit <= MAX_COMPUTE_UNITS_PER_TX && limit * n <= whole
      && (limit < MAX_COMPUTE_UNITS_PER_TX ==> whole < limit * n + n)
  {
    var n, whole := Max(i.txCount, 1), p.estCuPerLeg * Max(|i.legs|, 1);
    Profit.FloorBounds(whole, n);
    Profit.Scale(PerTx(whole, n), whole / n, n);
  }

  /** After simulation each transaction asks for what it used, with the whole margin unless
      capped, and for not a unit more. */
  lemma MeasuredIsCovered(i: Inputs, p: Params, j: nat)
    requires forall k | 0 <= k < |i.cuUsed| :: i.cuUsed[k] <= MAX_COMPUTE_UNITS_PER_TX
    requires i.cuUsed != [] && j < |i.cuUsed|
    ensures |Limits(i, p)| == |i.cuUsed|
    ensures
      && var used, limit := i.cuUsed[j], Limits(i, p)[j];
      && used <= limit <= MAX_COMPUTE_UNITS_PER_TX
      && (limit * PPM_ONE >= used * (PPM_ONE + p.cuMargin) || limit == MAX_COMPUTE_UNITS_PER_TX)
      && (limit > used ==> (limit - 1) * PPM_ONE < used * (PPM_ONE + p.cuMargin))
  {
    LimitCoversUse(i.cuUsed[j], p.cuMargin);
  }

  lemma NoCut(x: nat)
    requires x <= U64_MAX
    ensures x % (U64_MAX + 1) == x
  {
  }

  // ------------------------------------------------------------------
  // One transaction and a bundle.
  // ------------------------------------------------------------------

  lemma {:induction false} EqualFees(limits: seq<nat>, limit: nat, cuPrice: nat)
    requires forall j | 0 <= j < |limits| :: limits[j] == limit
    ensures PriorityFees(limits, cuPrice) == Min(|limits| * PriorityFee(limit, cuPrice), U64_MAX)
  {
    if limits == [] {
    } else {
      var n := |limits| - 1;
      EqualFees(limits[..n], limit, cuPrice);
      assert |limits| * PriorityFee(limit, cuPrice) == n * PriorityFee(limit, cuPrice) + PriorityFee(limit, cuPrice);
    }
  }

  lemma CeilIsLeast(a: nat, b: nat, q: nat)
    requires b > 0
    ensures q * b >= a ==> q >= Profit.CeilDiv(a, b)
    ensures q * b < a ==> q < Profit.CeilDiv(a, b)
  {
    Profit.CeilBounds(a, b);
    var c := Profit.CeilDiv(a, b);
    if q < c {
      Profit.Scale(q + 1, c, b);
      assert (q + 1) * b == q * b + b;
    } else {
      Profit.Scale(c, q, b);
    }
  }

  /** A ceiling of a sum of parts is at most the sum of their ceilings. */
  lemma CeilSplits(limit: nat, n: nat, part: nat, price: nat)
    requires limit <= n * part + (n - 1) && n >= 1 && price <= BASE_FEE * MICRO
    ensures Profit.CeilDiv(limit * price, MICRO) <= n * Profit.CeilDiv(part * price, MICRO) + (n - 1) * BASE_FEE
  {
    var each := Profit.CeilDiv(part * price, MICRO);
    var q := n * each + (n - 1) * BASE_FEE;
    Profit.CeilBounds(part * price, MICRO);
    Profit.Scale(limit, n * part + (n - 1), price);
    PartsCover(n, part, price, each);
    CeilIsLeast(limit * price, MICRO, q);
  }

  lemma PartsCover(n: nat, part: nat, price: nat, each: int)
    requires n >= 1 && price <= BASE_FEE * MICRO && part * price <= each * MICRO
    ensures (n * part + (n - 1)) * price <= (n * each + (n - 1) * BASE_FEE) * MICRO
  {
    Profit.Scale(part * price, each * MICRO, n);
    Profit.Scale(price, BASE_FEE * MICRO, n - 1);
    assert (n * part + (n - 1)) * price == n * (part * price) + (n - 1) * price;
  }

  lemma PartsCoverTheWhole(estimate: nat, n: nat)
    requires n >= 1
    ensures PerTx(estimate, 1) <= n * PerTx(estimate, n) + (n - 1)
  {
    Profit.FloorBounds(estimate, n);
    var q := estimate / n;
    if q > MAX_COMPUTE_UNITS_PER_TX {
      Profit.Scale(1, n, MAX_COMPUTE_UNITS_PER_TX);
    } else {
      assert n * q == q * n;
    }
  }

  /** Network fees of `n` equal transactions of one signature each. */
  function Fees(estimate: nat, n: nat, price: nat): nat
    requires n > 0
  {
    BASE_FEE * Min(n, U8_MAX) + Min(n * PriorityFee(PerTx(estimate, n), price), U64_MAX)
  }

  lemma SmallFees(limit: nat, price: nat)
    requires limit <= MAX_COMPUTE_UNITS_PER_TX && price <= BASE_FEE * MICRO
    ensures PriorityFee(limit, price) == Profit.CeilDiv(limit * price, MICRO) <= MAX_COMPUTE_UNITS_PER_TX * BASE_FEE
  {
    Profit.Scale(limit, MAX_COMPUTE_UNITS_PER_TX, price);
    Profit.Scale(price, BASE_FEE * MICRO, MAX_COMPUTE_UNITS_PER_TX);
    assert MAX_COMPUTE_UNITS_PER_TX * (BASE_FEE * MICRO) == (MAX_COMPUTE_UNITS_PER_TX * BASE_FEE) * MICRO;
    CeilIsLeast(limit * price, MICRO, MAX_COMPUTE_UNITS_PER_TX * BASE_FEE);
  }

  lemma BundleFeesAtLeastSingle(estimate: nat, n: nat, price: nat)
    requires 1 <= n <= U8_MAX && price <= BASE_FEE * MICRO
    ensures Fees(estimate, 1, price) <= Fees(estimate, n, price)
  {
    var one, part := PerTx(estimate, 1), PerTx(estimate, n);
    PartsCoverTheWhole(estimate, n);
    CeilSplits(one, n, part, price);
    SmallFees(one, price);
    SmallFees(part, price);
    assert n * BASE_FEE == (n - 1) * BASE_FEE + BASE_FEE;
  }

  /** Above that price the shares lost to flooring are worth more than a signature. */
  lemma BundleCanBeCheaper(n: nat, price: nat)
    requires 2 <= n <= U8_MAX && BASE_FEE * MICRO < price <= U64_MAX
    ensures Fees(n - 1, n, price) < Fees(n - 1, 1, price)
  {
    assert PerTx(n - 1, n) == 0 by {
      Profit.FloorIsLargest(n - 1, n, 1);
      Profit.FloorIsLargest(n - 1, n, 0);
    }
    assert PriorityFee(0, price) == 0;
    var whole := (n - 1) * price;
    var q := (n - 1) * BASE_FEE;
    assert q * MICRO == (n - 1) * (BASE_FEE * MICRO);
    Profit.Scale(BASE_FEE * MICRO + 1, price, n - 1);
    assert (n - 1) * (BASE_FEE * MICRO + 1) == q * MICRO + (n - 1);
    CeilIsLeast(whole, MICRO, q);
    assert n * BASE_FEE == q + BASE_FEE;
  }

  /** Main result: for a bundle of `n` transactions, splitting is never cheaper,
      whatever the estimate, exactly up to a price of 5 000 lamports per unit. */
  lemma NeverCheaperExactly(n: nat, price: nat)
    requires 2 <= n <= U8_MAX && price <= U64_MAX
    ensures (forall estimate: nat :: Fees(estimate, 1, price) <= Fees(estimate, n, price)) <==>
      price <= BASE_FEE * MICRO
  {
    if price <= BASE_FEE * MICRO {
      forall estimate: nat ensures Fees(estimate, 1, price) <= Fees(estimate, n, price) {
        BundleFeesAtLeastSingle(estimate, n, price);
      }
    } else {
      BundleCanBeCheaper(n, price);
      assert !(Fees(n - 1, 1, price) <= Fees(n - 1, n, price));
    }
  }

  lemma QuoteFees(i: Inputs, p: Params)
    requires i.cuUsed == [] && i.signaturesPerTx <= 1
    ensures
      var n, c := Max(i.txCount, 1), Compute(i, p);
      c.baseFee + c.priorityFee == Fees(Estimate(|i.legs|, p), n, Min(i.cuPrice, p.maxCuPrice))
  {
    var n := Max(i.txCount, 1);
    EqualFees(Limits(i, p), PerTx(Estimate(|i.legs|, p), n), Min(i.cuPrice, p.maxCuPrice));
    assert n * 1 == n;
  }

  // ------------------------------------------------------------------
  // One transaction per leg, as the source's bundles have.
  // ------------------------------------------------------------------

  /** `TxShape::bundle`: the count is cut to eight bits. */
  function BundleCount(legs: nat): nat {
    Max(legs, 1) % (U8_MAX + 1)
  }

  /** With one transaction per leg the shares lose nothing to flooring. */
  lemma SharesCoverTheWhole(perLeg: nat, n: nat)
    requires 1 <= n <= U8_MAX
    ensures
      && var estimate := Min(perLeg * n, U32_MAX);
      && PerTx(estimate, 1) <= n * PerTx(estimate, n)
  {
    var estimate := Min(perLeg * n, U32_MAX);
    if perLeg * n <= U32_MAX {
      Profit.FloorOfProduct(perLeg, n);
      assert n * perLeg == perLeg * n;
    } else {
      Profit.Scale(n, U8_MAX, MAX_COMPUTE_UNITS_PER_TX);
      assert MAX_COMPUTE_UNITS_PER_TX * n == n * MAX_COMPUTE_UNITS_PER_TX;
      Profit.FloorIsLargest(estimate, n, MAX_COMPUTE_UNITS_PER_TX);
    }
    Profit.Scale(1, n, MAX_COMPUTE_UNITS_PER_TX);
  }

  /** The fee of the whole is at most that of parts that cover it. */
  lemma FeeOfParts(limit: nat, n: nat, part: nat, price: nat)
    requires limit <= n * part
    ensures Min(PriorityFee(limit, price), U64_MAX) <= Min(n * PriorityFee(part, price), U64_MAX)
  {
    var each := Profit.CeilDiv(part * price, MICRO);
    Profit.CeilBounds(part * price, MICRO);
    Profit.Scale(limit, n * part, price);
    Profit.Scale(part * price, each * MICRO, n);
    assert n * part * price == part * price * n && each * MICRO * n == n * each * MICRO;
    CeilIsLeast(limit * price, MICRO, n * each);
    if n > 0 && each > U64_MAX {
      Profit.Scale(1, n, U64_MAX);
    }
  }

  /** Main result: with one transaction per leg a bundle costs at least the signatures more,
      at every price and for every estimate, saturation included. */
  lemma LegByLegIsDearer(perLeg: nat, n: nat, price: nat)
    requires 1 <= n <= U8_MAX
    ensures
      && var estimate := Min(perLeg * n, U32_MAX);
      && Fees(estimate, 1, price) + BASE_FEE * (n - 1) <= Fees(estimate, n, price)
  {
    var estimate := Min(perLeg * n, U32_MAX);
    SharesCoverTheWhole(perLeg, n);
    FeeOfParts(PerTx(estimate, 1), n, PerTx(estimate, n), price);
    assert BASE_FEE * n == BASE_FEE * (n - 1) + BASE_FEE;
  }

  /** A route's inputs as one transaction and as a bundle, at the quote stage: one
      transaction per leg; or any count of them, at a unit price of at most 5 000 lamports. */
  predicate SameRoute(single: Inputs, bundle: Inputs, p: Params) {
    && single.cuUsed == [] && single.txCount == 1 && single.signaturesPerTx == 1
    && bundle == single.(txCount := bundle.txCount) && 1 <= bundle.txCount <= U8_MAX
    && (bundle.txCount == Max(|single.legs|, 1) || Min(single.cuPrice, p.maxCuPrice) <= BASE_FEE * MICRO)
  }

  /** The source's bundle of up to 255 legs is such a route, at every price. */
  lemma PerLegIsSameRoute(single: Inputs, p: Params)
    requires single.cuUsed == [] && single.txCount == 1 && single.signaturesPerTx == 1 && |single.legs| <= U8_MAX
    ensures SameRoute(single, single.(txCount := BundleCount(|single.legs|)), p)
  {
  }

  /** The same costs but for the fees, which are no lower. */
  predicate FeesNoLower(a: Breakdown, b: Breakdown) {
    && a.baseFee + a.priorityFee <= b.baseFee + b.priorityFee
    && b == a.(baseFee := b.baseFee, priorityFee := b.priorityFee)
  }

  lemma RouteFees(single: Inputs, bundle: Inputs, p: Params)
    requires SameRoute(single, bundle, p)
    ensures FeesNoLower(Compute(single, p), Compute(bundle, p))
  {
    QuoteFees(single, p);
    QuoteFees(bundle, p);
    var price := Min(single.cuPrice, p.maxCuPrice);
    if bundle.txCount == Max(|single.legs|, 1) {
      LegByLegIsDearer(p.estCuPerLeg, bundle.txCount, price);
    } else {
      BundleFeesAtLeastSingle(Estimate(|single.legs|, p), bundle.txCount, price);
    }
  }

  /** Main result: at the quote stage, with equal legs, tip and prices, the total of a
      bundle is at least that of one transaction. */
  lemma BundleTotalAtLeastSingle(single: Inputs, bundle: Inputs, p: Params)
    requires SameRoute(single, bundle, p)
    ensures Compute(single, p).Total() <= Compute(bundle, p).Total()
  {
    RouteFees(single, bundle, p);
  }

  predicate RoutePasses(i: Inputs, p: Params, output: nat, scale: int, price: Option<nat>, g: Profit.Guards)
    requires scale > 0 && i.cuUsed == []
  {
    Profit.PassesAt(i.input, output, Compute(i, p).Total(), scale, price, g)
  }

  function Net(i: Inputs, p: Params, output: nat): int
    requires i.cuUsed == []
  {
    output - i.input - Compute(i, p).Total()
  }

  /** No setting of the guards refuses the first plan and passes the second. */
  ghost predicate NoneRescued(
    one: Inputs, many: Inputs, p: Params, output: nat, scale: int, price: Option<nat>)
    requires scale > 0 && one.cuUsed == [] && many.cuUsed == []
  {
    forall g | Profit.MachineGuards(g) && RoutePasses(many, p, output, scale, price, g) ::
      RoutePasses(one, p, output, scale, price, g)
  }

  /** The first plan is of the same route and costs no more; neither net clamps. */
  predicate CostsNoMore(one: Inputs, many: Inputs, p: Params, output: nat) {
    && one.cuUsed == [] && many.cuUsed == [] && one.input == many.input
    && Compute(one, p).Total() <= Compute(many, p).Total()
    && Profit.FitsI64(Net(one, p, output)) && Profit.FitsI64(Net(many, p, output))
  }

  /** Edges and dollars fit their integers. */
  predicate ReadsFit(
    one: Inputs, many: Inputs, p: Params, output: nat, scale: int, price: Option<nat>)
    requires scale > 0 && one.cuUsed == [] && many.cuUsed == []
  {
    && (one.input > 0 ==>
          && Profit.Ratio(Net(one, p, output), one.input).Some?
          && Profit.Ratio(Net(many, p, output), one.input).Some?)
    && (price.Some? ==> Profit.Value(price.value, Net(one, p, output), scale).Some?)
  }

  lemma RescuesExactly(
    one: Inputs, many: Inputs, p: Params, output: nat, scale: int, price: Option<nat>)
    requires CostsNoMore(one, many, p, output) && scale > 0
    ensures NoneRescued(one, many, p, output, scale, price) <==>
            Profit.ReadsRise(Net(many, p, output), Net(one, p, output), one.input, scale, price)
  {
    var low, high := Compute(one, p).Total(), Compute(many, p).Total();
    Profit.CheaperPassesExactly(one.input, output, low, high, scale, price);
  }

  /** For any two plans of one input, whatever their shapes and tips: no setting of the guards
      refuses the first and passes the second if and only if the second leaves no more, and
      what the guards read of it is no better. */
  lemma AnyPlansExactly(one: Inputs, many: Inputs, p: Params, output: nat, scale: int, price: Option<nat>)
    requires one.cuUsed == [] && many.cuUsed == [] && one.input == many.input && scale > 0
    requires Profit.FitsI64(Net(one, p, output)) && Profit.FitsI64(Net(many, p, output))
    ensures NoneRescued(one, many, p, output, scale, price) <==>
            && Net(many, p, output) <= Net(one, p, output)
            && Profit.ReadsRise(Net(many, p, output), Net(one, p, output), one.input, scale, price)
  {
    if Net(many, p, output) <= Net(one, p, output) {
      RescuesExactly(one, many, p, output, scale, price);
    } else {
      var g := Profit.Guards(Net(many, p, output), Profit.EdgeRead(Net(many, p, output), one.input), 0);
      assert RoutePasses(many, p, output, scale, price, g) && !RoutePasses(one, p, output, scale, price, g);
    }
  }

  lemma CannotRescue(
    one: Inputs, many: Inputs, p: Params, output: nat, scale: int, price: Option<nat>, g: Profit.Guards)
    requires CostsNoMore(one, many, p, output) && scale > 0 && ReadsFit(one, many, p, output, scale, price)
    ensures RoutePasses(many, p, output, scale, price, g) ==> RoutePasses(one, p, output, scale, price, g)
  {
    var low, high := Compute(one, p).Total(), Compute(many, p).Total();
    if RoutePasses(many, p, output, scale, price, g) {
      Profit.CheaperPassesToo(one.input, output, low, high, scale, price, g);
    }
  }

  /** Hence, before simulation, no route that fails the guards as one transaction passes
      them as a bundle, whatever the guards, if and only if what the guards read of edge
      and dollars is no better for the bundle. */
  lemma BundleRescuesExactly(
    single: Inputs, bundle: Inputs, p: Params, output: nat, scale: int, price: Option<nat>)
    requires SameRoute(single, bundle, p) && scale > 0
    requires Profit.FitsI64(Net(single, p, output)) && Profit.FitsI64(Net(bundle, p, output))
    ensures NoneRescued(single, bundle, p, output, scale, price) <==>
            Profit.ReadsRise(Net(bundle, p, output), Net(single, p, output), single.input, scale, price)
  {
    BundleTotalAtLeastSingle(single, bundle, p);
    RescuesExactly(single, bundle, p, output, scale, price);
  }

  /** In particular where the edges and the dollars fit. */
  lemma BundleCannotRescue(
    single: Inputs, bundle: Inputs, p: Params, output: nat, scale: int, price: Option<nat>, g: Profit.Guards)
    requires SameRoute(single, bundle, p) && scale > 0
    requires Profit.FitsI64(Net(single, p, output)) && Profit.FitsI64(Net(bundle, p, output))
    requires ReadsFit(single, bundle, p, output, scale, price)
    requires !RoutePasses(single, p, output, scale, price, g)
    ensures !RoutePasses(bundle, p, output, scale, price, g)
  {
    BundleTotalAtLeastSingle(single, bundle, p);
    CannotRescue(single, bundle, p, output, scale, price, g);
  }

  // ------------------------------------------------------------------
  // A tip that depends on the profit before it.
  // ------------------------------------------------------------------

  const JITO_MIN_TIP := 1_000
  const BPS := 10_000

  /** A fixed tip and a percentile of landed tips do not depend on the profit. */
  datatype TipKind = Flat(lamports: nat) | ProfitShare(bps: nat)

  datatype TipConfig = TipConfig(kind: TipKind, minLamports: nat, maxLamports: nat)

  function Clamp(x: nat, lo: nat, hi: nat): nat {
    if x < lo then lo else if x > hi then hi else x
  }

  function Gain(profit: int): nat {
    if profit < 0 then 0 else profit
  }

  function RawTip(kind: TipKind, profit: int): nat {
    match kind
    case Flat(lamports) => lamports
    case ProfitShare(bps) => Gain(profit) * bps / BPS % (U64_MAX + 1)
  }

  function TipQuote(c: TipConfig, profit: int): nat {
    var lo := Max(c.minLamports, JITO_MIN_TIP);
    Clamp(RawTip(c.kind, profit), lo, Max(c.maxLamports, lo))
  }

  /** Main result on the tip: never below the least a bundle may carry, nor above the bound
      set for it; the fixed tip where that is within, and the share of the profit, rounded
      down, where that is. */
  lemma TipIsWithinBounds(c: TipConfig, profit: int)
    requires c.kind.ProfitShare? ==> Gain(profit) * c.kind.bps / BPS <= U64_MAX
    ensures
      && var tip, lo := TipQuote(c, profit), Max(c.minLamports, JITO_MIN_TIP);
      && JITO_MIN_TIP <= lo <= tip <= Max(c.maxLamports, lo)
      && (c.kind.Flat? ==>
            && (tip > lo ==> tip <= c.kind.lamports)
            && (tip < Max(c.maxLamports, lo) ==> tip >= c.kind.lamports))
      && (c.kind.ProfitShare? ==>
            && (tip > lo ==> tip * BPS <= Gain(profit) * c.kind.bps)
            && (tip < Max(c.maxLamports, lo) ==> Gain(profit) * c.kind.bps < tip * BPS + BPS))
  {
    if c.kind.ProfitShare? {
      var share := Gain(profit) * c.kind.bps;
      NoCut(share / BPS);
      Profit.FloorBounds(share, BPS);
      Profit.FloorIsLargest(share, BPS, TipQuote(c, profit));
      Profit.FloorIsLargest(share, BPS, TipQuote(c, profit) + 1);
    }
  }

  /** What is left of the profit does not fall when the profit grows. */
  ghost predicate KeepsProfit(tipOf: int -> nat) {
    forall a: int, b: int | Profit.FitsI64(a) && Profit.FitsI64(b) && a <= b :: a - tipOf(a) <= b - tipOf(b)
  }

  lemma ShareGrowsSlower(a: nat, b: nat, bps: nat)
    requires a <= b <= Profit.I64_MAX && bps <= BPS
    ensures a * bps / BPS <= b * bps / BPS <= a * bps / BPS + (b - a)
    ensures b * bps / BPS <= U64_MAX
  {
    Profit.Scale(a, b, bps);
    Profit.FloorIsMonotone(a * bps, b * bps, BPS);
    Profit.Scale(bps, BPS, b - a);
    assert b * bps == a * bps + (b - a) * bps;
    Profit.FloorIsMonotone(b * bps, a * bps + BPS * (b - a), BPS);
    assert (a * bps + BPS * (b - a)) / BPS == a * bps / BPS + (b - a);
    Profit.Scale(bps, BPS, b);
    Profit.FloorIsMonotone(b * bps, BPS * b, BPS);
  }

  /** A share of at most the whole profit never takes more than the profit gained. */
  lemma PolicyKeepsProfit(c: TipConfig)
    requires c.kind.ProfitShare? ==> c.kind.bps <= BPS
    ensures KeepsProfit(profit => TipQuote(c, profit))
  {
    forall a: int, b: int | Profit.FitsI64(a) && Profit.FitsI64(b) && a <= b
      ensures a - TipQuote(c, a) <= b - TipQuote(c, b)
    {
      RawTipGrowsSlower(c.kind, a, b);
    }
  }

  lemma RawTipGrowsSlower(kind: TipKind, a: int, b: int)
    requires (kind.ProfitShare? ==> kind.bps <= BPS) && Profit.FitsI64(a) && Profit.FitsI64(b) && a <= b
    ensures RawTip(kind, a) <= RawTip(kind, b) <= RawTip(kind, a) + (b - a)
  {
    if kind.ProfitShare? {
      ShareGrowsSlower(Gain(a), Gain(b), kind.bps);
      NoCut(Gain(a) * kind.bps / BPS);
      NoCut(Gain(b) * kind.bps / BPS);
    }
  }

  /** `price`: the costs with the tip quoted for the profit before it. */
  function ProfitBeforeTip(i: Inputs, p: Params, output: nat): int
    requires i.cuUsed == []
  {
    Profit.WrapI64(output - i.input - Compute(i.(tip := 0), p).Total())
  }

  function Tipped(i: Inputs, p: Params, output: nat, tipOf: int -> nat): (r: Inputs)
    requires i.cuUsed == []
    ensures r.cuUsed == []
  {
    i.(tip := tipOf(ProfitBeforeTip(i, p, output)))
  }

  lemma TipIsAdded(i: Inputs, p: Params, tip: nat)
    requires i.cuUsed == []
    ensures Compute(i.(tip := tip), p) == Compute(i.(tip := 0), p).(tip := tip)
  {
  }

  /** Costs that stay higher with their tip as long as nothing saturates stay higher. */
  lemma TotalsWithTips(a: Breakdown, b: Breakdown, tipA: nat, tipB: nat)
    requires a.tip == 0 && FeesNoLower(a, b)
    requires a.Total() + tipA <= b.Total() + tipB
    ensures a.(tip := tipA).Total() <= b.(tip := tipB).Total()
  {
    TotalIsSum(a);
    TotalIsSum(b);
    TotalIsSum(a.(tip := tipA));
    TotalIsSum(b.(tip := tipB));
  }

  /** The two shapes priced without a tip: both nets fit. */
  predicate UntippedFits(single: Inputs, bundle: Inputs, p: Params, output: nat)
    requires single.cuUsed == [] && bundle.cuUsed == []
  {
    Profit.FitsI64(Net(single.(tip := 0), p, output)) && Profit.FitsI64(Net(bundle.(tip := 0), p, output))
  }

  /** What the lower profit of a bundle saves in tip never makes up for its fees. */
  lemma TippedTotals(single: Inputs, bundle: Inputs, p: Params, output: nat, tipOf: int -> nat)
    requires SameRoute(single, bundle, p) && KeepsProfit(tipOf) && UntippedFits(single, bundle, p, output)
    ensures Compute(Tipped(single, p, output, tipOf), p).Total() <= Compute(Tipped(bundle, p, output, tipOf), p).Total()
  {
    RouteFees(single.(tip := 0), bundle.(tip := 0), p);
    TippedIs(single, p, output, tipOf);
    TippedIs(bundle, p, output, tipOf);
    TotalsInOrder(
      Compute(single.(tip := 0), p), Compute(bundle.(tip := 0), p), output - single.input, tipOf);
  }

  lemma TippedIs(i: Inputs, p: Params, output: nat, tipOf: int -> nat)
    requires i.cuUsed == [] && Profit.FitsI64(Net(i.(tip := 0), p, output))
    ensures
      && var a := Compute(i.(tip := 0), p);
      && a.tip == 0
      && Compute(Tipped(i, p, output, tipOf), p) == a.(tip := tipOf(output - i.input - a.Total()))
  {
    TipIsAdded(i, p, tipOf(ProfitBeforeTip(i, p, output)));
  }

  lemma TotalsInOrder(a: Breakdown, b: Breakdown, gross: int, tipOf: int -> nat)
    requires a.tip == 0 && FeesNoLower(a, b)
    requires KeepsProfit(tipOf) && Profit.FitsI64(gross - a.Total()) && Profit.FitsI64(gross - b.Total())
    ensures a.(tip := tipOf(gross - a.Total())).Total() <= b.(tip := tipOf(gross - b.Total())).Total()
  {
    var less, more := gross - b.Total(), gross - a.Total();
    TotalIsSum(a);
    TotalIsSum(b);
    assert less - tipOf(less) <= more - tipOf(more);
    TotalsWithTips(a, b, tipOf(more), tipOf(less));
  }

  /** Main result: also with tips quoted for each shape's own profit, no route that fails the
      guards as one transaction passes them as a bundle, whatever the guards, if and only if
      what they read of edge and dollars is no better for the bundle. */
  lemma TippedBundleRescuesExactly(
    single: Inputs, bundle: Inputs, p: Params, output: nat, tipOf: int -> nat, scale: int, price: Option<nat>)
    requires SameRoute(single, bundle, p) && KeepsProfit(tipOf) && UntippedFits(single, bundle, p, output) && scale > 0
    requires Profit.FitsI64(Net(Tipped(single, p, output, tipOf), p, output))
    requires Profit.FitsI64(Net(Tipped(bundle, p, output, tipOf), p, output))
    ensures
      && var one, many := Tipped(single, p, output, tipOf), Tipped(bundle, p, output, tipOf);
      && (NoneRescued(one, many, p, output, scale, price) <==>
            Profit.ReadsRise(Net(many, p, output), Net(one, p, output), one.input, scale, price))
  {
    TippedTotals(single, bundle, p, output, tipOf);
    RescuesExactly(Tipped(single, p, output, tipOf), Tipped(bundle, p, output, tipOf), p, output, scale, price);
  }

  /** In particular where the edges and the dollars fit. */
  lemma TippedBundleCannotRescue(
    single: Inputs, bundle: Inputs, p: Params, output: nat, tipOf: int -> nat, scale: int, price: Option<nat>,
    g: Profit.Guards)
    requires SameRoute(single, bundle, p) && KeepsProfit(tipOf) && UntippedFits(single, bundle, p, output) && scale > 0
    requires Profit.FitsI64(Net(Tipped(single, p, output, tipOf), p, output))
    requires Profit.FitsI64(Net(Tipped(bundle, p, output, tipOf), p, output))
    requires ReadsFit(Tipped(single, p, output, tipOf), Tipped(bundle, p, output, tipOf), p, output, scale, price)
    requires !RoutePasses(Tipped(single, p, output, tipOf), p, output, scale, price, g)
    ensures !RoutePasses(Tipped(bundle, p, output, tipOf), p, output, scale, price, g)
  {
    TippedTotals(single, bundle, p, output, tipOf);
    CannotRescue(Tipped(single, p, output, tipOf), Tipped(bundle, p, output, tipOf), p, output, scale, price, g);
  }

  lemma NetAfterTip(i: Inputs, p: Params, output: nat, tipOf: int -> nat)
    requires i.cuUsed == [] && Profit.FitsI64(Net(i.(tip := 0), p, output))
    requires Compute(i.(tip := 0), p).Total() + tipOf(Net(i.(tip := 0), p, output)) <= U64_MAX
    ensures
      && var profit := Net(i.(tip := 0), p, output);
      && Net(Tipped(i, p, output, tipOf), p, output) == profit - tipOf(profit)
  {
    var a := Compute(i.(tip := 0), p);
    TippedIs(i, p, output, tipOf);
    TotalIsSum(a);
    TotalIsSum(a.(tip := tipOf(output - i.input - a.Total())));
  }

  /** For any tip policy: nothing is rescued if and only if the bundle's profit leaves no more
      after its tip, and what the guards read of it is no better. */
  lemma AnyTipExactly(
    single: Inputs, bundle: Inputs, p: Params, output: nat, tipOf: int -> nat, scale: int, price: Option<nat>)
    requires single.cuUsed == [] && bundle.cuUsed == [] && single.input == bundle.input && scale > 0
    requires UntippedFits(single, bundle, p, output)
    requires Compute(single.(tip := 0), p).Total() + tipOf(Net(single.(tip := 0), p, output)) <= U64_MAX
    requires Compute(bundle.(tip := 0), p).Total() + tipOf(Net(bundle.(tip := 0), p, output)) <= U64_MAX
    requires Profit.FitsI64(Net(Tipped(single, p, output, tipOf), p, output))
    requires Profit.FitsI64(Net(Tipped(bundle, p, output, tipOf), p, output))
    ensures
      && var more, less := Net(single.(tip := 0), p, output), Net(bundle.(tip := 0), p, output);
      && (NoneRescued(
            Tipped(single, p, output, tipOf), Tipped(bundle, p, output, tipOf), p, output, scale, price) <==>
            && less - tipOf(less) <= more - tipOf(more)
            && Profit.ReadsRise(less - tipOf(less), more - tipOf(more), single.input, scale, price))
  {
    NetAfterTip(single, p, output, tipOf);
    NetAfterTip(bundle, p, output, tipOf);
    AnyPlansExactly(Tipped(single, p, output, tipOf), Tipped(bundle, p, output, tipOf), p, output, scale, price);
  }

  /** A route of two legs where only signatures and the tip cost anything. */
  function FreeRoute(txCount: nat): Inputs {
    Inputs([Leg(0, 0), Leg(0, 0)], 100_000, txCount, 1, [], 0, 0, 0)
  }

  const FREE := Params(0, 0, 0, 0, 0, 0)

  /** A tip of twice the profit. */
  function Greedy(profit: int): nat {
    TipQuote(TipConfig(ProfitShare(20_000), 0, 1_000_000), profit)
  }

  lemma FreeRouteTotal(txCount: nat, tip: nat)
    requires 1 <= txCount <= 2 && tip <= 1_000_000
    ensures Compute(FreeRoute(txCount).(tip := tip), FREE).Total() == BASE_FEE * txCount + tip
  {
    var i := FreeRoute(txCount).(tip := tip);
    QuoteFees(i, FREE);
    TotalIsSum(Compute(i, FREE));
  }

  lemma GreedyTotal(txCount: nat)
    requires 1 <= txCount <= 2
    ensures Compute(Tipped(FreeRoute(txCount), FREE, 115_000, Greedy), FREE).Total() == 30_000 - BASE_FEE * txCount
  {
    var profit := 15_000 - BASE_FEE * txCount;
    FreeRouteTotal(txCount, 0);
    assert ProfitBeforeTip(FreeRoute(txCount), FREE, 115_000) == profit;
    assert Greedy(profit) == 2 * profit;
    FreeRouteTotal(txCount, 2 * profit);
  }

  /** A share of twice the profit rescues a route: the bundle's lower profit saves it more
      tip than its second signature costs. */
  lemma GreedyShareRescues()
    ensures
      && var one, many := Tipped(FreeRoute(1), FREE, 115_000, Greedy), Tipped(FreeRoute(2), FREE, 115_000, Greedy);
      && var g := Profit.Guards(-6_000, -1_000_000, 0);
      && SameRoute(FreeRoute(1), FreeRoute(2), FREE)
      && !RoutePasses(one, FREE, 115_000, 1_000_000_000, None, g)
      && RoutePasses(many, FREE, 115_000, 1_000_000_000, None, g)
  {
    GreedyTotal(1);
    GreedyTotal(2);
  }
}
