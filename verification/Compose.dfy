/** Packing legs into one transaction or into a bundle of one transaction per leg
    (crates/execution/src/assemble.rs: tip_ix, compile, compose_single, compose_bundle). */
module Compose {
  import opened Wrappers
  import opened Assembly
  import opened Instructions
  import opened Messages

  const MAX_TX_BYTES := 1232
  const MAX_TX_ACCOUNTS := 64

  datatype Params = Params(
    payer: Address,
    cuLimit: nat,
    cuPriceMicro: nat,
    tip: Option<(Address, nat)>,
    dontFront: Option<Address>,
    existingAtas: set<Address>)

  datatype AssemblyError = CompileFailed(why: CompileError) | TooLarge(size: nat) | TooManyAccounts(n: nat)

  /** A transaction: its compute-budget instructions, then `payload`. */
  datatype AssembledTx = AssembledTx(
    budget: seq<RawInstruction>,
    payload: seq<RawInstruction>,
    compiled: Compiled,
    accounts: nat,
    cuLimit: nat,
    cuPriceMicro: nat,
    tipLamports: nat,
    createsAtas: seq<Address>,
    ataCreateIxs: nat)
  {
    function Instructions(): seq<RawInstruction> {
      budget + payload
    }
  }

  function ComputeBudget(p: Params, cuLimit: nat): seq<RawInstruction> {
    [SetCuLimitIx(cuLimit)] + if p.cuPriceMicro == 0 then [] else [SetCuPriceIx(p.cuPriceMicro)]
  }

  /** The transfer to the tip account, with the dont-front marker appended. */
  function TipIx(p: Params): seq<RawInstruction> {
    if p.tip.None? then []
    else
      var ix := SystemTransferIx(p.payer, p.tip.value.0, p.tip.value.1);
      [ix.(accounts := ix.accounts + DontFront(p))]
  }

  function DontFront(p: Params): seq<AccountMeta> {
    if p.dontFront.Some? then [AccountMeta(p.dontFront.value, false, false)] else []
  }

  function TipLamports(p: Params): nat {
    if p.tip.Some? then p.tip.value.1 else 0
  }

  function Excluded(p: Params): set<Address> {
    (if p.tip.Some? then {p.tip.value.0} else {}) + (if p.dontFront.Some? then {p.dontFront.value} else {})
  }

  /** What goes into one transaction, before it is compiled. */
  datatype TxPlan = TxPlan(ixs: seq<RawInstruction>, cuLimit: nat, tip: nat, creates: seq<Address>)

  /** The accounts the instructions ask to be opened, in order. */
  function Creates(ixs: seq<RawInstruction>): seq<Address> {
    if ixs == [] then []
    else
      var target := AtaCreateTarget(ixs[|ixs| - 1]);
      Creates(ixs[..|ixs| - 1]) + if target.Some? then [target.value] else []
  }

  predicate Carries(tx: AssembledTx, plan: TxPlan, p: Params) {
    && tx.budget == ComputeBudget(p, plan.cuLimit) && tx.payload == plan.ixs
    && tx.cuLimit == plan.cuLimit && tx.cuPriceMicro == p.cuPriceMicro && tx.tipLamports == plan.tip
    && tx.createsAtas == plan.creates && tx.ataCreateIxs == |Creates(tx.Instructions())|
  }

  /** The message of `tx` is its instructions compiled with the tables of `legs`. */
  predicate CompiledFrom(tx: AssembledTx, legs: seq<Leg>, p: Params) {
    && TryCompile(p.payer, tx.Instructions(), LookupTables(legs, Excluded(p))) == Ok(tx.compiled)
    && tx.accounts == Locks(tx.compiled.message) <= MAX_TX_ACCOUNTS
  }

  /** Why instructions compiled as `c` are refused: they do not compile; or their locks are
      too many; or these are not, and the transaction is too long. */
  predicate Refused(e: AssemblyError, c: Result<Compiled, CompileError>, wireSize: Message -> nat) {
    match e
    case CompileFailed(why) => c == Err(why)
    case TooManyAccounts(n) => c.Ok? && Locks(c.value.message) == n > MAX_TX_ACCOUNTS
    case TooLarge(size) =>
      c.Ok? && Locks(c.value.message) <= MAX_TX_ACCOUNTS && wireSize(c.value.message) == size > MAX_TX_BYTES
  }

  /** `wireSize` is the length of the serialized transaction. */
  function Compile(plan: TxPlan, legs: seq<Leg>, p: Params, wireSize: Message -> nat)
    : (r: Result<AssembledTx, AssemblyError>)
    ensures r.Ok? ==>
      Carries(r.value, plan, p) && CompiledFrom(r.value, legs, p) && wireSize(r.value.compiled.message) <= MAX_TX_BYTES
    ensures r.Err? ==>
      && var all := ComputeBudget(p, plan.cuLimit) + plan.ixs;
      && Refused(r.error, TryCompile(p.payer, all, LookupTables(legs, Excluded(p))), wireSize)
  {
    var all := ComputeBudget(p, plan.cuLimit) + plan.ixs;
    var c := TryCompile(p.payer, all, LookupTables(legs, Excluded(p)));
    if c.Err? then Err(CompileFailed(c.error))
    else if Locks(c.value.message) > MAX_TX_ACCOUNTS then Err(TooManyAccounts(Locks(c.value.message)))
    else if wireSize(c.value.message) > MAX_TX_BYTES then Err(TooLarge(wireSize(c.value.message)))
    else Ok(AssembledTx(
      ComputeBudget(p, plan.cuLimit), plan.ixs, c.value, Locks(c.value.message), plan.cuLimit, p.cuPriceMicro, plan.tip,
      plan.creates, |Creates(all)|))
  }

  function SinglePlan(legs: seq<Leg>, p: Params): TxPlan {
    var s := Scan(AllItems(legs), p.existingAtas, []);
    TxPlan(s.out + TipIx(p), p.cuLimit, TipLamports(p), s.creates)
  }

  function LimitOf(limits: Option<seq<nat>>, i: nat, p: Params): nat {
    if limits.Some? && i < |limits.value| then limits.value[i] else p.cuLimit
  }

  /** Transaction `i` of a bundle of `n`; the tip rides in the last one. */
  function PlanOf(s: Scanned, i: nat, n: nat, p: Params, limits: Option<seq<nat>>): TxPlan {
    var last := i + 1 == n;
    TxPlan(
      s.out + (if last then TipIx(p) else []), LimitOf(limits, i, p), if last then TipLamports(p) else 0, s.creates)
  }

  /** All legs in one transaction. */
  method ComposeSingle(legs: seq<Leg>, p: Params, wireSize: Message -> nat)
    returns (r: Result<AssembledTx, AssemblyError>)
    ensures r == Compile(SinglePlan(legs, p), legs, p, wireSize)
  {
    var ixs := [];
    var tracker := new Tracker(p.existingAtas);
    for i := 0 to |legs|
      invariant fresh(tracker)
      invariant Scanned(ixs, tracker.existing, tracker.creates) == Scan(AllItems(legs[..i]), p.existingAtas, [])
    {
      AllItemsSnoc(legs, i);
      ScanAppend(AllItems(legs[..i]), Items(legs[i]), p.existingAtas, []);
      var out := tracker.LegInstructions(legs[i]);
      ixs := ixs + out;
    }
    assert legs[..|legs|] == legs;
    r := Compile(TxPlan(ixs + TipIx(p), p.cuLimit, TipLamports(p), tracker.creates), legs, p, wireSize);
  }

  function PlansOf(scans: seq<Scanned>, n: nat, p: Params, limits: Option<seq<nat>>): seq<TxPlan> {
    seq(|scans|, i requires 0 <= i < |scans| => PlanOf(scans[i], i, n, p, limits))
  }

  predicate AllCarry(txs: seq<AssembledTx>, plans: seq<TxPlan>, p: Params) {
    |txs| == |plans| && forall i | 0 <= i < |txs| :: Carries(txs[i], plans[i], p)
  }

  /** What compiling each leg of the bundle on its own gives. */
  function LegTxs(legs: seq<Leg>, p: Params, limits: Option<seq<nat>>, wireSize: Message -> nat)
    : (r: seq<Result<AssembledTx, AssemblyError>>)
    ensures |r| == |legs|
  {
    var scans := LegScans(legs, p.existingAtas);
    seq(|legs|, i requires 0 <= i < |legs| => Compile(PlanOf(scans[i], i, |legs|, p, limits), [legs[i]], p, wireSize))
  }

  /** The first results are these values. */
  predicate StartsWith<T(==), E(==)>(results: seq<Result<T, E>>, values: seq<T>) {
    |values| <= |results| && forall i | 0 <= i < |values| :: results[i] == Ok(values[i])
  }

  lemma StartsWithOneMore<T, E>(results: seq<Result<T, E>>, values: seq<T>, v: T)
    requires StartsWith(results, values) && |values| < |results| && results[|values|] == Ok(v)
    ensures StartsWith(results, values + [v])
  {
  }

  /** One transaction per leg, or the error of the first leg that does not compile. */
  method ComposeBundle(legs: seq<Leg>, p: Params, limits: Option<seq<nat>>, wireSize: Message -> nat)
    returns (r: Result<seq<AssembledTx>, AssemblyError>)
    ensures r.Ok? ==> |r.value| == |legs| && StartsWith(LegTxs(legs, p, limits, wireSize), r.value)
    ensures r.Err? ==> exists txs: seq<AssembledTx> ::
      && |txs| < |legs| && StartsWith(LegTxs(legs, p, limits, wireSize), txs)
      && LegTxs(legs, p, limits, wireSize)[|txs|] == Err(r.error)
  {
    ghost var results := LegTxs(legs, p, limits, wireSize);
    var out := [];
    var existing := p.existingAtas;
    for i := 0 to |legs|
      invariant existing == Scan(AllItems(legs[..i]), p.existingAtas, []).existing
      invariant |out| == i && StartsWith(results, out)
    {
      var tx, next := CompileLeg(legs, i, existing, p, limits, wireSize);
      if tx.Err? {
        return Err(tx.error);
      }
      StartsWithOneMore(results, out, tx.value);
      existing := next;
      out := out + [tx.value];
    }
    return Ok(out);
  }

  method CompileLeg(
    legs: seq<Leg>, i: nat, existing: set<Address>, p: Params, limits: Option<seq<nat>>, wireSize: Message -> nat)
    returns (tx: Result<AssembledTx, AssemblyError>, next: set<Address>)
    requires i < |legs| && existing == Scan(AllItems(legs[..i]), p.existingAtas, []).existing
    ensures tx == LegTxs(legs, p, limits, wireSize)[i]
    ensures next == Scan(AllItems(legs[..i + 1]), p.existingAtas, []).existing
  {
    var plan;
    plan, next := PlanLeg(legs, i, existing, p, limits);
    tx := Compile(plan, [legs[i]], p, wireSize);
  }

  lemma {:induction false} BundleCarries(
    txs: seq<AssembledTx>, legs: seq<Leg>, p: Params, limits: Option<seq<nat>>, wireSize: Message -> nat)
    requires |txs| == |legs| && StartsWith(LegTxs(legs, p, limits, wireSize), txs)
    ensures AllCarry(txs, PlansOf(LegScans(legs, p.existingAtas), |legs|, p, limits), p)
    ensures forall i | 0 <= i < |txs| :: CompiledFrom(txs[i], [legs[i]], p)
  {
    forall i | 0 <= i < |txs|
      ensures Carries(txs[i], PlansOf(LegScans(legs, p.existingAtas), |legs|, p, limits)[i], p)
      ensures CompiledFrom(txs[i], [legs[i]], p)
    {
      assert LegTxs(legs, p, limits, wireSize)[i] == Ok(txs[i]);
    }
  }

  method PlanLeg(legs: seq<Leg>, i: nat, existing: set<Address>, p: Params, limits: Option<seq<nat>>)
    returns (plan: TxPlan, next: set<Address>)
    requires i < |legs| && existing == Scan(AllItems(legs[..i]), p.existingAtas, []).existing
    ensures plan == PlanOf(LegScans(legs, p.existingAtas)[i], i, |legs|, p, limits)
    ensures next == Scan(AllItems(legs[..i + 1]), p.existingAtas, []).existing
  {
    var tracker := new Tracker(existing);
    var ixs := tracker.LegInstructions(legs[i]);
    var last := i + 1 == |legs|;
    if last {
      ixs := ixs + TipIx(p);
    }
    plan := TxPlan(ixs, LimitOf(limits, i, p), if last then TipLamports(p) else 0, tracker.creates);
    next := tracker.existing;
    ExistingAfterLeg(legs, p.existingAtas, i);
  }

  // ------------------------------------------------------------------
  // The two plans agree.
  // ------------------------------------------------------------------

  function Payloads(txs: seq<AssembledTx>): seq<RawInstruction> {
    if txs == [] then [] else Payloads(txs[..|txs| - 1]) + txs[|txs| - 1].payload
  }

  function TotalTip(txs: seq<AssembledTx>): nat {
    if txs == [] then 0 else TotalTip(txs[..|txs| - 1]) + txs[|txs| - 1].tipLamports
  }

  function PlannedIxs(plans: seq<TxPlan>): seq<RawInstruction> {
    if plans == [] then [] else PlannedIxs(plans[..|plans| - 1]) + plans[|plans| - 1].ixs
  }

  function PlannedTip(plans: seq<TxPlan>): nat {
    if plans == [] then 0 else PlannedTip(plans[..|plans| - 1]) + plans[|plans| - 1].tip
  }

  lemma {:induction false} PayloadsArePlanned(txs: seq<AssembledTx>, plans: seq<TxPlan>, p: Params)
    requires AllCarry(txs, plans, p)
    ensures Payloads(txs) == PlannedIxs(plans) && TotalTip(txs) == PlannedTip(plans)
  {
    if txs == [] {
    } else {
      var n := |txs| - 1;
      PayloadsArePlanned(txs[..n], plans[..n], p);
    }
  }

  lemma {:induction false} PlansAreScans(scans: seq<Scanned>, n: nat, p: Params, limits: Option<seq<nat>>)
    requires |scans| <= n
    ensures PlannedIxs(PlansOf(scans, n, p, limits)) ==
            Outs(scans) + if scans != [] && |scans| == n then TipIx(p) else []
  {
    if scans == [] {
    } else {
      var k := |scans| - 1;
      PlansAreScans(scans[..k], n, p, limits);
      assert PlannedIxs(PlansOf(scans[..k], n, p, limits)) == Outs(scans[..k]);
      PlansOneMore(scans, n, p, limits);
      LastPlan(Outs(scans[..k]), scans[k], k, n, p, limits);
    }
  }

  lemma LastPlan(before: seq<RawInstruction>, s: Scanned, k: nat, n: nat, p: Params, limits: Option<seq<nat>>)
    ensures before + PlanOf(s, k, n, p, limits).ixs == (before + s.out) + if k + 1 == n then TipIx(p) else []
  {
  }

  lemma {:induction false} TipIsPlannedOnce(scans: seq<Scanned>, n: nat, p: Params, limits: Option<seq<nat>>)
    requires |scans| <= n
    ensures PlannedTip(PlansOf(scans, n, p, limits)) == if scans != [] && |scans| == n then TipLamports(p) else 0
  {
    if scans == [] {
    } else {
      var k := |scans| - 1;
      TipIsPlannedOnce(scans[..k], n, p, limits);
      PlansOneMore(scans, n, p, limits);
    }
  }

  lemma {:induction false} PlansOneMore(scans: seq<Scanned>, n: nat, p: Params, limits: Option<seq<nat>>)
    requires scans != []
    ensures
      && var k := |scans| - 1;
      && var before, last := PlansOf(scans[..k], n, p, limits), PlanOf(scans[k], k, n, p, limits);
      && PlannedIxs(PlansOf(scans, n, p, limits)) == PlannedIxs(before) + last.ixs
      && PlannedTip(PlansOf(scans, n, p, limits)) == PlannedTip(before) + last.tip
  {
    var k := |scans| - 1;
    PlannedOneMore(PlansOf(scans[..k], n, p, limits), PlanOf(scans[k], k, n, p, limits));
    assert PlansOf(scans, n, p, limits) == PlansOf(scans[..k], n, p, limits) + [PlanOf(scans[k], k, n, p, limits)];
  }

  lemma {:induction false} PlannedOneMore(plans: seq<TxPlan>, plan: TxPlan)
    ensures PlannedIxs(plans + [plan]) == PlannedIxs(plans) + plan.ixs
    ensures PlannedTip(plans + [plan]) == PlannedTip(plans) + plan.tip
  {
    assert (plans + [plan])[..|plans|] == plans;
  }

  /** Main result: whichever way the legs are packed, the same instructions run in
      the same order and end with the one tip, the tips add up to the same, and an
      account the single transaction leaves created is one the bundle does. */
  lemma {:induction false} BundleAndSingleAgree(
    single: AssembledTx, txs: seq<AssembledTx>, legs: seq<Leg>, p: Params, limits: Option<seq<nat>>,
    wireSize: Message -> nat)
    requires legs != [] && Compile(SinglePlan(legs, p), legs, p, wireSize) == Ok(single)
    requires |txs| == |legs| && StartsWith(LegTxs(legs, p, limits, wireSize), txs)
    ensures Payloads(txs) == single.payload == Scan(AllItems(legs), p.existingAtas, []).out + TipIx(p)
    ensures TotalTip(txs) == single.tipLamports == TipLamports(p)
    ensures forall a | a in single.createsAtas :: exists i :: 0 <= i < |txs| && a in txs[i].createsAtas
  {
    var scans := LegScans(legs, p.existingAtas);
    var plans := PlansOf(scans, |legs|, p, limits);
    BundleCarries(txs, legs, p, limits, wireSize);
    PayloadsArePlanned(txs, plans, p);
    PlansAreScans(scans, |legs|, p, limits);
    TipIsPlannedOnce(scans, |legs|, p, limits);
    LegByLeg(legs, p.existingAtas);
    forall a | a in single.createsAtas ensures exists i :: 0 <= i < |txs| && a in txs[i].createsAtas {
      var i :| 0 <= i < |legs| && a in scans[i].creates;
      assert Carries(txs[i], plans[i], p);
      assert a in txs[i].createsAtas;
    }
  }

  // ------------------------------------------------------------------
  // What the searcher's own instructions say.
  // ------------------------------------------------------------------

  /** The compute-budget instructions as a validator reads them: one limit, and one price
      unless it is zero. */
  predicate Budgets(budget: seq<RawInstruction>, limit: nat, price: nat) {
    && |budget| == (if price == 0 then 1 else 2)
    && DecodeCuLimit(budget[0]) == Some(limit) && DecodeCuPrice(budget[0]).None?
    && (price > 0 ==> DecodeCuLimit(budget[1]).None? && DecodeCuPrice(budget[1]) == Some(price))
  }

  /** Main result: read back from its bytes, a transaction asks for the units and the price
      recorded with it, before anything else. */
  lemma BudgetIsRead(tx: AssembledTx, plan: TxPlan, p: Params)
    requires Carries(tx, plan, p) && plan.cuLimit < U32_LIMIT && p.cuPriceMicro < U64_LIMIT
    ensures tx.Instructions() == tx.budget + plan.ixs && Budgets(tx.budget, tx.cuLimit, tx.cuPriceMicro)
    ensures tx.cuLimit == plan.cuLimit && tx.cuPriceMicro == p.cuPriceMicro
  {
    ComputeBudgetRoundTrip(plan.cuLimit, p.cuPriceMicro);
  }

  /** The last of these instructions is read as a transfer of `lamports` from `from` to `to`,
      and done on any balances that have them it pays exactly that. */
  ghost predicate EndsWithTransfer(ixs: seq<RawInstruction>, from: Address, to: Address, lamports: nat) {
    && ixs != []
    && DecodeTransfer(ixs[|ixs| - 1]) == Some(Transfer(from, to, lamports))
    && forall b: Balances {:trigger Lamports(b, from)} | Lamports(b, from) >= lamports ::
         var now := Moved(b, DecodeTransfer(ixs[|ixs| - 1]).value);
         now.Some? && Paid(b, now.value, from, to, lamports)
  }

  lemma TipIsRead(p: Params, ixs: seq<RawInstruction>)
    requires p.tip.Some? && p.tip.value.1 < U64_LIMIT
    ensures EndsWithTransfer(ixs + TipIx(p), p.payer, p.tip.value.0, p.tip.value.1)
    ensures
      && var last := (ixs + TipIx(p))[|ixs|];
      && |last.accounts| == (if p.dontFront.Some? then 3 else 2)
      && (p.dontFront.Some? ==>
           last.accounts[2].pubkey == p.dontFront.value && !last.accounts[2].isSigner && !last.accounts[2].isWritable)
  {
    TransferRoundTrip(p.payer, p.tip.value.0, p.tip.value.1, DontFront(p));
    var all := ixs + TipIx(p);
    assert all[|all| - 1] == TipIx(p)[0];
  }

  /** Main result on the tip: the single transaction, and the last one of a bundle, end with
      an instruction that pays the tip account exactly the tip recorded with them, from the
      payer, and takes it from nobody else; the other transactions record none. */
  lemma {:induction false} TipIsPaid(
    single: AssembledTx, txs: seq<AssembledTx>, legs: seq<Leg>, p: Params, limits: Option<seq<nat>>,
    wireSize: Message -> nat)
    requires legs != [] && Compile(SinglePlan(legs, p), legs, p, wireSize) == Ok(single)
    requires |txs| == |legs| && StartsWith(LegTxs(legs, p, limits, wireSize), txs)
    requires p.tip.Some? && p.tip.value.1 < U64_LIMIT
    ensures
      && single.tipLamports == p.tip.value.1
      && EndsWithTransfer(single.Instructions(), p.payer, p.tip.value.0, single.tipLamports)
    ensures
      && var last := txs[|txs| - 1];
      && last.tipLamports == p.tip.value.1
      && EndsWithTransfer(last.Instructions(), p.payer, p.tip.value.0, last.tipLamports)
    ensures forall i | 0 <= i < |txs| - 1 :: txs[i].tipLamports == 0
  {
    var scans, n := LegScans(legs, p.existingAtas), |legs|;
    BundleCarries(txs, legs, p, limits, wireSize);
    forall i | 0 <= i < n
      ensures Carries(txs[i], PlanOf(scans[i], i, n, p, limits), p)
    {
      assert PlansOf(scans, n, p, limits)[i] == PlanOf(scans[i], i, n, p, limits);
    }
    TipEnds(single, Scan(AllItems(legs), p.existingAtas, []).out, p);
    TipEnds(txs[n - 1], scans[n - 1].out, p);
  }

  lemma TipEnds(tx: AssembledTx, out: seq<RawInstruction>, p: Params)
    requires p.tip.Some? && p.tip.value.1 < U64_LIMIT && tx.payload == out + TipIx(p)
    ensures EndsWithTransfer(tx.Instructions(), p.payer, p.tip.value.0, p.tip.value.1)
  {
    TipIsRead(p, tx.budget + out);
    assert tx.Instructions() == (tx.budget + out) + TipIx(p);
  }

  /** Each transaction of a bundle asks for its own limit, or for the common one where none
      is given for it. */
  lemma {:induction false} BundleLimits(
    txs: seq<AssembledTx>, legs: seq<Leg>, p: Params, limits: Option<seq<nat>>, wireSize: Message -> nat, i: nat)
    requires |txs| == |legs| && StartsWith(LegTxs(legs, p, limits, wireSize), txs) && i < |txs|
    requires p.cuLimit < U32_LIMIT && p.cuPriceMicro < U64_LIMIT
    requires limits.Some? ==> forall j | 0 <= j < |limits.value| :: limits.value[j] < U32_LIMIT
    ensures limits.Some? && i < |limits.value| ==> Budgets(txs[i].budget, limits.value[i], p.cuPriceMicro)
    ensures limits.None? || i >= |limits.value| ==> Budgets(txs[i].budget, p.cuLimit, p.cuPriceMicro)
  {
    BundleCarries(txs, legs, p, limits, wireSize);
    BudgetIsRead(txs[i], PlansOf(LegScans(legs, p.existingAtas), |legs|, p, limits)[i], p);
  }

  lemma {:induction false} CreatesAppend(a: seq<RawInstruction>, b: seq<RawInstruction>)
    ensures Creates(a + b) == Creates(a) + Creates(b)
  {
    if b == [] {
      assert a + b == a;
    } else {
      var n := |b| - 1;
      CreatesAppend(a, b[..n]);
      assert (a + b)[..|a + b| - 1] == a + b[..n];
    }
  }

  lemma {:induction false} CreatedBySetups(items: seq<Item>, existing: set<Address>)
    ensures
      && var s := Scan(items, existing, []);
      && |s.creates| <= |Creates(s.out)| && forall a | a in s.creates :: a in Creates(s.out)
  {
    if items == [] {
    } else {
      var n := |items| - 1;
      CreatedBySetups(items[..n], existing);
      CreatedByOne(Scan(items[..n], existing, []), items[n]);
    }
  }

  lemma {:induction false} CreatedByOne(before: Scanned, item: Item)
    requires |before.creates| <= |Creates(before.out)| && forall a | a in before.creates :: a in Creates(before.out)
    ensures
      && var s := ScanStep(before, item);
      && |s.creates| <= |Creates(s.out)| && forall a | a in s.creates :: a in Creates(s.out)
  {
    var kind, created := KindOf(item.ix), Creates(before.out + [item.ix]);
    assert (before.out + [item.ix])[..|before.out|] == before.out;
    assert forall a | a in Creates(before.out) :: a in created;
    WithoutShortens(before.creates, if kind.Close? then kind.account else 0);
  }

  lemma {:induction false} WithoutShortens(s: seq<Address>, a: Address)
    ensures |Without(s, a)| <= |s| && forall x | x in Without(s, a) :: x in s
  {
    if s == [] {
    } else {
      WithoutShortens(s[..|s| - 1], a);
      assert s == s[..|s| - 1] + [s[|s| - 1]];
    }
  }

  /** The creations counted in a transaction are its own instructions', and cover the accounts
      it leaves created, each of which one of these opens. */
  predicate CountsItsOwn(tx: AssembledTx) {
    && |tx.createsAtas| <= tx.ataCreateIxs == |Creates(tx.Instructions())|
    && forall a | a in tx.createsAtas :: a in Creates(tx.Instructions())
  }

  lemma {:induction false} ScanCountsItsOwn(
    tx: AssembledTx, items: seq<Item>, existing: set<Address>, tail: seq<RawInstruction>)
    requires
      && var s := Scan(items, existing, []);
      && tx.payload == s.out + tail && tx.createsAtas == s.creates
    requires tx.ataCreateIxs == |Creates(tx.Instructions())|
    ensures CountsItsOwn(tx)
  {
    var out := Scan(items, existing, []).out;
    CreatedBySetups(items, existing);
    CreatesBetween(tx.budget, out, tail);
    assert tx.Instructions() == (tx.budget + out) + tail;
  }

  /** Main result on creations: the single transaction and each one of a bundle count their own,
      and none that only an earlier one of the bundle makes. */
  lemma {:induction false} CreationsAreCounted(
    single: AssembledTx, txs: seq<AssembledTx>, legs: seq<Leg>, p: Params, limits: Option<seq<nat>>,
    wireSize: Message -> nat)
    requires Compile(SinglePlan(legs, p), legs, p, wireSize) == Ok(single)
    requires |txs| == |legs| && StartsWith(LegTxs(legs, p, limits, wireSize), txs)
    ensures CountsItsOwn(single) && forall i | 0 <= i < |txs| :: CountsItsOwn(txs[i])
  {
    PlanCountsItsOwn(single, SinglePlan(legs, p), AllItems(legs), p.existingAtas, TipIx(p), p);
    BundleCarries(txs, legs, p, limits, wireSize);
    forall i | 0 <= i < |txs|
      ensures CountsItsOwn(txs[i])
    {
      LegCountsItsOwn(txs[i], legs, i, p, limits);
    }
  }

  lemma {:induction false} LegCountsItsOwn(
    tx: AssembledTx, legs: seq<Leg>, i: nat, p: Params, limits: Option<seq<nat>>)
    requires i < |legs| && Carries(tx, PlansOf(LegScans(legs, p.existingAtas), |legs|, p, limits)[i], p)
    ensures CountsItsOwn(tx)
  {
    var plan := PlansOf(LegScans(legs, p.existingAtas), |legs|, p, limits)[i];
    var before := Scan(AllItems(legs[..i]), p.existingAtas, []).existing;
    PlanCountsItsOwn(tx, plan, Items(legs[i]), before, if i + 1 == |legs| then TipIx(p) else [], p);
  }

  lemma {:induction false} PlanCountsItsOwn(
    tx: AssembledTx, plan: TxPlan, items: seq<Item>, existing: set<Address>, tail: seq<RawInstruction>, p: Params)
    requires Carries(tx, plan, p)
    requires
      && var s := Scan(items, existing, []);
      && plan.ixs == s.out + tail && plan.creates == s.creates
    ensures CountsItsOwn(tx)
  {
    ScanCountsItsOwn(tx, items, existing, tail);
  }

  lemma {:induction false} CreatesBetween(a: seq<RawInstruction>, b: seq<RawInstruction>, c: seq<RawInstruction>)
    ensures |Creates(b)| <= |Creates(a + b + c)| && forall x | x in Creates(b) :: x in Creates(a + b + c)
  {
    CreatesAppend(a + b, c);
    CreatesAppend(a, b);
  }

  /** Resolving the accounts of a compiled transaction gives as many as the locks
      recorded with it: the payer and every key an instruction names, each once. */
  lemma {:induction false} AccountsAreWhatWasCounted(tx: AssembledTx, legs: seq<Leg>, p: Params)
    requires CompiledFrom(tx, legs, p) && Snapshots(Entries(legs)) && MASK !in Named(p.payer, tx.Instructions())
    requires AccountKeys(tx.compiled.message, legs).Some?
    ensures
      var keys := AccountKeys(tx.compiled.message, legs).value;
      |keys| == tx.accounts <= MAX_TX_ACCOUNTS && multiset(keys) == multiset(Named(p.payer, tx.Instructions()))
  {
    ResolutionIsRightWhenItAnswers(p.payer, tx.Instructions(), legs, Excluded(p));
    LoadedAreCounted(LookupTables(legs, Excluded(p)), Metas(p.payer, tx.Instructions()));
  }

  lemma TipNamesExcluded(p: Params, ixs: seq<RawInstruction>, a: Address)
    requires p.tip.Some? && a in Excluded(p)
    ensures a in Named(p.payer, ixs + TipIx(p))
  {
    var all, n := ixs + TipIx(p), |ixs|;
    assert all[n] == TipIx(p)[0];
    assert a == all[n].accounts[1].pubkey || (|all[n].accounts| > 2 && a == all[n].accounts[2].pubkey);
  }

  /** The tip account and the dont-front marker are static keys wherever they are named, and
      never looked up; a transaction that carries the tip names both. */
  lemma TipIsStatic(tx: AssembledTx, ixs: seq<RawInstruction>, legs: seq<Leg>, p: Params, a: Address)
    requires CompiledFrom(tx, legs, p) && a != MASK
    requires (p.tip.Some? && a == p.tip.value.0) || p.dontFront == Some(a)
    ensures a in Named(p.payer, tx.Instructions()) ==>
      a in tx.compiled.message.staticKeys && a !in tx.compiled.writable && a !in tx.compiled.readonly
    ensures p.tip.Some? && tx.Instructions() == ixs + TipIx(p) ==> a in Named(p.payer, tx.Instructions())
  {
    if a in Named(p.payer, tx.Instructions()) {
      ExcludedKeysAreStatic(p.payer, tx.Instructions(), legs, Excluded(p), a);
    }
    if p.tip.Some? && tx.Instructions() == ixs + TipIx(p) {
      TipNamesExcluded(p, ixs, a);
    }
  }
}
