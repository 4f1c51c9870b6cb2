/** The wallet page: checking a transfer, showing it, sending it
    (apps/mobius-searcher/src/purse.rs). `Check`, `Send` and `Clear` run as tasks
    that interleave wherever one waits for the chain. */
module Purse {
  import opened Wrappers
  import opened Decimals
  import Costs

  type Address = int

  const SIGNATURE_FEE := 5_000
  const PRIORITY_FEE := 2_000
  const WALLET_RENT := 890_880
  const TOKEN_ACCOUNT_RENT := 2_039_280
  const FEE := SIGNATURE_FEE + PRIORITY_FEE

  datatype Asset = Sol | Usdc
  {
    function Decimals(): nat {
      if Sol? then 9 else 6
    }
  }

  /** What the operator asks to send, as typed. */
  datatype Request = Request(asset: Asset, to: string, amount: string)

  /** A request, checked: what is sent and how. */
  datatype Plan = Plan(asset: Asset, to: Address, atoms: nat, accounts: Option<(Address, Address)>, opens: bool)

  /** What the operator is shown of a checked request. */
  datatype Review = Review(request: Request, to: Address, atoms: nat, opens: bool, left: nat)

  /** The wallet and the pure parts of the outside world. */
  datatype Wallet = Wallet(
    address: Address,
    cannotSend: bool,
    parseAddress: string -> Option<Address>,
    onCurve: Address -> bool,
    usdcAccountOf: Address -> Address)

  datatype Owner = SystemProgram | TokenProgram | OtherProgram

  datatype Account = Account(owner: Owner, executable: bool, lamports: Option<nat>)

  /** The chain's answers during one check; `None` inside is a failed call. */
  datatype Chain = Chain(
    lamports: Option<nat>,
    recipient: Option<Option<Account>>,
    usdc: Option<Option<(Address, nat)>>,
    destination: Option<Option<Account>>)

  datatype Refusal =
    | CannotSend | NotAnAddress | OwnAddress | NotAnAmount | Unread | IsProgram | NotAWallet | OffCurve
    | BelowRent | NoUsdc | TooLittle | LeavesDust

  /** Addition of unsigned 64-bit integers in a release build. */
  function AddU64(a: nat, b: nat): nat {
    (a + b) % U64_LIMIT
  }

  function Check(w: Wallet, req: Request, c: Chain): Result<(Review, Plan), Refusal> {
    if w.cannotSend then Err(CannotSend)
    else
      var to := w.parseAddress(Trim(req.to));
      var amount := Atoms(Trim(req.amount), req.asset.Decimals());
      if to.None? then Err(NotAnAddress)
      else if to.value == w.address then Err(OwnAddress)
      else if amount.None? || amount.value == 0 then Err(NotAnAmount)
      else if c.lamports.None? || c.recipient.None? then Err(Unread)
      else if c.recipient.value.Some? && c.recipient.value.value.executable then Err(IsProgram)
      else if c.recipient.value.Some? && c.recipient.value.value.owner != SystemProgram then Err(NotAWallet)
      else if !w.onCurve(to.value) then Err(OffCurve)
      else CheckFunds(w, req, to.value, amount.value, c)
  }

  function CheckFunds(w: Wallet, req: Request, to: Address, amount: nat, c: Chain): Result<(Review, Plan), Refusal>
    requires c.lamports.Some? && c.recipient.Some?
  {
    var held := if c.recipient.value.Some? then c.recipient.value.value.lamports else None;
    match req.asset
    case Sol =>
      if held.None? && amount < WALLET_RENT then Err(BelowRent)
      else Settle(req, Plan(Sol, to, amount, None, false), AddU64(amount, FEE), c.lamports.value)
    case Usdc =>
      if c.usdc.None? then Err(Unread)
      else if c.usdc.value.None? then Err(NoUsdc)
      else if amount > c.usdc.value.value.1 then Err(TooLittle)
      else if c.destination.None? then Err(Unread)
      else
        var opens := c.destination.value.None?;
        var plan := Plan(Usdc, to, amount, Some((c.usdc.value.value.0, w.usdcAccountOf(to))), opens);
        Settle(req, plan, FEE + (if opens then TOKEN_ACCOUNT_RENT else 0), c.lamports.value)
  }

  function Settle(req: Request, plan: Plan, spent: nat, lamports: nat): Result<(Review, Plan), Refusal> {
    if spent > lamports then Err(TooLittle)
    else if 0 < lamports - spent < WALLET_RENT then Err(LeavesDust)
    else Ok((Review(req, plan.to, plan.atoms, plan.opens, lamports - spent), plan))
  }

  /** Units asked for; unused ones cost nothing. */
  function CuLimit(p: Plan): nat {
    match p.asset
    case Sol => 2_000
    case Usdc => if p.opens then 120_000 else 20_000
  }

  /** Micro-lamports a unit that make the priority fee of the plan. */
  function CuPrice(p: Plan): nat {
    PRIORITY_FEE * 1_000_000 / CuLimit(p)
  }

  /** What the network takes for any plan is the fee the check reckoned with. */
  lemma FeeIsExact(p: Plan)
    ensures SIGNATURE_FEE + Costs.PriorityFee(CuLimit(p), CuPrice(p)) == FEE
  {
  }

  datatype Instruction =
    | SystemTransfer(source: Address, dest: Address, atoms: nat)
    | CreateTokenAccount(payer: Address, account: Address, owner: Address)
    | TokenTransfer(source: Address, dest: Address, authority: Address, atoms: nat)

  function Instructions(p: Plan, me: Address): seq<Instruction> {
    if p.accounts.None? then [SystemTransfer(me, p.to, p.atoms)]
    else
      (if p.opens then [CreateTokenAccount(me, p.accounts.value.1, p.to)] else [])
      + [TokenTransfer(p.accounts.value.0, p.accounts.value.1, me, p.atoms)]
  }

  // ------------------------------------------------------------------
  // One check.
  // ------------------------------------------------------------------

  /** What a request means, whatever the chain says. */
  predicate Meant(w: Wallet, req: Request, to: Address, atoms: nat) {
    && w.parseAddress(Trim(req.to)) == Some(to)
    && Atoms(Trim(req.amount), req.asset.Decimals()) == Some(atoms)
    && atoms > 0
  }

  lemma FundsCheckMeans(w: Wallet, req: Request, to: Address, amount: nat, c: Chain)
    requires c.lamports.Some? && c.recipient.Some? && CheckFunds(w, req, to, amount, c).Ok?
    ensures var (review, plan) := CheckFunds(w, req, to, amount, c).value;
      && review.request == req && plan.asset == req.asset
      && review.to == plan.to == to && review.atoms == plan.atoms == amount
      && (plan.accounts.Some? <==> req.asset.Usdc?)
      && (plan.accounts.Some? ==> plan.accounts.value.1 == w.usdcAccountOf(to))
      && (review.left == 0 || review.left >= WALLET_RENT)
      && (req.asset.Sol? ==> AddU64(amount, FEE) + review.left == c.lamports.value)
  {
  }

  /** Main result on one check: whatever the chain says, a request that passes means
      one asset, one recipient and one number of atoms; so a second check at the
      moment of sending cannot change them. The money goes to the recipient, or to
      the recipient's own USDC account. */
  lemma CheckMeansTheRequest(w: Wallet, req: Request, c: Chain)
    requires Check(w, req, c).Ok?
    ensures var (review, plan) := Check(w, req, c).value;
      && review.request == req && plan.asset == req.asset
      && review.to == plan.to && review.atoms == plan.atoms
      && Meant(w, req, plan.to, plan.atoms) && plan.to != w.address
      && (plan.accounts.Some? <==> req.asset.Usdc?)
      && (plan.accounts.Some? ==> plan.accounts.value.1 == w.usdcAccountOf(plan.to))
  {
    var to, amount := w.parseAddress(Trim(req.to)), Atoms(Trim(req.amount), req.asset.Decimals());
    FundsCheckMeans(w, req, to.value, amount.value, c);
  }

  /** Someone who can receive: no program, no account of one, and holding a key. */
  predicate CanReceive(w: Wallet, to: Address, a: Option<Account>) {
    to != w.address && w.onCurve(to) && (a.Some? ==> !a.value.executable && a.value.owner == SystemProgram)
  }

  /** The money for it is there, and what stays behind is nothing or lives. */
  predicate Affordable(spent: nat, lamports: nat) {
    spent == lamports || spent + WALLET_RENT <= lamports
  }

  /** The wallet has what it takes. A new SOL wallet must get the rent minimum; USDC
      needs the tokens, and the rent of an account it opens. */
  predicate Funded(asset: Asset, atoms: nat, c: Chain)
    requires c.lamports.Some? && c.recipient.Some?
  {
    match asset
    case Sol =>
      && ((c.recipient.value.Some? && c.recipient.value.value.lamports.Some?) || atoms >= WALLET_RENT)
      && Affordable(AddU64(atoms, FEE), c.lamports.value)
    case Usdc =>
      && c.usdc.Some? && c.usdc.value.Some? && c.destination.Some?
      && atoms <= c.usdc.value.value.1
      && Affordable(FEE + (if c.destination.value.None? then TOKEN_ACCOUNT_RENT else 0), c.lamports.value)
  }

  lemma FundsPassExactlyWhen(w: Wallet, req: Request, to: Address, atoms: nat, c: Chain)
    requires c.lamports.Some? && c.recipient.Some?
    ensures CheckFunds(w, req, to, atoms, c).Ok? <==> Funded(req.asset, atoms, c)
  {
  }

  /** Main result on what passes: a request that can be read, to someone who can
      receive, that the wallet can afford; and nothing else. */
  lemma PassesExactlyWhen(w: Wallet, req: Request, c: Chain)
    ensures Check(w, req, c).Ok? <==>
      && !w.cannotSend && c.lamports.Some? && c.recipient.Some?
      && exists to: Address, atoms: nat ::
        Meant(w, req, to, atoms) && CanReceive(w, to, c.recipient.value) && Funded(req.asset, atoms, c)
  {
    var to, amount := w.parseAddress(Trim(req.to)), Atoms(Trim(req.amount), req.asset.Decimals());
    if to.Some? && amount.Some? && c.lamports.Some? && c.recipient.Some? {
      FundsPassExactlyWhen(w, req, to.value, amount.value, c);
      assert Meant(w, req, to.value, amount.value) <==> amount.value > 0;
    }
  }

  /** Something that may stand in the way of a request, and what the operator is then told. */
  datatype Obstacle = Obstacle(there: bool, why: Refusal)

  /** What may stand in the way of a request before the money is looked at. */
  function Formal(w: Wallet, req: Request, c: Chain): seq<Obstacle> {
    var to, amount := w.parseAddress(Trim(req.to)), Atoms(Trim(req.amount), req.asset.Decimals());
    var account := if c.recipient.Some? then c.recipient.value else None;
    [Obstacle(w.cannotSend, CannotSend),
     Obstacle(to.None?, NotAnAddress),
     Obstacle(to == Some(w.address), OwnAddress),
     Obstacle(amount.None? || amount == Some(0), NotAnAmount),
     Obstacle(c.lamports.None? || c.recipient.None?, Unread),
     Obstacle(account.Some? && account.value.executable, IsProgram),
     Obstacle(account.Some? && account.value.owner != SystemProgram, NotAWallet),
     Obstacle(to.Some? && !w.onCurve(to.value), OffCurve)]
  }

  /** What may stand in its way then, for `amount` atoms from a wallet of `lamports`. */
  function Financial(asset: Asset, amount: nat, lamports: nat, c: Chain): seq<Obstacle> {
    var held := c.recipient.Some? && c.recipient.value.Some? && c.recipient.value.value.lamports.Some?;
    var usdc := if c.usdc.Some? then c.usdc.value else None;
    var rent := if c.destination == Some(None) then TOKEN_ACCOUNT_RENT else 0;
    var spent := if asset.Sol? then AddU64(amount, FEE) else FEE + rent;
    (if asset.Sol? then [Obstacle(!held && amount < WALLET_RENT, BelowRent)]
     else
       [Obstacle(c.usdc.None?, Unread),
        Obstacle(usdc.None?, NoUsdc),
        Obstacle(usdc.Some? && usdc.value.1 < amount, TooLittle),
        Obstacle(c.destination.None?, Unread)])
    + [Obstacle(lamports < spent, TooLittle), Obstacle(spent < lamports < spent + WALLET_RENT, LeavesDust)]
  }

  function Asked(req: Request): nat {
    var amount := Atoms(Trim(req.amount), req.asset.Decimals());
    if amount.Some? then amount.value else 0
  }

  function Obstacles(w: Wallet, req: Request, c: Chain): seq<Obstacle> {
    Formal(w, req, c) + Financial(req.asset, Asked(req), if c.lamports.Some? then c.lamports.value else 0, c)
  }

  predicate NoneThere(obstacles: seq<Obstacle>) {
    forall i | 0 <= i < |obstacles| :: !obstacles[i].there
  }

  predicate FirstThere(obstacles: seq<Obstacle>, k: nat) {
    k < |obstacles| && obstacles[k].there && NoneThere(obstacles[..k])
  }

  lemma {:induction false} FirstOrNone(obstacles: seq<Obstacle>)
    ensures NoneThere(obstacles) || exists k: nat :: FirstThere(obstacles, k)
  {
    if obstacles != [] {
      var n := |obstacles| - 1;
      FirstOrNone(obstacles[..n]);
      if NoneThere(obstacles[..n]) {
        assert obstacles[n].there ==> FirstThere(obstacles, n);
      } else {
        var k: nat :| FirstThere(obstacles[..n], k);
        assert obstacles[..n][..k] == obstacles[..k];
        assert FirstThere(obstacles, k);
      }
    }
  }

  lemma {:induction false} FirstOfTwo(a: seq<Obstacle>, b: seq<Obstacle>, k: nat)
    requires FirstThere(a + b, k)
    ensures k < |a| ==> FirstThere(a, k) && (a + b)[k] == a[k]
    ensures k >= |a| ==> FirstThere(b, k - |a|) && NoneThere(a) && (a + b)[k] == b[k - |a|]
  {
    if k < |a| {
      assert (a + b)[..k] == a[..k];
    } else {
      assert (a + b)[..k] == a + b[..k - |a|];
      NoneOfTwo(a, b[..k - |a|]);
    }
  }

  lemma {:induction false} NoneOfTwo(a: seq<Obstacle>, b: seq<Obstacle>)
    requires NoneThere(a + b)
    ensures NoneThere(a) && NoneThere(b)
  {
    assert forall i | 0 <= i < |a| :: a[i] == (a + b)[i];
    assert forall i | 0 <= i < |b| :: b[i] == (a + b)[|a| + i];
  }

  /** Main result on refusals: a request is refused for the first obstacle in its way, and
      only for one. */
  lemma RefusedForTheFirstReason(w: Wallet, req: Request, c: Chain)
    ensures forall k: nat | FirstThere(Obstacles(w, req, c), k) ::
      Check(w, req, c) == Err(Obstacles(w, req, c)[k].why)
    ensures Check(w, req, c).Err? <==> exists k: nat :: FirstThere(Obstacles(w, req, c), k)
  {
    forall k: nat | FirstThere(Obstacles(w, req, c), k)
      ensures Check(w, req, c) == Err(Obstacles(w, req, c)[k].why)
    {
      RefusedForThis(w, req, c, k);
    }
    FirstOrNone(Obstacles(w, req, c));
    if NoneThere(Obstacles(w, req, c)) {
      NothingInTheWay(w, req, c);
    }
  }

  lemma {:induction false} RefusedForThis(w: Wallet, req: Request, c: Chain, k: nat)
    requires FirstThere(Obstacles(w, req, c), k)
    ensures Check(w, req, c) == Err(Obstacles(w, req, c)[k].why)
  {
    var atoms, lamports := Asked(req), if c.lamports.Some? then c.lamports.value else 0;
    var formal, financial := Formal(w, req, c), Financial(req.asset, atoms, lamports, c);
    FirstOfTwo(formal, financial, k);
    if k < |formal| {
      FirstFormal(w, req, c, k);
    } else {
      NoneFormal(w, req, c);
      FirstFinancial(w, req, w.parseAddress(Trim(req.to)).value, atoms, c, k - |formal|);
    }
  }

  lemma {:induction false} NothingInTheWay(w: Wallet, req: Request, c: Chain)
    requires NoneThere(Obstacles(w, req, c))
    ensures Check(w, req, c).Ok?
  {
    var atoms, lamports := Asked(req), if c.lamports.Some? then c.lamports.value else 0;
    NoneOfTwo(Formal(w, req, c), Financial(req.asset, atoms, lamports, c));
    NoneFormal(w, req, c);
    NoneFinancial(w, req, w.parseAddress(Trim(req.to)).value, atoms, c);
  }

  lemma {:induction false} FirstFormal(w: Wallet, req: Request, c: Chain, k: nat)
    requires FirstThere(Formal(w, req, c), k)
    ensures Check(w, req, c) == Err(Formal(w, req, c)[k].why)
  {
    var before := Formal(w, req, c)[..k];
    assert k > 0 ==> !before[0].there;
    assert k > 1 ==> !before[1].there;
    assert k > 2 ==> !before[2].there;
    assert k > 3 ==> !before[3].there;
    assert k > 4 ==> !before[4].there;
    assert k > 5 ==> !before[5].there;
    assert k > 6 ==> !before[6].there;
  }

  lemma {:induction false} NoneFormal(w: Wallet, req: Request, c: Chain)
    requires NoneThere(Formal(w, req, c))
    ensures
      && var to, amount := w.parseAddress(Trim(req.to)), Atoms(Trim(req.amount), req.asset.Decimals());
      && to.Some? && amount.Some? && c.lamports.Some? && c.recipient.Some?
      && Check(w, req, c) == CheckFunds(w, req, to.value, amount.value, c)
  {
    var all := Formal(w, req, c);
    assert !all[0].there && !all[1].there && !all[2].there && !all[3].there;
    assert !all[4].there && !all[5].there && !all[6].there && !all[7].there;
  }

  lemma {:induction false} FirstFinancial(w: Wallet, req: Request, to: Address, amount: nat, c: Chain, k: nat)
    requires c.lamports.Some? && c.recipient.Some? && FirstThere(Financial(req.asset, amount, c.lamports.value, c), k)
    ensures CheckFunds(w, req, to, amount, c) == Err(Financial(req.asset, amount, c.lamports.value, c)[k].why)
  {
    var before := Financial(req.asset, amount, c.lamports.value, c)[..k];
    assert k > 0 ==> !before[0].there;
    assert k > 1 ==> !before[1].there;
    assert k > 2 ==> !before[2].there;
    assert k > 3 ==> !before[3].there;
    assert k > 4 ==> !before[4].there;
  }

  lemma {:induction false} NoneFinancial(w: Wallet, req: Request, to: Address, amount: nat, c: Chain)
    requires c.lamports.Some? && c.recipient.Some? && NoneThere(Financial(req.asset, amount, c.lamports.value, c))
    ensures CheckFunds(w, req, to, amount, c).Ok?
  {
    var all := Financial(req.asset, amount, c.lamports.value, c);
    assert !all[0].there && !all[1].there && !all[2].there;
    assert req.asset.Usdc? ==> !all[3].there && !all[4].there && !all[5].there;
  }

  // ------------------------------------------------------------------
  // What a passed check does on the chain.
  // ------------------------------------------------------------------

  /** Lamports of every account, and the atoms in every open USDC account. */
  datatype Ledger = Ledger(lamports: map<Address, nat>, usdc: map<Address, nat>)
  {
    function Lamports(a: Address): nat {
      if a in lamports then lamports[a] else 0
    }
  }

  /** Takes `n` lamports from one account and gives them to another. */
  function Pay(l: Ledger, from: Address, to: Address, n: nat): Option<Ledger> {
    if l.Lamports(from) < n then None
    else
      var less := l.(lamports := l.lamports[from := l.Lamports(from) - n]);
      Some(less.(lamports := less.lamports[to := less.Lamports(to) + n]))
  }

  function Execute(l: Ledger, ix: Instruction): Option<Ledger> {
    match ix
    case SystemTransfer(source, dest, atoms) => Pay(l, source, dest, atoms)
    case CreateTokenAccount(payer, account, _) =>
      if account in l.usdc then Some(l)
      else
        var paid := Pay(l, payer, account, TOKEN_ACCOUNT_RENT);
        if paid.None? then None else Some(paid.value.(usdc := paid.value.usdc[account := 0]))
    case TokenTransfer(source, dest, _, atoms) =>
      if source !in l.usdc || dest !in l.usdc || l.usdc[source] < atoms then None
      else
        var less := l.usdc[source := l.usdc[source] - atoms];
        Some(l.(usdc := less[dest := less[dest] + atoms]))
  }

  function ExecuteAll(l: Ledger, ixs: seq<Instruction>): Option<Ledger> {
    if ixs == [] then Some(l)
    else
      var before := ExecuteAll(l, ixs[..|ixs| - 1]);
      if before.None? then None else Execute(before.value, ixs[|ixs| - 1])
  }

  /** The chain's answers describe the ledger. */
  predicate Describes(c: Chain, l: Ledger, w: Wallet, to: Address) {
    && (c.lamports.Some? ==> c.lamports.value == l.Lamports(w.address))
    && (c.usdc.Some? && c.usdc.value.Some? ==>
          c.usdc.value.value.0 in l.usdc && l.usdc[c.usdc.value.value.0] == c.usdc.value.value.1)
    && (c.destination.Some? ==> (c.destination.value.Some? <==> w.usdcAccountOf(to) in l.usdc))
  }

  /** The ledger once the network fee is paid. */
  function FeePaid(l: Ledger, w: Wallet): Ledger
    requires l.Lamports(w.address) >= FEE
  {
    l.(lamports := l.lamports[w.address := l.Lamports(w.address) - FEE])
  }

  ghost predicate SameLamports(a: Ledger, b: Ledger, but: set<Address>) {
    forall x: Address | x !in but :: a.Lamports(x) == b.Lamports(x)
  }

  /** The recipient has the atoms more, the wallet is left with what the review said, and
      nobody else's money moved. */
  ghost predicate PaidInSol(l: Ledger, now: Ledger, me: Address, review: Review) {
    && now.Lamports(review.to) == l.Lamports(review.to) + review.atoms
    && now.Lamports(me) == review.left
    && SameLamports(now, l, {me, review.to}) && now.usdc == l.usdc
  }

  /** The same in USDC: atoms go from the wallet's account to the recipient's, which may
      be new and then holds its rent. */
  ghost predicate PaidInUsdc(l: Ledger, now: Ledger, me: Address, review: Review, source: Address, dest: Address)
    requires source in l.usdc && l.usdc[source] >= review.atoms
  {
    && var held := if dest in l.usdc then l.usdc[dest] else 0;
    && now.usdc == l.usdc[source := l.usdc[source] - review.atoms][dest := held + review.atoms]
    && now.Lamports(me) == review.left
    && now.Lamports(dest) == l.Lamports(dest) + (if dest in l.usdc then 0 else TOKEN_ACCOUNT_RENT)
    && SameLamports(now, l, {me, dest})
  }

  lemma {:induction false} OneInstruction(l: Ledger, ix: Instruction)
    ensures ExecuteAll(l, [ix]) == Execute(l, ix)
  {
    assert [ix][..0] == [];
  }

  lemma {:induction false} TwoInstructions(l: Ledger, a: Instruction, b: Instruction)
    ensures ExecuteAll(l, [a] + [b]) == if Execute(l, a).None? then None else Execute(Execute(l, a).value, b)
  {
    OneInstruction(l, a);
    assert ([a] + [b])[..1] == [a];
  }

  /** Main result in SOL: a plan that passed the check, executed on the ledger the chain
      described, goes through and does exactly what the review said; provided that amount
      and fee fit 64 bits. */
  lemma SolIsPaid(w: Wallet, req: Request, c: Chain, l: Ledger)
    requires req.asset.Sol? && Check(w, req, c).Ok?
    requires
      var (review, plan) := Check(w, req, c).value;
      Describes(c, l, w, plan.to) && plan.atoms + FEE < U64_LIMIT
    ensures
      var (review, plan) := Check(w, req, c).value;
      && l.Lamports(w.address) >= FEE
      && var end := ExecuteAll(FeePaid(l, w), Instructions(plan, w.address));
      && end.Some? && PaidInSol(l, end.value, w.address, review)
  {
    var (review, plan) := Check(w, req, c).value;
    CheckMeansTheRequest(w, req, c);
    FundsCheckMeans(w, req, plan.to, plan.atoms, c);
    assert AddU64(plan.atoms, FEE) == plan.atoms + FEE;
    OneInstruction(FeePaid(l, w), SystemTransfer(w.address, plan.to, plan.atoms));
  }

  /** Main result in USDC, where the wallet's token account is not the recipient's and
      neither is the wallet itself. */
  lemma UsdcIsPaid(w: Wallet, req: Request, c: Chain, l: Ledger)
    requires req.asset.Usdc? && Check(w, req, c).Ok?
    requires
      var (review, plan) := Check(w, req, c).value;
      && Describes(c, l, w, plan.to)
      && w.usdcAccountOf(plan.to) != w.address && c.usdc.value.value.0 != w.usdcAccountOf(plan.to)
    ensures
      var (review, plan) := Check(w, req, c).value;
      && l.Lamports(w.address) >= FEE && plan.accounts.Some?
      && plan.accounts.value.0 in l.usdc && l.usdc[plan.accounts.value.0] >= plan.atoms == review.atoms
      && var end := ExecuteAll(FeePaid(l, w), Instructions(plan, w.address));
      && end.Some? && PaidInUsdc(l, end.value, w.address, review, plan.accounts.value.0, plan.accounts.value.1)
  {
    var (review, plan) := Check(w, req, c).value;
    CheckMeansTheRequest(w, req, c);
    FundsCheckMeans(w, req, plan.to, plan.atoms, c);
    if plan.opens {
      OpenedAndPaid(l, w, plan, review);
    } else {
      OnlyPaid(l, w, plan, review);
    }
  }

  lemma OpenedAndPaid(l: Ledger, w: Wallet, plan: Plan, review: Review)
    requires plan.accounts.Some? && plan.opens && plan.atoms == review.atoms
    requires
      var (source, dest) := plan.accounts.value;
      && source in l.usdc && l.usdc[source] >= plan.atoms && dest !in l.usdc && dest != w.address
      && l.Lamports(w.address) == FEE + TOKEN_ACCOUNT_RENT + review.left
    ensures
      && var end := ExecuteAll(FeePaid(l, w), Instructions(plan, w.address));
      && end.Some? && PaidInUsdc(l, end.value, w.address, review, plan.accounts.value.0, plan.accounts.value.1)
  {
    var (source, dest) := plan.accounts.value;
    TwoInstructions(
      FeePaid(l, w), CreateTokenAccount(w.address, dest, plan.to), TokenTransfer(source, dest, w.address, plan.atoms));
  }

  lemma OnlyPaid(l: Ledger, w: Wallet, plan: Plan, review: Review)
    requires plan.accounts.Some? && !plan.opens && plan.atoms == review.atoms
    requires
      var (source, dest) := plan.accounts.value;
      && source in l.usdc && l.usdc[source] >= plan.atoms && dest in l.usdc && dest != w.address && source != dest
      && l.Lamports(w.address) == FEE + review.left
    ensures
      && var end := ExecuteAll(FeePaid(l, w), Instructions(plan, w.address));
      && end.Some? && PaidInUsdc(l, end.value, w.address, review, plan.accounts.value.0, plan.accounts.value.1)
  {
    var (source, dest) := plan.accounts.value;
    var transfer := TokenTransfer(source, dest, w.address, plan.atoms);
    OneInstruction(FeePaid(l, w), transfer);
    assert Instructions(plan, w.address) == [transfer];
  }

  lemma WrappedSum(atoms: nat, left: nat, lamports: nat)
    requires atoms < U64_LIMIT && lamports < U64_LIMIT && AddU64(atoms, FEE) + left == lamports
    ensures atoms + FEE + left == lamports <==> atoms + FEE < U64_LIMIT
  {
    if atoms + FEE < U64_LIMIT {
      assert AddU64(atoms, FEE) == atoms + FEE;
    }
  }

  lemma AtomsFit(s: string, decimals: nat)
    ensures Atoms(s, decimals).Some? ==> Atoms(s, decimals).value < U64_LIMIT
  {
  }

  /** A wallet whose check of a SOL transfer passed is left empty or above the rent
      minimum, and can pay amount and fee exactly when these together fit 64 bits. */
  lemma PassedCheckIsPayable(w: Wallet, req: Request, c: Chain)
    requires req.asset.Sol? && c.lamports.Some? && c.lamports.value < U64_LIMIT && Check(w, req, c).Ok?
    ensures var (review, plan) := Check(w, req, c).value;
      && (plan.atoms + FEE + review.left == c.lamports.value <==> plan.atoms + FEE < U64_LIMIT)
      && (review.left == 0 || review.left >= WALLET_RENT)
  {
    var to, amount := w.parseAddress(Trim(req.to)), Atoms(Trim(req.amount), req.asset.Decimals());
    FundsCheckMeans(w, req, to.value, amount.value, c);
    AtomsFit(Trim(req.amount), req.asset.Decimals());
    WrappedSum(amount.value, Check(w, req, c).value.0.left, c.lamports.value);
  }

  /** A wallet and a chain for concrete cases: every text is the address 1. */
  function SomeWallet(): Wallet {
    Wallet(0, false, _ => Some(1), _ => true, a => a)
  }

  function SomeChain(lamports: nat): Chain {
    Chain(Some(lamports), Some(Some(Account(SystemProgram, false, Some(1)))), None, None)
  }

  lemma SomeCheckPasses(x: nat, lamports: nat)
    requires 0 < x < U64_LIMIT && Affordable(AddU64(x, FEE), lamports)
    ensures
      && var answer := Check(SomeWallet(), Request(Sol, "1", FormatSol(x)), SomeChain(lamports));
      && answer.Ok? && answer.value.1.atoms == x
  {
    SolRoundTrip(x);
    ReadersAgree(FormatSol(x), x);
  }

  /** A transfer of 18446744073.709551615 SOL, the most 64 bits hold, passes the check of a
      wallet with a thousandth of a SOL: amount and fee wrap to 6 999 lamports. */
  lemma WrappedSumPasses()
    ensures
      && var answer := Check(SomeWallet(), Request(Sol, "1", FormatSol(U64_LIMIT - 1)), SomeChain(1_000_000));
      && answer.Ok? && answer.value.1.atoms == U64_LIMIT - 1 && answer.value.1.atoms + FEE > 1_000_000
  {
    SomeCheckPasses(U64_LIMIT - 1, 1_000_000);
  }

  // ------------------------------------------------------------------
  // The protocol: tasks over the page and the reviewed request.
  // ------------------------------------------------------------------

  datatype Page =
    | Nothing
    | Checking(req: Request)
    | Refused(req: Request)
    | Reviewed(review: Review)
    | Sending(review: Review)
    | Done(review: Review)
    | Failed(review: Review)

  /** A task that waits for the chain: a check, a second check before sending, or a
      transaction on its way. */
  datatype Task = Checker(req: Request) | Rechecker(review: Review) | InFlight(review: Review, plan: Plan)

  /** The two shared cells, the waiting tasks, and what has happened: reviews put on
      the page, sends begun, and what was handed to the chain for which review. */
  datatype State = State(
    page: Page,
    reviewed: Option<(Request, Plan)>,
    tasks: map<nat, Task>,
    reviews: multiset<Request>,
    sends: multiset<Request>,
    dispatched: seq<(Review, Plan)>)

  datatype Step =
    | StartCheck(id: nat, asked: Request)
    | EndCheck(id: nat, chain: Chain)
    | StartSend(id: nat, asked: Request)
    | Recheck(id: nat, chain: Chain, keyIsOurs: bool)
    | Settled(id: nat, confirmed: bool)
    | Clear

  predicate Enabled(s: State, step: Step) {
    match step
    case StartCheck(id, _) => id !in s.tasks
    case EndCheck(id, _) => id in s.tasks && s.tasks[id].Checker?
    case StartSend(id, _) => id !in s.tasks
    case Recheck(id, _, _) => id in s.tasks && s.tasks[id].Rechecker?
    case Settled(id, _) => id in s.tasks && s.tasks[id].InFlight?
    case Clear => true
  }

  /** `Send` acts only on the very request the page shows as reviewed. */
  predicate MaySend(s: State, req: Request) {
    s.page.Reviewed? && s.page.review.request == req && s.reviewed.Some? && s.reviewed.value.0 == req
  }

  function Apply(w: Wallet, s: State, step: Step): State
    requires Enabled(s, step)
  {
    match step
    case StartCheck(id, req) => s.(page := Checking(req), tasks := s.tasks[id := Checker(req)])
    case EndCheck(id, chain) =>
      var req := s.tasks[id].req;
      var rest := s.(tasks := s.tasks - {id});
      if s.page != Checking(req) then rest
      else
        var answer := Check(w, req, chain);
        if answer.Err? then rest.(page := Refused(req))
        else rest.(
          page := Reviewed(answer.value.0),
          reviewed := Some((req, answer.value.1)),
          reviews := s.reviews + multiset{req})
    case StartSend(id, req) =>
      if !MaySend(s, req) then s
      else s.(page := Sending(s.page.review), reviewed := None,
              tasks := s.tasks[id := Rechecker(s.page.review)], sends := s.sends + multiset{req})
    case Recheck(id, chain, keyIsOurs) =>
      var review := s.tasks[id].review;
      var answer := Check(w, review.request, chain);
      if answer.Err? || !keyIsOurs then s.(page := Failed(review), tasks := s.tasks - {id})
      else s.(
        tasks := s.tasks[id := InFlight(review, answer.value.1)],
        dispatched := s.dispatched + [(review, answer.value.1)])
    case Settled(id, confirmed) =>
      var review := s.tasks[id].review;
      s.(page := if confirmed then Done(review) else Failed(review), tasks := s.tasks - {id})
    case Clear => if s.page.Sending? then s else s.(page := Nothing, reviewed := None)
  }

  const START := State(Nothing, None, map[], multiset{}, multiset{}, [])

  predicate IsRun(w: Wallet, states: seq<State>, steps: seq<Step>) {
    && |states| == |steps| + 1 && states[0] == START
    && forall i | 0 <= i < |steps| :: Enabled(states[i], steps[i]) && states[i + 1] == Apply(w, states[i], steps[i])
  }

  // ------------------------------------------------------------------
  // What every step keeps.
  // ------------------------------------------------------------------

  /** A review says what its request means. */
  predicate Honest(w: Wallet, r: Review) {
    Meant(w, r.request, r.to, r.atoms)
  }

  /** What was handed to the chain is what its review showed. */
  predicate AsReviewed(d: (Review, Plan)) {
    d.1.asset == d.0.request.asset && d.1.to == d.0.to && d.1.atoms == d.0.atoms
  }

  /** Unspent reviews: at most one, that of the request in `reviewed`. */
  function Unspent(s: State): multiset<Request> {
    if s.reviewed.Some? then multiset{s.reviewed.value.0} else multiset{}
  }

  predicate Inv(w: Wallet, s: State) {
    && (s.page.Reviewed? ==>
          && s.reviewed.Some? && s.reviewed.value.0 == s.page.review.request
          && s.reviewed.value.1.to == s.page.review.to && s.reviewed.value.1.atoms == s.page.review.atoms
          && Honest(w, s.page.review))
    && (s.page == Nothing || s.page.Sending? ==> s.reviewed.None?)
    && (forall id | id in s.tasks && !s.tasks[id].Checker? :: Honest(w, s.tasks[id].review))
    && s.sends + Unspent(s) <= s.reviews
    && (forall i | 0 <= i < |s.dispatched| :: AsReviewed(s.dispatched[i]))
  }

  lemma EndCheckKeepsInv(w: Wallet, s: State, id: nat, chain: Chain)
    requires Inv(w, s) && Enabled(s, EndCheck(id, chain))
    ensures Inv(w, Apply(w, s, EndCheck(id, chain)))
  {
    var req := s.tasks[id].req;
    if s.page == Checking(req) && Check(w, req, chain).Ok? {
      CheckMeansTheRequest(w, req, chain);
    }
  }

  lemma RecheckKeepsInv(w: Wallet, s: State, id: nat, chain: Chain, ours: bool)
    requires Inv(w, s) && Enabled(s, Recheck(id, chain, ours))
    ensures Inv(w, Apply(w, s, Recheck(id, chain, ours)))
  {
    var review := s.tasks[id].review;
    if Check(w, review.request, chain).Ok? {
      CheckMeansTheRequest(w, review.request, chain);
    }
  }

  lemma StepKeepsInv(w: Wallet, s: State, step: Step)
    requires Inv(w, s) && Enabled(s, step)
    ensures Inv(w, Apply(w, s, step))
  {
    match step
    case StartCheck(_, _) =>
    case EndCheck(id, chain) => EndCheckKeepsInv(w, s, id, chain);
    case StartSend(_, _) =>
    case Recheck(id, chain, ours) => RecheckKeepsInv(w, s, id, chain, ours);
    case Settled(_, _) =>
    case Clear =>
  }

  lemma {:induction false} InvHolds(w: Wallet, states: seq<State>, steps: seq<Step>, i: nat)
    requires IsRun(w, states, steps) && i < |states|
    ensures Inv(w, states[i])
  {
    if i == 0 {
    } else {
      InvHolds(w, states, steps, i - 1);
      StepKeepsInv(w, states[i - 1], steps[i - 1]);
    }
  }

  /** How often a request was handed to the chain. */
  function Dispatches(d: seq<(Review, Plan)>, req: Request): nat {
    if d == [] then 0
    else Dispatches(d[..|d| - 1], req) + if d[|d| - 1].0.request == req then 1 else 0
  }

  /** The sends of a request that wait for their second check. */
  function Rechecking(tasks: map<nat, Task>, req: Request): set<nat> {
    set id | id in tasks && tasks[id].Rechecker? && tasks[id].review.request == req
  }

  /** Each send dispatches at most once. */
  predicate Counted(s: State, req: Request) {
    Dispatches(s.dispatched, req) + |Rechecking(s.tasks, req)| <= s.sends[req]
  }

  lemma StartedIsCounted(tasks: map<nat, Task>, id: nat, review: Review, req: Request)
    requires id !in tasks
    ensures |Rechecking(tasks[id := Rechecker(review)], req)| ==
            |Rechecking(tasks, req)| + if review.request == req then 1 else 0
  {
    var before, now := Rechecking(tasks, req), Rechecking(tasks[id := Rechecker(review)], req);
    assert now == if review.request == req then before + {id} else before;
  }

  lemma RecheckedIsCounted(tasks: map<nat, Task>, now: map<nat, Task>, id: nat, req: Request)
    requires id in tasks && tasks[id].Rechecker?
    requires now == tasks - {id} || (exists r, p :: now == tasks[id := InFlight(r, p)])
    ensures |Rechecking(tasks, req)| == |Rechecking(now, req)| + if tasks[id].review.request == req then 1 else 0
  {
    var before := Rechecking(tasks, req);
    assert Rechecking(now, req) == before - {id};
    assert id in before <==> tasks[id].review.request == req;
  }

  lemma {:induction false} DispatchedOneMore(d: seq<(Review, Plan)>, one: (Review, Plan), req: Request)
    ensures Dispatches(d + [one], req) == Dispatches(d, req) + if one.0.request == req then 1 else 0
  {
    assert (d + [one])[..|d|] == d;
  }

  lemma OthersStayCounted(w: Wallet, s: State, step: Step, req: Request)
    requires Enabled(s, step) && !step.StartSend? && !step.Recheck?
    ensures Rechecking(Apply(w, s, step).tasks, req) == Rechecking(s.tasks, req)
  {
  }

  lemma {:induction false} StepKeepsCounted(w: Wallet, s: State, step: Step, req: Request)
    requires Counted(s, req) && Enabled(s, step)
    ensures Counted(Apply(w, s, step), req)
  {
    match step
    case StartSend(id, asked) =>
      if MaySend(s, asked) {
        StartedIsCounted(s.tasks, id, s.page.review, req);
      }
    case Recheck(id, chain, ours) =>
      var review := s.tasks[id].review;
      var answer := Check(w, review.request, chain);
      RecheckedIsCounted(s.tasks, Apply(w, s, step).tasks, id, req);
      if answer.Ok? {
        DispatchedOneMore(s.dispatched, (review, answer.value.1), req);
      }
    case _ =>
      OthersStayCounted(w, s, step, req);
  }

  lemma {:induction false} EverySendIsCounted(w: Wallet, states: seq<State>, steps: seq<Step>, i: nat, req: Request)
    requires IsRun(w, states, steps) && i < |states|
    ensures Counted(states[i], req)
  {
    if i > 0 {
      EverySendIsCounted(w, states, steps, i - 1, req);
      StepKeepsCounted(w, states[i - 1], steps[i - 1], req);
    } else {
      assert Rechecking(START.tasks, req) == {};
    }
  }

  /** The checks of a request that wait for the chain. */
  function Waiting(tasks: map<nat, Task>, req: Request): set<nat> {
    set id | id in tasks && tasks[id] == Checker(req)
  }

  /** How often the steps begin a check of a request. */
  function Checks(steps: seq<Step>, req: Request): nat {
    if steps == [] then 0
    else
      var last := steps[|steps| - 1];
      Checks(steps[..|steps| - 1], req) + if last.StartCheck? && last.asked == req then 1 else 0
  }

  lemma {:induction false} ChecksOneMore(steps: seq<Step>, i: nat, req: Request)
    requires i < |steps|
    ensures Checks(steps[..i + 1], req) ==
      Checks(steps[..i], req) + if steps[i].StartCheck? && steps[i].asked == req then 1 else 0
  {
    assert steps[..i + 1][..i] == steps[..i];
  }

  lemma {:induction false} StepAnswersOnce(w: Wallet, s: State, step: Step, req: Request)
    requires Enabled(s, step)
    ensures
      && var t := Apply(w, s, step);
      && t.reviews[req] + |Waiting(t.tasks, req)| <=
         s.reviews[req] + |Waiting(s.tasks, req)| + if step.StartCheck? && step.asked == req then 1 else 0
  {
    match step
    case StartCheck(id, asked) => OneMoreWaits(s.tasks, id, asked, req);
    case EndCheck(id, _) => OneLessWaits(s.tasks, id, req);
    case _ => OthersKeepWaiting(w, s, step, req);
  }

  lemma OneMoreWaits(tasks: map<nat, Task>, id: nat, asked: Request, req: Request)
    requires id !in tasks
    ensures |Waiting(tasks[id := Checker(asked)], req)| == |Waiting(tasks, req)| + if asked == req then 1 else 0
  {
    var before, now := Waiting(tasks, req), Waiting(tasks[id := Checker(asked)], req);
    assert now == if asked == req then before + {id} else before;
  }

  lemma OneLessWaits(tasks: map<nat, Task>, id: nat, req: Request)
    requires id in tasks && tasks[id].Checker?
    ensures |Waiting(tasks, req)| == |Waiting(tasks - {id}, req)| + if tasks[id].req == req then 1 else 0
  {
    var before := Waiting(tasks, req);
    assert Waiting(tasks - {id}, req) == before - {id};
    assert id in before <==> tasks[id].req == req;
  }

  lemma OthersKeepWaiting(w: Wallet, s: State, step: Step, req: Request)
    requires Enabled(s, step) && !step.StartCheck? && !step.EndCheck?
    ensures Waiting(Apply(w, s, step).tasks, req) == Waiting(s.tasks, req)
  {
  }

  /** A check puts at most one review on the page: a request is reviewed no more often than
      its check was begun. */
  lemma {:induction false} AnsweredAtMostOnce(w: Wallet, states: seq<State>, steps: seq<Step>, i: nat, req: Request)
    requires IsRun(w, states, steps) && i < |states|
    ensures states[i].reviews[req] + |Waiting(states[i].tasks, req)| <= Checks(steps[..i], req)
  {
    if i > 0 {
      AnsweredAtMostOnce(w, states, steps, i - 1, req);
      StepAnswersOnce(w, states[i - 1], steps[i - 1], req);
      ChecksOneMore(steps, i - 1, req);
    } else {
      assert Waiting(START.tasks, req) == {};
    }
  }

  /** Main result, over every interleaving: a page that shows a reviewed transfer has
      that request in `reviewed`; a request reaches the chain no more often than it
      was reviewed, nor is it reviewed more often than it was checked; and what reaches it
      has the asset, the recipient and the atoms of the review the operator was shown. */
  lemma {:induction false} ReviewedBeforeSent(w: Wallet, states: seq<State>, steps: seq<Step>, i: nat, req: Request)
    requires IsRun(w, states, steps) && i < |states|
    ensures states[i].page.Reviewed? ==>
      states[i].reviewed.Some? && states[i].reviewed.value.0 == states[i].page.review.request
    ensures Dispatches(states[i].dispatched, req) <= states[i].sends[req] <= states[i].reviews[req]
    ensures states[i].reviews[req] <= Checks(steps[..i], req)
    ensures forall k | 0 <= k < |states[i].dispatched| :: AsReviewed(states[i].dispatched[k])
  {
    InvHolds(w, states, steps, i);
    EverySendIsCounted(w, states, steps, i, req);
    AnsweredAtMostOnce(w, states, steps, i, req);
    assert states[i].sends[req] + Unspent(states[i])[req] <= states[i].reviews[req];
  }

  // ------------------------------------------------------------------
  // What the page shows has happened.
  // ------------------------------------------------------------------

  /** The second check went well and the key is the wallet's: `plan` is handed to the chain. */
  predicate Dispatching(w: Wallet, s: State, step: Step, review: Review, plan: Plan) {
    && step.Recheck? && step.id in s.tasks && s.tasks[step.id] == Rechecker(review) && step.keyIsOurs
    && Check(w, review.request, step.chain).Ok? && Check(w, review.request, step.chain).value.1 == plan
  }

  /** The second check was refused, or the key is not the wallet's. */
  predicate Withheld(w: Wallet, s: State, step: Step, review: Review) {
    && step.Recheck? && step.id in s.tasks && s.tasks[step.id] == Rechecker(review)
    && (Check(w, review.request, step.chain).Err? || !step.keyIsOurs)
  }

  /** The chain settles a transfer that is on its way. */
  predicate Settling(s: State, step: Step, review: Review, confirmed: bool) {
    && step.Settled? && step.id in s.tasks && s.tasks[step.id].InFlight? && s.tasks[step.id].review == review
    && step.confirmed == confirmed
  }

  /** A check ends whose request the page still shows as being checked. */
  predicate Answering(s: State, step: Step, req: Request) {
    && step.EndCheck? && step.id in s.tasks && s.tasks[step.id] == Checker(req) && s.page == Checking(req)
  }

  /** The step that puts `page` before the operator. */
  predicate Puts(w: Wallet, s: State, step: Step, page: Page) {
    match page
    case Nothing => step.Clear? && !s.page.Sending?
    case Checking(req) => step.StartCheck? && step.asked == req
    case Refused(req) => Answering(s, step, req) && Check(w, req, step.chain).Err?
    case Reviewed(r) =>
      && Answering(s, step, r.request)
      && Check(w, r.request, step.chain).Ok? && Check(w, r.request, step.chain).value.0 == r
    case Sending(r) => step.StartSend? && MaySend(s, step.asked) && s.page == Reviewed(r)
    case Done(r) => Settling(s, step, r, true)
    case Failed(r) => Settling(s, step, r, false) || Withheld(w, s, step, r)
  }

  ghost predicate Keeps(w: Wallet, s: State, step: Step) {
    forall page: Page :: !Puts(w, s, step, page)
  }

  /** A check answers about the request it was asked. */
  lemma AnswersTheRequest(w: Wallet, req: Request, c: Chain)
    ensures Check(w, req, c).Ok? ==> Check(w, req, c).value.0.request == req
  {
    if Check(w, req, c).Ok? {
      CheckMeansTheRequest(w, req, c);
    }
  }

  lemma {:induction false} PageAfterStep(w: Wallet, s: State, step: Step, page: Page)
    requires Enabled(s, step)
    ensures Apply(w, s, step).page == page <==> Puts(w, s, step, page) || (s.page == page && Keeps(w, s, step))
  {
    var now := Apply(w, s, step).page;
    if step.EndCheck? {
      AnswersTheRequest(w, s.tasks[step.id].req, step.chain);
    }
    if !Keeps(w, s, step) {
      var q: Page :| Puts(w, s, step, q);
      PutIsShown(w, s, step, q);
    } else {
      KeptIsShown(w, s, step);
    }
  }

  lemma {:induction false} PutIsShown(w: Wallet, s: State, step: Step, page: Page)
    requires Enabled(s, step) && Puts(w, s, step, page)
    ensures Apply(w, s, step).page == page
  {
    if step.EndCheck? {
      AnswersTheRequest(w, s.tasks[step.id].req, step.chain);
    }
  }

  lemma {:induction false} KeptIsShown(w: Wallet, s: State, step: Step)
    requires Enabled(s, step) && Keeps(w, s, step)
    ensures Apply(w, s, step).page == s.page
  {
    var now := Apply(w, s, step).page;
    if now != s.page {
      if step.EndCheck? {
        AnswersTheRequest(w, s.tasks[step.id].req, step.chain);
      }
      assert Puts(w, s, step, now);
    }
  }

  /** `page` was put before the operator by an earlier step, and by the last that put any. */
  ghost predicate PutLast(w: Wallet, states: seq<State>, steps: seq<Step>, i: nat, page: Page)
    requires i <= |steps| && |states| == |steps| + 1
  {
    exists j: nat :: j < i && PutAt(w, states, steps, i, page, j)
  }

  ghost predicate PutAt(w: Wallet, states: seq<State>, steps: seq<Step>, i: nat, page: Page, j: nat)
    requires j < i <= |steps| && |states| == |steps| + 1
  {
    Puts(w, states[j], steps[j], page) && forall k | j < k < i :: Keeps(w, states[k], steps[k])
  }

  ghost predicate PutNothing(w: Wallet, states: seq<State>, steps: seq<Step>, i: nat)
    requires i <= |steps| && |states| == |steps| + 1
  {
    forall k | 0 <= k < i :: Keeps(w, states[k], steps[k])
  }

  /** Main result, over every interleaving: the page shows what the last step that had
      something to show put there, and nothing else. In particular it shows a transfer as done
      exactly if the last such step was the chain confirming it, and as failed exactly if it was
      a refused second check, a key that is not the wallet's, or the chain not confirming it. */
  lemma {:induction false} PageTellsWhatHappened(
    w: Wallet, states: seq<State>, steps: seq<Step>, i: nat, page: Page)
    requires IsRun(w, states, steps) && i < |states|
    ensures states[i].page == page <==>
      PutLast(w, states, steps, i, page) || (page == Nothing && PutNothing(w, states, steps, i))
  {
    if i > 0 {
      PageTellsWhatHappened(w, states, steps, i - 1, page);
      PageAfterRunStep(w, states, steps, i - 1, page);
      PutEarlier(w, states, steps, i - 1, page);
    }
  }

  lemma {:induction false} PageAfterRunStep(
    w: Wallet, states: seq<State>, steps: seq<Step>, i: nat, page: Page)
    requires IsRun(w, states, steps) && i < |steps|
    ensures states[i + 1].page == page <==>
      Puts(w, states[i], steps[i], page) || (states[i].page == page && Keeps(w, states[i], steps[i]))
  {
    PageAfterStep(w, states[i], steps[i], page);
  }

  /** What an earlier step put is still the last thing put exactly if this one puts nothing. */
  lemma {:induction false} PutEarlier(w: Wallet, states: seq<State>, steps: seq<Step>, i: nat, page: Page)
    requires i < |steps| && |states| == |steps| + 1
    ensures PutLast(w, states, steps, i + 1, page) <==>
      || Puts(w, states[i], steps[i], page)
      || (PutLast(w, states, steps, i, page) && Keeps(w, states[i], steps[i]))
  {
    if Puts(w, states[i], steps[i], page) {
      assert PutAt(w, states, steps, i + 1, page, i);
    } else if PutLast(w, states, steps, i + 1, page) {
      var j: nat :| j < i + 1 && PutAt(w, states, steps, i + 1, page, j);
      assert j < i && Keeps(w, states[i], steps[i]);
      PutAtLonger(w, states, steps, i, page, j);
    } else if PutLast(w, states, steps, i, page) && Keeps(w, states[i], steps[i]) {
      var j: nat :| j < i && PutAt(w, states, steps, i, page, j);
      PutAtLonger(w, states, steps, i, page, j);
    }
  }

  lemma PutAtLonger(w: Wallet, states: seq<State>, steps: seq<Step>, i: nat, page: Page, j: nat)
    requires j < i < |steps| && |states| == |steps| + 1 && Keeps(w, states[i], steps[i])
    ensures PutAt(w, states, steps, i + 1, page, j) <==> PutAt(w, states, steps, i, page, j)
  {
  }

  /** What is on its way has been handed to the chain for its review. */
  predicate FlightsAreDispatched(s: State) {
    forall id | id in s.tasks && s.tasks[id].InFlight? :: (s.tasks[id].review, s.tasks[id].plan) in s.dispatched
  }

  lemma {:induction false} StepKeepsFlights(w: Wallet, s: State, step: Step)
    requires FlightsAreDispatched(s) && Enabled(s, step)
    ensures FlightsAreDispatched(Apply(w, s, step))
  {
    var t := Apply(w, s, step);
    forall d | d in s.dispatched ensures d in t.dispatched {
    }
    if t.dispatched != s.dispatched {
      var one := t.dispatched[|s.dispatched|];
      assert one in t.dispatched;
    }
  }

  lemma {:induction false} DispatchedExactly(
    w: Wallet, states: seq<State>, steps: seq<Step>, i: nat, review: Review, plan: Plan)
    requires IsRun(w, states, steps) && i < |states|
    ensures FlightsAreDispatched(states[i])
    ensures (review, plan) in states[i].dispatched <==>
      exists j :: 0 <= j < i && Dispatching(w, states[j], steps[j], review, plan)
  {
    if i > 0 {
      var s, step := states[i - 1], steps[i - 1];
      DispatchedExactly(w, states, steps, i - 1, review, plan);
      StepKeepsFlights(w, s, step);
      DispatchedByStep(w, s, step, (review, plan));
    }
  }

  lemma {:induction false} DispatchedByStep(w: Wallet, s: State, step: Step, d: (Review, Plan))
    requires Enabled(s, step)
    ensures d in Apply(w, s, step).dispatched <==> d in s.dispatched || Dispatching(w, s, step, d.0, d.1)
  {
    var now := Apply(w, s, step).dispatched;
    if now != s.dispatched {
      assert now == s.dispatched + [now[|s.dispatched|]];
    }
  }

  /** Main result: a page that shows a transfer as done means that the chain confirmed one
      handed to it for that very review, after a second check that passed and with the wallet's
      own key. A failed one was refused, not signed for, or not confirmed. */
  lemma {:induction false} DoneMeansConfirmed(w: Wallet, states: seq<State>, steps: seq<Step>, i: nat, r: Review)
    requires IsRun(w, states, steps) && i < |states|
    ensures states[i].page == Done(r) ==>
      exists j, k, plan :: 0 <= j < k < i
        && Dispatching(w, states[j], steps[j], r, plan) && Settling(states[k], steps[k], r, true)
    ensures states[i].page == Failed(r) ==>
      exists k :: 0 <= k < i && (Withheld(w, states[k], steps[k], r) || Settling(states[k], steps[k], r, false))
  {
    if states[i].page == Done(r) {
      PageTellsWhatHappened(w, states, steps, i, Done(r));
      var k: nat :| k < i && PutAt(w, states, steps, i, Done(r), k);
      var plan := states[k].tasks[steps[k].id].plan;
      DispatchedExactly(w, states, steps, k, r, plan);
      var j :| 0 <= j < k && Dispatching(w, states[j], steps[j], r, plan);
      assert Settling(states[k], steps[k], r, true);
    }
    if states[i].page == Failed(r) {
      PageTellsWhatHappened(w, states, steps, i, Failed(r));
    }
  }

  // ------------------------------------------------------------------
  // A transfer on its way and the page.
  // ------------------------------------------------------------------

  /** The transfers between `Send` and their end. */
  function Underway(s: State): set<nat> {
    set id | id in s.tasks && !s.tasks[id].Checker?
  }

  /** At most one transfer is on its way, and the page shows it. */
  predicate PageTellsTheTransfer(s: State) {
    && (forall a, b | a in Underway(s) && b in Underway(s) :: a == b)
    && (forall id | id in Underway(s) :: s.page == Sending(s.tasks[id].review))
    && (s.page.Sending? ==> Underway(s) != {})
  }

  /** Main result: a transfer that is being sent stays on the page through every
      step, `Clear` included, exactly as long as no new check is started meanwhile. */
  lemma TransferStaysOnThePage(w: Wallet, s: State, step: Step)
    requires PageTellsTheTransfer(s) && Enabled(s, step)
    ensures PageTellsTheTransfer(Apply(w, s, step)) <==> !(step.StartCheck? && Underway(s) != {})
  {
    var t := Apply(w, s, step);
    match step
    case StartCheck(id, _) =>
      assert Underway(t) == Underway(s);
    case EndCheck(id, _) =>
      assert Underway(t) == Underway(s);
    case StartSend(id, req) =>
      if MaySend(s, req) {
        assert Underway(t) == {id};
      }
    case Recheck(id, _, _) =>
      assert id in Underway(s);
      assert Underway(t) == Underway(s) || Underway(t) == Underway(s) - {id};
    case Settled(id, _) =>
      assert id in Underway(s);
      assert Underway(t) == Underway(s) - {id};
    case Clear =>
      assert Underway(t) == Underway(s);
  }

  /** A run in which a check started while a transfer is on its way takes it off the page. */
  lemma CheckHidesTheTransfer()
    ensures
      && var req, chain := Request(Sol, "1", FormatSol(1_000_000)), SomeChain(10_000_000);
      && var steps := [StartCheck(0, req), EndCheck(0, chain), StartSend(1, req), StartCheck(2, req)];
      && exists states: seq<State> ::
        IsRun(SomeWallet(), states, steps) && Underway(states[4]) == {1} && !states[4].page.Sending?
  {
    var w, req, chain := SomeWallet(), Request(Sol, "1", FormatSol(1_000_000)), SomeChain(10_000_000);
    SomeCheckPasses(1_000_000, 10_000_000);
    CheckMeansTheRequest(w, req, chain);
    var states := CheckWhileSending(w, req, chain);
  }

  lemma CheckWhileSending(w: Wallet, req: Request, chain: Chain) returns (states: seq<State>)
    requires Check(w, req, chain).Ok? && Check(w, req, chain).value.0.request == req
    ensures
      && var steps := [StartCheck(0, req), EndCheck(0, chain), StartSend(1, req), StartCheck(2, req)];
      && IsRun(w, states, steps) && Underway(states[4]) == {1} && !states[4].page.Sending?
  {
    var s1 := Apply(w, START, StartCheck(0, req));
    var s2 := Apply(w, s1, EndCheck(0, chain));
    FirstReviewed(w, req, chain);
    var s3 := Apply(w, s2, StartSend(1, req));
    var s4 := Apply(w, s3, StartCheck(2, req));
    SentThenChecked(w, s2, req);
    states := [START, s1, s2, s3, s4];
    FourSteps(w, states, [StartCheck(0, req), EndCheck(0, chain), StartSend(1, req), StartCheck(2, req)]);
  }

  lemma FirstReviewed(w: Wallet, req: Request, chain: Chain)
    requires Check(w, req, chain).Ok?
    ensures
      && var s := Apply(w, Apply(w, START, StartCheck(0, req)), EndCheck(0, chain));
      && var answer := Check(w, req, chain).value;
      && s.page == Reviewed(answer.0) && s.reviewed == Some((req, answer.1)) && s.tasks == map[]
  {
    var s := Apply(w, START, StartCheck(0, req));
    assert s.tasks == map[0 := Checker(req)] && s.page == Checking(req);
  }

  lemma SentThenChecked(w: Wallet, s: State, req: Request)
    requires s.tasks == map[] && MaySend(s, req)
    ensures
      && var t := Apply(w, s, StartSend(1, req));
      && Enabled(t, StartCheck(2, req))
      && Underway(Apply(w, t, StartCheck(2, req))) == {1}
  {
    var t := Apply(w, s, StartSend(1, req));
    assert t.tasks == map[1 := Rechecker(s.page.review)];
    assert Apply(w, t, StartCheck(2, req)).tasks == map[1 := Rechecker(s.page.review), 2 := Checker(req)];
  }

  lemma FourSteps(w: Wallet, states: seq<State>, steps: seq<Step>)
    requires |states| == 5 && |steps| == 4 && states[0] == START
    requires Enabled(states[0], steps[0]) && states[1] == Apply(w, states[0], steps[0])
    requires Enabled(states[1], steps[1]) && states[2] == Apply(w, states[1], steps[1])
    requires Enabled(states[2], steps[2]) && states[3] == Apply(w, states[2], steps[2])
    requires Enabled(states[3], steps[3]) && states[4] == Apply(w, states[3], steps[3])
    ensures IsRun(w, states, steps)
  {
  }
}
