/** Transaction assembly (crates/execution/src/assemble.rs): the pass that drops
    no-op account creations from a list of swap legs, and the two ways of packing
    the result, one transaction or a bundle of one transaction per leg. */
module Assembly {
  import opened Wrappers

  /** A 32-byte key, read as a big-endian number. */
  type Address = int

  type Byte = b: int | 0 <= b < 256

  const WSOL_MINT: Address := 0x069b8857feab8184fb687f634618c035dac439dc1aeb3b5598a0f00000000001
  const COMPUTE_BUDGET_PROGRAM: Address := 0x0306466fe5211732ffecadba72c39be7bc8ce5bbc5f7126b2c439b3a40000000
  const SYSTEM_PROGRAM: Address := 0
  const TOKEN_PROGRAM: Address := 0x06ddf6e1d765a193d9cbe146ceeb79ac1cb485ed5f5b37913a8cf5857eff00a9
  const TOKEN_2022_PROGRAM: Address := 0x06ddf6e1ee758fde18425dbce46ccddab61afc4d83b90d27febdf928d8a18bfc
  const ASSOCIATED_TOKEN_PROGRAM: Address := 0x8c97258f4e2489f1bb3d1029148e0d830b5a1399daff1084048e7bd8dbe9f859

  datatype AccountMeta = AccountMeta(pubkey: Address, isSigner: bool, isWritable: bool)

  datatype RawInstruction = RawInstruction(programId: Address, accounts: seq<AccountMeta>, data: seq<Byte>)

  datatype Leg = Leg(
    setup: seq<RawInstruction>,
    swap: RawInstruction,
    cleanup: Option<RawInstruction>,
    other: seq<RawInstruction>,
    lookupTables: seq<(Address, seq<Address>)>)

  /** The account a `CreateIdempotent` of the associated-token program opens. */
  function AtaCreateTarget(ix: RawInstruction): Option<Address> {
    if ix.programId == ASSOCIATED_TOKEN_PROGRAM && ix.data == [1] && |ix.accounts| > 1
    then Some(ix.accounts[1].pubkey) else None
  }

  /** The account a token program's `CloseAccount` closes. */
  function TokenCloseTarget(ix: RawInstruction): Option<Address> {
    if (ix.programId == TOKEN_PROGRAM || ix.programId == TOKEN_2022_PROGRAM)
       && |ix.data| > 0 && ix.data[0] == 9 && |ix.accounts| > 0
    then Some(ix.accounts[0].pubkey) else None
  }

  predicate IsWsolCreate(ix: RawInstruction) {
    AtaCreateTarget(ix).Some? && |ix.accounts| > 3 && ix.accounts[3].pubkey == WSOL_MINT
  }

  /** An instruction as the pass sees it. */
  datatype Kind = Create(account: Address, wsol: bool) | Close(account: Address) | Unknown

  function KindOf(ix: RawInstruction): Kind {
    if AtaCreateTarget(ix).Some? then Create(AtaCreateTarget(ix).value, IsWsolCreate(ix))
    else if TokenCloseTarget(ix).Some? then Close(TokenCloseTarget(ix).value)
    else Unknown
  }

  // ------------------------------------------------------------------
  // The pass, as one scan over the instructions with their role in a leg.
  // ------------------------------------------------------------------

  datatype Role = Setup | Swap | Closing

  datatype Item = Item(role: Role, ix: RawInstruction)

  function Tagged(role: Role, ixs: seq<RawInstruction>): seq<Item> {
    seq(|ixs|, i requires 0 <= i < |ixs| => Item(role, ixs[i]))
  }

  function AfterSwap(leg: Leg): seq<RawInstruction> {
    (if leg.cleanup.Some? then [leg.cleanup.value] else []) + leg.other
  }

  function Items(leg: Leg): seq<Item> {
    Tagged(Setup, leg.setup) + [Item(Swap, leg.swap)] + Tagged(Closing, AfterSwap(leg))
  }

  function AllItems(legs: seq<Leg>): seq<Item> {
    if legs == [] then [] else AllItems(legs[..|legs| - 1]) + Items(legs[|legs| - 1])
  }

  /** The instructions with nothing dropped. */
  function Plain(items: seq<Item>): seq<RawInstruction> {
    if items == [] then [] else Plain(items[..|items| - 1]) + [items[|items| - 1].ix]
  }

  predicate Dropped(role: Role, kind: Kind, existing: set<Address>) {
    role == Setup && kind.Create? && kind.account in existing && !kind.wsol
  }

  function ExistingAfter(role: Role, kind: Kind, existing: set<Address>): set<Address> {
    if role == Setup && kind.Create? then existing + {kind.account}
    else if role == Closing && kind.Close? then existing - {kind.account}
    else existing
  }

  function Without(s: seq<Address>, a: Address): seq<Address> {
    if s == [] then []
    else if s[|s| - 1] == a then Without(s[..|s| - 1], a)
    else Without(s[..|s| - 1], a) + [s[|s| - 1]]
  }

  function CreatesAfter(role: Role, kind: Kind, existing: set<Address>, creates: seq<Address>): seq<Address> {
    if role == Setup && kind.Create? && !Dropped(role, kind, existing) && kind.account !in creates
    then creates + [kind.account]
    else if role == Closing && kind.Close? then Without(creates, kind.account)
    else creates
  }

  datatype Scanned = Scanned(out: seq<RawInstruction>, existing: set<Address>, creates: seq<Address>)

  function ScanStep(p: Scanned, item: Item): Scanned {
    var kind := KindOf(item.ix);
    Scanned(
      if Dropped(item.role, kind, p.existing) then p.out else p.out + [item.ix],
      ExistingAfter(item.role, kind, p.existing),
      CreatesAfter(item.role, kind, p.existing, p.creates))
  }

  function Scan(items: seq<Item>, existing: set<Address>, creates: seq<Address>): Scanned {
    if items == [] then Scanned([], existing, creates)
    else ScanStep(Scan(items[..|items| - 1], existing, creates), items[|items| - 1])
  }

  lemma {:induction false} ScanOneMore(items: seq<Item>, item: Item, existing: set<Address>, creates: seq<Address>)
    ensures Scan(items + [item], existing, creates) == ScanStep(Scan(items, existing, creates), item)
  {
    assert (items + [item])[..|items|] == items;
  }

  lemma TaggedOneMore(head: seq<Item>, role: Role, ixs: seq<RawInstruction>, i: nat)
    requires i < |ixs|
    ensures head + Tagged(role, ixs[..i + 1]) == (head + Tagged(role, ixs[..i])) + [Item(role, ixs[i])]
    ensures Tagged(role, ixs[..i + 1]) == Tagged(role, ixs[..i]) + [Item(role, ixs[i])]
  {
  }

  /** What `leg_instructions` carries from leg to leg: the accounts that exist at
      this point inside the transaction and those it leaves created. */
  class Tracker {
    var existing: set<Address>
    var creates: seq<Address>

    constructor (known: set<Address>)
      ensures existing == known && creates == []
    {
      existing := known;
      creates := [];
    }

    method LegInstructions(leg: Leg) returns (out: seq<RawInstruction>)
      modifies this
      ensures Scanned(out, existing, creates) == Scan(Items(leg), old(existing), old(creates))
    {
      ghost var e, c := existing, creates;
      ghost var head := Tagged(Setup, leg.setup);
      out := SetupPass(leg.setup);
      ScanOneMore(head, Item(Swap, leg.swap), e, c);
      out := out + [leg.swap];
      out := ClosingPass(AfterSwap(leg), out, head + [Item(Swap, leg.swap)], e, c);
    }

    method SetupPass(setup: seq<RawInstruction>) returns (out: seq<RawInstruction>)
      modifies this
      ensures Scanned(out, existing, creates) == Scan(Tagged(Setup, setup), old(existing), old(creates))
    {
      ghost var e, c := existing, creates;
      out := [];
      for i := 0 to |setup|
        invariant Scanned(out, existing, creates) == Scan(Tagged(Setup, setup[..i]), e, c)
      {
        TaggedOneMore([], Setup, setup, i);
        ScanOneMore(Tagged(Setup, setup[..i]), Item(Setup, setup[i]), e, c);
        out := SetupInstruction(setup[i], out);
      }
      assert setup[..|setup|] == setup;
    }

    /** The instructions after the swap, where `head` are those up to it. */
    method ClosingPass(
      later: seq<RawInstruction>, sofar: seq<RawInstruction>, ghost head: seq<Item>, ghost e: set<Address>,
      ghost c: seq<Address>)
      returns (out: seq<RawInstruction>)
      requires Scanned(sofar, existing, creates) == Scan(head, e, c)
      modifies this
      ensures Scanned(out, existing, creates) == Scan(head + Tagged(Closing, later), e, c)
    {
      out := sofar;
      assert head + Tagged(Closing, later[..0]) == head;
      for i := 0 to |later|
        invariant Scanned(out, existing, creates) == Scan(head + Tagged(Closing, later[..i]), e, c)
      {
        TaggedOneMore(head, Closing, later, i);
        ScanOneMore(head + Tagged(Closing, later[..i]), Item(Closing, later[i]), e, c);
        out := ClosingInstruction(later[i], out);
      }
      assert later[..|later|] == later;
    }

    method SetupInstruction(ix: RawInstruction, sofar: seq<RawInstruction>) returns (out: seq<RawInstruction>)
      modifies this
      ensures Scanned(out, existing, creates) == ScanStep(Scanned(sofar, old(existing), old(creates)), Item(Setup, ix))
    {
      var target := AtaCreateTarget(ix);
      if target.Some? && target.value in existing && !IsWsolCreate(ix) {
        assert existing == existing + {target.value};
        return sofar;
      }
      if target.Some? {
        if target.value !in creates {
          creates := creates + [target.value];
        }
        existing := existing + {target.value};
      }
      out := sofar + [ix];
    }

    method ClosingInstruction(ix: RawInstruction, sofar: seq<RawInstruction>) returns (out: seq<RawInstruction>)
      modifies this
      ensures Scanned(out, existing, creates) ==
        ScanStep(Scanned(sofar, old(existing), old(creates)), Item(Closing, ix))
    {
      var target := TokenCloseTarget(ix);
      if target.Some? {
        existing := existing - {target.value};
        creates := Without(creates, target.value);
      }
      out := sofar + [ix];
    }
  }

  // ------------------------------------------------------------------
  // An interpreter for the instructions the pass looks at.
  // ------------------------------------------------------------------

  /** The token accounts that are open, and everything else. */
  datatype Ledger<+W> = Ledger(open: set<Address>, world: W)

  /** What the programs do to the rest of the world; `None` is a failed
      instruction. Only the two recognised instructions change `open`: this is the
      assumption on swaps and other unknown instructions the pass relies on. */
  datatype Programs<!W> = Programs(effect: (RawInstruction, Ledger<W>) -> Option<W>)

  /** A create of an open account does nothing; a close of an absent one fails. */
  function StepAs<W>(p: Programs<W>, kind: Kind, ix: RawInstruction, s: Ledger<W>): Option<Ledger<W>> {
    if kind.Create? && kind.account in s.open then Some(s)
    else if kind.Close? && kind.account !in s.open then None
    else
      var w := p.effect(ix, s);
      if w.None? then None
      else Some(Ledger(
        if kind.Create? then s.open + {kind.account} else if kind.Close? then s.open - {kind.account} else s.open,
        w.value))
  }

  function Step<W>(p: Programs<W>, ix: RawInstruction, s: Ledger<W>): Option<Ledger<W>> {
    StepAs(p, KindOf(ix), ix, s)
  }

  function Run<W>(p: Programs<W>, ixs: seq<RawInstruction>, s: Ledger<W>): Option<Ledger<W>> {
    if ixs == [] then Some(s)
    else
      var t := Run(p, ixs[..|ixs| - 1], s);
      if t.None? then None else Step(p, ixs[|ixs| - 1], t.value)
  }

  function AndThen<W>(p: Programs<W>, s: Option<Ledger<W>>, ixs: seq<RawInstruction>): Option<Ledger<W>> {
    if s.None? then None else Run(p, ixs, s.value)
  }

  lemma {:induction false} RunSnoc<W>(p: Programs<W>, ixs: seq<RawInstruction>, ix: RawInstruction, s: Ledger<W>)
    ensures Run(p, ixs + [ix], s) ==
            if Run(p, ixs, s).None? then None else Step(p, ix, Run(p, ixs, s).value)
  {
    assert (ixs + [ix])[..|ixs|] == ixs;
  }

  lemma {:induction false} RunAppend<W>(p: Programs<W>, a: seq<RawInstruction>, b: seq<RawInstruction>, s: Ledger<W>)
    ensures Run(p, a + b, s) == AndThen(p, Run(p, a, s), b)
  {
    if b == [] {
      assert a + b == a;
    } else {
      var n := |b| - 1;
      RunAppend(p, a, b[..n], s);
      assert (a + b)[..|a + b| - 1] == a + b[..n];
    }
  }

  /** What the providers promise of an instruction of a leg: a close comes only
      after the swap, and an account of `wsol` is only ever opened as wSOL (an
      address has one mint). */
  predicate Promised(role: Role, kind: Kind, wsol: set<Address>) {
    && (role != Closing ==> !kind.Close?)
    && (kind.Create? && kind.account in wsol ==> kind.wsol)
  }

  predicate AllPromised(items: seq<Item>, wsol: set<Address>) {
    forall i | 0 <= i < |items| :: Promised(items[i].role, KindOf(items[i].ix), wsol)
  }

  lemma DroppedDoesNothing<W>(
    p: Programs<W>, role: Role, kind: Kind, ix: RawInstruction, wsol: set<Address>, existing: set<Address>,
    s: Ledger<W>)
    requires Promised(role, kind, wsol) && existing - wsol <= s.open
    ensures Dropped(role, kind, existing) ==> StepAs(p, kind, ix, s) == Some(s)
    ensures var t := StepAs(p, kind, ix, s); t.Some? ==> ExistingAfter(role, kind, existing) - wsol <= t.value.open
  {
  }

  /** Main result: the pruned stream and the full one end in the same ledger, or
      both fail, as long as each non-wSOL account believed to exist really does.
      wSOL entries of `existing` may be stale. */
  lemma {:induction false} PruningPreservesMeaning<W>(
    p: Programs<W>, items: seq<Item>, wsol: set<Address>, existing: set<Address>, creates: seq<Address>, s: Ledger<W>)
    requires AllPromised(items, wsol)
    requires existing - wsol <= s.open
    ensures Run(p, Scan(items, existing, creates).out, s) == Run(p, Plain(items), s)
    ensures
      var end := Run(p, Plain(items), s);
      end.Some? ==> Scan(items, existing, creates).existing - wsol <= end.value.open
  {
    if items == [] {
    } else {
      var n := |items| - 1;
      var before, item := items[..n], items[n];
      PruningPreservesMeaning(p, before, wsol, existing, creates, s);
      var was := Scan(before, existing, creates);
      RunSnoc(p, Plain(before), item.ix, s);
      RunSnoc(p, was.out, item.ix, s);
      var at := Run(p, Plain(before), s);
      if at.Some? {
        DroppedDoesNothing(p, item.role, KindOf(item.ix), item.ix, wsol, was.existing, at.value);
      }
    }
  }

  /** The same for whole transactions: whatever is put before and after (compute
      budget, tip), the pruned legs mean what the full legs mean. */
  lemma {:induction false} PrunedTransactionMeansTheSame<W>(
    p: Programs<W>, legs: seq<Leg>, prefix: seq<RawInstruction>, suffix: seq<RawInstruction>,
    wsol: set<Address>, existing: set<Address>, s: Ledger<W>)
    requires AllPromised(AllItems(legs), wsol)
    requires Run(p, prefix, s).Some? ==> existing - wsol <= Run(p, prefix, s).value.open
    ensures Run(p, prefix + Scan(AllItems(legs), existing, []).out + suffix, s)
         == Run(p, prefix + Plain(AllItems(legs)) + suffix, s)
  {
    var items := AllItems(legs);
    var pruned, plain := Scan(items, existing, []).out, Plain(items);
    RunAppend(p, prefix, pruned, s);
    RunAppend(p, prefix, plain, s);
    RunAppend(p, prefix + pruned, suffix, s);
    RunAppend(p, prefix + plain, suffix, s);
    if Run(p, prefix, s).Some? {
      PruningPreservesMeaning(p, items, wsol, existing, [], Run(p, prefix, s).value);
    }
  }

  // ------------------------------------------------------------------
  // The deposit list.
  // ------------------------------------------------------------------

  predicate Distinct(s: seq<Address>) {
    forall i, j | 0 <= i < j < |s| :: s[i] != s[j]
  }

  lemma {:induction false} WithoutIsFilter(s: seq<Address>, a: Address)
    ensures forall x :: x in Without(s, a) <==> x in s && x != a
    ensures Distinct(s) ==> Distinct(Without(s, a))
  {
    if s == [] {
    } else {
      var n := |s| - 1;
      WithoutIsFilter(s[..n], a);
      assert s == s[..n] + [s[n]];
      if Distinct(s) {
        assert s[n] !in s[..n];
        assert s[n] !in Without(s[..n], a);
      }
    }
  }

  /** The accounts that other instructions than those of the setup open. */
  function OpenedElsewhere(items: seq<Item>): set<Address> {
    set i | 0 <= i < |items| && items[i].role != Setup && KindOf(items[i].ix).Create? :: KindOf(items[i].ix).account
  }

  /** The accounts the instructions close after a swap. */
  function Closed(items: seq<Item>): set<Address> {
    set i | 0 <= i < |items| && items[i].role == Closing && KindOf(items[i].ix).Close? :: KindOf(items[i].ix).account
  }

  /** The accounts the instructions open as wSOL accounts. */
  function OpenedAsWsol(items: seq<Item>): set<Address> {
    set i | 0 <= i < |items| && KindOf(items[i].ix).Create? && KindOf(items[i].ix).wsol :: KindOf(items[i].ix).account
  }

  /** What the list of deposits says of a transaction that started with the
      accounts `start` open and has `now` open, of which `others` were opened
      elsewhere than in the setup of a leg. */
  predicate Bracketed(deposits: seq<Address>, start: set<Address>, now: set<Address>, others: set<Address>) {
    && Distinct(deposits)
    && (forall a | a in deposits :: a in now)
    && (forall a | a in now && a !in start && a !in others :: a in deposits)
  }

  lemma BracketedStep<W>(
    p: Programs<W>, role: Role, kind: Kind, ix: RawInstruction, wsol: set<Address>, existing: set<Address>,
    deposits: seq<Address>, start: set<Address>, others: set<Address>, s: Ledger<W>)
    requires Promised(role, kind, wsol) && existing - wsol <= s.open
    requires role != Setup && kind.Create? ==> kind.account in others
    requires Bracketed(deposits, start, s.open, others)
    requires StepAs(p, kind, ix, s).Some?
    ensures Bracketed(CreatesAfter(role, kind, existing, deposits), start, StepAs(p, kind, ix, s).value.open, others)
  {
    var now := CreatesAfter(role, kind, existing, deposits);
    if kind.Close? {
      WithoutIsFilter(deposits, kind.account);
    } else if now != deposits {
      assert now[..|deposits|] == deposits && now[|deposits|] == kind.account;
    }
  }

  /** Main result: the accounts reported as left created are bracketed by what the
      transaction does. None is listed twice, each is open at the end, and each
      account that was closed at the start and is open at the end is listed, unless an
      instruction outside the legs' setup opens it. */
  lemma {:induction false} DepositsAreBracketed<W>(
    p: Programs<W>, items: seq<Item>, wsol: set<Address>, existing: set<Address>, s: Ledger<W>)
    requires AllPromised(items, wsol)
    requires existing - wsol <= s.open
    requires Run(p, Plain(items), s).Some?
    ensures Bracketed(
              Scan(items, existing, []).creates, s.open, Run(p, Plain(items), s).value.open, OpenedElsewhere(items))
  {
    if items == [] {
    } else {
      var n := |items| - 1;
      var before, item := items[..n], items[n];
      RunSnoc(p, Plain(before), item.ix, s);
      DepositsAreBracketed(p, before, wsol, existing, s);
      assert items == before + [item];
      OpenedElsewhereGrows(before, item);
      PruningPreservesMeaning(p, before, wsol, existing, [], s);
      var was, at := Scan(before, existing, []), Run(p, Plain(before), s).value;
      BracketedStep(
        p, item.role, KindOf(item.ix), item.ix, wsol, was.existing, was.creates, s.open, OpenedElsewhere(items), at);
    }
  }

  lemma OpenedElsewhereGrows(before: seq<Item>, item: Item)
    ensures OpenedElsewhere(before + [item]) ==
      OpenedElsewhere(before) + if item.role != Setup && KindOf(item.ix).Create? then {KindOf(item.ix).account} else {}
  {
    var items := before + [item];
    assert items[|before|] == item;
    assert forall i | 0 <= i < |before| :: items[i] == before[i];
  }

  /** With an exact set of known accounts, a listed account that was already open
      at the start is wSOL or was closed on the way. */
  lemma {:induction false} ListedAlthoughOpen(
    items: seq<Item>, wsol: set<Address>, existing: set<Address>, start: set<Address>)
    requires start - wsol <= existing
    ensures start - wsol - Scan(items, existing, []).existing <= Closed(items)
    ensures forall a | a in Scan(items, existing, []).creates && a in start - wsol ::
              a in Closed(items) || a in OpenedAsWsol(items)
  {
    if items == [] {
    } else {
      var n := |items| - 1;
      var before, item := items[..n], items[n];
      assert items == before + [item];
      ListedAlthoughOpen(before, wsol, existing, start);
      ClosedGrows(before, item);
      var was := Scan(before, existing, []);
      if item.role == Closing && KindOf(item.ix).Close? {
        WithoutIsFilter(was.creates, KindOf(item.ix).account);
      }
    }
  }

  lemma ClosedGrows(before: seq<Item>, item: Item)
    ensures Closed(before + [item]) ==
      Closed(before) + if item.role == Closing && KindOf(item.ix).Close? then {KindOf(item.ix).account} else {}
    ensures OpenedAsWsol(before + [item]) ==
      OpenedAsWsol(before) + if KindOf(item.ix).Create? && KindOf(item.ix).wsol then {KindOf(item.ix).account} else {}
  {
    var items := before + [item];
    assert items[|before|] == item;
    assert forall i | 0 <= i < |before| :: items[i] == before[i];
  }

  // ------------------------------------------------------------------
  // What the pass leaves out.
  // ------------------------------------------------------------------

  /** A leg is its setup, its swap, and what comes after the swap, in that order. */
  lemma LegInOrder(leg: Leg)
    ensures
      && var all, n := Items(leg), |leg.setup|;
      && Plain(all) ==
         leg.setup + [leg.swap] + (if leg.cleanup.Some? then [leg.cleanup.value] else []) + leg.other
      && (forall i | 0 <= i < |all| ::
           all[i].role == if i < n then Setup else if i == n then Swap else Closing)
  {
    PlainIsEach(Items(leg));
  }

  lemma {:induction false} PlainIsEach(items: seq<Item>)
    ensures |Plain(items)| == |items| && forall i | 0 <= i < |items| :: Plain(items)[i] == items[i].ix
  {
    if items == [] {
    } else {
      PlainIsEach(items[..|items| - 1]);
    }
  }

  /** The instructions that carry a mark, in order. */
  function Marked(items: seq<Item>, marks: seq<bool>): seq<RawInstruction>
    requires |marks| == |items|
  {
    if items == [] then []
    else
      var n := |items| - 1;
      Marked(items[..n], marks[..n]) + if marks[n] then [items[n].ix] else []
  }

  /** A create of the setup, not of wSOL: the only kind of instruction to leave out. */
  predicate MayBeIdle(item: Item) {
    item.role == Setup && KindOf(item.ix).Create? && !KindOf(item.ix).wsol
  }

  /** Instruction `i`, run where it stands after the marked ones before it, goes through
      and changes nothing. */
  predicate Idle<W(==)>(p: Programs<W>, items: seq<Item>, marks: seq<bool>, s: Ledger<W>, i: nat)
    requires i < |items| && |marks| == |items|
  {
    var at := Run(p, Marked(items[..i], marks[..i]), s);
    at.Some? && Step(p, items[i].ix, at.value) == at
  }

  /** Whether instruction `i` is ever run: the marked ones before it go through. */
  predicate Reached<W>(p: Programs<W>, items: seq<Item>, marks: seq<bool>, s: Ledger<W>, i: nat)
    requires i < |items| && |marks| == |items|
  {
    Run(p, Marked(items[..i], marks[..i]), s).Some?
  }

  /** Nothing but setup creates is left out, no idle one of an account that only setups open
      is kept, and what is left out would be idle. */
  ghost predicate ExactlyTheIdle<W>(p: Programs<W>, items: seq<Item>, marks: seq<bool>, s: Ledger<W>)
    requires |marks| == |items|
  {
    && (forall i | 0 <= i < |items| && !marks[i] :: MayBeIdle(items[i]))
    && (forall i | 0 <= i < |items| && !marks[i] && Reached(p, items, marks, s, i) :: Idle(p, items, marks, s, i))
    && (forall i | 0 <= i < |items| && marks[i] && MayBeIdle(items[i]) && Idle(p, items, marks, s, i) ::
          KindOf(items[i].ix).account in OpenedElsewhere(items[..i]))
  }

  /** Which instructions the pass keeps. */
  function Marks(items: seq<Item>, existing: set<Address>, creates: seq<Address>): (marks: seq<bool>)
    ensures |marks| == |items|
  {
    if items == [] then []
    else
      var n := |items| - 1;
      var before := Scan(items[..n], existing, creates);
      Marks(items[..n], existing, creates) + [before.out != Scan(items, existing, creates).out]
  }

  lemma {:induction false} MarksOfPrefix(items: seq<Item>, existing: set<Address>, creates: seq<Address>, i: nat)
    requires i <= |items|
    ensures Marks(items, existing, creates)[..i] == Marks(items[..i], existing, creates)
    decreases |items| - i
  {
    if i == |items| {
      assert items[..i] == items;
    } else {
      MarksOfPrefix(items, existing, creates, i + 1);
      assert items[..i + 1][..i] == items[..i];
    }
  }

  lemma {:induction false} OutIsMarked(items: seq<Item>, existing: set<Address>, creates: seq<Address>)
    ensures Scan(items, existing, creates).out == Marked(items, Marks(items, existing, creates))
  {
    if items == [] {
    } else {
      var n := |items| - 1;
      OutIsMarked(items[..n], existing, creates);
      MarksOfPrefix(items, existing, creates, n);
    }
  }

  lemma {:induction false} MarkSaysDropped(items: seq<Item>, existing: set<Address>, creates: seq<Address>, i: nat)
    requires i < |items|
    ensures
      && var before := Scan(items[..i], existing, creates);
      && (Marks(items, existing, creates)[i] <==> !Dropped(items[i].role, KindOf(items[i].ix), before.existing))
      && before.out == Marked(items[..i], Marks(items, existing, creates)[..i])
  {
    MarksOfPrefix(items, existing, creates, i);
    MarksOfPrefix(items, existing, creates, i + 1);
    OutIsMarked(items[..i], existing, creates);
    assert items[..i + 1][..i] == items[..i];
    assert Marks(items, existing, creates)[i] == Marks(items[..i + 1], existing, creates)[i];
  }

  /** Of the accounts the setups alone open, the open ones are believed to exist. */
  lemma {:induction false} OpenIsBelieved<W>(
    p: Programs<W>, items: seq<Item>, wsol: set<Address>, existing: set<Address>, creates: seq<Address>, s: Ledger<W>)
    requires AllPromised(items, wsol)
    requires existing - wsol == s.open - wsol && Run(p, Plain(items), s).Some?
    ensures Run(p, Plain(items), s).value.open - wsol - OpenedElsewhere(items)
      <= Scan(items, existing, creates).existing
  {
    if items == [] {
    } else {
      var n := |items| - 1;
      var before, item := items[..n], items[n];
      RunSnoc(p, Plain(before), item.ix, s);
      OpenIsBelieved(p, before, wsol, existing, creates, s);
      assert items == before + [item];
      OpenedElsewhereGrows(before, item);
    }
  }

  lemma {:induction false} PromisedBefore(items: seq<Item>, wsol: set<Address>, i: nat)
    requires AllPromised(items, wsol) && i <= |items|
    ensures AllPromised(items[..i], wsol)
  {
  }

  /** Main result: the output is the instructions in order with setup creates of other than
      wSOL left out, and of these exactly the idle ones, when the accounts known are just the
      open ones. A kept one changes the ledger where it runs, unless an instruction outside
      the setups may have opened its account. */
  lemma {:induction false} LeavesOutExactlyTheIdle<W>(
    p: Programs<W>, items: seq<Item>, wsol: set<Address>, existing: set<Address>, creates: seq<Address>, s: Ledger<W>)
    requires AllPromised(items, wsol)
    requires existing - wsol == s.open - wsol
    ensures exists marks: seq<bool> ::
      && |marks| == |items| && Scan(items, existing, creates).out == Marked(items, marks)
      && ExactlyTheIdle(p, items, marks, s)
  {
    var marks := Marks(items, existing, creates);
    OutIsMarked(items, existing, creates);
    forall i | 0 <= i < |items|
      ensures !marks[i] ==> MayBeIdle(items[i]) && (Reached(p, items, marks, s, i) ==> Idle(p, items, marks, s, i))
      ensures marks[i] && MayBeIdle(items[i]) && Idle(p, items, marks, s, i) ==>
        KindOf(items[i].ix).account in OpenedElsewhere(items[..i])
    {
      OneMark(p, items, wsol, existing, creates, s, i);
    }
  }

  lemma {:induction false} OneMark<W>(
    p: Programs<W>, items: seq<Item>, wsol: set<Address>, existing: set<Address>, creates: seq<Address>, s: Ledger<W>,
    i: nat)
    requires AllPromised(items, wsol) && i < |items|
    requires existing - wsol == s.open - wsol
    ensures
      && var marks := Marks(items, existing, creates);
      && (!marks[i] ==> MayBeIdle(items[i]) && (Reached(p, items, marks, s, i) ==> Idle(p, items, marks, s, i)))
      && (marks[i] && MayBeIdle(items[i]) && Idle(p, items, marks, s, i) ==>
           KindOf(items[i].ix).account in OpenedElsewhere(items[..i]))
  {
    MarkSaysDropped(items, existing, creates, i);
    PromisedBefore(items, wsol, i);
    PruningPreservesMeaning(p, items[..i], wsol, existing, creates, s);
    if Run(p, Plain(items[..i]), s).Some? {
      OpenIsBelieved(p, items[..i], wsol, existing, creates, s);
    }
  }

  // ------------------------------------------------------------------
  // Legs one after the other: in one transaction or in one each.
  // ------------------------------------------------------------------

  lemma {:induction false} ScanAppend(a: seq<Item>, b: seq<Item>, existing: set<Address>, creates: seq<Address>)
    ensures
      var first := Scan(a, existing, creates);
      var second := Scan(b, first.existing, first.creates);
      Scan(a + b, existing, creates) == Scanned(first.out + second.out, second.existing, second.creates)
  {
    if b == [] {
      assert a + b == a;
    } else {
      var n := |b| - 1;
      ScanAppend(a, b[..n], existing, creates);
      assert (a + b)[..|a + b| - 1] == a + b[..n];
      var first := Scan(a, existing, creates);
      StepAfter(first.out, Scan(b[..n], first.existing, first.creates), b[n]);
    }
  }

  lemma StepAfter(out: seq<RawInstruction>, s: Scanned, item: Item)
    ensures ScanStep(s.(out := out + s.out), item) == ScanStep(s, item).(out := out + ScanStep(s, item).out)
  {
    assert out + (s.out + [item.ix]) == (out + s.out) + [item.ix];
  }

  /** The list of creations only reports: what is emitted and what is believed to
      exist do not depend on it, and starting from an empty list loses only what
      was on it. */
  lemma {:induction false} CreatesOnlyReport(items: seq<Item>, existing: set<Address>, creates: seq<Address>)
    ensures
      var with, empty := Scan(items, existing, creates), Scan(items, existing, []);
      && with.out == empty.out && with.existing == empty.existing
      && (forall a | a in with.creates :: a in creates || a in empty.creates)
  {
    if items == [] {
    } else {
      var n := |items| - 1;
      CreatesOnlyReport(items[..n], existing, creates);
      var kind := KindOf(items[n].ix);
      if items[n].role == Closing && kind.Close? {
        WithoutIsFilter(Scan(items[..n], existing, creates).creates, kind.account);
        WithoutIsFilter(Scan(items[..n], existing, []).creates, kind.account);
      }
    }
  }

  /** Leg `i` scanned after the legs before it. */
  function ScanOfLeg(legs: seq<Leg>, existing: set<Address>, i: nat): Scanned
    requires i < |legs|
  {
    Scan(Items(legs[i]), Scan(AllItems(legs[..i]), existing, []).existing, [])
  }

  /** Each leg scanned on its own, after the legs before it. */
  function LegScans(legs: seq<Leg>, existing: set<Address>): (r: seq<Scanned>)
    ensures |r| == |legs|
  {
    seq(|legs|, i requires 0 <= i < |legs| => ScanOfLeg(legs, existing, i))
  }

  lemma {:induction false} ScanOfEarlierLeg(legs: seq<Leg>, existing: set<Address>, k: nat, i: nat)
    requires i < k <= |legs|
    ensures ScanOfLeg(legs[..k], existing, i) == ScanOfLeg(legs, existing, i)
  {
    assert legs[..k][..i] == legs[..i];
  }

  lemma {:induction false} LegScansSnoc(legs: seq<Leg>, existing: set<Address>)
    requires legs != []
    ensures
      && var k := |legs| - 1;
      && LegScans(legs, existing) == LegScans(legs[..k], existing) + [ScanOfLeg(legs, existing, k)]
  {
    var k := |legs| - 1;
    var scans, earlier := LegScans(legs, existing), LegScans(legs[..k], existing);
    forall i | 0 <= i < k
      ensures scans[i] == earlier[i]
    {
      ScanOfEarlierLeg(legs, existing, k, i);
    }
    OneMore(scans, earlier, ScanOfLeg(legs, existing, k));
  }

  lemma OneMore<T>(all: seq<T>, before: seq<T>, last: T)
    requires |all| == |before| + 1 && all[|before|] == last && forall i | 0 <= i < |before| :: all[i] == before[i]
    ensures all == before + [last]
  {
  }

  /** Each of these accounts is one that some leg leaves created. */
  predicate Cover(scans: seq<Scanned>, creates: seq<Address>) {
    forall a | a in creates :: exists i :: 0 <= i < |scans| && a in scans[i].creates
  }

  function Outs(scans: seq<Scanned>): seq<RawInstruction> {
    if scans == [] then [] else Outs(scans[..|scans| - 1]) + scans[|scans| - 1].out
  }

  lemma AllItemsSnoc(legs: seq<Leg>, n: nat)
    requires n < |legs|
    ensures AllItems(legs[..n + 1]) == AllItems(legs[..n]) + Items(legs[n])
  {
    assert legs[..n + 1][..n] == legs[..n];
  }

  /** Leg by leg or all at once, the same instructions come out; and an account
      the whole leaves created is one some leg leaves created. */
  lemma {:induction false} LegByLeg(legs: seq<Leg>, existing: set<Address>)
    ensures Outs(LegScans(legs, existing)) == Scan(AllItems(legs), existing, []).out
    ensures Cover(LegScans(legs, existing), Scan(AllItems(legs), existing, []).creates)
  {
    if legs == [] {
    } else {
      var n := |legs| - 1;
      LegByLeg(legs[..n], existing);
      LegScansSnoc(legs, existing);
      OneMoreLeg(legs, existing, LegScans(legs[..n], existing));
    }
  }

  lemma {:induction false} OneMoreLeg(legs: seq<Leg>, existing: set<Address>, earlier: seq<Scanned>)
    requires legs != [] && |earlier| == |legs| - 1
    requires Outs(earlier) == Scan(AllItems(legs[..|legs| - 1]), existing, []).out
    requires Cover(earlier, Scan(AllItems(legs[..|legs| - 1]), existing, []).creates)
    ensures
      && var scans := earlier + [ScanOfLeg(legs, existing, |legs| - 1)];
      && Outs(scans) == Scan(AllItems(legs), existing, []).out
      && Cover(scans, Scan(AllItems(legs), existing, []).creates)
  {
    var n := |legs| - 1;
    var before, last := Scan(AllItems(legs[..n]), existing, []), ScanOfLeg(legs, existing, n);
    var scans := earlier + [last];
    assert scans[..n] == earlier;
    ScanAppend(AllItems(legs[..n]), Items(legs[n]), existing, []);
    CreatesOnlyReport(Items(legs[n]), before.existing, before.creates);
    forall a | a in Scan(AllItems(legs), existing, []).creates
      ensures exists i :: 0 <= i < |scans| && a in scans[i].creates
    {
      if a in before.creates {
        var i :| 0 <= i < n && a in earlier[i].creates;
        assert a in scans[i].creates;
      } else {
        assert a in scans[n].creates;
      }
    }
  }

  /** What exists after one more leg, whether or not creations so far are reported. */
  lemma {:induction false} ExistingAfterLeg(legs: seq<Leg>, existing: set<Address>, i: nat)
    requires i < |legs|
    ensures Scan(AllItems(legs[..i + 1]), existing, []).existing == ScanOfLeg(legs, existing, i).existing
  {
    var before := Scan(AllItems(legs[..i]), existing, []);
    AllItemsSnoc(legs, i);
    ScanAppend(AllItems(legs[..i]), Items(legs[i]), existing, []);
    CreatesOnlyReport(Items(legs[i]), before.existing, before.creates);
  }
}
