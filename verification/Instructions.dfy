/** The instructions the searcher writes itself, byte by byte (crates/core/src/ix.rs), and
    what the programs that receive them read. */
module Instructions {
  import opened Wrappers
  import opened Assembly

  const U32_LIMIT := 0x1_0000_0000
  const U64_LIMIT := 0x1_0000_0000_0000_0000

  // ------------------------------------------------------------------
  // Writing.
  // ------------------------------------------------------------------

  /** The low bytes of a number, lowest first. */
  function LittleEndian(n: nat, width: nat): (bytes: seq<Byte>)
    ensures |bytes| == width
  {
    if width == 0 then [] else [n % 256] + LittleEndian(n / 256, width - 1)
  }

  function SetCuLimitIx(units: nat): RawInstruction {
    RawInstruction(COMPUTE_BUDGET_PROGRAM, [], [2] + LittleEndian(units, 4))
  }

  function SetCuPriceIx(microLamports: nat): RawInstruction {
    RawInstruction(COMPUTE_BUDGET_PROGRAM, [], [3] + LittleEndian(microLamports, 8))
  }

  function SystemTransferIx(from: Address, to: Address, lamports: nat): RawInstruction {
    RawInstruction(
      SYSTEM_PROGRAM, [AccountMeta(from, true, true), AccountMeta(to, false, true)],
      LittleEndian(2, 4) + LittleEndian(lamports, 8))
  }

  /** Opens `ata`, the account of `owner` for `mint`, unless it exists. */
  function AtaCreateIdempotentIx(payer: Address, ata: Address, owner: Address, mint: Address): RawInstruction {
    RawInstruction(
      ASSOCIATED_TOKEN_PROGRAM,
      [AccountMeta(payer, true, true), AccountMeta(ata, false, true), AccountMeta(owner, false, false),
       AccountMeta(mint, false, false), AccountMeta(SYSTEM_PROGRAM, false, false),
       AccountMeta(TOKEN_PROGRAM, false, false)],
      [1])
  }

  // ------------------------------------------------------------------
  // Reading.
  // ------------------------------------------------------------------

  /** The number whose lowest byte comes first. */
  function FromLittleEndian(bytes: seq<Byte>): nat {
    if bytes == [] then 0 else bytes[0] + 256 * FromLittleEndian(bytes[1..])
  }

  function DecodeCuLimit(ix: RawInstruction): Option<nat> {
    if ix.programId == COMPUTE_BUDGET_PROGRAM && |ix.data| == 5 && ix.data[0] == 2
    then Some(FromLittleEndian(ix.data[1..])) else None
  }

  function DecodeCuPrice(ix: RawInstruction): Option<nat> {
    if ix.programId == COMPUTE_BUDGET_PROGRAM && |ix.data| == 9 && ix.data[0] == 3
    then Some(FromLittleEndian(ix.data[1..])) else None
  }

  datatype Transfer = Transfer(from: Address, to: Address, lamports: nat)

  /** What the system program reads as a transfer: instruction 2, a signing writable source
      and a writable destination. Further accounts do not matter to it. */
  function DecodeTransfer(ix: RawInstruction): Option<Transfer> {
    if ix.programId == SYSTEM_PROGRAM && |ix.data| == 12 && FromLittleEndian(ix.data[..4]) == 2
       && |ix.accounts| >= 2 && ix.accounts[0].isSigner && ix.accounts[0].isWritable && ix.accounts[1].isWritable
    then Some(Transfer(ix.accounts[0].pubkey, ix.accounts[1].pubkey, FromLittleEndian(ix.data[4..]))) else None
  }

  // ------------------------------------------------------------------
  // What is written is what is read.
  // ------------------------------------------------------------------

  function Pow256(width: nat): nat {
    if width == 0 then 1 else 256 * Pow256(width - 1)
  }

  lemma Widths()
    ensures Pow256(4) == U32_LIMIT && Pow256(8) == U64_LIMIT
  {
    assert Pow256(2) == 0x1_0000;
    assert Pow256(4) == 0x1_0000_0000;
    assert Pow256(6) == 0x1_0000_0000_0000;
  }

  /** A number that fits the bytes is read back. */
  lemma {:induction false} LittleEndianRoundTrip(n: nat, width: nat)
    requires n < Pow256(width)
    ensures FromLittleEndian(LittleEndian(n, width)) == n
  {
    if width > 0 {
      LittleEndianRoundTrip(n / 256, width - 1);
      assert LittleEndian(n, width)[1..] == LittleEndian(n / 256, width - 1);
    }
  }

  /** The limit and the price of a transaction are read back, and neither passes for the other. */
  lemma ComputeBudgetRoundTrip(units: nat, price: nat)
    requires units < U32_LIMIT && price < U64_LIMIT
    ensures DecodeCuLimit(SetCuLimitIx(units)) == Some(units) && DecodeCuPrice(SetCuLimitIx(units)).None?
    ensures DecodeCuPrice(SetCuPriceIx(price)) == Some(price) && DecodeCuLimit(SetCuPriceIx(price)).None?
  {
    Widths();
    LittleEndianRoundTrip(units, 4);
    LittleEndianRoundTrip(price, 8);
    assert SetCuLimitIx(units).data[1..] == LittleEndian(units, 4);
    assert SetCuPriceIx(price).data[1..] == LittleEndian(price, 8);
  }

  /** A transfer is read as one of exactly its lamports, also with accounts appended. */
  lemma TransferRoundTrip(from: Address, to: Address, lamports: nat, more: seq<AccountMeta>)
    requires lamports < U64_LIMIT
    ensures
      && var ix := SystemTransferIx(from, to, lamports);
      && DecodeTransfer(ix.(accounts := ix.accounts + more)) == Some(Transfer(from, to, lamports))
  {
    var data := SystemTransferIx(from, to, lamports).data;
    Widths();
    LittleEndianRoundTrip(2, 4);
    LittleEndianRoundTrip(lamports, 8);
    assert data[..4] == LittleEndian(2, 4) && data[4..] == LittleEndian(lamports, 8);
  }

  /** The creation of an account is recognised as such by the pass over the legs, as one of
      wSOL exactly if that is its mint. */
  lemma AtaCreateIsRecognised(payer: Address, ata: Address, owner: Address, mint: Address)
    ensures KindOf(AtaCreateIdempotentIx(payer, ata, owner, mint)) == Create(ata, mint == WSOL_MINT)
  {
  }

  // ------------------------------------------------------------------
  // Lamports.
  // ------------------------------------------------------------------

  type Balances = map<Address, nat>

  function Lamports(b: Balances, a: Address): nat {
    if a in b then b[a] else 0
  }

  /** A transfer takes from one account and gives to another, or fails. */
  function Moved(b: Balances, t: Transfer): Option<Balances> {
    if Lamports(b, t.from) < t.lamports then None
    else
      var less := b[t.from := Lamports(b, t.from) - t.lamports];
      Some(less[t.to := Lamports(less, t.to) + t.lamports])
  }

  /** `now` has `lamports` more at `to`, as many less at `from`, and nothing else changed. */
  ghost predicate Paid(b: Balances, now: Balances, from: Address, to: Address, lamports: nat) {
    && Lamports(now, to) == Lamports(b, to) + (if from == to then 0 else lamports)
    && Lamports(now, from) == Lamports(b, from) - (if from == to then 0 else lamports)
    && forall a: Address | a != from && a != to :: Lamports(now, a) == Lamports(b, a)
  }
}
