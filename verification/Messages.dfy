/** Compiling instructions into a version-0 message with address lookup tables,
    and finding the message's accounts again (crates/execution/src/assemble.rs).
    `TryCompile` is the specification of the Solana message compiler. */
module Messages {
  import opened Wrappers
  import opened Ordered
  import opened Assembly

  /** The key of 32 bytes 0xff put in place of a table entry that must not be used. */
  const MASK: Address := 0xffffffffffffffffffffffffffffffffffffffffffffffffffffffffffffffff

  datatype KeyMeta = KeyMeta(signer: bool, writable: bool, invoked: bool)

  type KeyMetas = map<Address, KeyMeta>

  /** Every key the message must carry. */
  function Named(payer: Address, ixs: seq<RawInstruction>): set<Address> {
    {payer}
    + (set i | 0 <= i < |ixs| :: ixs[i].programId)
    + (set i, j | 0 <= i < |ixs| && 0 <= j < |ixs[i].accounts| :: ixs[i].accounts[j].pubkey)
  }

  predicate Signs(ixs: seq<RawInstruction>, k: Address) {
    exists i, j ::
      0 <= i < |ixs| && 0 <= j < |ixs[i].accounts| && ixs[i].accounts[j].pubkey == k && ixs[i].accounts[j].isSigner
  }

  predicate Writes(ixs: seq<RawInstruction>, k: Address) {
    exists i, j ::
      0 <= i < |ixs| && 0 <= j < |ixs[i].accounts| && ixs[i].accounts[j].pubkey == k && ixs[i].accounts[j].isWritable
  }

  predicate Invokes(ixs: seq<RawInstruction>, k: Address) {
    exists i :: 0 <= i < |ixs| && ixs[i].programId == k
  }

  function MetaOf(payer: Address, ixs: seq<RawInstruction>, k: Address): KeyMeta {
    KeyMeta(k == payer || Signs(ixs, k), k == payer || Writes(ixs, k), Invokes(ixs, k))
  }

  function Metas(payer: Address, ixs: seq<RawInstruction>): KeyMetas {
    map k | k in Named(payer, ixs) :: MetaOf(payer, ixs, k)
  }

  datatype Table = Table(address: Address, entries: seq<Address>)

  datatype Lookup = Lookup(table: Address, writable: seq<nat>, readonly: seq<nat>)

  datatype Message = Message(staticKeys: seq<Address>, lookups: seq<Lookup>)

  /** A message and the keys its lookups stand for, writable ones first. */
  datatype Compiled = Compiled(message: Message, writable: seq<Address>, readonly: seq<Address>)

  datatype CompileError = LookupIndexOverflow

  /** Keys a table may stand in for: neither signers nor invoked programs. */
  function Loadable(metas: KeyMetas, writable: bool, entries: seq<Address>): set<Address> {
    set k | k in metas && k in entries && !metas[k].signer && !metas[k].invoked && metas[k].writable == writable
  }

  function IndexOf(entries: seq<Address>, k: Address): (i: nat)
    requires k in entries
    ensures i < |entries| && entries[i] == k
  {
    if entries[0] == k then 0 else 1 + IndexOf(entries[1..], k)
  }

  function Indexes(keys: seq<Address>, entries: seq<Address>): (r: seq<nat>)
    requires forall k | k in keys :: k in entries
    ensures |r| == |keys| && forall i | 0 <= i < |keys| :: r[i] < |entries| && entries[r[i]] == keys[i]
  {
    seq(|keys|, i requires 0 <= i < |keys| => IndexOf(entries, keys[i]))
  }

  predicate FitsByte(s: seq<nat>) {
    forall i | 0 <= i < |s| :: s[i] <= 255
  }

  datatype Extracted = Extracted(lookups: seq<Lookup>, writable: seq<Address>, readonly: seq<Address>, left: KeyMetas)

  function ExtractOne(x: Extracted, t: Table): Result<Extracted, CompileError> {
    var w, r := Ascending(Loadable(x.left, true, t.entries)), Ascending(Loadable(x.left, false, t.entries));
    var wi, ri := Indexes(w, t.entries), Indexes(r, t.entries);
    if !FitsByte(wi) || !FitsByte(ri) then Err(LookupIndexOverflow)
    else if w == [] && r == [] then Ok(x)
    else Ok(Extracted(
      x.lookups + [Lookup(t.address, wi, ri)], x.writable + w, x.readonly + r,
      x.left - Loadable(x.left, true, t.entries) - Loadable(x.left, false, t.entries)))
  }

  /** Table by table, keys found in a table leave the message's own list. */
  function Extract(tables: seq<Table>, metas: KeyMetas): Result<Extracted, CompileError> {
    if tables == [] then Ok(Extracted([], [], [], metas))
    else
      var x := Extract(tables[..|tables| - 1], metas);
      if x.Err? then x else ExtractOne(x.value, tables[|tables| - 1])
  }

  function Class(metas: KeyMetas, signer: bool, writable: bool): set<Address> {
    set k | k in metas && metas[k].signer == signer && metas[k].writable == writable
  }

  /** The payer, then writable and readonly signers, then the others. */
  function StaticKeys(payer: Address, metas: KeyMetas): seq<Address> {
    [payer] + Ascending(Class(metas, true, true) - {payer}) + Ascending(Class(metas, true, false))
    + Ascending(Class(metas, false, true)) + Ascending(Class(metas, false, false))
  }

  function TryCompile(payer: Address, ixs: seq<RawInstruction>, tables: seq<Table>): Result<Compiled, CompileError> {
    var x := Extract(tables, Metas(payer, ixs));
    if x.Err? then Err(x.error)
    else Ok(Compiled(Message(StaticKeys(payer, x.value.left), x.value.lookups), x.value.writable, x.value.readonly))
  }

  // ------------------------------------------------------------------
  // The legs' tables: unioned first-wins and masked to compile, last-wins to resolve.
  // ------------------------------------------------------------------

  function Entries(legs: seq<Leg>): seq<(Address, seq<Address>)> {
    if legs == [] then [] else Entries(legs[..|legs| - 1]) + legs[|legs| - 1].lookupTables
  }

  function FirstWins(es: seq<(Address, seq<Address>)>): map<Address, seq<Address>> {
    if es == [] then map[]
    else
      var m, e := FirstWins(es[..|es| - 1]), es[|es| - 1];
      if e.0 in m then m else m[e.0 := e.1]
  }

  function LastWins(es: seq<(Address, seq<Address>)>): map<Address, seq<Address>> {
    if es == [] then map[] else LastWins(es[..|es| - 1])[es[|es| - 1].0 := es[|es| - 1].1]
  }

  /** Table order is kept; an excluded key becomes one that no instruction names. */
  function Masked(entries: seq<Address>, exclude: set<Address>): seq<Address> {
    seq(|entries|, i requires 0 <= i < |entries| => if entries[i] in exclude then MASK else entries[i])
  }

  function LookupTables(legs: seq<Leg>, exclude: set<Address>): seq<Table> {
    var first := FirstWins(Entries(legs));
    var order := Ascending(first.Keys);
    seq(|order|, i requires 0 <= i < |order| => Table(order[i], Masked(first[order[i]], exclude)))
  }

  predicate Prefix(a: seq<Address>, b: seq<Address>) {
    |a| <= |b| && forall i | 0 <= i < |a| :: a[i] == b[i]
  }

  /** Two copies of one table are snapshots of a list that only grows. */
  predicate Snapshots(es: seq<(Address, seq<Address>)>) {
    forall i, j | 0 <= i < |es| && 0 <= j < |es| && es[i].0 == es[j].0 ::
      Prefix(es[i].1, es[j].1) || Prefix(es[j].1, es[i].1)
  }

  lemma {:induction false} WinnersAreEntries(es: seq<(Address, seq<Address>)>)
    ensures FirstWins(es).Keys == LastWins(es).Keys
    ensures forall k | k in FirstWins(es) :: (k, FirstWins(es)[k]) in es && (k, LastWins(es)[k]) in es
  {
    if es == [] {
    } else {
      var n := |es| - 1;
      WinnersAreEntries(es[..n]);
      assert es == es[..n] + [es[n]];
      assert es[n] == (es[n].0, es[n].1);
    }
  }

  // ------------------------------------------------------------------
  // Finding the accounts of a message again.
  // ------------------------------------------------------------------

  function Resolve(tables: map<Address, seq<Address>>, table: Address, index: nat): Option<Address> {
    if table in tables && index < |tables[table]| then Some(tables[table][index]) else None
  }

  function ResolveIndexes(tables: map<Address, seq<Address>>, table: Address, indexes: seq<nat>): Option<seq<Address>> {
    if indexes == [] then Some([])
    else
      var n := |indexes| - 1;
      var before, last := ResolveIndexes(tables, table, indexes[..n]), Resolve(tables, table, indexes[n]);
      if before.None? || last.None? then None else Some(before.value + [last.value])
  }

  function Side(l: Lookup, writable: bool): seq<nat> {
    if writable then l.writable else l.readonly
  }

  function ResolveLookups(tables: map<Address, seq<Address>>, lookups: seq<Lookup>, writable: bool)
    : Option<seq<Address>>
  {
    if lookups == [] then Some([])
    else
      var n := |lookups| - 1;
      var before := ResolveLookups(tables, lookups[..n], writable);
      var last := ResolveIndexes(tables, lookups[n].table, Side(lookups[n], writable));
      if before.None? || last.None? then None else Some(before.value + last.value)
  }

  /** Static keys, then loaded writable ones, then loaded readonly ones. */
  function AccountKeys(m: Message, legs: seq<Leg>): Option<seq<Address>> {
    var tables := LastWins(Entries(legs));
    var w, r := ResolveLookups(tables, m.lookups, true), ResolveLookups(tables, m.lookups, false);
    if w.None? || r.None? then None else Some(m.staticKeys + w.value + r.value)
  }

  /** The same by pushing one key after another, as the source does. */
  method MessageAccountKeys(m: Message, legs: seq<Leg>) returns (keys: Option<seq<Address>>)
    ensures keys == AccountKeys(m, legs)
  {
    var tables := LastWins(Entries(legs));
    var w := PushLookups(tables, m.lookups, true);
    if w.None? {
      return None;
    }
    var r := PushLookups(tables, m.lookups, false);
    if r.None? {
      return None;
    }
    return Some(m.staticKeys + w.value + r.value);
  }

  method PushLookups(tables: map<Address, seq<Address>>, lookups: seq<Lookup>, writable: bool)
    returns (keys: Option<seq<Address>>)
    ensures keys == ResolveLookups(tables, lookups, writable)
  {
    var out := [];
    for i := 0 to |lookups|
      invariant ResolveLookups(tables, lookups[..i], writable) == Some(out)
    {
      assert lookups[..i + 1][..i] == lookups[..i];
      var side := Side(lookups[i], writable);
      var row := [];
      for j := 0 to |side|
        invariant ResolveIndexes(tables, lookups[i].table, side[..j]) == Some(row)
      {
        assert side[..j + 1][..j] == side[..j];
        var key := Resolve(tables, lookups[i].table, side[j]);
        if key.None? {
          UnresolvedStays(tables, lookups[i].table, side, j + 1);
          UnresolvedStaysOverLookups(tables, lookups, writable, i + 1);
          return None;
        }
        row := row + [key.value];
      }
      assert side[..|side|] == side;
      out := out + row;
    }
    assert lookups[..|lookups|] == lookups;
    return Some(out);
  }

  lemma {:induction false} UnresolvedStays(
    tables: map<Address, seq<Address>>, table: Address, indexes: seq<nat>, n: nat)
    requires n <= |indexes| && ResolveIndexes(tables, table, indexes[..n]).None?
    ensures ResolveIndexes(tables, table, indexes).None?
    decreases |indexes| - n
  {
    if n < |indexes| {
      assert indexes[..n + 1][..n] == indexes[..n];
      UnresolvedStays(tables, table, indexes, n + 1);
    } else {
      assert indexes[..n] == indexes;
    }
  }

  lemma {:induction false} UnresolvedStaysOverLookups(
    tables: map<Address, seq<Address>>, lookups: seq<Lookup>, writable: bool, n: nat)
    requires n <= |lookups|
    requires
      || (n > 0 && ResolveIndexes(tables, lookups[n - 1].table, Side(lookups[n - 1], writable)).None?)
      || ResolveLookups(tables, lookups[..n], writable).None?
    ensures ResolveLookups(tables, lookups, writable).None?
    decreases |lookups| - n
  {
    if n > 0 {
      assert lookups[..n][..n - 1] == lookups[..n - 1];
    }
    if n < |lookups| {
      assert lookups[..n + 1][..n] == lookups[..n];
      UnresolvedStaysOverLookups(tables, lookups, writable, n + 1);
    } else {
      assert lookups[..n] == lookups;
    }
  }

  // ------------------------------------------------------------------
  // Resolution is right whenever it answers.
  // ------------------------------------------------------------------

  /** Where `tables` knows an entry of `t` that is not masked, it agrees with it. */
  predicate Agrees(t: Table, tables: map<Address, seq<Address>>) {
    && t.address in tables
    && forall i | 0 <= i < |t.entries| && i < |tables[t.address]| && t.entries[i] != MASK ::
         tables[t.address][i] == t.entries[i]
  }

  predicate IndexesKnown(tables: map<Address, seq<Address>>, table: Address, indexes: seq<nat>) {
    forall i | 0 <= i < |indexes| :: Resolve(tables, table, indexes[i]).Some?
  }

  /** Every index of one side of the lookups is within the table the resolver holds. */
  predicate SideKnown(tables: map<Address, seq<Address>>, lookups: seq<Lookup>, writable: bool) {
    forall i | 0 <= i < |lookups| :: IndexesKnown(tables, lookups[i].table, Side(lookups[i], writable))
  }

  lemma {:induction false} IndexesResolve(
    t: Table, tables: map<Address, seq<Address>>, keys: seq<Address>, indexes: seq<nat>)
    requires Agrees(t, tables) && |indexes| == |keys| && MASK !in keys
    requires forall i | 0 <= i < |keys| :: indexes[i] < |t.entries| && t.entries[indexes[i]] == keys[i]
    ensures ResolveIndexes(tables, t.address, indexes) ==
            if IndexesKnown(tables, t.address, indexes) then Some(keys) else None
  {
    if keys == [] {
    } else {
      var n := |keys| - 1;
      IndexesResolve(t, tables, keys[..n], indexes[..n]);
      assert keys == keys[..n] + [keys[n]];
      assert indexes == indexes[..n] + [indexes[n]];
      assert keys[n] in keys;
      assert IndexesKnown(tables, t.address, indexes) ==>
             IndexesKnown(tables, t.address, indexes[..n]) && Resolve(tables, t.address, indexes[n]).Some?;
    }
  }

  function Loaded(x: Extracted, writable: bool): seq<Address> {
    if writable then x.writable else x.readonly
  }

  lemma {:induction false} ResolveOneMore(
    tables: map<Address, seq<Address>>, lookups: seq<Lookup>, l: Lookup, writable: bool)
    ensures
      var before, last := ResolveLookups(tables, lookups, writable), ResolveIndexes(tables, l.table, Side(l, writable));
      ResolveLookups(tables, lookups + [l], writable) ==
        if before.None? || last.None? then None else Some(before.value + last.value)
    ensures SideKnown(tables, lookups + [l], writable) <==>
            SideKnown(tables, lookups, writable) && IndexesKnown(tables, l.table, Side(l, writable))
  {
    var all, n := lookups + [l], |lookups|;
    assert all[..n] == lookups;
    if SideKnown(tables, all, writable) {
      assert forall i | 0 <= i < n :: lookups[i] == all[i];
      assert all[n] == l;
    }
  }

  lemma {:induction false} ExtractOneResolves(
    x: Extracted, t: Table, tables: map<Address, seq<Address>>, writable: bool)
    requires Agrees(t, tables) && MASK !in x.left && ExtractOne(x, t).Ok?
    requires ResolveLookups(tables, x.lookups, writable) ==
             if SideKnown(tables, x.lookups, writable) then Some(Loaded(x, writable)) else None
    ensures
      var y := ExtractOne(x, t).value;
      ResolveLookups(tables, y.lookups, writable) ==
        if SideKnown(tables, y.lookups, writable) then Some(Loaded(y, writable)) else None
  {
    var y := ExtractOne(x, t).value;
    if y != x {
      var l := y.lookups[|x.lookups|];
      var keys := Ascending(Loadable(x.left, writable, t.entries));
      IndexesResolve(t, tables, keys, Side(l, writable));
      ResolveOneMore(tables, x.lookups, l, writable);
    }
  }

  lemma {:induction false} ExtractResolves(
    ts: seq<Table>, metas: KeyMetas, tables: map<Address, seq<Address>>, writable: bool)
    requires MASK !in metas && Extract(ts, metas).Ok?
    requires forall i | 0 <= i < |ts| :: Agrees(ts[i], tables)
    ensures
      var x := Extract(ts, metas).value;
      && x.left.Keys <= metas.Keys
      && ResolveLookups(tables, x.lookups, writable) ==
         if SideKnown(tables, x.lookups, writable) then Some(Loaded(x, writable)) else None
  {
    if ts == [] {
    } else {
      var n := |ts| - 1;
      ExtractResolves(ts[..n], metas, tables, writable);
      ExtractOneResolves(Extract(ts[..n], metas).value, ts[n], tables, writable);
    }
  }

  lemma {:induction false} TablesAgree(legs: seq<Leg>, exclude: set<Address>, i: nat)
    requires Snapshots(Entries(legs)) && i < |LookupTables(legs, exclude)|
    ensures Agrees(LookupTables(legs, exclude)[i], LastWins(Entries(legs)))
  {
    var es := Entries(legs);
    var k := Ascending(FirstWins(es).Keys)[i];
    WinnersAreSnapshots(es, k);
    MaskedAgrees(k, FirstWins(es)[k], LastWins(es), exclude);
  }

  lemma {:induction false} WinnersAreSnapshots(es: seq<(Address, seq<Address>)>, k: Address)
    requires Snapshots(es) && k in FirstWins(es)
    ensures k in LastWins(es)
    ensures Prefix(FirstWins(es)[k], LastWins(es)[k]) || Prefix(LastWins(es)[k], FirstWins(es)[k])
  {
    WinnersAreEntries(es);
    var a :| 0 <= a < |es| && es[a] == (k, FirstWins(es)[k]);
    var b :| 0 <= b < |es| && es[b] == (k, LastWins(es)[k]);
    assert es[a].0 == es[b].0;
  }

  lemma MaskedAgrees(k: Address, first: seq<Address>, tables: map<Address, seq<Address>>, exclude: set<Address>)
    requires k in tables && (Prefix(first, tables[k]) || Prefix(tables[k], first))
    ensures Agrees(Table(k, Masked(first, exclude)), tables)
  {
  }

  // ------------------------------------------------------------------
  // Nothing is lost and nothing excluded is looked up.
  // ------------------------------------------------------------------

  predicate Accounted(x: Extracted, metas: KeyMetas) {
    multiset(x.writable) + multiset(x.readonly) + multiset(x.left.Keys) == multiset(metas.Keys)
  }

  lemma ExtractOneAccounts(x: Extracted, t: Table, metas: KeyMetas)
    requires ExtractOne(x, t).Ok? && Accounted(x, metas)
    ensures Accounted(ExtractOne(x, t).value, metas)
  {
    var w, r := Loadable(x.left, true, t.entries), Loadable(x.left, false, t.entries);
    AscendingKeepsMembers(w);
    AscendingKeepsMembers(r);
    var y := ExtractOne(x, t).value;
    if y != x {
      assert multiset(y.writable) == multiset(x.writable) + multiset(w);
      assert multiset(y.readonly) == multiset(x.readonly) + multiset(r);
      assert y.left.Keys == x.left.Keys - w - r;
      MultisetOfParts(x.left.Keys, w, r);
    }
  }

  /** What is loaded came from a table; signers stay. */
  ghost predicate Placed(x: Extracted, ts: seq<Table>, metas: KeyMetas) {
    && (forall a | a in x.writable || a in x.readonly :: exists i :: 0 <= i < |ts| && a in ts[i].entries)
    && (forall a | a in x.left :: a in metas && x.left[a] == metas[a])
    && (forall a | a in metas && metas[a].signer :: a in x.left)
  }

  lemma {:induction false} ExtractAccounts(ts: seq<Table>, metas: KeyMetas)
    requires Extract(ts, metas).Ok?
    ensures Accounted(Extract(ts, metas).value, metas)
    ensures Placed(Extract(ts, metas).value, ts, metas)
  {
    if ts == [] {
    } else {
      var n := |ts| - 1;
      ExtractAccounts(ts[..n], metas);
      var x := Extract(ts[..n], metas).value;
      ExtractOneAccounts(x, ts[n], metas);
      ExtractOnePlaces(x, ts[..n], ts[n], metas);
      assert ts[..n] + [ts[n]] == ts;
    }
  }

  lemma ExtractOnePlaces(x: Extracted, ts: seq<Table>, t: Table, metas: KeyMetas)
    requires ExtractOne(x, t).Ok? && Placed(x, ts, metas)
    ensures Placed(ExtractOne(x, t).value, ts + [t], metas)
  {
    var y, all := ExtractOne(x, t).value, ts + [t];
    assert all[|ts|] == t;
    assert forall i | 0 <= i < |ts| :: all[i] == ts[i];
  }

  lemma StaticKeysAreWhatIsLeft(payer: Address, left: KeyMetas)
    requires payer in left && left[payer].signer && left[payer].writable
    ensures multiset(StaticKeys(payer, left)) == multiset(left.Keys)
  {
    var sw, sr := Class(left, true, true), Class(left, true, false);
    var ow, or := Class(left, false, true), Class(left, false, false);
    assert left.Keys == sw + sr + ow + or;
    ClassesInOrder(payer, sw, sr, ow, or);
  }

  lemma {:induction false} ClassesInOrder(
    payer: Address, a: set<Address>, b: set<Address>, c: set<Address>, d: set<Address>)
    requires payer in a && a !! b !! c !! d
    ensures multiset([payer] + Ascending(a - {payer}) + Ascending(b) + Ascending(c) + Ascending(d)) ==
      multiset(a + b + c + d)
  {
    AscendingKeepsMembers(a - {payer});
    AscendingKeepsMembers(b);
    AscendingKeepsMembers(c);
    AscendingKeepsMembers(d);
    PayerFirst(payer, a);
    MultisetOfFour(a, b, c, d);
    MultisetOfFive([payer], Ascending(a - {payer}), Ascending(b), Ascending(c), Ascending(d));
  }

  lemma PayerFirst(payer: Address, a: set<Address>)
    requires payer in a
    ensures multiset(a) == multiset([payer]) + multiset(a - {payer})
  {
  }

  lemma MultisetOfFive<T>(p: seq<T>, a: seq<T>, b: seq<T>, c: seq<T>, d: seq<T>)
    ensures multiset(p + a + b + c + d) == multiset(p) + multiset(a) + multiset(b) + multiset(c) + multiset(d)
  {
  }

  lemma MultisetOfFour(a: set<Address>, b: set<Address>, c: set<Address>, d: set<Address>)
    requires a !! b !! c !! d
    ensures multiset(a + b + c + d) == multiset(a) + multiset(b) + multiset(c) + multiset(d)
  {
  }

  /** Main result. Compile with the legs' tables unioned first-wins and masked,
      resolve with them last-wins and unmasked, where copies of one table are
      snapshots of a growing list. Then the resolver answers exactly when every
      looked-up index is within its copy of the table, its answer is the message's
      accounts in balance order, and these are the payer and every key the
      instructions name, each once. */
  lemma {:induction false} ResolutionIsRightWhenItAnswers(
    payer: Address, ixs: seq<RawInstruction>, legs: seq<Leg>, exclude: set<Address>)
    requires Snapshots(Entries(legs)) && MASK !in Named(payer, ixs)
    requires TryCompile(payer, ixs, LookupTables(legs, exclude)).Ok?
    ensures
      var c := TryCompile(payer, ixs, LookupTables(legs, exclude)).value;
      var tables := LastWins(Entries(legs));
      && AccountKeys(c.message, legs) ==
         (if SideKnown(tables, c.message.lookups, true) && SideKnown(tables, c.message.lookups, false)
          then Some(c.message.staticKeys + c.writable + c.readonly) else None)
      && multiset(c.message.staticKeys + c.writable + c.readonly) == multiset(Named(payer, ixs))
  {
    var ts, metas, tables := LookupTables(legs, exclude), Metas(payer, ixs), LastWins(Entries(legs));
    forall i | 0 <= i < |ts| ensures Agrees(ts[i], tables) {
      TablesAgree(legs, exclude, i);
    }
    ExtractResolves(ts, metas, tables, true);
    ExtractResolves(ts, metas, tables, false);
    CompiledAccounts(payer, ixs, ts);
  }

  /** A compiled message's accounts are the payer and the named keys, each once. */
  lemma CompiledAccounts(payer: Address, ixs: seq<RawInstruction>, ts: seq<Table>)
    requires TryCompile(payer, ixs, ts).Ok?
    ensures
      var c := TryCompile(payer, ixs, ts).value;
      multiset(c.message.staticKeys + c.writable + c.readonly) == multiset(Named(payer, ixs))
  {
    var metas := Metas(payer, ixs);
    ExtractAccounts(ts, metas);
    assert metas.Keys == Named(payer, ixs);
    assert metas[payer] == MetaOf(payer, ixs, payer);
    StaticKeysAreWhatIsLeft(payer, Extract(ts, metas).value.left);
  }

  /** An excluded key (the tip account, the dont-front marker) that the message
      carries is one of its static keys, never a looked-up one. */
  lemma ExcludedKeysAreStatic(
    payer: Address, ixs: seq<RawInstruction>, legs: seq<Leg>, exclude: set<Address>, a: Address)
    requires TryCompile(payer, ixs, LookupTables(legs, exclude)).Ok?
    requires a in exclude && a != MASK && a in Named(payer, ixs)
    ensures
      var c := TryCompile(payer, ixs, LookupTables(legs, exclude)).value;
      a in c.message.staticKeys && a !in c.writable && a !in c.readonly
  {
    UnlistedIsStatic(payer, ixs, LookupTables(legs, exclude), a);
  }

  /** A named key that no table lists is a static key. */
  lemma UnlistedIsStatic(payer: Address, ixs: seq<RawInstruction>, ts: seq<Table>, a: Address)
    requires TryCompile(payer, ixs, ts).Ok? && a in Named(payer, ixs)
    requires forall i | 0 <= i < |ts| :: a !in ts[i].entries
    ensures
      var c := TryCompile(payer, ixs, ts).value;
      a in c.message.staticKeys && a !in c.writable && a !in c.readonly
  {
    var metas := Metas(payer, ixs);
    var x := Extract(ts, metas).value;
    ExtractAccounts(ts, metas);
    assert metas[payer] == MetaOf(payer, ixs, payer);
    LeftIsStatic(payer, x, metas, a);
  }

  lemma LeftIsStatic(payer: Address, x: Extracted, metas: KeyMetas, a: Address)
    requires Accounted(x, metas) && a in metas && a !in x.writable && a !in x.readonly
    requires payer in x.left && x.left[payer].signer && x.left[payer].writable
    ensures a in StaticKeys(payer, x.left)
  {
    StaticKeysAreWhatIsLeft(payer, x.left);
    MemberOfTheRest(x.writable, x.readonly, x.left.Keys, metas.Keys, a);
    assert a in multiset(StaticKeys(payer, x.left));
  }

  // ------------------------------------------------------------------
  // Which keys are looked up, and in what order the others stand.
  // ------------------------------------------------------------------

  /** The first copy of some table lists `a`. */
  predicate Offered(es: seq<(Address, seq<Address>)>, a: Address) {
    exists i :: 0 <= i < |es| && a in es[i].1 && FirstCopy(es, i)
  }

  predicate FirstCopy(es: seq<(Address, seq<Address>)>, i: nat)
    requires i < |es|
  {
    forall j | 0 <= j < i :: es[j].0 != es[i].0
  }

  predicate LastCopy(es: seq<(Address, seq<Address>)>, i: nat)
    requires i < |es|
  {
    forall j | i < j < |es| :: es[j].0 != es[i].0
  }

  /** The first copy of a table is compiled with, the last one resolved with. */
  lemma {:induction false} FirstAndLastWin(es: seq<(Address, seq<Address>)>, i: nat)
    requires i < |es|
    ensures es[i].0 in FirstWins(es) && es[i].0 in LastWins(es)
    ensures FirstCopy(es, i) ==> FirstWins(es)[es[i].0] == es[i].1
    ensures LastCopy(es, i) ==> LastWins(es)[es[i].0] == es[i].1
    decreases |es|
  {
    var n := |es| - 1;
    WinnersAreEntries(es[..n]);
    if i < n {
      FirstAndLastWin(es[..n], i);
    } else if es[n].0 in FirstWins(es[..n]) {
      var j :| 0 <= j < n && es[..n][j] == (es[n].0, FirstWins(es[..n])[es[n].0]);
      assert es[j].0 == es[n].0;
    }
  }

  lemma {:induction false} WinnerIsFirst(es: seq<(Address, seq<Address>)>, k: Address)
    requires k in FirstWins(es)
    ensures exists i :: 0 <= i < |es| && es[i].0 == k && FirstCopy(es, i) && FirstWins(es)[k] == es[i].1
  {
    var n := |es| - 1;
    if k in FirstWins(es[..n]) {
      WinnerIsFirst(es[..n], k);
      var i :| 0 <= i < n && es[..n][i].0 == k && FirstCopy(es[..n], i) && FirstWins(es[..n])[k] == es[..n][i].1;
      assert FirstCopy(es, i);
    } else {
      assert FirstCopy(es, n) by {
        forall j | 0 <= j < n
          ensures es[j].0 != k
        {
          FirstAndLastWin(es[..n], j);
        }
      }
    }
  }

  /** A key is in some compiled table exactly if the first copy of one lists it and it is
      not excluded. */
  lemma {:induction false} ListedExactly(legs: seq<Leg>, exclude: set<Address>, a: Address)
    requires a != MASK
    ensures
      && var ts := LookupTables(legs, exclude);
      && ((exists i :: 0 <= i < |ts| && a in ts[i].entries) <==> a !in exclude && Offered(Entries(legs), a))
  {
    var es, ts := Entries(legs), LookupTables(legs, exclude);
    var first := FirstWins(es);
    var order := Ascending(first.Keys);
    if i :| 0 <= i < |ts| && a in ts[i].entries {
      var k := order[i];
      assert k in first;
      WinnerIsFirst(es, k);
      assert a in first[k];
    }
    if a !in exclude && Offered(es, a) {
      var i :| 0 <= i < |es| && a in es[i].1 && FirstCopy(es, i);
      FirstAndLastWin(es, i);
      assert es[i].0 in order;
      var n :| 0 <= n < |order| && order[n] == es[i].0;
      var m :| 0 <= m < |es[i].1| && es[i].1[m] == a;
      assert ts[n].entries[m] == a;
    }
  }

  predicate MayBeLoaded(m: KeyMeta) {
    !m.signer && !m.invoked
  }

  /** Keys that may be loaded and are listed have left; what is loaded is loaded as writable
      exactly if it is written. */
  ghost predicate LoadedRight(x: Extracted, ts: seq<Table>, metas: KeyMetas) {
    && (forall a | a in x.left && MayBeLoaded(x.left[a]) :: forall i | 0 <= i < |ts| :: a !in ts[i].entries)
    && (forall a | a in x.writable :: a in metas && MayBeLoaded(metas[a]) && metas[a].writable)
    && (forall a | a in x.readonly :: a in metas && MayBeLoaded(metas[a]) && !metas[a].writable)
  }

  lemma {:induction false} ExtractLoadsRight(ts: seq<Table>, metas: KeyMetas)
    requires Extract(ts, metas).Ok?
    ensures LoadedRight(Extract(ts, metas).value, ts, metas)
  {
    if ts == [] {
    } else {
      var n := |ts| - 1;
      ExtractLoadsRight(ts[..n], metas);
      ExtractAccounts(ts[..n], metas);
      ExtractOneLoadsRight(Extract(ts[..n], metas).value, ts[..n], ts[n], metas);
      assert ts[..n] + [ts[n]] == ts;
    }
  }

  lemma ExtractOneLoadsRight(x: Extracted, ts: seq<Table>, t: Table, metas: KeyMetas)
    requires ExtractOne(x, t).Ok? && LoadedRight(x, ts, metas) && Placed(x, ts, metas)
    ensures LoadedRight(ExtractOne(x, t).value, ts + [t], metas)
  {
    var y, all := ExtractOne(x, t).value, ts + [t];
    var w, r := Loadable(x.left, true, t.entries), Loadable(x.left, false, t.entries);
    assert forall i | 0 <= i < |all| :: all[i] == if i < |ts| then ts[i] else t;
    forall a | a in y.left && MayBeLoaded(y.left[a])
      ensures a !in t.entries
    {
      assert a in t.entries ==> a in w || a in r;
    }
  }

  /** Main result: a key is looked up exactly if it neither signs nor is invoked nor is the
      payer, is not excluded, and the first copy of some table lists it; as writable exactly
      if some instruction writes it. Every other key is static. */
  lemma {:induction false} LookedUpExactly(
    payer: Address, ixs: seq<RawInstruction>, legs: seq<Leg>, exclude: set<Address>, a: Address)
    requires TryCompile(payer, ixs, LookupTables(legs, exclude)).Ok? && a in Named(payer, ixs) && a != MASK
    ensures
      && var c := TryCompile(payer, ixs, LookupTables(legs, exclude)).value;
      && var loaded := a != payer && !Signs(ixs, a) && !Invokes(ixs, a) && a !in exclude && Offered(Entries(legs), a);
      && (a in c.writable <==> loaded && Writes(ixs, a))
      && (a in c.readonly <==> loaded && !Writes(ixs, a))
      && (a in c.message.staticKeys <==> !loaded)
  {
    var ts, metas := LookupTables(legs, exclude), Metas(payer, ixs);
    var x := Extract(ts, metas).value;
    ListedExactly(legs, exclude, a);
    ExtractAccounts(ts, metas);
    ExtractLoadsRight(ts, metas);
    assert metas[payer] == MetaOf(payer, ixs, payer) && metas[a] == MetaOf(payer, ixs, a);
    StaticExactly(payer, x.left, a);
    LoadedExactly(x, ts, metas, a);
  }

  /** Every instruction finds its program among the static keys, and each of its accounts among
      the message's, as a signer or writable one where it must be. */
  lemma {:induction false} EveryKeyIsCarried(
    payer: Address, ixs: seq<RawInstruction>, legs: seq<Leg>, exclude: set<Address>, i: nat)
    requires TryCompile(payer, ixs, LookupTables(legs, exclude)).Ok? && MASK !in Named(payer, ixs) && i < |ixs|
    ensures
      && var c := TryCompile(payer, ixs, LookupTables(legs, exclude)).value;
      && ixs[i].programId in c.message.staticKeys
      && forall m | m in ixs[i].accounts :: CarriedAs(c, m)
  {
    LookedUpExactly(payer, ixs, legs, exclude, ixs[i].programId);
    forall m | m in ixs[i].accounts
      ensures CarriedAs(TryCompile(payer, ixs, LookupTables(legs, exclude)).value, m)
    {
      var j :| 0 <= j < |ixs[i].accounts| && ixs[i].accounts[j] == m;
      assert m.pubkey == ixs[i].accounts[j].pubkey;
      LookedUpExactly(payer, ixs, legs, exclude, m.pubkey);
    }
  }

  /** A static key, unless it need not sign; and not looked up as readonly if it is written. */
  predicate CarriedAs(c: Compiled, m: AccountMeta) {
    && (m.pubkey in c.message.staticKeys || (!m.isSigner && (m.pubkey in c.writable || m.pubkey in c.readonly)))
    && (m.isWritable ==> m.pubkey !in c.readonly)
  }

  lemma StaticExactly(payer: Address, left: KeyMetas, a: Address)
    requires payer in left && left[payer].signer && left[payer].writable
    ensures a in StaticKeys(payer, left) <==> a in left
  {
    StaticKeysAreWhatIsLeft(payer, left);
    assert a in multiset(StaticKeys(payer, left)) <==> a in multiset(left.Keys);
  }

  lemma LoadedExactly(x: Extracted, ts: seq<Table>, metas: KeyMetas, a: Address)
    requires Accounted(x, metas) && Placed(x, ts, metas) && LoadedRight(x, ts, metas) && a in metas
    ensures
      && var loaded := MayBeLoaded(metas[a]) && exists i :: 0 <= i < |ts| && a in ts[i].entries;
      && (a in x.writable <==> loaded && metas[a].writable)
      && (a in x.readonly <==> loaded && !metas[a].writable)
      && (a in x.left <==> !loaded)
  {
    InOnePart(x.writable, x.readonly, x.left.Keys, metas.Keys, a);
  }

  lemma InOnePart(a: seq<Address>, b: seq<Address>, rest: set<Address>, all: set<Address>, x: Address)
    requires multiset(a) + multiset(b) + multiset(rest) == multiset(all) && x in all
    ensures x in a ==> x !in rest && x !in b
    ensures x in b ==> x !in rest && x !in a
    ensures x in a || x in b || x in rest
  {
    assert multiset(all)[x] == multiset(a)[x] + multiset(b)[x] + multiset(rest)[x] == 1;
    assert x in a <==> multiset(a)[x] > 0;
    assert x in b <==> multiset(b)[x] > 0;
  }

  /** Where a static key must stand: writable signers, signers, writable keys, others. */
  function Rank(m: KeyMeta): nat {
    (if m.signer then 0 else 2) + (if m.writable then 0 else 1)
  }

  /** The payer comes first, and the static keys stand in the order of their rank. */
  lemma StaticKeysInOrder(payer: Address, left: KeyMetas)
    requires payer in left && left[payer].signer && left[payer].writable
    ensures StaticKeys(payer, left)[0] == payer
    ensures
      && var keys := StaticKeys(payer, left);
      && (forall i | 0 <= i < |keys| :: keys[i] in left)
      && forall i, j | 0 <= i < j < |keys| :: Rank(left[keys[i]]) <= Rank(left[keys[j]])
  {
    var a, b := Ascending(Class(left, true, true) - {payer}), Ascending(Class(left, true, false));
    var c, d := Ascending(Class(left, false, true)), Ascending(Class(left, false, false));
    AllOfRank(left, [payer] + a, 0);
    AllOfRank(left, b, 1);
    AllOfRank(left, c, 2);
    AllOfRank(left, d, 3);
    RankedAppend(left, [payer] + a, b, 1);
    RankedAppend(left, [payer] + a + b, c, 2);
    RankedAppend(left, [payer] + a + b + c, d, 3);
  }

  predicate Ranked(left: KeyMetas, keys: seq<Address>, upTo: nat) {
    && (forall i | 0 <= i < |keys| :: keys[i] in left && Rank(left[keys[i]]) <= upTo)
    && forall i, j | 0 <= i < j < |keys| :: Rank(left[keys[i]]) <= Rank(left[keys[j]])
  }

  predicate OfRank(left: KeyMetas, keys: seq<Address>, rank: nat) {
    forall i | 0 <= i < |keys| :: keys[i] in left && Rank(left[keys[i]]) == rank
  }

  lemma AllOfRank(left: KeyMetas, keys: seq<Address>, rank: nat)
    requires forall k | k in keys :: k in left && Rank(left[k]) == rank
    ensures OfRank(left, keys, rank)
  {
    forall i | 0 <= i < |keys|
      ensures keys[i] in left && Rank(left[keys[i]]) == rank
    {
      var k := keys[i];
      assert k in keys;
    }
  }

  lemma RankedAppend(left: KeyMetas, a: seq<Address>, b: seq<Address>, rank: nat)
    requires rank > 0 && Ranked(left, a, rank - 1) && OfRank(left, b, rank)
    ensures Ranked(left, a + b, rank)
  {
  }

  /** The number of account locks counted at assembly. */
  function Locks(m: Message): nat {
    |m.staticKeys| + Indexed(m.lookups)
  }

  function Indexed(lookups: seq<Lookup>): nat {
    if lookups == [] then 0
    else
      var l := lookups[|lookups| - 1];
      Indexed(lookups[..|lookups| - 1]) + |l.writable| + |l.readonly|
  }

  /** The list of accounts is as long as the locks counted. */
  lemma {:induction false} LoadedAreCounted(ts: seq<Table>, metas: KeyMetas)
    requires Extract(ts, metas).Ok?
    ensures var x := Extract(ts, metas).value; |x.writable| + |x.readonly| == Indexed(x.lookups)
  {
    if ts == [] {
    } else {
      var n := |ts| - 1;
      LoadedAreCounted(ts[..n], metas);
      ExtractOneCounts(Extract(ts[..n], metas).value, ts[n]);
    }
  }

  lemma ExtractOneCounts(x: Extracted, t: Table)
    requires ExtractOne(x, t).Ok? && |x.writable| + |x.readonly| == Indexed(x.lookups)
    ensures var y := ExtractOne(x, t).value; |y.writable| + |y.readonly| == Indexed(y.lookups)
  {
    var y := ExtractOne(x, t).value;
    if y != x {
      assert y.lookups[..|x.lookups|] == x.lookups;
    }
  }
}
