/** The two layouts of a configuration file: the Solana sections at the top level or
    under `[venues.solana]` (crates/core/src/config.rs: lift_solana), and the
    migration from the first to the second (apps/mobius-searcher/src/migrate.rs: plan). */
module Migration {
  import opened Wrappers
  import opened Config

  type Entries = map<string, Toml>

  const SECTIONS: seq<string> := ["rpc", "jupiter", "jito", "feeds", "wallet"]

  /** The string "solana" as a leaf. */
  const KIND_SOLANA := Leaf(0)

  // ------------------------------------------------------------------
  // lift_solana
  // ------------------------------------------------------------------

  function VenuesOf(t: Entries): Option<Entries> {
    if "venues" in t && t["venues"].Table? then Some(t["venues"].entries) else None
  }

  function SolanaOf(t: Entries): Option<Toml> {
    if VenuesOf(t).Some? && "solana" in VenuesOf(t).value then Some(VenuesOf(t).value["solana"]) else None
  }

  /** The table without `venues.solana`, and without `venues` if that leaves it empty. */
  function Unvenued(t: Entries): Entries {
    if VenuesOf(t).None? then t
    else
      var v := VenuesOf(t).value - {"solana"};
      if v == map[] then t - {"venues"} else t["venues" := Table(v)]
  }

  predicate IsSection(k: string) {
    k in SECTIONS
  }

  predicate Legacy(t: Entries) {
    exists i :: 0 <= i < |SECTIONS| && SECTIONS[i] in t
  }

  /** Put the Solana sections at the top level of `t`. */
  function LiftInto(t: Entries, solana: Entries): Option<Entries> {
    var sections := solana - {"kind"};
    if "kind" in solana && solana["kind"] != KIND_SOLANA then None
    else if exists k | k in sections :: !IsSection(k) || k in t then None
    else Some(t + sections)
  }

  /** The internal table of a file and whether it used the old layout; `None` is an
      error in the file. */
  function Lift(t: Entries): Option<(Entries, bool)> {
    var solana := SolanaOf(t);
    if solana.None? then Some((Unvenued(t), Legacy(t)))
    else if !solana.value.Table? then None
    else
      var lifted := LiftInto(Unvenued(t), solana.value.entries);
      if lifted.None? then None else Some((lifted.value, Legacy(t)))
  }

  // ------------------------------------------------------------------
  // plan
  // ------------------------------------------------------------------

  /** A document as edited: a table written as a `[section]` or inline, or a value. */
  datatype Item = Block(items: map<string, Item>) | Inline(items: map<string, Item>) | Scalar(value: int)

  type Document = map<string, Item>

  function Parsed(i: Item): Toml {
    if i.Scalar? then Leaf(i.value) else Table(map k | k in i.items :: Parsed(i.items[k]))
  }

  /** What the configuration reader sees of a document. */
  function Read(doc: Document): Entries {
    map k | k in doc :: Parsed(doc[k])
  }

  function TopSections(doc: Document): Document {
    map k | k in doc && IsSection(k) :: doc[k]
  }

  function Rest(doc: Document): Document {
    map k | k in doc && !IsSection(k) :: doc[k]
  }

  /** The sub-table under `k`, empty if there is none; `None` if it is no `[table]`. */
  function SubTable(doc: Document, k: string): Option<Document> {
    if k !in doc then Some(map[]) else if doc[k].Block? then Some(doc[k].items) else None
  }

  datatype Plan = Refused | NothingToMove | Moves(doc: Document, moved: set<string>)

  function PlanOf(doc: Document): Plan {
    var top, rest := TopSections(doc), Rest(doc);
    if exists k | k in top :: !top[k].Block? then Refused
    else if top == map[] then NothingToMove
    else
      var venues := SubTable(rest, "venues");
      if venues.None? then Refused
      else
        var solana := SubTable(venues.value, "solana");
        if solana.None? || exists k | k in top :: k in solana.value then Refused
        else Moves(rest["venues" := Block(venues.value["solana" := Block(solana.value + top)])], top.Keys)
  }

  // ------------------------------------------------------------------
  // Migration keeps the meaning.
  // ------------------------------------------------------------------

  lemma Names()
    ensures !IsSection("venues") && !IsSection("kind") && !IsSection("solana")
    ensures "venues" != "solana" && "kind" != "solana"
  {
    assert "venues"[0] == 'v' && "wallet"[0] == 'w';
    assert "kind"[0] == 'k' && "jito"[0] == 'j';
    assert "solana"[0] == 's';
  }

  predicate OnlySections(t: Entries) {
    forall k | k in t :: IsSection(k)
  }

  predicate NoSections(t: Entries) {
    forall k | k in t :: !IsSection(k)
  }

  lemma LegacyIsHavingSections(t: Entries)
    ensures Legacy(t) <==> !NoSections(t)
  {
    if !NoSections(t) {
      var k :| k in t && IsSection(k);
      var i :| 0 <= i < |SECTIONS| && SECTIONS[i] == k;
    }
  }

  /** Sections already at the top or still under `venues.solana`: lifting them comes
      to the same. */
  lemma LiftIntoCommutes(t: Entries, top: Entries, solana: Entries)
    requires NoSections(t) && OnlySections(top) && top.Keys !! solana.Keys
    ensures LiftInto(t, solana + top) == LiftInto(t + top, solana)
  {
    Names();
    var moved, there := (solana + top) - {"kind"}, solana - {"kind"};
    assert moved == there + top;
    if exists k | k in moved :: !IsSection(k) || k in t {
      var k :| k in moved && (!IsSection(k) || k in t);
      assert k in there;
    }
    assert t + moved == (t + top) + there;
  }

  lemma UnvenuedCommutes(rest: Entries, top: Entries, venues: Entries, solana: Toml)
    requires OnlySections(top)
    requires if "venues" in rest then rest["venues"] == Table(venues) else venues == map[]
    ensures Unvenued(rest["venues" := Table(venues["solana" := solana])]) + top == Unvenued(rest + top)
  {
    Names();
    var now := rest["venues" := Table(venues["solana" := solana])];
    var v := venues - {"solana"};
    assert venues["solana" := solana] - {"solana"} == v;
    if v == map[] {
      assert now - {"venues"} + top == (rest + top) - {"venues"};
    } else {
      assert now["venues" := Table(v)] + top == (rest + top)["venues" := Table(v)];
    }
  }

  lemma EmptyOrKeyed(t: Entries)
    ensures t == map[] || exists k :: k in t
  {
    if forall k :: k !in t {
      assert t == map[];
    }
  }

  lemma UnvenuedAddsNoSections(t: Entries)
    requires NoSections(t)
    ensures NoSections(Unvenued(t))
  {
    Names();
  }

  /** Moving the sections `top` of a table `rest + top` under `venues.solana` does
      not change what it lifts to, or that it does not lift. */
  lemma MovedLiftsTheSame(rest: Entries, top: Entries, venues: Entries, solana: Entries)
    requires NoSections(rest) && OnlySections(top) && top != map[] && top.Keys !! solana.Keys
    requires if "venues" in rest then rest["venues"] == Table(venues) else venues == map[]
    requires if "solana" in venues then venues["solana"] == Table(solana) else solana == map[]
    ensures
      var before, now := Lift(rest + top), Lift(rest["venues" := Table(venues["solana" := Table(solana + top)])]);
      Legacy(rest + top) && now == if before.None? then None else Some((before.value.0, false))
  {
    Names();
    var was, now := rest + top, rest["venues" := Table(venues["solana" := Table(solana + top)])];
    UnvenuedCommutes(rest, top, venues, Table(solana + top));
    LegacyIsHavingSections(was);
    LegacyIsHavingSections(now);
    EmptyOrKeyed(top);
    assert NoSections(now);
    UnvenuedAddsNoSections(now);
    LiftIntoCommutes(Unvenued(now), top, solana);
    assert SolanaOf(now) == Some(Table(solana + top));
    if "solana" in venues {
      assert SolanaOf(was) == Some(Table(solana));
    } else {
      assert SolanaOf(was) == None;
      assert LiftInto(Unvenued(was), map[]) == Some(Unvenued(was)) by {
        assert Unvenued(was) + map[] == Unvenued(was);
      }
    }
  }

  lemma ReadParts(doc: Document)
    ensures Read(doc) == Read(Rest(doc)) + Read(TopSections(doc))
    ensures NoSections(Read(Rest(doc))) && OnlySections(Read(TopSections(doc)))
  {
  }

  lemma ParsedBlock(items: Document)
    ensures Parsed(Block(items)) == Table(Read(items))
  {
  }

  lemma ReadUnion(a: Document, b: Document)
    ensures Read(a + b) == Read(a) + Read(b)
  {
  }

  lemma ReadWith(a: Document, k: string, items: Document)
    ensures Read(a[k := Block(items)]) == Read(a)[k := Table(Read(items))]
  {
    ParsedBlock(items);
  }

  lemma SubTableReads(doc: Document, k: string)
    requires SubTable(doc, k).Some?
    ensures if k in Read(doc) then Read(doc)[k] == Table(Read(SubTable(doc, k).value))
      else Read(SubTable(doc, k).value) == map[]
  {
    if k in doc {
      ParsedBlock(doc[k].items);
    }
  }

  /** Main result: whenever `plan` moves sections, the new file lifts to the same
      table as the old one, no longer in the old layout, or both are refused. */
  lemma MigrationKeepsTheMeaning(doc: Document)
    requires PlanOf(doc).Moves?
    ensures
      var before, now := Lift(Read(doc)), Lift(Read(PlanOf(doc).doc));
      && (before.None? <==> now.None?)
      && (before.Some? ==> before.value.1 && now == Some((before.value.0, false)))
  {
    var rest, top := Rest(doc), TopSections(doc);
    var venues := SubTable(rest, "venues").value;
    var solana := SubTable(venues, "solana").value;
    ReadParts(doc);
    ReadWith(rest, "venues", venues["solana" := Block(solana + top)]);
    ReadWith(venues, "solana", solana + top);
    ReadUnion(solana, top);
    SubTableReads(rest, "venues");
    SubTableReads(venues, "solana");
    assert Read(top) != map[] by {
      assert Read(top).Keys == top.Keys;
    }
    MovedLiftsTheSame(Read(rest), Read(top), Read(venues), Read(solana));
  }

  /** A second migration finds nothing to move. */
  lemma MigratedOnce(doc: Document)
    requires PlanOf(doc).Moves?
    ensures PlanOf(PlanOf(doc).doc) == NothingToMove
  {
    Names();
    assert TopSections(PlanOf(doc).doc) == map[];
  }

  /** Hence the effective configuration is the same, whatever the layers around. */
  lemma {:induction false} MigrationKeepsEveryLayering(doc: Document, below: Toml, above: Toml)
    requires PlanOf(doc).Moves? && Lift(Read(doc)).Some?
    ensures Lift(Read(PlanOf(doc).doc)).Some?
    ensures Merged(Merged(below, Table(Lift(Read(PlanOf(doc).doc)).value.0)), above)
         == Merged(Merged(below, Table(Lift(Read(doc)).value.0)), above)
  {
    MigrationKeepsTheMeaning(doc);
  }

  // ------------------------------------------------------------------
  // When sections move, and where to.
  // ------------------------------------------------------------------

  /** The item at a path of keys. */
  function Find(doc: Document, path: seq<string>): Option<Item>
    requires path != []
    decreases |path|
  {
    if path[0] !in doc then None
    else if |path| == 1 then Some(doc[path[0]])
    else if doc[path[0]].Scalar? then None
    else Find(doc[path[0]].items, path[1..])
  }

  predicate IsTable(i: Option<Item>) {
    i.Some? && i.value.Block?
  }

  /** The sections at the top level. */
  function Atop(doc: Document): set<string> {
    set k | k in doc && IsSection(k)
  }

  /** Each section at the top is a `[table]`, so are `venues` and `venues.solana` where they
      are there, and no section stands in both places. */
  predicate CanMove(doc: Document) {
    && (forall k | k in Atop(doc) :: doc[k].Block?)
    && (Find(doc, ["venues"]).None? || IsTable(Find(doc, ["venues"])))
    && (Find(doc, ["venues", "solana"]).None? || IsTable(Find(doc, ["venues", "solana"])))
    && (forall k | k in Atop(doc) :: Find(doc, ["venues", "solana", k]).None?)
  }

  lemma {:induction false} FindOne(doc: Document, a: string)
    ensures Find(doc, [a]) == if a in doc then Some(doc[a]) else None
  {
  }

  lemma {:induction false} FindTwo(doc: Document, a: string, b: string)
    ensures Find(doc, [a, b]) ==
      if a !in doc || doc[a].Scalar? then None else Find(doc[a].items, [b])
  {
    assert [a, b][1..] == [b];
  }

  lemma {:induction false} FindThree(doc: Document, a: string, b: string, c: string)
    ensures Find(doc, [a, b, c]) ==
      if a !in doc || doc[a].Scalar? then None else Find(doc[a].items, [b, c])
  {
    assert [a, b, c][1..] == [b, c];
  }

  /** Main result on when sections move: nothing is left to do exactly if no section stands at
      the top level; otherwise they move exactly if they can, and the file is refused if not. */
  lemma MovesExactlyWhen(doc: Document)
    ensures PlanOf(doc).NothingToMove? <==> Atop(doc) == {}
    ensures PlanOf(doc).Moves? <==> Atop(doc) != {} && CanMove(doc)
    ensures PlanOf(doc).Refused? <==> Atop(doc) != {} && !CanMove(doc)
  {
    Names();
    var top, rest := TopSections(doc), Rest(doc);
    assert top.Keys == Atop(doc);
    FindOne(doc, "venues");
    FindTwo(doc, "venues", "solana");
    if SubTable(rest, "venues").Some? {
      var venues := SubTable(rest, "venues").value;
      FindOne(venues, "solana");
      forall k: string
        ensures SubTable(venues, "solana").Some? ==>
          (Find(doc, ["venues", "solana", k]).Some? <==> k in SubTable(venues, "solana").value)
      {
        FindThree(doc, "venues", "solana", k);
        FindTwo(venues, "solana", k);
        if "solana" in venues && venues["solana"].Block? {
          FindOne(venues["solana"].items, k);
        }
      }
    }
  }

  /** The path leads to a section that moves, into it, or to one of the tables it moves under. */
  predicate Touched(path: seq<string>, moved: set<string>) {
    || (|path| > 0 && path[0] in moved)
    || path == ["venues"] || path == ["venues", "solana"]
    || (|path| > 2 && path[0] == "venues" && path[1] == "solana" && path[2] in moved)
  }

  lemma {:induction false} FindInto(doc: Document, a: string, rest: seq<string>)
    requires rest != []
    ensures Find(doc, [a] + rest) == if a !in doc || doc[a].Scalar? then None else Find(doc[a].items, rest)
  {
    assert ([a] + rest)[1..] == rest;
  }

  /** Main result on where they move: exactly the sections at the top are reported as moved;
      each is found, with all that is in it, under `venues.solana` and no longer at the top; the
      two tables they move under are tables; and at every other path the file is the same. */
  lemma {:induction false} MovedAndNothingElse(doc: Document, path: seq<string>)
    requires PlanOf(doc).Moves? && path != []
    ensures PlanOf(doc).moved == Atop(doc) && Atop(PlanOf(doc).doc) == {}
    ensures path[0] in Atop(doc) ==> Find(PlanOf(doc).doc, ["venues", "solana"] + path) == Find(doc, path)
    ensures IsTable(Find(PlanOf(doc).doc, ["venues"])) && IsTable(Find(PlanOf(doc).doc, ["venues", "solana"]))
    ensures !Touched(path, Atop(doc)) ==> Find(PlanOf(doc).doc, path) == Find(doc, path)
  {
    Names();
    var now, top, rest := PlanOf(doc).doc, TopSections(doc), Rest(doc);
    var venues := SubTable(rest, "venues").value;
    var solana := SubTable(venues, "solana").value;
    assert top.Keys == Atop(doc);
    assert now == rest["venues" := Block(venues["solana" := Block(solana + top)])];
    FindOne(now, "venues");
    FindTwo(now, "venues", "solana");
    FindOne(now["venues"].items, "solana");
    if path[0] in Atop(doc) {
      assert ["venues", "solana"] + path == ["venues"] + (["solana"] + path);
      FindInto(now, "venues", ["solana"] + path);
      FindInto(now["venues"].items, "solana", path);
      FindSame(solana + top, doc, path);
    }
    if !Touched(path, Atop(doc)) {
      if path[0] == "venues" {
        UnderVenues(doc, now, venues, solana, top, path);
      } else {
        FindSame(now, doc, path);
      }
    }
  }

  /** What is found is what stands under the first key. */
  lemma {:induction false} FindSame(a: Document, b: Document, path: seq<string>)
    requires path != []
    requires path[0] in a <==> path[0] in b
    requires path[0] in a ==> a[path[0]] == b[path[0]]
    ensures Find(a, path) == Find(b, path)
  {
  }

  lemma {:induction false} UnderVenues(
    doc: Document, now: Document, venues: Document, solana: Document, top: Document, path: seq<string>)
    requires |path| > 0 && path[0] == "venues" && !Touched(path, top.Keys)
    requires if "venues" in doc then doc["venues"] == Block(venues) else venues == map[]
    requires if "solana" in venues then venues["solana"] == Block(solana) else solana == map[]
    requires "venues" in now && now["venues"] == Block(venues["solana" := Block(solana + top)])
    ensures Find(now, path) == Find(doc, path)
  {
    assert |path| == 1 ==> path == ["venues"];
    var inner := path[1..];
    assert path == ["venues"] + inner;
    FindInto(now, "venues", inner);
    FindInto(doc, "venues", inner);
    if inner[0] == "solana" {
      assert |path| == 2 ==> path == ["venues", "solana"];
      var last := inner[1..];
      assert inner == ["solana"] + last;
      FindInto(now["venues"].items, "solana", last);
      FindInto(venues, "solana", last);
      FindSame(solana + top, solana, last);
    } else {
      FindSame(now["venues"].items, venues, inner);
    }
  }

  // ------------------------------------------------------------------
  // When a file lifts, and to what.
  // ------------------------------------------------------------------

  /** The entry at a path of one, two or three keys of a table. */
  function Entry(t: Entries, path: seq<string>): Option<Toml> {
    At(Table(t), path)
  }

  /** `venues.solana`, where it is there, is a table of sections, possibly with the kind
      "solana", and no section stands in both places. */
  predicate CanLift(t: Entries) {
    && var solana := Entry(t, ["venues", "solana"]);
    && solana.Some? ==>
      && solana.value.Table?
      && forall k | k in solana.value.entries ::
           if k == "kind" then solana.value.entries[k] == KIND_SOLANA else IsSection(k) && k !in t
  }

  lemma {:induction false} AtFirst(t: Toml, a: string, rest: seq<string>)
    ensures At(t, [a] + rest) == if t.Table? && a in t.entries then At(t.entries[a], rest) else None
  {
    assert ([a] + rest)[1..] == rest;
  }

  lemma EntryOne(t: Entries, a: string)
    ensures Entry(t, [a]) == if a in t then Some(t[a]) else None
  {
    AtFirst(Table(t), a, []);
    assert [a] + [] == [a];
  }

  lemma EntryTwo(t: Entries, a: string, b: string)
    ensures Entry(t, [a, b]) == if a in t && t[a].Table? && b in t[a].entries then Some(t[a].entries[b]) else None
  {
    AtFirst(Table(t), a, [b]);
    assert [a] + [b] == [a, b];
    if a in t {
      AtFirst(t[a], b, []);
      assert [b] + [] == [b];
    }
  }

  lemma SolanaIsEntry(t: Entries)
    ensures SolanaOf(t) == Entry(t, ["venues", "solana"])
  {
    EntryTwo(t, "venues", "solana");
  }

  /** Main result on lifting: a file lifts exactly if it can, and counts as old exactly if a
      section stands at its top level. */
  lemma LiftsExactlyWhen(t: Entries)
    ensures Lift(t).Some? <==> CanLift(t)
    ensures Lift(t).Some? ==> (Lift(t).value.1 <==> exists k :: k in t && IsSection(k))
  {
    Names();
    SolanaIsEntry(t);
    LegacyIsHavingSections(t);
    if SolanaOf(t).Some? && SolanaOf(t).value.Table? {
      var solana := SolanaOf(t).value.entries;
      var sections := solana - {"kind"};
      if CanLift(t) {
        forall k | k in sections
          ensures IsSection(k) && k !in Unvenued(t)
        {
          assert k in solana;
        }
      } else if LiftInto(Unvenued(t), solana).Some? {
        forall k | k in solana
          ensures if k == "kind" then solana[k] == KIND_SOLANA else IsSection(k) && k !in t
        {
          assert k != "kind" ==> k in sections && k !in Unvenued(t) && IsSection(k);
        }
      }
    }
  }

  /** What a lifted table holds under `k`: a section from either place; the rest of `venues`,
      unless that is an empty table; and anything else as it was. */
  function LiftedEntry(t: Entries, k: string): Option<Toml> {
    if IsSection(k) && Entry(t, ["venues", "solana", k]).Some? then Entry(t, ["venues", "solana", k])
    else if k == "venues" && k in t && t[k].Table? then
      var others := t[k].entries - {"solana"};
      if others == map[] then None else Some(Table(others))
    else Entry(t, [k])
  }

  lemma EntryThree(t: Entries, a: string, b: string, c: string)
    ensures Entry(t, [a, b, c]) ==
      if Entry(t, [a, b]).Some? && Entry(t, [a, b]).value.Table? && c in Entry(t, [a, b]).value.entries
      then Some(Entry(t, [a, b]).value.entries[c]) else None
  {
    EntryTwo(t, a, b);
    AtFirst(Table(t), a, [b, c]);
    assert [a] + [b, c] == [a, b, c];
    if a in t {
      AtFirst(t[a], b, [c]);
      assert [b] + [c] == [b, c];
      if t[a].Table? && b in t[a].entries {
        AtFirst(t[a].entries[b], c, []);
        assert [c] + [] == [c];
      }
    }
  }

  /** Main result on what it lifts to, key by key. */
  lemma LiftsTo(t: Entries, k: string)
    requires Lift(t).Some?
    ensures Entry(Lift(t).value.0, [k]) == LiftedEntry(t, k)
  {
    Names();
    LiftsExactlyWhen(t);
    SolanaIsEntry(t);
    EntryThree(t, "venues", "solana", k);
    EntryOne(t, k);
    EntryOne(Lift(t).value.0, k);
  }

  // ------------------------------------------------------------------
  // The same in place.
  // ------------------------------------------------------------------

  method LiftSolana(table: Entries) returns (r: Option<(Entries, bool)>)
    ensures r == Lift(table)
  {
    var legacy := false;
    for i := 0 to |SECTIONS|
      invariant legacy == exists j :: 0 <= j < i && SECTIONS[j] in table
    {
      legacy := legacy || SECTIONS[i] in table;
    }
    var t, solana := table, None;
    if "venues" in t && t["venues"].Table? {
      var v := t["venues"].entries;
      if "solana" in v {
        solana := Some(v["solana"]);
      }
      v := v - {"solana"};
      t := t["venues" := Table(v)];
      if v == map[] {
        t := t - {"venues"};
        assert t == table - {"venues"};
      }
    }
    if solana.None? {
      return Some((t, legacy));
    }
    if !solana.value.Table? {
      return None;
    }
    var lifted := LiftSections(t, solana.value.entries);
    r := if lifted.None? then None else Some((lifted.value, legacy));
  }

  ghost predicate AllNew<K, V>(base: map<K, V>, extra: map<K, V>, known: K -> bool) {
    forall k | k in extra :: known(k) && k !in base
  }

  /** The entries outside `todo` were new and have been inserted. */
  ghost predicate Inserted<K, V>(t: map<K, V>, base: map<K, V>, extra: map<K, V>, known: K -> bool, todo: set<K>) {
    && todo <= extra.Keys
    && t.Keys == base.Keys + (extra.Keys - todo)
    && (forall k | k in base :: t[k] == base[k])
    && (forall k | k in extra && k !in todo :: known(k) && k !in base && t[k] == extra[k])
  }

  lemma InsertedAtTheEnd<K, V>(t: map<K, V>, base: map<K, V>, extra: map<K, V>, known: K -> bool)
    requires Inserted(t, base, extra, known, {})
    ensures AllNew(base, extra, known) && t == base + extra
  {
  }

  lemma InsertedOneMore<K, V>(t: map<K, V>, base: map<K, V>, extra: map<K, V>, known: K -> bool, todo: set<K>, k: K)
    requires Inserted(t, base, extra, known, todo) && k in todo
    ensures if known(k) && k !in t then Inserted(t[k := extra[k]], base, extra, known, todo - {k})
      else !AllNew(base, extra, known)
  {
  }

  /** Insert entry after entry; stop at one that is unknown or already there. */
  method InsertAll<K(==), V>(base: map<K, V>, extra: map<K, V>, known: K -> bool) returns (r: Option<map<K, V>>)
    ensures r == if AllNew(base, extra, known) then Some(base + extra) else None
  {
    var t, todo := base, extra.Keys;
    while todo != {}
      invariant Inserted(t, base, extra, known, todo)
      decreases |todo|
    {
      var k :| k in todo;
      InsertedOneMore(t, base, extra, known, todo, k);
      if !known(k) || k in t {
        return None;
      }
      t := t[k := extra[k]];
      todo := todo - {k};
    }
    InsertedAtTheEnd(t, base, extra, known);
    return Some(t);
  }

  method LiftSections(base: Entries, solana: Entries) returns (r: Option<Entries>)
    ensures r == LiftInto(base, solana)
  {
    if "kind" in solana && solana["kind"] != KIND_SOLANA {
      return None;
    }
    var sections := solana - {"kind"};
    r := InsertAll(base, sections, IsSection);
    assert AllNew(base, sections, IsSection) <==> !exists k | k in sections :: !IsSection(k) || k in base;
  }

  method PlanMigration(document: Document) returns (r: Plan)
    ensures r == PlanOf(document)
  {
    var ok, items, doc := TakeSections(document);
    if !ok {
      return Refused;
    }
    if items == map[] {
      return NothingToMove;
    }
    r := MoveUnder(doc, items);
  }

  /** Take the sections out one by one; stop at one that is no `[table]`. */
  method TakeSections(document: Document) returns (ok: bool, items: Document, doc: Document)
    ensures ok <==> forall k | k in TopSections(document) :: TopSections(document)[k].Block?
    ensures ok ==> items == TopSections(document) && doc == Rest(document)
  {
    doc, items := document, map[];
    for i := 0 to |SECTIONS|
      invariant items == map k | k in document && k in SECTIONS[..i] :: document[k]
      invariant doc == map k | k in document && k !in SECTIONS[..i] :: document[k]
      invariant forall k | k in items :: items[k].Block?
    {
      var section := SECTIONS[i];
      assert SECTIONS[..i + 1] == SECTIONS[..i] + [section];
      if section in doc {
        var item := doc[section];
        doc := doc - {section};
        if !item.Block? {
          assert section in TopSections(document) && !TopSections(document)[section].Block?;
          return false, items, doc;
        }
        items := items[section := item];
      }
    }
    assert SECTIONS[..|SECTIONS|] == SECTIONS;
    assert items == TopSections(document) && doc == Rest(document);
    return true, items, doc;
  }

  method MoveUnder(doc: Document, items: Document) returns (r: Plan)
    ensures r == (
      var venues := SubTable(doc, "venues");
      if venues.None? then Refused
      else
        var solana := SubTable(venues.value, "solana");
        if solana.None? || exists k | k in items :: k in solana.value then Refused
        else Moves(doc["venues" := Block(venues.value["solana" := Block(solana.value + items)])], items.Keys))
  {
    var venues := SubTable(doc, "venues");
    if venues.None? {
      return Refused;
    }
    var found := SubTable(venues.value, "solana");
    if found.None? {
      return Refused;
    }
    var solana := InsertAll(found.value, items, _ => true);
    if solana.None? {
      return Refused;
    }
    return Moves(doc["venues" := Block(venues.value["solana" := Block(solana.value)])], items.Keys);
  }
}
