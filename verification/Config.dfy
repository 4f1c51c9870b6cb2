/** Layered configuration (crates/core/src/config.rs): merging a file over what is
    below it, the delta a user file needs to hold, and where each value came from. */
module Config {
  import opened Wrappers

  /** A parsed configuration value. Anything but a table, arrays included, is a leaf. */
  datatype Toml = Table(entries: map<string, Toml>) | Leaf(value: int)

  // ------------------------------------------------------------------
  // merge and diff
  // ------------------------------------------------------------------

  /** Tables merge key by key; anything else replaces. */
  function Merged(dst: Toml, src: Toml): Toml
    decreases src
  {
    if dst.Table? && src.Table? then
      Table(map k | k in dst.entries.Keys + src.entries.Keys ::
        if k !in src.entries then dst.entries[k]
        else if k !in dst.entries then src.entries[k]
        else Merged(dst.entries[k], src.entries[k]))
    else src
  }

  function Get(t: Toml, k: string): Option<Toml> {
    if t.Table? && k in t.entries then Some(t.entries[k]) else None
  }

  predicate BothTables(b: Option<Toml>, v: Toml) {
    b.Some? && b.value.Table? && v.Table?
  }

  /** What `cur` changes relative to `below`, both tables. */
  function Diff(below: Toml, cur: Toml): map<string, Toml>
    requires cur.Table?
    decreases cur, 0
  {
    map k | k in cur.entries && Changes(Get(below, k), cur.entries[k]) :: Change(Get(below, k), cur.entries[k])
  }

  /** Whether a value `v` over `b` is part of the delta, and what of it. */
  predicate Changes(b: Option<Toml>, v: Toml)
    decreases v, 1
  {
    if BothTables(b, v) then Diff(b.value, v) != map[] else b != Some(v)
  }

  function Change(b: Option<Toml>, v: Toml): Toml
    decreases v, 1
  {
    if BothTables(b, v) then Table(Diff(b.value, v)) else v
  }

  /** `cur` keeps every key of `below`, in nested tables too. */
  predicate Keeps(below: Toml, cur: Toml)
    decreases cur
  {
    below.Table? && cur.Table? ==>
      forall k | k in below.entries :: k in cur.entries && Keeps(below.entries[k], cur.entries[k])
  }

  lemma {:induction false} MergeNothing(below: Toml)
    requires below.Table?
    ensures Merged(below, Table(map[])) == below
  {
    assert Merged(below, Table(map[])).entries == below.entries;
  }

  /** Main result: merging the delta back gives the current table exactly when that
      table keeps every key of the one below it. */
  lemma {:induction false} DiffThenMerge(below: Toml, cur: Toml)
    requires below.Table? && cur.Table?
    ensures Merged(below, Table(Diff(below, cur))) == cur <==> Keeps(below, cur)
    decreases cur
  {
    var back := Merged(below, Table(Diff(below, cur)));
    forall k | k in below.entries && k in cur.entries
      ensures back.entries[k] == cur.entries[k] <==> Keeps(below.entries[k], cur.entries[k])
    {
      DiffThenMergeAt(below, cur, k);
    }
    if Keeps(below, cur) {
      assert back.entries == cur.entries by {
        forall k | k in cur.entries ensures k in back.entries && back.entries[k] == cur.entries[k] {
          if k in below.entries {
            assert Keeps(below.entries[k], cur.entries[k]);
          } else {
            assert Changes(Get(below, k), cur.entries[k]);
            assert k in Diff(below, cur) && Diff(below, cur)[k] == cur.entries[k];
          }
        }
        forall k | k in back.entries ensures k in cur.entries {
          assert k in below.entries || k in Diff(below, cur);
        }
      }
    }
    if back == cur {
      forall k | k in below.entries ensures k in cur.entries && Keeps(below.entries[k], cur.entries[k]) {
        assert k in back.entries;
      }
    }
  }

  lemma {:induction false} DiffThenMergeAt(below: Toml, cur: Toml, k: string)
    requires below.Table? && cur.Table? && k in below.entries && k in cur.entries
    ensures Merged(below, Table(Diff(below, cur))).entries[k] == cur.entries[k] <==>
      Keeps(below.entries[k], cur.entries[k])
    decreases cur, 0
  {
    var b, c := below.entries[k], cur.entries[k];
    if b.Table? && c.Table? {
      DiffThenMerge(b, c);
      MergeNothing(b);
    }
  }

  /** A delta against itself is empty. */
  lemma {:induction false} NoChangeNoDelta(t: Toml)
    requires t.Table?
    ensures Diff(t, t) == map[]
    decreases t
  {
    forall k | k in t.entries ensures !Changes(Get(t, k), t.entries[k]) {
      if t.entries[k].Table? {
        NoChangeNoDelta(t.entries[k]);
      }
    }
  }

  // ------------------------------------------------------------------
  // Values by path.
  // ------------------------------------------------------------------

  /** The value at a path of keys (a dotted key). */
  function At(t: Toml, path: seq<string>): Option<Toml> {
    if path == [] then Some(t)
    else if t.Table? && path[0] in t.entries then At(t.entries[path[0]], path[1..])
    else None
  }

  predicate LeafAt(t: Toml, path: seq<string>, v: int) {
    At(t, path) == Some(Leaf(v))
  }

  /** Main result: the delta carries exactly the leaves that change: a leaf is in it
      if and only if the current table has it there and the one below does not. */
  lemma {:induction false} DeltaIsTheChangedLeaves(below: Toml, cur: Toml, path: seq<string>, v: int)
    requires below.Table? && cur.Table?
    ensures LeafAt(Table(Diff(below, cur)), path, v) <==> LeafAt(cur, path, v) && !LeafAt(below, path, v)
  {
    if path != [] && path[0] in cur.entries {
      var k, rest := path[0], path[1..];
      var b, c := Get(below, k), cur.entries[k];
      if BothTables(b, c) {
        DeltaIsTheChangedLeaves(b.value, c, rest, v);
      } else if b.Some? && b.value == c {
        assert k !in Diff(below, cur);
      } else {
        assert Changes(b, c);
        assert k in Diff(below, cur) && Diff(below, cur)[k] == c;
        LeafNeedsTable(b, c, rest, v);
      }
    }
  }

  /** A leaf and a table, or two leaves, share a leaf path only if they are equal. */
  lemma LeafNeedsTable(b: Option<Toml>, c: Toml, path: seq<string>, v: int)
    requires !BothTables(b, c) && b != Some(c)
    ensures !(LeafAt(c, path, v) && b.Some? && LeafAt(b.value, path, v))
  {
  }

  /** Main result: the delta is the least file that does it: any file that gives the
      current table over the one below carries every leaf of the delta. */
  lemma {:induction false} DeltaIsLeast(below: Toml, cur: Toml, file: Toml, path: seq<string>, v: int)
    requires below.Table? && cur.Table? && file.Table? && Merged(below, file) == cur
    requires LeafAt(Table(Diff(below, cur)), path, v)
    ensures LeafAt(file, path, v)
  {
    DeltaIsTheChangedLeaves(below, cur, path, v);
    MergedLeaf(below, file, path, v);
  }

  /** A leaf of the merged table is the file's, or it is the one below and the file
      says nothing there. */
  lemma {:induction false} MergedLeaf(dst: Toml, src: Toml, path: seq<string>, v: int)
    ensures LeafAt(src, path, v) ==> LeafAt(Merged(dst, src), path, v)
    ensures LeafAt(Merged(dst, src), path, v) ==> LeafAt(src, path, v) || LeafAt(dst, path, v)
    ensures LeafAt(Merged(dst, src), path, v) && (forall w :: !LeafAt(src, path, w)) ==> LeafAt(dst, path, v)
    decreases src
  {
    if path != [] && dst.Table? && src.Table? && path[0] in dst.entries && path[0] in src.entries {
      MergedLeaf(dst.entries[path[0]], src.entries[path[0]], path[1..], v);
    }
  }

  // ------------------------------------------------------------------
  // Layers.
  // ------------------------------------------------------------------

  datatype Layer = Default | Repo | User

  /** The layer recorded for a path: the last file that sets it to a leaf. */
  function Origin(repo: Toml, user: Toml, path: seq<string>): Layer {
    if At(user, path).Some? && At(user, path).value.Leaf? then User
    else if At(repo, path).Some? && At(repo, path).value.Leaf? then Repo
    else Default
  }

  function LayerOf(defaults: Toml, repo: Toml, user: Toml, l: Layer): Toml {
    match l case Default => defaults case Repo => repo case User => user
  }

  /** Main result: the value of every setting in effect is the one in the layer its
      origin names. */
  lemma {:induction false} OriginNamesTheSource(defaults: Toml, repo: Toml, user: Toml, path: seq<string>, v: int)
    requires LeafAt(Merged(Merged(defaults, repo), user), path, v)
    ensures LeafAt(LayerOf(defaults, repo, user, Origin(repo, user, path)), path, v)
  {
    var below := Merged(defaults, repo);
    MergedLeaf(below, user, path, v);
    MergedLeaf(defaults, repo, path, v);
    if Origin(repo, user, path) == User {
      var w := At(user, path).value.value;
      MergedLeaf(below, user, path, w);
    } else if Origin(repo, user, path) == Repo {
      var w := At(repo, path).value.value;
      MergedLeaf(defaults, repo, path, w);
    }
  }

  // ------------------------------------------------------------------
  // The same in place.
  // ------------------------------------------------------------------

  function MergedValue(dst: Toml, src: Toml, k: string): Toml
    requires src.Table? && k in src.entries
  {
    if Get(dst, k).None? then src.entries[k] else Merged(Get(dst, k).value, src.entries[k])
  }

  /** The keys of the source outside `todo` have been merged in. */
  predicate MergedSoFar(entries: map<string, Toml>, dst: Toml, src: Toml, todo: set<string>)
    requires dst.Table? && src.Table?
  {
    && todo <= src.entries.Keys
    && entries.Keys == dst.entries.Keys + (src.entries.Keys - todo)
    && (forall k | k in dst.entries && (k in todo || k !in src.entries) :: entries[k] == dst.entries[k])
    && (forall k | k in src.entries && k !in todo :: entries[k] == MergedValue(dst, src, k))
  }

  lemma {:induction false} MergedAtTheEnd(entries: map<string, Toml>, dst: Toml, src: Toml)
    requires dst.Table? && src.Table? && MergedSoFar(entries, dst, src, {})
    ensures Table(entries) == Merged(dst, src)
  {
    assert entries == Merged(dst, src).entries;
  }

  /** `merge`: key by key of the source, into the destination. */
  method Merge(dst: Toml, src: Toml) returns (r: Toml)
    requires dst.Table? && src.Table?
    ensures r == Merged(dst, src)
    decreases src
  {
    var entries := dst.entries;
    var todo := src.entries.Keys;
    while todo != {}
      invariant MergedSoFar(entries, dst, src, todo)
      decreases |todo|
    {
      var k :| k in todo;
      var v := src.entries[k];
      if k in entries && entries[k].Table? && v.Table? {
        v := Merge(entries[k], v);
      }
      entries := entries[k := v];
      todo := todo - {k};
    }
    MergedAtTheEnd(entries, dst, src);
    r := Table(entries);
  }

  /** `diff`: key by key of the current table, into an empty one. */
  method UserDelta(below: Toml, cur: Toml) returns (out: map<string, Toml>)
    requires below.Table? && cur.Table?
    ensures out == Diff(below, cur)
    decreases cur
  {
    out := map[];
    var todo := cur.entries.Keys;
    while todo != {}
      invariant todo <= cur.entries.Keys
      invariant out == map k | k in cur.entries && k !in todo && Changes(Get(below, k), cur.entries[k]) ::
        Change(Get(below, k), cur.entries[k])
      decreases |todo|
    {
      var k :| k in todo;
      todo := todo - {k};
      var b, v := Get(below, k), cur.entries[k];
      if BothTables(b, v) {
        var d := UserDelta(b.value, v);
        if d != map[] {
          out := out[k := Table(d)];
        }
      } else if b != Some(v) {
        out := out[k := v];
      }
    }
    assert out == Diff(below, cur);
  }
}
