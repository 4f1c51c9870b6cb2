/** Copying a live table row by row (scripts/live_tracker.py: cursor, copy_rows).
    The engine writes, replaces and prunes while the tracker reads a batch past a
    session's cursor and commits it together with the new cursor; either may stop
    at any point. Rows of a table with a key replace each other under it; rows of
    a table without one pile up. The dataset is kept in both forms, `keyed` for
    the first kind of table and `loose` for the second, where each copy is noted with
    the rowid it was copied from so that equal rows can be told apart. */
module RowMirror {
  import opened Wrappers
  import opened Ordered

  const BATCH := 2000

  datatype Row = Row(sid: int, key: int, val: int)

  type Live = map<int, Row>

  datatype Read = Read(rid: int, row: Row)

  datatype Dataset = Dataset(keyed: map<(int, int), int>, loose: seq<Read>, cursors: map<int, int>)
  {
    function Cursor(sid: int): int {
      if sid in cursors then cursors[sid] else -1
    }
  }

  function Past(live: Live, sid: int, at: int): set<int> {
    set r | r in live && live[r].sid == sid && r > at
  }

  /** Rowids of `SELECT ... WHERE rowid > at AND session_id = sid ORDER BY rowid LIMIT BATCH`. */
  function Selected(live: Live, sid: int, at: int): (rids: seq<int>)
    ensures StrictlyIncreasing(rids) && forall r | r in rids :: r in Past(live, sid, at)
    ensures rids == [] ==> Past(live, sid, at) == {}
  {
    Batched(Ascending(Past(live, sid, at)))
  }

  /** `LIMIT BATCH`. */
  function Batched(all: seq<int>): (first: seq<int>)
    ensures |first| <= |all| && first == all[..|first|] && |first| <= BATCH && (|first| < BATCH ==> first == all)
  {
    if |all| <= BATCH then all else all[..BATCH]
  }

  function Query(live: Live, sid: int, at: int): seq<Read> {
    var rids := Selected(live, sid, at);
    seq(|rids|, i requires 0 <= i < |rids| => assert rids[i] in rids; Read(rids[i], live[rids[i]]))
  }

  function Put(keyed: map<(int, int), int>, row: Row): map<(int, int), int> {
    keyed[(row.sid, row.key) := row.val]
  }

  function PutAll(keyed: map<(int, int), int>, got: seq<Read>): map<(int, int), int> {
    if got == [] then keyed else Put(PutAll(keyed, got[..|got| - 1]), got[|got| - 1].row)
  }

  /** One transaction of the dataset: the batch and its cursor. */
  function Committed(d: Dataset, sid: int, got: seq<Read>): Dataset
    requires got != []
  {
    Dataset(PutAll(d.keyed, got), d.loose + got, d.cursors[sid := got[|got| - 1].rid])
  }

  // ------------------------------------------------------------------
  // copy_rows
  // ------------------------------------------------------------------

  /** How the live table, as it stands at one query of a session, answers it. */
  type Answer = int -> seq<Read>

  function AnswerOf(live: Live, sid: int): Answer {
    at => Query(live, sid, at)
  }

  /** The passes of the loop while the live table answers as in `feed`: it stops
      at a batch that is not full, or when the process is stopped (end of `feed`). */
  function CopyPass(d: Dataset, sid: int, feed: seq<Answer>): (Dataset, nat)
    decreases |feed|
  {
    if feed == [] then (d, 0)
    else
      var got := feed[0](d.Cursor(sid));
      if got == [] then (d, 0)
      else if |got| < BATCH then (Committed(d, sid, got), |got|)
      else
        var rest := CopyPass(Committed(d, sid, got), sid, feed[1..]);
        (rest.0, |got| + rest.1)
  }

  class Mirror {
    var data: Dataset

    constructor (found: Dataset)
      ensures data == found
    {
      data := found;
    }

    method CopyRows(sid: int, feed: seq<Answer>) returns (copied: nat)
      modifies this
      ensures (data, copied) == CopyPass(old(data), sid, feed)
    {
      copied := 0;
      ghost var whole := CopyPass(data, sid, feed);
      assert feed[0..] == feed;
      for i := 0 to |feed|
        invariant whole == (CopyPass(data, sid, feed[i..]).0, copied + CopyPass(data, sid, feed[i..]).1)
      {
        assert feed[i..][1..] == feed[i + 1..];
        var got := feed[i](data.Cursor(sid));
        if got == [] {
          return;
        }
        data := Committed(data, sid, got);
        copied := copied + |got|;
        if |got| < BATCH {
          return;
        }
      }
    }
  }

  // ------------------------------------------------------------------
  // Engine, tracker and crashes, interleaved.
  // ------------------------------------------------------------------

  datatype Batch = Batch(sid: int, got: seq<Read>)

  datatype State = State(live: Live, data: Dataset, pending: Option<Batch>)

  /** `Write` replaces the row under its key, if there is one, by a row with the
      next rowid. `Prune` deletes rows of a session (retention works in chunks).
      `Fetch` reads a batch, `Commit` writes it, `Crash` forgets it. */
  datatype Step = Write(rid: int, row: Row) | Prune(victim: int, rids: set<int>) | Fetch(sid: int) | Commit | Crash

  /** SQLite gives a new row a rowid above all rowids in the table. */
  predicate Fresh(live: Live, rid: int) {
    rid >= 0 && forall r | r in live :: r < rid
  }

  predicate Enabled(s: State, step: Step) {
    step.Write? ==> Fresh(s.live, step.rid)
  }

  function SameKey(live: Live, row: Row): set<int> {
    set r | r in live && live[r].sid == row.sid && live[r].key == row.key
  }

  function Apply(s: State, step: Step): State {
    match step
    case Write(rid, row) => s.(live := (s.live - SameKey(s.live, row))[rid := row])
    case Prune(victim, rids) => s.(live := map r | r in s.live && !(r in rids && s.live[r].sid == victim) :: s.live[r])
    case Fetch(sid) =>
      var got := Query(s.live, sid, s.data.Cursor(sid));
      s.(pending := if got == [] then None else Some(Batch(sid, got)))
    case Commit =>
      if s.pending.None? || s.pending.value.got == [] then s
      else State(s.live, Committed(s.data, s.pending.value.sid, s.pending.value.got), None)
    case Crash => s.(pending := None)
  }

  const START := State(map[], Dataset(map[], [], map[]), None)

  function After(steps: seq<Step>): State {
    if steps == [] then START else Apply(After(steps[..|steps| - 1]), steps[|steps| - 1])
  }

  /** A run: each step is possible where it is taken. */
  predicate IsRun(steps: seq<Step>) {
    forall i | 0 <= i < |steps| :: Enabled(After(steps[..i]), steps[i])
  }

  /** Nothing of session `sid` is pruned. */
  predicate Spares(steps: seq<Step>, sid: int) {
    forall i | 0 <= i < |steps| :: steps[i].Prune? ==> steps[i].victim != sid
  }

  // ------------------------------------------------------------------
  // What every step keeps.
  // ------------------------------------------------------------------

  ghost predicate Unique(live: Live) {
    forall q, r | q in live && r in live && live[q].sid == live[r].sid && live[q].key == live[r].key :: q == r
  }

  ghost predicate Copied(keyed: map<(int, int), int>, row: Row) {
    (row.sid, row.key) in keyed && keyed[(row.sid, row.key)] == row.val
  }

  /** Every live row of the session at or below its cursor is in the dataset. */
  ghost predicate Covered(live: Live, d: Dataset, sid: int) {
    forall r | r in live && live[r].sid == sid && r <= d.Cursor(sid) :: Copied(d.keyed, live[r])
  }

  /** A batch in hand: rows past the cursor, in order, one per key, none of them
      under a key already copied, and nothing live skipped on the way. */
  ghost predicate InHand(live: Live, d: Dataset, b: Batch) {
    var got, at := b.got, d.Cursor(b.sid);
    && got != []
    && (forall i, j | 0 <= i < j < |got| :: got[i].rid < got[j].rid && got[i].row.key != got[j].row.key)
    && (forall i | 0 <= i < |got| :: got[i].rid > at && got[i].row.sid == b.sid)
    && (forall i, r | 0 <= i < |got| && r in live && live[r].sid == b.sid && r <= at :: live[r].key != got[i].row.key)
    && (forall r | r in live && live[r].sid == b.sid && at < r <= got[|got| - 1].rid :: Read(r, live[r]) in got)
  }

  /** Covered as things are, and also if what is in hand were committed now. */
  ghost predicate CoveredOnCommit(s: State, sid: int) {
    Covered(s.live, s.data, sid) && Covered(s.live, Apply(s, Commit).data, sid)
  }

  /** A batch is of one session and past its cursor. */
  ghost predicate WellRead(s: State) {
    s.pending.Some? ==>
      var got := s.pending.value.got;
      && got != []
      && (forall i | 0 <= i < |got| :: got[i].row.sid == s.pending.value.sid)
      && got[|got| - 1].rid > s.data.Cursor(s.pending.value.sid)
  }

  ghost predicate Inv(s: State, sid: int) {
    Unique(s.live) && WellRead(s) && CoveredOnCommit(s, sid)
  }

  /** How far the session has been read: its cursor, or the end of the batch in hand. */
  function Reached(s: State, sid: int): int {
    if s.pending.Some? && s.pending.value.sid == sid && s.pending.value.got != []
    then s.pending.value.got[|s.pending.value.got| - 1].rid
    else s.data.Cursor(sid)
  }

  /** A row of the session is written past what has been read of it. */
  predicate LandsAhead(s: State, step: Step, sid: int) {
    step.Write? && step.row.sid == sid ==> step.rid > Reached(s, sid)
  }

  /** The dataset has the row, or will have it when what is in hand is committed. */
  ghost predicate Had(s: State, row: Row, committed: bool) {
    Copied((if committed then Apply(s, Commit) else s).data.keyed, row)
  }

  /** A row written to the session is past all that has been read of it. At or below
      that it must be one the tracker has: the dataset, if it is at or below the
      cursor, and the dataset together with what is in hand in any case. */
  ghost predicate Safe(s: State, step: Step, sid: int) {
    step.Write? && step.row.sid == sid ==>
      && (step.rid > s.data.Cursor(sid) || Had(s, step.row, false))
      && (step.rid > Reached(s, sid) || Had(s, step.row, true))
  }

  lemma ReachedIsTheCursorAfterCommit(s: State, sid: int)
    requires WellRead(s)
    ensures Apply(s, Commit).data.Cursor(sid) == Reached(s, sid) >= s.data.Cursor(sid)
  {
  }

  /** Whatever is pruned, a row written to a covered session leaves it covered
      exactly when its rowid is past the cursor or the dataset has it already. */
  lemma CoveredExactlyWhenAhead(live: Live, d: Dataset, rid: int, row: Row)
    requires Covered(live, d, row.sid) && Fresh(live, rid)
    ensures Covered((live - SameKey(live, row))[rid := row], d, row.sid) <==>
            rid > d.Cursor(row.sid) || Copied(d.keyed, row)
  {
    var now := (live - SameKey(live, row))[rid := row];
    assert rid in now && now[rid] == row;
    assert forall r | r in now && r != rid :: r in live && now[r] == live[r];
  }

  lemma OtherWritesKeepCovered(live: Live, d: Dataset, rid: int, row: Row, sid: int)
    requires Covered(live, d, sid) && row.sid != sid
    ensures Covered((live - SameKey(live, row))[rid := row], d, sid)
  {
    var now := (live - SameKey(live, row))[rid := row];
    assert forall r | r in now && r != rid :: r in live && now[r] == live[r];
  }

  lemma WriteKeepsUnique(live: Live, rid: int, row: Row)
    requires Unique(live)
    ensures Unique((live - SameKey(live, row))[rid := row])
  {
    var now := (live - SameKey(live, row))[rid := row];
    assert forall r | r in now && r != rid :: r in live && now[r] == live[r] && r !in SameKey(live, row);
  }

  /** Main result on one write: it keeps the session covered, now and when what is in
      hand is committed, if and only if it is safe. */
  lemma WriteKeepsExactly(s: State, rid: int, row: Row, sid: int)
    requires Inv(s, sid) && Fresh(s.live, rid)
    ensures Inv(Apply(s, Write(rid, row)), sid) <==> Safe(s, Write(rid, row), sid)
  {
    var t := Apply(s, Write(rid, row));
    ReachedIsTheCursorAfterCommit(s, sid);
    assert Apply(t, Commit).data == Apply(s, Commit).data;
    WriteKeepsUnique(s.live, rid, row);
    if row.sid == sid {
      CoveredExactlyWhenAhead(s.live, s.data, rid, row);
      CoveredExactlyWhenAhead(s.live, Apply(s, Commit).data, rid, row);
    } else {
      OtherWritesKeepCovered(s.live, s.data, rid, row, sid);
      OtherWritesKeepCovered(s.live, Apply(s, Commit).data, rid, row, sid);
    }
  }

  lemma PruneKeepsInv(s: State, victim: int, rids: set<int>, sid: int)
    requires Inv(s, sid)
    ensures Inv(Apply(s, Prune(victim, rids)), sid)
  {
    var t := Apply(s, Prune(victim, rids));
    assert Apply(t, Commit).data == Apply(s, Commit).data;
    assert forall r | r in t.live :: r in s.live && t.live[r] == s.live[r];
  }

  lemma FetchKeepsInv(s: State, asked: int, sid: int)
    requires Inv(s, sid)
    ensures Inv(Apply(s, Fetch(asked)), sid)
  {
    var at := s.data.Cursor(asked);
    var got := Query(s.live, asked, at);
    QueryIsExact(s.live, asked, at);
    if got != [] {
      if asked == sid {
        FetchedIsInHand(s.live, s.data, sid, got);
        CommitOwn(s.live, s.data, Batch(sid, got));
      } else {
        CommitOther(s.live, s.data, Batch(asked, got), sid);
      }
    }
  }

  lemma FetchedIsInHand(live: Live, d: Dataset, sid: int, got: seq<Read>)
    requires Unique(live) && got == Query(live, sid, d.Cursor(sid)) && got != []
    ensures InHand(live, d, Batch(sid, got))
  {
    QueryIsExact(live, sid, d.Cursor(sid));
  }

  /** A query returns live rows of the session past the cursor, in order, and all
      of them up to the last it returns. */
  lemma QueryIsExact(live: Live, sid: int, at: int)
    ensures var got := Query(live, sid, at);
      && (forall i | 0 <= i < |got| ::
            got[i].rid in live && got[i].row == live[got[i].rid] && got[i].row.sid == sid && got[i].rid > at)
      && (forall i, j | 0 <= i < j < |got| :: got[i].rid < got[j].rid)
      && (got != [] ==> forall r | r in live && live[r].sid == sid && at < r <= got[|got| - 1].rid ::
            Read(r, live[r]) in got)
      && (got == [] ==> Past(live, sid, at) == {})
  {
    var rids, got := Selected(live, sid, at), Query(live, sid, at);
    QueryReads(live, sid, at);
    if got != [] {
      forall r | r in live && live[r].sid == sid && at < r <= rids[|rids| - 1] ensures Read(r, live[r]) in got {
        QuerySkipsNothing(live, sid, at, r);
      }
    }
  }

  lemma QueryReads(live: Live, sid: int, at: int)
    ensures var got, rids := Query(live, sid, at), Selected(live, sid, at);
      |got| == |rids| && forall i | 0 <= i < |got| ::
        rids[i] in live && live[rids[i]].sid == sid && rids[i] > at && got[i] == Read(rids[i], live[rids[i]])
  {
    var rids := Selected(live, sid, at);
    forall i | 0 <= i < |rids|
      ensures rids[i] in Past(live, sid, at)
    {
      assert rids[i] in rids;
    }
  }

  lemma QuerySkipsNothing(live: Live, sid: int, at: int, r: int)
    requires r in live && live[r].sid == sid && r > at && Selected(live, sid, at) != []
    requires
      && var rids := Selected(live, sid, at);
      && r <= rids[|rids| - 1]
    ensures Read(r, live[r]) in Query(live, sid, at)
  {
    var all, rids := Ascending(Past(live, sid, at)), Selected(live, sid, at);
    assert r in Past(live, sid, at) && r in all;
    var k :| 0 <= k < |all| && all[k] == r;
    assert k < |rids|;
    assert Query(live, sid, at)[k] == Read(r, live[r]);
  }

  lemma {:induction false} PutAllPuts(keyed: map<(int, int), int>, got: seq<Read>, sid: int)
    requires forall i | 0 <= i < |got| :: got[i].row.sid == sid
    requires forall i, j | 0 <= i < j < |got| :: got[i].row.key != got[j].row.key
    ensures forall i | 0 <= i < |got| :: Copied(PutAll(keyed, got), got[i].row)
    ensures forall s: int, k: int :: (forall i | 0 <= i < |got| :: (s, k) != (sid, got[i].row.key)) ==>
              ((s, k) in PutAll(keyed, got) <==> (s, k) in keyed)
              && ((s, k) in keyed ==> PutAll(keyed, got)[(s, k)] == keyed[(s, k)])
  {
    if got == [] {
    } else {
      PutAllPuts(keyed, got[..|got| - 1], sid);
    }
  }

  lemma {:induction false} OtherKeysStay(keyed: map<(int, int), int>, got: seq<Read>, sid: int, other: int)
    requires sid != other && forall i | 0 <= i < |got| :: got[i].row.sid == other
    ensures forall k: int :: ((sid, k) in PutAll(keyed, got) <==> (sid, k) in keyed)
              && ((sid, k) in keyed ==> PutAll(keyed, got)[(sid, k)] == keyed[(sid, k)])
  {
    if got == [] {
    } else {
      OtherKeysStay(keyed, got[..|got| - 1], sid, other);
    }
  }

  lemma CommitOwn(live: Live, d: Dataset, b: Batch)
    requires InHand(live, d, b) && Covered(live, d, b.sid)
    ensures Covered(live, Committed(d, b.sid, b.got), b.sid)
  {
    var e := Committed(d, b.sid, b.got);
    forall r | r in live && live[r].sid == b.sid && r <= e.Cursor(b.sid)
      ensures Copied(e.keyed, live[r])
    {
      RowIsCommitted(live, d, b, r);
    }
  }

  lemma RowIsCommitted(live: Live, d: Dataset, b: Batch, r: int)
    requires InHand(live, d, b) && Covered(live, d, b.sid)
    requires r in live && live[r].sid == b.sid && r <= b.got[|b.got| - 1].rid
    ensures Copied(PutAll(d.keyed, b.got), live[r])
  {
    PutAllPuts(d.keyed, b.got, b.sid);
    if r > d.Cursor(b.sid) {
      var i :| 0 <= i < |b.got| && b.got[i] == Read(r, live[r]);
      assert Copied(PutAll(d.keyed, b.got), b.got[i].row);
    } else {
      assert Copied(d.keyed, live[r]);
    }
  }

  lemma CommitOther(live: Live, d: Dataset, b: Batch, sid: int)
    requires b.sid != sid && b.got != [] && forall i | 0 <= i < |b.got| :: b.got[i].row.sid == b.sid
    requires Covered(live, d, sid)
    ensures Covered(live, Committed(d, b.sid, b.got), sid)
  {
    OtherKeysStay(d.keyed, b.got, sid, b.sid);
    var e := Committed(d, b.sid, b.got);
    forall r | r in live && live[r].sid == sid && r <= e.Cursor(sid) ensures Copied(e.keyed, live[r]) {
      assert Copied(d.keyed, live[r]);
    }
  }

  lemma ShorterRun(steps: seq<Step>)
    requires steps != [] && IsRun(steps)
    ensures var n := |steps| - 1; IsRun(steps[..n]) && Enabled(After(steps[..n]), steps[n])
  {
    var n := |steps| - 1;
    forall i | 0 <= i < n ensures Enabled(After(steps[..n][..i]), steps[..n][i]) {
      assert steps[..n][..i] == steps[..i];
    }
  }

  /** Every row of the session is written past what has been read of it. */
  predicate AllLandAhead(steps: seq<Step>, sid: int) {
    forall i | 0 <= i < |steps| :: LandsAhead(After(steps[..i]), steps[i], sid)
  }

  ghost predicate AllSafe(steps: seq<Step>, sid: int) {
    forall i | 0 <= i < |steps| :: Safe(After(steps[..i]), steps[i], sid)
  }

  lemma StepKeepsExactly(s: State, step: Step, sid: int)
    requires Inv(s, sid) && Enabled(s, step)
    ensures Inv(Apply(s, step), sid) <==> Safe(s, step, sid)
  {
    match step
    case Write(rid, row) => WriteKeepsExactly(s, rid, row, sid);
    case Prune(victim, rids) => PruneKeepsInv(s, victim, rids, sid);
    case Fetch(asked) => FetchKeepsInv(s, asked, sid);
    case Commit =>
    case Crash =>
  }

  lemma ShorterSafe(steps: seq<Step>, sid: int)
    requires steps != []
    ensures AllSafe(steps, sid) <==>
            AllSafe(steps[..|steps| - 1], sid) && Safe(After(steps[..|steps| - 1]), steps[|steps| - 1], sid)
  {
    var n := |steps| - 1;
    forall i | 0 <= i < n
      ensures Safe(After(steps[..n][..i]), steps[..n][i], sid) <==> Safe(After(steps[..i]), steps[i], sid)
    {
      assert steps[..n][..i] == steps[..i];
    }
  }

  lemma {:induction false} InvHolds(steps: seq<Step>, sid: int)
    requires IsRun(steps) && AllSafe(steps, sid)
    ensures Inv(After(steps), sid)
  {
    if steps == [] {
    } else {
      var n := |steps| - 1;
      ShorterRun(steps);
      ShorterSafe(steps, sid);
      InvHolds(steps[..n], sid);
      StepKeepsExactly(After(steps[..n]), steps[n], sid);
    }
  }

  /** Everything but coverage holds in every run. */
  lemma {:induction false} RunsAreWellRead(steps: seq<Step>)
    requires IsRun(steps)
    ensures Unique(After(steps).live) && WellRead(After(steps))
  {
    if steps == [] {
    } else {
      var n := |steps| - 1;
      var s, step := After(steps[..n]), steps[n];
      ShorterRun(steps);
      RunsAreWellRead(steps[..n]);
      if step.Write? {
        WriteKeepsUnique(s.live, step.rid, step.row);
      } else if step.Fetch? {
        QueryIsExact(s.live, step.sid, s.data.Cursor(step.sid));
      }
    }
  }

  ghost predicate CoveredThroughout(steps: seq<Step>, sid: int) {
    forall n | 0 <= n <= |steps| :: CoveredOnCommit(After(steps[..n]), sid)
  }

  /** Main result over every run, whatever is pruned: the session is covered all along,
      also if what is in hand were committed at any point, if and only if every write to
      it was safe where it was made. */
  lemma {:induction false} CoveredExactlyWhenSafe(steps: seq<Step>, sid: int)
    requires IsRun(steps)
    ensures CoveredThroughout(steps, sid) <==> AllSafe(steps, sid)
  {
    if steps == [] {
      assert steps[..0] == [];
    } else {
      var n := |steps| - 1;
      ShorterRun(steps);
      ShorterSafe(steps, sid);
      ShorterCovered(steps, sid);
      CoveredExactlyWhenSafe(steps[..n], sid);
      RunsAreWellRead(steps[..n]);
      RunsAreWellRead(steps);
      assert steps[..n][..n] == steps[..n];
      if CoveredOnCommit(After(steps[..n]), sid) {
        StepKeepsExactly(After(steps[..n]), steps[n], sid);
      }
    }
  }

  lemma {:induction false} ShorterCovered(steps: seq<Step>, sid: int)
    requires steps != []
    ensures CoveredThroughout(steps, sid) <==>
            CoveredThroughout(steps[..|steps| - 1], sid) && CoveredOnCommit(After(steps), sid)
  {
    var k := |steps| - 1;
    assert steps[..k + 1] == steps;
    forall n | 0 <= n <= k
      ensures CoveredOnCommit(After(steps[..k][..n]), sid) <==> CoveredOnCommit(After(steps[..n]), sid)
    {
      assert steps[..k][..n] == steps[..n];
    }
  }

  // ------------------------------------------------------------------
  // A session that is not pruned.
  // ------------------------------------------------------------------

  /** Some live row of the session is at or past `at`: no new row can land below. */
  ghost predicate Anchored(live: Live, sid: int, at: int) {
    at == -1 || exists r :: r in live && live[r].sid == sid && at <= r
  }

  ghost predicate KeyLive(live: Live, sid: int, k: int) {
    exists r :: r in live && live[r].sid == sid && live[r].key == k
  }

  /** What has been read of the session is still there, perhaps under a newer row. */
  ghost predicate Kept(s: State, sid: int) {
    && Anchored(s.live, sid, s.data.Cursor(sid)) && Anchored(s.live, sid, Reached(s, sid))
    && (forall k: int | (sid, k) in s.data.keyed :: KeyLive(s.live, sid, k))
    && (s.pending.Some? && s.pending.value.sid == sid ==>
          forall i | 0 <= i < |s.pending.value.got| :: KeyLive(s.live, sid, s.pending.value.got[i].row.key))
    && (s.pending.Some? ==> forall i | 0 <= i < |s.pending.value.got| ::
          s.pending.value.got[i].row.sid == s.pending.value.sid)
  }

  lemma AnchorSurvivesWrite(live: Live, rid: int, row: Row, sid: int, at: int)
    requires Anchored(live, sid, at) && Fresh(live, rid)
    ensures Anchored((live - SameKey(live, row))[rid := row], sid, at)
    ensures row.sid == sid ==> rid > at
  {
    var now := (live - SameKey(live, row))[rid := row];
    if at != -1 {
      var r :| r in live && live[r].sid == sid && at <= r;
      if r in SameKey(live, row) {
        assert rid in now && now[rid].sid == sid && at <= rid;
      } else {
        assert r in now && now[r].sid == sid && at <= r;
      }
    }
  }

  lemma KeySurvivesWrite(live: Live, rid: int, row: Row, sid: int, k: int)
    requires KeyLive(live, sid, k) && Fresh(live, rid)
    ensures KeyLive((live - SameKey(live, row))[rid := row], sid, k)
  {
    var now := (live - SameKey(live, row))[rid := row];
    var r :| r in live && live[r].sid == sid && live[r].key == k;
    if r in SameKey(live, row) {
      assert rid in now && now[rid].sid == sid && now[rid].key == k;
    } else {
      assert r in now && now[r] == live[r];
    }
  }

  lemma WriteKeeps(s: State, rid: int, row: Row, sid: int)
    requires Kept(s, sid) && Fresh(s.live, rid)
    ensures Kept(Apply(s, Write(rid, row)), sid) && LandsAhead(s, Write(rid, row), sid)
  {
    var now := Apply(s, Write(rid, row)).live;
    AnchorSurvivesWrite(s.live, rid, row, sid, s.data.Cursor(sid));
    AnchorSurvivesWrite(s.live, rid, row, sid, Reached(s, sid));
    forall k: int | KeyLive(s.live, sid, k) ensures KeyLive(now, sid, k) {
      KeySurvivesWrite(s.live, rid, row, sid, k);
    }
  }

  lemma PruneKeeps(s: State, victim: int, rids: set<int>, sid: int)
    requires Kept(s, sid) && victim != sid
    ensures Kept(Apply(s, Prune(victim, rids)), sid)
  {
    var now := Apply(s, Prune(victim, rids)).live;
    assert forall r | r in s.live && s.live[r].sid == sid :: r in now && now[r] == s.live[r];
    forall k: int | KeyLive(s.live, sid, k) ensures KeyLive(now, sid, k) {
      var r :| r in s.live && s.live[r].sid == sid && s.live[r].key == k;
      assert r in now;
    }
  }

  lemma FetchKeeps(s: State, asked: int, sid: int)
    requires Kept(s, sid)
    ensures Kept(Apply(s, Fetch(asked)), sid)
  {
    QueryIsExact(s.live, asked, s.data.Cursor(asked));
    var got := Query(s.live, asked, s.data.Cursor(asked));
    if asked == sid {
      forall i | 0 <= i < |got| ensures KeyLive(s.live, sid, got[i].row.key) {
        assert got[i].rid in s.live;
      }
    }
  }

  lemma CommitKeeps(s: State, sid: int)
    requires Kept(s, sid)
    ensures Kept(Apply(s, Commit), sid)
  {
    if s.pending.Some? && s.pending.value.got != [] {
      var b := s.pending.value;
      if b.sid == sid {
        NewKeysAreRead(s.data.keyed, b.got);
      } else {
        OtherKeysStay(s.data.keyed, b.got, sid, b.sid);
      }
    }
  }

  lemma {:induction false} NewKeysAreRead(keyed: map<(int, int), int>, got: seq<Read>)
    ensures forall p: (int, int) | p in PutAll(keyed, got) ::
              p in keyed || exists i :: 0 <= i < |got| && p == (got[i].row.sid, got[i].row.key)
  {
    if got == [] {
    } else {
      var n := |got| - 1;
      NewKeysAreRead(keyed, got[..n]);
      forall p: (int, int) | p in PutAll(keyed, got) && p !in keyed
        ensures exists i :: 0 <= i < |got| && p == (got[i].row.sid, got[i].row.key)
      {
        if p in PutAll(keyed, got[..n]) {
          var i :| 0 <= i < n && p == (got[..n][i].row.sid, got[..n][i].row.key);
          assert got[i] == got[..n][i];
        } else {
          assert p == (got[n].row.sid, got[n].row.key);
        }
      }
    }
  }

  lemma StepKeeps(s: State, step: Step, sid: int)
    requires Kept(s, sid) && Enabled(s, step) && (step.Prune? ==> step.victim != sid)
    ensures Kept(Apply(s, step), sid) && LandsAhead(s, step, sid)
  {
    match step
    case Write(rid, row) => WriteKeeps(s, rid, row, sid);
    case Prune(victim, rids) => PruneKeeps(s, victim, rids, sid);
    case Fetch(asked) => FetchKeeps(s, asked, sid);
    case Commit => CommitKeeps(s, sid);
    case Crash =>
  }

  lemma {:induction false} SparedIsKept(steps: seq<Step>, sid: int)
    requires IsRun(steps) && Spares(steps, sid)
    ensures Kept(After(steps), sid) && AllLandAhead(steps, sid)
  {
    if steps == [] {
    } else {
      var n := |steps| - 1;
      var s, step := After(steps[..n]), steps[n];
      ShorterRun(steps);
      SparedIsKept(steps[..n], sid);
      StepKeeps(s, step, sid);
      forall i | 0 <= i < |steps| ensures LandsAhead(After(steps[..i]), steps[i], sid) {
        if i < n {
          assert steps[..n][..i] == steps[..i] && steps[..n][i] == steps[i];
        }
      }
    }
  }

  lemma RunsAheadAreSafe(steps: seq<Step>, sid: int)
    requires IsRun(steps) && AllLandAhead(steps, sid)
    ensures AllSafe(steps, sid)
  {
    forall i | 0 <= i < |steps|
      ensures Safe(After(steps[..i]), steps[i], sid)
    {
      EarlierRun(steps, i);
      RunsAreWellRead(steps[..i]);
      ReachedIsTheCursorAfterCommit(After(steps[..i]), sid);
      assert LandsAhead(After(steps[..i]), steps[i], sid);
    }
  }

  lemma EarlierRun(steps: seq<Step>, n: nat)
    requires IsRun(steps) && n <= |steps|
    ensures IsRun(steps[..n])
  {
    assert forall i | 0 <= i < n :: steps[..n][..i] == steps[..i] && steps[..n][i] == steps[i];
  }

  /** Main result: in every run that prunes other sessions but not this one,
      however engine, tracker and crashes interleave and however rowids are reused,
      each live row at or below the session's cursor is in the dataset with its
      present content; and when a query finds nothing past the cursor, the dataset
      holds exactly the session's live rows. */
  lemma {:induction false} CursorsNeverMissARow(steps: seq<Step>, sid: int)
    requires IsRun(steps) && Spares(steps, sid)
    ensures var s := After(steps);
      && Covered(s.live, s.data, sid)
      && (Query(s.live, sid, s.data.Cursor(sid)) == [] ==>
            forall k: int, v: int :: (sid, k) in s.data.keyed && s.data.keyed[(sid, k)] == v <==>
              exists r :: r in s.live && s.live[r] == Row(sid, k, v))
  {
    SparedIsKept(steps, sid);
    RunsAheadAreSafe(steps, sid);
    InvHolds(steps, sid);
    var s := After(steps);
    QueryIsExact(s.live, sid, s.data.Cursor(sid));
    if Query(s.live, sid, s.data.Cursor(sid)) == [] {
      forall r | r in s.live && s.live[r].sid == sid ensures Copied(s.data.keyed, s.live[r]) {
        assert r !in Past(s.live, sid, s.data.Cursor(sid));
      }
    }
  }

  // ------------------------------------------------------------------
  // What a pass counts.
  // ------------------------------------------------------------------

  /** The count returned is that of the rows written, whatever the live table answers; nothing
      counted means nothing done. */
  lemma {:induction false} CountIsWhatWasCopied(d: Dataset, sid: int, feed: seq<Answer>)
    ensures
      && var (end, n) := CopyPass(d, sid, feed);
      && |end.loose| == |d.loose| + n && end.loose[..|d.loose|] == d.loose && (n == 0 ==> end == d)
    decreases |feed|
  {
    if feed != [] {
      var got := feed[0](d.Cursor(sid));
      if got != [] && |got| >= BATCH {
        var next := Committed(d, sid, got);
        CountIsWhatWasCopied(next, sid, feed[1..]);
        var end := CopyPass(next, sid, feed[1..]).0;
        assert end.loose[..|d.loose|] == end.loose[..|next.loose|][..|d.loose|] == d.loose;
      }
    }
  }

  lemma {:induction false} SetOfIncreasing(s: seq<int>)
    requires StrictlyIncreasing(s)
    ensures |(set x | x in s)| == |s|
  {
    if s == [] {
    } else {
      var n := |s| - 1;
      SetOfIncreasing(s[..n]);
      assert s == s[..n] + [s[n]];
      assert (set x | x in s) == (set x | x in s[..n]) + {s[n]};
      assert s[n] !in s[..n];
    }
  }

  /** The first `n` members of a set in order, and those past them. */
  lemma FirstOfAll(members: set<int>, all: seq<int>, n: nat)
    requires StrictlyIncreasing(all) && (forall r :: r in all <==> r in members) && 0 < n <= |all|
    ensures
      && var read, left := (set r | r in all[..n]), (set r | r in members && r > all[n - 1]);
      && members == read + left && read !! left && |read| == n && (n == |all| ==> left == {})
  {
    SetOfIncreasing(all[..n]);
    forall r | r in members && r <= all[n - 1]
      ensures r in all[..n]
    {
      var k :| 0 <= k < |all| && all[k] == r;
      assert all[..n][k] == r;
    }
    forall r | r in all[..n]
      ensures r in members && r <= all[n - 1]
    {
      var k :| 0 <= k < n && all[..n][k] == r;
      assert all[k] == r;
    }
    if n == |all| {
      assert all[..n] == all;
    }
  }

  /** A query takes the first rows off those past the cursor: a full batch of them, or all. */
  lemma SelectedIsTheFirst(live: Live, sid: int, at: int)
    requires Selected(live, sid, at) != []
    ensures
      && var rids := Selected(live, sid, at);
      && var left := Past(live, sid, rids[|rids| - 1]);
      && |Past(live, sid, at)| == |rids| + |left| && |rids| <= BATCH && (|rids| < BATCH ==> left == {})
  {
    var past, rids := Past(live, sid, at), Selected(live, sid, at);
    var n, last := |rids|, rids[|rids| - 1];
    FirstOfAll(past, Ascending(past), n);
    assert last in rids;
    PastIsPast(live, sid, at, last);
    var read := set r | r in Ascending(past)[..n];
    assert |past| == |read| + |Past(live, sid, last)|;
  }

  lemma PastIsPast(live: Live, sid: int, at: int, last: int)
    requires at < last
    ensures Past(live, sid, last) == set r | r in Past(live, sid, at) && r > last
  {
  }

  /** One batch leaves that many rows fewer past the cursor, and none if it was not full. */
  lemma BatchMovesOn(live: Live, d: Dataset, sid: int)
    requires Query(live, sid, d.Cursor(sid)) != []
    ensures
      && var got := Query(live, sid, d.Cursor(sid));
      && var next := Committed(d, sid, got);
      && |Past(live, sid, next.Cursor(sid))| == |Past(live, sid, d.Cursor(sid))| - |got|
      && (|got| < BATCH ==> Past(live, sid, next.Cursor(sid)) == {})
  {
    var rids, got := Selected(live, sid, d.Cursor(sid)), Query(live, sid, d.Cursor(sid));
    SelectedIsTheFirst(live, sid, d.Cursor(sid));
    assert Committed(d, sid, got).Cursor(sid) == rids[|rids| - 1];
  }

  /** The pass has copied `n` rows, none is left past the cursor, and the dataset has all. */
  ghost predicate AllCopied(live: Live, sid: int, n: nat, end: (Dataset, nat)) {
    && end.1 == n && Past(live, sid, end.0.Cursor(sid)) == {}
    && forall r | r in live && live[r].sid == sid :: Copied(end.0.keyed, live[r])
  }

  /** Main result: over a live table that stands still, a pass that is not cut off counts
      exactly the rows past the cursor and leaves none; with what was covered before, the
      dataset then has every row of the session. */
  lemma {:induction false} StillTableIsCopied(live: Live, d: Dataset, sid: int, feed: seq<Answer>)
    requires Unique(live) && Covered(live, d, sid)
    requires forall i | 0 <= i < |feed| :: feed[i] == AnswerOf(live, sid)
    requires |feed| * BATCH > |Past(live, sid, d.Cursor(sid))|
    ensures AllCopied(live, sid, |Past(live, sid, d.Cursor(sid))|, CopyPass(d, sid, feed))
    decreases |feed|
  {
    var at := d.Cursor(sid);
    var got := Query(live, sid, at);
    assert feed[0](at) == got;
    if got == [] {
      QueryIsExact(live, sid, at);
      AllIsCovered(live, d, sid);
    } else {
      var next := Committed(d, sid, got);
      OneBatch(live, d, sid);
      if |got| < BATCH {
        AllIsCovered(live, next, sid);
      } else {
        StillTableIsCopied(live, next, sid, feed[1..]);
        FullBatchAndTheRest(live, d, sid, feed, |Past(live, sid, next.Cursor(sid))|);
      }
    }
  }

  lemma {:induction false} FullBatchAndTheRest(live: Live, d: Dataset, sid: int, feed: seq<Answer>, n: nat)
    requires feed != [] && |feed[0](d.Cursor(sid))| >= BATCH
    requires AllCopied(live, sid, n, CopyPass(Committed(d, sid, feed[0](d.Cursor(sid))), sid, feed[1..]))
    ensures AllCopied(live, sid, |feed[0](d.Cursor(sid))| + n, CopyPass(d, sid, feed))
  {
  }

  lemma OneBatch(live: Live, d: Dataset, sid: int)
    requires Unique(live) && Covered(live, d, sid) && Query(live, sid, d.Cursor(sid)) != []
    ensures
      && var got := Query(live, sid, d.Cursor(sid));
      && var next := Committed(d, sid, got);
      && |got| <= BATCH && Covered(live, next, sid)
      && |Past(live, sid, next.Cursor(sid))| == |Past(live, sid, d.Cursor(sid))| - |got|
      && (|got| < BATCH ==> Past(live, sid, next.Cursor(sid)) == {})
  {
    SelectedIsTheFirst(live, sid, d.Cursor(sid));
    BatchMovesOn(live, d, sid);
    BatchCovers(live, d, sid);
  }

  lemma BatchCovers(live: Live, d: Dataset, sid: int)
    requires Unique(live) && Covered(live, d, sid) && Query(live, sid, d.Cursor(sid)) != []
    ensures Covered(live, Committed(d, sid, Query(live, sid, d.Cursor(sid))), sid)
  {
    var got := Query(live, sid, d.Cursor(sid));
    FetchedIsInHand(live, d, sid, got);
    CommitOwn(live, d, Batch(sid, got));
  }

  lemma AllIsCovered(live: Live, d: Dataset, sid: int)
    requires Covered(live, d, sid) && Past(live, sid, d.Cursor(sid)) == {}
    ensures forall r | r in live && live[r].sid == sid :: Copied(d.keyed, live[r])
  {
    forall r | r in live && live[r].sid == sid
      ensures Copied(d.keyed, live[r])
    {
      assert r !in Past(live, sid, d.Cursor(sid));
    }
  }

  // ------------------------------------------------------------------
  // Tables without a key: every row is copied exactly once.
  // ------------------------------------------------------------------

  function OfSession(copies: seq<Read>, sid: int): seq<Read> {
    if copies == [] then []
    else
      var c := copies[|copies| - 1];
      OfSession(copies[..|copies| - 1], sid) + if c.row.sid == sid then [c] else []
  }

  /** `copies` are rows of the session with a rowid in (from, to], among them every live
      one, each once and in rowid order; if the session was `spared`, they are all live. */
  ghost predicate Lists(copies: seq<Read>, live: Live, sid: int, from: int, to: int, spared: bool) {
    && (forall i, j | 0 <= i < j < |copies| :: copies[i].rid < copies[j].rid)
    && (forall i | 0 <= i < |copies| :: copies[i].row.sid == sid && from < copies[i].rid <= to)
    && (forall i | 0 <= i < |copies| && copies[i].rid in live && live[copies[i].rid].sid == sid ::
          copies[i].row == live[copies[i].rid])
    && (spared ==> forall i | 0 <= i < |copies| :: copies[i].rid in live && live[copies[i].rid].sid == sid)
    && (forall r | r in live && live[r].sid == sid && from < r <= to :: Read(r, live[r]) in copies)
  }

  ghost predicate Exact(s: State, sid: int, spared: bool) {
    && Lists(OfSession(s.data.loose, sid), s.live, sid, -1, s.data.Cursor(sid), spared)
    && s.data.Cursor(sid) >= -1
    && (s.pending.Some? && s.pending.value.sid == sid ==>
          && s.pending.value.got != []
          && Lists(s.pending.value.got, s.live, sid, s.data.Cursor(sid), Reached(s, sid), spared))
    && (s.pending.Some? ==> forall i | 0 <= i < |s.pending.value.got| ::
          s.pending.value.got[i].row.sid == s.pending.value.sid)
  }

  /** A table without a key replaces nothing. */
  predicate AddsOnly(steps: seq<Step>) {
    forall i | 0 <= i < |steps| :: steps[i].Write? ==> SameKey(After(steps[..i]).live, steps[i].row) == {}
  }

  lemma ListsSurvives(copies: seq<Read>, live: Live, now: Live, sid: int, from: int, to: int, spared: bool)
    requires Lists(copies, live, sid, from, to, spared)
    requires spared ==> forall r | r in live && live[r].sid == sid :: r in now && now[r] == live[r]
    requires forall r | r in now && now[r].sid == sid && r !in live :: r > to
    requires forall r | r in now && r in live :: now[r] == live[r]
    ensures Lists(copies, now, sid, from, to, spared)
  {
  }

  lemma {:induction false} OfSessionAppend(a: seq<Read>, b: seq<Read>, sid: int)
    ensures OfSession(a + b, sid) == OfSession(a, sid) + OfSession(b, sid)
  {
    if b == [] {
      assert a + b == a;
    } else {
      var n := |b| - 1;
      OfSessionAppend(a, b[..n], sid);
      assert (a + b)[..|a + b| - 1] == a + b[..n];
    }
  }

  lemma {:induction false} OfSessionAllOrNone(b: seq<Read>, sid: int, of: int)
    requires forall i | 0 <= i < |b| :: b[i].row.sid == of
    ensures OfSession(b, sid) == if sid == of then b else []
  {
    if b == [] {
    } else {
      OfSessionAllOrNone(b[..|b| - 1], sid, of);
    }
  }

  lemma ListsAppend(a: seq<Read>, b: seq<Read>, live: Live, sid: int, from: int, mid: int, to: int, spared: bool)
    requires Lists(a, live, sid, from, mid, spared) && Lists(b, live, sid, mid, to, spared) && from <= mid <= to
    ensures Lists(a + b, live, sid, from, to, spared)
  {
    forall r | r in live && live[r].sid == sid && from < r <= to ensures Read(r, live[r]) in a + b {
      if r <= mid {
        assert Read(r, live[r]) in a;
      } else {
        assert Read(r, live[r]) in b;
      }
    }
  }

  lemma StepKeepsExact(s: State, step: Step, sid: int, spared: bool)
    requires Exact(s, sid, spared) && Enabled(s, step) && LandsAhead(s, step, sid)
    requires step.Write? ==> SameKey(s.live, step.row) == {}
    requires spared && step.Prune? ==> step.victim != sid
    ensures Exact(Apply(s, step), sid, spared)
  {
    match step
    case Write(rid, row) => EngineKeepsExact(s, step, sid, spared);
    case Prune(victim, rids) => EngineKeepsExact(s, step, sid, spared);
    case Fetch(asked) => FetchKeepsExact(s, asked, sid, spared);
    case Commit => CommitKeepsExact(s, sid, spared);
    case Crash =>
  }

  lemma FetchKeepsExact(s: State, asked: int, sid: int, spared: bool)
    requires Exact(s, sid, spared)
    ensures Exact(Apply(s, Fetch(asked)), sid, spared)
  {
    var at := s.data.Cursor(asked);
    QueryLists(s.live, asked, at);
    HoldKeepsExact(s, asked, Query(s.live, asked, at), sid, spared);
  }

  lemma QueryLists(live: Live, sid: int, at: int)
    ensures var got := Query(live, sid, at); got != [] ==> Lists(got, live, sid, at, got[|got| - 1].rid, true)
  {
    QueryIsExact(live, sid, at);
  }

  lemma HoldKeepsExact(s: State, asked: int, got: seq<Read>, sid: int, spared: bool)
    requires Exact(s, sid, spared)
    requires got != [] ==> Lists(got, s.live, asked, s.data.Cursor(asked), got[|got| - 1].rid, true)
    ensures Exact(s.(pending := if got == [] then None else Some(Batch(asked, got))), sid, spared)
  {
  }

  lemma EngineKeepsExact(s: State, step: Step, sid: int, spared: bool)
    requires Exact(s, sid, spared) && Enabled(s, step) && LandsAhead(s, step, sid) && (step.Write? || step.Prune?)
    requires step.Write? ==> SameKey(s.live, step.row) == {}
    requires spared && step.Prune? ==> step.victim != sid
    ensures Exact(Apply(s, step), sid, spared)
  {
    var now := Apply(s, step).live;
    ReachedIsPastTheCursor(s, sid, spared);
    EngineMoves(s, step, sid, spared);
    ListsSurvives(OfSession(s.data.loose, sid), s.live, now, sid, -1, s.data.Cursor(sid), spared);
    if s.pending.Some? && s.pending.value.sid == sid {
      ListsSurvives(s.pending.value.got, s.live, now, sid, s.data.Cursor(sid), Reached(s, sid), spared);
    }
  }

  lemma ReachedIsPastTheCursor(s: State, sid: int, spared: bool)
    requires Exact(s, sid, spared)
    ensures s.data.Cursor(sid) <= Reached(s, sid)
  {
    if s.pending.Some? && s.pending.value.sid == sid {
      var got := s.pending.value.got;
      assert got[|got| - 1].rid > s.data.Cursor(sid);
    }
  }

  /** What a step of the engine does to the rows of a table without a key. */
  lemma EngineMoves(s: State, step: Step, sid: int, spared: bool)
    requires Enabled(s, step) && LandsAhead(s, step, sid) && (step.Write? || step.Prune?)
    requires step.Write? ==> SameKey(s.live, step.row) == {}
    requires spared && step.Prune? ==> step.victim != sid
    ensures
      && var now := Apply(s, step).live;
      && (spared ==> forall r | r in s.live && s.live[r].sid == sid :: r in now && now[r] == s.live[r])
      && (forall r | r in now && now[r].sid == sid && r !in s.live :: r > Reached(s, sid))
      && (forall r | r in now && r in s.live :: now[r] == s.live[r])
  {
    assert step.Write? ==> s.live - SameKey(s.live, step.row) == s.live;
  }

  lemma CommitKeepsExact(s: State, sid: int, spared: bool)
    requires Exact(s, sid, spared)
    ensures Exact(Apply(s, Commit), sid, spared)
  {
    if s.pending.Some? && s.pending.value.got != [] {
      var b := s.pending.value;
      OfSessionGrows(s.data.loose, b.got, sid, b.sid);
      if b.sid == sid {
        OwnBatchKeepsExact(s, sid, spared);
      }
    }
  }

  lemma {:induction false} OfSessionGrows(loose: seq<Read>, got: seq<Read>, sid: int, of: int)
    requires forall i | 0 <= i < |got| :: got[i].row.sid == of
    ensures OfSession(loose + got, sid) == OfSession(loose, sid) + if sid == of then got else []
  {
    OfSessionAppend(loose, got, sid);
    OfSessionAllOrNone(got, sid, of);
  }

  lemma {:induction false} OwnBatchKeepsExact(s: State, sid: int, spared: bool)
    requires Exact(s, sid, spared) && s.pending.Some? && s.pending.value.sid == sid
    ensures
      && var got := s.pending.value.got;
      && Lists(OfSession(s.data.loose, sid) + got, s.live, sid, -1, got[|got| - 1].rid, spared)
      && got[|got| - 1].rid > s.data.Cursor(sid)
  {
    var got := s.pending.value.got;
    assert got[|got| - 1].rid > s.data.Cursor(sid);
    ListsAppend(
      OfSession(s.data.loose, sid), got, s.live, sid, -1, s.data.Cursor(sid), Reached(s, sid), spared);
  }

  lemma {:induction false} AheadIsExact(steps: seq<Step>, sid: int, spared: bool)
    requires IsRun(steps) && AllLandAhead(steps, sid) && AddsOnly(steps) && (spared ==> Spares(steps, sid))
    ensures Exact(After(steps), sid, spared)
  {
    if steps == [] {
    } else {
      var n := |steps| - 1;
      ShorterRun(steps);
      forall i | 0 <= i < n
        ensures LandsAhead(After(steps[..n][..i]), steps[..n][i], sid)
        ensures steps[..n][i].Write? ==> SameKey(After(steps[..n][..i]).live, steps[..n][i].row) == {}
      {
        assert steps[..n][..i] == steps[..i];
      }
      AheadIsExact(steps[..n], sid, spared);
      StepKeepsExact(After(steps[..n]), steps[n], sid, spared);
    }
  }

  /** Main result for tables without a key: in every run that spares the session,
      what the dataset has of it is, in order, the live rows up to its cursor, each
      copied exactly once, whatever crashes and batches went before. Where the session is
      pruned itself, the same holds of all rows copied and still live, as long as each
      write lands past what was read. */
  lemma {:induction false} LooseRowsAreCopiedOnce(steps: seq<Step>, sid: int)
    requires IsRun(steps) && AddsOnly(steps)
    ensures Spares(steps, sid) ==> Exact(After(steps), sid, true)
    ensures AllLandAhead(steps, sid) ==> Exact(After(steps), sid, false)
  {
    if Spares(steps, sid) {
      SparedIsKept(steps, sid);
      AheadIsExact(steps, sid, true);
    }
    if AllLandAhead(steps, sid) {
      AheadIsExact(steps, sid, false);
    }
  }

  /** One turn of the copying loop is a fetch and a commit. */
  lemma TurnIsFetchAndCommit(s: State, sid: int)
    ensures
      var got := AnswerOf(s.live, sid)(s.data.Cursor(sid));
      var end := Apply(Apply(s, Fetch(sid)), Commit);
      end.live == s.live && end.data == (if got == [] then s.data else Committed(s.data, sid, got))
  {
    HeldIsCommitted(s, sid, Query(s.live, sid, s.data.Cursor(sid)));
  }

  lemma HeldIsCommitted(s: State, sid: int, got: seq<Read>)
    ensures
      && var held := s.(pending := if got == [] then None else Some(Batch(sid, got)));
      && Apply(held, Commit).live == s.live
      && Apply(held, Commit).data == if got == [] then s.data else Committed(s.data, sid, got)
  {
  }

  // ------------------------------------------------------------------
  // A whole pass of the loop as steps of a run.
  // ------------------------------------------------------------------

  function ApplyAll(s: State, steps: seq<Step>): State {
    if steps == [] then s else Apply(ApplyAll(s, steps[..|steps| - 1]), steps[|steps| - 1])
  }

  lemma {:induction false} ApplyAllAppend(s: State, a: seq<Step>, b: seq<Step>)
    ensures ApplyAll(s, a + b) == ApplyAll(ApplyAll(s, a), b)
  {
    if b == [] {
      assert a + b == a;
    } else {
      var n := |b| - 1;
      assert (a + b)[..|a + b| - 1] == a + b[..n];
      ApplyAllAppend(s, a, b[..n]);
    }
  }

  predicate EngineOnly(steps: seq<Step>) {
    forall i | 0 <= i < |steps| :: steps[i].Write? || steps[i].Prune?
  }

  /** What the engine does in one turn of the loop: before its query, and between the
      query and the transaction. */
  datatype Meanwhile = Meanwhile(before: seq<Step>, between: seq<Step>)

  predicate EngineTurns(turns: seq<Meanwhile>) {
    forall i | 0 <= i < |turns| :: EngineOnly(turns[i].before) && EngineOnly(turns[i].between)
  }

  function TurnSteps(turn: Meanwhile, sid: int): seq<Step> {
    turn.before + [Fetch(sid)] + turn.between + [Commit]
  }

  function PassSteps(turns: seq<Meanwhile>, sid: int): seq<Step> {
    if turns == [] then [] else TurnSteps(turns[0], sid) + PassSteps(turns[1..], sid)
  }

  /** The live table's answers, as it stands at each query. */
  function Feed(s: State, turns: seq<Meanwhile>, sid: int): (feed: seq<Answer>)
    ensures |feed| == |turns|
    decreases |turns|
  {
    if turns == [] then []
    else
      [AnswerOf(ApplyAll(s, turns[0].before).live, sid)] + Feed(ApplyAll(s, TurnSteps(turns[0], sid)), turns[1..], sid)
  }

  lemma {:induction false} EngineLeavesTheTracker(s: State, steps: seq<Step>)
    requires EngineOnly(steps)
    ensures ApplyAll(s, steps).data == s.data && ApplyAll(s, steps).pending == s.pending
  {
    if steps == [] {
    } else {
      EngineLeavesTheTracker(s, steps[..|steps| - 1]);
    }
  }

  lemma {:induction false} OneTurn(s: State, turn: Meanwhile, sid: int)
    requires EngineOnly(turn.before) && EngineOnly(turn.between)
    ensures
      && var got := AnswerOf(ApplyAll(s, turn.before).live, sid)(s.data.Cursor(sid));
      && ApplyAll(s, TurnSteps(turn, sid)).data == if got == [] then s.data else Committed(s.data, sid, got)
  {
    var s1 := ApplyAll(s, turn.before);
    var s2 := Apply(s1, Fetch(sid));
    var s3 := ApplyAll(s2, turn.between);
    EngineLeavesTheTracker(s, turn.before);
    EngineLeavesTheTracker(s2, turn.between);
    var a := turn.before + [Fetch(sid)];
    assert a[..|a| - 1] == turn.before;
    ApplyAllAppend(s, a, turn.between);
    var b := a + turn.between + [Commit];
    assert b[..|b| - 1] == a + turn.between;
    assert ApplyAll(s, TurnSteps(turn, sid)) == Apply(s3, Commit);
  }

  /** The number of turns the loop makes. */
  function Rounds(d: Dataset, sid: int, feed: seq<Answer>): (n: nat)
    ensures n <= |feed|
    decreases |feed|
  {
    if feed == [] then 0
    else
      var got := feed[0](d.Cursor(sid));
      if |got| < BATCH then 1 else 1 + Rounds(Committed(d, sid, got), sid, feed[1..])
  }

  /** Main result: however the engine works meanwhile, a pass of the loop over the live
      table leaves the dataset that the same fetches and commits leave as steps of the
      run. */
  lemma {:induction false} PassIsPartOfARun(s: State, turns: seq<Meanwhile>, sid: int)
    requires EngineTurns(turns)
    ensures LoopIsSteps(s, turns, sid)
    decreases |turns|
  {
    if turns == [] {
    } else if |Feed(s, turns, sid)[0](s.data.Cursor(sid))| < BATCH {
      LastTurn(s, turns, sid);
    } else {
      PassIsPartOfARun(ApplyAll(s, TurnSteps(turns[0], sid)), turns[1..], sid);
      TurnBeforeOthers(s, turns, sid);
    }
  }

  predicate LoopIsSteps(s: State, turns: seq<Meanwhile>, sid: int) {
    var feed := Feed(s, turns, sid);
    var k := Rounds(s.data, sid, feed);
    CopyPass(s.data, sid, feed).0 == ApplyAll(s, PassSteps(turns[..k], sid)).data
  }

  lemma {:induction false} LastTurn(s: State, turns: seq<Meanwhile>, sid: int)
    requires EngineTurns(turns) && turns != [] && |Feed(s, turns, sid)[0](s.data.Cursor(sid))| < BATCH
    ensures LoopIsSteps(s, turns, sid)
  {
    OneTurn(s, turns[0], sid);
    LoopOneTurn(s.data, ApplyAll(s, TurnSteps(turns[0], sid)).data, sid, Feed(s, turns, sid));
    FirstTurn(s, turns, sid, 0);
    assert turns[1..][..0] == [];
  }

  lemma {:induction false} TurnBeforeOthers(s: State, turns: seq<Meanwhile>, sid: int)
    requires EngineTurns(turns) && turns != [] && |Feed(s, turns, sid)[0](s.data.Cursor(sid))| >= BATCH
    requires LoopIsSteps(ApplyAll(s, TurnSteps(turns[0], sid)), turns[1..], sid)
    ensures LoopIsSteps(s, turns, sid)
  {
    var t := ApplyAll(s, TurnSteps(turns[0], sid));
    OneTurn(s, turns[0], sid);
    LoopOneTurn(s.data, t.data, sid, Feed(s, turns, sid));
    FirstTurn(s, turns, sid, Rounds(t.data, sid, Feed(s, turns, sid)[1..]));
  }

  lemma {:induction false} LoopOneTurn(d: Dataset, now: Dataset, sid: int, feed: seq<Answer>)
    requires feed != []
    requires
      && var got := feed[0](d.Cursor(sid));
      && now == if got == [] then d else Committed(d, sid, got)
    ensures
      && var short := |feed[0](d.Cursor(sid))| < BATCH;
      && CopyPass(d, sid, feed).0 == (if short then now else CopyPass(now, sid, feed[1..]).0)
      && Rounds(d, sid, feed) == 1 + if short then 0 else Rounds(now, sid, feed[1..])
  {
  }

  lemma {:induction false} FirstTurn(s: State, turns: seq<Meanwhile>, sid: int, m: nat)
    requires m < |turns|
    ensures Feed(s, turns, sid)[1..] == Feed(ApplyAll(s, TurnSteps(turns[0], sid)), turns[1..], sid)
    ensures ApplyAll(s, PassSteps(turns[..m + 1], sid)) ==
            ApplyAll(ApplyAll(s, TurnSteps(turns[0], sid)), PassSteps(turns[1..][..m], sid))
  {
    assert turns[..m + 1][1..] == turns[1..][..m];
    ApplyAllAppend(s, TurnSteps(turns[0], sid), PassSteps(turns[1..][..m], sid));
  }

  // ------------------------------------------------------------------
  // A session that is pruned itself (crates/storage/src/retention.rs drops old
  // rows of a session that is kept): two runs in which a write is not safe.
  // ------------------------------------------------------------------

  /** A run with the session's own row pruned from the top of the table: the next
      row takes its rowid, lies below the cursor and is never copied. */
  lemma OwnPruningCanHideARow()
    ensures
      var steps := [Write(1, Row(7, 1, 10)), Fetch(7), Commit, Prune(7, {1}), Write(1, Row(7, 2, 20))];
      IsRun(steps) && !Covered(After(steps).live, After(steps).data, 7)
  {
    var w, f, c, p, v := Write(1, Row(7, 1, 10)), Fetch(7), Commit, Prune(7, {1}), Write(1, Row(7, 2, 20));
    UnfoldFive(w, f, c, p, v);
    FirstRowInHand();
    HiddenByTheRowid(Apply(Apply(START, w), f));
  }

  lemma HiddenByTheRowid(s: State)
    requires s == State(map[1 := Row(7, 1, 10)], START.data, Some(Batch(7, [Read(1, Row(7, 1, 10))])))
    requires PutAll(map[], [Read(1, Row(7, 1, 10))]) == map[(7, 1) := 10]
    ensures
      && var committed := Apply(s, Commit);
      && var pruned := Apply(committed, Prune(7, {1}));
      && var t := Apply(pruned, Write(1, Row(7, 2, 20)));
      && Enabled(s, Commit) && Enabled(committed, Prune(7, {1})) && Enabled(pruned, Write(1, Row(7, 2, 20)))
      && !Covered(t.live, t.data, 7)
  {
    var committed := Apply(s, Commit);
    assert committed.data.Cursor(7) == 1 && committed.data.keyed == map[(7, 1) := 10];
    var pruned := Apply(committed, Prune(7, {1}));
    assert pruned.live == map[] && Fresh(pruned.live, 1);
    var t := Apply(pruned, Write(1, Row(7, 2, 20)));
    assert t.live == map[1 := Row(7, 2, 20)] && 1 in t.live && !Copied(t.data.keyed, t.live[1]);
  }

  /** The same while the row is in hand: the next write is past the cursor, and the
      commit of what is in hand hides it. */
  lemma PruningInHandCanHideARow()
    ensures
      && var w, f, p, v := Write(1, Row(7, 1, 10)), Fetch(7), Prune(7, {1}), Write(1, Row(7, 2, 20));
      && IsRun([w, f, p, v, Commit])
      && After([w, f, p]).data.Cursor(7) < 1
      && Covered(After([w, f, p, v]).live, After([w, f, p, v]).data, 7)
      && !Covered(After([w, f, p, v, Commit]).live, After([w, f, p, v, Commit]).data, 7)
  {
    var w, f, p, v := Write(1, Row(7, 1, 10)), Fetch(7), Prune(7, {1}), Write(1, Row(7, 2, 20));
    FirstRowInHand();
    UnfoldFive(w, f, p, v, Commit);
    HiddenByTheCommit(Apply(Apply(START, w), f));
  }

  lemma HiddenByTheCommit(s: State)
    requires s == State(map[1 := Row(7, 1, 10)], START.data, Some(Batch(7, [Read(1, Row(7, 1, 10))])))
    requires PutAll(map[], [Read(1, Row(7, 1, 10))]) == map[(7, 1) := 10]
    ensures
      && var pruned := Apply(s, Prune(7, {1}));
      && var t := Apply(pruned, Write(1, Row(7, 2, 20)));
      && pruned.live == map[] && pruned.data.Cursor(7) < 1
      && Covered(t.live, t.data, 7)
      && !Covered(Apply(t, Commit).live, Apply(t, Commit).data, 7)
  {
    var pruned := Apply(s, Prune(7, {1}));
    assert pruned.live == map[];
    var t := Apply(pruned, Write(1, Row(7, 2, 20)));
    assert t.live == map[1 := Row(7, 2, 20)];
    var d := Apply(t, Commit).data;
    assert d == Dataset(map[(7, 1) := 10], [Read(1, Row(7, 1, 10))], map[7 := 1]);
    assert 1 in t.live && t.live[1].sid == 7 && 1 <= d.Cursor(7) && !Copied(d.keyed, t.live[1]);
  }

  lemma FirstRowInHand()
    ensures
      && var s := Apply(Apply(START, Write(1, Row(7, 1, 10))), Fetch(7));
      && s == State(map[1 := Row(7, 1, 10)], START.data, Some(Batch(7, [Read(1, Row(7, 1, 10))])))
      && PutAll(map[], [Read(1, Row(7, 1, 10))]) == map[(7, 1) := 10]
  {
    var s1 := Apply(START, Write(1, Row(7, 1, 10)));
    assert s1.live == map[1 := Row(7, 1, 10)];
    QueryOfOne(1, Row(7, 1, 10));
    PutOne(Row(7, 1, 10), 1);
  }

  lemma PutOne(row: Row, rid: int)
    ensures PutAll(map[], [Read(rid, row)]) == map[(row.sid, row.key) := row.val]
  {
    assert [Read(rid, row)][..0] == [];
  }

  lemma QueryOfOne(rid: nat, row: Row)
    ensures Query(map[rid := row], row.sid, -1) == [Read(rid, row)]
  {
    var live := map[rid := row];
    QueryIsExact(live, row.sid, -1);
    assert Past(live, row.sid, -1) == {rid};
  }

  lemma UnfoldFive(a: Step, b: Step, c: Step, d: Step, e: Step)
    ensures After([a, b, c, d, e]) == Apply(Apply(Apply(Apply(Apply(START, a), b), c), d), e)
    ensures After([a, b, c]) == Apply(Apply(Apply(START, a), b), c)
    ensures After([a, b, c, d]) == Apply(Apply(Apply(Apply(START, a), b), c), d)
    ensures var s1 := Apply(START, a); var s2 := Apply(s1, b); var s3 := Apply(s2, c); var s4 := Apply(s3, d);
      IsRun([a, b, c, d, e]) <==>
        Enabled(START, a) && Enabled(s1, b) && Enabled(s2, c) && Enabled(s3, d) && Enabled(s4, e)
  {
    var steps := [a, b, c, d, e];
    assert steps[..0] == [] && steps[..1] == [a] && steps[..2] == [a, b] && steps[..3] == [a, b, c]
      && steps[..4] == [a, b, c, d];
    assert [a, b][..1] == [a] && [a, b, c][..2] == [a, b] && [a, b, c, d][..3] == [a, b, c];
    assert After([a]) == Apply(START, a) by { assert [a][..0] == []; }
    assert After([a, b]) == Apply(After([a]), b);
    assert After([a, b, c]) == Apply(After([a, b]), c);
    assert After([a, b, c, d]) == Apply(After([a, b, c]), d);
    if Enabled(After(steps[..0]), a) && Enabled(After(steps[..1]), b) && Enabled(After(steps[..2]), c)
       && Enabled(After(steps[..3]), d) && Enabled(After(steps[..4]), e) {
      forall i | 0 <= i < 5 ensures Enabled(After(steps[..i]), steps[i]) {
      }
    }
  }
}
