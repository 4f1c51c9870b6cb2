/** Copying one session's event log (scripts/live_tracker.py: copy_events, mirror).
    The engine appends events, packs the oldest into blocks and deletes them
    (crates/storage/src/store.rs: write_batch, compact, end_session); retention deletes
    old events and blocks of the session (crates/storage/src/retention.rs: prune). A pass
    of the tracker copies blocks past a rowid cursor, then loose events past a sequence
    number, and drops the loose copies a copied block holds. Engine, retention and tracker
    interleave between any two queries or transactions; the tracker may stop anywhere. */
module EventMirror {
  const BATCH := 2000

  /** Events by sequence number. */
  type Events = map<int, int>

  /** A row of the blocks table: packed events, the last of them `last`. */
  datatype Block = Block(rid: int, last: int, body: Events)

  /** `log` is every event ever recorded and `made` every block ever made; `loose` are
      the events in the live events table and `blocks` the live blocks. */
  datatype Engine = Engine(log: Events, loose: set<int>, blocks: set<Block>, made: set<Block>, ended: bool)

  datatype Dataset = Dataset(blocks: seq<Block>, blockCursor: int, events: Events, cursor: int, complete: bool)

  /** Where the pass over this session stands. `ended` was read when it began, `n`
      counts the blocks and events it copied; the rows it copied of other tables are
      counted in when it finishes. A held batch has been read and not yet committed. */
  datatype Pass =
    | Idle
    | OnBlocks(ended: bool, n: nat)
    | HoldBlocks(ended: bool, n: nat, rows: seq<Block>)
    | OnEvents(ended: bool, n: nat, packed: int, at: int)
    | HoldEvents(ended: bool, n: nat, packed: int, at: int, batch: Events, next: int)
    | Finishing(ended: bool, n: nat)

  datatype State = State(e: Engine, d: Dataset, pass: Pass)

  datatype Step =
    | Append(seqno: int, event: int)
    | Pack(rid: int, to: int)
    | End
    | Prune(events: set<int>, rids: set<int>)
    | Begin
    | FetchBlocks(rows: seq<Block>)
    | CommitBlocks
    | FetchEvents(next: int)
    | CommitEvents
    | Finish(others: nat)
    | Crash

  function Max(a: int, b: int): int {
    if a > b then a else b
  }

  /** `max(last_seq)` of some blocks. */
  function PackedTo(blocks: seq<Block>): int {
    if blocks == [] then -1 else Max(PackedTo(blocks[..|blocks| - 1]), blocks[|blocks| - 1].last)
  }

  /** The live events past `from`, up to `to`. */
  function Live(e: Engine, from: int, to: int): Events {
    map q | q in e.log && q in e.loose && from < q <= to :: e.log[q]
  }

  ghost predicate RidsIncrease(rows: seq<Block>) {
    forall i, j | 0 <= i < j < |rows| :: rows[i].rid < rows[j].rid
  }

  /** `rows` are the first live blocks past `cursor`, by rowid, all of them unless there
      are BATCH. */
  ghost predicate IsBlockQuery(rows: seq<Block>, live: set<Block>, cursor: int) {
    && |rows| <= BATCH && RidsIncrease(rows)
    && (forall i | 0 <= i < |rows| :: rows[i] in live && rows[i].rid > cursor)
    && (forall b | b in live && b.rid > cursor && (|rows| < BATCH || b.rid <= rows[|rows| - 1].rid) :: b in rows)
  }

  /** What each step needs. A query returns up to BATCH rows in order, and fewer
      only when there are no more; nothing is written to a session that has ended. */
  ghost predicate Enabled(s: State, step: Step) {
    match step
    case Append(q, _) => !s.e.ended && q >= 1 && forall p | p in s.e.log :: p < q
    case Pack(rid, to) => !s.e.ended && rid >= 0 && to in s.e.loose && forall b | b in s.e.blocks :: b.rid < rid
    case End => true
    case Prune(_, _) => true
    case Begin => s.pass.Idle? && !s.d.complete
    case FetchBlocks(rows) => s.pass.OnBlocks? && IsBlockQuery(rows, s.e.blocks, s.d.blockCursor)
    case CommitBlocks => s.pass.HoldBlocks?
    case FetchEvents(next) =>
      s.pass.OnEvents? && (
        var rows := Live(s.e, s.pass.at, next);
        && |rows| <= BATCH
        && (|rows| < BATCH ==> forall q | q in s.e.loose :: q <= next)
        && (if rows == map[] then next == s.pass.at else next in rows))
    case CommitEvents => s.pass.HoldEvents?
    case Finish(_) => s.pass.Finishing?
    case Crash => true
  }

  function StartEvents(d: Dataset, ended: bool, n: nat): Pass {
    OnEvents(ended, n, PackedTo(d.blocks), Max(d.cursor, PackedTo(d.blocks)))
  }

  function CommittedBlocks(d: Dataset, rows: seq<Block>): Dataset {
    if rows == [] then d else d.(blocks := d.blocks + rows, blockCursor := rows[|rows| - 1].rid)
  }

  /** One transaction: insert the batch, move the cursor, drop what a copied block
      holds. */
  function CommittedEvents(d: Dataset, packed: int, rows: Events, next: int): Dataset {
    d.(events := map q | q in d.events + rows && q > packed :: (d.events + rows)[q],
       cursor := if rows == map[] then d.cursor else next)
  }

  /** The block that packing up to `to` makes: the live events so far. */
  function NewBlock(e: Engine, rid: int, to: int): Block {
    Block(rid, to, Live(e, -1, to))
  }

  function Packed(e: Engine, rid: int, to: int): Engine {
    var b := NewBlock(e, rid, to);
    e.(loose := (set q | q in e.loose && q > to), blocks := e.blocks + {b}, made := e.made + {b})
  }

  function Pruned(e: Engine, events: set<int>, rids: set<int>): Engine {
    e.(loose := e.loose - events, blocks := (set b | b in e.blocks && b.rid !in rids))
  }

  ghost function Apply(s: State, step: Step): State
    requires Enabled(s, step)
  {
    match step
    case Append(q, v) => s.(e := s.e.(log := s.e.log[q := v], loose := s.e.loose + {q}))
    case Pack(rid, to) => s.(e := Packed(s.e, rid, to))
    case End => s.(e := s.e.(ended := true))
    case Prune(events, rids) => s.(e := Pruned(s.e, events, rids))
    case Begin => s.(pass := OnBlocks(s.e.ended, 0))
    case FetchBlocks(rows) =>
      s.(pass := if rows == [] then StartEvents(s.d, s.pass.ended, s.pass.n)
        else HoldBlocks(s.pass.ended, s.pass.n, rows))
    case CommitBlocks =>
      var d, n := CommittedBlocks(s.d, s.pass.rows), s.pass.n + |s.pass.rows|;
      s.(d := d, pass := if |s.pass.rows| < BATCH then StartEvents(d, s.pass.ended, n) else OnBlocks(s.pass.ended, n))
    case FetchEvents(next) =>
      var p := s.pass;
      s.(pass := HoldEvents(p.ended, p.n, p.packed, p.at, Live(s.e, p.at, next), next))
    case CommitEvents =>
      var p := s.pass;
      var n := p.n + |p.batch|;
      s.(d := CommittedEvents(s.d, p.packed, p.batch, p.next),
         pass := if |p.batch| < BATCH then Finishing(p.ended, n) else OnEvents(p.ended, n, p.packed, p.next))
    case Finish(others) =>
      s.(d := if s.pass.ended && s.pass.n + others == 0 then s.d.(complete := true) else s.d, pass := Idle)
    case Crash => s.(pass := Idle)
  }

  // ------------------------------------------------------------------
  // Invariants.
  // ------------------------------------------------------------------

  /** All events of `b` are later than those of `a`. */
  predicate After(b: Block, last: int) {
    forall q | q in b.body :: q > last
  }

  /** A block holds events of the log up to its last, none of them loose any more. */
  ghost predicate BlockOk(e: Engine, b: Block) {
    && b.rid >= 0 && b.last in b.body
    && (forall q | q in b.body :: q <= b.last && q in e.log && b.body[q] == e.log[q])
    && (forall q | q in e.loose :: q > b.last)
  }

  /** Blocks share no event, and a live one with a higher rowid is the later one. */
  ghost predicate EngineOk(e: Engine) {
    && e.loose <= e.log.Keys && (forall q | q in e.log :: q >= 1)
    && e.blocks <= e.made
    && (forall b | b in e.made :: BlockOk(e, b))
    && (forall a, b | a in e.made && b in e.made && a != b :: After(a, b.last) || After(b, a.last))
    && (forall a, b | a in e.blocks && b in e.blocks && a != b :: a.rid < b.rid ==> After(b, a.last))
    && (forall a, b | a in e.blocks && b in e.blocks && a != b :: a.rid != b.rid)
  }

  /** A sequence number reached by the tracker: none yet, or that of an event. */
  ghost predicate Known(e: Engine, q: int) {
    q == -1 || q in e.log
  }

  predicate SubLog(part: Events, log: Events) {
    forall q | q in part :: q in log && part[q] == log[q]
  }

  /** Live events up to `at` are in the dataset. */
  ghost predicate LooseCopied(e: Engine, d: Dataset, at: int) {
    forall q | q in e.loose && q <= at :: q in d.events
  }

  ghost predicate IsCursor(rows: seq<Block>, cursor: int) {
    cursor == if rows == [] then -1 else rows[|rows| - 1].rid
  }

  /** Copied blocks are the engine's, each once, in rowid order up to the cursor; a live
      block past the cursor is later than all of them. */
  ghost predicate BlocksCopied(e: Engine, d: Dataset) {
    && RidsIncrease(d.blocks) && IsCursor(d.blocks, d.blockCursor)
    && (forall i | 0 <= i < |d.blocks| :: d.blocks[i] in e.made)
    && (forall b | b in e.blocks && b.rid > d.blockCursor :: After(b, PackedTo(d.blocks)))
  }

  /** A block that the tracker will still find. */
  ghost predicate Ahead(e: Engine, d: Dataset, b: Block) {
    b in e.blocks && b.rid > d.blockCursor
  }

  ghost predicate NoneAhead(e: Engine, d: Dataset) {
    forall b | b in e.blocks :: b.rid <= d.blockCursor
  }

  /** All there is has been copied, and nothing is both loose and in a block. */
  ghost predicate Settled(e: Engine, d: Dataset) {
    && NoneAhead(e, d)
    && (forall q | q in e.loose :: q in d.events)
    && (forall q | q in d.events :: q > PackedTo(d.blocks))
  }

  ghost predicate BlocksHeld(e: Engine, d: Dataset, rows: seq<Block>) {
    && rows != [] && RidsIncrease(rows)
    && (forall i | 0 <= i < |rows| :: rows[i] in e.made && rows[i].rid > d.blockCursor)
    && (forall b, i | b in e.blocks && 0 <= i < |rows| && b.rid > rows[|rows| - 1].rid :: After(b, rows[i].last))
  }

  ghost predicate EventsHeld(e: Engine, p: Pass)
    requires p.HoldEvents?
  {
    && p.at <= p.next && Known(e, p.next)
    && SubLog(p.batch, e.log) && (forall q | q in p.batch :: p.at < q <= p.next)
    && (forall q | q in e.loose && p.at < q <= p.next :: q in p.batch)
    && (p.ended && |p.batch| < BATCH ==> forall q | q in e.loose :: q <= p.next)
  }

  ghost predicate EventsOk(e: Engine, d: Dataset, ended: bool, n: nat, packed: int, at: int) {
    && packed == PackedTo(d.blocks) <= at && Known(e, at) && LooseCopied(e, d, at)
    && (ended && n == 0 ==> NoneAhead(e, d))
  }

  ghost predicate PassOk(s: State) {
    && (s.pass.Idle? || (s.pass.ended ==> s.e.ended))
    && (match s.pass
        case Idle => true
        case OnBlocks(_, _) => true
        case HoldBlocks(_, _, rows) => BlocksHeld(s.e, s.d, rows)
        case OnEvents(ended, n, packed, at) => EventsOk(s.e, s.d, ended, n, packed, at)
        case HoldEvents(ended, n, packed, at, _, _) =>
          EventsOk(s.e, s.d, ended, n, packed, at) && EventsHeld(s.e, s.pass)
        case Finishing(ended, n) => ended && n == 0 ==> Settled(s.e, s.d))
  }

  /** What holds of the two databases, wherever the pass stands. */
  ghost predicate Sound(e: Engine, d: Dataset) {
    && EngineOk(e) && BlocksCopied(e, d)
    && SubLog(d.events, e.log) && Known(e, d.cursor) && LooseCopied(e, d, d.cursor)
  }

  ghost predicate Inv(s: State) {
    && Sound(s.e, s.d)
    && PassOk(s)
    && (s.d.complete ==> s.pass.Idle? && s.e.ended && Settled(s.e, s.d))
  }

  lemma {:induction false} PackedToIsMax(blocks: seq<Block>)
    ensures forall i | 0 <= i < |blocks| :: blocks[i].last <= PackedTo(blocks)
    ensures PackedTo(blocks) == -1 || exists i | 0 <= i < |blocks| :: PackedTo(blocks) == blocks[i].last
  {
    if blocks == [] {
    } else {
      var n := |blocks| - 1;
      PackedToIsMax(blocks[..n]);
      if PackedTo(blocks) != -1 && PackedTo(blocks) != blocks[n].last {
        var i :| 0 <= i < n && PackedTo(blocks[..n]) == blocks[..n][i].last;
        assert blocks[i].last == PackedTo(blocks);
      }
    }
  }

  /** A live event is later than everything packed. */
  lemma {:induction false} LooseIsLater(e: Engine, blocks: seq<Block>)
    requires EngineOk(e) && forall i | 0 <= i < |blocks| :: blocks[i] in e.made
    ensures Known(e, PackedTo(blocks)) && forall q | q in e.loose :: q > PackedTo(blocks)
  {
    PackedToIsMax(blocks);
    if PackedTo(blocks) != -1 {
      var i :| 0 <= i < |blocks| && PackedTo(blocks) == blocks[i].last;
      assert BlockOk(e, blocks[i]);
    }
  }

  lemma {:induction false} AfterAll(b: Block, blocks: seq<Block>, rows: seq<Block>)
    requires After(b, PackedTo(blocks)) && forall i | 0 <= i < |rows| :: After(b, rows[i].last)
    ensures After(b, PackedTo(blocks + rows))
  {
    if rows == [] {
      assert blocks + rows == blocks;
    } else {
      var n := |rows| - 1;
      AfterAll(b, blocks, rows[..n]);
      assert (blocks + rows)[..|blocks + rows| - 1] == blocks + rows[..n];
    }
  }

  lemma AppendKeepsEngine(e: Engine, q: int, v: int)
    requires EngineOk(e) && q >= 1 && forall p | p in e.log :: p < q
    ensures EngineOk(e.(log := e.log[q := v], loose := e.loose + {q}))
  {
    var now := e.(log := e.log[q := v], loose := e.loose + {q});
    forall b | b in now.made
      ensures BlockOk(now, b)
    {
      assert BlockOk(e, b);
    }
  }

  lemma AppendKeepsInv(s: State, q: int, v: int)
    requires Inv(s) && Enabled(s, Append(q, v))
    ensures Inv(Apply(s, Append(q, v)))
  {
    AppendKeepsEngine(s.e, q, v);
    AppendKeepsPass(s, q, v);
  }

  lemma AppendKeepsPass(s: State, q: int, v: int)
    requires PassOk(s) && Enabled(s, Append(q, v))
    ensures PassOk(Apply(s, Append(q, v)))
  {
  }

  lemma NewBlockOk(e: Engine, rid: int, to: int)
    requires EngineOk(e) && rid >= 0 && to in e.loose
    ensures BlockOk(Packed(e, rid, to), NewBlock(e, rid, to))
    ensures forall a | a in e.made :: BlockOk(Packed(e, rid, to), a) && After(NewBlock(e, rid, to), a.last)
  {
    forall a | a in e.made
      ensures BlockOk(Packed(e, rid, to), a) && After(NewBlock(e, rid, to), a.last)
    {
      assert BlockOk(e, a);
    }
  }

  lemma PackKeepsEngine(e: Engine, rid: int, to: int)
    requires EngineOk(e) && rid >= 0 && to in e.loose && forall b | b in e.blocks :: b.rid < rid
    ensures EngineOk(Packed(e, rid, to))
  {
    NewBlockOk(e, rid, to);
    var now := Packed(e, rid, to);
    assert now.made == e.made + {NewBlock(e, rid, to)};
    OneMoreApart(e.made, NewBlock(e, rid, to));
    OneMoreInOrder(e.blocks, NewBlock(e, rid, to));
  }

  lemma OneMoreApart(made: set<Block>, b: Block)
    requires forall a, c | a in made && c in made && a != c :: After(a, c.last) || After(c, a.last)
    requires forall a | a in made :: After(b, a.last)
    ensures forall a, c | a in made + {b} && c in made + {b} && a != c :: After(a, c.last) || After(c, a.last)
  {
  }

  lemma OneMoreInOrder(live: set<Block>, b: Block)
    requires forall a, c | a in live && c in live && a != c :: a.rid < c.rid ==> After(c, a.last)
    requires forall a, c | a in live && c in live && a != c :: a.rid != c.rid
    requires forall a | a in live :: a.rid < b.rid && After(b, a.last)
    ensures forall a, c | a in live + {b} && c in live + {b} && a != c :: a.rid < c.rid ==> After(c, a.last)
    ensures forall a, c | a in live + {b} && c in live + {b} && a != c :: a.rid != c.rid
  {
  }

  lemma PackKeepsSound(e: Engine, d: Dataset, rid: int, to: int)
    requires Sound(e, d) && rid >= 0 && to in e.loose && forall b | b in e.blocks :: b.rid < rid
    ensures Sound(Packed(e, rid, to), d)
  {
    PackKeepsEngine(e, rid, to);
    LooseIsLater(e, d.blocks);
  }

  lemma PackKeepsInv(s: State, rid: int, to: int)
    requires Inv(s) && Enabled(s, Pack(rid, to))
    ensures Inv(Apply(s, Pack(rid, to)))
  {
    PackKeepsSound(s.e, s.d, rid, to);
    PackKeepsPass(s, rid, to);
  }

  lemma PackKeepsPass(s: State, rid: int, to: int)
    requires Sound(s.e, s.d) && PassOk(s) && !s.e.ended && rid >= 0 && to in s.e.loose
    ensures PassOk(s.(e := Packed(s.e, rid, to)))
  {
    if s.pass.HoldBlocks? {
      NewBlockIsLater(s.e, rid, to, s.pass.rows);
    }
  }

  lemma NewBlockIsLater(e: Engine, rid: int, to: int, rows: seq<Block>)
    requires EngineOk(e) && rid >= 0 && to in e.loose && forall i | 0 <= i < |rows| :: rows[i] in e.made
    ensures forall i | 0 <= i < |rows| :: After(NewBlock(e, rid, to), rows[i].last)
  {
    NewBlockOk(e, rid, to);
  }

  lemma PruneKeepsInv(s: State, events: set<int>, rids: set<int>)
    requires Inv(s)
    ensures Inv(Apply(s, Prune(events, rids)))
  {
    PruneKeepsEngine(s.e, events, rids);
    PruneKeepsPass(s, events, rids);
  }

  lemma PruneKeepsPass(s: State, events: set<int>, rids: set<int>)
    requires PassOk(s)
    ensures PassOk(s.(e := Pruned(s.e, events, rids)))
  {
  }

  lemma PruneKeepsEngine(e: Engine, events: set<int>, rids: set<int>)
    requires EngineOk(e)
    ensures EngineOk(Pruned(e, events, rids))
  {
    var now := Pruned(e, events, rids);
    forall b | b in now.made
      ensures BlockOk(now, b)
    {
      assert BlockOk(e, b);
    }
  }

  lemma StartEventsIsOk(e: Engine, d: Dataset)
    requires Sound(e, d)
    ensures
      && var at := Max(d.cursor, PackedTo(d.blocks));
      && Known(e, at) && LooseCopied(e, d, at)
  {
    LooseIsLater(e, d.blocks);
  }

  lemma FetchBlocksKeepsInv(s: State, rows: seq<Block>)
    requires Inv(s) && Enabled(s, FetchBlocks(rows))
    ensures Inv(Apply(s, FetchBlocks(rows)))
  {
    if rows == [] {
      StartEventsIsOk(s.e, s.d);
    } else {
      FetchedIsHeld(s.e, s.d, rows);
    }
  }

  lemma FetchedIsHeld(e: Engine, d: Dataset, rows: seq<Block>)
    requires EngineOk(e) && rows != [] && IsBlockQuery(rows, e.blocks, d.blockCursor)
    ensures BlocksHeld(e, d, rows)
  {
    forall b, i | b in e.blocks && 0 <= i < |rows| && b.rid > rows[|rows| - 1].rid
      ensures After(b, rows[i].last)
    {
      assert i == |rows| - 1 || rows[i].rid < rows[|rows| - 1].rid;
    }
  }

  lemma CommitBlocksKeepsSound(e: Engine, d: Dataset, rows: seq<Block>)
    requires Sound(e, d) && BlocksHeld(e, d, rows)
    ensures Sound(e, CommittedBlocks(d, rows))
  {
    var f := CommittedBlocks(d, rows);
    JoinedRidsIncrease(d.blocks, rows, d.blockCursor);
    forall b | b in e.blocks && b.rid > f.blockCursor
      ensures After(b, PackedTo(f.blocks))
    {
      AfterAll(b, d.blocks, rows);
    }
  }

  lemma JoinedRidsIncrease(a: seq<Block>, b: seq<Block>, cursor: int)
    requires RidsIncrease(a) && IsCursor(a, cursor) && RidsIncrease(b) && forall i | 0 <= i < |b| :: b[i].rid > cursor
    ensures RidsIncrease(a + b)
  {
    forall i | 0 <= i < |a|
      ensures a[i].rid <= cursor
    {
      assert i == |a| - 1 || a[i].rid < a[|a| - 1].rid;
    }
  }

  lemma CommitBlocksKeepsInv(s: State)
    requires Inv(s) && Enabled(s, CommitBlocks)
    ensures Inv(Apply(s, CommitBlocks))
  {
    CommitBlocksKeepsSound(s.e, s.d, s.pass.rows);
    StartEventsIsOk(s.e, CommittedBlocks(s.d, s.pass.rows));
  }

  lemma FetchEventsKeepsInv(s: State, next: int)
    requires Inv(s) && Enabled(s, FetchEvents(next))
    ensures Inv(Apply(s, FetchEvents(next)))
  {
    var rows := Live(s.e, s.pass.at, next);
    if rows != map[] {
      assert next in rows;
    }
  }

  lemma CommitEventsKeepsSound(e: Engine, d: Dataset, p: Pass)
    requires p.HoldEvents? && Sound(e, d) && EventsOk(e, d, p.ended, p.n, p.packed, p.at) && EventsHeld(e, p)
    ensures
      && var f := CommittedEvents(d, p.packed, p.batch, p.next);
      && Sound(e, f)
      && LooseCopied(e, f, p.next)
  {
    LooseIsLater(e, d.blocks);
  }

  lemma CommitEventsKeepsInv(s: State)
    requires Inv(s) && Enabled(s, CommitEvents)
    ensures Inv(Apply(s, CommitEvents))
  {
    var p := s.pass;
    CommitEventsKeepsSound(s.e, s.d, p);
    LooseIsLater(s.e, s.d.blocks);
    if |p.batch| == 0 {
      assert p.batch == map[];
    }
  }

  lemma EndKeepsInv(s: State)
    requires Inv(s)
    ensures Inv(Apply(s, End))
  {
    var e := s.e.(ended := true);
    assert forall b | b in e.made :: BlockOk(s.e, b) && BlockOk(e, b);
  }

  lemma StepKeepsInv(s: State, step: Step)
    requires Inv(s) && Enabled(s, step)
    ensures Inv(Apply(s, step))
  {
    match step
    case Append(q, v) => AppendKeepsInv(s, q, v);
    case Pack(rid, to) => PackKeepsInv(s, rid, to);
    case End => EndKeepsInv(s);
    case Prune(events, rids) => PruneKeepsInv(s, events, rids);
    case Begin =>
    case FetchBlocks(rows) => FetchBlocksKeepsInv(s, rows);
    case CommitBlocks => CommitBlocksKeepsInv(s);
    case FetchEvents(next) => FetchEventsKeepsInv(s, next);
    case CommitEvents => CommitEventsKeepsInv(s);
    case Finish(_) =>
    case Crash =>
  }

  const START := State(Engine(map[], {}, {}, {}, false), Dataset([], -1, map[], -1, false), Idle)

  /** The states of a run: each follows from the one before by the step between. */
  ghost predicate IsRun(states: seq<State>, steps: seq<Step>) {
    && |states| == |steps| + 1 && states[0] == START
    && forall i | 0 <= i < |steps| :: Enabled(states[i], steps[i]) && states[i + 1] == Apply(states[i], steps[i])
  }

  lemma {:induction false} InvHolds(states: seq<State>, steps: seq<Step>, i: nat)
    requires IsRun(states, steps) && i < |states|
    ensures Inv(states[i])
  {
    if i == 0 {
    } else {
      InvHolds(states, steps, i - 1);
      StepKeepsInv(states[i - 1], steps[i - 1]);
    }
  }

  // ------------------------------------------------------------------
  // Events out of reach.
  // ------------------------------------------------------------------

  predicate InBlocks(blocks: seq<Block>, q: int) {
    exists i | 0 <= i < |blocks| :: q in blocks[i].body
  }

  /** No block the tracker has copied, holds or will find has the event, and it is not
      live either: at most a loose copy in the dataset is left of it. */
  ghost predicate Dropped(s: State, q: int) {
    && q in s.e.log && q !in s.e.loose
    && !InBlocks(s.d.blocks, q)
    && (forall b | Ahead(s.e, s.d, b) :: q !in b.body)
    && (s.pass.HoldBlocks? ==> !InBlocks(s.pass.rows, q))
  }

  ghost predicate NothingDropped(s: State) {
    forall q | q in s.e.log :: !Dropped(s, q)
  }

  /** Dropped once is dropped for good. */
  lemma DroppedStays(s: State, step: Step, q: int)
    requires Inv(s) && Enabled(s, step) && Dropped(s, q)
    ensures Dropped(Apply(s, step), q)
  {
    var t := Apply(s, step);
    if step.CommitBlocks? {
      InBlocksAppend(s.d.blocks, s.pass.rows, q);
    }
  }

  lemma InBlocksAppend(a: seq<Block>, b: seq<Block>, q: int)
    ensures InBlocks(a + b, q) <==> InBlocks(a, q) || InBlocks(b, q)
  {
    if InBlocks(a, q) {
      var i :| 0 <= i < |a| && q in a[i].body;
      assert q in (a + b)[i].body;
    }
    if InBlocks(b, q) {
      var i :| 0 <= i < |b| && q in b[i].body;
      assert q in (a + b)[|a| + i].body;
    }
  }

  /** Two blocks that share an event are one. */
  lemma SharedIsSame(e: Engine, a: Block, b: Block, q: int)
    requires EngineOk(e) && a in e.made && b in e.made && q in a.body && q in b.body
    ensures a == b
  {
    assert BlockOk(e, a) && BlockOk(e, b);
  }

  /** What each step must respect so that nothing falls out of reach: retention takes no
      live event, and no block but copied ones and those in hand; a new block lands past
      the cursor; a commit passes over no block; and blocks in hand are given up only
      while they are still there. */
  ghost predicate Careful(s: State, step: Step) {
    match step
    case Prune(events, rids) =>
      && (forall q | q in events :: q !in s.e.loose)
      && forall b | b in s.e.blocks && b.rid in rids :: b in s.d.blocks || (s.pass.HoldBlocks? && b in s.pass.rows)
    case Pack(rid, _) => rid > s.d.blockCursor
    case CommitBlocks =>
      s.pass.HoldBlocks? && s.pass.rows != [] ==>
        forall b | Ahead(s.e, s.d, b) && b.rid <= s.pass.rows[|s.pass.rows| - 1].rid :: b in s.pass.rows
    case Crash => s.pass.HoldBlocks? ==> forall b | b in s.pass.rows :: b in s.e.blocks
    case _ => true
  }

  lemma InBlocksExactly(e: Engine, blocks: seq<Block>, b: Block, q: int)
    requires EngineOk(e) && b in e.made && q in b.body && forall i | 0 <= i < |blocks| :: blocks[i] in e.made
    ensures InBlocks(blocks, q) <==> b in blocks
  {
    if InBlocks(blocks, q) {
      var i :| 0 <= i < |blocks| && q in blocks[i].body;
      SharedIsSame(e, blocks[i], b, q);
    }
  }

  lemma LooseIsInNoBlock(e: Engine, blocks: seq<Block>, q: int)
    requires EngineOk(e) && q in e.loose && forall i | 0 <= i < |blocks| :: blocks[i] in e.made
    ensures !InBlocks(blocks, q) && forall b | b in e.made :: q !in b.body
  {
    forall b | b in e.made
      ensures q !in b.body
    {
      assert BlockOk(e, b);
    }
  }

  /** An event of a block that is made, but neither copied, nor in hand, nor ahead, is out
      of reach. */
  lemma UnreachableEvent(s: State, b: Block, q: int)
    requires Inv(s) && b in s.e.made && q in b.body && b !in s.d.blocks && !Ahead(s.e, s.d, b)
    requires s.pass.HoldBlocks? ==> b !in s.pass.rows
    ensures Dropped(s, q)
  {
    assert BlockOk(s.e, b);
    InBlocksExactly(s.e, s.d.blocks, b, q);
    if s.pass.HoldBlocks? {
      InBlocksExactly(s.e, s.pass.rows, b, q);
    }
    forall c | Ahead(s.e, s.d, c)
      ensures q !in c.body
    {
      if q in c.body {
        SharedIsSame(s.e, b, c, q);
      }
    }
  }

  lemma CopiedIsBehind(e: Engine, d: Dataset, b: Block)
    requires BlocksCopied(e, d)
    ensures b in d.blocks ==> b.rid <= d.blockCursor
  {
    if i :| 0 <= i < |d.blocks| && d.blocks[i] == b {
      assert i == |d.blocks| - 1 || d.blocks[i].rid < d.blocks[|d.blocks| - 1].rid;
    }
  }

  /** What puts an event out of reach: retention takes it while it is live, or takes its
      block before that is copied or in hand; it is packed into a block that lands at or
      below the cursor; a commit passes over its block; or its block is in hand, no longer
      live, and given up. */
  ghost predicate Drops(s: State, step: Step, q: int) {
    match step
    case Prune(events, rids) =>
      || (q in events && q in s.e.loose)
      || (exists b | Ahead(s.e, s.d, b) && b.rid in rids && q in b.body :: s.pass.HoldBlocks? ==> b !in s.pass.rows)
    case Pack(rid, to) => q in s.e.loose && q <= to && rid <= s.d.blockCursor
    case CommitBlocks =>
      && s.pass.HoldBlocks? && s.pass.rows != []
      && exists b | Ahead(s.e, s.d, b) && b.rid <= s.pass.rows[|s.pass.rows| - 1].rid && q in b.body ::
        b !in s.pass.rows
    case Crash => s.pass.HoldBlocks? && exists b | b in s.pass.rows && q in b.body :: b !in s.e.blocks
    case _ => false
  }

  lemma PruneDrops(s: State, events: set<int>, rids: set<int>, q: int)
    requires Inv(s) && Drops(s, Prune(events, rids), q)
    ensures Dropped(Apply(s, Prune(events, rids)), q)
  {
    if q in events && q in s.e.loose {
      LooseIsInNoBlock(s.e, s.d.blocks, q);
      if s.pass.HoldBlocks? {
        LooseIsInNoBlock(s.e, s.pass.rows, q);
      }
    } else {
      var b :| Ahead(s.e, s.d, b) && b.rid in rids && q in b.body && (s.pass.HoldBlocks? ==> b !in s.pass.rows);
      CopiedIsBehind(s.e, s.d, b);
      PruneKeepsInv(s, events, rids);
      UnreachableEvent(Apply(s, Prune(events, rids)), b, q);
    }
  }

  lemma PackDrops(s: State, rid: int, to: int, q: int)
    requires Inv(s) && Enabled(s, Pack(rid, to)) && Drops(s, Pack(rid, to), q)
    ensures Dropped(Apply(s, Pack(rid, to)), q)
  {
    LooseIsInNoBlock(s.e, s.d.blocks, q);
    if s.pass.HoldBlocks? {
      LooseIsInNoBlock(s.e, s.pass.rows, q);
    }
  }

  lemma PackKeepsReach(s: State, rid: int, to: int, q: int)
    requires Inv(s) && Enabled(s, Pack(rid, to)) && !Drops(s, Pack(rid, to), q) && !Dropped(s, q)
    ensures !Dropped(Apply(s, Pack(rid, to)), q)
  {
    var t, b := Apply(s, Pack(rid, to)), NewBlock(s.e, rid, to);
    if q in s.e.loose && q <= to {
      assert Ahead(t.e, t.d, b) && q in b.body;
    } else if c: Block :| Ahead(s.e, s.d, c) && q in c.body {
      assert Ahead(t.e, t.d, c);
    }
  }

  lemma CommitDrops(s: State, q: int)
    requires Inv(s) && Drops(s, CommitBlocks, q)
    ensures Dropped(Apply(s, CommitBlocks), q)
  {
    var rows := s.pass.rows;
    var b :| Ahead(s.e, s.d, b) && b.rid <= rows[|rows| - 1].rid && q in b.body && b !in rows;
    CommitPassesOver(s, b, q);
  }

  lemma CommitPassesOver(s: State, b: Block, q: int)
    requires Inv(s) && Enabled(s, CommitBlocks) && q in b.body
    requires Ahead(s.e, s.d, b) && b.rid <= s.pass.rows[|s.pass.rows| - 1].rid && b !in s.pass.rows
    ensures Dropped(Apply(s, CommitBlocks), q)
  {
    CommitBlocksKeepsInv(s);
    CopiedIsBehind(s.e, s.d, b);
    UnreachableEvent(Apply(s, CommitBlocks), b, q);
  }

  lemma CommitKeepsReach(s: State, q: int)
    requires Inv(s) && Enabled(s, CommitBlocks) && !Drops(s, CommitBlocks, q) && !Dropped(s, q)
    ensures !Dropped(Apply(s, CommitBlocks), q)
  {
    var t, rows := Apply(s, CommitBlocks), s.pass.rows;
    InBlocksAppend(s.d.blocks, rows, q);
    if b: Block :| Ahead(s.e, s.d, b) && q in b.body {
      assert b in rows || Ahead(t.e, t.d, b);
    }
  }

  lemma CrashDrops(s: State, q: int)
    requires Inv(s) && Drops(s, Crash, q)
    ensures Dropped(Apply(s, Crash), q)
  {
    var b :| b in s.pass.rows && q in b.body && b !in s.e.blocks;
    CopiedIsBehind(s.e, s.d, b);
    UnreachableEvent(Apply(s, Crash), b, q);
  }

  lemma CrashKeepsReach(s: State, q: int)
    requires Inv(s) && !Drops(s, Crash, q) && !Dropped(s, q)
    ensures !Dropped(Apply(s, Crash), q)
  {
    if s.pass.HoldBlocks? {
      if i :| 0 <= i < |s.pass.rows| && q in s.pass.rows[i].body {
        assert Ahead(s.e, s.d, s.pass.rows[i]);
      }
    }
  }

  lemma PruneKeepsReach(s: State, events: set<int>, rids: set<int>, q: int)
    requires Inv(s) && !Drops(s, Prune(events, rids), q) && !Dropped(s, q)
    ensures !Dropped(Apply(s, Prune(events, rids)), q)
  {
    var t := Apply(s, Prune(events, rids));
    if b: Block :| Ahead(s.e, s.d, b) && q in b.body {
      assert Ahead(t.e, t.d, b) || (s.pass.HoldBlocks? && b in s.pass.rows);
    }
  }

  lemma StepDrops(s: State, step: Step, q: int)
    requires Inv(s) && Enabled(s, step) && Drops(s, step, q)
    ensures Dropped(Apply(s, step), q)
  {
    match step
    case Prune(events, rids) => PruneDrops(s, events, rids, q);
    case Pack(rid, to) => PackDrops(s, rid, to, q);
    case CommitBlocks => CommitDrops(s, q);
    case Crash => CrashDrops(s, q);
  }

  lemma StepKeepsReach(s: State, step: Step, q: int)
    requires Inv(s) && Enabled(s, step) && !Drops(s, step, q) && !Dropped(s, q)
    ensures !Dropped(Apply(s, step), q)
  {
    match step
    case Prune(events, rids) => PruneKeepsReach(s, events, rids, q);
    case Pack(rid, to) => PackKeepsReach(s, rid, to, q);
    case CommitBlocks => CommitKeepsReach(s, q);
    case Crash => CrashKeepsReach(s, q);
    case _ =>
  }

  /** Some step so far has put the event out of reach. */
  ghost predicate DroppedBefore(states: seq<State>, steps: seq<Step>, n: nat, q: int)
    requires n <= |steps| < |states|
  {
    exists i | 0 <= i < n :: Drops(states[i], steps[i], q)
  }

  /** Main result on one event over every run: it is out of reach if and only if some step
      so far has put it there. */
  lemma {:induction false} DroppedExactlyByAStep(states: seq<State>, steps: seq<Step>, n: nat, q: int)
    requires IsRun(states, steps) && n < |states|
    ensures Dropped(states[n], q) <==> DroppedBefore(states, steps, n, q)
  {
    if n == 0 {
    } else {
      DroppedExactlyByAStep(states, steps, n - 1, q);
      InvHolds(states, steps, n - 1);
      var s, step := states[n - 1], steps[n - 1];
      if Dropped(s, q) {
        DroppedStays(s, step, q);
      } else if Drops(s, step, q) {
        StepDrops(s, step, q);
      } else {
        StepKeepsReach(s, step, q);
      }
    }
  }

  /** Main result on one step: where nothing was out of reach, nothing is after it, if
      and only if the step is careful. */
  lemma DropsExactlyWhenCareless(s: State, step: Step)
    requires Inv(s) && Enabled(s, step) && NothingDropped(s)
    ensures NothingDropped(Apply(s, step)) <==> Careful(s, step)
  {
    if Careful(s, step) {
      forall q | q in Apply(s, step).e.log
        ensures !Dropped(Apply(s, step), q)
      {
        CarefulDropsNothing(s, step, q);
        StepKeepsReach(s, step, q);
      }
    } else {
      var q := CarelessDropsSome(s, step);
      StepDrops(s, step, q);
    }
  }

  lemma CarefulDropsNothing(s: State, step: Step, q: int)
    requires Inv(s) && Careful(s, step)
    ensures !Drops(s, step, q)
  {
    if step.Prune? {
      if b: Block :| Ahead(s.e, s.d, b) && b.rid in step.rids && q in b.body {
        CopiedIsBehind(s.e, s.d, b);
      }
    }
  }

  lemma CarelessDropsSome(s: State, step: Step) returns (q: int)
    requires Inv(s) && Enabled(s, step) && NothingDropped(s) && !Careful(s, step)
    ensures Drops(s, step, q)
  {
    match step
    case Prune(events, rids) =>
      if x :| x in events && x in s.e.loose {
        q := x;
      } else {
        var b :| b in s.e.blocks && b.rid in rids && b !in s.d.blocks && (s.pass.HoldBlocks? ==> b !in s.pass.rows);
        assert BlockOk(s.e, b);
        if !Ahead(s.e, s.d, b) {
          UnreachableEvent(s, b, b.last);
        }
        q := b.last;
      }
    case Pack(_, to) => q := to;
    case CommitBlocks =>
      var b :| Ahead(s.e, s.d, b) && b.rid <= s.pass.rows[|s.pass.rows| - 1].rid && b !in s.pass.rows;
      assert BlockOk(s.e, b);
      q := b.last;
    case Crash =>
      var b :| b in s.pass.rows && b !in s.e.blocks;
      assert BlockOk(s.e, b);
      q := b.last;
  }

  ghost predicate AllCareful(states: seq<State>, steps: seq<Step>, n: nat)
    requires n <= |steps| < |states|
  {
    forall i | 0 <= i < n :: Careful(states[i], steps[i])
  }

  /** Main result over every run, whatever is pruned: nothing is out of the tracker's
      reach if and only if every step so far was careful. */
  lemma {:induction false} DroppedExactlyWhenCareless(states: seq<State>, steps: seq<Step>, n: nat)
    requires IsRun(states, steps) && n < |states|
    ensures NothingDropped(states[n]) <==> AllCareful(states, steps, n)
  {
    if n == 0 {
    } else {
      DroppedExactlyWhenCareless(states, steps, n - 1);
      InvHolds(states, steps, n - 1);
      var s, step := states[n - 1], steps[n - 1];
      if NothingDropped(s) {
        DropsExactlyWhenCareless(s, step);
      } else {
        var q :| q in s.e.log && Dropped(s, q);
        DroppedStays(s, step, q);
      }
    }
  }

  // ------------------------------------------------------------------
  // What is copied, and what is lost.
  // ------------------------------------------------------------------

  predicate InABlock(blocks: seq<Block>, q: int, v: int) {
    exists i | 0 <= i < |blocks| :: q in blocks[i].body && blocks[i].body[q] == v
  }

  /** The event is in the dataset: as a loose row, or in a copied block. */
  predicate Holds(d: Dataset, q: int, v: int) {
    (q in d.events && d.events[q] == v) || InABlock(d.blocks, q, v)
  }

  lemma InBlocksWithContent(e: Engine, blocks: seq<Block>, q: int)
    requires EngineOk(e) && q in e.log && forall i | 0 <= i < |blocks| :: blocks[i] in e.made
    ensures InBlocks(blocks, q) <==> InABlock(blocks, q, e.log[q])
  {
    if InBlocks(blocks, q) {
      var i :| 0 <= i < |blocks| && q in blocks[i].body;
      assert BlockOk(e, blocks[i]);
    }
  }

  lemma HeldIsLogged(s: State, q: int, v: int)
    requires Inv(s) && Holds(s.d, q, v)
    ensures q in s.e.log && s.e.log[q] == v
  {
    if InABlock(s.d.blocks, q, v) {
      var i :| 0 <= i < |s.d.blocks| && q in s.d.blocks[i].body && s.d.blocks[i].body[q] == v;
      assert BlockOk(s.e, s.d.blocks[i]);
    }
  }

  /** Main result: a step loses a copied event if and only if it is the commit that
      drops what copied blocks hold, and the event was out of reach already and lies at
      or below the last packed one. */
  lemma LostExactlyWhenDropped(s: State, step: Step, q: int, v: int)
    requires Inv(s) && Enabled(s, step) && Holds(s.d, q, v)
    ensures !Holds(Apply(s, step).d, q, v) <==> step.CommitEvents? && Dropped(s, q) && q <= s.pass.packed
  {
    var t := Apply(s, step);
    HeldIsLogged(s, q, v);
    InBlocksWithContent(s.e, s.d.blocks, q);
    if step.CommitBlocks? && InABlock(s.d.blocks, q, v) {
      var i :| 0 <= i < |s.d.blocks| && q in s.d.blocks[i].body && s.d.blocks[i].body[q] == v;
      assert t.d.blocks[i] == s.d.blocks[i];
    }
    if step.CommitEvents? {
      LooseIsLater(s.e, s.d.blocks);
    }
  }

  /** So where nothing is out of reach, no step loses what was copied. */
  lemma NothingCopiedIsLost(s: State, step: Step, q: int, v: int)
    requires Inv(s) && Enabled(s, step) && NothingDropped(s) && Holds(s.d, q, v)
    ensures Holds(Apply(s, step).d, q, v)
  {
    HeldIsLogged(s, q, v);
    LostExactlyWhenDropped(s, step, q, v);
  }

  /** And where every step is careful, nothing that was ever copied is missing later. */
  lemma {:induction false} CopiedStaysCopied(states: seq<State>, steps: seq<Step>, i: nat, j: nat, q: int, v: int)
    requires IsRun(states, steps) && i <= j < |states| && AllCareful(states, steps, j) && Holds(states[i].d, q, v)
    ensures Holds(states[j].d, q, v)
  {
    if i == j {
    } else {
      CopiedStaysCopied(states, steps, i, j - 1, q, v);
      InvHolds(states, steps, j - 1);
      DroppedExactlyWhenCareless(states, steps, j - 1);
      NothingCopiedIsLost(states[j - 1], steps[j - 1], q, v);
    }
  }

  /** Number of places in the dataset that hold the event `q`. */
  function Copies(d: Dataset, q: int): nat {
    (if q in d.events then 1 else 0) + BlocksWith(d.blocks, q)
  }

  function BlocksWith(blocks: seq<Block>, q: int): nat {
    if blocks == [] then 0
    else BlocksWith(blocks[..|blocks| - 1], q) + if q in blocks[|blocks| - 1].body then 1 else 0
  }

  /** Copied blocks hold an event at most once. */
  lemma {:induction false} InOneBlock(e: Engine, blocks: seq<Block>, q: int)
    requires EngineOk(e) && RidsIncrease(blocks) && forall i | 0 <= i < |blocks| :: blocks[i] in e.made
    ensures BlocksWith(blocks, q) == if InBlocks(blocks, q) then 1 else 0
  {
    if blocks == [] {
    } else {
      var n := |blocks| - 1;
      InOneBlock(e, blocks[..n], q);
      assert blocks == blocks[..n] + [blocks[n]];
      InBlocksSnoc(blocks[..n], blocks[n], q);
      if q in blocks[n].body {
        InBlocksExactly(e, blocks[..n], blocks[n], q);
      }
    }
  }

  lemma InBlocksSnoc(before: seq<Block>, b: Block, q: int)
    ensures InBlocks(before + [b], q) <==> InBlocks(before, q) || q in b.body
  {
    InBlocksAppend(before, [b], q);
    assert [b][0] == b;
  }

  lemma {:induction false} PackedToGrows(blocks: seq<Block>, rows: seq<Block>)
    ensures PackedTo(blocks) <= PackedTo(blocks + rows)
  {
    PackedToIsMax(blocks);
    PackedToIsMax(blocks + rows);
    if PackedTo(blocks) != -1 {
      var i :| 0 <= i < |blocks| && PackedTo(blocks) == blocks[i].last;
      assert (blocks + rows)[i] == blocks[i];
    } else {
      PackedToIsLeast(blocks + rows);
    }
  }

  lemma {:induction false} PackedToIsLeast(blocks: seq<Block>)
    ensures PackedTo(blocks) >= -1
  {
    if blocks == [] {
    } else {
      PackedToIsLeast(blocks[..|blocks| - 1]);
    }
  }

  /** A loose copy stays, or lies at or below the last packed event. */
  lemma LooseCopyStays(s: State, step: Step, q: int)
    requires Inv(s) && Enabled(s, step)
    ensures q in s.d.events ==> q in Apply(s, step).d.events || q <= PackedTo(Apply(s, step).d.blocks)
    ensures PackedTo(s.d.blocks) <= PackedTo(Apply(s, step).d.blocks)
  {
    if step.CommitBlocks? {
      PackedToGrows(s.d.blocks, s.pass.rows);
    }
  }

  lemma {:induction false} LooseCopiesStay(states: seq<State>, steps: seq<Step>, j: nat, i: nat, q: int)
    requires IsRun(states, steps) && j <= i < |states| && q in states[j].d.events
    ensures q in states[i].d.events || q <= PackedTo(states[i].d.blocks)
  {
    if i == j {
    } else {
      LooseCopiesStay(states, steps, j, i - 1, q);
      InvHolds(states, steps, i - 1);
      LooseCopyStays(states[i - 1], steps[i - 1], q);
    }
  }

  /** A loose copy of the event has been in the dataset at some point up to `n`. */
  ghost predicate EverLoose(states: seq<State>, n: nat, q: int)
    requires n < |states|
  {
    exists j | 0 <= j <= n :: q in states[j].d.events
  }

  /** Where a complete session's event is not in a copied block, it is out of reach, or a
      loose copy is left. */
  lemma CompleteOrDropped(s: State, q: int)
    requires Inv(s) && s.d.complete && q in s.e.log
    ensures !InBlocks(s.d.blocks, q) ==> q in s.d.events || Dropped(s, q)
    ensures q in s.d.events ==> q > PackedTo(s.d.blocks) && !InBlocks(s.d.blocks, q)
  {
    PackedToIsMax(s.d.blocks);
    if InBlocks(s.d.blocks, q) {
      var j :| 0 <= j < |s.d.blocks| && q in s.d.blocks[j].body;
      assert BlockOk(s.e, s.d.blocks[j]);
    }
  }

  /** Main result over every run: once a session is marked complete it has ended and holds
      each event it ever recorded at most once. An event is missing if and only if some
      step put it out of reach and either a copied block reaches past it or no loose copy
      was ever made; any other is there with its content. */
  lemma CompleteExactly(states: seq<State>, steps: seq<Step>, i: nat, q: int)
    requires IsRun(states, steps) && i < |states| && states[i].d.complete && q in states[i].e.log
    ensures states[i].e.ended
    ensures Copies(states[i].d, q) == 0 <==>
            && DroppedBefore(states, steps, i, q)
            && (q <= PackedTo(states[i].d.blocks) || !EverLoose(states, i, q))
    ensures Copies(states[i].d, q) != 0 ==> Copies(states[i].d, q) == 1 && Holds(states[i].d, q, states[i].e.log[q])
  {
    var s := states[i];
    InvHolds(states, steps, i);
    InOneBlock(s.e, s.d.blocks, q);
    InBlocksWithContent(s.e, s.d.blocks, q);
    CompleteOrDropped(s, q);
    DroppedExactlyByAStep(states, steps, i, q);
    if j :| 0 <= j <= i && q in states[j].d.events {
      LooseCopiesStay(states, steps, j, i, q);
    }
  }

  lemma BlocksAreLogged(e: Engine, blocks: seq<Block>, q: int)
    requires EngineOk(e) && forall i | 0 <= i < |blocks| :: blocks[i] in e.made
    ensures InBlocks(blocks, q) ==> q in e.log
  {
    if j :| 0 <= j < |blocks| && q in blocks[j].body {
      assert BlockOk(e, blocks[j]);
    }
  }

  /** An event the session never recorded is nowhere. */
  lemma NothingElse(s: State, q: int)
    requires Inv(s) && q !in s.e.log
    ensures Copies(s.d, q) == 0
  {
    InOneBlock(s.e, s.d.blocks, q);
    BlocksAreLogged(s.e, s.d.blocks, q);
  }

  /** So where every step is careful, a complete session is mirrored exactly once. */
  lemma CompleteMeansMirroredOnce(states: seq<State>, steps: seq<Step>, i: nat, q: int)
    requires IsRun(states, steps) && i < |states| && states[i].d.complete && AllCareful(states, steps, i)
    ensures states[i].e.ended
    ensures Copies(states[i].d, q) == if q in states[i].e.log then 1 else 0
    ensures q in states[i].e.log ==> Holds(states[i].d, q, states[i].e.log[q])
  {
    InvHolds(states, steps, i);
    if q in states[i].e.log {
      CompleteExactly(states, steps, i, q);
      DroppedExactlyByAStep(states, steps, i, q);
      DroppedExactlyWhenCareless(states, steps, i);
    } else {
      NothingElse(states[i], q);
    }
  }

  // ------------------------------------------------------------------
  // Two runs in which retention is not careful.
  // ------------------------------------------------------------------

  ghost predicate Reachable(s: State) {
    exists states, steps :: IsRun(states, steps) && states[|steps|] == s
  }

  lemma StartIsReachable()
    ensures Reachable(START)
  {
    var states, steps: seq<Step> := [START], [];
    assert IsRun(states, steps) && states[|steps|] == START;
  }

  lemma ReachNext(s: State, step: Step)
    requires Reachable(s) && Enabled(s, step)
    ensures Reachable(Apply(s, step))
  {
    var states, steps :| IsRun(states, steps) && states[|steps|] == s;
    var more, longer := states + [Apply(s, step)], steps + [step];
    assert IsRun(more, longer) && more[|longer|] == Apply(s, step);
  }

  /** The tracker is not there when an old event is deleted: the session is marked
      complete, and the event is nowhere. */
  lemma UncopiedEventIsMissed() returns (s: State)
    ensures Reachable(s) && s.d.complete && s.e.log == map[1 := 10] && Copies(s.d, 1) == 0
  {
    s := PrunedAndEnded();
    s := Next(s, Begin);
    s := Next(s, FetchBlocks([]));
    assert Live(s.e, -1, -1) == map[];
    s := Next(s, FetchEvents(-1));
    s := Next(s, CommitEvents);
    s := Next(s, Finish(0));
  }

  lemma PrunedAndEnded() returns (s: State)
    ensures Reachable(s) && s == State(Engine(map[1 := 10], {}, {}, {}, true), START.d, Idle)
  {
    StartIsReachable();
    s := Next(START, Append(1, 10));
    s := Next(s, Prune({1}, {}));
    assert s.e.loose == {} && s.e.blocks == {};
    s := Next(s, End);
  }

  lemma Next(s: State, step: Step) returns (t: State)
    requires Reachable(s) && Enabled(s, step)
    ensures t == Apply(s, step) && Reachable(t)
  {
    t := Apply(s, step);
    ReachNext(s, step);
  }

  /** The first half of a pass that finds some blocks. */
  lemma CopySomeBlocks(s: State, rows: seq<Block>) returns (t: State)
    requires Reachable(s) && s.pass.Idle? && !s.d.complete
    requires IsBlockQuery(rows, s.e.blocks, s.d.blockCursor) && 0 < |rows| < BATCH
    ensures Reachable(t)
    ensures
      && var d := CommittedBlocks(s.d, rows);
      && t == s.(d := d, pass := StartEvents(d, s.e.ended, |rows|))
  {
    t := Next(s, Begin);
    t := Next(t, FetchBlocks(rows));
    t := Next(t, CommitBlocks);
  }

  /** A first pass copies block 1 and loose event 2. */
  lemma FirstPass() returns (s: State)
    ensures Reachable(s)
    ensures
      && var b := Block(1, 1, map[1 := 10]);
      && s == State(Engine(map[1 := 10, 2 := 20], {2}, {b}, {b}, false), Dataset([b], 1, map[2 := 20], 2, false), Idle)
  {
    var b := Block(1, 1, map[1 := 10]);
    s := OneBlockCopied();
    assert Live(s.e, 1, 2) == map[2 := 20];
    s := Next(s, FetchEvents(2));
    s := Next(s, CommitEvents);
    assert s.d.events == map[2 := 20];
    s := Next(s, Finish(0));
  }

  lemma OneBlockCopied() returns (s: State)
    ensures Reachable(s)
    ensures
      && var b := Block(1, 1, map[1 := 10]);
      && s == State(Engine(map[1 := 10, 2 := 20], {2}, {b}, {b}, false), Dataset([b], 1, map[], -1, false),
        OnEvents(false, 1, 1, 1))
  {
    var b := Block(1, 1, map[1 := 10]);
    s := OneBlockPacked();
    assert [b][..0] == [] && PackedTo([b]) == 1 && [] + [b] == [b];
    assert IsBlockQuery([b], s.e.blocks, -1);
    s := CopySomeBlocks(s, [b]);
  }

  lemma OneBlockPacked() returns (s: State)
    ensures Reachable(s)
    ensures
      && var b := Block(1, 1, map[1 := 10]);
      && s == State(Engine(map[1 := 10, 2 := 20], {2}, {b}, {b}, false), START.d, Idle)
  {
    var b := Block(1, 1, map[1 := 10]);
    StartIsReachable();
    s := Next(START, Append(1, 10));
    assert NewBlock(s.e, 1, 1) == b;
    s := Next(s, Pack(1, 1));
    assert s.e == Engine(map[1 := 10], {}, {b}, {b}, false);
    s := Next(s, Append(2, 20));
    assert s.e.log == map[1 := 10, 2 := 20];
  }

  /** Then retention takes the copied block, the next block gets its rowid and is passed
      over, and the copy of the block after that makes the tracker drop event 2, of which
      it had a loose copy and now has none. */
  lemma CopiedEventIsLost() returns (s: State)
    ensures Reachable(s) && Enabled(s, CommitEvents) && Holds(s.d, 2, 20) && !Holds(Apply(s, CommitEvents).d, 2, 20)
  {
    s := SkippedBlock();
    var b1, b3 := Block(1, 1, map[1 := 10]), Block(2, 3, map[3 := 30]);
    TwoBlocks(b1, b3);
    assert IsBlockQuery([b3], s.e.blocks, 1);
    s := CopySomeBlocks(s, [b3]);
    assert Live(s.e, 3, 3) == map[];
    s := Next(s, FetchEvents(3));
    var d := Apply(s, CommitEvents).d;
    assert d.events == map[] && d.blocks == [b1, b3];
  }

  lemma TwoBlocks(a: Block, b: Block)
    ensures [a] + [b] == [a, b] && PackedTo([a, b]) == Max(Max(-1, a.last), b.last)
  {
    assert [a, b][..1] == [a] && [a][..0] == [];
    assert PackedTo([a]) == Max(-1, a.last);
  }

  lemma SkippedBlock() returns (s: State)
    ensures Reachable(s)
    ensures
      && var b1, b2, b3 := Block(1, 1, map[1 := 10]), Block(1, 2, map[2 := 20]), Block(2, 3, map[3 := 30]);
      && s == State(Engine(map[1 := 10, 2 := 20, 3 := 30], {}, {b2, b3}, {b1, b2, b3}, false),
                    Dataset([b1], 1, map[2 := 20], 2, false), Idle)
  {
    var b1, b2, b3 := Block(1, 1, map[1 := 10]), Block(1, 2, map[2 := 20]), Block(2, 3, map[3 := 30]);
    s := ReusedRowid();
    s := Next(s, Append(3, 30));
    assert s.e.log == map[1 := 10, 2 := 20, 3 := 30];
    assert NewBlock(s.e, 2, 3) == b3;
    s := Next(s, Pack(2, 3));
    assert s.e.loose == {} && s.e.blocks == {b2, b3} && s.e.made == {b1, b2, b3};
  }

  lemma ReusedRowid() returns (s: State)
    ensures Reachable(s)
    ensures
      && var b1, b2 := Block(1, 1, map[1 := 10]), Block(1, 2, map[2 := 20]);
      && s == State(Engine(map[1 := 10, 2 := 20], {}, {b2}, {b1, b2}, false),
        Dataset([b1], 1, map[2 := 20], 2, false), Idle)
  {
    var b1, b2 := Block(1, 1, map[1 := 10]), Block(1, 2, map[2 := 20]);
    s := FirstPass();
    s := Next(s, Prune({}, {1}));
    assert s.e == Engine(map[1 := 10, 2 := 20], {2}, {}, {b1}, false);
    assert NewBlock(s.e, 1, 2) == b2;
    s := Next(s, Pack(1, 2));
    assert s.e.loose == {} && s.e.blocks == {b2} && s.e.made == {b1, b2};
  }

  // ------------------------------------------------------------------
  // When a session is marked complete.
  // ------------------------------------------------------------------

  /** The rows of blocks and events that a step writes to the dataset. */
  function CopiedBy(s: State, step: Step): nat {
    if step.CommitBlocks? && s.pass.HoldBlocks? then |s.pass.rows|
    else if step.CommitEvents? && s.pass.HoldEvents? then |s.pass.batch|
    else 0
  }

  function CopiedSince(states: seq<State>, steps: seq<Step>, b: nat, i: nat): nat
    requires b <= i <= |steps| < |states|
  {
    if i == b then 0 else CopiedSince(states, steps, b, i - 1) + CopiedBy(states[i - 1], steps[i - 1])
  }

  /** Step `b` begins the pass that is still going on at `i`. */
  ghost predicate PassSince(states: seq<State>, steps: seq<Step>, b: nat, i: nat)
    requires i <= |steps| < |states|
  {
    b < i && steps[b] == Begin && forall k | b < k <= i :: !states[k].pass.Idle?
  }

  lemma {:induction false} PassRemembers(states: seq<State>, steps: seq<Step>, b: nat, i: nat)
    requires IsRun(states, steps) && i < |states| && PassSince(states, steps, b, i)
    ensures states[i].pass.ended == states[b].e.ended
    ensures states[i].pass.n == CopiedSince(states, steps, b, i)
    decreases i - b
  {
    if i == b + 1 {
      BeginRemembers(states[b], states[i]);
      assert CopiedSince(states, steps, b, b) == 0;
    } else {
      assert PassSince(states, steps, b, i - 1);
      PassRemembers(states, steps, b, i - 1);
      StepRemembers(states[i - 1], steps[i - 1], states[i]);
    }
  }

  lemma BeginRemembers(s: State, t: State)
    requires Enabled(s, Begin) && t == Apply(s, Begin) && !t.pass.Idle?
    ensures t.pass.ended == s.e.ended && t.pass.n == CopiedBy(s, Begin) == 0
  {
  }

  lemma StepRemembers(s: State, step: Step, t: State)
    requires Enabled(s, step) && t == Apply(s, step) && !s.pass.Idle? && !t.pass.Idle?
    ensures t.pass.ended == s.pass.ended && t.pass.n == s.pass.n + CopiedBy(s, step)
  {
  }

  lemma {:induction false} PassBegan(states: seq<State>, steps: seq<Step>, i: nat)
    requires IsRun(states, steps) && i < |states| && !states[i].pass.Idle?
    ensures exists b: nat :: PassSince(states, steps, b, i)
  {
    if i == 0 {
    } else if states[i - 1].pass.Idle? {
      assert PassSince(states, steps, i - 1, i);
    } else {
      PassBegan(states, steps, i - 1);
      var b: nat :| PassSince(states, steps, b, i - 1);
      assert PassSince(states, steps, b, i);
    }
  }

  /** A pass over an ended session that copied nothing at all comes to its end. */
  ghost predicate EmptyPassEnds(states: seq<State>, steps: seq<Step>, b: nat, j: nat)
    requires j < |steps| < |states|
  {
    && PassSince(states, steps, b, j) && states[b].e.ended
    && steps[j] == Finish(0) && CopiedSince(states, steps, b, j) == 0
  }

  lemma {:induction false} EmptyPassMarks(states: seq<State>, steps: seq<Step>, b: nat, j: nat)
    requires IsRun(states, steps) && j < |steps| && EmptyPassEnds(states, steps, b, j)
    ensures states[j + 1].d.complete
  {
    PassRemembers(states, steps, b, j);
  }

  lemma {:induction false} MarkedByAnEmptyPass(states: seq<State>, steps: seq<Step>, j: nat)
    requires IsRun(states, steps) && j < |steps| && !states[j].d.complete && states[j + 1].d.complete
    ensures exists b: nat :: EmptyPassEnds(states, steps, b, j)
  {
    assert steps[j].Finish?;
    PassBegan(states, steps, j);
    var b: nat :| PassSince(states, steps, b, j);
    PassRemembers(states, steps, b, j);
    assert EmptyPassEnds(states, steps, b, j);
  }

  lemma CompleteStays(s: State, step: Step)
    requires Enabled(s, step) && s.d.complete
    ensures Apply(s, step).d.complete
  {
  }

  /** Main result over every run: a session is marked complete exactly when a pass that began
      after its end has run to its end without a row to copy. */
  lemma {:induction false} CompleteExactlyAfterAnEmptyPass(states: seq<State>, steps: seq<Step>, i: nat)
    requires IsRun(states, steps) && i < |states|
    ensures states[i].d.complete <==>
      exists b: nat, j: nat :: j < i && EmptyPassEnds(states, steps, b, j)
  {
    if i > 0 {
      CompleteExactlyAfterAnEmptyPass(states, steps, i - 1);
      MarkedAtAStep(states, steps, i - 1);
    }
  }

  lemma {:induction false} MarkedAtAStep(states: seq<State>, steps: seq<Step>, j: nat)
    requires IsRun(states, steps) && j < |steps|
    ensures states[j + 1].d.complete <==>
      states[j].d.complete || exists b: nat :: EmptyPassEnds(states, steps, b, j)
  {
    if states[j].d.complete {
      CompleteStays(states[j], steps[j]);
    } else if states[j + 1].d.complete {
      MarkedByAnEmptyPass(states, steps, j);
    } else {
      forall b: nat
        ensures !EmptyPassEnds(states, steps, b, j)
      {
        if EmptyPassEnds(states, steps, b, j) {
          EmptyPassMarks(states, steps, b, j);
        }
      }
    }
  }

  // ------------------------------------------------------------------
  // Nothing is fetched twice.
  // ------------------------------------------------------------------

  /** The follower reads on past its cursor. */
  ghost predicate ReadsOn(s: State) {
    && (s.pass.OnEvents? || s.pass.HoldEvents? ==> s.pass.at >= s.d.cursor)
    && (s.pass.HoldEvents? ==> forall q | q in s.pass.batch :: s.pass.at < q <= s.pass.next)
  }

  lemma StepReadsOn(s: State, step: Step)
    requires ReadsOn(s) && Enabled(s, step)
    ensures ReadsOn(Apply(s, step)) && s.d.cursor <= Apply(s, step).d.cursor
  {
    if step.CommitEvents? && s.pass.batch != map[] {
      SomeEvent(s.pass.batch);
    }
  }

  lemma SomeEvent(events: Events)
    ensures events == map[] || exists q :: q in events
  {
    if forall q :: q !in events {
      assert events == map[];
    }
  }

  lemma {:induction false} ReadsOnThroughout(states: seq<State>, steps: seq<Step>, j: nat, i: nat)
    requires IsRun(states, steps) && j <= i < |states|
    ensures ReadsOn(states[i]) && states[j].d.cursor <= states[i].d.cursor
    decreases i
  {
    if i > 0 {
      ReadsOnThroughout(states, steps, if j < i then j else i - 1, i - 1);
      StepReadsOn(states[i - 1], steps[i - 1]);
    }
  }

  /** Over every run no event is copied loose twice: what is in hand is past the cursor, and
      with it past all that was committed before. */
  lemma {:induction false} CopiedLooseOnce(states: seq<State>, steps: seq<Step>, j: nat, k: nat, q: int)
    requires IsRun(states, steps) && j < k < |steps| && steps[j] == CommitEvents && steps[k] == CommitEvents
    ensures states[j].pass.HoldEvents? && states[k].pass.HoldEvents?
    ensures q in states[j].pass.batch ==> q <= states[k].d.cursor && q !in states[k].pass.batch
  {
    ReadsOnThroughout(states, steps, j, j);
    ReadsOnThroughout(states, steps, j + 1, k);
    if q in states[j].pass.batch {
      assert states[j].pass.batch != map[];
      assert states[j + 1].d.cursor == states[j].pass.next;
    }
  }

  // ------------------------------------------------------------------
  // copy_events
  // ------------------------------------------------------------------

  /** A batch and its last sequence number, as one query of the live table for
      events past a sequence number returns them. */
  type Answer = int -> (Events, int)

  /** One transaction of a pass that found blocks packed up to `packed`. */
  function CommitWith(packed: int): (Dataset, Events, int) -> Dataset {
    (d, rows, next) => CommittedEvents(d, packed, rows, next)
  }

  /** The turns of the loop while the live table answers as in `feed`. */
  function EventsPass<D>(commit: (D, Events, int) -> D, d: D, at: int, feed: seq<Answer>): (D, nat)
    decreases |feed|
  {
    if feed == [] then (d, 0)
    else
      var got := feed[0](at);
      var e := commit(d, got.0, got.1);
      if |got.0| < BATCH then (e, |got.0|)
      else var rest := EventsPass(commit, e, got.1, feed[1..]); (rest.0, |got.0| + rest.1)
  }

  class Mirror {
    var data: Dataset

    constructor (found: Dataset)
      ensures data == found
    {
      data := found;
    }

    method CopyEvents(feed: seq<Answer>) returns (copied: nat)
      modifies this
      ensures
        var packed := PackedTo(old(data).blocks);
        (data, copied) == EventsPass(CommitWith(packed), old(data), Max(old(data).cursor, packed), feed)
    {
      var packed := PackedTo(data.blocks);
      data, copied := Turns(CommitWith(packed), data, Max(data.cursor, packed), feed);
    }
  }

  /** One turn of the loop is a fetch and a commit. */
  lemma TurnIsFetchAndCommit(s: State, next: int)
    requires s.pass.OnEvents? && Enabled(s, FetchEvents(next))
    ensures
      && var rows := Live(s.e, s.pass.at, next);
      && var end := Apply(Apply(s, FetchEvents(next)), CommitEvents);
      && end.e == s.e && end.d == CommitWith(s.pass.packed)(s.d, rows, next)
      && (if |rows| < BATCH then end.pass.Finishing? else end.pass.OnEvents? && end.pass.at == next)
  {
  }

  /** The live table's answer to the query of one turn. */
  function AnswerOf(e: Engine, next: int): Answer {
    at => (Live(e, at, next), next)
  }

  /** Steps of engine and retention, and of the events loop. */
  predicate InEventsLoop(step: Step) {
    step.Append? || step.Pack? || step.End? || step.Prune? || step.FetchEvents? || step.CommitEvents?
  }

  /** From `a` to `b` the run is in the events loop, which ends at `b`. */
  ghost predicate LoopFrom(states: seq<State>, steps: seq<Step>, a: nat, b: nat) {
    && IsRun(states, steps) && a < b < |states|
    && (forall i | a <= i < b :: InEventsLoop(steps[i]) && (states[i].pass.OnEvents? || states[i].pass.HoldEvents?))
    && states[b].pass.Finishing?
  }

  /** What the loop makes of the dataset from a state of the run on, and of the number of
      rows the pass has copied. */
  function LoopResult(d: Dataset, p: Pass, feed: seq<Answer>): (Dataset, nat)
    requires p.OnEvents? || p.HoldEvents?
  {
    if p.OnEvents? then LoopOn(CommitWith(p.packed), d, p.n, p.at, feed)
    else LoopHolds(CommitWith(p.packed), d, p.n, p.batch, p.next, feed)
  }

  function LoopHolds<D>(
    commit: (D, Events, int) -> D, d: D, n: nat, rows: Events, next: int, feed: seq<Answer>): (D, nat)
  {
    var now := commit(d, rows, next);
    if |rows| < BATCH then (now, n + |rows|) else LoopOn(commit, now, n + |rows|, next, feed)
  }

  function LoopOn<D>(commit: (D, Events, int) -> D, d: D, n: nat, at: int, feed: seq<Answer>): (D, nat) {
    var end := EventsPass(commit, d, at, feed);
    (end.0, n + end.1)
  }

  /** Main result: however the engine works meanwhile, a whole loop over the live events
      table leaves the dataset that the run's fetches and commits leave, and counts what
      they copy. */
  lemma {:induction false} LoopIsPartOfARun(states: seq<State>, steps: seq<Step>, a: nat, b: nat)
    returns (feed: seq<Answer>)
    requires LoopFrom(states, steps, a, b)
    ensures LoopResult(states[a].d, states[a].pass, feed) == (states[b].d, states[b].pass.n)
    ensures forall i | 0 <= i < |feed| :: AnsweredIn(states, steps, a, b, feed[i])
    decreases b - a
  {
    if a + 1 == b {
      feed := [];
    } else {
      var rest := LoopIsPartOfARun(states, steps, a + 1, b);
      LoopOneStep(states[a], steps[a], rest);
      feed := if steps[a].FetchEvents? then [AnswerOf(states[a].e, steps[a].next)] + rest else rest;
      forall i | 0 <= i < |feed|
        ensures AnsweredIn(states, steps, a, b, feed[i])
      {
        assert feed[i] in rest || AnsweredAt(states, steps, a, feed[i]);
      }
    }
  }

  ghost predicate AnsweredAt(states: seq<State>, steps: seq<Step>, k: nat, answer: Answer)
    requires k < |steps| < |states|
  {
    steps[k].FetchEvents? && answer == AnswerOf(states[k].e, steps[k].next)
  }

  /** The answer is the live table's, to a fetch of the run between `a` and `b`. */
  ghost predicate AnsweredIn(states: seq<State>, steps: seq<Step>, a: nat, b: nat, answer: Answer)
    requires b <= |steps| < |states|
  {
    exists k: nat | a <= k < b :: AnsweredAt(states, steps, k, answer)
  }

  lemma {:induction false} LoopOneStep(s: State, step: Step, rest: seq<Answer>)
    requires Enabled(s, step) && InEventsLoop(step) && (s.pass.OnEvents? || s.pass.HoldEvents?)
    requires !Apply(s, step).pass.Finishing?
    ensures
      && var feed := if step.FetchEvents? then [AnswerOf(s.e, step.next)] + rest else rest;
      && LoopResult(s.d, s.pass, feed) == LoopResult(Apply(s, step).d, Apply(s, step).pass, rest)
  {
    if step.FetchEvents? {
      LoopFetch(s, step.next, rest);
    } else if step.CommitEvents? {
      LoopCommit(s, rest);
    } else {
      EngineLeavesThePass(s, step);
    }
  }

  lemma EngineLeavesThePass(s: State, step: Step)
    requires Enabled(s, step) && InEventsLoop(step) && !step.FetchEvents? && !step.CommitEvents?
    ensures Apply(s, step).d == s.d && Apply(s, step).pass == s.pass
  {
  }

  lemma {:induction false} LoopFetch(s: State, next: int, rest: seq<Answer>)
    requires Enabled(s, FetchEvents(next))
    ensures
      && var t := Apply(s, FetchEvents(next));
      && LoopResult(s.d, s.pass, [AnswerOf(s.e, next)] + rest) == LoopResult(t.d, t.pass, rest)
  {
    LoopOnAnswer(CommitWith(s.pass.packed), s.d, s.pass.n, s.pass.at, AnswerOf(s.e, next), rest);
  }

  lemma {:induction false} LoopOnAnswer<D>(
    commit: (D, Events, int) -> D, d: D, n: nat, at: int, answer: Answer, rest: seq<Answer>)
    ensures LoopOn(commit, d, n, at, [answer] + rest) == LoopHolds(commit, d, n, answer(at).0, answer(at).1, rest)
  {
    var feed := [answer] + rest;
    assert feed != [] && feed[0] == answer && feed[1..] == rest;
  }

  lemma {:induction false} LoopCommit(s: State, rest: seq<Answer>)
    requires Enabled(s, CommitEvents) && !Apply(s, CommitEvents).pass.Finishing?
    ensures
      && var t := Apply(s, CommitEvents);
      && LoopResult(s.d, s.pass, rest) == LoopResult(t.d, t.pass, rest)
  {
  }

  lemma {:induction false} OneTurn<D>(commit: (D, Events, int) -> D, d: D, at: int, feed: seq<Answer>, i: nat)
    requires i < |feed|
    ensures EventsPass(commit, d, at, feed[i..]) == (
      var got := feed[i](at);
      var e := commit(d, got.0, got.1);
      if |got.0| < BATCH then (e, |got.0|)
      else var rest := EventsPass(commit, e, got.1, feed[i + 1..]); (rest.0, |got.0| + rest.1))
  {
    assert feed[i..][0] == feed[i] && feed[i..][1..] == feed[i + 1..];
  }

  method Turns<D>(commit: (D, Events, int) -> D, found: D, from: int, feed: seq<Answer>)
    returns (d: D, copied: nat)
    ensures (d, copied) == EventsPass(commit, found, from, feed)
  {
    d, copied := found, 0;
    var at := from;
    ghost var whole := EventsPass(commit, found, from, feed);
    ghost var rest := whole;
    assert feed[0..] == feed;
    for i := 0 to |feed|
      invariant rest == EventsPass(commit, d, at, feed[i..])
      invariant whole.0 == rest.0 && whole.1 == copied + rest.1
    {
      OneTurn(commit, d, at, feed, i);
      var rows, next := feed[i](at).0, feed[i](at).1;
      d := commit(d, rows, next);
      at := next;
      copied := copied + |rows|;
      if |rows| < BATCH {
        return;
      }
      rest := EventsPass(commit, d, at, feed[i + 1..]);
    }
  }
}
