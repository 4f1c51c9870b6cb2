/** Live execution of an assembled transaction (crates/execution/src/live.rs):
    check, sign, simulate the signed bytes, send once, poll until the end is known.
    Every answer of the outside world is arbitrary. */
module Live {
  import opened Wrappers

  type Tx = int
  type Wire = int
  type BundleId = int

  datatype Params = Params(minWalletLamports: nat, blockhashMargin: nat, poll: nat, timeout: nat)

  datatype Inflight = Landed(slot: nat) | Failed | Pending | Invalid

  datatype Confirmation = Processed | Confirmed | Finalized

  /** What a bundle's status says once it is visible. */
  datatype Status = Status(confirmation: Option<Confirmation>, error: bool)

  /** Calls to the backend with their answers; `None` is a failed or empty answer. */
  datatype Call =
    | Height(height: Option<nat>)
    | Simulate(wire: Wire, clean: Option<bool>)
    | Balance(lamports: Option<nat>)
    | Send(wires: seq<Wire>, accepted: Option<BundleId>)
    | PollInflight(id: BundleId, inflight: Option<Inflight>)
    | PollStatus(id: BundleId, status: Option<Status>)

  datatype Outcome =
    | NotSent
    | HasLanded(id: BundleId, slot: nat, realized: Option<int>)
    | HasFailed(id: BundleId)
    | TimedOut(id: BundleId)

  /** Everything the backend might say to its next call, and how long that takes. */
  datatype Reply = Reply(
    height: Option<nat>, clean: Option<bool>, lamports: Option<nat>, accepted: Option<BundleId>,
    inflight: Option<Inflight>, status: Option<Status>, took: nat)

  /** A backend that answers its n-th call by an arbitrary script and notes it. */
  class Backend {
    const script: nat -> Reply
    var calls: seq<Call>
    var now: nat

    constructor (script: nat -> Reply)
      ensures this.script == script && calls == [] && now == 0
    {
      this.script := script;
      calls := [];
      now := 0;
    }

    method Note(c: Call)
      modifies this
      ensures calls == old(calls) + [c] && now >= old(now)
    {
      now := now + script(|calls|).took;
      calls := calls + [c];
    }

    method AskHeight() returns (h: Option<nat>)
      modifies this
      ensures calls == old(calls) + [Height(h)] && now >= old(now)
    {
      h := script(|calls|).height;
      Note(Height(h));
    }

    method AskSimulation(w: Wire) returns (clean: Option<bool>)
      modifies this
      ensures calls == old(calls) + [Simulate(w, clean)] && now >= old(now)
    {
      clean := script(|calls|).clean;
      Note(Simulate(w, clean));
    }

    method AskBalance() returns (b: Option<nat>)
      modifies this
      ensures calls == old(calls) + [Balance(b)] && now >= old(now)
    {
      b := script(|calls|).lamports;
      Note(Balance(b));
    }

    method SendBundle(wires: seq<Wire>) returns (id: Option<BundleId>)
      modifies this
      ensures calls == old(calls) + [Send(wires, id)] && now >= old(now)
    {
      id := script(|calls|).accepted;
      Note(Send(wires, id));
    }

    method AskInflight(id: BundleId) returns (i: Option<Inflight>)
      modifies this
      ensures calls == old(calls) + [PollInflight(id, i)] && now >= old(now)
    {
      i := script(|calls|).inflight;
      Note(PollInflight(id, i));
    }

    method AskStatus(id: BundleId) returns (s: Option<Status>)
      modifies this
      ensures calls == old(calls) + [PollStatus(id, s)] && now >= old(now)
    {
      s := script(|calls|).status;
      Note(PollStatus(id, s));
    }

    method Sleep(time: nat)
      modifies this
      ensures calls == old(calls) && now >= old(now) + time
    {
      now := now + time + script(|calls|).took;
    }
  }

  // ------------------------------------------------------------------
  // What a trace of calls must look like.
  // ------------------------------------------------------------------

  predicate Headroom(c: Call, lastValid: nat, p: Params) {
    c.Height? && c.height.Some? && c.height.value + p.blockhashMargin < lastValid
  }

  predicate Sendable(txs: seq<Tx>, sign: Tx -> Option<Wire>) {
    |txs| == 1 && sign(txs[0]).Some?
  }

  predicate Funded(c: Call, p: Params) {
    c.Balance? && c.lamports.Some? && c.lamports.value >= p.minWalletLamports
  }

  /** The first four calls of a run that sends: headroom, a clean simulation of the
      one signed transaction, enough money, then exactly those bytes. */
  predicate SentProperly(t: seq<Call>, txs: seq<Tx>, sign: Tx -> Option<Wire>, lastValid: nat, p: Params) {
    && |t| >= 4 && Sendable(txs, sign)
    && Headroom(t[0], lastValid, p)
    && t[1] == Simulate(sign(txs[0]).value, Some(true))
    && Funded(t[2], p)
    && t[3].Send? && t[3].wires == [sign(txs[0]).value]
  }

  /** A run that ends unsent has a reason: it stopped at the first check that failed,
      or its one bundle was rejected. */
  predicate Stopped(t: seq<Call>, txs: seq<Tx>, sign: Tx -> Option<Wire>, lastValid: nat, p: Params) {
    && |t| > 0 && t[0].Height?
    && (if !Headroom(t[0], lastValid, p) || !Sendable(txs, sign) then |t| == 1
        else if |t| == 2 then t[1].Simulate? && t[1].wire == sign(txs[0]).value && t[1].clean != Some(true)
        else if |t| == 3 then t[1] == Simulate(sign(txs[0]).value, Some(true)) && t[2].Balance? && !Funded(t[2], p)
        else |t| == 4 && SentProperly(t, txs, sign, lastValid, p) && t[3].accepted.None?)
  }

  /** Nothing is sent but by the fourth call. */
  predicate SendsOnlyOnce(t: seq<Call>) {
    forall i | 0 <= i < |t| && t[i].Send? :: i == 3
  }

  /** Only polls of bundle `id`, from the fifth call on. */
  predicate OnlyPolls(t: seq<Call>, id: BundleId) {
    forall i | 4 <= i < |t| :: (t[i].PollInflight? && t[i].id == id) || (t[i].PollStatus? && t[i].id == id)
  }

  predicate SawInflight(t: seq<Call>, id: BundleId, f: Inflight) {
    PollInflight(id, Some(f)) in t
  }

  predicate SawConfirmed(t: seq<Call>, id: BundleId) {
    || PollStatus(id, Some(Status(Some(Confirmed), false))) in t
    || PollStatus(id, Some(Status(Some(Finalized), false))) in t
  }

  ghost predicate SawError(t: seq<Call>, id: BundleId) {
    exists c: Option<Confirmation> :: PollStatus(id, Some(Status(c, true))) in t
  }

  /** No answer to a poll has settled what became of the bundle. */
  predicate Undecided(t: seq<Call>) {
    forall i | 4 <= i < |t| :: !Decides(t[i])
  }

  predicate Decides(c: Call) {
    || (c.PollInflight? && c.inflight == Some(Failed))
    || (c.PollStatus? && c.status.Some?
        && (c.status.value.error
            || c.status.value.confirmation == Some(Confirmed)
            || c.status.value.confirmation == Some(Finalized)))
  }

  /** Call `n` settles what became of the bundle, and no call before it did. */
  predicate DecidedAt(t: seq<Call>, n: int) {
    4 <= n < |t| && Decides(t[n]) && forall i | 4 <= i < n :: !Decides(t[i])
  }

  predicate Landing(c: Call) {
    c.PollInflight? && c.inflight.Some? && c.inflight.value.Landed?
  }

  /** From the fifth call to before `n`: polls of the bundle in flight, not landed yet. */
  predicate InFlight(t: seq<Call>, n: nat)
    requires n <= |t|
  {
    forall i | 4 <= i < n :: t[i].PollInflight? && !Landing(t[i])
  }

  /** From call `n` on: polls of the status, and the balance. */
  predicate OnlyStatuses(t: seq<Call>, n: nat) {
    forall i | n <= i < |t| :: t[i].PollStatus? || t[i].Balance?
  }

  /** The bundle is seen landed at call `m`: its status is asked for only after that. */
  predicate LandedAt(t: seq<Call>, m: nat)
    requires 4 <= m < |t|
  {
    InFlight(t, m) && Landing(t[m]) && OnlyStatuses(t, m + 1)
  }

  /** The calls after the sending are in their order. */
  predicate InOrder(t: seq<Call>) {
    InFlight(t, |t|) || exists m: nat | 4 <= m < |t| :: LandedAt(t, m)
  }

  lemma LandedThenStatuses(t: seq<Call>, u: seq<Call>)
    requires 4 < |t| <= |u| && u[..|t|] == t && InFlight(t, |t| - 1) && Landing(t[|t| - 1]) && OnlyStatuses(u, |t|)
    ensures InOrder(u)
  {
    forall i | 0 <= i < |t|
      ensures u[i] == t[i]
    {
      assert u[i] == u[..|t|][i];
    }
    assert LandedAt(u, |t| - 1);
  }

  function Polls(t: seq<Call>): nat {
    if t == [] then 0
    else Polls(t[..|t| - 1]) + if t[|t| - 1].PollInflight? || t[|t| - 1].PollStatus? then 1 else 0
  }

  lemma {:induction false} PollsSnoc(t: seq<Call>, c: Call)
    ensures Polls(t + [c]) == Polls(t) + if c.PollInflight? || c.PollStatus? then 1 else 0
  {
    assert (t + [c])[..|t|] == t;
  }

  lemma {:induction false} NoPolls(t: seq<Call>)
    requires forall i | 0 <= i < |t| :: !t[i].PollInflight? && !t[i].PollStatus?
    ensures Polls(t) == 0
  {
    if t == [] {
    } else {
      NoPolls(t[..|t| - 1]);
    }
  }

  /** `n` polls of `poll` each. */
  function Slept(n: int, poll: nat): nat {
    if n <= 0 then 0 else Slept(n - 1, poll) + poll
  }

  lemma {:induction false} SleptIsProduct(n: nat, poll: nat)
    ensures Slept(n, poll) == n * poll
  {
    if n == 0 {
    } else {
      SleptIsProduct(n - 1, poll);
    }
  }

  /** The polls so far took at least their sleeps, and all but the last of these
      were begun in time. */
  predicate Paced(t: seq<Call>, elapsed: int, p: Params) {
    0 <= Slept(Polls(t), p.poll) <= elapsed && Slept(Polls(t) - 1, p.poll) <= p.timeout
  }

  /** No more polls than fit into the timeout, and two. */
  predicate PollsBounded(t: seq<Call>, p: Params) {
    Slept(Polls(t) - 2, p.poll) <= p.timeout
  }

  /** In numbers: at most timeout / poll + 2 polls. */
  lemma {:induction false} PollsFitTheTimeout(t: seq<Call>, p: Params)
    requires p.poll > 0 && PollsBounded(t, p)
    ensures Polls(t) <= p.timeout / p.poll + 2
  {
    if Polls(t) > 2 {
      var n, q := Polls(t) - 2, p.timeout / p.poll;
      SleptIsProduct(n, p.poll);
      assert p.timeout < (q + 1) * p.poll;
      assert n * p.poll < (q + 1) * p.poll;
      LessFactor(n, q + 1, p.poll);
    }
  }

  lemma LessFactor(a: nat, b: nat, k: nat)
    ensures a * k < b * k ==> a < b
  {
    if a >= b {
      assert a * k == b * k + (a - b) * k;
    }
  }

  /** Since `head`, only polls of the bundle, and none has settled it. */
  predicate Polling(t: seq<Call>, head: seq<Call>, id: BundleId) {
    |head| <= |t| && t[..|head|] == head && OnlyPolls(t, id) && Undecided(t)
  }

  lemma PollingOneMore(t: seq<Call>, head: seq<Call>, id: BundleId, c: Call)
    requires Polling(t, head, id) && |head| >= 4 && ((c.PollInflight? && c.id == id) || (c.PollStatus? && c.id == id))
    ensures |head| <= |t + [c]| && (t + [c])[..|head|] == head && OnlyPolls(t + [c], id)
    ensures !Decides(c) ==> Polling(t + [c], head, id)
  {
    assert (t + [c])[..|head|] == t[..|head|];
  }

  lemma SentStays(
    head: seq<Call>, t: seq<Call>, id: BundleId, txs: seq<Tx>, sign: Tx -> Option<Wire>, lastValid: nat, p: Params)
    requires |head| == 4 && SentProperly(head, txs, sign, lastValid, p)
    requires |t| >= 4 && t[..4] == head && OnlyPolls(t, id)
    ensures SentProperly(t, txs, sign, lastValid, p) && t[2] == head[2] && t[3] == head[3] && SendsOnlyOnce(t)
  {
    forall i | 0 <= i < 4
      ensures t[i] == head[i]
    {
      assert t[i] == t[..4][i];
    }
  }

  lemma SentStaysToTheEnd(t: seq<Call>, u: seq<Call>, txs: seq<Tx>, sign: Tx -> Option<Wire>, lastValid: nat, p: Params)
    requires SentProperly(t, txs, sign, lastValid, p) && SendsOnlyOnce(t)
    requires |u| >= |t| && u[..|t|] == t && OnlyStatuses(u, |t|)
    ensures SentProperly(u, txs, sign, lastValid, p) && u[2] == t[2] && u[3] == t[3] && SendsOnlyOnce(u)
  {
    forall i | 0 <= i < |t|
      ensures u[i] == t[i]
    {
      assert u[i] == u[..|t|][i];
    }
  }

  /** The end is justified by what was seen. */
  ghost predicate Justified(
    r: Outcome, t: seq<Call>, txs: seq<Tx>, sign: Tx -> Option<Wire>, lastValid: nat, p: Params)
  {
    match r
    case NotSent => Stopped(t, txs, sign, lastValid, p)
    case HasLanded(id, slot, realized) =>
      && SentProperly(t, txs, sign, lastValid, p) && t[3].accepted == Some(id)
      && SawInflight(t, id, Landed(slot)) && SawConfirmed(t, id)
      && DecidedAt(t, |t| - 2) && t[|t| - 1].Balance?
      && realized == (if t[|t| - 1].lamports.Some? then Some(t[|t| - 1].lamports.value - t[2].lamports.value) else None)
    case HasFailed(id) =>
      && SentProperly(t, txs, sign, lastValid, p) && t[3].accepted == Some(id)
      && DecidedAt(t, |t| - 1)
      && (SawInflight(t, id, Failed) || ((exists slot :: SawInflight(t, id, Landed(slot))) && SawError(t, id)))
    case TimedOut(id) =>
      SentProperly(t, txs, sign, lastValid, p) && t[3].accepted == Some(id) && Undecided(t)
  }

  // ------------------------------------------------------------------
  // execute_live
  // ------------------------------------------------------------------

  /** Signs in order, stopping at the first that cannot be signed or serialized. */
  method SignAll(txs: seq<Tx>, sign: Tx -> Option<Wire>) returns (wires: Option<seq<Wire>>)
    ensures wires.Some? <==> forall i | 0 <= i < |txs| :: sign(txs[i]).Some?
    ensures wires.Some? ==> |wires.value| == |txs| && forall i | 0 <= i < |txs| :: sign(txs[i]) == Some(wires.value[i])
  {
    var out := [];
    for i := 0 to |txs|
      invariant |out| == i && forall j | 0 <= j < i :: sign(txs[j]) == Some(out[j])
    {
      var w := sign(txs[i]);
      if w.None? {
        return None;
      }
      out := out + [w.value];
    }
    return Some(out);
  }

  /** Main result, for every backend: at most one bundle is sent, and only after
      headroom, a clean simulation of the very bytes and a sufficient balance; each
      outcome is justified by the answers seen, the end of the wait included; and the
      polls are bounded. */
  method ExecuteLive(b: Backend, sign: Tx -> Option<Wire>, txs: seq<Tx>, lastValid: nat, p: Params) returns (r: Outcome)
    requires b.calls == [] && p.poll > 0
    modifies b
    ensures r.TimedOut? ==> b.now - old(b.now) > p.timeout
    ensures SendsOnlyOnce(b.calls)
    ensures |b.calls| > 3 ==> SentProperly(b.calls, txs, sign, lastValid, p)
    ensures Justified(r, b.calls, txs, sign, lastValid, p) && InOrder(b.calls)
    ensures PollsBounded(b.calls, p)
  {
    var cleared := ClearToSend(b, sign, txs, lastValid, p);
    if cleared.None? {
      NoPolls(b.calls);
      return NotSent;
    }
    var (wires, pre) := cleared.value;
    var started := b.now;
    var id := b.SendBundle(wires);
    NoPolls(b.calls);
    if id.None? {
      return NotSent;
    }
    r := Await(b, id.value, pre, started, p, sign, txs, lastValid);
  }

  /** The checks before the sending, in their order; the signed bytes and the balance if
      all of them pass. */
  method ClearToSend(b: Backend, sign: Tx -> Option<Wire>, txs: seq<Tx>, lastValid: nat, p: Params)
    returns (r: Option<(seq<Wire>, nat)>)
    requires b.calls == []
    modifies b
    ensures b.now >= old(b.now) && |b.calls| <= 3
    ensures forall i | 0 <= i < |b.calls| :: b.calls[i].Height? || b.calls[i].Simulate? || b.calls[i].Balance?
    ensures r.None? ==> Stopped(b.calls, txs, sign, lastValid, p)
    ensures r.Some? ==>
      && |b.calls| == 3 && Sendable(txs, sign) && r.value.0 == [sign(txs[0]).value]
      && Headroom(b.calls[0], lastValid, p) && b.calls[1] == Simulate(sign(txs[0]).value, Some(true))
      && b.calls[2] == Balance(Some(r.value.1)) && Funded(b.calls[2], p)
  {
    var h := b.AskHeight();
    if h.None? || h.value + p.blockhashMargin >= lastValid {
      return None;
    }
    var wires := SignAll(txs, sign);
    if wires.None? || |txs| != 1 {
      return None;
    }
    var clean := b.AskSimulation(wires.value[0]);
    if clean != Some(true) {
      return None;
    }
    var pre := b.AskBalance();
    if pre.None? || pre.value < p.minWalletLamports {
      return None;
    }
    return Some((wires.value, pre.value));
  }

  /** The clock has run since `started`, before the sending; if that took too long, there
      is no poll at all. */
  method Await(
    b: Backend, id: BundleId, pre: nat, started: nat, p: Params,
    ghost sign: Tx -> Option<Wire>, ghost txs: seq<Tx>, ghost lastValid: nat)
    returns (r: Outcome)
    requires p.poll > 0 && started <= b.now && |b.calls| == 4 && Polls(b.calls) == 0 && SendsOnlyOnce(b.calls)
    requires SentProperly(b.calls, txs, sign, lastValid, p) && b.calls[3].accepted == Some(id)
      && b.calls[2] == Balance(Some(pre))
    modifies b
    ensures r.TimedOut? ==> b.now - started > p.timeout
    ensures SendsOnlyOnce(b.calls) && |b.calls| > 3 && SentProperly(b.calls, txs, sign, lastValid, p)
    ensures Justified(r, b.calls, txs, sign, lastValid, p) && InOrder(b.calls)
    ensures PollsBounded(b.calls, p)
  {
    ghost var head := b.calls;
    var arrival := AwaitInflight(b, id, started, p);
    ghost var at := b.calls;
    SentStays(head, at, id, txs, sign, lastValid, p);
    match arrival {
      case Broken => return HasFailed(id);
      case Missing => return TimedOut(id);
      case Arrived(slot) =>
        r := Confirm(b, id, slot, pre, started, p);
        SentStaysToTheEnd(at, b.calls, txs, sign, lastValid, p);
        LandedThenStatuses(at, b.calls);
        assert at[|at| - 1] == b.calls[..|at|][|at| - 1];
    }
  }

  datatype Arrival = Arrived(slot: nat) | Broken | Missing

  /** The outer loop: until the bundle is seen landed or failed, or time is up. */
  method AwaitInflight(b: Backend, id: BundleId, started: nat, p: Params) returns (r: Arrival)
    requires p.poll > 0 && started <= b.now && |b.calls| == 4 && Polls(b.calls) == 0
    modifies b
    ensures |b.calls| >= 4 && b.calls[..4] == old(b.calls) && OnlyPolls(b.calls, id)
    ensures b.now >= started && Paced(b.calls, b.now - started, p) && PollsBounded(b.calls, p)
    ensures r != Missing ==> |b.calls| > 4 && InFlight(b.calls, |b.calls| - 1)
    ensures match r
      case Arrived(slot) => b.calls[|b.calls| - 1] == PollInflight(id, Some(Landed(slot))) && Undecided(b.calls)
      case Broken => b.calls[|b.calls| - 1] == PollInflight(id, Some(Failed)) && DecidedAt(b.calls, |b.calls| - 1)
      case Missing => b.now - started > p.timeout && InFlight(b.calls, |b.calls|) && Undecided(b.calls)
  {
    while b.now - started <= p.timeout
      invariant Polling(b.calls, old(b.calls), id) && InFlight(b.calls, |b.calls|)
      invariant b.now >= started && Paced(b.calls, b.now - started, p)
      decreases p.timeout - (b.now - started)
    {
      b.Sleep(p.poll);
      ghost var before := b.calls;
      var seen := b.AskInflight(id);
      PollsSnoc(before, PollInflight(id, seen));
      PollingOneMore(before, old(b.calls), id, PollInflight(id, seen));
      if seen == Some(Failed) {
        return Broken;
      }
      if seen.Some? && seen.value.Landed? {
        return Arrived(seen.value.slot);
      }
    }
    return Missing;
  }

  method Confirm(b: Backend, id: BundleId, slot: nat, pre: nat, started: nat, p: Params) returns (r: Outcome)
    requires p.poll > 0 && |b.calls| > 4 && OnlyPolls(b.calls, id) && SawInflight(b.calls, id, Landed(slot))
    requires Paced(b.calls, b.now - started, p) && Undecided(b.calls)
    modifies b
    ensures r.TimedOut? ==> b.now - started > p.timeout && Undecided(b.calls)
    ensures |b.calls| >= |old(b.calls)| && b.calls[..|old(b.calls)|] == old(b.calls)
    ensures OnlyStatuses(b.calls, |old(b.calls)|)
    ensures PollsBounded(b.calls, p)
    ensures !r.NotSent? && r.id == id
    ensures r.HasLanded? ==>
      && SawConfirmed(b.calls, id) && DecidedAt(b.calls, |b.calls| - 2) && r.slot == slot
      && b.calls[|b.calls| - 1].Balance?
      && r.realized ==
        (if b.calls[|b.calls| - 1].lamports.Some? then Some(b.calls[|b.calls| - 1].lamports.value - pre) else None)
    ensures r.HasFailed? ==> SawError(b.calls, id) && DecidedAt(b.calls, |b.calls| - 1)
  {
    var end := AwaitStatus(b, id, started, p);
    if end == Errored {
      return HasFailed(id);
    }
    if end == Late {
      return TimedOut(id);
    }
    ghost var before := b.calls;
    var post := b.AskBalance();
    PollsSnoc(before, Balance(post));
    assert b.calls[..|before|] == before;
    r := HasLanded(id, slot, if post.Some? then Some(post.value - pre) else None);
  }

  datatype Settlement = Good | Errored | Late

  /** The inner loop: until the landed bundle is confirmed, or shown to have failed, or
      time is up. */
  method AwaitStatus(b: Backend, id: BundleId, started: nat, p: Params) returns (r: Settlement)
    requires p.poll > 0 && |b.calls| > 4 && OnlyPolls(b.calls, id)
    requires Paced(b.calls, b.now - started, p) && Undecided(b.calls)
    modifies b
    ensures |b.calls| >= |old(b.calls)| && b.calls[..|old(b.calls)|] == old(b.calls) && OnlyPolls(b.calls, id)
    ensures PollsBounded(b.calls, p) && OnlyStatuses(b.calls, |old(b.calls)|)
    ensures match r
      case Good => SawConfirmed(b.calls, id) && DecidedAt(b.calls, |b.calls| - 1)
      case Errored => SawError(b.calls, id) && DecidedAt(b.calls, |b.calls| - 1)
      case Late => b.now - started > p.timeout && Undecided(b.calls)
  {
    ghost var start := b.calls;
    while true
      invariant Polling(b.calls, start, id) && OnlyStatuses(b.calls, |start|)
      invariant Paced(b.calls, b.now - started, p)
      decreases p.timeout + p.poll - (b.now - started)
    {
      ghost var before := b.calls;
      var s := b.AskStatus(id);
      PollsSnoc(before, PollStatus(id, s));
      PollingOneMore(before, start, id, PollStatus(id, s));
      if s.Some? && s.value.error {
        assert PollStatus(id, Some(Status(s.value.confirmation, true))) in b.calls;
        return Errored;
      }
      if s.Some? && (s.value.confirmation == Some(Confirmed) || s.value.confirmation == Some(Finalized)) {
        return Good;
      }
      if b.now - started > p.timeout {
        return Late;
      }
      b.Sleep(p.poll);
    }
  }
}
