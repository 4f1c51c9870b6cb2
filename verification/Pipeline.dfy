/** The life of an opportunity (crates/execution/src/pipeline.rs): priced and
    assembled, simulated, judged by the risk engine, then filled on paper, confirmed
    by the operator or sent. Pricing, simulation, risk, the operator, the clock and
    the chain are arbitrary answers. */
module Pipeline {
  import opened Wrappers

  datatype Mode = Paper | Confirm | Live

  datatype Skip =
    | StaleQuote | SimUnavailable | SimFailed | RiskLimit | Declined | Expired | TxTooLarge | BuildFailed
    | OtherReason(code: nat)

  datatype Status =
    | Quoted | Skipped(reason: Skip) | Executable | AwaitingConfirm | Submitted | PaperFilled | Landed | Failed
  {
    predicate IsTerminal() {
      Skipped? || PaperFilled? || Landed? || Failed?
    }
  }

  datatype Config = Config(mode: Mode, hasTaker: bool, liveGate: bool, simulateUnprofitable: bool)

  /** What the pipeline does that others can see, each for one opportunity. */
  datatype Event =
    | Emit(status: Status)
    | Simulated(ok: bool)
    | Judged(approved: bool)
    | Asked
    | Answered(approve: bool)
    | OpenExecution
    | ExecuteLive
    | CloseExecution

  datatype Assembled = Single(opensAccounts: bool) | Bundle | OverLimit | Broken

  datatype Protection = AsQuoted | Requoted(verdict: Option<Skip>) | Unprotectable(reason: Skip)

  datatype SimAnswer = Clean | Errored | Unreachable

  datatype Answer = Approve | Decline | NoAnswer

  /** Everything that happens to one opportunity from outside. A verdict of the
      pricing functions is a reason to skip, or none. */
  datatype Fate = Fate(
    priced: Option<Skip>, protects: bool, protection: Protection, assembled: Assembled, repriced: Option<Skip>,
    queued: bool, stale: bool, sims: seq<SimAnswer>, repricedAfterSim: Option<Skip>, simFailure: Skip,
    approved: bool, riskSkip: Option<Skip>, answer: Answer, staleAfterAnswer: bool, assemblesAgain: bool, landed: bool)

  function Verdict(skip: Option<Skip>): Status {
    if skip.None? then Quoted else Skipped(skip.value)
  }

  /** `ok` of a simulation: every transaction was simulated without error. */
  predicate AllClean(sims: seq<SimAnswer>) {
    forall i | 0 <= i < |sims| :: sims[i] == Clean
  }

  // ------------------------------------------------------------------
  // What one opportunity's events are.
  // ------------------------------------------------------------------

  function Protected(f: Fate): Status {
    var s := Verdict(f.priced);
    if s == Quoted && f.protects then
      match f.protection
      case AsQuoted => s
      case Requoted(verdict) => Verdict(verdict)
      case Unprotectable(reason) => Skipped(reason)
    else s
  }

  /** The status `prepare` leaves, and whether there is a job to simulate. */
  function Prepared(f: Fate): (Status, bool) {
    var s := Protected(f);
    match f.assembled
    case OverLimit => (if s == Quoted then Skipped(TxTooLarge) else s, false)
    case Broken => (if s == Quoted then Skipped(BuildFailed) else s, false)
    case Single(opens) => (if opens then Repriced(s, f) else s, true)
    case Bundle => (Repriced(s, f), true)
  }

  function Repriced(before: Status, f: Fate): Status {
    var now := Verdict(f.repriced);
    if before != Quoted && now == Quoted then before else now
  }

  function SendEvents(cfg: Config, f: Fate): seq<Event> {
    if !cfg.liveGate then [Emit(Skipped(RiskLimit))]
    else if !f.assemblesAgain then [Emit(Skipped(TxTooLarge))]
    else [OpenExecution, Emit(Submitted), ExecuteLive, CloseExecution, Emit(if f.landed then Landed else Failed)]
  }

  function ConfirmEvents(cfg: Config, f: Fate): seq<Event> {
    [Asked, Emit(AwaitingConfirm)] +
    match f.answer
    case Approve => [Answered(true)] + (if f.staleAfterAnswer then [Emit(Skipped(StaleQuote))] else SendEvents(cfg, f))
    case Decline => [Answered(false), Emit(Skipped(Declined))]
    case NoAnswer => [Emit(Skipped(Expired))]
  }

  function DecideEvents(cfg: Config, f: Fate): seq<Event> {
    if !f.approved then [Judged(false), Emit(Skipped(if f.riskSkip.Some? then f.riskSkip.value else RiskLimit))]
    else [Judged(true), Emit(Executable)] + ModeEvents(cfg, f)
  }

  function ModeEvents(cfg: Config, f: Fate): seq<Event> {
    match cfg.mode
    case Paper => [OpenExecution, CloseExecution, Emit(PaperFilled)]
    case Confirm => ConfirmEvents(cfg, f)
    case Live => SendEvents(cfg, f)
  }

  /** The status after simulation; an unprofitable sample keeps its first reason. */
  function AfterSim(before: Status, f: Fate): Status {
    if before != Quoted then before
    else if AllClean(f.sims) then Verdict(f.repricedAfterSim)
    else Skipped(f.simFailure)
  }

  function SimulateEvents(cfg: Config, before: Status, f: Fate): seq<Event> {
    if f.stale then (if before == Quoted then [Emit(Skipped(StaleQuote))] else [])
    else if !cfg.hasTaker then (if before == Quoted then [Emit(Skipped(SimUnavailable))] else [])
    else RunEvents(cfg, before, f)
  }

  function RunEvents(cfg: Config, before: Status, f: Fate): seq<Event> {
    [Simulated(AllClean(f.sims))] + ConcludeEvents(cfg, AfterSim(before, f), f)
  }

  lemma Associative<T>(a: seq<T>, b: seq<T>, c: seq<T>)
    ensures (a + b) + c == a + (b + c)
  {
  }

  function ConcludeEvents(cfg: Config, status: Status, f: Fate): seq<Event> {
    if status == Quoted then DecideEvents(cfg, f) else [Emit(status)]
  }

  /** All events of one opportunity, from `prepare` to its end. */
  function JobEvents(cfg: Config, f: Fate): seq<Event> {
    var (status, job) := Prepared(f);
    [Emit(status)] +
    if job && f.queued && (status == Quoted || cfg.simulateUnprofitable) then SimulateEvents(cfg, status, f) else []
  }

  // ------------------------------------------------------------------
  // The pipeline, step by step.
  // ------------------------------------------------------------------

  class Runner {
    const cfg: Config
    var log: seq<Event>
    var openExecutions: nat

    constructor (cfg: Config)
      ensures this.cfg == cfg && log == [] && openExecutions == 0
    {
      this.cfg := cfg;
      log := [];
      openExecutions := 0;
    }

    method Note(e: Event)
      modifies this`log
      ensures log == old(log) + [e]
    {
      log := log + [e];
    }

    /** One opportunity, from its pricing to its end. */
    method RunJob(f: Fate)
      modifies this
      ensures log == old(log) + JobEvents(cfg, f) && openExecutions == old(openExecutions)
    {
      var status, job := Prepare(f);
      if job && f.queued && (status == Quoted || cfg.simulateUnprofitable) {
        SimulateJob(status, f);
        Associative(old(log), [Emit(status)], SimulateEvents(cfg, status, f));
      }
    }

    method Prepare(f: Fate) returns (status: Status, job: bool)
      modifies this`log
      ensures (status, job) == Prepared(f) && log == old(log) + [Emit(status)]
    {
      status, job := Verdict(f.priced), true;
      if status == Quoted && f.protects {
        match f.protection {
          case AsQuoted =>
          case Requoted(verdict) => status := Verdict(verdict);
          case Unprotectable(reason) => status := Skipped(reason);
        }
      }
      if f.assembled == OverLimit || f.assembled == Broken {
        if status == Quoted {
          status := Skipped(if f.assembled == OverLimit then TxTooLarge else BuildFailed);
        }
        job := false;
      } else if f.assembled == Bundle || f.assembled.opensAccounts {
        var before := status;
        status := Verdict(f.repriced);
        if before != Quoted && status == Quoted {
          status := before;
        }
      }
      Note(Emit(status));
    }

    method SimulateTxs(sims: seq<SimAnswer>) returns (ok: bool)
      ensures ok == AllClean(sims)
    {
      var failure := false;
      var simulated := 0;
      for i := 0 to |sims|
        invariant simulated == i && failure == !AllClean(sims[..i])
      {
        if sims[i] == Unreachable {
          failure := true;
          break;
        }
        if sims[i] == Errored {
          failure := true;
        }
        simulated := simulated + 1;
      }
      ok := !failure && simulated == |sims|;
    }

    method StatusAfter(ok: bool, before: Status, f: Fate) returns (status: Status)
      requires ok == AllClean(f.sims)
      ensures status == AfterSim(before, f)
    {
      var candidate := before == Quoted;
      status := before;
      if ok {
        status := Verdict(f.repricedAfterSim);
        if !candidate {
          status := before;
        }
      } else if candidate {
        status := Skipped(f.simFailure);
      }
    }

    method SimulateJob(before: Status, f: Fate)
      modifies this
      ensures log == old(log) + SimulateEvents(cfg, before, f) && openExecutions == old(openExecutions)
    {
      var candidate := before == Quoted;
      if f.stale {
        if candidate {
          Note(Emit(Skipped(StaleQuote)));
        }
        return;
      }
      if !cfg.hasTaker {
        if candidate {
          Note(Emit(Skipped(SimUnavailable)));
        }
        return;
      }
      Simulate(before, f);
    }

    method Simulate(before: Status, f: Fate)
      modifies this
      ensures log == old(log) + RunEvents(cfg, before, f) && openExecutions == old(openExecutions)
    {
      var ok := SimulateTxs(f.sims);
      var status := StatusAfter(ok, before, f);
      Note(Simulated(ok));
      Conclude(status, f);
      Associative(old(log), [Simulated(ok)], ConcludeEvents(cfg, status, f));
    }

    method Conclude(status: Status, f: Fate)
      modifies this
      ensures log == old(log) + ConcludeEvents(cfg, status, f) && openExecutions == old(openExecutions)
    {
      if status == Quoted {
        Decide(f);
      } else {
        Note(Emit(status));
      }
    }

    method Decide(f: Fate)
      modifies this
      ensures log == old(log) + DecideEvents(cfg, f) && openExecutions == old(openExecutions)
    {
      Note(Judged(f.approved));
      if !f.approved {
        Note(Emit(Skipped(if f.riskSkip.Some? then f.riskSkip.value else RiskLimit)));
        return;
      }
      Note(Emit(Executable));
      match cfg.mode {
        case Paper => PaperFill();
        case Confirm => ConfirmThenSend(f);
        case Live => SendLive(f);
      }
    }

    method PaperFill()
      modifies this
      ensures log == old(log) + [OpenExecution, CloseExecution, Emit(PaperFilled)]
        && openExecutions == old(openExecutions)
    {
      openExecutions := openExecutions + 1;
      Note(OpenExecution);
      openExecutions := openExecutions - 1;
      Note(CloseExecution);
      Note(Emit(PaperFilled));
    }

    method ConfirmThenSend(f: Fate)
      modifies this
      ensures log == old(log) + ConfirmEvents(cfg, f) && openExecutions == old(openExecutions)
    {
      Note(Asked);
      Note(Emit(AwaitingConfirm));
      match f.answer {
        case Approve =>
          Note(Answered(true));
          if f.staleAfterAnswer {
            Note(Emit(Skipped(StaleQuote)));
          } else {
            SendLive(f);
          }
        case Decline =>
          Note(Answered(false));
          Note(Emit(Skipped(Declined)));
        case NoAnswer =>
          Note(Emit(Skipped(Expired)));
      }
    }

    method SendLive(f: Fate)
      modifies this
      ensures log == old(log) + SendEvents(cfg, f) && openExecutions == old(openExecutions)
    {
      if !cfg.liveGate {
        Note(Emit(Skipped(RiskLimit)));
        return;
      }
      if !f.assemblesAgain {
        Note(Emit(Skipped(TxTooLarge)));
        return;
      }
      openExecutions := openExecutions + 1;
      Note(OpenExecution);
      Note(Emit(Submitted));
      Note(ExecuteLive);
      openExecutions := openExecutions - 1;
      Note(CloseExecution);
      Note(Emit(if f.landed then Landed else Failed));
    }
  }

  // ------------------------------------------------------------------
  // One opportunity.
  // ------------------------------------------------------------------

  /** What must have happened, and nothing else, before a transaction goes out. */
  function Clearance(mode: Mode): seq<Event> {
    [Emit(Quoted), Simulated(true), Judged(true), Emit(Executable)]
    + (if mode == Confirm then [Asked, Emit(AwaitingConfirm), Answered(true)] else [])
    + [OpenExecution, Emit(Submitted)]
  }

  /** The events after clearance of an opportunity that is sent. */
  function Outcome(f: Fate): seq<Event> {
    [ExecuteLive, CloseExecution, Emit(if f.landed then Landed else Failed)]
  }

  predicate Sends(cfg: Config, f: Fate) {
    && Prepared(f) == (Quoted, true) && f.queued && !f.stale && cfg.hasTaker && AllClean(f.sims)
    && f.repricedAfterSim.None?
    && f.approved && cfg.mode != Paper && cfg.liveGate && f.assemblesAgain
    && (cfg.mode == Confirm ==> f.answer == Approve && !f.staleAfterAnswer)
  }

  predicate Quiet(t: seq<Event>) {
    forall i | 0 <= i < |t| :: t[i] != ExecuteLive
  }

  lemma SendEventsShape(cfg: Config, f: Fate)
    ensures if cfg.liveGate && f.assemblesAgain
            then SendEvents(cfg, f) == [OpenExecution, Emit(Submitted)] + Outcome(f) else Quiet(SendEvents(cfg, f))
  {
  }

  lemma ConfirmEventsShape(cfg: Config, f: Fate)
    ensures if f.answer == Approve && !f.staleAfterAnswer
            then ConfirmEvents(cfg, f) == [Asked, Emit(AwaitingConfirm), Answered(true)] + SendEvents(cfg, f)
            else Quiet(ConfirmEvents(cfg, f))
  {
  }

  /** An opportunity either never reaches the chain, or reaches it through the whole
      clearance of its mode. */
  lemma SentExactlyWhenCleared(cfg: Config, f: Fate)
    ensures if Sends(cfg, f) then JobEvents(cfg, f) == Clearance(cfg.mode) + Outcome(f) else Quiet(JobEvents(cfg, f))
  {
    if Sends(cfg, f) {
      ClearedIsSent(cfg, f);
    } else {
      UnclearedIsQuiet(cfg, f);
    }
  }

  lemma ClearedIsSent(cfg: Config, f: Fate)
    requires Sends(cfg, f)
    ensures JobEvents(cfg, f) == Clearance(cfg.mode) + Outcome(f)
  {
    UpToTheMode(cfg, f);
    ModeWhenSent(cfg, f);
  }

  lemma UpToTheMode(cfg: Config, f: Fate)
    requires Sends(cfg, f)
    ensures JobEvents(cfg, f) == [Emit(Quoted), Simulated(true), Judged(true), Emit(Executable)] + ModeEvents(cfg, f)
  {
    assert SimulateEvents(cfg, Quoted, f) == [Simulated(true)] + DecideEvents(cfg, f);
  }

  lemma ModeWhenSent(cfg: Config, f: Fate)
    requires Sends(cfg, f)
    ensures [Emit(Quoted), Simulated(true), Judged(true), Emit(Executable)] + ModeEvents(cfg, f) ==
      Clearance(cfg.mode) + Outcome(f)
  {
    SendEventsShape(cfg, f);
    ConfirmEventsShape(cfg, f);
  }

  lemma UnclearedIsQuiet(cfg: Config, f: Fate)
    requires !Sends(cfg, f)
    ensures Quiet(JobEvents(cfg, f))
  {
    SendEventsShape(cfg, f);
    ConfirmEventsShape(cfg, f);
  }

  /** A candidate is one whose every verdict on the way was to go on: assembly and
      re-pricing never revive a skipped opportunity. */
  lemma NeverRevived(f: Fate)
    requires Prepared(f).0 == Quoted
    ensures f.priced.None? && Protected(f) == Quoted && (f.assembled.Single? || f.assembled.Bundle?)
    ensures f.assembled == Bundle || f.assembled == Single(true) ==> f.repriced.None?
  {
  }

  // ------------------------------------------------------------------
  // The first closed gate decides.
  // ------------------------------------------------------------------

  /** A gate on the way of a candidate: the reason to skip it where it is closed. */
  datatype Gate = Gate(closed: bool, reason: Skip)

  /** The gates of a candidate that is simulated, in the order in which it meets them. */
  function Gates(cfg: Config, f: Fate): seq<Gate> {
    [Gate(f.stale, StaleQuote),
     Gate(!cfg.hasTaker, SimUnavailable),
     Gate(!AllClean(f.sims), f.simFailure),
     Gate(f.repricedAfterSim.Some?, ReasonOr(f.repricedAfterSim, StaleQuote)),
     Gate(!f.approved, ReasonOr(f.riskSkip, RiskLimit)),
     Gate(cfg.mode == Confirm && f.answer == NoAnswer, Expired),
     Gate(cfg.mode == Confirm && f.answer == Decline, Declined),
     Gate(cfg.mode == Confirm && f.staleAfterAnswer, StaleQuote),
     Gate(cfg.mode != Paper && !cfg.liveGate, RiskLimit),
     Gate(cfg.mode != Paper && !f.assemblesAgain, TxTooLarge)]
  }

  function ReasonOr(reason: Option<Skip>, other: Skip): Skip {
    if reason.Some? then reason.value else other
  }

  predicate FirstClosed(gates: seq<Gate>, k: nat) {
    && k <= |gates| && (forall i | 0 <= i < k :: !gates[i].closed)
    && (k < |gates| ==> gates[k].closed)
  }

  /** Everything that can be seen of a candidate that comes to gate `k` and no further, or
      past all gates. */
  function Trace(cfg: Config, f: Fate, k: nat): seq<Event>
    requires k <= |Gates(cfg, f)|
  {
    [Emit(Quoted)]
    + (if k > 1 then [Simulated(k != 2)] else [])
    + (if k > 3 then [Judged(k != 4)] else [])
    + (if k > 4 then [Emit(Executable)] else [])
    + (if k > 4 && cfg.mode == Confirm then [Asked, Emit(AwaitingConfirm)] else [])
    + (if k > 5 && cfg.mode == Confirm then [Answered(k != 6)] else [])
    + Ending(cfg, f, k)
  }

  function Ending(cfg: Config, f: Fate, k: nat): seq<Event>
    requires k <= |Gates(cfg, f)|
  {
    if k < |Gates(cfg, f)| then [Emit(Skipped(Gates(cfg, f)[k].reason))]
    else if cfg.mode == Paper then [OpenExecution, CloseExecution, Emit(PaperFilled)]
    else [OpenExecution, Emit(Submitted), ExecuteLive, CloseExecution, Emit(if f.landed then Landed else Failed)]
  }

  lemma GateIs(cfg: Config, f: Fate, k: nat)
    requires FirstClosed(Gates(cfg, f), k)
    ensures k > 0 ==> !f.stale
    ensures k > 1 ==> cfg.hasTaker
    ensures k > 2 ==> AllClean(f.sims)
    ensures k > 3 ==> f.repricedAfterSim.None?
    ensures k > 4 ==> f.approved
    ensures k > 5 && cfg.mode == Confirm ==> f.answer != NoAnswer
    ensures k > 6 && cfg.mode == Confirm ==> f.answer == Approve
    ensures k > 7 && cfg.mode == Confirm ==> !f.staleAfterAnswer
    ensures k > 8 && cfg.mode != Paper ==> cfg.liveGate
    ensures k > 9 && cfg.mode != Paper ==> f.assemblesAgain
  {
    var g := Gates(cfg, f);
    assert k > 0 ==> !g[0].closed;
    assert k > 1 ==> !g[1].closed;
    assert k > 2 ==> !g[2].closed;
    assert k > 3 ==> !g[3].closed;
    assert k > 4 ==> !g[4].closed;
    assert k > 5 ==> !g[5].closed;
    assert k > 6 ==> !g[6].closed;
    assert k > 7 ==> !g[7].closed;
    assert k > 8 ==> !g[8].closed;
    assert k > 9 ==> !g[9].closed;
  }

  lemma TraceOfSend(cfg: Config, f: Fate, k: nat)
    requires FirstClosed(Gates(cfg, f), k) && k >= 8 && cfg.mode != Paper
    ensures SendEvents(cfg, f) == Ending(cfg, f, k)
  {
    GateIs(cfg, f, k);
  }

  lemma TraceOfConfirm(cfg: Config, f: Fate, k: nat)
    requires FirstClosed(Gates(cfg, f), k) && k >= 5 && cfg.mode == Confirm
    ensures ConfirmEvents(cfg, f) ==
      [Asked, Emit(AwaitingConfirm)] + (if k > 5 then [Answered(k != 6)] else []) + Ending(cfg, f, k)
  {
    GateIs(cfg, f, k);
    if k >= 8 {
      TraceOfSend(cfg, f, k);
    }
  }

  lemma TraceOfMode(cfg: Config, f: Fate, k: nat)
    requires FirstClosed(Gates(cfg, f), k) && k >= 5
    ensures ModeEvents(cfg, f) ==
      (if cfg.mode == Confirm then [Asked, Emit(AwaitingConfirm)] else [])
      + (if k > 5 && cfg.mode == Confirm then [Answered(k != 6)] else [])
      + Ending(cfg, f, k)
  {
    GateIs(cfg, f, k);
    match cfg.mode
    case Paper =>
    case Confirm => TraceOfConfirm(cfg, f, k);
    case Live => TraceOfSend(cfg, f, k);
  }

  lemma TraceAfterSim(cfg: Config, f: Fate, k: nat)
    requires FirstClosed(Gates(cfg, f), k) && k >= 2
    ensures RunEvents(cfg, Quoted, f) == Trace(cfg, f, k)[1..]
  {
    if k >= 5 {
      TraceFromMode(cfg, f, k);
      GateIs(cfg, f, k);
      RunToTheMode(cfg, f);
    } else {
      TraceBeforeMode(cfg, f, k);
    }
  }

  lemma TraceFromMode(cfg: Config, f: Fate, k: nat)
    requires FirstClosed(Gates(cfg, f), k) && k >= 5
    ensures Trace(cfg, f, k)[1..] == [Simulated(true), Judged(true), Emit(Executable)] + ModeEvents(cfg, f)
  {
    TraceOfMode(cfg, f, k);
  }

  lemma TraceBeforeMode(cfg: Config, f: Fate, k: nat)
    requires FirstClosed(Gates(cfg, f), k) && 2 <= k < 5
    ensures RunEvents(cfg, Quoted, f) == Trace(cfg, f, k)[1..]
  {
    assert Ending(cfg, f, k) == [Emit(Skipped(Gates(cfg, f)[k].reason))];
    GateIs(cfg, f, k);
  }

  lemma RunToTheMode(cfg: Config, f: Fate)
    requires AllClean(f.sims) && f.repricedAfterSim.None? && f.approved
    ensures RunEvents(cfg, Quoted, f) == [Simulated(true), Judged(true), Emit(Executable)] + ModeEvents(cfg, f)
  {
  }

  /** Some gate is the first that is closed, or none is. */
  lemma {:induction false} SomeGateIsFirst(gates: seq<Gate>)
    ensures exists k: nat :: FirstClosed(gates, k)
  {
    if gates == [] {
      assert FirstClosed(gates, 0);
    } else {
      var n := |gates| - 1;
      SomeGateIsFirst(gates[..n]);
      var k: nat :| FirstClosed(gates[..n], k);
      assert FirstClosed(gates, if k == n && !gates[n].closed then n + 1 else k);
    }
  }

  /** Main result on a candidate: it is skipped at the first closed gate with that gate's
      reason, after the events of the gates before and no others; past all gates it is filled
      on paper, or sent. */
  lemma {:induction false} FirstClosedGateDecides(cfg: Config, f: Fate, k: nat)
    requires Prepared(f) == (Quoted, true) && f.queued && FirstClosed(Gates(cfg, f), k)
    ensures JobEvents(cfg, f) == Trace(cfg, f, k)
  {
    GateIs(cfg, f, k);
    if k >= 2 {
      TraceAfterSim(cfg, f, k);
    }
    assert JobEvents(cfg, f) == [Emit(Quoted)] + SimulateEvents(cfg, Quoted, f);
  }

  /** What pricing and protection say together, if anything. */
  function QuoteVerdict(f: Fate): Option<Skip> {
    if f.priced.Some? || !f.protects then f.priced
    else match f.protection
      case AsQuoted => None
      case Requoted(verdict) => verdict
      case Unprotectable(reason) => Some(reason)
  }

  predicate PricedAgain(f: Fate) {
    f.assembled == Bundle || f.assembled == Single(true)
  }

  /** Main result on any other opportunity: it is skipped, for the reason the re-pricing in the
      assembled shape gives, or else pricing and protection, or else assembly; and if it is
      simulated all the same, as a sample, that reason is the one it keeps. */
  lemma {:induction false} OthersKeepTheirReason(cfg: Config, f: Fate)
    ensures Prepared(f).0 == Quoted <==>
      && QuoteVerdict(f).None? && f.assembled != OverLimit && f.assembled != Broken
      && (PricedAgain(f) ==> f.repriced.None?)
    ensures Prepared(f).1 <==> f.assembled != OverLimit && f.assembled != Broken
    ensures Prepared(f).0 != Quoted ==>
      && var unfit := if f.assembled == OverLimit then TxTooLarge else BuildFailed;
      && var reason :=
           if PricedAgain(f) && f.repriced.Some? then f.repriced.value else ReasonOr(QuoteVerdict(f), unfit);
      && var sampled := Prepared(f).1 && f.queued && cfg.simulateUnprofitable && !f.stale && cfg.hasTaker;
      && JobEvents(cfg, f) == [Emit(Skipped(reason))]
         + if sampled then [Simulated(AllClean(f.sims)), Emit(Skipped(reason))] else []
    ensures Prepared(f).0 == Quoted && !f.queued ==> JobEvents(cfg, f) == [Emit(Quoted)]
  {
  }

  predicate Settled(t: seq<Event>) {
    forall i, j | 0 <= i < j < |t| && t[i].Emit? && t[j].Emit? && t[i].status.IsTerminal() :: t[j].status == t[i].status
  }

  /** No status that ends an opportunity, in a stretch of its events. */
  predicate Ongoing(t: seq<Event>) {
    forall i | 0 <= i < |t| && t[i].Emit? :: !t[i].status.IsTerminal()
  }

  lemma OngoingThenSettled(a: seq<Event>, b: seq<Event>)
    requires Ongoing(a) && Settled(b)
    ensures Settled(a + b)
  {
    var t := a + b;
    forall i, j | 0 <= i < j < |t| && t[i].Emit? && t[j].Emit? && t[i].status.IsTerminal()
      ensures t[j].status == t[i].status
    {
      assert i >= |a| ==> b[i - |a|] == t[i] && b[j - |a|] == t[j];
    }
  }

  lemma ModeEventsSettle(cfg: Config, f: Fate)
    ensures Settled(ModeEvents(cfg, f))
  {
    if cfg.mode == Confirm && f.answer == Approve && !f.staleAfterAnswer {
      ConfirmEventsShape(cfg, f);
      OngoingThenSettled([Asked, Emit(AwaitingConfirm), Answered(true)], SendEvents(cfg, f));
    }
  }

  lemma SimulateEventsSettle(cfg: Config, before: Status, f: Fate)
    requires before.Quoted? || before.Skipped?
    ensures Settled(SimulateEvents(cfg, before, f))
    ensures before.Skipped? ==> forall i | 0 <= i < |SimulateEvents(cfg, before, f)| ::
      SimulateEvents(cfg, before, f)[i].Emit? ==> SimulateEvents(cfg, before, f)[i].status == before
  {
    ModeEventsSettle(cfg, f);
    OngoingThenSettled([Judged(true), Emit(Executable)], ModeEvents(cfg, f));
    OngoingThenSettled([Simulated(AllClean(f.sims))], DecideEvents(cfg, f));
  }

  /** Once a terminal status is emitted, no other is. */
  lemma TerminalIsFinal(cfg: Config, f: Fate)
    ensures Settled(JobEvents(cfg, f))
  {
    var status := Prepared(f).0;
    SimulateEventsSettle(cfg, status, f);
    if status == Quoted {
      OngoingThenSettled([Emit(status)], SimulateEvents(cfg, status, f));
    }
  }

  /** Whether an execution is open after `t`; `None` if one was opened twice or
      closed without being open. */
  function Execution(t: seq<Event>): Option<bool> {
    if t == [] then Some(false)
    else
      var before, e := Execution(t[..|t| - 1]), t[|t| - 1];
      if before.None? || (e == OpenExecution && before.value) || (e == CloseExecution && !before.value) then None
      else if e == OpenExecution then Some(true)
      else if e == CloseExecution then Some(false)
      else before
  }

  lemma {:induction false} ExecutionSnoc(t: seq<Event>, e: Event)
    ensures Execution(t + [e]) == (
      var before := Execution(t);
      if before.None? || (e == OpenExecution && before.value) || (e == CloseExecution && !before.value) then None
      else if e == OpenExecution then Some(true)
      else if e == CloseExecution then Some(false)
      else before)
  {
    assert (t + [e])[..|t|] == t;
  }

  predicate Untouched(t: seq<Event>) {
    forall i | 0 <= i < |t| :: t[i] != OpenExecution && t[i] != CloseExecution
  }

  lemma {:induction false} ExecutionOver(t: seq<Event>, rest: seq<Event>)
    requires Untouched(rest)
    ensures Execution(t + rest) == Execution(t)
  {
    if rest == [] {
      assert t + rest == t;
    } else {
      var n := |rest| - 1;
      ExecutionOver(t, rest[..n]);
      ExecutionSnoc(t + rest[..n], rest[n]);
      assert t + rest == (t + rest[..n]) + [rest[n]];
    }
  }

  /** An execution is opened, touched by nothing else, closed: the balance is even. */
  lemma {:induction false} OpenedThenClosed(pre: seq<Event>, mid: seq<Event>, post: seq<Event>)
    requires Untouched(pre) && Untouched(mid) && Untouched(post)
    ensures Execution(pre + [OpenExecution] + mid + [CloseExecution] + post) == Some(false)
  {
    assert [] + pre == pre;
    ExecutionOver([], pre);
    ExecutionSnoc(pre, OpenExecution);
    ExecutionOver(pre + [OpenExecution], mid);
    ExecutionSnoc(pre + [OpenExecution] + mid, CloseExecution);
    ExecutionOver(pre + [OpenExecution] + mid + [CloseExecution], post);
  }

  predicate FillsOnPaper(cfg: Config, f: Fate) {
    && Prepared(f) == (Quoted, true) && f.queued && !f.stale && cfg.hasTaker && AllClean(f.sims)
    && f.repricedAfterSim.None?
    && f.approved && cfg.mode == Paper
  }

  lemma OtherwiseUntouched(cfg: Config, f: Fate)
    requires !Sends(cfg, f) && !FillsOnPaper(cfg, f)
    ensures Untouched(JobEvents(cfg, f))
  {
    if cfg.mode != Paper && !Goes(cfg, f) {
      ModeUntouched(cfg, f);
    }
  }

  /** What a mode other than PAPER still asks of an approved opportunity. */
  predicate Goes(cfg: Config, f: Fate) {
    cfg.liveGate && f.assemblesAgain && (cfg.mode == Confirm ==> f.answer == Approve && !f.staleAfterAnswer)
  }

  lemma ModeUntouched(cfg: Config, f: Fate)
    requires cfg.mode != Paper && !Goes(cfg, f)
    ensures Untouched(ModeEvents(cfg, f))
  {
    assert !(cfg.liveGate && f.assemblesAgain) ==> Untouched(SendEvents(cfg, f));
  }

  lemma SentIsBalanced(cfg: Config, f: Fate)
    requires Sends(cfg, f)
    ensures Execution(Clearance(cfg.mode) + Outcome(f)) == Some(false)
  {
    var pre := [Emit(Quoted), Simulated(true), Judged(true), Emit(Executable)]
      + if cfg.mode == Confirm then [Asked, Emit(AwaitingConfirm), Answered(true)] else [];
    var end := [Emit(if f.landed then Landed else Failed)];
    OpenedThenClosed(pre, [Emit(Submitted), ExecuteLive], end);
    assert Clearance(cfg.mode) + Outcome(f) ==
      pre + [OpenExecution] + [Emit(Submitted), ExecuteLive] + [CloseExecution] + end;
  }

  lemma PaperFillIsBalanced(cfg: Config, f: Fate)
    requires FillsOnPaper(cfg, f)
    ensures Execution(JobEvents(cfg, f)) == Some(false)
  {
    var pre := [Emit(Quoted), Simulated(true), Judged(true), Emit(Executable)];
    OpenedThenClosed(pre, [], [Emit(PaperFilled)]);
    assert JobEvents(cfg, f) == pre + [OpenExecution] + [] + [CloseExecution] + [Emit(PaperFilled)];
  }

  /** Every execution that is opened is closed, one at a time. */
  lemma ExecutionsAreBalanced(cfg: Config, f: Fate)
    ensures Execution(JobEvents(cfg, f)) == Some(false)
  {
    if Sends(cfg, f) {
      SentExactlyWhenCleared(cfg, f);
      SentIsBalanced(cfg, f);
    } else if FillsOnPaper(cfg, f) {
      PaperFillIsBalanced(cfg, f);
    } else {
      var t := JobEvents(cfg, f);
      OtherwiseUntouched(cfg, f);
      ExecutionOver([], t);
      assert [] + t == t;
    }
  }

  // ------------------------------------------------------------------
  // All opportunities at once, interleaved and cut off anywhere.
  // ------------------------------------------------------------------

  /** The events of opportunity `id` in the log of all. */
  function Of(log: seq<(nat, Event)>, id: nat): seq<Event> {
    if log == [] then []
    else Of(log[..|log| - 1], id) + if log[|log| - 1].0 == id then [log[|log| - 1].1] else []
  }

  /** Each opportunity has gone through some first part of its own events. */
  ghost predicate Interleaved(log: seq<(nat, Event)>, cfg: Config, fates: nat -> Fate) {
    forall id: nat :: Of(log, id) <= JobEvents(cfg, fates(id))
  }

  lemma {:induction false} OfGrows(log: seq<(nat, Event)>, id: nat, n: nat)
    requires n <= |log|
    ensures Of(log[..n], id) <= Of(log, id)
    ensures n < |log| && log[n].0 == id ==>
      |Of(log[..n], id)| < |Of(log, id)| && Of(log, id)[|Of(log[..n], id)|] == log[n].1
  {
    if n < |log| {
      var k := |log| - 1;
      OfGrows(log[..k], id, n);
      assert log[..k][..n] == log[..n];
    } else {
      assert log[..n] == log;
    }
  }

  /** Main result, over every interleaving: a transaction goes out only with the
      live gate open, not in PAPER, for an opportunity that had exactly the clearance
      of the mode behind it: quoted, every simulation clean, approved by risk, and in
      CONFIRM by the operator. */
  lemma SubmissionSafety(log: seq<(nat, Event)>, cfg: Config, fates: nat -> Fate, k: nat)
    requires Interleaved(log, cfg, fates) && k < |log| && log[k].1 == ExecuteLive
    ensures Sends(cfg, fates(log[k].0)) && Of(log[..k], log[k].0) == Clearance(cfg.mode)
  {
    var id := log[k].0;
    var t, n := JobEvents(cfg, fates(id)), |Of(log[..k], id)|;
    OfGrows(log, id, k);
    assert Of(log, id) <= t;
    assert t[n] == ExecuteLive;
    SentExactlyWhenCleared(cfg, fates(id));
    ClearanceIsQuiet(cfg.mode);
    OutcomeExecutesOnce(fates(id));
    FirstExecution(Clearance(cfg.mode), Outcome(fates(id)), n);
    assert Of(log[..k], id) == t[..n];
  }

  lemma FirstExecution(a: seq<Event>, b: seq<Event>, n: nat)
    requires Quiet(a) && (forall i | 0 <= i < |b| && b[i] == ExecuteLive :: i == 0)
    requires n < |a + b|
    ensures (a + b)[n] == ExecuteLive ==> n == |a|
  {
    if n < |a| {
      assert (a + b)[n] == a[n];
    } else {
      assert (a + b)[n] == b[n - |a|];
    }
  }

  lemma ClearanceIsQuiet(mode: Mode)
    ensures Quiet(Clearance(mode))
  {
  }

  lemma OutcomeExecutesOnce(f: Fate)
    ensures forall i | 0 <= i < |Outcome(f)| && Outcome(f)[i] == ExecuteLive :: i == 0
  {
  }

  /** Main result: an opportunity is sent at most once. */
  lemma SentAtMostOnce(log: seq<(nat, Event)>, cfg: Config, fates: nat -> Fate, i: nat, j: nat)
    requires Interleaved(log, cfg, fates) && i < |log| && j < |log|
    requires log[i] == log[j] && log[i].1 == ExecuteLive
    ensures i == j
  {
    SubmissionSafety(log, cfg, fates, i);
    SubmissionSafety(log, cfg, fates, j);
    var id := log[i].0;
    if i < j {
      LaterIsLonger(log, id, i, j);
    } else if j < i {
      LaterIsLonger(log, id, j, i);
    }
  }

  lemma {:induction false} LaterIsLonger(log: seq<(nat, Event)>, id: nat, i: nat, j: nat)
    requires i < j <= |log| && log[i].0 == id
    ensures |Of(log[..i], id)| < |Of(log[..j], id)|
    ensures Of(log[..j], id)[|Of(log[..i], id)|] == log[i].1
  {
    OfGrows(log[..j], id, i);
    assert log[..j][..i] == log[..i];
  }

  /** Main result: once a terminal status has been emitted for an opportunity, no
      different status is ever emitted for it. */
  lemma TerminalStaysTerminal(log: seq<(nat, Event)>, cfg: Config, fates: nat -> Fate, i: nat, j: nat)
    requires Interleaved(log, cfg, fates) && i < j < |log| && log[i].0 == log[j].0
    requires log[i].1.Emit? && log[j].1.Emit? && log[i].1.status.IsTerminal()
    ensures log[j].1.status == log[i].1.status
  {
    var id := log[i].0;
    var t := JobEvents(cfg, fates(id));
    TerminalIsFinal(cfg, fates(id));
    LaterIsLonger(log, id, i, j);
    OfGrows(log, id, i);
    OfGrows(log, id, j);
    assert Of(log, id) <= t;
    var m, n := |Of(log[..i], id)|, |Of(log[..j], id)|;
    assert t[m] == log[i].1 && t[n] == log[j].1;
  }

  /** Main result: at any moment an opportunity has at most one execution open, and
      none once it is through. */
  lemma {:induction false} ExecutionsStayBalanced(log: seq<(nat, Event)>, cfg: Config, fates: nat -> Fate, id: nat)
    requires Interleaved(log, cfg, fates)
    ensures Execution(Of(log, id)).Some?
    ensures Of(log, id) == JobEvents(cfg, fates(id)) ==> Execution(Of(log, id)) == Some(false)
  {
    ExecutionsAreBalanced(cfg, fates(id));
    PrefixIsBalanced(JobEvents(cfg, fates(id)), Of(log, id));
  }

  lemma {:induction false} PrefixIsBalanced(t: seq<Event>, part: seq<Event>)
    requires part <= t && Execution(t).Some?
    ensures Execution(part).Some?
  {
    if part != t {
      PrefixIsBalanced(t[..|t| - 1], part);
    }
  }

  function Opened(e: Event): int {
    if e == OpenExecution then 1 else if e == CloseExecution then -1 else 0
  }

  /** Executions opened less executions closed, over all opportunities. */
  function OpenCount(log: seq<(nat, Event)>): int {
    if log == [] then 0 else OpenCount(log[..|log| - 1]) + Opened(log[|log| - 1].1)
  }

  /** The opportunities in the log that have an execution open. */
  function OpenIds(log: seq<(nat, Event)>): set<nat> {
    set i | 0 <= i < |log| && Execution(Of(log, log[i].0)) == Some(true) :: log[i].0
  }

  lemma {:induction false} OpenedMakesOpen(t: seq<Event>, e: Event)
    requires Execution(t).Some? && Execution(t + [e]).Some?
    ensures (if Execution(t + [e]).value then 1 else 0) == (if Execution(t).value then 1 else 0) + Opened(e)
  {
    ExecutionSnoc(t, e);
  }

  lemma {:induction false} UnseenIsClosed(log: seq<(nat, Event)>, id: nat)
    requires forall i | 0 <= i < |log| :: log[i].0 != id
    ensures Of(log, id) == []
  {
    if log == [] {
    } else {
      UnseenIsClosed(log[..|log| - 1], id);
    }
  }

  lemma {:induction false} OpenIdsExactly(log: seq<(nat, Event)>, id: nat)
    ensures id in OpenIds(log) <==> Execution(Of(log, id)) == Some(true)
  {
    if i :| 0 <= i < |log| && log[i].0 == id {
    } else {
      UnseenIsClosed(log, id);
    }
  }

  /** No opportunity has opened an execution twice or closed one that was not open. */
  ghost predicate AllBalanced(log: seq<(nat, Event)>) {
    forall id: nat {:trigger Of(log, id)} :: Execution(Of(log, id)).Some?
  }

  lemma {:induction false} OfSnoc(before: seq<(nat, Event)>, last: (nat, Event), id: nat)
    ensures Of(before + [last], id) == Of(before, id) + if last.0 == id then [last.1] else []
  {
    assert (before + [last])[..|before|] == before;
  }

  lemma {:induction false} OthersStayOpen(before: seq<(nat, Event)>, last: (nat, Event), id: nat)
    requires id != last.0
    ensures id in OpenIds(before + [last]) <==> id in OpenIds(before)
  {
    OfSnoc(before, last, id);
    assert Of(before + [last], id) == Of(before, id);
    OpenIdsExactly(before, id);
    OpenIdsExactly(before + [last], id);
  }

  lemma {:induction false} OneMoreEvent(before: seq<(nat, Event)>, last: (nat, Event))
    requires AllBalanced(before) && AllBalanced(before + [last])
    ensures |OpenIds(before + [last])| == |OpenIds(before)| + Opened(last.1)
  {
    var id := last.0;
    OfSnoc(before, last, id);
    OpenIdsExactly(before, id);
    OpenIdsExactly(before + [last], id);
    OpenedMakesOpen(Of(before, id), last.1);
    forall other: nat | other != id
      ensures other in OpenIds(before + [last]) <==> other in OpenIds(before)
    {
      OthersStayOpen(before, last, other);
    }
    assert id in OpenIds(before) <==> Execution(Of(before, id)).value;
    assert id in OpenIds(before + [last]) <==> Execution(Of(before + [last], id)).value;
    OneMoreOrLess(OpenIds(before), OpenIds(before + [last]), id);
  }

  lemma OneMoreOrLess(a: set<nat>, b: set<nat>, id: nat)
    requires forall x: nat | x != id :: x in a <==> x in b
    ensures |b| + (if id in a then 1 else 0) == |a| + if id in b then 1 else 0
  {
    assert a - {id} == b - {id};
    WithoutOne(a, id);
    WithoutOne(b, id);
  }

  lemma WithoutOne(a: set<nat>, id: nat)
    ensures |a| == |a - {id}| + if id in a then 1 else 0
  {
    if id in a {
      assert a == (a - {id}) + {id};
    } else {
      assert a == a - {id};
    }
  }

  lemma {:induction false} EarlierInterleaved(log: seq<(nat, Event)>, cfg: Config, fates: nat -> Fate, n: nat)
    requires Interleaved(log, cfg, fates) && n <= |log|
    ensures Interleaved(log[..n], cfg, fates)
  {
    forall id: nat
      ensures Of(log[..n], id) <= JobEvents(cfg, fates(id))
    {
      OfGrows(log, id, n);
    }
  }

  /** Main result over all opportunities at once: the executions opened and not closed are
      as many as the opportunities that have one open. */
  lemma {:induction false} ExecutionsBalanceOverall(log: seq<(nat, Event)>, cfg: Config, fates: nat -> Fate)
    requires Interleaved(log, cfg, fates)
    ensures OpenCount(log) == |OpenIds(log)|
  {
    forall n | 0 <= n <= |log|
      ensures AllBalanced(log[..n])
    {
      EarlierInterleaved(log, cfg, fates, n);
      InterleavedIsBalanced(log[..n], cfg, fates);
    }
    CountsMatch(log, |log|);
    assert log[..|log|] == log;
  }

  lemma {:induction false} CountsMatch(log: seq<(nat, Event)>, n: nat)
    requires n <= |log| && forall m | 0 <= m <= |log| :: AllBalanced(log[..m])
    ensures OpenCount(log[..n]) == |OpenIds(log[..n])|
  {
    if n == 0 {
    } else {
      CountsMatch(log, n - 1);
      assert log[..n] == log[..n - 1] + [log[n - 1]];
      OneMoreEvent(log[..n - 1], log[n - 1]);
    }
  }

  /** So none is left once all are through. */
  lemma {:induction false} NoneIsLeftOpen(log: seq<(nat, Event)>, cfg: Config, fates: nat -> Fate)
    requires Interleaved(log, cfg, fates)
    requires forall i | 0 <= i < |log| :: Of(log, log[i].0) == JobEvents(cfg, fates(log[i].0))
    ensures OpenCount(log) == 0
  {
    ExecutionsBalanceOverall(log, cfg, fates);
    forall i | 0 <= i < |log|
      ensures Execution(Of(log, log[i].0)) == Some(false)
    {
      ExecutionsStayBalanced(log, cfg, fates, log[i].0);
    }
    assert OpenIds(log) == {};
  }

  lemma {:induction false} InterleavedIsBalanced(log: seq<(nat, Event)>, cfg: Config, fates: nat -> Fate)
    requires Interleaved(log, cfg, fates)
    ensures AllBalanced(log)
  {
    forall id: nat
      ensures Execution(Of(log, id)).Some?
    {
      ExecutionsStayBalanced(log, cfg, fates, id);
    }
  }
}
