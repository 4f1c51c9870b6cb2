/** The operator's confirmation of an opportunity (crates/execution/src/pipeline.rs:
    Confirmations, confirm_then_send; apps/mobius-searcher/src/engine.rs: the
    `Confirm` command). The waiting job, its timer and the operator interleave. */
module Confirmations {

  type Id = nat

  /** Pending entries, answers delivered to a waiting job, and the jobs that still
      listen (their receiver is not dropped). */
  datatype Desk = Desk(pending: set<Id>, inbox: map<Id, bool>, listening: set<Id>)

  function Registered(d: Desk, id: Id): Desk {
    Desk(d.pending + {id}, d.inbox - {id}, d.listening + {id})
  }

  /** An answer takes the pending entry away and is delivered if anyone listens. */
  function Resolved(d: Desk, id: Id, approve: bool): Desk {
    if id !in d.pending then d
    else Desk(d.pending - {id}, if id in d.listening then d.inbox[id := approve] else d.inbox, d.listening)
  }

  predicate Hits(d: Desk, id: Id) {
    id in d.pending && id in d.listening
  }

  class Confirms {
    var desk: Desk

    constructor ()
      ensures desk == Desk({}, map[], {})
    {
      desk := Desk({}, map[], {});
    }

    method Register(id: Id)
      modifies this
      ensures desk == Registered(old(desk), id)
    {
      desk := Desk(desk.pending + {id}, desk.inbox - {id}, desk.listening + {id});
    }

    /** True exactly when the answer reached a waiting job. */
    method Resolve(id: Id, approve: bool) returns (delivered: bool)
      modifies this
      ensures desk == Resolved(old(desk), id, approve)
      ensures delivered == Hits(old(desk), id)
    {
      if id !in desk.pending {
        return false;
      }
      desk := desk.(pending := desk.pending - {id});
      if id !in desk.listening {
        return false;
      }
      desk := desk.(inbox := desk.inbox[id := approve]);
      return true;
    }
  }

  // ------------------------------------------------------------------
  // The protocol.
  // ------------------------------------------------------------------

  /** A job waits; its timer fires and it has yet to take its entry away; or it has
      acted: on an approval, on a refusal, or on the end of the wait. An approved job
      goes on to send. */
  datatype Phase = Waiting | TimedOut | Approved | Declined | Expired | Sent

  /** `answers` are the operator's answers that reached a waiting job, `sent` the
      opportunities sent, both in order. */
  datatype State = State(desk: Desk, phases: map<Id, Phase>, answers: seq<(Id, bool)>, sent: seq<Id>)

  datatype Step =
    | Register(id: Id)
    | Operator(id: Id, approve: bool)
    | Receive(id: Id)
    | Timer(id: Id)
    | GiveUp(id: Id)
    | SendLive(id: Id)

  predicate Enabled(s: State, step: Step) {
    match step
    case Register(id) => id !in s.phases
    case Operator(_, _) => true
    case Receive(id) => id in s.phases && s.phases[id] == Waiting && id in s.desk.inbox
    case Timer(id) => id in s.phases && s.phases[id] == Waiting
    case GiveUp(id) => id in s.phases && s.phases[id] == TimedOut
    case SendLive(id) => id in s.phases && s.phases[id] == Approved
  }

  function Deaf(d: Desk, id: Id): Desk {
    d.(listening := d.listening - {id})
  }

  /** The timer may fire with an answer unread: that answer is lost. */
  function Apply(s: State, step: Step): State
    requires Enabled(s, step)
  {
    match step
    case Register(id) => s.(desk := Registered(s.desk, id), phases := s.phases[id := Waiting])
    case Operator(id, approve) =>
      s.(desk := Resolved(s.desk, id, approve),
         answers := if Hits(s.desk, id) then s.answers + [(id, approve)] else s.answers)
    case Receive(id) =>
      s.(desk := Deaf(s.desk, id), phases := s.phases[id := if s.desk.inbox[id] then Approved else Declined])
    case Timer(id) => s.(desk := Deaf(s.desk, id), phases := s.phases[id := TimedOut])
    case GiveUp(id) => s.(desk := Resolved(s.desk, id, false), phases := s.phases[id := Expired])
    case SendLive(id) => s.(sent := s.sent + [id], phases := s.phases[id := Sent])
  }

  const START := State(Desk({}, map[], {}), map[], [], [])

  predicate IsRun(states: seq<State>, steps: seq<Step>) {
    && |states| == |steps| + 1 && states[0] == START
    && forall i | 0 <= i < |steps| :: Enabled(states[i], steps[i]) && states[i + 1] == Apply(states[i], steps[i])
  }

  /** The one answer that reached `id`, if any did. */
  predicate AnsweredWith(s: State, id: Id, approve: bool) {
    (id, approve) in s.answers
  }

  predicate Inv(s: State) {
    && (forall i, j | 0 <= i < j < |s.answers| :: s.answers[i].0 != s.answers[j].0)
    && (forall i | 0 <= i < |s.answers| :: s.answers[i].0 !in s.desk.pending && s.answers[i].0 in s.phases)
    && (forall id | id in s.desk.pending :: id in s.phases && (s.phases[id] == Waiting || s.phases[id] == TimedOut))
    && (forall id | id in s.desk.listening :: id in s.phases && s.phases[id] == Waiting)
    && (forall id | id in s.phases && s.phases[id] == Waiting :: id in s.desk.listening)
    && (forall id | id in s.desk.inbox :: AnsweredWith(s, id, s.desk.inbox[id]))
    && (forall id | id in s.phases && (s.phases[id] == Approved || s.phases[id] == Sent) :: AnsweredWith(s, id, true))
    && (forall id | id in s.phases && s.phases[id] == Declined :: AnsweredWith(s, id, false))
    && (forall i | 0 <= i < |s.sent| :: s.sent[i] in s.phases && s.phases[s.sent[i]] == Sent)
    && (forall i, j | 0 <= i < j < |s.sent| :: s.sent[i] != s.sent[j])
  }

  lemma OperatorKeepsInv(s: State, id: Id, approve: bool)
    requires Inv(s)
    ensures Inv(Apply(s, Operator(id, approve)))
  {
    var t := Apply(s, Operator(id, approve));
    forall x: Id, b: bool | AnsweredWith(s, x, b) ensures AnsweredWith(t, x, b) {
    }
    if Hits(s.desk, id) {
      assert t.answers[|s.answers|] == (id, approve);
    }
  }

  lemma StepKeepsInv(s: State, step: Step)
    requires Inv(s) && Enabled(s, step)
    ensures Inv(Apply(s, step))
  {
    match step
    case Operator(id, approve) => OperatorKeepsInv(s, id, approve);
    case SendLive(id) => SendKeepsInv(s, id);
    case Register(id) => RegisterKeepsInv(s, id);
    case Receive(id) => ReceiveKeepsInv(s, id);
    case _ =>
  }

  lemma ReceiveKeepsInv(s: State, id: Id)
    requires Inv(s) && Enabled(s, Receive(id))
    ensures Inv(Apply(s, Receive(id)))
  {
  }

  lemma SendKeepsInv(s: State, id: Id)
    requires Inv(s) && Enabled(s, SendLive(id))
    ensures Inv(Apply(s, SendLive(id)))
  {
    assert forall i | 0 <= i < |s.sent| :: s.sent[i] != id;
  }

  lemma RegisterKeepsInv(s: State, id: Id)
    requires Inv(s) && Enabled(s, Register(id))
    ensures Inv(Apply(s, Register(id)))
  {
  }

  lemma {:induction false} InvHolds(states: seq<State>, steps: seq<Step>, i: nat)
    requires IsRun(states, steps) && i < |states|
    ensures Inv(states[i])
  {
    if i == 0 {
    } else {
      InvHolds(states, steps, i - 1);
      StepKeepsInv(states[i - 1], steps[i - 1]);
    }
  }

  /** Main result, over every interleaving: an opportunity is sent only if the
      operator's approval took its pending entry while the job waited, and no other
      answer ever reached it; it is sent at most once; and after the wait has ended
      nothing of it stays pending. */
  lemma SentOnlyIfApproved(states: seq<State>, steps: seq<Step>, i: nat, id: Id)
    requires IsRun(states, steps) && i < |states|
    ensures id in states[i].sent ==> AnsweredWith(states[i], id, true) && !AnsweredWith(states[i], id, false)
    ensures forall a, b | 0 <= a < b < |states[i].sent| :: states[i].sent[a] != states[i].sent[b]
    ensures forall a, b | 0 <= a < b < |states[i].answers| :: states[i].answers[a].0 != states[i].answers[b].0
    ensures id in states[i].phases && states[i].phases[id] != Waiting && states[i].phases[id] != TimedOut ==>
      id !in states[i].desk.pending
  {
    InvHolds(states, steps, i);
  }

  /** A late or repeated answer changes nothing a job can see. */
  lemma LateAnswersDoNothing(s: State, id: Id, approve: bool)
    requires Inv(s) && !(id in s.phases && s.phases[id] == Waiting && id in s.desk.pending)
    ensures var t := Apply(s, Operator(id, approve));
      t.phases == s.phases && t.answers == s.answers && t.sent == s.sent && t.desk.inbox == s.desk.inbox
      && t.desk.listening == s.desk.listening
  {
  }

  /** What a job has decided it never decides again; an approved one may be sent. */
  lemma DecidedOnce(s: State, step: Step, id: Id)
    requires Enabled(s, step) && id in s.phases && s.phases[id] != Waiting && s.phases[id] != TimedOut
    ensures id in Apply(s, step).phases
    ensures Apply(s, step).phases[id] == s.phases[id] || (s.phases[id] == Approved && Apply(s, step).phases[id] == Sent)
  {
  }

  // ------------------------------------------------------------------
  // Answers reach the job that waits.
  // ------------------------------------------------------------------

  predicate Waits(s: State, id: Id) {
    id in s.phases && s.phases[id] == Waiting
  }

  /** While a job waits, what has reached it lies in its inbox, and until something has its
      entry is pending. */
  ghost predicate Delivered(s: State, id: Id) {
    Waits(s, id) ==>
      && (id in s.desk.pending <==> id !in s.desk.inbox)
      && forall b: bool :: AnsweredWith(s, id, b) <==> id in s.desk.inbox && s.desk.inbox[id] == b
  }

  lemma {:induction false} StepDelivers(s: State, step: Step, id: Id)
    requires Inv(s) && Delivered(s, id) && Enabled(s, step)
    ensures Delivered(Apply(s, step), id)
  {
    var t := Apply(s, step);
    if Waits(t, id) {
      AnswersGrow(s, step, id);
    }
  }

  /** An answer is recorded exactly if it hits. */
  lemma {:induction false} AnswersGrow(s: State, step: Step, id: Id)
    requires Enabled(s, step)
    ensures forall b: bool :: AnsweredWith(Apply(s, step), id, b) <==>
      AnsweredWith(s, id, b) || (step == Operator(id, b) && Hits(s.desk, id))
  {
    var t := Apply(s, step);
    if t.answers != s.answers {
      assert t.answers == s.answers + [(step.id, step.approve)];
    }
  }

  /** The operator's first answer while the job waits. */
  ghost predicate FirstAnswer(states: seq<State>, steps: seq<Step>, j: nat, id: Id, approve: bool)
    requires j < |steps| && |states| == |steps| + 1
  {
    && steps[j] == Operator(id, approve) && Waits(states[j], id)
    && Unanswered(states, steps, j, id)
  }

  ghost predicate Unanswered(states: seq<State>, steps: seq<Step>, i: nat, id: Id)
    requires i <= |steps| && |states| == |steps| + 1
  {
    forall k | 0 <= k < i && steps[k].Operator? && steps[k].id == id :: !Waits(states[k], id)
  }

  /** Main result, over every interleaving: the answer that reaches a job is the operator's
      first one while it waits; it is there for the job to receive until its timer fires. */
  lemma {:induction false} FirstAnswerReaches(states: seq<State>, steps: seq<Step>, i: nat, id: Id)
    requires IsRun(states, steps) && i < |states|
    ensures Waits(states[i], id) ==>
      && (Unanswered(states, steps, i, id) <==> id in states[i].desk.pending)
      && (Unanswered(states, steps, i, id) <==> !Enabled(states[i], Receive(id)))
    ensures forall approve: bool ::
      AnsweredWith(states[i], id, approve) <==> exists j :: 0 <= j < i && FirstAnswer(states, steps, j, id, approve)
    ensures Delivered(states[i], id)
    ensures id !in states[i].phases ==> forall k | 0 <= k <= i :: id !in states[k].phases
  {
    if i > 0 {
      var s, step := states[i - 1], steps[i - 1];
      FirstAnswerReaches(states, steps, i - 1, id);
      InvHolds(states, steps, i - 1);
      StepDelivers(s, step, id);
      AnswersGrow(s, step, id);
      UnansweredStep(states, steps, i, id);
      forall approve: bool
        ensures AnsweredWith(states[i], id, approve) <==>
          exists j :: 0 <= j < i && FirstAnswer(states, steps, j, id, approve)
      {
        FirstAnswerStep(states, steps, i, id, approve);
      }
    }
  }

  lemma UnansweredStep(states: seq<State>, steps: seq<Step>, i: nat, id: Id)
    requires 0 < i <= |steps| && |states| == |steps| + 1
    ensures Unanswered(states, steps, i, id) <==>
      && Unanswered(states, steps, i - 1, id)
      && !(steps[i - 1].Operator? && steps[i - 1].id == id && Waits(states[i - 1], id))
  {
  }

  lemma {:induction false} FirstAnswerStep(states: seq<State>, steps: seq<Step>, i: nat, id: Id, approve: bool)
    requires IsRun(states, steps) && 0 < i < |states| && Inv(states[i - 1])
    requires Waits(states[i - 1], id) ==> (Unanswered(states, steps, i - 1, id) <==> id in states[i - 1].desk.pending)
    requires AnsweredWith(states[i - 1], id, approve) <==>
      exists j :: 0 <= j < i - 1 && FirstAnswer(states, steps, j, id, approve)
    ensures AnsweredWith(states[i], id, approve) <==>
      exists j :: 0 <= j < i && FirstAnswer(states, steps, j, id, approve)
  {
    var s, step := states[i - 1], steps[i - 1];
    AnswersGrow(s, step, id);
    assert step == Operator(id, approve) && Hits(s.desk, id) <==> FirstAnswer(states, steps, i - 1, id, approve);
  }

  predicate Happened(steps: seq<Step>, i: nat, step: Step)
    requires i <= |steps|
  {
    exists k :: 0 <= k < i && steps[k] == step
  }

  /** What has become of a job, told by the steps taken for it and the answer it got. */
  predicate EndsAsAnswered(s: State, steps: seq<Step>, i: nat, id: Id)
    requires i <= |steps|
  {
    && (id in s.phases <==> Happened(steps, i, Register(id)))
    && (id in s.phases && s.phases[id] in {Approved, Sent, Declined} <==> Happened(steps, i, Receive(id)))
    && (id in s.phases && (s.phases[id] == Approved || s.phases[id] == Sent) <==>
          Happened(steps, i, Receive(id)) && AnsweredWith(s, id, true))
    && (id in s.phases && s.phases[id] == Declined <==>
          Happened(steps, i, Receive(id)) && AnsweredWith(s, id, false))
    && (id in s.phases && (s.phases[id] == TimedOut || s.phases[id] == Expired) <==> Happened(steps, i, Timer(id)))
    && (id in s.phases && s.phases[id] == Expired <==> Happened(steps, i, GiveUp(id)))
    && (id in s.sent <==> Happened(steps, i, SendLive(id)))
  }

  lemma HappenedStep(steps: seq<Step>, i: nat, step: Step)
    requires 0 < i <= |steps|
    ensures Happened(steps, i, step) <==> Happened(steps, i - 1, step) || steps[i - 1] == step
  {
  }

  lemma {:induction false} StepEndsAsAnswered(s: State, steps: seq<Step>, i: nat, id: Id)
    requires 0 < i <= |steps| && Inv(s) && Delivered(s, id) && Enabled(s, steps[i - 1])
    requires EndsAsAnswered(s, steps, i - 1, id)
    ensures EndsAsAnswered(Apply(s, steps[i - 1]), steps, i, id)
  {
    var step := steps[i - 1];
    HappenedStep(steps, i, Register(id));
    HappenedStep(steps, i, Receive(id));
    HappenedStep(steps, i, Timer(id));
    HappenedStep(steps, i, GiveUp(id));
    HappenedStep(steps, i, SendLive(id));
    AnswersGrow(s, step, id);
    OneAnswer(s, id);
    SentGrows(s, step, id);
  }

  lemma OneAnswer(s: State, id: Id)
    requires Inv(s)
    ensures !(AnsweredWith(s, id, true) && AnsweredWith(s, id, false))
    ensures forall b: bool :: AnsweredWith(s, id, b) ==> id !in s.desk.pending && id in s.phases
  {
  }

  lemma SentGrows(s: State, step: Step, id: Id)
    requires Enabled(s, step)
    ensures id in Apply(s, step).sent <==> id in s.sent || step == SendLive(id)
  {
  }

  /** Main result, over every interleaving: a job that received ends approved exactly if the
      answer that reached it was an approval, declined exactly if it was a refusal; it expires
      exactly if its timer fired first; and only an approved one is sent. */
  lemma {:induction false} JobEndsAsAnswered(states: seq<State>, steps: seq<Step>, i: nat, id: Id)
    requires IsRun(states, steps) && i < |states|
    ensures EndsAsAnswered(states[i], steps, i, id)
  {
    if i > 0 {
      JobEndsAsAnswered(states, steps, i - 1, id);
      InvHolds(states, steps, i - 1);
      FirstAnswerReaches(states, steps, i - 1, id);
      StepEndsAsAnswered(states[i - 1], steps, i, id);
    }
  }
}
