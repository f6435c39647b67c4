/**
 * Votes may reach the task manager before the certificate, while it waits for its
 * predecessor, or after its task has started. None is lost, and none is made up.
 */
module VoteRuns {
  import opened Wrappers
  import opened Certificates
  import opened Quorum
  import opened DoubleEcho
  import opened VoteOrder
  import opened TaskManager
  import opened NodeRuns
  import V = ValidatorStore

  /** If the certificate was delivered, it is not broadcast again; its task may still be around. */
  ghost predicate NotAgain(n: Node, a: Action, id: CertificateId) {
    a.OnBroadcast? && a.certificate.id == id ==> id in n.tasks || !V.IsDelivered(n.store, id)
  }

  ghost predicate NoRebroadcast(validators: set<ValidatorId>, params: Params, actions: seq<Action>, id: CertificateId) {
    actions != [] ==>
      var before := actions[..|actions| - 1];
      && NoRebroadcast(validators, params, before, id)
      && NotAgain(Exec(validators, params, before), actions[|actions| - 1], id)
  }

  /** The votes for a certificate that reached the task manager, in order of arrival. */
  ghost function Arrived(actions: seq<Action>, id: CertificateId): seq<Vote> {
    if actions == [] then []
    else
      var before, last := Arrived(actions[..|actions| - 1], id), actions[|actions| - 1];
      if last.OnVote? && last.id == id then before + [last.vote] else before
  }

  ghost function NewVotes(a: Action, id: CertificateId): seq<Vote> {
    if a.OnVote? && a.id == id then [a.vote] else []
  }

  /** Running and waiting tasks have a context; no certificate waits twice or while running. */
  ghost predicate Slots(n: Node) {
    && n.running.Keys <= n.tasks.Keys
    && (forall id :: Waiting(n, id) ==> id in n.tasks && id !in n.running)
    && (forall p, q :: p in n.precedence && q in n.precedence && n.precedence[p].Id() == n.precedence[q].Id() ==>
          p == q)
    && n.buffered.Keys !! n.running.Keys
  }

  lemma VoteSlots(n: Node, id: CertificateId, vote: Vote)
    requires Slots(n)
    ensures Slots(DoVote(n, id, vote))
  {
    assert forall x :: Waiting(DoVote(n, id, vote), x) <==> Waiting(n, x);
  }

  lemma SameQueue(n: Node, n': Node)
    requires Slots(n) && n'.precedence == n.precedence && n'.buffered == n.buffered
    requires n'.tasks.Keys == n.tasks.Keys && n'.running.Keys == n.running.Keys
    ensures Slots(n')
  {
    assert forall x :: Waiting(n', x) <==> Waiting(n, x);
  }

  lemma BroadcastSlots(n: Node, c: Certificate, gossip: bool)
    requires Slots(n)
    ensures Slots(DoBroadcast(n, c, gossip))
  {
    if c.id !in n.tasks {
      BroadcastShape(n, c, gossip);
      hide DoBroadcast;
      var n' := DoBroadcast(n, c, gossip);
      if V.PrevDelivered(n.store, c) {
        assert forall x :: Waiting(n', x) <==> Waiting(n, x);
      } else {
        assert !Waiting(n, c.id);
        forall x | Waiting(n', x)
          ensures Waiting(n, x) || x == c.id
        {
          var q :| q in n'.precedence && n'.precedence[q].Id() == x;
          if q != c.prevId { assert q in n.precedence; }
        }
        forall p | p in n.precedence ensures n.precedence[p].Id() != c.id {}
      }
    }
  }

  lemma CompleteSlots(n: Node, id: CertificateId)
    requires Slots(n) && FinishedSound(n)
    ensures Slots(DoComplete(n, id))
  {
    if id !in n.finished {
      return;
    }
    if n.finished[id] == Failure {
      SameQueue(n.(running := n.running - {id}), DoComplete(n, id));
      return;
    }
    CompleteShape(n, id);
    hide DoComplete;
    var n' := DoComplete(n, id);
    forall x | Waiting(n', x)
      ensures Waiting(n, x)
    {
      var q :| q in n'.precedence && n'.precedence[q].Id() == x;
      assert q in n.precedence && n.precedence[q].Id() == x;
    }
    if id in n.precedence {
      var child := n.precedence[id].Id();
      assert Waiting(n, child);
      forall q | q in n'.precedence
        ensures n'.precedence[q].Id() != child
      {
        assert q in n.precedence && q != id;
      }
    }
  }

  lemma StepSlots(n: Node, a: Action)
    requires Slots(n) && FinishedSound(n)
    ensures Slots(Step(n, a))
  {
    match a
    case OnVote(id, vote) => VoteSlots(n, id, vote);
    case OnBroadcast(c, gossip) => BroadcastSlots(n, c, gossip);
    case Complete(id) => CompleteSlots(n, id);
    case _ => QuietSlots(n, a);
    hide Slots, DoVote, DoBroadcast, DoComplete, FinishedSound;
  }

  lemma QuietSlots(n: Node, a: Action)
    requires Slots(n) && !a.OnVote? && !a.OnBroadcast? && !a.Complete?
    ensures Slots(Step(n, a))
  {
    hide Slots, Step;
    QuietShape(n, a);
    SameQueue(n, Step(n, a));
  }

  lemma QuietShape(n: Node, a: Action)
    requires !a.OnVote? && !a.OnBroadcast? && !a.Complete?
    ensures var n' := Step(n, a);
            && n'.precedence == n.precedence && n'.buffered == n.buffered
            && n'.tasks.Keys == n.tasks.Keys && n'.running.Keys == n.running.Keys
  {
    hide DoPoll, V.InsertPending, NextPosition;
    if a.Poll? {
      PollShape(n, a.id);
    }
  }

  lemma PollShape(n: Node, id: CertificateId)
    ensures var n' := DoPoll(n, id);
            && n'.precedence == n.precedence && n'.buffered == n.buffered
            && n'.tasks.Keys == n.tasks.Keys && n'.running.Keys == n.running.Keys
  {
    hide Apply, V.Deliver, Delivering;
  }

  // ----- Where a vote can be -----

  ghost predicate Held(n: Node, id: CertificateId, v: Vote) {
    || v in Buffer(n, id)
    || (id in n.tasks && v in n.tasks[id])
    || (id in n.running && (v in n.running[id].forwarding || Accepted(n.running[id].state, v)))
  }

  /** The certificate is running, waiting or not known yet; not delivered, failed or dropped by a fork. */
  ghost predicate Live(n: Node, id: CertificateId) {
    id in n.running || Waiting(n, id) || (id !in n.tasks && !V.IsDelivered(n.store, id))
  }

  ghost predicate NothingLost(n: Node, id: CertificateId, arrived: seq<Vote>) {
    Live(n, id) ==> forall v :: v in arrived ==> Held(n, id, v)
  }

  /** The vote is queued for the certificate, or a known validator's vote its task has counted. */
  ghost predicate Present(n: Node, id: CertificateId, v: Vote) {
    || v in Buffer(n, id)
    || (id in n.tasks && v in n.tasks[id])
    || (id in n.running
        && (v in n.running[id].forwarding || (Accepted(n.running[id].state, v) && v.sender in n.validators)))
  }

  ghost predicate NothingForged(n: Node, id: CertificateId, arrived: seq<Vote>) {
    forall v :: Present(n, id, v) ==> v in arrived
  }

  /** Nothing becomes live that was not: tasks are never lost and found. */
  lemma LiveBefore(n: Node, a: Action, id: CertificateId)
    requires TasksSound(n) && Slots(n) && NotAgain(n, a, id) && Live(Step(n, a), id)
    ensures Live(n, id)
  {
    var n' := Step(n, a);
    StepDelivered(n, a);
    hide Step;
    if id in n'.running {
      StepMoves(n, a, id);
      if Released(n, a, id, n'.running[id].state) {
        assert Waiting(n, id);
      }
    } else if Waiting(n', id) {
      var q :| q in n'.precedence && n'.precedence[q].Id() == id;
      StepWaits(n, a, q);
      if q in n.precedence && n'.precedence[q] == n.precedence[q] {
        assert Waiting(n, id);
      }
    } else if id in n.tasks {
      ContextStays(n, a, id);
    }
  }

  /** A context disappears only with a delivered certificate. */
  lemma ContextStays(n: Node, a: Action, id: CertificateId)
    requires FinishedSound(n) && id in n.tasks
    ensures id in Step(n, a).tasks || V.IsDelivered(Step(n, a).store, id)
  {
  }

  // ----- Every action moves votes without losing or inventing any -----

  lemma HeldByVote(n: Node, id: CertificateId, vote: Vote, x: CertificateId, v: Vote)
    requires Held(n, x, v) || (x == id && v == vote)
    ensures Held(DoVote(n, id, vote), x, v)
  {
  }

  lemma HeldByBroadcast(n: Node, c: Certificate, gossip: bool, x: CertificateId, v: Vote)
    requires Slots(n) && Held(n, x, v)
    ensures Held(DoBroadcast(n, c, gossip), x, v)
  {
    if c.id !in n.tasks {
      BroadcastShape(n, c, gossip);
      hide DoBroadcast, Accepted, Waiting;
    }
  }

  lemma HeldByForward(n: Node, id: CertificateId, x: CertificateId, v: Vote)
    requires Held(n, x, v)
    ensures Held(DoForward(n, id), x, v)
  {
    if CanForward(n, id) && x == id {
      var f := n.running[id].forwarding;
      assert f == [f[0]] + f[1..];
    }
  }

  lemma HeldByPoll(n: Node, id: CertificateId, x: CertificateId, v: Vote)
    requires Held(n, x, v)
    ensures Held(DoPoll(n, id), x, v)
  {
    if CanPoll(n, id) && x == id {
      var sink := n.tasks[id];
      assert sink == [sink[0]] + sink[1..];
      ApplyFrame(n.running[id].state, sink[0]);
    }
    hide Apply, V.Deliver, Delivering;
  }

  lemma HeldByComplete(n: Node, id: CertificateId, x: CertificateId, v: Vote)
    requires Slots(n) && FinishedSound(n) && Held(n, x, v) && Live(DoComplete(n, id), x)
    ensures Held(DoComplete(n, id), x, v)
  {
    if id in n.finished {
      if n.finished[id] == Success {
        CompleteShape(n, id);
        hide DoComplete, Accepted;
        if Releases(n, id) { assert Waiting(n, n.precedence[id].Id()); }
        if x == id { RetiredNotLive(n, id); }
      } else {
        assert forall y :: Waiting(DoComplete(n, id), y) <==> Waiting(n, y);
      }
    }
  }

  /** After its successful completion a certificate is delivered and has no task. */
  lemma RetiredNotLive(n: Node, id: CertificateId)
    requires Slots(n) && FinishedSound(n) && id in n.finished && n.finished[id] == Success
    ensures !Live(DoComplete(n, id), id)
  {
    CompleteShape(n, id);
    hide DoComplete;
    var n' := DoComplete(n, id);
    forall q | q in n'.precedence
      ensures n'.precedence[q].Id() != id
    {
      assert q in n.precedence && Waiting(n, n.precedence[q].Id());
    }
  }

  lemma HeldAfter(n: Node, a: Action, x: CertificateId, v: Vote)
    requires TasksSound(n) && Slots(n) && Live(Step(n, a), x)
    requires Held(n, x, v) || v in NewVotes(a, x)
    ensures Held(Step(n, a), x, v)
  {
    hide Live, Held, Slots, DoVote, DoBroadcast, DoForward, DoPoll, DoComplete;
    match a
    case OnVote(id, vote) => HeldByVote(n, id, vote, x, v);
    case OnBroadcast(c, gossip) => HeldByBroadcast(n, c, gossip, x, v);
    case Forward(id) => HeldByForward(n, id, x, v);
    case Boot(id) => HeldByBoot(n, id, x, v);
    case Poll(id) => HeldByPoll(n, id, x, v);
    case Complete(id) => HeldByComplete(n, id, x, v);
    case Submit(c) => HeldBySubmit(n, c, x, v);
  }

  lemma HeldByBoot(n: Node, id: CertificateId, x: CertificateId, v: Vote)
    requires Held(n, x, v)
    ensures Held(DoBoot(n, id), x, v)
  {
  }

  lemma HeldBySubmit(n: Node, c: Certificate, x: CertificateId, v: Vote)
    requires Held(n, x, v)
    ensures Held(Step(n, Submit(c)), x, v)
  {
  }

  lemma StepLosesNothing(n: Node, a: Action, id: CertificateId, arrived: seq<Vote>)
    requires TasksSound(n) && Slots(n) && NotAgain(n, a, id) && NothingLost(n, id, arrived)
    ensures NothingLost(Step(n, a), id, arrived + NewVotes(a, id))
  {
    hide Step, Held, Slots, TasksSound;
    if Live(Step(n, a), id) {
      LiveBefore(n, a, id);
      hide Live;
      forall v | v in arrived + NewVotes(a, id)
        ensures Held(Step(n, a), id, v)
      {
        HeldAfter(n, a, id, v);
      }
    }
  }

  // ----- Nothing forged -----

  lemma PresentByBroadcast(n: Node, c: Certificate, gossip: bool, x: CertificateId, v: Vote)
    requires Present(DoBroadcast(n, c, gossip), x, v)
    ensures Present(n, x, v)
  {
    if c.id !in n.tasks {
      BroadcastShape(n, c, gossip);
      StepKeepsConfig(n, OnBroadcast(c, gossip));
      hide DoBroadcast;
    }
  }

  lemma PresentByForward(n: Node, id: CertificateId, x: CertificateId, v: Vote)
    requires Present(DoForward(n, id), x, v)
    ensures Present(n, x, v)
  {
  }

  lemma PresentByPoll(n: Node, id: CertificateId, x: CertificateId, v: Vote)
    requires Present(DoPoll(n, id), x, v)
    ensures Present(n, x, v)
  {
    if CanPoll(n, id) && x == id {
      ApplyFrame(n.running[id].state, n.tasks[id][0]);
    }
    hide Apply, V.Deliver, Delivering;
  }

  lemma PresentByComplete(n: Node, id: CertificateId, x: CertificateId, v: Vote)
    requires WaitingSound(n) && Present(DoComplete(n, id), x, v)
    ensures Present(n, x, v)
  {
    if id in n.finished && n.finished[id] == Success {
      CompleteShape(n, id);
      StepKeepsConfig(n, Complete(id));
      hide DoComplete;
      if Releases(n, id) { assert IsStart(n.precedence[id].state, n.validators); }
    }
  }

  lemma PresentByVote(n: Node, id: CertificateId, vote: Vote, x: CertificateId, v: Vote)
    requires Present(DoVote(n, id, vote), x, v)
    ensures Present(n, x, v) || (x == id && v == vote)
  {
  }

  lemma PresentByBoot(n: Node, id: CertificateId, x: CertificateId, v: Vote)
    requires Present(DoBoot(n, id), x, v)
    ensures Present(n, x, v)
  {
  }

  lemma PresentBySubmit(n: Node, c: Certificate, x: CertificateId, v: Vote)
    requires Present(Step(n, Submit(c)), x, v)
    ensures Present(n, x, v)
  {
  }

  lemma PresentBefore(n: Node, a: Action, x: CertificateId, v: Vote)
    requires WaitingSound(n) && Present(Step(n, a), x, v)
    ensures Present(n, x, v) || v in NewVotes(a, x)
  {
    hide Present, WaitingSound, DoVote, DoBroadcast, DoForward, DoPoll, DoComplete;
    match a
    case OnVote(id, vote) => PresentByVote(n, id, vote, x, v);
    case OnBroadcast(c, gossip) => PresentByBroadcast(n, c, gossip, x, v);
    case Forward(id) => PresentByForward(n, id, x, v);
    case Boot(id) => PresentByBoot(n, id, x, v);
    case Poll(id) => PresentByPoll(n, id, x, v);
    case Complete(id) => PresentByComplete(n, id, x, v);
    case Submit(c) => PresentBySubmit(n, c, x, v);
  }

  lemma StepForgesNothing(n: Node, a: Action, id: CertificateId, arrived: seq<Vote>)
    requires WaitingSound(n) && NothingForged(n, id, arrived)
    ensures NothingForged(Step(n, a), id, arrived + NewVotes(a, id))
  {
    hide Step, Present, WaitingSound;
    forall v | Present(Step(n, a), id, v)
      ensures v in arrived + NewVotes(a, id)
    {
      PresentBefore(n, a, id, v);
    }
  }

  // ----- The status of a task is decided by the votes that arrived -----

  /** A running task has finished exactly when it has delivered. */
  ghost predicate Done(n: Node) {
    forall id :: id in n.running ==> (id in n.finished <==> n.running[id].state.status == DeliveredWithReadySent)
  }

  lemma FinishedStatus(n: Node, a: Action, id: CertificateId)
    requires TasksSound(n) && Done(n) && Slots(n)
    requires id in Step(n, a).finished && id in Step(n, a).running
    ensures Step(n, a).running[id].state.status == DeliveredWithReadySent
  {
    hide Step;
    StepMoves(n, a, id);
    StepFinishes(n, a, id);
    if a == Poll(id) && CanPoll(n, id) {
      DeliveredStays(n.running[id].state, n.tasks[id][0]);
      PolledState(n, id);
    }
    if Released(n, a, id, Step(n, a).running[id].state) {
      ReleasedUnfinished(n, a, id, Step(n, a).running[id].state);
    }
  }

  lemma ReleasedUnfinished(n: Node, a: Action, id: CertificateId, s: State)
    requires Released(n, a, id, s) && Slots(n) && FinishedSound(n)
    ensures id !in n.finished
  {
    assert Waiting(n, id);
  }

  lemma DeliveredStays(s: State, vote: Vote)
    ensures s.status == DeliveredWithReadySent ==> Apply(s, vote).state.status == DeliveredWithReadySent
    ensures Apply(s, vote).change == Some(DeliveredWithReadySent) ==>
              Apply(s, vote).state.status == DeliveredWithReadySent
  {
  }

  lemma PolledState(n: Node, id: CertificateId)
    requires CanPoll(n, id)
    ensures Step(n, Poll(id)).running[id].state == Polled(n, id).state
  {
    hide V.Deliver, Apply;
  }

  /** A task that has delivered and still runs has not been completed. */
  lemma DeliveredFinishes(n: Node, a: Action, id: CertificateId)
    requires TasksSound(n) && Done(n) && Slots(n) && id in Step(n, a).running
    requires Step(n, a).running[id].state.status == DeliveredWithReadySent
    ensures id in Step(n, a).finished
  {
    hide Step, Apply, CanPoll, CanBoot, Slots, RunningSound;
    StepMoves(n, a, id);
    if a == Poll(id) && CanPoll(n, id) {
      PolledFinishes(n, id);
    } else {
      StatusKept(n, a, id);
      NotCompleted(n, a, id);
      FinishedStays(n, a, id);
    }
  }

  /** Only a poll changes a status. */
  lemma StatusKept(n: Node, a: Action, id: CertificateId)
    requires TasksSound(n) && id in Step(n, a).running && Moved(n, a, id, Step(n, a).running[id].state)
    requires !(a == Poll(id) && CanPoll(n, id))
    requires Step(n, a).running[id].state.status == DeliveredWithReadySent
    ensures id in n.running && n.running[id].state.status == DeliveredWithReadySent
  {
    hide Step;
  }

  lemma PolledFinishes(n: Node, id: CertificateId)
    requires Done(n) && CanPoll(n, id) && Step(n, Poll(id)).running[id].state.status == DeliveredWithReadySent
    ensures id in Step(n, Poll(id)).finished
  {
    PolledState(n, id);
    hide Step, Apply;
    DeliveredIsReported(n.running[id].state, n.tasks[id][0]);
    PersistFinishes(n, id);
  }

  lemma DeliveredIsReported(s: State, vote: Vote)
    requires s.status != DeliveredWithReadySent && Apply(s, vote).state.status == DeliveredWithReadySent
    ensures Apply(s, vote).change == Some(DeliveredWithReadySent)
  {
  }

  lemma PersistFinishes(n: Node, id: CertificateId)
    requires Persists(n, id)
    ensures id in Step(n, Poll(id)).finished
  {
  }

  /** Nobody waits for itself while running. */
  lemma ChildDiffers(n: Node, id: CertificateId)
    requires Slots(n) && id in n.running
    ensures Releases(n, id) ==> n.precedence[id].Id() != id
  {
    if Releases(n, id) {
      assert Waiting(n, n.precedence[id].Id());
    }
  }

  lemma NotCompleted(n: Node, a: Action, id: CertificateId)
    requires Slots(n) && FinishedSound(n) && id in n.finished && id in Step(n, a).running
    ensures a != Complete(id)
  {
    ChildDiffers(n, id);
    hide Slots;
    if a == Complete(id) && n.finished[id] == Success {
      CompleteShape(n, id);
    }
  }

  lemma StepDone(n: Node, a: Action)
    requires TasksSound(n) && Done(n) && Slots(n)
    ensures Done(Step(n, a))
  {
    var n' := Step(n, a);
    hide Step, TasksSound, Slots;
    forall id | id in n'.running
      ensures id in n'.finished <==> n'.running[id].state.status == DeliveredWithReadySent
    {
      if id in n'.finished {
        FinishedStatus(n, a, id);
      } else if n'.running[id].state.status == DeliveredWithReadySent {
        DeliveredFinishes(n, a, id);
      }
    }
  }

  ghost predicate VotesInv(n: Node, actions: seq<Action>) {
    TasksSound(n) && Slots(n) && Done(n) && forall id :: NothingForged(n, id, Arrived(actions, id))
  }

  lemma {:induction false} ArrivedStep(actions: seq<Action>, a: Action, id: CertificateId)
    ensures Arrived(actions + [a], id) == Arrived(actions, id) + NewVotes(a, id)
  {
    assert (actions + [a])[..|actions|] == actions;
  }

  lemma StepVotes(n: Node, actions: seq<Action>, a: Action)
    requires VotesInv(n, actions)
    ensures VotesInv(Step(n, a), actions + [a])
  {
    hide Step, NothingForged, Slots, Done, RunningSound, WaitingSound, FinishedSound;
    StepRunningSound(n, a);
    StepWaitingSound(n, a);
    StepFinishedSound(n, a);
    StepSlots(n, a);
    StepDone(n, a);
    forall id
      ensures NothingForged(Step(n, a), id, Arrived(actions + [a], id))
    {
      ArrivedStep(actions, a, id);
      StepForgesNothing(n, a, id, Arrived(actions, id));
    }
  }

  lemma {:induction false} EveryVoteRun(validators: set<ValidatorId>, params: Params, actions: seq<Action>)
    ensures VotesInv(Exec(validators, params, actions), actions)
    ensures Exec(validators, params, actions).validators == validators
    ensures Exec(validators, params, actions).params == params
  {
    if actions != [] {
      var before, last := actions[..|actions| - 1], actions[|actions| - 1];
      EveryVoteRun(validators, params, before);
      StepKeepsConfig(Exec(validators, params, before), last);
      StepVotes(Exec(validators, params, before), before, last);
      assert actions == before + [last];
      hide Step, VotesInv;
    }
  }

  /** No vote for a certificate is lost, whatever happens to others, unless it is broadcast again after delivery. */
  lemma {:induction false} NoVoteLost(validators: set<ValidatorId>, params: Params, actions: seq<Action>,
                                      id: CertificateId)
    requires NoRebroadcast(validators, params, actions, id)
    ensures NothingLost(Exec(validators, params, actions), id, Arrived(actions, id))
  {
    if actions != [] {
      var before, last := actions[..|actions| - 1], actions[|actions| - 1];
      assert actions == before + [last] && NotAgain(Exec(validators, params, before), last, id);
      NoVoteLost(validators, params, before, id);
      EveryVoteRun(validators, params, before);
      ExecSnoc(validators, params, before, last);
      hide Exec, Step, NothingLost, NothingForged, Slots, Done, TasksSound, Arrived, NotAgain, NoRebroadcast;
      ArrivedStep(before, last, id);
      StepLosesNothing(Exec(validators, params, before), last, id, Arrived(before, id));
    }
  }

  /** The task has taken everything that reached the task manager for it. */
  ghost predicate Drained(n: Node, id: CertificateId) {
    id in n.running && id in n.tasks && n.tasks[id] == [] && n.running[id].forwarding == []
  }

  lemma DrainedWaits(n: Node, id: CertificateId, arrived: seq<Vote>)
    requires RunningSound(n) && Slots(n) && Drained(n, id)
    requires NothingLost(n, id, arrived) && NothingForged(n, id, arrived)
    ensures Waits(n.running[id].state, n.validators, arrived)
  {
    var s := n.running[id].state;
    assert Buffer(n, id) == [];
    forall v
      ensures v in s.echo <==> v in n.validators - EchoSenders(arrived)
      ensures v in s.ready <==> v in n.validators - ReadySenders(arrived)
    {
      assert Accepted(s, Echo(v)) ==> Present(n, id, Echo(v)) || v !in n.validators;
      assert Accepted(s, Ready(v)) ==> Present(n, id, Ready(v)) || v !in n.validators;
      assert Echo(v) in arrived ==> Held(n, id, Echo(v));
      assert Ready(v) in arrived ==> Held(n, id, Ready(v));
      assert v in EchoSenders(arrived) <==> Echo(v) in arrived;
      assert v in ReadySenders(arrived) <==> Ready(v) in arrived;
    }
  }

  // ----- Where tasks rest -----

  ghost predicate TasksRest(n: Node) {
    forall id :: id in n.running ==> Rests(n.running[id].state)
  }

  lemma MovedRests(n: Node, a: Action, id: CertificateId, s: State)
    requires TasksSound(n) && TasksRest(n) && OrderFree(|n.validators|, n.params) && Moved(n, a, id, s)
    ensures Rests(s)
  {
    hide OrderFree;
    if a == Poll(id) && CanPoll(n, id) {
      ApplyRests(n.running[id].state, n.tasks[id][0]);
    } else if a.OnBroadcast? {
      NewTaskUntouched(n, a.certificate, a.needGossip);
    }
  }

  lemma {:induction false} EveryTaskRests(validators: set<ValidatorId>, params: Params, actions: seq<Action>)
    requires OrderFree(|validators|, params)
    ensures TasksRest(Exec(validators, params, actions))
  {
    if actions != [] {
      var before, last := actions[..|actions| - 1], actions[|actions| - 1];
      var n := Exec(validators, params, before);
      EveryTaskRests(validators, params, before);
      EveryRun(validators, params, before);
      hide Step, Rests, RunningSound, WaitingSound, FinishedSound, OrderFree;
      var n' := Step(n, last);
      forall id | id in n'.running
        ensures Rests(n'.running[id].state)
      {
        StepMoves(n, last, id);
        MovedRests(n, last, id, n'.running[id].state);
      }
    }
  }

  /** A finished task has delivered, and what has arrived since does not undo that. */
  lemma {:induction false} FinishedRests(n: Node, id: CertificateId, start: State, arrived: seq<Vote>)
    requires RunningSound(n) && Done(n) && TasksRest(n) && id in n.running && id in n.finished
    requires NothingForged(n, id, arrived) && OrderFree(|n.validators|, n.params)
    requires IsStart(start, n.validators) && start.params == n.params
    ensures ApplyAll(start, arrived).status == DeliveredWithReadySent
  {
    var s, t := n.running[id].state, ApplyAll(start, arrived);
    AllRests(start, n.validators, arrived);
    SendersTaken(start, n.validators, arrived);
    forall v | v in n.validators
      ensures v !in s.ready ==> v !in t.ready
      ensures v !in s.echo ==> v !in t.echo
    {
      assert Accepted(s, Ready(v)) ==> Present(n, id, Ready(v));
      assert Accepted(s, Echo(v)) ==> Present(n, id, Echo(v));
      assert v in EchoSenders(arrived) <==> Echo(v) in arrived;
      assert v in ReadySenders(arrived) <==> Ready(v) in arrived;
    }
    hide ApplyAll, NothingForged, Resting;
    SubsetSize(t.ready, s.ready);
    SubsetSize(t.echo, s.echo);
    var size := |n.validators|;
    DeliveredRemains(n.params, size - |s.echo|, size - |s.ready|, size - |t.echo|, size - |t.ready|);
  }

  lemma {:induction false} DrainedRests(n: Node, id: CertificateId, start: State, arrived: seq<Vote>)
    requires RunningSound(n) && TasksRest(n) && id in n.running && OrderFree(|n.validators|, n.params)
    requires IsStart(start, n.validators) && start.params == n.params
    requires Waits(n.running[id].state, n.validators, arrived)
    ensures n.running[id].state.status == ApplyAll(start, arrived).status
  {
    hide ApplyAll, EchoSenders, ReadySenders, Resting, OrderFree;
    AllRests(start, n.validators, arrived);
    SendersTaken(start, n.validators, arrived);
  }

  /** The status the task would have if its certificate had arrived before all its votes. */
  ghost function StatusInOrder(validators: set<ValidatorId>, params: Params, actions: seq<Action>, c: Certificate,
                               gossip: bool): Status {
    ApplyAll(Start(c, validators, params, gossip), Arrived(actions, c.id)).status
  }

  /**
   * Main result for votes. In every run that does not broadcast the certificate again after
   * its delivery, whatever else happens, the status of its task once finished or with nothing
   * left to take is the one it would have had if the certificate had arrived before all
   * its votes and they had been applied in order of arrival.
   */
  lemma {:induction false} VotesDecide(validators: set<ValidatorId>, params: Params, actions: seq<Action>,
                                       id: CertificateId, gossip: bool)
    requires OrderFree(|validators|, params) && NoRebroadcast(validators, params, actions, id)
    requires var n := Exec(validators, params, actions);
             id in n.running && (id in n.finished || Drained(n, id))
    ensures var s := Exec(validators, params, actions).running[id].state;
            s.status == StatusInOrder(validators, params, actions, s.certificate, gossip)
  {
    var n, arrived := Exec(validators, params, actions), Arrived(actions, id);
    EveryVoteRun(validators, params, actions);
    NoVoteLost(validators, params, actions, id);
    EveryTaskRests(validators, params, actions);
    assert n.running[id].Id() == id;
    var start := Start(n.running[id].state.certificate, validators, params, gossip);
    StartSound(n.running[id].state.certificate, validators, params, gossip);
    hide Exec, Arrived, ApplyAll, NothingLost, NothingForged, Rests, OrderFree;
    assert NothingForged(n, id, arrived) && NothingLost(n, id, arrived);
    if id in n.finished {
      FinishedRests(n, id, start, arrived);
    } else {
      DrainedWaits(n, id, arrived);
      DrainedRests(n, id, start, arrived);
    }
  }
}
