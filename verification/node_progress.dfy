/**
 * Progress of one validator: a certificate that it was handed, whose predecessor it holds, is
 * either delivered or has a running task that has counted every vote that arrived.
 */
module NodeProgress {
  import opened Certificates
  import opened Quorum
  import opened DoubleEcho
  import opened VoteOrder
  import opened FullNodeStore
  import opened TaskManager
  import opened NodeRuns
  import opened VoteRuns
  import opened Chains
  import opened ForkFreeRuns
  import V = ValidatorStore

  // ----- Tasks are prompt -----

  ghost predicate TasksPrompt(n: Node) {
    forall id :: id in n.running ==> Prompt(n.running[id].state)
  }

  lemma MovedPrompt(n: Node, a: Action, id: CertificateId, s: State)
    requires TasksSound(n) && TasksPrompt(n) && Ordered(n.params) && Moved(n, a, id, s)
    ensures Prompt(s)
  {
    if a == Poll(id) && CanPoll(n, id) {
      ApplyPrompt(n.running[id].state, n.tasks[id][0]);
    } else if a.OnBroadcast? {
      NewTaskUntouched(n, a.certificate, a.needGossip);
    }
  }

  lemma {:induction false} EveryTaskPrompt(validators: set<ValidatorId>, params: Params, actions: seq<Action>)
    requires Ordered(params)
    ensures TasksPrompt(Exec(validators, params, actions))
  {
    if actions != [] {
      var before, last := actions[..|actions| - 1], actions[|actions| - 1];
      var n := Exec(validators, params, before);
      EveryTaskPrompt(validators, params, before);
      EveryRun(validators, params, before);
      hide Step, Prompt, RunningSound, WaitingSound, FinishedSound;
      var n' := Step(n, last);
      forall id | id in n'.running
        ensures Prompt(n'.running[id].state)
      {
        StepMoves(n, last, id);
        MovedPrompt(n, last, id, n'.running[id].state);
      }
    }
  }

  // ----- A delivery rests on Readies that arrived -----

  ghost predicate QuorumArrived(validators: set<ValidatorId>, params: Params, arrived: seq<Vote>) {
    |validators * ReadySenders(arrived)| >= params.delivery
  }

  lemma QuorumGrows(validators: set<ValidatorId>, params: Params, arrived: seq<Vote>, more: seq<Vote>)
    requires QuorumArrived(validators, params, arrived)
    ensures QuorumArrived(validators, params, arrived + more)
  {
    forall v | v in ReadySenders(arrived)
      ensures v in ReadySenders(arrived + more)
    {
      assert Ready(v) in arrived;
      assert Ready(v) in arrived + more;
    }
    SubsetSize(validators * ReadySenders(arrived), validators * ReadySenders(arrived + more));
  }

  /** The Readies in the proof of a delivery have arrived. */
  lemma ProofArrived(n: Node, id: CertificateId, arrived: seq<Vote>)
    requires TasksSound(n) && NothingForged(n, id, arrived) && Written(n, Poll(id)) != []
    ensures QuorumArrived(n.validators, n.params, arrived)
  {
    var s, vote := n.running[id].state, n.tasks[id][0];
    var readies := Written(n, Poll(id))[0].proof.readies;
    WrittenProven(n, Poll(id));
    ApplySound(s, vote, n.validators);
    ApplyFrame(s, vote);
    assert readies == n.validators - Apply(s, vote).state.ready;
    hide Written, Apply;
    forall v | v in readies
      ensures v in ReadySenders(arrived)
    {
      assert Present(n, id, Ready(v));
      assert Ready(v) in arrived;
    }
    SubsetSize(readies, n.validators * ReadySenders(arrived));
  }

  lemma {:induction false} DeliveredQuorum(validators: set<ValidatorId>, params: Params, actions: seq<Action>,
                                           id: CertificateId)
    requires V.IsDelivered(Exec(validators, params, actions).store, id)
    ensures QuorumArrived(validators, params, Arrived(actions, id))
  {
    var before, last := actions[..|actions| - 1], actions[|actions| - 1];
    var n := Exec(validators, params, before);
    assert actions == before + [last];
    ArrivedStep(before, last, id);
    if V.IsDelivered(n.store, id) {
      DeliveredQuorum(validators, params, before, id);
      QuorumGrows(validators, params, Arrived(before, id), NewVotes(last, id));
    } else {
      EveryVoteRun(validators, params, before);
      StepDelivered(n, last);
      WrittenHere(n, last, id);
      hide Exec, Written, Arrived, Step;
      ProofArrived(n, id, Arrived(before, id));
      QuorumGrows(validators, params, Arrived(before, id), NewVotes(last, id));
    }
  }

  lemma WrittenHere(n: Node, a: Action, id: CertificateId)
    requires TasksSound(n) && id in LogIds(Written(n, a))
    ensures a == Poll(id)
  {
    WrittenProven(n, a);
  }

  // ----- Handed certificates are not forgotten -----

  ghost predicate Handed(actions: seq<Action>, c: Certificate) {
    exists gossip :: OnBroadcast(c, gossip) in actions
  }

  /** In every run: a context goes away only with a delivery. */
  lemma {:induction false} HandedStays(validators: set<ValidatorId>, params: Params, actions: seq<Action>,
                                       c: Certificate)
    requires Handed(actions, c)
    ensures var n := Exec(validators, params, actions); c.id in n.tasks || V.IsDelivered(n.store, c.id)
  {
    var before, last := actions[..|actions| - 1], actions[|actions| - 1];
    var n := Exec(validators, params, before);
    var gossip :| OnBroadcast(c, gossip) in actions;
    if OnBroadcast(c, gossip) in before {
      HandedStays(validators, params, before, c);
      EveryRun(validators, params, before);
      hide Exec, Log, Step, Written;
      StepDelivered(n, last);
      if c.id in n.tasks {
        ContextStays(n, last, c.id);
      }
    } else {
      assert last == OnBroadcast(c, gossip);
      BroadcastHasContext(n, c, gossip);
    }
  }

  lemma BroadcastHasContext(n: Node, c: Certificate, gossip: bool)
    ensures c.id in Step(n, OnBroadcast(c, gossip)).tasks
  {
  }

  // ----- Nobody waits for nothing -----

  ghost predicate WaitsForSomething(n: Node) {
    INITIAL_CERTIFICATE_ID !in n.precedence
  }

  lemma {:induction false} EveryWaitIsForSomething(validators: set<ValidatorId>, params: Params, actions: seq<Action>)
    ensures WaitsForSomething(Exec(validators, params, actions))
  {
    if actions != [] {
      var before, last := actions[..|actions| - 1], actions[|actions| - 1];
      EveryWaitIsForSomething(validators, params, before);
      StillForSomething(Exec(validators, params, before), last);
      hide Step;
    }
  }

  lemma StillForSomething(n: Node, a: Action)
    requires WaitsForSomething(n)
    ensures WaitsForSomething(Step(n, a))
  {
    if a.OnBroadcast? && a.certificate.id !in n.tasks {
      BroadcastShape(n, a.certificate, a.needGossip);
      hide DoBroadcast;
    } else if INITIAL_CERTIFICATE_ID in Step(n, a).precedence {
      StepWaits(n, a, INITIAL_CERTIFICATE_ID);
    }
  }

  // ----- What stands between a certificate and its delivery -----

  lemma {:induction false} AdmissibleIsNoRebroadcast(validators: set<ValidatorId>, params: Params, u: Universe,
                                                     actions: seq<Action>, id: CertificateId)
    requires id in u && AdmissibleRun(validators, params, u, u[id].source, actions)
    ensures NoRebroadcast(validators, params, actions, id)
  {
    if actions != [] {
      AdmissibleIsNoRebroadcast(validators, params, u, actions[..|actions| - 1], id);
      hide Exec;
    }
  }

  /** The completion of the predecessor was handled, and the task, if it runs, has taken everything. */
  ghost predicate Settled(n: Node, c: Certificate) {
    c.prevId !in n.finished && (c.id in n.running ==> Drained(n, c.id))
  }

  /** The task has counted exactly the votes that arrived, and they did not suffice. */
  ghost predicate Stuck(validators: set<ValidatorId>, params: Params, n: Node, id: CertificateId, arrived: seq<Vote>) {
    && id in n.running
    && var s := n.running[id].state;
       && Sound(s, validators) && s.params == params && Prompt(s) && Waits(s, validators, arrived)
       && s.status != DeliveredWithReadySent
  }

  lemma HasTask(n: Node, u: Universe, c: Certificate)
    requires KnownTasks(n, u) && WaitingSound(n) && WaitsForSomething(n) && ForkFree(u, c.source)
    requires Coherent(n, u, c.source) && Known(u, c) && c.id in n.tasks && c.prevId !in n.finished
    requires V.PrevDelivered(n.store, c)
    ensures c.id in n.running
  {
    if c.prevId in n.precedence && c.prevId != INITIAL_CERTIFICATE_ID {
      WaitsAtHome(n, u, c.source, c.prevId);
    }
  }

  /** An undelivered certificate has not finished. */
  lemma Unfinished(n: Node, u: Universe, s: SubnetId, id: CertificateId)
    requires FinishedSound(n) && Coherent(n, u, s) && Of(u, id, s) && !V.IsDelivered(n.store, id)
    ensures id !in n.finished
  {
  }

  lemma {:induction false} DeliveredOrStuck(validators: set<ValidatorId>, params: Params, u: Universe,
                                            actions: seq<Action>, c: Certificate)
    requires ForkFree(u, c.source) && |u| <= MAX_U64 && AdmissibleRun(validators, params, u, c.source, actions)
    requires Known(u, c) && Ordered(params) && Handed(actions, c)
    requires var n := Exec(validators, params, actions); Settled(n, c) && V.PrevDelivered(n.store, c)
    ensures var n := Exec(validators, params, actions);
            V.IsDelivered(n.store, c.id) || Stuck(validators, params, n, c.id, Arrived(actions, c.id))
  {
    var n, log := Exec(validators, params, actions), Log(validators, params, actions);
    HandedStays(validators, params, actions, c);
    if !V.IsDelivered(n.store, c.id) {
      EveryForkFreeRun(validators, params, u, c.source, actions);
      EveryWaitIsForSomething(validators, params, actions);
      AdmissibleIsNoRebroadcast(validators, params, u, actions, c.id);
      EveryVoteRun(validators, params, actions);
      NoVoteLost(validators, params, actions, c.id);
      EveryTaskPrompt(validators, params, actions);
      FullIsCoherent(n, log, u, c.source);
      FullIsKnown(n, log, u, c.source);
      hide Exec, Log, FullInv, ForkFree, AdmissibleRun, Handed, V.PrevDelivered, NoRebroadcast, Coherent, KnownTasks;
      HasTask(n, u, c);
      Unfinished(n, u, c.source, c.id);
      StuckNow(validators, params, n, c.id, actions);
    }
  }

  lemma FullIsKnown(n: Node, log: seq<CertificateDelivered>, u: Universe, s: SubnetId)
    requires FullInv(n, log, u, s)
    ensures KnownTasks(n, u)
  {
  }

  lemma {:induction false} StuckNow(validators: set<ValidatorId>, params: Params, n: Node, id: CertificateId,
                                    actions: seq<Action>)
    requires VotesInv(n, actions) && TasksPrompt(n) && Drained(n, id) && id !in n.finished
    requires NothingLost(n, id, Arrived(actions, id)) && n.validators == validators && n.params == params
    ensures Stuck(validators, params, n, id, Arrived(actions, id))
  {
    assert NothingForged(n, id, Arrived(actions, id));
    hide Arrived, NothingLost, NothingForged, Slots, Prompt;
    DrainedWaits(n, id, Arrived(actions, id));
  }
}
