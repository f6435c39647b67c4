/** What every run of a validator keeps, whatever is broadcast to it: forks, duplicates, stale positions. */
module NodeRuns {
  import opened Wrappers
  import opened Certificates
  import opened Quorum
  import opened DoubleEcho
  import opened FullNodeStore
  import opened TaskManager
  import V = ValidatorStore

  /** The delivery an action writes to the tables, if it does. */
  ghost function Written(n: Node, a: Action): seq<CertificateDelivered> {
    if a.Poll? && Persists(n, a.id) && Insert(n.store.tables, Delivering(n, a.id)).Ok?
    then [Delivering(n, a.id)] else []
  }

  /** The deliveries of a run in the order they were written. */
  ghost function Log(validators: set<ValidatorId>, params: Params, actions: seq<Action>): seq<CertificateDelivered> {
    if actions == [] then []
    else
      var before := actions[..|actions| - 1];
      Log(validators, params, before) + Written(Exec(validators, params, before), actions[|actions| - 1])
  }

  lemma {:induction false} ExecSnoc(validators: set<ValidatorId>, params: Params, actions: seq<Action>, a: Action)
    ensures Exec(validators, params, actions + [a]) == Step(Exec(validators, params, actions), a)
    ensures Log(validators, params, actions + [a]) ==
            Log(validators, params, actions) + Written(Exec(validators, params, actions), a)
  {
    assert (actions + [a])[..|actions|] == actions;
    hide Step, Written;
  }

  lemma StepTables(n: Node, a: Action)
    ensures var tables := Step(n, a).store.tables;
            if Written(n, a) == [] then tables == n.store.tables
            else
              && Insert(n.store.tables, Written(n, a)[0]).Ok?
              && tables == Insert(n.store.tables, Written(n, a)[0]).value.tables
  {
    if a.Poll? && Persists(n, a.id) {
      V.DeliverTables(n.store, Delivering(n, a.id));
    }
  }

  lemma StepDelivered(n: Node, a: Action)
    ensures Step(n, a).store.tables.certificates.Keys == n.store.tables.certificates.Keys + LogIds(Written(n, a))
  {
    StepTables(n, a);
    if Written(n, a) != [] {
      V.InsertGrows(n.store.tables, Written(n, a)[0]);
    }
  }

  // ----- Tasks -----

  /** Where the state of a running task after an action comes from. */
  ghost predicate Moved(n: Node, a: Action, id: CertificateId, s: State) {
    || (id in n.running && s == n.running[id].state)
    || (a == Boot(id) && CanBoot(n, id)
        && s == n.running[id].state.(expectedPosition := NextPosition(n, n.running[id].state.certificate.source)))
    || (a == Poll(id) && CanPoll(n, id) && s == Polled(n, id).state)
    || (a.OnBroadcast? && a.certificate.id == id && id !in n.tasks && V.PrevDelivered(n.store, a.certificate)
        && s == NewTask(n, a.certificate, a.needGossip).state)
    || Released(n, a, id, s)
  }

  /** The completion of the predecessor started the waiting task. */
  ghost predicate Released(n: Node, a: Action, id: CertificateId, s: State) {
    && a.Complete? && a.id in n.finished && n.finished[a.id] == Success
    && a.id in n.precedence && n.precedence[a.id].Id() == id && s == n.precedence[a.id].state
  }

  lemma StepMoves(n: Node, a: Action, id: CertificateId)
    requires id in Step(n, a).running
    ensures Moved(n, a, id, Step(n, a).running[id].state)
  {
    hide V.PrevDelivered, CanPoll, Polled, NextPosition, Buffer;
    match a
    case Complete(x) => CompleteMoves(n, x, id);
    case Poll(x) => PollMoves(n, x, id);
    case OnBroadcast(c, gossip) => BroadcastMoves(n, c, gossip, id);
    case _ =>
    hide DoPoll, DoComplete, DoBroadcast, Released;
  }

  lemma BroadcastMoves(n: Node, c: Certificate, gossip: bool, id: CertificateId)
    requires id in DoBroadcast(n, c, gossip).running
    ensures Moved(n, OnBroadcast(c, gossip), id, DoBroadcast(n, c, gossip).running[id].state)
  {
    hide V.PrevDelivered, Buffer;
  }

  lemma CompleteMoves(n: Node, x: CertificateId, id: CertificateId)
    requires id in DoComplete(n, x).running
    ensures Moved(n, Complete(x), id, DoComplete(n, x).running[id].state)
  {
  }

  lemma PollMoves(n: Node, x: CertificateId, id: CertificateId)
    requires id in DoPoll(n, x).running
    ensures Moved(n, Poll(x), id, DoPoll(n, x).running[id].state)
  {
    hide Apply, V.Deliver, Delivering;
  }

  /** Where a waiting task after an action comes from. */
  lemma StepWaits(n: Node, a: Action, q: CertificateId)
    requires q in Step(n, a).precedence
    ensures var task := Step(n, a).precedence[q];
            || (q in n.precedence && task == n.precedence[q])
            || (a.OnBroadcast? && a.certificate.id !in n.tasks && a.certificate.prevId == q
                && task == NewTask(n, a.certificate, a.needGossip))
  {
  }

  /** What a first broadcast does to the collections. */
  lemma BroadcastShape(n: Node, c: Certificate, gossip: bool)
    requires c.id !in n.tasks
    ensures var n' := DoBroadcast(n, c, gossip);
            && n'.tasks == n.tasks[c.id := []] && n'.finished == n.finished && n'.store == n.store
            && (V.PrevDelivered(n.store, c) ==>
                  && n'.running == n.running[c.id := NewTask(n, c, gossip).(forwarding := Buffer(n, c.id))]
                  && n'.precedence == n.precedence && n'.buffered == n.buffered - {c.id})
            && (!V.PrevDelivered(n.store, c) ==>
                  && n'.running == n.running && n'.buffered == n.buffered
                  && n'.precedence == n.precedence[c.prevId := NewTask(n, c, gossip)])
  {
  }

  /** The completion of `id` releases a waiting task that still has its context. */
  ghost predicate Releases(n: Node, id: CertificateId) {
    id in n.precedence && n.precedence[id].Id() in n.tasks.Keys - {id}
  }

  /** What a successful completion does to the collections. */
  lemma CompleteShape(n: Node, id: CertificateId)
    requires id in n.finished && n.finished[id] == Success
    ensures var n' := DoComplete(n, id);
            && n'.tasks == n.tasks - {id} && n'.finished == n.finished - {id} && n'.store == n.store
            && n'.precedence == n.precedence - {id}
            && (!Releases(n, id) ==> n'.running == n.running - {id} && n'.buffered == n.buffered)
            && (Releases(n, id) ==>
                  var task := n.precedence[id];
                  && n'.running == (n.running - {id})[task.Id() := task.(forwarding := Buffer(n, task.Id()))]
                  && n'.buffered == n.buffered - {task.Id()})
  {
  }

  lemma StepKeepsConfig(n: Node, a: Action)
    ensures Step(n, a).validators == n.validators && Step(n, a).params == n.params
  {
  }

  /** The certificate has a task that waits for its predecessor. */
  ghost predicate Waiting(n: Node, id: CertificateId) {
    exists q :: q in n.precedence && n.precedence[q].Id() == id
  }

  ghost predicate TaskSound(n: Node, s: State) {
    Sound(s, n.validators) && s.params == n.params
  }

  /** Only certificates with a delivered predecessor, or none, are running. */
  ghost predicate RunningSound(n: Node) {
    forall id :: id in n.running ==>
      && n.running[id].Id() == id && TaskSound(n, n.running[id].state)
      && V.PrevDelivered(n.store, n.running[id].state.certificate)
  }

  ghost predicate Untouched(n: Node, task: Task) {
    && IsStart(task.state, n.validators) && task.state.params == n.params
    && task.state.expectedPosition.None? && task.forwarding == []
  }

  /** Waiting tasks are filed under their predecessor and have processed nothing. */
  ghost predicate WaitingSound(n: Node) {
    forall q :: q in n.precedence ==>
      n.precedence[q].state.certificate.prevId == q && Untouched(n, n.precedence[q])
  }

  ghost predicate FinishedSound(n: Node) {
    forall id :: id in n.finished ==>
      id in n.running && (n.finished[id] == Success ==> V.IsDelivered(n.store, id))
  }

  ghost predicate TasksSound(n: Node) {
    RunningSound(n) && WaitingSound(n) && FinishedSound(n)
  }

  lemma NewTaskUntouched(n: Node, c: Certificate, gossip: bool)
    ensures Untouched(n, NewTask(n, c, gossip))
  {
    StartSound(c, n.validators, n.params, gossip);
  }

  lemma MovedSound(n: Node, a: Action, id: CertificateId, s: State)
    requires TasksSound(n) && Moved(n, a, id, s)
    ensures s.certificate.id == id && TaskSound(n, s)
    ensures V.PrevDelivered(n.store, s.certificate)
  {
    if a == Poll(id) && CanPoll(n, id) {
      PolledKeepsPosition(n, id);
      ApplySound(n.running[id].state, n.tasks[id][0], n.validators);
    } else if a.OnBroadcast? {
      NewTaskUntouched(n, a.certificate, a.needGossip);
    }
  }

  lemma StepRunningSound(n: Node, a: Action)
    requires TasksSound(n)
    ensures RunningSound(Step(n, a))
  {
    var n' := Step(n, a);
    StepDelivered(n, a);
    StepKeepsConfig(n, a);
    hide Step;
    forall id | id in n'.running
      ensures n'.running[id].Id() == id && TaskSound(n', n'.running[id].state)
      ensures V.PrevDelivered(n'.store, n'.running[id].state.certificate)
    {
      StepMoves(n, a, id);
      MovedSound(n, a, id, n'.running[id].state);
    }
  }

  lemma StepWaitingSound(n: Node, a: Action)
    requires TasksSound(n)
    ensures WaitingSound(Step(n, a))
  {
    var n' := Step(n, a);
    StepKeepsConfig(n, a);
    hide Step;
    forall q | q in n'.precedence
      ensures n'.precedence[q].state.certificate.prevId == q && Untouched(n', n'.precedence[q])
    {
      StepWaits(n, a, q);
      if a.OnBroadcast? {
        NewTaskUntouched(n, a.certificate, a.needGossip);
      }
    }
  }

  /** A result is reported by the poll that persisted, and stays until the select loop sees it. */
  lemma StepFinishes(n: Node, a: Action, id: CertificateId)
    requires id in Step(n, a).finished
    ensures (id in n.finished && Step(n, a).finished[id] == n.finished[id] && a != Complete(id))
            || (a == Poll(id) && Persists(n, id) && (Step(n, a).finished[id] == Success ==> Written(n, a) != []))
    ensures id in n.running ==> id in Step(n, a).running
  {
    hide Insert, V.Deliver, Polled, V.PrevDelivered;
    if a == Poll(id) && Persists(n, id) {
      V.DeliverTables(n.store, Delivering(n, id));
    }
  }

  lemma FinishedStays(n: Node, a: Action, id: CertificateId)
    requires id in n.finished && a != Complete(id)
    ensures id in Step(n, a).finished
  {
  }

  lemma StepFinishedSound(n: Node, a: Action)
    requires TasksSound(n)
    ensures FinishedSound(Step(n, a))
  {
    var n' := Step(n, a);
    StepDelivered(n, a);
    hide Step;
    forall id | id in n'.finished
      ensures id in n'.running && (n'.finished[id] == Success ==> V.IsDelivered(n'.store, id))
    {
      StepFinishes(n, a, id);
      if a == Poll(id) && Persists(n, id) {
        PolledKeepsPosition(n, id);
      }
    }
  }

  // ----- Deliveries -----

  /** Starting positions may be stale but never lie ahead of the stream. */
  ghost predicate NeverAhead(n: Node, log: seq<CertificateDelivered>) {
    forall id :: id in n.running && n.running[id].state.expectedPosition.Some? ==>
      n.running[id].state.expectedPosition.value <= Length(log, Source(n.running[id].state.certificate.source))
  }

  /** Every delivery follows its predecessor. */
  ghost predicate CausallyOrdered(log: seq<CertificateDelivered>) {
    forall i :: 0 <= i < |log| ==>
      log[i].certificate.prevId == INITIAL_CERTIFICATE_ID || log[i].certificate.prevId in LogIds(log[..i])
  }

  /** The proof names itself and enough distinct known validators. */
  ghost predicate Proven(d: CertificateDelivered, validators: set<ValidatorId>, params: Params) {
    && d.proof.certificateId == d.certificate.id
    && d.proof.readies <= validators
    && |d.proof.readies| >= params.delivery == d.proof.threshold
  }

  ghost predicate AllProven(log: seq<CertificateDelivered>, validators: set<ValidatorId>, params: Params) {
    forall i :: 0 <= i < |log| ==> Proven(log[i], validators, params)
  }

  ghost predicate RunInv(n: Node, log: seq<CertificateDelivered>) {
    && TasksSound(n)
    && Represents(n.store.tables, log)
    && NeverAhead(n, log)
    && CausallyOrdered(log)
    && AllProven(log, n.validators, n.params)
  }

  /** A stale position is refused and a current one appends: no delivery leaves a gap. */
  lemma WrittenInOrder(n: Node, log: seq<CertificateDelivered>, a: Action)
    requires TasksSound(n) && Represents(n.store.tables, log) && NeverAhead(n, log) && Written(n, a) != []
    ensures InOrder(log, Written(n, a)[0])
    ensures Represents(Step(n, a).store.tables, log + Written(n, a))
  {
    PolledKeepsPosition(n, a.id);
    StepTables(n, a);
    InsertRefinesAppend(n.store.tables, log, Delivering(n, a.id));
  }

  lemma StepRepresents(n: Node, log: seq<CertificateDelivered>, a: Action)
    requires RunInv(n, log)
    ensures Represents(Step(n, a).store.tables, log + Written(n, a))
  {
    StepTables(n, a);
    if Written(n, a) == [] {
      assert log + [] == log;
    } else {
      WrittenInOrder(n, log, a);
    }
  }

  lemma WrittenProven(n: Node, a: Action)
    requires TasksSound(n) && Written(n, a) != []
    ensures Proven(Written(n, a)[0], n.validators, n.params)
    ensures V.PrevDelivered(n.store, Written(n, a)[0].certificate)
    ensures a.id in n.running && Written(n, a)[0].certificate == n.running[a.id].state.certificate
  {
    var s := Polled(n, a.id).state;
    PolledKeepsPosition(n, a.id);
    ApplySound(n.running[a.id].state, n.tasks[a.id][0], n.validators);
    DeliveredStatus(n.running[a.id].state, n.tasks[a.id][0]);
    TakenSize(n.validators, s.ready);
  }

  lemma DeliveredStatus(s: State, vote: Vote)
    requires Apply(s, vote).change == Some(DeliveredWithReadySent)
    ensures Apply(s, vote).state.status == DeliveredWithReadySent
  {
  }

  lemma StepLog(n: Node, log: seq<CertificateDelivered>, a: Action)
    requires RunInv(n, log)
    ensures CausallyOrdered(log + Written(n, a)) && AllProven(log + Written(n, a), n.validators, n.params)
  {
    if Written(n, a) == [] {
      assert log + [] == log;
    } else {
      var d := Written(n, a)[0];
      var log' := log + Written(n, a);
      WrittenProven(n, a);
      forall i | 0 <= i < |log'|
        ensures log'[i].certificate.prevId == INITIAL_CERTIFICATE_ID || log'[i].certificate.prevId in LogIds(log'[..i])
      {
        assert log'[..i] == log[..i];
        if i == |log| {
          assert log[..i] == log;
        }
      }
    }
  }

  lemma MovedNeverAhead(n: Node, log: seq<CertificateDelivered>, a: Action, id: CertificateId, s: State)
    requires RunInv(n, log) && Moved(n, a, id, s)
    ensures s.expectedPosition.Some? ==> s.expectedPosition.value <= Length(log, Source(s.certificate.source))
  {
    if a == Boot(id) {
      var k := Source(s.certificate.source);
      assert LastByIndex(n.store.tables, k) == LastOfLength(Length(log, k));
    } else if a == Poll(id) && CanPoll(n, id) {
      PolledKeepsPosition(n, id);
    }
  }

  lemma StepNeverAhead(n: Node, log: seq<CertificateDelivered>, a: Action)
    requires RunInv(n, log)
    ensures NeverAhead(Step(n, a), log + Written(n, a))
  {
    var n', log' := Step(n, a), log + Written(n, a);
    hide Step;
    forall id | id in n'.running && n'.running[id].state.expectedPosition.Some?
      ensures n'.running[id].state.expectedPosition.value <=
              Length(log', Source(n'.running[id].state.certificate.source))
    {
      var s := n'.running[id].state;
      StepMoves(n, a, id);
      MovedNeverAhead(n, log, a, id, s);
      Grows(log, Written(n, a), Source(s.certificate.source));
    }
  }

  lemma Grows(log: seq<CertificateDelivered>, more: seq<CertificateDelivered>, k: Stream)
    requires |more| <= 1
    ensures Length(log, k) <= Length(log + more, k)
  {
    if more == [] {
      assert log + more == log;
    } else {
      assert more == [more[0]];
      Append(log, more[0], k);
    }
  }

  lemma StepInv(n: Node, log: seq<CertificateDelivered>, a: Action)
    requires RunInv(n, log)
    ensures RunInv(Step(n, a), log + Written(n, a))
  {
    StepKeepsConfig(n, a);
    hide Step;
    StepRunningSound(n, a);
    StepWaitingSound(n, a);
    StepFinishedSound(n, a);
    StepRepresents(n, log, a);
    StepLog(n, log, a);
    StepNeverAhead(n, log, a);
  }

  /**
   * Main result for arbitrary runs. After any actions, with forks, duplicates and stale
   * starting positions: the tables represent the log of deliveries, so every source stream
   * is exactly the positions 0..m, both position lookups agree and the target index is the
   * filtered source stream; every delivery follows its predecessor and carries the votes of
   * a delivery quorum of known validators.
   */
  lemma {:induction false} EveryRun(validators: set<ValidatorId>, params: Params, actions: seq<Action>)
    ensures RunInv(Exec(validators, params, actions), Log(validators, params, actions))
    ensures Exec(validators, params, actions).validators == validators
    ensures Exec(validators, params, actions).params == params
  {
    if actions == [] {
      EmptyRepresentsNothing();
    } else {
      var before, last := actions[..|actions| - 1], actions[|actions| - 1];
      EveryRun(validators, params, before);
      StepKeepsConfig(Exec(validators, params, before), last);
      StepInv(Exec(validators, params, before), Log(validators, params, before), last);
      hide RunInv, Step, Written;
    }
  }
}
