/**
 * Which certificates the command loop hands to the task manager after they were delivered: when it
 * happens, seen from inside, and which sequences of commands can lead to it.
 */
module Timeliness {
  import opened Certificates
  import opened Quorum
  import opened FullNodeStore
  import opened TaskManager
  import opened NodeRuns
  import opened VoteRuns
  import opened Chains
  import opened ForkFreeRuns
  import opened C = CommandLoop
  import V = ValidatorStore

  // ----- What the loop knows about deliveries -----

  /** A delivery of the subnet is known to the loop, announced to it, or about to be announced. */
  ghost predicate Tracked(l: Loop, u: Universe, s: SubnetId) {
    forall id :: Of(u, id, s) ==>
      (V.IsDelivered(l.node.store, id) <==> id in l.delivered || id in l.completions || id in l.node.finished)
  }

  /** The task manager may take up the subnet's certificate: its delivery is not announced or known. */
  ghost predicate Timely(l: Loop, u: Universe, s: SubnetId, a: Action) {
    match a
    case OnBroadcast(c, _) =>
      Known(u, c) && (c.source == s ==> c.id in l.node.tasks || (c.id !in l.delivered && c.id !in l.completions))
    case Submit(c) => Known(u, c)
    case _ => true
  }

  ghost predicate TimelyRun(validators: set<ValidatorId>, params: Params, u: Universe, s: SubnetId,
                            events: seq<Event>) {
    events != [] ==>
      var before := events[..|events| - 1];
      var l := C.Exec(validators, params, before);
      && TimelyRun(validators, params, u, s, before)
      && forall a :: a in Performed(l, events[|events| - 1]) ==> Timely(l, u, s, a)
  }

  lemma FinishedHasTask(n: Node, u: Universe, s: SubnetId, id: CertificateId)
    requires TasksSound(n) && Coherent(n, u, s) && Of(u, id, s) && id in n.finished
    ensures id in n.tasks
  {
  }

  lemma TimelyIsAdmissible(l: Loop, u: Universe, s: SubnetId, a: Action)
    requires TasksSound(l.node) && Coherent(l.node, u, s) && Tracked(l, u, s)
    ensures Timely(l, u, s, a) <==> Admissible(l.node, u, s, a)
  {
    if a.OnBroadcast? && Of(u, a.certificate.id, s) && a.certificate.id in l.node.finished {
      FinishedHasTask(l.node, u, s, a.certificate.id);
    }
    hide TasksSound, Coherent;
  }

  /** A delivery enters `finished` with the write, and leaves it with the announcement. */
  lemma FinishedMeans(n: Node, log: seq<CertificateDelivered>, u: Universe, s: SubnetId, a: Action, id: CertificateId)
    requires FullInv(n, log, u, s) && Of(u, id, s)
    ensures id in TaskManager.Step(n, a).finished <==>
            (id in n.finished && id !in Completion(n, a)) || id in LogIds(Written(n, a))
    ensures id in Completion(n, a) ==> id in n.finished
  {
    hide FullInv, Written, Persists, TaskManager.Step, TasksSound, Coherent, Completion, LogIds;
    FullIsCoherent(n, log, u, s);
    Announced(n, u, s, a, id);
    if id in TaskManager.Step(n, a).finished {
      StepFinishes(n, a, id);
      if a == Poll(id) && Persists(n, id) {
        PersistLogs(n, log, u, s, id);
      }
    }
    if id in LogIds(Written(n, a)) {
      WrittenNow(n, a, id);
      PersistFinishes(n, id);
    }
  }

  /** A result is announced by its completion and stays otherwise. */
  lemma Announced(n: Node, u: Universe, s: SubnetId, a: Action, id: CertificateId)
    requires Coherent(n, u, s) && Of(u, id, s)
    ensures id in Completion(n, a) <==> id in n.finished && a == Complete(id)
    ensures id in n.finished && a != Complete(id) ==> id in TaskManager.Step(n, a).finished
    ensures id in n.finished && a == Complete(id) ==> id !in TaskManager.Step(n, a).finished
  {
    hide TaskManager.Step, Partition, AboutToStart, NotDeliveredYet;
    if id in n.finished {
      if a == Complete(id) {
        Retires(n, id);
      } else {
        FinishedStays(n, a, id);
      }
    }
  }

  lemma PersistLogs(n: Node, log: seq<CertificateDelivered>, u: Universe, s: SubnetId, id: CertificateId)
    requires FullInv(n, log, u, s) && Of(u, id, s) && Persists(n, id)
    ensures id in LogIds(Written(n, Poll(id)))
  {
    hide FullInv, Written, Delivering, AtDepth, Polled;
    assert CanPoll(n, id);
    PersistWrites(n, log, u, s, id);
    RunningId(n, log, u, s, id);
    assert LogIds([Delivering(n, id)]) == {id};
  }

  lemma Retires(n: Node, id: CertificateId)
    requires id in n.finished && n.finished[id] == Success
    ensures id !in TaskManager.Step(n, Complete(id)).finished
  {
    CompleteStep(n, id);
    CompleteShape(n, id);
    hide DoComplete;
  }

  lemma WrittenNow(n: Node, a: Action, id: CertificateId)
    requires TasksSound(n) && id in LogIds(Written(n, a))
    ensures a == Poll(id) && Persists(n, id)
  {
    WrittenProven(n, a);
  }

  lemma PerformTracked(l: Loop, log: seq<CertificateDelivered>, u: Universe, s: SubnetId, a: Action)
    requires Tracked(l, u, s) && FullInv(l.node, log, u, s)
    ensures Tracked(Perform(l, a), u, s)
  {
    hide FullInv, TaskManager.Step, Written, LogIds;
    StepDelivered(l.node, a);
    forall id | Of(u, id, s)
      ensures V.IsDelivered(Perform(l, a).node.store, id) <==>
              id in l.delivered || id in l.completions + Completion(l.node, a) || id in Perform(l, a).node.finished
    {
      FinishedMeans(l.node, log, u, s, a, id);
      hide Completion;
    }
  }

  lemma StepTracked(l: Loop, log: seq<CertificateDelivered>, u: Universe, s: SubnetId, e: Event)
    requires Tracked(l, u, s) && FullInv(l.node, log, u, s)
    ensures Tracked(C.Step(l, e), u, s)
  {
    hide FullInv, Perform;
    match e
    case HandleMessage =>
      if l.inbox != [] {
        PerformTracked(l.(inbox := l.inbox[1..]), log, u, s, l.inbox[0]);
      }
    case Internal(a) =>
      PerformTracked(l, log, u, s, a);
    case OnCompletion =>
      if l.completions != [] {
        assert l.completions == [l.completions[0]] + l.completions[1..];
      }
    case OnCommand(_) =>
  }

  lemma {:induction false} AdmissibleSnoc(validators: set<ValidatorId>, params: Params, u: Universe, s: SubnetId,
                                          actions: seq<Action>, a: Action)
    ensures AdmissibleRun(validators, params, u, s, actions + [a]) <==>
            && AdmissibleRun(validators, params, u, s, actions)
            && Admissible(TaskManager.Exec(validators, params, actions), u, s, a)
  {
    assert (actions + [a])[..|actions|] == actions;
    hide Admissible, TaskManager.Exec;
  }

  lemma {:induction false} TraceGrows(validators: set<ValidatorId>, params: Params, u: Universe, s: SubnetId,
                                      trace: seq<Action>, performed: seq<Action>)
    requires |performed| <= 1
    ensures AdmissibleRun(validators, params, u, s, trace + performed) <==>
            && AdmissibleRun(validators, params, u, s, trace)
            && (performed == [] || Admissible(TaskManager.Exec(validators, params, trace), u, s, performed[0]))
  {
    hide AdmissibleRun, Admissible, TaskManager.Exec;
    if performed == [] {
      assert trace + performed == trace;
    } else {
      assert performed == [performed[0]];
      AdmissibleSnoc(validators, params, u, s, trace, performed[0]);
    }
  }

  lemma TimelySnoc(validators: set<ValidatorId>, params: Params, u: Universe, s: SubnetId, events: seq<Event>)
    requires events != []
    ensures var before := events[..|events| - 1];
            var l := C.Exec(validators, params, before);
            var performed := Performed(l, events[|events| - 1]);
            TimelyRun(validators, params, u, s, events) <==>
              TimelyRun(validators, params, u, s, before) && (performed == [] || Timely(l, u, s, performed[0]))
  {
    var l := C.Exec(validators, params, events[..|events| - 1]);
    var performed := Performed(l, events[|events| - 1]);
    StepPerforms(l, events[|events| - 1]);
    hide Timely, Performed, C.Exec, C.Step;
    assert forall a :: a in performed ==> a == performed[0];
  }

  /** One event after a timely run. */
  lemma {:induction false} TimelyStep(validators: set<ValidatorId>, params: Params, u: Universe, s: SubnetId,
                                      trace: seq<Action>, l: Loop, e: Event)
    requires ForkFree(u, s) && |u| <= MAX_U64 && AdmissibleRun(validators, params, u, s, trace)
    requires l.node == TaskManager.Exec(validators, params, trace) && Tracked(l, u, s)
    ensures Tracked(C.Step(l, e), u, s)
    ensures || Performed(l, e) == []
            || (Timely(l, u, s, Performed(l, e)[0]) <==> Admissible(l.node, u, s, Performed(l, e)[0]))
  {
    EveryForkFreeRun(validators, params, u, s, trace);
    var log := Log(validators, params, trace);
    hide ForkFree, C.Step, Performed, TaskManager.Exec, Log, AdmissibleRun, Tracked, Timely, Admissible, FullInv;
    StepTracked(l, log, u, s, e);
    if Performed(l, e) != [] {
      FullIsCoherent(l.node, log, u, s);
      TimelyIsAdmissible(l, u, s, Performed(l, e)[0]);
    }
  }

  /**
   * The task manager is handed only what it may take up of a subnet exactly when none of its
   * certificates is handed over after its task was removed while the completion is announced or
   * known.
   */
  lemma {:induction false} TimelyIffAdmissible(validators: set<ValidatorId>, params: Params, u: Universe, s: SubnetId,
                                               events: seq<Event>)
    requires ForkFree(u, s) && |u| <= MAX_U64
    ensures TimelyRun(validators, params, u, s, events) <==>
            AdmissibleRun(validators, params, u, s, Trace(validators, params, events))
    ensures TimelyRun(validators, params, u, s, events) ==> Tracked(C.Exec(validators, params, events), u, s)
  {
    if events != [] {
      var before, e := events[..|events| - 1], events[|events| - 1];
      TimelyIffAdmissible(validators, params, u, s, before);
      RunOfManager(validators, params, before);
      var l, trace := C.Exec(validators, params, before), Trace(validators, params, before);
      hide ForkFree, C.Step, Performed, TaskManager.Exec, AdmissibleRun, Tracked, Timely, TimelyRun, Admissible;
      StepPerforms(l, e);
      TimelySnoc(validators, params, u, s, events);
      TraceGrows(validators, params, u, s, trace, Performed(l, e));
      if TimelyRun(validators, params, u, s, before) {
        TimelyStep(validators, params, u, s, trace, l, e);
      }
    } else {
      NothingYet(validators, params, u, s);
    }
  }

  lemma {:induction false} NothingYet(validators: set<ValidatorId>, params: Params, u: Universe, s: SubnetId)
    ensures TimelyRun(validators, params, u, s, []) && AdmissibleRun(validators, params, u, s, [])
    ensures Tracked(C.Exec(validators, params, []), u, s)
  {
  }

  /** What is known of the validator in a timely run. */
  lemma {:induction false} TimelyInvariant(validators: set<ValidatorId>, params: Params, u: Universe, s: SubnetId,
                                           events: seq<Event>)
    requires ForkFree(u, s) && |u| <= MAX_U64 && TimelyRun(validators, params, u, s, events)
    ensures FullInv(C.Exec(validators, params, events).node,
                    Log(validators, params, Trace(validators, params, events)), u, s)
    ensures Tracked(C.Exec(validators, params, events), u, s)
  {
    TimelyIffAdmissible(validators, params, u, s, events);
    RunOfManager(validators, params, events);
    hide C.Exec, TaskManager.Exec, Log, AdmissibleRun, TimelyRun, ForkFree, FullInv, Tracked;
    EveryForkFreeRun(validators, params, u, s, Trace(validators, params, events));
  }

  // ----- What was commanded -----

  ghost predicate KnownEvent(u: Universe, e: Event) {
    && (e.OnCommand? && e.command.Broadcast? ==> Known(u, e.command.certificate))
    && (e.Internal? && e.action.Submit? ==> Known(u, e.action.certificate))
  }

  ghost predicate KnownEvents(u: Universe, events: seq<Event>) {
    forall i :: 0 <= i < |events| ==> KnownEvent(u, events[i])
  }

  ghost function NewCommand(e: Event, s: SubnetId): seq<CertificateId> {
    if e.OnCommand? && e.command.Broadcast? && e.command.certificate.source == s
    then [e.command.certificate.id] else []
  }

  /** The ids of the subnet's certificates in the Broadcast commands, in order. */
  ghost function Commanded(events: seq<Event>, s: SubnetId): seq<CertificateId> {
    if events == [] then [] else Commanded(events[..|events| - 1], s) + NewCommand(events[|events| - 1], s)
  }

  ghost predicate Distinct<T>(items: seq<T>) {
    forall i, j :: 0 <= i < j < |items| ==> items[i] != items[j]
  }

  /** The command names a certificate that was commanded before together with its whole chain. */
  ghost predicate Repeats(u: Universe, ids: seq<CertificateId>, j: nat) {
    && j < |ids|
    && exists k :: AtDepth(u, ids[j], k) && forall x :: x in PathTo(u, ids[j], k) ==> x in ids[..j]
  }

  ghost predicate NoRepeat(u: Universe, ids: seq<CertificateId>) {
    forall j :: 0 <= j < |ids| ==> !Repeats(u, ids, j)
  }

  lemma {:induction false} DistinctIsNoRepeat(u: Universe, ids: seq<CertificateId>)
    requires Distinct(ids)
    ensures NoRepeat(u, ids)
  {
    forall j | 0 <= j < |ids|
      ensures !Repeats(u, ids, j)
    {
      forall k | AtDepth(u, ids[j], k) ensures ids[j] in PathTo(u, ids[j], k) {}
    }
  }

  lemma {:induction false} NoRepeatBefore(u: Universe, ids: seq<CertificateId>, more: seq<CertificateId>)
    requires NoRepeat(u, ids + more)
    ensures NoRepeat(u, ids)
  {
    hide PathTo, AtDepth;
    forall j | 0 <= j < |ids|
      ensures !Repeats(u, ids, j)
    {
      assert !Repeats(u, ids + more, j);
      assert (ids + more)[..j] == ids[..j] && (ids + more)[j] == ids[j];
    }
  }

  // ----- Certificates on their way -----

  /** Certificates that the task manager has taken up so far. */
  ghost function Seen(n: Node): set<CertificateId> {
    n.tasks.Keys + n.running.Keys + n.store.tables.certificates.Keys
  }

  ghost function Fresh(a: Action): set<CertificateId> {
    if a.OnBroadcast? then {a.certificate.id} else {}
  }

  lemma SeenGrows(n: Node, a: Action)
    requires TasksSound(n)
    ensures Seen(TaskManager.Step(n, a)) <= Seen(n) + Fresh(a)
  {
    hide TaskManager.Step, Written;
    var n' := TaskManager.Step(n, a);
    StepDelivered(n, a);
    WrittenSeen(n, a);
    hide TasksSound, LogIds;
    forall id | id in n'.running
      ensures id in Seen(n) + Fresh(a)
    {
      RunningSeen(n, a, id);
    }
    forall id | id in n'.tasks
      ensures id in Seen(n) + Fresh(a)
    {
      TaskSeen(n, a, id);
    }
  }

  lemma WrittenSeen(n: Node, a: Action)
    requires TasksSound(n)
    ensures LogIds(Written(n, a)) <= n.running.Keys
  {
    if Written(n, a) != [] {
      WrittenProven(n, a);
      WrittenOne(n, a);
      assert n.running[a.id].Id() == a.id;
      hide TasksSound, Written, Proven;
    }
  }

  lemma RunningSeen(n: Node, a: Action, id: CertificateId)
    requires id in TaskManager.Step(n, a).running
    ensures id in Seen(n) + Fresh(a)
  {
    StepMoves(n, a, id);
    if a.Complete? && a.id in n.finished && n.finished[a.id] == Success {
      CompleteShape(n, a.id);
      hide DoComplete;
    } else {
      hide TaskManager.Step, Moved;
    }
  }

  lemma TaskSeen(n: Node, a: Action, id: CertificateId)
    requires id in TaskManager.Step(n, a).tasks
    ensures id in n.tasks || id in Fresh(a)
  {
  }

  ghost predicate Broadcasts(inbox: seq<Action>, id: CertificateId) {
    exists i :: 0 <= i < |inbox| && inbox[i].OnBroadcast? && inbox[i].certificate.id == id
  }

  /** Whatever of the subnet was taken up, or is to be before this message, was commanded earlier. */
  ghost predicate Covered(n: Node, ahead: seq<Action>, u: Universe, s: SubnetId, earlier: seq<CertificateId>) {
    forall id :: Of(u, id, s) && (id in Seen(n) || Broadcasts(ahead, id)) ==> id in earlier
  }

  /** The `i`-th message stands for the `j`-th command, and all before it for earlier ones. */
  ghost predicate StandsFor(l: Loop, u: Universe, s: SubnetId, commanded: seq<CertificateId>, i: nat, j: nat)
    requires i < |l.inbox| && l.inbox[i].OnBroadcast?
  {
    && j < |commanded| && commanded[j] == l.inbox[i].certificate.id
    && Covered(l.node, l.inbox[..i], u, s, commanded[..j])
  }

  ghost predicate Queued(l: Loop, u: Universe, s: SubnetId, commanded: seq<CertificateId>, i: nat)
    requires i < |l.inbox|
  {
    && !l.inbox[i].Submit?
    && (l.inbox[i].OnBroadcast? ==>
          && Known(u, l.inbox[i].certificate)
          && (l.inbox[i].certificate.source == s ==> exists j :: StandsFor(l, u, s, commanded, i, j)))
  }

  /** The channel keeps the order of the commands. */
  ghost predicate Underway(l: Loop, u: Universe, s: SubnetId, commanded: seq<CertificateId>) {
    && Covered(l.node, l.inbox, u, s, commanded)
    && forall i :: 0 <= i < |l.inbox| ==> Queued(l, u, s, commanded, i)
  }

  lemma CoveredStays(n: Node, ahead: seq<Action>, n': Node, ahead': seq<Action>, u: Universe, s: SubnetId,
                     earlier: seq<CertificateId>)
    requires Covered(n, ahead, u, s, earlier)
    requires forall id :: id in Seen(n') || Broadcasts(ahead', id) ==> id in Seen(n) || Broadcasts(ahead, id)
    ensures Covered(n', ahead', u, s, earlier)
  {
    hide Seen, Broadcasts;
  }

  /** The node may change, or take the first message, as long as it takes up nothing else. */
  lemma QueuedStays(l: Loop, l': Loop, u: Universe, s: SubnetId, commanded: seq<CertificateId>, i: nat, i': nat)
    requires i < |l.inbox| && i' < |l'.inbox| && l'.inbox[i'] == l.inbox[i] && Queued(l, u, s, commanded, i)
    requires forall id :: id in Seen(l'.node) || Broadcasts(l'.inbox[..i'], id) ==>
               id in Seen(l.node) || Broadcasts(l.inbox[..i], id)
    ensures Queued(l', u, s, commanded, i')
  {
    hide Seen, Broadcasts, Covered, Known;
    if l.inbox[i].OnBroadcast? && l.inbox[i].certificate.source == s {
      var j: nat :| StandsFor(l, u, s, commanded, i, j);
      CoveredStays(l.node, l.inbox[..i], l'.node, l'.inbox[..i'], u, s, commanded[..j]);
      assert StandsFor(l', u, s, commanded, i', j);
    }
  }

  lemma HeadTaken(l: Loop, i: nat, n': Node, id: CertificateId)
    requires 0 < i <= |l.inbox| && Seen(n') <= Seen(l.node) + Fresh(l.inbox[0])
    requires id in Seen(n') || Broadcasts(l.inbox[1..i], id)
    ensures id in Seen(l.node) || Broadcasts(l.inbox[..i], id)
  {
    hide Seen;
    if Broadcasts(l.inbox[1..i], id) {
      var x :| 0 <= x < |l.inbox[1..i]| && l.inbox[1..i][x].OnBroadcast? && l.inbox[1..i][x].certificate.id == id;
      assert l.inbox[..i][x + 1] == l.inbox[1..i][x];
    } else if id in Fresh(l.inbox[0]) {
      assert l.inbox[..i][0] == l.inbox[0];
    }
  }

  lemma HandledUnderway(l: Loop, u: Universe, s: SubnetId, commanded: seq<CertificateId>)
    requires Underway(l, u, s, commanded) && TasksSound(l.node) && l.inbox != []
    ensures Underway(C.Step(l, HandleMessage), u, s, commanded)
  {
    var l' := C.Step(l, HandleMessage);
    SeenGrows(l.node, l.inbox[0]);
    hide Seen, TaskManager.Step, TasksSound, Completion, Queued, Covered, Fresh, Broadcasts;
    CoveredNext(l, l', u, s, commanded);
    forall i | 0 <= i < |l'.inbox|
      ensures Queued(l', u, s, commanded, i)
    {
      QueuedNext(l, l', u, s, commanded, i);
    }
  }

  lemma CoveredNext(l: Loop, l': Loop, u: Universe, s: SubnetId, commanded: seq<CertificateId>)
    requires l.inbox != [] && l'.inbox == l.inbox[1..] && Seen(l'.node) <= Seen(l.node) + Fresh(l.inbox[0])
    requires Covered(l.node, l.inbox, u, s, commanded)
    ensures Covered(l'.node, l'.inbox, u, s, commanded)
  {
    hide Seen, Covered, Fresh, Broadcasts;
    assert l.inbox[..|l.inbox|] == l.inbox && l.inbox[1..|l.inbox|] == l'.inbox;
    forall id | id in Seen(l'.node) || Broadcasts(l'.inbox, id)
      ensures id in Seen(l.node) || Broadcasts(l.inbox, id)
    {
      HeadTaken(l, |l.inbox|, l'.node, id);
    }
    CoveredStays(l.node, l.inbox, l'.node, l'.inbox, u, s, commanded);
  }

  lemma QueuedNext(l: Loop, l': Loop, u: Universe, s: SubnetId, commanded: seq<CertificateId>, i: nat)
    requires l.inbox != [] && l'.inbox == l.inbox[1..] && Seen(l'.node) <= Seen(l.node) + Fresh(l.inbox[0])
    requires i < |l'.inbox| && Queued(l, u, s, commanded, i + 1)
    ensures Queued(l', u, s, commanded, i)
  {
    hide Seen, Queued, Fresh, Broadcasts;
    assert l'.inbox[..i] == l.inbox[1..i + 1];
    forall id | id in Seen(l'.node) || Broadcasts(l'.inbox[..i], id)
      ensures id in Seen(l.node) || Broadcasts(l.inbox[..i + 1], id)
    {
      HeadTaken(l, i + 1, l'.node, id);
    }
    QueuedStays(l, l', u, s, commanded, i + 1, i);
  }

  lemma InternalUnderway(l: Loop, u: Universe, s: SubnetId, commanded: seq<CertificateId>, a: Action)
    requires Underway(l, u, s, commanded) && TasksSound(l.node)
    ensures Underway(C.Step(l, Internal(a)), u, s, commanded)
  {
    hide Seen, TaskManager.Step, TasksSound, Completion, Queued, Covered, Broadcasts;
    if !a.OnVote? && !a.OnBroadcast? {
      var l' := C.Step(l, Internal(a));
      SeenGrows(l.node, a);
      CoveredStays(l.node, l.inbox, l'.node, l'.inbox, u, s, commanded);
      forall i | 0 <= i < |l'.inbox|
        ensures Queued(l', u, s, commanded, i)
      {
        QueuedStays(l, l', u, s, commanded, i, i);
      }
    } else {
      SameUnderway(l, C.Step(l, Internal(a)), u, s, commanded);
    }
  }

  lemma SameUnderway(l: Loop, l': Loop, u: Universe, s: SubnetId, commanded: seq<CertificateId>)
    requires Underway(l, u, s, commanded) && l'.inbox == l.inbox && l'.node == l.node
    ensures Underway(l', u, s, commanded)
  {
    hide Seen, Covered, Queued, Broadcasts;
    forall i | 0 <= i < |l'.inbox| ensures Queued(l', u, s, commanded, i) { QueuedStays(l, l', u, s, commanded, i, i); }
  }

  lemma MoreCommands(l: Loop, u: Universe, s: SubnetId, commanded: seq<CertificateId>, more: seq<CertificateId>)
    requires Underway(l, u, s, commanded)
    ensures Underway(l, u, s, commanded + more)
  {
    hide Seen, Broadcasts, Known;
    forall i | 0 <= i < |l.inbox|
      ensures Queued(l, u, s, commanded + more, i)
    {
      assert Queued(l, u, s, commanded, i);
      if l.inbox[i].OnBroadcast? && l.inbox[i].certificate.source == s {
        var j: nat :| StandsFor(l, u, s, commanded, i, j);
        assert (commanded + more)[..j] == commanded[..j] && (commanded + more)[j] == commanded[j];
        assert StandsFor(l, u, s, commanded + more, i, j);
      }
    }
  }

  /** A forwarded command goes to the end of the channel. */
  lemma ForwardUnderway(l: Loop, l': Loop, u: Universe, s: SubnetId, commanded: seq<CertificateId>, a: Action)
    requires Underway(l, u, s, commanded) && l'.node == l.node && l'.inbox == l.inbox + [a]
    requires !a.Submit? && (a.OnBroadcast? ==> Known(u, a.certificate))
    ensures var more := if a.OnBroadcast? && a.certificate.source == s then [a.certificate.id] else [];
            Underway(l', u, s, commanded + more)
  {
    var more := if a.OnBroadcast? && a.certificate.source == s then [a.certificate.id] else [];
    var all := commanded + more;
    MoreCommands(l, u, s, commanded, more);
    forall id | Of(u, id, s) && Broadcasts(l'.inbox, id)
      ensures Broadcasts(l.inbox, id) || id in more
    {
      var i :| 0 <= i < |l'.inbox| && l'.inbox[i].OnBroadcast? && l'.inbox[i].certificate.id == id;
      if i < |l.inbox| { assert l.inbox[i] == l'.inbox[i]; }
    }
    hide Seen, Broadcasts, Queued;
    assert Covered(l'.node, l'.inbox, u, s, all);
    forall i | 0 <= i < |l'.inbox|
      ensures Queued(l', u, s, all, i)
    {
      if i < |l.inbox| {
        assert l'.inbox[..i] == l.inbox[..i];
        QueuedStays(l, l', u, s, all, i, i);
      } else {
        assert l'.inbox[..i] == l.inbox;
        LastQueued(l', u, s, commanded, a);
      }
    }
  }

  lemma LastQueued(l: Loop, u: Universe, s: SubnetId, commanded: seq<CertificateId>, a: Action)
    requires l.inbox != [] && l.inbox[|l.inbox| - 1] == a && !a.Submit? && (a.OnBroadcast? ==> Known(u, a.certificate))
    requires Covered(l.node, l.inbox[..|l.inbox| - 1], u, s, commanded)
    ensures var more := if a.OnBroadcast? && a.certificate.source == s then [a.certificate.id] else [];
            Queued(l, u, s, commanded + more, |l.inbox| - 1)
  {
    hide Covered, Known;
    if a.OnBroadcast? && a.certificate.source == s {
      var all := commanded + [a.certificate.id];
      assert all[..|commanded|] == commanded;
      assert StandsFor(l, u, s, all, |l.inbox| - 1, |commanded|);
    }
  }

  lemma CommandUnderway(l: Loop, u: Universe, s: SubnetId, commanded: seq<CertificateId>, command: Command)
    requires Underway(l, u, s, commanded) && KnownEvent(u, OnCommand(command))
    ensures Underway(C.Step(l, OnCommand(command)), u, s, commanded + NewCommand(OnCommand(command), s))
  {
    hide Underway, Known;
    var l' := C.Step(l, OnCommand(command));
    var forwarded := if l.open then Forwarded(l.node.validators, l.delivered, command) else [];
    if forwarded == [] {
      assert l.inbox + [] == l.inbox;
      MoreCommands(l, u, s, commanded, NewCommand(OnCommand(command), s));
      SameUnderway(l, l', u, s, commanded + NewCommand(OnCommand(command), s));
    } else {
      ForwardUnderway(l, l', u, s, commanded, forwarded[0]);
    }
  }

  lemma StepUnderway(l: Loop, u: Universe, s: SubnetId, commanded: seq<CertificateId>, e: Event)
    requires Underway(l, u, s, commanded) && TasksSound(l.node) && KnownEvent(u, e)
    ensures Underway(C.Step(l, e), u, s, commanded + NewCommand(e, s))
  {
    hide Underway, TasksSound;
    match e
    case OnCommand(command) => CommandUnderway(l, u, s, commanded, command);
    case HandleMessage =>
      assert commanded + [] == commanded;
      if l.inbox != [] {
        HandledUnderway(l, u, s, commanded);
        hide C.Step;
      }
    case Internal(a) =>
      assert commanded + [] == commanded;
      InternalUnderway(l, u, s, commanded, a);
      hide C.Step;
    case OnCompletion =>
      assert commanded + [] == commanded;
      SameUnderway(l, C.Step(l, e), u, s, commanded);
  }

  // ----- Which command sequences are harmless -----

  /** The chain of a delivered certificate is delivered. */
  lemma {:induction false} PathDelivered(log: seq<CertificateDelivered>, u: Universe, id: CertificateId, k: nat)
    requires KnownLog(log, u) && CausallyOrdered(log) && AtDepth(u, id, k) && u[id].id == id && id in LogIds(log)
    requires forall x :: x in u ==> u[x].id == x
    ensures forall x :: x in PathTo(u, id, k) ==> x in LogIds(log)
    decreases k
  {
    if k > 0 {
      PredecessorDelivered(log, u, u[id]);
      PathDelivered(log, u, u[id].prevId, k - 1);
    }
  }

  lemma {:induction false} DeliveredDepth(n: Node, log: seq<CertificateDelivered>, u: Universe, s: SubnetId,
                                          id: CertificateId)
    returns (k: nat)
    requires FullInv(n, log, u, s) && Of(u, id, s) && V.IsDelivered(n.store, id)
    ensures AtDepth(u, id, k) && forall x :: x in PathTo(u, id, k) ==> V.IsDelivered(n.store, x)
  {
    assert n.store.tables.certificates.Keys == LogIds(log);
    var d :| d in log && d.certificate.id == id;
    assert Known(u, d.certificate);
    k := InStream(log, d, Source(s));
    assert AtDepth(u, id, k);
    hide Members, Represents, NeverAhead, TasksSound, Coherent, ExpectsDepth;
    PathDelivered(log, u, id, k);
  }

  /** A message that comes too late stands for a repeated command. */
  lemma {:induction false} UntimelyRepeats(l: Loop, log: seq<CertificateDelivered>, u: Universe, s: SubnetId,
                                           commanded: seq<CertificateId>, e: Event)
    returns (j: nat)
    requires Underway(l, u, s, commanded) && FullInv(l.node, log, u, s) && Tracked(l, u, s) && KnownEvent(u, e)
    requires Performed(l, e) != [] && !Timely(l, u, s, Performed(l, e)[0])
    ensures Repeats(u, commanded, j)
  {
    var a := Performed(l, e)[0];
    assert e.HandleMessage? && a == l.inbox[0] by { assert e.HandleMessage? ==> Queued(l, u, s, commanded, 0); }
    assert Queued(l, u, s, commanded, 0);
    j :| StandsFor(l, u, s, commanded, 0, j);
    hide FullInv, AtDepth, PathTo;
    var k := DeliveredDepth(l.node, log, u, s, a.certificate.id);
    forall x | x in PathTo(u, a.certificate.id, k)
      ensures x in commanded[..j]
    {
      PathAtHome(u, s, a.certificate.id, k, x);
      assert x in Seen(l.node);
    }
  }

  lemma {:induction false} OnlyTimely(validators: set<ValidatorId>, params: Params, u: Universe, s: SubnetId,
                                      events: seq<Event>)
    requires ForkFree(u, s) && |u| <= MAX_U64 && KnownEvents(u, events) && NoRepeat(u, Commanded(events, s))
    ensures TimelyRun(validators, params, u, s, events)
    ensures Underway(C.Exec(validators, params, events), u, s, Commanded(events, s))
  {
    if events != [] {
      var before, e := events[..|events| - 1], events[|events| - 1];
      NoRepeatBefore(u, Commanded(before, s), NewCommand(e, s));
      assert KnownEvent(u, e) && KnownEvents(u, before);
      OnlyTimely(validators, params, u, s, before);
      TimelyInvariant(validators, params, u, s, before);
      EveryLoopRun(validators, params, before);
      var l, log := C.Exec(validators, params, before), Log(validators, params, Trace(validators, params, before));
      hide ForkFree, KnownEvents, KnownEvent, NewCommand, C.Step, Performed, TimelyRun, Timely, Underway, FullInv;
      hide Tracked, Truthful, TasksSound, Repeats;
      StepUnderway(l, u, s, Commanded(before, s), e);
      TimelySnoc(validators, params, u, s, events);
      if Performed(l, e) != [] && !Timely(l, u, s, Performed(l, e)[0]) {
        var j := UntimelyRepeats(l, log, u, s, Commanded(before, s), e);
        assert false;
      }
    }
  }

  /** Whoever submits every certificate of a subnet at most once never hits the window. */
  lemma {:induction false} OnceIsTimely(validators: set<ValidatorId>, params: Params, u: Universe, s: SubnetId,
                                        events: seq<Event>)
    requires ForkFree(u, s) && |u| <= MAX_U64 && KnownEvents(u, events) && Distinct(Commanded(events, s))
    ensures TimelyRun(validators, params, u, s, events)
  {
    DistinctIsNoRepeat(u, Commanded(events, s));
    OnlyTimely(validators, params, u, s, events);
  }
}
