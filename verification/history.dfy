/**
 * What a task is made of: the broadcast that created it, the votes it has taken in the order it took
 * them, and the position it read when it started. Queues keep the order of arrival.
 */
module History {
  import opened Wrappers
  import opened Certificates
  import opened Quorum
  import opened DoubleEcho
  import opened TaskManager
  import opened NodeRuns
  import opened VoteRuns
  import V = ValidatorStore

  /** The broadcast that was accepted for a certificate. */
  datatype Origin = Origin(certificate: Certificate, needGossip: bool)

  /**
   * What has happened to a certificate since it last had no context: the votes that came before it
   * got one and those that came after, the votes its task took, and the position the task read.
   */
  datatype Record = Record(
    early: seq<Vote>,
    direct: seq<Vote>,
    taken: seq<Vote>,
    origin: Option<Origin>,
    position: Option<nat>)

  const NOTHING := Record([], [], [], None, None)

  ghost function Recorded(r: Record, n: Node, a: Action, id: CertificateId): Record {
    match a
    case OnVote(x, v) =>
      if x != id then r else if id in n.tasks then r.(direct := r.direct + [v]) else r.(early := r.early + [v])
    case OnBroadcast(c, gossip) =>
      if c.id != id || id in n.tasks then r else r.(origin := Some(Origin(c, gossip)))
    case Boot(x) =>
      if x != id || id !in n.running || r.origin.None? || r.position.Some? then r
      else r.(position := NextPosition(n, r.origin.value.certificate.source))
    case Poll(x) =>
      if x != id || !CanPoll(n, id) then r else r.(taken := r.taken + [n.tasks[id][0]])
    case Complete(x) =>
      if x != id || id !in n.finished || n.finished[id] != Success then r else NOTHING
    case _ => r
  }

  ghost function Past(validators: set<ValidatorId>, params: Params, actions: seq<Action>, id: CertificateId): Record {
    if actions == [] then NOTHING
    else
      var before := actions[..|actions| - 1];
      Recorded(Past(validators, params, before, id), Exec(validators, params, before), actions[|actions| - 1], id)
  }

  // ----- Queues -----

  /** `all` is `a` and `b` merged, each in its own order. */
  ghost predicate Merges<T(!new)>(all: seq<T>, a: seq<T>, b: seq<T>)
    decreases |all|
  {
    if all == [] then a == [] && b == []
    else
      var rest, last := all[..|all| - 1], all[|all| - 1];
      || (a != [] && a[|a| - 1] == last && Merges(rest, a[..|a| - 1], b))
      || (b != [] && b[|b| - 1] == last && Merges(rest, a, b[..|b| - 1]))
  }

  lemma {:induction false} MergeLeft<T(!new)>(all: seq<T>, a: seq<T>, b: seq<T>, x: T)
    requires Merges(all, a, b)
    ensures Merges(all + [x], a + [x], b)
  {
    assert (all + [x])[..|all|] == all && (a + [x])[..|a|] == a;
  }

  lemma {:induction false} MergeRight<T(!new)>(all: seq<T>, a: seq<T>, b: seq<T>, x: T)
    requires Merges(all, a, b)
    ensures Merges(all + [x], a, b + [x])
  {
    assert (all + [x])[..|all|] == all && (b + [x])[..|b|] == b;
  }

  lemma {:induction false} MergeNone<T(!new)>(a: seq<T>)
    ensures Merges(a, a, [])
  {
    if a != [] {
      MergeNone(a[..|a| - 1]);
    }
  }

  /**
   * The votes taken and those in the sink are the direct ones and a first part of the early ones, each
   * in order of arrival; the forwarder holds the rest of the early ones.
   */
  ghost predicate Ordered(taken: seq<Vote>, sink: seq<Vote>, forwarding: seq<Vote>, r: Record) {
    && |forwarding| <= |r.early|
    && var k := |r.early| - |forwarding|;
       forwarding == r.early[k..] && Merges(taken + sink, r.direct, r.early[..k])
  }

  // ----- Tasks -----

  /** The state that the broadcast, the votes taken and the position read lead to. */
  ghost function Rebuilt(n: Node, r: Record): State
    requires r.origin.Some?
  {
    var o := r.origin.value;
    ApplyAll(Start(o.certificate, n.validators, n.params, o.needGossip), r.taken).(expectedPosition := r.position)
  }

  ghost predicate Explained(n: Node, id: CertificateId, r: Record) {
    && id in n.tasks && r.origin.Some? && r.origin.value.certificate.id == id
  }

  ghost predicate RunningExplained(n: Node, id: CertificateId, r: Record) {
    id in n.running ==>
      && Explained(n, id, r) && n.running[id].state == Rebuilt(n, r)
      && Ordered(r.taken, n.tasks[id], n.running[id].forwarding, r)
  }

  ghost predicate WaitingExplained(n: Node, id: CertificateId, r: Record) {
    forall q :: q in n.precedence && n.precedence[q].Id() == id ==>
      && Explained(n, id, r) && n.precedence[q] == Task(Rebuilt(n, r), [])
      && r.taken == [] && r.position.None? && n.tasks[id] == r.direct && Buffer(n, id) == r.early
  }

  ghost predicate Remembers(n: Node, id: CertificateId, r: Record) {
    && (id !in n.tasks ==> r == NOTHING.(early := Buffer(n, id)))
    && RunningExplained(n, id, r) && WaitingExplained(n, id, r)
  }

  lemma {:induction false} ApplyElsewhere(s: State, vote: Vote, position: Option<nat>)
    ensures Apply(s.(expectedPosition := position), vote) ==
            Apply(s, vote).(state := Apply(s, vote).state.(expectedPosition := position))
  {
  }

  // ----- Every action -----

  lemma {:induction false} VoteOrdered(taken: seq<Vote>, sink: seq<Vote>, forwarding: seq<Vote>, r: Record, v: Vote)
    requires Ordered(taken, sink, forwarding, r)
    ensures Ordered(taken, sink + [v], forwarding, r.(direct := r.direct + [v]))
  {
    MergeLeft(taken + sink, r.direct, r.early[..|r.early| - |forwarding|], v);
    assert taken + (sink + [v]) == taken + sink + [v];
    hide Merges;
  }

  /** A rebuilt state depends on nothing but the configuration, the origin, the votes taken and the position. */
  lemma RebuiltSame(n: Node, n': Node, r: Record, r': Record)
    requires n'.validators == n.validators && n'.params == n.params
    requires r'.origin == r.origin && r'.taken == r.taken && r'.position == r.position
    ensures r.origin.Some? ==> Rebuilt(n', r') == Rebuilt(n, r)
  {
    hide ApplyAll;
  }

  /** Nothing that concerns the certificate has changed. */
  ghost predicate SameAt(n: Node, n': Node, id: CertificateId) {
    && n'.validators == n.validators && n'.params == n.params && n'.precedence == n.precedence
    && Buffer(n', id) == Buffer(n, id)
    && (id in n'.tasks <==> id in n.tasks) && (id in n.tasks ==> n'.tasks[id] == n.tasks[id])
    && (id in n'.running <==> id in n.running) && (id in n.running ==> n'.running[id] == n.running[id])
  }

  lemma Undisturbed(n: Node, n': Node, id: CertificateId, r: Record)
    requires Remembers(n, id, r) && SameAt(n, n', id)
    ensures Remembers(n', id, r)
  {
    RebuiltSame(n, n', r, r);
    hide Ordered, Rebuilt, Buffer;
  }

  lemma VoteRemembers(n: Node, x: CertificateId, v: Vote, id: CertificateId, r: Record)
    requires Slots(n) && Remembers(n, id, r)
    ensures Remembers(DoVote(n, x, v), id, Recorded(r, n, OnVote(x, v), id))
  {
    hide Remembers, Slots;
    if x != id {
      Undisturbed(n, DoVote(n, x, v), id, r);
    } else if id in n.tasks {
      DirectRemembers(n, v, id, r);
    } else {
      EarlyRemembers(n, v, id, r);
    }
  }

  lemma EarlyRemembers(n: Node, v: Vote, id: CertificateId, r: Record)
    requires Remembers(n, id, r) && id !in n.tasks
    ensures Remembers(DoVote(n, id, v), id, r.(early := r.early + [v]))
  {
    hide Ordered, Rebuilt;
  }

  lemma DirectRemembers(n: Node, v: Vote, id: CertificateId, r: Record)
    requires Slots(n) && Remembers(n, id, r) && id in n.tasks
    ensures Remembers(DoVote(n, id, v), id, r.(direct := r.direct + [v]))
  {
    RebuiltSame(n, DoVote(n, id, v), r, r.(direct := r.direct + [v]));
    hide Ordered, Rebuilt, Waiting;
    if id in n.running {
      VoteOrdered(r.taken, n.tasks[id], n.running[id].forwarding, r, v);
    }
  }

  lemma BroadcastRemembers(n: Node, c: Certificate, gossip: bool, id: CertificateId, r: Record)
    requires Slots(n) && Remembers(n, id, r)
    ensures Remembers(DoBroadcast(n, c, gossip), id, Recorded(r, n, OnBroadcast(c, gossip), id))
  {
    if c.id !in n.tasks {
      BroadcastShape(n, c, gossip);
      StepKeepsConfig(n, OnBroadcast(c, gossip));
      hide DoBroadcast, Remembers, Slots;
      if c.id == id {
        AcceptedRemembers(n, DoBroadcast(n, c, gossip), c, gossip, r);
      } else {
        OthersUnmoved(n, DoBroadcast(n, c, gossip), c, gossip, id, r);
      }
    }
  }

  /** What an accepted broadcast does to the collections. */
  ghost predicate AcceptedTo(n: Node, n': Node, c: Certificate, gossip: bool) {
    && n'.tasks == n.tasks[c.id := []] && n'.validators == n.validators && n'.params == n.params
    && (V.PrevDelivered(n.store, c) ==>
          && n'.running == n.running[c.id := NewTask(n, c, gossip).(forwarding := Buffer(n, c.id))]
          && n'.precedence == n.precedence && n'.buffered == n.buffered - {c.id})
    && (!V.PrevDelivered(n.store, c) ==>
          && n'.running == n.running && n'.buffered == n.buffered
          && n'.precedence == n.precedence[c.prevId := NewTask(n, c, gossip)])
  }

  lemma {:induction false} FreshRebuilt(n: Node, n': Node, c: Certificate, gossip: bool, r: Record)
    requires r.taken == [] && r.position.None? && r.origin == Some(Origin(c, gossip))
    requires n'.validators == n.validators && n'.params == n.params
    ensures NewTask(n, c, gossip) == Task(Rebuilt(n', r), [])
  {
  }

  lemma {:induction false} AcceptedRemembers(n: Node, n': Node, c: Certificate, gossip: bool, r: Record)
    requires Slots(n) && Remembers(n, c.id, r) && c.id !in n.tasks && AcceptedTo(n, n', c, gossip)
    ensures Remembers(n', c.id, r.(origin := Some(Origin(c, gossip))))
  {
    var r' := r.(origin := Some(Origin(c, gossip)));
    FreshRebuilt(n, n', c, gossip, r');
    assert !Waiting(n, c.id) && c.id !in n.running;
    assert Merges<Vote>([], [], []);
    assert r.early[0..] == r.early && r.early[..0] == [];
    hide Merges, Rebuilt;
  }

  lemma OthersUnmoved(n: Node, n': Node, c: Certificate, gossip: bool, id: CertificateId, r: Record)
    requires Remembers(n, id, r) && id != c.id && AcceptedTo(n, n', c, gossip)
    ensures Remembers(n', id, r)
  {
    hide Ordered, ApplyAll, V.PrevDelivered;
  }

  lemma {:induction false} ForwardOrdered(taken: seq<Vote>, sink: seq<Vote>, forwarding: seq<Vote>, r: Record)
    requires Ordered(taken, sink, forwarding, r) && forwarding != []
    ensures Ordered(taken, sink + [forwarding[0]], forwarding[1..], r)
  {
    var k := |r.early| - |forwarding|;
    MergeRight(taken + sink, r.direct, r.early[..k], forwarding[0]);
    assert r.early[..k + 1] == r.early[..k] + [forwarding[0]] && forwarding[1..] == r.early[k + 1..];
    assert taken + (sink + [forwarding[0]]) == taken + sink + [forwarding[0]];
    hide Merges;
  }

  lemma ForwardRemembers(n: Node, x: CertificateId, id: CertificateId, r: Record)
    requires Slots(n) && Remembers(n, id, r)
    ensures Remembers(DoForward(n, x), id, Recorded(r, n, Forward(x), id))
  {
    RebuiltSame(n, DoForward(n, x), r, r);
    if x == id && CanForward(n, id) {
      ForwardOrdered(r.taken, n.tasks[id], n.running[id].forwarding, r);
      assert !Waiting(n, id);
    }
    hide Ordered, Rebuilt;
  }

  lemma BootRemembers(n: Node, x: CertificateId, id: CertificateId, r: Record)
    requires Slots(n) && Remembers(n, id, r)
    ensures Remembers(DoBoot(n, x), id, Recorded(r, n, Boot(x), id))
  {
    hide Remembers, Slots, NextPosition;
    if x == id && id in n.running {
      BootedRemembers(n, id, r);
    } else {
      Undisturbed(n, DoBoot(n, x), id, r);
    }
  }

  lemma BootedRemembers(n: Node, id: CertificateId, r: Record)
    requires Slots(n) && Remembers(n, id, r) && id in n.running
    ensures Remembers(DoBoot(n, id), id, Recorded(r, n, Boot(id), id))
  {
    var r' := Recorded(r, n, Boot(id), id);
    BootedRebuilt(n, r, r'.position);
    RebuiltSame(n, DoBoot(n, id), r', r');
    assert !Waiting(n, id);
    hide Slots, Waiting, Ordered, Rebuilt, NextPosition;
  }

  lemma {:induction false} BootedRebuilt(n: Node, r: Record, position: Option<nat>)
    requires r.origin.Some?
    ensures Rebuilt(n, r.(position := position)) == Rebuilt(n, r).(expectedPosition := position)
    ensures Rebuilt(n, r).certificate == r.origin.value.certificate && Rebuilt(n, r).expectedPosition == r.position
  {
    RebuiltFrame(n, r);
    hide ApplyAll;
  }

  /** The certificate and the position of a rebuilt state. */
  lemma {:induction false} RebuiltFrame(n: Node, r: Record)
    requires r.origin.Some?
    ensures Rebuilt(n, r).certificate == r.origin.value.certificate && Rebuilt(n, r).expectedPosition == r.position
  {
    CertificateKept(Start(r.origin.value.certificate, n.validators, n.params, r.origin.value.needGossip), r.taken);
  }

  lemma {:induction false} CertificateKept(s: State, votes: seq<Vote>)
    ensures ApplyAll(s, votes).certificate == s.certificate
  {
    if votes != [] {
      CertificateKept(s, votes[..|votes| - 1]);
      ApplyFrame(ApplyAll(s, votes[..|votes| - 1]), votes[|votes| - 1]);
      hide Apply;
    }
  }

  lemma PollRemembers(n: Node, x: CertificateId, id: CertificateId, r: Record)
    requires Slots(n) && Remembers(n, id, r)
    ensures Remembers(DoPoll(n, x), id, Recorded(r, n, Poll(x), id))
  {
    if CanPoll(n, x) {
      PollChanges(n, x);
      if x == id {
        PolledRemembers(n, id, r);
        assert !Waiting(n, id);
      }
    }
    hide DoPoll, Ordered, ApplyAll, Apply;
  }

  lemma PollChanges(n: Node, id: CertificateId)
    requires CanPoll(n, id)
    ensures var n' := DoPoll(n, id);
            && n'.tasks == n.tasks[id := n.tasks[id][1..]]
            && n'.running == n.running[id := n.running[id].(state := Polled(n, id).state)]
            && n'.precedence == n.precedence && n'.buffered == n.buffered
            && n'.validators == n.validators && n'.params == n.params
  {
    hide V.Deliver, Delivering;
  }

  /** The task takes the head of its sink. */
  lemma {:induction false} PolledRemembers(n: Node, id: CertificateId, r: Record)
    requires CanPoll(n, id) && RunningExplained(n, id, r)
    ensures var r', sink := r.(taken := r.taken + [n.tasks[id][0]]), n.tasks[id];
            && Polled(n, id).state == Rebuilt(n, r')
            && Ordered(r'.taken, sink[1..], n.running[id].forwarding, r')
  {
    var o, vote, sink := r.origin.value, n.tasks[id][0], n.tasks[id];
    var start := Start(o.certificate, n.validators, n.params, o.needGossip);
    ApplyLast(start, r.taken, vote);
    ApplyElsewhere(ApplyAll(start, r.taken), vote, r.position);
    assert r.taken + [vote] + sink[1..] == r.taken + sink;
    hide Merges, ApplyAll, Apply;
  }

  lemma CompleteRemembers(n: Node, x: CertificateId, id: CertificateId, r: Record)
    requires Slots(n) && FinishedSound(n) && WaitingSound(n) && Remembers(n, id, r)
    ensures Remembers(DoComplete(n, x), id, Recorded(r, n, Complete(x), id))
  {
    if x in n.finished {
      StepKeepsConfig(n, Complete(x));
      RebuiltSame(n, DoComplete(n, x), r, r);
      hide Ordered, Rebuilt;
      if n.finished[x] == Success {
        CompleteShape(n, x);
        hide DoComplete, Remembers, Slots, FinishedSound, WaitingSound;
        if x == id {
          RetiredForgotten(n, DoComplete(n, x), id);
        } else if x in n.precedence && n.precedence[x].Id() == id {
          ReleasedRemembers(n, DoComplete(n, x), x, id, r);
        } else {
          OthersRemember(n, DoComplete(n, x), x, id, r);
        }
      }
    }
  }

  /** What a successful completion leaves. */
  ghost predicate CompletedTo(n: Node, n': Node, x: CertificateId) {
    && n'.tasks == n.tasks - {x} && n'.precedence == n.precedence - {x}
    && n'.validators == n.validators && n'.params == n.params
    && (!Releases(n, x) ==> n'.running == n.running - {x} && n'.buffered == n.buffered)
    && (Releases(n, x) ==>
          var task := n.precedence[x];
          && n'.running == (n.running - {x})[task.Id() := task.(forwarding := Buffer(n, task.Id()))]
          && n'.buffered == n.buffered - {task.Id()})
  }

  lemma RetiredForgotten(n: Node, n': Node, id: CertificateId)
    requires Slots(n) && id in n.running && CompletedTo(n, n', id)
    ensures Remembers(n', id, NOTHING)
  {
    if Releases(n, id) {
      assert Waiting(n, n.precedence[id].Id());
    }
    forall q | q in n'.precedence
      ensures n'.precedence[q].Id() != id
    {
      assert Waiting(n, n.precedence[q].Id());
    }
  }

  lemma {:induction false} ReleasedRemembers(n: Node, n': Node, x: CertificateId, id: CertificateId, r: Record)
    requires Slots(n) && Remembers(n, id, r) && x in n.running && x in n.precedence && n.precedence[x].Id() == id != x
    requires CompletedTo(n, n', x)
    ensures Remembers(n', id, r)
  {
    assert Waiting(n, id);
    assert Releases(n, x);
    MergeNone(r.direct);
    assert [] + r.direct == r.direct && r.early[0..] == r.early && r.early[..0] == [];
    hide Merges, ApplyAll;
  }

  lemma OthersRemember(n: Node, n': Node, x: CertificateId, id: CertificateId, r: Record)
    requires Slots(n) && Remembers(n, id, r) && CompletedTo(n, n', x)
    requires x != id && !(x in n.precedence && n.precedence[x].Id() == id)
    ensures Remembers(n', id, r)
  {
    hide Ordered, ApplyAll;
  }

  lemma StepRemembers(n: Node, a: Action, id: CertificateId, r: Record)
    requires TasksSound(n) && Slots(n) && Remembers(n, id, r)
    ensures Remembers(Step(n, a), id, Recorded(r, n, a, id))
  {
    hide Remembers, Slots, Recorded, DoVote, DoBroadcast, DoForward, DoBoot, DoPoll, DoComplete;
    hide RunningSound, WaitingSound, FinishedSound;
    match a
    case OnVote(x, v) => VoteRemembers(n, x, v, id, r);
    case OnBroadcast(c, gossip) => BroadcastRemembers(n, c, gossip, id, r);
    case Forward(x) => ForwardRemembers(n, x, id, r);
    case Boot(x) => BootRemembers(n, x, id, r);
    case Poll(x) => PollRemembers(n, x, id, r);
    case Complete(x) => CompleteRemembers(n, x, id, r);
    case Submit(c) => SubmitRemembers(n, c, id, r);
  }

  lemma SubmitRemembers(n: Node, c: Certificate, id: CertificateId, r: Record)
    requires Remembers(n, id, r)
    ensures Remembers(Step(n, Submit(c)), id, Recorded(r, n, Submit(c), id))
  {
    hide Ordered, ApplyAll, V.InsertPending;
  }

  /**
   * In every run, whatever is broadcast: a task is in the state that the broadcast it was made by leads
   * to with the votes it took, in the order it took them, and expects the position it read at its start.
   * These votes and those in its sink are the ones that came after it had a context, in order, merged
   * with a first part of the ones that came before, in order.
   */
  lemma {:induction false} EveryTaskRemembers(validators: set<ValidatorId>, params: Params, actions: seq<Action>,
                                              id: CertificateId)
    ensures Remembers(Exec(validators, params, actions), id, Past(validators, params, actions, id))
  {
    if actions != [] {
      var before, last := actions[..|actions| - 1], actions[|actions| - 1];
      EveryTaskRemembers(validators, params, before, id);
      EveryVoteRun(validators, params, before);
      hide Step, Remembers, Recorded, Slots, Done, TasksSound;
      StepRemembers(Exec(validators, params, before), last, id, Past(validators, params, before, id));
    }
  }

  // ----- What a task has emitted -----

  /** The broadcast a task goes back to was handed to the task manager. */
  lemma {:induction false} OriginWasHanded(validators: set<ValidatorId>, params: Params, actions: seq<Action>,
                                           id: CertificateId)
    requires Past(validators, params, actions, id).origin.Some?
    ensures var o := Past(validators, params, actions, id).origin.value;
            o.certificate.id == id && OnBroadcast(o.certificate, o.needGossip) in actions
  {
    var before, last := actions[..|actions| - 1], actions[|actions| - 1];
    var r := Past(validators, params, before, id);
    assert actions == before + [last];
    if Past(validators, params, actions, id).origin == r.origin {
      OriginWasHanded(validators, params, before, id);
    }
    hide Exec, CanPoll, NextPosition;
  }

  /** The events of a task that was broadcast with or without gossip, before and after its Ready. */
  ghost predicate Emitted(s: State, gossip: bool) {
    s.events == [BroadcastStarted] + (if gossip then [Gossip] else []) + [EchoEvent]
                + (if s.status.IsReadySent() then [ReadyEvent] else [])
  }

  lemma {:induction false} RebuiltEmitted(n: Node, r: Record)
    requires r.origin.Some?
    ensures Emitted(Rebuilt(n, r), r.origin.value.needGossip)
  {
    var o := r.origin.value;
    EventsOf(o.certificate, n.validators, n.params, o.needGossip, r.taken);
    hide ApplyAll;
  }

  /**
   * In every run: every task, running or waiting, has emitted the announcement, the gossip exactly if
   * the broadcast it was made by asked for it, one Echo, and one Ready exactly if its status says so.
   */
  lemma {:induction false} GossipsAsAsked(validators: set<ValidatorId>, params: Params, actions: seq<Action>,
                                          id: CertificateId)
    returns (c: Certificate, gossip: bool)
    requires var n := Exec(validators, params, actions); id in n.running || Waiting(n, id)
    ensures c.id == id && OnBroadcast(c, gossip) in actions
    ensures Past(validators, params, actions, id).origin == Some(Origin(c, gossip))
    ensures var n := Exec(validators, params, actions);
            && (id in n.running ==> n.running[id].state.certificate == c && Emitted(n.running[id].state, gossip))
            && forall q :: q in n.precedence && n.precedence[q].Id() == id ==>
                 n.precedence[q].state.certificate == c && Emitted(n.precedence[q].state, gossip)
  {
    var n, r := Exec(validators, params, actions), Past(validators, params, actions, id);
    EveryTaskRemembers(validators, params, actions, id);
    hide Exec, Past, Rebuilt, Ordered, Emitted;
    assert r.origin.Some?;
    OriginWasHanded(validators, params, actions, id);
    RebuiltEmitted(n, r);
    RebuiltFrame(n, r);
    c, gossip := r.origin.value.certificate, r.origin.value.needGossip;
  }

  /** The accepted broadcast is remembered until the certificate is delivered and its task completed. */
  lemma {:induction false} OriginStays(validators: set<ValidatorId>, params: Params, actions: seq<Action>, a: Action,
                                       id: CertificateId)
    requires id in Exec(validators, params, actions).tasks
    ensures var before, after := Past(validators, params, actions, id), Past(validators, params, actions + [a], id);
            after.origin == before.origin || (a == Complete(id) && id !in Exec(validators, params, actions + [a]).tasks)
  {
    assert (actions + [a])[..|actions|] == actions;
    hide Past, CanPoll, NextPosition, Exec;
    var n := Exec(validators, params, actions);
    if a == Complete(id) && id in n.finished && n.finished[id] == Success {
      ExecSnoc(validators, params, actions, a);
      CompleteShape(n, id);
      hide DoComplete;
    }
  }
}
