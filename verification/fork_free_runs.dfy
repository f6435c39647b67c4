/**
 * Runs of a validator as one subnet sees them. The subnet does not fork and its certificates are
 * not broadcast again after delivery; other subnets may fork and repeat themselves. A delivered
 * certificate of the subnet gets the position that is its depth in the chain.
 */
module ForkFreeRuns {
  import opened Certificates
  import opened Quorum
  import opened FullNodeStore
  import opened TaskManager
  import opened NodeRuns
  import opened Chains
  import V = ValidatorStore

  /** The environment's side: known certificates, and none of the subnet a second time after delivery. */
  ghost predicate Admissible(n: Node, u: Universe, s: SubnetId, a: Action) {
    match a
    case OnBroadcast(c, _) => Known(u, c) && (c.source == s ==> c.id in n.tasks || !V.IsDelivered(n.store, c.id))
    case Submit(c) => Known(u, c)
    case _ => true
  }

  ghost predicate AdmissibleRun(validators: set<ValidatorId>, params: Params, u: Universe, s: SubnetId,
                                actions: seq<Action>) {
    actions != [] ==>
      var before := actions[..|actions| - 1];
      && AdmissibleRun(validators, params, u, s, before)
      && Admissible(Exec(validators, params, before), u, s, actions[|actions| - 1])
  }

  // ----- Positions are depths -----

  ghost predicate KnownLog(log: seq<CertificateDelivered>, u: Universe) {
    forall i :: 0 <= i < |log| ==> Known(u, log[i].certificate)
  }

  /** Position `i` of the source stream holds the subnet's certificate of depth `i`. */
  ghost predicate PositionsAreDepths(log: seq<CertificateDelivered>, u: Universe, s: SubnetId) {
    forall i :: 0 <= i < Length(log, Source(s)) ==> AtDepth(u, Members(log, Source(s))[i].certificate.id, i)
  }

  lemma {:induction false} InStream(log: seq<CertificateDelivered>, d: CertificateDelivered, k: Stream) returns (i: nat)
    requires d in log && Belongs(d.certificate, k)
    ensures i < Length(log, k) && Members(log, k)[i] == d
  {
    var before := log[..|log| - 1];
    if d == log[|log| - 1] {
      i := Length(before, k);
    } else {
      assert d in before;
      i := InStream(before, d, k);
    }
  }

  lemma {:induction false} StreamKnown(log: seq<CertificateDelivered>, u: Universe, s: SubnetId, i: nat)
    requires KnownLog(log, u) && i < Length(log, Source(s))
    ensures var c := Members(log, Source(s))[i].certificate;
            Known(u, c) && c.source == s && c.id in LogIds(log)
  {
    MembersInLog(log, Source(s), i);
  }

  /** A certificate that may be delivered next has the next position as its depth. */
  lemma {:induction false} NextDepth(log: seq<CertificateDelivered>, u: Universe, c: Certificate)
    requires ForkFree(u, c.source) && KnownLog(log, u) && PositionsAreDepths(log, u, c.source) && Known(u, c)
    requires c.prevId == INITIAL_CERTIFICATE_ID || c.prevId in LogIds(log)
    requires c.id !in LogIds(log)
    ensures AtDepth(u, c.id, Length(log, Source(c.source)))
  {
    var k := Source(c.source);
    var depth: nat := 0;
    if c.prevId != INITIAL_CERTIFICATE_ID {
      var d :| d in log && d.certificate.id == c.prevId;
      assert Known(u, d.certificate);
      var i := InStream(log, d, k);
      SuccessorDepth(u, c.id, i);
      depth := i + 1;
    }
    assert AtDepth(u, c.id, depth);
    if depth < Length(log, k) {
      StreamKnown(log, u, c.source, depth);
      LevelUnique(u, c.source, c.id, Members(log, k)[depth].certificate.id, depth);
    }
  }

  lemma {:induction false} AppendDepth(log: seq<CertificateDelivered>, u: Universe, s: SubnetId,
                                       d: CertificateDelivered)
    requires KnownLog(log, u) && PositionsAreDepths(log, u, s) && Known(u, d.certificate)
    requires d.certificate.source == s ==> AtDepth(u, d.certificate.id, Length(log, Source(s)))
    ensures KnownLog(log + [d], u) && PositionsAreDepths(log + [d], u, s)
  {
    forall i | 0 <= i < Length(log + [d], Source(s))
      ensures AtDepth(u, Members(log + [d], Source(s))[i].certificate.id, i)
    {
      Append(log, d, Source(s));
      hide Members, AtDepth;
    }
  }

  lemma {:induction false} MembersGrow(log: seq<CertificateDelivered>, i: nat, k: Stream)
    requires i <= |log|
    ensures Members(log[..i], k) <= Members(log, k)
  {
    if i == |log| {
      assert log[..i] == log;
    } else {
      MembersGrow(log[..|log| - 1], i, k);
      assert log[..|log| - 1][..i] == log[..i];
    }
  }

  /** Where a delivery stands in a stream it belongs to. */
  lemma {:induction false} PlaceInStream(log: seq<CertificateDelivered>, i: nat, k: Stream)
    requires i < |log| && Belongs(log[i].certificate, k)
    ensures Length(log[..i], k) + 1 == Length(log[..i + 1], k) <= Length(log, k)
    ensures Members(log, k)[Length(log[..i], k)] == log[i]
  {
    hide Members;
    assert log[..i + 1] == log[..i] + [log[i]];
    Append(log[..i], log[i], k);
    MembersGrow(log, i + 1, k);
  }

  lemma DepthsDiffer(log: seq<CertificateDelivered>, u: Universe, s: SubnetId, i: nat, j: nat)
    requires KnownLog(log, u) && PositionsAreDepths(log, u, s) && i < j < |log|
    requires log[i].certificate.source == s || log[j].certificate.source == s
    ensures log[i].certificate.id != log[j].certificate.id
  {
    hide AtDepth, Members;
    var a, b := log[i].certificate, log[j].certificate;
    if a.source == b.source {
      PlaceInStream(log, i, Source(a.source));
      PlaceInStream(log, j, Source(b.source));
      MembersGrow(log[..j], i + 1, Source(a.source));
      assert log[..j][..i + 1] == log[..i + 1];
      DifferentDepths(u, a.id, b.id, Length(log[..i], Source(a.source)), Length(log[..j], Source(a.source)));
    } else {
      assert Known(u, a) && Known(u, b);
    }
  }

  /** No certificate of the subnet was delivered twice. */
  ghost predicate NoneTwice(log: seq<CertificateDelivered>, s: SubnetId) {
    forall i, j :: 0 <= i < j < |log| && log[i].certificate.source == s ==>
      log[i].certificate.id != log[j].certificate.id
  }

  lemma LogDistinct(log: seq<CertificateDelivered>, u: Universe, s: SubnetId)
    requires KnownLog(log, u) && PositionsAreDepths(log, u, s)
    ensures NoneTwice(log, s)
  {
    hide KnownLog, PositionsAreDepths;
    forall i, j | 0 <= i < j < |log| && log[i].certificate.source == s
      ensures log[i].certificate.id != log[j].certificate.id
    {
      DepthsDiffer(log, u, s, i, j);
    }
  }

  /** Different depths are different certificates. */
  lemma {:induction false} DepthsFit(u: Universe, ids: seq<CertificateId>)
    requires forall i :: 0 <= i < |ids| ==> AtDepth(u, ids[i], i)
    ensures |ids| <= |set i | 0 <= i < |ids| :: ids[i]|
    ensures (set i | 0 <= i < |ids| :: ids[i]) <= u.Keys
  {
    if ids != [] {
      var before, last := ids[..|ids| - 1], ids[|ids| - 1];
      DepthsFit(u, before);
      var some, all := set i | 0 <= i < |before| :: before[i], set i | 0 <= i < |ids| :: ids[i];
      forall i | 0 <= i < |before|
        ensures before[i] != last
      {
        DifferentDepths(u, before[i], last, i, |before|);
      }
      assert all == some + {last};
    }
  }

  /** Certificates of the subnet are delivered once each, so positions suffice for all of them. */
  lemma {:induction false} LogFits(log: seq<CertificateDelivered>, u: Universe, s: SubnetId)
    requires PositionsAreDepths(log, u, s)
    ensures Length(log, Source(s)) <= |u|
  {
    var stream := Members(log, Source(s));
    var ids := seq(|stream|, i requires 0 <= i < |stream| => stream[i].certificate.id);
    DepthsFit(u, ids);
    SubsetSize(set i | 0 <= i < |ids| :: ids[i], u.Keys);
  }

  // ----- The task tables -----

  ghost predicate KnownTasks(n: Node, u: Universe) {
    && (forall id :: id in n.running ==> Known(u, n.running[id].state.certificate))
    && (forall q :: q in n.precedence ==> Known(u, n.precedence[q].state.certificate))
    && (forall q :: q in n.store.pools.precedence ==> Known(u, n.store.pools.precedence[q]))
  }

  /** A task context belongs to a running or a waiting task, never to both. */
  ghost predicate Partition(n: Node, u: Universe, s: SubnetId) {
    && (forall id :: Of(u, id, s) ==> (id in n.tasks <==> id in n.running || Waiting(n, id)))
    && (forall id :: Of(u, id, s) && id in n.running ==> !Waiting(n, id))
  }

  /** A certificate of the subnet waits for `q`. */
  ghost predicate Slot(n: Node, u: Universe, s: SubnetId, q: CertificateId) {
    q in n.precedence && Of(u, n.precedence[q].Id(), s)
  }

  /** Whoever waits for a delivered predecessor is about to be released by its completion. */
  ghost predicate AboutToStart(n: Node, u: Universe, s: SubnetId) {
    forall q :: Slot(n, u, s, q) && Of(u, q, s) && V.IsDelivered(n.store, q) ==> q in n.finished
  }

  ghost predicate NotDeliveredYet(n: Node, u: Universe, s: SubnetId) {
    && (forall id :: Of(u, id, s) && id in n.running && id !in n.finished ==> !V.IsDelivered(n.store, id))
    && (forall q :: Slot(n, u, s, q) ==> !V.IsDelivered(n.store, n.precedence[q].Id()))
  }

  ghost predicate NoFailure(n: Node, u: Universe, s: SubnetId) {
    forall id :: Of(u, id, s) && id in n.finished ==> n.finished[id] == Success
  }

  /** The subnet's tasks are in order. */
  ghost predicate Coherent(n: Node, u: Universe, s: SubnetId) {
    Partition(n, u, s) && AboutToStart(n, u, s) && NotDeliveredYet(n, u, s) && NoFailure(n, u, s)
  }

  /** A booted task expects its depth, however late it inserts. */
  ghost predicate ExpectsDepth(n: Node, u: Universe, s: SubnetId) {
    forall id :: Of(u, id, s) && id in n.running && id !in n.finished && n.running[id].state.expectedPosition.Some? ==>
      AtDepth(u, id, n.running[id].state.expectedPosition.value)
  }

  ghost predicate ChainInv(n: Node, log: seq<CertificateDelivered>, u: Universe, s: SubnetId) {
    && KnownLog(log, u) && PositionsAreDepths(log, u, s)
    && KnownTasks(n, u) && V.Filed(n.store.pools)
    && Coherent(n, u, s) && ExpectsDepth(n, u, s)
  }

  // ----- What other subnets do -----

  /** The two nodes agree on everything the coherence of the subnet depends on. */
  ghost predicate SameShape(n: Node, n': Node, u: Universe, s: SubnetId) {
    && (forall id :: Of(u, id, s) ==>
          && (id in n'.tasks <==> id in n.tasks) && (id in n'.running <==> id in n.running)
          && (V.IsDelivered(n'.store, id) <==> V.IsDelivered(n.store, id))
          && (id in n'.finished <==> id in n.finished) && (id in n.finished ==> n'.finished[id] == n.finished[id]))
    && SameSlots(n, n', u, s)
  }

  ghost predicate SameSlots(n: Node, n': Node, u: Universe, s: SubnetId) {
    forall q :: (Slot(n', u, s, q) <==> Slot(n, u, s, q))
                && (Slot(n, u, s, q) ==> n'.precedence[q].Id() == n.precedence[q].Id())
  }

  lemma SameWaiting(n: Node, n': Node, u: Universe, s: SubnetId, id: CertificateId)
    requires SameSlots(n, n', u, s) && Of(u, id, s)
    ensures Waiting(n', id) <==> Waiting(n, id)
  {
    if Waiting(n', id) {
      var q :| q in n'.precedence && n'.precedence[q].Id() == id;
      assert Slot(n', u, s, q);
    }
    if Waiting(n, id) {
      var q :| q in n.precedence && n.precedence[q].Id() == id;
      assert Slot(n, u, s, q);
    }
  }

  lemma SameShapeCoherent(n: Node, n': Node, u: Universe, s: SubnetId)
    requires Coherent(n, u, s) && SameShape(n, n', u, s)
    ensures Coherent(n', u, s)
  {
    forall id | Of(u, id, s) ensures Waiting(n', id) <==> Waiting(n, id) { SameWaiting(n, n', u, s, id); }
    hide Waiting;
  }

  /** Only certificates of the subnet wait for certificates of the subnet. */
  lemma WaitsAtHome(n: Node, u: Universe, s: SubnetId, q: CertificateId)
    requires ForkFree(u, s) && KnownTasks(n, u) && WaitingSound(n) && q in n.precedence && q != INITIAL_CERTIFICATE_ID
    ensures Slot(n, u, s, q) <==> Of(u, q, s)
  {
    assert Known(u, n.precedence[q].state.certificate) && n.precedence[q].state.certificate.prevId == q;
  }

  /** Changes for certificates of other subnets only. */
  lemma Elsewhere(n: Node, n': Node, u: Universe, s: SubnetId, others: set<CertificateId>)
    requires forall x :: x in others ==> !Of(u, x, s)
    requires n'.tasks.Keys - others == n.tasks.Keys - others && n'.running.Keys - others == n.running.Keys - others
    requires n'.finished - others == n.finished - others && SameSlots(n, n', u, s)
    requires n'.store.tables.certificates.Keys - others == n.store.tables.certificates.Keys - others
    ensures SameShape(n, n', u, s)
  {
    hide SameSlots;
    forall id | Of(u, id, s)
      ensures id in n'.tasks <==> id in n.tasks
      ensures id in n'.running <==> id in n.running
      ensures V.IsDelivered(n'.store, id) <==> V.IsDelivered(n.store, id)
      ensures id in n'.finished <==> id in n.finished
      ensures id in n.finished ==> n'.finished[id] == n.finished[id]
    {
      assert id in n'.tasks.Keys - others <==> id in n.tasks.Keys - others;
      assert id in n'.running.Keys - others <==> id in n.running.Keys - others;
      assert id in n'.finished - others <==> id in n.finished - others;
      var now, before := n'.store.tables.certificates.Keys, n.store.tables.certificates.Keys;
      assert id in now - others <==> id in before - others;
    }
  }

  lemma ForeignSlot(n: Node, n': Node, u: Universe, s: SubnetId, q: CertificateId)
    requires n'.precedence - {q} == n.precedence - {q} && !Slot(n, u, s, q) && !Slot(n', u, s, q)
    ensures SameSlots(n, n', u, s)
  {
    forall p | p != q
      ensures p in n'.precedence <==> p in n.precedence
      ensures p in n.precedence ==> n'.precedence[p] == n.precedence[p]
    {
      assert p in n'.precedence - {q} <==> p in n.precedence - {q};
    }
  }

  lemma ForeignBroadcast(n: Node, u: Universe, s: SubnetId, c: Certificate, gossip: bool)
    requires ForkFree(u, s) && KnownTasks(n, u) && WaitingSound(n) && Known(u, c) && c.source != s
    ensures SameShape(n, DoBroadcast(n, c, gossip), u, s)
  {
    if c.id !in n.tasks {
      BroadcastShape(n, c, gossip);
      if !V.PrevDelivered(n.store, c) && c.prevId in n.precedence {
        WaitsAtHome(n, u, s, c.prevId);
      }
      ForkFreeParent(u, s, c);
      hide DoBroadcast, ForkFree, KnownTasks, WaitingSound, Slot, SameSlots, SameShape;
      var n' := DoBroadcast(n, c, gossip);
      if !V.PrevDelivered(n.store, c) {
        NoSlot(n, n', u, s, c, gossip);
        ForeignSlot(n, n', u, s, c.prevId);
      } else {
        SlotsKept(n, n', u, s);
      }
      Elsewhere(n, n', u, s, {c.id});
    }
  }

  lemma ForkFreeParent(u: Universe, s: SubnetId, c: Certificate)
    requires ForkFree(u, s) && Known(u, c) && c.source != s
    ensures !Of(u, c.prevId, s)
  {
  }

  lemma NoSlot(n: Node, n': Node, u: Universe, s: SubnetId, c: Certificate, gossip: bool)
    requires Known(u, c) && c.source != s && (c.prevId in n.precedence ==> !Slot(n, u, s, c.prevId))
    requires n'.precedence == n.precedence[c.prevId := NewTask(n, c, gossip)]
    ensures n'.precedence - {c.prevId} == n.precedence - {c.prevId}
    ensures !Slot(n, u, s, c.prevId) && !Slot(n', u, s, c.prevId)
  {
  }

  lemma SlotsKept(n: Node, n': Node, u: Universe, s: SubnetId)
    requires n'.precedence == n.precedence
    ensures SameSlots(n, n', u, s)
  {
  }

  lemma QuietKeys(n: Node, a: Action)
    requires a.OnVote? || a.Forward? || a.Boot? || a.Submit? || (a.Poll? && !Persists(n, a.id))
    ensures var n' := Step(n, a);
            && n'.tasks.Keys == n.tasks.Keys && n'.running.Keys == n.running.Keys
            && n'.precedence == n.precedence && n'.finished == n.finished
            && n'.store.tables.certificates.Keys == n.store.tables.certificates.Keys
  {
    hide NextPosition, Polled;
    if a.OnVote? { assert n.tasks.Keys + {a.id} == n.tasks.Keys || a.id !in n.tasks; }
  }

  lemma QuietSteps(n: Node, u: Universe, s: SubnetId, a: Action)
    requires a.OnVote? || a.Forward? || a.Boot? || a.Submit? || (a.Poll? && !Persists(n, a.id))
    ensures SameShape(n, Step(n, a), u, s)
  {
    QuietKeys(n, a);
    hide Step, SameSlots, SameShape, Persists;
    SlotsKept(n, Step(n, a), u, s);
    Elsewhere(n, Step(n, a), u, s, {});
  }

  lemma ForeignPersist(n: Node, u: Universe, s: SubnetId, id: CertificateId)
    requires TasksSound(n) && Persists(n, id) && !Of(u, id, s)
    ensures SameShape(n, DoPoll(n, id), u, s)
  {
    hide DoPoll, Written, Step, LogIds, SameSlots, SameShape, V.Deliver, Delivering, TasksSound, Polled;
    PersistShape(n, id);
    PollStep(n, id);
    StepDelivered(n, Poll(id));
    WrittenIds(n, id);
    SlotsKept(n, DoPoll(n, id), u, s);
    Elsewhere(n, DoPoll(n, id), u, s, {id});
  }

  lemma WrittenIds(n: Node, id: CertificateId)
    requires TasksSound(n)
    ensures LogIds(Written(n, Poll(id))) <= {id}
  {
    if Written(n, Poll(id)) != [] {
      WrittenProven(n, Poll(id));
      assert n.running[id].Id() == id;
    }
  }

  lemma ForeignComplete(n: Node, u: Universe, s: SubnetId, id: CertificateId)
    requires ForkFree(u, s) && KnownTasks(n, u) && TasksSound(n) && !Of(u, id, s)
    ensures SameShape(n, DoComplete(n, id), u, s)
  {
    hide DoComplete, ForkFree, KnownTasks, RunningSound, WaitingSound, SameSlots, SameShape, Slot;
    var n' := DoComplete(n, id);
    if id !in n.finished {
      NothingToComplete(n, id);
      Unchanged(n, u, s);
    } else if n.finished[id] == Failure {
      FailedShape(n, id);
      SlotsKept(n, n', u, s);
      Elsewhere(n, n', u, s, {id});
    } else {
      CompleteKeys(n, id);
      NoSlotHere(n, u, s, id);
      SlotGone(n, n', u, s, id);
      ForeignSlot(n, n', u, s, id);
      Elsewhere(n, n', u, s, {id} + (if Releases(n, id) then {n.precedence[id].Id()} else {}));
    }
  }

  lemma Unchanged(n: Node, u: Universe, s: SubnetId)
    ensures SameShape(n, n, u, s)
  {
  }

  lemma NothingToComplete(n: Node, id: CertificateId)
    requires id !in n.finished
    ensures DoComplete(n, id) == n
  {
  }

  lemma FailedShape(n: Node, id: CertificateId)
    requires id in n.finished && n.finished[id] == Failure
    ensures DoComplete(n, id) == n.(running := n.running - {id}, finished := n.finished - {id})
  {
  }

  lemma SlotGone(n: Node, n': Node, u: Universe, s: SubnetId, id: CertificateId)
    requires n'.precedence == n.precedence - {id}
    ensures !Slot(n', u, s, id) && n'.precedence - {id} == n.precedence - {id}
  {
  }

  /** Nobody of the subnet waits for a running certificate of another subnet. */
  lemma NoSlotHere(n: Node, u: Universe, s: SubnetId, id: CertificateId)
    requires ForkFree(u, s) && KnownTasks(n, u) && TasksSound(n) && !Of(u, id, s) && id in n.running
    ensures !Slot(n, u, s, id)
    ensures Releases(n, id) ==> !Of(u, n.precedence[id].Id(), s)
  {
    assert Known(u, n.running[id].state.certificate) && n.running[id].Id() == id;
    KnownIsNamed(u, s, id);
    if id in n.precedence {
      WaitsAtHome(n, u, s, id);
    }
  }

  // ----- The subnet's own tasks -----

  /** Two certificates waiting for the same predecessor are the same certificate. */
  lemma OneWaiter(n: Node, u: Universe, q: CertificateId, c: Certificate)
    requires ForkFree(u, c.source) && KnownTasks(n, u) && WaitingSound(n)
    requires q in n.precedence && Known(u, c) && c.prevId == q && q != INITIAL_CERTIFICATE_ID
    ensures n.precedence[q].state.certificate == c
  {
    WaitsAtHome(n, u, c.source, q);
  }

  lemma NobodyWaitsYet(n: Node, u: Universe, c: Certificate)
    requires ForkFree(u, c.source) && KnownTasks(n, u) && WaitingSound(n) && Partition(n, u, c.source)
    requires Known(u, c) && c.prevId != INITIAL_CERTIFICATE_ID && c.id !in n.tasks
    ensures c.prevId !in n.precedence
  {
    if c.prevId in n.precedence {
      OneWaiter(n, u, c.prevId, c);
      assert Waiting(n, c.id);
    }
  }

  lemma BroadcastCoherent(n: Node, u: Universe, c: Certificate, gossip: bool)
    requires ForkFree(u, c.source) && KnownTasks(n, u) && TasksSound(n) && Coherent(n, u, c.source)
    requires Admissible(n, u, c.source, OnBroadcast(c, gossip))
    ensures Coherent(DoBroadcast(n, c, gossip), u, c.source)
  {
    hide DoBroadcast, KnownTasks, ForkFree, Partition, WaitingSound;
    var n' := DoBroadcast(n, c, gossip);
    if c.id in n.tasks {
      Rebroadcast(n, c, gossip);
    } else {
      BroadcastShape(n, c, gossip);
      if V.PrevDelivered(n.store, c) {
        StartedCoherent(n, n', u, c.source, c.id);
      } else {
        NobodyWaitsYet(n, u, c);
        QueuedCoherent(n, n', u, c.source, c.prevId, c.id);
      }
    }
  }

  /** A certificate that has a task is not started twice. */
  lemma Rebroadcast(n: Node, c: Certificate, gossip: bool)
    requires c.id in n.tasks
    ensures DoBroadcast(n, c, gossip) == n
  {
  }

  lemma StartedCoherent(n: Node, n': Node, u: Universe, s: SubnetId, id: CertificateId)
    requires Coherent(n, u, s) && id !in n.tasks && !V.IsDelivered(n.store, id)
    requires n'.tasks.Keys == n.tasks.Keys + {id} && n'.running.Keys == n.running.Keys + {id}
    requires n'.precedence == n.precedence && n'.finished == n.finished && n'.store == n.store
    ensures Coherent(n', u, s)
  {
    assert forall x :: Waiting(n', x) <==> Waiting(n, x);
  }

  lemma QueuedCoherent(n: Node, n': Node, u: Universe, s: SubnetId, q: CertificateId, id: CertificateId)
    requires Coherent(n, u, s) && id !in n.tasks && !V.IsDelivered(n.store, id)
    requires q !in n.precedence && q in n'.precedence && n'.precedence[q].Id() == id && !V.IsDelivered(n.store, q)
    requires n'.precedence == n.precedence[q := n'.precedence[q]]
    requires n'.tasks.Keys == n.tasks.Keys + {id} && n'.running == n.running
    requires n'.finished == n.finished && n'.store == n.store
    ensures Coherent(n', u, s)
  {
    NewWaiter(n, n', q, id);
    hide Waiting;
  }

  lemma NewWaiter(n: Node, n': Node, q: CertificateId, id: CertificateId)
    requires q !in n.precedence && q in n'.precedence && n'.precedence[q].Id() == id
    requires n'.precedence == n.precedence[q := n'.precedence[q]]
    ensures forall x :: Waiting(n', x) <==> Waiting(n, x) || x == id
  {
    forall x
      ensures Waiting(n', x) <==> Waiting(n, x) || x == id
    {
      if Waiting(n, x) {
        var p :| p in n.precedence && n.precedence[p].Id() == x;
        assert p in n'.precedence && n'.precedence[p].Id() == x;
      }
    }
  }

  lemma PersistCoherent(n: Node, n': Node, u: Universe, s: SubnetId, id: CertificateId)
    requires Coherent(n, u, s) && Of(u, id, s) && id in n.running && id !in n.finished
    requires n'.tasks.Keys == n.tasks.Keys && n'.running.Keys == n.running.Keys && n'.precedence == n.precedence
    requires n'.finished == n.finished[id := Success]
    requires n'.store.tables.certificates.Keys == n.store.tables.certificates.Keys + {id}
    ensures Coherent(n', u, s)
  {
    assert forall x :: Waiting(n', x) <==> Waiting(n, x);
    forall q | Slot(n', u, s, q)
      ensures !V.IsDelivered(n'.store, n'.precedence[q].Id())
    {
      assert Waiting(n, n.precedence[q].Id());
    }
  }

  lemma CompleteCoherent(n: Node, u: Universe, s: SubnetId, id: CertificateId)
    requires ForkFree(u, s) && KnownTasks(n, u) && TasksSound(n) && Coherent(n, u, s) && Of(u, id, s)
    ensures Coherent(DoComplete(n, id), u, s)
  {
    if id in n.finished {
      hide DoComplete, KnownTasks, ForkFree, RunningSound, WaitingSound, Partition, AboutToStart, NotDeliveredYet;
      CompleteKeys(n, id);
      var n' := DoComplete(n, id);
      if id in n.precedence {
        var child := n.precedence[id].Id();
        KnownIsNamed(u, s, id);
        WaitsAtHome(n, u, s, id);
        ChildHasTask(n, u, s, id);
        OldWaiter(n, n', u, id);
        ReleasedCoherent(n, n', u, s, id, child);
      } else {
        RetiredCoherent(n, n', u, s, id);
      }
    }
  }

  lemma CompleteKeys(n: Node, id: CertificateId)
    requires id in n.finished && n.finished[id] == Success
    ensures var n' := DoComplete(n, id);
            && n'.tasks.Keys == n.tasks.Keys - {id} && n'.finished == n.finished - {id} && n'.store == n.store
            && n'.precedence == n.precedence - {id} && (id !in n.precedence ==> n'.precedence == n.precedence)
            && n'.running.Keys == n.running.Keys - {id} + (if Releases(n, id) then {n.precedence[id].Id()} else {})
  {
    CompleteShape(n, id);
    hide DoComplete, Buffer;
  }

  lemma KnownIsNamed(u: Universe, s: SubnetId, id: CertificateId)
    requires ForkFree(u, s) && id in u
    ensures u[id].id == id != INITIAL_CERTIFICATE_ID
  {
  }

  lemma ChildHasTask(n: Node, u: Universe, s: SubnetId, id: CertificateId)
    requires Coherent(n, u, s) && Slot(n, u, s, id) && Of(u, id, s) && id in n.running
    ensures n.precedence[id].Id() in n.tasks.Keys - {id}
  {
    assert Waiting(n, n.precedence[id].Id());
  }

  lemma RetiredCoherent(n: Node, n': Node, u: Universe, s: SubnetId, id: CertificateId)
    requires Coherent(n, u, s) && id in n.finished && id in n.running && id !in n.precedence
    requires n'.tasks.Keys == n.tasks.Keys - {id} && n'.running.Keys == n.running.Keys - {id}
    requires n'.precedence == n.precedence && n'.finished == n.finished - {id} && n'.store == n.store
    ensures Coherent(n', u, s)
  {
    assert forall x :: Waiting(n', x) <==> Waiting(n, x);
  }

  lemma ReleasedCoherent(n: Node, n': Node, u: Universe, s: SubnetId, id: CertificateId, child: CertificateId)
    requires Coherent(n, u, s) && id in n.finished && id in n.running && Slot(n, u, s, id)
    requires n.precedence[id].Id() == child
    requires n'.tasks.Keys == n.tasks.Keys - {id} && n'.running.Keys == n.running.Keys - {id} + {child}
    requires n'.precedence == n.precedence - {id} && n'.finished == n.finished - {id} && n'.store == n.store
    requires forall x :: Waiting(n', x) <==> Waiting(n, x) && x != child
    ensures Coherent(n', u, s)
  {
    assert Waiting(n, child);
    hide Waiting;
  }

  lemma OldWaiter(n: Node, n': Node, u: Universe, q: CertificateId)
    requires KnownTasks(n, u) && WaitingSound(n)
    requires q in n.precedence && n'.precedence == n.precedence - {q}
    ensures forall x :: Waiting(n', x) <==> Waiting(n, x) && x != n.precedence[q].Id()
  {
    forall x
      ensures Waiting(n', x) <==> Waiting(n, x) && x != n.precedence[q].Id()
    {
      if Waiting(n, x) {
        var p :| p in n.precedence && n.precedence[p].Id() == x;
        assert u[x] == n.precedence[p].state.certificate;
        if x != n.precedence[q].Id() {
          assert p in n'.precedence && n'.precedence[p].Id() == x;
        }
      }
      if Waiting(n', x) {
        var p :| p in n'.precedence && n'.precedence[p].Id() == x;
        assert p in n.precedence && n.precedence[p].Id() == x;
        assert u[x] == n.precedence[p].state.certificate && p != q;
      }
    }
  }

  // ----- Delivery always succeeds -----

  lemma {:induction false} TargetLength(log: seq<CertificateDelivered>, target: SubnetId, s: SubnetId)
    ensures Length(log, Target(target, s)) <= Length(log, Source(s))
  {
    if log != [] {
      TargetLength(log[..|log| - 1], target, s);
    }
  }

  /** A delivered certificate's predecessor is delivered. */
  lemma PredecessorDelivered(log: seq<CertificateDelivered>, u: Universe, c: Certificate)
    requires KnownLog(log, u) && CausallyOrdered(log) && Known(u, c)
    requires c.id in LogIds(log) && c.prevId != INITIAL_CERTIFICATE_ID
    ensures c.prevId in LogIds(log)
  {
    var d :| d in log && d.certificate.id == c.id;
    var i :| 0 <= i < |log| && log[i] == d;
    assert Known(u, log[i].certificate);
    var e :| e in log[..i] && e.certificate.id == c.prevId;
    assert e in log;
  }

  ghost predicate FullInv(n: Node, log: seq<CertificateDelivered>, u: Universe, s: SubnetId) {
    && ForkFree(u, s) && Length(log, Source(s)) <= |u| <= MAX_U64
    && RunInv(n, log) && ChainInv(n, log, u, s)
  }

  lemma FullIsCoherent(n: Node, log: seq<CertificateDelivered>, u: Universe, s: SubnetId)
    requires FullInv(n, log, u, s)
    ensures TasksSound(n) && Coherent(n, u, s)
  {
  }

  /** The persisting task writes at its depth, which is the next free position. */
  lemma {:induction false} PersistWrites(n: Node, log: seq<CertificateDelivered>, u: Universe, s: SubnetId,
                                         id: CertificateId)
    requires FullInv(n, log, u, s) && Persists(n, id) && Of(u, id, s)
    ensures Written(n, Poll(id)) == [Delivering(n, id)]
    ensures Delivering(n, id).certificate == n.running[id].state.certificate
    ensures AtDepth(u, id, Length(log, Source(s)))
  {
    var d := Delivering(n, id);
    PolledKeepsPosition(n, id);
    assert n.running[id].Id() == id && d.certificate.source == s;
    NextDepth(log, u, n.running[id].state.certificate);
    DepthUnique(u, id, d.proof.deliveryPosition.position, Length(log, Source(s)));
    forall x: SubnetId { TargetLength(log, x, s); }
    InsertRefinesAppend(n.store.tables, log, d);
  }

  /** The successor promoted by a delivery is not delivered itself, so the promotion succeeds. */
  lemma PersistSucceeds(n: Node, log: seq<CertificateDelivered>, u: Universe, s: SubnetId, id: CertificateId)
    requires FullInv(n, log, u, s) && Persists(n, id) && Of(u, id, s)
    ensures V.Deliver(n.store, Delivering(n, id)).result.Ok?
  {
    var d := Delivering(n, id);
    PersistWrites(n, log, u, s, id);
    assert id in n.running && d.certificate.id == id;
    if id in n.store.pools.precedence {
      SuccessorFresh(n, log, u, s, id, Length(log, Source(s)));
    }
    hide Delivering, FullInv, Persists;
    PromotionSucceeds(n.store, d);
  }

  lemma PromotionSucceeds(s: V.Store, d: CertificateDelivered)
    requires Insert(s.tables, d).Ok?
    requires d.certificate.id in s.pools.precedence ==>
               s.pools.precedence[d.certificate.id].id !in s.tables.certificates.Keys + {d.certificate.id}
    ensures V.Deliver(s, d).result.Ok?
  {
    V.InsertGrows(s.tables, d);
    hide Insert;
  }

  lemma {:induction false} SuccessorFresh(n: Node, log: seq<CertificateDelivered>, u: Universe, s: SubnetId,
                                          id: CertificateId, depth: nat)
    requires FullInv(n, log, u, s) && Of(u, id, s) && id in n.running && id !in n.finished && AtDepth(u, id, depth)
    requires id in n.store.pools.precedence
    ensures n.store.pools.precedence[id].id !in n.store.tables.certificates.Keys + {id}
  {
    var child := n.store.pools.precedence[id];
    assert child.prevId == id && Known(u, child);
    assert n.store.tables.certificates.Keys == LogIds(log) && id !in LogIds(log);
    KnownIsNamed(u, s, id);
    hide FullInv;
    SuccessorUndelivered(log, u, child, depth);
  }

  lemma {:induction false} SuccessorUndelivered(log: seq<CertificateDelivered>, u: Universe, child: Certificate,
                                                depth: nat)
    requires KnownLog(log, u) && CausallyOrdered(log) && Known(u, child) && child.prevId != INITIAL_CERTIFICATE_ID
    requires AtDepth(u, child.prevId, depth) && child.prevId !in LogIds(log)
    ensures child.id !in LogIds(log) + {child.prevId}
  {
    SuccessorDepth(u, child.id, depth);
    DifferentDepths(u, child.prevId, child.id, depth, depth + 1);
    if child.id in LogIds(log) {
      PredecessorDelivered(log, u, child);
    }
  }

  // ----- Every admissible run -----

  lemma StepPools(n: Node, a: Action)
    requires V.Filed(n.store.pools)
    ensures var p' := Step(n, a).store.pools.precedence;
            p' == n.store.pools.precedence
            || (a.Submit? && a.certificate.prevId != INITIAL_CERTIFICATE_ID
                && p' == n.store.pools.precedence[a.certificate.prevId := a.certificate])
  {
    if a.Submit? {
      V.WaitersOfInsert(n.store, a.certificate);
    } else if a.Poll? && Persists(n, a.id) {
      V.WaitersOfDeliver(n.store, Delivering(n, a.id));
    }
  }

  ghost predicate KnownAction(u: Universe, a: Action) {
    a.OnBroadcast? || a.Submit? ==> Known(u, a.certificate)
  }

  lemma StepKnown(n: Node, u: Universe, a: Action)
    requires KnownTasks(n, u) && V.Filed(n.store.pools) && KnownAction(u, a)
    ensures KnownTasks(Step(n, a), u) && V.Filed(Step(n, a).store.pools)
  {
    var n' := Step(n, a);
    StepPools(n, a);
    hide Step, Known;
    forall id | id in n'.running
      ensures Known(u, n'.running[id].state.certificate)
    {
      RunningKnown(n, u, a, id);
    }
    forall q | q in n'.precedence
      ensures Known(u, n'.precedence[q].state.certificate)
    {
      StepWaits(n, a, q);
    }
  }

  lemma RunningKnown(n: Node, u: Universe, a: Action, id: CertificateId)
    requires KnownTasks(n, u) && KnownAction(u, a) && id in Step(n, a).running
    ensures Known(u, Step(n, a).running[id].state.certificate)
  {
    hide Step, Known, V.Filed;
    StepMoves(n, a, id);
    if a == Poll(id) && CanPoll(n, id) {
      PolledKeepsPosition(n, id);
    }
  }

  /** Nothing that has finished runs again. */
  lemma StillUnfinished(n: Node, u: Universe, s: SubnetId, a: Action, id: CertificateId)
    requires TasksSound(n) && Coherent(n, u, s) && Of(u, id, s)
    requires id in Step(n, a).running && id !in Step(n, a).finished
    ensures id !in n.finished
  {
    hide Step, DoComplete;
    if id in n.finished {
      if a == Complete(id) {
        CompleteStep(n, id);
        CompleteShape(n, id);
      } else {
        FinishedStays(n, a, id);
      }
    }
  }

  lemma CompleteStep(n: Node, id: CertificateId)
    ensures Step(n, Complete(id)) == DoComplete(n, id)
  {
  }

  lemma NextPositionIsLength(n: Node, log: seq<CertificateDelivered>, s: SubnetId)
    requires Represents(n.store.tables, log) && NextPosition(n, s).Some?
    ensures NextPosition(n, s).value == Length(log, Source(s))
  {
    assert LastByIndex(n.store.tables, Source(s)) == LastOfLength(Length(log, Source(s)));
  }

  /** No starting task of the subnet runs out of positions. */
  lemma PositionsSuffice(n: Node, log: seq<CertificateDelivered>, u: Universe, s: SubnetId)
    requires FullInv(n, log, u, s)
    ensures NextPosition(n, s).Some?
    ensures forall id :: Of(u, id, s) ==> !CannotBoot(n, id)
  {
    assert LastByIndex(n.store.tables, Source(s)) == LastOfLength(Length(log, Source(s)));
    forall id | Of(u, id, s) && id in n.running ensures n.running[id].state.certificate.source == s {
      assert n.running[id].Id() == id && Known(u, n.running[id].state.certificate);
    }
  }

  lemma {:induction false} BootExpectsDepth(n: Node, log: seq<CertificateDelivered>, u: Universe, s: SubnetId,
                                            id: CertificateId)
    requires FullInv(n, log, u, s) && Of(u, id, s) && CanBoot(n, id) && id !in n.finished
    ensures AtDepth(u, id, NextPosition(n, n.running[id].state.certificate.source).value)
  {
    var c := n.running[id].state.certificate;
    NextPositionIsLength(n, log, c.source);
    NextDepth(log, u, c);
  }

  lemma StepExpectsDepth(n: Node, log: seq<CertificateDelivered>, u: Universe, s: SubnetId, a: Action)
    requires FullInv(n, log, u, s)
    ensures ExpectsDepth(Step(n, a), u, s)
  {
    var n' := Step(n, a);
    hide Step, Represents, AtDepth, ForkFree;
    forall id | Of(u, id, s) && id in n'.running && id !in n'.finished && n'.running[id].state.expectedPosition.Some?
      ensures AtDepth(u, id, n'.running[id].state.expectedPosition.value)
    {
      StepMoves(n, a, id);
      StillUnfinished(n, u, s, a, id);
      if a == Boot(id) && CanBoot(n, id) {
        BootExpectsDepth(n, log, u, s, id);
      } else if a == Poll(id) && CanPoll(n, id) {
        PolledKeepsPosition(n, id);
      }
    }
  }

  lemma PersistShape(n: Node, id: CertificateId)
    requires Persists(n, id)
    ensures var n', r := DoPoll(n, id), V.Deliver(n.store, Delivering(n, id));
            && n'.tasks.Keys == n.tasks.Keys && n'.running.Keys == n.running.Keys && n'.precedence == n.precedence
            && n'.finished == n.finished[id := if r.result.Ok? then Success else Failure]
            && id in n.running && id !in n.finished
  {
    hide V.Deliver;
  }

  lemma PollStep(n: Node, id: CertificateId)
    ensures Step(n, Poll(id)) == DoPoll(n, id)
  {
  }

  /** The action starts, delivers or completes a certificate of the subnet. */
  ghost predicate AtHome(n: Node, u: Universe, s: SubnetId, a: Action) {
    || (a.OnBroadcast? && a.certificate.source == s)
    || (a.Complete? && Of(u, a.id, s))
    || (a.Poll? && Persists(n, a.id) && Of(u, a.id, s))
  }

  lemma ForeignStep(n: Node, u: Universe, s: SubnetId, a: Action)
    requires ForkFree(u, s) && KnownTasks(n, u) && TasksSound(n) && KnownAction(u, a) && !AtHome(n, u, s, a)
    ensures SameShape(n, Step(n, a), u, s)
  {
    hide DoBroadcast, DoComplete, DoVote, DoForward, DoBoot, DoPoll, Persists, SameShape, KnownTasks, ForkFree;
    if a.OnBroadcast? {
      ForeignBroadcast(n, u, s, a.certificate, a.needGossip);
    } else if a.Complete? {
      ForeignComplete(n, u, s, a.id);
    } else if a.Poll? && Persists(n, a.id) {
      ForeignPersist(n, u, s, a.id);
    } else {
      QuietSteps(n, u, s, a);
    }
  }

  lemma HomeStep(n: Node, log: seq<CertificateDelivered>, u: Universe, s: SubnetId, a: Action)
    requires FullInv(n, log, u, s) && Admissible(n, u, s, a) && AtHome(n, u, s, a)
    ensures Coherent(Step(n, a), u, s)
  {
    hide DoBroadcast, DoComplete, DoPoll, Persists, Coherent, KnownTasks, ForkFree, Represents;
    match a
    case OnBroadcast(c, gossip) => BroadcastCoherent(n, u, c, gossip);
    case Complete(id) => CompleteCoherent(n, u, s, id);
    case Poll(id) => PersistStepCoherent(n, log, u, s, id);
  }

  lemma StepCoherent(n: Node, log: seq<CertificateDelivered>, u: Universe, s: SubnetId, a: Action)
    requires FullInv(n, log, u, s) && Admissible(n, u, s, a)
    ensures Coherent(Step(n, a), u, s)
  {
    hide Step, Coherent, SameShape, KnownTasks, ForkFree, Represents, AtHome;
    if AtHome(n, u, s, a) {
      HomeStep(n, log, u, s, a);
    } else {
      ForeignStep(n, u, s, a);
      SameShapeCoherent(n, Step(n, a), u, s);
    }
  }

  lemma PersistRecords(n: Node, log: seq<CertificateDelivered>, u: Universe, s: SubnetId, id: CertificateId)
    requires FullInv(n, log, u, s) && Persists(n, id) && Of(u, id, s)
    ensures DoPoll(n, id).store.tables.certificates.Keys == n.store.tables.certificates.Keys + {id}
  {
    hide FullInv, Step, DoPoll, Written, Delivering, AtDepth, Polled;
    assert CanPoll(n, id);
    PersistWrites(n, log, u, s, id);
    RunningId(n, log, u, s, id);
    StepDelivered(n, Poll(id));
    PollStep(n, id);
    assert LogIds([Delivering(n, id)]) == {id};
  }

  lemma RunningId(n: Node, log: seq<CertificateDelivered>, u: Universe, s: SubnetId, id: CertificateId)
    requires FullInv(n, log, u, s) && id in n.running
    ensures n.running[id].state.certificate.id == id
  {
  }

  lemma PersistStepCoherent(n: Node, log: seq<CertificateDelivered>, u: Universe, s: SubnetId, id: CertificateId)
    requires FullInv(n, log, u, s) && Persists(n, id) && Of(u, id, s)
    ensures Coherent(DoPoll(n, id), u, s)
  {
    assert Coherent(n, u, s);
    hide FullInv, DoPoll, Delivering, V.Deliver, Coherent;
    PersistRecords(n, log, u, s, id);
    PersistSucceeds(n, log, u, s, id);
    PersistShape(n, id);
    PersistCoherent(n, DoPoll(n, id), u, s, id);
  }

  lemma StepDepths(n: Node, log: seq<CertificateDelivered>, u: Universe, s: SubnetId, a: Action)
    requires FullInv(n, log, u, s)
    ensures KnownLog(log + Written(n, a), u) && PositionsAreDepths(log + Written(n, a), u, s)
  {
    if Written(n, a) == [] {
      assert log + [] == log;
    } else {
      WrittenProven(n, a);
      assert n.running[a.id].Id() == a.id && Known(u, n.running[a.id].state.certificate);
      if Of(u, a.id, s) {
        PersistWrites(n, log, u, s, a.id);
      }
      WrittenOne(n, a);
      hide Written, RunInv, AtDepth;
      AppendDepth(log, u, s, Written(n, a)[0]);
      assert Written(n, a) == [Written(n, a)[0]];
    }
  }

  lemma StepFull(n: Node, log: seq<CertificateDelivered>, u: Universe, s: SubnetId, a: Action)
    requires FullInv(n, log, u, s) && Admissible(n, u, s, a)
    ensures FullInv(Step(n, a), log + Written(n, a), u, s)
  {
    hide Step, Written, RunInv, Coherent, ExpectsDepth, KnownTasks, KnownLog, PositionsAreDepths, ForkFree;
    StepInv(n, log, a);
    StepKnown(n, u, a);
    StepExpectsDepth(n, log, u, s, a);
    StepCoherent(n, log, u, s, a);
    StepDepths(n, log, u, s, a);
    LogFits(log + Written(n, a), u, s);
  }

  lemma WrittenOne(n: Node, a: Action)
    ensures |Written(n, a)| <= 1
  {
  }

  lemma StartFull(validators: set<ValidatorId>, params: Params, u: Universe, s: SubnetId)
    requires ForkFree(u, s) && |u| <= MAX_U64
    ensures FullInv(Init(validators, params), [], u, s)
  {
    EmptyRepresentsNothing();
  }

  lemma {:induction false} EveryForkFreeRun(validators: set<ValidatorId>, params: Params, u: Universe, s: SubnetId,
                                            actions: seq<Action>)
    requires ForkFree(u, s) && |u| <= MAX_U64 && AdmissibleRun(validators, params, u, s, actions)
    ensures FullInv(Exec(validators, params, actions), Log(validators, params, actions), u, s)
  {
    if actions == [] {
      StartFull(validators, params, u, s);
    } else {
      var before, last := actions[..|actions| - 1], actions[|actions| - 1];
      EveryForkFreeRun(validators, params, u, s, before);
      StepFull(Exec(validators, params, before), Log(validators, params, before), u, s, last);
      hide FullInv, Step, Written;
    }
  }
}
