/**
 * What the pending pools of a validator tell a sequencer that restarts: the certificates of
 * its subnet that wait behind the delivered head, and the block to continue from.
 */
module PendingRuns {
  import opened Wrappers
  import opened Certificates
  import opened Quorum
  import opened DoubleEcho
  import opened FullNodeStore
  import opened TaskManager
  import opened NodeRuns
  import opened Chains
  import opened ForkFreeRuns
  import opened V = ValidatorStore

  /** The certificate has not been submitted to this validator before. */
  ghost predicate NotSubmitted(p: Pools, c: Certificate) {
    c.id !in p.index && (c.prevId in p.precedence ==> p.precedence[c.prevId] != c)
  }

  /** No certificate of the subnet is submitted a second time; others may be. */
  ghost predicate SubmitsOnce(validators: set<ValidatorId>, params: Params, s: SubnetId,
                              actions: seq<TaskManager.Action>) {
    actions != [] ==>
      var before, last := actions[..|actions| - 1], actions[|actions| - 1];
      && SubmitsOnce(validators, params, s, before)
      && (last.Submit? && last.certificate.source == s ==>
            NotSubmitted(TaskManager.Exec(validators, params, before).store.pools, last.certificate))
  }

  /** The 64-bit counter of pending ids does not start again from zero. */
  ghost predicate NoWrap(validators: set<ValidatorId>, params: Params, actions: seq<TaskManager.Action>) {
    actions != [] ==>
      var before := actions[..|actions| - 1];
      && NoWrap(validators, params, before)
      && !Wraps(TaskManager.Exec(validators, params, before).store, TaskManager.Exec(validators, params, actions).store)
  }

  ghost predicate KnownPools(p: Pools, u: Universe) {
    && (forall i :: i in p.pool ==> Known(u, p.pool[i]))
    && (forall q :: q in p.precedence ==> Known(u, p.precedence[q]))
  }

  /** A pooled certificate of the subnet has one entry and is not delivered. */
  ghost predicate PooledOnce(st: Store, s: SubnetId) {
    forall i :: i in st.pools.pool && st.pools.pool[i].source == s ==>
      var id := st.pools.pool[i].id;
      id in st.pools.index && st.pools.index[id] == i && !IsDelivered(st, id)
  }

  /** Whoever of the subnet waits for an undelivered predecessor has not been pooled yet. */
  ghost predicate WaitsUnpooled(st: Store, s: SubnetId) {
    forall q :: q in st.pools.precedence && st.pools.precedence[q].source == s && !IsDelivered(st, q) ==>
      st.pools.precedence[q].id !in st.pools.index
  }

  /** What is true of the pools besides the pool invariant. */
  ghost predicate Orderly(st: Store, u: Universe, s: SubnetId) {
    KnownPools(st.pools, u) && PooledOnce(st, s) && WaitsUnpooled(st, s)
  }

  ghost predicate PendInv(st: Store, u: Universe, s: SubnetId) {
    ForkFree(u, s) && PoolInv(st) && Orderly(st, u, s)
  }

  // ----- Submissions -----

  lemma AddPooledOnce(st: Store, u: Universe, s: SubnetId, c: Certificate)
    requires PooledOnce(st, s) && KnownPools(st.pools, u) && IdsSound(st.pools) && Known(u, c)
    requires c.source == s ==> !IsDelivered(st, c.id) && c.id !in st.pools.index
    ensures PooledOnce(st.(pools := AddToPool(st.pools, c)), s)
  {
  }

  /** A certificate is pooled: one of the subnet for the first time, or one of another subnet. */
  lemma AddOrderly(st: Store, u: Universe, s: SubnetId, c: Certificate)
    requires ForkFree(u, s) && Orderly(st, u, s) && IdsSound(st.pools) && Filed(st.pools)
    requires Known(u, c) && PrevDelivered(st, c)
    requires c.source == s ==> !IsDelivered(st, c.id) && c.id !in st.pools.index
    ensures Orderly(st.(pools := AddToPool(st.pools, c)), u, s)
  {
    AddPooledOnce(st, u, s, c);
    hide PooledOnce, IdsSound;
    var st' := st.(pools := AddToPool(st.pools, c));
    forall q | q in st'.pools.precedence && st'.pools.precedence[q].source == s && !IsDelivered(st', q)
      ensures st'.pools.precedence[q].id !in st'.pools.index
    {
      assert st.pools.precedence[q].prevId == q && Known(u, st.pools.precedence[q]);
    }
  }

  lemma FileOrderly(st: Store, u: Universe, s: SubnetId, c: Certificate)
    requires Orderly(st, u, s) && Known(u, c) && (c.source == s ==> c.id !in st.pools.index)
    ensures Orderly(st.(pools := st.pools.(precedence := st.pools.precedence[c.prevId := c])), u, s)
  {
  }

  lemma SubmitPends(st: Store, u: Universe, s: SubnetId, c: Certificate)
    requires PendInv(st, u, s) && Known(u, c) && (c.source == s ==> NotSubmitted(st.pools, c))
    requires !Wraps(st, InsertPending(st, c).store)
    ensures PendInv(InsertPending(st, c).store, u, s)
  {
    hide ForkFree, AddToPool, Orderly, IdsSound, Anchored, Filed, Promoted;
    InsertPendingKeeps(st, c);
    if !IsDelivered(st, c.id) && PrevDelivered(st, c) {
      AddOrderly(st, u, s, c);
    } else if !IsDelivered(st, c.id) {
      FileOrderly(st, u, s, c);
    }
  }

  // ----- Deliveries -----

  lemma UnpoolPends(st: Store, tables: Tables, u: Universe, s: SubnetId, id: CertificateId)
    requires Orderly(st, u, s) && IdsSound(st.pools) && id in u
    requires tables.certificates.Keys == st.tables.certificates.Keys + {id}
    ensures Orderly(Store(tables, Unpool(st.pools, id)), u, s)
  {
    var left := Store(tables, Unpool(st.pools, id));
    assert KnownPools(left.pools, u);
    forall i | i in left.pools.pool && left.pools.pool[i].source == s
      ensures var x := left.pools.pool[i].id;
              x in left.pools.index && left.pools.index[x] == i && !IsDelivered(left, x)
    {
      assert i in st.pools.pool && st.pools.pool[i] == left.pools.pool[i];
    }
  }

  lemma DeliverIsPromote(s: Store, d: CertificateDelivered)
    requires Insert(s.tables, d).Ok?
    ensures var r := Insert(s.tables, d).value;
            Deliver(s, d) == Promote(Store(r.tables, Unpool(s.pools, d.certificate.id)), d.certificate.id, r.positions)
  {
    hide Insert, Promote, Unpool;
  }

  lemma UnpoolKeepsWaiters(p: Pools, id: CertificateId)
    requires IdsSound(p) && Filed(p)
    ensures Unpool(p, id).precedence == p.precedence && Unpool(p, id).index == p.index
    ensures IdsSound(Unpool(p, id)) && Filed(Unpool(p, id))
  {
  }

  lemma PromotePends(left: Store, u: Universe, s: SubnetId, id: CertificateId, positions: CertificatePositions)
    requires ForkFree(u, s) && Orderly(left, u, s) && IdsSound(left.pools) && Filed(left.pools) && IsDelivered(left, id)
    requires id in left.pools.precedence && left.pools.precedence[id].source == s ==>
               left.pools.precedence[id].id !in left.pools.index
    ensures Orderly(Promote(left, id, positions).store, u, s)
  {
    if id in left.pools.precedence {
      var c := left.pools.precedence[id];
      assert Known(u, c) && c.prevId == id;
      hide ForkFree, AddToPool, Orderly, IdsSound, Filed;
      if !IsDelivered(left, c.id) {
        AddOrderly(left, u, s, c);
      }
    }
  }

  lemma DeliverPends(st: Store, u: Universe, s: SubnetId, d: CertificateDelivered)
    requires PendInv(st, u, s) && Known(u, d.certificate) && !Wraps(st, Deliver(st, d).store)
    requires d.certificate.source == s ==> !IsDelivered(st, d.certificate.id)
    ensures PendInv(Deliver(st, d).store, u, s)
  {
    hide ForkFree, Orderly, IdsSound, Anchored, Filed, Promoted, Insert, Deliver, Promote, Unpool;
    DeliverKeeps(st, d);
    if Insert(st.tables, d).Err? {
      NotInserted(st, d);
    } else {
      var id := d.certificate.id;
      SuccessorUnpooled(st, u, s, d.certificate);
      DeliverIsPromote(st, d);
      InsertGrows(st.tables, d);
      var left := Store(Insert(st.tables, d).value.tables, Unpool(st.pools, id));
      UnpoolPends(st, left.tables, u, s, id);
      UnpoolKeepsWaiters(st.pools, id);
      PromotePends(left, u, s, id, Insert(st.tables, d).value.positions);
    }
  }

  lemma NotInserted(st: Store, d: CertificateDelivered)
    requires Insert(st.tables, d).Err?
    ensures Deliver(st, d).store == st
  {
    hide Insert;
  }

  /** Whoever of the subnet waits for an undelivered certificate has not been given a pending id. */
  lemma SuccessorUnpooled(st: Store, u: Universe, s: SubnetId, c: Certificate)
    requires PendInv(st, u, s) && Known(u, c) && (c.source == s ==> !IsDelivered(st, c.id))
    ensures c.id in st.pools.precedence && st.pools.precedence[c.id].source == s ==>
              st.pools.precedence[c.id].id !in st.pools.index
  {
    if c.id in st.pools.precedence {
      assert Known(u, st.pools.precedence[c.id]) && st.pools.precedence[c.id].prevId == c.id;
    }
  }

  // ----- Runs -----

  /** The store changes by a submission or by the delivery of a persisting task. */
  lemma StepStore(n: Node, a: TaskManager.Action)
    ensures TaskManager.Step(n, a).store ==
            if a.Submit? then InsertPending(n.store, a.certificate).store
            else if a.Poll? && Persists(n, a.id) then Deliver(n.store, TaskManager.Delivering(n, a.id)).store
            else n.store
  {
    hide InsertPending, Deliver, Apply;
  }

  lemma StepPends(n: Node, log: seq<CertificateDelivered>, u: Universe, s: SubnetId, a: TaskManager.Action)
    requires FullInv(n, log, u, s) && PendInv(n.store, u, s) && Admissible(n, u, s, a)
    requires a.Submit? && a.certificate.source == s ==> NotSubmitted(n.store.pools, a.certificate)
    requires !Wraps(n.store, TaskManager.Step(n, a).store)
    ensures PendInv(TaskManager.Step(n, a).store, u, s)
  {
    StepStore(n, a);
    hide TaskManager.Step, PendInv, InsertPending, Deliver, FullInv;
    if a.Submit? {
      SubmitPends(n.store, u, s, a.certificate);
    } else if a.Poll? && Persists(n, a.id) {
      PersistingIs(n, log, u, s, a.id);
      DeliverPends(n.store, u, s, TaskManager.Delivering(n, a.id));
    }
  }

  lemma PersistingIs(n: Node, log: seq<CertificateDelivered>, u: Universe, s: SubnetId, id: CertificateId)
    requires FullInv(n, log, u, s) && Persists(n, id)
    ensures var c := TaskManager.Delivering(n, id).certificate;
            Known(u, c) && (c.source == s ==> !IsDelivered(n.store, c.id))
  {
    TaskManager.PolledKeepsPosition(n, id);
    assert n.running[id].Id() == id && Known(u, n.running[id].state.certificate);
  }

  lemma {:induction false} EveryPendingRun(validators: set<ValidatorId>, params: Params, u: Universe, s: SubnetId,
                                           actions: seq<TaskManager.Action>)
    requires ForkFree(u, s) && |u| <= MAX_U64 && AdmissibleRun(validators, params, u, s, actions)
    requires SubmitsOnce(validators, params, s, actions) && NoWrap(validators, params, actions)
    ensures PendInv(TaskManager.Exec(validators, params, actions).store, u, s)
  {
    if actions != [] {
      var before, last := actions[..|actions| - 1], actions[|actions| - 1];
      EveryPendingRun(validators, params, u, s, before);
      EveryForkFreeRun(validators, params, u, s, before);
      StepPends(TaskManager.Exec(validators, params, before), Log(validators, params, before), u, s, last);
      hide TaskManager.Step, PendInv, FullInv;
    }
  }

  // ----- When the counter does not wrap -----

  lemma ActionBumps(n: Node, a: TaskManager.Action)
    requires n.store.pools.nextPendingId < MAX_U64
    ensures n.store.pools.nextPendingId <= TaskManager.Step(n, a).store.pools.nextPendingId
            <= n.store.pools.nextPendingId + 1
  {
    StepStore(n, a);
    hide TaskManager.Step, InsertPending, Deliver;
    if a.Submit? {
      StepBumps(n.store, V.Submit(a.certificate));
    } else if a.Poll? && Persists(n, a.id) {
      StepBumps(n.store, V.Delivering(TaskManager.Delivering(n, a.id)));
    }
  }

  /** It does not in any run that is short enough. */
  lemma {:induction false} ShortRunNoWrap(validators: set<ValidatorId>, params: Params,
                                          actions: seq<TaskManager.Action>)
    requires |actions| <= MAX_U64
    ensures NoWrap(validators, params, actions)
    ensures TaskManager.Exec(validators, params, actions).store.pools.nextPendingId <= |actions|
  {
    if actions != [] {
      ShortRunNoWrap(validators, params, actions[..|actions| - 1]);
      ActionBumps(TaskManager.Exec(validators, params, actions[..|actions| - 1]), actions[|actions| - 1]);
      hide TaskManager.Step;
    }
  }

  /** Every pending id was given to another certificate. */
  ghost predicate Counted(p: Pools, u: Universe) {
    p.nextPendingId == |p.index| && p.index.Keys <= u.Keys
  }

  lemma RoomForAnother(p: Pools, u: Universe, c: Certificate)
    requires Counted(p, u) && |u| <= MAX_U64 && Known(u, c) && c.id !in p.index
    ensures p.nextPendingId < MAX_U64 && Counted(AddToPool(p, c), u)
  {
    SubsetSize(p.index.Keys + {c.id}, u.Keys);
    assert p.index[c.id := p.nextPendingId].Keys == p.index.Keys + {c.id};
    assert |p.index[c.id := p.nextPendingId].Keys| == |p.index| + 1;
  }

  lemma InsertCounted(st: Store, u: Universe, c: Certificate)
    requires Counted(st.pools, u) && |u| <= MAX_U64 && Known(u, c) && c.id !in st.pools.index
    ensures Counted(InsertPending(st, c).store.pools, u) && !Wraps(st, InsertPending(st, c).store)
  {
    RoomForAnother(st.pools, u, c);
  }

  lemma DeliverCounted(st: Store, u: Universe, d: CertificateDelivered)
    requires Counted(st.pools, u) && |u| <= MAX_U64 && KnownPools(st.pools, u)
    requires d.certificate.id in st.pools.precedence ==>
               st.pools.precedence[d.certificate.id].id !in st.pools.index
    ensures Counted(Deliver(st, d).store.pools, u) && !Wraps(st, Deliver(st, d).store)
  {
    hide Insert, Counted, Deliver, InsertPending;
    if Insert(st.tables, d).Err? {
      NotInserted(st, d);
    } else {
      DeliverIsPromote(st, d);
      var left := Store(Insert(st.tables, d).value.tables, Unpool(st.pools, d.certificate.id));
      StillCounted(st.pools, left.pools, u);
      if d.certificate.id in left.pools.precedence {
        InsertCounted(left, u, left.pools.precedence[d.certificate.id]);
      }
    }
  }

  lemma StillCounted(p: Pools, p': Pools, u: Universe)
    requires Counted(p, u) && p'.index == p.index && p'.nextPendingId == p.nextPendingId
    ensures Counted(p', u)
  {
  }

  /** The waiting successor of a certificate about to be delivered has not been given a pending id. */
  lemma PersistingUnpooled(n: Node, log: seq<CertificateDelivered>, u: Universe, s: SubnetId, id: CertificateId)
    requires FullInv(n, log, u, s) && PendInv(n.store, u, s) && Persists(n, id) && Of(u, id, s)
    ensures var d, p := TaskManager.Delivering(n, id), n.store.pools;
            d.certificate.id in p.precedence ==> p.precedence[d.certificate.id].id !in p.index
  {
    PersistingIs(n, log, u, s, id);
    RunningId(n, log, u, s, id);
    TaskManager.PolledKeepsPosition(n, id);
    SuccessorUnpooled(n.store, u, s, u[id]);
    if id in n.store.pools.precedence {
      assert Known(u, n.store.pools.precedence[id]) && n.store.pools.precedence[id].prevId == id;
    }
  }

  lemma StepCounted(n: Node, log: seq<CertificateDelivered>, u: Universe, a: TaskManager.Action)
    requires forall s: SubnetId :: FullInv(n, log, u, s) && PendInv(n.store, u, s)
    requires Counted(n.store.pools, u) && |u| <= MAX_U64
    requires a.Submit? ==> Known(u, a.certificate) && NotSubmitted(n.store.pools, a.certificate)
    ensures Counted(TaskManager.Step(n, a).store.pools, u) && !Wraps(n.store, TaskManager.Step(n, a).store)
  {
    StepStore(n, a);
    hide TaskManager.Step, InsertPending, Deliver, FullInv, Counted, Persists;
    if a.Submit? {
      InsertCounted(n.store, u, a.certificate);
    } else if a.Poll? && Persists(n, a.id) {
      PersistingKnown(n, log, u, a.id);
      PersistingUnpooled(n, log, u, u[a.id].source, a.id);
      assert PendInv(n.store, u, u[a.id].source);
      DeliverCounted(n.store, u, TaskManager.Delivering(n, a.id));
    }
  }

  lemma PersistingKnown(n: Node, log: seq<CertificateDelivered>, u: Universe, id: CertificateId)
    requires (forall s: SubnetId :: FullInv(n, log, u, s)) && Persists(n, id)
    ensures id in u && CanPoll(n, id)
  {
    var s: SubnetId := n.running[id].state.certificate.source;
    assert FullInv(n, log, u, s);
    RunningId(n, log, u, s, id);
  }

  /** It does not if no subnet forks, has its deliveries taken up again or submits anything twice. */
  lemma {:induction false} OnceNoWrap(validators: set<ValidatorId>, params: Params, u: Universe,
                                      actions: seq<TaskManager.Action>)
    requires (forall s: SubnetId :: ForkFree(u, s)) && |u| <= MAX_U64
    requires forall s: SubnetId :: AdmissibleRun(validators, params, u, s, actions)
    requires forall s: SubnetId :: SubmitsOnce(validators, params, s, actions)
    ensures NoWrap(validators, params, actions)
    ensures Counted(TaskManager.Exec(validators, params, actions).store.pools, u)
  {
    if actions != [] {
      var before, last := actions[..|actions| - 1], actions[|actions| - 1];
      var n, log := TaskManager.Exec(validators, params, before), Log(validators, params, before);
      forall s: SubnetId
        ensures AdmissibleRun(validators, params, u, s, before) && SubmitsOnce(validators, params, s, before)
        ensures Admissible(n, u, s, last)
        ensures last.Submit? && last.certificate.source == s ==> NotSubmitted(n.store.pools, last.certificate)
      {
        assert AdmissibleRun(validators, params, u, s, actions) && SubmitsOnce(validators, params, s, actions);
      }
      assert last.Submit? ==> Admissible(n, u, last.certificate.source, last);
      OnceNoWrap(validators, params, u, before);
      hide ForkFree, AdmissibleRun, SubmitsOnce, TaskManager.Step, FullInv, PendInv, Counted, NotSubmitted;
      forall s: SubnetId
        ensures FullInv(n, log, u, s) && PendInv(n.store, u, s)
      {
        EveryForkFreeRun(validators, params, u, s, before);
        EveryPendingRun(validators, params, u, s, before);
      }
      StepCounted(n, log, u, last);
    }
  }

  // ----- The walk along the precedence pool -----

  ghost predicate Links(precedence: map<CertificateId, Certificate>, u: Universe) {
    forall q :: q in precedence ==>
      Known(u, precedence[q]) && precedence[q].prevId == q && q != INITIAL_CERTIFICATE_ID
  }

  /** The `j`-th certificate of the walk is `j` levels deeper, and the walk stops at a gap. */
  lemma {:induction false} ChainClimbs(precedence: map<CertificateId, Certificate>, u: Universe, c: Certificate, k: nat)
    requires Links(precedence, u) && Known(u, c) && AtDepth(u, c.id, k)
    ensures var chain := Chain(precedence, c);
            && (forall j :: 0 <= j < |chain| ==> Known(u, chain[j]) && AtDepth(u, chain[j].id, k + j))
            && chain[|chain| - 1].id !in precedence
    decreases |precedence|
  {
    if c.id in precedence {
      var next, rest := precedence[c.id], precedence - {c.id};
      Shrinks(precedence, c.id);
      SuccessorDepth(u, next.id, k);
      ChainClimbs(rest, u, next, k + 1);
      var chain, tail := Chain(precedence, c), Chain(rest, next);
      assert chain == [c] + tail;
      forall j | 0 <= j < |chain|
        ensures Known(u, chain[j]) && AtDepth(u, chain[j].id, k + j)
      {
        if j > 0 {
          assert chain[j] == tail[j - 1];
          assert AtDepth(u, tail[j - 1].id, k + 1 + (j - 1));
        }
      }
      var last := tail[|tail| - 1];
      DifferentDepths(u, c.id, last.id, k, k + |tail|);
    }
  }

  /** Nothing on the walk is delivered. */
  lemma {:induction false} ChainUndelivered(precedence: map<CertificateId, Certificate>,
                                            log: seq<CertificateDelivered>, u: Universe, c: Certificate, j: nat)
    requires Links(precedence, u) && KnownLog(log, u) && CausallyOrdered(log)
    requires c.id !in LogIds(log) && j < |Chain(precedence, c)|
    ensures Chain(precedence, c)[j].id !in LogIds(log)
    decreases |precedence|
  {
    if j > 0 {
      var next := precedence[c.id];
      Shrinks(precedence, c.id);
      if next.id in LogIds(log) {
        PredecessorDelivered(log, u, next);
      }
      ChainUndelivered(precedence - {c.id}, log, u, next, j - 1);
    }
  }

  lemma {:induction false} AscendingDistinct(s: set<nat>, i: nat, j: nat)
    requires i < j < |Ascending(s)|
    ensures Ascending(s)[i] != Ascending(s)[j]
    decreases |s|
  {
    var rest := s - {Max(s)};
    if j < |Ascending(rest)| {
      AscendingDistinct(rest, i, j);
    } else {
      AscendingMember(rest, i);
    }
  }

  /** With one pooled certificate of the subnet the tally is the length and the end of its walk. */
  lemma {:induction false} TallyOfOne(p: Pools, ids: seq<nat>, subnet: SubnetId, only: nat)
    requires forall i :: 0 <= i < |ids| ==> ids[i] in p.pool
    requires forall i, j :: 0 <= i < j < |ids| ==> ids[i] != ids[j]
    requires only in p.pool && p.pool[only].source == subnet
    requires forall i :: i in p.pool && p.pool[i].source == subnet ==> i == only
    ensures var chain := Chain(p.precedence, p.pool[only]);
            Tally(p, ids, subnet) ==
            if only in ids then Summary(|chain|, Some(chain[|chain| - 1])) else Summary(0, None)
  {
    if ids != [] {
      var before, last := ids[..|ids| - 1], ids[|ids| - 1];
      TallyOfOne(p, before, subnet, only);
      assert ids == before + [last];
      assert last !in before;
    }
  }

  lemma {:induction false} TallyOfNone(p: Pools, ids: seq<nat>, subnet: SubnetId)
    requires forall i :: 0 <= i < |ids| ==> ids[i] in p.pool
    requires forall i :: i in p.pool ==> p.pool[i].source != subnet
    ensures Tally(p, ids, subnet) == Summary(0, None)
  {
    if ids != [] {
      TallyOfNone(p, ids[..|ids| - 1], subnet);
    }
  }

  /** A pooled certificate is the one that comes next in its subnet. */
  lemma {:induction false} PooledIsNext(s: Store, log: seq<CertificateDelivered>, u: Universe, i: nat)
    requires i in s.pools.pool && PendInv(s, u, s.pools.pool[i].source) && Represents(s.tables, log)
    requires KnownLog(log, u) && PositionsAreDepths(log, u, s.pools.pool[i].source)
    ensures AtDepth(u, s.pools.pool[i].id, Length(log, Source(s.pools.pool[i].source)))
  {
    NextDepth(log, u, s.pools.pool[i]);
  }

  /** At most one certificate per subnet is pooled. */
  lemma PooledAlone(s: Store, log: seq<CertificateDelivered>, u: Universe, i: nat, j: nat)
    requires i in s.pools.pool && PendInv(s, u, s.pools.pool[i].source) && Represents(s.tables, log)
    requires KnownLog(log, u) && PositionsAreDepths(log, u, s.pools.pool[i].source)
    requires j in s.pools.pool && s.pools.pool[i].source == s.pools.pool[j].source
    ensures i == j
  {
    PooledIsNext(s, log, u, i);
    PooledIsNext(s, log, u, j);
    var subnet := s.pools.pool[i].source;
    LevelUnique(u, subnet, s.pools.pool[i].id, s.pools.pool[j].id, Length(log, Source(subnet)));
  }

  function PoolOrder(p: Pools): (ids: seq<nat>)
    ensures forall i :: 0 <= i < |ids| ==> ids[i] in p.pool
  {
    var ids := Ascending(p.pool.Keys);
    assert forall i :: 0 <= i < |ids| ==> ids[i] in p.pool by {
      forall i | 0 <= i < |ids| ensures ids[i] in p.pool { AscendingMember(p.pool.Keys, i); }
    }
    ids
  }

  /** What the tally of a subnet says about the certificates behind its delivered head. */
  ghost predicate TellsChain(t: Summary, s: Store, log: seq<CertificateDelivered>, u: Universe, subnet: SubnetId) {
    if t.count == 0 then t.last.None? && forall i :: i in s.pools.pool ==> s.pools.pool[i].source != subnet
    else
      && t.last.Some? && t.last.value.source == subnet && Known(u, t.last.value)
      && AtDepth(u, t.last.value.id, Length(log, Source(subnet)) + t.count - 1)
      && !IsDelivered(s, t.last.value.id) && t.last.value.id !in s.pools.precedence
  }

  lemma {:induction false} AscendingHas(s: set<nat>, x: nat)
    requires x in s
    ensures x in Ascending(s)
    decreases |s|
  {
    if x != Max(s) {
      AscendingHas(s - {Max(s)}, x);
    }
  }

  /** All certificates of a walk are of the subnet it starts in. */
  lemma {:induction false} ChainSubnet(precedence: map<CertificateId, Certificate>, u: Universe, c: Certificate, j: nat)
    requires ForkFree(u, c.source) && Links(precedence, u) && Known(u, c) && j < |Chain(precedence, c)|
    ensures Chain(precedence, c)[j].source == c.source
    decreases |precedence|
  {
    if j > 0 {
      Shrinks(precedence, c.id);
      assert precedence[c.id].prevId == c.id && Of(u, c.id, c.source);
      ChainSubnet(precedence - {c.id}, u, precedence[c.id], j - 1);
    }
  }

  lemma WalkTellsChain(s: Store, log: seq<CertificateDelivered>, u: Universe, subnet: SubnetId, i: nat)
    requires PendInv(s, u, subnet) && Represents(s.tables, log) && CausallyOrdered(log)
    requires KnownLog(log, u) && PositionsAreDepths(log, u, subnet)
    requires i in s.pools.pool && s.pools.pool[i].source == subnet
    ensures var chain := Chain(s.pools.precedence, s.pools.pool[i]);
            TellsChain(Summary(|chain|, Some(chain[|chain| - 1])), s, log, u, subnet)
  {
    hide Chain, AtDepth, PendInv, KnownLog, PositionsAreDepths, CausallyOrdered, Links, Represents;
    var c, p := s.pools.pool[i], s.pools.precedence;
    var chain := Chain(p, c);
    PooledFacts(s, log, u, i);
    PooledIsNext(s, log, u, i);
    ChainClimbs(p, u, c, Length(log, Source(subnet)));
    ChainUndelivered(p, log, u, c, |chain| - 1);
    ChainSubnet(p, u, c, |chain| - 1);
  }

  lemma PooledFacts(s: Store, log: seq<CertificateDelivered>, u: Universe, i: nat)
    requires i in s.pools.pool && PendInv(s, u, s.pools.pool[i].source) && Represents(s.tables, log)
    ensures Links(s.pools.precedence, u) && ForkFree(u, s.pools.pool[i].source) && Known(u, s.pools.pool[i])
    ensures s.pools.pool[i].id !in LogIds(log) && s.tables.certificates.Keys == LogIds(log)
  {
  }

  lemma {:induction false} TallyTellsChain(s: Store, log: seq<CertificateDelivered>, u: Universe, subnet: SubnetId)
    requires PendInv(s, u, subnet) && Represents(s.tables, log) && CausallyOrdered(log)
    requires KnownLog(log, u) && PositionsAreDepths(log, u, subnet)
    ensures TellsChain(Tally(s.pools, PoolOrder(s.pools), subnet), s, log, u, subnet)
  {
    hide PendInv, Represents, KnownLog, PositionsAreDepths, CausallyOrdered, Chain;
    var ids := PoolOrder(s.pools);
    if only :| only in s.pools.pool && s.pools.pool[only].source == subnet {
      forall i | i in s.pools.pool && s.pools.pool[i].source == subnet
        ensures i == only
      {
        PooledAlone(s, log, u, i, only);
      }
      forall i, j | 0 <= i < j < |ids| ensures ids[i] != ids[j] { AscendingDistinct(s.pools.pool.Keys, i, j); }
      AscendingHas(s.pools.pool.Keys, only);
      TallyOfOne(s.pools, ids, subnet, only);
      WalkTellsChain(s, log, u, subnet, only);
    } else {
      TallyOfNone(s.pools, ids, subnet);
    }
  }

  // ----- The sequencer's resume position -----

  /** What the worker continues from: a certificate and the block number it stands for. */
  datatype ResumePoint = ResumePoint(id: CertificateId, block: nat)

  /** worker.rs: the delivered head, or the last pending certificate counted from the head's position. */
  function Resume(head: Option<Head>, pending: Summary): Option<ResumePoint> {
    match pending.last
    case None => (match head case None => None case Some(h) => Some(ResumePoint(h.id, h.position)))
    case Some(c) => Some(ResumePoint(c.id, (match head case None => 0 case Some(h) => h.position) + pending.count))
  }

  function SourceHead(s: Store, subnet: SubnetId): Option<Head> {
    if subnet in s.tables.sourceList then Some(s.tables.sourceList[subnet]) else None
  }

  /** The block number is the depth unless certificates are pending before anything was delivered. */
  ghost predicate ResumesRight(u: Universe, subnet: SubnetId, head: Option<Head>, pending: Summary) {
    var resume := Resume(head, pending);
    && (resume.Some? ==> Of(u, resume.value.id, subnet))
    && (resume.None? <==> head.None? && pending.count == 0)
    && (resume.Some? ==>
          && (AtDepth(u, resume.value.id, resume.value.block) <==> head.Some? || pending.count == 0)
          && (head.None? ==> resume.value.block > 0 && AtDepth(u, resume.value.id, resume.value.block - 1)))
  }

  lemma {:induction false} HeadOfLog(s: Store, log: seq<CertificateDelivered>, u: Universe, subnet: SubnetId)
    requires Represents(s.tables, log) && KnownLog(log, u) && PositionsAreDepths(log, u, subnet)
    ensures SourceHead(s, subnet).Some? <==> Length(log, Source(subnet)) > 0
    ensures SourceHead(s, subnet).Some? ==>
              && SourceHead(s, subnet).value.position == Length(log, Source(subnet)) - 1
              && AtDepth(u, SourceHead(s, subnet).value.id, SourceHead(s, subnet).value.position)
              && Of(u, SourceHead(s, subnet).value.id, subnet)
  {
    var k := Source(subnet);
    assert LastByIndex(s.tables, k) == LastOfLength(Length(log, k));
    if subnet in s.tables.sourceList {
      var head := s.tables.sourceList[subnet];
      assert At(s.tables, k, head.position) == Some(head.id);
      StreamKnown(log, u, subnet, head.position);
    }
  }

  /**
   * Main result for restarts. After every run in which a subnet does not fork and submits a
   * certificate at most once, whatever others do, the resume point of the subnet is the last
   * certificate chained behind the delivered head, and its block number is that certificate's depth
   * exactly when something of the subnet is delivered or nothing of it is pending. Before the first
   * delivery the number of a pending certificate is one too high.
   */
  lemma {:induction false} ResumeIsDepth(validators: set<ValidatorId>, params: Params, u: Universe,
                                         actions: seq<TaskManager.Action>, subnet: SubnetId)
    requires ForkFree(u, subnet) && |u| <= MAX_U64 && AdmissibleRun(validators, params, u, subnet, actions)
    requires SubmitsOnce(validators, params, subnet, actions) && NoWrap(validators, params, actions)
    ensures var s := TaskManager.Exec(validators, params, actions).store;
            var head, pending := SourceHead(s, subnet), Tally(s.pools, PoolOrder(s.pools), subnet);
            && TellsChain(pending, s, Log(validators, params, actions), u, subnet)
            && ResumesRight(u, subnet, head, pending)
  {
    var s, log := TaskManager.Exec(validators, params, actions).store, Log(validators, params, actions);
    EveryForkFreeRun(validators, params, u, subnet, actions);
    EveryPendingRun(validators, params, u, subnet, actions);
    hide TaskManager.Exec, Log, PendInv, Represents, KnownLog;
    hide PositionsAreDepths, CausallyOrdered, Tally, AtDepth, SourceHead;
    TallyTellsChain(s, log, u, subnet);
    HeadOfLog(s, log, u, subnet);
    ResumeOf(s, log, u, subnet, SourceHead(s, subnet), Tally(s.pools, PoolOrder(s.pools), subnet));
  }

  lemma {:induction false} ResumeOf(s: Store, log: seq<CertificateDelivered>, u: Universe, subnet: SubnetId,
                                    head: Option<Head>, pending: Summary)
    requires TellsChain(pending, s, log, u, subnet)
    requires head.Some? <==> Length(log, Source(subnet)) > 0
    requires head.Some? ==> head.value.position == Length(log, Source(subnet)) - 1
    requires head.Some? ==> AtDepth(u, head.value.id, head.value.position) && Of(u, head.value.id, subnet)
    ensures ResumesRight(u, subnet, head, pending)
  {
    var n := Length(log, Source(subnet));
    hide AtDepth, Members;
    if pending.count > 0 && n == 0 {
      NotDeeper(u, pending.last.value.id, pending.count - 1);
    }
  }

  lemma NotDeeper(u: Universe, id: CertificateId, k: nat)
    requires AtDepth(u, id, k)
    ensures !AtDepth(u, id, k + 1)
  {
    if AtDepth(u, id, k + 1) {
      DepthUnique(u, id, k, k + 1);
    }
  }

  /**
   * The one case in which the resume block is wrong, for every first certificate: submitted and
   * not delivered, it is to be resumed from block one although its depth is zero.
   */
  lemma {:induction false} ResumeTooHigh(validators: set<ValidatorId>, params: Params, c: Certificate)
    requires c.prevId == INITIAL_CERTIFICATE_ID != c.id
    ensures var u: Universe, actions := map[c.id := c], [TaskManager.Submit(c)];
            var s := TaskManager.Exec(validators, params, actions).store;
            && ForkFree(u, c.source) && AdmissibleRun(validators, params, u, c.source, actions)
            && SubmitsOnce(validators, params, c.source, actions) && NoWrap(validators, params, actions)
            && AtDepth(u, c.id, 0)
            && Resume(SourceHead(s, c.source), Tally(s.pools, PoolOrder(s.pools), c.source)) ==
               Some(ResumePoint(c.id, 1))
  {
    FirstSubmission(validators, params, c);
    FirstCertificate(c);
    OnePending(c);
    ShortRunNoWrap(validators, params, [TaskManager.Submit(c)]);
    hide TaskManager.Exec, AdmissibleRun, SubmitsOnce, NoWrap, ForkFree, AtDepth, Tally, PoolOrder, AddToPool;
  }

  lemma FirstCertificate(c: Certificate)
    requires c.prevId == INITIAL_CERTIFICATE_ID != c.id
    ensures var u: Universe := map[c.id := c]; ForkFree(u, c.source) && AtDepth(u, c.id, 0) && Known(u, c)
  {
  }

  lemma {:induction false} FirstSubmission(validators: set<ValidatorId>, params: Params, c: Certificate)
    requires c.prevId == INITIAL_CERTIFICATE_ID != c.id
    ensures var u: Universe, actions := map[c.id := c], [TaskManager.Submit(c)];
            && AdmissibleRun(validators, params, u, c.source, actions)
            && SubmitsOnce(validators, params, c.source, actions)
            && TaskManager.Exec(validators, params, actions).store ==
               EMPTY_STORE.(pools := AddToPool(EMPTY_STORE.pools, c))
  {
    var actions := [TaskManager.Submit(c)];
    assert actions[..0] == [] && [] + actions == actions;
    ExecSnoc(validators, params, [], TaskManager.Submit(c));
    assert TaskManager.Exec(validators, params, []) == TaskManager.Init(validators, params);
    assert AdmissibleRun(validators, params, map[c.id := c], c.source, []);
    assert SubmitsOnce(validators, params, c.source, []);
    hide TaskManager.Exec;
  }

  lemma OnePending(c: Certificate)
    ensures var p := AddToPool(EMPTY_STORE.pools, c); Tally(p, PoolOrder(p), c.source) == Summary(1, Some(c))
  {
    var p := AddToPool(EMPTY_STORE.pools, c);
    assert p.pool.Keys == {0};
    assert Ascending({0}) == [0] by { assert {0} - {0} == {}; }
    assert PoolOrder(p) == [0] && [0][..0] == [];
    assert Chain(p.precedence, c) == [c];
  }

  // ----- A certificate that is submitted twice -----

  /**
   * For every first certificate: submitted twice and not delivered, it is counted twice, and is to be
   * resumed from block two.
   */
  lemma {:induction false} ResumeCountsTwice(validators: set<ValidatorId>, params: Params, c: Certificate)
    requires c.prevId == INITIAL_CERTIFICATE_ID
    ensures var s := TaskManager.Exec(validators, params, [TaskManager.Submit(c), TaskManager.Submit(c)]).store;
            && Tally(s.pools, PoolOrder(s.pools), c.source) == Summary(2, Some(c))
            && Resume(SourceHead(s, c.source), Tally(s.pools, PoolOrder(s.pools), c.source)) ==
               Some(ResumePoint(c.id, 2))
  {
    var a := TaskManager.Submit(c);
    assert [] + [a] == [a] && [a] + [a] == [a, a];
    ExecSnoc(validators, params, [], a);
    ExecSnoc(validators, params, [a], a);
    assert TaskManager.Exec(validators, params, []) == TaskManager.Init(validators, params);
    hide TaskManager.Exec;
    var p := AddToPool(AddToPool(EMPTY_STORE.pools, c), c);
    TwoPending(c);
    assert TaskManager.Exec(validators, params, [a, a]).store == EMPTY_STORE.(pools := p);
    hide Tally, PoolOrder, AddToPool;
  }

  lemma TwoPending(c: Certificate)
    ensures var p := AddToPool(AddToPool(EMPTY_STORE.pools, c), c);
            Tally(p, PoolOrder(p), c.source) == Summary(2, Some(c))
  {
    var p := AddToPool(AddToPool(EMPTY_STORE.pools, c), c);
    assert p.pool.Keys == {0, 1};
    AscendingRange({0, 1}, 2);
    var ids := PoolOrder(p);
    assert ids == [0, 1] && ids[..1] == [0] && ids[..1][..0] == [];
    assert Chain(p.precedence, c) == [c];
    assert Tally(p, ids[..1], c.source) == Summary(1, Some(c));
    assert Tally(p, ids, c.source) == Summary(2, Some(c));
  }
}
