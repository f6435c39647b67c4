/**
 * The pending walk follows the precedence pool until nobody waits. In every run of a validator it
 * ends; on the store alone, where anything may be delivered, exactly if no certificates precede
 * each other in a ring.
 */
module Walks {
  import opened Certificates
  import opened Quorum
  import opened FullNodeStore
  import opened TaskManager
  import opened NodeRuns
  import opened Chains
  import opened ForkFreeRuns
  import opened PendingRuns
  import V = ValidatorStore

  // ----- A walk that does not end goes round -----

  function Previous<T>(ring: seq<T>, i: nat): T
    requires i < |ring|
  {
    if i == 0 then ring[|ring| - 1] else ring[i - 1]
  }

  /** Each certificate follows the one before it, and the first one the last one. */
  ghost predicate Ring(u: Universe, ring: seq<CertificateId>) {
    && ring != []
    && (forall i, j :: 0 <= i < j < |ring| ==> ring[i] != ring[j])
    && (forall i :: 0 <= i < |ring| ==>
          && ring[i] in u && ring[i] != INITIAL_CERTIFICATE_ID
          && u[ring[i]].prevId == Previous(ring, i))
  }

  /** Along a walk all ids but the last one are different keys. */
  lemma {:induction false} WalkDistinct(precedence: map<CertificateId, Certificate>, c: Certificate, i: nat, j: nat)
    requires i < j < |V.Chain(precedence, c)| - 1
    ensures V.Chain(precedence, c)[i].id != V.Chain(precedence, c)[j].id
    ensures V.Chain(precedence, c)[j].id in precedence
    decreases |precedence|
  {
    V.Shrinks(precedence, c.id);
    var chain, tail := V.Chain(precedence, c), V.Chain(precedence - {c.id}, precedence[c.id]);
    assert chain == [c] + tail;
    if i > 0 {
      WalkDistinct(precedence - {c.id}, precedence[c.id], i - 1, j - 1);
    } else {
      V.ChainShape(precedence - {c.id}, precedence[c.id]);
      assert chain[j] == tail[j - 1];
    }
  }

  ghost function Ids(chain: seq<Certificate>): seq<CertificateId> {
    seq(|chain|, i requires 0 <= i < |chain| => chain[i].id)
  }

  /** The certificate at which an endless walk closes is the one it started from. */
  lemma {:induction false} WalkCloses(precedence: map<CertificateId, Certificate>, u: Universe, c: Certificate)
    requires Links(precedence, u) && Known(u, c) && !V.WalkEnds(precedence, c)
    ensures var chain := V.Chain(precedence, c); |chain| > 1 && chain[|chain| - 1] == c
  {
    var chain := V.Chain(precedence, c);
    var last := |chain| - 1;
    V.ChainShape(precedence, c);
    hide V.Chain;
    var x :| 0 <= x < last && chain[x].id == chain[last].id;
    assert precedence[chain[last - 1].id] == chain[last];
    if x > 0 {
      assert precedence[chain[x - 1].id] == chain[x];
      assert chain[x - 1].id == chain[last - 1].id;
      WalkDistinct(precedence, c, x - 1, last - 1);
    }
  }

  lemma EndlessIsRing(precedence: map<CertificateId, Certificate>, u: Universe, c: Certificate)
    returns (ring: seq<CertificateId>)
    requires Links(precedence, u) && Known(u, c) && !V.WalkEnds(precedence, c)
    ensures Ring(u, ring) && ring[0] == c.id
  {
    WalkCloses(precedence, u, c);
    var chain := V.Chain(precedence, c);
    V.ChainShape(precedence, c);
    ring := Ids(chain[..|chain| - 1]);
    forall i, j | 0 <= i < j < |ring| ensures ring[i] != ring[j] { WalkDistinct(precedence, c, i, j); }
    hide V.Chain;
    forall i | 0 <= i < |ring|
      ensures ring[i] in u && ring[i] != INITIAL_CERTIFICATE_ID
      ensures u[ring[i]].prevId == Previous(ring, i)
    {
      var before := if i == 0 then |ring| - 1 else i - 1;
      assert ring[i] == chain[i].id && ring[before] == chain[before].id;
      assert precedence[chain[before].id] == chain[before + 1];
    }
  }

  // ----- Every run of a validator -----

  /** Nothing on a ring is ever delivered: each one waits for the one before it. */
  lemma {:induction false} RingUndelivered(log: seq<CertificateDelivered>, u: Universe, ring: seq<CertificateId>,
                                           i: nat)
    requires KnownLog(log, u) && CausallyOrdered(log) && Ring(u, ring) && i < |ring|
    ensures ring[i] !in LogIds(log)
    decreases |log|
  {
    if log != [] {
      var before, d := log[..|log| - 1], log[|log| - 1];
      assert CausallyOrdered(before) by {
        forall j | 0 <= j < |before| ensures before[..j] == log[..j] && before[j] == log[j] {}
      }
      RingUndelivered(before, u, ring, i);
      RingUndelivered(before, u, ring, if i == 0 then |ring| - 1 else i - 1);
      assert u[ring[i]].prevId == Previous(ring, i);
      assert Known(u, d.certificate);
      assert log == before + [d];
    }
  }

  /** Waiting certificates are known and filed, pooled ones known and anchored. */
  ghost predicate Sorted(st: V.Store, u: Universe) {
    KnownPools(st.pools, u) && V.Filed(st.pools) && V.Anchored(st)
  }

  lemma InsertSorted(st: V.Store, u: Universe, c: Certificate)
    requires Sorted(st, u) && Known(u, c)
    ensures Sorted(V.InsertPending(st, c).store, u)
  {
  }

  lemma DeliverSorted(st: V.Store, u: Universe, d: CertificateDelivered)
    requires Sorted(st, u)
    ensures Sorted(V.Deliver(st, d).store, u)
  {
    hide Insert;
    if Insert(st.tables, d).Ok? {
      V.InsertGrows(st.tables, d);
      var left := V.Store(Insert(st.tables, d).value.tables, V.Unpool(st.pools, d.certificate.id));
      assert Sorted(left, u);
      hide Sorted;
      if d.certificate.id in left.pools.precedence {
        WaiterKnown(left, u, d.certificate.id);
        InsertSorted(left, u, left.pools.precedence[d.certificate.id]);
      }
    }
  }

  lemma WaiterKnown(st: V.Store, u: Universe, q: CertificateId)
    requires Sorted(st, u) && q in st.pools.precedence
    ensures Known(u, st.pools.precedence[q])
  {
  }

  ghost predicate KnownActions(u: Universe, actions: seq<Action>) {
    forall i :: 0 <= i < |actions| ==> KnownAction(u, actions[i])
  }

  ghost predicate KnownNode(n: Node, log: seq<CertificateDelivered>, u: Universe) {
    KnownTasks(n, u) && KnownLog(log, u) && Sorted(n.store, u)
  }

  lemma StepKnownNode(n: Node, log: seq<CertificateDelivered>, u: Universe, a: Action)
    requires TasksSound(n) && KnownNode(n, log, u) && KnownAction(u, a)
    ensures KnownNode(Step(n, a), log + Written(n, a), u)
  {
    StepStore(n, a);
    hide Step, Sorted, KnownTasks, V.InsertPending, V.Deliver, TasksSound, Known;
    FiledHere(n.store, u);
    StepKnown(n, u, a);
    if a.Submit? {
      InsertSorted(n.store, u, a.certificate);
    } else if a.Poll? && Persists(n, a.id) {
      DeliverSorted(n.store, u, Delivering(n, a.id));
    }
    WrittenKnown(n, u, a);
  }

  lemma FiledHere(st: V.Store, u: Universe)
    requires Sorted(st, u)
    ensures V.Filed(st.pools)
  {
  }

  lemma WrittenKnown(n: Node, u: Universe, a: Action)
    requires TasksSound(n) && KnownTasks(n, u)
    ensures KnownLog(Written(n, a), u)
  {
    if Written(n, a) != [] {
      WrittenProven(n, a);
      WrittenOne(n, a);
    }
  }

  lemma {:induction false} EveryKnownRun(validators: set<ValidatorId>, params: Params, u: Universe,
                                         actions: seq<Action>)
    requires KnownActions(u, actions)
    ensures KnownNode(Exec(validators, params, actions), Log(validators, params, actions), u)
  {
    if actions != [] {
      var before, last := actions[..|actions| - 1], actions[|actions| - 1];
      EveryKnownRun(validators, params, u, before);
      EveryRun(validators, params, before);
      assert KnownAction(u, last);
      hide KnownNode, Step, Written, KnownAction;
      StepKnownNode(Exec(validators, params, before), Log(validators, params, before), u, last);
    }
  }

  /**
   * In every run of a validator in which ids name certificates, with forks, repeated submissions
   * and certificates taken up again, the walk from every pooled certificate ends.
   */
  lemma {:induction false} EveryWalkEnds(validators: set<ValidatorId>, params: Params, u: Universe,
                                         actions: seq<Action>, i: nat)
    requires KnownActions(u, actions) && i in Exec(validators, params, actions).store.pools.pool
    ensures var p := Exec(validators, params, actions).store.pools; V.WalkEnds(p.precedence, p.pool[i])
  {
    var n, log := Exec(validators, params, actions), Log(validators, params, actions);
    EveryKnownRun(validators, params, u, actions);
    EveryRun(validators, params, actions);
    hide Exec, Log, KnownActions, V.WalkEnds, RunInv;
    LoggedOrder(n, log);
    PooledWalkEnds(n.store, log, u, i);
  }

  lemma LoggedOrder(n: Node, log: seq<CertificateDelivered>)
    requires RunInv(n, log)
    ensures CausallyOrdered(log) && n.store.tables.certificates.Keys == LogIds(log)
  {
  }

  lemma PooledWalkEnds(st: V.Store, log: seq<CertificateDelivered>, u: Universe, i: nat)
    requires Sorted(st, u) && KnownLog(log, u) && CausallyOrdered(log)
    requires st.tables.certificates.Keys == LogIds(log) && i in st.pools.pool
    ensures V.WalkEnds(st.pools.precedence, st.pools.pool[i])
  {
    var c := st.pools.pool[i];
    assert Links(st.pools.precedence, u) && Known(u, c) && V.PrevDelivered(st, c);
    hide V.WalkEnds, KnownLog, CausallyOrdered, Sorted;
    if !V.WalkEnds(st.pools.precedence, c) {
      var ring := EndlessIsRing(st.pools.precedence, u, c);
      RingUndelivered(log, u, ring, |ring| - 1);
    }
  }

  // ----- Every run of the store -----

  ghost predicate KnownSubmissions(u: Universe, actions: seq<V.Action>) {
    forall i :: 0 <= i < |actions| && actions[i].Submit? ==> Known(u, actions[i].certificate)
  }

  /** No pooled certificate names itself as its predecessor. */
  ghost predicate NoLoop(p: V.Pools) {
    forall i :: i in p.pool ==> p.pool[i].prevId != p.pool[i].id || p.pool[i].prevId == INITIAL_CERTIFICATE_ID
  }

  lemma StepNoLoop(st: V.Store, a: V.Action)
    requires NoLoop(st.pools)
    ensures NoLoop(V.Step(st, a).pools)
  {
    hide Insert;
  }

  lemma {:induction false} EveryStoreRun(u: Universe, actions: seq<V.Action>)
    requires KnownSubmissions(u, actions)
    ensures Sorted(V.Exec(actions), u) && NoLoop(V.Exec(actions).pools)
  {
    if actions != [] {
      var before, last := actions[..|actions| - 1], actions[|actions| - 1];
      EveryStoreRun(u, before);
      var st := V.Exec(before);
      StepNoLoop(st, last);
      hide Sorted, NoLoop, V.InsertPending, V.Deliver;
      match last
      case Submit(c) => InsertSorted(st, u, c);
      case Delivering(d) => DeliverSorted(st, u, d);
    }
  }

  ghost predicate RingFree(u: Universe) {
    forall ring: seq<CertificateId> :: Ring(u, ring) ==> |ring| == 1
  }

  lemma RingLink(u: Universe, ring: seq<CertificateId>, i: nat)
    requires Ring(u, ring) && i < |ring|
    ensures ring[i] in u && u[ring[i]].prevId == Previous(ring, i) != INITIAL_CERTIFICATE_ID
  {
  }

  /** Certificates that all have a depth are not on a ring. */
  lemma {:induction false} RingRises(u: Universe, ring: seq<CertificateId>, k: nat, i: nat)
    requires Ring(u, ring) && AtDepth(u, ring[0], k) && i < |ring|
    ensures AtDepth(u, ring[i], k + i)
  {
    hide Ring, AtDepth;
    if i > 0 {
      RingRises(u, ring, k, i - 1);
      RingLink(u, ring, i);
      SuccessorDepth(u, ring[i], k + i - 1);
    }
  }

  lemma {:induction false} DepthsAreRingFree(u: Universe)
    requires forall id :: id in u ==> exists k :: AtDepth(u, id, k)
    ensures RingFree(u)
  {
    hide Ring, AtDepth;
    forall ring: seq<CertificateId>
      ensures !Ring(u, ring)
    {
      if Ring(u, ring) {
        RingNotEmpty(u, ring);
        RingLink(u, ring, 0);
        var k: nat :| AtDepth(u, ring[0], k);
        RingHasNoDepth(u, ring, k);
      }
    }
  }

  lemma {:induction false} RingHasNoDepth(u: Universe, ring: seq<CertificateId>, k: nat)
    requires ring != [] && Ring(u, ring)
    ensures !AtDepth(u, ring[0], k)
  {
    hide Ring, AtDepth;
    if AtDepth(u, ring[0], k) {
      RingRises(u, ring, k, |ring| - 1);
      RingLink(u, ring, 0);
      SuccessorDepth(u, ring[0], k + |ring| - 1);
      DepthUnique(u, ring[0], k, k + |ring|);
    }
  }

  lemma {:induction false} RingFreeEnds(u: Universe, actions: seq<V.Action>, i: nat)
    requires RingFree(u) && KnownSubmissions(u, actions) && i in V.Exec(actions).pools.pool
    ensures V.WalkEnds(V.Exec(actions).pools.precedence, V.Exec(actions).pools.pool[i])
  {
    EveryStoreRun(u, actions);
    var p := V.Exec(actions).pools;
    var c := p.pool[i];
    assert Links(p.precedence, u) && Known(u, c);
    hide V.Exec, V.WalkEnds, Sorted;
    if !V.WalkEnds(p.precedence, c) {
      var ring := EndlessIsRing(p.precedence, u, c);
    }
  }

  // ----- A ring makes a walk endless -----

  /** All certificates of a ring are submitted. */
  ghost function SubmitAll(u: Universe, ring: seq<CertificateId>): seq<V.Action>
    requires forall i :: 0 <= i < |ring| ==> ring[i] in u
  {
    if ring == [] then []
    else SubmitAll(u, ring[..|ring| - 1]) + [V.Submit(u[ring[|ring| - 1]])]
  }

  lemma {:induction false} AllFiled(u: Universe, ring: seq<CertificateId>)
    requires forall i :: 0 <= i < |ring| ==>
               ring[i] in u && u[ring[i]].id == ring[i] && u[ring[i]].prevId != INITIAL_CERTIFICATE_ID
    requires forall i, j :: 0 <= i < j < |ring| ==> u[ring[i]].prevId != u[ring[j]].prevId
    ensures var st := V.Exec(SubmitAll(u, ring));
            && KnownSubmissions(u, SubmitAll(u, ring))
            && st.tables == EMPTY && st.pools.pool == map[] && st.pools.index == map[] && st.pools.nextPendingId == 0
            && forall i :: 0 <= i < |ring| ==>
                 u[ring[i]].prevId in st.pools.precedence && st.pools.precedence[u[ring[i]].prevId] == u[ring[i]]
  {
    if ring != [] {
      var before, last := ring[..|ring| - 1], ring[|ring| - 1];
      AllFiled(u, before);
      var some := SubmitAll(u, before);
      assert SubmitAll(u, ring)[..|some|] == some;
    }
  }

  lemma {:induction false} RingGoesOn(u: Universe, ring: seq<CertificateId>, precedence: map<CertificateId,
                                      Certificate>, i: nat, steps: nat)
    requires i < |ring| && forall j :: 0 <= j < |ring| ==>
               && ring[j] in u && u[ring[j]].id == ring[j]
               && Previous(ring, j) in precedence && precedence[Previous(ring, j)] == u[ring[j]]
    ensures var there := V.Follow(precedence, u[ring[i]], steps);
            there.Some? && there.value.id in ring && there.value.id in u && there.value == u[there.value.id]
  {
    if steps > 0 {
      RingGoesOn(u, ring, precedence, i, steps - 1);
      var c := V.Follow(precedence, u[ring[i]], steps - 1).value;
      var j :| 0 <= j < |ring| && ring[j] == c.id;
      var next := if j == |ring| - 1 then 0 else j + 1;
      assert c.id == Previous(ring, next) && precedence[c.id] == u[ring[next]];
    }
  }

  /** Some delivery of a first position. */
  ghost function FirstDelivery(c: Certificate): CertificateDelivered {
    CertificateDelivered(c, ProofOfDelivery(c.id, SourcePosition(c.source, 0), {}, 0))
  }

  lemma {:induction false} FirstInserted(c: Certificate)
    ensures Insert(EMPTY, FirstDelivery(c)).Ok?
  {
    var d := FirstDelivery(c);
    EmptyRepresentsNothing();
    InsertRefinesAppend(EMPTY, [], d);
  }

  /** After the submissions the first certificate of the ring is delivered, which pools the second one. */
  lemma RingPools(u: Universe, ring: seq<CertificateId>, st: V.Store)
    requires Ring(u, ring) && |ring| > 1 && forall i :: 0 <= i < |ring| ==> u[ring[i]].id == ring[i]
    requires st.tables == EMPTY && st.pools.pool == map[] && st.pools.index == map[] && st.pools.nextPendingId == 0
    requires ring[0] in st.pools.precedence && st.pools.precedence[ring[0]] == u[ring[1]]
    ensures var p := V.Deliver(st, FirstDelivery(u[ring[0]])).store.pools;
            0 in p.pool && p.pool[0] == u[ring[1]] && p.precedence == st.pools.precedence
  {
    var d := FirstDelivery(u[ring[0]]);
    FirstInserted(u[ring[0]]);
    V.InsertGrows(EMPTY, d);
    hide Insert;
    assert u[ring[1]].prevId == Previous(ring, 1) && u[ring[1]].id == ring[1] != ring[0];
  }

  lemma RingIsEndless(u: Universe, ring: seq<CertificateId>) returns (actions: seq<V.Action>)
    requires Ring(u, ring) && |ring| > 1 && forall id :: id in u ==> u[id].id == id
    ensures KnownSubmissions(u, actions) && 0 in V.Exec(actions).pools.pool
    ensures !V.WalkEnds(V.Exec(actions).pools.precedence, V.Exec(actions).pools.pool[0])
  {
    RingDiffers(u, ring);
    AllFiled(u, ring);
    var submits, last := SubmitAll(u, ring), V.Delivering(FirstDelivery(u[ring[0]]));
    var st := V.Exec(submits);
    actions := submits + [last];
    assert actions[..|submits|] == submits;
    assert u[ring[1]].prevId == Previous(ring, 1);
    RingPools(u, ring, st);
    var p := V.Exec(actions).pools;
    assert p == V.Deliver(st, FirstDelivery(u[ring[0]])).store.pools;
    hide V.Exec, V.Deliver, V.Step, SubmitAll, V.WalkEnds;
    forall j | 0 <= j < |ring|
      ensures Previous(ring, j) in p.precedence && p.precedence[Previous(ring, j)] == u[ring[j]]
    {
      assert u[ring[j]].prevId == Previous(ring, j);
    }
    forall steps: nat
      ensures V.Follow(p.precedence, p.pool[0], steps).Some?
    {
      RingGoesOn(u, ring, p.precedence, 1, steps);
    }
    V.WalkEndsIff(p.precedence, p.pool[0]);
  }

  lemma RingDiffers(u: Universe, ring: seq<CertificateId>)
    requires Ring(u, ring)
    ensures forall i, j :: 0 <= i < j < |ring| ==> u[ring[i]].prevId != u[ring[j]].prevId
    ensures forall i :: 0 <= i < |ring| ==> u[ring[i]].prevId != INITIAL_CERTIFICATE_ID
  {
    forall i | 0 <= i < |ring|
      ensures u[ring[i]].prevId == Previous(ring, i) != INITIAL_CERTIFICATE_ID
    {
    }
    forall i, j | 0 <= i < j < |ring|
      ensures Previous(ring, i) != Previous(ring, j)
    {
    }
  }

  /**
   * On the store alone: whatever is submitted of `u`, how often, in whatever order, and whatever is
   * delivered, the walks end if and only if no two or more certificates precede each other in a ring.
   */
  lemma {:induction false} WalksEndIffRingFree(u: Universe)
    requires forall id :: id in u ==> u[id].id == id
    ensures (forall actions, i :: KnownSubmissions(u, actions) && i in V.Exec(actions).pools.pool ==>
               V.WalkEnds(V.Exec(actions).pools.precedence, V.Exec(actions).pools.pool[i]))
            <==> RingFree(u)
  {
    hide V.Exec, V.WalkEnds, Ring;
    if RingFree(u) {
      forall actions, i | KnownSubmissions(u, actions) && i in V.Exec(actions).pools.pool
        ensures V.WalkEnds(V.Exec(actions).pools.precedence, V.Exec(actions).pools.pool[i])
      {
        RingFreeEnds(u, actions, i);
      }
    } else {
      var ring :| Ring(u, ring) && |ring| != 1;
      RingNotEmpty(u, ring);
      var actions := RingIsEndless(u, ring);
      assert 0 in V.Exec(actions).pools.pool;
    }
  }

  lemma RingNotEmpty(u: Universe, ring: seq<CertificateId>)
    requires Ring(u, ring)
    ensures |ring| >= 1
  {
  }
}
