/** The pending and precedence pools in front of the delivered tables (validator/mod.rs). */
module ValidatorStore {
  import opened Wrappers
  import opened Certificates
  import opened FullNodeStore

  datatype Pools = Pools(
    nextPendingId: nat,
    pool: map<nat, Certificate>,
    index: map<CertificateId, nat>,
    precedence: map<CertificateId, Certificate>)

  datatype Store = Store(tables: Tables, pools: Pools)

  const EMPTY_STORE := Store(EMPTY, Pools(0, map[], map[], map[]))

  datatype Pended = Pended(store: Store, result: Result<Option<nat>, StorageError>)
  datatype Delivery = Delivery(store: Store, result: Result<CertificatePositions, StorageError>)

  predicate IsDelivered(s: Store, id: CertificateId) {
    id in s.tables.certificates
  }

  /** `fetch_add(1)` on a 64-bit counter. */
  function Bump(id: nat): nat {
    if id < MAX_U64 then id + 1 else 0
  }

  function AddToPool(p: Pools, c: Certificate): Pools {
    p.(nextPendingId := Bump(p.nextPendingId),
       pool := p.pool[p.nextPendingId := c],
       index := p.index[c.id := p.nextPendingId])
  }

  predicate PrevDelivered(s: Store, c: Certificate) {
    c.prevId == INITIAL_CERTIFICATE_ID || IsDelivered(s, c.prevId)
  }

  /** `insert_pending_certificate`. */
  function InsertPending(s: Store, c: Certificate): Pended {
    if IsDelivered(s, c.id) then
      Pended(s, Err(CertificateAlreadyExists))
    else if PrevDelivered(s, c) then
      Pended(s.(pools := AddToPool(s.pools, c)), Ok(Some(s.pools.nextPendingId)))
    else
      Pended(s.(pools := s.pools.(precedence := s.pools.precedence[c.prevId := c])), Ok(None))
  }

  /** The delivered certificate leaves the pool under the pending id the index gives. */
  function Unpool(p: Pools, id: CertificateId): Pools {
    if id in p.index then p.(pool := p.pool - {p.index[id]}) else p
  }

  /** The successor filed under a delivered certificate is submitted again. */
  function Promote(left: Store, id: CertificateId, positions: CertificatePositions): Delivery {
    if id in left.pools.precedence then
      var promoted := InsertPending(left, left.pools.precedence[id]);
      match promoted.result
      case Ok(_) => Delivery(promoted.store, Ok(positions))
      case Err(e) => Delivery(promoted.store, Err(e))
    else
      Delivery(left, Ok(positions))
  }

  /** `ValidatorStore::insert_certificate_delivered`. */
  function Deliver(s: Store, d: CertificateDelivered): Delivery {
    match Insert(s.tables, d)
    case Err(e) => Delivery(s, Err(e))
    case Ok(inserted) =>
      Promote(Store(inserted.tables, Unpool(s.pools, d.certificate.id)), d.certificate.id, inserted.positions)
  }

  /** Chain of waiting certificates that starts at `c`: the pending walk, key by key. */
  function Chain(precedence: map<CertificateId, Certificate>, c: Certificate): (chain: seq<Certificate>)
    ensures |chain| > 0 && chain[0] == c
    decreases |precedence|
  {
    if c.id in precedence then
      Shrinks(precedence, c.id);
      [c] + Chain(precedence - {c.id}, precedence[c.id])
    else [c]
  }

  lemma Shrinks<K, V>(m: map<K, V>, k: K)
    requires k in m
    ensures |m - {k}| < |m|
  {
    assert (m - {k}).Keys == m.Keys - {k};
    assert |(m - {k}).Keys| == |m - {k}|;
  }

  /** Where the walk is after some steps; `None` once it has ended. */
  function Follow(precedence: map<CertificateId, Certificate>, start: Certificate, steps: nat): Option<Certificate> {
    if steps == 0 then Some(start)
    else
      match Follow(precedence, start, steps - 1)
      case None => None
      case Some(c) => if c.id in precedence then Some(precedence[c.id]) else None
  }

  /** The walk from `start` comes to a certificate that nobody waits for. */
  predicate WalkEnds(precedence: map<CertificateId, Certificate>, start: Certificate) {
    var chain := Chain(precedence, start);
    chain[|chain| - 1].id !in precedence
  }

  /** Each certificate of a chain waits for the one before it; a last one that is waited for closes a cycle. */
  lemma {:induction false} ChainShape(precedence: map<CertificateId, Certificate>, c: Certificate)
    ensures var chain := Chain(precedence, c);
            && (forall i :: 0 <= i < |chain| - 1 ==>
                  chain[i].id in precedence && precedence[chain[i].id] == chain[i + 1])
            && (chain[|chain| - 1].id in precedence ==>
                  exists i :: 0 <= i < |chain| - 1 && chain[i].id == chain[|chain| - 1].id)
    decreases |precedence|
  {
    if c.id in precedence {
      Shrinks(precedence, c.id);
      var chain, tail := Chain(precedence, c), Chain(precedence - {c.id}, precedence[c.id]);
      ChainShape(precedence - {c.id}, precedence[c.id]);
      assert chain == [c] + tail;
      if chain[|chain| - 1].id in precedence - {c.id} {
        var i :| 0 <= i < |tail| - 1 && tail[i].id == tail[|tail| - 1].id;
        assert chain[i + 1].id == chain[|chain| - 1].id;
      } else if chain[|chain| - 1].id in precedence {
        assert chain[0].id == chain[|chain| - 1].id;
      }
    }
  }

  lemma {:induction false} FollowsChain(precedence: map<CertificateId, Certificate>, start: Certificate, steps: nat)
    requires steps < |Chain(precedence, start)|
    ensures Follow(precedence, start, steps) == Some(Chain(precedence, start)[steps])
  {
    ChainShape(precedence, start);
    if steps > 0 {
      FollowsChain(precedence, start, steps - 1);
    }
  }

  lemma {:induction false} CycleGoesOn(precedence: map<CertificateId, Certificate>, start: Certificate, steps: nat)
    requires !WalkEnds(precedence, start)
    ensures Follow(precedence, start, steps).Some? && Follow(precedence, start, steps).value in Chain(precedence, start)
  {
    var chain := Chain(precedence, start);
    ChainShape(precedence, start);
    if steps > 0 {
      CycleGoesOn(precedence, start, steps - 1);
      var c := Follow(precedence, start, steps - 1).value;
      var i :| 0 <= i < |chain| && chain[i] == c;
      if i == |chain| - 1 {
        var k :| 0 <= k < |chain| - 1 && chain[k].id == chain[|chain| - 1].id;
        assert precedence[c.id] == chain[k + 1];
      } else {
        assert precedence[c.id] == chain[i + 1];
      }
    }
  }

  /** The source's loop ends exactly on the condition the walking methods ask for. */
  lemma {:induction false} WalkEndsIff(precedence: map<CertificateId, Certificate>, start: Certificate)
    ensures WalkEnds(precedence, start) <==> exists steps :: Follow(precedence, start, steps).None?
  {
    var chain := Chain(precedence, start);
    if WalkEnds(precedence, start) {
      FollowsChain(precedence, start, |chain| - 1);
      assert Follow(precedence, start, |chain|).None?;
    } else {
      forall steps: nat ensures Follow(precedence, start, steps).Some? { CycleGoesOn(precedence, start, steps); }
    }
  }

  datatype Summary = Summary(count: nat, last: Option<Certificate>)

  /** Pending certificates of a subnet over the pool entries `ids`, in iteration order. */
  function Tally(p: Pools, ids: seq<nat>, subnet: SubnetId): Summary
    requires forall i :: 0 <= i < |ids| ==> ids[i] in p.pool
  {
    if ids == [] then Summary(0, None)
    else
      var before, c := Tally(p, ids[..|ids| - 1], subnet), p.pool[ids[|ids| - 1]];
      if c.source == subnet then
        var chain := Chain(p.precedence, c);
        Summary(before.count + |chain|, Some(chain[|chain| - 1]))
      else before
  }

  function Sum(counts: seq<nat>): nat {
    if counts == [] then 0 else Sum(counts[..|counts| - 1]) + counts[|counts| - 1]
  }

  /** The chain lengths of the subnet's entries, and zero for those of others. */
  function ChainLengths(p: Pools, ids: seq<nat>, subnet: SubnetId): seq<nat>
    requires forall i :: 0 <= i < |ids| ==> ids[i] in p.pool
  {
    seq(|ids|, i requires 0 <= i < |ids| =>
      var c := p.pool[ids[i]]; if c.source == subnet then |Chain(p.precedence, c)| else 0)
  }

  /**
   * However many entries a subnet has, of the same certificate or not: the lengths of their chains
   * add up, and the last entry in iteration order names the last certificate.
   */
  lemma {:induction false} TallyAddsUp(p: Pools, ids: seq<nat>, subnet: SubnetId)
    requires forall i :: 0 <= i < |ids| ==> ids[i] in p.pool
    ensures var t := Tally(p, ids, subnet);
            && t.count == Sum(ChainLengths(p, ids, subnet))
            && (t.last.None? <==> forall i :: 0 <= i < |ids| ==> p.pool[ids[i]].source != subnet)
            && forall j :: 0 <= j < |ids| && p.pool[ids[j]].source == subnet
                           && (forall i :: j < i < |ids| ==> p.pool[ids[i]].source != subnet) ==>
                 var chain := Chain(p.precedence, p.pool[ids[j]]); t.last == Some(chain[|chain| - 1])
  {
    if ids != [] {
      var before, last := ids[..|ids| - 1], ids[|ids| - 1];
      TallyAddsUp(p, before, subnet);
      hide Chain;
      var lengths := ChainLengths(p, ids, subnet);
      assert lengths[..|ids| - 1] == ChainLengths(p, before, subnet);
      assert ids == before + [last];
      forall j | 0 <= j < |ids| && p.pool[ids[j]].source == subnet
                 && (forall i :: j < i < |ids| ==> p.pool[ids[i]].source != subnet)
        ensures var chain := Chain(p.precedence, p.pool[ids[j]]);
                Tally(p, ids, subnet).last == Some(chain[|chain| - 1])
      {
        if j < |before| {
          assert p.pool[ids[|ids| - 1]].source != subnet;
          assert forall i :: j < i < |before| ==> p.pool[before[i]].source != subnet by {
            forall i | j < i < |before| ensures p.pool[before[i]].source != subnet { assert before[i] == ids[i]; }
          }
          assert before[j] == ids[j];
        }
      }
    }
  }

  /** The result before the walk: an empty summary for every requested subnet. */
  function Zeros(subnets: seq<SubnetId>): (m: map<SubnetId, Summary>)
    ensures m.Keys == set s | s in subnets
    ensures forall s :: s in m ==> m[s] == Summary(0, None)
  {
    if subnets == [] then map[]
    else Zeros(subnets[..|subnets| - 1])[subnets[|subnets| - 1] := Summary(0, None)]
  }

  /** The store object. */
  class ValidatorStore {
    const fullnode: FullNodeStore
    var nextPendingId: nat
    var pool: map<nat, Certificate>
    var index: map<CertificateId, nat>
    var precedence: map<CertificateId, Certificate>

    function View(): Store
      reads this, fullnode
    {
      Store(fullnode.tables, Pools(nextPendingId, pool, index, precedence))
    }

    constructor ()
      ensures View() == EMPTY_STORE && fresh(fullnode)
    {
      fullnode := new FullNodeStore();
      nextPendingId := 0;
      pool, index, precedence := map[], map[], map[];
    }

    method InsertPendingCertificate(c: Certificate) returns (r: Result<Option<nat>, StorageError>)
      modifies this
      ensures Pended(View(), r) == InsertPending(old(View()), c)
    {
      if c.id in fullnode.tables.certificates {
        return Err(CertificateAlreadyExists);
      }
      var prevDelivered := c.prevId == INITIAL_CERTIFICATE_ID || c.prevId in fullnode.tables.certificates;
      if prevDelivered {
        var id := nextPendingId;
        nextPendingId := Bump(id);
        pool := pool[id := c];
        index := index[c.id := id];
        r := Ok(Some(id));
      } else {
        precedence := precedence[c.prevId := c];
        r := Ok(None);
      }
    }

    method InsertCertificateDelivered(d: CertificateDelivered) returns (r: Result<CertificatePositions, StorageError>)
      modifies this, fullnode
      ensures Delivery(View(), r) == Deliver(old(View()), d)
    {
      var positions := fullnode.InsertCertificateDelivered(d);
      if positions.Err? {
        return positions;
      }
      if d.certificate.id in index {
        pool := pool - {index[d.certificate.id]};
      }
      if d.certificate.id in precedence {
        var promoted := InsertPendingCertificate(precedence[d.certificate.id]);
        if promoted.Err? {
          return Err(promoted.error);
        }
      }
      r := positions;
    }

    /** Follows the precedence pool from one pooled certificate to the end of its chain. */
    method WalkPrecedence(start: Certificate) returns (count: nat, latest: Certificate)
      requires WalkEnds(precedence, start)
      ensures var chain := Chain(precedence, start);
              count == |chain| && latest == chain[|chain| - 1]
    {
      latest, count := start, 1;
      ghost var left, whole := precedence, Chain(precedence, start);
      while latest.id in precedence
        invariant left.Keys <= precedence.Keys && forall p :: p in left ==> left[p] == precedence[p]
        invariant var rest := Chain(left, latest);
                  |whole| == count - 1 + |rest| && whole[|whole| - 1] == rest[|rest| - 1]
        decreases |left|
      {
        assert latest.id in left;
        Shrinks(left, latest.id);
        var next := precedence[latest.id];
        left := left - {latest.id};
        latest := next;
        count := count + 1;
      }
      assert latest.id !in left;
    }

    method GetPendingCertificatesForSubnets(subnets: seq<SubnetId>) returns (result: map<SubnetId, Summary>)
      requires forall i :: i in pool && pool[i].source in subnets ==> WalkEnds(precedence, pool[i])
      ensures result.Keys == set s | s in subnets
      ensures forall i :: 0 <= i < |Ascending(pool.Keys)| ==> Ascending(pool.Keys)[i] in pool
      ensures forall s :: s in subnets ==> result[s] == Tally(View().pools, Ascending(pool.Keys), s)
    {
      hide Chain, WalkEnds, Ascending;
      result := Zeros(subnets);
      var ids := Ascending(pool.Keys);
      forall i | 0 <= i < |ids| ensures ids[i] in pool { AscendingMember(pool.Keys, i); }
      for i := 0 to |ids|
        invariant result.Keys == set s | s in subnets
        invariant forall s :: s in subnets ==> result[s] == Tally(View().pools, ids[..i], s)
      {
        assert ids[..i + 1][..i] == ids[..i];
        var c := pool[ids[i]];
        if c.source in subnets {
          var count, latest := WalkPrecedence(c);
          result := result[c.source := Summary(result[c.source].count + count, Some(latest))];
        }
      }
      assert ids[..|ids|] == ids;
    }
  }

  lemma {:induction false} AscendingMember(s: set<nat>, i: nat)
    requires i < |Ascending(s)|
    ensures Ascending(s)[i] in s
    decreases |s|
  {
    if i < |Ascending(s)| - 1 {
      AscendingMember(s - {Max(s)}, i);
    }
  }

  // ----- What every run of submissions and deliveries keeps -----

  /** Pending ids in use are below the counter, and the index never points at another certificate. */
  ghost predicate IdsSound(p: Pools) {
    && (forall i :: i in p.pool ==> i < p.nextPendingId && p.pool[i].id in p.index)
    && (forall x :: x in p.index ==> p.index[x] < p.nextPendingId)
    && (forall x :: x in p.index && p.index[x] in p.pool ==> p.pool[p.index[x]].id == x)
  }

  /** Pooled certificates may be broadcast: their predecessor is delivered or they have none. */
  ghost predicate Anchored(s: Store) {
    forall i :: i in s.pools.pool ==> PrevDelivered(s, s.pools.pool[i])
  }

  /** Waiting certificates are filed under their predecessor. */
  ghost predicate Filed(p: Pools) {
    forall q :: q in p.precedence ==> p.precedence[q].prevId == q && q != INITIAL_CERTIFICATE_ID
  }

  ghost predicate Pooled(p: Pools, c: Certificate) {
    exists i :: i in p.pool && p.pool[i] == c
  }

  /** Nobody waits for a delivered predecessor: the certificate is pooled or delivered itself. */
  ghost predicate Promoted(s: Store) {
    forall q :: q in s.pools.precedence && IsDelivered(s, q) ==>
      IsDelivered(s, s.pools.precedence[q].id) || Pooled(s.pools, s.pools.precedence[q])
  }

  ghost predicate PoolInv(s: Store) {
    IdsSound(s.pools) && Anchored(s) && Filed(s.pools) && Promoted(s)
  }

  /** The id counter has started again from zero. */
  predicate Wraps(s: Store, s': Store) {
    s'.pools.nextPendingId < s.pools.nextPendingId
  }

  lemma AddKeepsIds(p: Pools, c: Certificate)
    requires IdsSound(p) && p.nextPendingId < MAX_U64
    ensures IdsSound(AddToPool(p, c))
  {
  }

  lemma AddKeepsPooled(p: Pools, c: Certificate, other: Certificate)
    requires IdsSound(p) && (Pooled(p, other) || other == c)
    ensures Pooled(AddToPool(p, c), other)
  {
    var p' := AddToPool(p, c);
    if other == c {
      assert p'.pool[p.nextPendingId] == c;
    } else {
      var i :| i in p.pool && p.pool[i] == other;
      assert p'.pool[i] == other;
    }
  }

  lemma AddKeepsPromoted(s: Store, c: Certificate)
    requires IdsSound(s.pools) && Promoted(s)
    ensures Promoted(s.(pools := AddToPool(s.pools, c)))
  {
    var s' := s.(pools := AddToPool(s.pools, c));
    forall q | q in s'.pools.precedence && IsDelivered(s', q) && !IsDelivered(s', s'.pools.precedence[q].id)
      ensures Pooled(s'.pools, s'.pools.precedence[q])
    {
      AddKeepsPooled(s.pools, c, s.pools.precedence[q]);
    }
  }

  lemma InsertPendingKeeps(s: Store, c: Certificate)
    requires PoolInv(s) && !Wraps(s, InsertPending(s, c).store)
    ensures PoolInv(InsertPending(s, c).store)
  {
    if !IsDelivered(s, c.id) && PrevDelivered(s, c) {
      AddKeepsIds(s.pools, c);
      AddKeepsPromoted(s, c);
    }
  }

  /** Everything but the entry of the delivered certificate stays in the pool. */
  lemma UnpoolKeepsOthers(p: Pools, id: CertificateId, i: nat)
    requires IdsSound(p) && i in p.pool && p.pool[i].id != id
    ensures i in Unpool(p, id).pool && Unpool(p, id).pool[i] == p.pool[i]
  {
  }

  /** After the removal only the successor filed under the delivered id still waits. */
  ghost predicate PromotedBut(s: Store, id: CertificateId) {
    forall q :: q in s.pools.precedence && IsDelivered(s, q) && q != id ==>
      IsDelivered(s, s.pools.precedence[q].id) || Pooled(s.pools, s.pools.precedence[q])
  }

  lemma UnpoolKeeps(s: Store, tables: Tables, id: CertificateId)
    requires PoolInv(s) && tables.certificates.Keys == s.tables.certificates.Keys + {id}
    ensures var left := Store(tables, Unpool(s.pools, id));
            IdsSound(left.pools) && Anchored(left) && Filed(left.pools) && PromotedBut(left, id)
  {
    var left := Store(tables, Unpool(s.pools, id));
    forall q | && q in left.pools.precedence && IsDelivered(left, q) && q != id
               && !IsDelivered(left, left.pools.precedence[q].id)
      ensures Pooled(left.pools, left.pools.precedence[q])
    {
      var i :| i in s.pools.pool && s.pools.pool[i] == s.pools.precedence[q];
      UnpoolKeepsOthers(s.pools, id, i);
    }
  }

  lemma PromoteKeeps(left: Store, id: CertificateId)
    requires IdsSound(left.pools) && Anchored(left) && Filed(left.pools) && PromotedBut(left, id)
    requires IsDelivered(left, id) && id in left.pools.precedence
    requires !Wraps(left, InsertPending(left, left.pools.precedence[id]).store)
    ensures PoolInv(InsertPending(left, left.pools.precedence[id]).store)
  {
    var c := left.pools.precedence[id];
    var s' := InsertPending(left, c).store;
    if !IsDelivered(left, c.id) {
      AddKeepsIds(left.pools, c);
      forall q | q in s'.pools.precedence && IsDelivered(s', q) && !IsDelivered(s', s'.pools.precedence[q].id)
        ensures Pooled(s'.pools, s'.pools.precedence[q])
      {
        AddKeepsPooled(left.pools, c, left.pools.precedence[q]);
      }
    }
  }

  lemma InsertGrows(t: Tables, d: CertificateDelivered)
    requires Insert(t, d).Ok?
    ensures Insert(t, d).value.tables.certificates == t.certificates[d.certificate.id := d]
  {
  }

  lemma DeliverKeeps(s: Store, d: CertificateDelivered)
    requires PoolInv(s) && !Wraps(s, Deliver(s, d).store)
    ensures PoolInv(Deliver(s, d).store)
  {
    if Insert(s.tables, d).Ok? {
      var id := d.certificate.id;
      var tables := Insert(s.tables, d).value.tables;
      InsertGrows(s.tables, d);
      UnpoolKeeps(s, tables, id);
      var left := Store(tables, Unpool(s.pools, id));
      if id in left.pools.precedence {
        PromoteKeeps(left, id);
      }
    }
  }

  datatype Action = Submit(certificate: Certificate) | Delivering(delivered: CertificateDelivered)

  function Step(s: Store, a: Action): Store {
    match a
    case Submit(c) => InsertPending(s, c).store
    case Delivering(d) => Deliver(s, d).store
  }

  function Exec(actions: seq<Action>): Store {
    if actions == [] then EMPTY_STORE
    else Step(Exec(actions[..|actions| - 1]), actions[|actions| - 1])
  }

  /** The id counter did not start again from zero. */
  ghost predicate Unwrapped(actions: seq<Action>) {
    actions != [] ==> Unwrapped(actions[..|actions| - 1]) && !Wraps(Exec(actions[..|actions| - 1]), Exec(actions))
  }

  lemma StepBumps(s: Store, a: Action)
    requires s.pools.nextPendingId < MAX_U64
    ensures s.pools.nextPendingId <= Step(s, a).pools.nextPendingId <= s.pools.nextPendingId + 1
  {
    hide Insert;
  }

  lemma {:induction false} ShortUnwrapped(actions: seq<Action>)
    requires |actions| <= MAX_U64
    ensures Unwrapped(actions) && Exec(actions).pools.nextPendingId <= |actions|
  {
    if actions != [] {
      ShortUnwrapped(actions[..|actions| - 1]);
      StepBumps(Exec(actions[..|actions| - 1]), actions[|actions| - 1]);
      hide Step;
    }
  }

  /** The pool invariant holds after every run, as long as the id counter has not wrapped. */
  lemma {:induction false} PoolInvAlways(actions: seq<Action>)
    requires Unwrapped(actions)
    ensures PoolInv(Exec(actions))
  {
    if actions != [] {
      var before, last := Exec(actions[..|actions| - 1]), actions[|actions| - 1];
      PoolInvAlways(actions[..|actions| - 1]);
      hide PoolInv, InsertPending, Deliver;
      match last
      case Submit(c) => InsertPendingKeeps(before, c);
      case Delivering(d) => DeliverKeeps(before, d);
    }
  }

  /** What a submission answers: refused if delivered, else a pending id nobody has, or a place to wait. */
  lemma {:induction false} SubmissionAnswer(actions: seq<Action>, c: Certificate)
    requires Unwrapped(actions)
    ensures var s := Exec(actions);
            var after := InsertPending(s, c);
            && (after.result.Err? <==> IsDelivered(s, c.id))
            && (after.result.Err? ==> after.store == s)
            && (after.result.Ok? && after.result.value.Some? ==>
                  var id := after.result.value.value;
                  && id == s.pools.nextPendingId && id !in s.pools.pool && PrevDelivered(s, c)
                  && after.store == s.(pools := Pools(if id < MAX_U64 then id + 1 else 0, s.pools.pool[id := c],
                                                      s.pools.index[c.id := id], s.pools.precedence)))
            && (after.result.Ok? && after.result.value.None? ==>
                  && !PrevDelivered(s, c)
                  && after.store == s.(pools := s.pools.(precedence := s.pools.precedence[c.prevId := c])))
  {
    PoolInvAlways(actions);
    hide Exec, Unwrapped, Anchored, Promoted, Filed;
  }

  /** The tables are written by the full node store alone; a success implies they were. */
  lemma DeliverTables(s: Store, d: CertificateDelivered)
    ensures var r := Insert(s.tables, d);
            && Deliver(s, d).store.tables == (if r.Ok? then r.value.tables else s.tables)
            && (Deliver(s, d).result.Ok? ==> r.Ok?)
  {
    hide Insert;
  }

  /** Some successor waits for the certificate and is delivered already, or is the certificate itself. */
  ghost predicate StaleSuccessor(s: Store, log: seq<CertificateDelivered>, id: CertificateId) {
    id in s.pools.precedence && s.pools.precedence[id].id in LogIds(log) + {id}
  }

  /**
   * What a delivery answers: an error of the tables, which change nothing, or that the successor exists
   * already, or the positions that the certificate has taken in its source and target streams.
   */
  lemma DeliverAnswers(s: Store, log: seq<CertificateDelivered>, d: CertificateDelivered)
    requires Represents(s.tables, log)
    ensures var r, at, c := Deliver(s, d).result, d.proof.deliveryPosition, d.certificate;
            var taken, full := at.position < Length(log, Source(at.subnet)), TargetFull(log, c);
            && (r.Err? <==> taken || full || StaleSuccessor(s, log, c.id))
            && (r.Err? ==> r.error == if taken then PositionTaken(at) else if full then MaximumPositionReached(c.source)
                                      else CertificateAlreadyExists)
            && (taken || full ==> Deliver(s, d).store == s)
            && (r.Ok? ==>
                  && r.value.source == at
                  && (forall x :: x in r.value.targets <==> x in c.targets)
                  && forall x :: x in r.value.targets ==>
                       r.value.targets[x] == TargetPosition(x, c.source, Length(log, Target(x, c.source))))
  {
    hide Insert, Deliver, Represents, TargetFull, Members, LogIds;
    InsertRefinesAppend(s.tables, log, d);
    DeliverResult(s, d);
    LogKeys(s.tables, log);
    if Insert(s.tables, d).Ok? {
      InsertReports(s.tables, log, d);
    }
  }

  /** The successor that a delivery promotes: it waits for the certificate and is not delivered. */
  ghost predicate Promotes(s: Store, log: seq<CertificateDelivered>, id: CertificateId) {
    id in s.pools.precedence && s.pools.precedence[id].id !in LogIds(log) + {id}
  }

  /**
   * What an accepted delivery does to the pools: the entry the index names goes, and the successor, if
   * one is promoted, is pooled under the next pending id. Nothing else changes.
   */
  lemma DeliverEffects(s: Store, log: seq<CertificateDelivered>, d: CertificateDelivered)
    requires Represents(s.tables, log) && Filed(s.pools) && Insert(s.tables, d).Ok?
    ensures var p, p', id := s.pools, Deliver(s, d).store.pools, d.certificate.id;
            var left := if id in p.index then p.pool - {p.index[id]} else p.pool;
            if Promotes(s, log, id) then
              var c, next := p.precedence[id], p.nextPendingId;
              p' == Pools(if next < MAX_U64 then next + 1 else 0, left[next := c], p.index[c.id := next], p.precedence)
            else p' == p.(pool := left)
  {
    LogKeys(s.tables, log);
    InsertGrows(s.tables, d);
    hide Insert, Represents, LogIds;
  }

  lemma LogKeys(t: Tables, log: seq<CertificateDelivered>)
    requires Represents(t, log)
    ensures t.certificates.Keys == LogIds(log)
  {
  }

  /** The answer of the tables, unless the promotion of the successor fails. */
  lemma DeliverResult(s: Store, d: CertificateDelivered)
    ensures var r, id := Insert(s.tables, d), d.certificate.id;
            && (r.Err? ==> Deliver(s, d) == Delivery(s, Err(r.error)))
            && (r.Ok? ==> Deliver(s, d).result ==
                          if id in s.pools.precedence && s.pools.precedence[id].id in s.tables.certificates.Keys + {id}
                          then Err(CertificateAlreadyExists) else Ok(r.value.positions))
  {
    hide Insert;
    if Insert(s.tables, d).Ok? {
      InsertGrows(s.tables, d);
    }
  }

  lemma PromotePool(left: Store, id: CertificateId, positions: CertificatePositions)
    requires IsDelivered(left, id)
    ensures var after := Promote(left, id, positions).store.pools.pool;
            || after == left.pools.pool
            || (&& id in left.pools.precedence && left.pools.precedence[id].id != id
                && after == left.pools.pool[left.pools.nextPendingId := left.pools.precedence[id]])
  {
  }

  /** The precedence pool only ever gains the certificate that was submitted. */
  lemma WaitersOfInsert(s: Store, c: Certificate)
    ensures var p' := InsertPending(s, c).store.pools.precedence;
            p' == s.pools.precedence
            || (c.prevId != INITIAL_CERTIFICATE_ID && p' == s.pools.precedence[c.prevId := c])
  {
  }

  /** A delivery files nothing new. */
  lemma WaitersOfDeliver(s: Store, d: CertificateDelivered)
    requires Filed(s.pools)
    ensures Deliver(s, d).store.pools.precedence == s.pools.precedence
  {
    hide Insert;
    if Insert(s.tables, d).Ok? {
      InsertGrows(s.tables, d);
    }
  }

  /** What a delivery does to the pool: one entry out, at most one fresh entry of the successor in. */
  lemma DeliverPool(s: Store, d: CertificateDelivered)
    requires Insert(s.tables, d).Ok?
    ensures var id, after := d.certificate.id, Deliver(s, d).store.pools.pool;
            var left := Unpool(s.pools, id).pool;
            || after == left
            || (&& id in s.pools.precedence && s.pools.precedence[id].id != id
                && after == left[s.pools.nextPendingId := s.pools.precedence[id]])
  {
    var inserted := Insert(s.tables, d).value;
    InsertGrows(s.tables, d);
    PromotePool(Store(inserted.tables, Unpool(s.pools, d.certificate.id)), d.certificate.id, inserted.positions);
  }

  /** Delivering one certificate never removes the pool entry of another one. */
  lemma DeliverRemovesOnlyItself(s: Store, d: CertificateDelivered, i: nat)
    requires PoolInv(s) && i in s.pools.pool && s.pools.pool[i].id != d.certificate.id
    ensures i in Deliver(s, d).store.pools.pool && Deliver(s, d).store.pools.pool[i] == s.pools.pool[i]
  {
    if Insert(s.tables, d).Ok? {
      DeliverPool(s, d);
      UnpoolKeepsOthers(s.pools, d.certificate.id, i);
    }
  }

  ghost predicate InPool(p: Pools, id: CertificateId) {
    exists i :: i in p.pool && p.pool[i].id == id
  }

  /** The certificate has a pool entry other than the one the index remembers. */
  ghost predicate PooledTwice(p: Pools, id: CertificateId) {
    exists i :: i in p.pool && p.pool[i].id == id && id in p.index && i != p.index[id]
  }

  /**
   * A delivered certificate is still in the pool exactly when it had been pooled under
   * another pending id than the one the index remembers.
   */
  lemma DeliveredStaysPooledIff(s: Store, d: CertificateDelivered)
    requires PoolInv(s) && Insert(s.tables, d).Ok?
    ensures InPool(Deliver(s, d).store.pools, d.certificate.id) <==> PooledTwice(s.pools, d.certificate.id)
  {
    var id := d.certificate.id;
    var after := Deliver(s, d).store.pools;
    DeliverPool(s, d);
    if PooledTwice(s.pools, id) {
      var i :| i in s.pools.pool && s.pools.pool[i].id == id && i != s.pools.index[id];
      assert i in after.pool && after.pool[i].id == id;
    }
    if InPool(after, id) {
      var i :| i in after.pool && after.pool[i].id == id;
      assert i in s.pools.pool && s.pools.pool[i].id == id && i != s.pools.index[id];
    }
  }

  /** Submitting a certificate twice is such a case: its delivery leaves an entry behind. */
  lemma DuplicateSubmissionStays(c: Certificate, d: CertificateDelivered)
    requires c.prevId == INITIAL_CERTIFICATE_ID && d.certificate == c && Insert(EMPTY, d).Ok?
    ensures var s := Step(Step(Step(EMPTY_STORE, Submit(c)), Submit(c)), Delivering(d));
            IsDelivered(s, c.id) && InPool(s.pools, c.id)
  {
    hide Insert, Deliver;
    var one := Step(EMPTY_STORE, Submit(c));
    var two := Step(one, Submit(c));
    assert one.pools == AddToPool(EMPTY_STORE.pools, c) && two.pools == AddToPool(one.pools, c);
    assert two.pools.pool[0] == c && two.pools.index[c.id] == 1;
    assert PooledTwice(two.pools, c.id);
    InsertPendingKeeps(EMPTY_STORE, c);
    InsertPendingKeeps(one, c);
    DeliveredStaysPooledIff(two, d);
    InsertGrows(two.tables, d);
    DeliverTables(two, d);
  }
}
