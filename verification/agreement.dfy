/** Validators that deliver the same certificates give them the same positions. */
module Agreement {
  import opened Wrappers
  import opened Certificates
  import opened Quorum
  import opened FullNodeStore
  import opened TaskManager
  import opened NodeRuns
  import opened Chains
  import opened ForkFreeRuns
  import V = ValidatorStore

  /** One validator's run over the certificates of `u`, of which those of `s` do not fork or come again. */
  datatype Run = Run(validators: set<ValidatorId>, params: Params, actions: seq<Action>) {
    ghost function Node(): Node { Exec(validators, params, actions) }

    ghost function Deliveries(): seq<CertificateDelivered> { Log(validators, params, actions) }

    ghost predicate Over(u: Universe, s: SubnetId) {
      ForkFree(u, s) && |u| <= MAX_U64 && AdmissibleRun(validators, params, u, s, actions)
    }
  }

  /** What the log of a run over a universe is known to be. */
  ghost predicate Explains(log: seq<CertificateDelivered>, u: Universe, s: SubnetId, t: Tables) {
    Represents(t, log) && KnownLog(log, u) && PositionsAreDepths(log, u, s)
  }

  /** The subnet whose certificates a stream holds. */
  function Origin(k: Stream): SubnetId {
    match k case Source(s) => s case Target(_, s) => s
  }

  lemma RunExplained(r: Run, u: Universe, s: SubnetId)
    requires r.Over(u, s)
    ensures Explains(r.Deliveries(), u, s, r.Node().store.tables)
    ensures Coherent(r.Node(), u, s) && TasksSound(r.Node()) && KnownTasks(r.Node(), u)
    ensures Length(r.Deliveries(), Source(s)) <= MAX_U64
  {
    EveryForkFreeRun(r.validators, r.params, u, s, r.actions);
  }

  lemma {:induction false} StoredAtDepth(log: seq<CertificateDelivered>, u: Universe, t: Tables, s: SubnetId, p: nat,
                                         id: CertificateId)
    requires Explains(log, u, s, t) && At(t, Source(s), p) == Some(id)
    ensures p < Length(log, Source(s)) && Members(log, Source(s))[p].certificate.id == id
    ensures AtDepth(u, id, p) && Of(u, id, s)
  {
    StreamKnown(log, u, s, p);
  }

  /** The source position of a delivered certificate is its depth in the `prev_id` chain. */
  lemma {:induction false} PositionIsDepth(r: Run, u: Universe, s: SubnetId, p: nat, id: CertificateId)
    requires r.Over(u, s) && At(r.Node().store.tables, Source(s), p) == Some(id)
    ensures AtDepth(u, id, p) && Of(u, id, s)
  {
    RunExplained(r, u, s);
    hide Explains, At;
    StoredAtDepth(r.Deliveries(), u, r.Node().store.tables, s, p, id);
  }

  /**
   * Of the subnet's certificates exactly the running and the waiting are in `tasks`. A waiting
   * task's predecessor is delivered exactly while the completion of that predecessor has not been
   * handled. No task of the subnet fails.
   */
  lemma TasksCoherent(r: Run, u: Universe, s: SubnetId)
    requires r.Over(u, s)
    ensures Partition(r.Node(), u, s) && TasksSound(r.Node())
    ensures forall q :: Of(u, q, s) && q in r.Node().precedence ==>
              (V.IsDelivered(r.Node().store, q) <==> q in r.Node().finished)
    ensures forall id :: Of(u, id, s) && id in r.Node().finished ==> r.Node().finished[id] == Success
  {
    RunExplained(r, u, s);
    hide Exec, Log, AdmissibleRun;
    var n := r.Node();
    forall q | Of(u, q, s) && q in n.precedence
      ensures Slot(n, u, s, q)
    {
      WaitsAtHome(n, u, s, q);
    }
    hide ForkFree;
  }

  // ----- Delivered once -----

  /** No certificate of the subnet is delivered twice. */
  lemma DeliveredOnce(r: Run, u: Universe, s: SubnetId)
    requires r.Over(u, s)
    ensures NoneTwice(r.Deliveries(), s)
  {
    RunExplained(r, u, s);
    hide Exec, Log;
    LogDistinct(r.Deliveries(), u, s);
  }

  /** It is the only delivery of its certificate. */
  ghost predicate Sole(log: seq<CertificateDelivered>, d: CertificateDelivered) {
    forall e :: e in log && e.certificate.id == d.certificate.id ==> e == d
  }

  lemma SoleDelivery(log: seq<CertificateDelivered>, u: Universe, s: SubnetId, d: CertificateDelivered)
    requires KnownLog(log, u) && NoneTwice(log, s) && d in log && d.certificate.source == s
    ensures Sole(log, d)
  {
    forall e | e in log && e.certificate.id == d.certificate.id
      ensures e == d
    {
      var i :| 0 <= i < |log| && log[i] == d;
      var j :| 0 <= j < |log| && log[j] == e;
      assert Known(u, log[i].certificate) && Known(u, log[j].certificate);
    }
  }

  /** The entry is the delivery at the position of the stream. */
  ghost predicate IsEntry(e: Entry, stream: seq<CertificateDelivered>, k: Stream, position: nat) {
    position < |stream| && e == Entry(stream[position], k, position)
  }

  /** A page of a stream is, entry by entry, the deliveries of the run at these positions. */
  lemma {:induction false} PageOfRun(r: Run, u: Universe, k: Stream, from: nat, limit: nat)
    requires r.Over(u, Origin(k))
    ensures var page, stream := Read(r.Node().store.tables, k, from, limit), Members(r.Deliveries(), k);
            && |page| == Window(|stream|, from, limit)
            && forall i :: 0 <= i < |page| ==> IsEntry(page[i], stream, k, from + i)
  {
    hide Exec, Log, AdmissibleRun, ForkFree, KnownLog, PositionsAreDepths, Represents, Read, Members;
    hide Coherent, TasksSound, KnownTasks, NoneTwice;
    RunExplained(r, u, Origin(k));
    DeliveredOnce(r, u, Origin(k));
    PageOfLog(r.Node().store.tables, r.Deliveries(), u, k, from, limit);
  }

  lemma {:induction false} PageOfLog(t: Tables, log: seq<CertificateDelivered>, u: Universe, k: Stream, from: nat,
                                     limit: nat)
    requires Represents(t, log) && KnownLog(log, u) && NoneTwice(log, Origin(k))
    ensures var page, stream := Read(t, k, from, limit), Members(log, k);
            && |page| == Window(|stream|, from, limit)
            && forall i :: 0 <= i < |page| ==> IsEntry(page[i], stream, k, from + i)
  {
    var stream := Members(log, k);
    hide KnownLog, Represents, Read, Members, NoneTwice, Sole;
    forall i | 0 <= i < |stream|
      ensures Sole(log, stream[i])
    {
      MembersInLog(log, k, i);
      SoleDelivery(log, u, Origin(k), stream[i]);
    }
    ReadExact(t, log, k, from, limit);
    var page := Read(t, k, from, limit);
    forall i | 0 <= i < |page|
      ensures IsEntry(page[i], stream, k, from + i)
    {
      assert Shows(page[i], log, k, from + i) && Sole(log, stream[from + i]);
      OnlyAnswer(log, page[i].delivered, stream[from + i]);
    }
  }

  lemma OnlyAnswer(log: seq<CertificateDelivered>, d: CertificateDelivered, wanted: CertificateDelivered)
    requires Sole(log, wanted) && d in log && d.certificate.id == wanted.certificate.id
    ensures d == wanted
  {
  }

  lemma {:induction false} DeliveredBelow(log: seq<CertificateDelivered>, u: Universe, c: Certificate)
    requires KnownLog(log, u) && PositionsAreDepths(log, u, c.source) && Known(u, c) && c.id in LogIds(log)
    ensures !AtDepth(u, c.id, Length(log, Source(c.source)))
  {
    var d :| d in log && d.certificate.id == c.id;
    assert Known(u, d.certificate);
    var i := InStream(log, d, Source(c.source));
    if AtDepth(u, c.id, Length(log, Source(c.source))) {
      DepthUnique(u, c.id, i, Length(log, Source(c.source)));
    }
  }

  lemma LogTold(t: Tables, log: seq<CertificateDelivered>, s: SubnetId)
    requires Represents(t, log)
    ensures LastByIndex(t, Source(s)) == LastOfLength(Length(log, Source(s)))
    ensures t.certificates.Keys == LogIds(log)
  {
  }

  /** The position a new task of `c` would boot with is the depth of `c` unless `c` is delivered. */
  lemma {:induction false} NextIsDepthIff(n: Node, log: seq<CertificateDelivered>, u: Universe, c: Certificate)
    requires ForkFree(u, c.source) && Explains(log, u, c.source, n.store.tables)
    requires Length(log, Source(c.source)) <= MAX_U64
    requires Known(u, c) && V.PrevDelivered(n.store, c)
    ensures NextPosition(n, c.source).Some?
    ensures AtDepth(u, c.id, NextPosition(n, c.source).value) <==> !V.IsDelivered(n.store, c.id)
  {
    LogTold(n.store.tables, log, c.source);
    hide Represents, LastByIndex, LogIds, Members, ForkFree, KnownLog, PositionsAreDepths, AtDepth;
    if V.IsDelivered(n.store, c.id) {
      DeliveredBelow(log, u, c);
    } else {
      NextDepth(log, u, c);
    }
  }

  /**
   * A certificate broadcast now, whose task boots at once, expects its depth exactly when it
   * has not been delivered: a second broadcast after delivery would be misplaced.
   */
  lemma {:induction false} BroadcastExpectsDepthIff(r: Run, u: Universe, c: Certificate)
    requires r.Over(u, c.source) && Known(u, c)
    requires c.id !in r.Node().tasks && V.PrevDelivered(r.Node().store, c)
    ensures var booted := DoBoot(DoBroadcast(r.Node(), c, false), c.id);
            && c.id in booted.running && booted.running[c.id].state.expectedPosition.Some?
            && (AtDepth(u, c.id, booted.running[c.id].state.expectedPosition.value) <==>
                !V.IsDelivered(r.Node().store, c.id))
  {
    hide Explains, AtDepth, Exec, Log, DoBroadcast, ForkFree, LastByIndex, AdmissibleRun, Coherent;
    RunExplained(r, u, c.source);
    NextIsDepthIff(r.Node(), r.Deliveries(), u, c);
    BroadcastShape(r.Node(), c, false);
  }

  /** Conversely, a delivered certificate is stored at the position that is its depth. */
  lemma {:induction false} StoredByDepth(r: Run, u: Universe, id: CertificateId, k: nat)
    requires id in u && r.Over(u, u[id].source) && V.IsDelivered(r.Node().store, id) && AtDepth(u, id, k)
    ensures At(r.Node().store.tables, Source(u[id].source), k) == Some(id)
  {
    RunExplained(r, u, u[id].source);
    var log, t := r.Deliveries(), r.Node().store.tables;
    hide Exec, Log, AdmissibleRun, ForkFree, AtDepth, At;
    var d := t.certificates[id];
    assert d in log && d.certificate.id == id && Known(u, d.certificate);
    var i := InStream(log, d, Source(u[id].source));
    DepthUnique(u, id, i, k);
  }

  // ----- Target positions -----

  function Filter(stream: seq<CertificateDelivered>, target: SubnetId): seq<CertificateDelivered> {
    if stream == [] then []
    else
      var rest, last := Filter(stream[..|stream| - 1], target), stream[|stream| - 1];
      if target in last.certificate.targets then rest + [last] else rest
  }

  lemma {:induction false} FilterAppend(stream: seq<CertificateDelivered>, d: CertificateDelivered, target: SubnetId)
    ensures Filter(stream + [d], target) ==
            Filter(stream, target) + (if target in d.certificate.targets then [d] else [])
  {
    assert (stream + [d])[..|stream|] == stream;
  }

  /** A target stream is its source stream, filtered. */
  lemma {:induction false} TargetFiltersSource(log: seq<CertificateDelivered>, target: SubnetId, s: SubnetId)
    ensures Members(log, Target(target, s)) == Filter(Members(log, Source(s)), target)
  {
    if log != [] {
      var before, last := log[..|log| - 1], log[|log| - 1];
      TargetFiltersSource(before, target, s);
      FilterAppend(Members(before, Source(s)), last, target);
    }
  }

  /** Where a filtered element comes from. */
  lemma {:induction false} FilterOrigin(stream: seq<CertificateDelivered>, target: SubnetId, p: nat) returns (i: nat)
    requires p < |Filter(stream, target)|
    ensures i < |stream| && stream[i] == Filter(stream, target)[p] && |Filter(stream[..i], target)| == p
  {
    var before := stream[..|stream| - 1];
    if p < |Filter(before, target)| {
      i := FilterOrigin(before, target, p);
      assert before[..i] == stream[..i];
    } else {
      i := |stream| - 1;
    }
  }

  lemma {:induction false} FilterSize(a: seq<CertificateDelivered>, b: seq<CertificateDelivered>, target: SubnetId)
    requires |a| == |b| && forall i :: 0 <= i < |a| ==> a[i].certificate == b[i].certificate
    ensures |Filter(a, target)| == |Filter(b, target)|
  {
    if a != [] {
      FilterSize(a[..|a| - 1], b[..|b| - 1], target);
    }
  }

  lemma TargetOrigin(log: seq<CertificateDelivered>, u: Universe, t: Tables, target: SubnetId, s: SubnetId, p: nat,
                     id: CertificateId)
    returns (i: nat)
    requires Explains(log, u, s, t) && At(t, Target(target, s), p) == Some(id)
    ensures i < Length(log, Source(s)) && AtDepth(u, id, i) && |Filter(Members(log, Source(s))[..i], target)| == p
  {
    TargetFiltersSource(log, target, s);
    i := FilterOrigin(Members(log, Source(s)), target, p);
  }

  /** The first `i` certificates of a subnet are the same wherever they are delivered. */
  lemma {:induction false} SamePrefix(a: seq<CertificateDelivered>, b: seq<CertificateDelivered>, u: Universe,
                                      s: SubnetId, i: nat)
    requires ForkFree(u, s) && KnownLog(a, u) && KnownLog(b, u)
    requires PositionsAreDepths(a, u, s) && PositionsAreDepths(b, u, s)
    requires i <= Length(a, Source(s)) && i <= Length(b, Source(s))
    ensures forall j :: 0 <= j < i ==> Members(a, Source(s))[j].certificate == Members(b, Source(s))[j].certificate
  {
    forall j | 0 <= j < i
      ensures Members(a, Source(s))[j].certificate == Members(b, Source(s))[j].certificate
    {
      StreamKnown(a, u, s, j);
      StreamKnown(b, u, s, j);
      LevelUnique(u, s, Members(a, Source(s))[j].certificate.id, Members(b, Source(s))[j].certificate.id, j);
    }
  }

  lemma SameTargetPosition(a: seq<CertificateDelivered>, b: seq<CertificateDelivered>, u: Universe, ta: Tables,
                           tb: Tables, target: SubnetId, s: SubnetId, p: nat, q: nat, id: CertificateId)
    requires ForkFree(u, s) && Explains(a, u, s, ta) && Explains(b, u, s, tb)
    requires At(ta, Target(target, s), p) == Some(id) == At(tb, Target(target, s), q)
    ensures p == q
  {
    hide At, Represents, AtDepth, Members, Filter, ForkFree;
    var i := TargetOrigin(a, u, ta, target, s, p, id);
    var j := TargetOrigin(b, u, tb, target, s, q, id);
    DepthUnique(u, id, i, j);
    SamePrefix(a, b, u, s, i);
    FilterSize(Members(a, Source(s))[..i], Members(b, Source(s))[..i], target);
  }

  /**
   * Main result across validators. Any two runs over the same certificates, on different
   * validators with different schedules, give a certificate of a subnet that does not fork the
   * same position in its source stream and in each of its target streams, whatever others do.
   */
  lemma SamePositionsEverywhere(a: Run, b: Run, u: Universe, k: Stream, p: nat, q: nat, id: CertificateId)
    requires a.Over(u, Origin(k)) && b.Over(u, Origin(k))
    requires At(a.Node().store.tables, k, p) == Some(id) == At(b.Node().store.tables, k, q)
    ensures p == q
  {
    RunExplained(a, u, Origin(k));
    RunExplained(b, u, Origin(k));
    hide Explains, At, Exec, Log, AtDepth;
    var ta, tb := a.Node().store.tables, b.Node().store.tables;
    match k
    case Source(s) =>
      StoredAtDepth(a.Deliveries(), u, ta, s, p, id);
      StoredAtDepth(b.Deliveries(), u, tb, s, q, id);
      DepthUnique(u, id, p, q);
    case Target(target, s) =>
      SameTargetPosition(a.Deliveries(), b.Deliveries(), u, ta, tb, target, s, p, q, id);
  }

  /** Two validators' streams of a subnet never disagree: one is a prefix of the other. */
  lemma StreamsNeverDisagree(a: Run, b: Run, u: Universe, s: SubnetId, p: nat)
    requires a.Over(u, s) && b.Over(u, s)
    requires At(a.Node().store.tables, Source(s), p).Some? && At(b.Node().store.tables, Source(s), p).Some?
    ensures At(a.Node().store.tables, Source(s), p) == At(b.Node().store.tables, Source(s), p)
  {
    RunExplained(a, u, s);
    RunExplained(b, u, s);
    hide Explains, At, Exec, Log, AtDepth;
    var ta, tb := a.Node().store.tables, b.Node().store.tables;
    var x, y := At(ta, Source(s), p).value, At(tb, Source(s), p).value;
    StoredAtDepth(a.Deliveries(), u, ta, s, p, x);
    StoredAtDepth(b.Deliveries(), u, tb, s, p, y);
    LevelUnique(u, s, x, y, p);
  }
}
