/**
 * Delivered certificates and their indexes (fullnode/mod.rs). The tables are a fast form of
 * one thing: the log of deliveries in the order they were made.
 */
module FullNodeStore {
  import opened Wrappers
  import opened Certificates

  datatype TargetSource = TargetSource(target: SubnetId, source: SubnetId)

  datatype Head = Head(id: CertificateId, position: nat)

  datatype Tables = Tables(
    certificates: map<CertificateId, CertificateDelivered>,
    streams: map<SourcePosition, CertificateId>,
    sourceList: map<SubnetId, Head>,
    targetStreams: map<TargetPosition, CertificateId>,
    targetSourceList: map<TargetSource, nat>,
    sourceListPerTarget: map<TargetSource, bool>)

  const EMPTY := Tables(map[], map[], map[], map[], map[], map[])

  datatype StorageError =
    | PositionTaken(at: SourcePosition)
    | MaximumPositionReached(subnet: SubnetId)
    | CertificateAlreadyExists

  datatype CertificatePositions = CertificatePositions(
    targets: map<SubnetId, TargetPosition>,
    source: SourcePosition)

  datatype Inserted = Inserted(tables: Tables, positions: CertificatePositions)

  // ----- Ordered scans -----

  lemma MaxExists(s: set<nat>)
    requires s != {}
    ensures exists m :: m in s && forall x :: x in s ==> x <= m
  {
    var y :| y in s;
    if s == {y} {
      assert forall x :: x in s ==> x <= y;
    } else {
      var rest := s - {y};
      MaxExists(rest);
      var m :| m in rest && forall x :: x in rest ==> x <= m;
      assert forall x :: x in s ==> x == y || x in rest;
      if m < y {
        assert y in s && forall x :: x in s ==> x <= y;
      } else {
        assert m in s && forall x :: x in s ==> x <= m;
      }
    }
  }

  function Max(s: set<nat>): (m: nat)
    requires s != {}
    ensures m in s && forall x :: x in s ==> x <= m
  {
    MaxExists(s);
    var m :| m in s && forall x :: x in s ==> x <= m;
    m
  }

  /** The positions of one stream in the order the column iterator yields them. */
  function Ascending(s: set<nat>): seq<nat>
    decreases |s|
  {
    if s == {} then [] else Ascending(s - {Max(s)}) + [Max(s)]
  }

  function Range(n: nat): seq<nat> {
    seq(n, i => i)
  }

  lemma {:induction false} AscendingRange(s: set<nat>, n: nat)
    requires forall x :: x in s <==> 0 <= x < n
    ensures Ascending(s) == Range(n)
  {
    if n == 0 {
      assert s == {};
    } else {
      assert n - 1 in s;
      assert Max(s) == n - 1;
      AscendingRange(s - {n - 1}, n - 1);
    }
  }

  function LastOf(scan: seq<nat>): Option<nat> {
    if scan == [] then None else Some(scan[|scan| - 1])
  }

  // ----- Streams -----

  /** The stream of a source subnet, or the part of it that targets one subnet. */
  datatype Stream = Source(subnet: SubnetId) | Target(target: SubnetId, source: SubnetId)

  predicate Belongs(c: Certificate, k: Stream) {
    match k
    case Source(s) => c.source == s
    case Target(t, s) => c.source == s && t in c.targets
  }

  /** The id stored at one position of a stream. */
  function At(t: Tables, k: Stream, position: nat): Option<CertificateId> {
    match k
    case Source(s) =>
      var key := SourcePosition(s, position);
      if key in t.streams then Some(t.streams[key]) else None
    case Target(x, s) =>
      var key := TargetPosition(x, s, position);
      if key in t.targetStreams then Some(t.targetStreams[key]) else None
  }

  function Positions(t: Tables, k: Stream): set<nat> {
    match k
    case Source(s) => set p | p in t.streams && p.subnet == s :: p.position
    case Target(x, s) => set p | p in t.targetStreams && p.target == x && p.source == s :: p.position
  }

  /** `prefix_iter(..)` over the keys of the stream. */
  function Scan(t: Tables, k: Stream): seq<nat> {
    Ascending(Positions(t, k))
  }

  /** `prefix_iter(..).last()`: also `FullNodeStore::last_delivered_position_for_subnet`. */
  function LastByScan(t: Tables, k: Stream): Option<nat> {
    LastOf(Scan(t, k))
  }

  /** The head index; for a source stream `ValidatorStore::last_delivered_position_for_subnet`. */
  function LastByIndex(t: Tables, k: Stream): Option<nat> {
    match k
    case Source(s) => if s in t.sourceList then Some(t.sourceList[s].position) else None
    case Target(x, s) =>
      var key := TargetSource(x, s);
      if key in t.targetSourceList then Some(t.targetSourceList[key]) else None
  }

  // ----- Insertion -----

  /** Position the next certificate takes in a target stream; `None` when positions ran out. */
  function NextTarget(t: Tables, target: SubnetId, source: SubnetId): Option<nat> {
    match LastByScan(t, Target(target, source))
    case None => Some(0)
    case Some(position) => Increment(position)
  }

  predicate TargetsHaveRoom(t: Tables, source: SubnetId, targets: seq<SubnetId>) {
    forall x :: x in targets ==> NextTarget(t, x, source).Some?
  }

  /** What the loop over the targets collects for the index batch. */
  datatype Placement = Placement(
    positions: map<SubnetId, TargetPosition>,
    ids: map<TargetPosition, CertificateId>,
    lasts: map<TargetSource, nat>,
    marks: map<TargetSource, bool>)

  function AddTarget(p: Placement, target: SubnetId, source: SubnetId, position: nat, id: CertificateId): Placement {
    var at := TargetPosition(target, source, position);
    Placement(p.positions[target := at], p.ids[at := id],
              p.lasts[TargetSource(target, source) := position], p.marks[TargetSource(target, source) := true])
  }

  /** Every target is placed on the tables before the write, so a repeated target changes nothing. */
  function Place(t: Tables, source: SubnetId, targets: seq<SubnetId>, id: CertificateId): Placement
    requires TargetsHaveRoom(t, source, targets)
  {
    if targets == [] then Placement(map[], map[], map[], map[])
    else
      var last := targets[|targets| - 1];
      AddTarget(Place(t, source, targets[..|targets| - 1], id), last, source, NextTarget(t, last, source).value, id)
  }

  lemma {:induction false} PlaceIs(t: Tables, source: SubnetId, targets: seq<SubnetId>, id: CertificateId)
    requires TargetsHaveRoom(t, source, targets)
    ensures forall k :: k in Place(t, source, targets, id).ids <==>
              k.source == source && k.target in targets && k.position == NextTarget(t, k.target, source).value
    ensures forall k :: k in Place(t, source, targets, id).ids ==> Place(t, source, targets, id).ids[k] == id
    ensures forall q :: q in Place(t, source, targets, id).lasts <==> q.source == source && q.target in targets
    ensures forall q :: q in Place(t, source, targets, id).lasts ==>
              Place(t, source, targets, id).lasts[q] == NextTarget(t, q.target, source).value
    ensures Place(t, source, targets, id).marks.Keys == Place(t, source, targets, id).lasts.Keys
    ensures forall q :: q in Place(t, source, targets, id).marks ==> Place(t, source, targets, id).marks[q]
  {
    hide NextTarget;
    if targets != [] {
      PlaceIs(t, source, targets[..|targets| - 1], id);
      assert targets == targets[..|targets| - 1] + [targets[|targets| - 1]];
    }
  }

  /** The write batches of one delivery, as one update of the tables. */
  function Write(t: Tables, d: CertificateDelivered): Tables
    requires TargetsHaveRoom(t, d.certificate.source, d.certificate.targets)
  {
    var id, source, targets := d.certificate.id, d.certificate.source, d.certificate.targets;
    var at, placement := d.proof.deliveryPosition, Place(t, source, targets, id);
    Tables(
      t.certificates[id := d],
      t.streams[at := id],
      t.sourceList[source := Head(id, at.position)],
      t.targetStreams + placement.ids,
      t.targetSourceList + placement.lasts,
      t.sourceListPerTarget + placement.marks)
  }

  /** `insert_certificate_delivered`. */
  function Insert(t: Tables, d: CertificateDelivered): Result<Inserted, StorageError> {
    var source, targets, at := d.certificate.source, d.certificate.targets, d.proof.deliveryPosition;
    if at in t.streams then Err(PositionTaken(at))
    else if !TargetsHaveRoom(t, source, targets) then Err(MaximumPositionReached(source))
    else Ok(Inserted(Write(t, d), CertificatePositions(Place(t, source, targets, d.certificate.id).positions, at)))
  }

  /** The store object, whose insertion builds its batches target by target. */
  class FullNodeStore {
    var tables: Tables

    constructor ()
      ensures tables == EMPTY
    {
      tables := EMPTY;
    }

    /** Positions of a certificate in its target streams, computed on the tables before the write. */
    method PlaceTargets(source: SubnetId, targets: seq<SubnetId>, id: CertificateId)
      returns (placement: Placement, full: bool)
      ensures full <==> !TargetsHaveRoom(tables, source, targets)
      ensures !full ==> placement == Place(tables, source, targets, id)
    {
      placement, full := Placement(map[], map[], map[], map[]), false;
      for i := 0 to |targets|
        invariant TargetsHaveRoom(tables, source, targets[..i])
        invariant placement == Place(tables, source, targets[..i], id)
      {
        hide NextTarget;
        assert targets[..i + 1][..i] == targets[..i];
        assert targets[..i + 1] == targets[..i] + [targets[i]];
        var next := NextTarget(tables, targets[i], source);
        if next.None? {
          full := true;
          return;
        }
        placement := AddTarget(placement, targets[i], source, next.value, id);
      }
      assert targets[..|targets|] == targets;
    }

    /** Writes everything or, on an error, nothing. */
    method InsertCertificateDelivered(d: CertificateDelivered) returns (r: Result<CertificatePositions, StorageError>)
      modifies this
      ensures match Insert(old(tables), d)
              case Ok(inserted) => tables == inserted.tables && r == Ok(inserted.positions)
              case Err(e) => tables == old(tables) && r == Err(e)
    {
      var source, id, at := d.certificate.source, d.certificate.id, d.proof.deliveryPosition;
      if at in tables.streams {
        return Err(PositionTaken(at));
      }

      // the head is replaced whether or not the new position is beyond the known one
      var newer := if source in tables.sourceList && at.position > tables.sourceList[source].position
                   then Some(Head(id, at.position)) else None;
      var head := if newer.Some? then newer.value else Head(id, at.position);

      var placement, full := PlaceTargets(source, d.certificate.targets, id);
      if full {
        return Err(MaximumPositionReached(source));
      }

      tables := Tables(
        tables.certificates[id := d],
        tables.streams[at := id],
        tables.sourceList[source := head],
        tables.targetStreams + placement.ids,
        tables.targetSourceList + placement.lasts,
        tables.sourceListPerTarget + placement.marks);
      r := Ok(CertificatePositions(placement.positions, at));
    }
  }

  lemma {:induction false} PositionsOf(t: Tables, source: SubnetId, targets: seq<SubnetId>, id: CertificateId)
    requires TargetsHaveRoom(t, source, targets)
    ensures forall x :: x in Place(t, source, targets, id).positions <==> x in targets
    ensures forall x :: x in Place(t, source, targets, id).positions ==>
              Place(t, source, targets, id).positions[x] == TargetPosition(x, source, NextTarget(t, x, source).value)
  {
    hide NextTarget;
    if targets != [] {
      PositionsOf(t, source, targets[..|targets| - 1], id);
      assert targets == targets[..|targets| - 1] + [targets[|targets| - 1]];
    }
  }

  // ----- The simple form: the log of deliveries -----

  /** The deliveries of one stream, oldest first. */
  function Members(log: seq<CertificateDelivered>, k: Stream): seq<CertificateDelivered> {
    if log == [] then []
    else
      var rest, last := Members(log[..|log| - 1], k), log[|log| - 1];
      if Belongs(last.certificate, k) then rest + [last] else rest
  }

  function Length(log: seq<CertificateDelivered>, k: Stream): nat {
    |Members(log, k)|
  }

  function LogIds(log: seq<CertificateDelivered>): set<CertificateId> {
    set d | d in log :: d.certificate.id
  }

  ghost predicate CertificatesAgree(t: Tables, log: seq<CertificateDelivered>) {
    && t.certificates.Keys == LogIds(log)
    && forall id :: id in t.certificates ==> t.certificates[id] in log && t.certificates[id].certificate.id == id
  }

  /** No later delivery is of the same certificate. */
  ghost predicate Newest(log: seq<CertificateDelivered>, d: CertificateDelivered) {
    exists i :: 0 <= i < |log| && log[i] == d
                && forall j :: i < j < |log| ==> log[j].certificate.id != d.certificate.id
  }

  /** The certificate table holds the newest delivery of each certificate. */
  ghost predicate NewestAgree(t: Tables, log: seq<CertificateDelivered>) {
    forall id :: id in t.certificates ==> Newest(log, t.certificates[id])
  }

  /** Each stream table holds the ids of the stream's deliveries at positions 0, 1, 2, ... */
  ghost predicate StreamsAgree(t: Tables, log: seq<CertificateDelivered>) {
    forall k, p: nat :: At(t, k, p) ==
      if p < Length(log, k) then Some(Members(log, k)[p].certificate.id) else None
  }

  function LastOfLength(n: nat): Option<nat> {
    if n == 0 then None else Some(n - 1)
  }

  ghost predicate LastsAgree(t: Tables, log: seq<CertificateDelivered>) {
    forall k :: LastByIndex(t, k) == LastOfLength(Length(log, k))
  }

  ghost predicate HeadIdsAgree(t: Tables) {
    forall s :: s in t.sourceList ==> At(t, Source(s), t.sourceList[s].position) == Some(t.sourceList[s].id)
  }

  /** Every source that has sent something to a target is marked for it. */
  ghost predicate MarksAgree(t: Tables) {
    && t.sourceListPerTarget.Keys == t.targetSourceList.Keys
    && forall q :: q in t.sourceListPerTarget ==> t.sourceListPerTarget[q]
  }

  /** Each head index points at the last delivery of its stream. */
  ghost predicate HeadsAgree(t: Tables, log: seq<CertificateDelivered>) {
    MarksAgree(t) && LastsAgree(t, log) && HeadIdsAgree(t)
  }

  /** Every delivery carries the position it has in its source stream. */
  ghost predicate Positioned(log: seq<CertificateDelivered>) {
    forall s: SubnetId, i :: 0 <= i < Length(log, Source(s)) ==>
      Members(log, Source(s))[i].proof.deliveryPosition == SourcePosition(s, i)
  }

  /** All tables are functions of the log. */
  ghost predicate Represents(t: Tables, log: seq<CertificateDelivered>) {
    && CertificatesAgree(t, log) && NewestAgree(t, log) && StreamsAgree(t, log)
    && HeadsAgree(t, log) && Positioned(log)
  }

  lemma EmptyRepresentsNothing()
    ensures Represents(EMPTY, [])
  {
  }

  lemma {:induction false} Append(log: seq<CertificateDelivered>, d: CertificateDelivered, k: Stream)
    ensures Members(log + [d], k) == Members(log, k) + (if Belongs(d.certificate, k) then [d] else [])
  {
    assert (log + [d])[..|log|] == log;
  }

  lemma ScanIsRange(t: Tables, log: seq<CertificateDelivered>, k: Stream)
    requires StreamsAgree(t, log)
    ensures Scan(t, k) == Range(Length(log, k))
  {
    forall p: nat
      ensures p in Positions(t, k) <==> p < Length(log, k)
    {
      assert p in Positions(t, k) <==> At(t, k, p).Some?;
    }
    AscendingRange(Positions(t, k), Length(log, k));
  }

  /** The scan-based and the index-based lookup of the last position agree. */
  lemma LastPositionsAgree(t: Tables, log: seq<CertificateDelivered>, k: Stream)
    requires Represents(t, log)
    ensures LastByScan(t, k) == LastByIndex(t, k) == LastOfLength(Length(log, k))
  {
    ScanIsRange(t, log, k);
  }

  /** A represented target stream continues at its length. */
  lemma NextTargetIsLength(t: Tables, log: seq<CertificateDelivered>, target: SubnetId, source: SubnetId)
    requires StreamsAgree(t, log)
    ensures var n := Length(log, Target(target, source));
            NextTarget(t, target, source) == if n <= MAX_U64 then Some(n) else None
  {
    ScanIsRange(t, log, Target(target, source));
  }

  /** The delivery goes to the next free position of its own source stream. */
  ghost predicate InOrder(log: seq<CertificateDelivered>, d: CertificateDelivered) {
    d.proof.deliveryPosition ==
    SourcePosition(d.certificate.source, Length(log, Source(d.certificate.source)))
  }

  lemma WriteAt(t: Tables, log: seq<CertificateDelivered>, d: CertificateDelivered, k: Stream, p: nat)
    requires StreamsAgree(t, log) && InOrder(log, d)
    requires TargetsHaveRoom(t, d.certificate.source, d.certificate.targets)
    ensures At(Write(t, d), k, p) ==
            if Belongs(d.certificate, k) && p == Length(log, k) then Some(d.certificate.id) else At(t, k, p)
  {
    if k.Target? {
      NextTargetIsLength(t, log, k.target, k.source);
      PlaceIs(t, d.certificate.source, d.certificate.targets, d.certificate.id);
    }
    hide NextTarget, Place, StreamsAgree, Members;
  }

  lemma WriteLast(t: Tables, log: seq<CertificateDelivered>, d: CertificateDelivered, k: Stream)
    requires StreamsAgree(t, log) && InOrder(log, d)
    requires TargetsHaveRoom(t, d.certificate.source, d.certificate.targets)
    ensures LastByIndex(Write(t, d), k) ==
            if Belongs(d.certificate, k) then Some(Length(log, k)) else LastByIndex(t, k)
  {
    if k.Target? {
      NextTargetIsLength(t, log, k.target, k.source);
      PlaceIs(t, d.certificate.source, d.certificate.targets, d.certificate.id);
    }
    hide NextTarget, Place, StreamsAgree, Members;
  }

  lemma WriteCertificates(t: Tables, log: seq<CertificateDelivered>, d: CertificateDelivered)
    requires CertificatesAgree(t, log) && TargetsHaveRoom(t, d.certificate.source, d.certificate.targets)
    ensures CertificatesAgree(Write(t, d), log + [d])
  {
    assert LogIds(log + [d]) == LogIds(log) + {d.certificate.id};
  }

  lemma WriteStreams(t: Tables, log: seq<CertificateDelivered>, d: CertificateDelivered)
    requires StreamsAgree(t, log) && InOrder(log, d)
    requires TargetsHaveRoom(t, d.certificate.source, d.certificate.targets)
    ensures StreamsAgree(Write(t, d), log + [d])
  {
    forall k, p: nat
      ensures At(Write(t, d), k, p) ==
        if p < Length(log + [d], k) then Some(Members(log + [d], k)[p].certificate.id) else None
    {
      WriteAt(t, log, d, k, p);
      Append(log, d, k);
    }
  }

  lemma WriteLasts(t: Tables, log: seq<CertificateDelivered>, d: CertificateDelivered)
    requires StreamsAgree(t, log) && LastsAgree(t, log) && InOrder(log, d)
    requires TargetsHaveRoom(t, d.certificate.source, d.certificate.targets)
    ensures LastsAgree(Write(t, d), log + [d])
  {
    hide StreamsAgree, InOrder, TargetsHaveRoom, Write, LastByIndex, Members;
    forall k
      ensures LastByIndex(Write(t, d), k) == LastOfLength(Length(log + [d], k))
    {
      WriteLast(t, log, d, k);
      Append(log, d, k);
    }
  }

  lemma WriteHeadIds(t: Tables, log: seq<CertificateDelivered>, d: CertificateDelivered)
    requires StreamsAgree(t, log) && LastsAgree(t, log) && HeadIdsAgree(t) && InOrder(log, d)
    requires TargetsHaveRoom(t, d.certificate.source, d.certificate.targets)
    ensures HeadIdsAgree(Write(t, d))
  {
    var t' := Write(t, d);
    forall s | s in t'.sourceList
      ensures At(t', Source(s), t'.sourceList[s].position) == Some(t'.sourceList[s].id)
    {
      WriteAt(t, log, d, Source(s), t'.sourceList[s].position);
      if s != d.certificate.source { assert s in t.sourceList; }
    }
  }

  lemma WritePositions(log: seq<CertificateDelivered>, d: CertificateDelivered)
    requires Positioned(log) && InOrder(log, d)
    ensures Positioned(log + [d])
  {
    forall s: SubnetId, i | 0 <= i < Length(log + [d], Source(s))
      ensures Members(log + [d], Source(s))[i].proof.deliveryPosition == SourcePosition(s, i)
    {
      Append(log, d, Source(s));
      hide Members;
    }
  }

  /** Refinement: an in-order insertion is an append to the log. */
  lemma WriteAppends(t: Tables, log: seq<CertificateDelivered>, d: CertificateDelivered)
    requires Represents(t, log) && InOrder(log, d)
    requires TargetsHaveRoom(t, d.certificate.source, d.certificate.targets)
    ensures Represents(Write(t, d), log + [d])
  {
    WriteCertificates(t, log, d);
    WriteNewest(t, log, d);
    WriteStreams(t, log, d);
    WriteLasts(t, log, d);
    WriteHeadIds(t, log, d);
    WritePositions(log, d);
    WriteMarks(t, d);
    hide Write, CertificatesAgree, NewestAgree, StreamsAgree, LastsAgree, HeadIdsAgree, MarksAgree, Positioned, InOrder;
  }

  lemma WriteNewest(t: Tables, log: seq<CertificateDelivered>, d: CertificateDelivered)
    requires CertificatesAgree(t, log) && NewestAgree(t, log)
    requires TargetsHaveRoom(t, d.certificate.source, d.certificate.targets)
    ensures NewestAgree(Write(t, d), log + [d])
  {
    hide Place;
    var t', log' := Write(t, d), log + [d];
    forall id | id in t'.certificates
      ensures Newest(log', t'.certificates[id])
    {
      if id == d.certificate.id {
        assert log'[|log|] == d;
      } else {
        var i :| 0 <= i < |log| && log[i] == t.certificates[id]
                 && forall j :: i < j < |log| ==> log[j].certificate.id != t.certificates[id].certificate.id;
        assert log'[i] == t'.certificates[id];
      }
    }
  }

  lemma WriteMarks(t: Tables, d: CertificateDelivered)
    requires MarksAgree(t) && TargetsHaveRoom(t, d.certificate.source, d.certificate.targets)
    ensures MarksAgree(Write(t, d))
  {
    PlaceIs(t, d.certificate.source, d.certificate.targets, d.certificate.id);
    hide Place;
  }

  /** What an insertion reports: its own position, and for each target the length of that target stream. */
  lemma InsertReports(t: Tables, log: seq<CertificateDelivered>, d: CertificateDelivered)
    requires Represents(t, log) && Insert(t, d).Ok?
    ensures var p, source := Insert(t, d).value.positions, d.certificate.source;
            && p.source == d.proof.deliveryPosition
            && (forall x :: x in p.targets <==> x in d.certificate.targets)
            && forall x :: x in p.targets ==>
                 p.targets[x] == TargetPosition(x, source, Length(log, Target(x, source)))
  {
    PositionsOf(t, d.certificate.source, d.certificate.targets, d.certificate.id);
    forall x: SubnetId { NextTargetIsLength(t, log, x, d.certificate.source); }
    hide Place, NextTarget, Represents, Members, Write;
  }

  /** A position beyond the end leaves a hole that no log explains. */
  lemma GapIsNoLog(t: Tables, log: seq<CertificateDelivered>, d: CertificateDelivered, other: seq<CertificateDelivered>)
    requires StreamsAgree(t, log) && TargetsHaveRoom(t, d.certificate.source, d.certificate.targets)
    requires d.proof.deliveryPosition.position > Length(log, Source(d.proof.deliveryPosition.subnet))
    ensures !StreamsAgree(Write(t, d), other)
  {
    var k, at := Source(d.proof.deliveryPosition.subnet), d.proof.deliveryPosition.position;
    assert At(t, k, Length(log, k)).None?;
    assert At(Write(t, d), k, Length(log, k)).None?;
    assert At(Write(t, d), k, at).Some?;
  }

  /** Some target stream of the certificate has used up all 64-bit positions. */
  ghost predicate TargetFull(log: seq<CertificateDelivered>, c: Certificate) {
    exists x :: x in c.targets && Length(log, Target(x, c.source)) > MAX_U64
  }

  lemma RoomUnlessFull(t: Tables, log: seq<CertificateDelivered>, c: Certificate)
    requires StreamsAgree(t, log)
    ensures TargetsHaveRoom(t, c.source, c.targets) <==> !TargetFull(log, c)
  {
    forall x: SubnetId { NextTargetIsLength(t, log, x, c.source); }
  }

  /** A delivery filed under another subnet's stream leaves a head that no log explains. */
  lemma MisfiledIsNoLog(t: Tables, log: seq<CertificateDelivered>, d: CertificateDelivered,
                        other: seq<CertificateDelivered>)
    requires StreamsAgree(t, log) && LastsAgree(t, log)
    requires TargetsHaveRoom(t, d.certificate.source, d.certificate.targets)
    requires d.proof.deliveryPosition.subnet != d.certificate.source
    requires d.proof.deliveryPosition.position == Length(log, Source(d.proof.deliveryPosition.subnet))
    ensures !StreamsAgree(Write(t, d), other) || !LastsAgree(Write(t, d), other)
  {
    var k := Source(d.proof.deliveryPosition.subnet);
    assert At(Write(t, d), k, Length(log, k)).Some?;
    assert LastByIndex(Write(t, d), k) == LastByIndex(t, k) == LastOfLength(Length(log, k));
    hide Write, At, LastByIndex, Members;
  }

  lemma Misplaced(t: Tables, log: seq<CertificateDelivered>, d: CertificateDelivered, other: seq<CertificateDelivered>)
    requires Represents(t, log) && TargetsHaveRoom(t, d.certificate.source, d.certificate.targets)
    requires !InOrder(log, d)
    requires d.proof.deliveryPosition.position >= Length(log, Source(d.proof.deliveryPosition.subnet))
    ensures !Represents(Write(t, d), other)
  {
    hide Write, StreamsAgree, LastsAgree, CertificatesAgree, NewestAgree, HeadIdsAgree, MarksAgree, Positioned;
    hide TargetsHaveRoom;
    if d.proof.deliveryPosition.position > Length(log, Source(d.proof.deliveryPosition.subnet)) {
      GapIsNoLog(t, log, d, other);
    } else {
      MisfiledIsNoLog(t, log, d, other);
    }
  }

  /**
   * Main result of the store. On tables that represent a log, an insertion is refused exactly
   * when the position is taken or a target stream is full; when it succeeds, the tables
   * represent a log again exactly when the position was the next one of the certificate's own
   * source stream, and then that log is the old one with the delivery appended. A taken position
   * is reported before a full target stream.
   */
  lemma InsertRefinesAppend(t: Tables, log: seq<CertificateDelivered>, d: CertificateDelivered)
    requires Represents(t, log)
    ensures var r, at := Insert(t, d), d.proof.deliveryPosition;
            && (r.Err? <==> at.position < Length(log, Source(at.subnet)) || TargetFull(log, d.certificate))
            && (r.Err? ==> r.error == if at.position < Length(log, Source(at.subnet)) then PositionTaken(at)
                                      else MaximumPositionReached(d.certificate.source))
            && (r.Ok? && InOrder(log, d) ==> Represents(r.value.tables, log + [d]))
            && (r.Ok? && !InOrder(log, d) ==> forall other :: !Represents(r.value.tables, other))
  {
    var at := d.proof.deliveryPosition;
    assert At(t, Source(at.subnet), at.position).Some? <==> at in t.streams;
    RoomUnlessFull(t, log, d.certificate);
    hide Write, TargetsHaveRoom;
    if Insert(t, d).Ok? {
      if InOrder(log, d) {
        WriteAppends(t, log, d);
      } else {
        forall other ensures !Represents(Write(t, d), other) { Misplaced(t, log, d, other); }
      }
    }
  }

  /** The place a delivery takes in a stream, at the position its proof names or at the end of a target stream. */
  ghost predicate GoesTo(log: seq<CertificateDelivered>, d: CertificateDelivered, k: Stream, p: nat) {
    match k
    case Source(s) => d.proof.deliveryPosition == SourcePosition(s, p)
    case Target(x, s) => s == d.certificate.source && x in d.certificate.targets && p == Length(log, k)
  }

  /**
   * What any accepted delivery changes, in order or not, and nothing else: its own entry, its places in
   * the streams, the head of its source subnet, which is replaced whatever it was, and the last
   * positions of its targets.
   */
  lemma InsertEffects(t: Tables, log: seq<CertificateDelivered>, d: CertificateDelivered)
    requires Represents(t, log) && Insert(t, d).Ok?
    ensures var t', c := Insert(t, d).value.tables, d.certificate;
            && t'.certificates == t.certificates[c.id := d]
            && t'.sourceList == t.sourceList[c.source := Head(c.id, d.proof.deliveryPosition.position)]
            && (forall k, p: nat :: At(t', k, p) == if GoesTo(log, d, k, p) then Some(c.id) else At(t, k, p))
            && (forall x, s :: LastByIndex(t', Target(x, s)) ==
                  if s == c.source && x in c.targets then Some(Length(log, Target(x, s)))
                  else LastByIndex(t, Target(x, s)))
            && MarksAgree(t')
  {
    var t' := Write(t, d);
    WriteMarks(t, d);
    hide Represents, MarksAgree, TargetsHaveRoom;
    forall k, p: nat
      ensures At(t', k, p) == if GoesTo(log, d, k, p) then Some(d.certificate.id) else At(t, k, p)
    {
      PlaceEffect(t, log, d, k, p);
      hide Write, At;
    }
    forall x, s
      ensures LastByIndex(t', Target(x, s)) ==
              if s == d.certificate.source && x in d.certificate.targets then Some(Length(log, Target(x, s)))
              else LastByIndex(t, Target(x, s))
    {
      LastEffect(t, log, d, x, s);
      hide Write, LastByIndex;
    }
    hide GoesTo, At, LastByIndex, Members, Place;
  }

  lemma PlaceEffect(t: Tables, log: seq<CertificateDelivered>, d: CertificateDelivered, k: Stream, p: nat)
    requires Represents(t, log) && TargetsHaveRoom(t, d.certificate.source, d.certificate.targets)
    ensures At(Write(t, d), k, p) == if GoesTo(log, d, k, p) then Some(d.certificate.id) else At(t, k, p)
  {
    if k.Target? {
      NextTargetIsLength(t, log, k.target, k.source);
      PlaceIs(t, d.certificate.source, d.certificate.targets, d.certificate.id);
    }
    hide NextTarget, Place, Represents, Members;
  }

  lemma LastEffect(t: Tables, log: seq<CertificateDelivered>, d: CertificateDelivered, x: SubnetId, s: SubnetId)
    requires Represents(t, log) && TargetsHaveRoom(t, d.certificate.source, d.certificate.targets)
    ensures LastByIndex(Write(t, d), Target(x, s)) ==
            if s == d.certificate.source && x in d.certificate.targets then Some(Length(log, Target(x, s)))
            else LastByIndex(t, Target(x, s))
  {
    NextTargetIsLength(t, log, x, s);
    PlaceIs(t, d.certificate.source, d.certificate.targets, d.certificate.id);
    hide NextTarget, Place, Represents, Members;
  }

  // ----- Paged reads -----

  datatype Entry = Entry(delivered: CertificateDelivered, stream: Stream, position: nat)

  /** Iterator `skip` then `take`. */
  function Page<T>(items: seq<T>, skip: nat, limit: nat): seq<T> {
    var from := if skip <= |items| then skip else |items|;
    var to := if from + limit <= |items| then from + limit else |items|;
    items[from..to]
  }

  /** The certificate stored for a position, if it is stored under the id it claims. */
  function Lookup(t: Tables, k: Stream, position: nat): Option<CertificateDelivered> {
    match At(t, k, position)
    case None => None
    case Some(id) =>
      if id in t.certificates && t.certificates[id].certificate.id == id then Some(t.certificates[id]) else None
  }

  function Fetch(t: Tables, k: Stream, positions: seq<nat>): seq<Entry> {
    if positions == [] then []
    else
      var rest, last := Fetch(t, k, positions[..|positions| - 1]), positions[|positions| - 1];
      match Lookup(t, k, last)
      case Some(d) => rest + [Entry(d, k, last)]
      case None => rest
  }

  /** `get_source_stream_certificates_from_position` and `get_target_stream_certificates_from_position`. */
  function Read(t: Tables, k: Stream, from: nat, limit: nat): seq<Entry> {
    Fetch(t, k, Page(Scan(t, k), from, limit))
  }

  /** On any tables: whatever is read is stored at its position and under its own id. */
  lemma {:induction false} ReadNamesStored(t: Tables, k: Stream, from: nat, limit: nat, i: nat)
    requires i < |Read(t, k, from, limit)|
    ensures var e := Read(t, k, from, limit)[i]; var id := e.delivered.certificate.id;
            && e.stream == k && At(t, k, e.position) == Some(id)
            && id in t.certificates && t.certificates[id] == e.delivered
  {
    FetchNamesStored(t, k, Page(Scan(t, k), from, limit), i);
  }

  lemma {:induction false} FetchNamesStored(t: Tables, k: Stream, positions: seq<nat>, i: nat)
    requires i < |Fetch(t, k, positions)|
    ensures var e := Fetch(t, k, positions)[i]; var id := e.delivered.certificate.id;
            && e.stream == k && At(t, k, e.position) == Some(id)
            && id in t.certificates && t.certificates[id] == e.delivered
  {
    var before := positions[..|positions| - 1];
    if i < |Fetch(t, k, before)| {
      FetchNamesStored(t, k, before, i);
    }
  }

  lemma {:induction false} MembersInLog(log: seq<CertificateDelivered>, k: Stream, i: nat)
    requires i < Length(log, k)
    ensures Members(log, k)[i] in log && Belongs(Members(log, k)[i].certificate, k)
  {
    if i < Length(log[..|log| - 1], k) {
      MembersInLog(log[..|log| - 1], k, i);
    }
  }

  /** `d` is what the certificate table answers for the delivery `wanted`. */
  ghost predicate Answers(log: seq<CertificateDelivered>, d: CertificateDelivered, wanted: CertificateDelivered) {
    && d in log && d.certificate.id == wanted.certificate.id
    && Newest(log, d)
  }

  /** The entry is the one of that position of the stream. */
  ghost predicate Shows(e: Entry, log: seq<CertificateDelivered>, k: Stream, position: nat) {
    && e.stream == k && e.position == position && position < Length(log, k)
    && Answers(log, e.delivered, Members(log, k)[position])
  }

  lemma LookupAnswers(t: Tables, log: seq<CertificateDelivered>, k: Stream, i: nat)
    requires CertificatesAgree(t, log) && NewestAgree(t, log) && StreamsAgree(t, log) && i < Length(log, k)
    ensures Lookup(t, k, i).Some? && Shows(Entry(Lookup(t, k, i).value, k, i), log, k, i)
  {
    var wanted := Members(log, k)[i];
    MembersInLog(log, k, i);
    assert At(t, k, i) == Some(wanted.certificate.id);
    assert wanted.certificate.id in LogIds(log);
  }

  lemma {:induction false} FetchExact(t: Tables, log: seq<CertificateDelivered>, k: Stream, positions: seq<nat>)
    requires CertificatesAgree(t, log) && NewestAgree(t, log) && StreamsAgree(t, log)
    requires forall i :: 0 <= i < |positions| ==> positions[i] < Length(log, k)
    ensures |Fetch(t, k, positions)| == |positions|
    ensures forall i :: 0 <= i < |positions| ==> Shows(Fetch(t, k, positions)[i], log, k, positions[i])
  {
    if positions != [] {
      FetchExact(t, log, k, positions[..|positions| - 1]);
      LookupAnswers(t, log, k, positions[|positions| - 1]);
    }
  }

  /** How many of `n` items are left behind the first `from`, but no more than `limit`. */
  function Window(n: nat, from: nat, limit: nat): nat {
    if from >= n then 0 else if limit <= n - from then limit else n - from
  }

  lemma PageOfRange(n: nat, from: nat, limit: nat, positions: seq<nat>)
    requires positions == Page(Range(n), from, limit)
    ensures |positions| == Window(n, from, limit)
    ensures forall i :: 0 <= i < |positions| ==> positions[i] == from + i && positions[i] < n
  {
  }

  lemma {:induction false} ReadIsFetch(t: Tables, log: seq<CertificateDelivered>, k: Stream, from: nat, limit: nat)
    requires StreamsAgree(t, log)
    ensures Read(t, k, from, limit) == Fetch(t, k, Page(Range(Length(log, k)), from, limit))
  {
    ScanIsRange(t, log, k);
    hide Fetch, Page, Scan;
  }

  /**
   * A page of a source or target stream holds exactly the positions from..min(from + limit,
   * length), in order, each with its own position and certificate.
   */
  lemma {:induction false} ReadExact(t: Tables, log: seq<CertificateDelivered>, k: Stream, from: nat, limit: nat)
    requires Represents(t, log)
    ensures |Read(t, k, from, limit)| == Window(Length(log, k), from, limit)
    ensures forall i :: 0 <= i < |Read(t, k, from, limit)| ==> Shows(Read(t, k, from, limit)[i], log, k, from + i)
  {
    hide Read, Fetch, Page, Shows, Members, CertificatesAgree, NewestAgree, StreamsAgree;
    var positions := Page(Range(Length(log, k)), from, limit);
    ReadIsFetch(t, log, k, from, limit);
    PageOfRange(Length(log, k), from, limit, positions);
    FetchExact(t, log, k, positions);
  }

  lemma PageJoins<T>(items: seq<T>, from: nat, a: nat, b: nat)
    ensures Page(items, from, a) + Page(items, from + a, b) == Page(items, from, a + b)
  {
  }

  lemma {:induction false} FetchJoins(t: Tables, k: Stream, a: seq<nat>, b: seq<nat>)
    ensures Fetch(t, k, a + b) == Fetch(t, k, a) + Fetch(t, k, b)
  {
    if b == [] {
      assert a + b == a;
    } else {
      FetchJoins(t, k, a, b[..|b| - 1]);
      assert (a + b)[..|a + b| - 1] == a + b[..|b| - 1];
    }
  }

  /** Two adjacent pages are one page of the joint size. */
  lemma PagesJoin(t: Tables, k: Stream, from: nat, a: nat, b: nat)
    ensures Read(t, k, from, a) + Read(t, k, from + a, b) == Read(t, k, from, a + b)
  {
    PageJoins(Scan(t, k), from, a, b);
    FetchJoins(t, k, Page(Scan(t, k), from, a), Page(Scan(t, k), from + a, b));
  }

  /** The first `count` pages of a client that reads `size` certificates at a time. */
  function Pages(t: Tables, k: Stream, size: nat, count: nat): seq<Entry> {
    if count == 0 then []
    else Pages(t, k, size, count - 1) + Read(t, k, (count - 1) * size, size)
  }

  lemma EmptyPage(t: Tables, k: Stream)
    ensures Read(t, k, 0, 0) == []
  {
  }

  /** Successive pages of any size read a stream once, without overlap or omission. */
  lemma {:induction false} PagesCoverOnce(t: Tables, k: Stream, size: nat, count: nat)
    ensures Pages(t, k, size, count) == Read(t, k, 0, count * size)
  {
    hide Read;
    if count == 0 {
      EmptyPage(t, k);
    } else {
      var done := (count - 1) * size;
      assert done + size == count * size;
      PagesCoverOnce(t, k, size, count - 1);
      PagesJoin(t, k, 0, done, size);
    }
  }

  /**
   * A client that reads page after page gets the stream from its start: one entry per position, none
   * twice, none left out, until the stream or the pages are exhausted.
   */
  lemma {:induction false} PagesAreStream(t: Tables, log: seq<CertificateDelivered>, k: Stream, size: nat, count: nat)
    requires Represents(t, log)
    ensures var all, n := Pages(t, k, size, count), Length(log, k);
            && |all| == (if count * size <= n then count * size else n)
            && forall i :: 0 <= i < |all| ==> Shows(all[i], log, k, i)
  {
    hide Read, Pages, Shows, Members, Represents;
    PagesCoverOnce(t, k, size, count);
    ReadExact(t, log, k, 0, count * size);
  }
}
