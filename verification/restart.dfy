/** A sequencer that restarts at the resume point of a validator. */
module Restart {
  import opened Wrappers
  import opened Certificates
  import opened FullNodeStore
  import opened TaskManager
  import opened NodeRuns
  import opened Chains
  import opened ForkFreeRuns
  import opened Agreement
  import opened Subnets
  import S = Sequencer
  import P = PendingRuns
  import V = ValidatorStore

  /** What the worker asks the validator for. */
  ghost function Pending(r: Agreement.Run, s: SubnetId): V.Summary {
    var pools := r.Node().store.pools;
    V.Tally(pools, P.PoolOrder(pools), s)
  }

  ghost function HeadAt(r: Agreement.Run, s: SubnetId): Option<Head> {
    P.SourceHead(r.Node().store, s)
  }

  /** The sequencer starts from what the worker makes of the answers. */
  ghost predicate ResumesAt(r: Agreement.Run, o: S.Origin) {
    P.Resume(HeadAt(r, o.subnet), Pending(r, o.subnet)) ==
    match o.head case None => None case Some(id) => Some(P.ResumePoint(id, o.headPosition))
  }

  /** A run over certificates of which those of the subnet come once, and the sequencer resumes at it. */
  ghost predicate Restarts(r: Agreement.Run, u: Universe, site: Site) {
    && r.Over(u, site.origin.subnet) && ResumesAt(r, site.origin)
    && P.SubmitsOnce(r.validators, r.params, site.origin.subnet, r.actions)
    && P.NoWrap(r.validators, r.params, r.actions)
  }

  /** The new certificates have ids of their own, which nobody has mentioned so far. */
  ghost predicate Minted(u: Universe, site: Site) {
    && DistinctIds(site.Certificates())
    && (forall i :: 0 <= i < |site.Certificates()| ==> site.Certificates()[i].id !in u)
    && (forall i, x :: 0 <= i < |site.Certificates()| && x in u ==> site.Certificates()[i].id != u[x].prevId)
  }

  /** The certificates there are after the restart. */
  ghost function After(u: Universe, site: Site): Universe {
    u + ById(site.Certificates())
  }

  lemma AfterIs(u: Universe, site: Site)
    requires Minted(u, site)
    ensures forall id :: id in u ==> id in After(u, site) && After(u, site)[id] == u[id]
    ensures AllKnown(After(u, site), site.Worker())
    ensures forall id :: id in After(u, site) && id !in u ==>
              exists i :: 0 <= i < |site.Worker().emitted| && site.Worker().emitted[i].certificate.id == id
  {
    var certificates, w := site.Certificates(), site.Worker();
    ByIdIs(certificates);
    hide ById, S.Run;
    forall id | id in u
      ensures id !in ById(certificates)
    {
    }
    forall j | 0 <= j < |w.emitted|
      ensures Known(After(u, site), w.emitted[j].certificate)
    {
      assert certificates[j] == w.emitted[j].certificate;
    }
    forall id | id in After(u, site) && id !in u
      ensures exists i :: 0 <= i < |w.emitted| && w.emitted[i].certificate.id == id
    {
      var i :| 0 <= i < |certificates| && certificates[i].id == id;
      assert w.emitted[i].certificate.id == id;
    }
  }

  lemma {:induction false} DepthStays(u: Universe, more: Universe, id: CertificateId, k: nat)
    requires AtDepth(u, id, k) && forall x :: x in u ==> x in more && more[x] == u[x]
    ensures AtDepth(more, id, k)
    decreases k
  {
    if k > 0 {
      DepthStays(u, more, u[id].prevId, k - 1);
    }
  }

  // ----- Block numbers -----

  /** Something is delivered, or nothing is pending and no start block is configured. */
  ghost predicate NumbersRight(r: Agreement.Run, o: S.Origin) {
    HeadAt(r, o.subnet).Some? || (Pending(r, o.subnet).count == 0 && o.startBlock.None?)
  }

  /** The depth of the first certificate after the restart. */
  ghost function Base(r: Agreement.Run, o: S.Origin): nat {
    if o.head.None? then 0 else if HeadAt(r, o.subnet).Some? then o.headPosition + 1 else o.headPosition
  }

  lemma {:induction false} ResumeDepth(r: Agreement.Run, u: Universe, site: Site)
    requires Restarts(r, u, site)
    ensures var o, base := site.origin, Base(r, site.origin);
            if o.head.None? then base == 0 && HeadAt(r, o.subnet).None? && Pending(r, o.subnet).count == 0
            else && base > 0 && AtDepth(u, o.head.value, base - 1) && Of(u, o.head.value, o.subnet)
                 && (HeadAt(r, o.subnet).None? ==> Pending(r, o.subnet).count > 0)
  {
    hide Exec, Log, AdmissibleRun, ForkFree, AtDepth, P.SubmitsOnce, P.NoWrap;
    hide P.TellsChain, P.SourceHead, P.PoolOrder, V.Tally;
    P.ResumeIsDepth(r.validators, r.params, u, r.actions, site.origin.subnet);
  }

  /**
   * A sequencer restarted at the resume point numbers a certificate by its depth, so that block
   * numbers stay positions, if and only if something of the subnet is delivered, or nothing of it is
   * pending and no start block is configured.
   */
  lemma {:induction false} RestartNumbersIff(r: Agreement.Run, u: Universe, site: Site, i: nat)
    requires Restarts(r, u, site) && Minted(u, site) && i < |site.Worker().emitted|
    ensures var e := site.Worker().emitted[i];
            && AtDepth(After(u, site), e.certificate.id, Base(r, site.origin) + i)
            && (AtDepth(After(u, site), e.certificate.id, e.block) <==> NumbersRight(r, site.origin))
  {
    hide Exec, Restarts, HeadAt, Pending, NumbersRight, Base, AtDepth, AllKnown, After, S.Run, S.OneChain, Minted;
    var o, w, u', base := site.origin, site.Worker(), After(u, site), Base(r, site.origin);
    AfterIs(u, site);
    ResumeDepth(r, u, site);
    RestartRooted(r, u, site);
    NotInitial(u, site);
    S.EveryRunOneChain(site.mint, o, site.events);
    if o.head.Some? {
      DepthStays(u, u', o.head.value, base - 1);
    }
    EmittedDepth(u', o, w, base, i);
    EmittedChain(o, w, i);
    BlocksIff(r, u, site);
    OneDepth(u', w.emitted[i].certificate.id, base + i, w.emitted[i].block);
  }

  /** The blocks are numbered like the depths from the start, or not at all. */
  lemma BlocksIff(r: Agreement.Run, u: Universe, site: Site)
    requires Restarts(r, u, site) && site.Worker().emitted != []
    ensures Base(r, site.origin) == S.FirstBlock(site.origin) <==> NumbersRight(r, site.origin)
  {
    hide Restarts, HeadAt, Pending, AtDepth, S.Run;
    ResumeDepth(r, u, site);
    if site.origin.startBlock == Some(0) && site.origin.head.None? {
      S.NothingFromZero(site.mint, site.origin, site.events);
    }
  }

  /** The resume point is a certificate of the subnet, or there is none. */
  ghost predicate Rooted(u: Universe, o: S.Origin) {
    ForkFree(u, o.subnet) && (o.head.Some? ==> Of(u, o.head.value, o.subnet))
  }

  lemma RestartRooted(r: Agreement.Run, u: Universe, site: Site)
    requires Restarts(r, u, site)
    ensures Rooted(u, site.origin) && INITIAL_CERTIFICATE_ID !in u
  {
    ResumeDepth(r, u, site);
    hide Exec, AdmissibleRun, P.SubmitsOnce, P.NoWrap, AtDepth, HeadAt, Pending;
  }

  lemma NotInitial(u: Universe, site: Site)
    requires INITIAL_CERTIFICATE_ID !in u && Minted(u, site)
    ensures INITIAL_CERTIFICATE_ID !in After(u, site)
  {
    ByIdIs(site.Certificates());
    hide ById;
  }

  lemma {:induction false} OneDepth(u: Universe, id: CertificateId, k: nat, j: nat)
    requires AtDepth(u, id, k)
    ensures AtDepth(u, id, j) <==> j == k
  {
    if AtDepth(u, id, j) {
      DepthUnique(u, id, j, k);
    }
  }

  // ----- The subnet does not fork -----

  /** Some certificate of the subnet already follows the one the sequencer resumes from. */
  ghost predicate Overtaken(u: Universe, o: S.Origin) {
    exists x :: Of(u, x, o.subnet) && u[x].prevId == S.ChainStart(o)
  }

  /** The new certificates follow each other, the first one the resume point. */
  lemma NewLink(u: Universe, site: Site, i: nat)
    requires Minted(u, site) && S.OneChain(site.origin, site.Worker()) && i < |site.Worker().emitted|
    ensures var w, u' := site.Worker(), After(u, site);
            var c := w.emitted[i].certificate;
            && Known(u', c) && c.id !in u && c.id != INITIAL_CERTIFICATE_ID && c.source == site.origin.subnet
            && (i > 0 ==> c.prevId == w.emitted[i - 1].certificate.id && c.prevId !in u)
            && (i == 0 ==> c.prevId == S.ChainStart(site.origin))
  {
    AfterIs(u, site);
    hide S.Run, S.OneChain, After;
    EmittedChain(site.origin, site.Worker(), i);
    var w := site.Worker();
    assert site.Certificates()[i] == w.emitted[i].certificate;
    if i > 0 {
      assert site.Certificates()[i - 1] == w.emitted[i - 1].certificate;
    }
  }

  lemma NewIsEmitted(u: Universe, site: Site, id: CertificateId) returns (i: nat)
    requires Minted(u, site) && id in After(u, site) && id !in u
    ensures i < |site.Worker().emitted| && site.Worker().emitted[i].certificate.id == id
    ensures After(u, site)[id] == site.Worker().emitted[i].certificate
  {
    AfterIs(u, site);
    hide S.Run, After;
    var k :| 0 <= k < |site.Worker().emitted| && site.Worker().emitted[k].certificate.id == id;
    i := k;
    assert Known(After(u, site), site.Worker().emitted[i].certificate);
  }

  lemma Unnamed(u: Universe, site: Site, i: nat, x: CertificateId)
    requires Minted(u, site) && i < |site.Worker().emitted| && x in u
    ensures site.Worker().emitted[i].certificate.id != u[x].prevId
  {
    assert site.Certificates()[i] == site.Worker().emitted[i].certificate;
    hide S.Run;
  }

  lemma OldLink(u: Universe, site: Site, id: CertificateId)
    requires Minted(u, site) && id in u
    ensures id in After(u, site) && After(u, site)[id] == u[id]
    ensures u[id].prevId in After(u, site) <==> u[id].prevId in u
    ensures u[id].prevId in u ==> After(u, site)[u[id].prevId] == u[u[id].prevId]
  {
    AfterIs(u, site);
    hide S.Run, After;
    if u[id].prevId in After(u, site) && u[id].prevId !in u {
      var i := NewIsEmitted(u, site, u[id].prevId);
      Unnamed(u, site, i, id);
    }
  }

  lemma {:induction false} AfterNamed(u: Universe, site: Site, id: CertificateId)
    requires Minted(u, site) && S.OneChain(site.origin, site.Worker())
    requires Rooted(u, site.origin) && id in After(u, site)
    ensures var u', s := After(u, site), site.origin.subnet;
            && u'[id].id == id && id != INITIAL_CERTIFICATE_ID
            && (u'[id].prevId != INITIAL_CERTIFICATE_ID ==> (u'[id].source == s <==> Of(u', u'[id].prevId, s)))
  {
    hide S.Run, S.OneChain, After, Minted;
    if id in u {
      OldLink(u, site, id);
    } else {
      var i := NewIsEmitted(u, site, id);
      NewLink(u, site, i);
      if i > 0 {
        NewLink(u, site, i - 1);
      } else if site.origin.head.Some? {
        OldLink(u, site, site.origin.head.value);
      }
    }
  }

  /** Two new certificates, or an old and a new one, with the same predecessor. */
  lemma {:induction false} AfterAlone(u: Universe, site: Site, a: CertificateId, b: CertificateId)
    requires Minted(u, site) && S.OneChain(site.origin, site.Worker())
    requires Rooted(u, site.origin) && (site.Worker().emitted == [] || !Overtaken(u, site.origin))
    requires Of(After(u, site), a, site.origin.subnet) && Of(After(u, site), b, site.origin.subnet)
    requires After(u, site)[a].prevId == After(u, site)[b].prevId && b !in u
    ensures a == b
  {
    hide S.Run, S.OneChain, After, Overtaken;
    var j := NewIsEmitted(u, site, b);
    NewLink(u, site, j);
    if a in u {
      OldLink(u, site, a);
      NotOvertaking(u, site, a, j);
    } else {
      var i := NewIsEmitted(u, site, a);
      NewLink(u, site, i);
      SamePlace(u, site, i, j);
    }
  }

  lemma NotOvertaking(u: Universe, site: Site, a: CertificateId, j: nat)
    requires Minted(u, site) && Of(u, a, site.origin.subnet) && !Overtaken(u, site.origin)
    requires S.OneChain(site.origin, site.Worker()) && j < |site.Worker().emitted|
    ensures u[a].prevId != site.Worker().emitted[j].certificate.prevId
  {
    hide S.Run, S.OneChain;
    EmittedChain(site.origin, site.Worker(), j);
    if j > 0 {
      assert site.Certificates()[j - 1] == site.Worker().emitted[j - 1].certificate;
    }
  }

  lemma {:induction false} SamePlace(u: Universe, site: Site, i: nat, j: nat)
    requires Minted(u, site) && S.OneChain(site.origin, site.Worker()) && Rooted(u, site.origin)
    requires i < |site.Worker().emitted| && j < |site.Worker().emitted|
    requires site.Worker().emitted[i].certificate.prevId == site.Worker().emitted[j].certificate.prevId
    ensures i == j
  {
    hide S.Run, S.OneChain, After, Minted;
    NewLink(u, site, i);
    NewLink(u, site, j);
    if i > 0 { NewLink(u, site, i - 1); }
    if j > 0 { NewLink(u, site, j - 1); }
    if i > 0 && j > 0 {
      EmittedDiffer(u, site, i - 1, j - 1);
    }
  }

  lemma EmittedDiffer(u: Universe, site: Site, i: nat, j: nat)
    requires Minted(u, site) && i < |site.Worker().emitted| && j < |site.Worker().emitted|
    requires site.Worker().emitted[i].certificate.id == site.Worker().emitted[j].certificate.id
    ensures i == j
  {
    var certificates := site.Certificates();
    assert certificates[i] == site.Worker().emitted[i].certificate;
    assert certificates[j] == site.Worker().emitted[j].certificate;
    hide S.Run;
  }

  lemma {:induction false} AfterForkFree(u: Universe, site: Site)
    requires Minted(u, site) && S.OneChain(site.origin, site.Worker()) && Rooted(u, site.origin)
    requires site.Worker().emitted == [] || !Overtaken(u, site.origin)
    ensures ForkFree(After(u, site), site.origin.subnet)
  {
    var u', s := After(u, site), site.origin.subnet;
    hide S.Run, S.OneChain, After, Minted, Overtaken;
    forall id | id in u'
      ensures u'[id].id == id && id != INITIAL_CERTIFICATE_ID
      ensures u'[id].prevId != INITIAL_CERTIFICATE_ID ==> (u'[id].source == s <==> Of(u', u'[id].prevId, s))
    {
      AfterNamed(u, site, id);
    }
    forall a, b | Of(u', a, s) && Of(u', b, s) && u'[a].prevId == u'[b].prevId
      ensures a == b
    {
      if b !in u {
        AfterAlone(u, site, a, b);
      } else if a !in u {
        AfterAlone(u, site, b, a);
      } else {
        OldLink(u, site, a);
        OldLink(u, site, b);
      }
    }
  }

  lemma OvertakenForks(u: Universe, site: Site)
    requires Minted(u, site) && S.OneChain(site.origin, site.Worker())
    requires site.Worker().emitted != [] && Overtaken(u, site.origin)
    ensures !ForkFree(After(u, site), site.origin.subnet)
  {
    var u', s, first := After(u, site), site.origin.subnet, site.Worker().emitted[0].certificate;
    hide S.Run, S.OneChain, After, Minted;
    var x: CertificateId :| Of(u, x, s) && u[x].prevId == S.ChainStart(site.origin);
    OldLink(u, site, x);
    NewLink(u, site, 0);
    assert Of(u', x, s) && Of(u', first.id, s) && u'[x].prevId == u'[first.id].prevId && x != first.id;
  }

  /** The restart forks the subnet exactly if something already follows the resume point. */
  lemma {:induction false} RestartForkFreeIff(r: Agreement.Run, u: Universe, site: Site)
    requires Restarts(r, u, site) && Minted(u, site)
    ensures ForkFree(After(u, site), site.origin.subnet) <==>
            site.Worker().emitted == [] || !Overtaken(u, site.origin)
  {
    hide Restarts, S.Run, S.OneChain, After, Minted, Overtaken, ForkFree;
    RestartRooted(r, u, site);
    S.EveryRunOneChain(site.mint, site.origin, site.events);
    if site.Worker().emitted == [] || !Overtaken(u, site.origin) {
      AfterForkFree(u, site);
    } else {
      OvertakenForks(u, site);
    }
  }

  // ----- A validator that has everything -----

  /** The certificate is delivered here, pooled, or waits for its predecessor. */
  ghost predicate Here(st: V.Store, id: CertificateId) {
    || V.IsDelivered(st, id)
    || (exists i :: i in st.pools.pool && st.pools.pool[i].id == id)
    || (exists q :: q in st.pools.precedence && st.pools.precedence[q].id == id)
  }

  /** Every certificate of the subnet has reached this validator. */
  ghost predicate AllHere(st: V.Store, u: Universe, s: SubnetId) {
    forall id :: Of(u, id, s) ==> Here(st, id)
  }

  /** What is known of a validator's store and log, as far as the subnet is concerned. */
  ghost predicate Informed(st: V.Store, log: seq<CertificateDelivered>, u: Universe, s: SubnetId) {
    && P.PendInv(st, u, s) && Represents(st.tables, log) && CausallyOrdered(log)
    && KnownLog(log, u) && PositionsAreDepths(log, u, s)
  }

  lemma DeliveredFollows(st: V.Store, log: seq<CertificateDelivered>, u: Universe, s: SubnetId, x: CertificateId)
    requires Informed(st, log, u, s) && Of(u, x, s) && V.IsDelivered(st, x)
    ensures u[x].prevId == INITIAL_CERTIFICATE_ID || V.IsDelivered(st, u[x].prevId)
  {
    if u[x].prevId != INITIAL_CERTIFICATE_ID {
      PredecessorDelivered(log, u, u[x]);
    }
  }

  lemma WaitingFollows(st: V.Store, log: seq<CertificateDelivered>, u: Universe, s: SubnetId, x: CertificateId)
    requires Informed(st, log, u, s) && Of(u, x, s) && Here(st, x) && !V.IsDelivered(st, x)
    requires forall i :: i in st.pools.pool ==> st.pools.pool[i].id != x
    ensures u[x].prevId in st.pools.precedence && st.pools.precedence[u[x].prevId] == u[x]
    ensures u[x].prevId != INITIAL_CERTIFICATE_ID && !V.IsDelivered(st, u[x].prevId)
  {
    var q :| q in st.pools.precedence && st.pools.precedence[q].id == x;
    assert Known(u, st.pools.precedence[q]) && st.pools.precedence[q].prevId == q;
  }

  lemma PooledFollows(st: V.Store, log: seq<CertificateDelivered>, u: Universe, s: SubnetId, i: nat)
    requires Informed(st, log, u, s) && i in st.pools.pool
    ensures Known(u, st.pools.pool[i]) && V.PrevDelivered(st, st.pools.pool[i])
  {
  }

  /** Nothing here follows a pending certificate that nobody waits for. */
  lemma NothingBehindPending(st: V.Store, log: seq<CertificateDelivered>, u: Universe, s: SubnetId,
                             last: CertificateId, x: CertificateId)
    requires Informed(st, log, u, s) && Of(u, x, s) && Here(st, x) && last != INITIAL_CERTIFICATE_ID
    requires !V.IsDelivered(st, last) && last !in st.pools.precedence
    ensures u[x].prevId != last
  {
    hide Informed;
    if V.IsDelivered(st, x) {
      DeliveredFollows(st, log, u, s, x);
    } else if i :| i in st.pools.pool && st.pools.pool[i].id == x {
      PooledFollows(st, log, u, s, i);
    } else {
      WaitingFollows(st, log, u, s, x);
    }
  }

  /** With nothing pooled, nothing here follows the delivered head, or starts the subnet if there is none. */
  lemma {:induction false} NothingBehindHead(st: V.Store, log: seq<CertificateDelivered>, u: Universe, o: S.Origin,
                                             x: CertificateId)
    requires Informed(st, log, u, o.subnet) && Of(u, x, o.subnet) && Here(st, x)
    requires forall i :: i in st.pools.pool ==> st.pools.pool[i].source != o.subnet
    requires var n := Length(log, Source(o.subnet));
             if n == 0 then o.head.None? else o.head.Some? && AtDepth(u, o.head.value, n - 1)
    requires o.head.Some? ==> Of(u, o.head.value, o.subnet)
    ensures u[x].prevId != S.ChainStart(o)
  {
    hide Informed, AtDepth, Here, Members, V.IsDelivered;
    if V.IsDelivered(st, x) {
      DeliveredNotBehind(st, log, u, o, x);
    } else {
      NotPooled(st, log, u, o.subnet, x);
      WaitingFollows(st, log, u, o.subnet, x);
      if o.head.Some? { HeadDelivered(st, log, u, o); }
    }
  }

  lemma NotPooled(st: V.Store, log: seq<CertificateDelivered>, u: Universe, s: SubnetId, x: CertificateId)
    requires Informed(st, log, u, s) && Of(u, x, s)
    requires forall i :: i in st.pools.pool ==> st.pools.pool[i].source != s
    ensures forall i :: i in st.pools.pool ==> st.pools.pool[i].id != x
  {
    hide Informed;
    forall i | i in st.pools.pool ensures st.pools.pool[i].id != x { PooledFollows(st, log, u, s, i); }
  }

  lemma {:induction false} DeliveredNotBehind(st: V.Store, log: seq<CertificateDelivered>, u: Universe, o: S.Origin,
                                              x: CertificateId)
    requires Informed(st, log, u, o.subnet) && Of(u, x, o.subnet) && V.IsDelivered(st, x)
    requires var n := Length(log, Source(o.subnet));
             if n == 0 then o.head.None? else o.head.Some? && AtDepth(u, o.head.value, n - 1)
    requires o.head.Some? ==> Of(u, o.head.value, o.subnet)
    ensures u[x].prevId != S.ChainStart(o)
  {
    hide Informed, AtDepth, Members, V.IsDelivered;
    var k := StreamDepth(st, log, u, o.subnet, x);
    if u[x].prevId == S.ChainStart(o) {
      NamedNotInitial(st, log, u, o.subnet, o.head.value);
      SuccessorDepth(u, x, Length(log, Source(o.subnet)) - 1);
      DepthUnique(u, x, k, Length(log, Source(o.subnet)));
    }
  }

  lemma NamedNotInitial(st: V.Store, log: seq<CertificateDelivered>, u: Universe, s: SubnetId, id: CertificateId)
    requires Informed(st, log, u, s) && id in u
    ensures id != INITIAL_CERTIFICATE_ID
  {
  }

  /** A delivered certificate is at a depth below the length of the stream. */
  lemma {:induction false} StreamDepth(st: V.Store, log: seq<CertificateDelivered>, u: Universe, s: SubnetId,
                                       x: CertificateId)
    returns (k: nat)
    requires Informed(st, log, u, s) && Of(u, x, s) && V.IsDelivered(st, x)
    ensures k < Length(log, Source(s)) && AtDepth(u, x, k)
  {
    var d :| d in log && d.certificate.id == x;
    assert Known(u, d.certificate);
    k := InStream(log, d, Source(s));
  }

  lemma {:induction false} HeadDelivered(st: V.Store, log: seq<CertificateDelivered>, u: Universe, o: S.Origin)
    requires Informed(st, log, u, o.subnet) && o.head.Some? && Of(u, o.head.value, o.subnet)
    requires var n := Length(log, Source(o.subnet)); n > 0 && AtDepth(u, o.head.value, n - 1)
    ensures V.IsDelivered(st, o.head.value)
  {
    hide Informed, Members, AtDepth, ForkFree, LogIds;
    InformedLog(st, log, u, o.subnet);
    var k, n := Source(o.subnet), Length(log, Source(o.subnet));
    StreamKnown(log, u, o.subnet, n - 1);
    LevelUnique(u, o.subnet, o.head.value, Members(log, k)[n - 1].certificate.id, n - 1);
  }

  lemma InformedLog(st: V.Store, log: seq<CertificateDelivered>, u: Universe, s: SubnetId)
    requires Informed(st, log, u, s)
    ensures KnownLog(log, u) && PositionsAreDepths(log, u, s) && ForkFree(u, s)
    ensures st.tables.certificates.Keys == LogIds(log)
  {
  }

  lemma {:induction false} InformedHead(st: V.Store, log: seq<CertificateDelivered>, u: Universe, s: SubnetId)
    requires Informed(st, log, u, s)
    ensures P.SourceHead(st, s).Some? <==> Length(log, Source(s)) > 0
    ensures P.SourceHead(st, s).Some? ==>
              && Of(u, P.SourceHead(st, s).value.id, s)
              && AtDepth(u, P.SourceHead(st, s).value.id, Length(log, Source(s)) - 1)
  {
    hide P.SourceHead, AtDepth, Members, P.PendInv, Represents, PositionsAreDepths, KnownLog;
    P.HeadOfLog(st, log, u, s);
  }

  /** The two cases together. */
  lemma {:induction false} NobodyFollows(st: V.Store, log: seq<CertificateDelivered>, u: Universe, o: S.Origin,
                                         pending: V.Summary, x: CertificateId)
    requires Informed(st, log, u, o.subnet) && P.TellsChain(pending, st, log, u, o.subnet)
    requires P.Resume(P.SourceHead(st, o.subnet), pending) ==
             match o.head case None => None case Some(id) => Some(P.ResumePoint(id, o.headPosition))
    requires Of(u, x, o.subnet) && Here(st, x)
    ensures u[x].prevId != S.ChainStart(o)
  {
    hide Informed, Here, AtDepth, P.SourceHead, Members;
    InformedHead(st, log, u, o.subnet);
    if pending.count > 0 {
      NamedNotInitial(st, log, u, o.subnet, pending.last.value.id);
      NothingBehindPending(st, log, u, o.subnet, pending.last.value.id, x);
    } else {
      NothingBehindHead(st, log, u, o, x);
    }
  }

  /**
   * A restart at a validator that every certificate of the subnet has reached, delivered or pending,
   * does not fork the subnet.
   */
  lemma {:induction false} RestartKeepsForkFree(r: Agreement.Run, u: Universe, site: Site)
    requires Restarts(r, u, site) && Minted(u, site) && AllHere(r.Node().store, u, site.origin.subnet)
    ensures ForkFree(After(u, site), site.origin.subnet)
  {
    var o, st, log, pending := site.origin, r.Node().store, r.Deliveries(), Pending(r, site.origin.subnet);
    EveryForkFreeRun(r.validators, r.params, u, o.subnet, r.actions);
    P.EveryPendingRun(r.validators, r.params, u, o.subnet, r.actions);
    P.ResumeIsDepth(r.validators, r.params, u, r.actions, o.subnet);
    assert Informed(st, log, u, o.subnet);
    RestartForkFreeIff(r, u, site);
    hide Exec, Log, AdmissibleRun, P.SubmitsOnce, P.NoWrap, Informed, FullInv, P.PendInv, ForkFree, Here, After, Minted;
    hide P.TellsChain, P.SourceHead, P.PoolOrder, V.Tally, P.Resume, S.Run, P.ResumesRight;
    forall x | Of(u, x, o.subnet)
      ensures u[x].prevId != S.ChainStart(o)
    {
      assert Here(st, x);
      NobodyFollows(st, log, u, o, pending, x);
    }
  }

  /**
   * The restarted pipeline: wherever the certificate of a block is delivered after the restart, its
   * block number is its position if and only if something of the subnet was delivered at the
   * restart, or nothing of it was pending and no start block is configured.
   */
  lemma {:induction false} RestartPositions(r: Agreement.Run, u: Universe, site: Site, later: Agreement.Run, i: nat,
                                            p: nat)
    requires Restarts(r, u, site) && Minted(u, site) && AllHere(r.Node().store, u, site.origin.subnet)
    requires |After(u, site)| <= MAX_U64 && i < |site.Worker().emitted|
    requires AdmissibleRun(later.validators, later.params, After(u, site), site.origin.subnet, later.actions)
    requires At(later.Node().store.tables, Source(site.origin.subnet), p) ==
             Some(site.Worker().emitted[i].certificate.id)
    ensures p == site.Worker().emitted[i].block <==> NumbersRight(r, site.origin)
  {
    hide Restarts, Minted, AllHere, After, At, AtDepth, ForkFree, AdmissibleRun, NumbersRight, S.Run, Exec;
    RestartKeepsForkFree(r, u, site);
    RestartNumbersIff(r, u, site, i);
    var id := site.Worker().emitted[i].certificate.id;
    PositionIsDepth(later, After(u, site), site.origin.subnet, p, id);
    OneDepth(After(u, site), id, p, site.Worker().emitted[i].block);
  }
}
